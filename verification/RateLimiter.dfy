/** The request limiter of the release endpoint (internal/agentrelease/http.go): fixed windows per client and
    overall, with expired client entries removed now and then. */
module RateLimiter {
  import opened Common

  type Time = int

  type Client = string

  /** A zero end is `None`, as in an entry that does not exist. */
  datatype Window = Window(endsAt: Option<Time>, requests: nat)

  datatype State = State(clients: map<Client, Window>, global: Window, nextCleanup: Option<Time>)

  /** `max` per client and window; 64 times as many over all clients. */
  datatype Limits = Limits(max: nat, window: nat) {
    function Global(): nat { 64 * max }
  }

  datatype Request = Request(now: Time, client: Client)

  const EMPTY := State(map[], Window(None, 0), None)

  predicate Due(at: Option<Time>, now: Time) {
    at.None? || now >= at.value
  }

  /** The window in force at `now`. */
  function Roll(l: Limits, w: Window, now: Time): Window {
    if Due(w.endsAt, now) then Window(Some(now + l.window), 0) else w
  }

  function Entry(clients: map<Client, Window>, client: Client): Window {
    if client in clients then clients[client] else Window(None, 0)
  }

  function Alive(clients: map<Client, Window>, now: Time): map<Client, Window> {
    map c | c in clients && !Due(clients[c].endsAt, now) :: clients[c]
  }

  function Clean(l: Limits, s: State, now: Time): State {
    if Due(s.nextCleanup, now) then s.(clients := Alive(s.clients, now), nextCleanup := Some(now + l.window)) else s
  }

  function Count(w: Window): Window {
    w.(requests := w.requests + 1)
  }

  /** One request, with or without removing expired entries. */
  function Allow(l: Limits, s: State, r: Request, cleaning: bool): (State, bool) {
    var global := Roll(l, s.global, r.now);
    var s1 := s.(global := global);
    if global.requests >= l.Global() then (s1, false)
    else
      var s2 := if cleaning then Clean(l, s1, r.now) else s1;
      var current := Roll(l, Entry(s2.clients, r.client), r.now);
      if current.requests >= l.max then (s2, false)
      else (s2.(clients := s2.clients[r.client := Count(current)], global := Count(global)), true)
  }

  function Final(l: Limits, run: seq<Request>, cleaning: bool): State {
    if run == [] then EMPTY
    else Allow(l, Final(l, run[..|run| - 1], cleaning), run[|run| - 1], cleaning).0
  }

  /** The decision on the last request of a run. */
  predicate Admits(l: Limits, run: seq<Request>, cleaning: bool)
    requires run != []
  {
    Allow(l, Final(l, run[..|run| - 1], cleaning), run[|run| - 1], cleaning).1
  }

  predicate Monotone(run: seq<Request>) {
    forall i, j :: 0 <= i <= j < |run| ==> run[i].now <= run[j].now
  }

  // ---------------------------------------------------------------------------------------------
  // Removing entries changes no decision
  // ---------------------------------------------------------------------------------------------

  /** The entries kept are those of the limiter that never removes any, except that some expired ones are gone. */
  predicate Refines(s: State, plain: State, now: Time) {
    && s.global == plain.global
    && (forall c :: c in s.clients ==> c in plain.clients && s.clients[c] == plain.clients[c])
    && (forall c :: c in plain.clients && c !in s.clients ==> Due(plain.clients[c].endsAt, now))
  }

  lemma AllowRefines(l: Limits, s: State, plain: State, r: Request)
    requires Refines(s, plain, r.now)
    ensures Allow(l, s, r, true).1 == Allow(l, plain, r, false).1
    ensures Refines(Allow(l, s, r, true).0, Allow(l, plain, r, false).0, r.now)
  {
    var global := Roll(l, s.global, r.now);
    var s1 := s.(global := global);
    var s2 := Clean(l, s1, r.now);
    assert Refines(s2, plain.(global := global), r.now);
    assert Roll(l, Entry(s2.clients, r.client), r.now) == Roll(l, Entry(plain.clients, r.client), r.now);
  }

  /** With a monotone clock, every decision of every run is that of a limiter that never removes an entry. */
  lemma {:induction false} CleaningIsInvisible(l: Limits, run: seq<Request>)
    requires Monotone(run)
    ensures run != [] ==> Admits(l, run, true) == Admits(l, run, false)
    ensures run != [] ==> Refines(Final(l, run, true), Final(l, run, false), run[|run| - 1].now)
    decreases |run|
  {
    if run != [] {
      var init, r := run[..|run| - 1], run[|run| - 1];
      CleaningIsInvisible(l, init);
      assert Refines(Final(l, init, true), Final(l, init, false), r.now);
      AllowRefines(l, Final(l, init, true), Final(l, init, false), r);
    }
  }

  // ---------------------------------------------------------------------------------------------
  // How many requests an interval admits
  // ---------------------------------------------------------------------------------------------

  /** Admitted requests at times `from..from + window`, ends included; of one client, or of all (`None`). */
  function Admitted(l: Limits, run: seq<Request>, cleaning: bool, who: Option<Client>, from: Time): nat {
    if run == [] then 0
    else
      var r := run[|run| - 1];
      Admitted(l, run[..|run| - 1], cleaning, who, from)
      + (if Admits(l, run, cleaning) && from <= r.now <= from + l.window && (who.None? || who.value == r.client) then 1 else 0)
  }

  /** What `n` admissions since `from` say about a window with limit `max`. A window that covers `from` has
      counted them all; one that starts later has counted all but those of one window before it. */
  predicate Meter(l: Limits, w: Window, max: nat, from: Time, n: nat, latest: Time) {
    && w.requests <= max && n <= 2 * max
    && match w.endsAt
       case None => n == 0
       case Some(end) =>
         && end - l.window <= latest
         && (end <= from ==> n == 0)
         && (from < end <= from + l.window ==> n <= w.requests)
         && (from + l.window < end <= from + 2 * l.window ==> n <= max + w.requests)
  }

  lemma RollMeter(l: Limits, w: Window, max: nat, from: Time, n: nat, latest: Time, now: Time)
    requires Meter(l, w, max, from, n, latest) && latest <= now
    ensures Meter(l, Roll(l, w, now), max, from, n, now)
  {
  }

  lemma CountMeter(l: Limits, w: Window, max: nat, from: Time, n: nat, now: Time)
    requires Meter(l, w, max, from, n, now) && w.requests < max && !Due(w.endsAt, now)
    ensures Meter(l, Count(w), max, from, n + if from <= now <= from + l.window then 1 else 0, now)
  {
  }

  function WindowOf(s: State, who: Option<Client>): Window {
    if who.None? then s.global else Entry(s.clients, who.value)
  }

  function LimitOf(l: Limits, who: Option<Client>): nat {
    if who.None? then l.Global() else l.max
  }

  lemma AllowMeter(l: Limits, s: State, r: Request, who: Option<Client>, from: Time, n: nat, latest: Time)
    requires l.window > 0 && latest <= r.now
    requires Meter(l, WindowOf(s, who), LimitOf(l, who), from, n, latest)
    ensures
      var (s', ok) := Allow(l, s, r, false);
      var more := if ok && from <= r.now <= from + l.window && (who.None? || who.value == r.client) then 1 else 0;
      Meter(l, WindowOf(s', who), LimitOf(l, who), from, n + more, r.now)
  {
    var max := LimitOf(l, who);
    var w := WindowOf(s, who);
    var rolled := Roll(l, w, r.now);
    RollMeter(l, w, max, from, n, latest, r.now);
    if Allow(l, s, r, false).1 && (who.None? || who.value == r.client) {
      CountMeter(l, rolled, max, from, n, r.now);
    }
  }

  lemma {:induction false} RunMeter(l: Limits, run: seq<Request>, who: Option<Client>, from: Time, latest: Time)
    requires l.window > 0 && Monotone(run) && (run != [] ==> run[|run| - 1].now <= latest)
    ensures Meter(l, WindowOf(Final(l, run, false), who), LimitOf(l, who), from, Admitted(l, run, false, who, from), latest)
    decreases |run|
  {
    if run != [] {
      var init, r := run[..|run| - 1], run[|run| - 1];
      RunMeter(l, init, who, from, r.now);
      AllowMeter(l, Final(l, init, false), r, who, from, Admitted(l, init, false, who, from), r.now);
    }
  }

  lemma {:induction false} SameAdmitted(l: Limits, run: seq<Request>, who: Option<Client>, from: Time)
    requires Monotone(run)
    ensures Admitted(l, run, true, who, from) == Admitted(l, run, false, who, from)
    decreases |run|
  {
    if run != [] {
      SameAdmitted(l, run[..|run| - 1], who, from);
      CleaningIsInvisible(l, run);
    }
  }

  predicate Bounded(l: Limits, run: seq<Request>, who: Option<Client>, from: Time) {
    Admitted(l, run, true, who, from) <= 2 * LimitOf(l, who)
  }

  /** In every run, an interval one window long admits at most twice the maximum, per client and overall. */
  lemma AtMostTwice(l: Limits, run: seq<Request>, who: Option<Client>, from: Time)
    requires l.window > 0 && Monotone(run)
    ensures Bounded(l, run, who, from)
  {
    if run != [] {
      RunMeter(l, run, who, from, run[|run| - 1].now);
      SameAdmitted(l, run, who, from);
    }
  }

  // ---------------------------------------------------------------------------------------------
  // The bounds are reached
  // ---------------------------------------------------------------------------------------------

  function Burst(n: nat, r: Request): (run: seq<Request>)
    ensures |run| == n && forall i :: 0 <= i < n ==> run[i] == r
  {
    seq(n, i => r)
  }

  /** What the windows in force at `now` have counted, after a run without deletion. */
  function Counted(l: Limits, run: seq<Request>, who: Option<Client>, now: Time): nat {
    Roll(l, WindowOf(Final(l, run, false), who), now).requests
  }

  predicate Concerns(who: Option<Client>, r: Request) {
    who.None? || who.value == r.client
  }

  lemma OneMore(l: Limits, run: seq<Request>, r: Request, who: Option<Client>, from: Time)
    requires l.window > 0 && from <= r.now <= from + l.window
    requires Counted(l, run, Some(r.client), r.now) < l.max && Counted(l, run, None, r.now) < l.Global()
    ensures Counted(l, run + [r], who, r.now) == Counted(l, run, who, r.now) + if Concerns(who, r) then 1 else 0
    ensures Admitted(l, run + [r], false, who, from) == Admitted(l, run, false, who, from) + if Concerns(who, r) then 1 else 0
  {
    assert (run + [r])[..|run|] == run;
    assert Admits(l, run + [r], false);
  }

  lemma BurstSnoc(run: seq<Request>, r: Request, n: nat)
    ensures run + Burst(n + 1, r) == (run + Burst(n, r)) + [r]
  {
  }

  /** A burst that fits is admitted whole. */
  lemma {:induction false} BurstFits(l: Limits, run: seq<Request>, r: Request, n: nat, who: Option<Client>, from: Time)
    requires l.window > 0 && from <= r.now <= from + l.window
    requires Counted(l, run, Some(r.client), r.now) + n <= l.max && Counted(l, run, None, r.now) + n <= l.Global()
    ensures Counted(l, run + Burst(n, r), who, r.now) == Counted(l, run, who, r.now) + if Concerns(who, r) then n else 0
    ensures
      Admitted(l, run + Burst(n, r), false, who, from) == Admitted(l, run, false, who, from) + if Concerns(who, r) then n else 0
    decreases n
  {
    if n == 0 {
      assert run + Burst(0, r) == run;
    } else {
      BurstFits(l, run, r, n - 1, who, from);
      BurstFits(l, run, r, n - 1, Some(r.client), from);
      BurstFits(l, run, r, n - 1, None, from);
      BurstSnoc(run, r, n - 1);
      OneMore(l, run + Burst(n - 1, r), r, who, from);
    }
  }

  /** Every client sends its maximum at the same time. */
  function Rush(l: Limits, clients: seq<Client>, now: Time): seq<Request> {
    if clients == [] then []
    else Rush(l, clients[..|clients| - 1], now) + Burst(l.max, Request(now, clients[|clients| - 1]))
  }

  predicate DistinctClients(clients: seq<Client>) {
    forall i, j :: 0 <= i < j < |clients| ==> clients[i] != clients[j]
  }

  /** What a rush adds to a count. */
  function Share(l: Limits, clients: seq<Client>, who: Option<Client>): nat {
    if clients == [] then 0
    else
      var n := |clients| - 1;
      Share(l, clients[..n], who) + if who.None? || who.value == clients[n] then l.max else 0
  }

  lemma {:induction false} ShareOfAll(l: Limits, clients: seq<Client>)
    ensures Share(l, clients, None) == |clients| * l.max
    decreases |clients|
  {
    if clients != [] {
      ShareOfAll(l, clients[..|clients| - 1]);
      assert (|clients| - 1) * l.max + l.max == |clients| * l.max;
    }
  }

  lemma {:induction false} ShareOfOne(l: Limits, clients: seq<Client>, c: Client)
    requires DistinctClients(clients)
    ensures Share(l, clients, Some(c)) == if c in clients then l.max else 0
    decreases |clients|
  {
    if clients != [] {
      var n := |clients| - 1;
      ShareOfOne(l, clients[..n], c);
      assert c in clients <==> c in clients[..n] || c == clients[n];
    }
  }

  /** There is room for one client more. */
  lemma RoomForOne(l: Limits, clients: seq<Client>)
    requires clients != [] && DistinctClients(clients) && |clients| <= 64
    ensures
      var init, c := clients[..|clients| - 1], clients[|clients| - 1];
      Share(l, init, Some(c)) + l.max <= l.max && Share(l, init, None) + l.max <= l.Global()
  {
    var n := |clients| - 1;
    ShareOfOne(l, clients[..n], clients[n]);
    ShareOfAll(l, clients);
    MulGrows(|clients|, 64, l.max);
  }

  lemma MulGrows(a: nat, b: nat, m: nat)
    requires a <= b
    ensures a * m <= b * m
  {
  }

  /** No window in force has counted anything. */
  ghost predicate AllNew(l: Limits, run: seq<Request>, now: Time) {
    Counted(l, run, None, now) == 0 && forall c :: Counted(l, run, Some(c), now) == 0
  }

  /** A rush of distinct clients into new windows is admitted whole. */
  lemma {:induction false} RushFits(l: Limits, run: seq<Request>, clients: seq<Client>, now: Time, who: Option<Client>, from: Time)
    requires l.window > 0 && from <= now <= from + l.window && DistinctClients(clients) && |clients| <= 64 && AllNew(l, run, now)
    ensures Counted(l, run + Rush(l, clients, now), who, now) == Share(l, clients, who)
    ensures Admitted(l, run + Rush(l, clients, now), false, who, from) == Admitted(l, run, false, who, from) + Share(l, clients, who)
    decreases |clients|
  {
    if clients == [] {
      assert run + Rush(l, clients, now) == run;
    } else {
      var n := |clients| - 1;
      var init, c := clients[..n], clients[n];
      RushFits(l, run, init, now, who, from);
      RushFits(l, run, init, now, Some(c), from);
      RushFits(l, run, init, now, None, from);
      RoomForOne(l, clients);
      BurstFits(l, run + Rush(l, init, now), Request(now, c), l.max, who, from);
      assert run + Rush(l, clients, now) == run + Rush(l, init, now) + Burst(l.max, Request(now, c));
    }
  }

  /** The windows opened at 0 are over at the end of the interval. */
  lemma {:induction false} OpenedAtZero(l: Limits, run: seq<Request>, who: Option<Client>)
    requires l.window > 0 && forall i :: 0 <= i < |run| ==> run[i].now == 0
    ensures
      var end := WindowOf(Final(l, run, false), who).endsAt;
      end.None? || end.value == l.window
    decreases |run|
  {
    if run != [] {
      OpenedAtZero(l, run[..|run| - 1], who);
      OpenedAtZero(l, run[..|run| - 1], Some(run[|run| - 1].client));
    }
  }

  lemma {:induction false} RushTimes(l: Limits, clients: seq<Client>, now: Time)
    ensures forall i :: 0 <= i < |Rush(l, clients, now)| ==> Rush(l, clients, now)[i].now == now
    decreases |clients|
  {
    if clients != [] {
      RushTimes(l, clients[..|clients| - 1], now);
    }
  }

  /** For all limits, the factor two is reached, by every one of 64 clients and by all together: they send their
      maximum at the start of one window and at the start of the next. */
  lemma TwiceIsReached(l: Limits, clients: seq<Client>, client: Client) returns (run: seq<Request>)
    requires l.window > 0 && DistinctClients(clients) && |clients| == 64 && client in clients
    ensures Monotone(run)
    ensures Admitted(l, run, true, Some(client), 0) == 2 * l.max && Admitted(l, run, true, None, 0) == 2 * l.Global()
  {
    var first, second := Rush(l, clients, 0), Rush(l, clients, l.window);
    RushTimes(l, clients, 0);
    RushTimes(l, clients, l.window);
    run := first + second;
    TwoRushes(l, clients, Some(client));
    TwoRushes(l, clients, None);
    SameAdmitted(l, run, Some(client), 0);
    SameAdmitted(l, run, None, 0);
  }

  lemma NewAgain(l: Limits, clients: seq<Client>)
    requires l.window > 0
    ensures AllNew(l, Rush(l, clients, 0), l.window)
  {
    RushTimes(l, clients, 0);
    OpenedAtZero(l, Rush(l, clients, 0), None);
    forall c
      ensures Counted(l, Rush(l, clients, 0), Some(c), l.window) == 0
    {
      OpenedAtZero(l, Rush(l, clients, 0), Some(c));
    }
  }

  lemma TwoRushes(l: Limits, clients: seq<Client>, who: Option<Client>)
    requires l.window > 0 && DistinctClients(clients) && |clients| == 64 && (who.Some? ==> who.value in clients)
    ensures Admitted(l, Rush(l, clients, 0) + Rush(l, clients, l.window), false, who, 0) == 2 * LimitOf(l, who)
  {
    var none: seq<Request> := [];
    assert forall c :: Counted(l, none, Some(c), 0) == 0;
    assert AllNew(l, none, 0);
    RushFits(l, none, clients, 0, who, 0);
    assert none + Rush(l, clients, 0) == Rush(l, clients, 0);
    NewAgain(l, clients);
    RushFits(l, Rush(l, clients, 0), clients, l.window, who, 0);
    ShareOfAll(l, clients);
    if who.Some? {
      ShareOfOne(l, clients, who.value);
    }
  }

  // ---------------------------------------------------------------------------------------------
  // Who is admitted, told from the times and the earlier answers alone
  // ---------------------------------------------------------------------------------------------

  /** A window opens with the first request after the last one has ended. */
  function Opened(start: Option<Time>, window: nat, now: Time): Option<Time> {
    if start.None? || start.value + window <= now then Some(now) else start
  }

  /** When the window over all clients opened that was in force at the last request: every request may open it. */
  function GlobalStart(l: Limits, run: seq<Request>): Option<Time> {
    if run == [] then None
    else Opened(GlobalStart(l, run[..|run| - 1]), l.window, run[|run| - 1].now)
  }

  /** When the last window of a client opened: only a request that is admitted opens it. */
  function ClientStart(l: Limits, run: seq<Request>, answers: seq<bool>, client: Client): Option<Time>
    requires |answers| == |run|
  {
    if run == [] then None
    else
      var n := |run| - 1;
      var start := ClientStart(l, run[..n], answers[..n], client);
      if answers[n] && run[n].client == client then Opened(start, l.window, run[n].now) else start
  }

  /** How many requests were admitted from a time on; of one client, or of all (`None`). */
  function AdmittedSince(run: seq<Request>, answers: seq<bool>, who: Option<Client>, from: Time): nat
    requires |answers| == |run|
  {
    if run == [] then 0
    else
      var n := |run| - 1;
      AdmittedSince(run[..n], answers[..n], who, from)
      + if answers[n] && from <= run[n].now && (who.None? || who.value == run[n].client) then 1 else 0
  }

  /** What a window that opened at `start` has admitted, if it is in force. */
  function Used(run: seq<Request>, answers: seq<bool>, who: Option<Client>, start: Option<Time>, window: nat, now: Time): nat
    requires |answers| == |run|
  {
    if start.Some? && now < start.value + window then AdmittedSince(run, answers, who, start.value) else 0
  }

  /** Fewer than the maximum of its client's requests were admitted in the client's window, and fewer than 64 times as
      many of all requests in the window over all clients. */
  predicate Entitled(l: Limits, run: seq<Request>, answers: seq<bool>, r: Request)
    requires |answers| == |run|
  {
    && Used(run, answers, Some(r.client), ClientStart(l, run, answers, r.client), l.window, r.now) < l.max
    && Used(run, answers, None, GlobalStart(l, run), l.window, r.now) < 64 * l.max
  }

  function EndOf(start: Option<Time>, window: nat): Option<Time> {
    if start.None? then None else Some(start.value + window)
  }

  /** The windows of a limiter say what was admitted in them. */
  ghost predicate Tallies(l: Limits, run: seq<Request>, answers: seq<bool>, s: State)
    requires |answers| == |run|
  {
    && TalliesWindow(run, answers, None, GlobalStart(l, run), l.window, s.global)
    && forall c :: TalliesWindow(run, answers, Some(c), ClientStart(l, run, answers, c), l.window, Entry(s.clients, c))
  }

  predicate TalliesWindow(run: seq<Request>, answers: seq<bool>, who: Option<Client>, start: Option<Time>, window: nat, w: Window)
    requires |answers| == |run|
  {
    && w.endsAt == EndOf(start, window)
    && (start.None? ==> AllRefused(run, answers, who))
    && (start.Some? ==> w.requests == AdmittedSince(run, answers, who, start.value) && Before(run, answers, who, start.value + window))
  }

  predicate AllRefused(run: seq<Request>, answers: seq<bool>, who: Option<Client>)
    requires |answers| == |run|
  {
    forall i :: 0 <= i < |run| && answers[i] ==> who.Some? && who.value != run[i].client
  }

  /** All that was admitted came before `end`. */
  predicate Before(run: seq<Request>, answers: seq<bool>, who: Option<Client>, end: Time)
    requires |answers| == |run|
  {
    forall i :: 0 <= i < |run| && answers[i] && (who.None? || who.value == run[i].client) ==> run[i].now < end
  }

  lemma {:induction false} NoneSince(run: seq<Request>, answers: seq<bool>, who: Option<Client>, from: Time)
    requires |answers| == |run| && (AllRefused(run, answers, who) || Before(run, answers, who, from))
    ensures AdmittedSince(run, answers, who, from) == 0
    decreases |run|
  {
    if run != [] {
      var n := |run| - 1;
      if AllRefused(run, answers, who) {
        assert AllRefused(run[..n], answers[..n], who);
      } else {
        assert Before(run[..n], answers[..n], who, from);
      }
      NoneSince(run[..n], answers[..n], who, from);
    }
  }

  /** What a window counts is what it has admitted, if it is in force at the next request. */
  lemma RolledTallies(l: Limits, run: seq<Request>, answers: seq<bool>, who: Option<Client>, start: Option<Time>, w: Window, now: Time)
    requires |answers| == |run| && TalliesWindow(run, answers, who, start, l.window, w)
    ensures Roll(l, w, now).requests == Used(run, answers, who, start, l.window, now)
  {
  }

  lemma Snoc(l: Limits, run: seq<Request>, answers: seq<bool>, r: Request, ok: bool, who: Option<Client>, from: Time)
    requires |answers| == |run|
    ensures AdmittedSince(run + [r], answers + [ok], who, from)
         == AdmittedSince(run, answers, who, from) + if ok && from <= r.now && (who.None? || who.value == r.client) then 1 else 0
    ensures GlobalStart(l, run + [r]) == Opened(GlobalStart(l, run), l.window, r.now)
    ensures who.Some? ==>
      var start := ClientStart(l, run, answers, who.value);
      ClientStart(l, run + [r], answers + [ok], who.value) == if ok && who.value == r.client then Opened(start, l.window, r.now) else start
  {
    assert (run + [r])[..|run|] == run && (answers + [ok])[..|run|] == answers;
  }

  /** The next request opens the window or finds it in force, and is counted in it if it is admitted. */
  lemma NextTally(l: Limits, run: seq<Request>, answers: seq<bool>, who: Option<Client>, start: Option<Time>, w: Window, r: Request, ok: bool, w': Window)
    requires |answers| == |run| && TalliesWindow(run, answers, who, start, l.window, w) && l.window > 0
    requires start.Some? ==> start.value <= r.now
    requires who.None? || who.value == r.client
    requires w' == if ok then Count(Roll(l, w, r.now)) else Roll(l, w, r.now)
    ensures TalliesWindow(run + [r], answers + [ok], who, Opened(start, l.window, r.now), l.window, w')
  {
    var start' := Opened(start, l.window, r.now).value;
    Snoc(l, run, answers, r, ok, who, start');
    if start.None? || start.value + l.window <= r.now {
      NoneSince(run, answers, who, r.now);
    }
  }

  /** A request that is none of the window's, or is refused without opening it. */
  lemma SameTally(l: Limits, run: seq<Request>, answers: seq<bool>, who: Option<Client>, start: Option<Time>, w: Window, r: Request, ok: bool)
    requires |answers| == |run| && TalliesWindow(run, answers, who, start, l.window, w)
    requires !ok || (who.Some? && who.value != r.client)
    ensures TalliesWindow(run + [r], answers + [ok], who, start, l.window, w)
  {
    if start.Some? {
      Snoc(l, run, answers, r, ok, who, start.value);
    }
  }

  lemma {:induction false} StartsBefore(l: Limits, run: seq<Request>, answers: seq<bool>, who: Option<Client>, now: Time)
    requires |answers| == |run| && forall i :: 0 <= i < |run| ==> run[i].now <= now
    ensures who.None? && GlobalStart(l, run).Some? ==> GlobalStart(l, run).value <= now
    ensures who.Some? && ClientStart(l, run, answers, who.value).Some? ==> ClientStart(l, run, answers, who.value).value <= now
    decreases |run|
  {
    if run != [] {
      StartsBefore(l, run[..|run| - 1], answers[..|run| - 1], who, now);
    }
  }

  lemma NextTallies(l: Limits, run: seq<Request>, answers: seq<bool>, s: State, r: Request)
    requires |answers| == |run| && l.window > 0 && Tallies(l, run, answers, s)
    requires forall i :: 0 <= i < |run| ==> run[i].now <= r.now
    ensures Allow(l, s, r, false).1 <==> Entitled(l, run, answers, r)
    ensures Tallies(l, run + [r], answers + [Allow(l, s, r, false).1], Allow(l, s, r, false).0)
  {
    var (s', ok) := Allow(l, s, r, false);
    var start := ClientStart(l, run, answers, r.client);
    assert TalliesWindow(run, answers, Some(r.client), start, l.window, Entry(s.clients, r.client));
    RolledTallies(l, run, answers, None, GlobalStart(l, run), s.global, r.now);
    RolledTallies(l, run, answers, Some(r.client), start, Entry(s.clients, r.client), r.now);
    StartsBefore(l, run, answers, None, r.now);
    NextTally(l, run, answers, None, GlobalStart(l, run), s.global, r, ok, s'.global);
    Snoc(l, run, answers, r, ok, None, 0);
    forall c
      ensures TalliesWindow(run + [r], answers + [ok], Some(c), ClientStart(l, run + [r], answers + [ok], c), l.window, Entry(s'.clients, c))
    {
      ClientTallies(l, run, answers, s, r, c);
    }
  }

  lemma ClientTallies(l: Limits, run: seq<Request>, answers: seq<bool>, s: State, r: Request, c: Client)
    requires |answers| == |run| && l.window > 0 && Tallies(l, run, answers, s)
    requires forall i :: 0 <= i < |run| ==> run[i].now <= r.now
    ensures
      var (s', ok) := Allow(l, s, r, false);
      TalliesWindow(run + [r], answers + [ok], Some(c), ClientStart(l, run + [r], answers + [ok], c), l.window, Entry(s'.clients, c))
  {
    var (s', ok) := Allow(l, s, r, false);
    var start := ClientStart(l, run, answers, c);
    assert TalliesWindow(run, answers, Some(c), start, l.window, Entry(s.clients, c));
    Snoc(l, run, answers, r, ok, Some(c), 0);
    if ok && c == r.client {
      StartsBefore(l, run, answers, Some(c), r.now);
      NextTally(l, run, answers, Some(c), start, Entry(s.clients, c), r, ok, Entry(s'.clients, c));
    } else {
      SameTally(l, run, answers, Some(c), start, Entry(s.clients, c), r, ok);
    }
  }

  /** In every run with a monotone clock, every answer is what the times and the answers before it entitle to. */
  ghost predicate AnswersAsEntitled(l: Limits, run: seq<Request>, answers: seq<bool>) {
    |answers| <= |run| && forall i :: 0 <= i < |answers| ==> (answers[i] <==> Entitled(l, run[..i], answers[..i], run[i]))
  }

  lemma {:induction false} RunTallies(l: Limits, run: seq<Request>, answers: seq<bool>, n: nat)
    requires l.window > 0 && Monotone(run) && |answers| == |run| && Answered(l, run, answers) && n <= |run|
    ensures Tallies(l, run[..n], answers[..n], Final(l, run[..n], false))
    decreases n
  {
    if n == 0 {
      EmptyTallies(l);
    } else {
      var i := n - 1;
      RunTallies(l, run, answers, i);
      PrefixSnoc(l, run, answers, i, n);
      LastTallies(l, run[..i], answers[..i], run[i], run[..n], answers[..n]);
    }
  }

  lemma PrefixSnoc(l: Limits, run: seq<Request>, answers: seq<bool>, i: nat, n: nat)
    requires |answers| == |run| && Answered(l, run, answers) && n == i + 1 <= |run|
    ensures run[..n] == run[..i] + [run[i]] && answers[..n] == answers[..i] + [Admits(l, run[..n], false)]
  {
  }

  lemma LastTallies(l: Limits, before: seq<Request>, answers: seq<bool>, r: Request, run: seq<Request>, answers': seq<bool>)
    requires l.window > 0 && |answers| == |before| && Tallies(l, before, answers, Final(l, before, false))
    requires forall i :: 0 <= i < |before| ==> before[i].now <= r.now
    requires run == before + [r] && answers' == answers + [Admits(l, run, false)]
    ensures Tallies(l, run, answers', Final(l, run, false))
  {
    NextTallies(l, before, answers, Final(l, before, false), r);
    assert run[..|run| - 1] == before;
  }

  lemma EmptyTallies(l: Limits)
    ensures Tallies(l, [], [], EMPTY)
  {
  }

  lemma AllEntitled(l: Limits, run: seq<Request>, answers: seq<bool>)
    requires l.window > 0 && Monotone(run) && |answers| == |run| && Answered(l, run, answers)
    ensures AnswersAsEntitled(l, run, answers)
  {
    forall i | 0 <= i < |answers|
      ensures answers[i] <==> Entitled(l, run[..i], answers[..i], run[i])
    {
      EntitledAt(l, run, answers, i);
    }
  }

  lemma EntitledAt(l: Limits, run: seq<Request>, answers: seq<bool>, i: nat)
    requires l.window > 0 && Monotone(run) && |answers| == |run| && Answered(l, run, answers) && i < |run|
    ensures answers[i] <==> Entitled(l, run[..i], answers[..i], run[i])
  {
    RunTallies(l, run, answers, i);
    NextTallies(l, run[..i], answers[..i], Final(l, run[..i], false), run[i]);
    LastAdmits(l, run, i);
  }

  lemma LastAdmits(l: Limits, run: seq<Request>, i: nat)
    requires i < |run|
    ensures Admits(l, run[..i + 1], false) == Allow(l, Final(l, run[..i], false), run[i], false).1
  {
    assert run[..i + 1][..i] == run[..i];
  }

  /** `answers` are the decisions of a limiter that never removes an entry. */
  predicate Answered(l: Limits, run: seq<Request>, answers: seq<bool>) {
    |answers| <= |run| && forall i :: 0 <= i < |answers| ==> answers[i] == Admits(l, run[..i + 1], false)
  }

  // ---------------------------------------------------------------------------------------------
  // What removing entries achieves
  // ---------------------------------------------------------------------------------------------

  /** Every entry was in force at the last cleanup, or was opened since. */
  ghost predicate Swept(l: Limits, s: State, latest: Time) {
    match s.nextCleanup
    case None => s.clients == map[]
    case Some(next) =>
      && next <= latest + l.window
      && forall c :: c in s.clients ==> s.clients[c].endsAt.Some? && s.clients[c].endsAt.value > next - l.window
  }

  lemma AllowSweeps(l: Limits, s: State, r: Request, latest: Time)
    requires l.window > 0 && Swept(l, s, latest) && latest <= r.now
    ensures Swept(l, Allow(l, s, r, true).0, r.now)
    ensures Allow(l, s, r, true).1 ==> Allow(l, s, r, true).0.nextCleanup.Some? && Allow(l, s, r, true).0.nextCleanup.value > r.now
  {
  }

  lemma {:induction false} RunSweeps(l: Limits, run: seq<Request>, latest: Time)
    requires l.window > 0 && Monotone(run) && (run != [] ==> run[|run| - 1].now <= latest)
    ensures Swept(l, Final(l, run, true), latest)
    decreases |run|
  {
    if run != [] {
      var n := |run| - 1;
      RunSweeps(l, run[..n], run[n].now);
      AllowSweeps(l, Final(l, run[..n], true), run[n], run[n].now);
    }
  }

  /** When a request is admitted, no entry is kept whose window ended a window ago or earlier. */
  lemma EntriesAreRecent(l: Limits, run: seq<Request>)
    requires l.window > 0 && Monotone(run) && run != [] && Admits(l, run, true)
    ensures
      var clients := Final(l, run, true).clients;
      forall c :: c in clients ==> clients[c].endsAt.Some? && clients[c].endsAt.value > run[|run| - 1].now - l.window
  {
    var n := |run| - 1;
    RunSweeps(l, run[..n], run[n].now);
    AllowSweeps(l, Final(l, run[..n], true), run[n], run[n].now);
  }

  // ---------------------------------------------------------------------------------------------
  // The limiter itself
  // ---------------------------------------------------------------------------------------------

  class ReleaseLimits {
    const limits: Limits
    var clients: map<Client, Window>
    var global: Window
    var nextCleanup: Option<Time>

    function Contents(): State
      reads this
    {
      State(clients, global, nextCleanup)
    }

    constructor (limits: Limits)
      ensures this.limits == limits && Contents() == EMPTY
    {
      this.limits := limits;
      clients := map[];
      global := Window(None, 0);
      nextCleanup := None;
    }

    /** Deletes the expired entries one by one. */
    method RemoveExpired(now: Time)
      modifies this`clients
      ensures clients == Alive(old(clients), now)
    {
      ghost var before := clients;
      var keys := clients.Keys;
      while keys != {}
        invariant keys <= before.Keys
        invariant forall c :: c in clients <==> c in before && (c in keys || !Due(before[c].endsAt, now))
        invariant forall c :: c in clients ==> clients[c] == before[c]
        decreases |keys|
      {
        var key :| key in keys;
        keys := keys - {key};
        if Due(clients[key].endsAt, now) {
          clients := clients - {key};
        }
      }
    }

    method AllowRequest(now: Time, client: Client) returns (ok: bool)
      modifies this
      ensures (Contents(), ok) == Allow(limits, old(Contents()), Request(now, client), true)
    {
      if global.endsAt.None? || now >= global.endsAt.value {
        global := Window(Some(now + limits.window), 0);
      }
      if global.requests >= limits.Global() {
        return false;
      }
      if nextCleanup.None? || now >= nextCleanup.value {
        RemoveExpired(now);
        nextCleanup := Some(now + limits.window);
      }
      var current := Entry(clients, client);
      if current.endsAt.None? || now >= current.endsAt.value {
        current := Window(Some(now + limits.window), 0);
      }
      if current.requests >= limits.max {
        return false;
      }
      current := Count(current);
      clients := clients[client := current];
      global := Count(global);
      return true;
    }
  }

  lemma AnsweredNext(l: Limits, run: seq<Request>, answers: seq<bool>)
    requires Answered(l, run, answers) && |answers| < |run|
    ensures Answered(l, run, answers + [Admits(l, run[..|answers| + 1], false)])
  {
  }

  /** What the limiter answers to the next request of a run. */
  lemma NextAnswer(l: Limits, run: seq<Request>, k: nat)
    requires Monotone(run) && k < |run|
    ensures Allow(l, Final(l, run[..k], true), run[k], true) == (Final(l, run[..k + 1], true), Admits(l, run[..k + 1], false))
  {
    assert run[..k + 1][..k] == run[..k];
    CleaningIsInvisible(l, run[..k + 1]);
  }

  lemma EveryBound(l: Limits, run: seq<Request>)
    requires l.window > 0 && Monotone(run)
    ensures forall who, from :: Bounded(l, run, who, from)
  {
    forall who, from
      ensures Bounded(l, run, who, from)
    {
      AtMostTwice(l, run, who, from);
    }
  }

  /** A new limiter over any run with a monotone clock: every answer follows from the times and the earlier answers,
      and any interval one window long admits at most twice the maximum. */
  method Serve(l: Limits, run: seq<Request>) returns (answers: seq<bool>)
    requires l.window > 0 && Monotone(run)
    ensures |answers| == |run| && AnswersAsEntitled(l, run, answers) && Answered(l, run, answers)
    ensures forall who, from :: Bounded(l, run, who, from)
  {
    var limiter := new ReleaseLimits(l);
    answers := [];
    for k := 0 to |run|
      invariant limiter.limits == l && fresh(limiter) && limiter.Contents() == Final(l, run[..k], true)
      invariant |answers| == k && Answered(l, run, answers)
    {
      NextAnswer(l, run, k);
      AnsweredNext(l, run, answers);
      var ok := limiter.AllowRequest(run[k].now, run[k].client);
      answers := answers + [ok];
    }
    EveryBound(l, run);
    AllEntitled(l, run, answers);
  }
}
