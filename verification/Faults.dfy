/** The fault schedule that the atomic steps of a file protocol consult. */
module Faults {

  /** What happens to one step: it goes through, fails without effect, takes effect and still reports an error, or
      never happens because the process dies. */
  datatype Fault = Fine | Error | LateError | Crash

  datatype Outcome = Done | Failed | Crashed

  /** What the caller of a step gets to see. */
  function Ending(fault: Fault): Outcome {
    match fault
    case Fine => Done
    case Crash => Crashed
    case _ => Failed
  }

  function First(faults: seq<Fault>): Fault {
    if faults == [] then Fine else faults[0]
  }

  function Drop(faults: seq<Fault>, n: nat): seq<Fault> {
    if n <= |faults| then faults[n..] else []
  }

  /** The schedule lets `n` steps pass. */
  predicate Calm(faults: seq<Fault>, n: nat)
    decreases n
  {
    n == 0 || (First(faults) == Fine && Calm(Drop(faults, 1), n - 1))
  }

  /** How many steps pass before the schedule disturbs one; the length of a schedule that disturbs none. */
  function Luck(faults: seq<Fault>): nat {
    if faults == [] || faults[0] != Fine then 0 else 1 + Luck(faults[1..])
  }

  lemma {:induction false} CalmOn(faults: seq<Fault>, a: nat, b: nat)
    ensures Calm(faults, a + b) <==> Calm(faults, a) && Calm(Drop(faults, a), b)
    ensures Drop(Drop(faults, a), b) == Drop(faults, a + b)
    decreases a
  {
    if a > 0 {
      CalmOn(Drop(faults, 1), a - 1, b);
      assert Drop(Drop(faults, 1), a - 1) == Drop(faults, a);
    }
  }

  lemma CalmNext(faults: seq<Fault>, n: nat)
    ensures Calm(faults, n + 1) <==> Calm(faults, n) && First(Drop(faults, n)) == Fine
    ensures Drop(Drop(faults, n), 1) == Drop(faults, n + 1)
  {
    CalmOn(faults, n, 1);
    assert Calm(Drop(Drop(faults, n), 1), 0);
  }

  lemma Disturbed(faults: seq<Fault>, n: nat, total: nat)
    requires n < total && First(Drop(faults, n)) != Fine
    ensures !Calm(faults, total)
  {
    CalmOn(faults, n, total - n);
  }

  /** The first disturbed step is the one after as many steps as pass. */
  lemma {:induction false} StopsAt(faults: seq<Fault>, n: nat)
    requires Calm(faults, n) && First(Drop(faults, n)) != Fine
    ensures Luck(faults) == n
    decreases n
  {
    if n > 0 {
      assert Drop(Drop(faults, 1), n - 1) == Drop(faults, n);
      StopsAt(Drop(faults, 1), n - 1);
    }
  }

  lemma {:induction false} Stops(faults: seq<Fault>, total: nat)
    requires !Calm(faults, total)
    ensures Luck(faults) < total && Calm(faults, Luck(faults)) && First(Drop(faults, Luck(faults))) != Fine
    decreases total
  {
    if First(faults) == Fine {
      if faults == [] {
        NoFaults(total);
      } else {
        Stops(Drop(faults, 1), total - 1);
      }
    }
  }

  /** A schedule that lets `n` steps pass and disturbs the next one. */
  lemma StoppedAt(faults: seq<Fault>, n: nat, total: nat)
    requires Calm(faults, n) && First(Drop(faults, n)) != Fine && n < total
    ensures Luck(faults) == n && !Calm(faults, total)
  {
    StopsAt(faults, n);
    Disturbed(faults, n, total);
  }

  lemma DropDrop(faults: seq<Fault>, a: nat, b: nat)
    ensures Drop(Drop(faults, a), b) == Drop(faults, a + b)
  {
  }

  /** What passes before a disturbance, counted from the `n`th step on. */
  lemma {:induction false} LuckAfter(faults: seq<Fault>, n: nat, total: nat)
    requires Calm(faults, n) && !Calm(Drop(faults, n), total)
    ensures Luck(faults) == n + Luck(Drop(faults, n))
    decreases n
  {
    if n > 0 {
      if faults == [] {
        NoFaults(total);
      } else {
        DropDrop(faults, 1, n - 1);
        LuckAfter(Drop(faults, 1), n - 1, total);
      }
    }
  }

  function Quiet(n: nat): seq<Fault> {
    seq(n, i => Fine)
  }

  lemma {:induction false} QuietAhead(n: nat, rest: seq<Fault>)
    ensures Calm(Quiet(n) + rest, n) && Drop(Quiet(n) + rest, n) == rest
    decreases n
  {
    if n > 0 {
      QuietAhead(n - 1, rest);
      assert Drop(Quiet(n) + rest, 1) == Quiet(n - 1) + rest;
    } else {
      assert Quiet(n) + rest == rest;
    }
  }

  lemma {:induction false} NoFaults(n: nat)
    ensures Calm([], n)
  {
    if n > 0 {
      NoFaults(n - 1);
    }
  }
}
