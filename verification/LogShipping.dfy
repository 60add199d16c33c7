/** The agent's spool, the server's log service and the upload loop, over many streams
    (internal/logstream/spool.go, internal/logstream/service.go, internal/agent/log_client.go). */
module LogShipping {
  import opened Common
  import opened LogSplit
  import opened LogProtocol

  datatype Key = Key(run: nat, token: nat, stream: nat)

  /** The chunk files of every stream, by sequence number. */
  type Files = map<Key, map<nat, Content>>

  /** The length of a chunk's encoded file. */
  type Size = (Key, nat, Content) -> nat

  function PendingOf(files: Files, key: Key): map<nat, Content> {
    if key in files then files[key] else map[]
  }

  function CursorOf(cursors: map<Key, nat>, key: Key): Option<nat> {
    if key in cursors then Some(cursors[key]) else None
  }

  function StoredOf(stored: map<Key, seq<Content>>, key: Key): seq<Content> {
    if key in stored then stored[key] else []
  }

  // ---------------------------------------------------------------------------------------------
  // Sizes
  // ---------------------------------------------------------------------------------------------

  ghost function StreamTotal(key: Key, pending: map<nat, Content>, size: Size): nat {
    if pending == map[] then 0
    else
      var k :| k in pending;
      size(key, k, pending[k]) + StreamTotal(key, pending - {k}, size)
  }

  /** The total size of the chunk files. */
  ghost function Total(files: Files, size: Size): nat {
    if files == map[] then 0
    else
      var key :| key in files;
      StreamTotal(key, files[key], size) + Total(files - {key}, size)
  }

  lemma {:induction false} StreamRemove(key: Key, pending: map<nat, Content>, size: Size, k: nat)
    requires k in pending
    ensures StreamTotal(key, pending, size) == size(key, k, pending[k]) + StreamTotal(key, pending - {k}, size)
    decreases |pending|
  {
    var j :| j in pending && StreamTotal(key, pending, size) == size(key, j, pending[j]) + StreamTotal(key, pending - {j}, size);
    if j != k {
      StreamRemove(key, pending - {j}, size, k);
      StreamRemove(key, pending - {k}, size, j);
      assert pending - {j} - {k} == pending - {k} - {j};
    }
  }

  lemma {:induction false} TotalRemove(files: Files, size: Size, key: Key)
    requires key in files
    ensures Total(files, size) == StreamTotal(key, files[key], size) + Total(files - {key}, size)
    decreases |files|
  {
    var other :| other in files && Total(files, size) == StreamTotal(other, files[other], size) + Total(files - {other}, size);
    if other != key {
      TotalRemove(files - {other}, size, key);
      TotalRemove(files - {key}, size, other);
      assert files - {other} - {key} == files - {key} - {other};
    }
  }

  lemma TotalReplace(files: Files, size: Size, key: Key, pending: map<nat, Content>)
    ensures Total(files[key := pending], size)
         == Total(files, size) - StreamTotal(key, PendingOf(files, key), size) + StreamTotal(key, pending, size)
    ensures StreamTotal(key, PendingOf(files, key), size) <= Total(files, size)
  {
    var r := files[key := pending];
    TotalRemove(r, size, key);
    assert r - {key} == files - {key};
    if key in files {
      TotalRemove(files, size, key);
    } else {
      assert files - {key} == files;
    }
  }

  /** Writing a chunk file under a new number. */
  lemma TotalWrite(files: Files, size: Size, key: Key, k: nat, content: Content)
    requires k !in PendingOf(files, key)
    ensures Total(files[key := PendingOf(files, key)[k := content]], size) == Total(files, size) + size(key, k, content)
  {
    var pending := PendingOf(files, key);
    StreamRemove(key, pending[k := content], size, k);
    assert pending[k := content] - {k} == pending;
    TotalReplace(files, size, key, pending[k := content]);
  }

  /** Deleting a chunk file. */
  lemma TotalDelete(files: Files, size: Size, key: Key, k: nat)
    requires k in PendingOf(files, key)
    ensures Total(files[key := PendingOf(files, key) - {k}], size) == Total(files, size) - size(key, k, PendingOf(files, key)[k])
  {
    StreamRemove(key, PendingOf(files, key), size, k);
    TotalReplace(files, size, key, PendingOf(files, key) - {k});
  }

  /** The total size of chunks written under the numbers from `next` on. */
  function Bytes(key: Key, next: nat, chunks: seq<Content>, size: Size): nat {
    if chunks == [] then 0
    else Bytes(key, next, chunks[..|chunks| - 1], size) + size(key, next + |chunks| - 1, chunks[|chunks| - 1])
  }

  lemma BytesStep(key: Key, next: nat, chunks: seq<Content>, chunk: Content, size: Size)
    ensures Bytes(key, next, chunks + [chunk], size) == Bytes(key, next, chunks, size) + size(key, next + |chunks|, chunk)
  {
    assert (chunks + [chunk])[..|chunks|] == chunks;
  }

  lemma ExtendsStep(pending: map<nat, Content>, next: nat, chunks: seq<Content>, chunk: Content, extended: map<nat, Content>)
    requires Extends(pending, next, chunks, extended)
    ensures Extends(pending, next, chunks + [chunk], extended[next + |chunks| := chunk])
  {
  }

  lemma NumberIsFree(pending: map<nat, Content>, next: nat, chunks: seq<Content>, extended: map<nat, Content>)
    requires Extends(pending, next, chunks, extended) && forall k :: k in pending ==> k < next
    ensures next + |chunks| !in extended
  {
  }

  /** Only the files of one stream differ. */
  predicate OnlyStream(files: Files, files': Files, key: Key) {
    files' == files[key := PendingOf(files', key)] || files' == files
  }

  /** The chunks were added to one stream under the numbers from `next` on. */
  ghost predicate Filed(files: Files, files': Files, key: Key, next: nat, chunks: seq<Content>) {
    && Extends(PendingOf(files, key), next, chunks, PendingOf(files', key))
    && OnlyStream(files, files', key)
    && (chunks == [] ==> files' == files)
  }

  /** And the cursor points past them. */
  ghost predicate Queued(
    files: Files, cursors: map<Key, nat>, files': Files, cursors': map<Key, nat>, key: Key, next: nat, chunks: seq<Content>)
  {
    && Filed(files, files', key, next, chunks)
    && cursors' == if chunks == [] then cursors else cursors[key := next + |chunks|]
  }

  lemma PrefixNext(chunks: seq<Content>, i: nat)
    requires i < |chunks|
    ensures chunks[..i + 1] == chunks[..i] + [chunks[i]]
  {
  }

  lemma PrefixEnds(chunks: seq<Content>)
    ensures chunks[..|chunks|] == chunks
  {
  }

  lemma FiledStep(files: Files, files': Files, key: Key, next: nat, chunks: seq<Content>, chunk: Content)
    requires Filed(files, files', key, next, chunks) && forall k :: k in PendingOf(files, key) ==> k < next
    ensures next + |chunks| !in PendingOf(files', key)
    ensures Filed(files, files'[key := PendingOf(files', key)[next + |chunks| := chunk]], key, next, chunks + [chunk])
  {
    NumberIsFree(PendingOf(files, key), next, chunks, PendingOf(files', key));
    ExtendsStep(PendingOf(files, key), next, chunks, chunk, PendingOf(files', key));
  }

  // ---------------------------------------------------------------------------------------------
  // The spool
  // ---------------------------------------------------------------------------------------------

  class Spool {
    const chunkSize: nat
    const maxBytes: int
    const size: Size
    var usedBytes: int
    var files: Files
    var cursors: map<Key, nat>

    ghost predicate Valid()
      reads this
    {
      && 0 < chunkSize <= MAX_CONTENT
      && usedBytes == Total(files, size)
      && (forall key, k :: key in files && k in files[key] ==> k >= 1)
      && (forall key :: key in cursors ==> cursors[key] >= 1)
    }

    /** Opens the spool on the files an earlier process left, and counts them. */
    constructor (chunkSize: nat, maxBytes: int, size: Size, files: Files, cursors: map<Key, nat>)
      requires 0 < chunkSize <= MAX_CONTENT
      requires forall key, k :: key in files && k in files[key] ==> k >= 1
      requires forall key :: key in cursors ==> cursors[key] >= 1
      ensures Valid() && this.files == files && this.cursors == cursors && this.maxBytes == maxBytes && this.size == size
      ensures this.chunkSize == chunkSize
    {
      this.chunkSize, this.maxBytes, this.size := chunkSize, maxBytes, size;
      this.files, this.cursors, this.usedBytes := files, cursors, 0;
      new;
      var rest := files;
      while rest != map[]
        invariant usedBytes + Total(rest, size) == Total(files, size)
        invariant this.files == files && this.cursors == cursors
        decreases |rest|
      {
        assert rest.Keys != {};
        var key :| key in rest.Keys;
        TotalRemove(rest, size, key);
        var bytes := StreamBytes(key, rest[key], size);
        usedBytes := usedBytes + bytes;
        rest := rest - {key};
      }
    }

    method LastPending(key: Key) returns (last: nat)
      requires Valid()
      ensures IsLast(PendingOf(files, key), last)
      ensures forall k :: k in PendingOf(files, key) ==> k <= last
    {
      var pending := PendingOf(files, key);
      last := 0;
      var rest := pending.Keys;
      while rest != {}
        invariant rest <= pending.Keys
        invariant last == 0 || last in pending
        invariant forall k :: k in pending && k !in rest ==> k <= last
      {
        var k: nat :| k in rest;
        if k > last {
          last := k;
        }
        rest := rest - {k};
      }
      if pending != map[] {
        assert pending.Keys != {};
        var k :| k in pending.Keys;
      }
    }

    /** Splits the content and queues its chunks after everything appended before. An append refused for
        space changes nothing; otherwise the accounting stays exact and within the limit. */
    method Append(key: Key, content: Content) returns (ok: bool, chunks: seq<Content>, ghost pieces: seq<Content>, ghost last: nat)
      requires Valid()
      modifies this`usedBytes, this`files, this`cursors
      ensures Valid() && IsLast(PendingOf(old(files), key), last)
      ensures Pieces(pieces, chunkSize) && Concat(pieces) == content && chunks == Clean(pieces)
      ensures ValidUtf8(content) && chunkSize >= 4 ==> chunks == pieces
      ensures content != [] && |content| <= chunkSize ==> pieces == [content]
      ensures var next := NextSequence(last, CursorOf(old(cursors), key));
        && (!ok <==> chunks != [] && (old(usedBytes) >= maxBytes || Bytes(key, next, chunks, size) > maxBytes - old(usedBytes)))
        && Queued(old(files), old(cursors), files, cursors, key, next, if ok then chunks else [])
        && usedBytes == old(usedBytes) + if ok then Bytes(key, next, chunks, size) else 0
      ensures old(usedBytes) <= maxBytes ==> usedBytes <= maxBytes
    {
      var previous := LastPending(key);
      last := previous;
      var next := NextSequence(previous, CursorOf(cursors, key));
      chunks, pieces := Split(content, chunkSize);
      ok := Enqueue(key, next, chunks);
    }

    /** Writes the chunks under the numbers from `next` on, if there is room for all of them, and then the cursor. */
    method Enqueue(key: Key, next: nat, chunks: seq<Content>) returns (ok: bool)
      requires Valid() && next >= 1 && forall k :: k in PendingOf(files, key) ==> k < next
      modifies this`usedBytes, this`files, this`cursors
      ensures Valid()
      ensures !ok <==> chunks != [] && (old(usedBytes) >= maxBytes || Bytes(key, next, chunks, size) > maxBytes - old(usedBytes))
      ensures Queued(old(files), old(cursors), files, cursors, key, next, if ok then chunks else [])
      ensures usedBytes == old(usedBytes) + if ok then Bytes(key, next, chunks, size) else 0
    {
      var pendingBytes := EncodedBytes(key, next, chunks);
      if |chunks| > 0 && (usedBytes >= maxBytes || pendingBytes > maxBytes - usedBytes) {
        return false;
      }
      WriteAll(key, next, chunks);
      if |chunks| > 0 {
        cursors := cursors[key := next + |chunks|];
      }
      ok := true;
    }

    method EncodedBytes(key: Key, next: nat, chunks: seq<Content>) returns (total: nat)
      ensures total == Bytes(key, next, chunks, size)
    {
      total := 0;
      for i := 0 to |chunks|
        invariant total == Bytes(key, next, chunks[..i], size)
      {
        assert chunks[..i + 1][..i] == chunks[..i];
        total := total + size(key, next + i, chunks[i]);
      }
      assert chunks[..|chunks|] == chunks;
    }

    method Write(key: Key, k: nat, chunk: Content)
      requires Valid() && k >= 1 && k !in PendingOf(files, key)
      modifies this`usedBytes, this`files
      ensures Valid() && usedBytes == old(usedBytes) + size(key, k, chunk)
      ensures files == old(files)[key := PendingOf(old(files), key)[k := chunk]]
    {
      TotalWrite(files, size, key, k, chunk);
      files := files[key := PendingOf(files, key)[k := chunk]];
      usedBytes := usedBytes + size(key, k, chunk);
    }

    /** Writes one file per chunk. */
    method WriteAll(key: Key, next: nat, chunks: seq<Content>)
      requires Valid() && next >= 1 && forall k :: k in PendingOf(files, key) ==> k < next
      modifies this`usedBytes, this`files
      ensures Valid() && usedBytes == old(usedBytes) + Bytes(key, next, chunks, size)
      ensures Filed(old(files), files, key, next, chunks)
    {
      ghost var done: seq<Content> := [];
      for i := 0 to |chunks|
        invariant done == chunks[..i] && |done| == i
        invariant Valid() && usedBytes == old(usedBytes) + Bytes(key, next, done, size)
        invariant Filed(old(files), files, key, next, done)
      {
        FiledStep(old(files), files, key, next, done, chunks[i]);
        BytesStep(key, next, done, chunks[i], size);
        PrefixNext(chunks, i);
        Write(key, next + i, chunks[i]);
        done := done + [chunks[i]];
      }
      PrefixEnds(chunks);
    }

    /** Deletes one chunk file, and takes its size off the account. */
    method Delete(key: Key, k: nat)
      requires Valid() && k in PendingOf(files, key)
      modifies this`usedBytes, this`files
      ensures Valid() && files == old(files)[key := old(files)[key] - {k}]
      ensures usedBytes == old(usedBytes) - size(key, k, old(files)[key][k])
    {
      TotalDelete(files, size, key, k);
      var remaining := usedBytes - size(key, k, files[key][k]);
      usedBytes := if remaining > 0 then remaining else 0;
      files := files[key := files[key] - {k}];
    }

    /** Deletes the chunk files below the watermark. */
    method Acknowledge(key: Key, next: nat) returns (ok: bool)
      requires Valid()
      modifies this`usedBytes, this`files
      ensures Valid() && (ok <==> next > 0)
      ensures PendingOf(files, key) == Unacknowledged(PendingOf(old(files), key), next)
      ensures OnlyStream(old(files), files, key)
      ensures usedBytes <= old(usedBytes)
    {
      if next == 0 {
        assert Unacknowledged(PendingOf(files, key), 0) == PendingOf(files, key);
        return false;
      }
      ok := true;
      if key !in files {
        assert Unacknowledged(map[], next) == map[];
        return;
      }
      ghost var was := files[key];
      var rest := files[key].Keys;
      while rest != {}
        invariant key in files && rest <= was.Keys && Valid() && usedBytes <= old(usedBytes)
        invariant files == old(files)[key := files[key]]
        invariant forall k :: k in files[key] <==> k in was && (k in rest || k >= next)
        invariant forall k :: k in files[key] ==> files[key][k] == was[k]
      {
        var k: nat :| k in rest;
        if k < next {
          Delete(key, k);
        }
        rest := rest - {k};
      }
      assert files[key] == Unacknowledged(was, next);
    }
  }

  method StreamBytes(key: Key, pending: map<nat, Content>, size: Size) returns (total: nat)
    ensures total == StreamTotal(key, pending, size)
  {
    total := 0;
    var rest := pending;
    while rest != map[]
      invariant total + StreamTotal(key, rest, size) == StreamTotal(key, pending, size)
      decreases |rest|
    {
      assert rest.Keys != {};
      var k :| k in rest.Keys;
      StreamRemove(key, rest, size, k);
      total := total + size(key, k, rest[k]);
      rest := rest - {k};
    }
  }

  // ---------------------------------------------------------------------------------------------
  // The server
  // ---------------------------------------------------------------------------------------------

  /** What becomes of the insertion of a chunk: it goes through, fails, or goes through and reports an error. */
  datatype Insert = Inserted | InsertFails | InsertLate

  class Service {
    /** Redaction with the sensitive values of a run, which do not change while its log is shipped. */
    const mask: Key -> Content -> Content
    var stored: map<Key, seq<Content>>

    constructor (mask: Key -> Content -> Content)
      ensures this.mask == mask && stored == map[]
    {
      this.mask := mask;
      stored := map[];
    }

    method Accept(key: Key, sequence: nat, content: Content, insert: Insert) returns (reply: Reply)
      modifies this
      ensures Answers(old(stored), stored, mask(key), Upload(key, sequence), content, insert, reply)
    {
      if sequence == 0 || |content| > MAX_CONTENT {
        return Invalid;
      }
      var redacted := mask(key)(content);
      var chunks := StoredOf(stored, key);
      var next := |chunks| + 1;
      if sequence > next {
        return Gap;
      }
      if sequence < next {
        if chunks[sequence - 1] != redacted {
          return Conflict;
        }
        return Next(next);
      }
      if insert != InsertFails {
        stored := stored[key := chunks + [redacted]];
      }
      if insert != Inserted {
        var now := StoredOf(stored, key);
        if |now| < sequence || now[sequence - 1] != redacted {
          return StoreFailed;
        }
      }
      reply := Next(next + 1);
    }
  }

  // ---------------------------------------------------------------------------------------------
  // The upload loop
  // ---------------------------------------------------------------------------------------------

  /** A chunk waiting for its upload. */
  datatype Upload = Upload(key: Key, sequence: nat)

  predicate Waiting(files: Files, u: Upload) {
    u.key in files && u.sequence in files[u.key]
  }

  /** The order of an upload: run, token, sequence, stream. */
  predicate Before(f: Upload, g: Upload) {
    || f.key.run < g.key.run
    || (f.key.run == g.key.run &&
        (|| f.key.token < g.key.token
         || (f.key.token == g.key.token &&
             (f.sequence < g.sequence || (f.sequence == g.sequence && f.key.stream < g.key.stream)))))
  }

  predicate Ordered(order: seq<Upload>) {
    forall i, j :: 0 <= i < j < |order| ==> Before(order[i], order[j])
  }

  method InsertUpload(order: seq<Upload>, u: Upload) returns (order': seq<Upload>)
    requires Ordered(order) && u !in order
    ensures Ordered(order') && forall v :: v in order' <==> v in order || v == u
  {
    var i := 0;
    while i < |order| && Before(order[i], u)
      invariant 0 <= i <= |order| && forall j :: 0 <= j < i ==> Before(order[j], u)
    {
      i := i + 1;
    }
    order' := order[..i] + [u] + order[i..];
    InsertedAt(order, i, u);
  }

  lemma InsertedAt(order: seq<Upload>, i: nat, u: Upload)
    requires Ordered(order) && u !in order && i <= |order| && (forall j :: 0 <= j < i ==> Before(order[j], u))
    requires i < |order| ==> !Before(order[i], u)
    ensures
      var order' := order[..i] + [u] + order[i..];
      Ordered(order') && forall v :: v in order' <==> v in order || v == u
  {
    assert order == order[..i] + order[i..];
    forall j | i <= j < |order|
      ensures Before(u, order[j])
    {
      EitherWay(order[i], u);
      if i < j {
        Transitive(u, order[i], order[j]);
      }
    }
  }

  /** Different uploads are ordered one way or the other. */
  lemma EitherWay(f: Upload, g: Upload)
    requires f != g && !Before(f, g)
    ensures Before(g, f)
  {
  }

  lemma Transitive(f: Upload, g: Upload, h: Upload)
    requires Before(f, g) && Before(g, h)
    ensures Before(f, h)
  {
  }

  /** Every pending chunk, in upload order. */
  method AllPending(files: Files) returns (order: seq<Upload>)
    ensures Ordered(order) && forall u :: u in order <==> Waiting(files, u)
  {
    order := [];
    var keys := files.Keys;
    while keys != {}
      invariant Ordered(order) && keys <= files.Keys
      invariant forall u :: u in order <==> Waiting(files, u) && u.key !in keys
    {
      var key :| key in keys;
      var rest := files[key].Keys;
      while rest != {}
        invariant Ordered(order) && rest <= files[key].Keys
        invariant forall u :: u in order <==> Waiting(files, u) && (u.key !in keys || (u.key == key && u.sequence !in rest))
      {
        var k: nat :| k in rest;
        order := InsertUpload(order, Upload(key, k));
        rest := rest - {k};
      }
      keys := keys - {key};
    }
  }

  ghost predicate CoupledOf(files: Files, cursors: map<Key, nat>, stored: map<Key, seq<Content>>, mask: Key -> Content -> Content,
                            appended: Key -> seq<Content>, key: Key) {
    Coupled(appended(key), PendingOf(files, key), CursorOf(cursors, key), StoredOf(stored, key), mask(key))
  }

  ghost predicate JointOf(files: Files, cursors: map<Key, nat>, stored: map<Key, seq<Content>>, mask: Key -> Content -> Content,
                          appended: Key -> seq<Content>) {
    forall key :: CoupledOf(files, cursors, stored, mask, appended, key)
  }

  /** Every stream of the spool and the server is coupled with what was appended to it. */
  ghost predicate Joint(spool: Spool, service: Service, appended: Key -> seq<Content>)
    reads spool, service
  {
    JointOf(spool.files, spool.cursors, service.stored, service.mask, appended)
  }

  /** Output of which no chunk can be over the server's limit: valid text, or any at half the chunk size. */
  predicate Fits(content: Content, chunkSize: nat) {
    (ValidUtf8(content) && chunkSize >= 4) || 2 * chunkSize + chunkSize % 2 <= MAX_CONTENT
  }

  predicate AllSmall(files: Files) {
    forall key, k :: key in files && k in files[key] ==> |files[key][k]| <= MAX_CONTENT
  }

  /** What was pending stays pending, as it was. */
  ghost predicate Preserves(files: Files, files': Files) {
    forall u :: Waiting(files, u) ==> Waiting(files', u) && ContentOf(files', u) == ContentOf(files, u)
  }

  function ContentOf(files: Files, u: Upload): Content
    requires Waiting(files, u)
  {
    files[u.key][u.sequence]
  }

  /** The chunks are cleaned pieces that concatenate to the content. */
  ghost predicate ChunksOf(content: Content, chunkSize: nat, chunks: seq<Content>) {
    exists pieces :: Pieces(pieces, chunkSize) && Concat(pieces) == content && chunks == Clean(pieces)
  }

  /** A task's output goes into the spool: the coupling holds for what has then been appended. */
  method WriteOutput(spool: Spool, service: Service, key: Key, content: Content, ghost appended: Key -> seq<Content>)
    returns (ok: bool, chunks: seq<Content>, ghost appended': Key -> seq<Content>)
    requires spool.Valid() && Joint(spool, service, appended)
    modifies spool`usedBytes, spool`files, spool`cursors
    ensures spool.Valid() && Joint(spool, service, appended')
    ensures appended'(key) == (if ok then appended(key) + chunks else appended(key))
    ensures forall other :: other != key ==> appended'(other) == appended(other)
    ensures ok && ValidUtf8(content) && spool.chunkSize >= 4 ==> Concat(chunks) == content
    ensures content != [] && |content| <= spool.chunkSize ==> chunks == [ToValid(content)]
    ensures ChunksOf(content, spool.chunkSize, chunks)
    ensures !ok ==> old(spool.usedBytes) >= spool.maxBytes || Bytes(key, |appended(key)| + 1, chunks, spool.size) > spool.maxBytes - old(spool.usedBytes)
    ensures spool.usedBytes == old(spool.usedBytes) + if ok then Bytes(key, |appended(key)| + 1, chunks, spool.size) else 0
    ensures Preserves(old(spool.files), spool.files)
    ensures Fits(content, spool.chunkSize) && AllSmall(old(spool.files)) ==> AllSmall(spool.files)
  {
    ghost var files, cursors := spool.files, spool.cursors;
    ghost var pieces, last;
    ok, chunks, pieces, last := spool.Append(key, content);
    ghost var added := if ok then chunks else [];
    appended' := Grown(appended, key, added);
    OutputNumber(files, cursors, service.stored, service.mask, appended, key, last);
    OnePiece(content);
    OutputFacts(files, cursors, spool.files, spool.cursors, service.stored, service.mask, appended, key, content, pieces, spool.chunkSize,
                last, added);
  }

  lemma OnePiece(content: Content)
    ensures Clean([content]) == [ToValid(content)]
  {
  }

  /** The chunks are numbered after everything appended before. */
  lemma OutputNumber(
    files: Files, cursors: map<Key, nat>, stored: map<Key, seq<Content>>, mask: Key -> Content -> Content,
    appended: Key -> seq<Content>, key: Key, last: nat)
    requires JointOf(files, cursors, stored, mask, appended) && IsLast(PendingOf(files, key), last)
    ensures NextSequence(last, CursorOf(cursors, key)) == |appended(key)| + 1
  {
    assert CoupledOf(files, cursors, stored, mask, appended, key);
    NextIsFresh(appended(key), PendingOf(files, key), CursorOf(cursors, key), StoredOf(stored, key), mask(key), last);
  }

  lemma OutputFacts(
    files: Files, cursors: map<Key, nat>, files': Files, cursors': map<Key, nat>, stored: map<Key, seq<Content>>,
    mask: Key -> Content -> Content, appended: Key -> seq<Content>, key: Key, content: Content, pieces: seq<Content>, chunkSize: nat,
    last: nat, added: seq<Content>)
    requires JointOf(files, cursors, stored, mask, appended)
    requires IsLast(PendingOf(files, key), last) && NextSequence(last, CursorOf(cursors, key)) == |appended(key)| + 1
    requires Queued(files, cursors, files', cursors', key, |appended(key)| + 1, added) && (added == [] || added == Clean(pieces))
    requires Pieces(pieces, chunkSize) && chunkSize <= MAX_CONTENT
    requires ValidUtf8(content) && chunkSize >= 4 ==> Clean(pieces) == pieces
    ensures JointOf(files', cursors', stored, mask, Grown(appended, key, added))
    ensures Preserves(files, files')
    ensures Fits(content, chunkSize) && AllSmall(files) ==> AllSmall(files')
  {
    AppendJoint(files, cursors, files', cursors', stored, mask, appended, key, last, added);
    if added != [] {
      assert CoupledOf(files, cursors, stored, mask, appended, key);
      ExtendsPreserves(files, files', key, |appended(key)| + 1, added);
      if Fits(content, chunkSize) {
        FittingChunks(content, pieces, chunkSize);
        StaysSmall(files, files', key, |appended(key)| + 1, added);
      }
    }
  }

  lemma FittingChunks(content: Content, pieces: seq<Content>, chunkSize: nat)
    requires Pieces(pieces, chunkSize) && chunkSize <= MAX_CONTENT && Fits(content, chunkSize)
    requires ValidUtf8(content) && chunkSize >= 4 ==> Clean(pieces) == pieces
    ensures forall c :: c in Clean(pieces) ==> |c| <= MAX_CONTENT
  {
    if 2 * chunkSize + chunkSize % 2 <= MAX_CONTENT {
      ChunksFit(pieces, chunkSize, MAX_CONTENT);
    }
  }

  lemma ExtendsPreserves(files: Files, files': Files, key: Key, next: nat, chunks: seq<Content>)
    requires OnlyStream(files, files', key) && Extends(PendingOf(files, key), next, chunks, PendingOf(files', key))
    requires forall k :: k in PendingOf(files, key) ==> k < next
    ensures Preserves(files, files')
  {
    forall u | Waiting(files, u)
      ensures Waiting(files', u) && ContentOf(files', u) == ContentOf(files, u)
    {
      if u.key == key {
        assert u.sequence in PendingOf(files, key) && u.sequence in PendingOf(files', key);
      }
    }
  }

  lemma StaysSmall(files: Files, files': Files, key: Key, next: nat, chunks: seq<Content>)
    requires OnlyStream(files, files', key) && Extends(PendingOf(files, key), next, chunks, PendingOf(files', key))
    requires forall c :: c in chunks ==> |c| <= MAX_CONTENT
    ensures AllSmall(files) ==> AllSmall(files')
  {
    if AllSmall(files) {
      forall other, k | other in files' && k in files'[other]
        ensures |files'[other][k]| <= MAX_CONTENT
      {
        if other == key {
          assert k in PendingOf(files', key);
        }
      }
    }
  }

  lemma AppendJoint(files: Files, cursors: map<Key, nat>, files': Files, cursors': map<Key, nat>, stored: map<Key, seq<Content>>,
                    mask: Key -> Content -> Content, appended: Key -> seq<Content>, key: Key, last: nat, chunks: seq<Content>)
    requires JointOf(files, cursors, stored, mask, appended) && IsLast(PendingOf(files, key), last)
    requires OnlyStream(files, files', key)
    requires chunks == [] ==> files' == files && cursors' == cursors
    requires chunks != [] ==>
               var next := NextSequence(last, CursorOf(cursors, key));
               Extends(PendingOf(files, key), next, chunks, PendingOf(files', key)) && cursors' == cursors[key := next + |chunks|]
    ensures JointOf(files', cursors', stored, mask, Grown(appended, key, chunks))
  {
    forall other ensures CoupledOf(files', cursors', stored, mask, Grown(appended, key, chunks), other) {
      assert CoupledOf(files, cursors, stored, mask, appended, other);
      if other == key {
        AppendCouples(appended(key), PendingOf(files, key), CursorOf(cursors, key), StoredOf(stored, key), mask(key),
                      last, chunks, PendingOf(files', key), CursorOf(cursors', key));
      }
    }
  }

  ghost function Grown(appended: Key -> seq<Content>, key: Key, chunks: seq<Content>): Key -> seq<Content> {
    other => if other == key then appended(other) + chunks else appended(other)
  }

  lemma AppendCouples(appended: seq<Content>, pending: map<nat, Content>, cursor: Option<nat>, stored: seq<Content>, mask: Content -> Content,
                      last: nat, chunks: seq<Content>, extended: map<nat, Content>, cursor': Option<nat>)
    requires Coupled(appended, pending, cursor, stored, mask) && IsLast(pending, last)
    requires chunks == [] ==> extended == pending && cursor' == cursor
    requires chunks != [] ==> var next := NextSequence(last, cursor);
      Extends(pending, next, chunks, extended) && cursor' == Some(next + |chunks|)
    ensures Coupled(appended + chunks, extended, cursor', stored, mask)
  {
    NextIsFresh(appended, pending, cursor, stored, mask, last);
    if chunks == [] {
      assert appended + chunks == appended;
    } else {
      AppendKeeps(appended, pending, cursor, stored, mask, chunks, extended);
    }
  }

  /** What becomes of one upload: it arrives and is answered, it is lost, its answer is lost, or the server fails to
      store it. */
  datatype Link = Answered | RequestLost | AnswerLost | StoreFails

  /** The chunk is pending and not stored. */
  predicate Held(files: Files, stored: map<Key, seq<Content>>, u: Upload) {
    Waiting(files, u) && |StoredOf(stored, u.key)| < u.sequence
  }

  /** The answer to an upload of an appended chunk, for the store it came from and the one it leaves. */
  ghost predicate Answers(
    stored: map<Key, seq<Content>>, stored': map<Key, seq<Content>>, mask: Content -> Content, u: Upload, content: Content,
    insert: Insert, reply: Reply)
  {
    var chunks := StoredOf(stored, u.key);
    var a := Accept(chunks, u.sequence, content, mask);
    && (if insert == InsertFails && a.stored != chunks then StoredOf(stored', u.key) == chunks && reply == StoreFailed
        else StoredOf(stored', u.key) == a.stored && reply == a.reply)
    && forall other :: other != u.key ==> StoredOf(stored', other) == StoredOf(stored, other)
  }

  lemma AcceptJoint(
    files: Files, cursors: map<Key, nat>, stored: map<Key, seq<Content>>, stored': map<Key, seq<Content>>,
    mask: Key -> Content -> Content, appended: Key -> seq<Content>, u: Upload, insert: Insert, reply: Reply)
    requires JointOf(files, cursors, stored, mask, appended) && 1 <= u.sequence <= |appended(u.key)|
    requires Answers(stored, stored', mask(u.key), u, appended(u.key)[u.sequence - 1], insert, reply)
    ensures JointOf(files, cursors, stored', mask, appended)
    ensures reply.Next? ==> u.sequence < reply.next <= |StoredOf(stored', u.key)| + 1
    ensures
      var small := |appended(u.key)[u.sequence - 1]| <= MAX_CONTENT;
      && (!small ==> !reply.Next? && forall v :: Held(files, stored, v) ==> Held(files, stored', v))
      && (small && insert == Inserted && u.sequence <= |StoredOf(stored, u.key)| + 1 ==> reply.Next?)
    ensures forall v :: Held(files, stored, v) && (v.key != u.key || v.sequence > u.sequence) ==> Held(files, stored', v)
  {
    assert CoupledOf(files, cursors, stored, mask, appended, u.key);
    AcceptKeeps(appended(u.key), PendingOf(files, u.key), CursorOf(cursors, u.key), StoredOf(stored, u.key), mask(u.key), u.sequence);
    forall key
      ensures CoupledOf(files, cursors, stored', mask, appended, key)
    {
      assert CoupledOf(files, cursors, stored, mask, appended, key);
    }
  }

  lemma AcknowledgeJoint(
    files: Files, files': Files, cursors: map<Key, nat>, stored: map<Key, seq<Content>>,
    mask: Key -> Content -> Content, appended: Key -> seq<Content>, key: Key, next: nat)
    requires JointOf(files, cursors, stored, mask, appended) && next <= |StoredOf(stored, key)| + 1
    requires PendingOf(files', key) == Unacknowledged(PendingOf(files, key), next) && OnlyStream(files, files', key)
    ensures JointOf(files', cursors, stored, mask, appended)
    ensures forall v :: Waiting(files', v) ==> Waiting(files, v) && (v.key == key ==> v.sequence >= next)
    ensures forall v :: Held(files, stored, v) ==> Held(files', stored, v)
  {
    forall other
      ensures CoupledOf(files', cursors, stored, mask, appended, other)
    {
      assert CoupledOf(files, cursors, stored, mask, appended, other);
      if other == key {
        AcknowledgeKeeps(appended(key), PendingOf(files, key), CursorOf(cursors, key), StoredOf(stored, key), mask(key), next);
      }
    }
    forall v | Waiting(files', v)
      ensures Waiting(files, v) && (v.key == key ==> v.sequence >= next)
    {
      if v.key == key {
        assert v.sequence in PendingOf(files', key);
      }
    }
    forall v | Held(files, stored, v)
      ensures Held(files', stored, v)
    {
      if v.key == key {
        assert v.sequence in PendingOf(files, key);
        assert v.sequence in PendingOf(files', key);
      }
    }
  }

  /** Nothing new is pending, and not the upload if it was acknowledged. */
  ghost predicate Removes(files: Files, u: Upload, acknowledged: bool, files': Files) {
    forall v :: Waiting(files', v) ==> Waiting(files, v) && (acknowledged ==> v != u)
  }

  /** What is held stays held, unless it comes before this upload in its stream or is this one and not refused. */
  ghost predicate Spares(files: Files, stored: map<Key, seq<Content>>, u: Upload, refused: bool, files': Files, stored': map<Key, seq<Content>>) {
    forall v :: Held(files, stored, v) && (v.key != u.key || v.sequence > u.sequence || refused) ==> Held(files', stored', v)
  }

  /** Uploads one chunk and, if it is answered, acknowledges up to the watermark. A chunk over the limit is refused,
      and nothing changes. */
  method Send(spool: Spool, service: Service, u: Upload, content: Content, link: Link, ghost appended: Key -> seq<Content>) returns (ok: bool)
    requires spool.Valid() && Joint(spool, service, appended)
    requires 1 <= u.sequence <= |appended(u.key)| && content == appended(u.key)[u.sequence - 1]
    modifies spool`usedBytes, spool`files, service
    ensures spool.Valid() && Joint(spool, service, appended)
    ensures Removes(old(spool.files), u, ok, spool.files)
    ensures link == Answered && |content| <= MAX_CONTENT && u.sequence <= |StoredOf(old(service.stored), u.key)| + 1 ==> ok
    ensures |content| > MAX_CONTENT ==> !ok
    ensures link == RequestLost ==> !ok && spool.files == old(spool.files) && service.stored == old(service.stored)
    ensures link == AnswerLost ==> !ok && spool.files == old(spool.files)
    ensures link == AnswerLost && |content| <= MAX_CONTENT && u.sequence == |StoredOf(old(service.stored), u.key)| + 1 ==>
              |StoredOf(service.stored, u.key)| == u.sequence
    ensures link == StoreFails && u.sequence == |StoredOf(old(service.stored), u.key)| + 1 ==>
              !ok && spool.files == old(spool.files) && StoredOf(service.stored, u.key) == StoredOf(old(service.stored), u.key)
    ensures Spares(old(spool.files), old(service.stored), u, |content| > MAX_CONTENT, spool.files, service.stored)
  {
    if link == RequestLost {
      return false;
    }
    ghost var files, stored := spool.files, service.stored;
    var insert := if link == StoreFails then InsertFails else Inserted;
    var reply := service.Accept(u.key, u.sequence, content, insert);
    AcceptJoint(files, spool.cursors, stored, service.stored, service.mask, appended, u, insert, reply);
    if link == AnswerLost || !reply.Next? {
      return false;
    }
    ok := spool.Acknowledge(u.key, reply.next);
    AcknowledgeJoint(files, spool.files, spool.cursors, service.stored, service.mask, appended, u.key, reply.next);
  }

  predicate AllAnswered(links: seq<Link>) {
    forall i :: 0 <= i < |links| ==> links[i] == Answered
  }

  predicate Oversized(files: Files, u: Upload) {
    Waiting(files, u) && |ContentOf(files, u)| > MAX_CONTENT
  }

  /** A chunk that is held at or behind an oversized one stays held. */
  ghost predicate HoldsUp(files: Files, stored: map<Key, seq<Content>>, files': Files, stored': map<Key, seq<Content>>) {
    forall u, v :: Oversized(files, u) && (v == u || Before(u, v)) && Held(files, stored, v) ==> Held(files', stored', v)
  }

  /** One pass of the upload loop. It never breaks the coupling, whatever the link does. If it succeeds, every
      appended chunk is stored and nothing is pending. With a link that answers every upload it succeeds exactly if
      no pending chunk is over the server's limit; such a chunk holds up everything behind it in upload order, of
      other runs and streams too. */
  method Flush(spool: Spool, service: Service, links: seq<Link>, ghost appended: Key -> seq<Content>) returns (ok: bool)
    requires spool.Valid() && Joint(spool, service, appended)
    modifies spool`usedBytes, spool`files, service
    ensures spool.Valid() && Joint(spool, service, appended)
    ensures ok ==> AllSmall(old(spool.files))
    ensures links != [] && links[0] in {RequestLost, AnswerLost} && (exists u :: Waiting(old(spool.files), u)) ==> !ok && spool.files == old(spool.files)
    ensures AllAnswered(links) ==> (ok <==> AllSmall(old(spool.files)))
    ensures ok ==> forall key :: PendingOf(spool.files, key) == map[] && StoredOf(service.stored, key) == Redacted(service.mask(key), appended(key))
    ensures HoldsUp(old(spool.files), old(service.stored), spool.files, service.stored)
  {
    var contents := spool.files;
    ghost var stored := service.stored;
    var order := AllPending(contents);
    PendingContents(contents, spool.cursors, stored, service.mask, appended);
    var i := 0;
    while i < |order|
      invariant 0 <= i <= |order|
      invariant spool.Valid() && Joint(spool, service, appended)
      invariant Reached(contents, stored, order, i, spool.files, service.stored)
      invariant i == 0 ==> spool.files == contents
      invariant i > 0 && links != [] ==> links[0] !in {RequestLost, AnswerLost}
    {
      var u := order[i];
      ghost var files0, stored0 := spool.files, service.stored;
      assert u in order;
      ComesNext(files0, spool.cursors, stored0, service.mask, appended, order, i);
      ok := Send(spool, service, u, contents[u.key][u.sequence], if i < |links| then links[i] else Answered, appended);
      if !ok {
        StopsHere(contents, stored, order, i, files0, stored0, spool.files, service.stored);
        return;
      }
      ReachedNext(contents, stored, order, i, files0, stored0, spool.files, service.stored);
      i := i + 1;
    }
    forall key ensures PendingOf(spool.files, key) == map[] && StoredOf(service.stored, key) == Redacted(service.mask(key), appended(key)) {
      assert CoupledOf(spool.files, spool.cursors, service.stored, service.mask, appended, key);
      EmptyMeansStored(spool.files, key, appended(key), CursorOf(spool.cursors, key), StoredOf(service.stored, key), service.mask(key));
    }
    AllSent(contents, order);
    ok := true;
  }

  lemma PendingContents(
    files: Files, cursors: map<Key, nat>, stored: map<Key, seq<Content>>, mask: Key -> Content -> Content,
    appended: Key -> seq<Content>)
    requires JointOf(files, cursors, stored, mask, appended)
    ensures forall u :: Waiting(files, u) ==> 1 <= u.sequence <= |appended(u.key)| && ContentOf(files, u) == appended(u.key)[u.sequence - 1]
  {
    forall u | Waiting(files, u)
      ensures 1 <= u.sequence <= |appended(u.key)| && ContentOf(files, u) == appended(u.key)[u.sequence - 1]
    {
      assert CoupledOf(files, cursors, stored, mask, appended, u.key);
      assert u.sequence in PendingOf(files, u.key);
    }
  }

  /** A pass has dealt with the uploads before `order[i]`: nothing else was pending, none of them was oversized, and
      what was held from there on still is. */
  ghost predicate Reached(files: Files, stored: map<Key, seq<Content>>, order: seq<Upload>, i: nat, files': Files, stored': map<Key, seq<Content>>)
    requires i <= |order| && forall u :: u in order <==> Waiting(files, u)
  {
    && (forall u :: Waiting(files', u) ==> u in order[i..])
    && (forall j :: 0 <= j < i ==> |ContentOf(files, order[j])| <= MAX_CONTENT)
    && (forall j :: i <= j < |order| && Held(files, stored, order[j]) ==> Held(files', stored', order[j]))
  }

  lemma ReachedNext(
    files: Files, stored: map<Key, seq<Content>>, order: seq<Upload>, i: nat, files1: Files, stored1: map<Key, seq<Content>>,
    files2: Files, stored2: map<Key, seq<Content>>)
    requires Ordered(order) && i < |order| && (forall u :: u in order <==> Waiting(files, u))
    requires Reached(files, stored, order, i, files1, stored1) && |ContentOf(files, order[i])| <= MAX_CONTENT
    requires Removes(files1, order[i], true, files2) && Spares(files1, stored1, order[i], false, files2, stored2)
    ensures Reached(files, stored, order, i + 1, files2, stored2)
  {
    assert order[i..] == [order[i]] + order[i + 1..];
    forall j | i + 1 <= j < |order| && Held(files, stored, order[j])
      ensures Held(files2, stored2, order[j])
    {
      assert Held(files1, stored1, order[j]) && Before(order[i], order[j]);
    }
  }

  /** The pass ends at `order[i]`: what is oversized is not before it, so all that it holds up is still held. */
  lemma StopsHere(
    files: Files, stored: map<Key, seq<Content>>, order: seq<Upload>, i: nat, files1: Files, stored1: map<Key, seq<Content>>,
    files2: Files, stored2: map<Key, seq<Content>>)
    requires Ordered(order) && i < |order| && (forall u :: u in order <==> Waiting(files, u))
    requires Reached(files, stored, order, i, files1, stored1)
    requires Spares(files1, stored1, order[i], |ContentOf(files, order[i])| > MAX_CONTENT, files2, stored2)
    ensures HoldsUp(files, stored, files2, stored2)
  {
    forall u, v | Oversized(files, u) && (v == u || Before(u, v)) && Held(files, stored, v)
      ensures Held(files2, stored2, v)
    {
      var j :| 0 <= j < |order| && order[j] == u;
      var k :| 0 <= k < |order| && order[k] == v;
      assert i <= j <= k;
      assert Held(files1, stored1, order[k]);
    }
  }

  lemma AllSent(files: Files, order: seq<Upload>)
    requires forall u :: u in order <==> Waiting(files, u)
    requires forall j :: 0 <= j < |order| ==> |ContentOf(files, order[j])| <= MAX_CONTENT
    ensures AllSmall(files)
  {
    forall key, k | key in files && k in files[key]
      ensures |files[key][k]| <= MAX_CONTENT
    {
      assert Waiting(files, Upload(key, k)) && Upload(key, k) in order;
      var j :| 0 <= j < |order| && order[j] == Upload(key, k);
    }
  }

  /** What an agent does, over any number of starts: a task writes output, or the upload loop makes a pass. */
  datatype Round = Output(key: Key, content: Content) | Pass(links: seq<Link>)

  /** What a round appends: nothing, or the chunks of its output. */
  ghost predicate Appended(round: Round, chunkSize: nat, chunks: seq<Content>) {
    chunks == [] || (round.Output? && ChunksOf(round.content, chunkSize, chunks))
  }

  /** What the rounds append to a stream, in order. */
  ghost function Written(rounds: seq<Round>, chunks: seq<seq<Content>>, key: Key): seq<Content>
    requires |chunks| == |rounds|
  {
    if rounds == [] then []
    else
      var n := |rounds| - 1;
      Written(rounds[..n], chunks[..n], key) + PartOf(rounds[n], chunks[n], key)
  }

  function PartOf(round: Round, chunks: seq<Content>, key: Key): seq<Content> {
    if round.Output? && round.key == key then chunks else []
  }

  lemma WrittenSnoc(rounds: seq<Round>, chunks: seq<seq<Content>>, round: Round, added: seq<Content>, key: Key)
    requires |chunks| == |rounds|
    ensures Written(rounds + [round], chunks + [added], key) == Written(rounds, chunks, key) + PartOf(round, added, key)
  {
    assert (rounds + [round])[..|rounds|] == rounds && (chunks + [added])[..|rounds|] == chunks;
  }

  lemma Regroup<T>(a: seq<T>, b: seq<T>, c: seq<T>)
    ensures (a + b) + c == a + (b + c)
  {
  }

  /** The streams after the rounds are those before and what the rounds append. */
  ghost predicate Writes(
    appended: Key -> seq<Content>, rounds: seq<Round>, chunkSize: nat, chunks: seq<seq<Content>>, appended': Key -> seq<Content>)
  {
    && |chunks| == |rounds|
    && (forall i :: 0 <= i < |rounds| ==> Appended(rounds[i], chunkSize, chunks[i]))
    && forall key :: appended'(key) == appended(key) + Written(rounds, chunks, key)
  }

  lemma WritesNothing(appended: Key -> seq<Content>, chunkSize: nat)
    ensures Writes(appended, [], chunkSize, [], appended)
  {
    assert forall key :: appended(key) + [] == appended(key);
  }

  lemma WritesOn(
    appended: Key -> seq<Content>, rounds: seq<Round>, chunkSize: nat, chunks: seq<seq<Content>>, appended1: Key -> seq<Content>,
    round: Round, added: seq<Content>, appended2: Key -> seq<Content>)
    requires Writes(appended, rounds, chunkSize, chunks, appended1) && Appended(round, chunkSize, added)
    requires forall key :: appended2(key) == appended1(key) + PartOf(round, added, key)
    ensures Writes(appended, rounds + [round], chunkSize, chunks + [added], appended2)
  {
    forall key
      ensures appended2(key) == appended(key) + Written(rounds + [round], chunks + [added], key)
    {
      WrittenSnoc(rounds, chunks, round, added, key);
      assert appended1(key) == appended(key) + Written(rounds, chunks, key);
      Regroup(appended(key), Written(rounds, chunks, key), PartOf(round, added, key));
    }
    AppendedSnoc(rounds, chunkSize, chunks, round, added);
  }

  lemma AppendedSnoc(rounds: seq<Round>, chunkSize: nat, chunks: seq<seq<Content>>, round: Round, added: seq<Content>)
    requires |chunks| == |rounds| && Appended(round, chunkSize, added)
    requires forall i :: 0 <= i < |rounds| ==> Appended(rounds[i], chunkSize, chunks[i])
    ensures forall i :: 0 <= i < |rounds| + 1 ==> Appended((rounds + [round])[i], chunkSize, (chunks + [added])[i])
  {
  }

  lemma RoundNext(rounds: seq<Round>, k: nat)
    requires k < |rounds|
    ensures rounds[..k + 1] == rounds[..k] + [rounds[k]]
  {
  }

  /** Whatever is written and however often it is tried, what an oversized chunk holds up stays held. */
  method AnyRounds(spool: Spool, service: Service, rounds: seq<Round>, ghost appended: Key -> seq<Content>)
    returns (ghost appended': Key -> seq<Content>, ghost chunks: seq<seq<Content>>)
    requires spool.Valid() && Joint(spool, service, appended)
    modifies spool`usedBytes, spool`files, spool`cursors, service
    ensures spool.Valid() && Joint(spool, service, appended') && Writes(appended, rounds, spool.chunkSize, chunks, appended')
    ensures Blocked(old(spool.files), old(service.stored), spool.files, service.stored)
  {
    appended', chunks := appended, [];
    WritesNothing(appended, spool.chunkSize);
    ghost var files, stored := spool.files, service.stored;
    for k := 0 to |rounds|
      invariant spool.Valid() && Joint(spool, service, appended')
      invariant Writes(appended, rounds[..k], spool.chunkSize, chunks, appended')
      invariant Blocked(files, stored, spool.files, service.stored)
    {
      ghost var files0, stored0, appended0, added := spool.files, service.stored, appended', [];
      match rounds[k] {
        case Output(key, content) =>
          var ok, pieces;
          ok, pieces, appended' := WriteOutput(spool, service, key, content, appended');
          added := if ok then pieces else [];
          OutputBlocks(files, stored, files0, spool.files, service.stored);
        case Pass(links) =>
          var ok := Flush(spool, service, links, appended');
          PassBlocks(files, stored, files0, stored0, spool.files, spool.cursors, service.stored, service.mask, appended0);
      }
      WritesOn(appended, rounds[..k], spool.chunkSize, chunks, appended0, rounds[k], added, appended');
      RoundNext(rounds, k);
      chunks := chunks + [added];
    }
    assert rounds[..|rounds|] == rounds;
  }

  /** What was oversized and held at first still is, and so is all that it holds up. */
  ghost predicate Blocked(files: Files, stored: map<Key, seq<Content>>, files': Files, stored': map<Key, seq<Content>>) {
    forall u, v :: Oversized(files, u) && Held(files, stored, u) && (v == u || Before(u, v)) && Held(files, stored, v) ==>
      Held(files', stored', v) && ContentOf(files', v) == ContentOf(files, v)
  }

  lemma OutputBlocks(files: Files, stored: map<Key, seq<Content>>, files1: Files, files2: Files, stored1: map<Key, seq<Content>>)
    requires Blocked(files, stored, files1, stored1) && Preserves(files1, files2)
    ensures Blocked(files, stored, files2, stored1)
  {
  }

  lemma PassBlocks(
    files: Files, stored: map<Key, seq<Content>>, files1: Files, stored1: map<Key, seq<Content>>, files2: Files,
    cursors: map<Key, nat>, stored2: map<Key, seq<Content>>, mask: Key -> Content -> Content, appended: Key -> seq<Content>)
    requires Blocked(files, stored, files1, stored1) && HoldsUp(files1, stored1, files2, stored2)
    requires JointOf(files1, cursors, stored1, mask, appended) && JointOf(files2, cursors, stored2, mask, appended)
    ensures Blocked(files, stored, files2, stored2)
  {
    PendingContents(files1, cursors, stored1, mask, appended);
    PendingContents(files2, cursors, stored2, mask, appended);
    forall u, v | Oversized(files, u) && Held(files, stored, u) && (v == u || Before(u, v)) && Held(files, stored, v)
      ensures Held(files2, stored2, v) && ContentOf(files2, v) == ContentOf(files, v)
    {
      assert Held(files1, stored1, u) && ContentOf(files1, u) == ContentOf(files, u);
      assert Oversized(files1, u);
      assert Held(files1, stored1, v);
    }
  }

  const FIRST := Key(0, 0, 0)

  const SECOND := Key(1, 0, 0)

  /** A task writes output of one chunk that cleaning makes too large, another run writes one letter. */
  function OversizedScript(content: Content): seq<Round> {
    [Output(FIRST, content)] + [Output(SECOND, [0x41])]
  }

  /** Such output are bytes that are invalid and plain by turns. */
  lemma AlternatingIsOversized(n: nat)
    requires MAX_CONTENT < 2 * n <= 2 * MAX_CONTENT
    ensures |Alternating(n, true)| == n && |ToValid(Alternating(n, true))| > MAX_CONTENT
  {
    AlternatingGrows(n, true);
  }

  /** Neither is ever stored, whatever follows these outputs on an agent that starts with an empty spool. */
  method OversizedOutputHoldsUpTheRest(mask: Key -> Content -> Content, content: Content, rounds: seq<Round>)
    returns (spool: Spool, service: Service, ghost appended: Key -> seq<Content>, ghost chunks: seq<seq<Content>>)
    requires 0 < |content| <= MAX_CONTENT < |ToValid(content)|
    ensures spool.Valid() && service.mask == mask && Joint(spool, service, appended)
    ensures Writes(_ => [], OversizedScript(content) + rounds, MAX_CONTENT, chunks, appended)
    ensures chunks[0] == [ToValid(content)] && chunks[1] == [ToValid([0x41])]
    ensures Held(spool.files, service.stored, Upload(FIRST, 1)) && Held(spool.files, service.stored, Upload(SECOND, 1))
  {
    ghost var appended1, chunks1;
    spool, service, appended1, chunks1 := OversizedOutput(mask, content);
    ghost var appended2, chunks2;
    appended2, chunks2 := AnyRounds(spool, service, rounds, appended1);
    WritesJoin(_ => [], OversizedScript(content), MAX_CONTENT, chunks1, appended1, rounds, chunks2, appended2);
    appended, chunks := appended2, chunks1 + chunks2;
  }

  lemma {:induction false} WrittenJoins(
    rounds: seq<Round>, chunks: seq<seq<Content>>, more: seq<Round>, added: seq<seq<Content>>, key: Key)
    requires |chunks| == |rounds| && |added| == |more|
    ensures Written(rounds + more, chunks + added, key) == Written(rounds, chunks, key) + Written(more, added, key)
    decreases |more|
  {
    if more == [] {
      JoinsNone(rounds, chunks, key);
      assert added == [];
    } else {
      var n := |more| - 1;
      WrittenJoins(rounds, chunks, more[..n], added[..n], key);
      JoinsNext(rounds, chunks, more[..n], added[..n], more[n], added[n], key);
      Snoc(more);
      Snoc(added);
    }
  }

  lemma Snoc<T>(s: seq<T>)
    requires s != []
    ensures s[..|s| - 1] + [s[|s| - 1]] == s
  {
  }

  lemma JoinsNone(rounds: seq<Round>, chunks: seq<seq<Content>>, key: Key)
    requires |chunks| == |rounds|
    ensures Written(rounds + [], chunks + [], key) == Written(rounds, chunks, key) + Written([], [], key)
  {
    assert rounds + [] == rounds && chunks + [] == chunks;
  }

  lemma JoinsNext(
    rounds: seq<Round>, chunks: seq<seq<Content>>, more: seq<Round>, added: seq<seq<Content>>, round: Round, last: seq<Content>, key: Key)
    requires |chunks| == |rounds| && |added| == |more|
    requires Written(rounds + more, chunks + added, key) == Written(rounds, chunks, key) + Written(more, added, key)
    ensures Written(rounds + (more + [round]), chunks + (added + [last]), key)
         == Written(rounds, chunks, key) + Written(more + [round], added + [last], key)
  {
    Regroup(rounds, more, [round]);
    Regroup(chunks, added, [last]);
    WrittenSnoc(rounds + more, chunks + added, round, last, key);
    WrittenSnoc(more, added, round, last, key);
    Regroup(Written(rounds, chunks, key), Written(more, added, key), PartOf(round, last, key));
  }

  lemma WritesJoin(
    appended: Key -> seq<Content>, rounds: seq<Round>, chunkSize: nat, chunks: seq<seq<Content>>, appended1: Key -> seq<Content>,
    more: seq<Round>, added: seq<seq<Content>>, appended2: Key -> seq<Content>)
    requires Writes(appended, rounds, chunkSize, chunks, appended1) && Writes(appended1, more, chunkSize, added, appended2)
    ensures Writes(appended, rounds + more, chunkSize, chunks + added, appended2)
  {
    forall key
      ensures appended2(key) == appended(key) + Written(rounds + more, chunks + added, key)
    {
      WrittenJoins(rounds, chunks, more, added, key);
      assert appended2(key) == appended1(key) + Written(more, added, key);
      assert appended1(key) == appended(key) + Written(rounds, chunks, key);
      Regroup(appended(key), Written(rounds, chunks, key), Written(more, added, key));
    }
    AppendedJoins(rounds, chunkSize, chunks, more, added);
  }

  lemma AppendedJoins(rounds: seq<Round>, chunkSize: nat, chunks: seq<seq<Content>>, more: seq<Round>, added: seq<seq<Content>>)
    requires |chunks| == |rounds| && |added| == |more|
    requires forall i :: 0 <= i < |rounds| ==> Appended(rounds[i], chunkSize, chunks[i])
    requires forall i :: 0 <= i < |more| ==> Appended(more[i], chunkSize, added[i])
    ensures forall i :: 0 <= i < |rounds + more| ==> Appended((rounds + more)[i], chunkSize, (chunks + added)[i])
  {
  }

  method FirstOutput(mask: Key -> Content -> Content, content: Content)
    returns (spool: Spool, service: Service, ghost appended: Key -> seq<Content>)
    requires 0 < |content| <= MAX_CONTENT
    ensures fresh(spool) && fresh(service) && spool.Valid() && spool.chunkSize == MAX_CONTENT && service.mask == mask
    ensures spool.maxBytes == 100 && spool.usedBytes == 1 && spool.size == ONE_BYTE && service.stored == map[]
    ensures Joint(spool, service, appended)
    ensures Writes(_ => [], [Output(FIRST, content)], MAX_CONTENT, [[ToValid(content)]], appended)
    ensures appended(FIRST) == [ToValid(content)] && forall key :: key != FIRST ==> appended(key) == []
  {
    spool := new Spool(MAX_CONTENT, 100, ONE_BYTE, map[], map[]);
    service := new Service(mask);
    ghost var none: Key -> seq<Content> := _ => [];
    NothingYet(mask, none);
    WritesNothing(none, MAX_CONTENT);
    OneChunk(FIRST, ToValid(content), spool.size);
    var ok, pieces;
    ok, pieces, appended := WriteOutput(spool, service, FIRST, content, none);
    WritesOn(none, [], MAX_CONTENT, [], none, Output(FIRST, content), pieces, appended);
    assert [] + [Output(FIRST, content)] == [Output(FIRST, content)];
  }

  const ONE_BYTE: Size := (key, k, content) => 1

  method OversizedOutput(mask: Key -> Content -> Content, content: Content)
    returns (spool: Spool, service: Service, ghost appended: Key -> seq<Content>, ghost chunks: seq<seq<Content>>)
    requires 0 < |content| <= MAX_CONTENT < |ToValid(content)|
    ensures fresh(spool) && fresh(service) && spool.Valid() && spool.chunkSize == MAX_CONTENT && service.mask == mask
    ensures Joint(spool, service, appended) && Writes(_ => [], OversizedScript(content), MAX_CONTENT, chunks, appended)
    ensures chunks == [[ToValid(content)]] + [[ToValid([0x41])]]
    ensures Oversized(spool.files, Upload(FIRST, 1))
    ensures Held(spool.files, service.stored, Upload(FIRST, 1)) && Held(spool.files, service.stored, Upload(SECOND, 1))
  {
    ghost var appended1;
    spool, service, appended1 := FirstOutput(mask, content);
    OneChunk(SECOND, ToValid([0x41]), spool.size);
    var ok, pieces;
    ok, pieces, appended := WriteOutput(spool, service, SECOND, [0x41], appended1);
    WritesOn(_ => [], [Output(FIRST, content)], MAX_CONTENT, [[ToValid(content)]], appended1, Output(SECOND, [0x41]), pieces, appended);
    chunks := [[ToValid(content)]] + [pieces];
    BothHeld(spool.files, spool.cursors, service.stored, mask, appended);
  }

  lemma BothHeld(
    files: Files, cursors: map<Key, nat>, stored: map<Key, seq<Content>>, mask: Key -> Content -> Content, appended: Key -> seq<Content>)
    requires JointOf(files, cursors, stored, mask, appended) && stored == map[]
    requires |appended(FIRST)| == 1 && |appended(SECOND)| == 1 && |appended(FIRST)[0]| > MAX_CONTENT
    ensures Oversized(files, Upload(FIRST, 1)) && Held(files, stored, Upload(FIRST, 1)) && Held(files, stored, Upload(SECOND, 1))
  {
    PendingOne(files, cursors, stored, mask, appended, FIRST);
    PendingOne(files, cursors, stored, mask, appended, SECOND);
  }

  lemma NothingYet(mask: Key -> Content -> Content, appended: Key -> seq<Content>)
    requires forall key :: appended(key) == []
    ensures JointOf(map[], map[], map[], mask, appended)
  {
    forall key
      ensures CoupledOf(map[], map[], map[], mask, appended, key)
    {
      var none: seq<Content> := [];
      assert Redacted(mask(key), none[..0]) == none;
    }
  }

  lemma OneChunk(key: Key, chunk: Content, size: Size)
    ensures Bytes(key, 1, [chunk], size) == size(key, 1, chunk)
  {
    assert [chunk][..0] == [];
  }

  lemma PendingOne(
    files: Files, cursors: map<Key, nat>, stored: map<Key, seq<Content>>, mask: Key -> Content -> Content,
    appended: Key -> seq<Content>, key: Key)
    requires JointOf(files, cursors, stored, mask, appended) && |appended(key)| == 1 && StoredOf(stored, key) == []
    ensures Held(files, stored, Upload(key, 1)) && ContentOf(files, Upload(key, 1)) == appended(key)[0]
  {
    assert CoupledOf(files, cursors, stored, mask, appended, key);
    assert 1 in PendingOf(files, key);
  }

  /** When the loop reaches a chunk, every earlier chunk of its stream is stored. */
  lemma ComesNext(
    files: Files, cursors: map<Key, nat>, stored: map<Key, seq<Content>>, mask: Key -> Content -> Content,
    appended: Key -> seq<Content>, order: seq<Upload>, i: nat)
    requires JointOf(files, cursors, stored, mask, appended)
    requires i < |order| && Ordered(order) && order[i].sequence <= |appended(order[i].key)|
    requires forall u :: Waiting(files, u) ==> u in order[i..]
    ensures order[i].sequence <= |StoredOf(stored, order[i].key)| + 1
  {
    var u := order[i];
    var n := |StoredOf(stored, u.key)|;
    assert CoupledOf(files, cursors, stored, mask, appended, u.key);
    if n + 1 <= |appended(u.key)| {
      assert n + 1 in PendingOf(files, u.key);
      assert Waiting(files, Upload(u.key, n + 1));
      var j :| 0 <= j < |order[i..]| && order[i..][j] == Upload(u.key, n + 1);
      assert order[i + j] == Upload(u.key, n + 1);
    }
  }

  lemma EmptyMeansStored(files: Files, key: Key, appended: seq<Content>, cursor: Option<nat>, stored: seq<Content>, mask: Content -> Content)
    requires forall u :: !Waiting(files, u)
    requires Coupled(appended, PendingOf(files, key), cursor, stored, mask)
    ensures PendingOf(files, key) == map[] && stored == Redacted(mask, appended)
  {
    forall k ensures k !in PendingOf(files, key) {
      assert !Waiting(files, Upload(key, k));
    }
    assert |stored| + 1 !in PendingOf(files, key);
    assert appended[..|stored|] == appended;
  }
}
