/** Whole histories of the memory cache: hits return the latest accepted write,
    a value is taken once, and eviction keeps the most recently touched keys. */
module MemoryHistory {
  import opened ExpiringMap
  import opened Lex
  import opened MemoryCache
  import opened Options

  /** A call, and what its readiness check had answered. */
  datatype Call = Call(op: Op, ready: bool)

  ghost function After(limits: Limits, calls: seq<Call>): Cache
    requires limits.Valid()
  {
    if calls == [] then Created
    else
      var last := calls[|calls| - 1];
      Apply(limits, After(limits, calls[..|calls| - 1]), last.op, last.ready).0
  }

  /** The reply of call `n` of a history. */
  ghost function ReplyOf(limits: Limits, calls: seq<Call>, n: nat): Reply
    requires limits.Valid() && n < |calls|
  {
    Apply(limits, After(limits, calls[..n]), calls[n].op, calls[n].ready).1
  }

  /** An accepted write, if the operation and its reply amount to one. */
  function AcceptedWrite(limits: Limits, op: Op, reply: Reply): Option<(Key, Cell)>
    requires limits.Valid()
  {
    match op
    case Set(key, value, ttl, now) =>
      if reply.Done? && ttl > 0
      then Some((key, Cell(value, now + EffectiveTtl(ttl, limits.defaultTtl).value))) else None
    case SetIfAbsent(key, value, ttl, now) =>
      if reply == Inserted(true) && ttl > 0
      then Some((key, Cell(value, now + EffectiveTtl(ttl, limits.defaultTtl).value))) else None
    case _ => None
  }

  function Observed(limits: Limits, c: Cache, op: Op, reply: Reply): Observation
    requires limits.Valid()
  {
    var write := AcceptedWrite(limits, op, reply);
    if write.Some? then Wrote(write.value.0, write.value.1)
    else match op
      case Take(key, _) => if reply.Found? then Removed(key) else NoChange
      case Delete(key) => if reply.Done? then Removed(key) else NoChange
      case Clear(namespace) => if reply.Done? then ClearedNamespace(namespace) else NoChange
      case Close => if c.closed then NoChange else ClearedAll
      case _ => NoChange
  }

  ghost function ObservedAt(limits: Limits, calls: seq<Call>, n: nat): Observation
    requires limits.Valid() && n < |calls|
  {
    Observed(limits, After(limits, calls[..n]), calls[n].op, ReplyOf(limits, calls, n))
  }

  ghost function Observations(limits: Limits, calls: seq<Call>): seq<Observation>
    requires limits.Valid()
  {
    seq(|calls|, n requires 0 <= n < |calls| => ObservedAt(limits, calls, n))
  }

  lemma ObservationPrefix(limits: Limits, calls: seq<Call>, n: nat)
    requires limits.Valid() && n <= |calls|
    ensures Observations(limits, calls)[..n] == Observations(limits, calls[..n])
  {
    forall k | 0 <= k < n ensures ObservedAt(limits, calls[..n], k) == ObservedAt(limits, calls, k) {
      assert calls[..n][..k] == calls[..k];
    }
  }

  function Visible(entries: Entries): map<Key, Cell> {
    map k | k in entries :: Cell(entries[k].value, entries[k].expiresAt)
  }

  lemma StepRefines(limits: Limits, c: Cache, op: Op, ready: bool, m: Ideal)
    requires limits.Valid() && Refines(Visible(c.entries), m)
    ensures
      var (next, reply) := Apply(limits, c, op, ready);
      Refines(Visible(next.entries), Observe(m, Observed(limits, c, op, reply)))
  {
    if ready && ValidArguments(limits, op) && (op.Set? || op.SetIfAbsent?) {
      WriteRefines(limits, c, op, m);
    }
  }

  lemma WriteRefines(limits: Limits, c: Cache, op: Op, m: Ideal)
    requires limits.Valid() && Refines(Visible(c.entries), m)
    requires ValidArguments(limits, op) && (op.Set? || op.SetIfAbsent?)
    ensures
      var (next, reply) := Apply(limits, c, op, true);
      Refines(Visible(next.entries), Observe(m, Observed(limits, c, op, reply)))
  {
    var live := c.(entries := RemoveExpired(c.entries, op.now));
    var cell := Cell(op.value, op.now + EffectiveTtl(op.ttl, limits.defaultTtl).value);
    InsertRefines(limits, live, op.key, cell, m);
    WriteOutcome(limits, c, op);
  }

  lemma WriteOutcome(limits: Limits, c: Cache, op: Op)
    requires limits.Valid() && ValidArguments(limits, op) && (op.Set? || op.SetIfAbsent?)
    ensures
      var live := c.(entries := RemoveExpired(c.entries, op.now));
      var cell := Cell(op.value, op.now + EffectiveTtl(op.ttl, limits.defaultTtl).value);
      var (next, reply) := Apply(limits, c, op, true);
      || (next == live && Observed(limits, c, op, reply) == NoChange)
      || (&& next == Insert(live, limits, op.key, cell.value, cell.expiresAt)
          && Observed(limits, c, op, reply) == Wrote(op.key, cell))
  {
  }

  lemma InsertRefines(limits: Limits, c: Cache, key: Key, cell: Cell, m: Ideal)
    requires Refines(Visible(c.entries), m)
    ensures Refines(Visible(Insert(c, limits, key, cell.value, cell.expiresAt).entries), m[key := cell])
  {
  }

  /** In every history the cache shows at most what was last written. */
  lemma {:induction false} HistoryRefines(limits: Limits, calls: seq<Call>)
    requires limits.Valid()
    ensures Refines(Visible(After(limits, calls).entries), Replay(Observations(limits, calls)))
    decreases |calls|
  {
    if calls != [] {
      var last := |calls| - 1;
      HistoryRefines(limits, calls[..last]);
      var o := Observations(limits, calls);
      ObservationPrefix(limits, calls, last);
      StepRefines(limits, After(limits, calls[..last]), calls[last].op, calls[last].ready, Replay(o[..last]));
    }
  }

  /** Call `n` was a read or a take that returned a value. */
  ghost predicate HitAt(limits: Limits, calls: seq<Call>, n: nat, key: Key, value: Bytes)
    requires limits.Valid()
  {
    && n < |calls|
    && (calls[n].op.Get? || calls[n].op.Take?) && calls[n].op.key == key
    && ReplyOf(limits, calls, n) == Found(Some(value))
  }

  lemma HitIsVisible(limits: Limits, c: Cache, op: Op, ready: bool, value: Bytes)
    requires limits.Valid() && (op.Get? || op.Take?)
    requires Apply(limits, c, op, ready).1 == Found(Some(value))
    ensures op.key in c.entries && c.entries[op.key].value == value && op.now < c.entries[op.key].expiresAt
  {
  }

  /** A hit returns the value of the latest accepted write of that key, still
      unexpired, and not since taken, deleted, cleared or closed. */
  lemma HitIsLatestWrite(limits: Limits, calls: seq<Call>, n: nat, key: Key, value: Bytes) returns (i: nat, cell: Cell)
    requires limits.Valid() && HitAt(limits, calls, n, key, value)
    ensures i < n && LatestWrite(Observations(limits, calls)[..n], i, key, cell)
    ensures cell.value == value && calls[n].op.now < cell.expiresAt
    ensures AcceptedWrite(limits, calls[i].op, ReplyOf(limits, calls, i)) == Some((key, cell))
  {
    var c := After(limits, calls[..n]);
    HitIsVisible(limits, c, calls[n].op, calls[n].ready, value);
    HistoryRefines(limits, calls[..n]);
    ObservationPrefix(limits, calls, n);
    var o := Observations(limits, calls)[..n];
    cell := Visible(c.entries)[key];
    ReplayHoldsLatestWrites(o, key, cell);
    i :| LatestWrite(o, i, key, cell);
    WriteWasAccepted(limits, After(limits, calls[..i]), calls[i].op, ReplyOf(limits, calls, i));
  }

  lemma WriteWasAccepted(limits: Limits, c: Cache, op: Op, reply: Reply)
    requires limits.Valid() && Observed(limits, c, op, reply).Wrote?
    ensures
      var o := Observed(limits, c, op, reply);
      AcceptedWrite(limits, op, reply) == Some((o.key, o.cell))
  {
  }

  ghost predicate TookAt(limits: Limits, calls: seq<Call>, n: nat, key: Key)
    requires limits.Valid()
  {
    && n < |calls| && calls[n].op.Take? && calls[n].op.key == key
    && ReplyOf(limits, calls, n).Found? && ReplyOf(limits, calls, n).value.Some?
  }

  /** Between two successful takes of a key lies an accepted write of it. */
  lemma TakenOncePerWrite(limits: Limits, calls: seq<Call>, m: nat, n: nat, key: Key) returns (i: nat)
    requires limits.Valid() && m < n
    requires TookAt(limits, calls, m, key) && TookAt(limits, calls, n, key)
    ensures m < i < n
    ensures var w := AcceptedWrite(limits, calls[i].op, ReplyOf(limits, calls, i)); w.Some? && w.value.0 == key
  {
    var cell;
    i, cell := HitIsLatestWrite(limits, calls, n, key, ReplyOf(limits, calls, n).value.value);
    var o := Observations(limits, calls);
    assert Supersedes(o[m], key);
    assert o[..n][m] == o[m] && o[..n][i] == o[i];
  }

  /** A session key that is written once is consumed at most once. */
  lemma WrittenOnceTakenOnce(limits: Limits, calls: seq<Call>, w: nat, m: nat, n: nat, key: Key)
    requires limits.Valid() && w < |calls|
    requires forall i :: 0 <= i < |calls| && i != w ==>
      var write := AcceptedWrite(limits, calls[i].op, ReplyOf(limits, calls, i)); write.None? || write.value.0 != key
    requires TookAt(limits, calls, m, key) && TookAt(limits, calls, n, key)
    ensures m == n
  {
    if m < n {
      var i := TakenOncePerWrite(limits, calls, m, n, key);
      var j, _ := HitIsLatestWrite(limits, calls, m, key, ReplyOf(limits, calls, m).value.value);
    } else if n < m {
      var i := TakenOncePerWrite(limits, calls, n, m, key);
      var j, _ := HitIsLatestWrite(limits, calls, n, key, ReplyOf(limits, calls, n).value.value);
    }
  }
}
