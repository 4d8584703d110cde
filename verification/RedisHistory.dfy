/** Whole histories of the shared cache. Whatever the clock does, a stored field
    is the latest accepted write of its key. Nothing live is lost exactly when
    every write fits: the hash outlives the fields it holds and the expiry
    survives as script text. */
module RedisHistory {
  import opened ExpiringMap
  import opened Lex
  import opened Options
  import opened RedisCache

  datatype Call = Call(op: Op, now: nat)

  function After(limits: Limits, calls: seq<Call>): Server {
    if calls == [] then map[]
    else
      var last := calls[|calls| - 1];
      Apply(limits, After(limits, calls[..|calls| - 1]), last.op, last.now).0
  }

  function ReplyOf(limits: Limits, calls: seq<Call>, n: nat): Reply
    requires n < |calls|
  {
    Apply(limits, After(limits, calls[..n]), calls[n].op, calls[n].now).1
  }

  function Observations(limits: Limits, calls: seq<Call>): seq<Observation> {
    seq(|calls|, n requires 0 <= n < |calls| => Observed(limits, calls[n].op, ReplyOf(limits, calls, n), calls[n].now))
  }

  lemma ObservationPrefix(limits: Limits, calls: seq<Call>, n: nat)
    requires n <= |calls|
    ensures Observations(limits, calls)[..n] == Observations(limits, calls[..n])
  {
    forall k | 0 <= k < n ensures ReplyOf(limits, calls[..n], k) == ReplyOf(limits, calls, k) {
      assert calls[..n][..k] == calls[..k];
    }
  }

  lemma HistoryStep(limits: Limits, calls: seq<Call>)
    requires calls != []
    ensures
      var last := |calls| - 1;
      var (op, now) := (calls[last].op, calls[last].now);
      var (next, reply) := Apply(limits, After(limits, calls[..last]), op, now);
      && After(limits, calls) == next
      && Replay(Observations(limits, calls)) ==
           Observe(Replay(Observations(limits, calls[..last])), Observed(limits, op, reply, now))
  {
    ObservationPrefix(limits, calls, |calls| - 1);
  }

  lemma StoreOutcome(limits: Limits, server: Server, op: Op, now: nat)
    requires op.Set? || op.SetIfAbsent?
    ensures
      var (next, reply) := Apply(limits, server, op, now);
      var o := Observed(limits, op, reply, now);
      || (next == server && o == NoChange)
      || (&& next == Stored(server, limits, op.key, op.value, op.ttl, now)
          && o == Wrote(op.key, Cell(op.value, now + FieldTtl(limits, op.ttl))))
  {
  }

  // ------------------------------------------- every history, whatever clock

  /** The raw text is the cell, with the expiry as script text keeps it. */
  predicate Holds(raw: Bytes, cell: Cell) {
    cell.expiresAt >= 0 && Decode(raw) == Some(Cell(cell.value, Rounded(cell.expiresAt)))
  }

  /** Every field the server has, live or not, is what the ideal map holds. */
  predicate Faithful(server: Server, m: Ideal) {
    forall namespace, name :: namespace in server && name in server[namespace].fields ==>
      Key(namespace, name) in m && Holds(server[namespace].fields[name], m[Key(namespace, name)])
  }

  lemma StoreFaithful(limits: Limits, server: Server, m: Ideal, key: Key, value: Bytes, ttl: nat, now: nat)
    requires Faithful(server, m)
    ensures
      var cell := Cell(value, now + FieldTtl(limits, ttl));
      Faithful(Stored(server, limits, key, value, ttl, now), m[key := cell])
  {
    var (cell, next) := (Cell(value, now + FieldTtl(limits, ttl)), Stored(server, limits, key, value, ttl, now));
    DecodeEncode(cell.expiresAt, value);
    forall namespace, name | namespace in next && name in next[namespace].fields
      ensures
        && Key(namespace, name) in m[key := cell]
        && Holds(next[namespace].fields[name], m[key := cell][Key(namespace, name)])
    {
      if Key(namespace, name) != key {
        assert namespace in server && name in server[namespace].fields;
      }
    }
  }

  /** Dropping a field, whether or not the map forgets the key with it. */
  lemma RemoveFaithful(server: Server, m: Ideal, key: Key, now: nat)
    requires Faithful(server, m)
    ensures
      var next := WithFields(server, key.namespace, FieldsAt(server, key.namespace, now) - {key.name});
      Faithful(next, m) && Faithful(next, m - {key})
  {
  }

  lemma StoringStepFaithful(limits: Limits, server: Server, m: Ideal, op: Op, now: nat)
    requires Faithful(server, m) && (op.Set? || op.SetIfAbsent?)
    ensures StaysFaithful(limits, server, m, op, now)
  {
    StoreOutcome(limits, server, op, now);
    StoreFaithful(limits, server, m, op.key, op.value, op.ttl, now);
    assert Observe(m, NoChange) == m;
  }

  lemma RemovingStepFaithful(limits: Limits, server: Server, m: Ideal, op: Op, now: nat)
    requires Faithful(server, m) && (op.Get? || op.Take? || op.Delete?)
    ensures StaysFaithful(limits, server, m, op, now)
  {
    RemoveFaithful(server, m, op.key, now);
    assert Observe(m, NoChange) == m && Observe(m, Removed(op.key)) == m - {op.key};
  }

  lemma ClearFaithful(limits: Limits, server: Server, m: Ideal, namespace: Bytes, now: nat)
    requires Faithful(server, m)
    ensures StaysFaithful(limits, server, m, Clear(namespace), now)
  {
  }

  predicate StaysFaithful(limits: Limits, server: Server, m: Ideal, op: Op, now: nat) {
    var (next, reply) := Apply(limits, server, op, now);
    Faithful(next, Observe(m, Observed(limits, op, reply, now)))
  }

  /** Every operation keeps it, at any time. */
  lemma StepFaithful(limits: Limits, server: Server, m: Ideal, op: Op, now: nat)
    requires Faithful(server, m)
    ensures StaysFaithful(limits, server, m, op, now)
  {
    if op.Set? || op.SetIfAbsent? {
      StoringStepFaithful(limits, server, m, op, now);
    } else if op.Clear? {
      ClearFaithful(limits, server, m, op.namespace, now);
    } else {
      RemovingStepFaithful(limits, server, m, op, now);
    }
  }

  /** In every history each stored field is the latest write of its key. */
  lemma {:induction false} HistoryFaithful(limits: Limits, calls: seq<Call>)
    ensures Faithful(After(limits, calls), Replay(Observations(limits, calls)))
    decreases |calls|
  {
    if calls != [] {
      var last := |calls| - 1;
      var earlier := calls[..last];
      HistoryFaithful(limits, earlier);
      var m := Replay(Observations(limits, earlier));
      StepFaithful(limits, After(limits, earlier), m, calls[last].op, calls[last].now);
      HistoryStep(limits, calls);
    }
  }

  /** Call `n` was a read or a take that returned a value. */
  predicate HitAt(limits: Limits, calls: seq<Call>, n: nat, key: Key, value: Bytes) {
    && n < |calls|
    && (calls[n].op.Get? || calls[n].op.Take?) && calls[n].op.key == key
    && ReplyOf(limits, calls, n) == Found(Some(value))
  }

  function CellAt(server: Server, key: Key, now: int): Option<Cell> {
    LiveCell(FieldsAt(server, key.namespace, now), key.name, now)
  }

  lemma ReadReply(limits: Limits, server: Server, op: Op, now: nat, value: Bytes)
    requires op.Get? || op.Take?
    ensures Apply(limits, server, op, now).1 == Found(Some(value)) <==>
      CellAt(server, op.key, now).Some? && CellAt(server, op.key, now).value.value == value
  {
  }

  /** Call `i` was an accepted write of the value under the key. */
  predicate WroteAt(limits: Limits, calls: seq<Call>, i: nat, key: Key, value: Bytes) {
    && i < |calls|
    && (calls[i].op.Set? || calls[i].op.SetIfAbsent?) && calls[i].op.key == key && calls[i].op.value == value
    && ReplyOf(limits, calls, i) == (if calls[i].op.Set? then Done else Inserted(true))
  }

  lemma WriteWasAccepted(limits: Limits, calls: seq<Call>, i: nat)
    requires i < |calls| && Observations(limits, calls)[i].Wrote?
    ensures
      var o := Observations(limits, calls)[i];
      WroteAt(limits, calls, i, o.key, o.cell.value)
  {
  }

  /** In every history a hit returns the value of the latest accepted write of
      its key, not since taken, deleted or cleared, and not past the expiry that
      was stored. */
  lemma HitIsLatestWrite(limits: Limits, calls: seq<Call>, n: nat, key: Key, value: Bytes) returns (i: nat, cell: Cell)
    requires HitAt(limits, calls, n, key, value)
    ensures i < n && LatestWrite(Observations(limits, calls)[..n], i, key, cell)
    ensures cell.value == value && 0 <= cell.expiresAt && calls[n].now < Rounded(cell.expiresAt)
    ensures WroteAt(limits, calls, i, key, value)
  {
    var server := After(limits, calls[..n]);
    ReadReply(limits, server, calls[n].op, calls[n].now, value);
    HistoryFaithful(limits, calls[..n]);
    ObservationPrefix(limits, calls, n);
    var o := Observations(limits, calls)[..n];
    cell := Replay(o)[key];
    ReplayHoldsLatestWrites(o, key, cell);
    i :| LatestWrite(o, i, key, cell);
    assert o[i] == Observations(limits, calls)[i];
    WriteWasAccepted(limits, calls, i);
  }

  predicate TookAt(limits: Limits, calls: seq<Call>, n: nat, key: Key) {
    && n < |calls| && calls[n].op.Take? && calls[n].op.key == key
    && ReplyOf(limits, calls, n).Found? && ReplyOf(limits, calls, n).value.Some?
  }

  /** Between two successful takes of a key lies an accepted write of it. */
  lemma TakenOncePerWrite(limits: Limits, calls: seq<Call>, m: nat, n: nat, key: Key) returns (i: nat)
    requires m < n && TookAt(limits, calls, m, key) && TookAt(limits, calls, n, key)
    ensures m < i < n && WroteAt(limits, calls, i, key, ReplyOf(limits, calls, n).value.value)
  {
    var cell;
    i, cell := HitIsLatestWrite(limits, calls, n, key, ReplyOf(limits, calls, n).value.value);
    var o := Observations(limits, calls);
    assert Supersedes(o[m], key);
    assert o[..n][m] == o[m] && o[..n][i] == o[i];
  }

  /** A session key that is written once is consumed at most once. */
  lemma WrittenOnceTakenOnce(limits: Limits, calls: seq<Call>, w: nat, m: nat, n: nat, key: Key)
    requires w < |calls|
    requires forall i, value :: WroteAt(limits, calls, i, key, value) ==> i == w
    requires TookAt(limits, calls, m, key) && TookAt(limits, calls, n, key)
    ensures m == n
  {
    if m < n {
      var i := TakenOncePerWrite(limits, calls, m, n, key);
      var j, _ := HitIsLatestWrite(limits, calls, m, key, ReplyOf(limits, calls, m).value.value);
    } else if n < m {
      var i := TakenOncePerWrite(limits, calls, n, m, key);
      var j, _ := HitIsLatestWrite(limits, calls, n, key, ReplyOf(limits, calls, n).value.value);
    }
  }

  // ------------------------------------------ when nothing that is live is lost

  function IdealAt(m: Ideal, key: Key, now: int): Option<Cell> {
    if key in m && now < m[key].expiresAt then Some(m[key]) else None
  }

  /** What is live on the server is live in the ideal map and the other way
      round, from `now` on; so no hash is dropped before a live field. */
  ghost predicate Agree(server: Server, m: Ideal, now: nat) {
    forall key, t: int :: now <= t ==> CellAt(server, key, t) == IdealAt(m, key, t)
  }

  /** A write at `now` fits: the hash it renews lives at all, the expiry survives
      as script text, and no live sibling expires after the renewed hash. */
  predicate WriteFits(limits: Limits, m: Ideal, key: Key, expiresAt: nat, now: nat) {
    && NamespaceTtl(limits) >= 1
    && Rounded(expiresAt) == expiresAt
    && forall k :: k in m && k.namespace == key.namespace && k != key && now < m[k].expiresAt ==>
         m[k].expiresAt <= now + NamespaceTtl(limits)
  }

  /** A write keeps a live sibling of the hash as it was exactly when the renewed
      hash ends it when the old one did; if the old hash outlived the sibling,
      exactly when the new one does. */
  lemma WriteKeepsSibling(limits: Limits, server: Server, key: Key, value: Bytes, ttl: nat, now: nat, k: Key)
    requires k != key && k.namespace == key.namespace && CellAt(server, k, now).Some?
    ensures
      var next := Stored(server, limits, key, value, ttl, now);
      var (expiresAt, before) := (CellAt(server, k, now).value.expiresAt, server[k.namespace].expiresAt);
      var renewed := now + NamespaceTtl(limits);
      && ((forall t: int :: now <= t ==> CellAt(next, k, t) == CellAt(server, k, t)) <==>
            before == renewed || (expiresAt <= before && expiresAt <= renewed))
      && (expiresAt <= before ==>
            ((forall t: int :: now <= t ==> CellAt(next, k, t) == CellAt(server, k, t)) <==> expiresAt <= renewed))
  {
    var next := Stored(server, limits, key, value, ttl, now);
    var (expiresAt, before) := (CellAt(server, k, now).value.expiresAt, server[k.namespace].expiresAt);
    var renewed := now + NamespaceTtl(limits);
    forall t: int | now <= t
      ensures CellAt(server, k, t).Some? <==> t < before && t < expiresAt
      ensures CellAt(next, k, t).Some? <==> t < renewed && t < expiresAt
    {
    }
    if forall t: int :: now <= t ==> CellAt(next, k, t) == CellAt(server, k, t) {
      assert CellAt(next, k, renewed) == CellAt(server, k, renewed);
      assert CellAt(next, k, before) == CellAt(server, k, before);
    }
  }

  /** Removing a field, live or not. */
  lemma RemoveAgrees(server: Server, m: Ideal, key: Key, now: nat)
    requires Agree(server, m, now)
    ensures Agree(WithFields(server, key.namespace, FieldsAt(server, key.namespace, now) - {key.name}), m - {key}, now)
  {
    var next := WithFields(server, key.namespace, FieldsAt(server, key.namespace, now) - {key.name});
    forall k, t: int | now <= t ensures CellAt(next, k, t) == IdealAt(m - {key}, k, t) {
      assert CellAt(server, k, t) == IdealAt(m, k, t);
    }
  }

  lemma DeadFieldAgrees(server: Server, m: Ideal, key: Key, now: nat)
    requires Agree(server, m, now) && CellAt(server, key, now).None?
    ensures Agree(WithFields(server, key.namespace, FieldsAt(server, key.namespace, now) - {key.name}), m, now)
  {
    var next := WithFields(server, key.namespace, FieldsAt(server, key.namespace, now) - {key.name});
    forall k, t: int | now <= t ensures CellAt(next, k, t) == IdealAt(m, k, t) {
      assert CellAt(server, k, t) == IdealAt(m, k, t);
      assert CellAt(server, k, now) == IdealAt(m, k, now);
    }
  }

  lemma ClearAgrees(server: Server, m: Ideal, namespace: Bytes, now: nat)
    requires Agree(server, m, now)
    ensures Agree(server - {namespace}, Observe(m, ClearedNamespace(namespace)), now)
  {
    var next := Observe(m, ClearedNamespace(namespace));
    forall k, t: int | now <= t ensures CellAt(server - {namespace}, k, t) == IdealAt(next, k, t) {
      assert CellAt(server, k, t) == IdealAt(m, k, t);
    }
  }

  /** The field that was written is seen until it expires. */
  lemma WrittenFieldShows(limits: Limits, server: Server, key: Key, value: Bytes, ttl: nat, now: nat, t: int)
    requires now <= t && NamespaceTtl(limits) >= 1
    requires Rounded(now + FieldTtl(limits, ttl)) == now + FieldTtl(limits, ttl)
    ensures
      var cell := Cell(value, now + FieldTtl(limits, ttl));
      CellAt(Stored(server, limits, key, value, ttl, now), key, t) == if t < cell.expiresAt then Some(cell) else None
  {
    FieldTtlFits(limits, ttl);
    DecodeEncode(now + FieldTtl(limits, ttl), value);
  }

  /** A write that fits shows every key as the ideal map does. */
  lemma FittingWriteShows(
    limits: Limits, server: Server, m: Ideal, key: Key, value: Bytes, ttl: nat, now: nat, k: Key, t: int)
    requires Agree(server, m, now) && now <= t
    requires WriteFits(limits, m, key, now + FieldTtl(limits, ttl), now)
    ensures
      var cell := Cell(value, now + FieldTtl(limits, ttl));
      CellAt(Stored(server, limits, key, value, ttl, now), k, t) == IdealAt(m[key := cell], k, t)
  {
    if k == key {
      WrittenFieldShows(limits, server, key, value, ttl, now, t);
    } else {
      assert CellAt(server, k, t) == IdealAt(m, k, t);
      assert CellAt(server, k, now) == IdealAt(m, k, now);
      UnwrittenFieldShows(limits, server, m, key, value, ttl, now, k, t);
    }
  }

  lemma UnwrittenFieldShows(
    limits: Limits, server: Server, m: Ideal, key: Key, value: Bytes, ttl: nat, now: nat, k: Key, t: int)
    requires now <= t && k != key && WriteFits(limits, m, key, now + FieldTtl(limits, ttl), now)
    requires CellAt(server, k, t) == IdealAt(m, k, t) && CellAt(server, k, now) == IdealAt(m, k, now)
    ensures CellAt(Stored(server, limits, key, value, ttl, now), k, t) == IdealAt(m, k, t)
  {
  }

  /** A write that agrees fits: the new field is seen at once, and each live
      sibling where the renewed hash ends. */
  lemma AgreeingWriteFits(
    limits: Limits, server: Server, m: Ideal, key: Key, value: Bytes, ttl: nat, now: nat)
    requires Agree(server, m, now)
    requires
      var cell := Cell(value, now + FieldTtl(limits, ttl));
      Agree(Stored(server, limits, key, value, ttl, now), m[key := cell], now)
    ensures WriteFits(limits, m, key, now + FieldTtl(limits, ttl), now)
  {
    var cell := Cell(value, now + FieldTtl(limits, ttl));
    var next := Stored(server, limits, key, value, ttl, now);
    DecodeEncode(cell.expiresAt, value);
    assert CellAt(next, key, now) == IdealAt(m[key := cell], key, now);
    forall k | k in m && k.namespace == key.namespace && k != key && now < m[k].expiresAt
      ensures m[k].expiresAt <= now + NamespaceTtl(limits)
    {
      var end := now + NamespaceTtl(limits);
      assert CellAt(next, k, end) == IdealAt(m[key := cell], k, end);
    }
  }

  /** A write loses nothing live and shows nothing dead exactly when it fits. */
  lemma StoreAgrees(limits: Limits, server: Server, m: Ideal, key: Key, value: Bytes, ttl: nat, now: nat)
    requires Agree(server, m, now)
    ensures
      var cell := Cell(value, now + FieldTtl(limits, ttl));
      Agree(Stored(server, limits, key, value, ttl, now), m[key := cell], now) <==>
      WriteFits(limits, m, key, cell.expiresAt, now)
  {
    var cell := Cell(value, now + FieldTtl(limits, ttl));
    var next := Stored(server, limits, key, value, ttl, now);
    if WriteFits(limits, m, key, cell.expiresAt, now) {
      forall k, t: int | now <= t ensures CellAt(next, k, t) == IdealAt(m[key := cell], k, t) {
        FittingWriteShows(limits, server, m, key, value, ttl, now, k, t);
      }
    }
    if Agree(next, m[key := cell], now) {
      AgreeingWriteFits(limits, server, m, key, value, ttl, now);
    }
  }

  lemma StoringStepAgrees(limits: Limits, server: Server, m: Ideal, op: Op, now: nat)
    requires Agree(server, m, now) && (op.Set? || op.SetIfAbsent?)
    ensures
      var (next, reply) := Apply(limits, server, op, now);
      var o := Observed(limits, op, reply, now);
      Agree(next, Observe(m, o), now) <==>
        (o.Wrote? ==> WriteFits(limits, m, o.key, now + FieldTtl(limits, op.ttl), now))
  {
    StoreOutcome(limits, server, op, now);
    StoreAgrees(limits, server, m, op.key, op.value, op.ttl, now);
    assert Observe(m, NoChange) == m;
  }

  /** Only a write that does not fit ends the agreement. */
  lemma StepAgrees(limits: Limits, server: Server, m: Ideal, op: Op, now: nat)
    requires Agree(server, m, now)
    ensures
      var (next, reply) := Apply(limits, server, op, now);
      var o := Observed(limits, op, reply, now);
      && (o.Wrote? ==> o.cell.expiresAt >= 0)
      && (Agree(next, Observe(m, o), now) <==> (o.Wrote? ==> WriteFits(limits, m, o.key, o.cell.expiresAt, now)))
  {
    match op
    case Get(key) =>
      if CellAt(server, key, now).None? {
        DeadFieldAgrees(server, m, key, now);
      }
    case Clear(namespace) => ClearAgrees(server, m, namespace, now);
    case Take(key) => RemoveAgrees(server, m, key, now);
    case Delete(key) => RemoveAgrees(server, m, key, now);
    case _ => StoringStepAgrees(limits, server, m, op, now);
  }

  // ------------------------------------------------ histories of a sane clock

  predicate ClockAdvances(calls: seq<Call>) {
    forall i, j :: 0 <= i < j < |calls| ==> calls[i].now <= calls[j].now
  }

  /** The time of the last call. */
  function Clock(calls: seq<Call>): nat {
    if calls == [] then 0 else calls[|calls| - 1].now
  }

  ghost predicate AgreesAfter(limits: Limits, calls: seq<Call>, n: nat)
    requires n <= |calls|
  {
    Agree(After(limits, calls[..n]), Replay(Observations(limits, calls[..n])), Clock(calls[..n]))
  }

  /** A write whose hash lives at all and whose expiry survives as script text. */
  predicate Exact(limits: Limits, o: Observation) {
    o.Wrote? ==> NamespaceTtl(limits) >= 1 && 0 <= o.cell.expiresAt == Rounded(o.cell.expiresAt)
  }

  predicate AllExact(limits: Limits, calls: seq<Call>) {
    forall n :: 0 <= n < |calls| ==> Exact(limits, Observations(limits, calls)[n])
  }

  /** No expiry is further away than the life of a hash renewed now. */
  predicate Within(limits: Limits, m: Ideal, now: nat) {
    forall k :: k in m ==> m[k].expiresAt <= now + NamespaceTtl(limits)
  }

  lemma LaterAgrees(server: Server, m: Ideal, earlier: nat, later: nat)
    requires Agree(server, m, earlier) && earlier <= later
    ensures Agree(server, m, later)
  {
    forall k, t: int | later <= t ensures CellAt(server, k, t) == IdealAt(m, k, t) {
      assert earlier <= t;
    }
  }

  lemma StepWithin(limits: Limits, m: Ideal, op: Op, reply: Reply, earlier: nat, now: nat)
    requires Within(limits, m, earlier) && earlier <= now && Exact(limits, Observed(limits, op, reply, now))
    ensures Within(limits, Observe(m, Observed(limits, op, reply, now)), now)
  {
    if Observed(limits, op, reply, now).Wrote? {
      FieldTtlFits(limits, op.ttl);
    }
  }

  lemma ExactPrefix(limits: Limits, calls: seq<Call>, n: nat)
    requires n <= |calls| && AllExact(limits, calls)
    ensures AllExact(limits, calls[..n])
  {
    ObservationPrefix(limits, calls, n);
    forall k | 0 <= k < n ensures Exact(limits, Observations(limits, calls[..n])[k]) {
      assert Observations(limits, calls)[..n][k] == Observations(limits, calls)[k];
    }
  }

  lemma {:induction false} ExactAgrees(limits: Limits, calls: seq<Call>)
    requires ClockAdvances(calls) && AllExact(limits, calls)
    ensures Agree(After(limits, calls), Replay(Observations(limits, calls)), Clock(calls))
    ensures Within(limits, Replay(Observations(limits, calls)), Clock(calls))
    decreases |calls|
  {
    if calls != [] {
      var last := |calls| - 1;
      var (earlier, op, now) := (calls[..last], calls[last].op, calls[last].now);
      ExactPrefix(limits, calls, last);
      ExactAgrees(limits, earlier);
      var (server, m) := (After(limits, earlier), Replay(Observations(limits, earlier)));
      LaterAgrees(server, m, Clock(earlier), now);
      StepAgrees(limits, server, m, op, now);
      assert Exact(limits, Observations(limits, calls)[last]);
      StepWithin(limits, m, op, ReplyOf(limits, calls, last), Clock(earlier), now);
      HistoryStep(limits, calls);
    }
  }

  lemma NextAgreement(limits: Limits, calls: seq<Call>, n: nat)
    requires n < |calls|
    ensures
      var (server, m) := (After(limits, calls[..n]), Replay(Observations(limits, calls[..n])));
      var (next, reply) := Apply(limits, server, calls[n].op, calls[n].now);
      var o := Observed(limits, calls[n].op, reply, calls[n].now);
      && Observations(limits, calls)[n] == o
      && (AgreesAfter(limits, calls, n + 1) <==> Agree(next, Observe(m, o), calls[n].now))
  {
    assert calls[..n + 1][..n] == calls[..n];
    HistoryStep(limits, calls[..n + 1]);
  }

  lemma AgreementIsExact(limits: Limits, calls: seq<Call>, n: nat)
    requires ClockAdvances(calls) && n < |calls|
    requires AgreesAfter(limits, calls, n) && AgreesAfter(limits, calls, n + 1)
    ensures Exact(limits, Observations(limits, calls)[n])
  {
    var (server, m) := (After(limits, calls[..n]), Replay(Observations(limits, calls[..n])));
    LaterAgrees(server, m, Clock(calls[..n]), calls[n].now);
    NextAgreement(limits, calls, n);
    StepAgrees(limits, server, m, calls[n].op, calls[n].now);
  }

  /** Under a clock that never goes back, the server shows exactly the latest
      live writes after every call if and only if every accepted write had a
      default of at least a millisecond and an expiry that fourteen digits hold. */
  lemma HistoryAgrees(limits: Limits, calls: seq<Call>)
    requires ClockAdvances(calls)
    ensures (forall n :: 0 <= n <= |calls| ==> AgreesAfter(limits, calls, n)) <==> AllExact(limits, calls)
  {
    if AllExact(limits, calls) {
      forall n | 0 <= n <= |calls| ensures AgreesAfter(limits, calls, n) {
        ExactPrefix(limits, calls, n);
        ExactAgrees(limits, calls[..n]);
      }
    }
    if forall n :: 0 <= n <= |calls| ==> AgreesAfter(limits, calls, n) {
      forall n | 0 <= n < |calls| ensures Exact(limits, Observations(limits, calls)[n]) {
        AgreementIsExact(limits, calls, n);
      }
    }
  }

  lemma IdealLatest(o: seq<Observation>, key: Key, now: int, value: Bytes)
    ensures
      (IdealAt(Replay(o), key, now).Some? && IdealAt(Replay(o), key, now).value.value == value) <==>
      exists i, cell :: LatestWrite(o, i, key, cell) && cell.value == value && now < cell.expiresAt
  {
    var m := Replay(o);
    if key in m {
      ReplayHoldsLatestWrites(o, key, m[key]);
    }
    if i, cell :| LatestWrite(o, i, key, cell) && cell.value == value && now < cell.expiresAt {
      ReplayHoldsLatestWrites(o, key, cell);
    }
  }

  /** There a read or a take hits exactly when the latest write of the key is
      live, and then returns its value. */
  lemma HitIffLatestWrite(limits: Limits, calls: seq<Call>, n: nat, key: Key, value: Bytes)
    requires n < |calls| && ClockAdvances(calls[..n + 1]) && AllExact(limits, calls[..n])
    requires (calls[n].op.Get? || calls[n].op.Take?) && calls[n].op.key == key
    ensures HitAt(limits, calls, n, key, value) <==>
      exists i, cell ::
        && LatestWrite(Observations(limits, calls)[..n], i, key, cell)
        && cell.value == value && calls[n].now < cell.expiresAt
  {
    var now := calls[n].now;
    assert calls[..n + 1][n] == calls[n];
    ExactAgrees(limits, calls[..n]);
    ObservationPrefix(limits, calls, n);
    var o := Observations(limits, calls)[..n];
    var server := After(limits, calls[..n]);
    LaterAgrees(server, Replay(o), Clock(calls[..n]), now);
    assert CellAt(server, key, now) == IdealAt(Replay(o), key, now);
    ReadReply(limits, server, calls[n].op, now, value);
    IdealLatest(o, key, now, value);
  }

  // --------------------------------------------------- what falls outside it

  /** With a default below a millisecond the hash is dropped as it is written. */
  lemma SubMillisecondDefaultLosesWrites(limits: Limits, key: Key, value: Bytes, ttl: nat, now: nat, t: int)
    requires limits.defaultTtl < NANOS_PER_MILLI
    ensures CellAt(Apply(limits, map[], Set(key, value, ttl), now).0, key, t).None?
  {
  }

  /** The step back a clock can make: a field written at `w` keeps its life under
      a sibling's write at `now` exactly when its expiry is within one life of
      the hash from `now`. */
  lemma ClockStepKeepsField(
    limits: Limits, server: Server, a: Key, b: Key, x: Bytes, y: Bytes, p: nat, q: nat, w: nat, now: nat)
    requires a != b && a.namespace == b.namespace
    requires Accepts(limits, Set(a, x, p)) && Accepts(limits, Set(b, y, q))
    requires NamespaceTtl(limits) >= 1 && now < w + FieldTtl(limits, p) == Rounded(w + FieldTtl(limits, p))
    ensures
      var first := Apply(limits, server, Set(a, x, p), w).0;
      var second := Apply(limits, first, Set(b, y, q), now).0;
      && CellAt(first, a, now) == Some(Cell(x, w + FieldTtl(limits, p)))
      && ((forall t: int :: now <= t ==> CellAt(second, a, t) == CellAt(first, a, t)) <==>
            w + FieldTtl(limits, p) <= now + NamespaceTtl(limits))
  {
    FieldTtlFits(limits, p);
    DecodeEncode(w + FieldTtl(limits, p), x);
    var first := Apply(limits, server, Set(a, x, p), w).0;
    WriteKeepsSibling(limits, first, b, y, q, now, a);
  }

  /** A write by a clock that moved back shortens the hash below a live field. */
  lemma ClockMovingBackLosesLiveField(namespace: Bytes, x: Bytes, y: Bytes, value: Bytes)
    requires x != y
    ensures
      var limits := Limits(|value|, 10 * NANOS_PER_MILLI);
      var (a, b) := (Key(namespace, x), Key(namespace, y));
      var ttl := 10 * NANOS_PER_MILLI;
      var first := Apply(limits, map[], Set(a, value, ttl), 100).0;
      var second := Apply(limits, first, Set(b, value, ttl), 50).0;
      CellAt(first, a, 105) == Some(Cell(value, 110)) && CellAt(second, a, 105).None?
  {
    RoundedExactly(110);
    DecodeEncode(110, value);
  }
}
