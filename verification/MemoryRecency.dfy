/** Least-recently-used eviction, stated on histories: the cache holds exactly
    the most recently touched keys. */
module MemoryRecency {
  import opened ExpiringMap
  import opened MemoryCache
  import opened MemoryHistory
  import opened Options

  /** In any history whatever, the bound holds. */
  lemma {:induction false} NeverExceedsBound(limits: Limits, calls: seq<Call>)
    requires limits.Valid()
    ensures |After(limits, calls).entries| <= limits.maxEntries
    decreases |calls|
  {
    if calls != [] {
      var last := |calls| - 1;
      NeverExceedsBound(limits, calls[..last]);
      StepBound(limits, After(limits, calls[..last]), calls[last].op, calls[last].ready);
    }
  }

  lemma StepBound(limits: Limits, c: Cache, op: Op, ready: bool)
    requires limits.Valid() && |c.entries| <= limits.maxEntries
    ensures |Apply(limits, c, op, ready).0.entries| <= limits.maxEntries
  {
    var next := Apply(limits, c, op, ready).0;
    if ready && ValidArguments(limits, op) && (op.Get? || op.Set? || op.SetIfAbsent?) {
      var live := RemoveExpired(c.entries, op.now);
      SizeOfPart(c.entries, live);
      if next.entries.Keys <= live.Keys {
        SizeOfPart(live, next.entries);
      } else {
        InsertBound(live, op.key, limits.maxEntries, next.entries[op.key]);
      }
    } else if next.entries.Keys <= c.entries.Keys {
      SizeOfPart(c.entries, next.entries);
    }
  }

  lemma InsertBound(live: Entries, key: Key, maxEntries: nat, e: Entry)
    requires 0 < maxEntries && |live| <= maxEntries
    ensures |MakeRoom(live, key, maxEntries)[key := e]| <= maxEntries
    ensures |live| == maxEntries ==> |MakeRoom(live, key, maxEntries)[key := e]| == maxEntries
  {
    var room := MakeRoom(live, key, maxEntries);
    if room != live {
      SizeOfRemoval(live, Least(live));
    }
    SizeOfUpdate(room, key, e);
  }

  // ------------------------------------------------------------- recency

  /** Call `n` touched the key: a read that hit, or an accepted write. */
  ghost predicate TouchedAt(limits: Limits, calls: seq<Call>, n: nat, key: Key)
    requires limits.Valid() && n < |calls|
  {
    var reply := ReplyOf(limits, calls, n);
    var write := AcceptedWrite(limits, calls[n].op, reply);
    || (calls[n].op.Get? && calls[n].op.key == key && reply.Found? && reply.value.Some?)
    || (write.Some? && write.value.0 == key)
  }

  /** The last call among the first `n` that touched the key; -1 if none did. */
  ghost function LastTouch(limits: Limits, calls: seq<Call>, n: nat, key: Key): int
    requires limits.Valid() && n <= |calls|
  {
    if n == 0 then -1
    else if TouchedAt(limits, calls, n - 1, key) then n - 1
    else LastTouch(limits, calls, n - 1, key)
  }

  ghost function Touches(limits: Limits, calls: seq<Call>, n: nat): Key -> int
    requires limits.Valid() && n <= |calls|
  {
    key => LastTouch(limits, calls, n, key)
  }

  /** No removal is called for, and nothing has expired when a call looks. */
  ghost predicate Undisturbed(limits: Limits, calls: seq<Call>)
    requires limits.Valid()
  {
    forall n :: 0 <= n < |calls| ==>
      var c := After(limits, calls[..n]);
      match calls[n].op
      case Init => true
      case Get(_, now) => RemoveExpired(c.entries, now) == c.entries
      case Set(_, _, _, now) => RemoveExpired(c.entries, now) == c.entries
      case SetIfAbsent(_, _, _, now) => RemoveExpired(c.entries, now) == c.entries
      case _ => false
  }

  /** The entries are the most recently touched keys, as many as fit. */
  ghost predicate MostRecent(entries: Entries, maxEntries: nat, touch: Key -> int) {
    && |entries| <= maxEntries
    && (forall k :: k in entries ==> touch(k) >= 0)
    && (forall j, k :: touch(j) >= 0 && j !in entries && k in entries ==> touch(j) < touch(k))
    && ((exists j :: touch(j) >= 0 && j !in entries) ==> |entries| == maxEntries)
  }

  /** Access sequence numbers follow the order of touches. */
  ghost predicate Ranked(entries: Entries, access: nat, touch: Key -> int) {
    && (forall k :: k in entries ==> entries[k].lastAccess <= access)
    && (forall j, k :: j in entries && k in entries && touch(j) < touch(k) ==>
         entries[j].lastAccess < entries[k].lastAccess)
    && (forall j, k :: j in entries && k in entries && j != k ==> touch(j) != touch(k))
  }

  ghost predicate Touching(before: Key -> int, after: Key -> int, key: Key, n: nat) {
    && (forall k :: before(k) < n)
    && after(key) == n
    && (forall k :: k != key ==> after(k) == before(k))
  }

  lemma TouchEntry(
    entries: Entries, access: nat, maxEntries: nat, before: Key -> int, after: Key -> int, key: Key, n: nat, e: Entry)
    requires MostRecent(entries, maxEntries, before) && Ranked(entries, access, before)
    requires Touching(before, after, key, n) && key in entries && e.lastAccess == access + 1
    ensures MostRecent(entries[key := e], maxEntries, after) && Ranked(entries[key := e], access + 1, after)
  {
    SizeOfUpdate(entries, key, e);
    assert forall j :: j !in entries[key := e] ==> j !in entries && after(j) == before(j);
  }

  /** The victim is the entry touched longest ago. */
  lemma VictimIsOldest(entries: Entries, access: nat, touch: Key -> int, k: Key)
    requires entries != map[] && Ranked(entries, access, touch) && k in entries && k != Least(entries)
    ensures touch(Least(entries)) < touch(k)
  {
    assert Before(entries, Least(entries), k);
  }

  lemma AddEntry(
    entries: Entries, access: nat, maxEntries: nat, before: Key -> int, after: Key -> int, key: Key, n: nat, e: Entry)
    requires maxEntries > 0
    requires MostRecent(entries, maxEntries, before) && Ranked(entries, access, before)
    requires Touching(before, after, key, n) && key !in entries && e.lastAccess == access + 1
    ensures
      var next := MakeRoom(entries, key, maxEntries)[key := e];
      MostRecent(next, maxEntries, after) && Ranked(next, access + 1, after)
  {
    var next := MakeRoom(entries, key, maxEntries)[key := e];
    InsertBound(entries, key, maxEntries, e);
    AddedTouched(entries, maxEntries, before, after, key, n, e);
    forall j, k | after(j) >= 0 && j !in next && k in next ensures after(j) < after(k) {
      LeftOutIsOlder(entries, access, maxEntries, before, after, key, n, e, j, k);
    }
    forall j | after(j) >= 0 && j !in next ensures |entries| == maxEntries {
      LeftOutOfFull(entries, maxEntries, before, after, key, n, e, j);
    }
    AddedRanks(entries, next, access, before, after, key, n, e);
  }

  lemma AddedTouched(
    entries: Entries, maxEntries: nat, before: Key -> int, after: Key -> int, key: Key, n: nat, e: Entry)
    requires MostRecent(entries, maxEntries, before) && Touching(before, after, key, n)
    ensures forall k :: k in MakeRoom(entries, key, maxEntries)[key := e] ==> after(k) >= 0
  {
  }

  lemma LeftOutOfFull(
    entries: Entries, maxEntries: nat, before: Key -> int, after: Key -> int, key: Key, n: nat, e: Entry, j: Key)
    requires MostRecent(entries, maxEntries, before) && Touching(before, after, key, n)
    requires after(j) >= 0 && j !in MakeRoom(entries, key, maxEntries)[key := e]
    ensures |entries| == maxEntries
  {
    if j !in entries {
      assert before(j) >= 0;
    }
  }

  lemma LeftOutIsOlder(
    entries: Entries, access: nat, maxEntries: nat, before: Key -> int, after: Key -> int, key: Key, n: nat, e: Entry,
    j: Key, k: Key)
    requires MostRecent(entries, maxEntries, before) && Ranked(entries, access, before)
    requires Touching(before, after, key, n) && key !in entries
    requires var next := MakeRoom(entries, key, maxEntries)[key := e]; after(j) >= 0 && j !in next && k in next
    ensures after(j) < after(k)
  {
    if k != key && j in entries {
      VictimIsOldest(entries, access, before, k);
    }
  }

  lemma AddedRanks(
    entries: Entries, next: Entries, access: nat, before: Key -> int, after: Key -> int, key: Key, n: nat, e: Entry)
    requires Ranked(entries, access, before) && Touching(before, after, key, n) && e.lastAccess == access + 1
    requires key in next && next[key] == e
    requires forall k :: k in next && k != key ==> k in entries && next[k] == entries[k]
    ensures Ranked(next, access + 1, after)
  {
  }

  lemma {:induction false} TouchIsPast(limits: Limits, calls: seq<Call>, n: nat, key: Key)
    requires limits.Valid() && n <= |calls|
    ensures LastTouch(limits, calls, n, key) < n
  {
    if n > 0 {
      TouchIsPast(limits, calls, n - 1, key);
    }
  }

  lemma TouchesStep(limits: Limits, calls: seq<Call>, n: nat, key: Key)
    requires limits.Valid() && n < |calls| && TouchedAt(limits, calls, n, key)
    ensures Touching(Touches(limits, calls, n), Touches(limits, calls, n + 1), key, n)
  {
    forall k ensures LastTouch(limits, calls, n, k) < n {
      TouchIsPast(limits, calls, n, k);
    }
  }

  lemma NoTouchStep(limits: Limits, calls: seq<Call>, n: nat)
    requires limits.Valid() && n < |calls| && forall k :: !TouchedAt(limits, calls, n, k)
    ensures forall k :: Touches(limits, calls, n + 1)(k) == Touches(limits, calls, n)(k)
  {
  }

  ghost function WithEntry(entries: Entries, maxEntries: nat, key: Key, e: Entry): Entries {
    if key in entries then entries[key := e] else MakeRoom(entries, key, maxEntries)[key := e]
  }

  lemma TouchOne(
    entries: Entries, access: nat, maxEntries: nat, before: Key -> int, after: Key -> int, key: Key, n: nat, e: Entry)
    requires maxEntries > 0
    requires MostRecent(entries, maxEntries, before) && Ranked(entries, access, before)
    requires Touching(before, after, key, n) && e.lastAccess == access + 1
    ensures
      var next := WithEntry(entries, maxEntries, key, e);
      MostRecent(next, maxEntries, after) && Ranked(next, access + 1, after)
  {
    if key in entries {
      TouchEntry(entries, access, maxEntries, before, after, key, n, e);
    } else {
      AddEntry(entries, access, maxEntries, before, after, key, n, e);
    }
  }

  /** What one undisturbed call does, and which key it touches. */
  lemma StepTouches(limits: Limits, calls: seq<Call>, n: nat) returns (key: Option<Key>, e: Entry)
    requires limits.Valid() && n < |calls| && Undisturbed(limits, calls)
    ensures
      var c, d := After(limits, calls[..n]), After(limits, calls[..n + 1]);
      if key.None? then
        d.entries == c.entries && c.access <= d.access && (forall k :: !TouchedAt(limits, calls, n, k))
      else
        && TouchedAt(limits, calls, n, key.value)
        && d.access == NextAccess(c.access) == e.lastAccess
        && d.entries == WithEntry(c.entries, limits.maxEntries, key.value, e)
  {
    assert calls[..n + 1][..n] == calls[..n] && calls[..n + 1][n] == calls[n];
    var c := After(limits, calls[..n]);
    var op := calls[n].op;
    var (d, reply) := Apply(limits, c, op, calls[n].ready);
    key, e := None, Entry([], 0, 0);
    if (reply.Found? && reply.value.Some?) || (op.Set? && reply.Done?) || reply == Inserted(true) {
      key, e := Some(op.key), d.entries[op.key];
    }
  }

  lemma {:induction false} AccessGrows(limits: Limits, calls: seq<Call>, m: nat, n: nat)
    requires limits.Valid() && m <= n <= |calls|
    ensures After(limits, calls[..m]).access <= After(limits, calls[..n]).access
    decreases n
  {
    if m < n {
      AccessGrows(limits, calls, m, n - 1);
      assert calls[..n][..n - 1] == calls[..n - 1];
    }
  }

  lemma {:induction false} RecencyUpTo(limits: Limits, calls: seq<Call>, n: nat)
    requires limits.Valid() && n <= |calls| && Undisturbed(limits, calls)
    requires After(limits, calls).access < U64_MAX
    ensures
      var c := After(limits, calls[..n]);
      && MostRecent(c.entries, limits.maxEntries, Touches(limits, calls, n))
      && Ranked(c.entries, c.access, Touches(limits, calls, n))
    decreases n
  {
    if n > 0 {
      RecencyUpTo(limits, calls, n - 1);
      AccessGrows(limits, calls, n - 1, |calls|);
      assert calls[..|calls|] == calls;
      RecencyStep(limits, calls, n - 1);
    }
  }

  lemma RecencyStep(limits: Limits, calls: seq<Call>, n: nat)
    requires limits.Valid() && n < |calls| && Undisturbed(limits, calls)
    requires After(limits, calls[..n]).access < U64_MAX
    requires
      var c := After(limits, calls[..n]);
      && MostRecent(c.entries, limits.maxEntries, Touches(limits, calls, n))
      && Ranked(c.entries, c.access, Touches(limits, calls, n))
    ensures
      var d := After(limits, calls[..n + 1]);
      && MostRecent(d.entries, limits.maxEntries, Touches(limits, calls, n + 1))
      && Ranked(d.entries, d.access, Touches(limits, calls, n + 1))
  {
    var c, d := After(limits, calls[..n]), After(limits, calls[..n + 1]);
    var before, after := Touches(limits, calls, n), Touches(limits, calls, n + 1);
    var key, e := StepTouches(limits, calls, n);
    if key.None? {
      NoTouchStep(limits, calls, n);
      SameTouches(c.entries, c.access, d.access, limits.maxEntries, before, after);
    } else {
      TouchesStep(limits, calls, n, key.value);
      TouchOne(c.entries, c.access, limits.maxEntries, before, after, key.value, n, e);
    }
  }

  lemma SameTouches(entries: Entries, a: nat, b: nat, maxEntries: nat, before: Key -> int, after: Key -> int)
    requires MostRecent(entries, maxEntries, before) && Ranked(entries, a, before) && a <= b
    requires forall k :: after(k) == before(k)
    ensures MostRecent(entries, maxEntries, after) && Ranked(entries, b, after)
  {
  }

  /** While nothing expires or is removed and the counter has room, the cache
      holds exactly the `maxEntries` most recently touched keys. */
  lemma HoldsMostRecentlyTouched(limits: Limits, calls: seq<Call>)
    requires limits.Valid() && Undisturbed(limits, calls)
    requires After(limits, calls).access < U64_MAX
    ensures MostRecent(After(limits, calls).entries, limits.maxEntries, Touches(limits, calls, |calls|))
  {
    RecencyUpTo(limits, calls, |calls|);
    assert calls[..|calls|] == calls;
  }

  // ------------------------------------------------------------- any history

  /** What any call does to the recency order: it keeps some entries as they
      are, and may stamp one key with the next access number. */
  lemma AnyStepTouches(limits: Limits, calls: seq<Call>, n: nat) returns (key: Option<Key>)
    requires limits.Valid() && n < |calls|
    ensures
      var c, d := After(limits, calls[..n]), After(limits, calls[..n + 1]);
      && c.access <= d.access
      && (forall k :: k in d.entries && key != Some(k) ==> k in c.entries && d.entries[k] == c.entries[k])
      && (if key.None? then forall k :: !TouchedAt(limits, calls, n, k)
          else
            && TouchedAt(limits, calls, n, key.value) && key.value in d.entries
            && d.access == NextAccess(c.access) == d.entries[key.value].lastAccess)
  {
    assert calls[..n + 1][..n] == calls[..n] && calls[..n + 1][n] == calls[n];
    var op := calls[n].op;
    var reply := Apply(limits, After(limits, calls[..n]), op, calls[n].ready).1;
    key := None;
    if (op.Get? && reply.Found? && reply.value.Some?) || (op.Set? && reply.Done?) || reply == Inserted(true) {
      key := Some(op.key);
    }
  }

  lemma FewerRanked(entries: Entries, next: Entries, a: nat, b: nat, before: Key -> int, after: Key -> int)
    requires Ranked(entries, a, before) && a <= b && forall k :: after(k) == before(k)
    requires forall k :: k in next ==> k in entries && next[k] == entries[k]
    ensures Ranked(next, b, after)
  {
  }

  lemma AnyStepRanked(limits: Limits, calls: seq<Call>, n: nat)
    requires limits.Valid() && n < |calls| && After(limits, calls[..n]).access < U64_MAX
    requires var c := After(limits, calls[..n]); Ranked(c.entries, c.access, Touches(limits, calls, n))
    ensures var d := After(limits, calls[..n + 1]); Ranked(d.entries, d.access, Touches(limits, calls, n + 1))
  {
    var c, d := After(limits, calls[..n]), After(limits, calls[..n + 1]);
    var before, after := Touches(limits, calls, n), Touches(limits, calls, n + 1);
    var key := AnyStepTouches(limits, calls, n);
    if key.None? {
      NoTouchStep(limits, calls, n);
      FewerRanked(c.entries, d.entries, c.access, d.access, before, after);
    } else {
      TouchesStep(limits, calls, n, key.value);
      AddedRanks(c.entries, d.entries, c.access, before, after, key.value, n, d.entries[key.value]);
    }
  }

  /** Access numbers follow the order of touches in every history. */
  lemma {:induction false} AlwaysRanked(limits: Limits, calls: seq<Call>, n: nat)
    requires limits.Valid() && n <= |calls| && After(limits, calls).access < U64_MAX
    ensures var c := After(limits, calls[..n]); Ranked(c.entries, c.access, Touches(limits, calls, n))
    decreases n
  {
    if n > 0 {
      AlwaysRanked(limits, calls, n - 1);
      AccessGrows(limits, calls, n - 1, |calls|);
      assert calls[..|calls|] == calls;
      AnyStepRanked(limits, calls, n - 1);
    }
  }

  /** The time at which the operation looks for expired entries. */
  function ClockOf(op: Op): Option<int> {
    match op
    case Get(_, now) => Some(now)
    case Set(_, _, _, now) => Some(now)
    case SetIfAbsent(_, _, _, now) => Some(now)
    case Take(_, now) => Some(now)
    case _ => None
  }

  /** The write is in a full cache, its key is new, and `key` makes room for it. */
  ghost predicate EvictedBy(limits: Limits, c: Cache, op: Op, key: Key) {
    && (op.Set? || op.SetIfAbsent?)
    && var live := RemoveExpired(c.entries, op.now);
       live != map[] && key == Least(live) && key != op.key && op.key !in live && |live| >= limits.maxEntries
  }

  /** An entry that has not expired and is not ended stays as it is, up to its
      access number, unless it is the victim of an eviction. */
  lemma KeptOrEvicted(limits: Limits, c: Cache, op: Op, ready: bool, key: Key)
    requires limits.Valid() && key in c.entries
    requires ClockOf(op).Some? ==> ClockOf(op).value < c.entries[key].expiresAt
    requires !Supersedes(Observed(limits, c, op, Apply(limits, c, op, ready).1), key)
    ensures
      var d := Apply(limits, c, op, ready).0;
      if key in d.entries then d.entries[key].expiresAt == c.entries[key].expiresAt
      else EvictedBy(limits, c, op, key)
  {
    if ready && ValidArguments(limits, op) && (op.Set? || op.SetIfAbsent?) {
      assert key in RemoveExpired(c.entries, op.now);
    }
  }

  /** Keys other than `key`, as many as the cache holds, all touched since `key`
      last was. */
  ghost predicate Outpaced(limits: Limits, calls: seq<Call>, n: nat, key: Key, others: set<Key>)
    requires limits.Valid() && n <= |calls|
  {
    && |others| == limits.maxEntries && key !in others
    && forall k :: k in others ==> LastTouch(limits, calls, n, key) < LastTouch(limits, calls, n, k)
  }

  lemma EvictorIsTouched(limits: Limits, calls: seq<Call>, n: nat, key: Key)
    requires limits.Valid() && n < |calls|
    requires var c := After(limits, calls[..n]); key in c.entries && EvictedBy(limits, c, calls[n].op, key)
    requires key !in After(limits, calls[..n + 1]).entries
    ensures TouchedAt(limits, calls, n, calls[n].op.key)
  {
    assert calls[..n + 1][..n] == calls[..n];
  }

  lemma AllNewerThanVictim(
    live: Entries, access: nat, before: Key -> int, after: Key -> int, newcomer: Key, n: nat) returns (others: set<Key>)
    requires live != map[] && Ranked(live, access, before) && Touching(before, after, newcomer, n) && newcomer !in live
    ensures |others| == |live| && Least(live) !in others
    ensures forall k :: k in others ==> after(Least(live)) < after(k)
  {
    others := (live.Keys - {Least(live)}) + {newcomer};
    forall k | k in others ensures after(Least(live)) < after(k) {
      if k != newcomer {
        VictimIsOldest(live, access, before, k);
      }
    }
  }

  lemma LiveRanked(limits: Limits, calls: seq<Call>, n: nat, now: int)
    requires limits.Valid() && n <= |calls| && After(limits, calls).access < U64_MAX
    ensures
      var c := After(limits, calls[..n]);
      var live := RemoveExpired(c.entries, now);
      Ranked(live, c.access, Touches(limits, calls, n)) && |live| <= limits.maxEntries
  {
    var c := After(limits, calls[..n]);
    var live := RemoveExpired(c.entries, now);
    NeverExceedsBound(limits, calls[..n]);
    SizeOfPart(c.entries, live);
    AlwaysRanked(limits, calls, n);
    var touch := Touches(limits, calls, n);
    FewerRanked(c.entries, live, c.access, c.access, touch, touch);
  }

  lemma EvictedIsOutpaced(limits: Limits, calls: seq<Call>, n: nat, key: Key) returns (others: set<Key>)
    requires limits.Valid() && n < |calls| && After(limits, calls).access < U64_MAX
    requires var c := After(limits, calls[..n]); key in c.entries && EvictedBy(limits, c, calls[n].op, key)
    requires key !in After(limits, calls[..n + 1]).entries
    ensures Outpaced(limits, calls, n + 1, key, others)
  {
    var c, op := After(limits, calls[..n]), calls[n].op;
    LiveRanked(limits, calls, n, op.now);
    EvictorIsTouched(limits, calls, n, key);
    TouchesStep(limits, calls, n, op.key);
    var before, after := Touches(limits, calls, n), Touches(limits, calls, n + 1);
    others := AllNewerThanVictim(RemoveExpired(c.entries, op.now), c.access, before, after, op.key, n);
    forall k | k in others ensures LastTouch(limits, calls, n + 1, key) < LastTouch(limits, calls, n + 1, k) {
      assert after(key) < after(k);
    }
  }

  lemma StaysOutpaced(limits: Limits, calls: seq<Call>, n: nat, key: Key, others: set<Key>)
    requires limits.Valid() && n < |calls| && Outpaced(limits, calls, n, key, others)
    requires !TouchedAt(limits, calls, n, key)
    ensures Outpaced(limits, calls, n + 1, key, others)
  {
    forall k | k in others ensures LastTouch(limits, calls, n + 1, k) >= LastTouch(limits, calls, n, k) {
      TouchIsPast(limits, calls, n, k);
    }
  }

  /** A key without an entry is not touched, and gets none, unless it is written. */
  lemma AbsentStaysAbsent(limits: Limits, calls: seq<Call>, n: nat, key: Key)
    requires limits.Valid() && n < |calls| && key !in After(limits, calls[..n]).entries
    requires !Supersedes(ObservedAt(limits, calls, n), key)
    ensures key !in After(limits, calls[..n + 1]).entries && !TouchedAt(limits, calls, n, key)
  {
    assert calls[..n + 1][..n] == calls[..n];
  }

  /** The key was written by call `w`, not overwritten, taken, deleted or cleared
      since, and has not expired at any time a later call looks. */
  ghost predicate LiveSince(limits: Limits, calls: seq<Call>, w: nat, key: Key, cell: Cell)
    requires limits.Valid()
  {
    && LatestWrite(Observations(limits, calls), w, key, cell)
    && forall n :: w < n < |calls| && ClockOf(calls[n].op).Some? ==> ClockOf(calls[n].op).value < cell.expiresAt
  }

  lemma LiveAt(limits: Limits, calls: seq<Call>, w: nat, n: nat, key: Key, cell: Cell)
    requires limits.Valid() && LiveSince(limits, calls, w, key, cell) && w < n < |calls|
    ensures !Supersedes(ObservedAt(limits, calls, n), key)
    ensures ClockOf(calls[n].op).Some? ==> ClockOf(calls[n].op).value < cell.expiresAt
  {
    assert Observations(limits, calls)[n] == ObservedAt(limits, calls, n);
  }

  lemma WriteIsThere(limits: Limits, calls: seq<Call>, w: nat, key: Key, cell: Cell)
    requires limits.Valid() && w < |calls| && ObservedAt(limits, calls, w) == Wrote(key, cell)
    ensures var d := After(limits, calls[..w + 1]); key in d.entries && d.entries[key].expiresAt == cell.expiresAt
  {
    assert calls[..w + 1][..w] == calls[..w];
  }

  /** The key still has its entry, or is outpaced. */
  ghost predicate Accounted(limits: Limits, calls: seq<Call>, n: nat, key: Key, cell: Cell, others: set<Key>)
    requires limits.Valid() && n <= |calls|
  {
    var c := After(limits, calls[..n]);
    if key in c.entries then c.entries[key].expiresAt == cell.expiresAt else Outpaced(limits, calls, n, key, others)
  }

  lemma StaysAccounted(limits: Limits, calls: seq<Call>, n: nat, key: Key, cell: Cell, others: set<Key>)
    returns (more: set<Key>)
    requires limits.Valid() && After(limits, calls).access < U64_MAX && n < |calls|
    requires Accounted(limits, calls, n, key, cell, others)
    requires !Supersedes(ObservedAt(limits, calls, n), key)
    requires ClockOf(calls[n].op).Some? ==> ClockOf(calls[n].op).value < cell.expiresAt
    ensures Accounted(limits, calls, n + 1, key, cell, more)
  {
    more := others;
    assert calls[..n + 1][..n] == calls[..n];
    var c := After(limits, calls[..n]);
    if key !in c.entries {
      AbsentStaysAbsent(limits, calls, n, key);
      StaysOutpaced(limits, calls, n, key, others);
    } else {
      KeptOrEvicted(limits, c, calls[n].op, calls[n].ready, key);
      if key !in After(limits, calls[..n + 1]).entries {
        more := EvictedIsOutpaced(limits, calls, n, key);
      }
    }
  }

  lemma {:induction false} AlwaysAccounted(limits: Limits, calls: seq<Call>, w: nat, n: nat, key: Key, cell: Cell)
    returns (others: set<Key>)
    requires limits.Valid() && After(limits, calls).access < U64_MAX
    requires LiveSince(limits, calls, w, key, cell) && w < n <= |calls|
    ensures Accounted(limits, calls, n, key, cell, others)
    decreases n
  {
    others := {};
    if n == w + 1 {
      WriteIsThere(limits, calls, w, key, cell);
    } else {
      others := AlwaysAccounted(limits, calls, w, n - 1, key, cell);
      LiveAt(limits, calls, w, n - 1, key, cell);
      others := StaysAccounted(limits, calls, n - 1, key, cell, others);
    }
  }

  /** In any history while the counter has room, a live key is missing only if at
      least `maxEntries` other keys were touched since it last was. */
  lemma MissingWasOutpaced(limits: Limits, calls: seq<Call>, w: nat, key: Key, cell: Cell) returns (others: set<Key>)
    requires limits.Valid() && After(limits, calls).access < U64_MAX
    requires LiveSince(limits, calls, w, key, cell) && key !in After(limits, calls).entries
    ensures Outpaced(limits, calls, |calls|, key, others)
  {
    others := AlwaysAccounted(limits, calls, w, |calls|, key, cell);
    assert calls[..|calls|] == calls;
  }
}
