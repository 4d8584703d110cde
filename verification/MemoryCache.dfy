/** The process-local cache: a bounded map with expiry and least-recently-used
    eviction. */
module MemoryCache {
  import opened ExpiringMap
  import opened Lex
  import opened Options

  datatype CacheError = Unavailable | InvalidValue

  datatype Result<+T> = Ok(value: T) | Err(error: CacheError)

  datatype Entry = Entry(value: Bytes, expiresAt: int, lastAccess: nat)

  datatype Limits = Limits(maxEntries: nat, maxValueBytes: nat, defaultTtl: nat) {
    predicate Valid() {
      && 0 < maxEntries <= MAX_CACHE_ENTRIES
      && 0 < maxValueBytes <= MAX_CACHE_VALUE_BYTES
      && 0 < defaultTtl <= MAX_CACHE_TTL
    }
  }

  const MAX_CACHE_ENTRIES := 1_000_000
  const MAX_CACHE_VALUE_BYTES := 16 * 1024 * 1024
  const MAX_CACHE_TTL := 86_400_000_000_000
  const U64_MAX := 0xFFFF_FFFF_FFFF_FFFF

  type Entries = map<Key, Entry>

  predicate SafeByte(b: Byte) {
    || '0' as int <= b <= '9' as int || 'A' as int <= b <= 'Z' as int || 'a' as int <= b <= 'z' as int
    || b == '.' as int || b == '_' as int || b == '-' as int
  }

  predicate ValidComponent(c: Bytes) {
    0 < |c| <= 256 && forall i :: 0 <= i < |c| ==> SafeByte(c[i])
  }

  predicate ValidKey(k: Key) {
    ValidComponent(k.namespace) && ValidComponent(k.name)
  }

  function EffectiveTtl(requested: nat, maximum: nat): Result<nat> {
    if requested == 0 || maximum == 0 then Err(InvalidValue)
    else Ok(if requested < maximum then requested else maximum)
  }

  // ------------------------------------------------------- eviction order

  predicate KeyLess(a: Key, b: Key) {
    Less(a.namespace, b.namespace) || (a.namespace == b.namespace && Less(a.name, b.name))
  }

  /** Least recently used first, ties by key. */
  predicate Before(entries: Entries, a: Key, b: Key)
    requires a in entries && b in entries
  {
    || entries[a].lastAccess < entries[b].lastAccess
    || (entries[a].lastAccess == entries[b].lastAccess && KeyLess(a, b))
  }

  predicate IsLeast(entries: Entries, k: Key) {
    k in entries && forall other :: other in entries && other != k ==> Before(entries, k, other)
  }

  lemma BeforeTotal(entries: Entries, a: Key, b: Key)
    requires a in entries && b in entries
    ensures a == b || Before(entries, a, b) || Before(entries, b, a)
    ensures !(Before(entries, a, b) && Before(entries, b, a))
  {
    Total(a.namespace, b.namespace);
    Total(a.name, b.name);
    Asymmetric(a.namespace, b.namespace);
    Asymmetric(a.name, b.name);
  }

  lemma BeforeTransitive(entries: Entries, a: Key, b: Key, c: Key)
    requires a in entries && b in entries && c in entries
    requires Before(entries, a, b) && Before(entries, b, c)
    ensures Before(entries, a, c)
  {
    if Less(a.namespace, b.namespace) && Less(b.namespace, c.namespace) {
      Transitive(a.namespace, b.namespace, c.namespace);
    }
    if Less(a.name, b.name) && Less(b.name, c.name) {
      Transitive(a.name, b.name, c.name);
    }
  }

  /** The eviction victim is the unique least entry, found by one scan. */
  method FindLeast(entries: Entries) returns (least: Option<Key>)
    ensures least.None? <==> entries == map[]
    ensures least.Some? ==> IsLeast(entries, least.value)
    ensures forall k :: IsLeast(entries, k) ==> least == Some(k)
  {
    least := None;
    var rest := entries.Keys;
    while rest != {}
      invariant rest <= entries.Keys
      invariant least.None? <==> rest == entries.Keys
      invariant least.Some? ==> least.value in entries && least.value !in rest
      invariant least.Some? ==> forall k :: k in entries.Keys - rest && k != least.value ==>
        Before(entries, least.value, k)
      decreases |rest|
    {
      var k :| k in rest;
      if least.None? {
        least := Some(k);
      } else {
        BeforeTotal(entries, least.value, k);
        if Before(entries, k, least.value) {
          forall other | other in entries.Keys - rest && other != least.value ensures Before(entries, k, other) {
            BeforeTransitive(entries, k, least.value, other);
          }
          least := Some(k);
        }
      }
      rest := rest - {k};
    }
    assert entries == map[] <==> entries.Keys == {};
    forall k | IsLeast(entries, k) ensures least == Some(k) {
      if least.value != k {
        BeforeTotal(entries, least.value, k);
      }
    }
  }

  lemma {:induction false} LeastExists(entries: Entries) returns (k: Key)
    requires entries != map[]
    ensures IsLeast(entries, k)
    decreases |entries.Keys|
  {
    k :| k in entries;
    var rest := entries - {k};
    assert rest.Keys == entries.Keys - {k};
    assert forall other :: other in entries && other != k ==> other in rest;
    if rest != map[] {
      var least := LeastExists(rest);
      BeforeTotal(entries, k, least);
      forall other | other in entries && other != k && other != least ensures Before(entries, least, other) {
        assert Before(rest, least, other);
      }
      if Before(entries, least, k) {
        assert IsLeast(entries, least);
        k := least;
      } else {
        forall other | other in entries && other != k ensures Before(entries, k, other) {
          if other != least {
            BeforeTransitive(entries, k, least, other);
          }
        }
      }
    }
  }

  ghost function Least(entries: Entries): (k: Key)
    requires entries != map[]
    ensures IsLeast(entries, k)
  {
    assert exists k :: IsLeast(entries, k) by { var k := LeastExists(entries); }
    var k :| IsLeast(entries, k);
    k
  }

  // --------------------------------------------------------- specification

  datatype Cache = Cache(entries: Entries, access: nat, initialized: bool, closed: bool)

  const Created := Cache(map[], 0, false, false)

  function NextAccess(access: nat): nat {
    if access < U64_MAX then access + 1 else access
  }

  function RemoveExpired(entries: Entries, now: int): Entries {
    map k | k in entries && entries[k].expiresAt > now :: entries[k]
  }

  ghost function MakeRoom(entries: Entries, key: Key, maxEntries: nat): Entries {
    if |entries| < maxEntries || key in entries || entries == map[] then entries else entries - {Least(entries)}
  }

  ghost function Insert(c: Cache, limits: Limits, key: Key, value: Bytes, expiresAt: int): Cache {
    var access := NextAccess(c.access);
    c.(entries := MakeRoom(c.entries, key, limits.maxEntries)[key := Entry(value, expiresAt, access)], access := access)
  }

  datatype Op =
    | Init
    | Get(key: Key, now: int)
    | Set(key: Key, value: Bytes, ttl: nat, now: int)
    | SetIfAbsent(key: Key, value: Bytes, ttl: nat, now: int)
    | Take(key: Key, now: int)
    | Delete(key: Key)
    | Clear(namespace: Bytes)
    | Close

  datatype Reply = Done | Found(value: Option<Bytes>) | Inserted(accepted: bool) | Failed(error: CacheError)

  predicate ValidArguments(limits: Limits, op: Op) {
    match op
    case Get(key, _) => ValidKey(key)
    case Set(key, value, ttl, _) => ValidKey(key) && |value| <= limits.maxValueBytes && ttl > 0
    case SetIfAbsent(key, value, ttl, _) => ValidKey(key) && |value| <= limits.maxValueBytes && ttl > 0
    case Take(key, _) => ValidKey(key)
    case Delete(key) => ValidKey(key)
    case Clear(namespace) => ValidComponent(namespace)
    case _ => true
  }

  /** One operation. Readiness is checked before the lock is taken, so its
      answer `ready` may be older than the state it then works on. */
  ghost function Apply(limits: Limits, c: Cache, op: Op, ready: bool): (Cache, Reply)
    requires limits.Valid()
  {
    if op.Init? then
      if c.closed then (c, Failed(Unavailable)) else (c.(initialized := true), Done)
    else if op.Close? then
      if c.closed then (c, Done) else (Cache(map[], c.access, false, true), Done)
    else if !ready then (c, Failed(Unavailable))
    else if !ValidArguments(limits, op) then (c, Failed(InvalidValue))
    else match op
      case Get(key, now) =>
        var live := RemoveExpired(c.entries, now);
        var access := NextAccess(c.access);
        if key in live then
          (c.(entries := live[key := live[key].(lastAccess := access)], access := access), Found(Some(live[key].value)))
        else (c.(entries := live, access := access), Found(None))
      case Set(key, value, ttl, now) =>
        var live := c.(entries := RemoveExpired(c.entries, now));
        (Insert(live, limits, key, value, now + EffectiveTtl(ttl, limits.defaultTtl).value), Done)
      case SetIfAbsent(key, value, ttl, now) =>
        var live := c.(entries := RemoveExpired(c.entries, now));
        if key in live.entries then (live, Inserted(false))
        else (Insert(live, limits, key, value, now + EffectiveTtl(ttl, limits.defaultTtl).value), Inserted(true))
      case Take(key, now) =>
        var live := RemoveExpired(c.entries, now);
        (c.(entries := live - {key}), Found(if key in live then Some(live[key].value) else None))
      case Delete(key) => (c.(entries := c.entries - {key}), Done)
      case Clear(namespace) => (c.(entries := map k | k in c.entries && k.namespace != namespace :: c.entries[k]), Done)
      case _ => (c, Done)
  }

  // -------------------------------------------------------- implementation

  class Memory {
    var entries: Entries
    var nextAccess: nat
    var initialized: bool
    var closed: bool
    const limits: Limits

    ghost predicate Valid()
      reads this
    {
      limits.Valid() && |entries| <= limits.maxEntries && nextAccess <= U64_MAX
    }

    ghost function Contents(): Cache
      reads this
    {
      Cache(entries, nextAccess, initialized, closed)
    }

    predicate Ready()
      reads this
    {
      initialized && !closed
    }

    constructor (limits: Limits)
      requires limits.Valid()
      ensures Valid() && Contents() == Created && this.limits == limits
    {
      this.limits := limits;
      entries, nextAccess, initialized, closed := map[], 0, false, false;
    }

    method Initialize() returns (r: Reply)
      requires Valid()
      modifies this
      ensures Valid() && (Contents(), r) == Apply(limits, old(Contents()), Init, old(Ready()))
    {
      if closed {
        return Failed(Unavailable);
      }
      initialized := true;
      r := Done;
    }

    method DropExpired(now: int)
      requires Valid()
      modifies this`entries
      ensures Valid() && entries == RemoveExpired(old(entries), now)
    {
      ghost var was := entries;
      var live: Entries := map[];
      var rest := entries.Keys;
      while rest != {}
        invariant rest <= was.Keys && entries == was
        invariant live == map k | k in was && k !in rest && was[k].expiresAt > now :: was[k]
        decreases |rest|
      {
        var k :| k in rest;
        if entries[k].expiresAt > now {
          live := live[k := entries[k]];
        }
        rest := rest - {k};
      }
      SizeOfPart(was, live);
      entries := live;
    }

    method EvictFor(key: Key)
      requires Valid()
      modifies this`entries
      ensures Valid() && entries == MakeRoom(old(entries), key, limits.maxEntries)
      ensures key in entries || |entries| < limits.maxEntries
    {
      if |entries| < limits.maxEntries || key in entries {
        return;
      }
      var least := FindLeast(entries);
      if least.Some? {
        SizeOfRemoval(entries, least.value);
        entries := entries - {least.value};
      }
    }

    method Store(key: Key, value: Bytes, expiresAt: int)
      requires Valid()
      modifies this
      ensures Valid() && Contents() == Insert(old(Contents()), limits, key, value, expiresAt)
    {
      EvictFor(key);
      nextAccess := NextAccess(nextAccess);
      SizeOfUpdate(entries, key, Entry(value, expiresAt, nextAccess));
      entries := entries[key := Entry(value, expiresAt, nextAccess)];
    }

    method Read(key: Key, now: int) returns (r: Reply)
      requires Valid()
      modifies this
      ensures Valid() && (Contents(), r) == Apply(limits, old(Contents()), Get(key, now), old(Ready()))
    {
      if !Ready() {
        return Failed(Unavailable);
      }
      if !ValidKey(key) {
        return Failed(InvalidValue);
      }
      DropExpired(now);
      nextAccess := NextAccess(nextAccess);
      if key !in entries {
        return Found(None);
      }
      r := Found(Some(entries[key].value));
      SizeOfUpdate(entries, key, entries[key].(lastAccess := nextAccess));
      entries := entries[key := entries[key].(lastAccess := nextAccess)];
    }

    method Write(key: Key, value: Bytes, ttl: nat, now: int) returns (r: Reply)
      requires Valid()
      modifies this
      ensures Valid() && (Contents(), r) == Apply(limits, old(Contents()), Set(key, value, ttl, now), old(Ready()))
    {
      if !Ready() {
        return Failed(Unavailable);
      }
      if !ValidKey(key) || |value| > limits.maxValueBytes {
        return Failed(InvalidValue);
      }
      var effective := EffectiveTtl(ttl, limits.defaultTtl);
      if effective.Err? {
        return Failed(effective.error);
      }
      DropExpired(now);
      Store(key, value, now + effective.value);
      r := Done;
    }

    method WriteIfAbsent(key: Key, value: Bytes, ttl: nat, now: int) returns (r: Reply)
      requires Valid()
      modifies this
      ensures Valid()
      ensures (Contents(), r) == Apply(limits, old(Contents()), SetIfAbsent(key, value, ttl, now), old(Ready()))
    {
      if !Ready() {
        return Failed(Unavailable);
      }
      if !ValidKey(key) || |value| > limits.maxValueBytes {
        return Failed(InvalidValue);
      }
      var effective := EffectiveTtl(ttl, limits.defaultTtl);
      if effective.Err? {
        return Failed(effective.error);
      }
      DropExpired(now);
      if key in entries {
        return Inserted(false);
      }
      Store(key, value, now + effective.value);
      r := Inserted(true);
    }

    method TakeOnce(key: Key, now: int) returns (r: Reply)
      requires Valid()
      modifies this
      ensures Valid() && (Contents(), r) == Apply(limits, old(Contents()), Take(key, now), old(Ready()))
    {
      if !Ready() {
        return Failed(Unavailable);
      }
      if !ValidKey(key) {
        return Failed(InvalidValue);
      }
      DropExpired(now);
      r := Found(if key in entries then Some(entries[key].value) else None);
      SizeOfPart(entries, entries - {key});
      entries := entries - {key};
    }

    method Remove(key: Key) returns (r: Reply)
      requires Valid()
      modifies this
      ensures Valid() && (Contents(), r) == Apply(limits, old(Contents()), Delete(key), old(Ready()))
    {
      if !Ready() {
        return Failed(Unavailable);
      }
      if !ValidKey(key) {
        return Failed(InvalidValue);
      }
      SizeOfPart(entries, entries - {key});
      entries := entries - {key};
      r := Done;
    }

    method ClearNamespace(namespace: Bytes) returns (r: Reply)
      requires Valid()
      modifies this
      ensures Valid() && (Contents(), r) == Apply(limits, old(Contents()), Clear(namespace), old(Ready()))
    {
      if !Ready() {
        return Failed(Unavailable);
      }
      if !ValidComponent(namespace) {
        return Failed(InvalidValue);
      }
      var kept := map k | k in entries && k.namespace != namespace :: entries[k];
      SizeOfPart(entries, kept);
      entries := kept;
      r := Done;
    }

    method Shutdown() returns (r: Reply)
      requires Valid()
      modifies this
      ensures Valid() && (Contents(), r) == Apply(limits, old(Contents()), Close, old(Ready()))
    {
      if !closed {
        closed, initialized := true, false;
        entries := map[];
      }
      r := Done;
    }
  }

  // ------------------------------------------------------------------ sizes

  lemma SizeOfPart(whole: Entries, part: Entries)
    requires part.Keys <= whole.Keys
    ensures |part| <= |whole|
  {
    assert whole.Keys == part.Keys + (whole.Keys - part.Keys);
  }

  lemma SizeOfRemoval(entries: Entries, k: Key)
    requires k in entries
    ensures |entries - {k}| == |entries| - 1
  {
    assert (entries - {k}).Keys == entries.Keys - {k};
  }

  lemma SizeOfUpdate(entries: Entries, k: Key, e: Entry)
    ensures |entries[k := e]| == if k in entries then |entries| else |entries| + 1
  {
    assert entries[k := e].Keys == entries.Keys + {k};
  }
}
