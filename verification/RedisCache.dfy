/** The shared cache: one hash per namespace, changed only by four scripts that
    the server runs atomically. Each field stores its own expiry in front of the
    value, separated by a colon. */
module RedisCache {
  import opened Decimal
  import opened ExpiringMap
  import opened Lex
  import opened Options

  const COLON: int := 58

  /** One namespace. The server may drop the whole hash from `expiresAt` on. */
  datatype Hash = Hash(fields: map<Bytes, Bytes>, expiresAt: int)

  type Server = map<Bytes, Hash>

  datatype Limits = Limits(maxValueBytes: nat, defaultTtl: nat)

  const NANOS_PER_MILLI := 1_000_000

  function Millis(nanos: nat): nat { nanos / NANOS_PER_MILLI }

  function FieldTtl(limits: Limits, ttl: nat): nat {
    var millis := Millis(if ttl < limits.defaultTtl then ttl else limits.defaultTtl);
    if millis < 1 then 1 else millis
  }

  function NamespaceTtl(limits: Limits): nat { Millis(limits.defaultTtl) }

  lemma FieldTtlFits(limits: Limits, ttl: nat)
    requires NamespaceTtl(limits) >= 1
    ensures 1 <= FieldTtl(limits, ttl) <= NamespaceTtl(limits)
  {
    if ttl < limits.defaultTtl {
      assert ttl / NANOS_PER_MILLI <= limits.defaultTtl / NANOS_PER_MILLI;
    }
  }

  // ------------------------------------------------- numbers as script text

  const EXACT_BELOW: nat := 100_000_000_000_000

  /** The weight of the last digit that fourteen significant digits keep. */
  function Unit(n: nat): (u: nat)
    ensures u > 0
    decreases n
  {
    if n < EXACT_BELOW then 1 else 10 * Unit(n / 10)
  }

  lemma ProductNonNegative(a: nat, b: nat)
    ensures 0 <= a * b
  {
  }

  lemma RemainderFits(n: nat, u: nat)
    requires u > 0
    ensures 0 <= n % u <= n && n % u < u
  {
    var q := n / u;
    assert q >= 0;
    ProductNonNegative(u, q);
    assert n == u * q + n % u;
  }

  /** The number that survives the script's conversion to text and back: fourteen
      significant digits, halves to even. */
  function Rounded(n: nat): nat {
    var u := Unit(n);
    var rest := n % u;
    RemainderFits(n, u);
    if 2 * rest < u || (2 * rest == u && n / u % 2 == 0) then n - rest else n - rest + u
  }

  function Encode(expiresAt: nat, value: Bytes): Bytes {
    Digits(Rounded(expiresAt)) + [COLON] + value
  }

  /** Position of the first colon. */
  function FindColon(raw: Bytes): (r: Option<nat>)
    ensures r.Some? ==> r.value < |raw| && raw[r.value] == COLON && forall i :: 0 <= i < r.value ==> raw[i] != COLON
    ensures r.None? ==> forall i :: 0 <= i < |raw| ==> raw[i] != COLON
  {
    if raw == [] then None
    else if raw[0] == COLON then Some(0)
    else
      var rest := FindColon(raw[1..]);
      if rest.Some? then Some(rest.value + 1) else None
  }

  function Decode(raw: Bytes): Option<Cell> {
    var separator := FindColon(raw);
    if separator.None? then None
    else
      var expiresAt := Parse(raw[..separator.value]);
      if expiresAt.None? then None else Some(Cell(raw[separator.value + 1..], expiresAt.value))
  }

  /** Splitting at the first colon recovers every value, colons included. */
  lemma DecodeEncode(expiresAt: nat, value: Bytes)
    ensures Decode(Encode(expiresAt, value)) == Some(Cell(value, Rounded(expiresAt)))
  {
    var raw := Encode(expiresAt, value);
    var digits := Digits(Rounded(expiresAt));
    assert raw[|digits|] == COLON;
    var separator := FindColon(raw).value;
    assert forall i :: 0 <= i < |digits| ==> raw[i] == digits[i];
    assert separator == |digits|;
    assert raw[..separator] == digits && raw[separator + 1..] == value;
    ParseDigits(Rounded(expiresAt));
  }

  /** An expiry is stored exactly when fourteen significant digits hold it. */
  lemma RoundedExactly(n: nat)
    ensures Rounded(n) == n <==> n % Unit(n) == 0
    ensures n < EXACT_BELOW ==> Rounded(n) == n
  {
    var u := Unit(n);
    RemainderFits(n, u);
    if n < EXACT_BELOW {
      assert n % 1 == 0;
    }
  }

  /** Above that, a field can outlive the expiry it was given. */
  lemma RoundedCanExtend()
    ensures Rounded(100_000_000_000_006) == 100_000_000_000_010
  {
    assert Unit(10_000_000_000_000) == 1;
    assert Unit(100_000_000_000_006) == 10;
  }

  // ------------------------------------------------------------ the scripts

  /** Fields the server still has at `now`. */
  function FieldsAt(server: Server, namespace: Bytes, now: int): map<Bytes, Bytes> {
    if namespace in server && now < server[namespace].expiresAt then server[namespace].fields else map[]
  }

  function LiveCell(fields: map<Bytes, Bytes>, name: Bytes, now: int): Option<Cell> {
    if name !in fields then None
    else
      var cell := Decode(fields[name]);
      if cell.Some? && now < cell.value.expiresAt then cell else None
  }

  function WithFields(server: Server, namespace: Bytes, fields: map<Bytes, Bytes>): Server {
    if namespace in server then server[namespace := server[namespace].(fields := fields)] else server
  }

  /** Setting a field renews the expiry of the whole hash; a time-to-live of
      zero drops it at once. */
  function Stored(server: Server, limits: Limits, key: Key, value: Bytes, ttl: nat, now: nat): Server {
    var fields := FieldsAt(server, key.namespace, now)[key.name := Encode(now + FieldTtl(limits, ttl), value)];
    if NamespaceTtl(limits) == 0 then server - {key.namespace}
    else server[key.namespace := Hash(fields, now + NamespaceTtl(limits))]
  }

  datatype Op =
    | Get(key: Key)
    | Set(key: Key, value: Bytes, ttl: nat)
    | SetIfAbsent(key: Key, value: Bytes, ttl: nat)
    | Take(key: Key)
    | Delete(key: Key)
    | Clear(namespace: Bytes)

  datatype Reply = Done | Found(value: Option<Bytes>) | Inserted(accepted: bool) | Rejected

  predicate Accepts(limits: Limits, op: Op) {
    (op.Set? || op.SetIfAbsent?) ==> |op.value| <= limits.maxValueBytes && op.ttl > 0 && limits.defaultTtl > 0
  }

  function Apply(limits: Limits, server: Server, op: Op, now: nat): (Server, Reply) {
    if !Accepts(limits, op) then (server, Rejected)
    else match op
      case Get(key) =>
        var fields := FieldsAt(server, key.namespace, now);
        var cell := LiveCell(fields, key.name, now);
        if cell.Some? then (server, Found(Some(cell.value.value)))
        else (WithFields(server, key.namespace, fields - {key.name}), Found(None))
      case Set(key, value, ttl) => (Stored(server, limits, key, value, ttl, now), Done)
      case SetIfAbsent(key, value, ttl) =>
        if LiveCell(FieldsAt(server, key.namespace, now), key.name, now).Some? then (server, Inserted(false))
        else (Stored(server, limits, key, value, ttl, now), Inserted(true))
      case Take(key) =>
        var fields := FieldsAt(server, key.namespace, now);
        var cell := LiveCell(fields, key.name, now);
        (WithFields(server, key.namespace, fields - {key.name}),
         Found(if cell.Some? then Some(cell.value.value) else None))
      case Delete(key) =>
        (WithFields(server, key.namespace, FieldsAt(server, key.namespace, now) - {key.name}), Done)
      case Clear(namespace) => (server - {namespace}, Done)
  }

  function Observed(limits: Limits, op: Op, reply: Reply, now: nat): Observation {
    match op
    case Set(key, value, ttl) => if reply.Done? then Wrote(key, Cell(value, now + FieldTtl(limits, ttl))) else NoChange
    case SetIfAbsent(key, value, ttl) =>
      if reply == Inserted(true) then Wrote(key, Cell(value, now + FieldTtl(limits, ttl))) else NoChange
    case Take(key) => Removed(key)
    case Delete(key) => Removed(key)
    case Clear(namespace) => ClearedNamespace(namespace)
    case Get(_) => NoChange
  }

  // ------------------------------------------------------- scripts in place

  /** The server side of one connection: scripts change hashes in place. */
  class Redis {
    var hashes: Server
    const limits: Limits

    constructor (limits: Limits)
      ensures hashes == map[] && this.limits == limits
    {
      this.limits := limits;
      hashes := map[];
    }

    method DropField(key: Key, now: nat)
      modifies this
      ensures hashes == WithFields(old(hashes), key.namespace, FieldsAt(old(hashes), key.namespace, now) - {key.name})
    {
      if key.namespace in hashes {
        var hash := hashes[key.namespace];
        var fields := if now < hash.expiresAt then hash.fields - {key.name} else map[];
        hashes := hashes[key.namespace := hash.(fields := fields)];
      }
    }

    method PutField(key: Key, value: Bytes, ttl: nat, now: nat)
      modifies this
      ensures hashes == Stored(old(hashes), limits, key, value, ttl, now)
    {
      var fields := FieldsAt(hashes, key.namespace, now);
      fields := fields[key.name := Digits(Rounded(now + FieldTtl(limits, ttl))) + [COLON] + value];
      if NamespaceTtl(limits) == 0 {
        hashes := hashes - {key.namespace};
      } else {
        hashes := hashes[key.namespace := Hash(fields, now + NamespaceTtl(limits))];
      }
    }

    method ReadScript(key: Key, now: nat) returns (r: Reply)
      modifies this
      ensures (hashes, r) == Apply(limits, old(hashes), Get(key), now)
    {
      var fields := FieldsAt(hashes, key.namespace, now);
      if key.name in fields {
        var raw := fields[key.name];
        var separator := FindColon(raw);
        if separator.Some? {
          var expiresAt := Parse(raw[..separator.value]);
          if expiresAt.Some? && expiresAt.value > now {
            return Found(Some(raw[separator.value + 1..]));
          }
        }
      }
      DropField(key, now);
      r := Found(None);
    }

    method SetScript(key: Key, value: Bytes, ttl: nat, now: nat) returns (r: Reply)
      modifies this
      ensures (hashes, r) == Apply(limits, old(hashes), Set(key, value, ttl), now)
    {
      if |value| > limits.maxValueBytes || ttl == 0 || limits.defaultTtl == 0 {
        return Rejected;
      }
      PutField(key, value, ttl, now);
      r := Done;
    }

    method SetIfAbsentScript(key: Key, value: Bytes, ttl: nat, now: nat) returns (r: Reply)
      modifies this
      ensures (hashes, r) == Apply(limits, old(hashes), SetIfAbsent(key, value, ttl), now)
    {
      if |value| > limits.maxValueBytes || ttl == 0 || limits.defaultTtl == 0 {
        return Rejected;
      }
      var fields := FieldsAt(hashes, key.namespace, now);
      if key.name in fields {
        var raw := fields[key.name];
        var separator := FindColon(raw);
        var expiresAt := if separator.Some? then Parse(raw[..separator.value]) else None;
        if expiresAt.Some? && expiresAt.value > now {
          return Inserted(false);
        }
      }
      PutField(key, value, ttl, now);
      r := Inserted(true);
    }

    method TakeScript(key: Key, now: nat) returns (r: Reply)
      modifies this
      ensures (hashes, r) == Apply(limits, old(hashes), Take(key), now)
    {
      var fields := FieldsAt(hashes, key.namespace, now);
      DropField(key, now);
      if key.name !in fields {
        return Found(None);
      }
      var raw := fields[key.name];
      var separator := FindColon(raw);
      if separator.None? {
        return Found(None);
      }
      var expiresAt := Parse(raw[..separator.value]);
      if expiresAt.None? || expiresAt.value <= now {
        return Found(None);
      }
      r := Found(Some(raw[separator.value + 1..]));
    }
  }
}
