/** JSON trees and their canonical form: object members sorted by name at every
    depth, arrays left in order (values as in section 3 of RFC 8259). */
module Json {
  import opened Lex
  import opened Options

  datatype Member = Member(name: Bytes, value: Json)

  datatype Json =
    | Null
    | Bool(truth: bool)
    | Number(digits: Bytes)
    | Text(text: Bytes)
    | Array(items: seq<Json>)
    | Object(members: seq<Member>)

  predicate DistinctNames(ms: seq<Member>) {
    forall i, j :: 0 <= i < j < |ms| ==> ms[i].name != ms[j].name
  }

  /** Every object has distinct member names. */
  predicate WellFormed(v: Json) {
    match v
    case Array(items) => forall i :: 0 <= i < |items| ==> WellFormed(items[i])
    case Object(ms) => DistinctNames(ms) && forall i :: 0 <= i < |ms| ==> WellFormed(ms[i].value)
    case _ => true
  }

  // ---------------------------------------------------------------- sorting

  function InsertMember(m: Member, ms: seq<Member>): seq<Member> {
    if ms == [] || Less(m.name, ms[0].name) then [m] + ms else [ms[0]] + InsertMember(m, ms[1..])
  }

  function SortMembers(ms: seq<Member>): seq<Member> {
    if ms == [] then [] else InsertMember(ms[0], SortMembers(ms[1..]))
  }

  predicate Sorted(ms: seq<Member>) {
    forall i, j :: 0 <= i < j < |ms| ==> Less(ms[i].name, ms[j].name)
  }

  lemma {:induction false} InsertMembers(m: Member, ms: seq<Member>)
    ensures |InsertMember(m, ms)| == |ms| + 1
    ensures forall x :: x in InsertMember(m, ms) <==> x == m || x in ms
  {
    if ms != [] && !Less(m.name, ms[0].name) {
      InsertMembers(m, ms[1..]);
      assert ms == [ms[0]] + ms[1..];
    }
  }

  lemma {:induction false} InsertSorted(m: Member, ms: seq<Member>)
    requires Sorted(ms) && forall x :: x in ms ==> x.name != m.name
    ensures Sorted(InsertMember(m, ms))
  {
    if ms != [] {
      Total(m.name, ms[0].name);
      if Less(m.name, ms[0].name) {
        forall x | x in ms ensures Less(m.name, x.name) {
          if x != ms[0] {
            Transitive(m.name, ms[0].name, x.name);
          }
        }
      } else {
        InsertSorted(m, ms[1..]);
        InsertMembers(m, ms[1..]);
        var rest := InsertMember(m, ms[1..]);
        assert forall x :: x in rest ==> Less(ms[0].name, x.name);
      }
    }
  }

  lemma {:induction false} SortedMembers(ms: seq<Member>)
    ensures |SortMembers(ms)| == |ms|
    ensures forall x :: x in SortMembers(ms) <==> x in ms
    ensures DistinctNames(ms) ==> Sorted(SortMembers(ms))
  {
    if ms != [] {
      SortedMembers(ms[1..]);
      InsertMembers(ms[0], SortMembers(ms[1..]));
      assert ms == [ms[0]] + ms[1..];
      if DistinctNames(ms) {
        InsertSorted(ms[0], SortMembers(ms[1..]));
      }
    }
  }

  /** A sorted list is determined by its members. */
  lemma {:induction false} SortedUnique(a: seq<Member>, b: seq<Member>)
    requires Sorted(a) && Sorted(b) && forall x :: x in a <==> x in b
    ensures a == b
  {
    assert a != [] ==> a[0] in b;
    assert b != [] ==> b[0] in a;
    if a != [] && b != [] {
      HeadsAgree(a, b);
      forall x ensures x in a[1..] <==> x in b[1..] {
        TailMembers(a, x);
        TailMembers(b, x);
      }
      SortedUnique(a[1..], b[1..]);
      assert a == [a[0]] + a[1..] && b == [b[0]] + b[1..];
    }
  }

  lemma HeadsAgree(a: seq<Member>, b: seq<Member>)
    requires Sorted(a) && Sorted(b) && a != [] && b != [] && forall x :: x in a <==> x in b
    ensures a[0] == b[0]
  {
    assert a[0] in b && b[0] in a;
    Asymmetric(a[0].name, b[0].name);
  }

  lemma TailMembers(a: seq<Member>, x: Member)
    requires Sorted(a) && a != []
    ensures x in a[1..] <==> x in a && x != a[0]
  {
    assert a == [a[0]] + a[1..];
    Asymmetric(a[0].name, a[0].name);
  }

  // -------------------------------------------------------------- canonical

  function Canonical(v: Json): Json {
    match v
    case Array(items) => Array(seq(|items|, i requires 0 <= i < |items| => Canonical(items[i])))
    case Object(ms) =>
      Object(SortMembers(seq(|ms|, i requires 0 <= i < |ms| => Member(ms[i].name, Canonical(ms[i].value)))))
    case _ => v
  }

  function CanonicalMembers(ms: seq<Member>): seq<Member> {
    seq(|ms|, i requires 0 <= i < |ms| => Member(ms[i].name, Canonical(ms[i].value)))
  }

  /** The value of the first member with the name. */
  function Find(ms: seq<Member>, name: Bytes): Option<Json> {
    if ms == [] then None
    else if ms[0].name == name then Some(ms[0].value)
    else Find(ms[1..], name)
  }

  lemma {:induction false} FindMember(ms: seq<Member>, m: Member)
    requires DistinctNames(ms)
    ensures m in ms <==> Find(ms, m.name) == Some(m.value)
  {
    if ms != [] {
      FindMember(ms[1..], m);
      assert ms == [ms[0]] + ms[1..];
    }
  }

  /** The trees differ only in the order of object members, at any depth. */
  predicate Equivalent(a: Json, b: Json) {
    match (a, b)
    case (Array(xs), Array(ys)) => |xs| == |ys| && forall i :: 0 <= i < |xs| ==> Equivalent(xs[i], ys[i])
    case (Object(ms), Object(ns)) =>
      && (forall i :: 0 <= i < |ms| ==>
            Find(ns, ms[i].name).Some? && Equivalent(ms[i].value, Find(ns, ms[i].name).value))
      && (forall j :: 0 <= j < |ns| ==> Find(ms, ns[j].name).Some?)
    case _ => a == b
  }

  lemma CanonicalObject(ms: seq<Member>)
    requires DistinctNames(ms)
    ensures
      var c := Canonical(Object(ms));
      c.Object? && Sorted(c.members) && |c.members| == |ms| && forall x :: x in c.members <==> x in CanonicalMembers(ms)
  {
    SortedMembers(CanonicalMembers(ms));
    assert Canonical(Object(ms)) == Object(SortMembers(CanonicalMembers(ms)));
  }

  /** Each member has a counterpart with the same name and canonical value. */
  predicate Covers(ms: seq<Member>, ns: seq<Member>) {
    forall i :: 0 <= i < |ms| ==>
      Find(ns, ms[i].name).Some? && Canonical(ms[i].value) == Canonical(Find(ns, ms[i].name).value)
  }

  lemma FindIndex(ms: seq<Member>, name: Bytes) returns (i: nat)
    requires Find(ms, name).Some?
    ensures i < |ms| && ms[i] == Member(name, Find(ms, name).value)
    decreases |ms|
  {
    if ms[0].name == name {
      i := 0;
    } else {
      var j := FindIndex(ms[1..], name);
      i := j + 1;
    }
  }

  lemma CoversIsInclusion(ms: seq<Member>, ns: seq<Member>)
    requires DistinctNames(ns)
    ensures Covers(ms, ns) <==> forall x :: x in CanonicalMembers(ms) ==> x in CanonicalMembers(ns)
  {
    var cs, ds := CanonicalMembers(ms), CanonicalMembers(ns);
    if Covers(ms, ns) {
      forall x | x in cs ensures x in ds {
        var i :| 0 <= i < |cs| && cs[i] == x;
        var j := FindIndex(ns, ms[i].name);
        assert ds[j] == x;
      }
    }
    if forall x :: x in cs ==> x in ds {
      forall i | 0 <= i < |ms|
        ensures Find(ns, ms[i].name).Some? && Canonical(ms[i].value) == Canonical(Find(ns, ms[i].name).value)
      {
        assert cs[i] in ds;
        var j :| 0 <= j < |ds| && ds[j] == cs[i];
        FindMember(ns, ns[j]);
      }
    }
  }

  lemma ObjectsEqual(ms: seq<Member>, ns: seq<Member>)
    requires DistinctNames(ms) && DistinctNames(ns)
    ensures Canonical(Object(ms)) == Canonical(Object(ns)) <==> Covers(ms, ns) && Covers(ns, ms)
  {
    CanonicalObject(ms);
    CanonicalObject(ns);
    CoversIsInclusion(ms, ns);
    CoversIsInclusion(ns, ms);
    if Covers(ms, ns) && Covers(ns, ms) {
      SortedUnique(Canonical(Object(ms)).members, Canonical(Object(ns)).members);
    }
  }

  /** Coverage one way and the same names the other way is coverage both ways. */
  lemma CoversBack(ms: seq<Member>, ns: seq<Member>)
    requires DistinctNames(ms) && DistinctNames(ns) && Covers(ms, ns)
    requires forall j :: 0 <= j < |ns| ==> Find(ms, ns[j].name).Some?
    ensures Covers(ns, ms)
  {
    forall j | 0 <= j < |ns| ensures Canonical(ns[j].value) == Canonical(Find(ms, ns[j].name).value) {
      var i := FindIndex(ms, ns[j].name);
      FindMember(ns, ns[j]);
    }
  }

  lemma {:induction false} EquivalentIsCanonicallyEqual(a: Json, b: Json)
    requires WellFormed(a) && WellFormed(b) && Equivalent(a, b)
    ensures Canonical(a) == Canonical(b)
    decreases a
  {
    match (a, b)
    case (Array(xs), Array(ys)) =>
      forall i | 0 <= i < |xs| ensures Canonical(xs[i]) == Canonical(ys[i]) {
        EquivalentIsCanonicallyEqual(xs[i], ys[i]);
      }
    case (Object(ms), Object(ns)) =>
      forall i | 0 <= i < |ms| ensures Canonical(ms[i].value) == Canonical(Find(ns, ms[i].name).value) {
        var j := FindIndex(ns, ms[i].name);
        EquivalentIsCanonicallyEqual(ms[i].value, Find(ns, ms[i].name).value);
      }
      CoversBack(ms, ns);
      ObjectsEqual(ms, ns);
    case _ =>
  }

  lemma {:induction false} CanonicallyEqualIsEquivalent(a: Json, b: Json)
    requires WellFormed(a) && WellFormed(b) && Canonical(a) == Canonical(b)
    ensures Equivalent(a, b)
    decreases a
  {
    match (a, b)
    case (Array(xs), Array(ys)) =>
      forall i | 0 <= i < |xs| ensures Equivalent(xs[i], ys[i]) {
        assert Canonical(a).items[i] == Canonical(b).items[i];
        CanonicallyEqualIsEquivalent(xs[i], ys[i]);
      }
    case (Object(ms), Object(ns)) =>
      ObjectsEqual(ms, ns);
      forall i | 0 <= i < |ms| ensures Equivalent(ms[i].value, Find(ns, ms[i].name).value) {
        var j := FindIndex(ns, ms[i].name);
        CanonicallyEqualIsEquivalent(ms[i].value, Find(ns, ms[i].name).value);
      }
    case _ =>
  }

  /** Canonicalising changes nothing but member order, keeps names distinct and
      is idempotent. */
  lemma {:induction false} CanonicalKeepsMeaning(v: Json)
    requires WellFormed(v)
    ensures WellFormed(Canonical(v)) && Canonical(Canonical(v)) == Canonical(v) && Equivalent(v, Canonical(v))
    decreases v
  {
    match v
    case Array(items) =>
      forall i | 0 <= i < |items|
        ensures WellFormed(Canonical(items[i])) && Canonical(Canonical(items[i])) == Canonical(items[i])
      {
        CanonicalKeepsMeaning(items[i]);
      }
      CanonicallyEqualIsEquivalent(v, Canonical(v));
    case Object(ms) =>
      forall i | 0 <= i < |ms|
        ensures WellFormed(Canonical(ms[i].value)) && Canonical(Canonical(ms[i].value)) == Canonical(ms[i].value)
      {
        CanonicalKeepsMeaning(ms[i].value);
      }
      CanonicalObjectStable(ms);
      CanonicallyEqualIsEquivalent(v, Canonical(v));
    case _ =>
  }

  lemma CanonicalObjectStable(ms: seq<Member>)
    requires WellFormed(Object(ms))
    requires forall i :: 0 <= i < |ms| ==>
      WellFormed(Canonical(ms[i].value)) && Canonical(Canonical(ms[i].value)) == Canonical(ms[i].value)
    ensures WellFormed(Canonical(Object(ms))) && Canonical(Canonical(Object(ms))) == Canonical(Object(ms))
  {
    CanonicalObject(ms);
    var cs := Canonical(Object(ms)).members;
    forall i, j | 0 <= i < j < |cs| ensures cs[i].name != cs[j].name {
      Asymmetric(cs[i].name, cs[j].name);
    }
    forall k | 0 <= k < |cs| ensures WellFormed(cs[k].value) && Canonical(cs[k].value) == cs[k].value {
      assert cs[k] in CanonicalMembers(ms);
    }
    assert CanonicalMembers(cs) == cs;
    CanonicalObject(cs);
    SortedUnique(Canonical(Object(cs)).members, cs);
  }

  /** Canonical forms are equal exactly when only member order differs. */
  lemma CanonicalDecidesEquivalence(a: Json, b: Json)
    requires WellFormed(a) && WellFormed(b)
    ensures Canonical(a) == Canonical(b) <==> Equivalent(a, b)
  {
    if Canonical(a) == Canonical(b) {
      CanonicallyEqualIsEquivalent(a, b);
    }
    if Equivalent(a, b) {
      EquivalentIsCanonicallyEqual(a, b);
    }
  }

  /** The recursive walk: arrays item by item, objects by inserting each
      canonical member into a map kept in name order. */
  method CanonicalJson(v: Json) returns (r: Json)
    ensures r == Canonical(v)
    decreases v
  {
    match v
    case Array(items) =>
      var out: seq<Json> := [];
      for i := 0 to |items|
        invariant |out| == i && forall k :: 0 <= k < i ==> out[k] == Canonical(items[k])
      {
        var item := CanonicalJson(items[i]);
        out := out + [item];
      }
      return Array(out);
    case Object(ms) =>
      var sorted: seq<Member> := [];
      ghost var all := CanonicalMembers(ms);
      for i := |ms| downto 0
        invariant sorted == SortMembers(all[i..])
      {
        var value := CanonicalJson(ms[i].value);
        assert all[i..] == [Member(ms[i].name, value)] + all[i + 1..];
        sorted := InsertMember(Member(ms[i].name, value), sorted);
      }
      assert all[0..] == all;
      return Object(sorted);
    case _ => return v;
  }
}
