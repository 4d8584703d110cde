/** Confirmed totals of a wallet: payments in each direction, minus the
    reversals of entries in that direction; and the paged reads that feed them. */
module LedgerTotals {
  import opened Domain
  import opened Options
  import opened Sums

  datatype Kind = Regular | Reversal

  datatype Entry = Entry(id: Id, kind: Kind, direction: Direction, asset: Asset, amount: Amount, reversalOf: Option<Id>)

  predicate UniqueIds(entries: seq<Entry>) {
    forall i, j :: 0 <= i < j < |entries| ==> entries[i].id != entries[j].id
  }

  function ById(entries: seq<Entry>): (m: map<Id, Entry>)
    ensures forall id :: id in m ==> m[id] in entries && m[id].id == id
    ensures forall e :: e in entries ==> e.id in m
  {
    if entries == [] then map[]
    else
      var last := |entries| - 1;
      assert entries == entries[..last] + [entries[last]];
      ById(entries[..last])[entries[last].id := entries[last]]
  }

  /** What an entry adds to the flow of a direction. */
  function Flow(direction: Direction): (Id, Entry) -> nat {
    (id: Id, e: Entry) => if e.kind.Regular? && e.direction == direction then e.amount else 0
  }

  /** What an entry takes back from the direction of the entry it reverses. */
  function Reversed(byId: map<Id, Entry>, direction: Direction): (Id, Entry) -> nat {
    (id: Id, e: Entry) =>
      if e.kind.Reversal? && e.reversalOf.Some? && e.reversalOf.value in byId
         && byId[e.reversalOf.value].direction == direction
      then e.amount else 0
  }

  function Sum(entries: seq<Entry>, weight: (Id, Entry) -> nat): nat {
    if entries == [] then 0
    else
      var last := |entries| - 1;
      Sum(entries[..last], weight) + weight(entries[last].id, entries[last])
  }

  predicate InScope(byId: map<Id, Entry>, e: Entry) {
    e.kind.Reversal? ==> e.reversalOf.Some? && e.reversalOf.value in byId
  }

  predicate AllInScope(entries: seq<Entry>, byId: map<Id, Entry>) {
    forall e :: e in entries ==> InScope(byId, e)
  }

  lemma {:induction false} SumGrows(entries: seq<Entry>, weight: (Id, Entry) -> nat, n: nat)
    requires n <= |entries|
    ensures Sum(entries[..n], weight) <= Sum(entries, weight)
    decreases |entries|
  {
    if n < |entries| {
      var last := |entries| - 1;
      SumGrows(entries[..last], weight, n);
      assert entries[..last][..n] == entries[..n];
    } else {
      assert entries[..n] == entries;
    }
  }

  lemma SumNext(entries: seq<Entry>, weight: (Id, Entry) -> nat, n: nat)
    requires n < |entries|
    ensures Sum(entries[..n + 1], weight) == Sum(entries[..n], weight) + weight(entries[n].id, entries[n])
    ensures Sum(entries[..n + 1], weight) <= Sum(entries, weight)
  {
    SumGrows(entries, weight, n + 1);
    assert entries[..n + 1][..n] == entries[..n];
  }

  /** When the totals exist: each flow fits, every reversal names an entry in
      scope, and no direction is reversed beyond its flow. */
  predicate Balanced(entries: seq<Entry>) {
    var byId := ById(entries);
    && AllInScope(entries, byId)
    && Sum(entries, Reversed(byId, Inbound)) <= Sum(entries, Flow(Inbound)) <= U128_MAX
    && Sum(entries, Reversed(byId, Outbound)) <= Sum(entries, Flow(Outbound)) <= U128_MAX
  }

  function NetFlow(entries: seq<Entry>, d: Direction): int {
    Sum(entries, Flow(d)) - Sum(entries, Reversed(ById(entries), d))
  }

  /** First the flows, then the reversals, each with a checked operation. */
  method ConfirmedTotals(entries: seq<Entry>) returns (r: Option<(Amount, Amount)>)
    ensures r.Some? <==> Balanced(entries)
    ensures r.Some? ==> r.value.0 == NetFlow(entries, Inbound) && r.value.1 == NetFlow(entries, Outbound)
  {
    var byId := ById(entries);
    var flows := SumFlows(entries);
    if flows.None? {
      return None;
    }
    r := SubtractReversals(entries, byId, flows.value.0, flows.value.1);
  }

  method SumFlows(entries: seq<Entry>) returns (r: Option<(Amount, Amount)>)
    ensures r.Some? <==> Sum(entries, Flow(Inbound)) <= U128_MAX && Sum(entries, Flow(Outbound)) <= U128_MAX
    ensures r.Some? ==> r.value.0 == Sum(entries, Flow(Inbound)) && r.value.1 == Sum(entries, Flow(Outbound))
  {
    var inbound: Amount, outbound: Amount := 0, 0;
    for i := 0 to |entries|
      invariant inbound == Sum(entries[..i], Flow(Inbound)) && outbound == Sum(entries[..i], Flow(Outbound))
    {
      SumNext(entries, Flow(Inbound), i);
      SumNext(entries, Flow(Outbound), i);
      if entries[i].kind.Regular? {
        var total := CheckedAdd(if entries[i].direction.Inbound? then inbound else outbound, entries[i].amount);
        if total.None? {
          return None;
        }
        if entries[i].direction.Inbound? {
          inbound := total.value;
        } else {
          outbound := total.value;
        }
      }
    }
    assert entries[..|entries|] == entries;
    r := Some((inbound, outbound));
  }

  method SubtractReversals(entries: seq<Entry>, byId: map<Id, Entry>, inflow: Amount, outflow: Amount)
    returns (r: Option<(Amount, Amount)>)
    ensures r.Some? <==>
      && AllInScope(entries, byId)
      && Sum(entries, Reversed(byId, Inbound)) <= inflow && Sum(entries, Reversed(byId, Outbound)) <= outflow
    ensures r.Some? ==>
      && r.value.0 == inflow - Sum(entries, Reversed(byId, Inbound))
      && r.value.1 == outflow - Sum(entries, Reversed(byId, Outbound))
  {
    var inbound: Amount, outbound: Amount := inflow, outflow;
    for i := 0 to |entries|
      invariant forall k :: 0 <= k < i ==> InScope(byId, entries[k])
      invariant inbound == inflow - Sum(entries[..i], Reversed(byId, Inbound))
      invariant outbound == outflow - Sum(entries[..i], Reversed(byId, Outbound))
    {
      SumNext(entries, Reversed(byId, Inbound), i);
      SumNext(entries, Reversed(byId, Outbound), i);
      if entries[i].kind.Reversal? {
        if entries[i].reversalOf.None? || entries[i].reversalOf.value !in byId {
          assert entries[i] in entries;
          return None;
        }
        if byId[entries[i].reversalOf.value].direction.Inbound? {
          if inbound < entries[i].amount {
            return None;
          }
          inbound := inbound - entries[i].amount;
        } else {
          if outbound < entries[i].amount {
            return None;
          }
          outbound := outbound - entries[i].amount;
        }
      }
    }
    assert entries[..|entries|] == entries;
    r := Some((inbound, outbound));
  }

  // ------------------------------------------------------ order of entries

  lemma {:induction false} SumIsTotal(entries: seq<Entry>, weight: (Id, Entry) -> nat)
    requires UniqueIds(entries)
    ensures Sum(entries, weight) == Total(ById(entries), weight)
    decreases |entries|
  {
    if entries != [] {
      var last := |entries| - 1;
      var earlier := entries[..last];
      SumIsTotal(earlier, weight);
      forall i | 0 <= i < last ensures entries[i].id != entries[last].id {
      }
      assert entries[last].id !in ById(earlier);
      TotalInsert(ById(earlier), weight, entries[last].id, entries[last]);
    }
  }

  lemma SameEntriesSameMap(a: seq<Entry>, b: seq<Entry>)
    requires UniqueIds(a) && UniqueIds(b) && forall e :: e in a <==> e in b
    ensures ById(a) == ById(b)
  {
    MapIncluded(a, b);
    MapIncluded(b, a);
    SameMap(ById(a), ById(b));
  }

  lemma SameMap(m: map<Id, Entry>, n: map<Id, Entry>)
    requires forall id :: id in m ==> id in n && n[id] == m[id]
    requires forall id :: id in n ==> id in m
    ensures m == n
  {
  }

  lemma MapIncluded(a: seq<Entry>, b: seq<Entry>)
    requires UniqueIds(b) && forall e :: e in a ==> e in b
    ensures forall id :: id in ById(a) ==> id in ById(b) && ById(b)[id] == ById(a)[id]
  {
    forall id | id in ById(a) ensures id in ById(b) && ById(b)[id] == ById(a)[id] {
      assert ById(a)[id] in b;
      SameIdSameEntry(b, ById(a)[id], ById(b)[id]);
    }
  }

  lemma SameIdSameEntry(entries: seq<Entry>, x: Entry, y: Entry)
    requires UniqueIds(entries) && x in entries && y in entries && x.id == y.id
    ensures x == y
  {
    var i :| 0 <= i < |entries| && entries[i] == x;
    var j :| 0 <= j < |entries| && entries[j] == y;
  }

  /** Neither the success nor the totals depend on the order of the entries. */
  lemma TotalsIgnoreOrder(a: seq<Entry>, b: seq<Entry>)
    requires UniqueIds(a) && UniqueIds(b) && forall e :: e in a <==> e in b
    ensures Balanced(a) <==> Balanced(b)
    ensures forall d: Direction :: NetFlow(a, d) == NetFlow(b, d)
  {
    SameEntriesSameMap(a, b);
    forall d: Direction
      ensures Sum(a, Flow(d)) == Sum(b, Flow(d)) && Sum(a, Reversed(ById(a), d)) == Sum(b, Reversed(ById(b), d))
    {
      SumIsTotal(a, Flow(d));
      SumIsTotal(b, Flow(d));
      SumIsTotal(a, Reversed(ById(a), d));
      SumIsTotal(b, Reversed(ById(b), d));
    }
  }

  // --------------------------------------------------------------- paging

  const PAGE_SIZE := 1000

  datatype Page<T> = Page(items: seq<T>, total: nat)

  function PageAt<T>(rows: seq<T>, offset: nat): Page<T> {
    if offset >= |rows| then Page([], |rows|)
    else Page(rows[offset..if offset + PAGE_SIZE < |rows| then offset + PAGE_SIZE else |rows|], |rows|)
  }

  function OfAsset(rows: seq<Entry>, asset: Asset): seq<Entry> {
    if rows == [] then []
    else
      var last := |rows| - 1;
      OfAsset(rows[..last], asset) + if rows[last].asset == asset then [rows[last]] else []
  }

  lemma {:induction false} OfAssetAppend(a: seq<Entry>, b: seq<Entry>, asset: Asset)
    ensures OfAsset(a + b, asset) == OfAsset(a, asset) + OfAsset(b, asset)
    decreases |b|
  {
    if b == [] {
      assert a + b == a;
    } else {
      var last := |b| - 1;
      assert (a + b)[..|a + b| - 1] == a + b[..last];
      OfAssetAppend(a, b[..last], asset);
    }
  }

  /** Page by page over a fixed list: the whole list, filtered once. */
  method LedgerEntries(rows: seq<Entry>, asset: Asset) returns (entries: seq<Entry>)
    ensures entries == OfAsset(rows, asset)
  {
    entries := [];
    var offset: nat := 0;
    var done := false;
    while !done
      invariant offset <= |rows| ==> entries == OfAsset(rows[..offset], asset)
      invariant done ==> entries == OfAsset(rows, asset)
      invariant !done ==> offset <= |rows|
      decreases !done, |rows| - offset
    {
      var page := PageAt(rows, offset);
      OfAssetAppend(rows[..offset], page.items, asset);
      entries := entries + OfAsset(page.items, asset);
      var upTo := if offset + PAGE_SIZE < |rows| then offset + PAGE_SIZE else |rows|;
      assert rows[..offset] + page.items == rows[..upTo];
      offset := offset + PAGE_SIZE;
      done := offset >= page.total;
      assert rows[..|rows|] == rows;
    }
  }

  datatype Reservation = Reservation(asset: Asset, reserved: bool, amount: Amount)

  function ReservedSum(rows: seq<Reservation>, asset: Asset): nat {
    if rows == [] then 0
    else
      var last := |rows| - 1;
      ReservedSum(rows[..last], asset)
      + if rows[last].asset == asset && rows[last].reserved then rows[last].amount else 0
  }

  lemma {:induction false} ReservedSumGrows(rows: seq<Reservation>, asset: Asset, n: nat)
    requires n <= |rows|
    ensures ReservedSum(rows[..n], asset) <= ReservedSum(rows, asset)
    decreases |rows|
  {
    if n < |rows| {
      ReservedSumGrows(rows[..|rows| - 1], asset, n);
      assert rows[..|rows| - 1][..n] == rows[..n];
    } else {
      assert rows[..n] == rows;
    }
  }

  lemma ReservedNext(rows: seq<Reservation>, asset: Asset, n: nat)
    requires n < |rows|
    ensures ReservedSum(rows[..n + 1], asset)
         == ReservedSum(rows[..n], asset) + if rows[n].asset == asset && rows[n].reserved then rows[n].amount else 0
    ensures ReservedSum(rows[..n + 1], asset) <= ReservedSum(rows, asset)
  {
    assert rows[..n + 1][..n] == rows[..n];
    ReservedSumGrows(rows, asset, n + 1);
  }

  /** One page added to the running total, or a failure. */
  method AddPage(rows: seq<Reservation>, asset: Asset, from: nat, upTo: nat, start: Amount) returns (r: Option<Amount>)
    requires from <= upTo <= |rows| && start == ReservedSum(rows[..from], asset)
    ensures r.Some? ==> r.value == ReservedSum(rows[..upTo], asset)
    ensures r.None? ==> ReservedSum(rows, asset) > U128_MAX
  {
    var total := start;
    for i := from to upTo
      invariant total == ReservedSum(rows[..i], asset)
    {
      ReservedNext(rows, asset, i);
      if rows[i].asset == asset && rows[i].reserved {
        var next := CheckedAdd(total, rows[i].amount);
        if next.None? {
          return None;
        }
        total := next.value;
      }
    }
    r := Some(total);
  }

  /** The running total fails exactly when the whole sum does not fit. */
  method ReservedOutbound(rows: seq<Reservation>, asset: Asset) returns (r: Option<Amount>)
    ensures r.Some? <==> ReservedSum(rows, asset) <= U128_MAX
    ensures r.Some? ==> r.value == ReservedSum(rows, asset)
  {
    var total: Amount := 0;
    var offset: nat := 0;
    var done := false;
    while !done
      invariant !done ==> offset <= |rows| && total == ReservedSum(rows[..offset], asset)
      invariant done ==> total == ReservedSum(rows, asset)
      decreases !done, |rows| - offset
    {
      var page := PageAt(rows, offset);
      var upTo := offset + |page.items|;
      var sum := AddPage(rows, asset, offset, upTo, total);
      if sum.None? {
        return None;
      }
      total := sum.value;
      assert rows[..|rows|] == rows;
      offset := offset + PAGE_SIZE;
      done := offset >= page.total;
    }
    r := Some(total);
  }
}
