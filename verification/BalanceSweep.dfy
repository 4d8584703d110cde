/** The round-robin balance sweep over the wallet list, and the hexadecimal
    amounts it reads. */
module BalanceSweep {
  import opened Domain
  import opened Lex
  import opened Options

  function PageItems<T>(rows: seq<T>, offset: nat, size: nat): seq<T> {
    if offset >= |rows| then [] else rows[offset..if offset + size < |rows| then offset + size else |rows|]
  }

  /** Where a sweep that was asked to start at `offset` really starts. */
  function StartOf(count: nat, offset: nat): nat {
    if offset >= count then 0 else offset
  }

  function NextOffset(count: nat, offset: nat, size: nat): nat {
    var next := StartOf(count, offset) + size;
    if next >= count then 0 else next
  }

  class WalletBalanceSynchronizer {
    var nextOffset: nat
    const batch: nat

    ghost predicate Valid()
      reads this
    {
      batch > 0
    }

    constructor (batch: nat, offset: nat)
      requires batch > 0
      ensures Valid() && this.batch == batch && nextOffset == offset
    {
      this.batch, nextOffset := batch, offset;
    }

    /** One call scans one page and moves the offset; past the end it starts over. */
    method Sync(wallets: seq<Id>) returns (scanned: seq<Id>)
      requires Valid()
      modifies this`nextOffset
      ensures Valid() && scanned == PageItems(wallets, StartOf(|wallets|, old(nextOffset)), batch)
      ensures nextOffset == NextOffset(|wallets|, old(nextOffset), batch)
    {
      var offset := nextOffset;
      var page := PageItems(wallets, offset, batch);
      if page == [] && offset > 0 {
        page, offset := PageItems(wallets, 0, batch), 0;
      }
      var next := offset + |page|;
      nextOffset := if next >= |wallets| then 0 else next;
      scanned := [];
      for i := 0 to |page|
        invariant scanned == page[..i]
      {
        scanned := scanned + [page[i]];
      }
    }
  }

  function OffsetAfter(count: nat, offset: nat, size: nat, calls: nat): nat
    decreases calls
  {
    if calls == 0 then offset else OffsetAfter(count, NextOffset(count, offset, size), size, calls - 1)
  }

  /** What call number `k` of a series scans. */
  function ScannedAt<T>(rows: seq<T>, offset: nat, size: nat, k: nat): seq<T> {
    PageItems(rows, StartOf(|rows|, OffsetAfter(|rows|, offset, size, k)), size)
  }

  /** Everything scanned by a number of consecutive calls, in order. */
  function ScannedBy<T>(rows: seq<T>, offset: nat, size: nat, calls: nat): seq<T>
    decreases calls
  {
    if calls == 0 then []
    else
      PageItems(rows, StartOf(|rows|, offset), size)
      + ScannedBy(rows, NextOffset(|rows|, offset, size), size, calls - 1)
  }

  /** The number of calls that cover `count` rows. */
  function Calls(count: nat, size: nat): nat
    requires size > 0
  {
    if count == 0 then 0 else 1 + Calls(if count <= size then 0 else count - size, size)
  }

  lemma {:induction false} CallsIsCeiling(count: nat, size: nat)
    requires size > 0
    ensures count <= Calls(count, size) * size < count + size
  {
    if count > size {
      CallsIsCeiling(count - size, size);
    } else if count > 0 {
      assert Calls(0, size) == 0;
    }
  }

  lemma {:induction false} CallsGrow(less: nat, more: nat, size: nat)
    requires size > 0 && less <= more
    ensures Calls(less, size) <= Calls(more, size)
  {
    if less > size {
      CallsGrow(less - size, more - size, size);
    }
  }

  lemma {:induction false} OffsetShift(count: nat, offset: nat, size: nat, first: nat, rest: nat)
    ensures OffsetAfter(count, offset, size, first + rest) ==
      OffsetAfter(count, OffsetAfter(count, offset, size, first), size, rest)
    decreases first
  {
    if first > 0 {
      OffsetShift(count, NextOffset(count, offset, size), size, first - 1, rest);
    }
  }

  /** A call that starts inside the list scans one page and moves past it. */
  lemma PageStep<T>(rows: seq<T>, offset: nat, size: nat, calls: nat)
    requires size > 0 && offset < |rows| && calls > 0
    ensures
      var end := if |rows| - offset > size then offset + size else |rows|;
      var next := if |rows| - offset > size then end else 0;
      && ScannedBy(rows, offset, size, calls) == rows[offset..end] + ScannedBy(rows, next, size, calls - 1)
      && OffsetAfter(|rows|, offset, size, calls) == OffsetAfter(|rows|, next, size, calls - 1)
  {
  }

  lemma CallsStep(count: nat, size: nat)
    requires size > 0 && count > 0
    ensures Calls(count, size) == 1 + Calls(if count > size then count - size else 0, size) && Calls(0, size) == 0
  {
  }

  lemma Rejoin<T>(rows: seq<T>, a: nat, b: nat)
    requires a <= b <= |rows|
    ensures rows[a..b] + rows[b..] == rows[a..]
  {
  }

  /** From an offset inside the list, the remaining rows are scanned in order,
      once each, and the offset returns to the start. */
  lemma {:induction false} SweepToEnd<T>(rows: seq<T>, offset: nat, size: nat)
    requires size > 0 && offset < |rows|
    ensures ScannedBy(rows, offset, size, Calls(|rows| - offset, size)) == rows[offset..]
    ensures OffsetAfter(|rows|, offset, size, Calls(|rows| - offset, size)) == 0
    decreases |rows| - offset
  {
    var calls := Calls(|rows| - offset, size);
    CallsStep(|rows| - offset, size);
    PageStep(rows, offset, size, calls);
    if |rows| - offset > size {
      var end := offset + size;
      SweepToEnd(rows, end, size);
      assert calls - 1 == Calls(|rows| - end, size);
      Rejoin(rows, offset, end);
    } else {
      assert calls == 1 && rows[offset..] == rows[offset..|rows|];
      assert ScannedBy(rows, 0, size, 0) == [];
    }
  }

  /** From the start, the sweep scans every wallet exactly once, in order, in
      as many calls as there are pages. */
  lemma FullSweep<T>(rows: seq<T>, size: nat)
    requires size > 0
    ensures ScannedBy(rows, 0, size, Calls(|rows|, size)) == rows
  {
    if |rows| > 0 {
      SweepToEnd(rows, 0, size);
    }
  }

  /** Row `i`, at or after the offset, is scanned before the sweep wraps. */
  lemma {:induction false} Reach<T>(rows: seq<T>, offset: nat, size: nat, i: nat) returns (k: nat)
    requires size > 0 && offset <= i < |rows|
    ensures k < Calls(|rows| - offset, size) && rows[i] in ScannedAt(rows, offset, size, k)
    decreases |rows| - offset
  {
    if i < offset + size {
      k := 0;
      assert PageItems(rows, offset, size)[i - offset] == rows[i];
    } else {
      var later := Reach(rows, offset + size, size, i);
      k := later + 1;
    }
  }

  /** Once the sweep has wrapped, it goes on as from the start. */
  lemma AfterWrap<T>(rows: seq<T>, start: nat, size: nat, later: nat)
    requires size > 0 && start < |rows|
    ensures
      ScannedAt(rows, start, size, Calls(|rows| - start, size) + later) == ScannedAt(rows, 0, size, later)
  {
    SweepToEnd(rows, start, size);
    OffsetShift(|rows|, start, size, Calls(|rows| - start, size), later);
  }

  /** From any stale offset, every wallet is scanned within two rounds of calls. */
  lemma StaleSweep<T>(rows: seq<T>, offset: nat, size: nat, i: nat) returns (k: nat)
    requires size > 0 && i < |rows|
    ensures k < 2 * Calls(|rows|, size) && rows[i] in ScannedAt(rows, offset, size, k)
  {
    var start := StartOf(|rows|, offset);
    CallsGrow(|rows| - start, |rows|, size);
    if start <= i {
      k := Reach(rows, start, size, i);
    } else {
      var later := Reach(rows, 0, size, i);
      AfterWrap(rows, start, size, later);
      k := Calls(|rows| - start, size) + later;
    }
    StaleStart(rows, offset, size, k);
  }

  /** A stale offset scans what the place it falls back to scans. */
  lemma StaleStart<T>(rows: seq<T>, offset: nat, size: nat, k: nat)
    ensures ScannedAt(rows, offset, size, k) == ScannedAt(rows, StartOf(|rows|, offset), size, k)
  {
  }

  // ---------------------------------------------------------- hexadecimal

  predicate HexDigit(b: Byte) {
    48 <= b <= 57 || 97 <= b <= 102 || 65 <= b <= 70
  }

  function DigitValue(b: Byte): (r: nat)
    requires HexDigit(b)
    ensures r < 16
  {
    if b <= 57 then b - 48 else if b <= 70 then b - 55 else b - 87
  }

  function HexValue(digits: Bytes): nat
    requires forall i :: 0 <= i < |digits| ==> HexDigit(digits[i])
  {
    if digits == [] then 0
    else
      var last := |digits| - 1;
      assert HexDigit(digits[last]);
      16 * HexValue(digits[..last]) + DigitValue(digits[last])
  }

  function TrimZeros(digits: Bytes): Bytes {
    if digits != [] && digits[0] == 48 then TrimZeros(digits[1..]) else digits
  }

  function Power16(n: nat): (p: nat)
    ensures p > 0
  {
    if n == 0 then 1 else 16 * Power16(n - 1)
  }

  /** Quantities too large for the amount type saturate. */
  function ParseHexAmount(text: Bytes): Option<Amount> {
    if |text| < 3 || text[0] != 48 || text[1] != 120 then None
    else
      var encoded := text[2..];
      if exists i :: 0 <= i < |encoded| && !HexDigit(encoded[i]) then None
      else
        var significant := TrimZeros(encoded);
        TrimKeepsValue(encoded);
        if |significant| > 32 then Some(U128_MAX)
        else
          HexBounds(significant);
          Some(HexValue(significant))
  }

  lemma {:induction false} LeadingZero(digits: Bytes)
    requires forall i :: 0 <= i < |digits| ==> HexDigit(digits[i])
    ensures forall i :: 0 <= i < |digits| + 1 ==> HexDigit(([48] + digits)[i])
    ensures HexValue([48] + digits) == HexValue(digits)
  {
    var padded: Bytes := [48] + digits;
    if digits == [] {
      assert padded[..0] == [] && HexValue(padded[..0]) == 0;
    } else {
      var last := |digits| - 1;
      LeadingZero(digits[..last]);
      assert padded[..last + 1] == [48] + digits[..last];
    }
  }

  lemma {:induction false} TrimKeepsValue(digits: Bytes)
    requires forall i :: 0 <= i < |digits| ==> HexDigit(digits[i])
    ensures forall i :: 0 <= i < |TrimZeros(digits)| ==> HexDigit(TrimZeros(digits)[i])
    ensures HexValue(TrimZeros(digits)) == HexValue(digits)
    ensures TrimZeros(digits) != [] ==> TrimZeros(digits)[0] != 48
  {
    if digits != [] && digits[0] == 48 {
      TrimKeepsValue(digits[1..]);
      LeadingZero(digits[1..]);
      assert digits == [48] + digits[1..];
    }
  }

  lemma {:induction false} HexLowerBound(digits: Bytes)
    requires digits != [] && forall i :: 0 <= i < |digits| ==> HexDigit(digits[i])
    requires digits[0] != 48
    ensures Power16(|digits| - 1) <= HexValue(digits)
  {
    var last := |digits| - 1;
    if last > 0 {
      HexLowerBound(digits[..last]);
    } else {
      assert digits[..0] == [] && HexValue(digits[..0]) == 0;
      assert HexDigit(digits[0]);
    }
  }

  predicate HexText(text: Bytes) {
    |text| >= 3 && text[0] == 48 && text[1] == 120 && forall i :: 0 <= i < |text| - 2 ==> HexDigit(text[2..][i])
  }

  /** An amount is parsed exactly for `0x` and hexadecimal digits, and is then
      the number they denote, or the largest amount if that is smaller. */
  lemma ParseSaturates(text: Bytes)
    ensures ParseHexAmount(text).Some? <==> HexText(text)
    ensures HexText(text) ==> ParseHexAmount(text) == Some(Min(HexValue(text[2..]), U128_MAX))
  {
    if HexText(text) {
      var encoded := text[2..];
      var significant := TrimZeros(encoded);
      TrimKeepsValue(encoded);
      if |significant| > 32 {
        HexLowerBound(significant);
        Power16Grows(32, |significant| - 1);
      } else {
        HexBounds(significant);
      }
    }
  }

  lemma {:induction false} HexBounds(digits: Bytes)
    requires forall i :: 0 <= i < |digits| ==> HexDigit(digits[i])
    ensures HexValue(digits) < Power16(|digits|)
    ensures |digits| <= 32 ==> HexValue(digits) <= U128_MAX
  {
    if digits != [] {
      HexBounds(digits[..|digits| - 1]);
    }
    Power16Grows(|digits|, 32);
  }

  lemma {:induction false} Power16Grows(n: nat, limit: nat)
    ensures n <= limit ==> Power16(n) <= Power16(limit)
    ensures Power16(32) == U128_MAX + 1
    decreases limit
  {
    assert Power16(8) == 0x1_0000_0000;
    assert Power16(16) == 0x1_0000_0000_0000_0000;
    assert Power16(24) == 0x1_0000_0000_0000_0000_0000_0000;
    assert Power16(32) == 0x1_0000_0000_0000_0000_0000_0000_0000_0000;
    if n < limit {
      Power16Grows(n, limit - 1);
    }
  }
}
