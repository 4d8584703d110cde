/** Length-framed hash preimages: each part is preceded by its length as eight
    big-endian bytes. */
module Framing {
  import opened Lex

  const U64_MAX: nat := 0xFFFF_FFFF_FFFF_FFFF

  function Power256(k: nat): (p: nat)
    ensures p > 0
  {
    if k == 0 then 1 else 256 * Power256(k - 1)
  }

  function BigEndian(n: nat, width: nat): (r: Bytes)
    ensures |r| == width
  {
    if width == 0 then [] else BigEndian(n / 256, width - 1) + [n % 256]
  }

  function Number(bytes: Bytes): nat {
    if bytes == [] then 0 else 256 * Number(bytes[..|bytes| - 1]) + bytes[|bytes| - 1]
  }

  lemma {:induction false} NumberBigEndian(n: nat, width: nat)
    requires n < Power256(width)
    ensures Number(BigEndian(n, width)) == n
  {
    if width > 0 {
      assert n / 256 < Power256(width - 1);
      NumberBigEndian(n / 256, width - 1);
      var bytes := BigEndian(n, width);
      assert bytes[..|bytes| - 1] == BigEndian(n / 256, width - 1);
    }
  }

  /** A length that does not fit sixty-four bits is written as the largest one. */
  function LengthBytes(length: nat): (r: Bytes)
    ensures |r| == 8
  {
    BigEndian(if length <= U64_MAX then length else U64_MAX, 8)
  }

  function Frame(parts: seq<Bytes>): Bytes {
    if parts == [] then [] else LengthBytes(|parts[0]|) + parts[0] + Frame(parts[1..])
  }

  predicate Short(parts: seq<Bytes>) {
    forall i :: 0 <= i < |parts| ==> |parts[i]| <= U64_MAX
  }

  lemma LengthReads(m: nat, n: nat)
    requires m <= U64_MAX && n <= U64_MAX && LengthBytes(m) == LengthBytes(n)
    ensures m == n
  {
    assert Power256(8) == U64_MAX + 1 by {
      assert Power256(4) == 0x1_0000_0000;
      assert Power256(8) == 256 * Power256(7) == 256 * (256 * Power256(6)) == 65536 * (256 * Power256(5));
    }
    NumberBigEndian(m, 8);
    NumberBigEndian(n, 8);
  }

  lemma PartReads(a: Bytes, b: Bytes, x: Bytes, y: Bytes)
    requires |a| <= U64_MAX && |b| <= U64_MAX
    requires LengthBytes(|a|) + a + x == LengthBytes(|b|) + b + y
    ensures a == b && x == y
  {
    var l, r := LengthBytes(|a|) + a + x, LengthBytes(|b|) + b + y;
    assert l[..8] == LengthBytes(|a|) && r[..8] == LengthBytes(|b|);
    LengthReads(|a|, |b|);
    assert l[8..8 + |a|] == a && r[8..8 + |b|] == b;
    assert l[8 + |a|..] == x && r[8 + |b|..] == y;
  }

  /** Framing is injective on lists of parts shorter than 2^64 bytes. */
  lemma {:induction false} FrameInjective(a: seq<Bytes>, b: seq<Bytes>)
    requires Short(a) && Short(b)
    ensures Frame(a) == Frame(b) <==> a == b
    decreases |a|
  {
    if Frame(a) == Frame(b) {
      assert a != [] ==> |Frame(a)| >= 8;
      assert b != [] ==> |Frame(b)| >= 8;
      if a != [] {
        PartReads(a[0], b[0], Frame(a[1..]), Frame(b[1..]));
        FrameInjective(a[1..], b[1..]);
        assert a == [a[0]] + a[1..] && b == [b[0]] + b[1..];
      }
    }
  }

  lemma {:induction false} FrameSnoc(parts: seq<Bytes>, last: Bytes)
    ensures Frame(parts + [last]) == Frame(parts) + (LengthBytes(|last|) + last)
    decreases |parts|
  {
    if parts == [] {
      assert parts + [last] == [last] && [last][1..] == [];
    } else {
      FrameSnoc(parts[1..], last);
      assert (parts + [last])[1..] == parts[1..] + [last];
      Regroup(LengthBytes(|parts[0]|) + parts[0], Frame(parts[1..]), LengthBytes(|last|) + last);
    }
  }

  lemma Regroup(a: Bytes, b: Bytes, c: Bytes)
    ensures a + b + c == a + (b + c)
  {
  }

  /** The hasher is fed one part at a time. */
  method HashParts(parts: seq<Bytes>) returns (preimage: Bytes)
    ensures preimage == Frame(parts)
  {
    preimage := [];
    for i := 0 to |parts|
      invariant preimage == Frame(parts[..i])
    {
      FrameSnoc(parts[..i], parts[i]);
      Regroup(preimage, LengthBytes(|parts[i]|), parts[i]);
      assert parts[..i + 1] == parts[..i] + [parts[i]];
      preimage := preimage + LengthBytes(|parts[i]|);
      preimage := preimage + parts[i];
    }
    assert parts[..|parts|] == parts;
  }
}
