/** Compact serialization of JSON trees, and why it can be read back: no two
    trees have the same bytes. */
module JsonText {
  import opened Json
  import opened Lex

  const QUOTE: Byte := 34
  const BACKSLASH: Byte := 92
  const COMMA: Byte := 44
  const COLON: Byte := 58
  const OPEN_BRACKET: Byte := 91
  const CLOSE_BRACKET: Byte := 93
  const OPEN_BRACE: Byte := 123
  const CLOSE_BRACE: Byte := 125

  function HexDigit(n: nat): Byte
    requires n < 16
  {
    if n < 10 then 48 + n else 87 + n
  }

  /** Short escapes, `\u00xx` for the other control bytes, anything else as it is. */
  function EscapeByte(b: Byte): (r: Bytes)
    ensures |r| > 0 && r[0] != QUOTE
  {
    if b == QUOTE then [BACKSLASH, QUOTE]
    else if b == BACKSLASH then [BACKSLASH, BACKSLASH]
    else if b == 8 then [BACKSLASH, 98]
    else if b == 12 then [BACKSLASH, 102]
    else if b == 10 then [BACKSLASH, 110]
    else if b == 13 then [BACKSLASH, 114]
    else if b == 9 then [BACKSLASH, 116]
    else if b < 32 then [BACKSLASH, 117, 48, 48, HexDigit(b / 16), HexDigit(b % 16)]
    else [b]
  }

  function Escape(text: Bytes): Bytes {
    if text == [] then [] else EscapeByte(text[0]) + Escape(text[1..])
  }

  function Quoted(text: Bytes): Bytes {
    [QUOTE] + Escape(text) + [QUOTE]
  }

  predicate NumberByte(b: Byte) {
    48 <= b <= 57 || b == 43 || b == 45 || b == 46 || b == 69 || b == 101
  }

  /** Numbers are non-empty tokens of digits, signs, point and exponent. */
  predicate NumberToken(digits: Bytes) {
    && digits != [] && (48 <= digits[0] <= 57 || digits[0] == 45)
    && forall i :: 0 <= i < |digits| ==> NumberByte(digits[i])
  }

  predicate ProperNumbers(v: Json) {
    match v
    case Number(digits) => NumberToken(digits)
    case Array(items) => forall i :: 0 <= i < |items| ==> ProperNumbers(items[i])
    case Object(ms) => forall i :: 0 <= i < |ms| ==> ProperNumbers(ms[i].value)
    case _ => true
  }

  function Serialize(v: Json): Bytes
    decreases v, 1
  {
    match v
    case Null => [110, 117, 108, 108]
    case Bool(truth) => if truth then [116, 114, 117, 101] else [102, 97, 108, 115, 101]
    case Number(digits) => digits
    case Text(text) => Quoted(text)
    case Array(items) => [OPEN_BRACKET] + Elements(items) + [CLOSE_BRACKET]
    case Object(ms) => [OPEN_BRACE] + Members(ms) + [CLOSE_BRACE]
  }

  function Elements(items: seq<Json>): Bytes
    decreases items, 0
  {
    if items == [] then []
    else if |items| == 1 then Serialize(items[0])
    else Serialize(items[0]) + [COMMA] + Elements(items[1..])
  }

  function MemberText(m: Member): Bytes
    decreases m, 0
  {
    Quoted(m.name) + [COLON] + Serialize(m.value)
  }

  function Members(ms: seq<Member>): Bytes
    decreases ms, 0
  {
    if ms == [] then []
    else if |ms| == 1 then MemberText(ms[0])
    else MemberText(ms[0]) + [COMMA] + Members(ms[1..])
  }

  // -------------------------------------------------------- reading back

  lemma EscapeByteReads(a: Byte, b: Byte, x: Bytes, y: Bytes)
    requires EscapeByte(a) + x == EscapeByte(b) + y
    ensures a == b && x == y
  {
    var l, r := EscapeByte(a) + x, EscapeByte(b) + y;
    assert l[0] == r[0];
    if l[0] == BACKSLASH {
      assert l[1] == r[1];
      if l[1] == 117 && |EscapeByte(a)| == 6 && |EscapeByte(b)| == 6 {
        assert l[4] == r[4] && l[5] == r[5];
      }
    }
    assert a == b;
    assert l[|EscapeByte(a)|..] == x && r[|EscapeByte(b)|..] == y;
  }

  lemma {:induction false} QuotedReads(a: Bytes, b: Bytes, x: Bytes, y: Bytes)
    requires Escape(a) + [QUOTE] + x == Escape(b) + [QUOTE] + y
    ensures a == b && x == y
    decreases |a|
  {
    EscapedHead(a, x);
    EscapedHead(b, y);
    if a == [] {
      DropOneOfThree(QUOTE, [], x);
      DropOneOfThree(QUOTE, [], y);
      assert [QUOTE] + [] + x == Escape(a) + [QUOTE] + x && [QUOTE] + [] + y == Escape(b) + [QUOTE] + y;
      assert [] + x == x && [] + y == y;
    } else {
      Regroup3(EscapeByte(a[0]), Escape(a[1..]), [QUOTE], x);
      Regroup3(EscapeByte(b[0]), Escape(b[1..]), [QUOTE], y);
      EscapeByteReads(a[0], b[0], Escape(a[1..]) + [QUOTE] + x, Escape(b[1..]) + [QUOTE] + y);
      QuotedReads(a[1..], b[1..], x, y);
      assert a == [a[0]] + a[1..] && b == [b[0]] + b[1..];
    }
  }

  lemma EscapedHead(a: Bytes, x: Bytes)
    ensures a == [] <==> (Escape(a) + [QUOTE] + x)[0] == QUOTE
  {
  }

  lemma Regroup(a: Bytes, b: Bytes, c: Bytes, d: Bytes, x: Bytes)
    ensures a + b + c + d + x == a + (b + c + d + x)
  {
  }

  lemma Regroup3(a: Bytes, b: Bytes, c: Bytes, x: Bytes)
    ensures a + b + c + x == a + (b + c + x)
  {
  }

  lemma DropOne(first: Byte, x: Bytes)
    ensures ([first] + x)[1..] == x
  {
  }

  lemma DropOneOfThree(first: Byte, a: Bytes, x: Bytes)
    ensures ([first] + a + x)[1..] == a + x
  {
  }

  lemma DropFirst(first: Byte, a: Bytes, last: Byte, x: Bytes)
    ensures ([first] + a + [last] + x)[1..] == a + [last] + x
  {
  }

  /** What may follow a complete value. */
  predicate Ends(x: Bytes) {
    x == [] || x[0] == COMMA || x[0] == CLOSE_BRACKET || x[0] == CLOSE_BRACE
  }

  lemma NumberHead(a: Bytes, x: Bytes)
    requires Ends(x) && forall i :: 0 <= i < |a| ==> NumberByte(a[i])
    ensures a == [] <==> a + x == [] || !NumberByte((a + x)[0])
  {
  }

  lemma {:induction false} NumberReads(a: Bytes, b: Bytes, x: Bytes, y: Bytes)
    requires forall i :: 0 <= i < |a| ==> NumberByte(a[i])
    requires forall i :: 0 <= i < |b| ==> NumberByte(b[i])
    requires Ends(x) && Ends(y) && a + x == b + y
    ensures a == b && x == y
    decreases |a|
  {
    NumberHead(a, x);
    NumberHead(b, y);
    if a == [] {
      assert a + x == x && b + y == y;
    } else {
      assert (a + x)[0] == a[0] && (b + y)[0] == b[0];
      assert (a + x)[1..] == a[1..] + x && (b + y)[1..] == b[1..] + y;
      NumberReads(a[1..], b[1..], x, y);
      assert a == [a[0]] + a[1..] && b == [b[0]] + b[1..];
    }
  }

  /** The first byte tells the kinds of value apart. */
  function Kind(b: Byte): nat {
    if b == 110 then 0 else if b == 116 then 1 else if b == 102 then 2 else if b == QUOTE then 3
    else if b == OPEN_BRACKET then 4 else if b == OPEN_BRACE then 5 else if 48 <= b <= 57 || b == 45 then 6 else 7
  }

  function KindOf(v: Json): nat {
    match v
    case Null => 0
    case Bool(truth) => if truth then 1 else 2
    case Text(_) => 3
    case Array(_) => 4
    case Object(_) => 5
    case Number(_) => 6
  }

  lemma HeadOf(v: Json, x: Bytes)
    requires ProperNumbers(v)
    ensures Serialize(v) != [] && Kind((Serialize(v) + x)[0]) == KindOf(v)
  {
  }

  lemma {:induction false} SerializeReads(a: Json, b: Json, x: Bytes, y: Bytes)
    requires ProperNumbers(a) && ProperNumbers(b) && Ends(x) && Ends(y)
    requires Serialize(a) + x == Serialize(b) + y
    ensures a == b && x == y
    decreases a, 1
  {
    HeadOf(a, x);
    HeadOf(b, y);
    match a
    case Null => assert (Serialize(a) + x)[4..] == x && (Serialize(b) + y)[4..] == y;
    case Bool(truth) =>
      var n := |Serialize(a)|;
      assert (Serialize(a) + x)[n..] == x && (Serialize(b) + y)[n..] == y;
    case Number(digits) => NumberReads(digits, b.digits, x, y);
    case Text(text) =>
      DropFirst(QUOTE, Escape(text), QUOTE, x);
      DropFirst(QUOTE, Escape(b.text), QUOTE, y);
      QuotedReads(text, b.text, x, y);
    case Array(items) =>
      DropFirst(OPEN_BRACKET, Elements(items), CLOSE_BRACKET, x);
      DropFirst(OPEN_BRACKET, Elements(b.items), CLOSE_BRACKET, y);
      ElementsRead(items, b.items, x, y);
    case Object(ms) =>
      DropFirst(OPEN_BRACE, Members(ms), CLOSE_BRACE, x);
      DropFirst(OPEN_BRACE, Members(b.members), CLOSE_BRACE, y);
      MembersRead(ms, b.members, x, y);
  }

  /** What follows the first element inside an array. */
  function ElementsRest(items: seq<Json>, x: Bytes): Bytes
    requires items != []
  {
    if |items| == 1 then [CLOSE_BRACKET] + x else [COMMA] + Elements(items[1..]) + [CLOSE_BRACKET] + x
  }

  lemma ElementsFirst(items: seq<Json>, x: Bytes)
    requires items != []
    ensures Elements(items) + [CLOSE_BRACKET] + x == Serialize(items[0]) + ElementsRest(items, x)
  {
    if |items| == 1 {
      Regroup(Serialize(items[0]), [], [], [CLOSE_BRACKET], x);
      assert [] + [] + [CLOSE_BRACKET] + x == [CLOSE_BRACKET] + x;
      assert Serialize(items[0]) + [] + [] == Serialize(items[0]);
    } else {
      Regroup(Serialize(items[0]), [COMMA], Elements(items[1..]), [CLOSE_BRACKET], x);
    }
  }

  lemma ElementsSplit(items: seq<Json>, x: Bytes)
    requires items != [] ==> ProperNumbers(items[0])
    ensures items == [] <==> (Elements(items) + [CLOSE_BRACKET] + x)[0] == CLOSE_BRACKET
    ensures items != [] ==> Elements(items) + [CLOSE_BRACKET] + x == Serialize(items[0]) + ElementsRest(items, x)
  {
    if items != [] {
      ElementsFirst(items, x);
      HeadOf(items[0], ElementsRest(items, x));
    }
  }

  lemma {:induction false} ElementsRead(a: seq<Json>, b: seq<Json>, x: Bytes, y: Bytes)
    requires forall i :: 0 <= i < |a| ==> ProperNumbers(a[i])
    requires forall i :: 0 <= i < |b| ==> ProperNumbers(b[i])
    requires Elements(a) + [CLOSE_BRACKET] + x == Elements(b) + [CLOSE_BRACKET] + y
    ensures a == b && x == y
    decreases a, 0
  {
    ElementsSplit(a, x);
    ElementsSplit(b, y);
    if a == [] {
      assert (Elements(a) + [CLOSE_BRACKET] + x)[1..] == x && (Elements(b) + [CLOSE_BRACKET] + y)[1..] == y;
    } else {
      SerializeReads(a[0], b[0], ElementsRest(a, x), ElementsRest(b, y));
      if |a| == 1 {
        DropOne(CLOSE_BRACKET, x);
        DropOne(CLOSE_BRACKET, y);
      } else {
        DropFirst(COMMA, Elements(a[1..]), CLOSE_BRACKET, x);
        DropFirst(COMMA, Elements(b[1..]), CLOSE_BRACKET, y);
        ElementsRead(a[1..], b[1..], x, y);
      }
      assert a == [a[0]] + a[1..] && b == [b[0]] + b[1..];
    }
  }

  function MembersRest(ms: seq<Member>, x: Bytes): Bytes
    requires ms != []
  {
    if |ms| == 1 then [CLOSE_BRACE] + x else [COMMA] + Members(ms[1..]) + [CLOSE_BRACE] + x
  }

  function AfterName(m: Member, x: Bytes): Bytes { [COLON] + Serialize(m.value) + x }

  lemma MembersSplit(ms: seq<Member>, x: Bytes)
    ensures ms == [] <==> (Members(ms) + [CLOSE_BRACE] + x)[0] == CLOSE_BRACE
    ensures ms != [] ==>
      Members(ms) + [CLOSE_BRACE] + x == [QUOTE] + (Escape(ms[0].name) + [QUOTE] + AfterName(ms[0], MembersRest(ms, x)))
  {
    if ms != [] {
      MembersFirst(ms, x);
      var (name, text, rest) := (Escape(ms[0].name), Serialize(ms[0].value), MembersRest(ms, x));
      assert [QUOTE] + name + [QUOTE] + [COLON] + text + rest ==
        [QUOTE] + (name + [QUOTE] + ([COLON] + text + rest)) by {
        RegroupMember(name, text, rest);
      }
    }
  }

  lemma RegroupMember(name: Bytes, text: Bytes, rest: Bytes)
    ensures [QUOTE] + name + [QUOTE] + [COLON] + text + rest == [QUOTE] + (name + [QUOTE] + ([COLON] + text + rest))
  {
  }

  lemma MembersFirst(ms: seq<Member>, x: Bytes)
    requires ms != []
    ensures Members(ms) + [CLOSE_BRACE] + x == MemberText(ms[0]) + MembersRest(ms, x)
  {
    if |ms| == 1 {
      Regroup(MemberText(ms[0]), [], [], [CLOSE_BRACE], x);
      assert [] + [] + [CLOSE_BRACE] + x == [CLOSE_BRACE] + x;
      assert MemberText(ms[0]) + [] + [] == MemberText(ms[0]);
    } else {
      Regroup(MemberText(ms[0]), [COMMA], Members(ms[1..]), [CLOSE_BRACE], x);
    }
  }

  lemma {:induction false} MembersRead(a: seq<Member>, b: seq<Member>, x: Bytes, y: Bytes)
    requires forall i :: 0 <= i < |a| ==> ProperNumbers(a[i].value)
    requires forall i :: 0 <= i < |b| ==> ProperNumbers(b[i].value)
    requires Members(a) + [CLOSE_BRACE] + x == Members(b) + [CLOSE_BRACE] + y
    ensures a == b && x == y
    decreases a, 0
  {
    MembersSplit(a, x);
    MembersSplit(b, y);
    if a == [] {
      assert (Members(a) + [CLOSE_BRACE] + x)[1..] == x && (Members(b) + [CLOSE_BRACE] + y)[1..] == y;
    } else {
      var p, q := MembersRest(a, x), MembersRest(b, y);
      DropOne(QUOTE, Escape(a[0].name) + [QUOTE] + AfterName(a[0], p));
      DropOne(QUOTE, Escape(b[0].name) + [QUOTE] + AfterName(b[0], q));
      QuotedReads(a[0].name, b[0].name, AfterName(a[0], p), AfterName(b[0], q));
      DropOneOfThree(COLON, Serialize(a[0].value), p);
      DropOneOfThree(COLON, Serialize(b[0].value), q);
      SerializeReads(a[0].value, b[0].value, p, q);
      MembersTail(a, b, x, y);
      if |a| > 1 {
        MembersRead(a[1..], b[1..], x, y);
      }
      assert a == [a[0]] + a[1..] && b == [b[0]] + b[1..];
    }
  }

  lemma MembersTail(a: seq<Member>, b: seq<Member>, x: Bytes, y: Bytes)
    requires a != [] && b != [] && MembersRest(a, x) == MembersRest(b, y)
    ensures |a| == 1 <==> |b| == 1
    ensures if |a| == 1 then x == y else Members(a[1..]) + [CLOSE_BRACE] + x == Members(b[1..]) + [CLOSE_BRACE] + y
  {
    var p, q := MembersRest(a, x), MembersRest(b, y);
    assert p[0] == q[0];
    if |a| == 1 {
      DropOne(CLOSE_BRACE, x);
      DropOne(CLOSE_BRACE, y);
    } else {
      DropFirst(COMMA, Members(a[1..]), CLOSE_BRACE, x);
      DropFirst(COMMA, Members(b[1..]), CLOSE_BRACE, y);
    }
  }

  /** Two trees with the same bytes are the same tree. */
  lemma SerializeInjective(a: Json, b: Json)
    requires ProperNumbers(a) && ProperNumbers(b)
    ensures Serialize(a) == Serialize(b) <==> a == b
  {
    if Serialize(a) == Serialize(b) {
      assert Serialize(a) + [] == Serialize(b) + [];
      SerializeReads(a, b, [], []);
    }
  }

  lemma {:induction false} CanonicalKeepsNumbers(v: Json)
    requires ProperNumbers(v)
    ensures ProperNumbers(Canonical(v))
    decreases v
  {
    match v
    case Array(items) =>
      forall i | 0 <= i < |items| ensures ProperNumbers(Canonical(items[i])) {
        CanonicalKeepsNumbers(items[i]);
      }
    case Object(ms) =>
      forall i | 0 <= i < |ms| ensures ProperNumbers(Canonical(ms[i].value)) {
        CanonicalKeepsNumbers(ms[i].value);
      }
      SortedMembers(CanonicalMembers(ms));
      var cs := Canonical(v).members;
      forall k | 0 <= k < |cs| ensures ProperNumbers(cs[k].value) {
        assert cs[k] in CanonicalMembers(ms);
      }
    case _ =>
  }
}
