/**
 UTF-8 (RFC 3629, section 3) of UTF-16 text: surrogate pairs take four bytes, other units one to three.  A decoder
 shows that texts without lone surrogates are kept apart, and the JSON printer never prints a lone surrogate.
 */
module Utf8 {
  import opened Basics
  import opened Bytes
  import opened Digits
  import opened JsonText
  import opened CanonicalJson
  import opened CanonicalText

  // ----- Encoding

  /** No half of a surrogate pair stands alone. */
  predicate WellPaired(t: Text) {
    if t == [] then true
    else if IsHighSurrogate(t[0]) then |t| >= 2 && IsLowSurrogate(t[1]) && WellPaired(t[2..])
    else !IsLowSurrogate(t[0]) && WellPaired(t[1..])
  }

  function Tail(n: nat): Byte {
    0x80 + n % 0x40
  }

  function EncodePair(high: CodeUnit, low: CodeUnit): seq<Byte>
    requires IsHighSurrogate(high) && IsLowSurrogate(low)
  {
    var c := (high - 0xd800) * 0x400 + (low - 0xdc00) + 0x1_0000;
    [0xf0 + c / 0x40 / 0x40 / 0x40, Tail(c / 0x40 / 0x40), Tail(c / 0x40), Tail(c)]
  }

  function EncodeUnit(u: CodeUnit): seq<Byte> {
    if u < 0x80 then [u]
    else if u < 0x800 then [0xc0 + u / 0x40, Tail(u)]
    else [0xe0 + u / 0x40 / 0x40, Tail(u / 0x40), Tail(u)]
  }

  /** `toUtf8Bytes`. */
  function Encode(t: Text): seq<Byte>
    requires WellPaired(t)
  {
    if t == [] then []
    else if IsHighSurrogate(t[0]) then EncodePair(t[0], t[1]) + Encode(t[2..])
    else EncodeUnit(t[0]) + Encode(t[1..])
  }

  // ----- Decoding

  /** The units that the first bytes encode, and how many bytes those are. */
  function DecodeFirst(bs: seq<Byte>): Option<(Text, nat)> {
    if bs == [] then None
    else if bs[0] < 0x80 then Some(([bs[0]], 1))
    else if bs[0] < 0xe0 then
      if |bs| < 2 then None else Unit(Above(bs[0], 0xc0) * 0x40 + Above(bs[1], 0x80), 2)
    else if bs[0] < 0xf0 then
      if |bs| < 3 then None
      else Unit((Above(bs[0], 0xe0) * 0x40 + Above(bs[1], 0x80)) * 0x40 + Above(bs[2], 0x80), 3)
    else if |bs| < 4 then None
    else
      Pair(((Above(bs[0], 0xf0) * 0x40 + Above(bs[1], 0x80)) * 0x40 + Above(bs[2], 0x80)) * 0x40
           + Above(bs[3], 0x80) - 0x1_0000)
  }

  /** What a byte carries above its marker. */
  function Above(b: Byte, marker: int): int {
    (b as int) - marker
  }

  function Unit(u: int, size: nat): Option<(Text, nat)> {
    if 0 <= u < 0x1_0000 then Some(([u], size)) else None
  }

  function Pair(c: int): Option<(Text, nat)> {
    if 0 <= c < 0x10_0000 then Some(([0xd800 + c / 0x400, 0xdc00 + c % 0x400], 4)) else None
  }

  function Decode(bs: seq<Byte>): Option<Text>
    decreases |bs|
  {
    if bs == [] then Some([])
    else
      match DecodeFirst(bs)
      case Some((units, size)) =>
        if 0 < size <= |bs| then
          match Decode(bs[size..])
          case Some(rest) => Some(units + rest)
          case None => None
        else None
      case None => None
  }

  lemma UnitDecodes(u: CodeUnit, rest: seq<Byte>)
    ensures DecodeFirst(EncodeUnit(u) + rest) == Some(([u], |EncodeUnit(u)|))
  {
    Sixfold(u);
    Sixfold(u / 0x40);
  }

  lemma Sixfold(n: nat)
    ensures n / 0x40 * 0x40 + n % 0x40 == n
  {
  }

  lemma PairDecodes(high: CodeUnit, low: CodeUnit, rest: seq<Byte>)
    requires IsHighSurrogate(high) && IsLowSurrogate(low)
    ensures DecodeFirst(EncodePair(high, low) + rest) == Some(([high, low], 4))
  {
    var c := (high - 0xd800) * 0x400 + (low - 0xdc00) + 0x1_0000;
    Sixfold(c);
    Sixfold(c / 0x40);
    Sixfold(c / 0x40 / 0x40);
  }

  lemma {:induction false} EncodeThenDecode(t: Text)
    requires WellPaired(t)
    ensures Decode(Encode(t)) == Some(t)
  {
    if t != [] {
      if IsHighSurrogate(t[0]) {
        PairDecodes(t[0], t[1], Encode(t[2..]));
        EncodeThenDecode(t[2..]);
        assert Encode(t)[4..] == Encode(t[2..]);
        assert t == [t[0], t[1]] + t[2..];
      } else {
        UnitDecodes(t[0], Encode(t[1..]));
        EncodeThenDecode(t[1..]);
        assert Encode(t)[|EncodeUnit(t[0])|..] == Encode(t[1..]);
        assert t == [t[0]] + t[1..];
      }
    }
  }

  // ----- The printer prints no lone surrogate

  lemma {:induction false} WellPairedConcat(a: Text, b: Text)
    requires WellPaired(a) && WellPaired(b)
    ensures WellPaired(a + b)
  {
    if a == [] {
      assert a + b == b;
    } else if IsHighSurrogate(a[0]) {
      assert (a + b)[2..] == a[2..] + b;
      WellPairedConcat(a[2..], b);
    } else {
      assert (a + b)[1..] == a[1..] + b;
      WellPairedConcat(a[1..], b);
    }
  }

  predicate NoSurrogates(t: Text) {
    forall i | 0 <= i < |t| :: !IsHighSurrogate(t[i]) && !IsLowSurrogate(t[i])
  }

  lemma {:induction false} NoSurrogatesIsPaired(t: Text)
    requires NoSurrogates(t)
    ensures WellPaired(t)
  {
    if t != [] {
      NoSurrogatesIsPaired(t[1..]);
    }
  }

  lemma EscapeIsPaired(u: CodeUnit)
    ensures WellPaired(EscapeUnit(u))
  {
    NoSurrogatesIsPaired(EscapeUnit(u));
  }

  lemma {:induction false} BodyIsPaired(s: Text)
    ensures WellPaired(QuoteBody(s))
  {
    if |s| >= 2 && IsHighSurrogate(s[0]) && IsLowSurrogate(s[1]) {
      BodyIsPaired(s[2..]);
      assert ([s[0], s[1]] + QuoteBody(s[2..]))[2..] == QuoteBody(s[2..]);
    } else if s != [] {
      BodyIsPaired(s[1..]);
      EscapeIsPaired(s[0]);
      WellPairedConcat(EscapeUnit(s[0]), QuoteBody(s[1..]));
    }
  }

  lemma Unpaired(u: CodeUnit)
    requires !IsHighSurrogate(u) && !IsLowSurrogate(u)
    ensures WellPaired([u])
  {
    NoSurrogatesIsPaired([u]);
  }

  lemma QuoteIsPaired(s: Text)
    ensures WellPaired(Quote(s))
  {
    BodyIsPaired(s);
    Unpaired(QUOTE);
    WellPairedConcat([QUOTE], QuoteBody(s));
    WellPairedConcat([QUOTE] + QuoteBody(s), [QUOTE]);
  }

  lemma NumberIsPaired(n: int)
    ensures WellPaired(ShowInt(n))
  {
    NoSurrogatesIsPaired(ShowInt(n));
  }

  /** An opening, the content and a closing. */
  lemma BracketedIsPaired(open: CodeUnit, content: Text, close: CodeUnit)
    requires NoSurrogates([open, close]) && WellPaired(content)
    ensures WellPaired([open] + content + [close])
  {
    assert !IsHighSurrogate([open, close][0]) && !IsLowSurrogate([open, close][0]);
    assert !IsHighSurrogate([open, close][1]) && !IsLowSurrogate([open, close][1]);
    Unpaired(open);
    Unpaired(close);
    WellPairedConcat([open], content);
    WellPairedConcat([open] + content, [close]);
  }

  /** A separator and two texts. */
  lemma SeparatedIsPaired(separator: CodeUnit, a: Text, b: Text)
    requires !IsHighSurrogate(separator) && !IsLowSurrogate(separator) && WellPaired(a) && WellPaired(b)
    ensures WellPaired([separator] + a + b)
  {
    Unpaired(separator);
    WellPairedConcat([separator], a);
    WellPairedConcat([separator] + a, b);
  }

  /** Whatever the strings of a value hold, its text has no lone surrogate. */
  lemma {:induction false} PrintIsPaired(v: Json)
    requires Plain(v)
    ensures WellPaired(Print(v))
    decreases v, 0
  {
    match v
    case Null => NoSurrogatesIsPaired(NULL_TEXT);
    case Bool(b) => NoSurrogatesIsPaired(if b then TRUE_TEXT else FALSE_TEXT);
    case Num(n) => NumberIsPaired(n);
    case Str(s) => QuoteIsPaired(s);
    case Arr(items) =>
      if items == [] {
        BracketedIsPaired(OPEN_BRACKET, [], CLOSE_BRACKET);
      } else {
        PrintIsPaired(items[0]);
        MoreItemsArePaired(items[1..]);
        WellPairedConcat(Print(items[0]), PrintMoreItems(items[1..]));
        BracketedIsPaired(OPEN_BRACKET, Print(items[0]) + PrintMoreItems(items[1..]), CLOSE_BRACKET);
      }
    case Obj(members) =>
      if members == [] {
        BracketedIsPaired(OPEN_BRACE, [], CLOSE_BRACE);
      } else {
        MemberIsPaired(members[0]);
        MoreMembersArePaired(members[1..]);
        WellPairedConcat(PrintMember(members[0]), PrintMoreMembers(members[1..]));
        BracketedIsPaired(OPEN_BRACE, PrintMember(members[0]) + PrintMoreMembers(members[1..]), CLOSE_BRACE);
      }
  }

  lemma {:induction false} MemberIsPaired(m: Member)
    requires Plain(m.value)
    ensures WellPaired(PrintMember(m))
    decreases m
  {
    QuoteIsPaired(m.key);
    PrintIsPaired(m.value);
    Unpaired(COLON);
    WellPairedConcat(Quote(m.key), [COLON]);
    WellPairedConcat(Quote(m.key) + [COLON], Print(m.value));
  }

  lemma {:induction false} MoreItemsArePaired(items: seq<Json>)
    requires forall x | x in items :: Plain(x)
    ensures WellPaired(PrintMoreItems(items))
    decreases items
  {
    if items != [] {
      PrintIsPaired(items[0]);
      MoreItemsArePaired(items[1..]);
      SeparatedIsPaired(COMMA, Print(items[0]), PrintMoreItems(items[1..]));
    }
  }

  lemma {:induction false} MoreMembersArePaired(members: seq<Member>)
    requires forall m | m in members :: Plain(m.value)
    ensures WellPaired(PrintMoreMembers(members))
    decreases members
  {
    if members != [] {
      MemberIsPaired(members[0]);
      MoreMembersArePaired(members[1..]);
      SeparatedIsPaired(COMMA, PrintMember(members[0]), PrintMoreMembers(members[1..]));
    }
  }

  // ----- The bytes that are hashed

  lemma StableIsPaired(v: Json)
    requires Plain(v)
    ensures WellPaired(StableJson(v))
  {
    StableIsPrintOfSorted(v);
    SortJsonIsPlain(UnitLe, v);
    PrintIsPaired(SortJson(UnitLe, v));
  }

  /** Two policies are hashed from the same bytes exactly when they are the same policy. */
  lemma PolicyPreimageUnambiguous(a: Json, b: Json)
    requires Plain(a) && Plain(b) && WellFormed(a) && WellFormed(b)
    ensures WellPaired(StableJson(a)) && WellPaired(StableJson(b))
    ensures Encode(StableJson(a)) == Encode(StableJson(b)) <==> Same(a, b)
  {
    StableIsPaired(a);
    StableIsPaired(b);
    EncodeThenDecode(StableJson(a));
    EncodeThenDecode(StableJson(b));
    PolicyTextUnambiguous(a, b);
  }

  /** The encoding of one text of each length: A, e with acute accent, the euro sign and an emoji. */
  lemma EncodesAsPrescribed()
    ensures WellPaired([0x41]) && Encode([0x41]) == [0x41]
    ensures WellPaired([0xe9]) && Encode([0xe9]) == [0xc3, 0xa9]
    ensures WellPaired([0x20ac]) && Encode([0x20ac]) == [0xe2, 0x82, 0xac]
    ensures WellPaired([0xd83d, 0xde00]) && Encode([0xd83d, 0xde00]) == [0xf0, 0x9f, 0x98, 0x80]
  {
    EncodeOne(0x41);
    EncodeOne(0xe9);
    EncodeOne(0x20ac);
    EncodeEmoji();
  }

  lemma EncodeOne(u: CodeUnit)
    requires !IsHighSurrogate(u) && !IsLowSurrogate(u)
    ensures WellPaired([u]) && Encode([u]) == EncodeUnit(u)
  {
    Unpaired(u);
    assert [u][1..] == [];
  }

  lemma EncodeEmoji()
    ensures WellPaired([0xd83d, 0xde00]) && Encode([0xd83d, 0xde00]) == [0xf0, 0x9f, 0x98, 0x80]
  {
    assert [0xd83d, 0xde00][2..] == [];
    assert Encode([]) == [];
  }
}
