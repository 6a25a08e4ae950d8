/**
 Compact JSON text as `JSON.stringify` prints it (RFC 8259, sections 4 to 7), over UTF-16 code units,
 and a recursive-descent parser that inverts the printer.
 */
module JsonText {
  import opened Basics
  import opened Digits

  type CodeUnit = u: int | 0 <= u < 0x1_0000
  type Text = seq<CodeUnit>

  datatype Member = Member(key: Text, value: Json)

  /** `Big` is a JavaScript bigint: not a JSON value, but accepted (and turned into a string) by `sortJson`. */
  datatype Json =
    | Null
    | Bool(b: bool)
    | Num(n: int)
    | Str(s: Text)
    | Arr(items: seq<Json>)
    | Obj(members: seq<Member>)
    | Big(i: int)

  /** A value that `JSON.stringify` accepts: no bigint anywhere. */
  ghost predicate Plain(v: Json) {
    match v
    case Arr(items) => forall x | x in items :: Plain(x)
    case Obj(members) => forall m | m in members :: Plain(m.value)
    case Big(_) => false
    case _ => true
  }

  const QUOTE: CodeUnit := 0x22
  const COMMA: CodeUnit := 0x2c
  const MINUS: CodeUnit := 0x2d
  const COLON: CodeUnit := 0x3a
  const OPEN_BRACKET: CodeUnit := 0x5b
  const BACKSLASH: CodeUnit := 0x5c
  const CLOSE_BRACKET: CodeUnit := 0x5d
  const LETTER_U: CodeUnit := 0x75
  const OPEN_BRACE: CodeUnit := 0x7b
  const CLOSE_BRACE: CodeUnit := 0x7d
  const NULL_TEXT: Text := [0x6e, 0x75, 0x6c, 0x6c]
  const TRUE_TEXT: Text := [0x74, 0x72, 0x75, 0x65]
  const FALSE_TEXT: Text := [0x66, 0x61, 0x6c, 0x73, 0x65]

  // ----- Strings

  predicate IsHighSurrogate(u: CodeUnit) { 0xd800 <= u < 0xdc00 }

  predicate IsLowSurrogate(u: CodeUnit) { 0xdc00 <= u < 0xe000 }

  function HexDigit(d: int): CodeUnit
    requires 0 <= d < 16
  {
    if d < 10 then 0x30 + d else 0x57 + d
  }

  function HexValue(u: CodeUnit): Option<int> {
    if 0x30 <= u <= 0x39 then Some(u - 0x30)
    else if 0x61 <= u <= 0x66 then Some(u - 0x57)
    else None
  }

  function UnicodeEscape(u: CodeUnit): (t: Text)
    ensures |t| == 6
  {
    [BACKSLASH, LETTER_U, HexDigit(u / 0x1000), HexDigit(u / 0x100 % 16), HexDigit(u / 16 % 16), HexDigit(u % 16)]
  }

  /** The letter of a two-character escape, for the seven units that have one. */
  function ShortEscape(u: CodeUnit): Option<CodeUnit> {
    if u == 0x08 then Some(0x62)
    else if u == 0x09 then Some(0x74)
    else if u == 0x0a then Some(0x6e)
    else if u == 0x0c then Some(0x66)
    else if u == 0x0d then Some(0x72)
    else if u == QUOTE || u == BACKSLASH then Some(u)
    else None
  }

  function ShortUnescape(letter: CodeUnit): Option<CodeUnit> {
    if letter == 0x62 then Some(0x08)
    else if letter == 0x74 then Some(0x09)
    else if letter == 0x6e then Some(0x0a)
    else if letter == 0x66 then Some(0x0c)
    else if letter == 0x72 then Some(0x0d)
    else if letter == QUOTE || letter == BACKSLASH then Some(letter)
    else None
  }

  /** A unit that is not half of a surrogate pair. */
  function EscapeUnit(u: CodeUnit): (t: Text)
    ensures t != []
  {
    if ShortEscape(u).Some? then [BACKSLASH, ShortEscape(u).value]
    else if u < 0x20 || IsHighSurrogate(u) || IsLowSurrogate(u) then UnicodeEscape(u)
    else [u]
  }

  function QuoteBody(s: Text): Text {
    if s == [] then []
    else if |s| >= 2 && IsHighSurrogate(s[0]) && IsLowSurrogate(s[1]) then [s[0], s[1]] + QuoteBody(s[2..])
    else EscapeUnit(s[0]) + QuoteBody(s[1..])
  }

  function Quote(s: Text): Text {
    [QUOTE] + QuoteBody(s) + [QUOTE]
  }

  /** Reads up to and including the closing quote. */
  function ParseBody(t: Text): (r: Option<(Text, Text)>)
    ensures r.Some? ==> |r.value.1| < |t|
  {
    if t == [] || t[0] < 0x20 then None
    else if t[0] == QUOTE then Some(([], t[1..]))
    else if t[0] != BACKSLASH then Prepend(t[0], ParseBody(t[1..]))
    else if |t| < 2 then None
    else if t[1] == LETTER_U then
      if |t| < 6 then None
      else
        match (HexValue(t[2]), HexValue(t[3]), HexValue(t[4]), HexValue(t[5]))
        case (Some(a), Some(b), Some(c), Some(d)) =>
          var u := a * 0x1000 + b * 0x100 + c * 16 + d;
          if 0 <= u < 0x1_0000 then Prepend(u, ParseBody(t[6..])) else None
        case _ => None
    else
      match ShortUnescape(t[1])
      case Some(u) => Prepend(u, ParseBody(t[2..]))
      case None => None
  }

  function Prepend(u: CodeUnit, r: Option<(Text, Text)>): Option<(Text, Text)> {
    match r
    case Some((s, rest)) => Some(([u] + s, rest))
    case None => None
  }

  lemma HexDigitRoundTrip(d: int)
    requires 0 <= d < 16
    ensures HexValue(HexDigit(d)) == Some(d)
  {
  }

  lemma HexSum(u: CodeUnit)
    ensures 0 <= u / 0x1000 < 16
    ensures u == u / 0x1000 * 0x1000 + u / 0x100 % 16 * 0x100 + u / 16 % 16 * 16 + u % 16
  {
    assert u / 0x100 == u / 0x1000 * 16 + u / 0x100 % 16;
    assert u / 16 == u / 0x100 * 16 + u / 16 % 16;
    assert u == u / 16 * 16 + u % 16;
  }

  lemma HexParse(t: Text, a: int, b: int, c: int, d: int, rest: Text)
    requires 0 <= a < 16 && 0 <= b < 16 && 0 <= c < 16 && 0 <= d < 16
    requires t == [BACKSLASH, LETTER_U, HexDigit(a), HexDigit(b), HexDigit(c), HexDigit(d)]
    ensures ParseBody(t + rest) == Prepend(a * 0x1000 + b * 0x100 + c * 16 + d, ParseBody(rest))
  {
    assert (t + rest)[6..] == rest;
    HexDigitRoundTrip(a);
    HexDigitRoundTrip(b);
    HexDigitRoundTrip(c);
    HexDigitRoundTrip(d);
  }

  lemma HexRoundTrip(u: CodeUnit, t: Text)
    ensures ParseBody(UnicodeEscape(u) + t) == Prepend(u, ParseBody(t))
  {
    HexSum(u);
    HexParse(UnicodeEscape(u), u / 0x1000, u / 0x100 % 16, u / 16 % 16, u % 16, t);
  }

  lemma ShortEscapeRoundTrip(u: CodeUnit)
    requires ShortEscape(u).Some?
    ensures ShortUnescape(ShortEscape(u).value) == Some(u)
    ensures ShortEscape(u).value != LETTER_U
  {
  }

  lemma ShortParse(letter: CodeUnit, u: CodeUnit, t: Text)
    requires letter != LETTER_U && ShortUnescape(letter) == Some(u)
    ensures ParseBody([BACKSLASH, letter] + t) == Prepend(u, ParseBody(t))
  {
    assert ([BACKSLASH, letter] + t)[2..] == t;
  }

  lemma VerbatimParse(u: CodeUnit, t: Text)
    requires u >= 0x20 && u != QUOTE && u != BACKSLASH
    ensures ParseBody([u] + t) == Prepend(u, ParseBody(t))
  {
    assert ([u] + t)[1..] == t;
  }

  lemma EscapeRoundTrip(u: CodeUnit, t: Text)
    ensures ParseBody(EscapeUnit(u) + t) == Prepend(u, ParseBody(t))
  {
    if ShortEscape(u).Some? {
      ShortEscapeRoundTrip(u);
      ShortParse(ShortEscape(u).value, u, t);
    } else if u < 0x20 || IsHighSurrogate(u) || IsLowSurrogate(u) {
      HexRoundTrip(u, t);
    } else {
      VerbatimParse(u, t);
    }
  }

  lemma PairRoundTrip(high: CodeUnit, low: CodeUnit, t: Text)
    requires IsHighSurrogate(high) && IsLowSurrogate(low)
    ensures ParseBody([high, low] + t) == Prepend(high, Prepend(low, ParseBody(t)))
  {
    assert ([high, low] + t)[1..] == [low] + t;
    assert ([low] + t)[1..] == t;
  }

  /** One more unit in front of a body that reads back correctly. */
  lemma UnitStep(u: CodeUnit, s: Text, body: Text, end: Text, rest: Text)
    requires ParseBody(body + end) == Some((s, rest))
    ensures ParseBody(EscapeUnit(u) + body + end) == Some(([u] + s, rest))
  {
    Assoc(EscapeUnit(u), body, end);
    EscapeRoundTrip(u, body + end);
  }

  lemma PairStep(high: CodeUnit, low: CodeUnit, s: Text, body: Text, end: Text, rest: Text)
    requires IsHighSurrogate(high) && IsLowSurrogate(low)
    requires ParseBody(body + end) == Some((s, rest))
    ensures ParseBody([high, low] + body + end) == Some(([high, low] + s, rest))
  {
    Assoc([high, low], body, end);
    PairRoundTrip(high, low, body + end);
    assert [high] + ([low] + s) == [high, low] + s;
  }

  lemma EndStep(rest: Text)
    ensures ParseBody([] + ([QUOTE] + rest)) == Some(([], rest))
  {
    var end := [QUOTE] + rest;
    assert [] + end == end && end[1..] == rest;
  }

  lemma {:induction false} StringRoundTrip(s: Text, rest: Text)
    ensures ParseBody(QuoteBody(s) + ([QUOTE] + rest)) == Some((s, rest))
  {
    if s == [] {
      EndStep(rest);
    } else if |s| >= 2 && IsHighSurrogate(s[0]) && IsLowSurrogate(s[1]) {
      StringRoundTrip(s[2..], rest);
      PairStep(s[0], s[1], s[2..], QuoteBody(s[2..]), [QUOTE] + rest, rest);
      assert s == [s[0], s[1]] + s[2..];
    } else {
      StringRoundTrip(s[1..], rest);
      UnitStep(s[0], s[1..], QuoteBody(s[1..]), [QUOTE] + rest, rest);
      assert s == [s[0]] + s[1..];
    }
  }

  // ----- Numbers

  predicate IsDigitUnit(u: CodeUnit) { 0x30 <= u <= 0x39 }

  function DigitUnits(ds: seq<Digit>): (t: Text)
    ensures |t| == |ds|
    ensures forall i | 0 <= i < |ds| :: t[i] == 0x30 + (ds[i] as int)
  {
    seq(|ds|, i requires 0 <= i < |ds| => 0x30 + (ds[i] as int))
  }

  function ShowInt(n: int): Text {
    if n < 0 then [MINUS] + DigitUnits(Show(-n)) else DigitUnits(Show(n))
  }

  /** The longest run of digits at the front, and what follows it. */
  function SpanDigits(t: Text): (r: (seq<Digit>, Text))
    ensures |r.0| + |r.1| == |t|
  {
    if t == [] || !IsDigitUnit(t[0]) then ([], t)
    else
      var (ds, rest) := SpanDigits(t[1..]);
      ([t[0] - 0x30] + ds, rest)
  }

  /** Text that cannot continue a number. */
  predicate Delimited(rest: Text) {
    rest == [] || !IsDigitUnit(rest[0])
  }

  lemma {:induction false} SpanDigitUnits(ds: seq<Digit>, rest: Text)
    requires Delimited(rest)
    ensures SpanDigits(DigitUnits(ds) + rest) == (ds, rest)
  {
    if ds == [] {
      assert DigitUnits(ds) + rest == rest;
    } else {
      SpanDigitUnits(ds[1..], rest);
      assert (DigitUnits(ds) + rest)[1..] == DigitUnits(ds[1..]) + rest;
      assert ds == [ds[0]] + ds[1..];
    }
  }

  // ----- Values

  function Print(v: Json): (t: Text)
    requires Plain(v)
    ensures t != []
    decreases v, 0
  {
    match v
    case Null => NULL_TEXT
    case Bool(b) => if b then TRUE_TEXT else FALSE_TEXT
    case Num(n) => ShowInt(n)
    case Str(s) => Quote(s)
    case Arr(items) =>
      [OPEN_BRACKET] + (if items == [] then [] else Print(items[0]) + PrintMoreItems(items[1..])) + [CLOSE_BRACKET]
    case Obj(members) =>
      [OPEN_BRACE]
      + (if members == [] then [] else PrintMember(members[0]) + PrintMoreMembers(members[1..]))
      + [CLOSE_BRACE]
  }

  function PrintMember(m: Member): Text
    requires Plain(m.value)
  {
    Quote(m.key) + [COLON] + Print(m.value)
  }

  function PrintMoreItems(items: seq<Json>): Text
    requires forall x | x in items :: Plain(x)
    decreases items
  {
    if items == [] then [] else [COMMA] + Print(items[0]) + PrintMoreItems(items[1..])
  }

  function PrintMoreMembers(members: seq<Member>): Text
    requires forall m | m in members :: Plain(m.value)
    decreases members
  {
    if members == [] then [] else [COMMA] + PrintMember(members[0]) + PrintMoreMembers(members[1..])
  }

  function ParseValue(t: Text): (r: Option<(Json, Text)>)
    ensures r.Some? ==> |r.value.1| < |t|
    decreases |t|, 0
  {
    if NULL_TEXT <= t then Some((Null, t[4..]))
    else if TRUE_TEXT <= t then Some((Bool(true), t[4..]))
    else if FALSE_TEXT <= t then Some((Bool(false), t[5..]))
    else if t == [] then None
    else if t[0] == QUOTE then
      match ParseBody(t[1..])
      case Some((s, rest)) => Some((Str(s), rest))
      case None => None
    else if t[0] == MINUS then
      var (ds, rest) := SpanDigits(t[1..]);
      if ds == [] then None else Some((Num(-(Value(ds) as int)), rest))
    else if IsDigitUnit(t[0]) then
      var (ds, rest) := SpanDigits(t);
      if ds == [] then None else Some((Num(Value(ds)), rest))
    else if t[0] == OPEN_BRACKET then
      if |t| > 1 && t[1] == CLOSE_BRACKET then Some((Arr([]), t[2..]))
      else
        match ParseValue(t[1..])
        case None => None
        case Some((x, rest)) =>
          match ParseMoreItems(rest)
          case None => None
          case Some((items, after)) => Some((Arr([x] + items), after))
    else if t[0] == OPEN_BRACE then
      if |t| > 1 && t[1] == CLOSE_BRACE then Some((Obj([]), t[2..]))
      else
        match ParseMember(t[1..])
        case None => None
        case Some((m, rest)) =>
          match ParseMoreMembers(rest)
          case None => None
          case Some((members, after)) => Some((Obj([m] + members), after))
    else None
  }

  function ParseMember(t: Text): (r: Option<(Member, Text)>)
    ensures r.Some? ==> |r.value.1| < |t|
    decreases |t|, 1
  {
    if t == [] || t[0] != QUOTE then None
    else
      match ParseBody(t[1..])
      case None => None
      case Some((key, rest)) =>
        if rest == [] || rest[0] != COLON then None
        else
          match ParseValue(rest[1..])
          case None => None
          case Some((value, after)) => Some((Member(key, value), after))
  }

  /** Reads `,value` repeatedly, then the closing bracket. */
  function ParseMoreItems(t: Text): (r: Option<(seq<Json>, Text)>)
    ensures r.Some? ==> |r.value.1| < |t|
    decreases |t|, 2
  {
    if t == [] then None
    else if t[0] == CLOSE_BRACKET then Some(([], t[1..]))
    else if t[0] != COMMA then None
    else
      match ParseValue(t[1..])
      case None => None
      case Some((x, rest)) =>
        match ParseMoreItems(rest)
        case None => None
        case Some((items, after)) => Some(([x] + items, after))
  }

  function ParseMoreMembers(t: Text): (r: Option<(seq<Member>, Text)>)
    ensures r.Some? ==> |r.value.1| < |t|
    decreases |t|, 2
  {
    if t == [] then None
    else if t[0] == CLOSE_BRACE then Some(([], t[1..]))
    else if t[0] != COMMA then None
    else
      match ParseMember(t[1..])
      case None => None
      case Some((m, rest)) =>
        match ParseMoreMembers(rest)
        case None => None
        case Some((members, after)) => Some(([m] + members, after))
  }

  /** A complete JSON text. */
  function Parse(t: Text): Option<Json> {
    match ParseValue(t)
    case Some((v, rest)) => if rest == [] then Some(v) else None
    case None => None
  }

  // ----- The parser inverts the printer

  /** The first unit decides which branch of the parser runs. */
  lemma NoKeyword(t: Text)
    requires t == [] || (t[0] != 0x6e && t[0] != 0x74 && t[0] != 0x66)
    ensures !(NULL_TEXT <= t) && !(TRUE_TEXT <= t) && !(FALSE_TEXT <= t)
  {
    if t != [] {
      assert NULL_TEXT[0] == 0x6e && TRUE_TEXT[0] == 0x74 && FALSE_TEXT[0] == 0x66;
    }
  }

  lemma NaturalRoundTrip(n: nat, rest: Text)
    requires Delimited(rest)
    ensures ParseValue(DigitUnits(Show(n)) + rest) == Some((Num(n), rest))
  {
    var ds := Show(n);
    var t := DigitUnits(ds) + rest;
    ShowThenValue(n);
    SpanDigitUnits(ds, rest);
    assert t[0] == 0x30 + (ds[0] as int);
    NoKeyword(t);
  }

  lemma NegativeRoundTrip(n: nat, rest: Text)
    requires Delimited(rest)
    ensures ParseValue([MINUS] + (DigitUnits(Show(n)) + rest)) == Some((Num(-(n as int)), rest))
  {
    var t := [MINUS] + (DigitUnits(Show(n)) + rest);
    ShowThenValue(n);
    SpanDigitUnits(Show(n), rest);
    assert t[1..] == DigitUnits(Show(n)) + rest;
    NoKeyword(t);
  }

  lemma NumberRoundTrip(n: int, rest: Text)
    requires Delimited(rest)
    ensures ParseValue(ShowInt(n) + rest) == Some((Num(n), rest))
  {
    if n < 0 {
      Assoc([MINUS], DigitUnits(Show(-n)), rest);
      NegativeRoundTrip(-n, rest);
    } else {
      NaturalRoundTrip(n, rest);
    }
  }

  lemma QuoteRoundTrip(s: Text, rest: Text)
    ensures (Quote(s) + rest)[0] == QUOTE
    ensures ParseBody((Quote(s) + rest)[1..]) == Some((s, rest))
  {
    StringRoundTrip(s, rest);
    assert (Quote(s) + rest)[1..] == QuoteBody(s) + ([QUOTE] + rest);
  }

  lemma KeywordRoundTrip(v: Json, rest: Text)
    requires v.Null? || v.Bool?
    ensures ParseValue(Print(v) + rest) == Some((v, rest))
  {
    var t := Print(v) + rest;
    assert Print(v) <= t && t[|Print(v)|..] == rest;
    assert t[0] == Print(v)[0];
    assert NULL_TEXT <= t ==> t[0] == NULL_TEXT[0];
    assert TRUE_TEXT <= t ==> t[0] == TRUE_TEXT[0];
  }

  lemma {:induction false} PrintStart(v: Json)
    requires Plain(v)
    ensures Print(v)[0] != CLOSE_BRACKET
  {
    if v.Num? && v.n >= 0 {
      assert DigitUnits(Show(v.n))[0] == 0x30 + (Show(v.n)[0] as int);
    }
  }

  /** Parsing what was printed gives back the value and leaves the rest of the text untouched. */
  lemma {:induction false} ValueRoundTrip(v: Json, rest: Text)
    requires Plain(v) && Delimited(rest)
    ensures ParseValue(Print(v) + rest) == Some((v, rest))
    decreases v, 1
  {
    match v
    case Null => KeywordRoundTrip(v, rest);
    case Bool(_) => KeywordRoundTrip(v, rest);
    case Num(n) => NumberRoundTrip(n, rest);
    case Str(s) =>
      NoKeyword(Print(v) + rest);
      QuoteRoundTrip(s, rest);
    case Arr(items) => ArrayRoundTrip(v, rest);
    case Obj(members) => ObjectRoundTrip(v, rest);
  }

  lemma ArrayStep(t: Text, x: Json, tail: Text, more: seq<Json>, rest: Text)
    requires |t| > 1 && t[0] == OPEN_BRACKET && t[1] != CLOSE_BRACKET
    requires ParseValue(t[1..]) == Some((x, tail)) && ParseMoreItems(tail) == Some((more, rest))
    ensures ParseValue(t) == Some((Arr([x] + more), rest))
  {
    NoKeyword(t);
  }

  lemma ObjectStep(t: Text, m: Member, tail: Text, more: seq<Member>, rest: Text)
    requires |t| > 1 && t[0] == OPEN_BRACE && t[1] != CLOSE_BRACE
    requires ParseMember(t[1..]) == Some((m, tail)) && ParseMoreMembers(tail) == Some((more, rest))
    ensures ParseValue(t) == Some((Obj([m] + more), rest))
  {
    NoKeyword(t);
  }

  lemma MemberStep(t: Text, key: Text, tail: Text, v: Json, rest: Text)
    requires t != [] && t[0] == QUOTE && ParseBody(t[1..]) == Some((key, tail))
    requires tail != [] && tail[0] == COLON && ParseValue(tail[1..]) == Some((v, rest))
    ensures ParseMember(t) == Some((Member(key, v), rest))
  {
  }

  lemma PrintSplits(x: Json, more: seq<Json>, rest: Text)
    requires Plain(x) && forall y | y in more :: Plain(y)
    ensures [OPEN_BRACKET] + (Print(x) + PrintMoreItems(more)) + [CLOSE_BRACKET] + rest
         == [OPEN_BRACKET] + (Print(x) + (PrintMoreItems(more) + [CLOSE_BRACKET] + rest))
  {
  }

  lemma {:induction false} ArrayRoundTrip(v: Json, rest: Text)
    requires v.Arr? && Plain(v)
    ensures ParseValue(Print(v) + rest) == Some((v, rest))
    decreases v, 0
  {
    var t := Print(v) + rest;
    if v.items == [] {
      NoKeyword(t);
      assert Print(v) == [OPEN_BRACKET, CLOSE_BRACKET];
      assert t[2..] == rest;
    } else {
      var x, more := v.items[0], v.items[1..];
      var tail := PrintMoreItems(more) + [CLOSE_BRACKET] + rest;
      assert t == [OPEN_BRACKET] + (Print(x) + tail) by { PrintSplits(x, more, rest); }
      PrintStart(x);
      ValueRoundTrip(x, tail);
      MoreItemsRoundTrip(more, rest);
      ArrayStep(t, x, tail, more, rest);
      assert [x] + more == v.items;
    }
  }

  lemma {:induction false} MoreItemsRoundTrip(items: seq<Json>, rest: Text)
    requires forall x | x in items :: Plain(x)
    ensures ParseMoreItems(PrintMoreItems(items) + [CLOSE_BRACKET] + rest) == Some((items, rest))
    decreases items
  {
    var t := PrintMoreItems(items) + [CLOSE_BRACKET] + rest;
    if items == [] {
      assert t[1..] == rest;
    } else {
      var tail := PrintMoreItems(items[1..]) + [CLOSE_BRACKET] + rest;
      assert t == [COMMA] + (Print(items[0]) + tail);
      assert t[1..] == Print(items[0]) + tail;
      ValueRoundTrip(items[0], tail);
      MoreItemsRoundTrip(items[1..], rest);
      assert [items[0]] + items[1..] == items;
    }
  }

  lemma {:induction false} ObjectRoundTrip(v: Json, rest: Text)
    requires v.Obj? && Plain(v)
    ensures ParseValue(Print(v) + rest) == Some((v, rest))
    decreases v, 0
  {
    var t := Print(v) + rest;
    if v.members == [] {
      NoKeyword(t);
      assert Print(v) == [OPEN_BRACE, CLOSE_BRACE];
      assert t[2..] == rest;
    } else {
      var m, more := v.members[0], v.members[1..];
      var tail := PrintMoreMembers(more) + [CLOSE_BRACE] + rest;
      assert t == [OPEN_BRACE] + (PrintMember(m) + tail);
      assert t[1..] == PrintMember(m) + tail;
      assert t[1] == PrintMember(m)[0] == QUOTE;
      MemberRoundTrip(m, tail);
      MoreMembersRoundTrip(more, rest);
      ObjectStep(t, m, tail, more, rest);
      assert [m] + more == v.members;
    }
  }

  lemma {:induction false} MemberRoundTrip(m: Member, rest: Text)
    requires Plain(m.value) && Delimited(rest)
    ensures ParseMember(PrintMember(m) + rest) == Some((m, rest))
    decreases m
  {
    var t := PrintMember(m) + rest;
    var tail := [COLON] + (Print(m.value) + rest);
    assert t == Quote(m.key) + tail;
    QuoteRoundTrip(m.key, tail);
    assert tail[1..] == Print(m.value) + rest;
    ValueRoundTrip(m.value, rest);
    MemberStep(t, m.key, tail, m.value, rest);
  }

  lemma {:induction false} MoreMembersRoundTrip(members: seq<Member>, rest: Text)
    requires forall m | m in members :: Plain(m.value)
    ensures ParseMoreMembers(PrintMoreMembers(members) + [CLOSE_BRACE] + rest) == Some((members, rest))
    decreases members
  {
    var t := PrintMoreMembers(members) + [CLOSE_BRACE] + rest;
    if members == [] {
      assert t[1..] == rest;
    } else {
      var tail := PrintMoreMembers(members[1..]) + [CLOSE_BRACE] + rest;
      assert t == [COMMA] + (PrintMember(members[0]) + tail);
      assert t[1..] == PrintMember(members[0]) + tail;
      MemberRoundTrip(members[0], tail);
      MoreMembersRoundTrip(members[1..], rest);
      assert [members[0]] + members[1..] == members;
    }
  }

  /** Distinct values (as lists of members, order included) print differently. */
  lemma PrintThenParse(v: Json)
    requires Plain(v)
    ensures Parse(Print(v)) == Some(v)
  {
    ValueRoundTrip(v, []);
    assert Print(v) + [] == Print(v);
  }

  // ----- The exact text

  /** ASCII text as code units. */
  function Units(s: string): (t: Text)
    requires forall i | 0 <= i < |s| :: s[i] < 128 as char
    ensures |t| == |s| && forall i | 0 <= i < |t| :: t[i] == s[i] as int
  {
    if s == "" then []
    else
      var first: CodeUnit := s[0] as int;
      [first] + Units(s[1..])
  }

  /**
   What section 7 of RFC 8259 and `JSON.stringify` prescribe for every unit that is not half of a pair: two characters
   for the seven units that have a short escape, `\\u` and four lower-case hexadecimal digits for the other control
   characters and for lone surrogates, and the unit itself for the rest.
   */
  lemma EscapeTable(u: CodeUnit)
    ensures u == 0x22 ==> EscapeUnit(u) == [0x5c, 0x22]
    ensures u == 0x5c ==> EscapeUnit(u) == [0x5c, 0x5c]
    ensures u == 0x08 ==> EscapeUnit(u) == [0x5c, 0x62]
    ensures u == 0x0c ==> EscapeUnit(u) == [0x5c, 0x66]
    ensures u == 0x0a ==> EscapeUnit(u) == [0x5c, 0x6e]
    ensures u == 0x0d ==> EscapeUnit(u) == [0x5c, 0x72]
    ensures u == 0x09 ==> EscapeUnit(u) == [0x5c, 0x74]
    ensures (u < 0x20 && u !in {0x08, 0x09, 0x0a, 0x0c, 0x0d}) || 0xd800 <= u < 0xe000 ==> IsHexEscape(u, EscapeUnit(u))
    ensures u >= 0x20 && u != 0x22 && u != 0x5c && !(0xd800 <= u < 0xe000) ==> EscapeUnit(u) == [u]
  {
    UnicodeEscapeIsHex(u);
  }

  /** A backslash, `u` and the four digits of the unit. */
  ghost predicate IsHexEscape(u: CodeUnit, t: Text) {
    && |t| == 6 && t[0] == 0x5c && t[1] == 0x75
    && exists a, b, c, d | IsDigitOf(a, t[2]) && IsDigitOf(b, t[3]) && IsDigitOf(c, t[4]) && IsDigitOf(d, t[5]) ::
         u == 0x1000 * a + 0x100 * b + 0x10 * c + d
  }

  predicate IsDigitOf(d: int, u: CodeUnit) {
    0 <= d < 16 && u == LowerHex(d)
  }

  lemma UnicodeEscapeIsHex(u: CodeUnit)
    ensures IsHexEscape(u, UnicodeEscape(u))
  {
    HexSum(u);
    FourDigits(u, u / 0x1000, u / 0x100 % 16, u / 16 % 16, u % 16);
  }

  lemma FourDigits(u: CodeUnit, a: int, b: int, c: int, d: int)
    requires 0 <= a < 16 && 0 <= b < 16 && 0 <= c < 16 && 0 <= d < 16
    requires u == a * 0x1000 + b * 0x100 + c * 16 + d
    ensures IsHexEscape(u, [0x5c, 0x75, HexDigit(a), HexDigit(b), HexDigit(c), HexDigit(d)])
  {
    var t := [0x5c, 0x75, HexDigit(a), HexDigit(b), HexDigit(c), HexDigit(d)];
    assert IsDigitOf(a, t[2]) && IsDigitOf(b, t[3]) && IsDigitOf(c, t[4]) && IsDigitOf(d, t[5]);
  }

  /** The body of a string, unit by unit, except that surrogate pairs are printed as they are. */
  lemma BodyTable(s: Text)
    ensures s == [] ==> QuoteBody(s) == []
    ensures |s| >= 2 && 0xd800 <= s[0] < 0xdc00 && 0xdc00 <= s[1] < 0xe000 ==>
      QuoteBody(s) == s[..2] + QuoteBody(s[2..])
    ensures s != [] && !(|s| >= 2 && 0xd800 <= s[0] < 0xdc00 && 0xdc00 <= s[1] < 0xe000) ==>
      QuoteBody(s) == EscapeUnit(s[0]) + QuoteBody(s[1..])
  {
    if |s| >= 2 && IsHighSurrogate(s[0]) && IsLowSurrogate(s[1]) {
      assert s[..2] == [s[0], s[1]];
    }
  }

  /** 0 to 9, then a to f. */
  function LowerHex(d: int): CodeUnit
    requires 0 <= d < 16
  {
    [0x30, 0x31, 0x32, 0x33, 0x34, 0x35, 0x36, 0x37, 0x38, 0x39, 0x61, 0x62, 0x63, 0x64, 0x65, 0x66][d]
  }

  /** Texts of a list, separated by commas. */
  function CommaSeparated(texts: seq<Text>): Text {
    if |texts| == 0 then [] else if |texts| == 1 then texts[0] else texts[0] + [0x2c] + CommaSeparated(texts[1..])
  }

  function Prints(items: seq<Json>): (r: seq<Text>)
    requires forall x | x in items :: Plain(x)
    ensures |r| == |items| && forall i | 0 <= i < |r| :: r[i] == Print(items[i])
  {
    if items == [] then [] else [Print(items[0])] + Prints(items[1..])
  }

  function MemberPrints(members: seq<Member>): (r: seq<Text>)
    requires forall m | m in members :: Plain(m.value)
    ensures |r| == |members|
    ensures forall i | 0 <= i < |r| ::
              r[i] == [0x22] + QuoteBody(members[i].key) + [0x22, 0x3a] + Print(members[i].value)
  {
    if members == [] then []
    else
      MemberPrintIs(members[0]);
      [PrintMember(members[0])] + MemberPrints(members[1..])
  }

  lemma MemberPrintIs(m: Member)
    requires Plain(m.value)
    ensures PrintMember(m) == [0x22] + QuoteBody(m.key) + [0x22, 0x3a] + Print(m.value)
  {
  }

  lemma CommaCons(text: Text, texts: seq<Text>)
    ensures CommaSeparated([text] + texts) == if texts == [] then text else text + ([0x2c] + CommaSeparated(texts))
  {
    assert ([text] + texts)[1..] == texts;
    if texts != [] {
      Assoc(text, [0x2c], CommaSeparated(texts));
    }
  }

  lemma {:induction false} ItemsAreSeparated(x: Json, items: seq<Json>)
    requires Plain(x) && forall y | y in items :: Plain(y)
    ensures Print(x) + PrintMoreItems(items) == CommaSeparated(Prints([x] + items))
    decreases items
  {
    assert ([x] + items)[1..] == items;
    assert Prints([x] + items) == [Print(x)] + Prints(items);
    CommaCons(Print(x), Prints(items));
    if items == [] {
      assert Print(x) + [] == Print(x);
    } else {
      ItemsAreSeparated(items[0], items[1..]);
      assert [items[0]] + items[1..] == items;
      Assoc([COMMA], Print(items[0]), PrintMoreItems(items[1..]));
    }
  }

  lemma {:induction false} MembersAreSeparated(m: Member, members: seq<Member>)
    requires Plain(m.value) && forall x | x in members :: Plain(x.value)
    ensures PrintMember(m) + PrintMoreMembers(members) == CommaSeparated(MemberPrints([m] + members))
    decreases members
  {
    assert ([m] + members)[1..] == members;
    assert MemberPrints([m] + members) == [PrintMember(m)] + MemberPrints(members);
    CommaCons(PrintMember(m), MemberPrints(members));
    if members == [] {
      assert PrintMember(m) + [] == PrintMember(m);
    } else {
      MembersAreSeparated(members[0], members[1..]);
      assert [members[0]] + members[1..] == members;
      Assoc([COMMA], PrintMember(members[0]), PrintMoreMembers(members[1..]));
    }
  }

  /** The grammar of the printed text, in the characters of sections 2 to 7 of RFC 8259 and without any white space. */
  lemma PrintIsCompact(v: Json)
    requires Plain(v)
    ensures v.Null? ==> Print(v) == Units("null")
    ensures v.Bool? ==> Print(v) == Units(if v.b then "true" else "false")
    ensures v.Num? ==> Print(v) == (if v.n < 0 then Units("-") + DigitUnits(Show(-v.n)) else DigitUnits(Show(v.n)))
    ensures v.Str? ==> Print(v) == [0x22] + QuoteBody(v.s) + [0x22]
    ensures v.Arr? ==> Print(v) == [0x5b] + CommaSeparated(Prints(v.items)) + [0x5d]
    ensures v.Obj? ==> Print(v) == [0x7b] + CommaSeparated(MemberPrints(v.members)) + [0x7d]
  {
    match v
    case Arr(items) => ArrayIsSeparated(items);
    case Obj(members) => ObjectIsSeparated(members);
    case _ =>
  }

  lemma ArrayIsSeparated(items: seq<Json>)
    requires forall x | x in items :: Plain(x)
    ensures Print(Arr(items)) == [0x5b] + CommaSeparated(Prints(items)) + [0x5d]
  {
    if items != [] {
      ItemsAreSeparated(items[0], items[1..]);
      assert [items[0]] + items[1..] == items;
    }
  }

  lemma ObjectIsSeparated(members: seq<Member>)
    requires forall m | m in members :: Plain(m.value)
    ensures Print(Obj(members)) == [0x7b] + CommaSeparated(MemberPrints(members)) + [0x7d]
  {
    if members != [] {
      MembersAreSeparated(members[0], members[1..]);
      assert [members[0]] + members[1..] == members;
    }
  }
}
