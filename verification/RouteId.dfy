/**
 The bytes that are hashed into a route id: a domain, then every part behind its length in four little-endian
 bytes.  The hash itself is an arbitrary function.
 */
module RouteId {
  import opened Basics
  import opened Bytes

  /** What `bnToU8a` answers when the number needs more bytes than it was given. */
  datatype Error = DoesNotFit(n: nat, width: nat)

  /** The fields a route id commits to. */
  datatype Route = Route(
    separator: seq<Byte>, owner: seq<Byte>, hostnameHash: seq<Byte>, routeClassId: nat, salt: seq<Byte>)

  /** `bnToU8a(n, { bitLength: 8 * width, isLe: true })` for unsigned numbers. */
  function BnToU8a(n: nat, width: nat): Result<seq<Byte>, Error> {
    if n < Pow256(width) then Ok(LeBytes(n, width)) else Err(DoesNotFit(n, width))
  }

  // ----- Encoding

  predicate Short(part: seq<Byte>) {
    |part| < Pow256(4)
  }

  predicate AllShort(parts: seq<seq<Byte>>) {
    forall i :: 0 <= i < |parts| ==> Short(parts[i])
  }

  function EncodePart(part: seq<Byte>): seq<Byte> {
    LeBytes(|part|, 4) + part
  }

  function EncodeParts(parts: seq<seq<Byte>>): seq<Byte> {
    if parts == [] then [] else EncodePart(parts[0]) + EncodeParts(parts[1..])
  }

  function Concat(segments: seq<seq<Byte>>): seq<Byte> {
    if segments == [] then [] else Concat(segments[..|segments| - 1]) + segments[|segments| - 1]
  }

  lemma {:induction false} EncodeOneMore(parts: seq<seq<Byte>>, part: seq<Byte>)
    ensures EncodeParts(parts + [part]) == EncodeParts(parts) + EncodePart(part)
  {
    if parts == [] {
      assert [part][1..] == [] && [] + [part] == [part];
    } else {
      assert (parts + [part])[1..] == parts[1..] + [part];
      EncodeOneMore(parts[1..], part);
    }
  }

  lemma ConcatTwoMore(segments: seq<seq<Byte>>, a: seq<Byte>, b: seq<Byte>)
    ensures Concat(segments + [a, b]) == Concat(segments) + (a + b)
  {
    assert (segments + [a, b])[..|segments| + 1] == segments + [a];
    assert (segments + [a])[..|segments|] == segments;
  }

  lemma PushedPart(segments: seq<seq<Byte>>, domain: seq<Byte>, parts: seq<seq<Byte>>, i: nat)
    requires i < |parts| && Concat(segments) == domain + EncodeParts(parts[..i])
    ensures Concat(segments + [LeBytes(|parts[i]|, 4), parts[i]]) == domain + EncodeParts(parts[..i + 1])
  {
    ConcatTwoMore(segments, LeBytes(|parts[i]|, 4), parts[i]);
    EncodeOneMore(parts[..i], parts[i]);
    assert parts[..i + 1] == parts[..i] + [parts[i]];
    Assoc(domain, EncodeParts(parts[..i]), EncodePart(parts[i]));
  }

  /**
   Pushes a length and a part for every part and hashes the concatenation.  Fails exactly when some part is
   too long for its four length bytes.
   */
  method DomainHash<H>(hash: seq<Byte> -> H, domain: seq<Byte>, parts: seq<seq<Byte>>) returns (r: Result<H, Error>)
    ensures r.Ok? <==> AllShort(parts)
    ensures r.Ok? ==> r.value == hash(domain + EncodeParts(parts))
  {
    var segments := [domain];
    assert segments[..0] == [];
    for i := 0 to |parts|
      invariant AllShort(parts[..i])
      invariant Concat(segments) == domain + EncodeParts(parts[..i])
    {
      var length := BnToU8a(|parts[i]|, 4);
      if length.Err? {
        assert !Short(parts[i]);
        return Err(length.error);
      }
      PushedPart(segments, domain, parts, i);
      segments := segments + [length.value, parts[i]];
    }
    assert parts[..|parts|] == parts;
    r := Ok(hash(Concat(segments)));
  }

  // ----- Decoding

  function DecodeParts(bytes: seq<Byte>): Option<seq<seq<Byte>>>
    decreases |bytes|
  {
    if bytes == [] then Some([])
    else if |bytes| < 4 then None
    else
      var length := LeValue(bytes[..4]);
      if |bytes| - 4 < length then None
      else
        match DecodeParts(bytes[4 + length..])
        case None => None
        case Some(rest) => Some([bytes[4..4 + length]] + rest)
  }

  lemma {:induction false} EncodeThenDecode(parts: seq<seq<Byte>>)
    requires AllShort(parts)
    ensures DecodeParts(EncodeParts(parts)) == Some(parts)
  {
    if parts != [] {
      var part, rest := parts[0], EncodeParts(parts[1..]);
      var bytes := EncodePart(part) + rest;
      assert AllShort(parts[1..]);
      EncodeThenDecode(parts[1..]);
      assert bytes[..4] == LeBytes(|part|, 4);
      LeBytesThenValue(|part|, 4);
      assert bytes[4..4 + |part|] == part;
      assert bytes[4 + |part|..] == rest;
      assert parts == [part] + parts[1..];
    }
  }

  lemma FirstPartSplits(bytes: seq<Byte>)
    requires |bytes| >= 4 && 4 + LeValue(bytes[..4]) <= |bytes|
    ensures var end := 4 + LeValue(bytes[..4]);
            Short(bytes[4..end]) && EncodePart(bytes[4..end]) + bytes[end..] == bytes
  {
    LeValueThenBytes(bytes[..4]);
  }

  lemma {:induction false} DecodeThenEncode(bytes: seq<Byte>)
    requires DecodeParts(bytes).Some?
    ensures AllShort(DecodeParts(bytes).value)
    ensures EncodeParts(DecodeParts(bytes).value) == bytes
    decreases |bytes|
  {
    if bytes != [] {
      var end := 4 + LeValue(bytes[..4]);
      DecodeThenEncode(bytes[end..]);
      FirstPartSplits(bytes);
      var rest := DecodeParts(bytes[end..]).value;
      assert ([bytes[4..end]] + rest)[1..] == rest;
    }
  }

  /** For a fixed domain the hashed bytes and the list of parts determine each other. */
  lemma PreimageDecodesIff(bytes: seq<Byte>, parts: seq<seq<Byte>>)
    ensures DecodeParts(bytes) == Some(parts) <==> AllShort(parts) && EncodeParts(parts) == bytes
  {
    if DecodeParts(bytes) == Some(parts) {
      DecodeThenEncode(bytes);
    }
    if AllShort(parts) && EncodeParts(parts) == bytes {
      EncodeThenDecode(parts);
    }
  }

  // ----- Which domains separate

  lemma EncodeConcat(a: seq<seq<Byte>>, b: seq<seq<Byte>>)
    ensures EncodeParts(a + b) == EncodeParts(a) + EncodeParts(b)
    decreases |b|
  {
    if b == [] {
      assert a + b == a;
    } else {
      var n := |b| - 1;
      assert a + b == (a + b[..n]) + [b[n]] && b == b[..n] + [b[n]];
      EncodeConcat(a, b[..n]);
      EncodeOneMore(a + b[..n], b[n]);
      EncodeOneMore(b[..n], b[n]);
    }
  }

  lemma EncodeSingle(part: seq<Byte>)
    ensures EncodeParts([part]) == EncodePart(part)
  {
    assert [part][1..] == [];
  }

  /** The bytes decode once the parts `p` are appended. */
  ghost predicate Completes(bytes: seq<Byte>, p: seq<seq<Byte>>) {
    AllShort(p) && DecodeParts(bytes + EncodeParts(p)).Some?
  }

  function Blank(n: nat): (part: seq<Byte>)
    ensures |part| == n
  {
    seq(n, _ => 0)
  }

  /** Many bytes are missing: a blank part of that many, its own header included. */
  lemma CompleteLongContent(bytes: seq<Byte>, missing: nat)
    requires |bytes| >= 4 && LeValue(bytes[..4]) == |bytes| - 4 + missing && missing >= 4
    ensures Completes(bytes, [Blank(missing - 4)])
  {
    var part := Blank(missing - 4);
    LeValueThenBytes(bytes[..4]);
    EncodeSingle(part);
    OneMorePart(bytes, EncodePart(part), []);
  }

  /** A blank part of up to three bytes: that many bytes, then an empty part. */
  lemma ShortPart(n: nat)
    requires 0 < n < 4
    ensures Short(Blank(n)) && EncodePart(Blank(n)) == EncodePart(Blank(n))[..n] + LeBytes(0, 4)
  {
    Pow256Is();
    SmallHeader(n);
    assert EncodePart(Blank(n))[n..] == LeBytes(n, 4)[n..] + Blank(n);
  }

  /** Up to three bytes are missing: a blank part of that many, whose header supplies them. */
  lemma CompleteShortContent(bytes: seq<Byte>, missing: nat)
    requires |bytes| >= 4 && LeValue(bytes[..4]) == |bytes| - 4 + missing && 0 < missing < 4
    ensures Completes(bytes, [Blank(missing)])
  {
    var encoded := EncodePart(Blank(missing));
    EncodeSingle(Blank(missing));
    ShortPart(missing);
    DecodeEmptyPart();
    OneMorePart(bytes, encoded[..missing], LeBytes(0, 4));
    Assoc(bytes, encoded[..missing], LeBytes(0, 4));
  }

  /** What completes a part, followed by decodable bytes, decodes. */
  lemma OneMorePart(bytes: seq<Byte>, rest: seq<Byte>, after: seq<Byte>)
    requires |bytes| >= 4 && LeValue(bytes[..4]) == |bytes| - 4 + |rest| && DecodeParts(after).Some?
    ensures DecodeParts(bytes + rest + after).Some?
    ensures bytes + rest + [] == bytes + rest
  {
    var whole := bytes + rest + after;
    assert whole[..4] == bytes[..4];
    assert whole[4 + LeValue(whole[..4])..] == after;
  }

  /** Bytes that stop inside the content of a part: the missing bytes can be supplied by one more part. */
  lemma CompleteContent(bytes: seq<Byte>) returns (p: seq<seq<Byte>>)
    requires |bytes| >= 4 && LeValue(bytes[..4]) > |bytes| - 4
    ensures Completes(bytes, p)
  {
    var missing := LeValue(bytes[..4]) - (|bytes| - 4);
    if missing >= 4 {
      CompleteLongContent(bytes, missing);
      p := [Blank(missing - 4)];
    } else {
      CompleteShortContent(bytes, missing);
      p := [Blank(missing)];
    }
  }

  lemma ZeroBytes(width: nat)
    ensures forall i | 0 <= i < width :: LeBytes(0, width)[i] == 0
  {
    if width > 0 {
      ZeroBytes(width - 1);
    }
  }

  lemma SmallHeader(n: nat)
    requires 0 < n < 4
    ensures LeBytes(n, 4)[n..] + Blank(n) == LeBytes(0, 4)
  {
    assert LeBytes(n, 4) == [n] + LeBytes(0, 3);
    ZeroBytes(3);
    ZeroBytes(4);
  }

  /** Four zero bytes are one empty part. */
  lemma DecodeEmptyPart()
    ensures DecodeParts(LeBytes(0, 4)).Some?
  {
    EncodeThenDecode([[]]);
    EncodeSingle([]);
    assert EncodePart([]) == LeBytes(0, 4);
  }

  /** A header whose second, third or last byte is 255 announces at least 65280 bytes. */
  lemma LongHeader(header: seq<Byte>, k: nat)
    requires |header| == 4 && 1 <= k < 4 && header[k] == 255
    ensures LeValue(header) >= 255 * 256
  {
    assert LeValue(header) == header[0] + 256 * LeValue(header[1..]);
    assert LeValue(header[1..]) == header[1] + 256 * LeValue(header[2..]);
    assert LeValue(header[2..]) == header[2] + 256 * LeValue(header[3..]);
    assert LeValue(header[3..]) == header[3] + 256 * LeValue(header[4..]);
  }

  lemma FillerAnnouncesMuch(bytes: seq<Byte>, part: seq<Byte>)
    requires 0 < |bytes| < 4 && |part| == 255
    ensures LeValue((bytes + EncodePart(part))[..4]) >= 255 * 256
  {
    var header := (bytes + EncodePart(part))[..4];
    assert header[|bytes|] == EncodePart(part)[0] == LeBytes(255, 4)[0] == 255;
    LongHeader(header, |bytes|);
  }

  lemma PartsInFront(bytes: seq<Byte>, part: seq<Byte>, q: seq<seq<Byte>>)
    requires |part| < 256 && Completes(bytes + EncodePart(part), q)
    ensures Completes(bytes, [part] + q)
  {
    Pow256Is();
    EncodeConcat([part], q);
    EncodeSingle(part);
    Assoc(bytes, EncodePart(part), EncodeParts(q));
  }

  /** Bytes that stop inside a length: a part of 255 bytes makes them stop inside the content of a long part. */
  lemma CompleteHeader(bytes: seq<Byte>) returns (p: seq<seq<Byte>>)
    requires 0 < |bytes| < 4
    ensures Completes(bytes, p)
  {
    var part := Blank(255);
    FillerAnnouncesMuch(bytes, part);
    var q := CompleteContent(bytes + EncodePart(part));
    p := [part] + q;
    PartsInFront(bytes, part, q);
  }

  /** Any bytes whatever are the beginning of some encoded parts, and what is missing can be encoded parts again. */
  lemma Complete(bytes: seq<Byte>) returns (p: seq<seq<Byte>>)
    ensures Completes(bytes, p)
    decreases |bytes|
  {
    if bytes == [] {
      p := [];
      assert bytes + EncodeParts(p) == [];
    } else if |bytes| < 4 {
      p := CompleteHeader(bytes);
    } else {
      var end := 4 + LeValue(bytes[..4]);
      if end > |bytes| {
        p := CompleteContent(bytes);
      } else {
        p := Complete(bytes[end..]);
        var whole := bytes + EncodeParts(p);
        assert whole[..4] == bytes[..4];
        assert whole[end..] == bytes[end..] + EncodeParts(p);
      }
    }
  }

  ghost predicate Collide(d1: seq<Byte>, p1: seq<seq<Byte>>, d2: seq<Byte>, p2: seq<seq<Byte>>) {
    AllShort(p1) && AllShort(p2) && d1 + EncodeParts(p1) == d2 + EncodeParts(p2)
  }

  /** A domain collides with every longer one that begins with it: the domain carries no length of its own. */
  lemma PrefixCollides(d1: seq<Byte>, d2: seq<Byte>) returns (p1: seq<seq<Byte>>, p2: seq<seq<Byte>>)
    requires d1 < d2
    ensures Collide(d1, p1, d2, p2)
  {
    var rest := d2[|d1|..];
    p2 := Complete(rest);
    var bytes := rest + EncodeParts(p2);
    p1 := DecodeParts(bytes).value;
    DecodeThenEncode(bytes);
    assert d2 == d1 + rest;
    assert d1 + bytes == d2 + EncodeParts(p2);
  }

  /** Different domains never give the same hashed bytes exactly when neither is the beginning of the other. */
  lemma DomainsSeparateIff(d1: seq<Byte>, d2: seq<Byte>)
    requires d1 != d2
    ensures (forall p1, p2 :: !Collide(d1, p1, d2, p2)) <==> !(d1 < d2) && !(d2 < d1)
  {
    if d1 < d2 {
      var p1, p2 := PrefixCollides(d1, d2);
    } else if d2 < d1 {
      var p2, p1 := PrefixCollides(d2, d1);
      assert Collide(d1, p1, d2, p2);
    } else {
      forall p1, p2 ensures !Collide(d1, p1, d2, p2) {
        if Collide(d1, p1, d2, p2) {
          CommonBytesArePrefixes(d1, EncodeParts(p1), d2, EncodeParts(p2));
        }
      }
    }
  }

  lemma CommonBytesArePrefixes(a: seq<Byte>, x: seq<Byte>, b: seq<Byte>, y: seq<Byte>)
    requires a + x == b + y
    ensures a <= b || b <= a
  {
    if |a| <= |b| {
      assert a == (a + x)[..|a|] == (b + y)[..|a|] == b[..|a|];
    } else {
      assert b == (b + y)[..|b|] == (a + x)[..|b|] == a[..|b|];
    }
  }

  /** The hashed bytes determine the parts and the domain, for domains of which neither begins another. */
  lemma HashedBytesDetermine(d1: seq<Byte>, p1: seq<seq<Byte>>, d2: seq<Byte>, p2: seq<seq<Byte>>)
    requires !(d1 < d2) && !(d2 < d1) && AllShort(p1) && AllShort(p2)
    ensures d1 + EncodeParts(p1) == d2 + EncodeParts(p2) <==> d1 == d2 && p1 == p2
  {
    if d1 == d2 {
      SameTail(d1, EncodeParts(p1), EncodeParts(p2));
      EncodeThenDecode(p1);
      EncodeThenDecode(p2);
    } else {
      DomainsSeparateIff(d1, d2);
      assert !Collide(d1, p1, d2, p2);
    }
  }

  // ----- Route ids

  function RouteParts(route: Route): seq<seq<Byte>> {
    [route.separator, route.owner, route.hostnameHash, LeBytes(route.routeClassId, 2), route.salt]
  }

  /** The routes whose id can be derived at all. */
  predicate Derivable(route: Route) {
    && route.routeClassId < Pow256(2)
    && Short(route.separator) && Short(route.owner) && Short(route.hostnameHash) && Short(route.salt)
  }

  const ROUTE_ID_DOMAIN := "proof-ingress/route-id/v1"

  predicate IsAscii(text: string) {
    forall i :: 0 <= i < |text| ==> text[i] < 128 as char
  }

  /** `stringToU8a` of ASCII text. */
  function Ascii(text: string): (bytes: seq<Byte>)
    requires IsAscii(text)
  {
    if text == "" then []
    else
      var first: Byte := text[0] as int;
      [first] + Ascii(text[1..])
  }

  method DeriveRouteIdFromSeparator<H>(hash: seq<Byte> -> H, route: Route) returns (r: Result<H, Error>)
    ensures r.Ok? <==> Derivable(route)
    ensures r.Ok? ==> r.value == hash(Ascii(ROUTE_ID_DOMAIN) + EncodeParts(RouteParts(route)))
  {
    var classEncoded := BnToU8a(route.routeClassId, 2);
    if classEncoded.Err? {
      return Err(classEncoded.error);
    }
    RoutePartsShort(route);
    var parts := [route.separator, route.owner, route.hostnameHash, classEncoded.value, route.salt];
    assert parts == RouteParts(route);
    r := DomainHash(hash, Ascii(ROUTE_ID_DOMAIN), parts);
  }

  lemma RoutePartsShort(route: Route)
    ensures AllShort(RouteParts(route))
            <==> Short(route.separator) && Short(route.owner) && Short(route.hostnameHash) && Short(route.salt)
  {
    Pow256Is();
    var ps := RouteParts(route);
    assert Short(ps[3]);
    if AllShort(ps) {
      assert Short(ps[0]) && Short(ps[1]) && Short(ps[2]) && Short(ps[4]);
    }
  }

  /** The reader of a route-id pre-image (behind its domain). */
  function DecodeRoute(bytes: seq<Byte>): Option<Route> {
    match DecodeParts(bytes)
    case None => None
    case Some(ps) =>
      if |ps| == 5 && |ps[3]| == 2 then Some(Route(ps[0], ps[1], ps[2], LeValue(ps[3]), ps[4])) else None
  }

  /** Every field of a route is recoverable from its pre-image, and only pre-images decode. */
  lemma RouteDecodesIff(bytes: seq<Byte>, route: Route)
    ensures DecodeRoute(bytes) == Some(route) <==> Derivable(route) && EncodeParts(RouteParts(route)) == bytes
  {
    RoutePartsShort(route);
    PreimageDecodesIff(bytes, RouteParts(route));
    if DecodeRoute(bytes) == Some(route) {
      var ps := DecodeParts(bytes).value;
      LeValueThenBytes(ps[3]);
      assert ps == RouteParts(route);
    }
    if Derivable(route) && EncodeParts(RouteParts(route)) == bytes {
      LeBytesThenValue(route.routeClassId, 2);
    }
  }

  /** Behind the one domain, different routes are hashed from different bytes. */
  lemma RoutePreimageInjective(domain: seq<Byte>, a: Route, b: Route)
    requires Derivable(a) && Derivable(b)
    ensures domain + EncodeParts(RouteParts(a)) == domain + EncodeParts(RouteParts(b)) <==> a == b
  {
    RouteDecodesIff(EncodeParts(RouteParts(a)), a);
    RouteDecodesIff(EncodeParts(RouteParts(b)), b);
    SameTail(domain, EncodeParts(RouteParts(a)), EncodeParts(RouteParts(b)));
  }

  lemma SameTail(domain: seq<Byte>, x: seq<Byte>, y: seq<Byte>)
    ensures domain + x == domain + y <==> x == y
  {
    assert (domain + x)[|domain|..] == x && (domain + y)[|domain|..] == y;
  }

  // ----- The exact bytes

  /** A length in four bytes, least significant first. */
  function Length4(n: nat): seq<Byte> {
    [n % 0x100, n / 0x100 % 0x100, n / 0x1_0000 % 0x100, n / 0x100_0000 % 0x100]
  }

  lemma LengthIs(n: nat)
    ensures LeBytes(n, 4) == Length4(n)
  {
    var a, b, c := n / 256, n / 256 / 256, n / 256 / 256 / 256;
    assert LeBytes(n, 4) == [n % 256] + LeBytes(a, 3);
    assert LeBytes(a, 3) == [a % 256] + LeBytes(b, 2);
    assert LeBytes(b, 2) == [b % 256] + LeBytes(c, 1);
    assert LeBytes(c, 1) == [c % 256] + LeBytes(c / 256, 0);
    assert b == n / 0x1_0000 && c == n / 0x100_0000;
  }

  lemma ClassIs(n: nat)
    requires n < 0x1_0000
    ensures LeBytes(n, 2) == [n % 0x100, n / 0x100]
  {
    assert LeBytes(n, 2) == [n % 256] + LeBytes(n / 256, 1);
    assert LeBytes(n / 256, 1) == [n / 256 % 256] + LeBytes(n / 256 / 256, 0);
  }

  lemma EncodeFive(a: seq<Byte>, b: seq<Byte>, c: seq<Byte>, d: seq<Byte>, e: seq<Byte>)
    ensures EncodeParts([a, b, c, d, e])
         == EncodePart(a) + (EncodePart(b) + (EncodePart(c) + (EncodePart(d) + EncodePart(e))))
  {
    EncodeSingle(e);
    assert [d, e][1..] == [e] && [c, d, e][1..] == [d, e] && [b, c, d, e][1..] == [c, d, e];
    assert [a, b, c, d, e][1..] == [b, c, d, e];
    assert EncodeParts([d, e]) == EncodePart(d) + EncodeParts([e]);
    assert EncodeParts([c, d, e]) == EncodePart(c) + EncodeParts([d, e]);
    assert EncodeParts([b, c, d, e]) == EncodePart(b) + EncodeParts([c, d, e]);
  }

  /**
   The pre-image of a route id behind its domain: separator, owner, hostname hash, the class id in two bytes, least
   significant first, and the salt, each behind its length.
   */
  lemma RoutePreimageIs(route: Route)
    requires Derivable(route)
    ensures EncodeParts(RouteParts(route))
         == Length4(|route.separator|) + route.separator
            + (Length4(|route.owner|) + route.owner
               + (Length4(|route.hostnameHash|) + route.hostnameHash
                  + ([2, 0, 0, 0] + [route.routeClassId % 0x100, route.routeClassId / 0x100]
                     + (Length4(|route.salt|) + route.salt))))
  {
    Pow256Is();
    EncodeFive(route.separator, route.owner, route.hostnameHash, LeBytes(route.routeClassId, 2), route.salt);
    LengthIs(|route.separator|);
    LengthIs(|route.owner|);
    LengthIs(|route.hostnameHash|);
    LengthIs(2);
    LengthIs(|route.salt|);
    ClassIs(route.routeClassId);
  }

  lemma {:induction false} AsciiIs(text: string)
    requires IsAscii(text)
    ensures |Ascii(text)| == |text| && forall i | 0 <= i < |text| :: Ascii(text)[i] == text[i] as int
  {
    if text != "" {
      AsciiIs(text[1..]);
    }
  }

  /** The domain is the text `proof-ingress/route-id/v1`, byte for byte. */
  lemma RouteDomainIs()
    ensures var text := "proof-ingress/route-id/v1";
      && |Ascii(ROUTE_ID_DOMAIN)| == |text|
      && forall i | 0 <= i < |text| :: Ascii(ROUTE_ID_DOMAIN)[i] == text[i] as int
  {
    AsciiIs(ROUTE_ID_DOMAIN);
  }
}
