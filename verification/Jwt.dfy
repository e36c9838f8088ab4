/** base64url without padding, and HS256 tokens in compact form signed and verified with it. */
module Jwt {
  import opened JsText
  import opened Options

  type Byte = b: int | 0 <= b < 256
  type Bytes = seq<Byte>
  type Sextet = v: int | 0 <= v < 64

  // ---- Base64 ----

  /** The standard alphabet of section 4 of RFC 4648. */
  function StdChar(v: Sextet): char {
    if v < 26 then ('A' as int + v) as char
    else if v < 52 then ('a' as int + v - 26) as char
    else if v < 62 then ('0' as int + v - 52) as char
    else if v == 62 then '+'
    else '/'
  }

  function StdValue(c: char): Option<Sextet> {
    if 'A' <= c <= 'Z' then Some(c as int - 'A' as int)
    else if 'a' <= c <= 'z' then Some(c as int - 'a' as int + 26)
    else if '0' <= c <= '9' then Some(c as int - '0' as int + 52)
    else if c == '+' then Some(62)
    else if c == '/' then Some(63)
    else None
  }

  function Sextets(b: Bytes): seq<Sextet> {
    if b == [] then []
    else if |b| == 1 then [b[0] / 4, b[0] % 4 * 16]
    else if |b| == 2 then [b[0] / 4, b[0] % 4 * 16 + b[1] / 16, b[1] % 16 * 4]
    else [b[0] / 4, b[0] % 4 * 16 + b[1] / 16, b[1] % 16 * 4 + b[2] / 64, b[2] % 64] + Sextets(b[3..])
  }

  function Chars(vs: seq<Sextet>): string {
    if vs == [] then "" else [StdChar(vs[0])] + Chars(vs[1..])
  }

  /** Buffer.toString("base64") */
  function ToBase64(b: Bytes): string {
    Chars(Sextets(b)) + if |b| % 3 == 1 then "==" else if |b| % 3 == 2 then "=" else ""
  }

  /** The values of the alphabet characters of a text up to its first padding; anything else is skipped. */
  function Values(s: string): seq<Sextet> {
    if s == "" || s[0] == '=' then [] else ValueOf(s[0]) + Values(s[1..])
  }

  function ValueOf(c: char): seq<Sextet> {
    if StdValue(c).Some? then [StdValue(c).value] else []
  }

  function High(a: Sextet, b: Sextet): Byte {
    4 * (a as int) + (b as int) / 16
  }

  function Middle(b: Sextet, c: Sextet): Byte {
    16 * ((b as int) % 16) + (c as int) / 4
  }

  function Low(c: Sextet, d: Sextet): Byte {
    64 * ((c as int) % 4) + (d as int)
  }

  function Regroup(vs: seq<Sextet>): Bytes {
    if |vs| < 2 then []
    else if |vs| == 2 then [High(vs[0], vs[1])]
    else if |vs| == 3 then [High(vs[0], vs[1]), Middle(vs[1], vs[2])]
    else [High(vs[0], vs[1]), Middle(vs[1], vs[2]), Low(vs[2], vs[3])] + Regroup(vs[4..])
  }

  /** Buffer.from(s, "base64") */
  function FromBase64(s: string): Bytes {
    Regroup(Values(s))
  }

  // ---- base64url ----

  function UrlChar(c: char): char {
    if c == '+' then '-' else if c == '/' then '_' else c
  }

  function StdOf(c: char): char {
    if c == '-' then '+' else if c == '_' then '/' else c
  }

  function ToUrl(s: string): string {
    if s == "" then "" else [UrlChar(s[0])] + ToUrl(s[1..])
  }

  function ToStd(s: string): (t: string)
    ensures |t| == |s|
  {
    if s == "" then "" else [StdOf(s[0])] + ToStd(s[1..])
  }

  function Unpadded(s: string): string {
    if s != "" && s[|s| - 1] == '=' then Unpadded(s[..|s| - 1]) else s
  }

  function Padded(s: string): string {
    s + if |s| % 4 == 0 then "" else if |s| % 4 == 1 then "===" else if |s| % 4 == 2 then "==" else "="
  }

  function Encode(b: Bytes): string {
    Unpadded(ToUrl(ToBase64(b)))
  }

  function Decode(s: string): Bytes {
    FromBase64(Padded(ToStd(s)))
  }

  /** base64urlEncode: strip the padding character by character. */
  method Base64UrlEncode(data: Bytes) returns (s: string)
    ensures s == Encode(data)
  {
    s := ToUrl(ToBase64(data));
    while s != "" && s[|s| - 1] == '='
      invariant Unpadded(s) == Encode(data)
      decreases |s|
    {
      s := s[..|s| - 1];
    }
  }

  /** base64urlDecode: pad to a multiple of four. */
  method Base64UrlDecode(str: string) returns (data: Bytes)
    ensures data == Decode(str)
  {
    var base64 := ToStd(str);
    while |base64| % 4 != 0
      invariant |str| <= |base64| < |str| + 4
      invariant |base64| > |str| ==> |str| % 4 != 0 && |base64| <= |str| + 4 - |str| % 4
      invariant base64 == ToStd(str) + seq(|base64| - |str|, _ => '=')
      decreases |str| + 4 - |base64|
    {
      base64 := base64 + "=";
    }
    assert base64 == Padded(ToStd(str));
    data := FromBase64(base64);
  }

  // ---- Decoding inverts encoding ----

  lemma {:induction false} RegroupSextets(b: Bytes)
    ensures Regroup(Sextets(b)) == b
  {
    if |b| >= 3 {
      RegroupSextets(b[3..]);
      var head := [b[0] / 4, b[0] % 4 * 16 + b[1] / 16, b[1] % 16 * 4 + b[2] / 64, b[2] % 64];
      var vs := head + Sextets(b[3..]);
      assert vs[4..] == Sextets(b[3..]);
      assert b == [b[0], b[1], b[2]] + b[3..];
    } else if |b| == 2 {
      assert b == [b[0], b[1]];
    } else if |b| == 1 {
      assert b == [b[0]];
    }
  }

  lemma {:induction false} PaddingStops(s: string, pad: string)
    requires forall i :: 0 <= i < |pad| ==> pad[i] == '='
    ensures Values(s + pad) == Values(s)
  {
    if s == "" {
      assert s + pad == pad;
    } else {
      PaddingStops(s[1..], pad);
      assert (s + pad)[1..] == s[1..] + pad && (s + pad)[0] == s[0];
    }
  }

  lemma {:induction false} ToUrlConcat(s: string, t: string)
    ensures ToUrl(s + t) == ToUrl(s) + ToUrl(t)
  {
    if s == "" {
      assert s + t == t;
    } else {
      ToUrlConcat(s[1..], t);
      assert (s + t)[1..] == s[1..] + t && (s + t)[0] == s[0];
      var c := [UrlChar(s[0])];
      assert c + (ToUrl(s[1..]) + ToUrl(t)) == (c + ToUrl(s[1..])) + ToUrl(t);
    }
  }

  predicate IsUrlChar(c: char) {
    'A' <= c <= 'Z' || 'a' <= c <= 'z' || '0' <= c <= '9' || c == '-' || c == '_'
  }

  /** Either alphabet gives the sextet back, and neither has the padding character. */
  lemma StdUrl(v: Sextet)
    ensures StdValue(StdChar(v)) == Some(v) && StdChar(v) != '='
    ensures IsUrlChar(UrlChar(StdChar(v))) && StdOf(UrlChar(StdChar(v))) == StdChar(v)
  {
  }

  /** The unpadded url-safe text of some sextets decodes to those sextets. */
  lemma {:induction false} UrlValues(vs: seq<Sextet>)
    ensures |ToUrl(Chars(vs))| == |vs|
    ensures forall i :: 0 <= i < |vs| ==> IsUrlChar(ToUrl(Chars(vs))[i])
    ensures Values(ToStd(ToUrl(Chars(vs)))) == vs
  {
    if vs != [] {
      UrlValues(vs[1..]);
      StdUrl(vs[0]);
      assert Chars(vs)[1..] == Chars(vs[1..]);
      assert ToUrl(Chars(vs))[1..] == ToUrl(Chars(vs[1..]));
      var std := ToStd(ToUrl(Chars(vs)));
      assert std[0] == StdChar(vs[0]) && std[1..] == ToStd(ToUrl(Chars(vs[1..])));
      assert Values(std) == [vs[0]] + Values(std[1..]);
    }
  }

  lemma UnpaddedIs(s: string, pad: string)
    requires pad == "" || pad == "=" || pad == "=="
    requires s != "" ==> s[|s| - 1] != '='
    ensures Unpadded(s + pad) == s
    decreases |pad|
  {
    if pad == "=" {
      assert (s + pad)[..|s|] == s;
    } else if pad == "==" {
      UnpaddedIs(s, "=");
      assert (s + pad)[..|s + pad| - 1] == s + "=";
    } else {
      assert s + pad == s;
    }
  }

  lemma {:induction false} PadUrl(pad: string)
    requires forall i :: 0 <= i < |pad| ==> pad[i] == '='
    ensures ToUrl(pad) == pad
  {
    if pad != "" {
      PadUrl(pad[1..]);
    }
  }

  /** What encoding comes to: one url-safe character per sextet, and no padding. */
  lemma EncodeIs(b: Bytes)
    ensures Encode(b) == ToUrl(Chars(Sextets(b)))
  {
    var text := ToUrl(Chars(Sextets(b)));
    var pad := if |b| % 3 == 1 then "==" else if |b| % 3 == 2 then "=" else "";
    ToUrlConcat(Chars(Sextets(b)), pad);
    PadUrl(pad);
    UrlValues(Sextets(b));
    UnpaddedIs(text, pad);
  }

  lemma PaddedValues(std: string)
    ensures Values(Padded(std)) == Values(std)
  {
    var pad := Padded(std)[|std|..];
    assert Padded(std) == std + pad;
    PaddingStops(std, pad);
  }

  /** base64url round trip for every byte sequence; the text never contains a dot. */
  lemma DecodeEncode(b: Bytes)
    ensures Decode(Encode(b)) == b
    ensures forall i :: 0 <= i < |Encode(b)| ==> IsUrlChar(Encode(b)[i])
    ensures '.' !in Encode(b)
  {
    EncodeIs(b);
    UrlValues(Sextets(b));
    PaddedValues(ToStd(Encode(b)));
    RegroupSextets(b);
  }

  // ---- Decoding any text ----

  predicate InAlphabet(c: char) {
    IsUrlChar(c) || c == '+' || c == '/'
  }

  /** Characters of either alphabet, up to the first padding. */
  function Readable(s: string): string {
    if s == "" || s[0] == '=' then ""
    else (if InAlphabet(s[0]) then [s[0]] else "") + Readable(s[1..])
  }

  lemma {:induction false} ReadableValues(s: string)
    ensures Values(ToStd(s)) == Values(ToStd(Readable(s))) && |Values(ToStd(s))| == |Readable(s)|
  {
    if s != "" && s[0] != '=' {
      ReadableValues(s[1..]);
      assert StdOf(s[0]) != '=';
      assert ToStd(s)[0] == StdOf(s[0]) && ToStd(s)[1..] == ToStd(s[1..]);
      if InAlphabet(s[0]) {
        assert StdValue(StdOf(s[0])).Some?;
        assert Readable(s)[0] == s[0] && Readable(s)[1..] == Readable(s[1..]);
      } else {
        assert StdValue(StdOf(s[0])).None?;
        assert Readable(s) == Readable(s[1..]);
      }
    }
  }

  lemma {:induction false} RegroupLength(vs: seq<Sextet>)
    ensures |Regroup(vs)| == |vs| * 3 / 4
  {
    if |vs| >= 4 {
      RegroupLength(vs[4..]);
    }
  }

  /**
   What decoding makes of any text: only the characters of the two alphabets before the first padding
   count, in their order, and four of them are three bytes; what is left over of a byte is dropped.
   */
  lemma DecodeReads(s: string)
    ensures Decode(s) == Decode(Readable(s)) && |Decode(s)| == |Readable(s)| * 3 / 4
  {
    ReadableValues(s);
    PaddedValues(ToStd(s));
    PaddedValues(ToStd(Readable(s)));
    RegroupLength(Values(ToStd(s)));
  }

  /** The url-safe and the standard alphabet are read alike. */
  lemma {:induction false} AlphabetsAlike(s: string)
    ensures Decode(ToUrl(s)) == Decode(s)
  {
    AlphabetsValues(s);
    PaddedValues(ToStd(s));
    PaddedValues(ToStd(ToUrl(s)));
  }

  lemma {:induction false} AlphabetsValues(s: string)
    ensures ToStd(ToUrl(s)) == ToStd(s)
  {
    if s != "" {
      AlphabetsValues(s[1..]);
      assert ToUrl(s)[1..] == ToUrl(s[1..]);
    }
  }

  // ---- Tokens ----

  datatype Claims = Claims(
    sub: string, email: string, name: string, role: string, namespaceAccess: seq<string>, iat: int, exp: int)

  /** JSON documents, as far as tokens look into them. */
  datatype Json =
    | Null
    | Header(algorithm: string)
    | Payload(claims: Claims)
    | Other(alg_: Option<string>, exp_: Option<int>)

  /** The field alg as a string; only objects have fields. */
  function Alg(j: Json): Option<string>
    requires j != Null
  {
    match j case Header(a) => Some(a) case Payload(_) => None case Other(a, _) => a
  }

  /** The field exp when it is a finite number. */
  function Exp(j: Json): Option<int>
    requires j != Null
  {
    match j case Header(_) => None case Payload(c) => Some(c.exp) case Other(_, e) => e
  }

  /** The pieces of the platform: JSON in UTF-8 bytes, and HMAC-SHA-256. */
  datatype Platform = Platform(stringify: Json -> Bytes, parse: Bytes -> Option<Json>, hmac: (string, string) -> Bytes)

  ghost predicate Lawful(p: Platform) {
    forall j :: p.parse(p.stringify(j)) == Some(j)
  }

  datatype Outcome = Accepted(doc: Json) | Rejected | Throws

  function Stamped(c: Claims, now: int, expiresInSec: int): Claims {
    c.(iat := now, exp := now + expiresInSec)
  }

  function SigningInput(p: Platform, c: Claims): string {
    Encode(p.stringify(Header("HS256"))) + "." + Encode(p.stringify(Payload(c)))
  }

  function SignJWT(p: Platform, c: Claims, secret: string, expiresInSec: int, now: int): string {
    var data := SigningInput(p, Stamped(c, now, expiresInSec));
    data + "." + Encode(p.hmac(secret, data))
  }

  function VerifyWith(p: Platform, data: string, payload: string, signature: string, secret: string,
                      now: int): Outcome {
    if p.hmac(secret, data) != Decode(signature) then Rejected
    else
      var doc := p.parse(Decode(payload));
      if doc.None? then Rejected
      else if doc.value == Null then Throws
      else if Exp(doc.value).None? then Rejected
      else if Exp(doc.value).value < now then Rejected
      else Accepted(doc.value)
  }

  function VerifyParts(p: Platform, header: string, payload: string, signature: string,
                       primarySecret: string, oldSecret: Option<string>, now: int): Outcome {
    var data := header + "." + payload;
    var parsedHeader := p.parse(Decode(header));
    if parsedHeader.None? then Rejected
    else if parsedHeader.value == Null then Throws
    else if Alg(parsedHeader.value) != Some("HS256") then Rejected
    else
      var result := VerifyWith(p, data, payload, signature, primarySecret, now);
      if result != Rejected then result
      else if oldSecret.Some? && oldSecret.value != "" then
        VerifyWith(p, data, payload, signature, oldSecret.value, now)
      else Rejected
  }

  function VerifyJWT(p: Platform, token: string, primarySecret: string, oldSecret: Option<string>, now: int): Outcome {
    var parts := Split(token, '.');
    if |parts| != 3 then Rejected
    else VerifyParts(p, parts[0], parts[1], parts[2], primarySecret, oldSecret, now)
  }

  /** Three dot-free parts joined by dots split into themselves. */
  lemma SplitThree(a: string, b: string, c: string)
    requires '.' !in a && '.' !in b && '.' !in c
    ensures Split(a + "." + b + "." + c, '.') == [a, b, c]
  {
    assert Join([b, c], ".") == b + "." + c;
    assert [a, b, c][1..] == [b, c];
    assert Join([a, b, c], ".") == a + "." + (b + "." + c);
    assert a + "." + (b + "." + c) == a + "." + b + "." + c;
    SplitJoin([a, b, c], '.');
  }

  /** The caller's claims, with the times of issue and expiry. */
  function Issued(c: Claims, iat: int, exp: int): Claims {
    Claims(c.sub, c.email, c.name, c.role, c.namespaceAccess, iat, exp)
  }

  /** What the signature is computed over. */
  function SignedText(p: Platform, c: Claims, iat: int, exp: int): string {
    Encode(p.stringify(Header("HS256"))) + "." + Encode(p.stringify(Payload(Issued(c, iat, exp))))
  }

  /** The signer stamps the caller's claims and signs that text, in three parts. */
  lemma TokenForm(p: Platform, c: Claims, secret: string, expiresInSec: int, then_: int)
    ensures var data := SignedText(p, c, then_, then_ + expiresInSec);
      SignJWT(p, c, secret, expiresInSec, then_) == data + "." + Encode(p.hmac(secret, data))
  {
    assert Stamped(c, then_, expiresInSec) == Issued(c, then_, then_ + expiresInSec);
  }

  /**
   What verification makes of a signed token, exactly: its claims come back when it has not
   expired and its signing secret authenticates the same as the primary one or as a non-empty
   old one; otherwise it is rejected. It never throws.
   */
  lemma VerifySigned(p: Platform, c: Claims, secret: string, expiresInSec: int, then_: int,
                     primarySecret: string, oldSecret: Option<string>, now: int)
    requires Lawful(p)
    ensures var claims := Claims(c.sub, c.email, c.name, c.role, c.namespaceAccess, then_, then_ + expiresInSec);
      var data := Encode(p.stringify(Header("HS256"))) + "." + Encode(p.stringify(Payload(claims)));
      VerifyJWT(p, SignJWT(p, c, secret, expiresInSec, then_), primarySecret, oldSecret, now) ==
        if now <= then_ + expiresInSec
          && (p.hmac(primarySecret, data) == p.hmac(secret, data)
              || (oldSecret.Some? && oldSecret.value != "" && p.hmac(oldSecret.value, data) == p.hmac(secret, data)))
        then Accepted(Payload(claims)) else Rejected
  {
    var claims := Stamped(c, then_, expiresInSec);
    var data := SigningInput(p, claims);
    var header, payload := Encode(p.stringify(Header("HS256"))), Encode(p.stringify(Payload(claims)));
    var mac := p.hmac(secret, data);
    TokenParts(p, claims, mac);
    PartsSigned(p, claims, mac, header, payload, Encode(mac), primarySecret, oldSecret, now);
    assert Split(data + "." + Encode(mac), '.') == [header, payload, Encode(mac)];
  }

  lemma PartParses(p: Platform, j: Json)
    requires Lawful(p)
    ensures p.parse(Decode(Encode(p.stringify(j)))) == Some(j) && '.' !in Encode(p.stringify(j))
  {
    DecodeEncode(p.stringify(j));
  }

  lemma TokenParts(p: Platform, claims: Claims, mac: Bytes)
    requires Lawful(p)
    ensures var header, payload := Encode(p.stringify(Header("HS256"))), Encode(p.stringify(Payload(claims)));
      && Split(SigningInput(p, claims) + "." + Encode(mac), '.') == [header, payload, Encode(mac)]
      && p.parse(Decode(header)) == Some(Header("HS256")) && p.parse(Decode(payload)) == Some(Payload(claims))
      && Decode(Encode(mac)) == mac && '.' !in header && '.' !in payload
  {
    var header, payload := Header("HS256"), Payload(claims);
    PartParses(p, header);
    PartParses(p, payload);
    DecodeEncode(mac);
    SplitThree(Encode(p.stringify(header)), Encode(p.stringify(payload)), Encode(mac));
  }

  lemma PartsSigned(p: Platform, claims: Claims, mac: Bytes, header: string, payload: string, signature: string,
                    primarySecret: string, oldSecret: Option<string>, now: int)
    requires p.parse(Decode(header)) == Some(Header("HS256")) && p.parse(Decode(payload)) == Some(Payload(claims))
    requires Decode(signature) == mac
    ensures var data := header + "." + payload;
      VerifyParts(p, header, payload, signature, primarySecret, oldSecret, now) ==
        if now <= claims.exp
          && (p.hmac(primarySecret, data) == mac
              || (oldSecret.Some? && oldSecret.value != "" && p.hmac(oldSecret.value, data) == mac))
        then Accepted(Payload(claims)) else Rejected
  {
  }

  /**
   JWT round trip: whoever verifies with the signing secret, as the primary or, if it is not
   empty, as the old one, gets the same claims back until they expire and nothing afterwards,
   together with the times of issue and expiry.
   */
  lemma JwtRoundTrip(p: Platform, c: Claims, secret: string, expiresInSec: int, then_: int,
                     primarySecret: string, oldSecret: Option<string>, now: int)
    requires Lawful(p)
    requires primarySecret == secret || (oldSecret == Some(secret) && secret != "")
    ensures var r := VerifyJWT(p, SignJWT(p, c, secret, expiresInSec, then_), primarySecret, oldSecret, now);
      && (r.Accepted? <==> now <= then_ + expiresInSec)
      && (!r.Accepted? ==> r == Rejected)
      && (r.Accepted? ==>
        && r.doc.Payload?
        && r.doc.claims.sub == c.sub && r.doc.claims.email == c.email && r.doc.claims.name == c.name
        && r.doc.claims.role == c.role && r.doc.claims.namespaceAccess == c.namespaceAccess
        && r.doc.claims.iat == then_ && r.doc.claims.exp == then_ + expiresInSec)
  {
    VerifySigned(p, c, secret, expiresInSec, then_, primarySecret, oldSecret, now);
  }

  /** An empty secret cannot be retired: as the old one it is never tried. */
  lemma EmptyOldSecretIgnored(p: Platform, c: Claims, expiresInSec: int, then_: int, primarySecret: string, now: int)
    requires Lawful(p)
    ensures var token := SignJWT(p, c, "", expiresInSec, then_);
      var data := SignedText(p, c, then_, then_ + expiresInSec);
      VerifyJWT(p, token, primarySecret, Some(""), now).Accepted?
      <==> now <= then_ + expiresInSec && p.hmac(primarySecret, data) == p.hmac("", data)
  {
    VerifySigned(p, c, "", expiresInSec, then_, primarySecret, Some(""), now);
  }

  /** The secret authenticates the text under this signature. */
  predicate Authenticates(p: Platform, secret: string, data: string, signature: string) {
    p.hmac(secret, data) == Decode(signature)
  }

  /** One of the secrets that verification tries does. */
  predicate SomeAuthenticates(p: Platform, data: string, signature: string, primarySecret: string,
                              oldSecret: Option<string>) {
    || Authenticates(p, primarySecret, data, signature)
    || (oldSecret.Some? && oldSecret.value != "" && Authenticates(p, oldSecret.value, data, signature))
  }

  /** The two ways in which three parts make verification read a field of null. */
  predicate ReadsNull(p: Platform, header: string, payload: string, signature: string,
                      primarySecret: string, oldSecret: Option<string>) {
    var h := p.parse(Decode(header));
    || h == Some(Null)
    || (h.Some? && Alg(h.value) == Some("HS256") && p.parse(Decode(payload)) == Some(Null)
        && SomeAuthenticates(p, header + "." + payload, signature, primarySecret, oldSecret))
  }

  /**
   When verifyJWT throws instead of answering, exactly: the header is the JSON text null, whoever
   made the token; or the payload is, under an HS256 header and a signature that authenticates.
   */
  lemma ThrowsExactly(p: Platform, token: string, primarySecret: string, oldSecret: Option<string>, now: int)
    ensures var parts := Split(token, '.');
      VerifyJWT(p, token, primarySecret, oldSecret, now) == Throws
      <==> |parts| == 3 && ReadsNull(p, parts[0], parts[1], parts[2], primarySecret, oldSecret)
  {
  }

  /** The header names the one algorithm there is. */
  predicate NamesHS256(h: Json) {
    h == Header("HS256") || (h.Other? && h.alg_ == Some("HS256"))
  }

  /** The document has an expiry time, and it has not come. */
  predicate Unexpired(doc: Json, now: int) {
    (doc.Payload? && now <= doc.claims.exp) || (doc.Other? && doc.exp_.Some? && now <= doc.exp_.value)
  }

  /**
   Which tokens are accepted, whoever made them, and as what: those of three parts whose header names
   HS256, whose signature one of the secrets tried gives to the first two parts as they stand, and whose
   payload is a document with an expiry time that has not come; that document is what is accepted.
   */
  lemma AcceptedExactly(p: Platform, token: string, primarySecret: string, oldSecret: Option<string>, now: int,
                        doc: Json)
    ensures var parts := Split(token, '.');
      VerifyJWT(p, token, primarySecret, oldSecret, now) == Accepted(doc)
      <==>
        && |parts| == 3
        && p.parse(Decode(parts[0])).Some? && NamesHS256(p.parse(Decode(parts[0])).value)
        && (p.hmac(primarySecret, parts[0] + "." + parts[1]) == Decode(parts[2])
            || (oldSecret.Some? && oldSecret.value != ""
                && p.hmac(oldSecret.value, parts[0] + "." + parts[1]) == Decode(parts[2])))
        && p.parse(Decode(parts[1])) == Some(doc) && Unexpired(doc, now)
  {
    var parts := Split(token, '.');
    if |parts| == 3 {
      var data := parts[0] + "." + parts[1];
      AcceptedWith(p, data, parts[1], parts[2], primarySecret, now, doc);
      if oldSecret.Some? {
        AcceptedWith(p, data, parts[1], parts[2], oldSecret.value, now, doc);
      }
    }
  }

  lemma AcceptedWith(p: Platform, data: string, payload: string, signature: string, secret: string, now: int, doc: Json)
    ensures VerifyWith(p, data, payload, signature, secret, now) == Accepted(doc)
      <==> p.hmac(secret, data) == Decode(signature) && p.parse(Decode(payload)) == Some(doc) && Unexpired(doc, now)
  {
  }

  /** So anyone can make it throw, without any secret: the token null.payload.signature does. */
  lemma NullHeaderThrows(p: Platform, payload: string, signature: string, primarySecret: string,
                         oldSecret: Option<string>, now: int)
    requires Lawful(p) && '.' !in payload && '.' !in signature
    ensures var token := Encode(p.stringify(Null)) + "." + payload + "." + signature;
      VerifyJWT(p, token, primarySecret, oldSecret, now) == Throws
  {
    PartParses(p, Null);
    SplitThree(Encode(p.stringify(Null)), payload, signature);
  }

  /** And a null payload signed under a known secret makes it throw as well. */
  lemma NullPayloadThrows(p: Platform, secret: string, oldSecret: Option<string>, now: int)
    requires Lawful(p)
    ensures var data := Encode(p.stringify(Header("HS256"))) + "." + Encode(p.stringify(Null));
      VerifyJWT(p, data + "." + Encode(p.hmac(secret, data)), secret, oldSecret, now) == Throws
  {
    var header, payload := Encode(p.stringify(Header("HS256"))), Encode(p.stringify(Null));
    var mac := p.hmac(secret, header + "." + payload);
    PartParses(p, Header("HS256"));
    PartParses(p, Null);
    DecodeEncode(mac);
    NullPayloadRead(p, header, payload, Encode(mac), secret, oldSecret, now);
  }

  lemma NullPayloadRead(p: Platform, header: string, payload: string, signature: string, secret: string,
                        oldSecret: Option<string>, now: int)
    requires '.' !in header && '.' !in payload && '.' !in signature
    requires p.parse(Decode(header)) == Some(Header("HS256")) && p.parse(Decode(payload)) == Some(Null)
    requires Authenticates(p, secret, header + "." + payload, signature)
    ensures VerifyJWT(p, header + "." + payload + "." + signature, secret, oldSecret, now) == Throws
  {
    var token := header + "." + payload + "." + signature;
    SplitThree(header, payload, signature);
    assert ReadsNull(p, header, payload, signature, secret, oldSecret);
    ThrowsExactly(p, token, secret, oldSecret, now);
  }

  /**
   Integrity: an accepted token whose signature decodes to that of a signed one, under any secrets
   and however the signature is written, yields the signed claims, or HMAC gave two inputs one code.
   */
  lemma SignatureBinds(p: Platform, c: Claims, secret: string, expiresInSec: int, then_: int,
                       header: string, payload: string, signature: string,
                       primarySecret: string, oldSecret: Option<string>, now: int)
    requires Lawful(p) && '.' !in header && '.' !in payload && '.' !in signature
    requires Authenticates(p, secret, SignedText(p, c, then_, then_ + expiresInSec), signature)
    ensures var claims := Issued(c, then_, then_ + expiresInSec);
      var data, forged := SignedText(p, c, then_, then_ + expiresInSec), header + "." + payload;
      var r := VerifyJWT(p, forged + "." + signature, primarySecret, oldSecret, now);
      r.Accepted? ==>
        && SomeAuthenticates(p, forged, signature, primarySecret, oldSecret)
        && (r.doc == Payload(claims) || forged != data)
        && (forged != data ==> CodeTwice(p, secret, data, forged, primarySecret, oldSecret))
  {
    var claims := Stamped(c, then_, expiresInSec);
    var data, forged := SigningInput(p, claims), header + "." + payload;
    SplitThree(header, payload, signature);
    assert Split(forged + "." + signature, '.') == [header, payload, signature];
    if forged == data {
      PartParses(p, Header("HS256"));
      PartParses(p, Payload(claims));
      SameTwo(header, payload, Encode(p.stringify(Header("HS256"))), Encode(p.stringify(Payload(claims))));
      PartsSigned(p, claims, Decode(signature), header, payload, signature, primarySecret, oldSecret, now);
    }
  }

  /** HMAC gives the other text the code of the signed one, under a secret that verification tries. */
  predicate CodeTwice(p: Platform, secret: string, data: string, other: string, primarySecret: string,
                      oldSecret: Option<string>) {
    || p.hmac(primarySecret, other) == p.hmac(secret, data)
    || (oldSecret.Some? && oldSecret.value != "" && p.hmac(oldSecret.value, other) == p.hmac(secret, data))
  }

  lemma SameTwo(a: string, b: string, c: string, d: string)
    requires '.' !in a && '.' !in c && a + "." + b == c + "." + d
    ensures a == c && b == d
  {
    SplitHead(a, '.', b);
    SplitHead(c, '.', d);
    assert "." == ['.'];
    assert a == Split(a + "." + b, '.')[0] && c == Split(c + "." + d, '.')[0];
    assert b == (a + "." + b)[|a| + 1..] && d == (c + "." + d)[|c| + 1..];
  }
}
