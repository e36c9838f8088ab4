/** JSON texts without white space (RFC 8259): what a text means, and the parser that says so. */
module JsonParser {
  import opened JsText
  import opened Options

  datatype Json =
    | JNull
    | JBool(b: bool)
    | JNumber(numeral: Text)
    | JString(text: Text)
    | JArray(items: seq<Json>)
    | JObject(members: map<Text, Json>)

  datatype Parsed<+T> = Bad | Good(value: T, rest: Text)

  const QUOTE: CodeUnit := 0x22
  const COMMA: CodeUnit := 0x2C
  const COLON: CodeUnit := 0x3A
  const BACKSLASH: CodeUnit := 0x5C
  const OPEN_ARRAY: CodeUnit := 0x5B
  const CLOSE_ARRAY: CodeUnit := 0x5D
  const OPEN_OBJECT: CodeUnit := 0x7B
  const CLOSE_OBJECT: CodeUnit := 0x7D
  const LOWER_U: CodeUnit := 0x75
  const NULL_TEXT: Text := [0x6E, 0x75, 0x6C, 0x6C]
  const TRUE_TEXT: Text := [0x74, 0x72, 0x75, 0x65]
  const FALSE_TEXT: Text := [0x66, 0x61, 0x6C, 0x73, 0x65]

  // ---- Strings (section 7) ----

  /** The unit after a backslash, for the escapes of one letter. */
  function Unescape(u: CodeUnit): Option<CodeUnit> {
    if u == 0x22 || u == 0x5C || u == 0x2F then Some(u)
    else if u == 0x62 then Some(0x08)
    else if u == 0x66 then Some(0x0C)
    else if u == 0x6E then Some(0x0A)
    else if u == 0x72 then Some(0x0D)
    else if u == 0x74 then Some(0x09)
    else None
  }

  function HexValue(u: CodeUnit): (d: Option<nat>)
    ensures d.Some? ==> d.value < 16
  {
    if 0x30 <= u <= 0x39 then Some(u - 0x30)
    else if 0x61 <= u <= 0x66 then Some(u - 0x57)
    else if 0x41 <= u <= 0x46 then Some(u - 0x37)
    else None
  }

  function ParseHex(s: Text): (h: Option<CodeUnit>)
    requires |s| >= 4
  {
    var a, b, c, d := HexValue(s[0]), HexValue(s[1]), HexValue(s[2]), HexValue(s[3]);
    if a.Some? && b.Some? && c.Some? && d.Some?
    then Some(((a.value * 16 + b.value) * 16 + c.value) * 16 + d.value)
    else None
  }

  function Prepend(u: CodeUnit, p: Parsed<Text>): Parsed<Text> {
    if p.Good? then Good([u] + p.value, p.rest) else Bad
  }

  /** The rest of a string after its opening quote. */
  function ParseChars(s: Text): (r: Parsed<Text>)
    ensures r.Good? ==> |r.rest| < |s|
    decreases |s|
  {
    if s == [] then Bad
    else if s[0] == QUOTE then Good([], s[1..])
    else if s[0] == BACKSLASH then ParseEscape(s)
    else if s[0] < 0x20 then Bad
    else Prepend(s[0], ParseChars(s[1..]))
  }

  function ParseEscape(s: Text): (r: Parsed<Text>)
    requires |s| >= 1
    ensures r.Good? ==> |r.rest| < |s|
    decreases |s|, 0
  {
    if |s| < 2 then Bad
    else if s[1] == LOWER_U then
      if |s| < 6 || ParseHex(s[2..]).None? then Bad
      else Prepend(ParseHex(s[2..]).value, ParseChars(s[6..]))
    else if Unescape(s[1]).None? then Bad
    else Prepend(Unescape(s[1]).value, ParseChars(s[2..]))
  }

  // ---- Numbers (section 6) ----

  predicate IsDigit(u: CodeUnit) {
    0x30 <= u <= 0x39
  }

  predicate IsNumeralUnit(u: CodeUnit) {
    IsDigit(u) || u == 0x2B || u == 0x2D || u == 0x2E || u == 0x45 || u == 0x65
  }

  /** How many digits come first. */
  function DigitRun(s: Text): (n: nat)
    ensures n <= |s|
  {
    if s == [] || !IsDigit(s[0]) then 0 else DigitRun(s[1..]) + 1
  }

  predicate IsExponent(s: Text) {
    s == [] ||
    ((s[0] == 0x45 || s[0] == 0x65) &&
     var digits := if |s| > 1 && (s[1] == 0x2B || s[1] == 0x2D) then s[2..] else s[1..];
     digits != [] && DigitRun(digits) == |digits|)
  }

  predicate IsUnsigned(s: Text) {
    var n := DigitRun(s);
    && n >= 1 && (s[0] == 0x30 ==> n == 1)
    && if n < |s| && s[n] == 0x2E then
         var k := DigitRun(s[n + 1..]);
         k >= 1 && IsExponent(s[n + 1 + k..])
       else IsExponent(s[n..])
  }

  predicate IsNumeral(s: Text) {
    && (forall i :: 0 <= i < |s| ==> IsNumeralUnit(s[i]))
    && IsUnsigned(if s != [] && s[0] == 0x2D then s[1..] else s)
  }

  function NumeralRun(s: Text): (n: nat)
    ensures n <= |s|
  {
    if s == [] || !IsNumeralUnit(s[0]) then 0 else NumeralRun(s[1..]) + 1
  }

  function ParseNumber(s: Text): (r: Parsed<Json>)
    ensures r.Good? ==> |r.rest| < |s|
  {
    var n := NumeralRun(s);
    if n >= 1 && IsNumeral(s[..n]) then Good(JNumber(s[..n]), s[n..]) else Bad
  }

  /** What follows a numeral decides where it ends. */
  predicate Ends(rest: Text) {
    rest == [] || !IsNumeralUnit(rest[0])
  }

  lemma {:induction false} NumeralRunExact(t: Text, rest: Text)
    requires (forall i :: 0 <= i < |t| ==> IsNumeralUnit(t[i])) && Ends(rest)
    ensures NumeralRun(t + rest) == |t|
  {
    if t == [] {
      assert t + rest == rest;
    } else {
      assert (t + rest)[1..] == t[1..] + rest;
      NumeralRunExact(t[1..], rest);
    }
  }

  lemma NumeralParses(t: Text, rest: Text)
    requires IsNumeral(t) && Ends(rest)
    ensures ParseNumber(t + rest) == Good(JNumber(t), rest)
    ensures |t| >= 1 && (IsDigit(t[0]) || t[0] == 0x2D)
  {
    NumeralRunExact(t, rest);
    assert (t + rest)[..|t|] == t;
    assert (t + rest)[|t|..] == rest;
  }

  // ---- Values (sections 3 to 5) ----

  predicate StartsWith(s: Text, t: Text) {
    |t| <= |s| && s[..|t|] == t
  }

  function ParseValue(s: Text): (r: Parsed<Json>)
    ensures r.Good? ==> |r.rest| < |s|
    decreases |s|, 1
  {
    if s == [] then Bad
    else if s[0] == QUOTE then ParseString(s)
    else if s[0] == OPEN_ARRAY then ParseArray(s)
    else if s[0] == OPEN_OBJECT then ParseObject(s)
    else ParseWord(s)
  }

  function ParseString(s: Text): (r: Parsed<Json>)
    requires s != []
    ensures r.Good? ==> |r.rest| < |s|
  {
    var p := ParseChars(s[1..]);
    if p.Good? then Good(JString(p.value), p.rest) else Bad
  }

  function ParseWord(s: Text): (r: Parsed<Json>)
    requires s != []
    ensures r.Good? ==> |r.rest| < |s|
  {
    if StartsWith(s, NULL_TEXT) then Good(JNull, s[4..])
    else if StartsWith(s, TRUE_TEXT) then Good(JBool(true), s[4..])
    else if StartsWith(s, FALSE_TEXT) then Good(JBool(false), s[5..])
    else ParseNumber(s)
  }

  function ParseArray(s: Text): (r: Parsed<Json>)
    requires s != []
    ensures r.Good? ==> |r.rest| < |s|
    decreases |s|, 0
  {
    if |s| > 1 && s[1] == CLOSE_ARRAY then Good(JArray([]), s[2..])
    else
      var p := ParseItems(s[1..]);
      if p.Good? then Good(JArray(p.value), p.rest) else Bad
  }

  /** One value or more, separated by commas, and the closing bracket. */
  function ParseItems(s: Text): (r: Parsed<seq<Json>>)
    ensures r.Good? ==> |r.rest| < |s|
    decreases |s|, 2
  {
    var p := ParseValue(s);
    if p.Bad? || p.rest == [] then Bad
    else if p.rest[0] == CLOSE_ARRAY then Good([p.value], p.rest[1..])
    else if p.rest[0] == COMMA then
      var q := ParseItems(p.rest[1..]);
      if q.Good? then Good([p.value] + q.value, q.rest) else Bad
    else Bad
  }

  function ParseObject(s: Text): (r: Parsed<Json>)
    requires s != []
    ensures r.Good? ==> |r.rest| < |s|
    decreases |s|, 0
  {
    if |s| > 1 && s[1] == CLOSE_OBJECT then Good(JObject(map[]), s[2..])
    else
      var p := ParseMembers(s[1..]);
      if p.Good? then Good(JObject(p.value), p.rest) else Bad
  }

  /** A string, a colon and a value. */
  function ParseMember(s: Text): (r: Parsed<(Text, Json)>)
    ensures r.Good? ==> |r.rest| < |s|
    decreases |s|, 2
  {
    if s == [] || s[0] != QUOTE then Bad
    else
      var k := ParseChars(s[1..]);
      if k.Bad? || k.rest == [] || k.rest[0] != COLON then Bad
      else
        var v := ParseValue(k.rest[1..]);
        if v.Good? then Good((k.value, v.value), v.rest) else Bad
  }

  /** One member or more and the closing brace; of members with one name the last one counts. */
  function ParseMembers(s: Text): (r: Parsed<map<Text, Json>>)
    ensures r.Good? ==> |r.rest| < |s|
    decreases |s|, 3
  {
    var p := ParseMember(s);
    if p.Bad? || p.rest == [] then Bad
    else if p.rest[0] == CLOSE_OBJECT then Good(map[p.value.0 := p.value.1], p.rest[1..])
    else if p.rest[0] == COMMA then
      var q := ParseMembers(p.rest[1..]);
      if q.Good? then Good(map[p.value.0 := p.value.1] + q.value, q.rest) else Bad
    else Bad
  }
}
