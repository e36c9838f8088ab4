/**
 The key-sorted JSON printer behind cache keys. Two values print alike exactly when they mean the
 same JSON: key order forgotten, undefined fields dropped, and whatever JSON cannot express null.
 */
module CanonicalJson {
  import opened JsText
  import opened JsonParser
  import opened Options

  /** A finite number other than -0 is given by its numeral, as Number.prototype.toString writes it. */
  datatype Number = NotFinite | NegativeZero | Finite(numeral: Text)

  /**
   Functions and symbols are Unprintable: JSON.stringify answers undefined for them. It throws on a
   BigInt. A Hole is a place of an array that was never assigned.
   */
  datatype Value =
    | Undefined
    | Unprintable
    | BigInt
    | Hole
    | Null
    | Bool(b: bool)
    | Num(n: Number)
    | Str(text: Text)
    | Arr(items: seq<Value>)
    | Obj(fields: seq<Field>)

  /** An own enumerable property; an object has them in the order of their creation. */
  datatype Field = Field(key: Text, value: Value)

  function Size(v: Value): nat {
    match v
    case Arr(items) => 1 + SizeItems(items)
    case Obj(fields) => 1 + SizeFields(fields)
    case _ => 1
  }

  function SizeItems(items: seq<Value>): nat {
    if items == [] then 0 else 1 + Size(items[0]) + SizeItems(items[1..])
  }

  function SizeFields(fields: seq<Field>): nat {
    if fields == [] then 0 else 1 + Size(fields[0].value) + SizeFields(fields[1..])
  }

  predicate HasKey(fields: seq<Field>, k: Text) {
    exists i :: 0 <= i < |fields| && fields[i].key == k
  }

  /** No BigInt is met on the way: printing throws on one. */
  predicate Printable(v: Value)
    decreases Size(v)
  {
    match v
    case BigInt => false
    case Arr(items) => PrintableItems(items)
    case Obj(fields) => PrintableFields(fields)
    case _ => true
  }

  predicate PrintableItems(items: seq<Value>)
    decreases SizeItems(items)
  {
    items == [] || (Printable(items[0]) && PrintableItems(items[1..]))
  }

  predicate PrintableFields(fields: seq<Field>)
    decreases SizeFields(fields)
  {
    fields == [] || (Printable(fields[0].value) && PrintableFields(fields[1..]))
  }

  /** Numbers are written as JSON numbers, an object has each key once; no BigInt, and holes only in arrays. */
  predicate WellFormed(v: Value)
    decreases Size(v)
  {
    match v
    case BigInt => false
    case Hole => false
    case Num(n) => n.Finite? ==> IsNumeral(n.numeral)
    case Arr(items) => WellFormedItems(items)
    case Obj(fields) => WellFormedFields(fields)
    case _ => true
  }

  predicate WellFormedItems(items: seq<Value>)
    decreases SizeItems(items)
  {
    items == [] || ((items[0].Hole? || WellFormed(items[0])) && WellFormedItems(items[1..]))
  }

  predicate WellFormedFields(fields: seq<Field>)
    decreases SizeFields(fields)
  {
    fields == [] ||
    (WellFormed(fields[0].value) && !HasKey(fields[1..], fields[0].key) && WellFormedFields(fields[1..]))
  }

  /** The same without any hole. */
  predicate Proper(v: Value)
    decreases Size(v)
  {
    match v
    case BigInt => false
    case Hole => false
    case Num(n) => n.Finite? ==> IsNumeral(n.numeral)
    case Arr(items) => ProperItems(items)
    case Obj(fields) => ProperFields(fields)
    case _ => true
  }

  predicate ProperItems(items: seq<Value>)
    decreases SizeItems(items)
  {
    items == [] || (Proper(items[0]) && ProperItems(items[1..]))
  }

  predicate ProperFields(fields: seq<Field>)
    decreases SizeFields(fields)
  {
    fields == [] ||
    (Proper(fields[0].value) && !HasKey(fields[1..], fields[0].key) && ProperFields(fields[1..]))
  }

  // ---- Meaning ----

  function Meaning(v: Value): Json
    decreases Size(v)
  {
    match v
    case Bool(b) => JBool(b)
    case Num(NotFinite) => JNull
    case Num(NegativeZero) => JNumber([0x30])
    case Num(Finite(t)) => JNumber(t)
    case Str(t) => JString(t)
    case Arr(items) => JArray(Meanings(items))
    case Obj(fields) => JObject(Defined(fields))
    case _ => JNull
  }

  function Meanings(items: seq<Value>): (r: seq<Json>)
    ensures |r| == |items|
    decreases SizeItems(items)
  {
    if items == [] then [] else [Meaning(items[0])] + Meanings(items[1..])
  }

  /** The fields that are not undefined. */
  function Defined(fields: seq<Field>): map<Text, Json>
    decreases SizeFields(fields)
  {
    if fields == [] then map[]
    else if fields[0].value.Undefined? then Defined(fields[1..])
    else map[fields[0].key := Meaning(fields[0].value)] + Defined(fields[1..])
  }

  // ---- JSON.stringify of strings ----

  predicate IsLead(u: CodeUnit) {
    0xD800 <= u < 0xDC00
  }

  predicate IsTrail(u: CodeUnit) {
    0xDC00 <= u < 0xE000
  }

  function HexDigit(d: nat): CodeUnit
    requires d < 16
  {
    if d < 10 then 0x30 + d else 0x57 + d
  }

  function UnicodeEscape(u: CodeUnit): Text {
    [BACKSLASH, LOWER_U,
     HexDigit(u / 16 / 16 / 16), HexDigit(u / 16 / 16 % 16), HexDigit(u / 16 % 16), HexDigit(u % 16)]
  }

  function EscapeUnit(u: CodeUnit): Text {
    if u == QUOTE || u == BACKSLASH then [BACKSLASH, u]
    else if u == 0x08 then [BACKSLASH, 0x62]
    else if u == 0x09 then [BACKSLASH, 0x74]
    else if u == 0x0A then [BACKSLASH, 0x6E]
    else if u == 0x0C then [BACKSLASH, 0x66]
    else if u == 0x0D then [BACKSLASH, 0x72]
    else if u < 0x20 || IsLead(u) || IsTrail(u) then UnicodeEscape(u)
    else [u]
  }

  predicate StartsPair(t: Text) {
    |t| >= 2 && IsLead(t[0]) && IsTrail(t[1])
  }

  /** Surrogate pairs stay as they are; a lone surrogate is written as an escape. */
  function Escape(t: Text): Text {
    if t == [] then []
    else if StartsPair(t) then [t[0], t[1]] + Escape(t[2..])
    else EscapeUnit(t[0]) + Escape(t[1..])
  }

  function Quote(t: Text): Text {
    [QUOTE] + (Escape(t) + [QUOTE])
  }

  // ---- The printer ----

  /** Array.prototype.sort on strings: by code units. */
  predicate Less(a: Text, b: Text) {
    b != [] && (a == [] || a[0] < b[0] || (a[0] == b[0] && Less(a[1..], b[1..])))
  }

  function Insert(f: Field, fields: seq<Field>): (r: seq<Field>)
    ensures SizeFields(r) == 1 + Size(f.value) + SizeFields(fields)
  {
    if fields == [] || Less(f.key, fields[0].key) then
      assert ([f] + fields)[1..] == fields;
      [f] + fields
    else
      var rest := Insert(f, fields[1..]);
      assert ([fields[0]] + rest)[1..] == rest;
      [fields[0]] + rest
  }

  function SortByKey(fields: seq<Field>): (r: seq<Field>)
    ensures SizeFields(r) == SizeFields(fields)
  {
    if fields == [] then [] else Insert(fields[0], SortByKey(fields[1..]))
  }

  function Scalar(v: Value): Text
    requires !v.Arr? && !v.Obj?
  {
    match v
    case Bool(b) => if b then TRUE_TEXT else FALSE_TEXT
    case Num(Finite(t)) => t
    case Num(NegativeZero) => [0x30]
    case Str(t) => Quote(t)
    case _ => NULL_TEXT
  }

  /** Joining an array prints nothing for a hole. */
  function Canonical(v: Value): Text
    decreases Size(v)
  {
    match v
    case Arr(items) => [OPEN_ARRAY] + (Join(Texts(items), [COMMA]) + [CLOSE_ARRAY])
    case Obj(fields) => [OPEN_OBJECT] + (Join(Parts(SortByKey(fields)), [COMMA]) + [CLOSE_OBJECT])
    case Hole => []
    case _ => Scalar(v)
  }

  function Texts(items: seq<Value>): (r: seq<Text>)
    ensures |r| == |items|
    decreases SizeItems(items)
  {
    if items == [] then [] else [Canonical(items[0])] + Texts(items[1..])
  }

  function Part(f: Field): Text
    decreases 1 + Size(f.value), 0
  {
    Quote(f.key) + ([COLON] + Canonical(f.value))
  }

  function Parts(fields: seq<Field>): seq<Text>
    decreases SizeFields(fields), 1
  {
    if fields == [] then []
    else if fields[0].value.Undefined? then Parts(fields[1..])
    else [Part(fields[0])] + Parts(fields[1..])
  }

  lemma PartsFrom(fields: seq<Field>, i: nat)
    requires i < |fields|
    ensures SizeFields(fields[i..]) == 1 + Size(fields[i].value) + SizeFields(fields[i + 1..])
    ensures fields[i].value.Undefined? ==> Parts(fields[i..]) == Parts(fields[i + 1..])
    ensures !fields[i].value.Undefined? ==> Parts(fields[i..]) == [Part(fields[i])] + Parts(fields[i + 1..])
  {
    assert fields[i..][0] == fields[i] && fields[i..][1..] == fields[i + 1..];
  }

  lemma PrintableFrom(fields: seq<Field>, i: nat)
    requires i < |fields|
    ensures PrintableFields(fields[i..]) <==> Printable(fields[i].value) && PrintableFields(fields[i + 1..])
  {
    assert fields[i..][0] == fields[i] && fields[i..][1..] == fields[i + 1..];
  }

  lemma {:induction false} InsertPrintable(f: Field, fields: seq<Field>)
    ensures PrintableFields(Insert(f, fields)) <==> Printable(f.value) && PrintableFields(fields)
  {
    if fields == [] || Less(f.key, fields[0].key) {
      assert ([f] + fields)[1..] == fields;
    } else {
      InsertPrintable(f, fields[1..]);
      assert ([fields[0]] + Insert(f, fields[1..]))[1..] == Insert(f, fields[1..]);
    }
  }

  lemma {:induction false} SortPrintable(fields: seq<Field>)
    ensures PrintableFields(SortByKey(fields)) <==> PrintableFields(fields)
    decreases |fields|
  {
    if fields != [] {
      SortPrintable(fields[1..]);
      InsertPrintable(fields[0], SortByKey(fields[1..]));
    }
  }

  /** The recursion as it is written; None when it throws. */
  method Canonicalize(v: Value) returns (s: Option<Text>)
    ensures s.Some? <==> Printable(v)
    ensures s.Some? ==> s.value == Canonical(v)
    decreases Size(v), 0
  {
    match v
    case Arr(items) =>
      var texts := CanonicalizeAll(items);
      if texts.None? {
        return None;
      }
      s := Some([OPEN_ARRAY] + (Join(texts.value, [COMMA]) + [CLOSE_ARRAY]));
    case Obj(fields) =>
      var parts := CanonicalizeFields(fields);
      if parts.None? {
        return None;
      }
      s := Some([OPEN_OBJECT] + (Join(parts.value, [COMMA]) + [CLOSE_OBJECT]));
    case BigInt => s := None;
    case Hole => s := Some([]);
    case _ => s := Some(Scalar(v));
  }

  /** The loop over the sorted keys. */
  method CanonicalizeFields(fields: seq<Field>) returns (parts: Option<seq<Text>>)
    ensures parts.Some? <==> PrintableFields(fields)
    ensures parts.Some? ==> parts.value == Parts(SortByKey(fields))
    decreases SizeFields(fields), 1
  {
    var sorted := SortByKey(fields);
    SortPrintable(fields);
    var soFar: seq<Text> := [];
    for i := 0 to |sorted|
      invariant soFar + Parts(sorted[i..]) == Parts(sorted)
      invariant SizeFields(sorted[i..]) <= SizeFields(fields)
      invariant PrintableFields(sorted[i..]) <==> PrintableFields(sorted)
    {
      var f := sorted[i];
      PartsFrom(sorted, i);
      PrintableFrom(sorted, i);
      if f.value.Undefined? {
        continue;
      }
      var text := Canonicalize(f.value);
      if text.None? {
        return None;
      }
      Associate(soFar, Part(f), Parts(sorted[i + 1..]));
      soFar := soFar + [Quote(f.key) + ([COLON] + text.value)];
    }
    assert sorted[|sorted|..] == [];
    assert soFar + [] == soFar;
    parts := Some(soFar);
  }

  lemma Associate(a: seq<Text>, b: Text, c: seq<Text>)
    ensures a + ([b] + c) == (a + [b]) + c
  {
  }

  /** value.map(canonicalize), which passes holes over. */
  method CanonicalizeAll(items: seq<Value>) returns (texts: Option<seq<Text>>)
    ensures texts.Some? <==> PrintableItems(items)
    ensures texts.Some? ==> texts.value == Texts(items)
    decreases SizeItems(items), 1
  {
    var soFar: seq<Text> := [];
    for i := 0 to |items|
      invariant soFar + Texts(items[i..]) == Texts(items)
      invariant SizeItems(items[i..]) <= SizeItems(items)
      invariant PrintableItems(items[i..]) <==> PrintableItems(items)
    {
      assert items[i..][0] == items[i] && items[i..][1..] == items[i + 1..];
      Associate(soFar, Canonical(items[i]), Texts(items[i + 1..]));
      if items[i].Hole? {
        soFar := soFar + [[]];
      } else {
        var text := Canonicalize(items[i]);
        if text.None? {
          return None;
        }
        soFar := soFar + [text.value];
      }
    }
    assert items[|items|..] == [];
    assert soFar + [] == soFar;
    texts := Some(soFar);
  }

  // ---- The printed text, unit by unit ----

  /** A lower-case hexadecimal digit and its value. */
  predicate LowerHex(u: CodeUnit, value: int) {
    (0x30 <= u <= 0x39 && value == u - 0x30) || (0x61 <= u <= 0x66 && value == u - 0x61 + 10)
  }

  /** How JSON.stringify writes one unit that is not part of a surrogate pair, in numbers. */
  ghost predicate WrittenAs(u: CodeUnit, e: Text) {
    if u == 0x22 then e == [0x5C, 0x22]
    else if u == 0x5C then e == [0x5C, 0x5C]
    else if u == 0x08 then e == [0x5C, 0x62]
    else if u == 0x0C then e == [0x5C, 0x66]
    else if u == 0x0A then e == [0x5C, 0x6E]
    else if u == 0x0D then e == [0x5C, 0x72]
    else if u == 0x09 then e == [0x5C, 0x74]
    else if u < 0x20 || 0xD800 <= u <= 0xDFFF then
      && |e| == 6 && e[..2] == [0x5C, 0x75]
      && exists a, b, c, d ::
        && LowerHex(e[2], a) && LowerHex(e[3], b) && LowerHex(e[4], c) && LowerHex(e[5], d)
        && u == 0x1000 * a + 0x100 * b + 0x10 * c + d
    else e == [u]
  }

  lemma UnitWritten(u: CodeUnit)
    ensures WrittenAs(u, EscapeUnit(u))
  {
    if u < 0x20 || 0xD800 <= u <= 0xDFFF {
      var e := UnicodeEscape(u);
      var a, b, c, d := u / 16 / 16 / 16, u / 16 / 16 % 16, u / 16 % 16, u % 16;
      assert LowerHex(e[2], a) && LowerHex(e[3], b) && LowerHex(e[4], c) && LowerHex(e[5], d);
      assert u == 16 * (u / 16) + d && u / 16 == 16 * (u / 16 / 16) + c && u / 16 / 16 == 16 * a + b;
    }
  }

  /** A high surrogate with the low one it needs. */
  predicate PairAt(t: Text, i: nat) {
    i + 1 < |t| && 0xD800 <= t[i] <= 0xDBFF && 0xDC00 <= t[i + 1] <= 0xDFFF
  }

  /** Pairs are written as they are, and everything else unit by unit. */
  ghost predicate WrittenOut(t: Text, i: nat, e: Text)
    requires i <= |t|
    decreases |t| - i
  {
    if i == |t| then e == []
    else if PairAt(t, i) then |e| >= 2 && e[..2] == t[i..i + 2] && WrittenOut(t, i + 2, e[2..])
    else exists n :: 0 <= n <= |e| && WrittenAs(t[i], e[..n]) && WrittenOut(t, i + 1, e[n..])
  }

  /** Every string is printed like that. */
  lemma {:induction false} EscapeWritten(t: Text, i: nat)
    requires i <= |t|
    ensures WrittenOut(t, i, Escape(t[i..]))
    decreases |t| - i
  {
    if i < |t| {
      var s := t[i..];
      if PairAt(t, i) {
        assert StartsPair(s) && s[2..] == t[i + 2..] && Escape(s)[..2] == t[i..i + 2];
        assert Escape(s)[2..] == Escape(t[i + 2..]);
        EscapeWritten(t, i + 2);
      } else {
        assert !StartsPair(s) && s[1..] == t[i + 1..] && s[0] == t[i];
        var e := EscapeUnit(t[i]);
        UnitWritten(t[i]);
        EscapeWritten(t, i + 1);
        assert Escape(s) == e + Escape(t[i + 1..]);
        assert Escape(s)[..|e|] == e && Escape(s)[|e|..] == Escape(t[i + 1..]);
      }
    }
  }

  /** The texts around the strings and numerals, in numbers. */
  lemma PrintedAs(v: Value)
    ensures match v
      case Bool(b) => Canonical(v) == if b then [0x74, 0x72, 0x75, 0x65] else [0x66, 0x61, 0x6C, 0x73, 0x65]
      case Num(NotFinite) => Canonical(v) == [0x6E, 0x75, 0x6C, 0x6C]
      case Num(NegativeZero) => Canonical(v) == [0x30]
      case Num(Finite(t)) => Canonical(v) == t
      case Str(t) => WrittenString(t, Canonical(v))
      case Arr(items) => Canonical(v) == [0x5B] + Join(Texts(items), [0x2C]) + [0x5D]
      case Obj(fields) => Canonical(v) == [0x7B] + Join(Parts(SortByKey(fields)), [0x2C]) + [0x7D]
      case Hole => Canonical(v) == []
      case _ => Canonical(v) == [0x6E, 0x75, 0x6C, 0x6C]
  {
    if v.Str? {
      QuoteWritten(v.text);
    }
  }

  ghost predicate WrittenString(t: Text, e: Text) {
    |e| >= 2 && e[0] == 0x22 && WrittenOut(t, 0, e[1..|e| - 1]) && e[|e| - 1] == 0x22
  }

  lemma QuoteWritten(t: Text)
    ensures WrittenString(t, Quote(t))
  {
    EscapeWritten(t, 0);
    assert t[0..] == t;
    assert Quote(t)[1..|Quote(t)| - 1] == Escape(t);
  }

  /** A field is its key as a string, a colon and its value. */
  lemma PartPrinted(f: Field)
    ensures exists n ::
      && 0 <= n < |Part(f)| && WrittenString(f.key, Part(f)[..n])
      && Part(f)[n] == 0x3A && Part(f)[n + 1..] == Canonical(f.value)
  {
    var q := Quote(f.key);
    QuoteWritten(f.key);
    assert Part(f)[..|q|] == q && Part(f)[|q|] == 0x3A;
  }

  // ---- Strings are printed so that they parse back, and without lone surrogates ----

  lemma HexParses(u: CodeUnit, rest: Text)
    ensures ParseHex((UnicodeEscape(u) + rest)[2..]) == Some(u)
  {
    var s := (UnicodeEscape(u) + rest)[2..];
    var x := u / 16;
    HexDigitParses(x / 16 / 16);
    HexDigitParses(x / 16 % 16);
    HexDigitParses(x % 16);
    HexDigitParses(u % 16);
    assert s[0] == HexDigit(x / 16 / 16) && s[1] == HexDigit(x / 16 % 16);
    assert s[2] == HexDigit(x % 16) && s[3] == HexDigit(u % 16);
    assert (x / 16 / 16) * 16 + x / 16 % 16 == x / 16;
    assert (x / 16) * 16 + x % 16 == x;
  }

  lemma HexDigitParses(d: nat)
    requires d < 16
    ensures HexValue(HexDigit(d)) == Some(d)
  {
  }

  lemma EscapeUnitParses(u: CodeUnit, rest: Text)
    ensures ParseChars(EscapeUnit(u) + rest) == Prepend(u, ParseChars(rest))
  {
    var e := EscapeUnit(u);
    if |e| == 1 {
      assert ([u] + rest)[1..] == rest;
    } else if e[1] == LOWER_U {
      HexParses(u, rest);
      assert (e + rest)[6..] == rest;
    } else {
      assert (e + rest)[2..] == rest;
    }
  }

  lemma {:induction false} EscapeParses(t: Text, rest: Text)
    ensures ParseChars(Escape(t) + ([QUOTE] + rest)) == Good(t, rest)
  {
    var end := [QUOTE] + rest;
    if t == [] {
      assert [] + end == end;
      assert end[1..] == rest;
    } else if StartsPair(t) {
      EscapeParses(t[2..], rest);
      PairParses(t[0], t[1], Escape(t[2..]), end);
      assert t == [t[0]] + ([t[1]] + t[2..]);
    } else {
      EscapeParses(t[1..], rest);
      assert EscapeUnit(t[0]) + Escape(t[1..]) + end == EscapeUnit(t[0]) + (Escape(t[1..]) + end);
      EscapeUnitParses(t[0], Escape(t[1..]) + end);
      assert t == [t[0]] + t[1..];
    }
  }

  lemma PairParses(a: CodeUnit, b: CodeUnit, more: Text, end: Text)
    requires IsLead(a) && IsTrail(b)
    ensures ParseChars([a, b] + more + end) == Prepend(a, Prepend(b, ParseChars(more + end)))
  {
    var s := [a, b] + more + end;
    assert s[1..] == [b] + (more + end);
    assert s[1..][1..] == more + end;
  }

  lemma QuoteParses(t: Text, rest: Text)
    ensures (Quote(t) + rest)[0] == QUOTE
    ensures ParseChars((Quote(t) + rest)[1..]) == Good(t, rest)
  {
    EscapeParses(t, rest);
    assert (Quote(t) + rest)[1..] == Escape(t) + ([QUOTE] + rest);
  }

  // ---- The parser inverts the printer ----

  lemma ScalarParses(v: Value, rest: Text)
    requires Proper(v) && !v.Arr? && !v.Obj? && Ends(rest)
    ensures ParseValue(Scalar(v) + rest) == Good(Meaning(v), rest)
  {
    match v
    case Str(t) => StringParses(t, rest);
    case Num(Finite(t)) => NumberParses(t, rest);
    case Num(NegativeZero) => ZeroParses(rest);
    case Bool(b) => if b { TrueParses(rest); } else { FalseParses(rest); }
    case _ => NullParses(rest);
  }

  lemma StringParses(t: Text, rest: Text)
    ensures ParseValue(Quote(t) + rest) == Good(JString(t), rest)
  {
    QuoteParses(t, rest);
  }

  lemma NumberParses(t: Text, rest: Text)
    requires IsNumeral(t) && Ends(rest)
    ensures ParseValue(t + rest) == Good(JNumber(t), rest)
  {
    NumeralParses(t, rest);
    WordParses(t + rest);
  }

  lemma WordParses(s: Text)
    requires s != [] && (IsDigit(s[0]) || s[0] == 0x2D)
    ensures ParseValue(s) == ParseNumber(s)
  {
    assert NULL_TEXT[0] == 0x6E && TRUE_TEXT[0] == 0x74 && FALSE_TEXT[0] == 0x66;
    assert !StartsWith(s, NULL_TEXT) && !StartsWith(s, TRUE_TEXT) && !StartsWith(s, FALSE_TEXT);
  }

  lemma NullParses(rest: Text)
    ensures ParseValue(NULL_TEXT + rest) == Good(JNull, rest)
  {
    assert (NULL_TEXT + rest)[..4] == NULL_TEXT;
  }

  lemma TrueParses(rest: Text)
    ensures ParseValue(TRUE_TEXT + rest) == Good(JBool(true), rest)
  {
    assert (TRUE_TEXT + rest)[..4] == TRUE_TEXT;
    assert (TRUE_TEXT + rest)[0] != NULL_TEXT[0];
  }

  lemma FalseParses(rest: Text)
    ensures ParseValue(FALSE_TEXT + rest) == Good(JBool(false), rest)
  {
    assert (FALSE_TEXT + rest)[..5] == FALSE_TEXT;
    assert (FALSE_TEXT + rest)[0] != NULL_TEXT[0] && (FALSE_TEXT + rest)[0] != TRUE_TEXT[0];
  }

  lemma ZeroParses(rest: Text)
    requires Ends(rest)
    ensures ParseValue([0x30] + rest) == Good(JNumber([0x30]), rest)
  {
    var zero: Text := [0x30];
    assert DigitRun(zero[1..]) == 0;
    assert DigitRun(zero) == 1;
    NumberParses(zero, rest);
  }

  lemma ItemsLast(s: Text, j: Json, rest: Text)
    requires ParseValue(s) == Good(j, [CLOSE_ARRAY] + rest)
    ensures ParseItems(s) == Good([j], rest)
  {
    assert ([CLOSE_ARRAY] + rest)[1..] == rest;
  }

  lemma ItemsMore(s: Text, j: Json, tail: Text, js: seq<Json>, rest: Text)
    requires ParseValue(s) == Good(j, [COMMA] + tail) && ParseItems(tail) == Good(js, rest)
    ensures ParseItems(s) == Good([j] + js, rest)
  {
    assert ([COMMA] + tail)[1..] == tail;
  }

  lemma ArrayParses(inner: Text, js: seq<Json>, rest: Text)
    requires ParseItems(inner + ([CLOSE_ARRAY] + rest)) == Good(js, rest)
    ensures ParseValue([OPEN_ARRAY] + (inner + [CLOSE_ARRAY]) + rest) == Good(JArray(js), rest)
  {
    var s := [OPEN_ARRAY] + (inner + [CLOSE_ARRAY]) + rest;
    Bracketed(OPEN_ARRAY, inner, CLOSE_ARRAY, rest);
    ItemsStart(s[1..]);
    ItemsToArray(s, js, rest);
  }

  lemma Bracketed(open: CodeUnit, inner: Text, close: CodeUnit, rest: Text)
    ensures var s := [open] + (inner + [close]) + rest;
      |s| > 1 && s[0] == open && s[1] == s[1..][0] && s[1..] == inner + ([close] + rest)
  {
  }

  lemma ItemsToArray(s: Text, js: seq<Json>, rest: Text)
    requires |s| > 1 && s[0] == OPEN_ARRAY && s[1] != CLOSE_ARRAY && ParseItems(s[1..]) == Good(js, rest)
    ensures ParseValue(s) == Good(JArray(js), rest)
  {
    assert ParseValue(s) == ParseArray(s);
  }

  /** Items never start like the end of an array. */
  lemma ItemsStart(t: Text)
    requires ParseItems(t).Good?
    ensures t != [] && t[0] != CLOSE_ARRAY
  {
    assert ParseValue(t).Good?;
  }

  lemma EmptyArrayParses(rest: Text)
    ensures ParseValue([OPEN_ARRAY] + (Join([], [COMMA]) + [CLOSE_ARRAY]) + rest) == Good(JArray([]), rest)
  {
    var s := [OPEN_ARRAY] + (Join([], [COMMA]) + [CLOSE_ARRAY]) + rest;
    assert s[2..] == rest;
  }

  lemma MembersLast(s: Text, k: Text, j: Json, rest: Text)
    requires ParseMember(s) == Good((k, j), [CLOSE_OBJECT] + rest)
    ensures ParseMembers(s) == Good(map[k := j], rest)
  {
    assert ([CLOSE_OBJECT] + rest)[1..] == rest;
  }

  lemma MembersMore(s: Text, k: Text, j: Json, tail: Text, m: map<Text, Json>, rest: Text)
    requires ParseMember(s) == Good((k, j), [COMMA] + tail) && ParseMembers(tail) == Good(m, rest)
    ensures ParseMembers(s) == Good(map[k := j] + m, rest)
  {
    assert ([COMMA] + tail)[1..] == tail;
  }

  lemma MemberIs(s: Text, k: Text, after: Text, j: Json, tail: Text)
    requires s != [] && s[0] == QUOTE && ParseChars(s[1..]) == Good(k, [COLON] + after)
    requires ParseValue(after) == Good(j, tail)
    ensures ParseMember(s) == Good((k, j), tail)
  {
    assert ([COLON] + after)[0] == COLON && ([COLON] + after)[1..] == after;
  }

  lemma MemberText(k: Text, text: Text, tail: Text)
    ensures Quote(k) + ([COLON] + text) + tail == Quote(k) + ([COLON] + (text + tail))
  {
  }

  lemma MemberParses(k: Text, text: Text, j: Json, tail: Text)
    requires ParseValue(text + tail) == Good(j, tail)
    ensures ParseMember(Quote(k) + ([COLON] + text) + tail) == Good((k, j), tail)
  {
    var s := Quote(k) + ([COLON] + (text + tail));
    MemberText(k, text, tail);
    QuoteParses(k, [COLON] + (text + tail));
    MemberIs(s, k, text + tail, j, tail);
  }

  lemma ObjectParses(inner: Text, m: map<Text, Json>, rest: Text)
    requires ParseMembers(inner + ([CLOSE_OBJECT] + rest)) == Good(m, rest)
    ensures ParseValue([OPEN_OBJECT] + (inner + [CLOSE_OBJECT]) + rest) == Good(JObject(m), rest)
  {
    var s := [OPEN_OBJECT] + (inner + [CLOSE_OBJECT]) + rest;
    var t := inner + ([CLOSE_OBJECT] + rest);
    assert s[1..] == t;
    assert ParseMember(t).Good?;
    assert t[0] == QUOTE && t[0] == s[1];
  }

  lemma EmptyObjectParses(rest: Text)
    ensures ParseValue([OPEN_OBJECT] + (Join([], [COMMA]) + [CLOSE_OBJECT]) + rest) == Good(JObject(map[]), rest)
  {
    var s := [OPEN_OBJECT] + (Join([], [COMMA]) + [CLOSE_OBJECT]) + rest;
    assert s[2..] == rest;
  }

  /**
   Parsing what was printed gives the value's meaning, in any context: whatever follows that
   does not go on with a numeral.
   */
  lemma {:induction false} CanonicalParses(v: Value, rest: Text)
    requires Proper(v) && Ends(rest)
    ensures ParseValue(Canonical(v) + rest) == Good(Meaning(v), rest)
    decreases Size(v), 0
  {
    match v
    case Arr(items) =>
      if items == [] {
        EmptyArrayParses(rest);
      } else {
        ItemsParse(items, rest);
        ArrayParses(Join(Texts(items), [COMMA]), Meanings(items), rest);
      }
    case Obj(fields) =>
      var sorted := SortByKey(fields);
      ProperFieldsWellFormed(fields);
      SortMeans(fields);
      PartsEmpty(sorted);
      if Parts(sorted) == [] {
        EmptyObjectParses(rest);
      } else {
        MembersParse(sorted, rest);
        ObjectParses(Join(Parts(sorted), [COMMA]), Defined(sorted), rest);
      }
    case _ => ScalarParses(v, rest);
  }

  lemma {:induction false} ItemsParse(items: seq<Value>, rest: Text)
    requires items != [] && ProperItems(items)
    ensures ParseItems(Join(Texts(items), [COMMA]) + ([CLOSE_ARRAY] + rest)) == Good(Meanings(items), rest)
    decreases SizeItems(items), 1
  {
    var first, end := Canonical(items[0]), [CLOSE_ARRAY] + rest;
    if |items| == 1 {
      assert items[1..] == [];
      assert Texts(items) == [first] && Meanings(items) == [Meaning(items[0])];
      CanonicalParses(items[0], end);
      ItemsLast(first + end, Meaning(items[0]), rest);
    } else {
      ItemsParse(items[1..], rest);
      var more := Join(Texts(items[1..]), [COMMA]);
      JoinCons(first, Texts(items[1..]), end);
      CanonicalParses(items[0], [COMMA] + (more + end));
      ItemsMore(first + ([COMMA] + (more + end)), Meaning(items[0]), more + end, Meanings(items[1..]), rest);
    }
  }

  lemma JoinCons(first: Text, more: seq<Text>, end: Text)
    requires more != []
    ensures Join([first] + more, [COMMA]) + end == first + ([COMMA] + (Join(more, [COMMA]) + end))
  {
    assert ([first] + more)[1..] == more;
  }

  lemma {:induction false} PartsEmpty(fields: seq<Field>)
    ensures Parts(fields) == [] <==> Defined(fields) == map[]
    decreases |fields|
  {
    if fields != [] {
      PartsEmpty(fields[1..]);
      if !fields[0].value.Undefined? {
        assert fields[0].key in Defined(fields);
      }
    }
  }

  lemma {:induction false} MembersParse(fields: seq<Field>, rest: Text)
    requires ProperFields(fields) && Parts(fields) != []
    ensures ParseMembers(Join(Parts(fields), [COMMA]) + ([CLOSE_OBJECT] + rest)) == Good(Defined(fields), rest)
    decreases SizeFields(fields), 1
  {
    var f, end := fields[0], [CLOSE_OBJECT] + rest;
    if f.value.Undefined? {
      MembersParse(fields[1..], rest);
    } else {
      var first, others := Part(f), Parts(fields[1..]);
      PartsEmpty(fields[1..]);
      if others == [] {
        CanonicalParses(f.value, end);
        MemberParses(f.key, Canonical(f.value), Meaning(f.value), end);
        MembersLast(first + end, f.key, Meaning(f.value), rest);
        assert Defined(fields) == map[f.key := Meaning(f.value)];
      } else {
        MembersParse(fields[1..], rest);
        var more := Join(others, [COMMA]) + end;
        JoinCons(first, others, end);
        CanonicalParses(f.value, [COMMA] + more);
        MemberParses(f.key, Canonical(f.value), Meaning(f.value), [COMMA] + more);
        MembersMore(first + ([COMMA] + more), f.key, Meaning(f.value), more, Defined(fields[1..]), rest);
      }
    }
  }

  // ---- Sorting keeps the meaning ----

  lemma {:induction false} InsertHasKey(f: Field, fields: seq<Field>, k: Text)
    ensures HasKey(Insert(f, fields), k) <==> k == f.key || HasKey(fields, k)
  {
    if fields == [] || Less(f.key, fields[0].key) {
      HasKeyCons(f, fields, k);
    } else {
      InsertHasKey(f, fields[1..], k);
      HasKeyCons(fields[0], Insert(f, fields[1..]), k);
      HasKeyCons(fields[0], fields[1..], k);
      assert [fields[0]] + fields[1..] == fields;
    }
  }

  lemma HasKeyCons(f: Field, fields: seq<Field>, k: Text)
    ensures HasKey([f] + fields, k) <==> k == f.key || HasKey(fields, k)
  {
    var all := [f] + fields;
    assert all[0] == f;
    if HasKey(fields, k) {
      var i :| 0 <= i < |fields| && fields[i].key == k;
      assert all[i + 1].key == k;
    }
    if HasKey(all, k) && k != f.key {
      var i :| 0 <= i < |all| && all[i].key == k;
      assert fields[i - 1].key == k;
    }
  }

  lemma DefinedCons(f: Field, fields: seq<Field>)
    ensures Defined([f] + fields) ==
      if f.value.Undefined? then Defined(fields) else map[f.key := Meaning(f.value)] + Defined(fields)
    ensures ProperFields([f] + fields) <==> Proper(f.value) && !HasKey(fields, f.key) && ProperFields(fields)
    ensures WellFormedFields([f] + fields) <==>
      WellFormed(f.value) && !HasKey(fields, f.key) && WellFormedFields(fields)
  {
    assert ([f] + fields)[1..] == fields;
  }

  lemma {:induction false} InsertMeans(f: Field, fields: seq<Field>)
    requires WellFormed(f.value) && !HasKey(fields, f.key) && WellFormedFields(fields)
    ensures WellFormedFields(Insert(f, fields))
    ensures ProperFields(Insert(f, fields)) <==> ProperFields([f] + fields)
    ensures Defined(Insert(f, fields)) == Defined([f] + fields)
  {
    DefinedCons(f, fields);
    if fields != [] && !Less(f.key, fields[0].key) {
      var g, rest := fields[0], Insert(f, fields[1..]);
      assert [g] + fields[1..] == fields;
      HasKeyCons(g, fields[1..], f.key);
      InsertMeans(f, fields[1..]);
      InsertHasKey(f, fields[1..], g.key);
      DefinedCons(g, rest);
      DefinedSwap(f, g, fields[1..]);
      DefinedCons(f, fields[1..]);
    }
  }

  /** Fields of different keys can trade places. */
  lemma DefinedSwap(f: Field, g: Field, fields: seq<Field>)
    requires f.key != g.key
    ensures Defined([f] + ([g] + fields)) ==
      if g.value.Undefined? then Defined([f] + fields) else map[g.key := Meaning(g.value)] + Defined([f] + fields)
  {
    DefinedCons(f, [g] + fields);
    DefinedCons(g, fields);
    DefinedCons(f, fields);
  }

  lemma {:induction false} SortMeans(fields: seq<Field>)
    requires WellFormedFields(fields)
    ensures WellFormedFields(SortByKey(fields)) && Defined(SortByKey(fields)) == Defined(fields)
    ensures ProperFields(SortByKey(fields)) <==> ProperFields(fields)
    decreases |fields|
  {
    if fields != [] {
      SortMeans(fields[1..]);
      SortHasKey(fields[1..], fields[0].key);
      var sorted := SortByKey(fields[1..]);
      InsertMeans(fields[0], sorted);
      DefinedCons(fields[0], sorted);
    }
  }

  lemma {:induction false} ProperIsWellFormed(v: Value)
    requires Proper(v)
    ensures WellFormed(v)
    decreases Size(v), 0
  {
    match v
    case Arr(items) => ProperItemsWellFormed(items);
    case Obj(fields) => ProperFieldsWellFormed(fields);
    case _ =>
  }

  lemma {:induction false} ProperItemsWellFormed(items: seq<Value>)
    requires ProperItems(items)
    ensures WellFormedItems(items)
    decreases SizeItems(items), 1
  {
    if items != [] {
      ProperIsWellFormed(items[0]);
      ProperItemsWellFormed(items[1..]);
    }
  }

  lemma {:induction false} ProperFieldsWellFormed(fields: seq<Field>)
    requires ProperFields(fields)
    ensures WellFormedFields(fields)
    decreases SizeFields(fields), 1
  {
    if fields != [] {
      ProperIsWellFormed(fields[0].value);
      ProperFieldsWellFormed(fields[1..]);
    }
  }

  lemma {:induction false} SortHasKey(fields: seq<Field>, k: Text)
    ensures HasKey(SortByKey(fields), k) <==> HasKey(fields, k)
    decreases |fields|
  {
    if fields != [] {
      SortHasKey(fields[1..], k);
      InsertHasKey(fields[0], SortByKey(fields[1..]), k);
      HasKeyCons(fields[0], fields[1..], k);
      assert [fields[0]] + fields[1..] == fields;
    }
  }

  // ---- The order of keys ----

  lemma {:induction false} LessTotal(a: Text, b: Text)
    ensures Less(a, b) || a == b || Less(b, a)
  {
    if a != [] && b != [] && a[0] == b[0] {
      LessTotal(a[1..], b[1..]);
      assert a == [a[0]] + a[1..] && b == [b[0]] + b[1..];
    }
  }

  lemma {:induction false} LessAsymmetric(a: Text, b: Text)
    requires Less(a, b)
    ensures !Less(b, a) && a != b
  {
    if a != [] && a[0] == b[0] {
      LessAsymmetric(a[1..], b[1..]);
    }
  }

  lemma {:induction false} LessTransitive(a: Text, b: Text, c: Text)
    requires Less(a, b) && Less(b, c)
    ensures Less(a, c)
  {
    if a != [] && a[0] == b[0] == c[0] {
      LessTransitive(a[1..], b[1..], c[1..]);
    }
  }

  predicate Above(fields: seq<Field>, k: Text) {
    fields == [] || (Less(k, fields[0].key) && Above(fields[1..], k))
  }

  predicate Sorted(fields: seq<Field>) {
    fields == [] || (Above(fields[1..], fields[0].key) && Sorted(fields[1..]))
  }

  lemma {:induction false} AboveLower(fields: seq<Field>, k: Text, lower: Text)
    requires Above(fields, k) && Less(lower, k)
    ensures Above(fields, lower)
  {
    if fields != [] {
      LessTransitive(lower, k, fields[0].key);
      AboveLower(fields[1..], k, lower);
    }
  }

  lemma {:induction false} InsertAbove(f: Field, fields: seq<Field>, k: Text)
    requires Above(fields, k) && Less(k, f.key)
    ensures Above(Insert(f, fields), k)
  {
    if fields == [] || Less(f.key, fields[0].key) {
      assert ([f] + fields)[1..] == fields;
    } else {
      InsertAbove(f, fields[1..], k);
      assert ([fields[0]] + Insert(f, fields[1..]))[1..] == Insert(f, fields[1..]);
    }
  }

  lemma {:induction false} InsertSorted(f: Field, fields: seq<Field>)
    requires Sorted(fields) && !HasKey(fields, f.key)
    ensures Sorted(Insert(f, fields))
  {
    if fields == [] {
      assert [f][1..] == [];
    } else if Less(f.key, fields[0].key) {
      assert ([f] + fields)[1..] == fields;
      AboveLower(fields[1..], fields[0].key, f.key);
    } else {
      var g, rest := fields[0], Insert(f, fields[1..]);
      assert [g] + fields[1..] == fields;
      HasKeyCons(g, fields[1..], f.key);
      LessTotal(f.key, g.key);
      InsertSorted(f, fields[1..]);
      InsertAbove(f, fields[1..], g.key);
      assert ([g] + rest)[1..] == rest;
    }
  }

  lemma {:induction false} SortSorts(fields: seq<Field>)
    requires WellFormedFields(fields)
    ensures Sorted(SortByKey(fields))
    decreases |fields|
  {
    if fields != [] {
      SortSorts(fields[1..]);
      SortHasKey(fields[1..], fields[0].key);
      InsertSorted(fields[0], SortByKey(fields[1..]));
    }
  }

  /** At the first place where they differ a has the smaller code unit, or a ends there. */
  predicate Precedes(a: Text, b: Text) {
    exists n :: 0 <= n <= |a| && n < |b| && a[..n] == b[..n] && (n < |a| ==> a[n] < b[n])
  }

  lemma {:induction false} LessPrecedes(a: Text, b: Text)
    requires Less(a, b)
    ensures Precedes(a, b)
  {
    if a == [] || a[0] < b[0] {
      assert a[..0] == b[..0];
    } else {
      LessPrecedes(a[1..], b[1..]);
      var x, y := a[1..], b[1..];
      var n :| 0 <= n <= |x| && n < |y| && x[..n] == y[..n] && (n < |x| ==> x[n] < y[n]);
      assert a[..n + 1] == [a[0]] + a[1..][..n] && b[..n + 1] == [b[0]] + b[1..][..n];
    }
  }

  lemma {:induction false} AboveAt(fields: seq<Field>, k: Text, j: nat)
    requires Above(fields, k) && j < |fields|
    ensures Less(k, fields[j].key)
  {
    if j > 0 {
      AboveAt(fields[1..], k, j - 1);
    }
  }

  lemma {:induction false} SortedAt(fields: seq<Field>, i: nat, j: nat)
    requires Sorted(fields) && i < j < |fields|
    ensures Less(fields[i].key, fields[j].key)
  {
    if i == 0 {
      AboveAt(fields[1..], fields[0].key, j - 1);
    } else {
      SortedAt(fields[1..], i - 1, j - 1);
    }
  }

  /** The keys come out in ascending order of their code units. */
  lemma KeysAscend(fields: seq<Field>, i: nat, j: nat)
    requires WellFormedFields(fields) && i < j < |SortByKey(fields)|
    ensures Precedes(SortByKey(fields)[i].key, SortByKey(fields)[j].key)
  {
    SortSorts(fields);
    SortedAt(SortByKey(fields), i, j);
    LessPrecedes(SortByKey(fields)[i].key, SortByKey(fields)[j].key);
  }

  lemma {:induction false} AboveDefined(fields: seq<Field>, k: Text, d: Text)
    requires Above(fields, k) && d in Defined(fields)
    ensures Less(k, d)
    decreases |fields|
  {
    if fields[0].value.Undefined? || d != fields[0].key {
      AboveDefined(fields[1..], k, d);
    }
  }

  // ---- One meaning, one text ----

  /** Values that mean the same print the same. */
  lemma {:induction false} SameMeaningSameText(v: Value, w: Value)
    requires Proper(v) && Proper(w) && Meaning(v) == Meaning(w)
    ensures Canonical(v) == Canonical(w)
    decreases Size(v), 0
  {
    if v.Arr? {
      SameItems(v.items, w.items);
    } else if v.Obj? {
      ProperFieldsWellFormed(v.fields);
      ProperFieldsWellFormed(w.fields);
      SortMeans(v.fields);
      SortMeans(w.fields);
      SortSorts(v.fields);
      SortSorts(w.fields);
      SameParts(SortByKey(v.fields), SortByKey(w.fields));
    }
  }

  lemma {:induction false} SameItems(xs: seq<Value>, ys: seq<Value>)
    requires ProperItems(xs) && ProperItems(ys) && Meanings(xs) == Meanings(ys)
    ensures Texts(xs) == Texts(ys)
    decreases SizeItems(xs), 1
  {
    assert |Meanings(xs)| == |xs| && |Meanings(ys)| == |ys|;
    if xs != [] {
      var mx, my := Meanings(xs), Meanings(ys);
      assert mx[0] == Meaning(xs[0]) && my[0] == Meaning(ys[0]);
      assert mx[1..] == Meanings(xs[1..]) && my[1..] == Meanings(ys[1..]);
      SameMeaningSameText(xs[0], ys[0]);
      SameItems(xs[1..], ys[1..]);
    }
  }

  lemma {:induction false} SameParts(xs: seq<Field>, ys: seq<Field>)
    requires ProperFields(xs) && ProperFields(ys) && Sorted(xs) && Sorted(ys) && Defined(xs) == Defined(ys)
    ensures Parts(xs) == Parts(ys)
    decreases SizeFields(xs), 1, |ys|
  {
    if xs != [] && xs[0].value.Undefined? {
      SameParts(xs[1..], ys);
    } else if ys != [] && ys[0].value.Undefined? {
      SameParts(xs, ys[1..]);
    } else if xs == [] || ys == [] {
      PartsEmpty(xs);
      PartsEmpty(ys);
    } else {
      SameHeads(xs, ys);
      SameMeaningSameText(xs[0].value, ys[0].value);
      SameParts(xs[1..], ys[1..]);
    }
  }

  /** The least key of the two maps is the same, and so are its value and the rest. */
  lemma SameHeads(xs: seq<Field>, ys: seq<Field>)
    requires xs != [] && ys != [] && Sorted(xs) && Sorted(ys) && Defined(xs) == Defined(ys)
    requires !xs[0].value.Undefined? && !ys[0].value.Undefined?
    ensures xs[0].key == ys[0].key && Meaning(xs[0].value) == Meaning(ys[0].value)
    ensures Defined(xs[1..]) == Defined(ys[1..])
  {
    var k, l := xs[0].key, ys[0].key;
    assert k in Defined(xs) && l in Defined(ys);
    if k != l {
      assert l in Defined(xs[1..]) && k in Defined(ys[1..]);
      AboveDefined(xs[1..], k, l);
      AboveDefined(ys[1..], l, k);
      LessAsymmetric(k, l);
    }
    NotBelow(xs);
    NotBelow(ys);
    assert Defined(xs[1..]) == Defined(xs) - {k};
    assert Defined(ys[1..]) == Defined(ys) - {k};
    assert Defined(xs)[k] == Meaning(xs[0].value) && Defined(ys)[k] == Meaning(ys[0].value);
  }

  lemma NotBelow(xs: seq<Field>)
    requires xs != [] && Sorted(xs)
    ensures xs[0].key !in Defined(xs[1..])
  {
    var k := xs[0].key;
    if k in Defined(xs[1..]) {
      AboveDefined(xs[1..], k, k);
      LessAsymmetric(k, k);
    }
  }

  /**
   Cache identity: two values have one canonical text exactly when they mean the same JSON, so
   before hashing cache keys neither collide nor split.
   */
  lemma CanonicalIdentity(v: Value, w: Value)
    requires Proper(v) && Proper(w)
    ensures Canonical(v) == Canonical(w) <==> Meaning(v) == Meaning(w)
  {
    if Meaning(v) == Meaning(w) {
      SameMeaningSameText(v, w);
    }
    CanonicalParses(v, []);
    CanonicalParses(w, []);
    assert Canonical(v) + [] == Canonical(v) && Canonical(w) + [] == Canonical(w);
  }

  // ---- Arrays with holes ----

  /** An array of one hole prints like the empty array, which means something else. */
  lemma HoleCollides()
    ensures Canonical(Arr([Hole])) == Canonical(Arr([]))
    ensures Meaning(Arr([Hole])) != Meaning(Arr([]))
  {
    assert Texts([Hole]) == [[]];
    assert Join(Texts([Hole]), [COMMA]) == Join(Texts([]), [COMMA]);
    assert |Meanings([Hole])| == 1;
  }

  /** A value that is not read back: either no value is, or another one. */
  predicate Misread<T(==)>(r: Parsed<T>, value: T, rest: Text) {
    r.Bad? || (r.rest == rest && r.value != value)
  }

  /** The text of a value that is no hole starts like a value. */
  lemma CanonicalHead(v: Value)
    requires WellFormed(v)
    ensures Canonical(v) != [] && Canonical(v)[0] != CLOSE_ARRAY
  {
    if v.Num? && v.n.Finite? {
      NumeralParses(v.n.numeral, []);
    }
  }

  /** Where a hole stands, no value can be read. */
  lemma HoleUnread(u: CodeUnit, after: Text)
    requires u == COMMA || u == CLOSE_ARRAY
    ensures ParseItems([u] + after).Bad?
  {
    var s := [u] + after;
    assert NULL_TEXT[0] == 0x6E && TRUE_TEXT[0] == 0x74 && FALSE_TEXT[0] == 0x66;
    assert !StartsWith(s, NULL_TEXT) && !StartsWith(s, TRUE_TEXT) && !StartsWith(s, FALSE_TEXT);
    assert NumeralRun(s) == 0;
  }

  /** The first item decides, or the others do. */
  lemma ItemsMisread(s: Text, j: Json, tail: Text, js: seq<Json>, rest: Text)
    requires var p := ParseValue(s);
      || p.Bad?
      || (p == Good(j, [COMMA] + tail) && Misread(ParseItems(tail), js, rest))
      || (p.rest == [COMMA] + tail && p.value != j && (ParseItems(tail).Bad? || ParseItems(tail).rest == rest))
    ensures Misread(ParseItems(s), [j] + js, rest)
  {
    assert ([COMMA] + tail)[0] == COMMA && ([COMMA] + tail)[1..] == tail;
    var q := ParseItems(s);
    if q.Good? {
      var p, r := ParseValue(s), ParseItems(tail);
      assert q.value == [p.value] + r.value;
      assert q.value[0] == p.value && q.value[1..] == r.value;
      assert ([j] + js)[0] == j && ([j] + js)[1..] == js;
    }
  }

  lemma LastMisread(s: Text, j: Json, rest: Text)
    requires Misread(ParseValue(s), j, [CLOSE_ARRAY] + rest)
    ensures Misread(ParseItems(s), [j], rest)
  {
    assert ([CLOSE_ARRAY] + rest)[1..] == rest;
  }

  lemma {:induction false} ItemsNotParsed(items: seq<Value>, rest: Text)
    requires items != [] && WellFormedItems(items) && !ProperItems(items)
    ensures Misread(ParseItems(Join(Texts(items), [COMMA]) + ([CLOSE_ARRAY] + rest)), Meanings(items), rest)
    decreases SizeItems(items), 1
  {
    var first, end := Canonical(items[0]), [CLOSE_ARRAY] + rest;
    if |items| == 1 {
      assert items[1..] == [];
      assert Texts(items) == [first] && Meanings(items) == [Meaning(items[0])];
      if items[0].Hole? {
        assert [] + end == end;
        HoleUnread(CLOSE_ARRAY, rest);
      } else {
        CanonicalNotParsed(items[0], end);
        LastMisread(first + end, Meaning(items[0]), rest);
      }
    } else {
      var more := Join(Texts(items[1..]), [COMMA]) + end;
      JoinCons(first, Texts(items[1..]), end);
      OthersParsed(items[1..], rest);
      if items[0].Hole? {
        assert [] + ([COMMA] + more) == [COMMA] + more;
        HoleUnread(COMMA, more);
      } else {
        if Proper(items[0]) {
          CanonicalParses(items[0], [COMMA] + more);
        } else {
          CanonicalNotParsed(items[0], [COMMA] + more);
        }
        ItemsMisread(first + ([COMMA] + more), Meaning(items[0]), more, Meanings(items[1..]), rest);
      }
    }
  }

  /** The items after one that was misread: read, misread, or not read at all. */
  lemma {:induction false} OthersParsed(items: seq<Value>, rest: Text)
    requires items != [] && WellFormedItems(items)
    ensures var r := ParseItems(Join(Texts(items), [COMMA]) + ([CLOSE_ARRAY] + rest));
      if ProperItems(items) then r == Good(Meanings(items), rest) else Misread(r, Meanings(items), rest)
    decreases SizeItems(items), 2
  {
    if ProperItems(items) {
      ItemsParse(items, rest);
    } else {
      ItemsNotParsed(items, rest);
    }
  }

  lemma ArrayIs(s: Text)
    requires |s| > 1 && s[0] == OPEN_ARRAY && s[1] != CLOSE_ARRAY
    ensures var p := ParseItems(s[1..]);
      ParseValue(s) == if p.Good? then Good(JArray(p.value), p.rest) else Bad
  {
    assert ParseValue(s) == ParseArray(s);
  }

  lemma ArrayText(inner: Text, rest: Text)
    requires inner != []
    ensures var s := [OPEN_ARRAY] + (inner + [CLOSE_ARRAY]) + rest;
      |s| > 1 && s[0] == OPEN_ARRAY && s[1] == inner[0] && s[1..] == inner + ([CLOSE_ARRAY] + rest)
  {
  }

  lemma ArrayStarts(inner: Text, rest: Text)
    requires inner != [] && inner[0] != CLOSE_ARRAY
    ensures var s := [OPEN_ARRAY] + (inner + [CLOSE_ARRAY]) + rest;
      var p := ParseItems(inner + ([CLOSE_ARRAY] + rest));
      ParseValue(s) == if p.Good? then Good(JArray(p.value), p.rest) else Bad
  {
    ArrayText(inner, rest);
    ArrayIs([OPEN_ARRAY] + (inner + [CLOSE_ARRAY]) + rest);
  }

  lemma ArrayMisread(inner: Text, js: seq<Json>, rest: Text)
    requires inner != [] && inner[0] != CLOSE_ARRAY
    requires Misread(ParseItems(inner + ([CLOSE_ARRAY] + rest)), js, rest)
    ensures Misread(ParseValue([OPEN_ARRAY] + (inner + [CLOSE_ARRAY]) + rest), JArray(js), rest)
  {
    ArrayStarts(inner, rest);
  }

  lemma InnerHead(items: seq<Value>)
    requires items != [] && WellFormedItems(items) && items != [Hole]
    ensures var inner := Join(Texts(items), [COMMA]); inner != [] && inner[0] != CLOSE_ARRAY
  {
    var first := Canonical(items[0]);
    if !items[0].Hole? {
      CanonicalHead(items[0]);
    }
    if |items| == 1 {
      assert Texts(items) == [first];
      assert items == [items[0]];
    } else {
      JoinCons(first, Texts(items[1..]), []);
      var inner := Join(Texts(items), [COMMA]);
      assert inner + [] == inner;
    }
  }

  /** Members: the names are read in any case, so a misread value makes a different object. */
  predicate Mismapped(r: Parsed<map<Text, Json>>, m: map<Text, Json>, rest: Text) {
    r.Bad? || (r.rest == rest && r.value != m && r.value.Keys == m.Keys)
  }

  lemma MembersMisread(s: Text, k: Text, j: Json, tail: Text, m: map<Text, Json>, rest: Text)
    requires k !in m
    requires var p := ParseMember(s);
      || p.Bad?
      || (p == Good((k, j), [COMMA] + tail) && Mismapped(ParseMembers(tail), m, rest))
      || (p.rest == [COMMA] + tail && p.value.0 == k && p.value.1 != j
          && (ParseMembers(tail) == Good(m, rest) || Mismapped(ParseMembers(tail), m, rest)))
    ensures Mismapped(ParseMembers(s), map[k := j] + m, rest)
  {
    assert ([COMMA] + tail)[0] == COMMA && ([COMMA] + tail)[1..] == tail;
    var q := ParseMembers(s);
    if q.Good? {
      var p, r := ParseMember(s), ParseMembers(tail);
      assert q.value == map[k := p.value.1] + r.value && k !in r.value;
      MapsDiffer(k, p.value.1, j, r.value, m);
    }
  }

  lemma MapsDiffer(k: Text, i: Json, j: Json, l: map<Text, Json>, m: map<Text, Json>)
    requires k !in l && k !in m && l.Keys == m.Keys && (i != j || l != m)
    ensures map[k := i] + l != map[k := j] + m
    ensures (map[k := i] + l).Keys == (map[k := j] + m).Keys
  {
    var a, b := map[k := i] + l, map[k := j] + m;
    assert a[k] == i && b[k] == j;
    assert a - {k} == l && b - {k} == m;
  }

  lemma LastMemberMisread(s: Text, k: Text, j: Json, rest: Text)
    requires var p := ParseMember(s);
      p.Bad? || (p.rest == [CLOSE_OBJECT] + rest && p.value.0 == k && p.value.1 != j)
    ensures Mismapped(ParseMembers(s), map[k := j], rest)
  {
    assert ([CLOSE_OBJECT] + rest)[0] == CLOSE_OBJECT && ([CLOSE_OBJECT] + rest)[1..] == rest;
    var q := ParseMembers(s);
    if q.Good? {
      assert q.value[k] != map[k := j][k];
    }
  }

  /** A member whose value is misread has its name read all the same. */
  lemma MemberMisread(k: Text, text: Text, j: Json, tail: Text)
    requires Misread(ParseValue(text + tail), j, tail)
    ensures var p := ParseMember(Quote(k) + ([COLON] + text) + tail);
      p.Bad? || (p.rest == tail && p.value.0 == k && p.value.1 != j)
  {
    var s := Quote(k) + ([COLON] + (text + tail));
    MemberText(k, text, tail);
    QuoteParses(k, [COLON] + (text + tail));
    if ParseValue(text + tail).Good? {
      MemberIs(s, k, text + tail, ParseValue(text + tail).value, tail);
    } else {
      NoMember(s, k, text + tail);
    }
  }

  lemma NoMember(s: Text, k: Text, after: Text)
    requires s != [] && s[0] == QUOTE && ParseChars(s[1..]) == Good(k, [COLON] + after) && ParseValue(after).Bad?
    ensures ParseMember(s).Bad?
  {
    assert ([COLON] + after)[1..] == after;
  }

  lemma {:induction false} DefinedHasKey(fields: seq<Field>, k: Text)
    ensures k in Defined(fields) ==> HasKey(fields, k)
    decreases |fields|
  {
    if fields != [] {
      DefinedHasKey(fields[1..], k);
      HasKeyCons(fields[0], fields[1..], k);
      assert [fields[0]] + fields[1..] == fields;
    }
  }

  lemma {:induction false} MembersNotParsed(fields: seq<Field>, rest: Text)
    requires WellFormedFields(fields) && !ProperFields(fields) && Parts(fields) != []
    ensures Mismapped(ParseMembers(Join(Parts(fields), [COMMA]) + ([CLOSE_OBJECT] + rest)), Defined(fields), rest)
    decreases SizeFields(fields), 2
  {
    var f, end := fields[0], [CLOSE_OBJECT] + rest;
    if f.value.Undefined? {
      MembersNotParsed(fields[1..], rest);
    } else {
      DefinedHasKey(fields[1..], f.key);
      PartsEmpty(fields[1..]);
      if Parts(fields[1..]) == [] {
        LastMemberNotParsed(fields, rest);
      } else {
        if ProperFields(fields[1..]) {
          MembersParse(fields[1..], rest);
        } else {
          MembersNotParsed(fields[1..], rest);
        }
        var more := Join(Parts(fields[1..]), [COMMA]) + end;
        JoinCons(Part(f), Parts(fields[1..]), end);
        FirstMember(f, [COMMA] + more);
        MembersMisread(Part(f) + ([COMMA] + more), f.key, Meaning(f.value), more, Defined(fields[1..]), rest);
      }
    }
  }

  /** A field's text is read, or its value is misread. */
  lemma {:induction false} FirstMember(f: Field, tail: Text)
    requires WellFormed(f.value) && Ends(tail)
    ensures var p := ParseMember(Part(f) + tail);
      if Proper(f.value) then p == Good((f.key, Meaning(f.value)), tail)
      else p.Bad? || (p.rest == tail && p.value.0 == f.key && p.value.1 != Meaning(f.value))
    decreases 1 + Size(f.value), 0
  {
    if Proper(f.value) {
      CanonicalParses(f.value, tail);
      MemberParses(f.key, Canonical(f.value), Meaning(f.value), tail);
    } else {
      CanonicalNotParsed(f.value, tail);
      MemberMisread(f.key, Canonical(f.value), Meaning(f.value), tail);
    }
  }

  /** Undefined fields are proper, so the one that is printed is not. */
  lemma {:induction false} NothingPrinted(fields: seq<Field>)
    requires WellFormedFields(fields) && Parts(fields) == []
    ensures ProperFields(fields) && Defined(fields) == map[]
    decreases |fields|
  {
    if fields != [] {
      NothingPrinted(fields[1..]);
    }
  }

  lemma {:induction false} LastMemberNotParsed(fields: seq<Field>, rest: Text)
    requires fields != [] && WellFormedFields(fields) && !ProperFields(fields)
    requires !fields[0].value.Undefined? && Parts(fields[1..]) == []
    ensures Mismapped(ParseMembers(Join(Parts(fields), [COMMA]) + ([CLOSE_OBJECT] + rest)), Defined(fields), rest)
    decreases SizeFields(fields), 1
  {
    var f, end := fields[0], [CLOSE_OBJECT] + rest;
    NothingPrinted(fields[1..]);
    FirstMember(f, end);
    LastMemberMisread(Part(f) + end, f.key, Meaning(f.value), rest);
    assert Defined(fields) == map[f.key := Meaning(f.value)];
    assert Parts(fields) == [Part(f)];
  }

  lemma ObjectMisread(inner: Text, m: map<Text, Json>, rest: Text)
    requires inner != [] && inner[0] == QUOTE
    requires Mismapped(ParseMembers(inner + ([CLOSE_OBJECT] + rest)), m, rest)
    ensures Misread(ParseValue([OPEN_OBJECT] + (inner + [CLOSE_OBJECT]) + rest), JObject(m), rest)
  {
    var s := [OPEN_OBJECT] + (inner + [CLOSE_OBJECT]) + rest;
    assert s[1..] == inner + ([CLOSE_OBJECT] + rest) && s[0] == OPEN_OBJECT;
    assert s[1] == inner[0];
    assert ParseValue(s) == ParseObject(s);
  }

  lemma {:induction false} PartsHead(fields: seq<Field>)
    requires Parts(fields) != []
    ensures var inner := Join(Parts(fields), [COMMA]); inner != [] && inner[0] == QUOTE
    decreases |fields|
  {
    if fields[0].value.Undefined? {
      PartsHead(fields[1..]);
    }
  }

  /** A value with a hole anywhere is never read back from its text. */
  lemma {:induction false} CanonicalNotParsed(v: Value, rest: Text)
    requires WellFormed(v) && !Proper(v) && Ends(rest)
    ensures Misread(ParseValue(Canonical(v) + rest), Meaning(v), rest)
    decreases Size(v), 0
  {
    if v.Arr? {
      if v.items == [Hole] {
        HoleCollides();
        EmptyArrayParses(rest);
      } else {
        ItemsNotParsed(v.items, rest);
        InnerHead(v.items);
        ArrayMisread(Join(Texts(v.items), [COMMA]), Meanings(v.items), rest);
      }
    } else {
      var sorted := SortByKey(v.fields);
      SortMeans(v.fields);
      if Parts(sorted) == [] {
        NothingPrinted(sorted);
      }
      MembersNotParsed(sorted, rest);
      PartsHead(sorted);
      ObjectMisread(Join(Parts(sorted), [COMMA]), Defined(sorted), rest);
    }
  }

  /**
   Exactly which values their canonical text gives back: those without holes in their arrays. So a
   cache key with a hole in it stands for another input, or for no JSON text at all.
   */
  lemma ReadBackExactly(v: Value)
    requires WellFormed(v)
    ensures ParseValue(Canonical(v)) == Good(Meaning(v), []) <==> Proper(v)
  {
    assert Canonical(v) + [] == Canonical(v);
    if Proper(v) {
      CanonicalParses(v, []);
    } else {
      CanonicalNotParsed(v, []);
    }
  }

  // ---- Which values cache identity holds for ----

  /** The value with null in every hole, which is what JSON.stringify prints there. */
  function Filled(v: Value): Value
    decreases Size(v)
  {
    match v
    case Hole => Null
    case Arr(items) => Arr(FilledItems(items))
    case Obj(fields) => Obj(FilledFields(fields))
    case _ => v
  }

  function FilledItems(items: seq<Value>): seq<Value>
    decreases SizeItems(items)
  {
    if items == [] then [] else [Filled(items[0])] + FilledItems(items[1..])
  }

  function FilledFields(fields: seq<Field>): (filled: seq<Field>)
    ensures |filled| == |fields| && forall i :: 0 <= i < |fields| ==> filled[i].key == fields[i].key
    decreases SizeFields(fields)
  {
    if fields == [] then []
    else [Field(fields[0].key, Filled(fields[0].value))] + FilledFields(fields[1..])
  }

  lemma {:induction false} FilledSame(v: Value)
    requires WellFormed(v) || v.Hole?
    ensures Proper(Filled(v)) && Meaning(Filled(v)) == Meaning(v) && (Filled(v).Undefined? <==> v.Undefined?)
    decreases Size(v)
  {
    if v.Arr? {
      FilledItemsSame(v.items);
    } else if v.Obj? {
      FilledFieldsSame(v.fields);
    }
  }

  lemma {:induction false} FilledItemsSame(items: seq<Value>)
    requires WellFormedItems(items)
    ensures ProperItems(FilledItems(items)) && Meanings(FilledItems(items)) == Meanings(items)
    decreases SizeItems(items)
  {
    if items != [] {
      FilledSame(items[0]);
      FilledItemsSame(items[1..]);
      assert FilledItems(items)[0] == Filled(items[0]) && FilledItems(items)[1..] == FilledItems(items[1..]);
    }
  }

  lemma {:induction false} FilledFieldsSame(fields: seq<Field>)
    requires WellFormedFields(fields)
    ensures ProperFields(FilledFields(fields)) && Defined(FilledFields(fields)) == Defined(fields)
    decreases SizeFields(fields)
  {
    if fields != [] {
      FilledSame(fields[0].value);
      FilledFieldsSame(fields[1..]);
      assert FilledFields(fields)[0] == Field(fields[0].key, Filled(fields[0].value));
      assert FilledFields(fields)[1..] == FilledFields(fields[1..]);
      assert !HasKey(FilledFields(fields[1..]), fields[0].key);
    }
  }

  /** A value with a hole never prints like the same value with null in its place. */
  lemma HoleSplits(v: Value)
    requires WellFormed(v) && !Proper(v)
    ensures Proper(Filled(v)) && Meaning(Filled(v)) == Meaning(v) && Canonical(Filled(v)) != Canonical(v)
  {
    FilledSame(v);
    ReadBackExactly(v);
    CanonicalParses(Filled(v), []);
    assert Canonical(Filled(v)) + [] == Canonical(Filled(v));
  }

  /**
   Cache identity, exactly: a value prints like those values without holes that mean the same, and
   like no others, if and only if it has no hole itself.
   */
  lemma IdentityExactly(v: Value)
    requires WellFormed(v)
    ensures (forall w | Proper(w) :: Canonical(v) == Canonical(w) <==> Meaning(v) == Meaning(w)) <==> Proper(v)
  {
    if Proper(v) {
      forall w | Proper(w)
        ensures Canonical(v) == Canonical(w) <==> Meaning(v) == Meaning(w)
      {
        CanonicalIdentity(v, w);
      }
    } else {
      HoleSplits(v);
    }
  }

  // ---- The digest ----

  /** Every surrogate is half of a pair, so the text can be encoded as UTF-8 without loss. */
  predicate Paired(t: Text)
    decreases |t|
  {
    t == [] || (StartsPair(t) && Paired(t[2..])) || (!IsLead(t[0]) && !IsTrail(t[0]) && Paired(t[1..]))
  }

  lemma {:induction false} PairedConcat(a: Text, b: Text)
    requires Paired(a) && Paired(b)
    ensures Paired(a + b)
    decreases |a|
  {
    if a == [] {
      assert a + b == b;
    } else if StartsPair(a) {
      PairedConcat(a[2..], b);
      assert (a + b)[2..] == a[2..] + b;
    } else {
      PairedConcat(a[1..], b);
      assert (a + b)[1..] == a[1..] + b;
    }
  }

  /** Texts without surrogates at all. */
  lemma {:induction false} PlainPaired(t: Text)
    requires forall i :: 0 <= i < |t| ==> t[i] < 0xD800
    ensures Paired(t)
    decreases |t|
  {
    if t != [] {
      PlainPaired(t[1..]);
    }
  }

  lemma EscapeUnitPaired(u: CodeUnit)
    ensures Paired(EscapeUnit(u))
  {
    if !(0xD800 <= u && EscapeUnit(u) == [u]) {
      PlainPaired(EscapeUnit(u));
    } else {
      assert EscapeUnit(u)[1..] == [];
    }
  }

  lemma {:induction false} EscapePaired(t: Text)
    ensures Paired(Escape(t))
    decreases |t|
  {
    if t != [] {
      if StartsPair(t) {
        EscapePaired(t[2..]);
        var e := [t[0], t[1]] + Escape(t[2..]);
        assert e[2..] == Escape(t[2..]);
      } else {
        EscapePaired(t[1..]);
        EscapeUnitPaired(t[0]);
        PairedConcat(EscapeUnit(t[0]), Escape(t[1..]));
      }
    }
  }

  lemma UnitPaired(u: CodeUnit)
    requires u < 0xD800
    ensures Paired([u])
  {
    PlainPaired([u]);
  }

  lemma QuotePaired(t: Text)
    ensures Paired(Quote(t))
  {
    EscapePaired(t);
    UnitPaired(QUOTE);
    PairedConcat(Escape(t), [QUOTE]);
    PairedConcat([QUOTE], Escape(t) + [QUOTE]);
  }

  predicate AllPaired(pieces: seq<Text>) {
    pieces == [] || (Paired(pieces[0]) && AllPaired(pieces[1..]))
  }

  lemma {:induction false} JoinPaired(pieces: seq<Text>)
    requires AllPaired(pieces)
    ensures Paired(Join(pieces, [COMMA]))
  {
    if |pieces| > 1 {
      JoinPaired(pieces[1..]);
      UnitPaired(COMMA);
      PairedConcat(pieces[0], [COMMA]);
      PairedConcat(pieces[0] + [COMMA], Join(pieces[1..], [COMMA]));
    }
  }

  lemma Enclosed(open: CodeUnit, inner: Text, close: CodeUnit)
    requires open < 0xD800 && close < 0xD800 && Paired(inner)
    ensures Paired([open] + (inner + [close]))
  {
    UnitPaired(open);
    UnitPaired(close);
    PairedConcat(inner, [close]);
    PairedConcat([open], inner + [close]);
  }

  /** The canonical text never has a lone surrogate, whatever strings the value holds. */
  lemma {:induction false} CanonicalPaired(v: Value)
    requires Proper(v)
    ensures Paired(Canonical(v))
    decreases Size(v), 0
  {
    if v.Arr? {
      TextsPaired(v.items);
      JoinPaired(Texts(v.items));
      Enclosed(OPEN_ARRAY, Join(Texts(v.items), [COMMA]), CLOSE_ARRAY);
    } else if v.Obj? {
      var sorted := SortByKey(v.fields);
      ProperFieldsWellFormed(v.fields);
      SortMeans(v.fields);
      PartsPaired(sorted);
      JoinPaired(Parts(sorted));
      Enclosed(OPEN_OBJECT, Join(Parts(sorted), [COMMA]), CLOSE_OBJECT);
    } else if v.Str? {
      QuotePaired(v.text);
    } else {
      PlainPaired(Scalar(v));
    }
  }

  lemma {:induction false} TextsPaired(items: seq<Value>)
    requires ProperItems(items)
    ensures AllPaired(Texts(items))
    decreases SizeItems(items), 1
  {
    if items != [] {
      CanonicalPaired(items[0]);
      TextsPaired(items[1..]);
      assert Texts(items)[1..] == Texts(items[1..]);
    }
  }

  lemma {:induction false} PartsPaired(fields: seq<Field>)
    requires ProperFields(fields)
    ensures AllPaired(Parts(fields))
    decreases SizeFields(fields), 1
  {
    if fields != [] {
      PartsPaired(fields[1..]);
      var f := fields[0];
      if !f.value.Undefined? {
        QuotePaired(f.key);
        CanonicalPaired(f.value);
        UnitPaired(COLON);
        PairedConcat([COLON], Canonical(f.value));
        PairedConcat(Quote(f.key), [COLON] + Canonical(f.value));
        assert Parts(fields)[1..] == Parts(fields[1..]);
      }
    }
  }

  function HashForCache<Digest(==)>(sha: Text -> Digest, input: Value): Digest {
    sha(Canonical(input))
  }

  /** Two texts with one digest. */
  predicate Collision<Digest(==)>(sha: Text -> Digest, a: Text, b: Text) {
    a != b && sha(a) == sha(b)
  }

  /** Cache keys agree exactly for values that mean the same, unless the hash function itself collides. */
  lemma CacheKeys<Digest>(sha: Text -> Digest, v: Value, w: Value)
    requires Proper(v) && Proper(w)
    ensures HashForCache(sha, v) == HashForCache(sha, w)
      <==> Meaning(v) == Meaning(w) || Collision(sha, Canonical(v), Canonical(w))
  {
    CanonicalIdentity(v, w);
  }
}
