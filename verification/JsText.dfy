/**
 JavaScript strings as sequences of UTF-16 code units, with the string operations
 several components share: split on one unit, join, indexOf and trim.
 */
module JsText {
  type CodeUnit = u: int | 0 <= u < 0x1_0000
  type Text = seq<CodeUnit>

  const NEWLINE: CodeUnit := 0x0A

  /** s.split(sep) for a one-unit separator: always at least one piece. */
  function Split<T(==)>(s: seq<T>, sep: T): (pieces: seq<seq<T>>)
    ensures |pieces| >= 1
  {
    if s == [] then [[]]
    else
      var rest := Split(s[1..], sep);
      if s[0] == sep then [[]] + rest else [[s[0]] + rest[0]] + rest[1..]
  }

  /** pieces.join(sep) */
  function Join<T>(pieces: seq<seq<T>>, sep: seq<T>): seq<T> {
    if pieces == [] then []
    else if |pieces| == 1 then pieces[0]
    else pieces[0] + sep + Join(pieces[1..], sep)
  }

  /** Splitting loses nothing: the pieces are free of the separator and join back to the text. */
  lemma {:induction false} JoinSplit<T>(s: seq<T>, sep: T)
    ensures Join(Split(s, sep), [sep]) == s
    ensures forall p :: p in Split(s, sep) ==> sep !in p
  {
    if s != [] {
      var rest := Split(s[1..], sep);
      JoinSplit(s[1..], sep);
      if s[0] == sep {
        JoinEmptyFirst(rest, sep);
      } else {
        JoinLongerFirst(s[0], rest, sep);
      }
    }
  }

  lemma JoinEmptyFirst<T>(pieces: seq<seq<T>>, sep: T)
    requires pieces != []
    ensures Join([[]] + pieces, [sep]) == [sep] + Join(pieces, [sep])
  {
    assert ([[]] + pieces)[1..] == pieces;
    assert [] + [sep] + Join(pieces, [sep]) == [sep] + Join(pieces, [sep]);
  }

  lemma JoinLongerFirst<T>(x: T, pieces: seq<seq<T>>, sep: T)
    requires pieces != []
    ensures Join([[x] + pieces[0]] + pieces[1..], [sep]) == [x] + Join(pieces, [sep])
  {
    var longer := [[x] + pieces[0]] + pieces[1..];
    assert longer[1..] == pieces[1..];
    if |pieces| > 1 {
      var tail := Join(pieces[1..], [sep]);
      assert ([x] + pieces[0]) + [sep] + tail == [x] + (pieces[0] + [sep] + tail);
    }
  }

  /** A separator-free head is exactly the first piece. */
  lemma {:induction false} SplitHead<T>(a: seq<T>, sep: T, b: seq<T>)
    requires sep !in a
    ensures Split(a + [sep] + b, sep) == [a] + Split(b, sep)
    ensures Split(a, sep) == [a]
  {
    if a == [] {
      assert (a + [sep] + b)[1..] == b;
    } else {
      SplitHead(a[1..], sep, b);
      assert (a + [sep] + b)[1..] == a[1..] + [sep] + b;
      assert [a[0]] + a[1..] == a;
      assert ([a[1..]] + Split(b, sep))[1..] == Split(b, sep);
      assert [a[1..]][1..] == [];
    }
  }

  /** Joining loses nothing either: separator-free pieces are recovered by split. */
  lemma {:induction false} SplitJoin<T>(pieces: seq<seq<T>>, sep: T)
    requires pieces != []
    requires forall p :: p in pieces ==> sep !in p
    ensures Split(Join(pieces, [sep]), sep) == pieces
  {
    SplitHead(pieces[0], sep, if |pieces| > 1 then Join(pieces[1..], [sep]) else []);
    if |pieces| > 1 {
      SplitJoin(pieces[1..], sep);
    }
  }

  /** s.indexOf(x): the first index, or -1. */
  function IndexOf<T(==)>(s: seq<T>, x: T): (i: int)
    ensures -1 <= i < |s|
    ensures i >= 0 ==> s[i] == x && x !in s[..i]
    ensures i < 0 <==> x !in s
  {
    if s == [] then -1
    else if s[0] == x then 0
    else
      var r := IndexOf(s[1..], x);
      if r < 0 then -1
      else
        assert s[..r + 1] == [s[0]] + s[1..][..r];
        r + 1
  }

  /** The white space and line terminators that trim removes. */
  predicate IsSpace(u: CodeUnit) {
    || 0x09 <= u <= 0x0D || u == 0x20 || u == 0xA0 || u == 0x1680
    || 0x2000 <= u <= 0x200A || u == 0x2028 || u == 0x2029
    || u == 0x202F || u == 0x205F || u == 0x3000 || u == 0xFEFF
  }

  /** The same by number: WhiteSpace and LineTerminator of ECMA-262, sections 12.2 and 12.3. */
  predicate IsSpaceCode(u: int) {
    u in {0x0009, 0x000A, 0x000B, 0x000C, 0x000D, 0x0020, 0x00A0, 0x1680,
          0x2000, 0x2001, 0x2002, 0x2003, 0x2004, 0x2005, 0x2006, 0x2007, 0x2008, 0x2009, 0x200A,
          0x2028, 0x2029, 0x202F, 0x205F, 0x3000, 0xFEFF}
  }

  lemma SpaceCodes(u: CodeUnit)
    ensures IsSpace(u) <==> IsSpaceCode(u)
  {
  }

  function TrimStart(s: Text): Text {
    if s != [] && IsSpace(s[0]) then TrimStart(s[1..]) else s
  }

  function TrimEnd(s: Text): Text {
    if s != [] && IsSpace(s[|s| - 1]) then TrimEnd(s[..|s| - 1]) else s
  }

  /** s.trim() */
  function Trim(s: Text): Text {
    TrimEnd(TrimStart(s))
  }

  predicate AllSpace(s: Text) {
    forall i :: 0 <= i < |s| ==> IsSpace(s[i])
  }

  lemma {:induction false} TrimStartExact(s: Text) returns (before: Text)
    ensures AllSpace(before) && s == before + TrimStart(s)
    ensures TrimStart(s) != [] ==> !IsSpace(TrimStart(s)[0])
  {
    before := [];
    if s != [] && IsSpace(s[0]) {
      before := TrimStartExact(s[1..]);
      before := [s[0]] + before;
    }
  }

  lemma {:induction false} TrimEndExact(s: Text) returns (after: Text)
    ensures AllSpace(after) && s == TrimEnd(s) + after
    ensures TrimEnd(s) != [] ==> !IsSpace(TrimEnd(s)[|TrimEnd(s)| - 1])
  {
    after := [];
    if s != [] && IsSpace(s[|s| - 1]) {
      after := TrimEndExact(s[..|s| - 1]);
      after := after + [s[|s| - 1]];
    }
  }

  lemma SpacesByCode(s: Text)
    requires AllSpace(s)
    ensures forall i :: 0 <= i < |s| ==> IsSpaceCode(s[i])
  {
    forall i | 0 <= i < |s|
      ensures IsSpaceCode(s[i])
    {
      SpaceCodes(s[i]);
    }
  }

  lemma {:induction false} TrimEndHead(s: Text)
    requires TrimEnd(s) != []
    ensures s != [] && TrimEnd(s)[0] == s[0]
  {
    if IsSpace(s[|s| - 1]) {
      TrimEndHead(s[..|s| - 1]);
    }
  }

  /** Trimming removes spaces at the two ends, all of them, and nothing else. */
  lemma TrimExact(s: Text) returns (before: Text, after: Text)
    ensures forall i :: 0 <= i < |before| ==> IsSpaceCode(before[i])
    ensures forall i :: 0 <= i < |after| ==> IsSpaceCode(after[i])
    ensures s == before + Trim(s) + after
    ensures Trim(s) != [] ==> !IsSpaceCode(Trim(s)[0]) && !IsSpaceCode(Trim(s)[|Trim(s)| - 1])
  {
    before := TrimStartExact(s);
    after := TrimEndExact(TrimStart(s));
    SpacesByCode(before);
    SpacesByCode(after);
    if Trim(s) != [] {
      TrimEndHead(TrimStart(s));
      SpaceCodes(Trim(s)[0]);
      SpaceCodes(Trim(s)[|Trim(s)| - 1]);
    }
  }
}
