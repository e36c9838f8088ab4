/**
 Listing the agents of a namespace page by page: label keys are vetted, the WHERE clause is built
 up in place, and the last id of a full page is the cursor of the next one.
 */
module AgentPages {
  import opened Arithmetic
  import opened Options
  import opened Sequences

  datatype Row = Row(id: int, namespace: string, name: string, phase: Option<string>, labels: map<string, string>,
                     deleted: bool)
  datatype Label = Label(key: string, value: string)

  /** An empty phase or search string is as good as none. */
  datatype Query = Query(namespace: string, phase: string, labels: seq<Label>, search: string)
  datatype Listing =
    | Page(agents: seq<Row>, nextCursor: Option<int>, totalCount: nat)
    | InvalidArgument(key: string)
    | Failed

  /** name ILIKE '%text%', as the database decides it. */
  type Like = (string, string) -> bool

  // ---- Label keys ----

  predicate IsAlphanumeric(c: char) {
    'a' <= c <= 'z' || 'A' <= c <= 'Z' || '0' <= c <= '9'
  }

  predicate IsKeyChar(c: char) {
    IsAlphanumeric(c) || c == '_' || c == '.' || c == '-'
  }

  /** /^[a-zA-Z0-9][a-zA-Z0-9_.-]*$/ and at most 63 long */
  predicate ValidKey(k: string) {
    0 < |k| <= 63 && IsAlphanumeric(k[0]) && forall i :: 0 <= i < |k| ==> IsKeyChar(k[i])
  }

  /** One to 63 letters, digits, underscores, dots and hyphens, by their codes, the first a letter or a digit. */
  predicate LegalKey(k: string) {
    && 1 <= |k| <= 63 && k[0] != '_' && k[0] != '.' && k[0] != '-'
    && forall i :: 0 <= i < |k| ==> var u := k[i] as int;
      0x41 <= u <= 0x5A || 0x61 <= u <= 0x7A || 0x30 <= u <= 0x39 || u == 0x5F || u == 0x2E || u == 0x2D
  }

  lemma KeysLegal(k: string)
    ensures ValidKey(k) <==> LegalKey(k)
  {
  }

  predicate FirstIllegal(labels: seq<Label>, i: int) {
    0 <= i < |labels| && !LegalKey(labels[i].key) && forall j :: 0 <= j < i ==> LegalKey(labels[j].key)
  }

  // ---- What a query asks for ----

  predicate Wanted(row: Row, q: Query, like: Like) {
    && row.namespace == q.namespace && !row.deleted
    && (q.phase != "" ==> row.phase == Some(q.phase))
    && (forall l :: l in q.labels ==> l.key in row.labels && row.labels[l.key] == l.value)
    && (q.search != "" ==> like(row.name, q.search))
  }

  predicate Beyond(id: int, cursor: Option<int>) {
    cursor.Some? ==> cursor.value < id
  }

  function Matching(t: seq<Row>, q: Query, like: Like, cursor: Option<int>): seq<Row> {
    if t == [] then []
    else (if Wanted(t[0], q, like) && Beyond(t[0].id, cursor) then [t[0]] else []) + Matching(t[1..], q, like, cursor)
  }

  function Min(a: int, b: int): int {
    if a <= b then a else b
  }

  function PageSize(given: Option<int>): int {
    Min(if given.Some? then given.value else 50, 100)
  }

  /** ORDER BY id LIMIT n; a table is kept in the order of its ids. */
  function PageOf(t: seq<Row>, q: Query, like: Like, n: nat, cursor: Option<int>): seq<Row> {
    var rows := Matching(t, q, like, cursor);
    rows[..Min(n, |rows|)]
  }

  function NextCursor(page: seq<Row>, n: nat): Option<int> {
    if n > 0 && |page| == n then Some(page[n - 1].id) else None
  }

  // ---- The query as it is assembled ----

  datatype Clause =
    | InNamespace(namespace: string)
    | PhaseIs(phase: string)
    | LabelIs(wanted: Label)
    | NameLike(text: string)
    | IdAbove(id: int)

  predicate Meets(row: Row, c: Clause, like: Like) {
    match c
    case InNamespace(ns) => row.namespace == ns && !row.deleted
    case PhaseIs(p) => row.phase == Some(p)
    case LabelIs(l) => l.key in row.labels && row.labels[l.key] == l.value
    case NameLike(s) => like(row.name, s)
    case IdAbove(id) => id < row.id
  }

  predicate MeetsAll(row: Row, where_: seq<Clause>, like: Like) {
    forall c :: c in where_ ==> Meets(row, c, like)
  }

  function Select(t: seq<Row>, where_: seq<Clause>, like: Like): seq<Row> {
    if t == [] then []
    else (if MeetsAll(t[0], where_, like) then [t[0]] else []) + Select(t[1..], where_, like)
  }

  lemma {:induction false} SelectMatching(t: seq<Row>, where_: seq<Clause>, q: Query, like: Like, cursor: Option<int>)
    requires forall row :: MeetsAll(row, where_, like) <==> Wanted(row, q, like) && Beyond(row.id, cursor)
    ensures Select(t, where_, like) == Matching(t, q, like, cursor)
  {
    if t != [] {
      SelectMatching(t[1..], where_, q, like, cursor);
    }
  }

  lemma MeetsMore(row: Row, where_: seq<Clause>, c: Clause, like: Like)
    ensures MeetsAll(row, where_ + [c], like) <==> MeetsAll(row, where_, like) && Meets(row, c, like)
  {
    assert c in where_ + [c];
    assert forall d :: d in where_ ==> d in where_ + [c];
  }

  lemma MeetsMoreAll(where_: seq<Clause>, c: Clause, like: Like)
    ensures forall row :: MeetsAll(row, where_ + [c], like) <==> MeetsAll(row, where_, like) && Meets(row, c, like)
  {
    forall row
      ensures MeetsAll(row, where_ + [c], like) <==> MeetsAll(row, where_, like) && Meets(row, c, like)
    {
      MeetsMore(row, where_, c, like);
    }
  }

  /** What the clauses gathered so far demand of a row. */
  predicate SoFar(row: Row, q: Query, like: Like, labels: nat, search: bool, cursor: Option<int>)
    requires labels <= |q.labels|
  {
    && row.namespace == q.namespace && !row.deleted
    && (q.phase != "" ==> row.phase == Some(q.phase))
    && (forall l :: l in q.labels[..labels] ==> l.key in row.labels && row.labels[l.key] == l.value)
    && (search && q.search != "" ==> like(row.name, q.search))
    && Beyond(row.id, cursor)
  }

  ghost predicate Says(where_: seq<Clause>, q: Query, like: Like, labels: nat, search: bool, cursor: Option<int>)
    requires labels <= |q.labels|
  {
    forall row :: MeetsAll(row, where_, like) <==> SoFar(row, q, like, labels, search, cursor)
  }

  lemma SaysLabel(where_: seq<Clause>, q: Query, like: Like, i: nat)
    requires i < |q.labels| && Says(where_, q, like, i, false, None)
    ensures Says(where_ + [LabelIs(q.labels[i])], q, like, i + 1, false, None)
  {
    MeetsMoreAll(where_, LabelIs(q.labels[i]), like);
    assert q.labels[..i + 1] == q.labels[..i] + [q.labels[i]];
  }

  lemma SaysStart(q: Query, like: Like)
    ensures Says([InNamespace(q.namespace)] + if q.phase != "" then [PhaseIs(q.phase)] else [], q, like, 0, false, None)
  {
    var base := [InNamespace(q.namespace)];
    MeetsMoreAll([], InNamespace(q.namespace), like);
    assert [] + base == base;
    if q.phase != "" {
      MeetsMoreAll(base, PhaseIs(q.phase), like);
    } else {
      assert base + [] == base;
    }
  }

  /** The row is of the kind asked for, and its id above the cursor. */
  predicate Asked(row: Row, q: Query, like: Like, cursor: Option<int>) {
    && row.namespace == q.namespace && !row.deleted
    && (q.phase == "" || row.phase == Some(q.phase))
    && (forall l :: l in q.labels ==> l.key in row.labels && row.labels[l.key] == l.value)
    && (q.search == "" || like(row.name, q.search))
    && (cursor.None? || row.id > cursor.value)
  }

  lemma WantedAsked(row: Row, q: Query, like: Like, cursor: Option<int>)
    ensures Asked(row, q, like, cursor) <==> Wanted(row, q, like) && Beyond(row.id, cursor)
  {
  }

  /** All places of the table with such a row, in order. */
  predicate Places(t: seq<Row>, q: Query, like: Like, cursor: Option<int>, at: seq<nat>) {
    && Ordered(at, |t|)
    && (forall i :: 0 <= i < |t| ==> (i in at <==> Asked(t[i], q, like, cursor)))
  }

  /** The rows at the first of those places. */
  predicate RowsAt(t: seq<Row>, at: seq<nat>, rows: seq<Row>) {
    |rows| <= |at| && forall k :: 0 <= k < |rows| ==> at[k] < |t| && rows[k] == t[at[k]]
  }

  lemma PlacesLater(t: seq<Row>, q: Query, like: Like, cursor: Option<int>, at: seq<nat>)
    requires t != [] && Places(t[1..], q, like, cursor, at)
    ensures Places(t, q, like, cursor, Kept(at, Asked(t[0], q, like, cursor)))
  {
    KeptOrdered(at, |t| - 1, Asked(t[0], q, like, cursor));
    forall i | 0 <= i < |t|
      ensures i in Kept(at, Asked(t[0], q, like, cursor)) <==> Asked(t[i], q, like, cursor)
    {
      KeptIn(at, Asked(t[0], q, like, cursor), i);
      if i > 0 {
        assert t[1..][i - 1] == t[i];
      }
    }
  }

  lemma MatchingFrom(t: seq<Row>, q: Query, like: Like, cursor: Option<int>)
    requires t != []
    ensures var rest := Matching(t[1..], q, like, cursor);
      Matching(t, q, like, cursor) == if Asked(t[0], q, like, cursor) then [t[0]] + rest else rest
  {
    WantedAsked(t[0], q, like, cursor);
    assert [] + Matching(t[1..], q, like, cursor) == Matching(t[1..], q, like, cursor);
  }

  lemma PlacesMore(t: seq<Row>, q: Query, like: Like, cursor: Option<int>, rest: seq<nat>)
    requires t != [] && Places(t[1..], q, like, cursor, rest)
    requires var rows := Matching(t[1..], q, like, cursor); |rest| == |rows| && RowsAt(t[1..], rest, rows)
    ensures var at, rows := Kept(rest, Asked(t[0], q, like, cursor)), Matching(t, q, like, cursor);
      |at| == |rows| && RowsAt(t, at, rows)
  {
    MatchingFrom(t, q, like, cursor);
    KeptElements(t, rest, Asked(t[0], q, like, cursor), Matching(t[1..], q, like, cursor));
  }

  /** The matching rows are those at the places asked for. */
  lemma {:induction false} MatchingPlaces(t: seq<Row>, q: Query, like: Like, cursor: Option<int>)
    returns (at: seq<nat>)
    ensures Places(t, q, like, cursor, at)
    ensures |at| == |Matching(t, q, like, cursor)| && RowsAt(t, at, Matching(t, q, like, cursor))
  {
    at := [];
    if t != [] {
      var rest := MatchingPlaces(t[1..], q, like, cursor);
      PlacesLater(t, q, like, cursor, rest);
      PlacesMore(t, q, like, cursor, rest);
      at := Kept(rest, Asked(t[0], q, like, cursor));
    }
  }

  /** The page is the first size of the rows at those places, and the next cursor the last id of a full one. */
  ghost predicate Lists(t: seq<Row>, q: Query, like: Like, cursor: Option<int>, size: nat, r: Listing)
    requires r.Page?
  {
    exists at ::
      && Places(t, q, like, cursor, at) && r.totalCount == |at| && RowsAt(t, at, r.agents)
      && |r.agents| == (if |at| < size then |at| else size)
      && r.nextCursor == if |at| < size || size == 0 then None else Some(r.agents[size - 1].id)
  }

  lemma PageLists(t: seq<Row>, q: Query, like: Like, cursor: Option<int>, size: nat, r: Listing)
    requires size >= 1 && r.Page? && r.totalCount == |Matching(t, q, like, cursor)|
    requires r.agents == PageOf(t, q, like, size, cursor) && r.nextCursor == NextCursor(r.agents, size)
    ensures Lists(t, q, like, cursor, size, r)
  {
    var at := MatchingPlaces(t, q, like, cursor);
    assert RowsAt(t, at, r.agents);
  }

  /** The two queries: COUNT and ORDER BY id LIMIT, over the rows that meet the WHERE clause. */
  method ReadPage(rows: seq<Row>, pageSize: int) returns (r: Listing)
    ensures r.Failed? <==> pageSize <= 0
    ensures r.Page? <==> pageSize > 0
    ensures r.Page? ==>
      && r.agents == rows[..Min(pageSize, |rows|)] && r.totalCount == |rows|
      && r.nextCursor == NextCursor(r.agents, pageSize)
  {
    var total := |rows|;
    if pageSize < 0 {
      return Failed;
    }
    var agents := rows[..Min(pageSize, |rows|)];
    if |agents| == pageSize {
      if agents == [] {
        return Failed;
      }
      return Page(agents, Some(agents[|agents| - 1].id), total);
    }
    r := Page(agents, None, total);
  }

  /**
   An unknown label key is refused before anything is asked of the database. A page size of zero
   fails on the missing last row and a negative one is refused by the database. Otherwise the page is the
   first rows of those asked for, fifty or as many as given but never more than a hundred, and the
   total their number.
   */
  method ListByNamespace(t: seq<Row>, q: Query, like: Like, cursor: Option<int>, given: Option<int>)
    returns (r: Listing)
    ensures r.InvalidArgument? <==> exists l :: l in q.labels && !LegalKey(l.key)
    ensures r.InvalidArgument? ==> exists i :: FirstIllegal(q.labels, i) && q.labels[i].key == r.key
    ensures !r.InvalidArgument? ==> (r.Failed? <==> given.Some? && given.value <= 0)
    ensures r.Page? ==>
      Lists(t, q, like, cursor, if given.None? then 50 else if given.value > 100 then 100 else given.value, r)
    ensures r.Page? ==>
      && r.agents == PageOf(t, q, like, PageSize(given), cursor)
      && r.nextCursor == NextCursor(r.agents, PageSize(given))
      && r.totalCount == |Matching(t, q, like, cursor)|
  {
    var pageSize := PageSize(given);
    var where_ := [InNamespace(q.namespace)];
    if q.phase != "" {
      where_ := where_ + [PhaseIs(q.phase)];
    }
    SaysStart(q, like);
    for i := 0 to |q.labels|
      invariant Says(where_, q, like, i, false, None)
      invariant forall j :: 0 <= j < i ==> LegalKey(q.labels[j].key)
    {
      var l := q.labels[i];
      KeysLegal(l.key);
      if !ValidKey(l.key) {
        assert FirstIllegal(q.labels, i);
        return InvalidArgument(l.key);
      }
      SaysLabel(where_, q, like, i);
      where_ := where_ + [LabelIs(l)];
    }
    assert q.labels[..|q.labels|] == q.labels;
    if q.search != "" {
      MeetsMoreAll(where_, NameLike(q.search), like);
      where_ := where_ + [NameLike(q.search)];
    }
    assert Says(where_, q, like, |q.labels|, true, None);
    if cursor.Some? {
      MeetsMoreAll(where_, IdAbove(cursor.value), like);
      where_ := where_ + [IdAbove(cursor.value)];
    }
    assert Says(where_, q, like, |q.labels|, true, cursor);
    SelectMatching(t, where_, q, like, cursor);
    r := ReadPage(Select(t, where_, like), pageSize);
    if r.Page? {
      PageLists(t, q, like, cursor, pageSize, r);
    }
  }

  // ---- Following the cursor ----

  /** In id order, each once, and all beyond the cursor. */
  predicate Ascending(rows: seq<Row>, cursor: Option<int>) {
    rows == [] || (Beyond(rows[0].id, cursor) && Ascending(rows[1..], Some(rows[0].id)))
  }

  lemma {:induction false} AscendingBeyond(rows: seq<Row>, cursor: Option<int>, i: nat)
    requires Ascending(rows, cursor) && i < |rows|
    ensures Beyond(rows[i].id, cursor)
  {
    if i > 0 {
      AscendingBeyond(rows[1..], Some(rows[0].id), i - 1);
    }
  }

  /** Ids of later rows are larger: no id comes twice. */
  lemma {:induction false} AscendingPairs(rows: seq<Row>, cursor: Option<int>, i: nat, j: nat)
    requires Ascending(rows, cursor) && i < j < |rows|
    ensures rows[i].id < rows[j].id
  {
    if i == 0 {
      AscendingBeyond(rows[1..], Some(rows[0].id), j - 1);
    } else {
      AscendingPairs(rows[1..], Some(rows[0].id), i - 1, j - 1);
    }
  }

  lemma AscendingWeaker(rows: seq<Row>, cursor: Option<int>, weaker: Option<int>)
    requires Ascending(rows, cursor)
    requires weaker.Some? ==> cursor.Some? && weaker.value <= cursor.value
    ensures Ascending(rows, weaker)
  {
  }

  lemma {:induction false} AscendingJoin(a: seq<Row>, b: seq<Row>, cursor: Option<int>)
    requires Ascending(a, cursor) && Ascending(b, if a == [] then cursor else Some(a[|a| - 1].id))
    ensures Ascending(a + b, cursor)
  {
    if a == [] {
      assert a + b == b;
    } else {
      AscendingJoin(a[1..], b, Some(a[0].id));
      assert (a + b)[1..] == a[1..] + b;
    }
  }

  lemma {:induction false} AscendingTake(rows: seq<Row>, cursor: Option<int>, k: nat)
    requires Ascending(rows, cursor) && k <= |rows|
    ensures Ascending(rows[..k], cursor)
  {
    if k > 0 {
      AscendingTake(rows[1..], Some(rows[0].id), k - 1);
      assert rows[..k][1..] == rows[1..][..k - 1];
    }
  }

  /** The matching rows of a table are in order, and beyond the cursor. */
  lemma {:induction false} MatchingAscending(t: seq<Row>, q: Query, like: Like, cursor: Option<int>, least: Option<int>)
    requires Ascending(t, least)
    ensures Ascending(Matching(t, q, like, cursor), cursor)
    ensures Ascending(Matching(t, q, like, cursor), least)
  {
    if t != [] {
      var rest := Matching(t[1..], q, like, cursor);
      MatchingAscending(t[1..], q, like, cursor, Some(t[0].id));
      if Wanted(t[0], q, like) && Beyond(t[0].id, cursor) {
        assert ([t[0]] + rest)[1..] == rest;
      } else {
        assert [] + rest == rest;
        AscendingWeaker(rest, Some(t[0].id), least);
      }
    }
  }

  lemma {:induction false} MatchingExact(t: seq<Row>, q: Query, like: Like, cursor: Option<int>, row: Row)
    ensures row in Matching(t, q, like, cursor) <==> row in t && Wanted(row, q, like) && Beyond(row.id, cursor)
  {
    if t != [] {
      MatchingExact(t[1..], q, like, cursor, row);
      assert row in t <==> row == t[0] || row in t[1..];
    }
  }

  /** The pages a client sees that follows nextCursor, the table being tables[k] when page k is read. */
  function Walk(tables: seq<seq<Row>>, q: Query, like: Like, n: nat, cursor: Option<int>): seq<seq<Row>>
    decreases |tables|
  {
    if tables == [] then []
    else
      var page := PageOf(tables[0], q, like, n, cursor);
      var next := NextCursor(page, n);
      [page] + if next.Some? then Walk(tables[1..], q, like, n, next) else []
  }

  function Flat(pages: seq<seq<Row>>): seq<Row> {
    if pages == [] then [] else pages[0] + Flat(pages[1..])
  }

  /** The client has seen a page without a next cursor. */
  predicate Finished(pages: seq<seq<Row>>, n: nat) {
    pages != [] && NextCursor(pages[|pages| - 1], n).None?
  }

  ghost predicate Tables(tables: seq<seq<Row>>) {
    forall k :: 0 <= k < |tables| ==> Ascending(tables[k], None)
  }

  lemma PageAscending(t: seq<Row>, q: Query, like: Like, n: nat, cursor: Option<int>)
    requires Ascending(t, None)
    ensures Ascending(PageOf(t, q, like, n, cursor), cursor)
  {
    var rows := Matching(t, q, like, cursor);
    MatchingAscending(t, q, like, cursor, None);
    AscendingTake(rows, cursor, Min(n, |rows|));
  }

  /** Nothing is repeated, and ids come in order, whatever happens to the table between the pages. */
  lemma {:induction false} WalkAscending(tables: seq<seq<Row>>, q: Query, like: Like, n: nat, cursor: Option<int>)
    requires Tables(tables)
    ensures Ascending(Flat(Walk(tables, q, like, n, cursor)), cursor)
    decreases |tables|
  {
    if tables != [] {
      var page := PageOf(tables[0], q, like, n, cursor);
      var next := NextCursor(page, n);
      PageAscending(tables[0], q, like, n, cursor);
      if next.Some? {
        var rest := Walk(tables[1..], q, like, n, next);
        WalkAscending(tables[1..], q, like, n, next);
        assert ([page] + rest)[1..] == rest;
        AscendingJoin(page, Flat(rest), cursor);
      } else {
        assert ([page] + [])[1..] == [];
        assert Flat([page]) == page + [];
        assert page + [] == page;
      }
    }
  }

  /** Page k shows rows that matched when it was read. */
  lemma {:induction false} WalkShowsMatches(tables: seq<seq<Row>>, q: Query, like: Like, n: nat,
                                            cursor: Option<int>, k: nat, row: Row)
    requires k < |Walk(tables, q, like, n, cursor)| && row in Walk(tables, q, like, n, cursor)[k]
    ensures k < |tables| && row in tables[k] && Asked(row, q, like, None)
    decreases |tables|
  {
    var page := PageOf(tables[0], q, like, n, cursor);
    if k == 0 {
      MatchingExact(tables[0], q, like, cursor, row);
    } else {
      WalkShowsMatches(tables[1..], q, like, n, NextCursor(page, n), k - 1, row);
    }
  }

  /** Some row with this id is what the query asks for. */
  predicate Listed(t: seq<Row>, q: Query, like: Like, id: int) {
    exists row :: row in t && row.id == id && Asked(row, q, like, None)
  }

  predicate Shown(rows: seq<Row>, id: int) {
    exists row :: row in rows && row.id == id
  }

  /** A row of an ascending list is on its first page or beyond it. */
  lemma OnPageOrBeyond(rows: seq<Row>, n: nat, cursor: Option<int>, j: nat)
    requires n >= 1 && Ascending(rows, cursor) && j < |rows|
    ensures var page := rows[..Min(n, |rows|)];
      if j < n then j < |page| && page[j] == rows[j]
      else |page| == n && page[n - 1].id < rows[j].id
  {
    if j >= n {
      AscendingPairs(rows, cursor, n - 1, j);
    }
  }

  lemma ListedMatches(t: seq<Row>, q: Query, like: Like, cursor: Option<int>, id: int) returns (j: nat)
    requires Listed(t, q, like, id) && Beyond(id, cursor)
    ensures j < |Matching(t, q, like, cursor)| && Matching(t, q, like, cursor)[j].id == id
  {
    var row :| row in t && row.id == id && Asked(row, q, like, None);
    MatchingExact(t, q, like, cursor, row);
    var rows := Matching(t, q, like, cursor);
    j :| 0 <= j < |rows| && rows[j] == row;
  }

  /** A page skips nothing: a matching row beyond the cursor is on it, or beyond its next cursor. */
  lemma PageSkipsNothing(t: seq<Row>, q: Query, like: Like, n: nat, cursor: Option<int>, id: int)
    requires n >= 1 && Ascending(t, None) && Listed(t, q, like, id) && Beyond(id, cursor)
    ensures var page := PageOf(t, q, like, n, cursor);
      Shown(page, id) || (NextCursor(page, n).Some? && Beyond(id, NextCursor(page, n)))
  {
    var page := PageOf(t, q, like, n, cursor);
    var j := ListedMatches(t, q, like, cursor, id);
    MatchingAscending(t, q, like, cursor, None);
    OnPageOrBeyond(Matching(t, q, like, cursor), n, cursor, j);
    if j < n {
      assert page[j] in page;
    }
  }

  /**
   Nothing is missed: a row that keeps matching is shown by the time the walk ends, even if its
   other fields change and other rows come and go between the pages.
   */
  lemma {:induction false} WalkSkipsNothing(tables: seq<seq<Row>>, q: Query, like: Like, n: nat,
                                            cursor: Option<int>, id: int)
    requires n >= 1 && Tables(tables) && Beyond(id, cursor)
    requires forall k :: 0 <= k < |tables| ==> Listed(tables[k], q, like, id)
    requires Finished(Walk(tables, q, like, n, cursor), n)
    ensures Shown(Flat(Walk(tables, q, like, n, cursor)), id)
    decreases |tables|
  {
    var page := PageOf(tables[0], q, like, n, cursor);
    var next := NextCursor(page, n);
    PageSkipsNothing(tables[0], q, like, n, cursor, id);
    var pages := Walk(tables, q, like, n, cursor);
    if Shown(page, id) {
      var row :| row in page && row.id == id;
      assert row in pages[0] + Flat(pages[1..]);
    } else {
      var rest := Walk(tables[1..], q, like, n, next);
      assert pages[1..] == rest;
      WalkSkipsNothing(tables[1..], q, like, n, next, id);
      var row :| row in Flat(rest) && row.id == id;
      assert row in pages[0] + Flat(pages[1..]);
    }
  }

  /** So it is shown exactly once. */
  lemma ShownExactlyOnce(tables: seq<seq<Row>>, q: Query, like: Like, n: nat, id: int) returns (i: nat)
    requires n >= 1 && Tables(tables)
    requires forall k :: 0 <= k < |tables| ==> Listed(tables[k], q, like, id)
    requires Finished(Walk(tables, q, like, n, None), n)
    ensures var rows := Flat(Walk(tables, q, like, n, None));
      i < |rows| && rows[i].id == id && forall j :: 0 <= j < |rows| && j != i ==> rows[j].id != id
  {
    var rows := Flat(Walk(tables, q, like, n, None));
    WalkSkipsNothing(tables, q, like, n, None, id);
    WalkAscending(tables, q, like, n, None);
    var row :| row in rows && row.id == id;
    i :| 0 <= i < |rows| && rows[i] == row;
    forall j | 0 <= j < |rows| && j != i
      ensures rows[j].id != id
    {
      if j < i {
        AscendingPairs(rows, None, j, i);
      } else {
        AscendingPairs(rows, None, i, j);
      }
    }
  }

  // ---- A table nobody changes ----

  /** The first row is not beyond any later one. */
  lemma BeyondLater(t: seq<Row>, q: Query, like: Like, cursor: Option<int>, least: Option<int>, k: nat)
    requires t != [] && Ascending(t, least) && k < |Matching(t[1..], q, like, cursor)|
    ensures var at := Some(Matching(t[1..], q, like, cursor)[k].id);
      Matching(t, q, like, at) == Matching(t[1..], q, like, at)
  {
    var rest := Matching(t[1..], q, like, cursor);
    MatchingAscending(t[1..], q, like, cursor, Some(t[0].id));
    AscendingBeyond(rest, Some(t[0].id), k);
    MatchingDrop(t, q, like, Some(rest[k].id));
  }

  /** What is beyond the n-th one, with a first row that does not match left out. */
  lemma MatchingRestSkip(t: seq<Row>, q: Query, like: Like, cursor: Option<int>, least: Option<int>, n: nat)
    requires t != [] && Ascending(t, least) && !(Wanted(t[0], q, like) && Beyond(t[0].id, cursor))
    requires var rest := Matching(t[1..], q, like, cursor);
      1 <= n <= |rest| && Matching(t[1..], q, like, Some(rest[n - 1].id)) == rest[n..]
    ensures var rows := Matching(t, q, like, cursor);
      n <= |rows| && Matching(t, q, like, Some(rows[n - 1].id)) == rows[n..]
  {
    MatchingDrop(t, q, like, cursor);
    BeyondLater(t, q, like, cursor, least, n - 1);
  }

  /** What is beyond the first matching row. */
  lemma MatchingRestOne(t: seq<Row>, q: Query, like: Like, cursor: Option<int>, least: Option<int>)
    requires t != [] && Ascending(t, least) && Wanted(t[0], q, like) && Beyond(t[0].id, cursor)
    ensures Matching(t, q, like, Some(t[0].id)) == Matching(t, q, like, cursor)[1..]
  {
    MatchingKeep(t, q, like, cursor);
    MatchingTail(t[1..], q, like, cursor, Some(t[0].id));
    MatchingDrop(t, q, like, Some(t[0].id));
  }

  /** What is beyond the n-th one, with the first one set aside. */
  lemma MatchingRestMore(t: seq<Row>, q: Query, like: Like, cursor: Option<int>, least: Option<int>, n: nat)
    requires t != [] && Ascending(t, least) && Wanted(t[0], q, like) && Beyond(t[0].id, cursor)
    requires var rest := Matching(t[1..], q, like, cursor);
      2 <= n <= |rest| + 1 && Matching(t[1..], q, like, Some(rest[n - 2].id)) == rest[n - 1..]
    ensures var rows := Matching(t, q, like, cursor);
      n <= |rows| && Matching(t, q, like, Some(rows[n - 1].id)) == rows[n..]
  {
    var rows, rest := Matching(t, q, like, cursor), Matching(t[1..], q, like, cursor);
    MatchingKeep(t, q, like, cursor);
    assert rows[n - 1] == rest[n - 2] && rows[n..] == rest[n - 1..];
    BeyondLater(t, q, like, cursor, least, n - 2);
  }

  /** The rows beyond the last one of a page are the rest of those the page was taken from. */
  lemma {:induction false} MatchingRest(t: seq<Row>, q: Query, like: Like, cursor: Option<int>, least: Option<int>,
                                        n: nat)
    requires Ascending(t, least) && 1 <= n <= |Matching(t, q, like, cursor)|
    ensures var rows := Matching(t, q, like, cursor);
      Matching(t, q, like, Some(rows[n - 1].id)) == rows[n..]
  {
    if !(Wanted(t[0], q, like) && Beyond(t[0].id, cursor)) {
      MatchingDrop(t, q, like, cursor);
      MatchingRest(t[1..], q, like, cursor, Some(t[0].id), n);
      MatchingRestSkip(t, q, like, cursor, least, n);
    } else if n == 1 {
      MatchingKeep(t, q, like, cursor);
      MatchingRestOne(t, q, like, cursor, least);
    } else {
      MatchingKeep(t, q, like, cursor);
      MatchingRest(t[1..], q, like, cursor, Some(t[0].id), n - 1);
      MatchingRestMore(t, q, like, cursor, least, n);
    }
  }

  lemma MatchingDrop(t: seq<Row>, q: Query, like: Like, cursor: Option<int>)
    requires t != [] && !(Wanted(t[0], q, like) && Beyond(t[0].id, cursor))
    ensures Matching(t, q, like, cursor) == Matching(t[1..], q, like, cursor)
  {
    assert [] + Matching(t[1..], q, like, cursor) == Matching(t[1..], q, like, cursor);
  }

  lemma MatchingKeep(t: seq<Row>, q: Query, like: Like, cursor: Option<int>)
    requires t != [] && Wanted(t[0], q, like) && Beyond(t[0].id, cursor)
    ensures Matching(t, q, like, cursor) == [t[0]] + Matching(t[1..], q, like, cursor)
    ensures Matching(t, q, like, cursor)[1..] == Matching(t[1..], q, like, cursor)
  {
  }

  /** Every row is beyond such a cursor already. */
  lemma {:induction false} MatchingTail(t: seq<Row>, q: Query, like: Like, cursor: Option<int>, below: Option<int>)
    requires Ascending(t, below) && below.Some? && Beyond(below.value, cursor)
    ensures Matching(t, q, like, below) == Matching(t, q, like, cursor)
  {
    if t != [] {
      MatchingTail(t[1..], q, like, cursor, Some(t[0].id));
      MatchingTail(t[1..], q, like, below, Some(t[0].id));
    }
  }

  function Same(t: seq<Row>, k: nat): seq<seq<Row>> {
    if k == 0 then [] else [t] + Same(t, k - 1)
  }

  /** One page for every n rows, and a last one with what is left, perhaps nothing. */
  function PageCount(m: nat, n: nat): nat
    requires n >= 1
  {
    if m < n then 1 else PageCount(m - n, n) + 1
  }

  lemma {:induction false} PageCountIsQuotient(m: nat, n: nat)
    requires n >= 1
    ensures PageCount(m, n) == m / n + 1
  {
    QuotientStep(m, n);
    if m >= n {
      PageCountIsQuotient(m - n, n);
    }
  }

  lemma QuotientStep(m: nat, n: nat)
    requires n >= 1
    ensures m < n ==> m / n == 0
    ensures m >= n ==> m / n == (m - n) / n + 1
  {
    if m < n {
      QuotientUnique(m, n, 0, m);
    } else {
      var k, r := (m - n) / n, (m - n) % n;
      assert m - n == k * n + r;
      assert (k + 1) * n == k * n + n;
      QuotientUnique(m, n, k + 1, r);
    }
  }

  /** A walk of that many pages that shows these rows. */
  predicate Shows(pages: seq<seq<Row>>, n: nat, count: nat, rows: seq<Row>) {
    |pages| == count && Finished(pages, n) && Flat(pages) == rows
  }

  /**
   On an unchanged table of m matching rows the walk ends with page floor(m / n) + 1, however
   many calls are made available, and has shown the table's matching rows exactly.
   */
  lemma UnchangedWalk(t: seq<Row>, q: Query, like: Like, n: nat, cursor: Option<int>, calls: nat)
    requires n >= 1 && Ascending(t, None)
    requires calls > |Matching(t, q, like, cursor)| / n
    ensures var pages := Walk(Same(t, calls), q, like, n, cursor);
      && |pages| == |Matching(t, q, like, cursor)| / n + 1
      && Finished(pages, n)
      && Flat(pages) == Matching(t, q, like, cursor)
  {
    var rows := Matching(t, q, like, cursor);
    PageCountIsQuotient(|rows|, n);
    UnchangedWalkFrom(t, q, like, n, cursor, calls, rows);
  }

  /** Told by places: every place whose row the query asks for is shown, in order, and nothing else. */
  lemma UnchangedWalkShows(t: seq<Row>, q: Query, like: Like, n: nat, cursor: Option<int>, calls: nat)
    returns (at: seq<nat>)
    requires n >= 1 && Ascending(t, None)
    ensures Places(t, q, like, cursor, at)
    ensures calls > |at| / n ==>
      var pages := Walk(Same(t, calls), q, like, n, cursor);
      |pages| == |at| / n + 1 && |Flat(pages)| == |at| && RowsAt(t, at, Flat(pages))
  {
    at := MatchingPlaces(t, q, like, cursor);
    if calls > |at| / n {
      UnchangedWalk(t, q, like, n, cursor, calls);
    }
  }

  lemma {:induction false} UnchangedWalkFrom(t: seq<Row>, q: Query, like: Like, n: nat, cursor: Option<int>,
                                             calls: nat, rows: seq<Row>)
    requires n >= 1 && Ascending(t, None) && rows == Matching(t, q, like, cursor)
    requires calls >= PageCount(|rows|, n)
    ensures Shows(Walk(Same(t, calls), q, like, n, cursor), n, PageCount(|rows|, n), rows)
    decreases calls
  {
    var page := PageOf(t, q, like, n, cursor);
    WalkCons(t, q, like, n, cursor, calls);
    if |rows| < n {
      assert page == rows;
      LastPage(page, n);
    } else {
      var next := Some(rows[n - 1].id);
      MatchingRest(t, q, like, cursor, None, n);
      UnchangedWalkFrom(t, q, like, n, next, calls - 1, rows[n..]);
      FullPage(page, Walk(Same(t, calls - 1), q, like, n, next), n, PageCount(|rows| - n, n), rows);
    }
  }

  lemma LastPage(page: seq<Row>, n: nat)
    requires |page| < n
    ensures Shows([page] + [], n, 1, page)
  {
    FlatCons(page, []);
    assert [page] + [] == [page];
  }

  lemma FullPage(page: seq<Row>, rest: seq<seq<Row>>, n: nat, count: nat, rows: seq<Row>)
    requires n <= |rows| && page == rows[..n] && Shows(rest, n, count, rows[n..])
    ensures Shows([page] + rest, n, count + 1, rows)
  {
    FlatCons(page, rest);
    assert rows == rows[..n] + rows[n..];
  }

  lemma WalkCons(t: seq<Row>, q: Query, like: Like, n: nat, cursor: Option<int>, calls: nat)
    requires calls > 0
    ensures var page := PageOf(t, q, like, n, cursor);
      var next := NextCursor(page, n);
      Walk(Same(t, calls), q, like, n, cursor)
      == [page] + if next.Some? then Walk(Same(t, calls - 1), q, like, n, next) else []
  {
    assert Same(t, calls)[1..] == Same(t, calls - 1);
  }

  lemma FlatCons(page: seq<Row>, rest: seq<seq<Row>>)
    ensures Flat([page] + rest) == page + Flat(rest)
  {
    assert ([page] + rest)[1..] == rest;
  }

  /**
   The total is counted after the cursor clause is added: following the cursor it shrinks by a
   page each time.
   */
  lemma TotalShrinks(t: seq<Row>, q: Query, like: Like, n: nat, cursor: Option<int>)
    requires n >= 1 && Ascending(t, None)
    ensures var page := PageOf(t, q, like, n, cursor);
      var next := NextCursor(page, n);
      next.Some? ==> |Matching(t, q, like, next)| == |Matching(t, q, like, cursor)| - n
  {
    var page := PageOf(t, q, like, n, cursor);
    if NextCursor(page, n).Some? {
      MatchingRest(t, q, like, cursor, None, n);
    }
  }

  predicate AllBeyond(t: seq<Row>, q: Query, like: Like, cursor: Option<int>) {
    forall row :: row in t && Wanted(row, q, like) ==> Beyond(row.id, cursor)
  }

  /** So it is the number of matching rows if and only if none of them is at or before the cursor. */
  lemma {:induction false} TotalExactly(t: seq<Row>, q: Query, like: Like, cursor: Option<int>)
    ensures |Matching(t, q, like, cursor)| <= |Matching(t, q, like, None)|
    ensures |Matching(t, q, like, cursor)| == |Matching(t, q, like, None)| <==> AllBeyond(t, q, like, cursor)
  {
    if t != [] {
      TotalExactly(t[1..], q, like, cursor);
      AllBeyondCons(t, q, like, cursor);
    }
  }

  lemma AllBeyondCons(t: seq<Row>, q: Query, like: Like, cursor: Option<int>)
    requires t != []
    ensures AllBeyond(t, q, like, cursor) <==>
      (Wanted(t[0], q, like) ==> Beyond(t[0].id, cursor)) && AllBeyond(t[1..], q, like, cursor)
  {
    assert forall row :: row in t <==> row == t[0] || row in t[1..];
  }
}
