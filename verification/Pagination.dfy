/** Cursor pagination (server/src/utils/pagination.ts) with the fetch every repository list makes
    (server/src/repositories/invoice.repository.ts:35-46). A list is ordered by one column, so rows may
    tie and the store may arrange tied rows anew at every fetch. */
module Pagination {
  import opened Prelude

  /** A row: its unique id and its value in the column ordered by. */
  datatype Row = Row(id: string, rank: int)

  const DEFAULT_LIMIT := 25
  const MAX_LIMIT := 100

  /** `undefined` and zero fall back to the default, as do negative limits. */
  function ClampLimit(raw: Option<int>): (limit: int)
    ensures 1 <= limit <= 100
    ensures raw.Some? && 1 <= raw.value <= 100 ==> limit == raw.value
    ensures raw.Some? && raw.value > 100 ==> limit == 100
    ensures raw.None? || raw.value < 1 ==> limit == 25
  {
    if raw.None? || raw.value < 1 then DEFAULT_LIMIT else Min(raw.value, MAX_LIMIT)
  }

  datatype Page = Page(data: seq<Row>, hasNext: bool, nextCursor: Option<string>)

  function BuildPage(items: seq<Row>, limit: nat): Page
    requires limit >= 1
  {
    if |items| > limit then Page(items[..limit], true, Some(items[limit - 1].id)) else Page(items, false, None)
  }

  // ---------------------------------------------------------------- the store and one fetch

  /** A table as one query arranges it: ids are unique. */
  ghost predicate IsTable(store: seq<Row>) {
    forall i, j :: 0 <= i < j < |store| ==> store[i].id != store[j].id
  }

  function Position(store: seq<Row>, id: string): (k: nat)
    ensures k <= |store|
    ensures k < |store| ==> store[k].id == id
  {
    if store == [] || store[0].id == id then 0 else 1 + Position(store[1..], id)
  }

  /** Where a fetch starts: at the front, or just after the cursor row. */
  function StartOf(store: seq<Row>, cursor: Option<string>): (k: nat)
    ensures k <= |store|
  {
    if cursor.None? then 0 else Min(Position(store, cursor.value) + 1, |store|)
  }

  function Take(rows: seq<Row>, n: nat): seq<Row> { if n <= |rows| then rows[..n] else rows }

  /** `take: limit + 1`, with `cursor` and `skip: 1` when a cursor is given. */
  function Fetch(store: seq<Row>, cursor: Option<string>, limit: nat): seq<Row> {
    Take(store[StartOf(store, cursor)..], limit + 1)
  }

  function GetPage(store: seq<Row>, cursor: Option<string>, limit: nat): Page
    requires limit >= 1
  {
    BuildPage(Fetch(store, cursor, limit), limit)
  }

  lemma {:induction false} PositionOfRow(store: seq<Row>, k: nat)
    requires IsTable(store) && k < |store|
    ensures Position(store, store[k].id) == k
  {
    if k == 0 {
    } else {
      assert store[0].id != store[k].id;
      var tail := store[1..];
      assert IsTable(tail) by {
        forall i, j | 0 <= i < j < |tail| ensures tail[i].id != tail[j].id {
          assert tail[i] == store[i + 1] && tail[j] == store[j + 1];
        }
      }
      PositionOfRow(tail, k - 1);
    }
  }

  /** A page is the next `limit` rows; `hasNext` says whether more follow, and the cursor names the
      last row shown. */
  lemma {:induction false} PageIsNextSlice(store: seq<Row>, cursor: Option<string>, limit: nat)
    requires IsTable(store) && limit >= 1
    ensures var page, start := GetPage(store, cursor, limit), StartOf(store, cursor);
      && page.data == Take(store[start..], limit)
      && (page.hasNext <==> start + limit < |store|)
      && (page.hasNext ==> page.nextCursor == Some(store[start + limit - 1].id)
                           && StartOf(store, page.nextCursor) == start + limit)
      && (!page.hasNext ==> page.nextCursor == None)
  {
    hide Position;
    var start := StartOf(store, cursor);
    var rest := store[start..];
    if |rest| > limit {
      assert Fetch(store, cursor, limit)[..limit] == rest[..limit];
      assert Fetch(store, cursor, limit)[limit - 1] == store[start + limit - 1];
      PositionOfRow(store, start + limit - 1);
    }
  }

  // ---------------------------------------------------------------- walking an unchanging table

  /** All pages from `cursor` on, following `nextCursor` until it is null. */
  function Walk(store: seq<Row>, cursor: Option<string>, limit: nat): seq<Page>
    requires IsTable(store) && limit >= 1
    decreases |store| - StartOf(store, cursor)
  {
    var page := GetPage(store, cursor, limit);
    PageIsNextSlice(store, cursor, limit);
    if page.hasNext then [page] + Walk(store, page.nextCursor, limit) else [page]
  }

  function Rows(pages: seq<Page>): seq<Row> {
    if pages == [] then [] else pages[0].data + Rows(pages[1..])
  }

  function PagesNeeded(rows: nat, limit: nat): nat
    requires limit >= 1
  {
    if rows <= limit then 1 else 1 + PagesNeeded(rows - limit, limit)
  }

  /** `pages` is the rounded-up quotient of the rows by the limit, but never zero. */
  predicate IsPageCount(pages: int, rows: int, limit: int) {
    pages >= 1 && rows <= pages * limit && (pages > 1 ==> (pages - 1) * limit < rows)
  }

  lemma {:induction false} PagesNeededIsCeiling(rows: nat, limit: nat)
    requires limit >= 1
    ensures IsPageCount(PagesNeeded(rows, limit), rows, limit)
  {
    if rows > limit {
      PagesNeededIsCeiling(rows - limit, limit);
      OneMorePage(PagesNeeded(rows - limit, limit), rows - limit, limit);
    }
  }

  lemma OneMorePage(pages: int, rows: int, limit: int)
    requires IsPageCount(pages, rows, limit) && limit >= 1 && rows >= 1
    ensures IsPageCount(pages + 1, rows + limit, limit)
  {
  }

  /** The walk shows every remaining row once, in order, in as many pages as that takes. */
  lemma {:induction false} WalkEnumerates(store: seq<Row>, cursor: Option<string>, limit: nat)
    requires IsTable(store) && limit >= 1
    ensures Rows(Walk(store, cursor, limit)) == store[StartOf(store, cursor)..]
    ensures |Walk(store, cursor, limit)| == PagesNeeded(|store| - StartOf(store, cursor), limit)
    decreases |store| - StartOf(store, cursor)
  {
    hide IsTable, GetPage, StartOf, Rows, Walk;
    var start := StartOf(store, cursor);
    var next := WalkStep(store, cursor, limit);
    if start + limit < |store| {
      WalkEnumerates(store, next, limit);
      JoinSlices(store, start, start + limit);
    }
    CountPages(|store| - start, limit);
  }

  lemma CountPages(rows: nat, limit: nat)
    requires limit >= 1
    ensures PagesNeeded(rows, limit) == if rows <= limit then 1 else 1 + PagesNeeded(rows - limit, limit)
  {
  }

  lemma JoinSlices(store: seq<Row>, i: nat, j: nat)
    requires i <= j <= |store|
    ensures store[i..] == store[i..j] + store[j..]
  {
  }

  /** One turn of the walk: the next `limit` rows and the walk from there, or all that is left. */
  lemma {:induction false} WalkStep(store: seq<Row>, cursor: Option<string>, limit: nat) returns (next: Option<string>)
    requires IsTable(store) && limit >= 1
    ensures var pages, start := Walk(store, cursor, limit), StartOf(store, cursor);
      if start + limit < |store|
      then StartOf(store, next) == start + limit && |pages| == 1 + |Walk(store, next, limit)|
           && Rows(pages) == store[start..start + limit] + Rows(Walk(store, next, limit))
      else |pages| == 1 && Rows(pages) == store[start..]
  {
    hide IsTable, GetPage, StartOf;
    var page, start := GetPage(store, cursor, limit), StartOf(store, cursor);
    PageIsNextSlice(store, cursor, limit);
    next := page.nextCursor;
    if page.hasNext {
      RowsOfMore(page, Walk(store, next, limit));
      assert page.data == store[start..start + limit];
    } else {
      RowsOfMore(page, []);
      assert [page] + [] == [page] && page.data + Rows([]) == page.data;
    }
  }

  lemma RowsOfMore(page: Page, pages: seq<Page>)
    ensures Rows([page] + pages) == page.data + Rows(pages)
  {
  }

  lemma {:induction false} WholeTableWalk(store: seq<Row>, limit: nat)
    requires IsTable(store) && limit >= 1
    ensures Rows(Walk(store, None, limit)) == store
    ensures IsPageCount(|Walk(store, None, limit)|, |store|, limit)
  {
    WalkEnumerates(store, None, limit);
    PagesNeededIsCeiling(|store|, limit);
  }

  // ---------------------------------------------------------------- walking while rows are inserted

  /** The pages a client collects when its k-th fetch reads the k-th of `stores`, started at `cursor`
      and stopped by the first page that has no next. */
  function WalkGrowing(stores: seq<seq<Row>>, cursor: Option<string>, limit: nat): seq<Page>
    requires limit >= 1
    decreases |stores|
  {
    if stores == [] then []
    else
      var page := GetPage(stores[0], cursor, limit);
      if page.hasNext then [page] + WalkGrowing(stores[1..], page.nextCursor, limit) else [page]
  }

  /** The walk got to its end: its last page has no next. */
  ghost predicate Finished(pages: seq<Page>) { pages != [] && !pages[|pages| - 1].hasNext }

  /** Rows are inserted anywhere and none is deleted; nothing is said about how rows are arranged. */
  ghost predicate GrowsTo(earlier: seq<Row>, later: seq<Row>) {
    forall r :: r in earlier ==> r in later
  }

  ghost predicate Growing(stores: seq<seq<Row>>) {
    && (forall k :: 0 <= k < |stores| ==> IsTable(stores[k]))
    && (forall k :: 0 <= k < |stores| - 1 ==> GrowsTo(stores[k], stores[k + 1]))
  }

  lemma {:induction false} TailGrows(stores: seq<seq<Row>>)
    requires Growing(stores) && |stores| >= 2
    ensures Growing(stores[1..]) && GrowsTo(stores[0], stores[1])
  {
    assert GrowsTo(stores[0], stores[0 + 1]);
    forall k | 0 <= k < |stores[1..]| - 1 ensures GrowsTo(stores[1..][k], stores[1..][k + 1]) {
      assert GrowsTo(stores[k + 1], stores[k + 1 + 1]);
    }
  }

  function CountOf(rows: seq<Row>, r: Row): nat { multiset(rows)[r] }

  /** The row stands at or before the cursor, where a fetch that starts there will not show it. */
  predicate Behind(store: seq<Row>, cursor: Option<string>, r: Row) {
    Position(store, r.id) < StartOf(store, cursor)
  }

  /** How often `r` slips back over a cursor between two fetches, less how often it slips past one. */
  function Slips(stores: seq<seq<Row>>, cursor: Option<string>, limit: nat, r: Row): int
    requires limit >= 1
    decreases |stores|
  {
    if |stores| < 2 || !GetPage(stores[0], cursor, limit).hasNext then 0
    else
      var next := GetPage(stores[0], cursor, limit).nextCursor;
      (if Behind(stores[0], next, r) then 1 else 0) - (if Behind(stores[1], next, r) then 1 else 0)
      + Slips(stores[1..], next, limit, r)
  }

  lemma {:induction false} RowHasPosition(store: seq<Row>, r: Row)
    requires IsTable(store) && r in store
    ensures Position(store, r.id) < |store| && store[Position(store, r.id)] == r
  {
    var k :| 0 <= k < |store| && store[k] == r;
    PositionOfRow(store, k);
  }

  lemma {:induction false} CountInSlice(store: seq<Row>, r: Row, i: nat, j: nat)
    requires IsTable(store) && r in store && i <= j <= |store|
    ensures CountOf(store[i..j], r) == if i <= Position(store, r.id) < j then 1 else 0
  {
    hide Position;
    RowHasPosition(store, r);
    if i == j {
    } else {
      assert store[i..j] == store[i..j - 1] + [store[j - 1]];
      CountInSlice(store, r, i, j - 1);
    }
  }

  /** A page shows the row once when the row stands between its two cursors, and not otherwise. */
  lemma {:induction false} CountInPage(store: seq<Row>, cursor: Option<string>, limit: nat, r: Row)
    requires IsTable(store) && r in store && limit >= 1
    ensures var page, before := GetPage(store, cursor, limit), if Behind(store, cursor, r) then 1 else 0;
      CountOf(page.data, r) == (if page.hasNext && !Behind(store, page.nextCursor, r) then 0 else 1) - before
  {
    hide GetPage, Position, StartOf;
    var start := StartOf(store, cursor);
    PageIsNextSlice(store, cursor, limit);
    RowHasPosition(store, r);
    if start + limit < |store| {
      CountInSlice(store, r, start, start + limit);
      assert store[start..][..limit] == store[start..start + limit];
    } else {
      CountInSlice(store, r, start, |store|);
      assert store[start..|store|] == store[start..] == Take(store[start..], limit);
    }
  }

  /** Whatever is inserted and however rows are rearranged between fetches, a row is shown once for
      standing after the cursor, once more each time it slips back over a cursor, and once less each
      time it slips past one. */
  lemma {:induction false} ShownOncePlusSlips(stores: seq<seq<Row>>, cursor: Option<string>, limit: nat, r: Row)
    requires Growing(stores) && stores != [] && limit >= 1 && r in stores[0]
    requires Finished(WalkGrowing(stores, cursor, limit))
    ensures CountOf(Rows(WalkGrowing(stores, cursor, limit)), r)
         == (if Behind(stores[0], cursor, r) then 0 else 1) + Slips(stores, cursor, limit, r)
    decreases |stores|
  {
    hide GetPage, Behind, IsTable;
    var page := GetPage(stores[0], cursor, limit);
    CountInPage(stores[0], cursor, limit, r);
    if page.hasNext {
      var pages := WalkGrowing(stores[1..], page.nextCursor, limit);
      assert Finished(pages) && stores[1..] != [];
      TailGrows(stores);
      ShownOncePlusSlips(stores[1..], page.nextCursor, limit, r);
      RowsOfMore(page, pages);
    } else {
      RowsOfMore(page, []);
      assert [page] + [] == [page] && page.data + Rows([]) == page.data;
    }
  }

  /** From the first page a row is shown exactly once if and only if its slips cancel. */
  lemma {:induction false} ShownOnceIff(stores: seq<seq<Row>>, limit: nat, r: Row)
    requires Growing(stores) && stores != [] && limit >= 1 && r in stores[0]
    requires Finished(WalkGrowing(stores, None, limit))
    ensures CountOf(Rows(WalkGrowing(stores, None, limit)), r) == 1 <==> Slips(stores, None, limit, r) == 0
  {
    ShownOncePlusSlips(stores, None, limit, r);
  }

  // ---------------------------------------------------------------- when no row slips

  /** The rows of `earlier` stand in the same order in `later`. */
  ghost predicate KeepsOrder(earlier: seq<Row>, later: seq<Row>) {
    forall r, s :: r in earlier && s in earlier ==>
      (Position(earlier, r.id) <= Position(earlier, s.id) <==> Position(later, r.id) <= Position(later, s.id))
  }

  /** Between the fetches rows are only inserted; those already there keep their order. */
  ghost predicate Steady(stores: seq<seq<Row>>) {
    Growing(stores) && forall k :: 0 <= k < |stores| - 1 ==> KeepsOrder(stores[k], stores[k + 1])
  }

  lemma {:induction false} TailSteady(stores: seq<seq<Row>>)
    requires Steady(stores) && |stores| >= 2
    ensures Steady(stores[1..]) && KeepsOrder(stores[0], stores[1])
  {
    TailGrows(stores);
    assert KeepsOrder(stores[0], stores[0 + 1]);
    forall k | 0 <= k < |stores[1..]| - 1 ensures KeepsOrder(stores[1..][k], stores[1..][k + 1]) {
      assert KeepsOrder(stores[k + 1], stores[k + 1 + 1]);
    }
  }

  /** The cursor of a page that has a next names one of the rows. */
  lemma {:induction false} CursorIsRow(store: seq<Row>, cursor: Option<string>, limit: nat) returns (last: Row)
    requires IsTable(store) && limit >= 1 && GetPage(store, cursor, limit).hasNext
    ensures last in store && GetPage(store, cursor, limit).nextCursor == Some(last.id)
    ensures |GetPage(store, cursor, limit).data| == limit && GetPage(store, cursor, limit).data[limit - 1] == last
  {
    PageIsNextSlice(store, cursor, limit);
    last := store[StartOf(store, cursor) + limit - 1];
  }

  /** A row stands at or before a row's cursor exactly when it stands at or before that row. */
  lemma {:induction false} BehindRow(store: seq<Row>, c: Row, r: Row)
    requires IsTable(store) && c in store && r in store
    ensures Behind(store, Some(c.id), r) <==> Position(store, r.id) <= Position(store, c.id)
  {
    RowHasPosition(store, c);
  }

  lemma {:induction false} SteadyMeansNoSlips(stores: seq<seq<Row>>, cursor: Option<string>, limit: nat, r: Row)
    requires Steady(stores) && stores != [] && limit >= 1 && r in stores[0]
    ensures Slips(stores, cursor, limit, r) == 0
    decreases |stores|
  {
    hide GetPage, Behind, IsTable, Position;
    if |stores| < 2 || !GetPage(stores[0], cursor, limit).hasNext {
    } else {
      var last := CursorIsRow(stores[0], cursor, limit);
      TailSteady(stores);
      TailGrows(stores);
      BehindRow(stores[0], last, r);
      BehindRow(stores[1], last, r);
      SteadyMeansNoSlips(stores[1..], Some(last.id), limit, r);
    }
  }

  lemma CountInPages(pages: seq<Page>, r: Row)
    ensures CountOf(Rows(pages), r)
         == if pages == [] then 0 else CountOf(pages[0].data, r) + CountOf(Rows(pages[1..]), r)
  {
  }

  lemma {:induction false} SteadyNeverRepeats(stores: seq<seq<Row>>, cursor: Option<string>, limit: nat, r: Row)
    requires Steady(stores) && stores != [] && limit >= 1 && Finished(WalkGrowing(stores, cursor, limit))
    ensures CountOf(Rows(WalkGrowing(stores, cursor, limit)), r) <= 1
    decreases |stores|
  {
    hide GetPage, Behind, IsTable, Position, Rows, CountOf;
    var page := GetPage(stores[0], cursor, limit);
    if r in stores[0] {
      ShownOncePlusSlips(stores, cursor, limit, r);
      SteadyMeansNoSlips(stores, cursor, limit, r);
    } else {
      PageFromTable(stores[0], cursor, limit, r);
      CountInPages(WalkGrowing(stores, cursor, limit), r);
      CountInPages([], r);
      assert WalkGrowing(stores, cursor, limit)[1..]
          == if page.hasNext then WalkGrowing(stores[1..], page.nextCursor, limit) else [];
      if page.hasNext {
        assert Finished(WalkGrowing(stores[1..], page.nextCursor, limit)) && stores[1..] != [];
        TailSteady(stores);
        SteadyNeverRepeats(stores[1..], page.nextCursor, limit, r);
      }
    }
  }

  lemma {:induction false} PageFromTable(store: seq<Row>, cursor: Option<string>, limit: nat, r: Row)
    requires limit >= 1 && r !in store
    ensures CountOf(GetPage(store, cursor, limit).data, r) == 0
  {
    var page, start := GetPage(store, cursor, limit), StartOf(store, cursor);
    forall i | 0 <= i < |page.data| ensures page.data[i] in store { assert page.data[i] == store[start + i]; }
  }

  /** The guarantee to the client: as long as rows already there keep their order, a finished walk shows
      every row that was there at the start exactly once and no row twice, although rows kept arriving. */
  lemma {:induction false} NoRowMissedOrRepeated(stores: seq<seq<Row>>, limit: nat, r: Row)
    requires Steady(stores) && stores != [] && limit >= 1
    requires Finished(WalkGrowing(stores, None, limit))
    ensures CountOf(Rows(WalkGrowing(stores, None, limit)), r) <= 1
    ensures r in stores[0] ==> CountOf(Rows(WalkGrowing(stores, None, limit)), r) == 1
  {
    SteadyNeverRepeats(stores, None, limit, r);
    if r in stores[0] {
      ShownOnceIff(stores, limit, r);
      SteadyMeansNoSlips(stores, None, limit, r);
    }
  }

  // ---------------------------------------------------------------- ties

  /** Ordered by rank, tied rows in any arrangement. */
  ghost predicate Ordered(store: seq<Row>) {
    forall i, j :: 0 <= i < j < |store| ==> store[i].rank <= store[j].rank
  }

  /** No page of the walk but the last ends on a row that ties with `r`, unless on `r` itself. */
  predicate Untied(stores: seq<seq<Row>>, cursor: Option<string>, limit: nat, r: Row)
    requires limit >= 1
    decreases |stores|
  {
    |stores| < 2 || !GetPage(stores[0], cursor, limit).hasNext
    || (var page := GetPage(stores[0], cursor, limit);
        && (forall last :: last in page.data && Some(last.id) == page.nextCursor ==> last.rank != r.rank || last == r)
        && Untied(stores[1..], page.nextCursor, limit, r))
  }

  lemma {:induction false} RankDecides(store: seq<Row>, c: Row, r: Row)
    requires IsTable(store) && Ordered(store) && c in store && r in store && (c.rank != r.rank || c == r)
    ensures Position(store, r.id) <= Position(store, c.id) <==> r.rank <= c.rank
  {
    hide Position;
    RowHasPosition(store, c);
    RowHasPosition(store, r);
  }

  /** Only ties with the end of a page can make a row slip, however ties are arranged. */
  lemma {:induction false} UntiedMeansNoSlips(stores: seq<seq<Row>>, cursor: Option<string>, limit: nat, r: Row)
    requires Growing(stores) && stores != [] && limit >= 1 && r in stores[0]
    requires (forall k :: 0 <= k < |stores| ==> Ordered(stores[k])) && Untied(stores, cursor, limit, r)
    ensures Slips(stores, cursor, limit, r) == 0
    decreases |stores|
  {
    hide GetPage, Behind, IsTable, Position, Ordered;
    if |stores| < 2 || !GetPage(stores[0], cursor, limit).hasNext {
    } else {
      var last := CursorIsRow(stores[0], cursor, limit);
      assert last in GetPage(stores[0], cursor, limit).data;
      TailGrows(stores);
      BehindRow(stores[0], last, r);
      BehindRow(stores[1], last, r);
      RankDecides(stores[0], last, r);
      RankDecides(stores[1], last, r);
      UntiedMeansNoSlips(stores[1..], Some(last.id), limit, r);
    }
  }

  /** So a row is shown exactly once in every ordered walk whose pages do not end on a tie with it; in
      particular every row is when the column has no ties. */
  lemma {:induction false} UntiedRowShownOnce(stores: seq<seq<Row>>, limit: nat, r: Row)
    requires Growing(stores) && stores != [] && limit >= 1 && r in stores[0]
    requires (forall k :: 0 <= k < |stores| ==> Ordered(stores[k])) && Untied(stores, None, limit, r)
    requires Finished(WalkGrowing(stores, None, limit))
    ensures CountOf(Rows(WalkGrowing(stores, None, limit)), r) == 1
  {
    ShownOnceIff(stores, limit, r);
    UntiedMeansNoSlips(stores, None, limit, r);
  }

  /** Tables ordered by a column without ties are steady whatever is inserted. */
  lemma {:induction false} NoTiesMeansSteady(stores: seq<seq<Row>>)
    requires Growing(stores) && forall k :: 0 <= k < |stores| ==> Ordered(stores[k])
    requires forall k, r, s :: 0 <= k < |stores| && r in stores[k] && s in stores[k] && r.rank == s.rank ==> r == s
    ensures Steady(stores)
  {
    hide Position, Ordered, IsTable;
    forall k | 0 <= k < |stores| - 1 ensures KeepsOrder(stores[k], stores[k + 1]) {
      assert GrowsTo(stores[k], stores[k + 1]);
      forall r, s | r in stores[k] && s in stores[k]
        ensures Position(stores[k], r.id) <= Position(stores[k], s.id)
           <==> Position(stores[k + 1], r.id) <= Position(stores[k + 1], s.id)
      {
        RankDecides(stores[k], s, r);
        RankDecides(stores[k + 1], s, r);
      }
    }
  }

  /** Three tied rows in their first arrangement and with the first two swapped. */
  function Tied(swapped: bool): seq<Row> {
    if swapped then [Row("b", 0), Row("a", 0), Row("c", 0)] else [Row("a", 0), Row("b", 0), Row("c", 0)]
  }

  function Swapping(fetches: nat, swapped: bool): seq<seq<Row>> {
    if fetches == 0 then [] else [Tied(swapped)] + Swapping(fetches - 1, !swapped)
  }

  function FirstId(swapped: bool): string { if swapped then "b" else "a" }

  lemma {:induction false} TiedPage(swapped: bool)
    ensures GetPage(Tied(swapped), Some(FirstId(swapped)), 1)
         == Page([Row(FirstId(!swapped), 0)], true, Some(FirstId(!swapped)))
    ensures GetPage(Tied(swapped), None, 1) == Page([Row(FirstId(swapped), 0)], true, Some(FirstId(swapped)))
  {
    var store := Tied(swapped);
    assert Position(store, FirstId(swapped)) == 0;
    assert StartOf(store, Some(FirstId(swapped))) == 1;
    assert store[1..] == [store[1], store[2]] && store[0..] == store;
  }

  ghost predicate AllTied(stores: seq<seq<Row>>) {
    forall k :: 0 <= k < |stores| ==> stores[k] == Tied(true) || stores[k] == Tied(false)
  }

  lemma {:induction false} TiedTable(swapped: bool, other: bool)
    ensures IsTable(Tied(swapped)) && Ordered(Tied(swapped)) && GrowsTo(Tied(swapped), Tied(other))
  {
    forall r | r in Tied(swapped) ensures r in Tied(other) {
      assert Row("a", 0) in Tied(other) && Row("b", 0) in Tied(other) && Row("c", 0) in Tied(other);
    }
  }

  lemma {:induction false} TiedTables(stores: seq<seq<Row>>)
    requires AllTied(stores)
    ensures Growing(stores) && forall k :: 0 <= k < |stores| ==> Ordered(stores[k])
  {
    hide Tied, IsTable, Ordered, GrowsTo;
    forall k | 0 <= k < |stores| ensures IsTable(stores[k]) && Ordered(stores[k]) {
      TiedTable(stores[k] == Tied(true), true);
    }
    forall k | 0 <= k < |stores| - 1 ensures GrowsTo(stores[k], stores[k + 1]) {
      TiedTable(stores[k] == Tied(true), stores[k + 1] == Tied(true));
    }
  }

  lemma {:induction false} SwappingGoesOn(fetches: nat, swapped: bool)
    ensures var pages := WalkGrowing(Swapping(fetches, swapped), Some(FirstId(swapped)), 1);
      !Finished(pages) && CountOf(Rows(pages), Row("c", 0)) == 0 && |pages| == fetches
  {
    hide GetPage, Tied, FirstId, Rows, CountOf;
    if fetches == 0 {
      CountInPages([], Row("c", 0));
    } else {
      var stores, next := Swapping(fetches, swapped), FirstId(!swapped);
      var page := GetPage(stores[0], Some(FirstId(swapped)), 1);
      assert stores[1..] == Swapping(fetches - 1, !swapped);
      TiedPage(swapped);
      SwappingGoesOn(fetches - 1, !swapped);
      var pages := WalkGrowing(stores[1..], Some(next), 1);
      CountInPages([page] + pages, Row("c", 0));
      assert ([page] + pages)[1..] == pages;
      ThirdUnseen(!swapped);
    }
  }

  lemma ThirdUnseen(swapped: bool)
    ensures CountOf([Row(FirstId(swapped), 0)], Row("c", 0)) == 0
  {
  }

  lemma {:induction false} SwappingIsTied(fetches: nat, swapped: bool)
    ensures |Swapping(fetches, swapped)| == fetches && AllTied(Swapping(fetches, swapped))
  {
    hide Tied;
    if fetches == 0 {
    } else {
      SwappingIsTied(fetches - 1, !swapped);
    }
  }

  /** Ties can keep a walk going for ever over a table that does not change at all: with one row a page
      and the first two of three tied rows swapped at every fetch, any number of fetches leaves the walk
      unfinished and the third row unseen. */
  lemma {:induction false} TiedWalkNeverFinishes(fetches: nat)
    ensures var stores := [Tied(false)] + Swapping(fetches, false);
      var pages := WalkGrowing(stores, None, 1);
      && Growing(stores) && (forall k :: 0 <= k < |stores| ==> Ordered(stores[k]))
      && |pages| == |stores| == fetches + 1 && !Finished(pages) && CountOf(Rows(pages), Row("c", 0)) == 0
  {
    hide Tied, GetPage, Growing, Ordered, Swapping, Rows, CountOf;
    var stores := [Tied(false)] + Swapping(fetches, false);
    var page := GetPage(stores[0], None, 1);
    TiedPage(false);
    SwappingGoesOn(fetches, false);
    SwappingIsTied(fetches, false);
    assert stores[1..] == Swapping(fetches, false);
    CountInPages(WalkGrowing(stores, None, 1), Row("c", 0));
    ThirdUnseen(false);
    TiedTables(stores);
  }

  // ---------------------------------------------------------------- what the rows shown look like

  ghost predicate Ascending(rows: seq<Row>) {
    forall i, j :: 0 <= i < j < |rows| ==> rows[i].rank <= rows[j].rank
  }

  /** Every row shown was there at the last fetch, and ranks never fall as pages are read. */
  ghost predicate Shows(shown: seq<Row>, bound: int, final: seq<Row>) {
    Ascending(shown) && forall r :: r in shown ==> r.rank >= bound && r in final
  }

  /** The cursor row, if there is one, has the rank `bound`; without one nothing ranks below it. */
  ghost predicate CursorAt(store: seq<Row>, cursor: Option<string>, bound: int) {
    match cursor
    case None => forall r :: r in store ==> r.rank >= bound
    case Some(id) => exists r :: r in store && r.id == id && r.rank == bound
  }

  lemma {:induction false} PageShows(store: seq<Row>, cursor: Option<string>, bound: int, limit: nat, data: seq<Row>)
    requires IsTable(store) && Ordered(store) && CursorAt(store, cursor, bound) && limit >= 1
    requires data == GetPage(store, cursor, limit).data
    ensures Shows(data, bound, store)
  {
    hide Position, GetPage;
    var start := StartOf(store, cursor);
    PageIsNextSlice(store, cursor, limit);
    assert forall i :: 0 <= i < |data| ==> data[i] == store[start + i];
    if cursor.Some? {
      var c :| c in store && c.id == cursor.value && c.rank == bound;
      RowHasPosition(store, c);
    }
  }

  lemma {:induction false} StaysVisible(stores: seq<seq<Row>>)
    requires Growing(stores) && stores != []
    ensures GrowsTo(stores[0], stores[|stores| - 1])
    decreases |stores|
  {
    if |stores| == 1 {
    } else {
      TailGrows(stores);
      StaysVisible(stores[1..]);
    }
  }

  lemma {:induction false} JoinAscending(front: seq<Row>, back: seq<Row>, last: int)
    requires Ascending(front) && Ascending(back) && front != [] && front[|front| - 1].rank == last
    requires forall r :: r in back ==> r.rank >= last
    ensures Ascending(front + back)
  {
    forall i, j | 0 <= i < |front| && 0 <= j < |back| ensures front[i].rank <= back[j].rank {
      assert back[j] in back;
    }
  }

  /** Whatever is inserted and however ties are arranged, the rows shown are in order and none is
      invented. */
  lemma {:induction false} GrowingWalkInOrder(stores: seq<seq<Row>>, cursor: Option<string>, bound: int, limit: nat)
    requires Growing(stores) && stores != [] && limit >= 1 && CursorAt(stores[0], cursor, bound)
    requires forall k :: 0 <= k < |stores| ==> Ordered(stores[k])
    ensures Shows(Rows(WalkGrowing(stores, cursor, limit)), bound, stores[|stores| - 1])
    decreases |stores|
  {
    hide GetPage, IsTable, Ordered;
    var page := GetPage(stores[0], cursor, limit);
    PageShows(stores[0], cursor, bound, limit, page.data);
    StaysVisible(stores);
    if page.hasNext && |stores| > 1 {
      var last := CursorIsRow(stores[0], cursor, limit);
      var pages := WalkGrowing(stores[1..], page.nextCursor, limit);
      TailGrows(stores);
      GrowingWalkInOrder(stores[1..], page.nextCursor, last.rank, limit);
      RowsOfMore(page, pages);
      JoinAscending(page.data, Rows(pages), last.rank);
      assert last.rank >= bound by { assert last in page.data; }
    } else {
      RowsOfMore(page, []);
      assert [page] + [] == [page] && page.data + Rows([]) == page.data;
    }
  }

  // ---------------------------------------------------------------- the growing walk ends

  /** Rows after the cursor. */
  function Left(store: seq<Row>, cursor: Option<string>): nat { |store| - StartOf(store, cursor) }

  /** Rows that many fetches can hold. */
  function Capacity(fetches: nat, limit: nat): nat { if fetches == 0 then 0 else limit + Capacity(fetches - 1, limit) }

  lemma {:induction false} SteadyFar(stores: seq<seq<Row>>)
    requires Steady(stores) && stores != []
    ensures GrowsTo(stores[0], stores[|stores| - 1]) && KeepsOrder(stores[0], stores[|stores| - 1])
    decreases |stores|
  {
    if |stores| == 1 {
    } else {
      TailSteady(stores);
      TailGrows(stores);
      SteadyFar(stores[1..]);
    }
  }

  /** Rows that follow one another from the cursor on are spread out, never squeezed, by insertions. */
  lemma {:induction false} Spread(store: seq<Row>, final: seq<Row>, cursor: Option<string>, i: nat)
    requires IsTable(store) && IsTable(final) && GrowsTo(store, final) && KeepsOrder(store, final)
    requires cursor.Some? ==> exists c :: c in store && c.id == cursor.value
    requires StartOf(store, cursor) + i < |store|
    ensures Position(final, store[StartOf(store, cursor) + i].id) >= StartOf(final, cursor) + i
  {
    hide Position, StartOf;
    var start := StartOf(store, cursor);
    var r := store[start + i];
    PositionOfRow(store, start + i);
    if i > 0 {
      Spread(store, final, cursor, i - 1);
      PositionOfRow(store, start + i - 1);
      assert store[start + i - 1] in store && r in store;
    } else {
      StartsNotBehind(store, final, cursor, r);
    }
  }

  lemma {:induction false} StartsNotBehind(store: seq<Row>, final: seq<Row>, cursor: Option<string>, r: Row)
    requires IsTable(store) && IsTable(final) && GrowsTo(store, final) && KeepsOrder(store, final)
    requires cursor.Some? ==> exists c :: c in store && c.id == cursor.value
    requires r in store && !Behind(store, cursor, r)
    ensures !Behind(final, cursor, r)
  {
    if cursor.Some? {
      var c :| c in store && c.id == cursor.value;
      BehindRow(store, c, r);
      BehindRow(final, c, r);
    }
  }

  /** A page with a next brings the cursor forward by at least `limit` rows of the final table. */
  lemma {:induction false} PageAdvances(store: seq<Row>, final: seq<Row>, cursor: Option<string>, limit: nat)
    requires IsTable(store) && IsTable(final) && GrowsTo(store, final) && KeepsOrder(store, final)
    requires cursor.Some? ==> exists c :: c in store && c.id == cursor.value
    requires limit >= 1 && GetPage(store, cursor, limit).hasNext
    ensures Left(final, GetPage(store, cursor, limit).nextCursor) + limit <= Left(final, cursor)
  {
    hide GetPage, Position;
    var start := StartOf(store, cursor);
    PageIsNextSlice(store, cursor, limit);
    Spread(store, final, cursor, limit - 1);
    var last := store[start + limit - 1];
    assert last in store;
    RowHasPosition(final, last);
  }

  /** The walk is over as soon as its fetches together could hold the rows there are to show, so it ends
      whenever rows stop arriving faster than pages are read. */
  lemma {:induction false} GrowingWalkFinishes(stores: seq<seq<Row>>, cursor: Option<string>, limit: nat)
    requires Steady(stores) && stores != [] && limit >= 1
    requires cursor.Some? ==> exists c :: c in stores[0] && c.id == cursor.value
    requires Left(stores[|stores| - 1], cursor) <= Capacity(|stores|, limit)
    ensures Finished(WalkGrowing(stores, cursor, limit))
    decreases |stores|
  {
    hide GetPage, StartOf, IsTable, Position;
    var page := GetPage(stores[0], cursor, limit);
    PageIsNextSlice(stores[0], cursor, limit);
    if page.hasNext {
      assert |stores| > 1;
      var last := CursorIsRow(stores[0], cursor, limit);
      SteadyFar(stores);
      PageAdvances(stores[0], stores[|stores| - 1], cursor, limit);
      TailSteady(stores);
      TailGrows(stores);
      GrowingWalkFinishes(stores[1..], page.nextCursor, limit);
      var pages := WalkGrowing(stores[1..], page.nextCursor, limit);
      assert WalkGrowing(stores, cursor, limit) == [page] + pages;
    }
  }
}
