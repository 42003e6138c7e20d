/** Collecting a paged catalogue, and the two page sources it is pointed at. */
module BulkFetch {
  import opened Common
  import opened OffsetPaging

  datatype PagedList<T> = PagedList(data: seq<T>, hasNextPage: bool)

  const PAGE_SIZE: nat := 200
  const MAX_PAGES: nat := 50
  const SERVER_CAP: nat := 100

  /** `Number(value) || fallback`: a missing, unreadable or zero value gives the fallback. */
  function NumberOr(value: Option<int>, fallback: int): int {
    if value.Some? && value.value != 0 then value.value else fallback
  }

  /** The fake backend's page, whose limit is capped whatever the query asks for. */
  function Paginate<T>(items: seq<T>, page: Option<int>, limit: Option<int>): PagedList<T> {
    var p := Max(1, NumberOr(page, 1));
    var l := Min(SERVER_CAP, Max(1, NumberOr(limit, 10)));
    PageStart(p, l);
    var start := (p - 1) * l;
    PagedList(Slice(items, start, start + l), start + l < |items|)
  }

  lemma PageStart(p: int, l: int)
    requires p >= 1 && l >= 0
    ensures (p - 1) * l >= 0
  {
  }

  /** What a list endpoint may answer: a bare array, the envelope, or something else. */
  datatype Raw<T> = Bare(rows: seq<T>) | Envelope(data: seq<T>, hasNextPage: bool) | Unreadable

  function ParseNestPagedList<T>(raw: Raw<T>): PagedList<T> {
    match raw
    case Bare(rows) => PagedList(rows, false)
    case Envelope(data, hasNextPage) => PagedList(data, hasNextPage)
    case Unreadable => PagedList([], false)
  }

  function ParseNestMaybePagedList<T>(raw: Raw<T>, page: Option<int>, limit: Option<int>): PagedList<T> {
    if raw.Bare? && limit.Some? && limit.value > 0 then
      var p := Max(1, if page.Some? then page.value else 1);
      PageStart(p, limit.value);
      var start := (p - 1) * limit.value;
      var slice := Slice(raw.rows, start, start + limit.value);
      PagedList(slice, start + |slice| < |raw.rows|)
    else ParseNestPagedList(raw)
  }

  /** The pages from `page` on, at most `left` of them. */
  function Collected<T>(listPage: nat -> PagedList<T>, page: nat, left: nat): seq<T>
    decreases left
  {
    if left == 0 then []
    else listPage(page).data + if listPage(page).hasNextPage then Collected(listPage, page + 1, left - 1) else []
  }

  method FetchAllNestPagedCatalog<T>(listPage: nat -> PagedList<T>) returns (all: seq<T>)
    ensures all == Collected(listPage, 1, MAX_PAGES)
  {
    all := [];
    var page := 1;
    var i := 0;
    while i < MAX_PAGES
      invariant i <= MAX_PAGES
      invariant all + Collected(listPage, page, MAX_PAGES - i) == Collected(listPage, 1, MAX_PAGES)
    {
      var answer := listPage(page);
      CollectedStep(listPage, page, MAX_PAGES - i, all);
      all := all + answer.data;
      if !answer.hasNextPage {
        break;
      }
      page := page + 1;
      i := i + 1;
    }
  }

  lemma CollectedStep<T>(listPage: nat -> PagedList<T>, page: nat, left: nat, all: seq<T>)
    requires left > 0
    ensures all + Collected(listPage, page, left) == all + listPage(page).data +
      if listPage(page).hasNextPage then Collected(listPage, page + 1, left - 1) else []
  {
  }

  // ---------- Which rows come back ----------

  /** The answer is the page of `size` rows from `start`, and says truly whether more follow. */
  ghost predicate IsPage<T>(answer: PagedList<T>, rows: seq<T>, start: nat, size: nat)
    requires start <= |rows|
  {
    if start + size < |rows| then answer.hasNextPage && answer.data == rows[start..start + size]
    else !answer.hasNextPage && answer.data == rows[start..]
  }

  lemma SliceIsPage<T>(rows: seq<T>, start: nat, size: nat)
    requires start <= |rows|
    ensures IsPage(PagedList(Slice(rows, start, start + size), start + size < |rows|), rows, start, size)
  {
  }

  /** The fake backend's page: the first and ten rows unless asked otherwise, a hundred rows at most. */
  lemma PaginateServes<T(!new)>(rows: seq<T>, page: Option<int>, limit: Option<int>)
    ensures var p := if page == None || page.value < 1 then 1 else page.value;
      var l := if limit == None || limit.value == 0 then 10 else if limit.value < 1 then 1
               else if limit.value > 100 then 100 else limit.value;
      (p - 1) * l >= 0 && ((p - 1) * l <= |rows| ==> IsPage(Paginate(rows, page, limit), rows, (p - 1) * l, l))
  {
    var p := Max(1, NumberOr(page, 1));
    var l := Min(SERVER_CAP, Max(1, NumberOr(limit, 10)));
    PageStart(p, l);
    if (p - 1) * l <= |rows| {
      SliceIsPage(rows, (p - 1) * l, l);
    }
  }

  /** What the client reads: an envelope as it is, a bare array cut to the page asked for or whole, else nothing. */
  lemma ReadsAnswer<T(!new)>(raw: Raw<T>, page: Option<int>, limit: Option<int>)
    ensures var read := ParseNestMaybePagedList(raw, page, limit);
      match raw
      case Envelope(data, hasNextPage) => read == PagedList(data, hasNextPage)
      case Unreadable => read.data == [] && !read.hasNextPage
      case Bare(rows) =>
        if limit == None || limit.value <= 0 then read.data == rows && !read.hasNextPage
        else
          var p := if page == None || page.value < 1 then 1 else page.value;
          var start := (p - 1) * limit.value;
          start >= 0 && (start <= |rows| ==> IsPage(read, rows, start, limit.value))
  {
    if raw.Bare? && limit.Some? && limit.value > 0 {
      PageStart(Max(1, if page.Some? then page.value else 1), limit.value);
    }
  }

  /** `listPage` serves the list in pages of `size` rows, as far as there are rows. */
  ghost predicate Serves<T(!new)>(listPage: nat -> PagedList<T>, rows: seq<T>, size: nat) {
    forall page: nat :: page >= 1 ==> ServesPage(listPage(page), rows, size, page)
  }

  ghost predicate ServesPage<T>(answer: PagedList<T>, rows: seq<T>, size: nat, page: nat)
    requires page >= 1
  {
    var start := (page - 1) * size;
    start >= 0 && (start < |rows| || start == 0 ==> IsPage(answer, rows, start, size))
  }

  /** The next `left` pages, the first of them at row `start`. */
  ghost predicate ServesFrom<T(!new)>(
    listPage: nat -> PagedList<T>, rows: seq<T>, size: nat, page: nat, start: nat, left: nat)
    decreases left
  {
    left > 0 ==>
      && (start < |rows| || start == 0 ==> IsPage(listPage(page), rows, start, size))
      && ServesFrom(listPage, rows, size, page + 1, start + size, left - 1)
  }

  function Reach(size: nat, left: nat): nat {
    if left == 0 then 0 else size + Reach(size, left - 1)
  }

  lemma {:induction false} ReachIsProduct(size: nat, left: nat)
    ensures Reach(size, left) == left * size
  {
    if left > 0 {
      ReachIsProduct(size, left - 1);
      assert left * size == size + (left - 1) * size;
    }
  }

  lemma {:induction false} ServedFrom<T(!new)>(
    listPage: nat -> PagedList<T>, rows: seq<T>, size: nat, page: nat, start: nat, left: nat)
    requires Serves(listPage, rows, size) && page >= 1 && start == (page - 1) * size
    ensures ServesFrom(listPage, rows, size, page, start, left)
    decreases left
  {
    if left > 0 {
      assert ServesPage(listPage(page), rows, size, page);
      assert start + size == (page + 1 - 1) * size;
      ServedFrom(listPage, rows, size, page + 1, start + size, left - 1);
    }
  }

  /** The rows from `start` on, at most `left` pages of them. */
  ghost function RowsFrom<T>(rows: seq<T>, size: nat, start: nat, left: nat): seq<T>
    requires start <= |rows|
    decreases left
  {
    if left == 0 then []
    else if start + size < |rows| then rows[start..start + size] + RowsFrom(rows, size, start + size, left - 1)
    else rows[start..]
  }

  lemma {:induction false} CollectedIsRows<T(!new)>(
    listPage: nat -> PagedList<T>, rows: seq<T>, size: nat, page: nat, start: nat, left: nat)
    requires ServesFrom(listPage, rows, size, page, start, left) && (start < |rows| || start == 0)
    ensures Collected(listPage, page, left) == RowsFrom(rows, size, start, left)
    decreases left
  {
    if left > 0 {
      if start + size < |rows| {
        CollectedIsRows(listPage, rows, size, page + 1, start + size, left - 1);
      } else {
        assert listPage(page).data + [] == rows[start..];
      }
    }
  }

  lemma {:induction false} RowsFromIsPrefix<T>(rows: seq<T>, size: nat, start: nat, left: nat)
    requires start <= |rows|
    ensures RowsFrom(rows, size, start, left) == rows[start..Min(|rows|, start + Reach(size, left))]
    decreases left
  {
    if left > 0 && start + size < |rows| {
      RowsFromIsPrefix(rows, size, start + size, left - 1);
      PartsJoin(rows, start, start + size, Min(|rows|, start + Reach(size, left)));
    }
  }

  lemma PartsJoin<T>(rows: seq<T>, from: nat, mid: nat, to: nat)
    requires from <= mid <= to <= |rows|
    ensures rows[from..mid] + rows[mid..to] == rows[from..to]
  {
  }

  /** The loop returns the first `pages` pages' worth: the whole list exactly when that holds it. */
  lemma CollectsWholeListIffItFits<T(!new)>(listPage: nat -> PagedList<T>, rows: seq<T>, size: nat, pages: nat)
    requires Serves(listPage, rows, size) && pages * size > 0
    ensures Collected(listPage, 1, pages) == rows[..Min(|rows|, pages * size)]
    ensures Collected(listPage, 1, pages) == rows <==> |rows| <= pages * size
  {
    ServedFrom(listPage, rows, size, 1, 0, pages);
    CollectedIsRows(listPage, rows, size, 1, 0, pages);
    RowsFromIsPrefix(rows, size, 0, pages);
    ReachIsProduct(size, pages);
  }

  /** The client's view of a list route of the fake backend. */
  function FakeBackend<T>(rows: seq<T>): nat -> PagedList<T> {
    (page: nat) =>
      var served := Paginate(rows, Some(page), Some(PAGE_SIZE));
      ParseNestMaybePagedList(Envelope(served.data, served.hasNextPage), Some(page), Some(PAGE_SIZE))
  }

  /** The client's view of a route that answers with the whole array. */
  function BareArray<T>(rows: seq<T>): nat -> PagedList<T> {
    (page: nat) => ParseNestMaybePagedList(Bare(rows), Some(page), Some(PAGE_SIZE))
  }

  /** Asking the fake backend for 200 a page gets 100: its cap, not the client's page size, sets the reach. */
  lemma FakeBackendGivesFiveThousand<T(!new)>(rows: seq<T>)
    ensures Collected(FakeBackend(rows), 1, MAX_PAGES) == rows[..Min(|rows|, 5_000)]
    ensures Collected(FakeBackend(rows), 1, MAX_PAGES) == rows <==> |rows| <= 5_000
  {
    forall page: nat | page >= 1 ensures ServesPage(FakeBackend(rows)(page), rows, SERVER_CAP, page) {
      PaginateServes(rows, Some(page), Some(PAGE_SIZE));
    }
    CollectsWholeListIffItFits(FakeBackend(rows), rows, SERVER_CAP, MAX_PAGES);
  }

  /** A bare array is cut up on the client, 200 rows at a time. */
  lemma BareArrayGivesTenThousand<T(!new)>(rows: seq<T>)
    ensures Collected(BareArray(rows), 1, MAX_PAGES) == rows[..Min(|rows|, 10_000)]
    ensures Collected(BareArray(rows), 1, MAX_PAGES) == rows <==> |rows| <= 10_000
  {
    forall page: nat | page >= 1 ensures ServesPage(BareArray(rows)(page), rows, PAGE_SIZE, page) {
      ReadsAnswer(Bare(rows), Some(page), Some(PAGE_SIZE));
    }
    CollectsWholeListIffItFits(BareArray(rows), rows, PAGE_SIZE, MAX_PAGES);
  }
}
