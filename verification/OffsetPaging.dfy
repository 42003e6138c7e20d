/** The infinite list: offset pages fetched one after another, and local edits of the loaded prefix. */
module OffsetPaging {
  import opened Common

  datatype Page<T> = Page(items: seq<T>, total: nat, hasMore: bool)

  /** `Array.prototype.slice` for bounds that are not negative. */
  function Slice<T>(s: seq<T>, from: nat, to: nat): seq<T> {
    if from >= |s| || from >= to then [] else s[from..Min(to, |s|)]
  }

  function SliceOffsetLimitPage<T>(all: seq<T>, offset: int, limit: int): Page<T> {
    var safeOffset := Max(0, offset);
    var items := Slice(all, safeOffset, safeOffset + Max(1, limit));
    Page(items, |all|, safeOffset + |items| < |all|)
  }

  function EstimateHasNextPageTotal(offset: int, count: nat, hasNext: bool): nat {
    Max(0, offset) + count + if hasNext then 1 else 0
  }

  function Flatten<T>(pages: seq<Page<T>>): seq<T> {
    if pages == [] then [] else Flatten(pages[..|pages| - 1]) + pages[|pages| - 1].items
  }

  function ItemCount<T>(pages: seq<Page<T>>): nat {
    if pages == [] then 0 else ItemCount(pages[..|pages| - 1]) + |pages[|pages| - 1].items|
  }

  function ReportedTotal<T>(pages: seq<Page<T>>): nat {
    if pages == [] then 0 else Max(ReportedTotal(pages[..|pages| - 1]), pages[|pages| - 1].total)
  }

  /** None means that there is nothing more to fetch. */
  function GetNextPageParam<T>(pages: seq<Page<T>>): Option<nat>
    requires pages != []
  {
    if pages[|pages| - 1].hasMore then Some(ItemCount(pages)) else None
  }

  function ReplaceItems<T>(before: Option<seq<Page<T>>>, items: seq<T>, total: nat): seq<Page<T>> {
    [Page(items, total, before.Some? && before.value != [] && before.value[|before.value| - 1].hasMore)]
  }

  lemma {:induction false} ItemCountIsLength<T>(pages: seq<Page<T>>)
    ensures ItemCount(pages) == |Flatten(pages)|
  {
    if pages != [] {
      ItemCountIsLength(pages[..|pages| - 1]);
    }
  }

  // ---------- The list and its server ----------

  /** `pages` is the query's data, None before the first page; `server` is the list at the other end. */
  datatype State<T> = State(pages: Option<seq<Page<T>>>, server: seq<T>)

  /** A local edit gives the loaded rows their new value; the server's copy of them changes likewise. */
  datatype Event<T> = Fetch | Patch(items: seq<T>, total: nat)

  function Loaded<T>(s: State<T>): seq<T> {
    if s.pages.Some? then Flatten(s.pages.value) else []
  }

  function Next<T>(s: State<T>, e: Event<T>, limit: nat): State<T> {
    match e
    case Fetch =>
      if s.pages.None? || s.pages.value == [] then
        s.(pages := Some([SliceOffsetLimitPage(s.server, 0, limit)]))
      else if GetNextPageParam(s.pages.value).None? then s
      else
        var offset := GetNextPageParam(s.pages.value).value;
        s.(pages := Some(s.pages.value + [SliceOffsetLimitPage(s.server, offset, limit)]))
    case Patch(items, total) =>
      State(Some(ReplaceItems(s.pages, items, total)),
            items + if |Loaded(s)| <= |s.server| then s.server[|Loaded(s)|..] else [])
  }

  function Run<T>(s: State<T>, es: seq<Event<T>>, limit: nat): State<T> {
    if es == [] then s else Next(Run(s, es[..|es| - 1], limit), es[|es| - 1], limit)
  }

  class InfiniteList<T(0)> {
    const pageSize: nat
    var data: Option<seq<Page<T>>>

    constructor (pageSize: nat)
      ensures this.pageSize == pageSize && data.None?
    {
      this.pageSize := pageSize;
      data := None;
    }

    /** `server` is what the endpoint answers from. */
    method FetchNextPage(server: seq<T>)
      modifies this
      ensures State(data, server) == Next(old(State(data, server)), Fetch, pageSize)
    {
      if data.None? || data.value == [] {
        data := Some([SliceOffsetLimitPage(server, 0, pageSize)]);
        return;
      }
      var param := GetNextPageParam(data.value);
      if param.Some? {
        data := Some(data.value + [SliceOffsetLimitPage(server, param.value, pageSize)]);
      }
    }

    method PatchItems(items: seq<T>, total: nat)
      modifies this
      ensures data == Some(ReplaceItems(old(data), items, total))
      ensures Flatten(data.value) == items
    {
      data := Some(ReplaceItems(data, items, total));
      assert data.value[..0] == [];
      assert Flatten(data.value) == Flatten(data.value[..0]) + items;
    }
  }

  /** The loaded rows are a prefix of the server's, and `hasMore` says whether it is a proper one. */
  ghost predicate Consistent<T>(s: State<T>) {
    s.pages.Some? ==>
      && s.pages.value != []
      && Loaded(s) <= s.server
      && (s.pages.value[|s.pages.value| - 1].hasMore <==> |Loaded(s)| < |s.server|)
  }

  lemma FlattenOneMore<T>(pages: seq<Page<T>>, page: Page<T>)
    ensures Flatten(pages + [page]) == Flatten(pages) + page.items
  {
    assert (pages + [page])[..|pages|] == pages;
  }

  lemma SliceContinues<T>(all: seq<T>, offset: nat, limit: nat)
    requires offset <= |all|
    ensures var page := SliceOffsetLimitPage(all, offset, limit);
      && all[..offset] + page.items <= all
      && offset + |page.items| == Min(offset + Max(1, limit), |all|)
      && (page.hasMore <==> offset + |page.items| < |all|)
  {
    var page := SliceOffsetLimitPage(all, offset, limit);
    var end := Min(offset + Max(1, limit), |all|);
    assert page.items == all[offset..end];
    assert all[..offset] + all[offset..end] == all[..end];
  }

  lemma FetchKeepsConsistent<T>(s: State<T>, limit: nat)
    requires Consistent(s)
    ensures var t := Next(s, Fetch, limit);
      && Consistent(t) && t.pages.Some? && t.server == s.server
      && |Loaded(t)| == Min(|Loaded(s)| + Max(1, limit), |s.server|)
  {
    if s.pages.None? {
      SliceContinues(s.server, 0, limit);
      var page := SliceOffsetLimitPage(s.server, 0, limit);
      FlattenOneMore([], page);
      assert [] + [page] == [page] && s.server[..0] + page.items == page.items;
    } else {
      ItemCountIsLength(s.pages.value);
      var offset := |Loaded(s)|;
      SliceContinues(s.server, offset, limit);
      FlattenOneMore(s.pages.value, SliceOffsetLimitPage(s.server, offset, limit));
      assert s.server[..offset] == Loaded(s);
    }
  }

  lemma PatchedPage<T>(s: State<T>, items: seq<T>, total: nat)
    ensures Loaded(Next(s, Patch(items, total), 0)) == items
  {
    var page := ReplaceItems(s.pages, items, total);
    assert page[..0] == [];
    assert Flatten(page) == Flatten(page[..0]) + items;
  }

  /** An edit of loaded rows keeps the list and the server in step. */
  lemma PatchKeepsConsistent<T>(s: State<T>, items: seq<T>, total: nat, limit: nat)
    requires Consistent(s) && s.pages.Some?
    ensures Consistent(Next(s, Patch(items, total), limit))
    ensures Loaded(Next(s, Patch(items, total), limit)) == items
  {
    PatchedPage(s, items, total);
  }

  /** Before any page is loaded the edit claims that nothing more is coming, which is right only of an empty list. */
  lemma PatchBeforeLoad<T>(s: State<T>, items: seq<T>, total: nat, limit: nat)
    requires s.pages.None?
    ensures Consistent(Next(s, Patch(items, total), limit)) <==> s.server == []
  {
    PatchedPage(s, items, total);
    assert s.server[0..] == s.server;
  }

  /** No edit comes before the first page. */
  predicate LoadsFirst<T>(s: State<T>, es: seq<Event<T>>) {
    s.pages.Some? || es == [] || es[0].Fetch?
  }

  /** Whatever mix of fetches and edits, no row is lost, repeated or out of order. */
  lemma {:induction false} RunIsConsistent<T>(s: State<T>, es: seq<Event<T>>, limit: nat)
    requires Consistent(s) && LoadsFirst(s, es)
    ensures Consistent(Run(s, es, limit)) && (es != [] ==> Run(s, es, limit).pages.Some?)
  {
    if es != [] {
      var before := es[..|es| - 1];
      RunIsConsistent(s, before, limit);
      var last := es[|es| - 1];
      if last.Fetch? {
        FetchKeepsConsistent(Run(s, before, limit), limit);
      } else {
        assert before == [] ==> last == es[0];
        PatchKeepsConsistent(Run(s, before, limit), last.items, last.total, limit);
      }
    }
  }

  function Fetches<T>(n: nat): (es: seq<Event<T>>)
    ensures |es| == n
  {
    if n == 0 then [] else Fetches<T>(n - 1) + [Fetch]
  }

  lemma {:induction false} FetchesLoad<T>(s: State<T>, n: nat, limit: nat)
    requires Consistent(s)
    ensures var t := Run(s, Fetches<T>(n), limit);
      Consistent(t) && t.server == s.server && (n > 0 ==> t.pages.Some?)
      && |Loaded(t)| == if n == 0 then |Loaded(s)| else Min(|Loaded(s)| + n * Max(1, limit), |s.server|)
  {
    if n > 0 {
      FetchesLoad(s, n - 1, limit);
      var es := Fetches<T>(n);
      assert es[..n - 1] == Fetches<T>(n - 1) && es[n - 1] == Fetch;
      FetchKeepsConsistent(Run(s, es[..n - 1], limit), limit);
      OneStepFurther(|Loaded(s)|, n, Max(1, limit), |s.server|);
    }
  }

  lemma OneStepFurther(start: nat, n: nat, step: nat, total: nat)
    requires n > 0 && start <= total
    ensures Min(Min(start + (n - 1) * step, total) + step, total) == Min(start + n * step, total)
    ensures n == 1 ==> Min(start + step, total) == Min(start + n * step, total)
  {
    assert (n - 1) * step + step == n * step;
  }

  /** Following the page parameter loads the whole list and then stops. */
  lemma WalkLoadsEverything<T>(server: seq<T>, n: nat, limit: nat)
    requires n > 0 && n * Max(1, limit) >= |server|
    ensures var t := Run(State(None, server), Fetches<T>(n), limit);
      && Loaded(t) == server
      && t.pages.Some? && t.pages.value != [] && GetNextPageParam(t.pages.value) == None
  {
    var s: State<T> := State(None, server);
    FetchesLoad(s, n, limit);
    var t := Run(s, Fetches<T>(n), limit);
    assert Loaded(t) == server[..|Loaded(t)|];
  }

  // ---------- Totals ----------

  /** Pages that follow one another with estimated totals: all but the last promise more, and none is empty. */
  ghost predicate Walked<T>(pages: seq<Page<T>>) {
    forall i :: 0 <= i < |pages| ==>
      && pages[i].total == EstimateHasNextPageTotal(ItemCount(pages[..i]), |pages[i].items|, pages[i].hasMore)
      && (i < |pages| - 1 ==> pages[i].hasMore)
      && (i > 0 ==> pages[i].items != [])
  }

  /** The greatest estimate is the last one: the rows loaded, and one more if more are promised. */
  lemma {:induction false} EstimatesAddUp<T>(pages: seq<Page<T>>)
    requires pages != [] && Walked(pages)
    ensures ReportedTotal(pages) == |Flatten(pages)| + if pages[|pages| - 1].hasMore then 1 else 0
  {
    var before := pages[..|pages| - 1];
    ItemCountIsLength(before);
    if before != [] {
      assert forall i :: 0 <= i < |before| ==> before[..i] == pages[..i];
      EstimatesAddUp(before);
    }
  }
}
