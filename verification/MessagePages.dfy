/** Reading a conversation page by page: the route, and the client's walk over it. */
module MessagePages {
  import opened Common
  import opened EnrollmentMachine

  const DEFAULT_LIMIT: nat := 50
  const MAX_LIMIT: nat := 100
  const MAX_PAGES: nat := 50

  datatype Page = Page(data: seq<Message>, hasNext: bool)

  function After(ms: seq<Message>, sequence: int): seq<Message> {
    if ms == [] then []
    else (if ms[0].sequence > sequence then [ms[0]] else []) + After(ms[1..], sequence)
  }

  function Before(ms: seq<Message>, sequence: int): seq<Message> {
    if ms == [] then []
    else (if ms[0].sequence < sequence then [ms[0]] else []) + Before(ms[1..], sequence)
  }

  /** `Number(value) || null`: a missing, unreadable or zero value gives null. */
  function NumberOrNull(value: Option<int>): Option<int> {
    if value.Some? && value.value != 0 then value else None
  }

  function Limit(value: Option<int>): nat {
    var n := NumberOrNull(value);
    Min(MAX_LIMIT, Max(1, if n.Some? then n.value else DEFAULT_LIMIT))
  }

  /** `slice(-limit)`: the last `limit` of the messages. */
  function LastOf(ms: seq<Message>, limit: nat): Page {
    Page(ms[Max(0, |ms| - limit)..], |ms| > limit)
  }

  function FirstOf(ms: seq<Message>, limit: nat): Page {
    Page(ms[..Min(limit, |ms|)], |ms| > limit)
  }

  /** The answer of `GET /conversations/{id}/messages` for its three query parameters. */
  function MessagesPage(
    s: State, conversation: nat, beforeSequence: Option<int>, afterSequence: Option<int>, limit: Option<int>): Page
  {
    PageOf(MessagesOf(s, conversation), NumberOrNull(beforeSequence), NumberOrNull(afterSequence), Limit(limit))
  }

  function PageOf(all: seq<Message>, before: Option<int>, after: Option<int>, limit: nat): Page {
    if after.Some? then FirstOf(After(all, after.value), limit)
    else LastOf(if before.None? then all else Before(all, before.value), limit)
  }

  lemma {:induction false} AfterIsSuffix(ms: seq<Message>, first: nat, n: nat)
    requires n <= |ms| && forall k :: 0 <= k < |ms| ==> ms[k].sequence == first + k
    ensures After(ms, first + n - 1) == ms[n..]
  {
    if n > 0 {
      AfterIsSuffix(ms[1..], first + 1, n - 1);
      TailOfTail(ms, n);
    } else if ms != [] {
      AfterNone(ms, first - 1);
      assert ms[0..] == ms;
    }
  }

  lemma {:induction false} AfterNone(ms: seq<Message>, sequence: int)
    requires forall k :: 0 <= k < |ms| ==> ms[k].sequence > sequence
    ensures After(ms, sequence) == ms
  {
    if ms != [] {
      AfterNone(ms[1..], sequence);
      assert [ms[0]] + ms[1..] == ms;
    }
  }

  lemma TailOfTail<T>(s: seq<T>, n: nat)
    requires 0 < n <= |s|
    ensures s[1..][n - 1..] == s[n..]
  {
  }

  lemma {:induction false} BeforeIsPrefix(ms: seq<Message>, first: nat, n: nat)
    requires n <= |ms| && forall k :: 0 <= k < |ms| ==> ms[k].sequence == first + k
    ensures Before(ms, first + n) == ms[..n]
  {
    if n > 0 {
      BeforeIsPrefix(ms[1..], first + 1, n - 1);
      assert ms[..n] == [ms[0]] + ms[1..][..n - 1];
    } else if ms != [] {
      BeforeNone(ms, first);
    }
  }

  lemma {:induction false} BeforeNone(ms: seq<Message>, sequence: int)
    requires forall k :: 0 <= k < |ms| ==> ms[k].sequence >= sequence
    ensures Before(ms, sequence) == []
  {
    if ms != [] {
      BeforeNone(ms[1..], sequence);
    }
  }

  // ---------- One page ----------

  /** The messages of the conversation in row `k`, numbered from 1. */
  function All(s: State, k: nat): seq<Message>
    requires k < |s.conversations|
  {
    MessagesIn(s.messages, s.conversations[k].id)
  }

  lemma PageAfter(s: State, k: nat, seen: nat, limit: Option<int>)
    requires Inv(s) && k < |s.conversations| && 0 < seen <= |All(s, k)|
    ensures MessagesPage(s, s.conversations[k].id, None, Some(seen), limit)
         == FirstOf(All(s, k)[seen..], Limit(limit))
  {
    SortIsIdentity(s, k);
    PageOfAfter(All(s, k), seen, Limit(limit));
  }

  lemma PageOfAfter(all: seq<Message>, seen: nat, limit: nat)
    requires NumberedFrom1(all) && seen <= |all|
    ensures PageOf(all, None, Some(seen), limit) == FirstOf(all[seen..], limit)
  {
    AfterIsSuffix(all, 1, seen);
  }

  lemma PageOfBefore(all: seq<Message>, oldest: nat, limit: nat)
    requires NumberedFrom1(all) && 1 <= oldest <= |all| + 1
    ensures PageOf(all, Some(oldest), None, limit) == LastOf(all[..oldest - 1], limit)
  {
    BeforeIsPrefix(all, 1, oldest - 1);
  }

  lemma PageFromZero(s: State, k: nat, afterSequence: Option<int>, limit: Option<int>)
    requires Inv(s) && k < |s.conversations| && (afterSequence == None || afterSequence == Some(0))
    ensures MessagesPage(s, s.conversations[k].id, None, afterSequence, limit) == LastOf(All(s, k), Limit(limit))
  {
    SortIsIdentity(s, k);
  }

  /** `page` is what comes right after the first `seen` of `all`, and says truly whether more follows. */
  ghost predicate Continues(all: seq<Message>, seen: nat, page: Page)
    requires seen <= |all|
  {
    && seen + |page.data| <= |all|
    && all[..seen] + page.data == all[..seen + |page.data|]
    && (page.hasNext <==> seen + |page.data| < |all|)
  }

  lemma LastIsNotFirst(s: State, k: nat, limit: nat)
    requires Inv(s) && k < |s.conversations| && 1 <= limit < |All(s, k)|
    ensures !Continues(All(s, k), 0, LastOf(All(s, k), limit))
  {
    var all := All(s, k);
    SortIsIdentity(s, k);
    var page := LastOf(all, limit);
    assert (all[..0] + page.data)[0] == all[|all| - limit];
    assert all[..|page.data|][0] == all[0];
  }

  /**
   * Asking for what follows the last message seen misses none and repeats none, if and only if some
   * message was seen or all of them fit on one page: sequence 0 is read as no sequence at all.
   */
  lemma NewerPageContinues(s: State, k: nat, seen: nat, limit: Option<int>)
    requires Inv(s) && k < |s.conversations| && seen <= |All(s, k)|
    ensures Continues(All(s, k), seen, MessagesPage(s, s.conversations[k].id, None, Some(seen), limit))
      <==> seen != 0 || |All(s, k)| <= Limit(limit)
  {
    var all := All(s, k);
    if seen > 0 {
      PageAfter(s, k, seen, limit);
      FirstOfRest(all, seen, Limit(limit));
    } else {
      PageFromZero(s, k, Some(0), limit);
      if |all| > Limit(limit) {
        LastIsNotFirst(s, k, Limit(limit));
      } else {
        assert all[..0] + all[0..] == all[..|all|];
      }
    }
  }

  lemma FirstOfRest(all: seq<Message>, seen: nat, limit: nat)
    requires seen <= |all|
    ensures Continues(all, seen, FirstOf(all[seen..], limit))
  {
    var n := Min(limit, |all| - seen);
    assert all[..seen] + all[seen..][..n] == all[..seen + n];
  }

  /** The failing input: after sequence 0 the route sends the last page, as if asked for nothing. */
  lemma ZeroGetsTheLastPage(s: State, k: nat, limit: Option<int>)
    requires Inv(s) && k < |s.conversations| && |All(s, k)| > Limit(limit)
    ensures var page := MessagesPage(s, s.conversations[k].id, None, Some(0), limit);
      && page == MessagesPage(s, s.conversations[k].id, None, None, limit)
      && |page.data| == Limit(limit) && page.data[0].sequence == |All(s, k)| - Limit(limit) + 1 > 1
      && page.data[|page.data| - 1].sequence == |All(s, k)| && page.hasNext
  {
    SortIsIdentity(s, k);
    PageFromZero(s, k, Some(0), limit);
    PageFromZero(s, k, None, limit);
  }

  /** `page` is what comes right before message number `oldest`, and says truly whether more precedes it. */
  ghost predicate Precedes(all: seq<Message>, oldest: nat, page: Page)
    requires 1 <= oldest <= |all| + 1
  {
    && |page.data| < oldest
    && page.data + all[oldest - 1..] == all[oldest - 1 - |page.data|..]
    && (page.hasNext <==> |page.data| < oldest - 1)
  }

  lemma PageBefore(s: State, k: nat, oldest: nat, limit: Option<int>)
    requires Inv(s) && k < |s.conversations| && 1 <= oldest <= |All(s, k)| + 1
    ensures MessagesPage(s, s.conversations[k].id, Some(oldest), None, limit)
         == LastOf(All(s, k)[..oldest - 1], Limit(limit))
  {
    SortIsIdentity(s, k);
    PageOfBefore(All(s, k), oldest, Limit(limit));
  }

  lemma LastOfPrefix(all: seq<Message>, oldest: nat, limit: nat)
    requires 1 <= oldest <= |all| + 1
    ensures Precedes(all, oldest, LastOf(all[..oldest - 1], limit))
  {
    var start := Max(0, oldest - 1 - limit);
    assert all[..oldest - 1][start..] + all[oldest - 1..] == all[start..];
  }

  /** Asking for what precedes the oldest message held misses and repeats none either. */
  lemma OlderPageContinues(s: State, k: nat, oldest: nat, limit: Option<int>)
    requires Inv(s) && k < |s.conversations| && 1 <= oldest <= |All(s, k)| + 1
    ensures Precedes(All(s, k), oldest, MessagesPage(s, s.conversations[k].id, Some(oldest), None, limit))
  {
    PageBefore(s, k, oldest, limit);
    LastOfPrefix(All(s, k), oldest, Limit(limit));
  }

  // ---------- The client's walk ----------

  /** What the walk still collects, with at most `left` pages to go; `fetch` answers for a sequence or none. */
  function Walked(fetch: Option<int> -> Page, after: Option<int>, left: nat): seq<Message>
    decreases left
  {
    if left == 0 then []
    else
      var page := fetch(after);
      page.data +
      if !page.hasNext || page.data == [] then []
      else Walked(fetch, Some(page.data[|page.data| - 1].sequence), left - 1)
  }

  /** What follows a page, in the walk. */
  function Rest(fetch: Option<int> -> Page, page: Page, left: nat): seq<Message>
    requires left > 0
  {
    if !page.hasNext || page.data == [] then []
    else Walked(fetch, Some(page.data[|page.data| - 1].sequence), left - 1)
  }

  lemma WalkStep(fetch: Option<int> -> Page, after: Option<int>, left: nat, collected: seq<Message>)
    requires left > 0
    ensures var page := fetch(after);
      collected + Walked(fetch, after, left) == collected + page.data + Rest(fetch, page, left)
  {
    Associate(collected, fetch(after).data, Rest(fetch, fetch(after), left));
  }

  /** The client allows itself `maxPages` pages, which is `MAX_PAGES`. */
  method ListMessages(fetch: Option<int> -> Page, maxPages: nat) returns (collected: seq<Message>)
    ensures collected == Walked(fetch, None, maxPages)
  {
    collected := [];
    var after: Option<int> := None;
    var page := 0;
    ghost var goal := Walked(fetch, None, maxPages);
    while page < maxPages
      invariant page <= maxPages
      invariant collected + Walked(fetch, after, maxPages - page) == goal
    {
      var raw := fetch(after);
      WalkStep(fetch, after, maxPages - page, collected);
      collected := collected + raw.data;
      if !raw.hasNext || raw.data == [] {
        return;
      }
      after := Some(raw.data[|raw.data| - 1].sequence);
      page := page + 1;
    }
  }

  lemma WalkStops(fetch: Option<int> -> Page, after: Option<int>, left: nat, data: seq<Message>)
    requires fetch(after) == Page(data, false)
    ensures Walked(fetch, after, left) == if left == 0 then [] else data
  {
    assert data + [] == data;
  }

  lemma WalkGoesOn(fetch: Option<int> -> Page, after: Option<int>, left: nat, data: seq<Message>, last: Message)
    requires left > 0 && fetch(after) == Page(data + [last], true)
    ensures Walked(fetch, after, left) == (data + [last]) + Walked(fetch, Some(last.sequence), left - 1)
  {
    assert (data + [last])[|data|] == last;
  }

  /** The route as the client calls it. */
  function Route(s: State, conversation: nat): Option<int> -> Page {
    after => MessagesPage(s, conversation, None, after, None)
  }

  lemma NothingAfterTheNewest(s: State, k: nat)
    requires Inv(s) && k < |s.conversations| && All(s, k) != []
    ensures Route(s, s.conversations[k].id)(Some(All(s, k)[|All(s, k)| - 1].sequence)) == Page([], false)
  {
    SortIsIdentity(s, k);
    PageAfter(s, k, |All(s, k)|, None);
  }

  lemma SuffixIsWhole<T>(all: seq<T>, n: nat)
    ensures all[Max(0, |all| - n)..] == all <==> |all| <= n
  {
  }

  /** A walk whose first answer is the last page ends with it. */
  lemma WalkFromLastPage(fetch: Option<int> -> Page, all: seq<Message>, pages: nat)
    requires pages > 0 && fetch(None) == LastOf(all, DEFAULT_LIMIT)
    requires all != [] ==> fetch(Some(all[|all| - 1].sequence)) == Page([], false)
    ensures Walked(fetch, None, pages) == all[Max(0, |all| - DEFAULT_LIMIT)..]
  {
    var page := LastOf(all, DEFAULT_LIMIT);
    if page.hasNext {
      var last := all[|all| - 1];
      assert page.data == page.data[..DEFAULT_LIMIT - 1] + [last];
      WalkGoesOn(fetch, None, pages, page.data[..DEFAULT_LIMIT - 1], last);
      WalkStops(fetch, Some(last.sequence), pages - 1, []);
      assert page.data + [] == page.data;
    } else {
      WalkStops(fetch, None, pages, page.data);
    }
  }

  /**
   * The client starts its walk with no sequence, so it gets the last page and then asks for what
   * follows the newest message: against this route it collects the last fifty messages however many
   * pages it allows itself, which is the whole conversation if and only if there are no more.
   */
  lemma WalkCollectsTheLastPage(s: State, k: nat, pages: nat)
    requires Inv(s) && k < |s.conversations| && pages > 0
    ensures var all := All(s, k);
      var walked := Walked(Route(s, s.conversations[k].id), None, pages);
      && walked == all[Max(0, |all| - DEFAULT_LIMIT)..]
      && (walked == all <==> |all| <= DEFAULT_LIMIT)
  {
    PageFromZero(s, k, None, None);
    if All(s, k) != [] {
      NothingAfterTheNewest(s, k);
    }
    WalkFromLastPage(Route(s, s.conversations[k].id), All(s, k), pages);
    SuffixIsWhole(All(s, k), DEFAULT_LIMIT);
  }
}
