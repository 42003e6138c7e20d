/** The header's notification list: actions that write before and after their requests, in any overlap. */
module Notifications {
  import opened Common

  const PAGE_SIZE: nat := 10
  const MAX_TOTAL: nat := 20

  datatype Notification = Notification(id: string, read: bool, body: string)

  datatype Status = Idle | Loading | Ready | Failed

  /** A started action and what it captured; `Over` once its request has settled. */
  datatype Task =
    | Refreshing(hadItems: bool)
    | LoadingMore(seen: seq<Notification>, page: nat, limit: nat)
    | Marking(id: string, previous: seq<Notification>)
    | MarkingAll(previous: seq<Notification>)
    | Over

  datatype State = State(
    notifications: seq<Notification>, hasNextPage: bool, currentPage: nat, status: Status,
    isLoadingMore: bool, isMutating: bool, failed: bool, tasks: seq<Task>)

  const INITIAL := State([], false, 1, Idle, false, false, false, [])

  datatype Event =
    | Refresh
    | LoadMore
    | MarkAsRead(id: string)
    | MarkAllAsRead
    | Listed(k: nat, data: seq<Notification>, hasNext: bool)    // a list request of task k came back
    | Marked(k: nat, updated: Option<Notification>)
    | Rejected(k: nat)

  function Ids(list: seq<Notification>): set<string> {
    set i | 0 <= i < |list| :: list[i].id
  }

  function Unseen(data: seq<Notification>, seen: set<string>): seq<Notification> {
    if data == [] then []
    else (if data[0].id in seen then [] else [data[0]]) + Unseen(data[1..], seen)
  }

  function ReadOne(list: seq<Notification>, id: string): seq<Notification> {
    seq(|list|, i requires 0 <= i < |list| => if list[i].id == id then list[i].(read := true) else list[i])
  }

  function ReplaceOne(list: seq<Notification>, id: string, updated: Notification): seq<Notification> {
    seq(|list|, i requires 0 <= i < |list| => if list[i].id == id then updated.(read := true) else list[i])
  }

  function ReadAll(list: seq<Notification>): seq<Notification> {
    seq(|list|, i requires 0 <= i < |list| => list[i].(read := true))
  }

  predicate HasUnread(list: seq<Notification>) {
    exists i :: 0 <= i < |list| && !list[i].read
  }

  /** The first notification with the id, if any, is one still to be read. */
  predicate MarkApplies(list: seq<Notification>, id: string) {
    list != [] && if list[0].id == id then !list[0].read else MarkApplies(list[1..], id)
  }

  predicate LoadMoreApplies(s: State) {
    s.hasNextPage && !s.isLoadingMore && |s.notifications| < MAX_TOTAL
  }

  function Ended(s: State, k: nat): State
    requires k < |s.tasks|
  {
    s.(tasks := s.tasks[k := Over])
  }

  function Started(s: State, task: Task): State {
    s.(tasks := s.tasks + [task])
  }

  predicate Enabled(s: State, e: Event) {
    match e
    case Listed(k, _, _) =>
      k < |s.tasks| && (s.tasks[k].Refreshing? || s.tasks[k].LoadingMore? || s.tasks[k].MarkingAll?)
    case Marked(k, _) => k < |s.tasks| && s.tasks[k].Marking?
    case Rejected(k) => k < |s.tasks| && !s.tasks[k].Over?
    case _ => true
  }

  predicate Starts(e: Event) {
    e.Refresh? || e.LoadMore? || e.MarkAsRead? || e.MarkAllAsRead?
  }

  function Begin(s: State, e: Event): State
    requires Starts(e)
  {
    match e
    case Refresh =>
      var had := s.notifications != [];
      Started(s.(status := if had then s.status else Loading, failed := false), Refreshing(had))
    case LoadMore =>
      if !LoadMoreApplies(s) then s
      else Started(s.(isLoadingMore := true, failed := false),
                   LoadingMore(s.notifications, s.currentPage + 1, Min(PAGE_SIZE, MAX_TOTAL - |s.notifications|)))
    case MarkAsRead(id) =>
      if !MarkApplies(s.notifications, id) then s
      else Started(s.(notifications := ReadOne(s.notifications, id), isMutating := true), Marking(id, s.notifications))
    case MarkAllAsRead =>
      if !HasUnread(s.notifications) && !s.hasNextPage then s
      else Started(s.(notifications := ReadAll(s.notifications), isMutating := true, failed := false),
                   MarkingAll(s.notifications))
  }

  function AfterListed(s: State, k: nat, data: seq<Notification>, hasNext: bool): State
    requires Enabled(s, Listed(k, data, hasNext))
  {
    var t := Ended(s, k);
    match s.tasks[k]
    case Refreshing(_) =>
      t.(notifications := data, hasNextPage := hasNext, currentPage := 1, status := Ready, failed := false)
    case LoadingMore(seen, page, _) =>
      var appended := Unseen(data, Ids(seen));
      var merged := seen + appended;
      t.(notifications := merged, currentPage := page, isLoadingMore := false,
         hasNextPage := |merged| < MAX_TOTAL && |appended| > 0 && hasNext)
    case MarkingAll(_) => t.(notifications := data, hasNextPage := hasNext, currentPage := 1, isMutating := false)
  }

  function AfterRejected(s: State, k: nat): State
    requires Enabled(s, Rejected(k))
  {
    var t := Ended(s, k).(failed := true);
    match s.tasks[k]
    case Refreshing(had) => t.(status := if had then Ready else Failed)
    case LoadingMore(_, _, _) => t.(isLoadingMore := false)
    case Marking(_, previous) => t.(notifications := previous, isMutating := false)
    case MarkingAll(previous) => t.(notifications := previous, isMutating := false)
  }

  function Next(s: State, e: Event): State
    requires Enabled(s, e)
  {
    match e
    case Listed(k, data, hasNext) => AfterListed(s, k, data, hasNext)
    case Marked(k, updated) =>
      var t := Ended(s, k).(isMutating := false);
      if updated.None? then t
      else t.(notifications := ReplaceOne(s.notifications, s.tasks[k].id, updated.value))
    case Rejected(k) => AfterRejected(s, k)
    case _ => Begin(s, e)
  }

  // ---------- What the actions and replies do ----------

  /** The row that the id names, the first that has it, is there and still to be read. */
  ghost predicate IsUnread(list: seq<Notification>, id: string) {
    exists k :: IsUnreadAt(list, id, k)
  }

  ghost predicate IsUnreadAt(list: seq<Notification>, id: string, k: nat) {
    k < |list| && list[k].id == id && !list[k].read && forall j :: 0 <= j < k ==> list[j].id != id
  }

  lemma {:induction false} MarkAppliesIff(list: seq<Notification>, id: string)
    ensures MarkApplies(list, id) <==> IsUnread(list, id)
  {
    if list != [] {
      MarkAppliesIff(list[1..], id);
      if list[0].id != id && IsUnread(list[1..], id) {
        var k: nat :| IsUnreadAt(list[1..], id, k);
        assert IsUnreadAt(list, id, k + 1);
      }
      if IsUnread(list, id) {
        var k: nat :| IsUnreadAt(list, id, k);
        assert k > 0 ==> IsUnreadAt(list[1..], id, k - 1);
      }
      assert list[0].id == id && !list[0].read ==> IsUnreadAt(list, id, 0);
    }
  }

  /** `after` is `before` with the rows of the id, or with all rows, shown as read, and otherwise the same. */
  ghost predicate ReadNow(before: seq<Notification>, after: seq<Notification>, only: Option<string>) {
    && |after| == |before|
    && forall i :: 0 <= i < |before| ==>
         && after[i].id == before[i].id && after[i].body == before[i].body
         && after[i].read == (before[i].read || only == None || only == Some(before[i].id))
  }

  /** An action begins: what it waits for comes last among the tasks, and no other indicator moves. */
  ghost predicate Begins(s: State, t: State, e: Event)
    requires Starts(e)
  {
    var unread := exists i :: 0 <= i < |s.notifications| && !s.notifications[i].read;
    && t.hasNextPage == s.hasNextPage && t.currentPage == s.currentPage
    && match e
       case Refresh =>
         && t.notifications == s.notifications && t.isLoadingMore == s.isLoadingMore && t.isMutating == s.isMutating
         && !t.failed && t.status == (if |s.notifications| == 0 then Loading else s.status)
         && t.tasks == s.tasks + [Refreshing(|s.notifications| > 0)]
       case LoadMore =>
         if !s.hasNextPage || s.isLoadingMore || |s.notifications| >= 20 then t == s
         else
           && t.notifications == s.notifications && t.isMutating == s.isMutating && t.status == s.status
           && t.isLoadingMore && !t.failed
           && t.tasks == s.tasks + [LoadingMore(s.notifications, s.currentPage + 1,
                if |s.notifications| <= 10 then 10 else 20 - |s.notifications|)]
       case MarkAsRead(id) =>
         if !IsUnread(s.notifications, id) then t == s
         else
           && ReadNow(s.notifications, t.notifications, Some(id)) && t.isMutating
           && t.isLoadingMore == s.isLoadingMore && t.status == s.status && t.failed == s.failed
           && t.tasks == s.tasks + [Marking(id, s.notifications)]
       case MarkAllAsRead =>
         if !unread && !s.hasNextPage then t == s
         else
           && ReadNow(s.notifications, t.notifications, None) && t.isMutating && !t.failed
           && t.isLoadingMore == s.isLoadingMore && t.status == s.status
           && t.tasks == s.tasks + [MarkingAll(s.notifications)]
  }

  lemma BeginBegins(s: State, e: Event)
    requires Starts(e)
    ensures Begins(s, Next(s, e), e)
  {
    if e.MarkAsRead? {
      MarkAppliesIff(s.notifications, e.id);
    }
  }

  /** A list came back: it replaces what is shown, or comes after what was shown when it was asked for. */
  ghost predicate Lists(s: State, t: State, k: nat, data: seq<Notification>, hasNext: bool)
    requires Enabled(s, Listed(k, data, hasNext))
  {
    && t.tasks == s.tasks[k := Over]
    && match s.tasks[k]
       case Refreshing(_) =>
         && t.notifications == data && t.hasNextPage == hasNext && t.currentPage == 1 && t.status == Ready && !t.failed
         && t.isLoadingMore == s.isLoadingMore && t.isMutating == s.isMutating
       case LoadingMore(seen, page, _) =>
         && seen <= t.notifications && t.currentPage == page && !t.isLoadingMore
         && (forall row :: row in t.notifications[|seen|..] <==>
              row in data && forall i :: 0 <= i < |seen| ==> seen[i].id != row.id)
         && (t.hasNextPage <==> hasNext && |seen| < |t.notifications| < 20)
         && t.isMutating == s.isMutating && t.status == s.status && t.failed == s.failed
       case MarkingAll(_) =>
         && t.notifications == data && t.hasNextPage == hasNext && t.currentPage == 1 && !t.isMutating
         && t.isLoadingMore == s.isLoadingMore && t.status == s.status && t.failed == s.failed
  }

  lemma ListedLists(s: State, k: nat, data: seq<Notification>, hasNext: bool)
    requires Enabled(s, Listed(k, data, hasNext))
    ensures Lists(s, Next(s, Listed(k, data, hasNext)), k, data, hasNext)
  {
    if s.tasks[k].LoadingMore? {
      var seen := s.tasks[k].seen;
      UnseenSpec(data, Ids(seen));
      assert (seen + Unseen(data, Ids(seen)))[|seen|..] == Unseen(data, Ids(seen));
    }
  }

  /** A request failed, which is shown: a mark is taken back, and a first load leaves nothing to show. */
  ghost predicate Rejects(s: State, t: State, k: nat)
    requires Enabled(s, Rejected(k))
  {
    var task := s.tasks[k];
    && t.tasks == s.tasks[k := Over] && t.failed && t.hasNextPage == s.hasNextPage && t.currentPage == s.currentPage
    && t.notifications == (if task.Marking? || task.MarkingAll? then task.previous else s.notifications)
    && t.isMutating == (s.isMutating && !task.Marking? && !task.MarkingAll?)
    && t.isLoadingMore == (s.isLoadingMore && !task.LoadingMore?)
    && t.status == (if !task.Refreshing? then s.status else if task.hadItems then Ready else Failed)
  }

  /** A mark went through: the row takes what came back, read in any case, and the others stay. */
  ghost predicate Marks(s: State, t: State, k: nat, updated: Option<Notification>)
    requires Enabled(s, Marked(k, updated))
  {
    && t.tasks == s.tasks[k := Over] && !t.isMutating
    && t.hasNextPage == s.hasNextPage && t.currentPage == s.currentPage
    && t.isLoadingMore == s.isLoadingMore && t.status == s.status && t.failed == s.failed
    && |t.notifications| == |s.notifications|
    && forall i :: 0 <= i < |s.notifications| ==> var before, after := s.notifications[i], t.notifications[i];
         if updated.Some? && before.id == s.tasks[k].id
         then after.id == updated.value.id && after.body == updated.value.body && after.read
         else after == before
  }

  // ---------- The store ----------

  class Store {
    var notifications: seq<Notification>
    var hasNextPage: bool
    var currentPage: nat
    var status: Status
    var isLoadingMore: bool
    var isMutating: bool
    var failed: bool
    var tasks: seq<Task>

    constructor ()
      ensures Contents() == INITIAL
    {
      notifications, hasNextPage, currentPage, status := [], false, 1, Idle;
      isLoadingMore, isMutating, failed, tasks := false, false, false, [];
    }

    function Contents(): State
      reads this
    {
      State(notifications, hasNextPage, currentPage, status, isLoadingMore, isMutating, failed, tasks)
    }

    method Refresh()
      modifies this
      ensures Contents() == Next(old(Contents()), Event.Refresh)
      ensures Begins(old(Contents()), Contents(), Event.Refresh)
    {
      var hadItems := notifications != [];
      if !hadItems {
        status := Loading;
      }
      failed := false;
      tasks := tasks + [Refreshing(hadItems)];
    }

    method LoadMore()
      modifies this
      ensures Contents() == Next(old(Contents()), Event.LoadMore)
      ensures Begins(old(Contents()), Contents(), Event.LoadMore)
    {
      if !hasNextPage || isLoadingMore || |notifications| >= MAX_TOTAL {
        return;
      }
      isLoadingMore, failed := true, false;
      var remaining := MAX_TOTAL - |notifications|;
      tasks := tasks + [LoadingMore(notifications, currentPage + 1, Min(PAGE_SIZE, remaining))];
    }

    method MarkAsRead(id: string)
      modifies this
      ensures Contents() == Next(old(Contents()), Event.MarkAsRead(id))
      ensures Begins(old(Contents()), Contents(), Event.MarkAsRead(id))
    {
      BeginBegins(Contents(), Event.MarkAsRead(id));
      var previous := notifications;
      if !MarkApplies(previous, id) {
        return;
      }
      notifications, isMutating := ReadOne(previous, id), true;
      tasks := tasks + [Marking(id, previous)];
    }

    method MarkAllAsRead()
      modifies this
      ensures Contents() == Next(old(Contents()), Event.MarkAllAsRead)
      ensures Begins(old(Contents()), Contents(), Event.MarkAllAsRead)
    {
      var previous := notifications;
      if !HasUnread(previous) && !hasNextPage {
        return;
      }
      notifications, isMutating, failed := ReadAll(previous), true, false;
      tasks := tasks + [MarkingAll(previous)];
    }

    method OnListed(k: nat, data: seq<Notification>, hasNext: bool)
      requires Enabled(Contents(), Listed(k, data, hasNext))
      modifies this
      ensures Contents() == Next(old(Contents()), Listed(k, data, hasNext))
    {
      var task := tasks[k];
      tasks := tasks[k := Over];
      if task.LoadingMore? {
        var appended := Unseen(data, Ids(task.seen));
        notifications := task.seen + appended;
        hasNextPage := if |notifications| < MAX_TOTAL && |appended| > 0 then hasNext else false;
        currentPage, isLoadingMore := task.page, false;
      } else {
        notifications, hasNextPage, currentPage := data, hasNext, 1;
        if task.Refreshing? {
          status, failed := Ready, false;
        } else {
          isMutating := false;
        }
      }
    }

    method OnMarked(k: nat, updated: Option<Notification>)
      requires Enabled(Contents(), Marked(k, updated))
      modifies this
      ensures Contents() == Next(old(Contents()), Marked(k, updated))
      ensures Marks(old(Contents()), Contents(), k, updated)
    {
      if updated.Some? {
        notifications := ReplaceOne(notifications, tasks[k].id, updated.value);
      }
      isMutating := false;
      tasks := tasks[k := Over];
    }

    method OnRejected(k: nat)
      requires Enabled(Contents(), Rejected(k))
      modifies this
      ensures Contents() == Next(old(Contents()), Rejected(k))
      ensures Rejects(old(Contents()), Contents(), k)
    {
      var task := tasks[k];
      tasks := tasks[k := Over];
      failed := true;
      match task
      case Refreshing(hadItems) => status := if hadItems then Ready else Failed;
      case LoadingMore(_, _, _) => isLoadingMore := false;
      case Marking(_, previous) => notifications, isMutating := previous, false;
      case MarkingAll(previous) => notifications, isMutating := previous, false;
    }
  }

  // ---------- What every overlap keeps ----------

  ghost predicate DistinctIds(list: seq<Notification>) {
    forall i, j :: 0 <= i < j < |list| ==> list[i].id != list[j].id
  }

  ghost predicate Fits(list: seq<Notification>) {
    DistinctIds(list) && |list| <= MAX_TOTAL
  }

  /** The API respects the limit it was given and repeats no id; a marked row comes back with its id. */
  ghost predicate Fair(s: State, e: Event) {
    match e
    case Listed(k, data, _) =>
      DistinctIds(data) &&
      (k < |s.tasks| ==> |data| <= if s.tasks[k].LoadingMore? then s.tasks[k].limit else PAGE_SIZE)
    case Marked(k, updated) =>
      k < |s.tasks| && s.tasks[k].Marking? && updated.Some? ==> updated.value.id == s.tasks[k].id
    case _ => true
  }

  ghost predicate TaskFits(t: Task) {
    match t
    case LoadingMore(seen, _, limit) => Fits(seen) && |seen| + limit <= MAX_TOTAL
    case Marking(_, previous) => Fits(previous)
    case MarkingAll(previous) => Fits(previous)
    case _ => true
  }

  ghost predicate Inv(s: State) {
    Fits(s.notifications) && forall k :: 0 <= k < |s.tasks| ==> TaskFits(s.tasks[k])
  }

  lemma {:induction false} UnseenSpec(data: seq<Notification>, seen: set<string>)
    ensures |Unseen(data, seen)| <= |data|
    ensures forall n :: n in Unseen(data, seen) <==> n in data && n.id !in seen
    ensures DistinctIds(data) ==> DistinctIds(Unseen(data, seen))
  {
    if data != [] {
      UnseenSpec(data[1..], seen);
      if DistinctIds(data) {
        var rest := Unseen(data[1..], seen);
        forall j | 0 <= j < |rest| ensures rest[j].id != data[0].id {
          assert rest[j] in rest;
          var i :| 0 <= i < |data[1..]| && data[1..][i] == rest[j];
          assert data[i + 1] == rest[j];
        }
      }
    }
  }

  lemma MergedFits(seen: seq<Notification>, data: seq<Notification>, limit: nat)
    requires Fits(seen) && DistinctIds(data) && |data| <= limit && |seen| + limit <= MAX_TOTAL
    ensures Fits(seen + Unseen(data, Ids(seen)))
  {
    UnseenSpec(data, Ids(seen));
    var appended := Unseen(data, Ids(seen));
    forall j | 0 <= j < |appended| ensures appended[j].id !in Ids(seen) {
      assert appended[j] in appended;
    }
  }

  lemma ListedKeepsInv(s: State, k: nat, data: seq<Notification>, hasNext: bool)
    requires Inv(s) && Enabled(s, Listed(k, data, hasNext)) && Fair(s, Listed(k, data, hasNext))
    ensures Inv(AfterListed(s, k, data, hasNext))
  {
    assert TaskFits(s.tasks[k]);
    if s.tasks[k].LoadingMore? {
      MergedFits(s.tasks[k].seen, data, s.tasks[k].limit);
    }
  }

  lemma BeginKeepsInv(s: State, e: Event)
    requires Inv(s) && Starts(e)
    ensures Inv(Begin(s, e))
  {
  }

  lemma MarkedKeepsInv(s: State, k: nat, updated: Option<Notification>)
    requires Inv(s) && Enabled(s, Marked(k, updated)) && Fair(s, Marked(k, updated))
    ensures Inv(Next(s, Marked(k, updated)))
  {
  }

  lemma RejectedKeepsInv(s: State, k: nat)
    requires Inv(s) && Enabled(s, Rejected(k))
    ensures Inv(AfterRejected(s, k))
  {
    assert TaskFits(s.tasks[k]);
  }

  lemma StepKeepsInv(s: State, e: Event)
    requires Inv(s) && Enabled(s, e) && Fair(s, e)
    ensures Inv(Next(s, e))
  {
    match e
    case Listed(k, data, hasNext) => ListedKeepsInv(s, k, data, hasNext);
    case Rejected(k) => RejectedKeepsInv(s, k);
    case Marked(k, updated) => MarkedKeepsInv(s, k, updated);
    case _ => BeginKeepsInv(s, e);
  }

  predicate AllEnabled(es: seq<Event>)
    decreases |es|, 0
  {
    es == [] || (AllEnabled(es[..|es| - 1]) && Enabled(Run(es[..|es| - 1]), es[|es| - 1]))
  }

  function Run(es: seq<Event>): State
    requires AllEnabled(es)
    decreases |es|, 1
  {
    if es == [] then INITIAL else Next(Run(es[..|es| - 1]), es[|es| - 1])
  }

  ghost predicate AllFair(es: seq<Event>)
    requires AllEnabled(es)
  {
    es == [] || (AllFair(es[..|es| - 1]) && Fair(Run(es[..|es| - 1]), es[|es| - 1]))
  }

  /** Under every overlap of actions, replies and rollbacks the ids stay distinct and within the maximum. */
  lemma {:induction false} RunFits(es: seq<Event>)
    requires AllEnabled(es) && AllFair(es)
    ensures Inv(Run(es))
  {
    if es != [] {
      RunFits(es[..|es| - 1]);
      StepKeepsInv(Run(es[..|es| - 1]), es[|es| - 1]);
    }
  }

  // ---------- The indicators ----------

  predicate IsLoad(t: Task) { t.LoadingMore? }

  predicate IsMutation(t: Task) { t.Marking? || t.MarkingAll? }

  predicate IsFirstLoad(t: Task) { t.Refreshing? && !t.hadItems }

  ghost predicate Indicated(s: State) {
    && (s.isLoadingMore <==> exists k :: 0 <= k < |s.tasks| && IsLoad(s.tasks[k]))
    && (forall j, k :: 0 <= j < k < |s.tasks| ==> !(IsLoad(s.tasks[j]) && IsLoad(s.tasks[k])))
    && (s.isMutating ==> exists k :: 0 <= k < |s.tasks| && IsMutation(s.tasks[k]))
    && (s.status.Loading? ==> exists k :: 0 <= k < |s.tasks| && IsFirstLoad(s.tasks[k]))
  }

  lemma BeginKeepsIndicated(s: State, e: Event)
    requires Indicated(s) && Starts(e)
    ensures Indicated(Begin(s, e))
  {
    var t := Begin(s, e);
    assert forall k :: 0 <= k < |s.tasks| ==> t.tasks[k] == s.tasks[k];
    if |t.tasks| > |s.tasks| {
      assert IsLoad(t.tasks[|s.tasks|]) <==> e.LoadMore?;
      assert IsMutation(t.tasks[|s.tasks|]) <==> e.MarkAsRead? || e.MarkAllAsRead?;
      assert IsFirstLoad(t.tasks[|s.tasks|]) <==> e.Refresh? && s.notifications == [];
    }
  }

  lemma EndKeepsIndicated(s: State, t: State, k: nat)
    requires Indicated(s) && k < |s.tasks| && t.tasks == s.tasks[k := Over] && !s.tasks[k].Over?
    requires t.isLoadingMore == (s.isLoadingMore && !IsLoad(s.tasks[k]))
    requires t.isMutating == (s.isMutating && !IsMutation(s.tasks[k]))
    requires t.status.Loading? ==> s.status.Loading? && !IsFirstLoad(s.tasks[k])
    ensures Indicated(t)
  {
    assert forall j :: 0 <= j < |s.tasks| && j != k ==> t.tasks[j] == s.tasks[j];
  }

  lemma EndedKeepsIndicated(s: State, e: Event)
    requires Indicated(s) && Enabled(s, e) && !Starts(e)
    ensures Indicated(Next(s, e))
  {
    match e
    case Listed(k, _, _) => EndKeepsIndicated(s, Next(s, e), k);
    case Marked(k, _) => EndKeepsIndicated(s, Next(s, e), k);
    case Rejected(k) => EndKeepsIndicated(s, Next(s, e), k);
  }

  lemma StepKeepsIndicated(s: State, e: Event)
    requires Indicated(s) && Enabled(s, e)
    ensures Indicated(Next(s, e))
  {
    if Starts(e) {
      BeginKeepsIndicated(s, e);
    } else {
      EndedKeepsIndicated(s, e);
    }
  }

  lemma {:induction false} RunIsIndicated(es: seq<Event>)
    requires AllEnabled(es)
    ensures Indicated(Run(es))
  {
    if es != [] {
      RunIsIndicated(es[..|es| - 1]);
      StepKeepsIndicated(Run(es[..|es| - 1]), es[|es| - 1]);
    }
  }

  /** At most one page is being loaded, and once every request has settled nothing shows as busy. */
  lemma QuietShowsNothing(es: seq<Event>)
    requires AllEnabled(es) && forall k :: 0 <= k < |Run(es).tasks| ==> Run(es).tasks[k].Over?
    ensures !Run(es).isLoadingMore && !Run(es).isMutating && !Run(es).status.Loading?
  {
    RunIsIndicated(es);
  }

  // ---------- What a rollback undoes ----------

  /** Going from `before` to `after` loses the read mark of `id` and nothing else on screen. */
  ghost predicate OnlyMarkUndone(before: seq<Notification>, after: seq<Notification>, id: string) {
    && |before| == |after|
    && forall i :: 0 <= i < |before| ==> before[i] == if after[i].id == id then after[i].(read := true) else after[i]
  }

  /** Going from `before` to `after` loses read marks and nothing else on screen. */
  ghost predicate OnlyMarksUndone(before: seq<Notification>, after: seq<Notification>) {
    |before| == |after| && forall i :: 0 <= i < |before| ==> before[i] == after[i].(read := true)
  }

  lemma UndoneFromMarked(before: seq<Notification>, after: seq<Notification>, id: string)
    ensures OnlyMarkUndone(before, after, id) <==> before == ReadOne(after, id)
  {
  }

  lemma UndoneFromAllMarked(before: seq<Notification>, after: seq<Notification>)
    ensures OnlyMarksUndone(before, after) <==> before == ReadAll(after)
  {
  }

  predicate EnabledFrom(s: State, es: seq<Event>)
    decreases |es|
  {
    es == [] || (Enabled(s, es[0]) && EnabledFrom(Next(s, es[0]), es[1..]))
  }

  function After(s: State, es: seq<Event>): State
    requires EnabledFrom(s, es)
    decreases |es|
  {
    if es == [] then s else After(Next(s, es[0]), es[1..])
  }

  lemma BeginKeepsTasks(s: State, e: Event)
    requires Starts(e)
    ensures s.tasks <= Begin(s, e).tasks
  {
  }

  lemma EndEndsOne(s: State, e: Event)
    requires Enabled(s, e) && !Starts(e)
    ensures Next(s, e).tasks == s.tasks[e.k := Over]
  {
  }

  lemma StepKeepsCapture(s: State, e: Event, k: nat)
    requires Enabled(s, e) && k < |s.tasks|
    ensures k < |Next(s, e).tasks| && Next(s, e).tasks[k] in {s.tasks[k], Over}
  {
    if Starts(e) {
      BeginKeepsTasks(s, e);
    } else {
      EndEndsOne(s, e);
    }
  }

  /** A task settles or stays as it is: what it captured never changes. */
  lemma {:induction false} TaskKeepsItsCapture(s: State, es: seq<Event>, k: nat)
    requires EnabledFrom(s, es) && k < |s.tasks|
    ensures k < |After(s, es).tasks| && After(s, es).tasks[k] in {s.tasks[k], Over}
    decreases |es|
  {
    if es != [] {
      StepKeepsCapture(s, es[0], k);
      TaskKeepsItsCapture(Next(s, es[0]), es[1..], k);
    }
  }

  /** The event puts no list on screen: no reply of rows, no further mark, no other mark's rollback. */
  predicate LeavesList(s: State, e: Event)
    requires Enabled(s, e)
  {
    match e
    case Refresh => true
    case LoadMore => true
    case MarkAsRead(id) => !MarkApplies(s.notifications, id)
    case MarkAllAsRead => !HasUnread(s.notifications) && !s.hasNextPage
    case Listed(_, _, _) => false
    case Marked(_, updated) => updated.None?
    case Rejected(k) => !IsMutation(s.tasks[k])
  }

  /** A list is put on screen by a reply of rows, a mark that applies, a marked row that came back, or a failed mark. */
  lemma PutsListWhen(s: State, e: Event)
    requires Enabled(s, e)
    ensures !LeavesList(s, e) <==>
      match e
      case Listed(_, _, _) => true
      case MarkAsRead(id) => IsUnread(s.notifications, id)
      case MarkAllAsRead => s.hasNextPage || exists i :: 0 <= i < |s.notifications| && !s.notifications[i].read
      case Marked(_, updated) => updated != None
      case Rejected(k) => s.tasks[k].Marking? || s.tasks[k].MarkingAll?
      case _ => false
  {
    if e.MarkAsRead? {
      MarkAppliesIff(s.notifications, e.id);
    }
  }

  predicate AllLeaveList(s: State, es: seq<Event>)
    requires EnabledFrom(s, es)
    decreases |es|
  {
    es == [] || (LeavesList(s, es[0]) && AllLeaveList(Next(s, es[0]), es[1..]))
  }

  lemma {:induction false} ListIsLeft(s: State, es: seq<Event>)
    requires EnabledFrom(s, es) && AllLeaveList(s, es)
    ensures After(s, es).notifications == s.notifications
    decreases |es|
  {
    if es != [] {
      ListIsLeft(Next(s, es[0]), es[1..]);
    }
  }

  /**
   * Whatever happens between a mark and its failure, the rollback puts back the list from
   * before the mark; it undoes that mark alone exactly when the list on screen is still the
   * marked one, which it is if no event in between puts a list on screen.
   */
  lemma FailedMarkRollsBack(s: State, id: string, es: seq<Event>)
    requires MarkApplies(s.notifications, id) && EnabledFrom(Next(s, MarkAsRead(id)), es)
    requires Enabled(After(Next(s, MarkAsRead(id)), es), Rejected(|s.tasks|))
    ensures var marked := Next(s, MarkAsRead(id));
      var b := After(marked, es);
      && Next(b, Rejected(|s.tasks|)).notifications == s.notifications
      && (OnlyMarkUndone(b.notifications, s.notifications, id) <==> b.notifications == marked.notifications)
      && (AllLeaveList(marked, es) ==> OnlyMarkUndone(b.notifications, s.notifications, id))
  {
    var marked := Next(s, MarkAsRead(id));
    TaskKeepsItsCapture(marked, es, |s.tasks|);
    UndoneFromMarked(After(marked, es).notifications, s.notifications, id);
    if AllLeaveList(marked, es) {
      ListIsLeft(marked, es);
    }
  }

  lemma FailedMarkAllRollsBack(s: State, es: seq<Event>)
    requires HasUnread(s.notifications) || s.hasNextPage
    requires EnabledFrom(Next(s, MarkAllAsRead), es)
    requires Enabled(After(Next(s, MarkAllAsRead), es), Rejected(|s.tasks|))
    ensures var marked := Next(s, MarkAllAsRead);
      var b := After(marked, es);
      && Next(b, Rejected(|s.tasks|)).notifications == s.notifications
      && (OnlyMarksUndone(b.notifications, s.notifications) <==> b.notifications == marked.notifications)
      && (AllLeaveList(marked, es) ==> OnlyMarksUndone(b.notifications, s.notifications))
  {
    var marked := Next(s, MarkAllAsRead);
    TaskKeepsItsCapture(marked, es, |s.tasks|);
    UndoneFromAllMarked(After(marked, es).notifications, s.notifications);
    if AllLeaveList(marked, es) {
      ListIsLeft(marked, es);
    }
  }

  // ---------- What an overlap can lose ----------

  /** A mark that fails after a refresh came back puts the list from before the refresh on screen again. */
  lemma LateRollbackDropsRefresh(s: State, id: string, newer: seq<Notification>, hasNext: bool)
    requires MarkApplies(s.notifications, id)
    ensures var a := Next(Next(s, MarkAsRead(id)), Refresh);
      && Enabled(a, Listed(|s.tasks| + 1, newer, hasNext))
      && Enabled(Next(a, Listed(|s.tasks| + 1, newer, hasNext)), Rejected(|s.tasks|))
      && Next(a, Listed(|s.tasks| + 1, newer, hasNext)).notifications == newer
      && Next(Next(a, Listed(|s.tasks| + 1, newer, hasNext)), Rejected(|s.tasks|)).notifications == s.notifications
  {
  }

  /** Some row with the id shows as read. */
  ghost predicate ShownRead(list: seq<Notification>, id: string) {
    exists n :: n in list && n.id == id && n.read
  }

  /** After a further page arrives a row is read exactly as it was when the page was asked for, or as it arrived. */
  lemma ReadAfterLoadMoreIff(s: State, k: nat, data: seq<Notification>, hasNext: bool, id: string)
    requires Enabled(s, Listed(k, data, hasNext)) && s.tasks[k].LoadingMore?
    ensures var seen := s.tasks[k].seen;
      var shown := Next(s, Listed(k, data, hasNext)).notifications;
      ShownRead(shown, id) <==> ShownRead(seen, id) || (id !in Ids(seen) && ShownRead(data, id))
  {
    var seen := s.tasks[k].seen;
    var appended := Unseen(data, Ids(seen));
    UnseenSpec(data, Ids(seen));
    if ShownRead(seen + appended, id) {
      var n: Notification :| n in seen + appended && n.id == id && n.read;
      assert n in seen || n in appended;
    }
    if ShownRead(seen, id) {
      var n :| n in seen && n.id == id && n.read;
      assert n in seen + appended;
    }
    if id !in Ids(seen) && ShownRead(data, id) {
      var n :| n in data && n.id == id && n.read;
      assert n in seen + appended;
    }
  }

  /** So no mark made while a page loads survives its arrival, whether the mark succeeded or not. */
  lemma LoadMoreForgetsMarks(s: State, es: seq<Event>, data: seq<Notification>, hasNext: bool, id: string)
    requires LoadMoreApplies(s) && id in Ids(s.notifications) && !ShownRead(s.notifications, id)
    requires EnabledFrom(Next(s, LoadMore), es)
    requires Enabled(After(Next(s, LoadMore), es), Listed(|s.tasks|, data, hasNext))
    ensures !ShownRead(Next(After(Next(s, LoadMore), es), Listed(|s.tasks|, data, hasNext)).notifications, id)
  {
    TaskKeepsItsCapture(Next(s, LoadMore), es, |s.tasks|);
    ReadAfterLoadMoreIff(After(Next(s, LoadMore), es), |s.tasks|, data, hasNext, id);
  }
}
