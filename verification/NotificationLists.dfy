/**
 * Which of the lists ever put on screen is there: what a rollback or a late page brings back, and
 * exactly when a failed mark undoes nothing but itself.
 */
module NotificationLists {
  import opened Common
  import opened Notifications

  /** `lists` are all the lists put on screen so far, `on` the one there now, `held[k]` the one task `k` began with. */
  datatype Screen = Screen(state: State, lists: seq<seq<Notification>>, on: nat, held: seq<nat>)

  ghost predicate Holds(c: Screen, k: nat)
    requires k < |c.state.tasks| == |c.held|
  {
    && c.held[k] < |c.lists|
    && match c.state.tasks[k]
       case LoadingMore(seen, _, _) => seen == c.lists[c.held[k]]
       case Marking(_, previous) => previous == c.lists[c.held[k]]
       case MarkingAll(previous) => previous == c.lists[c.held[k]]
       case _ => true
  }

  ghost predicate Valid(c: Screen) {
    && |c.held| == |c.state.tasks| && c.on < |c.lists| && c.lists[c.on] == c.state.notifications
    && forall k :: 0 <= k < |c.held| ==> Holds(c, k)
  }

  /** A rollback puts back the list its task began with; every other event that does not leave the list makes one. */
  function Shown(c: Screen, e: Event): Screen
    requires Enabled(c.state, e) && |c.held| == |c.state.tasks|
  {
    var s := Next(c.state, e);
    var held := if |s.tasks| > |c.state.tasks| then c.held + [c.on] else c.held;
    if LeavesList(c.state, e) then Screen(s, c.lists, c.on, held)
    else if e.Rejected? then Screen(s, c.lists, c.held[e.k], held)
    else Screen(s, c.lists + [s.notifications], |c.lists|, held)
  }

  lemma BeginKeepsHeld(c: Screen, e: Event)
    requires Valid(c) && Starts(e)
    ensures var d := Shown(c, e);
      && |d.held| == |d.state.tasks| && c.lists <= d.lists
      && forall k :: 0 <= k < |d.held| ==> Holds(d, k)
  {
    var d := Shown(c, e);
    BeginKeepsTasks(c.state, e);
    forall k | 0 <= k < |d.held| ensures Holds(d, k) {
      if k < |c.held| {
        assert Holds(c, k);
      }
    }
  }

  lemma EndKeepsHeld(c: Screen, e: Event)
    requires Valid(c) && !Starts(e) && Enabled(c.state, e)
    ensures var d := Shown(c, e);
      && d.held == c.held && |d.held| == |d.state.tasks| && c.lists <= d.lists
      && forall k :: 0 <= k < |d.held| ==> Holds(d, k)
  {
    var d := Shown(c, e);
    EndEndsOne(c.state, e);
    forall k | 0 <= k < |d.held| ensures Holds(d, k) {
      assert Holds(c, k);
    }
  }

  lemma ShownIsThere(c: Screen, e: Event)
    requires Valid(c) && Enabled(c.state, e)
    ensures var d := Shown(c, e); d.on < |d.lists| && d.lists[d.on] == d.state.notifications
  {
    if e.Rejected? && !LeavesList(c.state, e) {
      assert Holds(c, e.k);
    }
  }

  lemma ShownIsValid(c: Screen, e: Event)
    requires Valid(c) && Enabled(c.state, e)
    ensures Valid(Shown(c, e)) && c.lists <= Shown(c, e).lists
  {
    ShownIsThere(c, e);
    if Starts(e) {
      BeginKeepsHeld(c, e);
    } else {
      EndKeepsHeld(c, e);
    }
  }

  /** At the start the empty list is on screen and nothing has begun. */
  lemma StartIsValid()
    ensures Valid(Screen(INITIAL, [[]], 0, []))
  {
  }

  // ---------- Runs ----------

  /** The events happen in turn from `c` and lead through these screens. */
  ghost predicate Leads(c: Screen, es: seq<Event>, screens: seq<Screen>) {
    && |screens| == |es| + 1 && screens[0] == c
    && forall i :: 0 <= i < |es| ==> Step(es, screens, i)
  }

  ghost predicate Step(es: seq<Event>, screens: seq<Screen>, i: nat)
    requires i < |es| && |screens| == |es| + 1
  {
    && Enabled(screens[i].state, es[i]) && |screens[i].held| == |screens[i].state.tasks|
    && screens[i + 1] == Shown(screens[i], es[i])
  }

  lemma {:induction false} RunIsValid(c: Screen, es: seq<Event>, screens: seq<Screen>, n: nat)
    requires Valid(c) && Leads(c, es, screens) && n <= |es|
    ensures Valid(screens[n]) && c.lists <= screens[n].lists
  {
    if n > 0 {
      RunIsValid(c, es, screens, n - 1);
      assert Step(es, screens, n - 1);
      ShownIsValid(screens[n - 1], es[n - 1]);
    }
  }

  /** What task `k` began with, and with which list, never changes while it runs. */
  lemma {:induction false} HeldStays(c: Screen, es: seq<Event>, screens: seq<Screen>, k: nat, n: nat)
    requires Valid(c) && Leads(c, es, screens) && n <= |es| && k < |c.held|
    ensures k < |screens[n].held| && screens[n].held[k] == c.held[k]
    ensures k < |screens[n].state.tasks| && screens[n].state.tasks[k] in {c.state.tasks[k], Over}
  {
    if n > 0 {
      HeldStays(c, es, screens, k, n - 1);
      assert Step(es, screens, n - 1);
      StepKeepsCapture(screens[n - 1].state, es[n - 1], k);
    }
  }

  /**
   * Up to step `n` nothing was put on screen, or the last thing put there is the rollback of a
   * mark that began while list `x` was there.
   */
  ghost predicate StillOn(es: seq<Event>, screens: seq<Screen>, n: nat, x: nat)
    requires n <= |es| && |screens| == |es| + 1
    requires forall i :: 0 <= i < n ==> Step(es, screens, i)
    decreases n
  {
    if n == 0 then screens[0].on == x
    else
      assert Step(es, screens, n - 1);
      var before, e := screens[n - 1], es[n - 1];
      if LeavesList(before.state, e) then StillOn(es, screens, n - 1, x)
      else e.Rejected? && before.held[e.k] == x
  }

  /** One of the lists there were at the start is on screen after the events exactly when these are such. */
  lemma {:induction false} OnScreenIff(c: Screen, es: seq<Event>, screens: seq<Screen>, n: nat, x: nat)
    requires Valid(c) && Leads(c, es, screens) && n <= |es| && x < |c.lists|
    ensures screens[n].on == x <==> StillOn(es, screens, n, x)
    decreases n
  {
    if n > 0 {
      OnScreenIff(c, es, screens, n - 1, x);
      RunIsValid(c, es, screens, n - 1);
      assert Step(es, screens, n - 1);
    }
  }

  /**
   * A mark fails after any events `es`. The list from before it comes back. The marked list is on
   * screen until then exactly when the events are such as to leave it there; then the mark is all
   * that is undone, and otherwise only if an equal list happens to stand there.
   */
  lemma FailedMarkUndoesItself(c: Screen, id: string, es: seq<Event>, screens: seq<Screen>)
    requires Valid(c) && MarkApplies(c.state.notifications, id)
    requires Leads(Shown(c, MarkAsRead(id)), es, screens)
    requires Enabled(screens[|es|].state, Rejected(|c.held|))
    ensures var marked, b := Shown(c, MarkAsRead(id)), screens[|es|];
      && Next(b.state, Rejected(|c.held|)).notifications == c.state.notifications
      && (b.on == marked.on <==> StillOn(es, screens, |es|, marked.on))
      && (b.on == marked.on ==> OnlyMarkUndone(b.state.notifications, c.state.notifications, id))
      && (OnlyMarkUndone(b.state.notifications, c.state.notifications, id) ==>
            b.state.notifications == marked.state.notifications)
  {
    var marked, b := Shown(c, MarkAsRead(id)), screens[|es|];
    ShownIsValid(c, MarkAsRead(id));
    HeldStays(marked, es, screens, |c.held|, |es|);
    RunIsValid(marked, es, screens, |es|);
    OnScreenIff(marked, es, screens, |es|, marked.on);
    UndoneFromMarked(b.state.notifications, c.state.notifications, id);
  }

  /** The same for a failed mark of all. */
  lemma FailedMarkAllUndoesItself(c: Screen, es: seq<Event>, screens: seq<Screen>)
    requires Valid(c) && (HasUnread(c.state.notifications) || c.state.hasNextPage)
    requires Leads(Shown(c, MarkAllAsRead), es, screens)
    requires Enabled(screens[|es|].state, Rejected(|c.held|))
    ensures var marked, b := Shown(c, MarkAllAsRead), screens[|es|];
      && Next(b.state, Rejected(|c.held|)).notifications == c.state.notifications
      && (b.on == marked.on <==> StillOn(es, screens, |es|, marked.on))
      && (b.on == marked.on ==> OnlyMarksUndone(b.state.notifications, c.state.notifications))
      && (OnlyMarksUndone(b.state.notifications, c.state.notifications) ==>
            b.state.notifications == marked.state.notifications)
  {
    var marked, b := Shown(c, MarkAllAsRead), screens[|es|];
    ShownIsValid(c, MarkAllAsRead);
    HeldStays(marked, es, screens, |c.held|, |es|);
    RunIsValid(marked, es, screens, |es|);
    OnScreenIff(marked, es, screens, |es|, marked.on);
    UndoneFromAllMarked(b.state.notifications, c.state.notifications);
  }

  // ---------- A page that comes late ----------

  /** Nothing that was on screen is gone from it. */
  ghost predicate KeepsAll(before: seq<Notification>, after: seq<Notification>) {
    forall row :: row in before ==> row in after
  }

  /**
   * A further page arrives after any events `es`. What is on screen then is the list the page was
   * asked for with and the new rows of the page: a row that was there until then stays exactly when
   * it was in that list, or comes with the page and is new to that list. Nothing is lost if the
   * events were such as to leave that list on screen.
   */
  lemma LatePageBringsItsListBack(c: Screen, es: seq<Event>, screens: seq<Screen>,
                                  data: seq<Notification>, hasNext: bool, row: Notification)
    requires Valid(c) && LoadMoreApplies(c.state) && Leads(Shown(c, LoadMore), es, screens)
    requires Enabled(screens[|es|].state, Listed(|c.held|, data, hasNext))
    ensures var seen, b := c.state.notifications, screens[|es|];
      var after := Next(b.state, Listed(|c.held|, data, hasNext)).notifications;
      && after == seen + Unseen(data, Ids(seen))
      && (row in after <==> row in seen || (row in data && row.id !in Ids(seen)))
      && (b.on == c.on <==> StillOn(es, screens, |es|, c.on))
      && (b.on == c.on ==> KeepsAll(b.state.notifications, after))
  {
    var asked, b, seen := Shown(c, LoadMore), screens[|es|], c.state.notifications;
    ShownIsValid(c, LoadMore);
    HeldStays(asked, es, screens, |c.held|, |es|);
    RunIsValid(asked, es, screens, |es|);
    OnScreenIff(asked, es, screens, |es|, c.on);
    UnseenSpec(data, Ids(seen));
    InEither(seen, Unseen(data, Ids(seen)), row);
  }

  lemma InEither(a: seq<Notification>, b: seq<Notification>, row: Notification)
    ensures row in a + b <==> row in a || row in b
  {
  }

  /** So the rows of a refresh that came in between are gone unless the old list or the page has them. */
  lemma LatePageDropsRefresh(c: Screen, newer: seq<Notification>, more: bool,
                             data: seq<Notification>, hasNext: bool, row: Notification)
    requires Valid(c) && LoadMoreApplies(c.state)
    requires row in newer && row !in c.state.notifications && (row !in data || row.id in Ids(c.state.notifications))
    ensures var k := |c.held|;
      var a := Next(Next(c.state, LoadMore), Refresh);
      && Enabled(a, Listed(k + 1, newer, more))
      && (var b := Next(a, Listed(k + 1, newer, more));
          && b.notifications == newer && Enabled(b, Listed(k, data, hasNext))
          && row !in Next(b, Listed(k, data, hasNext)).notifications)
  {
    var seen := c.state.notifications;
    UnseenSpec(data, Ids(seen));
    InEither(seen, Unseen(data, Ids(seen)), row);
  }
}
