/** The boot flag of the session and the one restore that may set it. */
module SessionBoot {
  import opened Common

  datatype Boot = Authenticated | Unauthenticated | Error

  /** `Waiting`: the restore call has not settled; otherwise what its promise gave. */
  datatype Promise = Waiting | Resolved(boot: Boot) | Rejected

  /** `started` lists the promises of every restore called; `current` is the module's promise variable. */
  datatype State = State(flag: Option<Boot>, started: seq<Promise>, current: Option<nat>)

  const INITIAL := State(None, [], None)

  datatype Event =
    | Ensure
    | SetBoot(boot: Boot)
    | RestoreResolves(k: nat, boot: Boot)
    | RestoreRejects(k: nat)
    | Reset

  predicate Enabled(s: State, e: Event) {
    match e
    case RestoreResolves(k, _) => k < |s.started| && s.started[k].Waiting?
    case RestoreRejects(k) => k < |s.started| && s.started[k].Waiting?
    case _ => true
  }

  /** What `ensureAuthRestore` hands back: the flag at once, or the promise to wait for. */
  datatype Answer = Now(boot: Boot) | Later(promise: nat)

  function AnswerTo(s: State): Answer {
    if s.flag.Some? then Now(s.flag.value)
    else if s.current.Some? then Later(s.current.value)
    else Later(|s.started|)
  }

  function Next(s: State, e: Event): State
    requires Enabled(s, e)
  {
    match e
    case Ensure =>
      if s.flag.Some? || s.current.Some? then s
      else s.(started := s.started + [Waiting], current := Some(|s.started|))
    case SetBoot(boot) => s.(flag := Some(boot))
    case RestoreResolves(k, boot) =>
      if s.flag.Some? then s.(started := s.started[k := Resolved(s.flag.value)])
      else s.(started := s.started[k := Resolved(boot)], flag := Some(boot))
    case RestoreRejects(k) => s.(started := s.started[k := Rejected], current := None)
    case Reset => s.(flag := None, current := None)
  }

  predicate AllEnabled(s: State, es: seq<Event>)
    decreases |es|, 0
  {
    es == [] || (AllEnabled(s, es[..|es| - 1]) && Enabled(Run(s, es[..|es| - 1]), es[|es| - 1]))
  }

  function Run(s: State, es: seq<Event>): State
    requires AllEnabled(s, es)
    decreases |es|, 1
  {
    if es == [] then s else Next(Run(s, es[..|es| - 1]), es[|es| - 1])
  }

  class Module {
    var runtimeBoot: Option<Boot>
    var restorePromise: Option<nat>
    var started: seq<Promise>

    constructor ()
      ensures Contents() == INITIAL
    {
      runtimeBoot, restorePromise, started := None, None, [];
    }

    function Contents(): State
      reads this
    {
      State(runtimeBoot, started, restorePromise)
    }

    method EnsureAuthRestore() returns (answer: Answer)
      modifies this
      ensures Contents() == Next(old(Contents()), Ensure) && answer == AnswerTo(old(Contents()))
    {
      if runtimeBoot.Some? {
        return Now(runtimeBoot.value);
      }
      if restorePromise.None? {
        restorePromise := Some(|started|);
        started := started + [Waiting];
      }
      answer := Later(restorePromise.value);
    }

    method OnRestored(k: nat, boot: Boot)
      requires Enabled(Contents(), RestoreResolves(k, boot))
      modifies this
      ensures Contents() == Next(old(Contents()), RestoreResolves(k, boot))
    {
      if runtimeBoot.Some? {
        started := started[k := Resolved(runtimeBoot.value)];
        return;
      }
      runtimeBoot := Some(boot);
      started := started[k := Resolved(boot)];
    }

    method OnRestoreFailed(k: nat)
      requires Enabled(Contents(), RestoreRejects(k))
      modifies this
      ensures Contents() == Next(old(Contents()), RestoreRejects(k))
    {
      restorePromise := None;
      started := started[k := Rejected];
    }
  }

  // ---------- Runs without a reset ----------

  ghost predicate NoReset(es: seq<Event>) {
    forall i :: 0 <= i < |es| ==> !es[i].Reset?
  }

  /** Only the current promise can be unsettled; every earlier one was rejected. */
  ghost predicate Inv(s: State) {
    && (forall k :: 0 <= k < |s.started| && s.current != Some(k) ==> s.started[k].Rejected?)
    && (s.current.Some? ==> s.current.value == |s.started| - 1 && !s.started[s.current.value].Rejected?)
    && (forall k :: 0 <= k < |s.started| && s.started[k].Resolved? ==> s.flag.Some?)
  }

  lemma StepKeepsInv(s: State, e: Event)
    requires Inv(s) && Enabled(s, e) && !e.Reset?
    ensures Inv(Next(s, e))
  {
  }

  lemma {:induction false} RunKeepsInv(es: seq<Event>)
    requires AllEnabled(INITIAL, es) && NoReset(es)
    ensures Inv(Run(INITIAL, es))
  {
    if es != [] {
      RunKeepsInv(es[..|es| - 1]);
      StepKeepsInv(Run(INITIAL, es[..|es| - 1]), es[|es| - 1]);
    }
  }

  /** A second restore is only ever called after the one before it was rejected. */
  lemma OneRestoreAtATime(es: seq<Event>, j: nat, k: nat)
    requires AllEnabled(INITIAL, es) && NoReset(es)
    requires j < k < |Run(INITIAL, es).started|
    ensures Run(INITIAL, es).started[j].Rejected?
  {
    RunKeepsInv(es);
  }

  /** A flag that is set stays set, and no restore is called after it. */
  lemma {:induction false} FlagEndsRestoring(s: State, es: seq<Event>)
    requires s.flag.Some? && AllEnabled(s, es) && NoReset(es)
    ensures Run(s, es).flag.Some? && |Run(s, es).started| == |s.started|
  {
    if es != [] {
      FlagEndsRestoring(s, es[..|es| - 1]);
    }
  }

  /** If the flag was set while the restore ran, its promise gives that flag and not what it found. */
  lemma FlagSetMeanwhileWins(s: State, es: seq<Event>, wanted: Boot, k: nat, found: Boot)
    requires AllEnabled(s, es) && NoReset(es) && forall i :: 0 <= i < |es| ==> !es[i].SetBoot?
    requires s.flag == Some(wanted) && k < |s.started|
    requires Enabled(Run(s, es), RestoreResolves(k, found))
    ensures Run(s, es).flag == Some(wanted)
    ensures Next(Run(s, es), RestoreResolves(k, found)).started[k] == Resolved(wanted)
  {
    FlagOnlyFromSetBoot(s, es);
  }

  lemma {:induction false} FlagOnlyFromSetBoot(s: State, es: seq<Event>)
    requires AllEnabled(s, es) && NoReset(es) && forall i :: 0 <= i < |es| ==> !es[i].SetBoot?
    requires s.flag.Some?
    ensures Run(s, es).flag == s.flag
  {
    if es != [] {
      FlagOnlyFromSetBoot(s, es[..|es| - 1]);
    }
  }

  // ---------- Runs with resets ----------

  ghost predicate AnyWaiting(s: State) {
    exists k :: 0 <= k < |s.started| && s.started[k].Waiting?
  }

  ghost predicate TwoWaiting(s: State) {
    exists j, k :: 0 <= j < k < |s.started| && s.started[j].Waiting? && s.started[k].Waiting?
  }

  /** A reset lets the next call start a second restore beside the first exactly when one is still waiting. */
  lemma ResetAllowsTwo(s: State)
    ensures TwoWaiting(Next(Next(s, Reset), Ensure)) <==> AnyWaiting(s)
  {
    var t := Next(Next(s, Reset), Ensure);
    assert t.started == s.started + [Waiting];
    if AnyWaiting(s) {
      var j :| 0 <= j < |s.started| && s.started[j].Waiting?;
      assert t.started[j].Waiting? && t.started[|s.started|].Waiting?;
    }
  }

  /** No reset of the run came while a restore was waiting. */
  ghost predicate CalmResets(es: seq<Event>)
    requires AllEnabled(INITIAL, es)
  {
    es == [] ||
    (CalmResets(es[..|es| - 1]) && (es[|es| - 1].Reset? ==> !AnyWaiting(Run(INITIAL, es[..|es| - 1]))))
  }

  /** Only the current promise can be waiting. */
  ghost predicate WaitsForOne(s: State) {
    && (s.current.Some? ==> s.current.value < |s.started|)
    && forall k :: 0 <= k < |s.started| && s.started[k].Waiting? ==> s.current == Some(k)
  }

  lemma StepWaitsForOne(s: State, e: Event)
    requires WaitsForOne(s) && Enabled(s, e) && (e.Reset? ==> !AnyWaiting(s))
    ensures WaitsForOne(Next(s, e))
  {
  }

  /** So with no such reset two restores never run together. */
  lemma {:induction false} CalmRunsWaitForOne(es: seq<Event>)
    requires AllEnabled(INITIAL, es) && CalmResets(es)
    ensures WaitsForOne(Run(INITIAL, es)) && !TwoWaiting(Run(INITIAL, es))
  {
    if es != [] {
      CalmRunsWaitForOne(es[..|es| - 1]);
      StepWaitsForOne(Run(INITIAL, es[..|es| - 1]), es[|es| - 1]);
    }
  }
}
