/**
 * The undoable write protocol: an optimistic UI change, an asynchronous commit, an undo
 * button, a toast whose closing may be reported twice, and a reverse call. Every callback
 * is one event and events interleave freely. `Next` is the protocol on values; the class
 * has the closure variables and is proved to take exactly those steps; the lemmas about
 * `Run` hold for every run.
 */
module UndoableMutation {
  import opened Common

  datatype Config = Config(deferCommit: bool, hasReverse: bool)

  /** `Settling`: the commit has resolved and `onCommitted` is being awaited. */
  datatype CommitPhase = NotSent | InFlight | Settling | Settled

  /** `ReverseFailed(wrote)`: the reverse call rejected, after or before its write took effect. */
  datatype UndoPhase = NotPressed | AwaitingCommit | Reversing | Reverted | ReverseFailed(wrote: bool)

  /** What an observer of the UI and of the server sees. */
  datatype World<T> = World(
    commitsSent: nat, reverts: nat, reverseArgs: seq<T>, uiShows: bool, serverHolds: bool, toastOpen: bool)

  datatype State<T> = State(
    undone: bool, commitFailed: bool, commitStarted: bool, result: Option<T>,
    commit: CommitPhase, undo: UndoPhase, world: World<T>)

  datatype Event<T> =
    | AutoClose
    | Dismiss
    | PressUndo
    | CommitResolves(result: Option<T>)
    | CommitRejects
    | CommitRejectsAfterWrite
    | OnCommittedSettles
    | UndoResumes
    | ReverseResolves
    | ReverseRejects
    | ReverseRejectsAfterWrite

  // ---------- The protocol on values ----------

  function SendCommit<T>(s: State<T>): State<T> {
    if s.undone || s.commitStarted then s
    else s.(commitStarted := true, commit := InFlight,
            world := s.world.(commitsSent := s.world.commitsSent + 1))
  }

  function RevertUi<T>(s: State<T>): State<T> {
    s.(world := s.world.(reverts := s.world.reverts + 1, uiShows := false))
  }

  function Start<T>(c: Config): State<T> {
    var s := State(false, false, false, None, NotSent, NotPressed, World(0, 0, [], true, false, true));
    if c.deferCommit then s else SendCommit(s)
  }

  function Close<T>(c: Config, s: State<T>): State<T> {
    var t := s.(world := s.world.(toastOpen := false));
    if c.deferCommit then SendCommit(t) else t
  }

  /**
   * When an event can happen at all. The undo button of a deferred write is dead once the
   * toast has closed; `LateUndoDiverges` shows that the protocol needs this.
   */
  predicate Enabled<T>(c: Config, s: State<T>, e: Event<T>) {
    match e
    case AutoClose | Dismiss => true
    case PressUndo => c.deferCommit ==> s.world.toastOpen
    case CommitResolves(_) | CommitRejects | CommitRejectsAfterWrite => s.commit == InFlight
    case OnCommittedSettles => s.commit == Settling
    case UndoResumes => s.undo == AwaitingCommit && s.commit == Settled
    case ReverseResolves | ReverseRejects | ReverseRejectsAfterWrite => s.undo == Reversing
  }

  function Next<T>(c: Config, s: State<T>, e: Event<T>): State<T> {
    match e
    case AutoClose | Dismiss => Close(c, s)
    case PressUndo =>
      if s.undone || s.commitFailed then s
      else if c.deferCommit then RevertUi(s.(undone := true, undo := Reverted))
      else s.(undone := true, undo := AwaitingCommit)
    case CommitResolves(r) => s.(result := r, commit := Settling, world := s.world.(serverHolds := true))
    case CommitRejects => RevertUi(s.(commitFailed := true, commit := Settled))
    case CommitRejectsAfterWrite => s.(commit := Settled, world := s.world.(serverHolds := true))
    case OnCommittedSettles => s.(commit := Settled)
    case UndoResumes =>
      // A failed commit has already reverted; the pressed undo then has nothing left to do.
      if s.commitFailed then s.(undo := Reverted)
      else if c.hasReverse && s.result.Some?
      then s.(undo := Reversing, world := s.world.(reverseArgs := s.world.reverseArgs + [s.result.value]))
      else RevertUi(s.(undo := Reverted))
    case ReverseResolves => RevertUi(s.(undo := Reverted, world := s.world.(serverHolds := false)))
    case ReverseRejects => s.(undo := ReverseFailed(false))
    case ReverseRejectsAfterWrite => s.(undo := ReverseFailed(true), world := s.world.(serverHolds := false))
  }

  /** The state after the events `es`, or `None` when one of them could not have happened. */
  function Run<T>(c: Config, es: seq<Event<T>>): Option<State<T>> {
    if es == [] then Some(Start(c))
    else
      var n := |es| - 1;
      match Run(c, es[..n])
      case None => None
      case Some(s) => if Enabled(c, s, es[n]) then Some(Next(c, s, es[n])) else None
  }

  lemma RunExtends<T>(c: Config, es: seq<Event<T>>, e: Event<T>)
    requires Run(c, es).Some? && Enabled(c, Run(c, es).value, e)
    ensures Run(c, es + [e]) == Some(Next(c, Run(c, es).value, e))
  {
    assert (es + [e])[..|es|] == es;
  }

  // ---------- The closure, one method per callback ----------

  class Mutation<T> {
    const cfg: Config
    var undone: bool
    var commitFailed: bool
    var commitStarted: bool
    var committedResult: Option<T>
    var commit: CommitPhase
    var undo: UndoPhase
    ghost var world: World<T>

    ghost function Snapshot(): State<T>
      reads this
    {
      State(undone, commitFailed, commitStarted, committedResult, commit, undo, world)
    }

    /** `apply` has run; in immediate mode the commit is sent at once. */
    constructor (cfg: Config)
      ensures this.cfg == cfg && Snapshot() == Start(cfg)
    {
      this.cfg := cfg;
      undone, commitFailed, commitStarted, committedResult := false, false, false, None;
      commit, undo := NotSent, NotPressed;
      world := World(0, 0, [], true, false, true);
      new;
      if !cfg.deferCommit {
        RunCommit();
      }
    }

    method RunCommit()
      modifies this
      ensures Snapshot() == SendCommit(old(Snapshot()))
    {
      if undone || commitStarted {
        return;
      }
      commitStarted, commit := true, InFlight;
      world := world.(commitsSent := world.commitsSent + 1);
    }

    method Revert()
      modifies this`world
      ensures Snapshot() == RevertUi(old(Snapshot()))
    {
      world := world.(reverts := world.reverts + 1, uiShows := false);
    }

    /** The toast reports its closing through `onAutoClose`, `onDismiss`, or both. */
    method OnClose(e: Event<T>)
      requires e.AutoClose? || e.Dismiss?
      modifies this
      ensures Snapshot() == Next(cfg, old(Snapshot()), e)
    {
      world := world.(toastOpen := false);
      if cfg.deferCommit {
        RunCommit();
      }
    }

    method OnUndoClick()
      requires Enabled(cfg, Snapshot(), PressUndo)
      modifies this
      ensures Snapshot() == Next(cfg, old(Snapshot()), PressUndo)
    {
      if undone || commitFailed {
        return;
      }
      undone := true;
      if cfg.deferCommit {
        undo := Reverted;
        Revert();
      } else {
        undo := AwaitingCommit;
      }
    }

    method OnCommitResolved(result: Option<T>)
      requires Enabled(cfg, Snapshot(), CommitResolves(result))
      modifies this
      ensures Snapshot() == Next(cfg, old(Snapshot()), CommitResolves(result))
    {
      committedResult, commit := result, Settling;
      world := world.(serverHolds := true);
    }

    method OnCommitRejected(afterWrite: bool)
      requires Enabled(cfg, Snapshot(), CommitRejects)
      modifies this
      ensures Snapshot() == Next(cfg, old(Snapshot()), if afterWrite then CommitRejectsAfterWrite else CommitRejects)
    {
      commit := Settled;
      if afterWrite {
        world := world.(serverHolds := true);
        return;
      }
      commitFailed := true;
      Revert();
    }

    method OnCommittedDone()
      requires Enabled(cfg, Snapshot(), OnCommittedSettles)
      modifies this
      ensures Snapshot() == Next(cfg, old(Snapshot()), OnCommittedSettles)
    {
      commit := Settled;
    }

    method ResumeUndo()
      requires Enabled(cfg, Snapshot(), UndoResumes)
      modifies this
      ensures Snapshot() == Next(cfg, old(Snapshot()), UndoResumes)
    {
      if commitFailed {
        undo := Reverted;
        return;
      }
      if cfg.hasReverse && committedResult.Some? {
        undo := Reversing;
        world := world.(reverseArgs := world.reverseArgs + [committedResult.value]);
      } else {
        undo := Reverted;
        Revert();
      }
    }

    method OnReverseResolved()
      requires Enabled(cfg, Snapshot(), ReverseResolves)
      modifies this
      ensures Snapshot() == Next(cfg, old(Snapshot()), ReverseResolves)
    {
      undo := Reverted;
      world := world.(serverHolds := false);
      Revert();
    }

    method OnReverseRejected(afterWrite: bool)
      requires Enabled(cfg, Snapshot(), ReverseRejects)
      modifies this
      ensures Snapshot() == Next(cfg, old(Snapshot()), if afterWrite then ReverseRejectsAfterWrite else ReverseRejects)
    {
      undo := ReverseFailed(afterWrite);
      if afterWrite {
        world := world.(serverHolds := false);
      }
    }
  }

  // ---------- What every run keeps ----------

  ghost predicate Inv<T>(c: Config, s: State<T>) {
    var w := s.world;
    && w.commitsSent == (if s.commitStarted then 1 else 0)
    && (s.commit == NotSent <==> !s.commitStarted)
    && (s.undone <==> s.undo != NotPressed)
    && w.reverts == (if w.uiShows then 0 else 1)
    && (!c.deferCommit ==> s.commitStarted)
    && (c.deferCommit ==> (s.commitStarted <==> !w.toastOpen && !s.undone))
    && (s.commitFailed ==>
      s.commit == Settled && !w.serverHolds && !w.uiShows && (!s.undone || s.undo in {AwaitingCommit, Reverted}))
    && (s.result.Some? ==> s.commit in {Settling, Settled} && !s.commitFailed)
    && (s.commit in {NotSent, InFlight} ==> !w.serverHolds)
    && (s.undo in {NotPressed, AwaitingCommit, Reversing} && !s.commitFailed ==> w.uiShows)
    && (s.undo in {NotPressed, AwaitingCommit, Reversing} && s.commit in {Settling, Settled} && !s.commitFailed ==>
      w.serverHolds)
    && (s.undo.ReverseFailed? ==> w.uiShows && w.serverHolds == !s.undo.wrote)
    && (s.undo.Reverted? ==> !w.uiShows)
    && (s.undo.Reverted? && !s.commitFailed && !c.deferCommit ==> w.serverHolds == (!c.hasReverse || s.result.None?))
    && (s.undo == Reversing || s.undo.ReverseFailed? ==>
      !c.deferCommit && c.hasReverse && s.result.Some? && s.commit == Settled)
    && (s.undone && !c.deferCommit && s.undo != AwaitingCommit ==> s.commit == Settled)
    && (c.deferCommit && s.undone ==> s.undo == Reverted)
    && (w.reverseArgs == [] || s.result.Some?)
    && (w.reverseArgs == [] || w.reverseArgs == [s.result.value])
    && (s.undo in {NotPressed, AwaitingCommit} ==> w.reverseArgs == [])
  }

  lemma StepKeepsInv<T>(c: Config, s: State<T>, e: Event<T>)
    requires Inv(c, s) && Enabled(c, s, e)
    ensures Inv(c, Next(c, s, e))
  {
  }

  lemma {:induction false} RunKeepsInv<T>(c: Config, es: seq<Event<T>>)
    ensures Run(c, es).Some? ==> Inv(c, Run(c, es).value)
  {
    if es != [] {
      var n := |es| - 1;
      RunKeepsInv(c, es[..n]);
      if Run(c, es).Some? {
        StepKeepsInv(c, Run(c, es[..n]).value, es[n]);
      }
    }
  }

  /** At most one commit, one revert and one reverse call, and the reverse gets the commit's own result. */
  lemma AtMostOnce<T>(c: Config, es: seq<Event<T>>)
    requires Run(c, es).Some?
    ensures var s := Run(c, es).value;
      && s.world.commitsSent <= 1
      && s.world.reverts <= 1
      && (s.world.reverseArgs == [] || (s.result.Some? && s.world.reverseArgs == [s.result.value]))
  {
    RunKeepsInv(c, es);
  }

  predicate Closes<T>(e: Event<T>) { e.AutoClose? || e.Dismiss? }

  /** A deferred commit is sent exactly when the toast closes before any press of undo. */
  ghost predicate ClosedWithoutUndo<T>(es: seq<Event<T>>) {
    exists i :: 0 <= i < |es| && Closes(es[i]) && PressUndo !in es[..i]
  }

  lemma ClosedOneMore<T>(es: seq<Event<T>>, e: Event<T>)
    ensures ClosedWithoutUndo(es + [e]) <==> ClosedWithoutUndo(es) || (Closes(e) && PressUndo !in es)
  {
    var all := es + [e];
    assert all[..|es|] == es;
    if ClosedWithoutUndo(es) {
      var i :| 0 <= i < |es| && Closes(es[i]) && PressUndo !in es[..i];
      assert all[..i] == es[..i] && Closes(all[i]);
    } else if Closes(e) && PressUndo !in es {
      assert Closes(all[|es|]);
    }
    forall i | 0 <= i < |es| ensures all[..i] == es[..i] && all[i] == es[i] {
    }
  }

  ghost predicate NeverCloses<T>(es: seq<Event<T>>) {
    forall i :: 0 <= i < |es| ==> !Closes(es[i])
  }

  lemma NeverClosesOneMore<T>(es: seq<Event<T>>, e: Event<T>)
    ensures NeverCloses(es + [e]) <==> NeverCloses(es) && !Closes(e)
  {
    var all := es + [e];
    assert all[|es|] == e && forall i :: 0 <= i < |es| ==> all[i] == es[i];
  }

  /** What the state of a deferred run says about the events behind it. */
  ghost predicate Remembers<T>(s: State<T>, es: seq<Event<T>>) {
    && s.world.commitsSent == (if ClosedWithoutUndo(es) then 1 else 0)
    && (s.world.toastOpen <==> NeverCloses(es))
    && (s.undone ==> PressUndo in es)
    && (s.world.commitsSent == 0 ==> (s.undone <==> PressUndo in es))
  }

  lemma StepRemembers<T>(c: Config, es: seq<Event<T>>, s: State<T>, e: Event<T>)
    requires c.deferCommit && Inv(c, s) && Enabled(c, s, e) && Remembers(s, es)
    ensures Remembers(Next(c, s, e), es + [e])
  {
    ClosedOneMore(es, e);
    NeverClosesOneMore(es, e);
    assert PressUndo in es + [e] <==> PressUndo in es || e == PressUndo;
  }

  lemma {:induction false} DeferredTrace<T>(c: Config, es: seq<Event<T>>)
    requires c.deferCommit && Run(c, es).Some?
    ensures Remembers(Run(c, es).value, es)
  {
    if es != [] {
      var n := |es| - 1;
      DeferredTrace(c, es[..n]);
      RunKeepsInv(c, es[..n]);
      StepRemembers(c, es[..n], Run(c, es[..n]).value, es[n]);
      assert es == es[..n] + [es[n]];
    }
  }

  // ---------- What the events of a run lead to ----------

  /** Nothing is in flight, and a deferred write has been either released or undone. */
  predicate Quiet<T>(c: Config, s: State<T>) {
    && s.commit in {NotSent, Settled}
    && s.undo !in {AwaitingCommit, Reversing}
    && (c.deferCommit ==> !s.world.toastOpen || s.undone)
  }

  ghost predicate CommitReplied<T>(es: seq<Event<T>>) {
    CommitRejects in es || CommitRejectsAfterWrite in es || CommitResolved(es)
  }

  ghost predicate CommitResolved<T>(es: seq<Event<T>>) {
    exists i :: 0 <= i < |es| && es[i].CommitResolves?
  }

  /** What the commit left: whether it failed, was held, and what it returned. */
  ghost predicate TellsCommit<T>(s: State<T>, es: seq<Event<T>>) {
    && (s.commitFailed <==> CommitRejects in es)
    && (s.commit in {Settling, Settled} <==> CommitReplied(es))
    && (forall i :: 0 <= i < |es| && es[i].CommitResolves? ==> es[i].result == s.result)
    && (s.result.Some? ==> CommitResolved(es))
    && (CommitResolved(es) || CommitRejectsAfterWrite in es ==> CommitRejects !in es)
  }

  /** What undo has come to. */
  ghost predicate TellsUndo<T>(c: Config, s: State<T>, es: seq<Event<T>>) {
    && (s.undone ==> PressUndo in es)
    && (CommitRejects !in es && PressUndo in es ==> s.undone)
    && (s.undo == ReverseFailed(false) <==> ReverseRejects in es)
    && (s.undo == ReverseFailed(true) <==> ReverseRejectsAfterWrite in es)
    && (s.undo.Reverted? && s.world.reverseArgs != [] <==> ReverseResolves in es)
  }

  /** The reverse call has been made as soon as the pressed undo has resumed. */
  ghost predicate TellsReverse<T>(c: Config, s: State<T>) {
    && (s.undone && s.undo != AwaitingCommit && !c.deferCommit && c.hasReverse && s.result.Some? ==>
      s.world.reverseArgs == [s.result.value])
    && (c.deferCommit || !c.hasReverse || s.result.None? ==> s.world.reverseArgs == [])
  }

  lemma CommitTold<T>(c: Config, es: seq<Event<T>>, s: State<T>, e: Event<T>)
    requires Inv(c, s) && Enabled(c, s, e) && TellsCommit(s, es)
    ensures TellsCommit(Next(c, s, e), es + [e])
  {
    var all := es + [e];
    assert forall x :: x in all <==> x in es || x == e;
    assert forall i :: 0 <= i < |es| ==> all[i] == es[i];
    assert all[|es|] == e;
  }

  lemma UndoTold<T>(c: Config, es: seq<Event<T>>, s: State<T>, e: Event<T>)
    requires Inv(c, s) && Enabled(c, s, e) && TellsCommit(s, es) && TellsUndo(c, s, es) && TellsReverse(c, s)
    ensures TellsUndo(c, Next(c, s, e), es + [e]) && TellsReverse(c, Next(c, s, e))
  {
    assert forall x :: x in es + [e] <==> x in es || x == e;
  }

  lemma {:induction false} RunTells<T>(c: Config, es: seq<Event<T>>)
    requires Run(c, es).Some?
    ensures var s := Run(c, es).value; TellsCommit(s, es) && TellsUndo(c, s, es) && TellsReverse(c, s)
  {
    if es != [] {
      var n := |es| - 1;
      var s := Run(c, es[..n]).value;
      RunTells(c, es[..n]);
      RunKeepsInv(c, es[..n]);
      CommitTold(c, es[..n], s, es[n]);
      UndoTold(c, es[..n], s, es[n]);
      assert es == es[..n] + [es[n]];
    }
  }

  ghost predicate ReverseFailedIn<T>(es: seq<Event<T>>) {
    ReverseRejects in es || ReverseRejectsAfterWrite in es
  }

  /**
   * A quiet immediate write is shown exactly if nobody pressed undo and the commit was not
   * rejected, or if the reverse call failed; the server holds it unless the commit was rejected or
   * a reverse call took effect. Reverse is called once, with what the commit returned, exactly if
   * there is one to call, undo was pressed, and the commit returned something.
   */
  lemma ImmediateOutcome<T>(es: seq<Event<T>>, hasReverse: bool)
    requires var c := Config(false, hasReverse); Run(c, es).Some? && Quiet(c, Run(c, es).value)
    ensures var w := Run(Config(false, hasReverse), es).value.world;
      && (w.uiShows <==> (PressUndo !in es && CommitRejects !in es) || ReverseFailedIn(es))
      && (w.serverHolds <==>
            CommitRejects !in es && ReverseResolves !in es && ReverseRejectsAfterWrite !in es)
      && (forall x :: w.reverseArgs == [x] <==> hasReverse && PressUndo in es && CommitResolves(Some(x)) in es)
      && (w.reverseArgs == [] || exists x :: w.reverseArgs == [x])
      && w.commitsSent == 1
  {
    var c := Config(false, hasReverse);
    var s := Run(c, es).value;
    RunTells(c, es);
    RunKeepsInv(c, es);
    if s.result.Some? {
      var i :| 0 <= i < |es| && es[i].CommitResolves?;
      assert es[i] == CommitResolves(s.result);
    }
  }

  /** A deferred write is shown, at every moment, until undo is pressed or the commit rejected; nothing is reversed. */
  lemma DeferredOutcome<T>(es: seq<Event<T>>, hasReverse: bool)
    requires Run(Config(true, hasReverse), es).Some?
    ensures var w := Run(Config(true, hasReverse), es).value.world;
      && (w.uiShows <==> PressUndo !in es && CommitRejects !in es)
      && (w.serverHolds <==> CommitReplied(es) && CommitRejects !in es)
      && (w.commitsSent == 1 <==> ClosedWithoutUndo(es))
      && w.reverseArgs == []
  {
    var c := Config(true, hasReverse);
    RunTells(c, es);
    RunKeepsInv(c, es);
    DeferredTrace(c, es);
  }

  /** An immediate write can be undone at any time, a deferred one until its toast has closed. */
  lemma UndoIsOffered<T>(c: Config, es: seq<Event<T>>)
    requires Run(c, es).Some?
    ensures Run(c, es + [PressUndo]).Some? <==> !c.deferCommit || NeverCloses(es)
  {
    assert (es + [PressUndo])[..|es|] == es;
    if c.deferCommit {
      DeferredTrace(c, es);
    }
  }

  /** A commit that was sent can come back in any way, once. */
  lemma CommitCanReply<T>(c: Config, es: seq<Event<T>>, e: Event<T>)
    requires Run(c, es).Some? && (e.CommitResolves? || e.CommitRejects? || e.CommitRejectsAfterWrite?)
    ensures Run(c, es + [e]).Some? <==> Run(c, es).value.world.commitsSent == 1 && !CommitReplied(es)
  {
    assert (es + [e])[..|es|] == es;
    RunTells(c, es);
    RunKeepsInv(c, es);
  }

  // ---------- Agreement of the UI and the server ----------

  /** Undo was pressed on a commit that went through, and the guard before `reverse` skipped it. */
  predicate ReverseSkipped<T>(c: Config, s: State<T>) {
    !c.deferCommit && s.undone && !s.commitFailed && (!c.hasReverse || s.result.None?)
  }

  /** Once quiet, UI and server agree exactly unless reverse was skipped or rejected after its write. */
  lemma AgreementWhenQuiet<T>(c: Config, es: seq<Event<T>>)
    requires Run(c, es).Some? && Quiet(c, Run(c, es).value)
    ensures var s := Run(c, es).value;
      s.world.uiShows == s.world.serverHolds <==> !ReverseSkipped(c, s) && s.undo != ReverseFailed(true)
  {
    RunKeepsInv(c, es);
  }

  /** A deferred write that has become quiet always agrees: shown and held, or neither. */
  lemma DeferredAlwaysAgrees<T>(c: Config, es: seq<Event<T>>)
    requires c.deferCommit && Run(c, es).Some? && Quiet(c, Run(c, es).value)
    ensures var w := Run(c, es).value.world;
      w.uiShows == w.serverHolds && (PressUndo in es && !ClosedWithoutUndo(es) ==> !w.serverHolds && w.commitsSent == 0)
  {
    RunKeepsInv(c, es);
    DeferredTrace(c, es);
  }

  lemma {:induction false} UndoneOnlyByPress<T>(c: Config, es: seq<Event<T>>)
    requires Run(c, es).Some? && Run(c, es).value.undone
    ensures PressUndo in es
  {
    if es != [] {
      var n := |es| - 1;
      if es[n] != PressUndo {
        UndoneOnlyByPress(c, es[..n]);
      }
    }
  }

  /** A write that offers no undo, or whose undo is never pressed, ends shown and held unless its commit failed. */
  lemma UnpressedAgrees<T>(c: Config, es: seq<Event<T>>)
    requires !c.deferCommit && PressUndo !in es && Run(c, es).Some? && Quiet(c, Run(c, es).value)
    ensures var s := Run(c, es).value;
      s.world.uiShows == s.world.serverHolds == !s.commitFailed
  {
    RunKeepsInv(c, es);
    if Run(c, es).value.undone {
      UndoneOnlyByPress(c, es);
    }
  }

  /**
   * An immediate write whose commit returns nothing is never reversed, although the caller
   * supplied `reverse`: the UI drops the change and the server keeps it.
   */
  lemma VoidCommitLosesUndo()
    ensures var c := Config(false, true);
      var r := Run<int>(c, [CommitResolves(None), OnCommittedSettles, PressUndo, UndoResumes]);
      && r.Some? && Quiet(c, r.value)
      && !r.value.world.uiShows && r.value.world.serverHolds && r.value.world.reverseArgs == []
  {
    var c := Config(false, true);
    var p1: seq<Event<int>> := [] + [CommitResolves(None)];
    RunExtends<int>(c, [], CommitResolves(None));
    RunExtends(c, p1, OnCommittedSettles);
    var p2 := p1 + [OnCommittedSettles];
    RunExtends(c, p2, PressUndo);
    var p3 := p2 + [PressUndo];
    RunExtends(c, p3, UndoResumes);
    assert p3 + [UndoResumes] == [CommitResolves(None), OnCommittedSettles, PressUndo, UndoResumes];
  }

  /** Were the button still live after a deferred toast closed, the UI and the server could part. */
  lemma LateUndoDiverges()
    ensures var c := Config(true, true);
      var closed := Next(c, Start<int>(c), AutoClose);
      var late := Next(c, closed, PressUndo);
      var s := Next(c, Next(c, late, CommitResolves(Some(0))), OnCommittedSettles);
      !Enabled(c, closed, PressUndo) && Quiet(c, s) && !s.world.uiShows && s.world.serverHolds
  {
  }

  // ---------- Every run settles ----------

  function Rank<T>(s: State<T>): nat {
    (match s.commit case NotSent => 3 case InFlight => 2 case Settling => 1 case Settled => 0)
    + (match s.undo
       case NotPressed => 3
       case AwaitingCommit => 2
       case Reversing => 1
       case Reverted => 0
       case ReverseFailed(_) => 0)
    + (if s.world.toastOpen then 1 else 0)
  }

  /** Every event that changes anything lowers the rank, so a run has at most seven such events. */
  lemma EffectiveStepsRunOut<T>(c: Config, s: State<T>, e: Event<T>)
    requires Inv(c, s) && Enabled(c, s, e)
    ensures Rank(s) <= 7
    ensures Next(c, s, e) != s ==> Rank(Next(c, s, e)) < Rank(s)
  {
  }

  /** Something can happen in every state that is not quiet, short of a press of undo. */
  lemma SomethingSettles<T>(c: Config, s: State<T>) returns (e: Event<T>)
    requires Inv(c, s) && !Quiet(c, s)
    ensures Enabled(c, s, e) && e != PressUndo && Rank(Next(c, s, e)) < Rank(s)
  {
    e := if s.commit == InFlight then CommitRejects
      else if s.commit == Settling then OnCommittedSettles
      else if s.undo == AwaitingCommit then UndoResumes
      else if s.undo == Reversing then ReverseRejects
      else Dismiss;
    EffectiveStepsRunOut(c, s, e);
  }

  /** What a run goes on to from `s`. */
  function Onward<T>(c: Config, s: State<T>, more: seq<Event<T>>): Option<State<T>>
    decreases |more|
  {
    if more == [] then Some(s)
    else if !Enabled(c, s, more[0]) then None
    else Onward(c, Next(c, s, more[0]), more[1..])
  }

  lemma {:induction false} RunGoesOn<T>(c: Config, es: seq<Event<T>>, more: seq<Event<T>>)
    requires Run(c, es).Some? && Onward(c, Run(c, es).value, more).Some?
    ensures Run(c, es + more) == Onward(c, Run(c, es).value, more)
    decreases |more|
  {
    if more == [] {
      assert es + more == es;
    } else {
      RunExtends(c, es, more[0]);
      assert es + more == (es + [more[0]]) + more[1..];
      RunGoesOn(c, es + [more[0]], more[1..]);
    }
  }

  lemma {:induction false} StateCanSettle<T>(c: Config, s: State<T>) returns (more: seq<Event<T>>)
    requires Inv(c, s)
    ensures Onward(c, s, more).Some? && Quiet(c, Onward(c, s, more).value) && PressUndo !in more
    decreases Rank(s)
  {
    if Quiet(c, s) {
      return [];
    }
    var e := SomethingSettles(c, s);
    StepKeepsInv(c, s, e);
    var rest := StateCanSettle(c, Next(c, s, e));
    assert ([e] + rest)[1..] == rest;
    return [e] + rest;
  }

  /** No run is stuck: some continuation makes it quiet, with no new press of undo. */
  lemma EveryRunCanSettle<T>(c: Config, es: seq<Event<T>>) returns (more: seq<Event<T>>)
    requires Run(c, es).Some?
    ensures Run(c, es + more).Some? && Quiet(c, Run(c, es + more).value)
    ensures PressUndo !in more
  {
    RunKeepsInv(c, es);
    more := StateCanSettle(c, Run(c, es).value);
    RunGoesOn(c, es, more);
  }
}
