/** Progressive grades of a trainee, the two routes to them, and the masking of attachments. */
module Grading {
  import opened Common

  datatype WeekStatus = Draft | LockedFuture | LockedDropped | Submitted | Graded | Archived
  datatype TraineeStatus = Enrolled | Dropped
  datatype UserRole = MentorTeacher | SchoolPrincipal | OtherRole

  datatype Week = Week(
    status: WeekStatus, score: Option<real>, readBySupervisor: bool, report: string,
    canWatchOthers: Option<bool>, files: seq<string>, filesHidden: bool)

  datatype Label = LabelDropped | LabelNoGrade | LabelPassed | LabelFailed | LabelInProgress
  datatype Grade = Grade(gradedCount: int, final20: Option<real>, outcome: Label)

  datatype Trainee = Trainee(
    name: string, status: TraineeStatus, weeks: seq<Week>, hasSubmitted: bool, unreadCount: nat, grade: Grade)

  // ---------- Rounding ----------

  /** `Number(x.toFixed(2))`: the nearest hundredth, the larger of two equally near (section 21.1.3.3 of ECMA-262). */
  function ToFixed2(x: real): real {
    if x < 0.0 then -HalfUp(-x) else HalfUp(x)
  }

  function HalfUp(x: real): real {
    (100.0 * x + 0.5).Floor as real / 100.0
  }

  lemma ToFixed2IsNearest(x: real, n: int)
    requires x >= 0.0
    ensures var d := ToFixed2(x) - x; var e := n as real / 100.0 - x;
      (if d < 0.0 then -d else d) <= (if e < 0.0 then -e else e)
  {
    var f := (100.0 * x + 0.5).Floor;
    assert f as real <= 100.0 * x + 0.5 < f as real + 1.0;
    assert n <= f - 1 || n == f || n >= f + 1;
  }

  lemma ToFixed2Monotone(x: real, y: real)
    requires 0.0 <= x <= y
    ensures 0.0 <= ToFixed2(x) <= ToFixed2(y)
  {
    assert (100.0 * x + 0.5).Floor <= (100.0 * y + 0.5).Floor;
  }

  /** Rounding reaches a whole number of hundredths exactly from half a hundredth below it on. */
  lemma ToFixed2Reaches(x: real, hundredths: nat)
    requires x >= 0.0
    ensures ToFixed2(x) >= hundredths as real / 100.0 <==> x >= hundredths as real / 100.0 - 0.005
  {
    var f := (100.0 * x + 0.5).Floor;
    assert f >= hundredths <==> 100.0 * x + 0.5 >= hundredths as real;
  }

  // ---------- The two routes ----------

  function GradedScores(weeks: seq<Week>): seq<real> {
    if weeks == [] then []
    else
      (if weeks[0].status.Graded? && weeks[0].score.Some? then [weeks[0].score.value] else [])
      + GradedScores(weeks[1..])
  }

  function Sum(xs: seq<real>): real {
    if xs == [] then 0.0 else xs[0] + Sum(xs[1..])
  }

  function Average(xs: seq<real>): real
    requires xs != []
  {
    Sum(xs) / (|xs| as real)
  }

  function ProgressiveGrade(weeks: seq<Week>, status: TraineeStatus, threshold: real): Grade {
    if status.Dropped? then Grade(0, None, LabelDropped)
    else
      var scores := GradedScores(weeks);
      if scores == [] then Grade(0, None, LabelNoGrade)
      else
        var avg100 := Average(scores);
        Grade(|scores|, Some(ToFixed2(avg100 / 100.0 * 20.0)), if avg100 >= threshold then LabelPassed else LabelFailed)
  }

  datatype Summary = Summary(scoredWeeks: int, weightedScore: real)

  function GradeFromSummary(summary: Option<Summary>, status: TraineeStatus, threshold: real): Grade {
    if status.Dropped? then Grade(0, None, LabelDropped)
    else if summary.None? || summary.value.scoredWeeks <= 0 then
      Grade(if summary.Some? then summary.value.scoredWeeks else 0, None, LabelNoGrade)
    else
      var final20 := ToFixed2(summary.value.weightedScore);
      Grade(summary.value.scoredWeeks, Some(final20),
            if final20 >= threshold / 100.0 * 20.0 then LabelPassed else LabelFailed)
  }

  /** From a summary: no grade before a week is scored, then by the rounded grade out of 20. */
  lemma SummaryOutcome(summary: Option<Summary>, status: TraineeStatus, threshold: real)
    ensures var g := GradeFromSummary(summary, status, threshold);
      var scored := summary != None && summary.value.scoredWeeks >= 1;
      && (g.outcome == LabelDropped <==> status == Dropped)
      && (g.outcome == LabelNoGrade <==> status != Dropped && !scored)
      && (g.outcome == LabelPassed <==>
            status != Dropped && scored && ToFixed2(summary.value.weightedScore) >= threshold / 5.0)
      && (g.final20 == if status != Dropped && scored then Some(ToFixed2(summary.value.weightedScore)) else None)
  {
    assert threshold / 100.0 * 20.0 == threshold / 5.0;
  }

  ghost predicate InRange(xs: seq<real>) {
    forall i :: 0 <= i < |xs| ==> 0.0 <= xs[i] <= 100.0
  }

  ghost predicate ScoresInRange(weeks: seq<Week>) {
    forall i :: 0 <= i < |weeks| && weeks[i].score.Some? ==> 0.0 <= weeks[i].score.value <= 100.0
  }

  lemma {:induction false} SumInRange(xs: seq<real>)
    requires InRange(xs)
    ensures 0.0 <= Sum(xs) <= 100.0 * |xs| as real
  {
    if xs != [] {
      SumInRange(xs[1..]);
    }
  }

  lemma {:induction false} GradedScoresInRange(weeks: seq<Week>)
    requires ScoresInRange(weeks)
    ensures InRange(GradedScores(weeks))
  {
    if weeks != [] {
      GradedScoresInRange(weeks[1..]);
    }
  }

  lemma AverageInRange(xs: seq<real>)
    requires xs != [] && InRange(xs)
    ensures 0.0 <= Average(xs) <= 100.0
  {
    SumInRange(xs);
    Quotient(Sum(xs), |xs| as real);
  }

  lemma Quotient(sum: real, n: real)
    requires n > 0.0 && 0.0 <= sum <= 100.0 * n
    ensures 0.0 <= sum / n <= 100.0
  {
    assert sum == (sum / n) * n;
  }

  /** Scores from 0 to 100 give a final grade from 0 to 20. */
  lemma FinalGradeInRange(weeks: seq<Week>, status: TraineeStatus, threshold: real)
    requires ScoresInRange(weeks)
    ensures var final20 := ProgressiveGrade(weeks, status, threshold).final20;
      final20.Some? ==> 0.0 <= final20.value <= 20.0
  {
    GradedScoresInRange(weeks);
    var scores := GradedScores(weeks);
    if scores != [] {
      AverageInRange(scores);
      var x := Average(scores) / 100.0 * 20.0;
      ToFixed2Monotone(x, 20.0);
      assert (100.0 * 20.0 + 0.5).Floor == 2000;
    }
  }

  /**
   * Fed the same average, both routes show the same grade; for a whole threshold they disagree on the
   * outcome exactly when the average lies less than half a hundredth (on 20) under it, and then
   * the summary route passes what the other fails.
   */
  lemma RoutesDifferExactlyWhen(weeks: seq<Week>, threshold: nat)
    requires ScoresInRange(weeks) && GradedScores(weeks) != []
    ensures var scores := GradedScores(weeks);
      var x := Average(scores) / 100.0 * 20.0;
      var a := ProgressiveGrade(weeks, Enrolled, threshold as real);
      var b := GradeFromSummary(Some(Summary(|scores|, x)), Enrolled, threshold as real);
      && a.final20 == b.final20 && a.gradedCount == b.gradedCount
      && (a.outcome != b.outcome <==> threshold as real / 5.0 - 0.005 <= x < threshold as real / 5.0)
      && (a.outcome != b.outcome ==> a.outcome.LabelFailed? && b.outcome.LabelPassed?)
  {
    GradedScoresInRange(weeks);
    var avg := Average(GradedScores(weeks));
    AverageInRange(GradedScores(weeks));
    var x := avg / 100.0 * 20.0;
    assert x == avg / 5.0;
    ToFixed2Reaches(x, 20 * threshold);
    assert (20 * threshold) as real / 100.0 == threshold as real / 5.0 == threshold as real / 100.0 * 20.0;
  }

  // ---------- Derived fields ----------

  predicate Open(w: Week) {
    !w.status.Draft? && !w.status.LockedFuture? && !w.status.LockedDropped?
  }

  predicate HasSubmitted(weeks: seq<Week>) {
    exists i :: 0 <= i < |weeks| && Open(weeks[i])
  }

  function UnreadCount(weeks: seq<Week>): nat {
    if weeks == [] then 0
    else
      UnreadCount(weeks[1..]) +
      if Open(weeks[0]) && !weeks[0].status.Archived? && !weeks[0].readBySupervisor then 1 else 0
  }

  function DerivedGrade(t: Trainee, threshold: real): Grade {
    var grade := ProgressiveGrade(t.weeks, t.status, threshold);
    if t.status.Dropped? then grade.(outcome := LabelDropped)
    else if HasSubmitted(t.weeks) && grade.gradedCount == 0 then grade.(outcome := LabelInProgress)
    else grade
  }

  /** A week that counts towards the grade. */
  ghost predicate Counts(w: Week) {
    w.status == Graded && w.score != None
  }

  lemma {:induction false} ScoresAdd(weeks: seq<Week>, w: Week)
    ensures GradedScores([]) == []
    ensures GradedScores(weeks + [w]) == GradedScores(weeks) + if Counts(w) then [w.score.value] else []
  {
    if weeks == [] {
      assert [] + [w] == [w] && [w][1..] == [];
    } else {
      ScoresAdd(weeks[1..], w);
      assert (weeks + [w])[1..] == weeks[1..] + [w];
      var first := if Counts(weeks[0]) then [weeks[0].score.value] else [];
      Associate(first, GradedScores(weeks[1..]), if Counts(w) then [w.score.value] else []);
    }
  }

  lemma {:induction false} SumAdds(xs: seq<real>, x: real)
    ensures Sum([]) == 0.0 && Sum(xs + [x]) == Sum(xs) + x
  {
    if xs == [] {
      assert [] + [x] == [x] && [x][1..] == [];
    } else {
      SumAdds(xs[1..], x);
      assert (xs + [x])[1..] == xs[1..] + [x];
    }
  }

  lemma {:induction false} SomeCounts(weeks: seq<Week>)
    ensures GradedScores(weeks) != [] <==> exists i :: 0 <= i < |weeks| && Counts(weeks[i])
  {
    if weeks != [] {
      SomeCounts(weeks[1..]);
      assert forall i :: 0 < i < |weeks| ==> weeks[i] == weeks[1..][i - 1];
    }
  }

  /** Started as far as the trainee goes: neither a draft nor locked. */
  ghost predicate HandedIn(w: Week) {
    w.status !in {Draft, LockedFuture, LockedDropped}
  }

  /** The outcome shown: dropped, in progress or none yet, and once a week counts, by the mean of those that do. */
  lemma OutcomeShown(t: Trainee, threshold: real)
    ensures var g, scores := DerivedGrade(t, threshold), GradedScores(t.weeks);
      var graded := exists i :: 0 <= i < |t.weeks| && Counts(t.weeks[i]);
      var begun := exists i :: 0 <= i < |t.weeks| && HandedIn(t.weeks[i]);
      && (g.outcome == LabelDropped <==> t.status == Dropped)
      && (g.outcome == LabelInProgress <==> t.status != Dropped && begun && !graded)
      && (g.outcome == LabelNoGrade <==> t.status != Dropped && !begun && !graded)
      && (g.outcome == LabelPassed <==> t.status != Dropped && graded && Average(scores) >= threshold)
      && (g.outcome == LabelFailed <==> t.status != Dropped && graded && Average(scores) < threshold)
      && (g.final20 != None <==> t.status != Dropped && graded)
      && (g.final20 != None ==> g.final20.value == ToFixed2(Average(scores) / 5.0) && g.gradedCount == |scores|)
  {
    SomeCounts(t.weeks);
    assert forall i :: 0 <= i < |t.weeks| ==> (Open(t.weeks[i]) <==> HandedIn(t.weeks[i]));
    if GradedScores(t.weeks) != [] {
      var avg := Average(GradedScores(t.weeks));
      assert avg / 100.0 * 20.0 == avg / 5.0;
    }
  }

  /** A week is unread for the supervisor from when it is handed in until it is read or archived. */
  lemma {:induction false} UnreadAdds(weeks: seq<Week>, w: Week)
    ensures UnreadCount([]) == 0
    ensures UnreadCount(weeks + [w])
         == UnreadCount(weeks) + if HandedIn(w) && w.status != Archived && !w.readBySupervisor then 1 else 0
  {
    if weeks == [] {
      assert [] + [w] == [w] && [w][1..] == [];
    } else {
      UnreadAdds(weeks[1..], w);
      assert (weeks + [w])[1..] == weeks[1..] + [w];
    }
  }

  function WithDerived(t: Trainee, threshold: real): Trainee {
    t.(hasSubmitted := HasSubmitted(t.weeks), unreadCount := UnreadCount(t.weeks), grade := DerivedGrade(t, threshold))
  }

  // ---------- Masking ----------

  predicate IsAttachmentObserver(role: Option<UserRole>) {
    role == Some(MentorTeacher) || role == Some(SchoolPrincipal)
  }

  function MaskWeek(w: Week, role: Option<UserRole>): Week {
    if !IsAttachmentObserver(role) || w.canWatchOthers == Some(true) then w
    else if w.files == [] && w.filesHidden then w
    else w.(files := [], filesHidden := true)
  }

  function MaskWeeks(weeks: seq<Week>, role: Option<UserRole>): (masked: seq<Week>)
    ensures |masked| == |weeks|
  {
    if weeks == [] then [] else [MaskWeek(weeks[0], role)] + MaskWeeks(weeks[1..], role)
  }

  function MaskTrainee(t: Trainee, role: Option<UserRole>, threshold: real): Trainee {
    if !IsAttachmentObserver(role) then t
    else WithDerived(t.(weeks := MaskWeeks(t.weeks, role)), threshold)
  }

  /** Nothing but the files and their flag changes, and an observer without permission is left no file. */
  lemma {:induction false} MaskedWeeks(weeks: seq<Week>, role: Option<UserRole>)
    ensures forall i :: 0 <= i < |weeks| ==> var m := MaskWeeks(weeks, role)[i];
      && m.(files := weeks[i].files, filesHidden := weeks[i].filesHidden) == weeks[i]
      && (if role in {Some(MentorTeacher), Some(SchoolPrincipal)} && weeks[i].canWatchOthers != Some(true)
          then m.files == [] && m.filesHidden
          else m == weeks[i])
  {
    if weeks != [] {
      MaskedWeeks(weeks[1..], role);
    }
  }

  lemma {:induction false} MaskingTwice(weeks: seq<Week>, role: Option<UserRole>)
    ensures MaskWeeks(MaskWeeks(weeks, role), role) == MaskWeeks(weeks, role)
  {
    if weeks != [] {
      MaskingTwice(weeks[1..], role);
      assert MaskWeeks(weeks, role)[1..] == MaskWeeks(weeks[1..], role);
    }
  }

  lemma {:induction false} MaskingKeepsCounts(weeks: seq<Week>, role: Option<UserRole>)
    ensures GradedScores(MaskWeeks(weeks, role)) == GradedScores(weeks)
    ensures UnreadCount(MaskWeeks(weeks, role)) == UnreadCount(weeks)
  {
    if weeks != [] {
      MaskingKeepsCounts(weeks[1..], role);
      assert MaskWeeks(weeks, role)[1..] == MaskWeeks(weeks[1..], role);
    }
  }

  /** The derived fields are the same whether or not the files are hidden. */
  lemma MaskingKeepsDerived(t: Trainee, role: Option<UserRole>, threshold: real)
    ensures var m := t.(weeks := MaskWeeks(t.weeks, role));
      WithDerived(m, threshold) == WithDerived(t, threshold).(weeks := m.weeks)
  {
    MaskingKeepsCounts(t.weeks, role);
    MaskedWeeks(t.weeks, role);
    var masked := MaskWeeks(t.weeks, role);
    assert forall i :: 0 <= i < |t.weeks| ==> Open(masked[i]) == Open(t.weeks[i]);
  }

  lemma MaskIsIdempotent(t: Trainee, role: Option<UserRole>, threshold: real)
    ensures MaskTrainee(MaskTrainee(t, role, threshold), role, threshold) == MaskTrainee(t, role, threshold)
  {
    MaskingTwice(t.weeks, role);
  }

  /** Masking before or after deriving gives the same trainee. */
  lemma MaskCommutesWithDeriving(t: Trainee, role: Option<UserRole>, threshold: real)
    ensures MaskTrainee(WithDerived(t, threshold), role, threshold)
         == WithDerived(MaskTrainee(t, role, threshold), threshold)
    ensures IsAttachmentObserver(role) ==>
      MaskTrainee(t, role, threshold) == WithDerived(t, threshold).(weeks := MaskWeeks(t.weeks, role))
  {
    MaskingKeepsDerived(t, role, threshold);
  }
}
