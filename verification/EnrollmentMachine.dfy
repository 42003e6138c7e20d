/** Enrolments of the fake backend: student weeks, conversations and the messages that drive them. */
module EnrollmentMachine {
  import opened Common

  datatype Role = Student | Trainee | Mentor | Teacher | SchoolAdmin | OtherRole
  datatype User = User(id: nat, role: Role, school: Option<nat>)

  datatype WeekDef = WeekDef(id: nat, lesson: nat)
  datatype Capacity = Capacity(professor: nat, semester: nat, lesson: nat, places: nat)

  datatype EnrollmentStatus = Active | Completed | Cancelled
  datatype Enrollment = Enrollment(
    id: nat, student: nat, semester: nat, lesson: nat, school: Option<nat>, teacher: Option<nat>, professor: nat,
    status: EnrollmentStatus)

  datatype WeekStatus = Pending | InProgress | Submitted | Graded
  datatype MentorMark = NoMark | MarkSent | MarkScored
  datatype StudentWeek = StudentWeek(
    id: nat, enrollment: nat, week: nat, status: WeekStatus, score: Option<nat>,
    studentSent: bool, mentor: MentorMark, teacherSent: bool, adminSent: bool,
    startedAt: Option<nat>, submittedAt: Option<nat>, completedAt: Option<nat>)

  /** A conversation with no week is the general one. */
  datatype Conversation = Conversation(id: nat, enrollment: nat, week: Option<nat>, readStates: map<nat, nat>)

  datatype Content = Content(text: Option<string>, files: seq<nat>, rating: Option<nat>)
  datatype Message = Message(
    id: nat, conversation: nat, sender: nat, senderRole: Role, content: Content, sequence: nat)

  /** Each table lists its rows in the order they were set; `nextId` stands for the supply of new ids. */
  datatype State = State(
    weeks: seq<WeekDef>, capacities: seq<Capacity>, enrollments: seq<Enrollment>, studentWeeks: seq<StudentWeek>,
    conversations: seq<Conversation>, messages: seq<Message>, nextId: nat)

  // ---------- Queries ----------

  function WeeksOfLesson(weeks: seq<WeekDef>, lesson: nat): seq<WeekDef> {
    if weeks == [] then []
    else (if weeks[0].lesson == lesson then [weeks[0]] else []) + WeeksOfLesson(weeks[1..], lesson)
  }

  function MessagesIn(messages: seq<Message>, conversation: nat): seq<Message> {
    if messages == [] then []
    else
      var last := |messages| - 1;
      MessagesIn(messages[..last], conversation) +
      (if messages[last].conversation == conversation then [messages[last]] else [])
  }

  /** `sort((a, b) => a.sequence - b.sequence)`, which keeps the order of equals. */
  function InsertBySequence(m: Message, sorted: seq<Message>): (r: seq<Message>)
    ensures |r| == |sorted| + 1
  {
    if sorted == [] || m.sequence <= sorted[0].sequence then [m] + sorted
    else [sorted[0]] + InsertBySequence(m, sorted[1..])
  }

  function SortBySequence(ms: seq<Message>): (r: seq<Message>)
    ensures |r| == |ms|
  {
    if ms == [] then [] else InsertBySequence(ms[0], SortBySequence(ms[1..]))
  }

  function MessagesOf(s: State, conversation: nat): seq<Message> {
    SortBySequence(MessagesIn(s.messages, conversation))
  }

  /** The first student week of the enrolment for the week, or the length of the table. */
  function WeekRow(rows: seq<StudentWeek>, enrollment: nat, week: nat): (k: nat)
    ensures k <= |rows|
    ensures k < |rows| ==> rows[k].enrollment == enrollment && rows[k].week == week
    ensures forall i :: 0 <= i < k ==> rows[i].enrollment != enrollment || rows[i].week != week
  {
    if rows == [] || (rows[0].enrollment == enrollment && rows[0].week == week) then 0
    else 1 + WeekRow(rows[1..], enrollment, week)
  }

  function ConversationRow(rows: seq<Conversation>, id: nat): (k: nat)
    ensures k <= |rows|
    ensures k < |rows| ==> rows[k].id == id
  {
    if rows == [] || rows[0].id == id then 0 else 1 + ConversationRow(rows[1..], id)
  }

  function EnrollmentRow(rows: seq<Enrollment>, id: nat): (k: nat)
    ensures k <= |rows|
    ensures k < |rows| ==> rows[k].id == id
  {
    if rows == [] || rows[0].id == id then 0 else 1 + EnrollmentRow(rows[1..], id)
  }

  function StudentWeekRow(rows: seq<StudentWeek>, id: nat): (k: nat)
    ensures k <= |rows|
    ensures k < |rows| ==> rows[k].id == id
  {
    if rows == [] || rows[0].id == id then 0 else 1 + StudentWeekRow(rows[1..], id)
  }

  // ---------- Enrolling ----------

  datatype Choice = Choice(semester: nat, lesson: nat, professor: nat, school: Option<nat>, teacher: Option<nat>)

  function BlankWeek(id: nat, enrollment: nat, week: nat): StudentWeek {
    StudentWeek(id, enrollment, week, Pending, None, false, NoMark, false, false, None, None, None)
  }

  function NewStudentWeeks(defs: seq<WeekDef>, enrollment: nat, firstId: nat): (rows: seq<StudentWeek>)
    ensures |rows| == |defs|
  {
    seq(|defs|, i requires 0 <= i < |defs| => BlankWeek(firstId + i, enrollment, defs[i].id))
  }

  function NewConversations(defs: seq<WeekDef>, enrollment: nat, firstId: nat): (rows: seq<Conversation>)
    ensures |rows| == |defs| + 1
  {
    [Conversation(firstId, enrollment, None, map[])] +
    seq(|defs|, i requires 0 <= i < |defs| => Conversation(firstId + 1 + i, enrollment, Some(defs[i].id), map[]))
  }

  function NewEnrollment(s: State, student: nat, c: Choice): Enrollment {
    Enrollment(s.nextId, student, c.semester, c.lesson, c.school, c.teacher, c.professor, Active)
  }

  function CreateRecords(s: State, student: nat, c: Choice): State {
    var defs := WeeksOfLesson(s.weeks, c.lesson);
    s.(enrollments := s.enrollments + [NewEnrollment(s, student, c)],
       studentWeeks := s.studentWeeks + NewStudentWeeks(defs, s.nextId, s.nextId + 1),
       conversations := s.conversations + NewConversations(defs, s.nextId, s.nextId + 1 + |defs|),
       nextId := s.nextId + 2 + 2 * |defs|)
  }

  // ---------- Messages ----------

  function ApplyWeekState(w: StudentWeek, role: Role, now: nat): StudentWeek {
    if w.status.Graded? then w
    else
      match role
      case Student => Sent(w, now)
      case Trainee => Sent(w, now)
      case Mentor => w.(mentor := MarkSent, status := InProgress)
      case Teacher => w.(teacherSent := true)
      case SchoolAdmin => w.(adminSent := true)
      case OtherRole => w
  }

  function Sent(w: StudentWeek, now: nat): StudentWeek {
    w.(studentSent := true, mentor := NoMark, status := Submitted,
       startedAt := if w.startedAt.Some? then w.startedAt else Some(now), submittedAt := Some(now))
  }

  function AfterMessage(rows: seq<StudentWeek>, c: Conversation, role: Role, now: nat): (r: seq<StudentWeek>)
    ensures |r| == |rows|
  {
    if c.week.None? then rows
    else
      var k := WeekRow(rows, c.enrollment, c.week.value);
      if k == |rows| then rows else rows[k := ApplyWeekState(rows[k], role, now)]
  }

  function Append(s: State, k: nat, sender: User, content: Content, now: nat): State
    requires k < |s.conversations|
  {
    var c := s.conversations[k];
    var sequence := |MessagesOf(s, c.id)| + 1;
    s.(messages := s.messages + [Message(s.nextId, c.id, sender.id, sender.role, content, sequence)],
       conversations := s.conversations[k := c.(readStates := c.readStates[sender.id := sequence])],
       studentWeeks := AfterMessage(s.studentWeeks, c, sender.role, now),
       nextId := s.nextId + 1)
  }

  function LastSequence(ms: seq<Message>): nat {
    if ms == [] then 0 else ms[|ms| - 1].sequence
  }

  function MarkRead(s: State, k: nat, reader: nat): State
    requires k < |s.conversations|
  {
    var c := s.conversations[k];
    s.(conversations := s.conversations[k :=
      c.(readStates := c.readStates[reader := LastSequence(MessagesOf(s, c.id))])])
  }

  // ---------- What every run keeps ----------

  ghost predicate NumberedFrom1(ms: seq<Message>) {
    forall k :: 0 <= k < |ms| ==> ms[k].sequence == k + 1
  }

  ghost predicate ConversationSound(messages: seq<Message>, c: Conversation) {
    && NumberedFrom1(MessagesIn(messages, c.id))
    && forall u :: u in c.readStates ==> c.readStates[u] <= |MessagesIn(messages, c.id)|
  }

  ghost predicate ConversationsSound(s: State) {
    forall i :: 0 <= i < |s.conversations| ==> ConversationSound(s.messages, s.conversations[i])
  }

  /** Ids in use are below the next one. */
  ghost predicate Bounded(s: State) {
    && (forall i :: 0 <= i < |s.enrollments| ==> s.enrollments[i].id < s.nextId)
    && (forall i :: 0 <= i < |s.conversations| ==>
      s.conversations[i].id < s.nextId && s.conversations[i].enrollment < s.nextId)
    && (forall i :: 0 <= i < |s.studentWeeks| ==>
      s.studentWeeks[i].id < s.nextId && s.studentWeeks[i].enrollment < s.nextId)
    && forall i :: 0 <= i < |s.messages| ==> s.messages[i].conversation < s.nextId
  }

  ghost predicate DistinctConversations(s: State) {
    forall i, j :: 0 <= i < j < |s.conversations| ==> s.conversations[i].id != s.conversations[j].id
  }

  ghost predicate DistinctWeeks(weeks: seq<WeekDef>) {
    forall i, j :: 0 <= i < j < |weeks| ==> weeks[i].id != weeks[j].id
  }

  /** An enrolment has at most one student week for a week. */
  ghost predicate OneRowPerWeek(rows: seq<StudentWeek>) {
    forall i, j :: 0 <= i < j < |rows| ==> rows[i].enrollment != rows[j].enrollment || rows[i].week != rows[j].week
  }

  ghost predicate Inv(s: State) {
    && Bounded(s) && ConversationsSound(s) && DistinctConversations(s)
    && DistinctWeeks(s.weeks) && OneRowPerWeek(s.studentWeeks)
  }

  lemma {:induction false} SortOfNumbered(ms: seq<Message>, first: nat)
    requires forall k :: 0 <= k < |ms| ==> ms[k].sequence == first + k
    ensures SortBySequence(ms) == ms
  {
    if ms != [] {
      SortOfNumbered(ms[1..], first + 1);
      assert [ms[0]] + ms[1..] == ms;
    }
  }

  /** In every state the runs reach, sorting a conversation's messages changes nothing. */
  lemma SortIsIdentity(s: State, k: nat)
    requires Inv(s) && k < |s.conversations|
    ensures MessagesOf(s, s.conversations[k].id) == MessagesIn(s.messages, s.conversations[k].id)
    ensures NumberedFrom1(MessagesOf(s, s.conversations[k].id))
  {
    assert ConversationSound(s.messages, s.conversations[k]);
    SortOfNumbered(MessagesIn(s.messages, s.conversations[k].id), 1);
  }

  lemma MessagesAfterOneMore(messages: seq<Message>, m: Message, conversation: nat)
    ensures MessagesIn(messages + [m], conversation)
         == MessagesIn(messages, conversation) + (if m.conversation == conversation then [m] else [])
  {
    assert (messages + [m])[..|messages|] == messages;
  }

  lemma AppendKeepsConversations(s: State, k: nat, sender: User, content: Content, now: nat)
    requires Inv(s) && k < |s.conversations|
    ensures ConversationsSound(Append(s, k, sender, content, now))
    ensures DistinctConversations(Append(s, k, sender, content, now))
  {
    var t := Append(s, k, sender, content, now);
    var m := t.messages[|s.messages|];
    SortIsIdentity(s, k);
    forall i | 0 <= i < |t.conversations| ensures ConversationSound(t.messages, t.conversations[i]) {
      assert ConversationSound(s.messages, s.conversations[i]);
      MessagesAfterOneMore(s.messages, m, t.conversations[i].id);
    }
  }

  lemma AfterMessageKeepsRows(rows: seq<StudentWeek>, c: Conversation, role: Role, now: nat)
    ensures forall i :: 0 <= i < |rows| ==> var r := AfterMessage(rows, c, role, now);
      r[i].id == rows[i].id && r[i].enrollment == rows[i].enrollment && r[i].week == rows[i].week
  {
  }

  lemma AppendKeepsInv(s: State, k: nat, sender: User, content: Content, now: nat)
    requires Inv(s) && k < |s.conversations|
    ensures Inv(Append(s, k, sender, content, now))
  {
    AppendKeepsConversations(s, k, sender, content, now);
    AfterMessageKeepsRows(s.studentWeeks, s.conversations[k], sender.role, now);
  }

  lemma MarkReadKeepsInv(s: State, k: nat, reader: nat)
    requires Inv(s) && k < |s.conversations|
    ensures Inv(MarkRead(s, k, reader))
  {
    SortIsIdentity(s, k);
    var t := MarkRead(s, k, reader);
    forall i | 0 <= i < |t.conversations| ensures ConversationSound(t.messages, t.conversations[i]) {
      assert ConversationSound(s.messages, s.conversations[i]);
    }
  }

  lemma {:induction false} WeeksOfLessonSpec(weeks: seq<WeekDef>, lesson: nat)
    ensures forall w :: w in WeeksOfLesson(weeks, lesson) <==> w in weeks && w.lesson == lesson
    ensures DistinctWeeks(weeks) ==> DistinctWeeks(WeeksOfLesson(weeks, lesson))
  {
    if weeks != [] {
      WeeksOfLessonSpec(weeks[1..], lesson);
      if DistinctWeeks(weeks) {
        var rest := WeeksOfLesson(weeks[1..], lesson);
        forall j | 0 <= j < |rest| ensures rest[j].id != weeks[0].id {
          assert rest[j] in rest;
          var i :| 0 <= i < |weeks[1..]| && weeks[1..][i] == rest[j];
          assert weeks[i + 1] == rest[j];
        }
      }
    }
  }

  lemma {:induction false} NoMessagesYet(messages: seq<Message>, conversation: nat)
    requires forall i :: 0 <= i < |messages| ==> messages[i].conversation != conversation
    ensures MessagesIn(messages, conversation) == []
  {
    if messages != [] {
      NoMessagesYet(messages[..|messages| - 1], conversation);
    }
  }

  lemma CreateKeepsConversations(s: State, student: nat, c: Choice)
    requires Inv(s)
    ensures ConversationsSound(CreateRecords(s, student, c)) && DistinctConversations(CreateRecords(s, student, c))
  {
    var t := CreateRecords(s, student, c);
    var n := |s.conversations|;
    var defs := WeeksOfLesson(s.weeks, c.lesson);
    var added := NewConversations(defs, s.nextId, s.nextId + 1 + |defs|);
    assert forall i :: 0 <= i < |added| ==> added[i].id == s.nextId + 1 + |defs| + i && added[i].readStates == map[];
    forall i | 0 <= i < |t.conversations| ensures ConversationSound(t.messages, t.conversations[i]) {
      if i < n {
        assert ConversationSound(s.messages, s.conversations[i]);
      } else {
        assert t.conversations[i] == added[i - n];
        NoMessagesYet(s.messages, t.conversations[i].id);
      }
    }
  }

  lemma CreateKeepsRows(s: State, student: nat, c: Choice)
    requires Inv(s)
    ensures OneRowPerWeek(CreateRecords(s, student, c).studentWeeks)
  {
    WeeksOfLessonSpec(s.weeks, c.lesson);
  }

  lemma CreateKeepsInv(s: State, student: nat, c: Choice)
    requires Inv(s)
    ensures Inv(CreateRecords(s, student, c))
  {
    CreateKeepsConversations(s, student, c);
    CreateKeepsRows(s, student, c);
  }

  ghost predicate Touched(s: State, t: State, j: nat)
    requires j < |s.studentWeeks| && |t.studentWeeks| == |s.studentWeeks|
  {
    t.studentWeeks[j] != s.studentWeeks[j]
  }

  /**
   * What a message of the role does to its week: a student's hands it in (again, if the mentor had
   * answered), a mentor's sends it back, a teacher's or school admin's only ticks their own box.
   */
  ghost predicate Moved(before: StudentWeek, after: StudentWeek, role: Role, now: nat) {
    var handsIn := role == Student || role == Trainee;
    && after.id == before.id && after.enrollment == before.enrollment && after.week == before.week
    && after.score == before.score && after.completedAt == before.completedAt
    && after.status == (if handsIn then Submitted else if role == Mentor then InProgress else before.status)
    && after.mentor == (if handsIn then NoMark else if role == Mentor then MarkSent else before.mentor)
    && after.studentSent == (before.studentSent || handsIn)
    && after.teacherSent == (before.teacherSent || role == Teacher)
    && after.adminSent == (before.adminSent || role == SchoolAdmin)
    && after.submittedAt == (if handsIn then Some(now) else before.submittedAt)
    && after.startedAt == (if handsIn && before.startedAt == None then Some(now) else before.startedAt)
  }

  lemma OwnWeekMoves(rows: seq<StudentWeek>, c: Conversation, role: Role, now: nat, j: nat)
    requires OneRowPerWeek(rows) && j < |rows|
    ensures var before, after := rows[j], AfterMessage(rows, c, role, now)[j];
      var own := c.week == Some(before.week) && c.enrollment == before.enrollment;
      if own && before.status != Graded then Moved(before, after, role, now) else after == before
  {
    if c.week.Some? {
      var row := WeekRow(rows, c.enrollment, c.week.value);
      if row < |rows| && row != j {
        assert rows[Min(row, j)].enrollment != rows[Max(row, j)].enrollment
            || rows[Min(row, j)].week != rows[Max(row, j)].week;
      }
    }
  }

  /** Every student week after a message: its conversation's own moves unless graded, the others stay. */
  lemma MessageMovesItsWeek(s: State, k: nat, sender: User, content: Content, now: nat, j: nat)
    requires Inv(s) && k < |s.conversations| && j < |s.studentWeeks|
    ensures var before, after := s.studentWeeks[j], Append(s, k, sender, content, now).studentWeeks[j];
      var own := s.conversations[k].week == Some(before.week) && s.conversations[k].enrollment == before.enrollment;
      if own && before.status != Graded then Moved(before, after, sender.role, now) else after == before
  {
    OwnWeekMoves(s.studentWeeks, s.conversations[k], sender.role, now, j);
  }

  /** A message changes at most one student week: its conversation's own, and never a graded one. */
  lemma MessageTouchesOneWeek(s: State, k: nat, sender: User, content: Content, now: nat, j: nat)
    requires Inv(s) && k < |s.conversations| && j < |s.studentWeeks|
    requires Touched(s, Append(s, k, sender, content, now), j)
    ensures var before, after := s.studentWeeks[j], Append(s, k, sender, content, now).studentWeeks[j];
      var c := s.conversations[k];
      && c.week == Some(before.week) && before.enrollment == c.enrollment
      && !before.status.Graded? && !after.status.Graded?
      && Moved(before, after, sender.role, now)
      && (before.startedAt.Some? ==> after.startedAt == before.startedAt)
    ensures forall i :: 0 <= i < |s.studentWeeks| && i != j ==> !Touched(s, Append(s, k, sender, content, now), i)
  {
  }

  // ---------- Requests ----------

  datatype Structure = Termly | Modular
  datatype Semester = Semester(structure: Structure, courseSelection: bool)
  datatype Lesson = Lesson(semester: nat, offered: bool)

  /** The tables the enrolment handlers only look up. */
  datatype Directory = Directory(
    users: map<nat, User>, semesters: map<nat, Semester>, lessons: map<nat, Lesson>, schools: set<nat>,
    confirmedFiles: set<nat>)

  function StructureOf(user: User): Structure {
    if user.role.Trainee? then Modular else Termly
  }

  function TotalPlaces(rows: seq<Capacity>, professor: nat, semester: nat, lesson: nat): nat {
    if rows == [] then 0
    else
      TotalPlaces(rows[1..], professor, semester, lesson) +
      if rows[0].professor == professor && rows[0].semester == semester && rows[0].lesson == lesson
      then rows[0].places else 0
  }

  predicate Takes(e: Enrollment, professor: nat, semester: nat, lesson: nat) {
    e.status.Active? && e.professor == professor && e.semester == semester && e.lesson == lesson
  }

  function Used(rows: seq<Enrollment>, professor: nat, semester: nat, lesson: nat): nat {
    if rows == [] then 0
    else
      var last := |rows| - 1;
      Used(rows[..last], professor, semester, lesson) + if Takes(rows[last], professor, semester, lesson) then 1 else 0
  }

  /** May go below zero when places are withdrawn. */
  function Remaining(s: State, professor: nat, semester: nat, lesson: nat): int {
    TotalPlaces(s.capacities, professor, semester, lesson) - Used(s.enrollments, professor, semester, lesson)
  }

  predicate Blocked(s: State, student: nat, lesson: nat) {
    exists i :: 0 <= i < |s.enrollments| && s.enrollments[i].student == student
      && s.enrollments[i].lesson == lesson && !s.enrollments[i].status.Cancelled?
  }

  /** The HTTP status of `POST /student-enrollments`; only 204 creates anything. */
  function EnrolStatus(d: Directory, s: State, user: User, c: Choice): nat {
    if !user.role.Student? && !user.role.Trainee? then 403
    else if c.semester !in d.semesters then 404
    else if !d.semesters[c.semester].courseSelection then 400
    else if d.semesters[c.semester].structure != StructureOf(user) then 400
    else if || c.lesson !in d.lessons || d.lessons[c.lesson].semester != c.semester
            || !d.lessons[c.lesson].offered then 400
    else if Blocked(s, user.id, c.lesson) then 400
    else if c.professor !in d.users || !d.users[c.professor].role.Mentor? then 404
    else if Remaining(s, c.professor, c.semester, c.lesson) <= 0 then 400
    else if c.school.Some? && c.school.value !in d.schools then 404
    else if c.teacher.Some? && (c.teacher.value !in d.users || !d.users[c.teacher.value].role.Teacher?) then 404
    else if c.teacher.Some? && c.school.Some? && d.users[c.teacher.value].school != c.school then 400
    else 204
  }

  predicate CanAccess(user: User, e: Enrollment) {
    || user.id == e.student || user.id == e.professor || e.teacher == Some(user.id)
    || (user.role.SchoolAdmin? && e.school.Some? && user.school == e.school)
  }

  function LoadStatus(s: State, user: User, conversation: nat): nat {
    var k := ConversationRow(s.conversations, conversation);
    if k == |s.conversations| then 404
    else
      var e := EnrollmentRow(s.enrollments, s.conversations[k].enrollment);
      if e == |s.enrollments| then 404
      else if !CanAccess(user, s.enrollments[e]) then 403
      else 200
  }

  function Cleaned(c: Content): Content {
    c.(text := if c.text.Some? && Trim(c.text.value) != "" then Some(Trim(c.text.value)) else None)
  }

  function PostStatus(d: Directory, s: State, user: User, conversation: nat, c: Content): nat {
    if LoadStatus(s, user, conversation) != 200 then LoadStatus(s, user, conversation)
    else
      var e := EnrollmentRow(s.enrollments, s.conversations[ConversationRow(s.conversations, conversation)].enrollment);
      if s.enrollments[e].status.Cancelled? then 400
      else if Cleaned(c).text.None? && c.files == [] && c.rating.None? then 422
      else if c.rating.Some? && !user.role.Teacher? && !user.role.SchoolAdmin? then 403
      else if c.rating.Some? && !(1 <= c.rating.value <= 5) then 422
      else if exists f :: f in c.files && f !in d.confirmedFiles then 422
      else 201
  }

  function ScoreStatus(s: State, user: User, studentWeek: nat, score: int): nat {
    var k := StudentWeekRow(s.studentWeeks, studentWeek);
    if k == |s.studentWeeks| then 404
    else
      var e := EnrollmentRow(s.enrollments, s.studentWeeks[k].enrollment);
      if e == |s.enrollments| then 404
      else if !CanAccess(user, s.enrollments[e]) || !user.role.Mentor? || s.enrollments[e].professor != user.id then 403
      else if s.enrollments[e].status.Cancelled? then 400
      else if score < 0 || score > 100 then 422
      else 200
  }

  function WithScore(w: StudentWeek, score: nat, now: nat): StudentWeek {
    w.(status := Graded, score := Some(score), mentor := MarkScored, completedAt := Some(now))
  }

  function CancelStatus(s: State, user: User, enrollment: nat): nat {
    var e := EnrollmentRow(s.enrollments, enrollment);
    if e == |s.enrollments| then 404
    else if s.enrollments[e].student != user.id && s.enrollments[e].professor != user.id then 403
    else if s.enrollments[e].status.Cancelled? then 400
    else 200
  }

  // ---------- What a request needs to go through ----------

  predicate MayEnrol(d: Directory, s: State, user: User, c: Choice) {
    && (user.role.Student? || user.role.Trainee?)
    && c.semester in d.semesters && d.semesters[c.semester].courseSelection
    && d.semesters[c.semester].structure == (match user.role case Student => Termly case _ => Modular)
    && c.lesson in d.lessons && d.lessons[c.lesson] == Lesson(c.semester, true)
    && (forall e :: e in s.enrollments && e.student == user.id && e.lesson == c.lesson ==> e.status == Cancelled)
    && c.professor in d.users && d.users[c.professor].role.Mentor?
    && Remaining(s, c.professor, c.semester, c.lesson) > 0
    && (c.school.Some? ==> c.school.value in d.schools)
    && (c.teacher.Some? ==> c.teacher.value in d.users && d.users[c.teacher.value].role.Teacher?)
    && (c.teacher.Some? && c.school.Some? ==> d.users[c.teacher.value].school == c.school)
  }

  /** The user takes part in the enrolment that the conversation belongs to. */
  predicate MayRead(s: State, user: User, conversation: nat) {
    var k := ConversationRow(s.conversations, conversation);
    k < |s.conversations| &&
    var e := EnrollmentRow(s.enrollments, s.conversations[k].enrollment);
    e < |s.enrollments| &&
    var own := s.enrollments[e];
    || user.id in {own.student, own.professor}
    || (own.teacher != None && own.teacher.value == user.id)
    || (user.role == SchoolAdmin && own.school != None && user.school != None && own.school.value == user.school.value)
  }

  predicate MayPost(d: Directory, s: State, user: User, conversation: nat, c: Content) {
    && MayRead(s, user, conversation)
    && (var k := ConversationRow(s.conversations, conversation);
        !s.enrollments[EnrollmentRow(s.enrollments, s.conversations[k].enrollment)].status.Cancelled?)
    && ((c.text.Some? && |Trim(c.text.value)| > 0) || |c.files| > 0 || c.rating.Some?)
    && (c.rating.Some? ==> (user.role.Teacher? || user.role.SchoolAdmin?) && 1 <= c.rating.value <= 5)
    && forall f :: f in c.files ==> f in d.confirmedFiles
  }

  predicate MayScore(s: State, user: User, studentWeek: nat, score: int) {
    var k := StudentWeekRow(s.studentWeeks, studentWeek);
    k < |s.studentWeeks| && user.role.Mentor? && 0 <= score <= 100 &&
    var e := EnrollmentRow(s.enrollments, s.studentWeeks[k].enrollment);
    e < |s.enrollments| && s.enrollments[e].professor == user.id && !s.enrollments[e].status.Cancelled?
  }

  predicate MayCancel(s: State, user: User, enrollment: nat) {
    var e := EnrollmentRow(s.enrollments, enrollment);
    e < |s.enrollments| && !s.enrollments[e].status.Cancelled?
      && (s.enrollments[e].student == user.id || s.enrollments[e].professor == user.id)
  }

  /** The messages of others above the viewer's read mark. */
  function Unread(ms: seq<Message>, viewer: nat, mark: nat): nat {
    if ms == [] then 0
    else Unread(ms[1..], viewer, mark) + if ms[0].sequence > mark && ms[0].sender != viewer then 1 else 0
  }

  function UnreadCount(s: State, k: nat, viewer: nat): nat
    requires k < |s.conversations|
  {
    var c := s.conversations[k];
    Unread(MessagesOf(s, c.id), viewer, if viewer in c.readStates then c.readStates[viewer] else 0)
  }

  lemma {:induction false} NoneUnread(ms: seq<Message>, viewer: nat, mark: nat)
    requires forall i :: 0 <= i < |ms| ==> ms[i].sequence <= mark
    ensures Unread(ms, viewer, mark) == 0
  {
    if ms != [] {
      NoneUnread(ms[1..], viewer, mark);
    }
  }

  /** After marking as read the reader has nothing unread. */
  lemma MarkReadClears(s: State, k: nat, reader: nat)
    requires Inv(s) && k < |s.conversations|
    ensures UnreadCount(MarkRead(s, k, reader), k, reader) == 0
  {
    SortIsIdentity(s, k);
    NoneUnread(MessagesOf(s, s.conversations[k].id), reader, LastSequence(MessagesOf(s, s.conversations[k].id)));
  }

  /** A message goes to the end of its conversation under the next number, and its sender has nothing unread. */
  lemma AppendGoesLast(s: State, k: nat, sender: User, content: Content, now: nat)
    requires Inv(s) && k < |s.conversations|
    ensures var id := s.conversations[k].id; var t := Append(s, k, sender, content, now);
      var n := |MessagesIn(s.messages, id)|;
      && MessagesIn(t.messages, id)
         == MessagesIn(s.messages, id) + [Message(s.nextId, id, sender.id, sender.role, content, n + 1)]
      && UnreadCount(t, k, sender.id) == 0
    ensures forall i :: 0 <= i < |s.conversations| && i != k ==>
      MessagesIn(Append(s, k, sender, content, now).messages, s.conversations[i].id)
        == MessagesIn(s.messages, s.conversations[i].id)
  {
    var t, id := Append(s, k, sender, content, now), s.conversations[k].id;
    var m := t.messages[|s.messages|];
    SortIsIdentity(s, k);
    MessagesAfterOneMore(s.messages, m, id);
    AppendKeepsInv(s, k, sender, content, now);
    SortIsIdentity(t, k);
    NoneUnread(MessagesOf(t, id), sender.id, |MessagesIn(s.messages, id)| + 1);
    forall i | 0 <= i < |s.conversations| && i != k
      ensures MessagesIn(t.messages, s.conversations[i].id) == MessagesIn(s.messages, s.conversations[i].id)
    {
      MessagesAfterOneMore(s.messages, m, s.conversations[i].id);
      assert s.conversations[Min(i, k)].id != s.conversations[Max(i, k)].id;
    }
  }

  lemma {:induction false} UnreadWithOneMore(ms: seq<Message>, m: Message, viewer: nat, mark: nat)
    ensures Unread(ms + [m], viewer, mark)
         == Unread(ms, viewer, mark) + if m.sequence > mark && m.sender != viewer then 1 else 0
  {
    if ms != [] {
      UnreadWithOneMore(ms[1..], m, viewer, mark);
      assert (ms + [m])[1..] == ms[1..] + [m];
    }
  }

  /** For everyone but its sender a message is one more unread, whoever has read what before. */
  lemma OneMoreUnread(s: State, k: nat, sender: User, content: Content, now: nat, viewer: nat)
    requires Inv(s) && k < |s.conversations| && viewer != sender.id
    ensures UnreadCount(Append(s, k, sender, content, now), k, viewer) == UnreadCount(s, k, viewer) + 1
  {
    var t, c := Append(s, k, sender, content, now), s.conversations[k];
    assert ConversationSound(s.messages, c);
    AppendGoesLast(s, k, sender, content, now);
    AppendKeepsInv(s, k, sender, content, now);
    SortIsIdentity(s, k);
    SortIsIdentity(t, k);
    var m := MessagesIn(t.messages, c.id)[|MessagesIn(s.messages, c.id)|];
    var mark := if viewer in c.readStates then c.readStates[viewer] else 0;
    UnreadWithOneMore(MessagesIn(s.messages, c.id), m, viewer, mark);
  }

  /** Reading moves the reader's own mark only: what the others have unread stays. */
  lemma ReadingIsOnesOwn(s: State, k: nat, reader: nat, viewer: nat, other: nat)
    requires k < |s.conversations| && other < |s.conversations| && (viewer != reader || other != k)
    ensures UnreadCount(MarkRead(s, k, reader), other, viewer) == UnreadCount(s, other, viewer)
  {
  }

  datatype Event =
    | Enrol(d: Directory, user: User, choice: Choice)
    | Post(d: Directory, user: User, conversation: nat, content: Content, now: nat)
    | Read(user: User, conversation: nat)
    | Score(user: User, studentWeek: nat, score: int, now: nat)
    | Cancel(user: User, enrollment: nat)
    | WeeksSet(weeks: seq<WeekDef>)
    | CapacitiesSet(capacities: seq<Capacity>)

  function Next(s: State, ev: Event): State {
    match ev
    case Enrol(d, user, choice) =>
      if EnrolStatus(d, s, user, choice) == 204 then CreateRecords(s, user.id, choice) else s
    case Post(d, user, conversation, content, now) =>
      if PostStatus(d, s, user, conversation, content) == 201
      then Append(s, ConversationRow(s.conversations, conversation), user, Cleaned(content), now) else s
    case Read(user, conversation) =>
      if LoadStatus(s, user, conversation) == 200
      then MarkRead(s, ConversationRow(s.conversations, conversation), user.id) else s
    case Score(user, studentWeek, score, now) =>
      if ScoreStatus(s, user, studentWeek, score) == 200
      then
        var k := StudentWeekRow(s.studentWeeks, studentWeek);
        s.(studentWeeks := s.studentWeeks[k := WithScore(s.studentWeeks[k], score, now)])
      else s
    case Cancel(user, enrollment) =>
      if CancelStatus(s, user, enrollment) == 200
      then
        var e := EnrollmentRow(s.enrollments, enrollment);
        s.(enrollments := s.enrollments[e := s.enrollments[e].(status := Cancelled)])
      else s
    case WeeksSet(weeks) => s.(weeks := weeks)
    case CapacitiesSet(capacities) => s.(capacities := capacities)
  }

  /** Week definitions are kept in a map, so no two share an id. */
  ghost predicate Proper(ev: Event) {
    ev.WeeksSet? ==> DistinctWeeks(ev.weeks)
  }

  ghost predicate AllProper(es: seq<Event>) {
    forall i :: 0 <= i < |es| ==> Proper(es[i])
  }

  function Run(init: State, es: seq<Event>): State {
    if es == [] then init else Next(Run(init, es[..|es| - 1]), es[|es| - 1])
  }

  lemma StepKeepsInv(s: State, ev: Event)
    requires Inv(s) && Proper(ev)
    ensures Inv(Next(s, ev)) && s.nextId <= Next(s, ev).nextId
  {
    match ev
    case Enrol(d, user, choice) => CreateKeepsInv(s, user.id, choice);
    case Post(d, user, conversation, content, now) =>
      if PostStatus(d, s, user, conversation, content) == 201 {
        AppendKeepsInv(s, ConversationRow(s.conversations, conversation), user, Cleaned(content), now);
      }
    case Read(user, conversation) =>
      if LoadStatus(s, user, conversation) == 200 {
        MarkReadKeepsInv(s, ConversationRow(s.conversations, conversation), user.id);
      }
    case Score(user, studentWeek, score, now) => ScoreKeepsInv(s, user, studentWeek, score, now);
    case Cancel(user, enrollment) => CancelKeepsInv(s, user, enrollment);
    case WeeksSet(_) =>
    case CapacitiesSet(_) =>
  }

  lemma ScoreKeepsInv(s: State, user: User, studentWeek: nat, score: int, now: nat)
    requires Inv(s)
    ensures Inv(Next(s, Score(user, studentWeek, score, now)))
    ensures Next(s, Score(user, studentWeek, score, now)).nextId == s.nextId
  {
  }

  lemma CancelKeepsInv(s: State, user: User, enrollment: nat)
    requires Inv(s)
    ensures Inv(Next(s, Cancel(user, enrollment))) && Next(s, Cancel(user, enrollment)).nextId == s.nextId
  {
  }

  lemma {:induction false} RunKeepsInv(init: State, es: seq<Event>)
    requires Inv(init) && AllProper(es)
    ensures Inv(Run(init, es))
  {
    if es != [] {
      RunKeepsInv(init, es[..|es| - 1]);
      StepKeepsInv(Run(init, es[..|es| - 1]), es[|es| - 1]);
    }
  }

  // ---------- Each enrolment keeps the weeks it was created with ----------

  /** Which week of which enrolment a row is for; None is the general conversation. */
  datatype Slot = Slot(enrollment: nat, week: Option<nat>)

  function WeekSlots(rows: seq<StudentWeek>): (slots: seq<Slot>)
    ensures |slots| == |rows|
  {
    seq(|rows|, i requires 0 <= i < |rows| => Slot(rows[i].enrollment, Some(rows[i].week)))
  }

  function TalkSlots(rows: seq<Conversation>): (slots: seq<Slot>)
    ensures |slots| == |rows|
  {
    seq(|rows|, i requires 0 <= i < |rows| => Slot(rows[i].enrollment, rows[i].week))
  }

  /** The weeks of one enrolment's slots, in order. */
  function SlotsOf(slots: seq<Slot>, enrollment: nat): seq<Option<nat>> {
    if slots == [] then []
    else
      var last := |slots| - 1;
      SlotsOf(slots[..last], enrollment) + (if slots[last].enrollment == enrollment then [slots[last].week] else [])
  }

  function SomeIds(defs: seq<WeekDef>): (ids: seq<Option<nat>>)
    ensures |ids| == |defs|
  {
    seq(|defs|, i requires 0 <= i < |defs| => Some(defs[i].id))
  }

  lemma {:induction false} OwnSlotsAdd(before: seq<Slot>, added: seq<Slot>, enrollment: nat, ids: seq<Option<nat>>)
    requires |ids| == |added| && forall i :: 0 <= i < |added| ==> added[i] == Slot(enrollment, ids[i])
    ensures SlotsOf(before + added, enrollment) == SlotsOf(before, enrollment) + ids
  {
    if added == [] {
      assert before + added == before;
    } else {
      var last := |added| - 1;
      assert (before + added)[..|before + added| - 1] == before + added[..last];
      OwnSlotsAdd(before, added[..last], enrollment, ids[..last]);
      assert ids == ids[..last] + [ids[last]];
    }
  }

  lemma {:induction false} OtherSlotsDoNot(before: seq<Slot>, added: seq<Slot>, enrollment: nat)
    requires forall i :: 0 <= i < |added| ==> added[i].enrollment != enrollment
    ensures SlotsOf(before + added, enrollment) == SlotsOf(before, enrollment)
  {
    if added == [] {
      assert before + added == before;
    } else {
      assert (before + added)[..|before + added| - 1] == before + added[..|added| - 1];
      OtherSlotsDoNot(before, added[..|added| - 1], enrollment);
    }
  }

  lemma NewSlots(before: seq<Slot>, added: seq<Slot>, enrollment: nat, ids: seq<Option<nat>>)
    requires forall i :: 0 <= i < |before| ==> before[i].enrollment != enrollment
    requires |ids| == |added| && forall i :: 0 <= i < |added| ==> added[i] == Slot(enrollment, ids[i])
    ensures SlotsOf(before + added, enrollment) == ids
  {
    OtherSlotsDoNot([], before, enrollment);
    assert [] + before == before;
    OwnSlotsAdd(before, added, enrollment, ids);
  }

  /** The enrolment has one student week per week in `defs`, one conversation each, and a general one first. */
  ghost predicate Equipped(s: State, enrollment: nat, defs: seq<WeekDef>) {
    && SlotsOf(WeekSlots(s.studentWeeks), enrollment) == SomeIds(defs)
    && SlotsOf(TalkSlots(s.conversations), enrollment) == [None] + SomeIds(defs)
  }

  lemma NewWeekSlots(rows: seq<StudentWeek>, defs: seq<WeekDef>, enrollment: nat, firstId: nat)
    ensures var added := NewStudentWeeks(defs, enrollment, firstId);
      && WeekSlots(rows + added) == WeekSlots(rows) + WeekSlots(added)
      && forall i :: 0 <= i < |added| ==> WeekSlots(added)[i] == Slot(enrollment, SomeIds(defs)[i])
  {
  }

  lemma NewTalkSlots(rows: seq<Conversation>, defs: seq<WeekDef>, enrollment: nat, firstId: nat)
    ensures var added := NewConversations(defs, enrollment, firstId);
      && TalkSlots(rows + added) == TalkSlots(rows) + TalkSlots(added)
      && forall i :: 0 <= i < |added| ==> TalkSlots(added)[i] == Slot(enrollment, ([None] + SomeIds(defs))[i])
  {
    var added := NewConversations(defs, enrollment, firstId);
    forall i | 0 <= i < |added| ensures TalkSlots(added)[i] == Slot(enrollment, ([None] + SomeIds(defs))[i]) {
      assert i > 0 ==> added[(i - 1) + 1].week == Some(defs[i - 1].id);
    }
  }

  lemma WeekTableGrows(rows: seq<StudentWeek>, defs: seq<WeekDef>, enrollment: nat, firstId: nat)
    requires forall i :: 0 <= i < |rows| ==> rows[i].enrollment != enrollment
    ensures SlotsOf(WeekSlots(rows + NewStudentWeeks(defs, enrollment, firstId)), enrollment) == SomeIds(defs)
  {
    NewWeekSlots(rows, defs, enrollment, firstId);
    NewSlots(WeekSlots(rows), WeekSlots(NewStudentWeeks(defs, enrollment, firstId)), enrollment, SomeIds(defs));
  }

  lemma TalkTableGrows(rows: seq<Conversation>, defs: seq<WeekDef>, enrollment: nat, firstId: nat)
    requires forall i :: 0 <= i < |rows| ==> rows[i].enrollment != enrollment
    ensures SlotsOf(TalkSlots(rows + NewConversations(defs, enrollment, firstId)), enrollment) == [None] + SomeIds(defs)
  {
    NewTalkSlots(rows, defs, enrollment, firstId);
    var minted := TalkSlots(NewConversations(defs, enrollment, firstId));
    NewSlots(TalkSlots(rows), minted, enrollment, [None] + SomeIds(defs));
  }

  lemma CreationEquips(s: State, student: nat, c: Choice)
    requires Inv(s)
    ensures Equipped(CreateRecords(s, student, c), s.nextId, WeeksOfLesson(s.weeks, c.lesson))
  {
    var defs := WeeksOfLesson(s.weeks, c.lesson);
    var t := CreateRecords(s, student, c);
    var id, weekIds, talkIds := s.nextId, s.nextId + 1, s.nextId + 1 + |defs|;
    assert SlotsOf(WeekSlots(t.studentWeeks), id) == SomeIds(defs) by {
      WeekTableGrows(s.studentWeeks, defs, id, weekIds);
    }
    assert SlotsOf(TalkSlots(t.conversations), id) == [None] + SomeIds(defs) by {
      TalkTableGrows(s.conversations, defs, id, talkIds);
    }
  }

  ghost predicate Untouched(w: StudentWeek) {
    && w.status == Pending && w.mentor == NoMark && !w.studentSent && !w.teacherSent && !w.adminSent
    && w.score == None && w.startedAt == None && w.submittedAt == None && w.completedAt == None
  }

  /** The new rows come after the old ones, as the choice says, with nothing sent, graded or read in them. */
  lemma CreationStartsBlank(s: State, student: nat, c: Choice)
    ensures var t, n := CreateRecords(s, student, c), |s.enrollments|;
      && |t.enrollments| == n + 1 && t.enrollments[..n] == s.enrollments
      && t.enrollments[n].id == s.nextId && t.enrollments[n].status == Active
      && t.enrollments[n].student == student && t.enrollments[n].semester == c.semester
      && t.enrollments[n].lesson == c.lesson && t.enrollments[n].professor == c.professor
      && t.enrollments[n].school == c.school && t.enrollments[n].teacher == c.teacher
    ensures var t := CreateRecords(s, student, c);
      && s.studentWeeks <= t.studentWeeks && s.conversations <= t.conversations
      && t.messages == s.messages && t.weeks == s.weeks && t.capacities == s.capacities
      && (forall i :: |s.studentWeeks| <= i < |t.studentWeeks| ==>
        Untouched(t.studentWeeks[i]) && s.nextId < t.studentWeeks[i].id < t.nextId)
      && (forall i, j :: |s.studentWeeks| <= i < j < |t.studentWeeks| ==> t.studentWeeks[i].id != t.studentWeeks[j].id)
      && (forall i :: |s.conversations| <= i < |t.conversations| ==> t.conversations[i].readStates == map[])
  {
  }

  /** What a step leaves of an older enrolment's slots. */
  ghost predicate SameSlots(s: State, t: State, enrollment: nat) {
    && SlotsOf(WeekSlots(t.studentWeeks), enrollment) == SlotsOf(WeekSlots(s.studentWeeks), enrollment)
    && SlotsOf(TalkSlots(t.conversations), enrollment) == SlotsOf(TalkSlots(s.conversations), enrollment)
  }

  lemma WeekTableKeeps(rows: seq<StudentWeek>, defs: seq<WeekDef>, enrollment: nat, firstId: nat, older: nat)
    requires older != enrollment
    ensures SlotsOf(WeekSlots(rows + NewStudentWeeks(defs, enrollment, firstId)), older)
         == SlotsOf(WeekSlots(rows), older)
  {
    NewWeekSlots(rows, defs, enrollment, firstId);
    OtherSlotsDoNot(WeekSlots(rows), WeekSlots(NewStudentWeeks(defs, enrollment, firstId)), older);
  }

  lemma TalkTableKeeps(rows: seq<Conversation>, defs: seq<WeekDef>, enrollment: nat, firstId: nat, older: nat)
    requires older != enrollment
    ensures SlotsOf(TalkSlots(rows + NewConversations(defs, enrollment, firstId)), older)
         == SlotsOf(TalkSlots(rows), older)
  {
    NewTalkSlots(rows, defs, enrollment, firstId);
    OtherSlotsDoNot(TalkSlots(rows), TalkSlots(NewConversations(defs, enrollment, firstId)), older);
  }

  lemma CreationKeepsOlderWeeks(s: State, student: nat, c: Choice, older: nat)
    requires older < s.nextId
    ensures SlotsOf(WeekSlots(CreateRecords(s, student, c).studentWeeks), older)
         == SlotsOf(WeekSlots(s.studentWeeks), older)
  {
    WeekTableKeeps(s.studentWeeks, WeeksOfLesson(s.weeks, c.lesson), s.nextId, s.nextId + 1, older);
  }

  lemma CreationKeepsOlderTalks(s: State, student: nat, c: Choice, older: nat)
    requires older < s.nextId
    ensures SlotsOf(TalkSlots(CreateRecords(s, student, c).conversations), older)
         == SlotsOf(TalkSlots(s.conversations), older)
  {
    var defs := WeeksOfLesson(s.weeks, c.lesson);
    TalkTableKeeps(s.conversations, defs, s.nextId, s.nextId + 1 + |defs|, older);
  }

  lemma CreationKeepsOlder(s: State, student: nat, c: Choice, older: nat)
    requires older < s.nextId
    ensures SameSlots(s, CreateRecords(s, student, c), older)
  {
    CreationKeepsOlderWeeks(s, student, c, older);
    CreationKeepsOlderTalks(s, student, c, older);
  }

  lemma OtherStepsKeepSlots(s: State, ev: Event)
    requires !ev.Enrol?
    ensures WeekSlots(Next(s, ev).studentWeeks) == WeekSlots(s.studentWeeks)
    ensures TalkSlots(Next(s, ev).conversations) == TalkSlots(s.conversations)
  {
  }

  lemma StepKeepsSlots(s: State, ev: Event, enrollment: nat)
    requires enrollment < s.nextId
    ensures SameSlots(s, Next(s, ev), enrollment)
  {
    if ev.Enrol? {
      CreationKeepsOlder(s, ev.user.id, ev.choice, enrollment);
    } else {
      OtherStepsKeepSlots(s, ev);
    }
  }

  /**
   * However the run goes on, an enrolment keeps exactly the student weeks and conversations for the
   * lesson weeks that existed when it was made, even when those are later changed.
   */
  lemma {:induction false} EnrolmentStaysEquipped(init: State, es: seq<Event>, n: nat)
    requires Inv(init) && AllProper(es) && n < |es| && es[n].Enrol?
    requires EnrolStatus(es[n].d, Run(init, es[..n]), es[n].user, es[n].choice) == 204
    ensures Run(init, es[..n]).nextId < Run(init, es).nextId
    ensures Equipped(Run(init, es), Run(init, es[..n]).nextId,
                     WeeksOfLesson(Run(init, es[..n]).weeks, es[n].choice.lesson))
  {
    var before := es[..|es| - 1];
    RunKeepsInv(init, before);
    if n == |es| - 1 {
      CreationEquips(Run(init, before), es[n].user.id, es[n].choice);
    } else {
      PrefixOfPrefix(es, |es| - 1, n);
      EnrolmentStaysEquipped(init, before, n);
      StepKeepsSlots(Run(init, before), es[|es| - 1], Run(init, es[..n]).nextId);
      StepKeepsInv(Run(init, before), es[|es| - 1]);
    }
  }

  // ---------- Places and double enrolment ----------

  /** The places on offer: one more row adds its own to what it is for, and to nothing else. */
  lemma {:induction false} PlacesAddUp(rows: seq<Capacity>, row: Capacity, professor: nat, semester: nat, lesson: nat)
    ensures TotalPlaces([], professor, semester, lesson) == 0
    ensures TotalPlaces(rows + [row], professor, semester, lesson) == TotalPlaces(rows, professor, semester, lesson) +
      if (row.professor, row.semester, row.lesson) == (professor, semester, lesson) then row.places else 0
  {
    if rows != [] {
      PlacesAddUp(rows[1..], row, professor, semester, lesson);
      assert (rows + [row])[1..] == rows[1..] + [row];
    }
  }

  lemma UsedAfterEnrol(rows: seq<Enrollment>, e: Enrollment, professor: nat, semester: nat, lesson: nat)
    ensures Used(rows + [e], professor, semester, lesson)
         == Used(rows, professor, semester, lesson) + if Takes(e, professor, semester, lesson) then 1 else 0
  {
    assert (rows + [e])[..|rows|] == rows;
  }

  lemma {:induction false} UsedAfterCancel(rows: seq<Enrollment>, k: nat, professor: nat, semester: nat, lesson: nat)
    requires k < |rows|
    ensures Used(rows[k := rows[k].(status := Cancelled)], professor, semester, lesson)
         == Used(rows, professor, semester, lesson) - if Takes(rows[k], professor, semester, lesson) then 1 else 0
  {
    var after := rows[k := rows[k].(status := Cancelled)];
    var last := |rows| - 1;
    if k < last {
      UsedAfterCancel(rows[..last], k, professor, semester, lesson);
      assert after[..last] == rows[..last][k := rows[k].(status := Cancelled)];
    } else {
      assert after[..last] == rows[..last];
    }
  }

  /** A successful enrolment takes exactly one place, and only where one was left. */
  lemma EnrolmentTakesOnePlace(
      d: Directory, s: State, user: User, c: Choice, professor: nat, semester: nat, lesson: nat)
    requires EnrolStatus(d, s, user, c) == 204
    ensures var t := CreateRecords(s, user.id, c);
      Remaining(t, professor, semester, lesson) == Remaining(s, professor, semester, lesson) -
        if c.professor == professor && c.semester == semester && c.lesson == lesson then 1 else 0
    ensures Remaining(CreateRecords(s, user.id, c), c.professor, c.semester, c.lesson) >= 0
  {
    UsedAfterEnrol(s.enrollments, NewEnrollment(s, user.id, c), professor, semester, lesson);
    UsedAfterEnrol(s.enrollments, NewEnrollment(s, user.id, c), c.professor, c.semester, c.lesson);
  }

  lemma StepKeepsPlaces(s: State, ev: Event, professor: nat, semester: nat, lesson: nat)
    requires !ev.CapacitiesSet? && Remaining(s, professor, semester, lesson) >= 0
    ensures Remaining(Next(s, ev), professor, semester, lesson) >= 0
  {
    if ev.Enrol? && EnrolStatus(ev.d, s, ev.user, ev.choice) == 204 {
      EnrolmentTakesOnePlace(ev.d, s, ev.user, ev.choice, professor, semester, lesson);
    } else if ev.Cancel? && CancelStatus(s, ev.user, ev.enrollment) == 200 {
      UsedAfterCancel(s.enrollments, EnrollmentRow(s.enrollments, ev.enrollment), professor, semester, lesson);
    }
  }

  /** At no moment of the run are there fewer than no places left. */
  predicate NeverShort(init: State, es: seq<Event>, professor: nat, semester: nat, lesson: nat)
    decreases |es|
  {
    && Remaining(Run(init, es), professor, semester, lesson) >= 0
    && (es == [] || NeverShort(init, es[..|es| - 1], professor, semester, lesson))
  }

  /** Whenever the places on offer are changed, those then in use are still offered. */
  predicate CutsFit(init: State, es: seq<Event>, professor: nat, semester: nat, lesson: nat)
    decreases |es|
  {
    es == [] ||
    (var before, last := Run(init, es[..|es| - 1]), es[|es| - 1];
     && CutsFit(init, es[..|es| - 1], professor, semester, lesson)
     && (last.CapacitiesSet? ==>
           Used(before.enrollments, professor, semester, lesson)
             <= TotalPlaces(last.capacities, professor, semester, lesson)))
  }

  lemma CutKeepsPlacesIff(s: State, capacities: seq<Capacity>, professor: nat, semester: nat, lesson: nat)
    ensures Remaining(Next(s, CapacitiesSet(capacities)), professor, semester, lesson) >= 0
       <==> Used(s.enrollments, professor, semester, lesson) <= TotalPlaces(capacities, professor, semester, lesson)
  {
  }

  /** A professor is never overbooked exactly when no change of the offer goes below the places then in use. */
  lemma {:induction false} NeverOverbooked(init: State, es: seq<Event>, professor: nat, semester: nat, lesson: nat)
    requires Remaining(init, professor, semester, lesson) >= 0
    ensures NeverShort(init, es, professor, semester, lesson) <==> CutsFit(init, es, professor, semester, lesson)
  {
    if es != [] {
      var before, last := Run(init, es[..|es| - 1]), es[|es| - 1];
      NeverOverbooked(init, es[..|es| - 1], professor, semester, lesson);
      if last.CapacitiesSet? {
        CutKeepsPlacesIff(before, last.capacities, professor, semester, lesson);
      } else if NeverShort(init, es[..|es| - 1], professor, semester, lesson) {
        assert Remaining(before, professor, semester, lesson) >= 0;
        StepKeepsPlaces(before, last, professor, semester, lesson);
      }
    }
  }

  /** No student has two enrolments in one lesson that are not cancelled. */
  ghost predicate OneLive(rows: seq<Enrollment>) {
    forall i, j :: 0 <= i < j < |rows| && rows[i].student == rows[j].student && rows[i].lesson == rows[j].lesson ==>
      rows[i].status.Cancelled? || rows[j].status.Cancelled?
  }

  lemma StepKeepsOneLive(s: State, ev: Event)
    requires OneLive(s.enrollments)
    ensures OneLive(Next(s, ev).enrollments)
  {
  }

  lemma {:induction false} OneLiveInEveryRun(init: State, es: seq<Event>)
    requires OneLive(init.enrollments)
    ensures OneLive(Run(init, es).enrollments)
  {
    if es != [] {
      OneLiveInEveryRun(init, es[..|es| - 1]);
      StepKeepsOneLive(Run(init, es[..|es| - 1]), es[|es| - 1]);
    }
  }
}
