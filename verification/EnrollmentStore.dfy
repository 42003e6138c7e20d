/** The enrolment tables as the fake backend keeps them, and the operations that update them in place. */
module EnrollmentStore {
  import opened Common
  import opened EnrollmentMachine

  class Store {
    var weeks: seq<WeekDef>
    var capacities: seq<Capacity>
    var enrollments: seq<Enrollment>
    var studentWeeks: seq<StudentWeek>
    var conversations: seq<Conversation>
    var messages: seq<Message>
    var nextId: nat

    constructor ()
      ensures Contents() == State([], [], [], [], [], [], 0)
    {
      weeks, capacities, enrollments, studentWeeks, conversations, messages, nextId := [], [], [], [], [], [], 0;
    }

    function Contents(): State
      reads this
    {
      State(weeks, capacities, enrollments, studentWeeks, conversations, messages, nextId)
    }

    method NewId() returns (id: nat)
      modifies this`nextId
      ensures id == old(nextId) && nextId == old(nextId) + 1
    {
      id := nextId;
      nextId := nextId + 1;
    }

    method CreateEnrollmentRecords(student: nat, c: Choice) returns (enrollment: Enrollment)
      modifies this
      ensures Contents() == CreateRecords(old(Contents()), student, c)
      ensures enrollment == NewEnrollment(old(Contents()), student, c)
    {
      var id := NewId();
      enrollment := Enrollment(id, student, c.semester, c.lesson, c.school, c.teacher, c.professor, Active);
      enrollments := enrollments + [enrollment];
      var defs := WeeksOfLesson(weeks, c.lesson);
      AddStudentWeeks(id, defs);
      AddConversations(id, defs);
    }

    method AddStudentWeeks(enrollment: nat, defs: seq<WeekDef>)
      modifies this`studentWeeks, this`nextId
      ensures studentWeeks == old(studentWeeks) + NewStudentWeeks(defs, enrollment, old(nextId))
      ensures nextId == old(nextId) + |defs|
    {
      ghost var all := NewStudentWeeks(defs, enrollment, nextId);
      ghost var first := nextId;
      var i := 0;
      while i < |defs|
        invariant i <= |defs| && nextId == first + i
        invariant studentWeeks == old(studentWeeks) + all[..i]
      {
        var id := NewId();
        Associate(old(studentWeeks), all[..i], [all[i]]);
        assert all[..i + 1] == all[..i] + [all[i]];
        studentWeeks := studentWeeks + [BlankWeek(id, enrollment, defs[i].id)];
        i := i + 1;
      }
      assert all[..i] == all;
    }

    method AddConversations(enrollment: nat, defs: seq<WeekDef>)
      modifies this`conversations, this`nextId
      ensures conversations == old(conversations) + NewConversations(defs, enrollment, old(nextId))
      ensures nextId == old(nextId) + |defs| + 1
    {
      ghost var all := NewConversations(defs, enrollment, nextId);
      ghost var first := nextId;
      var id := NewId();
      conversations := conversations + [Conversation(id, enrollment, None, map[])];
      var i := 0;
      while i < |defs|
        invariant i <= |defs| && nextId == first + 1 + i
        invariant conversations == old(conversations) + all[..i + 1]
      {
        id := NewId();
        Associate(old(conversations), all[..i + 1], [all[i + 1]]);
        assert all[..i + 2] == all[..i + 1] + [all[i + 1]];
        conversations := conversations + [Conversation(id, enrollment, Some(defs[i].id), map[])];
        i := i + 1;
      }
      assert all[..i + 1] == all;
    }

    /** `k` is the row of the conversation object the caller holds. */
    method AppendMessage(k: nat, sender: User, content: Content, now: nat) returns (message: Message)
      requires k < |conversations|
      modifies this
      ensures Contents() == Append(old(Contents()), k, sender, content, now)
      ensures messages == old(messages) + [message]
    {
      var c := conversations[k];
      var sequence := |MessagesOf(Contents(), c.id)| + 1;
      var id := NewId();
      message := Message(id, c.id, sender.id, sender.role, content, sequence);
      messages := messages + [message];
      conversations := conversations[k := c.(readStates := c.readStates[sender.id := sequence])];
      if c.week.Some? {
        var row := WeekRow(studentWeeks, c.enrollment, c.week.value);
        if row < |studentWeeks| {
          studentWeeks := studentWeeks[row := ApplyWeekState(studentWeeks[row], sender.role, now)];
        }
      }
    }

    /** The guards of the route, in their order; 204 if and only if the request may go through. */
    method CheckChoice(d: Directory, user: User, c: Choice) returns (status: nat)
      ensures status == EnrolStatus(d, Contents(), user, c)
      ensures status == 204 <==> MayEnrol(d, Contents(), user, c)
    {
      if !user.role.Student? && !user.role.Trainee? {
        return 403;
      }
      if c.semester !in d.semesters {
        return 404;
      }
      var semester := d.semesters[c.semester];
      if !semester.courseSelection {
        return 400;
      }
      if semester.structure != StructureOf(user) {
        return 400;
      }
      if c.lesson !in d.lessons || d.lessons[c.lesson].semester != c.semester || !d.lessons[c.lesson].offered {
        return 400;
      }
      if Blocked(Contents(), user.id, c.lesson) {
        return 400;
      }
      if c.professor !in d.users || !d.users[c.professor].role.Mentor? {
        return 404;
      }
      if Remaining(Contents(), c.professor, c.semester, c.lesson) <= 0 {
        return 400;
      }
      if c.school.Some? && c.school.value !in d.schools {
        return 404;
      }
      if c.teacher.Some? {
        if c.teacher.value !in d.users || !d.users[c.teacher.value].role.Teacher? {
          return 404;
        }
        if c.school.Some? && d.users[c.teacher.value].school != c.school {
          return 400;
        }
      }
      return 204;
    }

    /**
     * An enrolment is made if and only if the request may go through; then one place is taken that
     * was free, and no student has two live enrolments in a lesson that had not before.
     */
    method Enrol(d: Directory, user: User, c: Choice) returns (status: nat)
      modifies this
      ensures status == 204 <==> MayEnrol(d, old(Contents()), user, c)
      ensures status != 204 ==> Contents() == old(Contents())
      ensures Contents() == Next(old(Contents()), Event.Enrol(d, user, c))
      ensures status == 204 ==>
        0 <= Remaining(Contents(), c.professor, c.semester, c.lesson)
          == Remaining(old(Contents()), c.professor, c.semester, c.lesson) - 1
      ensures OneLive(old(enrollments)) ==> OneLive(enrollments)
      ensures status == EnrolStatus(d, old(Contents()), user, c)
    {
      status := CheckChoice(d, user, c);
      if status == 204 {
        EnrolmentTakesOnePlace(d, Contents(), user, c, c.professor, c.semester, c.lesson);
        if OneLive(enrollments) {
          StepKeepsOneLive(Contents(), Event.Enrol(d, user, c));
        }
        var _ := CreateEnrollmentRecords(user.id, c);
      }
    }

    /** The conversation's row, or the status that refuses the user: unknown, or not a participant. */
    method LoadConversation(user: User, conversation: nat) returns (status: nat, k: nat)
      ensures status == LoadStatus(Contents(), user, conversation)
      ensures status == 200 <==> MayRead(Contents(), user, conversation)
      ensures status == 200 ==> k == ConversationRow(conversations, conversation) < |conversations|
    {
      k := ConversationRow(conversations, conversation);
      if k == |conversations| {
        return 404, k;
      }
      var e := EnrollmentRow(enrollments, conversations[k].enrollment);
      if e == |enrollments| {
        return 404, k;
      }
      if !CanAccess(user, enrollments[e]) {
        return 403, k;
      }
      status := 200;
    }

    /** The guards of posting, in their order; 201 if and only if the request may go through. */
    method CheckMessage(d: Directory, user: User, conversation: nat, content: Content) returns (status: nat, k: nat)
      ensures status == PostStatus(d, Contents(), user, conversation, content)
      ensures status == 201 <==> MayPost(d, Contents(), user, conversation, content)
      ensures status == 201 ==> k == ConversationRow(conversations, conversation) < |conversations|
    {
      status, k := LoadConversation(user, conversation);
      if status != 200 {
        return;
      }
      var e := EnrollmentRow(enrollments, conversations[k].enrollment);
      if enrollments[e].status.Cancelled? {
        return 400, k;
      }
      var cleaned := Cleaned(content);
      if cleaned.text.None? && cleaned.files == [] && cleaned.rating.None? {
        return 422, k;
      }
      if cleaned.rating.Some? {
        if !user.role.Teacher? && !user.role.SchoolAdmin? {
          return 403, k;
        }
        if cleaned.rating.value < 1 || cleaned.rating.value > 5 {
          return 422, k;
        }
      }
      for i := 0 to |cleaned.files|
        invariant forall j :: 0 <= j < i ==> cleaned.files[j] in d.confirmedFiles
      {
        if cleaned.files[i] !in d.confirmedFiles {
          return 422, k;
        }
      }
      return 201, k;
    }

    /**
     * A message is added if and only if the request may go through: it goes last in its conversation
     * under the next number, the other conversations keep theirs, and its sender has nothing unread.
     */
    method Post(d: Directory, user: User, conversation: nat, content: Content, now: nat) returns (status: nat)
      modifies this
      ensures status == 201 <==> MayPost(d, old(Contents()), user, conversation, content)
      ensures status != 201 ==> Contents() == old(Contents())
      ensures Contents() == Next(old(Contents()), Event.Post(d, user, conversation, content, now))
      ensures status == PostStatus(d, old(Contents()), user, conversation, content)
      ensures old(Inv(Contents())) && status == 201 ==>
        && Inv(Contents())
        && var k := ConversationRow(old(conversations), conversation);
           var id := old(conversations)[k].id; var before := MessagesIn(old(messages), id);
        && MessagesIn(messages, id) == before +
             [Message(old(nextId), id, user.id, user.role, Cleaned(content), |before| + 1)]
        && UnreadCount(Contents(), k, user.id) == 0
      ensures status == 201 ==> |messages| == |old(messages)| + 1 && messages[..|old(messages)|] == old(messages)
      ensures status == 201 ==>
        var m := messages[|old(messages)|];
        && m.content.files == content.files && m.content.rating == content.rating
        && m.content.text == match content.text
                             case Some(text) => if |Trim(text)| > 0 then Some(Trim(text)) else None
                             case None => None
    {
      var k;
      status, k := CheckMessage(d, user, conversation, content);
      if status == 201 {
        if Inv(Contents()) {
          AppendGoesLast(Contents(), k, user, Cleaned(content), now);
          AppendKeepsInv(Contents(), k, user, Cleaned(content), now);
        }
        var _ := AppendMessage(k, user, Cleaned(content), now);
      }
    }

    /** Only a participant moves a read mark, and only their own; nothing is unread for them afterwards. */
    method Read(user: User, conversation: nat) returns (status: nat)
      modifies this
      ensures status == 200 <==> MayRead(old(Contents()), user, conversation)
      ensures status != 200 ==> Contents() == old(Contents())
      ensures Contents() == Next(old(Contents()), Event.Read(user, conversation))
      ensures old(Inv(Contents())) && status == 200 ==>
        UnreadCount(Contents(), ConversationRow(old(conversations), conversation), user.id) == 0
      ensures messages == old(messages) && studentWeeks == old(studentWeeks)
    {
      var k;
      status, k := LoadConversation(user, conversation);
      if status != 200 {
        return;
      }
      if Inv(Contents()) {
        MarkReadClears(Contents(), k, user.id);
      }
      var c := conversations[k];
      var last := LastSequence(MessagesOf(Contents(), c.id));
      conversations := conversations[k := c.(readStates := c.readStates[user.id := last])];
    }

    /** Only the enrolment's own professor grades, from 0 to 100, and exactly that week changes. */
    method Score(user: User, studentWeek: nat, score: int, now: nat) returns (status: nat)
      modifies this
      ensures status == 200 <==> MayScore(old(Contents()), user, studentWeek, score)
      ensures status != 200 ==> Contents() == old(Contents())
      ensures Contents() == Next(old(Contents()), Event.Score(user, studentWeek, score, now))
      ensures status == ScoreStatus(old(Contents()), user, studentWeek, score)
      ensures status == 200 ==>
        var k := StudentWeekRow(old(studentWeeks), studentWeek);
        && studentWeeks[k] == old(studentWeeks)[k].(
             status := Graded, score := Some(score), mentor := MarkScored, completedAt := Some(now))
        && forall i :: 0 <= i < |studentWeeks| && i != k ==> studentWeeks[i] == old(studentWeeks)[i]
    {
      var k := StudentWeekRow(studentWeeks, studentWeek);
      if k == |studentWeeks| {
        return 404;
      }
      var e := EnrollmentRow(enrollments, studentWeeks[k].enrollment);
      if e == |enrollments| {
        return 404;
      }
      if !CanAccess(user, enrollments[e]) {
        return 403;
      }
      if !user.role.Mentor? {
        return 403;
      }
      if enrollments[e].professor != user.id {
        return 403;
      }
      if enrollments[e].status.Cancelled? {
        return 400;
      }
      if score < 0 || score > 100 {
        return 422;
      }
      studentWeeks := studentWeeks[k := WithScore(studentWeeks[k], score, now)];
      return 200;
    }

    /** The student or the professor cancels, once; an active enrolment's place is free again. */
    method Cancel(user: User, enrollment: nat) returns (status: nat)
      modifies this
      ensures status == 200 <==> MayCancel(old(Contents()), user, enrollment)
      ensures status != 200 ==> Contents() == old(Contents())
      ensures Contents() == Next(old(Contents()), Event.Cancel(user, enrollment))
      ensures status == CancelStatus(old(Contents()), user, enrollment)
      ensures status == 200 ==>
        var e := old(enrollments)[EnrollmentRow(old(enrollments), enrollment)];
        Remaining(Contents(), e.professor, e.semester, e.lesson)
          == Remaining(old(Contents()), e.professor, e.semester, e.lesson) + (if e.status.Active? then 1 else 0)
      ensures status == 200 ==> !MayCancel(Contents(), user, enrollment)
      ensures status == 200 ==>
        var k := EnrollmentRow(old(enrollments), enrollment);
        && |enrollments| == |old(enrollments)| && enrollments[k] == old(enrollments)[k].(status := Cancelled)
        && forall i :: 0 <= i < |enrollments| && i != k ==> enrollments[i] == old(enrollments)[i]
    {
      var k := EnrollmentRow(enrollments, enrollment);
      if k == |enrollments| {
        return 404;
      }
      var e := enrollments[k];
      if e.student != user.id && e.professor != user.id {
        return 403;
      }
      if e.status.Cancelled? {
        return 400;
      }
      UsedAfterCancel(enrollments, k, e.professor, e.semester, e.lesson);
      SameRowAfterCancel(enrollments, enrollment);
      enrollments := enrollments[k := e.(status := Cancelled)];
      return 200;
    }
  }

  lemma {:induction false} SameRowAfterCancel(rows: seq<Enrollment>, id: nat)
    requires EnrollmentRow(rows, id) < |rows|
    ensures var k := EnrollmentRow(rows, id); EnrollmentRow(rows[k := rows[k].(status := Cancelled)], id) == k
  {
    if rows[0].id != id {
      var k := EnrollmentRow(rows, id);
      SameRowAfterCancel(rows[1..], id);
      assert rows[k := rows[k].(status := Cancelled)][1..] == rows[1..][k - 1 := rows[k].(status := Cancelled)];
    }
  }
}
