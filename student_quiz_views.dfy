/// The endpoints of quiz/views/student_quiz_views.py: a student answers the
/// questions of a quiz one at a time, then submits the quiz for its mark; the
/// members of the classroom list marks.
module StudentQuizViews {
  import opened Common
  import opened Store
  import opened Permissions
  import opened ApiView
  import opened QuizSerializers
  import opened Grading
  import opened Writes

  const SubmitPermissions: seq<Permission> := [Authenticated, ClassroomMember, Student]
  const MarkListPermissions: seq<Permission> := [Authenticated, ClassroomMember]

  /// `request.user.student_profile`, None when the user has none.
  function StudentOf(db: Db, u: Option<UserId>): (r: Option<StudentId>)
    requires ProfilesOneToOne(db)
    ensures r.Some? <==> u.Some? && IsStudent(db, u.value)
    ensures r.Some? ==> r.value in db.students && db.students[r.value].user == u.value
  {
    if u.Some? && IsStudent(db, u.value) then
      var s :| s in db.students && db.students[s].user == u.value;
      Some(s)
    else None
  }

  /// StudentAnswerCreateAPIView.post: the quiz of the route must exist ("Quiz
  /// does not exist"), the student must be a member of its classroom, then the
  /// body is validated and the answer stored once per student.
  function SubmitAnswer(m: HttpMethod, db: Db, u: Option<UserId>, z: QuizId, body: SubmissionBody): (d: Decision)
    requires ProfilesOneToOne(db)
    ensures d == Allow <==>
      IsAuthenticated(db, u) && IsStudent(db, u.value) && m == Post && z in db.quizzes &&
      IsClassroomMember(db, u.value, db.quizzes[z].classroom) &&
      ValidateSubmission(db, Some(z), StudentOf(db, u), body).Ok? &&
      !AlreadyAnswered(db, StudentOf(db, u).value, ValidateSubmission(db, Some(z), StudentOf(db, u), body).value.answer)
    ensures IsAuthenticated(db, u) && IsStudent(db, u.value) && m == Post && z !in db.quizzes ==>
      d == Invalid("Quiz does not exist")
  {
    Respond(m, {Post}, SubmitPermissions, db, u,
      if z !in db.quizzes then Invalid("Quiz does not exist")
      else ObjectGate(SubmitPermissions, m, db, u, ClassroomObj(db.quizzes[z].classroom),
        match ValidateSubmission(db, Some(z), StudentOf(db, u), body)
        case Fail(msg) => Invalid(msg)
        case Ok(s) =>
          if AlreadyAnswered(db, s.student, s.answer) then Invalid(AnsweredTwice)
          else Allow))
  }

  /// StudentQuizCreateAPIView: the serializer validates first ("Quiz does not
  /// exist."), then `perform_create` checks membership of the quiz's
  /// classroom, then the mark is computed and stored. An empty quiz is refused;
  /// a second mark for the same student and quiz fails on the unique
  /// constraint with a server error.
  function SubmitQuiz(m: HttpMethod, db: Db, u: Option<UserId>, z: QuizId): (d: Decision)
    requires ProfilesOneToOne(db)
    ensures d == Allow <==>
      IsAuthenticated(db, u) && IsStudent(db, u.value) && m == Post && z in db.quizzes &&
      IsClassroomMember(db, u.value, db.quizzes[z].classroom) &&
      |QuestionsOf(db, z)| > 0 && !AlreadyGraded(db, StudentOf(db, u).value, z)
    ensures d == ServerError <==>
      IsAuthenticated(db, u) && IsStudent(db, u.value) && m == Post && z in db.quizzes &&
      IsClassroomMember(db, u.value, db.quizzes[z].classroom) &&
      |QuestionsOf(db, z)| > 0 && AlreadyGraded(db, StudentOf(db, u).value, z)
    ensures IsAuthenticated(db, u) && IsStudent(db, u.value) && m == Post && z in db.quizzes &&
            IsClassroomMember(db, u.value, db.quizzes[z].classroom) && |QuestionsOf(db, z)| == 0 ==>
      d == Invalid(NoQuestions)
  {
    Respond(m, {Post}, SubmitPermissions, db, u,
      match ValidateGrading(db, Some(z), StudentOf(db, u))
      case Fail(msg) => Invalid(msg)
      case Ok(g) =>
        ObjectGate(SubmitPermissions, m, db, u, ClassroomObj(db.quizzes[z].classroom),
          match GradeOf(db, g)
          case Fail(msg) => Invalid(msg)
          case Ok(_) => if AlreadyGraded(db, g.student, g.quiz) then ServerError else Allow))
  }

  /// StudentQuizListAPIView: the quiz of the route must exist ("Quiz does not
  /// exist."), then the requester must be a member of its classroom.
  function MarkList(m: HttpMethod, db: Db, u: Option<UserId>, z: QuizId): (d: Decision)
    ensures d == Allow <==>
      IsAuthenticated(db, u) && (m == Get || m == Head) && z in db.quizzes &&
      IsClassroomMember(db, u.value, db.quizzes[z].classroom)
    ensures IsAuthenticated(db, u) && (m == Get || m == Head) && z !in db.quizzes ==> d == Invalid("Quiz does not exist.")
  {
    Respond(m, {Get, Head}, MarkListPermissions, db, u,
      if z !in db.quizzes then Invalid("Quiz does not exist.")
      else ObjectGate(MarkListPermissions, m, db, u, ClassroomObj(db.quizzes[z].classroom), Allow))
  }

  /// The queryset of StudentQuizListAPIView: a student gets every mark of
  /// their own, whatever the quiz of the route; anyone else gets the marks of
  /// all quizzes of the route quiz's classroom.
  function MarksVisibleTo(db: Db, u: Option<UserId>, z: QuizId): (r: set<StudentQuizId>)
    requires Valid(db) && z in db.quizzes
    ensures StudentOf(db, u).Some? ==>
      forall k :: k in r <==> k in db.studentQuizzes && db.studentQuizzes[k].student == StudentOf(db, u).value
    ensures StudentOf(db, u).None? ==>
      forall k :: k in r <==>
        k in db.studentQuizzes && db.quizzes[db.studentQuizzes[k].quiz].classroom == db.quizzes[z].classroom
  {
    match StudentOf(db, u)
    case Some(s) => set k | k in db.studentQuizzes && db.studentQuizzes[k].student == s
    case None =>
      set k | k in db.studentQuizzes && db.quizzes[db.studentQuizzes[k].quiz].classroom == db.quizzes[z].classroom
  }

  /// While no user holds both profiles, a student owns no classroom, so a
  /// student is a member of a classroom only through an enrollment.
  lemma StudentNeverOwns(db: Db, user: UserId, c: ClassroomId)
    requires ClassroomsRefOk(db) && RolesExclusive(db) && IsStudent(db, user)
    ensures !IsClassroomOwner(db, user, c)
  {
    if c in db.classrooms {
      var s :| s in db.students && db.students[s].user == user;
      assert db.classrooms[c].teacher in db.teachers;
    }
  }

  /// Only a student enrolled in the quiz's classroom answers or submits it;
  /// its teacher, who owns the classroom, is refused.
  lemma OnlyEnrolledStudentsSubmit(m: HttpMethod, db: Db, u: Option<UserId>, z: QuizId, body: SubmissionBody)
    requires Valid(db) && RolesExclusive(db)
    requires SubmitAnswer(m, db, u, z, body) == Allow || SubmitQuiz(m, db, u, z) == Allow
    ensures u.Some? && IsStudent(db, u.value) && !IsTeacher(db, u.value)
    ensures z in db.quizzes && IsEnrolled(db, u.value, db.quizzes[z].classroom)
  {
    StudentNeverOwns(db, u.value, db.quizzes[z].classroom);
  }

  /// A student's list of marks holds their own marks only, quizzes of other
  /// classrooms included.
  lemma StudentSeesOnlyOwnMarks(db: Db, u: Option<UserId>, z: QuizId, k: StudentQuizId)
    requires Valid(db) && z in db.quizzes && u.Some? && IsStudent(db, u.value)
    requires k in MarksVisibleTo(db, u, z)
    ensures db.studentQuizzes[k].student in db.students && db.students[db.studentQuizzes[k].student].user == u.value
  {
  }

  /// The owner's list of marks holds exactly the marks of the quizzes of the
  /// owned classroom.
  lemma OwnerSeesTheClassroomMarks(db: Db, u: Option<UserId>, z: QuizId, k: StudentQuizId)
    requires Valid(db) && RolesExclusive(db) && MarkList(Get, db, u, z) == Allow
    requires IsClassroomOwner(db, u.value, db.quizzes[z].classroom)
    ensures k in MarksVisibleTo(db, u, z) <==>
      k in db.studentQuizzes && db.quizzes[db.studentQuizzes[k].quiz].classroom == db.quizzes[z].classroom
  {
    if IsStudent(db, u.value) {
      StudentNeverOwns(db, u.value, db.quizzes[z].classroom);
    }
  }
}
