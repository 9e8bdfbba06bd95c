/// The quiz endpoints of quiz/views/quiz_views.py.
module QuizViews {
  import opened Common
  import opened Store
  import opened Permissions
  import opened ApiView
  import opened QuizSerializers
  import ClassroomViews
  import opened Scenarios

  const QuizCreatePermissions: seq<Permission> := [Authenticated, ClassroomOwner]
  const QuizListPermissions: seq<Permission> := [Authenticated, Teacher]

  /// QuizCreateAPIView: the body is validated, then the classroom it names
  /// must exist ("Classroom does not exist") and be owned by the requester.
  function QuizCreate(m: HttpMethod, db: Db, u: Option<UserId>, body: QuizBody): (d: Decision)
    ensures d == Allow <==>
      IsAuthenticated(db, u) && m == Post && ValidateQuiz(body).Ok? &&
      IsClassroomOwner(db, u.value, ValidateQuiz(body).value.classroom)
    ensures IsAuthenticated(db, u) && m == Post && ValidateQuiz(body).Ok? &&
            ValidateQuiz(body).value.classroom !in db.classrooms ==>
      d == Invalid("Classroom does not exist")
  {
    Respond(m, {Post}, QuizCreatePermissions, db, u,
      match ValidateQuiz(body)
      case Fail(msg) => Invalid(msg)
      case Ok(data) =>
        if data.classroom !in db.classrooms then Invalid("Classroom does not exist")
        else ObjectGate(QuizCreatePermissions, m, db, u, ClassroomObj(data.classroom), Allow))
  }

  /// QuizListAPIView: teachers only.
  function QuizList(m: HttpMethod, db: Db, u: Option<UserId>): (d: Decision)
    ensures d == Allow <==> IsAuthenticated(db, u) && IsTeacher(db, u.value) && (m == Get || m == Head)
  {
    Respond(m, {Get, Head}, QuizListPermissions, db, u, Allow)
  }

  /// The queryset of QuizListAPIView: the quizzes of the requesting teacher's
  /// classrooms.
  function QuizzesOfTeacher(db: Db, user: UserId): (r: set<QuizId>)
    ensures forall z :: z in r <==> z in db.quizzes && IsClassroomOwner(db, user, db.quizzes[z].classroom)
  {
    set z | z in db.quizzes && db.quizzes[z].classroom in ClassroomViews.ClassroomsOfTeacher(db, user)
  }

  /// PUT as written: the body is validated and saved. `ModelSerializer.update`
  /// assigns every validated field, `classroom_id` included, so the quiz moves
  /// to the classroom the body names; no permission is checked on that
  /// classroom, and one that does not exist breaks the foreign key.
  function QuizPutAsWritten(db: Db, body: QuizBody): (d: Decision)
    ensures d == Allow <==> ValidateQuiz(body).Ok? && ValidateQuiz(body).value.classroom in db.classrooms
  {
    match ValidateQuiz(body)
    case Fail(msg) => Invalid(msg)
    case Ok(data) => if data.classroom !in db.classrooms then ServerError else Allow
  }

  /// PUT with the checks creation makes on the classroom the body names: it
  /// must exist and be owned by the requester.
  function QuizPut(db: Db, u: Option<UserId>, body: QuizBody): (d: Decision)
    ensures d == Allow <==>
      ValidateQuiz(body).Ok? && u.Some? && IsClassroomOwner(db, u.value, ValidateQuiz(body).value.classroom)
  {
    match ValidateQuiz(body)
    case Fail(msg) => Invalid(msg)
    case Ok(data) =>
      if data.classroom !in db.classrooms then Invalid("Classroom does not exist")
      else ObjectGate(QuizCreatePermissions, Put, db, u, ClassroomObj(data.classroom), Allow)
  }

  /// QuizRetrieveUpdateDestroyAPIView, with `put` the outcome of the PUT
  /// handler's validation and save: reading needs membership of the quiz's
  /// classroom, updating and deleting its ownership; a missing quiz is 404.
  function QuizDetailWith(m: HttpMethod, db: Db, u: Option<UserId>, z: QuizId, put: Decision): (d: Decision)
    ensures d == Allow <==>
      IsAuthenticated(db, u) && m in {Get, Head, Put, Delete} && z in db.quizzes &&
      (if IsSafe(m) then IsClassroomMember(db, u.value, db.quizzes[z].classroom)
       else IsClassroomOwner(db, u.value, db.quizzes[z].classroom)) &&
      (m == Put ==> put == Allow)
    ensures IsAuthenticated(db, u) && m in {Get, Head, Put, Delete} && z !in db.quizzes ==> d == NotFound
  {
    var ps := PermissionsFor(ReadMemberWriteOwner, m);
    Respond(m, {Get, Head, Put, Delete}, ps, db, u,
      if z !in db.quizzes then NotFound
      else ObjectGate(ps, m, db, u, ClassroomObj(db.quizzes[z].classroom), if m == Put then put else Allow))
  }

  /// The detail view as written.
  function QuizDetailAsWritten(m: HttpMethod, db: Db, u: Option<UserId>, z: QuizId, body: QuizBody): Decision
  {
    QuizDetailWith(m, db, u, z, QuizPutAsWritten(db, body))
  }

  /// The detail view whose PUT also checks the classroom the quiz moves to.
  function QuizDetail(m: HttpMethod, db: Db, u: Option<UserId>, z: QuizId, body: QuizBody): Decision
  {
    QuizDetailWith(m, db, u, z, QuizPut(db, u, body))
  }

  /// An update that goes through leaves the quiz in a classroom the requester
  /// owns, and it was in one before.
  lemma QuizUpdateStaysWithOwner(db: Db, u: Option<UserId>, z: QuizId, body: QuizBody)
    requires QuizDetail(Put, db, u, z, body) == Allow
    ensures z in db.quizzes && IsClassroomOwner(db, u.value, db.quizzes[z].classroom)
    ensures ValidateQuiz(body).Ok? && IsClassroomOwner(db, u.value, ValidateQuiz(body).value.classroom)
  {
  }

  /// As written, the owner of one classroom moves their quiz into a classroom
  /// of another teacher.
  lemma QuizUpdateAsWrittenMovesIntoForeignClassroom()
    ensures QuizDetailAsWritten(Put, TwoTeachers(), Some(1), 7, QuizBody(Some(JString("mine")), None, Some(2))) == Allow
    ensures !IsClassroomOwner(TwoTeachers(), 1, 2)
  {
    TwoTeachersNavigation();
    TwoTeachersOwnership();
    RequiredTextOfCleanString("mine");
  }

  /// Every quiz of the list is one the teacher may read through the detail endpoint.
  lemma ListedQuizzesAreReadable(m: HttpMethod, db: Db, u: Option<UserId>, z: QuizId, body: QuizBody)
    requires QuizList(m, db, u) == Allow && z in QuizzesOfTeacher(db, u.value)
    ensures QuizDetail(m, db, u, z, body) == Allow
  {
  }
}
