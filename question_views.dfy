/// The question endpoints of quiz/views/question_views.py. Every route carries
/// the quiz id; the serializer attaches a created or updated question to it.
module QuestionViews {
  import opened Common
  import opened Store
  import opened Permissions
  import opened ApiView
  import opened QuizSerializers
  import Grading
  import opened Scenarios

  const QuestionCreatePermissions: seq<Permission> := [Authenticated, ClassroomOwner]
  const QuestionListPermissions: seq<Permission> := [Authenticated, ClassroomMember]

  /// QuestionCreateAPIView: the description and the quiz of the route are
  /// validated, then the requester must own the quiz's classroom.
  function QuestionCreate(m: HttpMethod, db: Db, u: Option<UserId>, z: QuizId, description: Option<Json>): (d: Decision)
    ensures d == Allow <==>
      IsAuthenticated(db, u) && m == Post && RequiredText(description).Ok? && z in db.quizzes &&
      IsClassroomOwner(db, u.value, db.quizzes[z].classroom)
    ensures IsAuthenticated(db, u) && m == Post && RequiredText(description).Ok? && z !in db.quizzes ==>
      d == Invalid("Quiz does not exist")
  {
    Respond(m, {Post}, QuestionCreatePermissions, db, u,
      match ValidateQuestion(db, description, Some(z))
      case Fail(msg) => Invalid(msg)
      case Ok(data) =>
        ObjectGate(QuestionCreatePermissions, m, db, u, ClassroomObj(db.quizzes[data.quiz].classroom), Allow))
  }

  /// QuestionListAPIView: 404 for a missing quiz, then membership of its classroom.
  function QuestionList(m: HttpMethod, db: Db, u: Option<UserId>, z: QuizId): (d: Decision)
    ensures d == Allow <==>
      IsAuthenticated(db, u) && (m == Get || m == Head) && z in db.quizzes &&
      IsClassroomMember(db, u.value, db.quizzes[z].classroom)
    ensures d == NotFound <==> IsAuthenticated(db, u) && (m == Get || m == Head) && z !in db.quizzes
  {
    Respond(m, {Get, Head}, QuestionListPermissions, db, u,
      if z !in db.quizzes then NotFound
      else ObjectGate(QuestionListPermissions, m, db, u, ClassroomObj(db.quizzes[z].classroom), Allow))
  }

  /// `quiz.questions.all()`.
  function QuestionsListed(db: Db, z: QuizId): (r: set<QuestionId>)
    ensures forall q :: q in r <==> q in db.questions && db.questions[q].quiz == z
  {
    Grading.QuestionsOf(db, z)
  }

  /// PUT as written: the question is re-attached to the quiz of the route,
  /// which the serializer only checks for existence.
  function QuestionPutAsWritten(db: Db, z: QuizId, description: Option<Json>): (d: Decision)
    ensures d == Allow <==> RequiredText(description).Ok? && z in db.quizzes
  {
    match ValidateQuestion(db, description, Some(z))
    case Fail(msg) => Invalid(msg)
    case Ok(_) => Allow
  }

  /// PUT that also requires ownership of the classroom of the quiz the
  /// question is attached to.
  function QuestionPut(db: Db, u: Option<UserId>, z: QuizId, description: Option<Json>): (d: Decision)
    ensures d == Allow <==>
      RequiredText(description).Ok? && z in db.quizzes && u.Some? && IsClassroomOwner(db, u.value, db.quizzes[z].classroom)
  {
    match ValidateQuestion(db, description, Some(z))
    case Fail(msg) => Invalid(msg)
    case Ok(data) =>
      ObjectGate(QuestionCreatePermissions, Put, db, u, ClassroomObj(db.quizzes[data.quiz].classroom), Allow)
  }

  /// QuestionRetrieveUpdateDestroyAPIView, with `put` the outcome of the PUT
  /// handler's validation and save. The question is looked up by its own id:
  /// the quiz of the route plays no part in the lookup. Reading needs
  /// membership of the question's classroom, updating and deleting its
  /// ownership.
  function QuestionDetailWith(m: HttpMethod, db: Db, u: Option<UserId>, q: QuestionId, put: Decision): (d: Decision)
    requires QuizzesRefOk(db)
    ensures d == Allow <==>
      IsAuthenticated(db, u) && m in {Get, Head, Put, Delete} && q in db.questions &&
      (if IsSafe(m) then IsClassroomMember(db, u.value, ClassroomOfQuestion(db, q))
       else IsClassroomOwner(db, u.value, ClassroomOfQuestion(db, q))) &&
      (m == Put ==> put == Allow)
    ensures IsAuthenticated(db, u) && m in {Get, Head, Put, Delete} && q !in db.questions ==> d == NotFound
  {
    var ps := PermissionsFor(ReadMemberWriteOwner, m);
    Respond(m, {Get, Head, Put, Delete}, ps, db, u,
      if q !in db.questions then NotFound
      else ObjectGate(ps, m, db, u, ClassroomObj(ClassroomOfQuestion(db, q)), if m == Put then put else Allow))
  }

  /// The detail view as written.
  function QuestionDetailAsWritten(m: HttpMethod, db: Db, u: Option<UserId>, z: QuizId, q: QuestionId,
                                   description: Option<Json>): Decision
    requires QuizzesRefOk(db)
  {
    QuestionDetailWith(m, db, u, q, QuestionPutAsWritten(db, z, description))
  }

  /// The detail view whose PUT also checks the quiz the question moves to.
  function QuestionDetail(m: HttpMethod, db: Db, u: Option<UserId>, z: QuizId, q: QuestionId,
                          description: Option<Json>): Decision
    requires QuizzesRefOk(db)
  {
    QuestionDetailWith(m, db, u, q, QuestionPut(db, u, z, description))
  }

  /// An update that goes through leaves the question under a quiz of a
  /// classroom the requester owns, and it was under one before.
  lemma QuestionUpdateStaysWithOwner(db: Db, u: Option<UserId>, z: QuizId, q: QuestionId, description: Option<Json>)
    requires QuizzesRefOk(db) && QuestionDetail(Put, db, u, z, q, description) == Allow
    ensures q in db.questions && IsClassroomOwner(db, u.value, ClassroomOfQuestion(db, q))
    ensures z in db.quizzes && IsClassroomOwner(db, u.value, db.quizzes[z].classroom)
  {
  }

  /// As written, the owner of one classroom moves their question under a quiz
  /// of another teacher's classroom, by naming that quiz in the route.
  lemma QuestionUpdateAsWrittenMovesIntoForeignQuiz()
    ensures QuizzesRefOk(TwoTeachers())
    ensures QuestionDetailAsWritten(Put, TwoTeachers(), Some(1), 8, 5, Some(JString("why?"))) == Allow
    ensures !IsClassroomOwner(TwoTeachers(), 1, TwoTeachers().quizzes[8].classroom)
  {
    TwoTeachersNavigation();
    TwoTeachersOwnership();
    RequiredTextOfCleanString("why?");
  }

  /// Whoever may list a quiz's questions may read each of them.
  lemma ListedQuestionsAreReadable(m: HttpMethod, db: Db, u: Option<UserId>, z: QuizId, q: QuestionId,
                                   description: Option<Json>)
    requires QuizzesRefOk(db) && QuestionList(m, db, u, z) == Allow && q in QuestionsListed(db, z)
    ensures QuestionDetail(m, db, u, z, q, description) == Allow
  {
  }
}
