/// The answer endpoints of quiz/views/answer_views.py. Every one of them is
/// reserved to the owner of the classroom the answers belong to, reads
/// included: the answers say which choice is valid. Every route carries the
/// question id; the serializer attaches a created or updated answer to it.
module AnswerViews {
  import opened Common
  import opened Store
  import opened Permissions
  import opened ApiView
  import opened QuizSerializers
  import opened Scenarios

  const AnswerPermissions: seq<Permission> := [Authenticated, ClassroomOwner]

  /// AnswerCreateAPIView: the body and the question of the route are
  /// validated, then the requester must own the question's classroom.
  function AnswerCreate(m: HttpMethod, db: Db, u: Option<UserId>, q: QuestionId, body: AnswerBody): (d: Decision)
    requires QuizzesRefOk(db)
    ensures d == Allow <==>
      IsAuthenticated(db, u) && m == Post && AnswerToInternal(body).Ok? && q in db.questions &&
      IsClassroomOwner(db, u.value, ClassroomOfQuestion(db, q))
    ensures IsAuthenticated(db, u) && m == Post && AnswerToInternal(body).Ok? && q !in db.questions ==>
      d == Invalid("Question does not exist")
  {
    Respond(m, {Post}, AnswerPermissions, db, u,
      match ValidateAnswer(db, body, Some(q))
      case Fail(msg) => Invalid(msg)
      case Ok(data) =>
        ObjectGate(AnswerPermissions, m, db, u, ClassroomObj(ClassroomOfQuestion(db, data.question)), Allow))
  }

  /// AnswerListAPIView: 404 for a missing question, then ownership of its classroom.
  function AnswerList(m: HttpMethod, db: Db, u: Option<UserId>, q: QuestionId): (d: Decision)
    requires QuizzesRefOk(db)
    ensures d == Allow <==>
      IsAuthenticated(db, u) && (m == Get || m == Head) && q in db.questions &&
      IsClassroomOwner(db, u.value, ClassroomOfQuestion(db, q))
    ensures d == NotFound <==> IsAuthenticated(db, u) && (m == Get || m == Head) && q !in db.questions
  {
    Respond(m, {Get, Head}, AnswerPermissions, db, u,
      if q !in db.questions then NotFound
      else ObjectGate(AnswerPermissions, m, db, u, ClassroomObj(ClassroomOfQuestion(db, q)), Allow))
  }

  /// `question.answers.all()`.
  function AnswersOf(db: Db, q: QuestionId): (r: set<AnswerId>)
    ensures forall a :: a in r <==> a in db.answers && db.answers[a].question == q
  {
    set a | a in db.answers && db.answers[a].question == q
  }

  /// PUT as written: the answer is re-attached to the question of the route,
  /// which the serializer only checks for existence.
  function AnswerPutAsWritten(db: Db, q: QuestionId, body: AnswerBody): (d: Decision)
    ensures d == Allow <==> AnswerToInternal(body).Ok? && q in db.questions
  {
    match ValidateAnswer(db, body, Some(q))
    case Fail(msg) => Invalid(msg)
    case Ok(_) => Allow
  }

  /// PUT that also requires ownership of the classroom of the question the
  /// answer is attached to.
  function AnswerPut(db: Db, u: Option<UserId>, q: QuestionId, body: AnswerBody): (d: Decision)
    requires QuizzesRefOk(db)
    ensures d == Allow <==>
      AnswerToInternal(body).Ok? && q in db.questions && u.Some? &&
      IsClassroomOwner(db, u.value, ClassroomOfQuestion(db, q))
  {
    match ValidateAnswer(db, body, Some(q))
    case Fail(msg) => Invalid(msg)
    case Ok(data) =>
      ObjectGate(AnswerPermissions, Put, db, u, ClassroomObj(ClassroomOfQuestion(db, data.question)), Allow)
  }

  /// AnswerRetrieveUpdateDestroyAPIView, with `put` the outcome of the PUT
  /// handler's validation and save. The answer is looked up by its own id;
  /// every method needs ownership of its classroom.
  function AnswerDetailWith(m: HttpMethod, db: Db, u: Option<UserId>, a: AnswerId, put: Decision): (d: Decision)
    requires QuizzesRefOk(db)
    ensures d == Allow <==>
      IsAuthenticated(db, u) && m in {Get, Head, Put, Delete} && a in db.answers &&
      IsClassroomOwner(db, u.value, ClassroomOfAnswer(db, a)) && (m == Put ==> put == Allow)
    ensures IsAuthenticated(db, u) && m in {Get, Head, Put, Delete} && a !in db.answers ==> d == NotFound
  {
    var ps := PermissionsFor(Fixed(AnswerPermissions), m);
    Respond(m, {Get, Head, Put, Delete}, ps, db, u,
      if a !in db.answers then NotFound
      else ObjectGate(ps, m, db, u, ClassroomObj(ClassroomOfAnswer(db, a)), if m == Put then put else Allow))
  }

  /// The detail view as written.
  function AnswerDetailAsWritten(m: HttpMethod, db: Db, u: Option<UserId>, q: QuestionId, a: AnswerId,
                                 body: AnswerBody): Decision
    requires QuizzesRefOk(db)
  {
    AnswerDetailWith(m, db, u, a, AnswerPutAsWritten(db, q, body))
  }

  /// The detail view whose PUT also checks the question the answer moves to.
  function AnswerDetail(m: HttpMethod, db: Db, u: Option<UserId>, q: QuestionId, a: AnswerId,
                        body: AnswerBody): Decision
    requires QuizzesRefOk(db)
  {
    AnswerDetailWith(m, db, u, a, AnswerPut(db, u, q, body))
  }

  /// An update that goes through leaves the answer under a question of a
  /// classroom the requester owns, and it was under one before.
  lemma AnswerUpdateStaysWithOwner(db: Db, u: Option<UserId>, q: QuestionId, a: AnswerId, body: AnswerBody)
    requires QuizzesRefOk(db) && AnswerDetail(Put, db, u, q, a, body) == Allow
    ensures a in db.answers && IsClassroomOwner(db, u.value, ClassroomOfAnswer(db, a))
    ensures q in db.questions && IsClassroomOwner(db, u.value, ClassroomOfQuestion(db, q))
  {
  }

  /// As written, the owner of one classroom moves their answer under a
  /// question of another teacher's classroom, by naming it in the route.
  lemma AnswerUpdateAsWrittenMovesIntoForeignQuestion()
    ensures QuizzesRefOk(TwoTeachers())
    ensures AnswerDetailAsWritten(Put, TwoTeachers(), Some(1), 6, 3, AnswerBody(Some(JString("because")), Some(JBool(true)))) == Allow
    ensures !IsClassroomOwner(TwoTeachers(), 1, ClassroomOfQuestion(TwoTeachers(), 6))
  {
    TwoTeachersNavigation();
    TwoTeachersOwnership();
    RequiredTextOfCleanString("because");
  }

  /// No student reaches an answer endpoint, so none reads which answer is
  /// valid: a student is never a classroom owner while roles are exclusive.
  lemma StudentsNeverSeeAnswers(m: HttpMethod, db: Db, u: Option<UserId>, q: QuestionId, a: AnswerId, body: AnswerBody)
    requires QuizzesRefOk(db) && ClassroomsRefOk(db) && RolesExclusive(db)
    requires u.Some? && IsStudent(db, u.value)
    ensures AnswerList(m, db, u, q) != Allow
    ensures AnswerDetail(m, db, u, q, a, body) != Allow
    ensures AnswerCreate(m, db, u, q, body) != Allow
  {
    forall c | c in db.classrooms
      ensures !IsClassroomOwner(db, u.value, c)
    {
      var s :| s in db.students && db.students[s].user == u.value;
      assert db.classrooms[c].teacher in db.teachers;
    }
  }

  /// Whoever may list a question's answers may read each of them.
  lemma ListedAnswersAreReadable(m: HttpMethod, db: Db, u: Option<UserId>, q: QuestionId, a: AnswerId, body: AnswerBody)
    requires QuizzesRefOk(db) && AnswerList(m, db, u, q) == Allow && a in AnswersOf(db, q)
    ensures AnswerDetail(m, db, u, q, a, body) == Allow
  {
  }
}
