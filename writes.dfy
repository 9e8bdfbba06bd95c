/// The rows the views insert and update, as transitions of the store, each
/// keeping every database constraint. Ids and timestamps of new rows are
/// parameters (the source draws them from uuid4 and the clock).
module Writes {
  import opened Common
  import opened Store

  // ---------------------------------------------------------------- one table changes, the rest stays valid

  lemma ValidWithUsers(db: Db, t: map<UserId, User>)
    requires Valid(db) && EmailsUnique(t) && db.users.Keys <= t.Keys
    ensures Valid(db.(users := t))
  {
    var r := db.(users := t);
    assert ProfilesRefOk(r);
    assert PostsRefOk(r);
  }

  lemma ValidWithTeachers(db: Db, t: map<TeacherId, TeacherProfile>)
    requires Valid(db) && ProfilesRefOk(db.(teachers := t)) && ClassroomsRefOk(db.(teachers := t))
    requires ProfilesOneToOne(db.(teachers := t))
    ensures Valid(db.(teachers := t))
  {
  }

  lemma ValidWithStudents(db: Db, t: map<StudentId, StudentProfile>)
    requires Valid(db) && ProfilesRefOk(db.(students := t)) && ClassroomsRefOk(db.(students := t))
    requires SubmissionsRefOk(db.(students := t)) && ProfilesOneToOne(db.(students := t))
    ensures Valid(db.(students := t))
  {
  }

  lemma ValidWithClassrooms(db: Db, t: map<ClassroomId, Classroom>)
    requires Valid(db)
    requires ClassroomsRefOk(db.(classrooms := t)) && PostsRefOk(db.(classrooms := t)) &&
             QuizzesRefOk(db.(classrooms := t))
    ensures Valid(db.(classrooms := t))
  {
  }

  lemma ValidWithEnrollments(db: Db, t: map<EnrollmentId, Enrollment>)
    requires Valid(db) && ClassroomsRefOk(db.(enrollments := t)) && EnrollmentsUnique(t)
    ensures Valid(db.(enrollments := t))
  {
  }

  lemma ValidWithPosts(db: Db, t: map<PostId, CoursePost>)
    requires Valid(db) && PostsRefOk(db.(posts := t))
    ensures Valid(db.(posts := t))
  {
  }

  lemma ValidWithComments(db: Db, t: map<CommentId, Comment>)
    requires Valid(db) && PostsRefOk(db.(comments := t))
    ensures Valid(db.(comments := t))
  {
  }

  lemma ValidWithQuizzes(db: Db, t: map<QuizId, Quiz>)
    requires Valid(db) && QuizzesRefOk(db.(quizzes := t)) && SubmissionsRefOk(db.(quizzes := t))
    ensures Valid(db.(quizzes := t))
  {
  }

  lemma ValidWithQuestions(db: Db, t: map<QuestionId, Question>)
    requires Valid(db) && QuizzesRefOk(db.(questions := t))
    ensures Valid(db.(questions := t))
  {
  }

  lemma ValidWithAnswers(db: Db, t: map<AnswerId, Answer>)
    requires Valid(db) && QuizzesRefOk(db.(answers := t)) && SubmissionsRefOk(db.(answers := t))
    ensures Valid(db.(answers := t))
  {
  }

  lemma ValidWithStudentAnswers(db: Db, t: map<StudentAnswerId, StudentAnswer>)
    requires Valid(db) && SubmissionsRefOk(db.(studentAnswers := t)) && StudentAnswersUnique(t)
    ensures Valid(db.(studentAnswers := t))
  {
  }

  lemma ValidWithStudentQuizzes(db: Db, t: map<StudentQuizId, StudentQuiz>)
    requires Valid(db) && SubmissionsRefOk(db.(studentQuizzes := t)) && StudentQuizzesUnique(t)
    ensures Valid(db.(studentQuizzes := t))
  {
  }

  lemma CommentRowsRefOk(db: Db, t: map<CommentId, Comment>)
    requires PostsRefOk(db)
    requires forall k :: k in t ==> t[k].post in db.posts && t[k].user in db.users
    ensures PostsRefOk(db.(comments := t))
  {
  }

  lemma StudentAnswerRefsInsert(rows: map<StudentAnswerId, StudentAnswer>, students: map<StudentId, StudentProfile>,
                                answers: map<AnswerId, Answer>, id: StudentAnswerId, row: StudentAnswer)
    requires StudentAnswerRefs(rows, students, answers) && row.student in students && row.answer in answers
    ensures StudentAnswerRefs(rows[id := row], students, answers)
  {
  }

  lemma StudentAnswerUnique(rows: map<StudentAnswerId, StudentAnswer>, id: StudentAnswerId, row: StudentAnswer)
    requires StudentAnswersUnique(rows) && id !in rows
    requires forall r :: r in rows ==> rows[r] != row
    ensures StudentAnswersUnique(rows[id := row])
  {
  }

  lemma StudentQuizRefsInsert(rows: map<StudentQuizId, StudentQuiz>, students: map<StudentId, StudentProfile>,
                              quizzes: map<QuizId, Quiz>, id: StudentQuizId, row: StudentQuiz)
    requires StudentQuizRefs(rows, students, quizzes) && row.student in students && row.quiz in quizzes
    ensures StudentQuizRefs(rows[id := row], students, quizzes)
  {
  }

  lemma StudentQuizUnique(rows: map<StudentQuizId, StudentQuiz>, id: StudentQuizId, row: StudentQuiz)
    requires StudentQuizzesUnique(rows) && id !in rows
    requires forall r :: r in rows ==> rows[r].student != row.student || rows[r].quiz != row.quiz
    ensures StudentQuizzesUnique(rows[id := row])
  {
  }

  // ---------------------------------------------------------------- classrooms and enrollments

  /// ClassroomCreateAPIView.perform_create: the new classroom's teacher is the
  /// requester's profile.
  function CreateClassroom(db: Db, id: ClassroomId, name: string, teacher: TeacherId): (r: Db)
    requires Valid(db) && id !in db.classrooms && teacher in db.teachers
    ensures Valid(r) && r == db.(classrooms := db.classrooms[id := Classroom(name, teacher)])
  {
    var t := db.classrooms[id := Classroom(name, teacher)];
    assert ClassroomsRefOk(db.(classrooms := t));
    assert PostsRefOk(db.(classrooms := t));
    assert QuizzesRefOk(db.(classrooms := t));
    ValidWithClassrooms(db, t);
    db.(classrooms := t)
  }

  /// The classroom of a row never changes when a classroom is renamed.
  function RenameClassroom(db: Db, c: ClassroomId, name: string): (r: Db)
    requires Valid(db) && c in db.classrooms
    ensures Valid(r) && r == db.(classrooms := db.classrooms[c := db.classrooms[c].(name := name)])
  {
    var t := db.classrooms[c := db.classrooms[c].(name := name)];
    assert ClassroomsRefOk(db.(classrooms := t));
    assert PostsRefOk(db.(classrooms := t));
    assert QuizzesRefOk(db.(classrooms := t));
    ValidWithClassrooms(db, t);
    db.(classrooms := t)
  }

  const AlreadyEnrolled := "This student is already enrolled in the specified classroom."

  predicate Enrolled(db: Db, en: Enrollment)
  {
    exists e :: e in db.enrollments && db.enrollments[e] == en
  }

  /// Saving a StudentClassroom row: a pair already stored is refused.
  function Enroll(db: Db, id: EnrollmentId, en: Enrollment): (r: Result<Db>)
    requires Valid(db) && id !in db.enrollments && en.student in db.students && en.classroom in db.classrooms
    ensures r.Fail? <==> Enrolled(db, en)
    ensures r.Fail? ==> r.message == AlreadyEnrolled
    ensures r.Ok? ==> Valid(r.value) && r.value == db.(enrollments := db.enrollments[id := en])
  {
    if Enrolled(db, en) then Fail(AlreadyEnrolled)
    else
      EnrollKeepsValid(db, id, en);
      Ok(db.(enrollments := db.enrollments[id := en]))
  }

  lemma EnrollmentUnique(rows: map<EnrollmentId, Enrollment>, id: EnrollmentId, en: Enrollment)
    requires EnrollmentsUnique(rows) && id !in rows
    requires forall e :: e in rows ==> rows[e] != en
    ensures EnrollmentsUnique(rows[id := en])
  {
  }

  lemma EnrollKeepsValid(db: Db, id: EnrollmentId, en: Enrollment)
    requires Valid(db) && id !in db.enrollments && en.student in db.students && en.classroom in db.classrooms
    requires !Enrolled(db, en)
    ensures Valid(db.(enrollments := db.enrollments[id := en]))
  {
    var t := db.enrollments[id := en];
    assert EnrollmentRefs(t, db.students, db.classrooms);
    EnrollmentUnique(db.enrollments, id, en);
    ValidWithEnrollments(db, t);
  }

  // ---------------------------------------------------------------- posts and comments

  function CreatePost(db: Db, id: PostId, post: CoursePost): (r: Db)
    requires Valid(db) && id !in db.posts && post.classroom in db.classrooms
    ensures Valid(r) && r == db.(posts := db.posts[id := post])
  {
    var t := db.posts[id := post];
    assert PostsRefOk(db.(posts := t));
    ValidWithPosts(db, t);
    db.(posts := t)
  }

  /// A post's title and content change; its classroom stays.
  function UpdatePost(db: Db, p: PostId, title: string, content: string): (r: Db)
    requires Valid(db) && p in db.posts
    ensures Valid(r) && r == db.(posts := db.posts[p := db.posts[p].(title := title, content := content)])
  {
    var t := db.posts[p := db.posts[p].(title := title, content := content)];
    assert PostsRefOk(db.(posts := t));
    ValidWithPosts(db, t);
    db.(posts := t)
  }

  function CreateComment(db: Db, id: CommentId, comment: Comment): (r: Db)
    requires Valid(db) && id !in db.comments && comment.post in db.posts && comment.user in db.users
    ensures Valid(r) && r == db.(comments := db.comments[id := comment])
  {
    var t := db.comments[id := comment];
    CommentRowsRefOk(db, t);
    ValidWithComments(db, t);
    db.(comments := t)
  }

  /// A comment's content changes; its post and author stay.
  function UpdateComment(db: Db, k: CommentId, content: string): (r: Db)
    requires Valid(db) && k in db.comments
    ensures Valid(r) && r == db.(comments := db.comments[k := db.comments[k].(content := content)])
  {
    var t := db.comments[k := db.comments[k].(content := content)];
    CommentRowsRefOk(db, t);
    ValidWithComments(db, t);
    db.(comments := t)
  }

  // ---------------------------------------------------------------- quizzes, questions, answers

  function CreateQuiz(db: Db, id: QuizId, quiz: Quiz): (r: Db)
    requires Valid(db) && id !in db.quizzes && quiz.classroom in db.classrooms
    ensures Valid(r) && r == db.(quizzes := db.quizzes[id := quiz])
  {
    var t := db.quizzes[id := quiz];
    assert QuizzesRefOk(db.(quizzes := t));
    assert SubmissionsRefOk(db.(quizzes := t));
    ValidWithQuizzes(db, t);
    db.(quizzes := t)
  }

  /// `save()` of a quiz whose fields were assigned: title, content and
  /// classroom may all change; the creation time stays.
  function UpdateQuiz(db: Db, z: QuizId, quiz: Quiz): (r: Db)
    requires Valid(db) && z in db.quizzes && quiz.classroom in db.classrooms
    ensures Valid(r) && r == db.(quizzes := db.quizzes[z := quiz.(createdAt := db.quizzes[z].createdAt)])
  {
    var t := db.quizzes[z := quiz.(createdAt := db.quizzes[z].createdAt)];
    assert QuizzesRefOk(db.(quizzes := t));
    assert SubmissionsRefOk(db.(quizzes := t));
    ValidWithQuizzes(db, t);
    db.(quizzes := t)
  }

  function CreateQuestion(db: Db, id: QuestionId, question: Question): (r: Db)
    requires Valid(db) && id !in db.questions && question.quiz in db.quizzes
    ensures Valid(r) && r == db.(questions := db.questions[id := question])
  {
    var t := db.questions[id := question];
    assert QuizzesRefOk(db.(questions := t));
    ValidWithQuestions(db, t);
    db.(questions := t)
  }

  function UpdateQuestion(db: Db, q: QuestionId, question: Question): (r: Db)
    requires Valid(db) && q in db.questions && question.quiz in db.quizzes
    ensures Valid(r) && r == db.(questions := db.questions[q := question])
  {
    var t := db.questions[q := question];
    assert QuizzesRefOk(db.(questions := t));
    ValidWithQuestions(db, t);
    db.(questions := t)
  }

  function CreateAnswer(db: Db, id: AnswerId, answer: Answer): (r: Db)
    requires Valid(db) && id !in db.answers && answer.question in db.questions
    ensures Valid(r) && r == db.(answers := db.answers[id := answer])
  {
    var t := db.answers[id := answer];
    assert QuizzesRefOk(db.(answers := t));
    assert SubmissionsRefOk(db.(answers := t));
    ValidWithAnswers(db, t);
    db.(answers := t)
  }

  function UpdateAnswer(db: Db, a: AnswerId, answer: Answer): (r: Db)
    requires Valid(db) && a in db.answers && answer.question in db.questions
    ensures Valid(r) && r == db.(answers := db.answers[a := answer])
  {
    var t := db.answers[a := answer];
    assert QuizzesRefOk(db.(answers := t));
    assert SubmissionsRefOk(db.(answers := t));
    ValidWithAnswers(db, t);
    db.(answers := t)
  }

  // ---------------------------------------------------------------- submissions

  /// The rows of the student answering `answer`.
  predicate AlreadyAnswered(db: Db, student: StudentId, answer: AnswerId)
  {
    exists r :: r in db.studentAnswers && db.studentAnswers[r] == StudentAnswer(student, answer)
  }

  /// `StudentAnswer.objects.create`: the "student-answer" constraint refuses
  /// a pair already stored (None), otherwise the row `id` is added.
  function InsertStudentAnswer(db: Db, id: StudentAnswerId, row: StudentAnswer): (r: Option<Db>)
    requires Valid(db) && id !in db.studentAnswers && row.student in db.students && row.answer in db.answers
    ensures r.None? <==> AlreadyAnswered(db, row.student, row.answer)
    ensures r.Some? ==> Valid(r.value) && r.value == db.(studentAnswers := db.studentAnswers[id := row])
  {
    if AlreadyAnswered(db, row.student, row.answer) then None
    else
      InsertStudentAnswerKeepsValid(db, id, row);
      Some(db.(studentAnswers := db.studentAnswers[id := row]))
  }

  lemma InsertStudentAnswerKeepsValid(db: Db, id: StudentAnswerId, row: StudentAnswer)
    requires Valid(db) && id !in db.studentAnswers && row.student in db.students && row.answer in db.answers
    requires !AlreadyAnswered(db, row.student, row.answer)
    ensures Valid(db.(studentAnswers := db.studentAnswers[id := row]))
  {
    var t := db.studentAnswers[id := row];
    StudentAnswerRefsInsert(db.studentAnswers, db.students, db.answers, id, row);
    StudentAnswerUnique(db.studentAnswers, id, row);
    ValidWithStudentAnswers(db, t);
  }

  /// The mark of the student for the quiz is already stored.
  predicate AlreadyGraded(db: Db, student: StudentId, quiz: QuizId)
  {
    exists r :: r in db.studentQuizzes && db.studentQuizzes[r].student == student && db.studentQuizzes[r].quiz == quiz
  }

  /// `StudentQuiz.objects.create`: the "student-quiz" constraint refuses a
  /// second mark for the same pair (None), otherwise the row `id` is added.
  function InsertStudentQuiz(db: Db, id: StudentQuizId, row: StudentQuiz): (r: Option<Db>)
    requires Valid(db) && id !in db.studentQuizzes && row.student in db.students && row.quiz in db.quizzes
    ensures r.None? <==> AlreadyGraded(db, row.student, row.quiz)
    ensures r.Some? ==> Valid(r.value) && r.value == db.(studentQuizzes := db.studentQuizzes[id := row])
  {
    if AlreadyGraded(db, row.student, row.quiz) then None
    else
      InsertStudentQuizKeepsValid(db, id, row);
      Some(db.(studentQuizzes := db.studentQuizzes[id := row]))
  }

  lemma InsertStudentQuizKeepsValid(db: Db, id: StudentQuizId, row: StudentQuiz)
    requires Valid(db) && id !in db.studentQuizzes && row.student in db.students && row.quiz in db.quizzes
    requires !AlreadyGraded(db, row.student, row.quiz)
    ensures Valid(db.(studentQuizzes := db.studentQuizzes[id := row]))
  {
    var t := db.studentQuizzes[id := row];
    StudentQuizRefsInsert(db.studentQuizzes, db.students, db.quizzes, id, row);
    StudentQuizUnique(db.studentQuizzes, id, row);
    ValidWithStudentQuizzes(db, t);
  }

  /// Once a student answer is stored, the same pair is refused.
  lemma {:induction false} SecondAnswerRefused(db: Db, id: StudentAnswerId, id2: StudentAnswerId, row: StudentAnswer)
    requires Valid(db) && id !in db.studentAnswers && row.student in db.students && row.answer in db.answers
    requires InsertStudentAnswer(db, id, row).Some?
    requires id2 !in InsertStudentAnswer(db, id, row).value.studentAnswers
    ensures InsertStudentAnswer(InsertStudentAnswer(db, id, row).value, id2, row).None?
  {
    var next := InsertStudentAnswer(db, id, row).value;
    assert next.studentAnswers[id] == row;
  }

  /// Once a mark is stored, a second mark for the same student and quiz is refused.
  lemma {:induction false} SecondMarkRefused(db: Db, id: StudentQuizId, id2: StudentQuizId, row: StudentQuiz,
                                             row2: StudentQuiz)
    requires Valid(db) && id !in db.studentQuizzes && row.student in db.students && row.quiz in db.quizzes
    requires InsertStudentQuiz(db, id, row).Some?
    requires id2 !in InsertStudentQuiz(db, id, row).value.studentQuizzes
    requires row2.student == row.student && row2.quiz == row.quiz
    ensures InsertStudentQuiz(InsertStudentQuiz(db, id, row).value, id2, row2).None?
  {
    var next := db.(studentQuizzes := db.studentQuizzes[id := row]);
    assert InsertStudentQuiz(db, id, row).value == next;
    assert next.studentQuizzes[id].student == row2.student && next.studentQuizzes[id].quiz == row2.quiz;
    assert AlreadyGraded(next, row2.student, row2.quiz);
  }
}
