/// Deleting rows with `on_delete=CASCADE`: the rows named, and every row that
/// refers to a deleted row, transitively. Every foreign key of the models
/// cascades, and the references form layers, so the closure is reached in one
/// pass from users down to student answers:
///
///   users -> profiles, comments
///   teacher profiles -> classrooms
///   classrooms -> enrollments, posts, quizzes
///   posts -> comments;  quizzes -> questions, student quizzes
///   questions -> answers;  answers, student profiles -> student answers
module Cascade {
  import opened Store

  /// The ids of the rows a delete removes, table by table.
  datatype Doomed = Doomed(
    users: set<UserId>,
    teachers: set<TeacherId>,
    students: set<StudentId>,
    classrooms: set<ClassroomId>,
    enrollments: set<EnrollmentId>,
    posts: set<PostId>,
    comments: set<CommentId>,
    quizzes: set<QuizId>,
    questions: set<QuestionId>,
    answers: set<AnswerId>,
    studentAnswers: set<StudentAnswerId>,
    studentQuizzes: set<StudentQuizId>)

  function Nothing(): Doomed
  {
    Doomed({}, {}, {}, {}, {}, {}, {}, {}, {}, {}, {}, {})
  }

  /// Every row that refers to a doomed row through a foreign key is doomed
  /// too.
  predicate ClosedUnder(db: Db, d: Doomed)
  {
    (forall t :: t in db.teachers && db.teachers[t].user in d.users ==> t in d.teachers) &&
    (forall s :: s in db.students && db.students[s].user in d.users ==> s in d.students) &&
    (forall c :: c in db.classrooms && db.classrooms[c].teacher in d.teachers ==> c in d.classrooms) &&
    (forall e :: e in db.enrollments && db.enrollments[e].student in d.students ==> e in d.enrollments) &&
    (forall e :: e in db.enrollments && db.enrollments[e].classroom in d.classrooms ==> e in d.enrollments) &&
    (forall p :: p in db.posts && db.posts[p].classroom in d.classrooms ==> p in d.posts) &&
    (forall k :: k in db.comments && db.comments[k].post in d.posts ==> k in d.comments) &&
    (forall k :: k in db.comments && db.comments[k].user in d.users ==> k in d.comments) &&
    (forall z :: z in db.quizzes && db.quizzes[z].classroom in d.classrooms ==> z in d.quizzes) &&
    (forall q :: q in db.questions && db.questions[q].quiz in d.quizzes ==> q in d.questions) &&
    (forall a :: a in db.answers && db.answers[a].question in d.questions ==> a in d.answers) &&
    (forall r :: r in db.studentAnswers && db.studentAnswers[r].student in d.students ==> r in d.studentAnswers) &&
    (forall r :: r in db.studentAnswers && db.studentAnswers[r].answer in d.answers ==> r in d.studentAnswers) &&
    (forall r :: r in db.studentQuizzes && db.studentQuizzes[r].student in d.students ==> r in d.studentQuizzes) &&
    (forall r :: r in db.studentQuizzes && db.studentQuizzes[r].quiz in d.quizzes ==> r in d.studentQuizzes)
  }

  /// `big` dooms every row `small` dooms.
  predicate Includes(big: Doomed, small: Doomed)
  {
    small.users <= big.users && small.teachers <= big.teachers && small.students <= big.students &&
    small.classrooms <= big.classrooms && small.enrollments <= big.enrollments && small.posts <= big.posts &&
    small.comments <= big.comments && small.quizzes <= big.quizzes && small.questions <= big.questions &&
    small.answers <= big.answers && small.studentAnswers <= big.studentAnswers && small.studentQuizzes <= big.studentQuizzes
  }

  /// The roots, with every row that depends on a doomed row.
  function Closure(db: Db, roots: Doomed): (d: Doomed)
    ensures ClosedUnder(db, d)
  {
    var users := roots.users;
    var teachers := roots.teachers + set t | t in db.teachers && db.teachers[t].user in users;
    var students := roots.students + set s | s in db.students && db.students[s].user in users;
    var classrooms := roots.classrooms + set c | c in db.classrooms && db.classrooms[c].teacher in teachers;
    var enrollments := roots.enrollments +
      set e | e in db.enrollments && (db.enrollments[e].student in students || db.enrollments[e].classroom in classrooms);
    var posts := roots.posts + set p | p in db.posts && db.posts[p].classroom in classrooms;
    var comments := roots.comments +
      set k | k in db.comments && (db.comments[k].post in posts || db.comments[k].user in users);
    var quizzes := roots.quizzes + set z | z in db.quizzes && db.quizzes[z].classroom in classrooms;
    var questions := roots.questions + set q | q in db.questions && db.questions[q].quiz in quizzes;
    var answers := roots.answers + set a | a in db.answers && db.answers[a].question in questions;
    var studentAnswers := roots.studentAnswers +
      set r | r in db.studentAnswers &&
              (db.studentAnswers[r].student in students || db.studentAnswers[r].answer in answers);
    var studentQuizzes := roots.studentQuizzes +
      set r | r in db.studentQuizzes &&
              (db.studentQuizzes[r].student in students || db.studentQuizzes[r].quiz in quizzes);
    Doomed(users, teachers, students, classrooms, enrollments, posts, comments, quizzes, questions, answers,
           studentAnswers, studentQuizzes)
  }

  /// The closure dooms every root; of the users, only the roots.
  lemma ClosureHoldsRoots(db: Db, roots: Doomed)
    ensures Includes(Closure(db, roots), roots) && Closure(db, roots).users == roots.users
  {
  }

  /// Only the rows the foreign keys reach are doomed: a doomed row is a root
  /// or refers to a doomed row.
  lemma ClosureOnlyReaches(db: Db, roots: Doomed)
    ensures var d := Closure(db, roots);
      (forall t | t in d.teachers :: t in roots.teachers || (t in db.teachers && db.teachers[t].user in d.users)) &&
      (forall s | s in d.students :: s in roots.students || (s in db.students && db.students[s].user in d.users)) &&
      (forall c | c in d.classrooms ::
        c in roots.classrooms || (c in db.classrooms && db.classrooms[c].teacher in d.teachers)) &&
      (forall e | e in d.enrollments :: e in roots.enrollments ||
        (e in db.enrollments && (db.enrollments[e].student in d.students || db.enrollments[e].classroom in d.classrooms))) &&
      (forall p | p in d.posts :: p in roots.posts || (p in db.posts && db.posts[p].classroom in d.classrooms)) &&
      (forall k | k in d.comments :: k in roots.comments ||
        (k in db.comments && (db.comments[k].post in d.posts || db.comments[k].user in d.users))) &&
      (forall z | z in d.quizzes :: z in roots.quizzes || (z in db.quizzes && db.quizzes[z].classroom in d.classrooms)) &&
      (forall q | q in d.questions :: q in roots.questions || (q in db.questions && db.questions[q].quiz in d.quizzes)) &&
      (forall a | a in d.answers :: a in roots.answers || (a in db.answers && db.answers[a].question in d.questions)) &&
      (forall r | r in d.studentAnswers :: r in roots.studentAnswers ||
        (r in db.studentAnswers && (db.studentAnswers[r].student in d.students || db.studentAnswers[r].answer in d.answers))) &&
      (forall r | r in d.studentQuizzes :: r in roots.studentQuizzes ||
        (r in db.studentQuizzes && (db.studentQuizzes[r].student in d.students || db.studentQuizzes[r].quiz in d.quizzes)))
  {
  }

  /// The closure is the least set of rows that holds the roots and is closed
  /// under the foreign keys: any other such set dooms at least as much.
  lemma ClosureIsLeast(db: Db, roots: Doomed, other: Doomed)
    requires Includes(other, roots) && ClosedUnder(db, other)
    ensures Includes(other, Closure(db, roots))
  {
  }

  /// The store without the doomed rows.
  function Remove(db: Db, d: Doomed): Db
  {
    Db(db.users - d.users, db.teachers - d.teachers, db.students - d.students, db.classrooms - d.classrooms,
       db.enrollments - d.enrollments, db.posts - d.posts, db.comments - d.comments, db.quizzes - d.quizzes,
       db.questions - d.questions, db.answers - d.answers, db.studentAnswers - d.studentAnswers,
       db.studentQuizzes - d.studentQuizzes)
  }

  /// `delete()` on the rows of `roots`.
  function Delete(db: Db, roots: Doomed): Db
  {
    Remove(db, Closure(db, roots))
  }

  lemma RemoveKeepsProfileRefs(db: Db, d: Doomed)
    requires ProfilesRefOk(db) && d == Closure(db, d)
    ensures ProfilesRefOk(Remove(db, d))
  {
  }

  lemma RemoveKeepsClassroomRefs(db: Db, d: Doomed)
    requires ClassroomsRefOk(db) && d == Closure(db, d)
    ensures ClassroomsRefOk(Remove(db, d))
  {
  }

  lemma RemoveKeepsPostRefs(db: Db, d: Doomed)
    requires PostsRefOk(db) && d == Closure(db, d)
    ensures PostsRefOk(Remove(db, d))
  {
  }

  lemma RemoveKeepsQuizRefs(db: Db, d: Doomed)
    requires QuizzesRefOk(db) && d == Closure(db, d)
    ensures QuizzesRefOk(Remove(db, d))
  {
  }

  lemma RemoveKeepsSubmissionRefs(db: Db, d: Doomed)
    requires SubmissionsRefOk(db) && d == Closure(db, d)
    ensures SubmissionsRefOk(Remove(db, d))
  {
  }

  lemma RemoveKeepsUniqueness(db: Db, d: Doomed)
    requires Valid(db)
    ensures EmailsUnique(Remove(db, d).users) && ProfilesOneToOne(Remove(db, d))
    ensures EnrollmentsUnique(Remove(db, d).enrollments)
    ensures StudentAnswersUnique(Remove(db, d).studentAnswers) && StudentQuizzesUnique(Remove(db, d).studentQuizzes)
  {
  }

  /// The closure of a closure adds nothing.
  lemma ClosureIsClosed(db: Db, roots: Doomed)
    ensures Closure(db, Closure(db, roots)) == Closure(db, roots)
  {
  }

  /// A cascading delete leaves no row referring to a deleted row.
  lemma {:induction false} DeleteKeepsValid(db: Db, roots: Doomed)
    requires Valid(db)
    ensures Valid(Delete(db, roots))
  {
    var d := Closure(db, roots);
    ClosureIsClosed(db, roots);
    RemoveKeepsProfileRefs(db, d);
    RemoveKeepsClassroomRefs(db, d);
    RemoveKeepsPostRefs(db, d);
    RemoveKeepsQuizRefs(db, d);
    RemoveKeepsSubmissionRefs(db, d);
    RemoveKeepsUniqueness(db, d);
  }

  /// `after` is `before` without the rows of `doomed`, the others unchanged.
  predicate RemovedExactly<K, V(==)>(before: map<K, V>, after: map<K, V>, doomed: set<K>)
  {
    (forall k | k in after :: k in before && k !in doomed && after[k] == before[k]) &&
    (forall k | k in before && k !in doomed :: k in after)
  }

  /// A cascading delete removes exactly the closure, in every table, and
  /// keeps every other row unchanged.
  lemma DeleteRemovesExactlyTheClosure(db: Db, roots: Doomed)
    ensures var after, d := Delete(db, roots), Closure(db, roots);
      RemovedExactly(db.users, after.users, d.users) && RemovedExactly(db.teachers, after.teachers, d.teachers) &&
      RemovedExactly(db.students, after.students, d.students) &&
      RemovedExactly(db.classrooms, after.classrooms, d.classrooms) &&
      RemovedExactly(db.enrollments, after.enrollments, d.enrollments) &&
      RemovedExactly(db.posts, after.posts, d.posts) && RemovedExactly(db.comments, after.comments, d.comments) &&
      RemovedExactly(db.quizzes, after.quizzes, d.quizzes) &&
      RemovedExactly(db.questions, after.questions, d.questions) &&
      RemovedExactly(db.answers, after.answers, d.answers) &&
      RemovedExactly(db.studentAnswers, after.studentAnswers, d.studentAnswers) &&
      RemovedExactly(db.studentQuizzes, after.studentQuizzes, d.studentQuizzes)
  {
  }

  // ---------------------------------------------------------------- the deletes the views perform

  function DeleteUser(db: Db, u: UserId): Db
  {
    Delete(db, Nothing().(users := {u}))
  }

  function DeleteClassroom(db: Db, c: ClassroomId): Db
  {
    Delete(db, Nothing().(classrooms := {c}))
  }

  function DeleteEnrollment(db: Db, e: EnrollmentId): Db
  {
    Delete(db, Nothing().(enrollments := {e}))
  }

  function DeletePost(db: Db, p: PostId): Db
  {
    Delete(db, Nothing().(posts := {p}))
  }

  function DeleteComment(db: Db, k: CommentId): Db
  {
    Delete(db, Nothing().(comments := {k}))
  }

  function DeleteQuiz(db: Db, z: QuizId): Db
  {
    Delete(db, Nothing().(quizzes := {z}))
  }

  function DeleteQuestion(db: Db, q: QuestionId): Db
  {
    Delete(db, Nothing().(questions := {q}))
  }

  function DeleteAnswer(db: Db, a: AnswerId): Db
  {
    Delete(db, Nothing().(answers := {a}))
  }

  // ---------------------------------------------------------------- what each delete takes with it

  /// Deleting a user deletes their profiles and their comments.
  lemma DeleteUserRemovesProfilesAndComments(db: Db, u: UserId)
    ensures var after := DeleteUser(db, u);
            u !in after.users &&
            (forall t :: t in after.teachers ==> after.teachers[t].user != u) &&
            (forall s :: s in after.students ==> after.students[s].user != u) &&
            (forall k :: k in after.comments ==> after.comments[k].user != u)
  {
  }

  /// Deleting a post deletes its comments; its classroom and the other posts stay.
  lemma DeletePostRemovesItsComments(db: Db, p: PostId)
    ensures var after := DeletePost(db, p);
            p !in after.posts && after.classrooms == db.classrooms &&
            (forall k :: k in after.comments ==> after.comments[k].post != p) &&
            (forall p' :: p' in db.posts && p' != p ==> p' in after.posts)
  {
    var d := Closure(db, Nothing().(posts := {p}));
    ClosureOfPost(db, p);
    assert db.classrooms - d.classrooms == db.classrooms;
  }

  /// Deleting a post dooms no classroom and no other post.
  lemma ClosureOfPost(db: Db, p: PostId)
    ensures var d := Closure(db, Nothing().(posts := {p}));
            d.classrooms == {} && d.posts == {p}
  {
    var d := Closure(db, Nothing().(posts := {p}));
    assert d.users == {} && d.teachers == {};
  }

  /// Deleting a classroom deletes the comments of its posts, through the posts.
  lemma DeleteClassroomRemovesCommentsOfItsPosts(db: Db, c: ClassroomId, k: CommentId)
    requires k in db.comments && db.comments[k].post in db.posts && db.posts[db.comments[k].post].classroom == c
    ensures k !in DeleteClassroom(db, c).comments
  {
  }

  /// Deleting a classroom deletes the answers of the questions of its quizzes,
  /// and the students' answers to them.
  lemma DeleteClassroomRemovesQuizContent(db: Db, c: ClassroomId, r: StudentAnswerId)
    requires r in db.studentAnswers && db.studentAnswers[r].answer in db.answers
    requires db.answers[db.studentAnswers[r].answer].question in db.questions
    requires db.questions[db.answers[db.studentAnswers[r].answer].question].quiz in db.quizzes
    requires db.quizzes[db.questions[db.answers[db.studentAnswers[r].answer].question].quiz].classroom == c
    ensures r !in DeleteClassroom(db, c).studentAnswers
  {
  }

  /// Deleting a quiz deletes its questions and its marks, and nothing outside
  /// the quiz: the classroom, the posts and the other quizzes stay.
  lemma DeleteQuizRemovesQuestionsAndMarks(db: Db, z: QuizId)
    ensures var after := DeleteQuiz(db, z);
            z !in after.quizzes && after.classrooms == db.classrooms && after.posts == db.posts &&
            (forall q :: q in after.questions ==> after.questions[q].quiz != z) &&
            (forall r :: r in after.studentQuizzes ==> after.studentQuizzes[r].quiz != z) &&
            (forall z' :: z' in db.quizzes && z' != z ==> z' in after.quizzes)
  {
    var d := Closure(db, Nothing().(quizzes := {z}));
    ClosureOfQuiz(db, z);
    assert db.classrooms - d.classrooms == db.classrooms;
    assert db.posts - d.posts == db.posts;
  }

  /// Deleting a quiz dooms no classroom and no post.
  lemma ClosureOfQuiz(db: Db, z: QuizId)
    ensures var d := Closure(db, Nothing().(quizzes := {z}));
            d.classrooms == {} && d.posts == {} && d.quizzes == {z}
  {
    var d := Closure(db, Nothing().(quizzes := {z}));
    assert d.users == {} && d.teachers == {};
  }

  /// Deleting an answer deletes the student answers that chose it, and only those.
  lemma DeleteAnswerRemovesItsSubmissions(db: Db, a: AnswerId)
    ensures var after := DeleteAnswer(db, a);
            a !in after.answers && after.questions == db.questions &&
            (forall r :: r in db.studentAnswers ==> (r in after.studentAnswers <==> db.studentAnswers[r].answer != a))
  {
    var d := Closure(db, Nothing().(answers := {a}));
    ClosureOfAnswer(db, a);
    assert db.questions - d.questions == db.questions;
  }

  /// Deleting an answer dooms the answer and the student answers choosing it.
  lemma ClosureOfAnswer(db: Db, a: AnswerId)
    ensures var d := Closure(db, Nothing().(answers := {a}));
            d.questions == {} && d.answers == {a} &&
            forall r :: r in d.studentAnswers <==> r in db.studentAnswers && db.studentAnswers[r].answer == a
  {
    var d := Closure(db, Nothing().(answers := {a}));
    assert d.users == {} && d.teachers == {} && d.students == {};
    assert d.classrooms == {} && d.quizzes == {};
  }

  /// The closure of a single enrollment is that enrollment.
  lemma ClosureOfEnrollment(db: Db, e: EnrollmentId)
    ensures Closure(db, Nothing().(enrollments := {e})) == Nothing().(enrollments := {e})
  {
    var roots := Nothing().(enrollments := {e});
    ClosureIsLeast(db, roots, roots);
    ClosureHoldsRoots(db, roots);
    SameRows(Closure(db, roots), roots);
  }

  /// Two sets of doomed rows that include each other are equal.
  lemma SameRows(a: Doomed, b: Doomed)
    requires Includes(a, b) && Includes(b, a)
    ensures a == b
  {
  }

  /// Deleting an enrollment touches no other row.
  lemma {:induction false} DeleteEnrollmentOnlyRemovesIt(db: Db, e: EnrollmentId)
    ensures DeleteEnrollment(db, e) == db.(enrollments := db.enrollments - {e})
  {
    var d := Nothing().(enrollments := {e});
    ClosureOfEnrollment(db, e);
    RemoveOnlyEnrollments(db, d);
  }

  /// Removing only enrollments leaves the other tables as they are.
  lemma RemoveOnlyEnrollments(db: Db, d: Doomed)
    requires d == Nothing().(enrollments := d.enrollments)
    ensures Remove(db, d) == db.(enrollments := db.enrollments - d.enrollments)
  {
    assert db.users - {} == db.users;
    assert db.teachers - {} == db.teachers;
    assert db.students - {} == db.students;
    assert db.classrooms - {} == db.classrooms;
    assert db.posts - {} == db.posts;
    assert db.comments - {} == db.comments;
    assert db.quizzes - {} == db.quizzes;
    assert db.questions - {} == db.questions;
    assert db.answers - {} == db.answers;
    assert db.studentAnswers - {} == db.studentAnswers;
    assert db.studentQuizzes - {} == db.studentQuizzes;
  }
}
