/// The relational store behind the Django models: one finite map per table,
/// keyed by primary key, and the integrity constraints the database enforces
/// (foreign keys, one-to-one profiles, unique pairs, unique e-mail).
module Store {
  import opened Common

  type UserId = nat
  type TeacherId = nat
  type StudentId = nat
  type ClassroomId = nat
  type EnrollmentId = nat
  type PostId = nat
  type CommentId = nat
  type QuizId = nat
  type QuestionId = nat
  type AnswerId = nat
  type StudentAnswerId = nat
  type StudentQuizId = nat

  /// A `datetime.date`; a timestamp is an opaque monotone counter.
  datatype Date = Date(year: int, month: int, day: int)
  type Timestamp = nat

  /// `set_password(None)` stores an unusable password; hashing is not modelled.
  datatype Password = Unusable | Usable(raw: string)

  datatype User = User(
    email: string,
    password: Password,
    firstName: string,
    lastName: string,
    isTeacher: bool,
    isStaff: bool,
    isSuperuser: bool,
    isActive: bool)

  datatype TeacherProfile = TeacherProfile(
    user: UserId,
    bio: Option<string>,
    dateOfBirth: Option<Date>,
    yearsOfExperience: Option<nat>)

  datatype StudentProfile = StudentProfile(
    user: UserId,
    bio: Option<string>,
    dateOfBirth: Option<Date>)

  datatype Classroom = Classroom(name: string, teacher: TeacherId)

  /// A StudentClassroom row.
  datatype Enrollment = Enrollment(student: StudentId, classroom: ClassroomId)

  datatype CoursePost = CoursePost(title: string, content: string, classroom: ClassroomId, createdAt: Timestamp)

  datatype Comment = Comment(content: string, post: PostId, user: UserId, createdAt: Timestamp)

  datatype Quiz = Quiz(title: string, content: Option<string>, classroom: ClassroomId, createdAt: Timestamp)

  datatype Question = Question(description: string, quiz: QuizId)

  datatype Answer = Answer(description: string, isValid: bool, question: QuestionId)

  datatype StudentAnswer = StudentAnswer(student: StudentId, answer: AnswerId)

  /// `mark` is the Decimal(5, 2) column counted in hundredths.
  datatype StudentQuiz = StudentQuiz(student: StudentId, quiz: QuizId, mark: nat, answeredAt: Timestamp)

  datatype Db = Db(
    users: map<UserId, User>,
    teachers: map<TeacherId, TeacherProfile>,
    students: map<StudentId, StudentProfile>,
    classrooms: map<ClassroomId, Classroom>,
    enrollments: map<EnrollmentId, Enrollment>,
    posts: map<PostId, CoursePost>,
    comments: map<CommentId, Comment>,
    quizzes: map<QuizId, Quiz>,
    questions: map<QuestionId, Question>,
    answers: map<AnswerId, Answer>,
    studentAnswers: map<StudentAnswerId, StudentAnswer>,
    studentQuizzes: map<StudentQuizId, StudentQuiz>)

  function EmptyDb(): (db: Db)
    ensures Valid(db)
  {
    Db(map[], map[], map[], map[], map[], map[], map[], map[], map[], map[], map[], map[])
  }

  // ---------------------------------------------------------------- foreign keys

  // Each constraint is stated over the tables it reads, so that a write to
  // another table leaves it syntactically unchanged.

  predicate ProfileRefs(users: map<UserId, User>, teachers: map<TeacherId, TeacherProfile>,
                        students: map<StudentId, StudentProfile>)
  {
    (forall t :: t in teachers ==> teachers[t].user in users) &&
    (forall s :: s in students ==> students[s].user in users)
  }

  predicate ProfilesRefOk(db: Db)
  {
    ProfileRefs(db.users, db.teachers, db.students)
  }

  predicate ClassroomRefs(classrooms: map<ClassroomId, Classroom>, teachers: map<TeacherId, TeacherProfile>)
  {
    forall c :: c in classrooms ==> classrooms[c].teacher in teachers
  }

  predicate EnrollmentRefs(enrollments: map<EnrollmentId, Enrollment>, students: map<StudentId, StudentProfile>,
                           classrooms: map<ClassroomId, Classroom>)
  {
    forall e :: e in enrollments ==> enrollments[e].student in students && enrollments[e].classroom in classrooms
  }

  predicate ClassroomsRefOk(db: Db)
  {
    ClassroomRefs(db.classrooms, db.teachers) && EnrollmentRefs(db.enrollments, db.students, db.classrooms)
  }

  predicate PostRefs(posts: map<PostId, CoursePost>, classrooms: map<ClassroomId, Classroom>)
  {
    forall p :: p in posts ==> posts[p].classroom in classrooms
  }

  predicate CommentRefs(comments: map<CommentId, Comment>, posts: map<PostId, CoursePost>, users: map<UserId, User>)
  {
    forall k :: k in comments ==> comments[k].post in posts && comments[k].user in users
  }

  predicate PostsRefOk(db: Db)
  {
    PostRefs(db.posts, db.classrooms) && CommentRefs(db.comments, db.posts, db.users)
  }

  predicate QuizRefs(quizzes: map<QuizId, Quiz>, classrooms: map<ClassroomId, Classroom>)
  {
    forall z :: z in quizzes ==> quizzes[z].classroom in classrooms
  }

  predicate QuestionRefs(questions: map<QuestionId, Question>, quizzes: map<QuizId, Quiz>)
  {
    forall q :: q in questions ==> questions[q].quiz in quizzes
  }

  predicate AnswerRefs(answers: map<AnswerId, Answer>, questions: map<QuestionId, Question>)
  {
    forall a :: a in answers ==> answers[a].question in questions
  }

  predicate QuizzesRefOk(db: Db)
  {
    QuizRefs(db.quizzes, db.classrooms) && QuestionRefs(db.questions, db.quizzes) &&
    AnswerRefs(db.answers, db.questions)
  }

  predicate StudentAnswerRefs(rows: map<StudentAnswerId, StudentAnswer>, students: map<StudentId, StudentProfile>,
                              answers: map<AnswerId, Answer>)
  {
    forall r :: r in rows ==> rows[r].student in students && rows[r].answer in answers
  }

  predicate StudentQuizRefs(rows: map<StudentQuizId, StudentQuiz>, students: map<StudentId, StudentProfile>,
                            quizzes: map<QuizId, Quiz>)
  {
    forall r :: r in rows ==> rows[r].student in students && rows[r].quiz in quizzes
  }

  predicate SubmissionsRefOk(db: Db)
  {
    StudentAnswerRefs(db.studentAnswers, db.students, db.answers) &&
    StudentQuizRefs(db.studentQuizzes, db.students, db.quizzes)
  }

  // ---------------------------------------------------------------- unique constraints

  /// `User.email` is unique.
  predicate EmailsUnique(users: map<UserId, User>)
  {
    forall a, b :: a in users && b in users && users[a].email == users[b].email ==> a == b
  }

  /// The `user` OneToOneFields of both profile tables.
  predicate TeachersOneToOne(teachers: map<TeacherId, TeacherProfile>)
  {
    forall a, b :: a in teachers && b in teachers && teachers[a].user == teachers[b].user ==> a == b
  }

  predicate StudentsOneToOne(students: map<StudentId, StudentProfile>)
  {
    forall a, b :: a in students && b in students && students[a].user == students[b].user ==> a == b
  }

  predicate ProfilesOneToOne(db: Db)
  {
    TeachersOneToOne(db.teachers) && StudentsOneToOne(db.students)
  }

  /// A student is enrolled at most once in a classroom.
  predicate EnrollmentsUnique(enrollments: map<EnrollmentId, Enrollment>)
  {
    forall a, b :: a in enrollments && b in enrollments && enrollments[a] == enrollments[b] ==> a == b
  }

  /// The "student-answer" constraint.
  predicate StudentAnswersUnique(rows: map<StudentAnswerId, StudentAnswer>)
  {
    forall a, b :: a in rows && b in rows && rows[a] == rows[b] ==> a == b
  }

  /// The "student-quiz" constraint.
  predicate StudentQuizzesUnique(rows: map<StudentQuizId, StudentQuiz>)
  {
    forall a, b ::
      a in rows && b in rows && rows[a].student == rows[b].student && rows[a].quiz == rows[b].quiz ==> a == b
  }

  /// Every state the database accepts.
  predicate Valid(db: Db)
  {
    ProfilesRefOk(db) && ClassroomsRefOk(db) && PostsRefOk(db) && QuizzesRefOk(db) && SubmissionsRefOk(db) &&
    EmailsUnique(db.users) && ProfilesOneToOne(db) && EnrollmentsUnique(db.enrollments) &&
    StudentAnswersUnique(db.studentAnswers) && StudentQuizzesUnique(db.studentQuizzes)
  }

  /// Application invariant kept by the profile-creation hook (no database
  /// constraint enforces it): no user holds both kinds of profile.
  predicate RolesExclusive(db: Db)
  {
    RolesDisjoint(db.teachers, db.students)
  }

  predicate RolesDisjoint(teachers: map<TeacherId, TeacherProfile>, students: map<StudentId, StudentProfile>)
  {
    forall t, s :: t in teachers && s in students ==> teachers[t].user != students[s].user
  }

  // ---------------------------------------------------------------- navigation

  /// The classroom that owns a question or an answer, in a store whose quiz
  /// foreign keys hold.
  function ClassroomOfQuestion(db: Db, q: QuestionId): (c: ClassroomId)
    requires QuizzesRefOk(db) && q in db.questions
    ensures c in db.classrooms
  {
    db.quizzes[db.questions[q].quiz].classroom
  }

  function ClassroomOfAnswer(db: Db, a: AnswerId): (c: ClassroomId)
    requires QuizzesRefOk(db) && a in db.answers
    ensures c in db.classrooms
  {
    ClassroomOfQuestion(db, db.answers[a].question)
  }
}
