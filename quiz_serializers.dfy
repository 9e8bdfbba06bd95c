/// The serializers of quiz/serializers.py: the field-level checks the
/// framework runs first (`to_internal_value`), then each serializer's own
/// `validate`, and the rows its `create` writes.
///
/// A `validate` method receives the dictionary of validated fields and edits
/// it in place before returning it; `ValidatedData` is that dictionary, and
/// its methods are the source's `validate` methods. The checks they make are
/// also stated as functions, which the views use.
module QuizSerializers {
  import opened Common
  import opened Store
  import opened Grading
  import opened Writes
  import opened Text
  import opened Fields

  /// The CharField the framework derives from a required text column:
  /// present, not null, not blank.
  function RequiredText(v: Option<Json>): (r: Result<string>)
    ensures v.None? ==> r == Fail(FieldRequired)
    ensures v == Some(JNull) ==> r == Fail(MayNotBeNull)
    ensures v.Some? && (v.value.JBool? || v.value.JOther?) ==> r == Fail(NotAString)
    ensures r.Fail? ==> r.message in {FieldRequired, FieldBlank, MayNotBeNull, NotAString, NullCharacters}
  {
    match v
    case None => Fail(FieldRequired)
    case Some(j) =>
      match CharField(j, false, false, None)
      case Fail(msg) => Fail(msg)
      case Ok(text) => Ok(text.value)
  }

  /// The text values the required field takes, and what it keeps of them: a
  /// string or a number whose stripped text is neither empty nor holds a
  /// null character, stored stripped; a blank one is refused as blank.
  lemma RequiredTextAccepts(v: Json)
    ensures RequiredText(Some(v)).Ok? <==>
      IsTextLike(v) && Strip(TextOf(v)) != "" && HasNoNullCharacter(Strip(TextOf(v)))
    ensures RequiredText(Some(v)).Ok? ==> RequiredText(Some(v)).value == Strip(TextOf(v))
    ensures IsBlank(v) ==> RequiredText(Some(v)) == Fail(FieldBlank)
  {
  }

  /// A string with no white space at either end and no null character is
  /// taken as it is.
  lemma RequiredTextOfCleanString(s: string)
    requires s != [] && !IsSpace(s[0]) && !IsSpace(s[|s| - 1]) && HasNoNullCharacter(s)
    ensures RequiredText(Some(JString(s))) == Ok(s)
  {
    StripTrimmed(s);
    RequiredTextAccepts(JString(s));
  }

  /// `Quiz.title`: the required CharField with `max_length=200`, which takes
  /// every title the required text takes up to 200 characters.
  function TitleField(v: Option<Json>): (r: Result<string>)
    ensures r.Ok? <==> RequiredText(v).Ok? && |RequiredText(v).value| <= 200
    ensures r.Ok? ==> r.value == RequiredText(v).value
    ensures r.Fail? ==> r == RequiredText(v) || r == Fail(TooLong(200))
  {
    match v
    case None => Fail(FieldRequired)
    case Some(j) =>
      MaxLengthOnlyNarrows(j, false, false, 200);
      match CharField(j, false, false, Some(200))
      case Fail(msg) => Fail(msg)
      case Ok(text) => Ok(text.value)
  }

  /// `Quiz.content`, a nullable and blank-able text column: an optional
  /// CharField taking null and "". Absent is None, null is Some(None).
  function ContentField(v: Option<Json>): (r: Result<Option<Option<string>>>)
    ensures v.None? ==> r == Ok(None)
    ensures v == Some(JNull) ==> r == Ok(Some(None))
    ensures v.Some? && (v.value.JBool? || v.value.JOther?) ==> r == Fail(NotAString)
    ensures v.Some? && IsTextLike(v.value) ==>
      var text := Strip(TextOf(v.value));
      (r.Ok? <==> HasNoNullCharacter(text)) &&
      (r.Ok? ==> r.value == Some(Some(text))) &&
      (r.Fail? ==> r.message == NullCharacters)
  {
    match v
    case None => Ok(None)
    case Some(j) =>
      match CharField(j, true, true, None)
      case Fail(msg) => Fail(msg)
      case Ok(text) => Ok(Some(text))
  }

  // ---------------------------------------------------------------- QuizSerializer

  /// A quiz request body: the `title` and `content` values, each absent
  /// (None) or present, and the optional `classroom_id` UUID field.
  datatype QuizBody = QuizBody(title: Option<Json>, content: Option<Json>, classroomId: Option<ClassroomId>)

  datatype QuizData = QuizData(title: string, content: Option<Option<string>>, classroom: ClassroomId)

  /// QuizSerializer.validate on the validated fields: `classroom_id` first,
  /// then `title`.
  function QuizValidate(title: Option<string>, content: Option<Option<string>>, classroomId: Option<ClassroomId>)
    : (r: Result<QuizData>)
    ensures r.Ok? <==> classroomId.Some? && title.Some?
    ensures r.Ok? ==> r.value == QuizData(title.value, content, classroomId.value)
    ensures classroomId.None? ==> r == Fail("classroom_id is required.")
    ensures classroomId.Some? && title.None? ==> r == Fail("title is required.")
  {
    if classroomId.None? then Fail("classroom_id is required.")
    else if title.None? then Fail("title is required.")
    else Ok(QuizData(title.value, content, classroomId.value))
  }

  /// `is_valid(raise_exception=True)` on a QuizSerializer, for creation and for
  /// a full update alike: the field errors come first, in the order of the
  /// fields (`title`, then `content`), then `validate`.
  function ValidateQuiz(body: QuizBody): (r: Result<QuizData>)
    ensures r.Ok? <==> TitleField(body.title).Ok? && ContentField(body.content).Ok? && body.classroomId.Some?
    ensures r.Ok? ==> r.value == QuizData(TitleField(body.title).value, ContentField(body.content).value, body.classroomId.value)
    ensures TitleField(body.title).Fail? ==> r == Fail(TitleField(body.title).message)
    ensures TitleField(body.title).Ok? && ContentField(body.content).Fail? ==> r == Fail(ContentField(body.content).message)
    ensures TitleField(body.title).Ok? && ContentField(body.content).Ok? && body.classroomId.None? ==>
      r == Fail("classroom_id is required.")
  {
    match TitleField(body.title)
    case Fail(msg) => Fail(msg)
    case Ok(title) =>
      match ContentField(body.content)
      case Fail(msg) => Fail(msg)
      case Ok(content) => QuizValidate(Some(title), content, body.classroomId)
  }

  /// The "title is required." branch of `validate` is dead: the title field is
  /// required, so a body without it never reaches `validate`.
  lemma QuizTitleCheckUnreachable(body: QuizBody)
    ensures ValidateQuiz(body) != Fail("title is required.")
  {
    if TitleField(body.title).Fail? && RequiredText(body.title).Ok? {
      assert TitleField(body.title).message == TooLong(200);
    }
  }

  /// QuizSerializer.create: the classroom must exist; an absent content is
  /// stored as null.
  function CreateQuiz(db: Db, data: QuizData, now: Timestamp): (r: Result<Quiz>)
    ensures r.Ok? <==> data.classroom in db.classrooms
    ensures r.Fail? ==> r.message == "Classroom does not exist"
    ensures r.Ok? ==> r.value.title == data.title && r.value.classroom == data.classroom && r.value.createdAt == now
    ensures r.Ok? && data.content.None? ==> r.value.content.None?
    ensures r.Ok? && data.content.Some? ==> r.value.content == data.content.value
  {
    if data.classroom !in db.classrooms then Fail("Classroom does not exist")
    else Ok(Quiz(data.title, if data.content.Some? then data.content.value else None, data.classroom, now))
  }

  /// ModelSerializer.update on a quiz: each validated key is assigned to the
  /// instance. `content` is not required (its column is nullable), so a body
  /// without it leaves the stored content as it was; the creation time is
  /// never part of the data.
  function QuizAfterPut(q: Quiz, data: QuizData): (r: Quiz)
    ensures r.title == data.title && r.classroom == data.classroom && r.createdAt == q.createdAt
    ensures data.content.None? ==> r.content == q.content
    ensures data.content.Some? ==> r.content == data.content.value
  {
    var updated := q.(title := data.title, classroom := data.classroom);
    if data.content.Some? then updated.(content := data.content.value) else updated
  }

  /// Putting the same body twice leaves the quiz as putting it once.
  lemma QuizAfterPutIdempotent(q: Quiz, data: QuizData)
    ensures QuizAfterPut(QuizAfterPut(q, data), data) == QuizAfterPut(q, data)
  {
  }

  /// A PUT with the fields a quiz was created from gives back that quiz.
  lemma QuizAfterPutOfCreated(db: Db, data: QuizData, now: Timestamp)
    requires CreateQuiz(db, data, now).Ok?
    ensures QuizAfterPut(CreateQuiz(db, data, now).value, data) == CreateQuiz(db, data, now).value
  {
  }

  // ---------------------------------------------------------------- QuestionSerializer

  /// The checks of QuestionSerializer.validate: the `quiz_id` of the context
  /// must be given and name an existing quiz.
  function QuestionParent(db: Db, quizParam: Option<QuizId>): (r: Result<QuizId>)
    ensures r.Ok? <==> quizParam.Some? && quizParam.value in db.quizzes
    ensures r.Ok? ==> r.value == quizParam.value
    ensures quizParam.None? ==> r == Fail("quiz_id param is required.")
    ensures quizParam.Some? && quizParam.value !in db.quizzes ==> r == Fail("Quiz does not exist")
  {
    match quizParam
    case None => Fail("quiz_id param is required.")
    case Some(z) => if z !in db.quizzes then Fail("Quiz does not exist") else Ok(z)
  }

  datatype QuestionData = QuestionData(description: string, quiz: QuizId)

  /// `is_valid` on a QuestionSerializer: the description field, then
  /// `validate`, which attaches the quiz of the context.
  function ValidateQuestion(db: Db, description: Option<Json>, quizParam: Option<QuizId>): (r: Result<QuestionData>)
    ensures r.Ok? <==> RequiredText(description).Ok? && QuestionParent(db, quizParam).Ok?
    ensures r.Ok? ==> r.value == QuestionData(RequiredText(description).value, quizParam.value) && r.value.quiz in db.quizzes
    ensures RequiredText(description).Fail? ==> r == Fail(RequiredText(description).message)
    ensures RequiredText(description).Ok? && QuestionParent(db, quizParam).Fail? ==>
      r == Fail(QuestionParent(db, quizParam).message)
  {
    match RequiredText(description)
    case Fail(msg) => Fail(msg)
    case Ok(text) =>
      match QuestionParent(db, quizParam)
      case Fail(msg) => Fail(msg)
      case Ok(z) => Ok(QuestionData(text, z))
  }

  // ---------------------------------------------------------------- AnswerSerializer

  datatype AnswerBody = AnswerBody(description: Option<Json>, isValid: Option<Json>)

  /// AnswerSerializer.to_internal_value: a present `is_valid` that is not a
  /// JSON boolean is refused before any other field is looked at; then the
  /// framework's checks of `description` and `is_valid`, both required.
  function AnswerToInternal(body: AnswerBody): (r: Result<(string, bool)>)
    ensures body.isValid.Some? && !body.isValid.value.JBool? ==> r == Fail("Not a valid boolean.")
    ensures r.Ok? <==>
      RequiredText(body.description).Ok? && body.isValid.Some? && body.isValid.value.JBool?
    ensures r.Ok? ==> r.value == (RequiredText(body.description).value, body.isValid.value.b)
  {
    if body.isValid.Some? && !body.isValid.value.JBool? then Fail("Not a valid boolean.")
    else match RequiredText(body.description)
      case Fail(msg) => Fail(msg)
      case Ok(text) => if body.isValid.None? then Fail(FieldRequired) else Ok((text, body.isValid.value.b))
  }

  /// The checks of AnswerSerializer.validate: the `question_id` of the
  /// context must be given and name an existing question.
  function AnswerParent(db: Db, questionParam: Option<QuestionId>): (r: Result<QuestionId>)
    ensures r.Ok? <==> questionParam.Some? && questionParam.value in db.questions
    ensures r.Ok? ==> r.value == questionParam.value
    ensures questionParam.None? ==> r == Fail("question_id param is required.")
    ensures questionParam.Some? && questionParam.value !in db.questions ==> r == Fail("Question does not exist")
  {
    match questionParam
    case None => Fail("question_id param is required.")
    case Some(q) => if q !in db.questions then Fail("Question does not exist") else Ok(q)
  }

  datatype AnswerData = AnswerData(description: string, isValid: bool, question: QuestionId)

  /// `is_valid` on an AnswerSerializer.
  function ValidateAnswer(db: Db, body: AnswerBody, questionParam: Option<QuestionId>): (r: Result<AnswerData>)
    ensures r.Ok? <==> AnswerToInternal(body).Ok? && AnswerParent(db, questionParam).Ok?
    ensures r.Ok? ==>
      r.value == AnswerData(RequiredText(body.description).value, body.isValid.value.b, questionParam.value) &&
      r.value.question in db.questions
    ensures AnswerToInternal(body).Fail? ==> r == Fail(AnswerToInternal(body).message)
  {
    match AnswerToInternal(body)
    case Fail(msg) => Fail(msg)
    case Ok(fields) =>
      match AnswerParent(db, questionParam)
      case Fail(msg) => Fail(msg)
      case Ok(q) => Ok(AnswerData(fields.0, fields.1, q))
  }

  /// The boolean check precedes the parent check: a non-boolean `is_valid`
  /// is reported even when the question does not exist.
  lemma NonBooleanReportedFirst(db: Db, body: AnswerBody, questionParam: Option<QuestionId>)
    requires body.isValid.Some? && !body.isValid.value.JBool?
    ensures ValidateAnswer(db, body, questionParam) == Fail("Not a valid boolean.")
  {
  }

  // ---------------------------------------------------------------- StudentAnswerSerializer

  /// The write-only `question_id` and `answer_id` fields of the body.
  datatype SubmissionBody = SubmissionBody(questionId: Option<QuestionId>, answerId: Option<AnswerId>)

  datatype Submission = Submission(quiz: QuizId, question: QuestionId, answer: AnswerId, student: StudentId)

  /// The lookups of StudentAnswerSerializer.validate, in their order: the
  /// `quiz_id` and `student` of the context, then the quiz, the question and
  /// an answer of that question. The question is never compared with the quiz.
  function SubmissionTarget(db: Db, quizParam: Option<QuizId>, student: Option<StudentId>,
                            question: QuestionId, answer: AnswerId): (r: Result<Submission>)
    ensures r.Ok? <==>
      quizParam.Some? && student.Some? && quizParam.value in db.quizzes && question in db.questions &&
      answer in db.answers && db.answers[answer].question == question
    ensures r.Ok? ==> r.value == Submission(quizParam.value, question, answer, student.value)
    ensures quizParam.None? ==> r == Fail("quiz_id param is required.")
    ensures quizParam.Some? && student.None? ==> r == Fail("student not found.")
    ensures quizParam.Some? && student.Some? && quizParam.value !in db.quizzes ==> r == Fail("Quiz does not exist.")
    ensures quizParam.Some? && student.Some? && quizParam.value in db.quizzes && question !in db.questions ==>
      r == Fail("Question does not exist.")
    ensures quizParam.Some? && student.Some? && quizParam.value in db.quizzes && question in db.questions ==>
      (r == Fail("Answer does not exist.") <==> answer !in db.answers || db.answers[answer].question != question)
  {
    if quizParam.None? then Fail("quiz_id param is required.")
    else if student.None? then Fail("student not found.")
    else if quizParam.value !in db.quizzes then Fail("Quiz does not exist.")
    else if question !in db.questions then Fail("Question does not exist.")
    else if answer !in db.answers || db.answers[answer].question != question then Fail("Answer does not exist.")
    else Ok(Submission(quizParam.value, question, answer, student.value))
  }

  /// `is_valid` on a StudentAnswerSerializer: both ids are required fields.
  function ValidateSubmission(db: Db, quizParam: Option<QuizId>, student: Option<StudentId>, body: SubmissionBody)
    : (r: Result<Submission>)
    ensures r.Ok? <==>
      body.questionId.Some? && body.answerId.Some? &&
      SubmissionTarget(db, quizParam, student, body.questionId.value, body.answerId.value).Ok?
    ensures r.Ok? ==>
      r.value.answer in db.answers && db.answers[r.value.answer].question == r.value.question &&
      r.value.question in db.questions && r.value.quiz in db.quizzes
    ensures body.questionId.None? || body.answerId.None? ==> r == Fail(FieldRequired)
  {
    if body.questionId.None? || body.answerId.None? then Fail(FieldRequired)
    else SubmissionTarget(db, quizParam, student, body.questionId.value, body.answerId.value)
  }

  /// The question of a submission need not belong to the quiz of the URL: an
  /// answer to a question of another quiz is accepted.
  lemma SubmissionQuestionNotCheckedAgainstQuiz()
    ensures var db := EmptyDb().(
              quizzes := map[1 := Quiz("q1", None, 0, 0), 2 := Quiz("q2", None, 0, 0)],
              questions := map[5 := Question("in quiz 2", 2)],
              answers := map[7 := Answer("yes", true, 5)]);
            var r := ValidateSubmission(db, Some(1), Some(3), SubmissionBody(Some(5), Some(7)));
            r == Ok(Submission(1, 5, 7, 3)) && db.questions[r.value.question].quiz != r.value.quiz
  {
  }

  /// StudentAnswerSerializer.create: the IntegrityError of a pair already
  /// stored becomes a validation error.
  function CreateStudentAnswer(db: Db, s: Submission, id: StudentAnswerId): (r: Result<Db>)
    requires Valid(db) && id !in db.studentAnswers
    requires s.student in db.students && s.answer in db.answers
    ensures r.Fail? <==> AlreadyAnswered(db, s.student, s.answer)
    ensures r.Fail? ==> r.message == AnsweredTwice
    ensures r.Ok? ==> Valid(r.value) && r.value == db.(studentAnswers := db.studentAnswers[id := StudentAnswer(s.student, s.answer)])
  {
    match InsertStudentAnswer(db, id, StudentAnswer(s.student, s.answer))
    case None => Fail(AnsweredTwice)
    case Some(next) => Ok(next)
  }

  // ---------------------------------------------------------------- StudentQuizSerializer

  /// What StudentQuizSerializer.validate leaves in the data: the student's
  /// answers to questions of the quiz, the quiz and the student.
  datatype GradingInput = GradingInput(rows: set<StudentAnswerId>, quiz: QuizId, student: StudentId)

  /// StudentQuizSerializer.validate.
  function ValidateGrading(db: Db, quizParam: Option<QuizId>, student: Option<StudentId>): (r: Result<GradingInput>)
    ensures r.Ok? <==> quizParam.Some? && student.Some? && quizParam.value in db.quizzes
    ensures r.Ok? ==> r.value == GradingInput(SubmittedRows(db, student.value, quizParam.value), quizParam.value, student.value)
    ensures quizParam.None? ==> r == Fail("quiz_id param is required.")
    ensures quizParam.Some? && student.None? ==> r == Fail("student not found.")
    ensures quizParam.Some? && student.Some? && quizParam.value !in db.quizzes ==> r == Fail("Quiz does not exist.")
  {
    if quizParam.None? then Fail("quiz_id param is required.")
    else if student.None? then Fail("student not found.")
    else if quizParam.value !in db.quizzes then Fail("Quiz does not exist.")
    else Ok(GradingInput(SubmittedRows(db, student.value, quizParam.value), quizParam.value, student.value))
  }

  const NoQuestions := "Quiz has no questions."
  const AnsweredTwice := "Student cannot answer the same question again."

  /// The mark StudentQuizSerializer.create computes for `g`, before the insert:
  /// "Quiz has no questions." when the quiz has none.
  function GradeOf(db: Db, g: GradingInput): (r: Result<nat>)
    ensures r.Fail? <==> |QuestionsOf(db, g.quiz)| == 0
    ensures r.Fail? ==> r.message == NoQuestions
    ensures r.Ok? ==> 2 * Dist(r.value * |QuestionsOf(db, g.quiz)|, 10000 * |CorrectRows(db, g.rows)|) <= |QuestionsOf(db, g.quiz)|
  {
    var total := |QuestionsOf(db, g.quiz)|;
    if total == 0 then Fail(NoQuestions)
    else Ok(Mark(|CorrectRows(db, g.rows)|, total))
  }

  /// StudentQuizSerializer.create once the mark is known: "Quiz has no
  /// questions." for an empty quiz, otherwise the insert of the mark, which
  /// the "student-quiz" constraint refuses for a second mark of the same
  /// student and quiz; nobody catches that IntegrityError.
  function SaveGrade(db: Db, g: GradingInput, id: StudentQuizId, now: Timestamp): (r: Outcome<Db>)
    requires Valid(db) && id !in db.studentQuizzes && g.student in db.students && g.quiz in db.quizzes
    ensures r.Rejected? <==> |QuestionsOf(db, g.quiz)| == 0
    ensures r.Rejected? ==> r.message == NoQuestions
    ensures r.Crashed? <==> |QuestionsOf(db, g.quiz)| > 0 && AlreadyGraded(db, g.student, g.quiz)
    ensures r.Done? ==>
      Valid(r.value) &&
      r.value == db.(studentQuizzes := db.studentQuizzes[id := StudentQuiz(g.student, g.quiz, GradeOf(db, g).value, now)])
  {
    match GradeOf(db, g)
    case Fail(msg) => Rejected(msg)
    case Ok(mark) =>
      match InsertStudentQuiz(db, id, StudentQuiz(g.student, g.quiz, mark, now))
      case None => Crashed
      case Some(next) => Done(next)
  }

  /// A submission that answers every question of the quiz exactly once and
  /// correctly scores 100.00.
  lemma {:induction false} PerfectSubmissionScoresFull(db: Db, s: StudentId, z: QuizId)
    requires |QuestionsOf(db, z)| > 0
    requires |CorrectRows(db, SubmittedRows(db, s, z))| == |QuestionsOf(db, z)|
    ensures GradeOf(db, GradingInput(SubmittedRows(db, s, z), z, s)) == Ok(10000)
  {
    MarkOfAllValidIsFull(|QuestionsOf(db, z)|);
  }

  /// A submission with no valid answer scores 0.00.
  lemma {:induction false} NoValidAnswerScoresZero(db: Db, g: GradingInput)
    requires |QuestionsOf(db, g.quiz)| > 0 && CorrectRows(db, g.rows) == {}
    ensures GradeOf(db, g) == Ok(0)
  {
    MarkOfNoValidAnswerIsZero(|QuestionsOf(db, g.quiz)|);
  }

  // ---------------------------------------------------------------- the validated data

  /// A value held in the validated-data dictionary.
  datatype Value =
    | Uuid(id: nat)
    | Text(text: string)
    | Flag(flag: bool)
    | QuizRef(quiz: QuizId)
    | QuestionRef(question: QuestionId)
    | AnswerRef(answer: AnswerId)
    | StudentRef(student: StudentId)
    | Rows(rows: set<StudentAnswerId>)

  /// The dictionary of validated fields a `validate` method receives and
  /// returns after editing it.
  class ValidatedData {
    var fields: map<string, Value>

    constructor (fields: map<string, Value>)
      ensures this.fields == fields
    {
      this.fields := fields;
    }

    /// QuestionSerializer.validate: attaches the quiz of the context.
    method ValidateQuestionData(db: Db, quizParam: Option<QuizId>) returns (r: Result<QuizId>)
      modifies this
      ensures r == QuestionParent(db, quizParam)
      ensures fields == if r.Ok? then old(fields)["quiz" := QuizRef(r.value)] else old(fields)
    {
      if quizParam.None? {
        return Fail("quiz_id param is required.");
      }
      var z := quizParam.value;
      if z !in db.quizzes {
        return Fail("Quiz does not exist");
      }
      fields := fields["quiz" := QuizRef(z)];
      r := Ok(z);
    }

    /// AnswerSerializer.validate: attaches the question of the context.
    method ValidateAnswerData(db: Db, questionParam: Option<QuestionId>) returns (r: Result<QuestionId>)
      modifies this
      ensures r == AnswerParent(db, questionParam)
      ensures fields == if r.Ok? then old(fields)["question" := QuestionRef(r.value)] else old(fields)
    {
      if questionParam.None? {
        return Fail("question_id param is required.");
      }
      var q := questionParam.value;
      if q !in db.questions {
        return Fail("Question does not exist");
      }
      fields := fields["question" := QuestionRef(q)];
      r := Ok(q);
    }

    /// StudentAnswerSerializer.validate: replaces the two ids of the body by
    /// the quiz, the question, the answer and the student they resolve to.
    method ValidateStudentAnswerData(db: Db, quizParam: Option<QuizId>, student: Option<StudentId>)
      returns (r: Result<Submission>)
      requires "question_id" in fields && fields["question_id"].Uuid?
      requires "answer_id" in fields && fields["answer_id"].Uuid?
      modifies this
      ensures r == SubmissionTarget(db, quizParam, student, old(fields)["question_id"].id, old(fields)["answer_id"].id)
      ensures r.Fail? ==> fields == old(fields)
      ensures r.Ok? ==>
        fields == (old(fields) - {"question_id", "answer_id"})["quiz" := QuizRef(r.value.quiz)]
                    ["question" := QuestionRef(r.value.question)]["answer" := AnswerRef(r.value.answer)]
                    ["student" := StudentRef(r.value.student)]
    {
      r := SubmissionTarget(db, quizParam, student, fields["question_id"].id, fields["answer_id"].id);
      if r.Ok? {
        fields := fields - {"question_id"};
        fields := fields - {"answer_id"};
        fields := fields["quiz" := QuizRef(r.value.quiz)];
        fields := fields["question" := QuestionRef(r.value.question)];
        fields := fields["answer" := AnswerRef(r.value.answer)];
        fields := fields["student" := StudentRef(r.value.student)];
      }
    }

    /// StudentQuizSerializer.validate: adds the student's answers to the
    /// quiz's questions, the quiz and the student.
    method ValidateStudentQuizData(db: Db, quizParam: Option<QuizId>, student: Option<StudentId>)
      returns (r: Result<GradingInput>)
      modifies this
      ensures r == ValidateGrading(db, quizParam, student)
      ensures r.Fail? ==> fields == old(fields)
      ensures r.Ok? ==>
        fields == old(fields)["student_answers" := Rows(r.value.rows)]["quiz" := QuizRef(r.value.quiz)]
                    ["student" := StudentRef(r.value.student)]
    {
      r := ValidateGrading(db, quizParam, student);
      if r.Ok? {
        fields := fields["student_answers" := Rows(r.value.rows)];
        fields := fields["quiz" := QuizRef(r.value.quiz)];
        fields := fields["student" := StudentRef(r.value.student)];
      }
    }
  }
}
