/// The `__str__` methods of the models: how the admin site and the shell
/// name a profile, a quiz, a post, a question, an answer, a comment, a
/// submitted answer and a mark.
module Display {
  import opened Common
  import opened Store
  import opened Text
  import opened Dates
  import opened Managers

  /// `s[:n]`.
  function Take(s: string, n: nat): (r: string)
    ensures |r| == (if |s| < n then |s| else n)
    ensures |r| <= |s| && r == s[..|r|]
  {
    if |s| <= n then s else s[..n]
  }

  /// Question.__str__: the first ten characters of the description, then "...".
  function QuestionLabel(q: Question): (r: string)
    ensures 3 <= |r| <= 13 && r[|r| - 3..] == "..."
    ensures r[..|r| - 3] == Take(q.description, 10)
  {
    Take(q.description, 10) + "..."
  }

  /// Answer.__str__: the first ten characters of the description.
  function AnswerLabel(a: Answer): (r: string)
    ensures |r| == (if |a.description| < 10 then |a.description| else 10) && r == a.description[..|r|]
  {
    Take(a.description, 10)
  }

  /// Comment.__str__: the first ten characters of the content, then "...".
  function CommentLabel(c: Comment): (r: string)
    ensures 3 <= |r| <= 13 && r[|r| - 3..] == "..."
    ensures r[..|r| - 3] == Take(c.content, 10)
  {
    Take(c.content, 10) + "..."
  }

  /// Quiz.__str__: "title-classroom name".
  function QuizLabel(db: Db, z: QuizId): (r: string)
    requires z in db.quizzes && db.quizzes[z].classroom in db.classrooms
    ensures |r| == |db.quizzes[z].title| + 1 + |db.classrooms[db.quizzes[z].classroom].name|
    ensures r[..|db.quizzes[z].title|] == db.quizzes[z].title && r[|db.quizzes[z].title|] == '-'
    ensures r[|db.quizzes[z].title| + 1..] == db.classrooms[db.quizzes[z].classroom].name
  {
    var quiz := db.quizzes[z];
    quiz.title + "-" + db.classrooms[quiz.classroom].name
  }

  /// CoursePost.__str__: "title-classroom name".
  function PostLabel(db: Db, p: PostId): (r: string)
    requires p in db.posts && db.posts[p].classroom in db.classrooms
    ensures |r| == |db.posts[p].title| + 1 + |db.classrooms[db.posts[p].classroom].name|
    ensures r[..|db.posts[p].title|] == db.posts[p].title && r[|db.posts[p].title|] == '-'
    ensures r[|db.posts[p].title| + 1..] == db.classrooms[db.posts[p].classroom].name
  {
    var post := db.posts[p];
    post.title + "-" + db.classrooms[post.classroom].name
  }

  /// `s.split("@")[0]`: the text before the first '@', all of `s` when it
  /// holds none.
  function BeforeFirstAt(s: string): (r: string)
    ensures |r| <= |s| && r == s[..|r|]
    ensures forall i | 0 <= i < |r| :: r[i] != '@'
    ensures |r| < |s| ==> s[|r|] == '@'
  {
    if s == [] || s[0] == '@' then [] else [s[0]] + BeforeFirstAt(s[1..])
  }

  /// The part before the first '@' of `local + "@" + rest` is `local` when
  /// `local` holds no '@'.
  lemma {:induction false} BeforeFirstAtJoined(local: string, rest: string)
    requires forall i | 0 <= i < |local| :: local[i] != '@'
    ensures BeforeFirstAt(local + "@" + rest) == local
  {
    if local != [] {
      assert (local + "@" + rest)[1..] == local[1..] + "@" + rest;
      BeforeFirstAtJoined(local[1..], rest);
    }
  }

  /// TeacherProfile.__str__ and StudentProfile.__str__: the user's e-mail
  /// up to its first '@'.
  function ProfileLabel(db: Db, owner: UserId): (r: string)
    requires owner in db.users
    ensures |r| <= |db.users[owner].email| && r == db.users[owner].email[..|r|]
    ensures forall i | 0 <= i < |r| :: r[i] != '@'
    ensures |r| < |db.users[owner].email| ==> db.users[owner].email[|r|] == '@'
  {
    BeforeFirstAt(db.users[owner].email)
  }

  /// The label of a profile is the local part the user typed: the
  /// normalisation of the e-mail at creation only lower-cases the domain.
  lemma ProfileLabelOfNormalizedEmail(local: string, domain: string)
    requires forall i | 0 <= i < |local| :: local[i] != '@'
    requires forall k | 0 <= k < |domain| :: domain[k] != '@'
    requires local != [] && !IsSpace(local[0]) && domain != [] && !IsSpace(domain[|domain| - 1])
    ensures BeforeFirstAt(NormalizeEmail(local + "@" + domain)) == local
  {
    NormalizeEmailParts(local, domain);
    BeforeFirstAtJoined(local, Lower(domain));
  }

  /// `str` of the mark, a Decimal quantized to two places: the whole part,
  /// a dot and two digits of hundredths.
  function MarkText(mark: nat): (s: string)
    ensures |s| >= 4 && s[|s| - 3] == '.'
  {
    NatToString(mark / 100) + "." + Pad(mark % 100, 2)
  }

  /// The text of a mark reads back as the same number of hundredths.
  lemma MarkTextReadsBack(mark: nat)
    ensures var s := MarkText(mark);
      AllDigits(s[..|s| - 3]) && AllDigits(s[|s| - 2..]) &&
      100 * DigitsValue(s[..|s| - 3]) + DigitsValue(s[|s| - 2..]) == mark
  {
    var s := MarkText(mark);
    var whole, cents := NatToString(mark / 100), Pad(mark % 100, 2);
    assert s[..|s| - 3] == whole && s[|s| - 2..] == cents;
    DigitsValueOfNatToString(mark / 100);
    assert Power10(2) == 100 by {
      assert Power10(1) == 10;
    }
    DigitsValueOfPad(mark % 100, 2);
  }

  /// StudentAnswer.__str__: "student-answer".
  function StudentAnswerLabel(db: Db, r: StudentAnswerId): (t: string)
    requires ProfilesRefOk(db) && SubmissionsRefOk(db) && r in db.studentAnswers
    ensures var student := ProfileLabel(db, db.students[db.studentAnswers[r].student].user);
      var answer := AnswerLabel(db.answers[db.studentAnswers[r].answer]);
      |t| == |student| + 1 + |answer| &&
      t[..|student|] == student && t[|student|] == '-' && t[|student| + 1..] == answer
  {
    var row := db.studentAnswers[r];
    ProfileLabel(db, db.students[row.student].user) + "-" + AnswerLabel(db.answers[row.answer])
  }

  /// StudentQuiz.__str__: "student-quiz -> mark".
  function StudentQuizLabel(db: Db, r: StudentQuizId): (t: string)
    requires ProfilesRefOk(db) && QuizzesRefOk(db) && SubmissionsRefOk(db) && r in db.studentQuizzes
    ensures var student := ProfileLabel(db, db.students[db.studentQuizzes[r].student].user);
      var quiz := QuizLabel(db, db.studentQuizzes[r].quiz);
      var mark := MarkText(db.studentQuizzes[r].mark);
      |t| == |student| + 1 + |quiz| + 4 + |mark| &&
      t[..|student|] == student && t[|student|] == '-' &&
      t[|student| + 1..|student| + 1 + |quiz|] == quiz &&
      t[|student| + 1 + |quiz|..] == " -> " + mark
  {
    var row := db.studentQuizzes[r];
    ProfileLabel(db, db.students[row.student].user) + "-" + QuizLabel(db, row.quiz) + " -> " + MarkText(row.mark)
  }
}
