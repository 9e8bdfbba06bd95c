/// Auto-grading of a quiz submission (StudentQuizSerializer.create): count the
/// student's submitted answers that are valid, divide by the number of
/// questions of the quiz, and keep the percentage to two decimal places.
///
/// The mark is held in hundredths of a percent, so 100.00 is 10000. The
/// division is exact and rounds half to even, the default rounding of
/// Python's Decimal.quantize.
module Grading {
  import opened Store

  function Dist(a: int, b: int): nat
  {
    if a <= b then b - a else a - b
  }

  /// Distributing a product over a sum of naturals.
  lemma MulGap(lo: nat, hi: nat, d: nat)
    requires lo < hi
    ensures hi * d >= lo * d + d
    ensures hi >= lo + 2 ==> hi * d >= lo * d + 2 * d
  {
    var k := hi - lo;
    assert hi * d == lo * d + k * d;
    assert k * d == (k - 1) * d + d;
    if k >= 2 {
      assert (k - 1) * d == (k - 2) * d + d;
    }
  }

  /// The two multiples of `d` on either side of `n`.
  lemma DivStep(n: nat, d: nat)
    requires d > 0
    ensures (n / d) * d == n - n % d && (n / d + 1) * d == n - n % d + d
  {
    var q := n / d;
    assert n == d * q + n % d;
    assert (q + 1) * d == q * d + d;
  }

  /// The quotient `q` or its successor, by the remainder `rem` of the division
  /// by `d`: below half, down; above half, up; at half, to the even one.
  function PickHalfEven(q: nat, rem: nat, d: nat): nat
  {
    if 2 * rem < d then q
    else if 2 * rem > d then q + 1
    else if q % 2 == 0 then q
    else q + 1
  }

  lemma PickHalfEvenNearest(q: nat, rem: nat, d: nat, n: nat)
    requires d > 0 && rem < d && q * d == n - rem && (q + 1) * d == n - rem + d
    ensures 2 * Dist(PickHalfEven(q, rem, d) * d, n) <= d
    ensures 2 * Dist(PickHalfEven(q, rem, d) * d, n) == d ==> PickHalfEven(q, rem, d) % 2 == 0
  {
    if 2 * rem < d || (2 * rem == d && q % 2 == 0) {
      assert PickHalfEven(q, rem, d) * d == n - rem;
    } else {
      assert PickHalfEven(q, rem, d) * d == n - rem + d;
    }
  }

  /// `n / d` rounded to the nearest integer, ties to the even neighbour.
  function RoundHalfEven(n: nat, d: nat): (r: nat)
    requires d > 0
    ensures 2 * Dist(r * d, n) <= d
    ensures 2 * Dist(r * d, n) == d ==> r % 2 == 0
  {
    DivStep(n, d);
    PickHalfEvenNearest(n / d, n % d, d, n);
    PickHalfEven(n / d, n % d, d)
  }

  /// An integer within half a step of `n / d` that is not a tie is the only one.
  lemma NearestIsUnique(n: nat, d: nat, r1: nat, r2: nat)
    requires d > 0
    requires 2 * Dist(r1 * d, n) <= d && 2 * Dist(r2 * d, n) <= d
    requires 2 * Dist(r1 * d, n) == d ==> r1 % 2 == 0
    requires 2 * Dist(r2 * d, n) == d ==> r2 % 2 == 0
    ensures r1 == r2
  {
    if r1 < r2 {
      MulGap(r1, r2, d);
    } else if r2 < r1 {
      MulGap(r2, r1, d);
    }
  }

  /// Rounding half to even never decreases when the numerator grows.
  lemma RoundHalfEvenMonotone(n1: nat, n2: nat, d: nat)
    requires d > 0 && n1 <= n2
    ensures RoundHalfEven(n1, d) <= RoundHalfEven(n2, d)
  {
    var r1, r2 := RoundHalfEven(n1, d), RoundHalfEven(n2, d);
    if r1 > r2 {
      MulGap(r2, r1, d);
    }
  }

  /// The rounding is exact when `d` divides `n`.
  lemma RoundHalfEvenExact(k: nat, d: nat)
    requires d > 0
    ensures RoundHalfEven(k * d, d) == k
  {
    var r := RoundHalfEven(k * d, d);
    assert Dist(k * d, k * d) == 0;
    NearestIsUnique(k * d, d, r, k);
  }

  /// The mark, in hundredths of a percent, of `correct` valid answers out of
  /// `total` questions: round(100 * correct / total, 2).
  function Mark(correct: nat, total: nat): (mark: nat)
    requires total > 0
    ensures 2 * Dist(mark * total, 10000 * correct) <= total
  {
    RoundHalfEven(10000 * correct, total)
  }

  lemma MarkOfNoValidAnswerIsZero(total: nat)
    requires total > 0
    ensures Mark(0, total) == 0
  {
    RoundHalfEvenExact(0, total);
  }

  /// One more valid answer never lowers the mark.
  lemma MarkMonotone(c1: nat, c2: nat, total: nat)
    requires total > 0 && c1 <= c2
    ensures Mark(c1, total) <= Mark(c2, total)
  {
    RoundHalfEvenMonotone(10000 * c1, 10000 * c2, total);
  }

  /// All questions answered validly gives exactly 100.00.
  lemma MarkOfAllValidIsFull(total: nat)
    requires total > 0
    ensures Mark(total, total) == 10000
  {
    assert 10000 * total == 10000 * total;
    RoundHalfEvenExact(10000, total);
  }

  /// With no more valid answers than questions the mark is at most 100.00.
  lemma MarkAtMostFull(correct: nat, total: nat)
    requires 0 < total && correct <= total
    ensures Mark(correct, total) <= 10000
  {
    MarkMonotone(correct, total, total);
    MarkOfAllValidIsFull(total);
  }

  /// The mark grows with the number of valid answers without any cap: twice as
  /// many valid answers as questions gives 200.00.
  lemma MarkIsNotCapped(total: nat)
    requires total > 0
    ensures Mark(2 * total, total) == 20000
  {
    assert 10000 * (2 * total) == 20000 * total;
    RoundHalfEvenExact(20000, total);
  }

  // ---------------------------------------------------------------- counting

  /// The StudentAnswer row `r` points at an answer whose `is_valid` is set.
  predicate IsCorrect(db: Db, r: StudentAnswerId)
  {
    r in db.studentAnswers && db.studentAnswers[r].answer in db.answers &&
    db.answers[db.studentAnswers[r].answer].isValid
  }

  function CorrectRows(db: Db, rows: set<StudentAnswerId>): set<StudentAnswerId>
  {
    set r | r in rows && IsCorrect(db, r)
  }

  /// The accumulator loop of StudentQuizSerializer.create: one increment per
  /// row whose answer is valid, in whatever order the query yields the rows.
  method CountCorrect(db: Db, rows: set<StudentAnswerId>) returns (correct: nat)
    ensures correct == |CorrectRows(db, rows)|
  {
    correct := 0;
    var remaining := rows;
    while remaining != {}
      invariant remaining <= rows
      invariant correct == |CorrectRows(db, rows - remaining)|
      decreases |remaining|
    {
      var r :| r in remaining;
      var done := rows - remaining;
      assert rows - (remaining - {r}) == done + {r};
      if IsCorrect(db, r) {
        assert CorrectRows(db, done + {r}) == CorrectRows(db, done) + {r};
        correct := correct + 1;
      } else {
        assert CorrectRows(db, done + {r}) == CorrectRows(db, done);
      }
      remaining := remaining - {r};
    }
    assert rows - remaining == rows;
  }

  /// `quiz.questions.count()`.
  function QuestionsOf(db: Db, z: QuizId): set<QuestionId>
  {
    set q | q in db.questions && db.questions[q].quiz == z
  }

  /// `student.student_answers.filter(answer__question__quiz=quiz)`.
  function SubmittedRows(db: Db, s: StudentId, z: QuizId): set<StudentAnswerId>
  {
    set r | r in db.studentAnswers && db.studentAnswers[r].student == s &&
            db.studentAnswers[r].answer in db.answers && db.answers[db.studentAnswers[r].answer].question in db.questions &&
            db.questions[db.answers[db.studentAnswers[r].answer].question].quiz == z
  }

  /// The question a StudentAnswer row answers.
  function QuestionOfRow(db: Db, r: StudentAnswerId): QuestionId
    requires r in db.studentAnswers && db.studentAnswers[r].answer in db.answers
  {
    db.answers[db.studentAnswers[r].answer].question
  }

  /// The student gave at most one valid answer per question of the quiz.
  predicate OneValidAnswerPerQuestion(db: Db, s: StudentId, z: QuizId)
  {
    var rows := CorrectRows(db, SubmittedRows(db, s, z));
    forall r1, r2 ::
      r1 in rows && r2 in rows && QuestionOfRow(db, r1) == QuestionOfRow(db, r2) ==> r1 == r2
  }

  /// A set no larger than the set it maps injectively into.
  lemma {:induction false} InjectionBound(db: Db, rows: set<StudentAnswerId>, questions: set<QuestionId>)
    requires forall r :: r in rows ==> r in db.studentAnswers && db.studentAnswers[r].answer in db.answers
    requires forall r :: r in rows ==> QuestionOfRow(db, r) in questions
    requires forall r1, r2 :: r1 in rows && r2 in rows && QuestionOfRow(db, r1) == QuestionOfRow(db, r2) ==> r1 == r2
    ensures |rows| <= |questions|
    decreases rows
  {
    if rows != {} {
      var r :| r in rows;
      var q := QuestionOfRow(db, r);
      assert forall r' :: r' in rows - {r} ==> QuestionOfRow(db, r') in questions - {q};
      InjectionBound(db, rows - {r}, questions - {q});
    }
  }

  /// When each question holds at most one of the student's valid answers, the
  /// mark of the submission is at most 100.00.
  lemma MarkAtMostFullWhenOneValidAnswerPerQuestion(db: Db, s: StudentId, z: QuizId)
    requires |QuestionsOf(db, z)| > 0 && OneValidAnswerPerQuestion(db, s, z)
    ensures Mark(|CorrectRows(db, SubmittedRows(db, s, z))|, |QuestionsOf(db, z)|) <= 10000
  {
    var rows := CorrectRows(db, SubmittedRows(db, s, z));
    InjectionBound(db, rows, QuestionsOf(db, z));
    MarkAtMostFull(|rows|, |QuestionsOf(db, z)|);
  }
}
