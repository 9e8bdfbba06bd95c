/// The `Meta.ordering` of the models: a listing is sorted by a tuple of
/// columns, each ascending or descending (a leading "-"), compared one
/// after the other. Where NULL sorts is the database's choice and is a
/// parameter: `nullsLargest` holds for PostgreSQL, not for SQLite.
module Ordering {
  import opened Common
  import opened Store
  import opened Dates

  /// One column value of a row.
  datatype Value = Null | Num(n: int) | Day(d: Date)

  /// One entry of `Meta.ordering`: true for a "-" (descending) column.
  type Direction = bool

  function Sign(x: int): (s: int)
    ensures s == -1 || s == 0 || s == 1
    ensures s < 0 <==> x < 0
    ensures s == 0 <==> x == 0
  {
    if x < 0 then -1 else if x == 0 then 0 else 1
  }

  /// Calendar comparison of two dates: year, then month, then day.
  function CompareDates(a: Date, b: Date): (c: int)
    ensures c == -1 || c == 0 || c == 1
  {
    if a.year != b.year then Sign(a.year - b.year)
    else if a.month != b.month then Sign(a.month - b.month)
    else Sign(a.day - b.day)
  }

  /// The comparison of dates is the calendar order `Before`.
  lemma CompareDatesIsBefore(a: Date, b: Date)
    ensures CompareDates(a, b) < 0 <==> Before(a, b)
    ensures CompareDates(a, b) == 0 <==> a == b
    ensures CompareDates(a, b) > 0 <==> Before(b, a)
  {
  }

  /// The ascending comparison of one column; NULL is above every value
  /// when `nullsLargest`, below every value otherwise.
  function CompareValues(x: Value, y: Value, nullsLargest: bool): (c: int)
    ensures c == -1 || c == 0 || c == 1
  {
    match (x, y)
    case (Null, Null) => 0
    case (Null, _) => if nullsLargest then 1 else -1
    case (_, Null) => if nullsLargest then -1 else 1
    case (Num(a), Num(b)) => Sign(a - b)
    case (Day(a), Day(b)) => CompareDates(a, b)
    case (Num(_), Day(_)) => -1
    case (Day(_), Num(_)) => 1
  }

  /// Comparing the other way round flips the sign.
  lemma CompareValuesFlips(x: Value, y: Value, nullsLargest: bool)
    ensures CompareValues(y, x, nullsLargest) == -CompareValues(x, y, nullsLargest)
  {
  }

  /// Two values compare equal exactly when they are the same value.
  lemma CompareValuesZero(x: Value, y: Value, nullsLargest: bool)
    ensures CompareValues(x, y, nullsLargest) == 0 <==> x == y
  {
    if x.Day? && y.Day? {
      CompareDatesIsBefore(x.d, y.d);
    }
  }

  /// The comparison of one column is transitive.
  lemma CompareValuesTransitive(x: Value, y: Value, z: Value, nullsLargest: bool)
    requires CompareValues(x, y, nullsLargest) < 0 && CompareValues(y, z, nullsLargest) < 0
    ensures CompareValues(x, z, nullsLargest) < 0
  {
    if x.Day? && y.Day? && z.Day? {
      CompareDatesIsBefore(x.d, y.d);
      CompareDatesIsBefore(y.d, z.d);
      CompareDatesIsBefore(x.d, z.d);
    }
  }

  /// The comparison of two rows under `Meta.ordering`: the first column
  /// that differs decides, turned round where the column is descending.
  function CompareRows(order: seq<Direction>, a: seq<Value>, b: seq<Value>, nullsLargest: bool): (c: int)
    requires |a| == |order| && |b| == |order|
    ensures c == -1 || c == 0 || c == 1
  {
    if order == [] then 0
    else
      var first := CompareValues(a[0], b[0], nullsLargest);
      var directed := if order[0] then -first else first;
      if directed != 0 then directed else CompareRows(order[1..], a[1..], b[1..], nullsLargest)
  }

  /// Row `a` is listed before row `b`.
  predicate Precedes(order: seq<Direction>, a: seq<Value>, b: seq<Value>, nullsLargest: bool)
    requires |a| == |order| && |b| == |order|
  {
    CompareRows(order, a, b, nullsLargest) < 0
  }

  /// Comparing rows the other way round flips the sign.
  lemma {:induction false} CompareRowsFlips(order: seq<Direction>, a: seq<Value>, b: seq<Value>, nullsLargest: bool)
    requires |a| == |order| && |b| == |order|
    ensures CompareRows(order, b, a, nullsLargest) == -CompareRows(order, a, b, nullsLargest)
  {
    if order != [] {
      CompareValuesFlips(a[0], b[0], nullsLargest);
      CompareRowsFlips(order[1..], a[1..], b[1..], nullsLargest);
    }
  }

  /// Two rows tie exactly when every ordering column holds the same value:
  /// only then is their relative order left to the database.
  lemma {:induction false} CompareRowsZero(order: seq<Direction>, a: seq<Value>, b: seq<Value>, nullsLargest: bool)
    requires |a| == |order| && |b| == |order|
    ensures CompareRows(order, a, b, nullsLargest) == 0 <==> a == b
  {
    if order != [] {
      CompareValuesZero(a[0], b[0], nullsLargest);
      CompareRowsZero(order[1..], a[1..], b[1..], nullsLargest);
      if a[0] == b[0] && a[1..] == b[1..] {
        assert a == [a[0]] + a[1..] && b == [b[0]] + b[1..];
      }
    }
  }

  /// `Precedes` is transitive.
  lemma {:induction false} PrecedesTransitive(order: seq<Direction>, a: seq<Value>, b: seq<Value>, c: seq<Value>, nullsLargest: bool)
    requires |a| == |order| && |b| == |order| && |c| == |order|
    requires Precedes(order, a, b, nullsLargest) && Precedes(order, b, c, nullsLargest)
    ensures Precedes(order, a, c, nullsLargest)
  {
    var ab, bc := CompareValues(a[0], b[0], nullsLargest), CompareValues(b[0], c[0], nullsLargest);
    CompareValuesZero(a[0], b[0], nullsLargest);
    CompareValuesZero(b[0], c[0], nullsLargest);
    if ab == 0 && bc == 0 {
      PrecedesTransitive(order[1..], a[1..], b[1..], c[1..], nullsLargest);
    } else if ab != 0 && bc != 0 {
      if order[0] {
        CompareValuesTransitive(c[0], b[0], a[0], nullsLargest);
        CompareValuesFlips(a[0], b[0], nullsLargest);
        CompareValuesFlips(b[0], c[0], nullsLargest);
        CompareValuesFlips(a[0], c[0], nullsLargest);
      } else {
        CompareValuesTransitive(a[0], b[0], c[0], nullsLargest);
      }
    }
  }

  /// Of two rows with different keys, exactly one is listed first.
  lemma PrecedesTotal(order: seq<Direction>, a: seq<Value>, b: seq<Value>, nullsLargest: bool)
    requires |a| == |order| && |b| == |order|
    ensures a != b <==> (Precedes(order, a, b, nullsLargest) || Precedes(order, b, a, nullsLargest))
    ensures !(Precedes(order, a, b, nullsLargest) && Precedes(order, b, a, nullsLargest))
  {
    CompareRowsFlips(order, a, b, nullsLargest);
    CompareRowsZero(order, a, b, nullsLargest);
  }

  /// A row comparison over one or two columns, written out.
  lemma CompareRowsShort(order: seq<Direction>, a: seq<Value>, b: seq<Value>, nullsLargest: bool)
    requires |a| == |order| && |b| == |order| && 1 <= |order| <= 2
    ensures var first := CompareValues(a[0], b[0], nullsLargest);
      var directed := if order[0] then -first else first;
      var second := if |order| == 1 then 0 else
        (var c := CompareValues(a[1], b[1], nullsLargest); if order[1] then -c else c);
      CompareRows(order, a, b, nullsLargest) == if directed != 0 then directed else second
  {
    var rest := CompareRows(order[1..], a[1..], b[1..], nullsLargest);
    if |order| == 2 {
      assert order[1..][1..] == [];
      assert rest == (var c := CompareValues(a[1], b[1], nullsLargest); if order[1] then -c else c);
    }
  }

  // ---------------------------------------------------------------- the models' orderings

  function OptionalNum(x: Option<nat>): Value
  {
    if x.Some? then Num(x.value) else Null
  }

  function OptionalDay(x: Option<Date>): Value
  {
    if x.Some? then Day(x.value) else Null
  }

  /// TeacherProfile: ("-years_of_experience", "date_of_birth").
  const TeacherOrder: seq<Direction> := [true, false]

  function TeacherKey(t: TeacherProfile): (k: seq<Value>)
    ensures |k| == |TeacherOrder|
  {
    [OptionalNum(t.yearsOfExperience), OptionalDay(t.dateOfBirth)]
  }

  /// StudentProfile: ("date_of_birth",).
  const StudentOrder: seq<Direction> := [false]

  function StudentKey(s: StudentProfile): (k: seq<Value>)
    ensures |k| == |StudentOrder|
  {
    [OptionalDay(s.dateOfBirth)]
  }

  /// Quiz, CoursePost and Comment: ("-created_at",).
  const NewestFirstOrder: seq<Direction> := [true]

  function CreatedKey(createdAt: Timestamp): (k: seq<Value>)
    ensures |k| == |NewestFirstOrder|
  {
    [Num(createdAt)]
  }

  /// StudentQuiz: ("-mark", "-answered_at").
  const MarkOrder: seq<Direction> := [true, true]

  function MarkKey(r: StudentQuiz): (k: seq<Value>)
    ensures |k| == |MarkOrder|
  {
    [Num(r.mark), Num(r.answeredAt)]
  }

  /// The more experienced teacher is listed first; among equally
  /// experienced teachers the earlier-born one.
  lemma TeacherPrecedes(t: TeacherProfile, u: TeacherProfile, nullsLargest: bool)
    requires t.yearsOfExperience.Some? && u.yearsOfExperience.Some?
    ensures Precedes(TeacherOrder, TeacherKey(t), TeacherKey(u), nullsLargest) <==>
      t.yearsOfExperience.value > u.yearsOfExperience.value ||
      (t.yearsOfExperience == u.yearsOfExperience &&
       CompareValues(OptionalDay(t.dateOfBirth), OptionalDay(u.dateOfBirth), nullsLargest) < 0)
  {
    CompareRowsShort(TeacherOrder, TeacherKey(t), TeacherKey(u), nullsLargest);
  }

  /// A teacher whose experience is unknown is listed before every teacher
  /// with a known experience where NULL is the largest value (it comes
  /// first in a descending column), after them otherwise.
  lemma UnknownExperiencePlacement(t: TeacherProfile, u: TeacherProfile, nullsLargest: bool)
    requires t.yearsOfExperience.None? && u.yearsOfExperience.Some?
    ensures Precedes(TeacherOrder, TeacherKey(t), TeacherKey(u), nullsLargest) <==> nullsLargest
  {
  }

  /// Students are listed from the earliest date of birth.
  lemma StudentPrecedes(s: StudentProfile, t: StudentProfile, nullsLargest: bool)
    requires s.dateOfBirth.Some? && t.dateOfBirth.Some?
    ensures Precedes(StudentOrder, StudentKey(s), StudentKey(t), nullsLargest) <==>
      Before(s.dateOfBirth.value, t.dateOfBirth.value)
  {
    CompareRowsShort(StudentOrder, StudentKey(s), StudentKey(t), nullsLargest);
    CompareDatesIsBefore(s.dateOfBirth.value, t.dateOfBirth.value);
  }

  /// Quizzes, posts and comments are listed newest first.
  lemma NewestFirst(a: Timestamp, b: Timestamp, nullsLargest: bool)
    ensures Precedes(NewestFirstOrder, CreatedKey(a), CreatedKey(b), nullsLargest) <==> a > b
  {
    CompareRowsShort(NewestFirstOrder, CreatedKey(a), CreatedKey(b), nullsLargest);
  }

  /// Marks are listed from the highest; equal marks from the latest answer.
  lemma MarkPrecedes(r: StudentQuiz, s: StudentQuiz, nullsLargest: bool)
    ensures Precedes(MarkOrder, MarkKey(r), MarkKey(s), nullsLargest) <==>
      r.mark > s.mark || (r.mark == s.mark && r.answeredAt > s.answeredAt)
  {
    CompareRowsShort(MarkOrder, MarkKey(r), MarkKey(s), nullsLargest);
  }
}
