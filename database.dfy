/// The tables of the application as one mutable object: every write the
/// managers, the `post_save` receiver, the serializers and the views perform
/// is a method that changes the tables in place, and each is specified by the
/// function on `Db` values that the other modules reason about.
module Persistence {
  import opened Common
  import opened Store
  import opened Permissions
  import opened Text
  import opened Managers
  import opened Signals
  import opened Writes
  import opened Cascade
  import opened AccountSerializers
  import opened ProfileViews
  import opened Grading
  import opened QuizSerializers

  /// Removing rows never gives a user a second kind of profile.
  lemma RemoveKeepsRolesExclusive(db: Db, d: Doomed)
    requires RolesExclusive(db)
    ensures RolesExclusive(Remove(db, d))
  {
  }

  class Database {
    /// The rows of every table, keyed by primary key.
    var tables: Db

    /// The database constraints, and the one-role rule the receiver keeps.
    predicate Consistent()
      reads this
    {
      Valid(tables) && RolesExclusive(tables)
    }

    /// A freshly migrated database has no rows.
    constructor ()
      ensures tables == EmptyDb() && Consistent()
    {
      tables := EmptyDb();
    }

    // ---------------------------------------------------------------- users and profiles

    /// authuser/signals.py `create_user_profile`, run after every save of
    /// user `user`; `id` is the uuid a new profile row would receive.
    method OnUserSaved(user: UserId, created: bool, id: nat)
      requires user in tables.users && id !in tables.teachers && id !in tables.students
      modifies this
      ensures tables == CreateUserProfile(old(tables), user, created, id)
    {
      if created {
        var instance := tables.users[user];
        if !instance.isSuperuser && !instance.isStaff {
          if !IsTeacher(tables, user) && !IsStudent(tables, user) {
            if instance.isTeacher {
              tables := tables.(teachers := tables.teachers[id := TeacherProfile(user, None, None, None)]);
            } else {
              tables := tables.(students := tables.students[id := StudentProfile(user, None, None)]);
            }
          }
        }
      }
    }

    /// UserManager.create_user: the row is built, given its password and
    /// inserted; the unique e-mail constraint refuses the insert of an address
    /// already stored, and the insert fires the receiver.
    method CreateUser(id: UserId, email: Option<string>, password: Option<string>, extra: ExtraFields, profile: nat)
      returns (r: Outcome<UserId>)
      requires Consistent()
      requires id !in tables.users && profile !in tables.teachers && profile !in tables.students
      modifies this
      ensures Consistent()
      ensures var spec := Managers.CreateUser(old(tables), id, email, password, extra, profile);
        (spec.Done? ==> r == Done(id) && tables == spec.value) &&
        (spec.Rejected? ==> r == Rejected(spec.message) && tables == old(tables)) &&
        (spec.Crashed? ==> r.Crashed? && tables == old(tables))
    {
      if email.None? || email.value == "" {
        return Rejected(NoEmail);
      }
      var address := NormalizeEmail(email.value);
      var user := User(address, Unusable, "", "", ColumnValue(extra.teacher, false), ColumnValue(extra.staff, false),
                       ColumnValue(extra.superuser, false), ColumnValue(extra.active, true));
      if password.Some? {
        user := user.(password := Usable(password.value));
      }
      assert user == NewUser(email.value, password, extra);
      if EmailTaken(tables, address) {
        return Crashed;
      }
      SaveNewUser(id, user, profile);
      r := Done(id);
    }

    /// `user.save()` of a new row: the insert, then the receiver.
    method SaveNewUser(id: UserId, user: User, profile: nat)
      requires Consistent()
      requires id !in tables.users && profile !in tables.teachers && profile !in tables.students
      requires !EmailTaken(tables, user.email)
      modifies this
      ensures Consistent()
      ensures tables == CreateUserProfile(old(tables).(users := old(tables).users[id := user]), id, true, profile)
    {
      InsertUserKeepsValid(tables, id, user);
      tables := tables.(users := tables.users[id := user]);
      CreateUserProfileKeepsValid(tables, id, true, profile);
      OnUserSaved(id, true, profile);
    }

    /// UserManager.create_superuser: the defaults are set in the keyword
    /// dictionary, the three flags are checked in order, then create_user.
    method CreateSuperuser(id: UserId, email: Option<string>, password: Option<string>, extra: ExtraFields,
                           profile: nat)
      returns (r: Outcome<UserId>)
      requires Consistent()
      requires id !in tables.users && profile !in tables.teachers && profile !in tables.students
      modifies this
      ensures Consistent()
      ensures var spec := Managers.CreateSuperuser(old(tables), id, email, password, extra, profile);
        (spec.Done? ==> r == Done(id) && tables == spec.value) &&
        (spec.Rejected? ==> r == Rejected(spec.message) && tables == old(tables)) &&
        (spec.Crashed? ==> r.Crashed? && tables == old(tables))
    {
      var fields := SetSuperuserDefaults(extra);
      if Falsy(fields.staff) {
        return Rejected(NotStaff);
      }
      if Falsy(fields.superuser) {
        return Rejected(NotSuperuser);
      }
      if Falsy(fields.teacher) {
        return Rejected(NotTeacher);
      }
      r := CreateUser(id, email, password, fields, profile);
    }

    /// The nested user part of the profile serializers' `update`: the names
    /// present are assigned and the user is saved (a later save, on which
    /// the receiver does nothing).
    method SaveNames(owner: UserId, c: ProfileChanges)
      requires owner in tables.users
      modifies this
      ensures tables == old(tables).(users := old(tables.users)[owner := UpdateNames(old(tables.users)[owner], c)])
    {
      if c.firstName.Some? || c.lastName.Some? {
        var user := tables.users[owner];
        if c.firstName.Some? {
          user := user.(firstName := c.firstName.value);
        }
        if c.lastName.Some? {
          user := user.(lastName := c.lastName.value);
        }
        tables := tables.(users := tables.users[owner := user]);
      } else {
        assert tables.users[owner := UpdateNames(tables.users[owner], c)] == tables.users;
      }
    }

    /// TeacherProfileSerializer.update: the names, then each profile field
    /// from the validated data or its current value, then the save.
    method UpdateTeacherProfile(t: TeacherId, c: ProfileChanges)
      requires Consistent() && t in tables.teachers
      modifies this
      ensures Consistent()
      ensures tables == AccountSerializers.UpdateTeacherProfile(old(tables), t, c)
    {
      var next := AccountSerializers.UpdateTeacherProfile(tables, t, c);
      UpdateTeacherKeepsValid(tables, t, c);
      var instance := tables.teachers[t];
      SaveNames(instance.user, c);
      instance := instance.(bio := Keep(c.bio, instance.bio));
      instance := instance.(dateOfBirth := Keep(c.dateOfBirth, instance.dateOfBirth));
      instance := instance.(yearsOfExperience := Keep(c.yearsOfExperience, instance.yearsOfExperience));
      tables := tables.(teachers := tables.teachers[t := instance]);
      assert tables == next;
    }

    /// StudentProfileSerializer.update.
    method UpdateStudentProfile(s: StudentId, c: ProfileChanges)
      requires Consistent() && s in tables.students
      modifies this
      ensures Consistent()
      ensures tables == AccountSerializers.UpdateStudentProfile(old(tables), s, c)
    {
      var next := AccountSerializers.UpdateStudentProfile(tables, s, c);
      UpdateStudentKeepsValid(tables, s, c);
      var instance := tables.students[s];
      SaveNames(instance.user, c);
      instance := instance.(bio := Keep(c.bio, instance.bio));
      instance := instance.(dateOfBirth := Keep(c.dateOfBirth, instance.dateOfBirth));
      tables := tables.(students := tables.students[s := instance]);
      assert tables == next;
    }

    // ---------------------------------------------------------------- deletes

    /// `delete()` on the rows of `roots`: the collector gathers the rows
    /// reached through the CASCADE foreign keys, and they leave their tables
    /// together. That the result keeps the constraints is
    /// `Cascade.DeleteKeepsValid` and `RemoveKeepsRolesExclusive`.
    method DeleteRows(roots: Doomed)
      modifies this
      ensures tables == Cascade.Delete(old(tables), roots)
    {
      var doomed := Closure(tables, roots);
      tables := Remove(tables, doomed);
    }

    /// The profile detail views: the decision, then for an allowed PUT the
    /// serializer's update and for an allowed DELETE the delete of the
    /// profile's user.
    method ProfileRequest(kind: ProfileKind, m: HttpMethod, u: Option<UserId>, pk: nat, data: Body)
      returns (d: Decision)
      requires Consistent()
      modifies this
      ensures Consistent()
      ensures d == ProfileDetail(kind, m, old(tables), u, pk, data)
      ensures d == Allow ==> tables == ProfileEffect(kind, m, old(tables), pk, data)
      ensures d != Allow ==> tables == old(tables)
    {
      var before := tables;
      d := ProfileDetail(kind, m, before, u, pk, data);
      if d == Allow {
        var owner := ProfileOwner(tables, kind, pk).value;
        if m == Put {
          var changes := Validate(kind, data).changes;
          if kind == TeacherKind {
            UpdateTeacherProfile(pk, changes);
          } else {
            UpdateStudentProfile(pk, changes);
          }
        } else if m == Delete {
          DeleteRows(Nothing().(users := {owner}));
          DeleteKeepsValid(before, Nothing().(users := {owner}));
          RemoveKeepsRolesExclusive(before, Closure(before, Nothing().(users := {owner})));
        }
      }
    }

    // ---------------------------------------------------------------- classrooms, posts, comments

    method CreateClassroom(id: ClassroomId, name: string, teacher: TeacherId)
      requires Consistent() && id !in tables.classrooms && teacher in tables.teachers
      modifies this
      ensures Consistent()
      ensures tables == Writes.CreateClassroom(old(tables), id, name, teacher)
    {
      var next := Writes.CreateClassroom(tables, id, name, teacher);
      tables := tables.(classrooms := tables.classrooms[id := Classroom(name, teacher)]);
      assert tables == next;
    }

    method RenameClassroom(c: ClassroomId, name: string)
      requires Consistent() && c in tables.classrooms
      modifies this
      ensures Consistent()
      ensures tables == Writes.RenameClassroom(old(tables), c, name)
    {
      var next := Writes.RenameClassroom(tables, c, name);
      var classroom := tables.classrooms[c];
      classroom := classroom.(name := name);
      tables := tables.(classrooms := tables.classrooms[c := classroom]);
      assert tables == next;
    }

    /// The save of a StudentClassroom row; the unique pair constraint turns a
    /// second enrollment into an error and leaves the table as it was.
    method Enroll(id: EnrollmentId, en: Enrollment) returns (r: Result<EnrollmentId>)
      requires Consistent() && id !in tables.enrollments && en.student in tables.students && en.classroom in tables.classrooms
      modifies this
      ensures Consistent()
      ensures var spec := Writes.Enroll(old(tables), id, en);
        (spec.Ok? ==> r == Ok(id) && tables == spec.value) &&
        (spec.Fail? ==> r == Fail(spec.message) && tables == old(tables))
    {
      var spec := Writes.Enroll(tables, id, en);
      if Enrolled(tables, en) {
        return Fail(AlreadyEnrolled);
      }
      tables := tables.(enrollments := tables.enrollments[id := en]);
      assert tables == spec.value;
      r := Ok(id);
    }

    method CreatePost(id: PostId, post: CoursePost)
      requires Consistent() && id !in tables.posts && post.classroom in tables.classrooms
      modifies this
      ensures Consistent()
      ensures tables == Writes.CreatePost(old(tables), id, post)
    {
      var next := Writes.CreatePost(tables, id, post);
      tables := tables.(posts := tables.posts[id := post]);
      assert tables == next;
    }

    method UpdatePost(p: PostId, title: string, content: string)
      requires Consistent() && p in tables.posts
      modifies this
      ensures Consistent()
      ensures tables == Writes.UpdatePost(old(tables), p, title, content)
    {
      var next := Writes.UpdatePost(tables, p, title, content);
      var post := tables.posts[p];
      post := post.(title := title, content := content);
      tables := tables.(posts := tables.posts[p := post]);
      assert tables == next;
    }

    method CreateComment(id: CommentId, comment: Comment)
      requires Consistent() && id !in tables.comments && comment.post in tables.posts && comment.user in tables.users
      modifies this
      ensures Consistent()
      ensures tables == Writes.CreateComment(old(tables), id, comment)
    {
      var next := Writes.CreateComment(tables, id, comment);
      tables := tables.(comments := tables.comments[id := comment]);
      assert tables == next;
    }

    method UpdateComment(k: CommentId, content: string)
      requires Consistent() && k in tables.comments
      modifies this
      ensures Consistent()
      ensures tables == Writes.UpdateComment(old(tables), k, content)
    {
      var next := Writes.UpdateComment(tables, k, content);
      var comment := tables.comments[k];
      comment := comment.(content := content);
      tables := tables.(comments := tables.comments[k := comment]);
      assert tables == next;
    }

    // ---------------------------------------------------------------- quizzes, questions, answers

    method CreateQuiz(id: QuizId, quiz: Quiz)
      requires Consistent() && id !in tables.quizzes && quiz.classroom in tables.classrooms
      modifies this
      ensures Consistent()
      ensures tables == Writes.CreateQuiz(old(tables), id, quiz)
    {
      var next := Writes.CreateQuiz(tables, id, quiz);
      tables := tables.(quizzes := tables.quizzes[id := quiz]);
      assert tables == next;
    }

    /// The quiz PUT once its destination classroom is checked: the validated
    /// title and classroom are assigned, the content only when the body has
    /// it, and the creation time stays.
    method UpdateQuiz(z: QuizId, data: QuizData)
      requires Consistent() && z in tables.quizzes && data.classroom in tables.classrooms
      modifies this
      ensures Consistent()
      ensures tables == Writes.UpdateQuiz(old(tables), z, QuizAfterPut(old(tables.quizzes[z]), data))
      ensures tables.quizzes[z] == QuizAfterPut(old(tables.quizzes[z]), data)
    {
      var next := Writes.UpdateQuiz(tables, z, QuizAfterPut(tables.quizzes[z], data));
      var instance := tables.quizzes[z];
      instance := instance.(title := data.title, classroom := data.classroom);
      if data.content.Some? {
        instance := instance.(content := data.content.value);
      }
      tables := tables.(quizzes := tables.quizzes[z := instance]);
      assert tables == next;
    }

    method CreateQuestion(id: QuestionId, question: Question)
      requires Consistent() && id !in tables.questions && question.quiz in tables.quizzes
      modifies this
      ensures Consistent()
      ensures tables == Writes.CreateQuestion(old(tables), id, question)
    {
      var next := Writes.CreateQuestion(tables, id, question);
      tables := tables.(questions := tables.questions[id := question]);
      assert tables == next;
    }

    method UpdateQuestion(q: QuestionId, question: Question)
      requires Consistent() && q in tables.questions && question.quiz in tables.quizzes
      modifies this
      ensures Consistent()
      ensures tables == Writes.UpdateQuestion(old(tables), q, question)
    {
      var next := Writes.UpdateQuestion(tables, q, question);
      tables := tables.(questions := tables.questions[q := question]);
      assert tables == next;
    }

    method CreateAnswer(id: AnswerId, answer: Answer)
      requires Consistent() && id !in tables.answers && answer.question in tables.questions
      modifies this
      ensures Consistent()
      ensures tables == Writes.CreateAnswer(old(tables), id, answer)
    {
      var next := Writes.CreateAnswer(tables, id, answer);
      tables := tables.(answers := tables.answers[id := answer]);
      assert tables == next;
    }

    method UpdateAnswer(a: AnswerId, answer: Answer)
      requires Consistent() && a in tables.answers && answer.question in tables.questions
      modifies this
      ensures Consistent()
      ensures tables == Writes.UpdateAnswer(old(tables), a, answer)
    {
      var next := Writes.UpdateAnswer(tables, a, answer);
      tables := tables.(answers := tables.answers[a := answer]);
      assert tables == next;
    }

    // ---------------------------------------------------------------- submissions

    /// StudentAnswerSerializer.create: the insert, whose unique pair
    /// constraint becomes a validation error.
    method SaveStudentAnswer(s: Submission, id: StudentAnswerId) returns (r: Result<StudentAnswerId>)
      requires Consistent() && id !in tables.studentAnswers && s.student in tables.students && s.answer in tables.answers
      modifies this
      ensures Consistent()
      ensures var spec := CreateStudentAnswer(old(tables), s, id);
        (spec.Ok? ==> r == Ok(id) && tables == spec.value) &&
        (spec.Fail? ==> r == Fail(spec.message) && tables == old(tables))
    {
      var spec := CreateStudentAnswer(tables, s, id);
      if spec.Fail? {
        return Fail(spec.message);
      }
      tables := spec.value;
      r := Ok(id);
    }

    /// StudentQuizSerializer.create: count the questions, count the correct
    /// answers with the accumulator loop, refuse an empty quiz, compute the
    /// mark and insert it; a second mark breaks the unique constraint.
    method SaveStudentQuiz(g: GradingInput, id: StudentQuizId, now: Timestamp) returns (r: Outcome<StudentQuizId>)
      requires Consistent() && id !in tables.studentQuizzes && g.student in tables.students && g.quiz in tables.quizzes
      modifies this
      ensures Consistent()
      ensures var spec := SaveGrade(old(tables), g, id, now);
        (spec.Done? ==> r == Done(id) && tables == spec.value) &&
        (spec.Rejected? ==> r == Rejected(spec.message) && tables == old(tables)) &&
        (spec.Crashed? ==> r.Crashed? && tables == old(tables))
    {
      var spec := SaveGrade(tables, g, id, now);
      var totalQuestions := |QuestionsOf(tables, g.quiz)|;
      var correctAnswers := CountCorrect(tables, g.rows);
      if totalQuestions == 0 {
        assert spec.Rejected?;
        return Rejected(NoQuestions);
      }
      var mark := Mark(correctAnswers, totalQuestions);
      if AlreadyGraded(tables, g.student, g.quiz) {
        assert spec.Crashed?;
        return Crashed;
      }
      assert spec == Done(tables.(studentQuizzes := tables.studentQuizzes[id := StudentQuiz(g.student, g.quiz, mark, now)]));
      tables := tables.(studentQuizzes := tables.studentQuizzes[id := StudentQuiz(g.student, g.quiz, mark, now)]);
      assert tables == spec.value;
      r := Done(id);
    }
  }
}
