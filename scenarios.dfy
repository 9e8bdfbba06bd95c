/// A small store used by the lemmas that exhibit behaviour on concrete data:
/// two teachers (users 1 and 2), each owning one classroom (1 and 2), each
/// classroom holding one quiz (7 and 8), each quiz one question (5 and 6), and
/// the first question one answer (3).
module Scenarios {
  import opened Common
  import opened Store
  import opened Permissions

  function TwoTeachers(): Db
  {
    EmptyDb().(
      users := map[1 := User("a@x.io", Unusable, "", "", true, false, false, true),
                   2 := User("b@x.io", Unusable, "", "", true, false, false, true)],
      teachers := map[1 := TeacherProfile(1, None, None, None), 2 := TeacherProfile(2, None, None, None)],
      classrooms := map[1 := Classroom("mine", 1), 2 := Classroom("theirs", 2)],
      quizzes := map[7 := Quiz("mine", None, 1, 0), 8 := Quiz("theirs", None, 2, 0)],
      questions := map[5 := Question("why?", 7), 6 := Question("how?", 8)],
      answers := map[3 := Answer("because", true, 5)])
  }

  lemma TwoTeachersEmailsUnique()
    ensures EmailsUnique(TwoTeachers().users)
  {
    assert TwoTeachers().users[1].email[0] != TwoTeachers().users[2].email[0];
  }

  lemma TwoTeachersProfiles()
    ensures ProfilesOneToOne(TwoTeachers()) && ProfilesRefOk(TwoTeachers())
  {
    var db := TwoTeachers();
    forall a, b | a in db.teachers && b in db.teachers && db.teachers[a].user == db.teachers[b].user
      ensures a == b
    {
      assert db.teachers[a].user == a && db.teachers[b].user == b;
    }
    forall t | t in db.teachers
      ensures db.teachers[t].user in db.users
    {
      assert t == 1 || t == 2;
    }
  }

  lemma TwoTeachersReferences()
    ensures ClassroomsRefOk(TwoTeachers()) && QuizzesRefOk(TwoTeachers())
    ensures PostsRefOk(TwoTeachers()) && SubmissionsRefOk(TwoTeachers())
  {
    var db := TwoTeachers();
    forall c | c in db.classrooms
      ensures db.classrooms[c].teacher in db.teachers
    {
      assert c == 1 || c == 2;
    }
    forall z | z in db.quizzes
      ensures db.quizzes[z].classroom in db.classrooms
    {
      assert z == 7 || z == 8;
    }
    forall q | q in db.questions
      ensures db.questions[q].quiz in db.quizzes
    {
      assert q == 5 || q == 6;
    }
  }

  lemma TwoTeachersValid()
    ensures Valid(TwoTeachers())
  {
    TwoTeachersEmailsUnique();
    TwoTeachersProfiles();
    TwoTeachersReferences();
  }

  /// Who owns what: each teacher owns their own classroom and not the other's.
  lemma TwoTeachersOwnership()
    ensures IsAuthenticated(TwoTeachers(), Some(1)) && IsAuthenticated(TwoTeachers(), Some(2))
    ensures IsClassroomOwner(TwoTeachers(), 1, 1) && !IsClassroomOwner(TwoTeachers(), 1, 2)
    ensures IsClassroomOwner(TwoTeachers(), 2, 2) && !IsClassroomOwner(TwoTeachers(), 2, 1)
  {
  }

  /// Where each quiz, question and answer sits.
  lemma TwoTeachersNavigation()
    ensures QuizzesRefOk(TwoTeachers())
    ensures 7 in TwoTeachers().quizzes && TwoTeachers().quizzes[7].classroom == 1
    ensures 8 in TwoTeachers().quizzes && TwoTeachers().quizzes[8].classroom == 2
    ensures 5 in TwoTeachers().questions && ClassroomOfQuestion(TwoTeachers(), 5) == 1
    ensures 6 in TwoTeachers().questions && ClassroomOfQuestion(TwoTeachers(), 6) == 2
    ensures 3 in TwoTeachers().answers && ClassroomOfAnswer(TwoTeachers(), 3) == 1
  {
    TwoTeachersReferences();
  }
}
