/// authuser/signals.py: the `post_save` receiver of the user model, which
/// gives every new ordinary user exactly one profile.
module Signals {
  import opened Common
  import opened Store
  import opened Permissions
  import opened Writes

  /// `hasattr(instance, "teacher_profile") or hasattr(instance, "student_profile")`.
  predicate HasProfile(db: Db, user: UserId)
  {
    IsTeacher(db, user) || IsStudent(db, user)
  }

  /// The condition under which the receiver inserts a profile.
  predicate GetsProfile(db: Db, user: UserId, created: bool)
    requires user in db.users
  {
    created && !db.users[user].isSuperuser && !db.users[user].isStaff && !HasProfile(db, user)
  }

  /// create_user_profile after a save of `user`; `created` tells a first save
  /// from a later one and `id` is the uuid a new profile receives.
  function CreateUserProfile(db: Db, user: UserId, created: bool, id: nat): (r: Db)
    requires user in db.users && id !in db.teachers && id !in db.students
    ensures r == db.(teachers := r.teachers, students := r.students)
    ensures !GetsProfile(db, user, created) ==> r == db
    ensures GetsProfile(db, user, created) ==> id in r.teachers || id in r.students
    ensures forall t | t in db.teachers :: t in r.teachers && r.teachers[t] == db.teachers[t]
    ensures forall t | t in r.teachers && t !in db.teachers ::
      t == id && r.teachers[t].user == user && db.users[user].isTeacher
    ensures forall s | s in db.students :: s in r.students && r.students[s] == db.students[s]
    ensures forall s | s in r.students && s !in db.students ::
      s == id && r.students[s].user == user && !db.users[user].isTeacher
  {
    if GetsProfile(db, user, created) then
      if db.users[user].isTeacher then db.(teachers := db.teachers[id := TeacherProfile(user, None, None, None)])
      else db.(students := db.students[id := StudentProfile(user, None, None)])
    else db
  }

  lemma NewTeacherRoles(db: Db, id: TeacherId, user: UserId)
    requires id !in db.teachers && !IsStudent(db, user)
    ensures var r := db.(teachers := db.teachers[id := TeacherProfile(user, None, None, None)]);
      IsTeacher(r, user) && !IsStudent(r, user)
  {
    var r := db.(teachers := db.teachers[id := TeacherProfile(user, None, None, None)]);
    assert r.teachers[id].user == user;
  }

  lemma NewStudentRoles(db: Db, id: StudentId, user: UserId)
    requires id !in db.students && !IsTeacher(db, user)
    ensures var r := db.(students := db.students[id := StudentProfile(user, None, None)]);
      IsStudent(r, user) && !IsTeacher(r, user)
  {
    var r := db.(students := db.students[id := StudentProfile(user, None, None)]);
    assert r.students[id].user == user;
  }

  /// A user the receiver serves gets the profile its `is_teacher` flag
  /// names, and only that one.
  lemma ProfileKindFollowsFlag(db: Db, user: UserId, created: bool, id: nat)
    requires user in db.users && id !in db.teachers && id !in db.students && GetsProfile(db, user, created)
    ensures IsTeacher(CreateUserProfile(db, user, created, id), user) <==> db.users[user].isTeacher
    ensures IsStudent(CreateUserProfile(db, user, created, id), user) <==> !db.users[user].isTeacher
  {
    if db.users[user].isTeacher {
      NewTeacherRoles(db, id, user);
    } else {
      NewStudentRoles(db, id, user);
    }
  }

  /// Every other user keeps the profiles it had.
  lemma OtherUsersUnaffected(db: Db, user: UserId, created: bool, id: nat, other: UserId)
    requires user in db.users && id !in db.teachers && id !in db.students && other != user
    ensures IsTeacher(CreateUserProfile(db, user, created, id), other) == IsTeacher(db, other)
    ensures IsStudent(CreateUserProfile(db, user, created, id), other) == IsStudent(db, other)
  {
    var r := CreateUserProfile(db, user, created, id);
    if IsTeacher(r, other) {
      var t :| t in r.teachers && r.teachers[t].user == other;
      assert t in db.teachers;
    }
    if IsStudent(r, other) {
      var s :| s in r.students && r.students[s].user == other;
      assert s in db.students;
    }
  }

  lemma NewTeacherOneToOne(db: Db, id: TeacherId, user: UserId)
    requires ProfilesOneToOne(db) && id !in db.teachers && !IsTeacher(db, user)
    ensures ProfilesOneToOne(db.(teachers := db.teachers[id := TeacherProfile(user, None, None, None)]))
  {
    assert forall t | t in db.teachers :: db.teachers[t].user != user;
  }

  lemma NewStudentOneToOne(db: Db, id: StudentId, user: UserId)
    requires ProfilesOneToOne(db) && id !in db.students && !IsStudent(db, user)
    ensures ProfilesOneToOne(db.(students := db.students[id := StudentProfile(user, None, None)]))
  {
    assert forall s | s in db.students :: db.students[s].user != user;
  }

  lemma NewProfileExclusive(db: Db, r: Db, user: UserId)
    requires RolesExclusive(db) && !HasProfile(db, user)
    requires forall t | t in r.teachers :: (t in db.teachers && r.teachers[t] == db.teachers[t]) || r.teachers[t].user == user
    requires forall s | s in r.students :: (s in db.students && r.students[s] == db.students[s]) || r.students[s].user == user
    requires !(IsTeacher(r, user) && IsStudent(r, user))
    ensures RolesExclusive(r)
  {
    forall t, s | t in r.teachers && s in r.students
      ensures r.teachers[t].user != r.students[s].user
    {
      if r.teachers[t].user == user {
        assert IsTeacher(r, user);
      }
      if r.students[s].user == user {
        assert IsStudent(r, user);
      }
    }
  }

  lemma NewTeacherValid(db: Db, id: TeacherId, user: UserId)
    requires Valid(db) && id !in db.teachers && user in db.users && !IsTeacher(db, user)
    ensures Valid(db.(teachers := db.teachers[id := TeacherProfile(user, None, None, None)]))
  {
    var teachers := db.teachers[id := TeacherProfile(user, None, None, None)];
    NewTeacherOneToOne(db, id, user);
    assert ProfileRefs(db.users, teachers, db.students);
    assert ClassroomRefs(db.classrooms, teachers);
    ValidWithTeachers(db, teachers);
  }

  lemma NewStudentValid(db: Db, id: StudentId, user: UserId)
    requires Valid(db) && id !in db.students && user in db.users && !IsStudent(db, user)
    ensures Valid(db.(students := db.students[id := StudentProfile(user, None, None)]))
  {
    var students := db.students[id := StudentProfile(user, None, None)];
    NewStudentOneToOne(db, id, user);
    assert ProfileRefs(db.users, db.teachers, students);
    assert EnrollmentRefs(db.enrollments, students, db.classrooms);
    assert StudentAnswerRefs(db.studentAnswers, students, db.answers);
    assert StudentQuizRefs(db.studentQuizzes, students, db.quizzes);
    ValidWithStudents(db, students);
  }

  /// The receiver keeps every database constraint, and it never gives a user
  /// a second profile, of either kind.
  lemma CreateUserProfileKeepsValid(db: Db, user: UserId, created: bool, id: nat)
    requires Valid(db) && RolesExclusive(db)
    requires user in db.users && id !in db.teachers && id !in db.students
    ensures Valid(CreateUserProfile(db, user, created, id))
    ensures RolesExclusive(CreateUserProfile(db, user, created, id))
  {
    var r := CreateUserProfile(db, user, created, id);
    if GetsProfile(db, user, created) {
      ProfileKindFollowsFlag(db, user, created, id);
      if db.users[user].isTeacher {
        NewTeacherValid(db, id, user);
      } else {
        NewStudentValid(db, id, user);
      }
      NewProfileExclusive(db, r, user);
    }
  }
}
