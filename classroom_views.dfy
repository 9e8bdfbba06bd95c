/// The classroom and enrollment endpoints of classroom/views.py.
///
/// StudentClassroomSerializer is not part of this model: the enrollment it
/// resolves from the request (or the message of the error it raises) is a
/// parameter of the create view.
module ClassroomViews {
  import opened Common
  import opened Store
  import opened Permissions
  import opened ApiView

  const TeacherOnly: seq<Permission> := [Authenticated, Teacher]
  const StudentsAndTeachers: seq<Permission> := [Authenticated, StudentOrTeacher]

  /// ClassroomListAPIView: teachers only.
  function ListClassrooms(m: HttpMethod, db: Db, u: Option<UserId>): (d: Decision)
    ensures d == Allow <==> IsAuthenticated(db, u) && IsTeacher(db, u.value) && (m == Get || m == Head)
    ensures IsAuthenticated(db, u) && !IsTeacher(db, u.value) ==> d == Denied
  {
    Respond(m, {Get, Head}, TeacherOnly, db, u, Allow)
  }

  /// The queryset of ClassroomListAPIView: the classrooms whose teacher is the
  /// requester's teacher profile.
  function ClassroomsOfTeacher(db: Db, user: UserId): (r: set<ClassroomId>)
    ensures forall c :: c in r <==> IsClassroomOwner(db, user, c)
  {
    set c, t | c in db.classrooms && t in db.teachers && db.teachers[t].user == user && db.classrooms[c].teacher == t :: c
  }

  /// ClassroomCreateAPIView: teachers only; the new classroom's teacher is the
  /// requester's profile (see Writes.CreateClassroom). `body` is the verdict of
  /// ClassroomSerializer on the request body, which CreateAPIView checks before
  /// saving.
  function CreateClassroom(m: HttpMethod, db: Db, u: Option<UserId>, body: Result<()>): (d: Decision)
    ensures d == Allow <==> IsAuthenticated(db, u) && IsTeacher(db, u.value) && m == Post && body.Ok?
    ensures IsAuthenticated(db, u) && IsTeacher(db, u.value) && m == Post && body.Fail? ==> d == Invalid(body.message)
  {
    Respond(m, {Post}, TeacherOnly, db, u, SaveIfValid(body))
  }

  /// ClassroomRetrieveUpdateDestroyAPIView; `body` is the verdict of
  /// ClassroomSerializer on a PUT's body, checked once the classroom is loaded
  /// and the object permissions pass.
  function ClassroomDetail(m: HttpMethod, db: Db, u: Option<UserId>, c: ClassroomId, body: Result<()>): (d: Decision)
    ensures d == Allow <==>
      IsAuthenticated(db, u) && m in {Get, Head, Put, Delete} && c in db.classrooms &&
      (if IsSafe(m) then IsClassroomMember(db, u.value, c) else IsClassroomOwner(db, u.value, c)) &&
      (m == Put ==> body.Ok?)
    ensures d == NotFound <==> IsAuthenticated(db, u) && m in {Get, Head, Put, Delete} && c !in db.classrooms
    ensures IsAuthenticated(db, u) && m == Put && IsClassroomOwner(db, u.value, c) && body.Fail? ==>
      d == Invalid(body.message)
  {
    var ps := PermissionsFor(ReadMemberWriteOwner, m);
    Respond(m, {Get, Head, Put, Delete}, ps, db, u,
      if c !in db.classrooms then NotFound
      else ObjectGate(ps, m, db, u, ClassroomObj(c), if m == Put then SaveIfValid(body) else Allow))
  }

  /// StudentClassroomListAPIView: students and teachers.
  function ListEnrollments(m: HttpMethod, db: Db, u: Option<UserId>): (d: Decision)
    ensures d == Allow <==>
      IsAuthenticated(db, u) && (IsStudent(db, u.value) || IsTeacher(db, u.value)) && (m == Get || m == Head)
  {
    Respond(m, {Get, Head}, StudentsAndTeachers, db, u, Allow)
  }

  /// The enrollment row `e` is one of `user`'s own (through their student profile).
  predicate OwnEnrollment(db: Db, user: UserId, e: EnrollmentId)
  {
    e in db.enrollments && db.enrollments[e].student in db.students &&
    db.students[db.enrollments[e].student].user == user
  }

  /// The queryset of StudentClassroomListAPIView: a student's own enrollments;
  /// for anyone else (a teacher, by the permission check) the enrollments in
  /// the classrooms they own.
  function EnrollmentsVisibleTo(db: Db, user: UserId): (r: set<EnrollmentId>)
    ensures IsStudent(db, user) ==> forall e :: e in r <==> OwnEnrollment(db, user, e)
    ensures !IsStudent(db, user) ==>
      forall e :: e in r <==> e in db.enrollments && IsClassroomOwner(db, user, db.enrollments[e].classroom)
  {
    if IsStudent(db, user) then
      set e, s | e in db.enrollments && s in db.students && db.students[s].user == user && db.enrollments[e].student == s :: e
    else
      set e | e in db.enrollments && db.enrollments[e].classroom in ClassroomsOfTeacher(db, user)
  }

  /// Every row the enrollment list shows is one the requester may read through
  /// the enrollment detail endpoint.
  lemma {:induction false} ListedEnrollmentsAreReadable(db: Db, user: UserId, e: EnrollmentId)
    requires Valid(db) && IsAuthenticated(db, Some(user)) && e in EnrollmentsVisibleTo(db, user)
    ensures EnrollmentDetail(Get, db, Some(user), db.enrollments[e].student, db.enrollments[e].classroom) == Allow
  {
    var en := db.enrollments[e];
    assert db.enrollments[e] == Enrollment(en.student, en.classroom);
    assert EnrollmentExists(db, en.student, en.classroom);
    if IsStudent(db, user) {
      assert OwnEnrollment(db, user, e);
      assert IsEnrolled(db, user, en.classroom);
    } else {
      assert IsClassroomOwner(db, user, en.classroom);
    }
    assert IsClassroomMember(db, user, en.classroom);
  }

  /// StudentClassroomCreateAPIView: students and teachers; a teacher may only
  /// enroll into a classroom they own, a student joining has no such check.
  function CreateEnrollment(m: HttpMethod, db: Db, u: Option<UserId>, resolved: Result<Enrollment>): (d: Decision)
    ensures d == Allow <==>
      IsAuthenticated(db, u) && (IsStudent(db, u.value) || IsTeacher(db, u.value)) && m == Post && resolved.Ok? &&
      (IsTeacher(db, u.value) ==> IsClassroomOwner(db, u.value, resolved.value.classroom))
    ensures IsAuthenticated(db, u) && IsTeacher(db, u.value) && m == Post && resolved.Ok? ==>
      (d == Invalid("Not a valid classroom.") <==> !IsClassroomOwner(db, u.value, resolved.value.classroom))
  {
    Respond(m, {Post}, StudentsAndTeachers, db, u,
      match resolved
      case Fail(msg) => Invalid(msg)
      case Ok(en) =>
        if u.Some? && IsTeacher(db, u.value) && !IsClassroomOwner(db, u.value, en.classroom)
        then Invalid("Not a valid classroom.")
        else Allow)
  }

  /// A StudentClassroom row for (s, c) exists.
  predicate EnrollmentExists(db: Db, s: StudentId, c: ClassroomId)
  {
    exists e :: e in db.enrollments && db.enrollments[e] == Enrollment(s, c)
  }

  /// StudentClassroomRetrieveDestroyAPIView: the student, the classroom and
  /// the row must all exist (404 otherwise); reading needs membership of the
  /// classroom, deleting needs its ownership.
  function EnrollmentDetail(m: HttpMethod, db: Db, u: Option<UserId>, s: StudentId, c: ClassroomId): (d: Decision)
    ensures d == Allow <==>
      IsAuthenticated(db, u) && m in {Get, Head, Delete} && s in db.students && c in db.classrooms &&
      EnrollmentExists(db, s, c) &&
      (if IsSafe(m) then IsClassroomMember(db, u.value, c) else IsClassroomOwner(db, u.value, c))
    ensures d == NotFound <==>
      IsAuthenticated(db, u) && m in {Get, Head, Delete} &&
      (s !in db.students || c !in db.classrooms || !EnrollmentExists(db, s, c))
  {
    var ps := PermissionsFor(ReadMemberWriteOwner, m);
    Respond(m, {Get, Head, Delete}, ps, db, u,
      if s !in db.students || c !in db.classrooms || !EnrollmentExists(db, s, c) then NotFound
      else ObjectGate(ps, m, db, u, ClassroomObj(c), Allow))
  }
}
