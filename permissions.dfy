/// The permission classes of the three apps as predicates over the store, and
/// the Django REST framework machinery that evaluates a view's list of them:
/// `has_permission` of every class before the handler, `has_object_permission`
/// of every class once the object is loaded. A class that does not override a
/// hook grants it (BasePermission returns True).
module Permissions {
  import opened Common
  import opened Store

  /// `request.user` is a user of the store.
  predicate IsAuthenticated(db: Db, u: Option<UserId>)
  {
    u.Some? && u.value in db.users
  }

  /// IsStudent.has_permission: a StudentProfile row exists for the user.
  predicate IsStudent(db: Db, user: UserId)
  {
    exists s :: s in db.students && db.students[s].user == user
  }

  /// IsTeacher.has_permission: a TeacherProfile row exists for the user.
  predicate IsTeacher(db: Db, user: UserId)
  {
    exists t :: t in db.teachers && db.teachers[t].user == user
  }

  /// IsClassroomOwner.has_object_permission: the user is the user behind the
  /// classroom's teacher profile.
  predicate IsClassroomOwner(db: Db, user: UserId, c: ClassroomId)
  {
    c in db.classrooms && db.classrooms[c].teacher in db.teachers &&
    db.teachers[db.classrooms[c].teacher].user == user
  }

  /// The student branch of IsClassroomMember: the user's StudentProfile has a
  /// StudentClassroom row for the classroom.
  predicate IsEnrolled(db: Db, user: UserId, c: ClassroomId)
  {
    exists s, e :: s in db.students && e in db.enrollments &&
      db.students[s].user == user && db.enrollments[e] == Enrollment(s, c)
  }

  /// IsClassroomMember.has_object_permission: the owner first, then an enrolled
  /// student; a user with neither (another teacher, an admin) is refused.
  predicate IsClassroomMember(db: Db, user: UserId, c: ClassroomId)
  {
    c in db.classrooms && (IsClassroomOwner(db, user, c) || IsEnrolled(db, user, c))
  }

  /// IsCommentAuthor.has_object_permission, whatever the method.
  predicate IsCommentAuthor(db: Db, user: UserId, k: CommentId)
  {
    k in db.comments && db.comments[k].user == user
  }

  /// IsProfileOwnerOrReadOnly.has_object_permission on a profile whose user is `owner`.
  predicate IsProfileOwnerOrReadOnly(m: HttpMethod, u: Option<UserId>, owner: UserId)
  {
    IsSafe(m) || u == Some(owner)
  }

  lemma OwnerIsMember(db: Db, user: UserId, c: ClassroomId)
    requires IsClassroomOwner(db, user, c)
    ensures IsClassroomMember(db, user, c)
  {
  }

  /// Without a student profile, membership is exactly ownership: another
  /// teacher or an admin is never a member of a classroom they do not own.
  lemma MemberWithoutStudentProfileIsOwner(db: Db, user: UserId, c: ClassroomId)
    requires !IsStudent(db, user)
    ensures IsClassroomMember(db, user, c) <==> IsClassroomOwner(db, user, c)
  {
  }

  /// When the user holds one student profile, membership of a classroom that
  /// user does not own is exactly an enrollment row of that profile.
  lemma MemberStudentIsEnrolled(db: Db, user: UserId, s: StudentId, c: ClassroomId)
    requires Valid(db) && s in db.students && db.students[s].user == user
    requires c in db.classrooms && !IsClassroomOwner(db, user, c)
    ensures IsClassroomMember(db, user, c) <==> exists e :: e in db.enrollments && db.enrollments[e] == Enrollment(s, c)
  {
    if IsClassroomMember(db, user, c) {
      var s', e :| s' in db.students && e in db.enrollments &&
        db.students[s'].user == user && db.enrollments[e] == Enrollment(s', c);
      assert s' == s;
    }
  }

  // ---------------------------------------------------------------- DRF evaluation

  datatype Permission =
    | Authenticated        // rest_framework's IsAuthenticated
    | ClassroomMember
    | ClassroomOwner
    | Student
    | Teacher
    | StudentOrTeacher     // IsStudent | IsTeacher
    | CommentAuthor
    | ProfileOwnerOrReadOnly

  /// The object a view hands to `check_object_permissions`.
  datatype Target =
    | ClassroomObj(classroom: ClassroomId)
    | CommentObj(comment: CommentId)
    | ProfileObj(owner: UserId)

  /// `has_permission` of one class. The classes that only define
  /// `has_object_permission` grant it; the others never grant it to an
  /// anonymous request.
  function HasPermission(p: Permission, db: Db, u: Option<UserId>): (b: bool)
    ensures p !in {Authenticated, Student, Teacher, StudentOrTeacher} ==> b
    ensures b && p in {Authenticated, Student, Teacher, StudentOrTeacher} ==> u.Some?
  {
    match p
    case Authenticated => IsAuthenticated(db, u)
    case Student => u.Some? && IsStudent(db, u.value)
    case Teacher => u.Some? && IsTeacher(db, u.value)
    case StudentOrTeacher => u.Some? && (IsStudent(db, u.value) || IsTeacher(db, u.value))
    case _ => true
  }

  /// `has_object_permission` of one class. The classes that only define
  /// `has_permission` grant it; the profile class grants every safe method.
  /// No view pairs a classroom permission with a comment or a profile, nor the
  /// other way round; such a pairing is refused here.
  function HasObjectPermission(p: Permission, m: HttpMethod, db: Db, u: Option<UserId>, target: Target): (b: bool)
    ensures p in {Authenticated, Student, Teacher, StudentOrTeacher} ==> b
    ensures b && p in {ClassroomMember, ClassroomOwner, CommentAuthor} ==> u.Some?
    ensures p == ProfileOwnerOrReadOnly && target.ProfileObj? && IsSafe(m) ==> b
  {
    match p
    case ClassroomMember => target.ClassroomObj? && u.Some? && IsClassroomMember(db, u.value, target.classroom)
    case ClassroomOwner => target.ClassroomObj? && u.Some? && IsClassroomOwner(db, u.value, target.classroom)
    case CommentAuthor => target.CommentObj? && u.Some? && IsCommentAuthor(db, u.value, target.comment)
    case ProfileOwnerOrReadOnly => target.ProfileObj? && IsProfileOwnerOrReadOnly(m, u, target.owner)
    case _ => true
  }

  /// `permission_denied`: 401 when nobody is authenticated, 403 otherwise.
  function Refusal(db: Db, u: Option<UserId>): (d: Decision)
    ensures d == Unauthenticated <==> !IsAuthenticated(db, u)
    ensures d == Unauthenticated || d == Denied
  {
    if IsAuthenticated(db, u) then Denied else Unauthenticated
  }

  /// APIView.check_permissions: every class of the view's list must grant
  /// `has_permission`; the first refusal raises `permission_denied`.
  function CheckPermissions(ps: seq<Permission>, db: Db, u: Option<UserId>): (d: Decision)
    ensures d == Allow || d == Refusal(db, u)
    ensures d == Allow <==> forall i | 0 <= i < |ps| :: HasPermission(ps[i], db, u)
    ensures |ps| == 0 ==> d == Allow
    ensures |ps| == 1 ==> (d == Allow <==> HasPermission(ps[0], db, u))
    ensures |ps| == 2 ==> (d == Allow <==> HasPermission(ps[0], db, u) && HasPermission(ps[1], db, u))
    ensures |ps| == 3 ==>
      (d == Allow <==> HasPermission(ps[0], db, u) && HasPermission(ps[1], db, u) && HasPermission(ps[2], db, u))
  {
    if forall p | p in ps :: HasPermission(p, db, u) then Allow else Refusal(db, u)
  }

  /// APIView.check_object_permissions: every class of the list must grant
  /// `has_object_permission` on the loaded object.
  function CheckObjectPermissions(ps: seq<Permission>, m: HttpMethod, db: Db, u: Option<UserId>, target: Target): (d: Decision)
    ensures d == Allow || d == Refusal(db, u)
    ensures d == Allow <==> forall i | 0 <= i < |ps| :: HasObjectPermission(ps[i], m, db, u, target)
    ensures |ps| == 0 ==> d == Allow
    ensures |ps| == 1 ==> (d == Allow <==> HasObjectPermission(ps[0], m, db, u, target))
    ensures |ps| == 2 ==>
      (d == Allow <==> HasObjectPermission(ps[0], m, db, u, target) && HasObjectPermission(ps[1], m, db, u, target))
    ensures |ps| == 3 ==>
      (d == Allow <==> HasObjectPermission(ps[0], m, db, u, target) && HasObjectPermission(ps[1], m, db, u, target) &&
                       HasObjectPermission(ps[2], m, db, u, target))
  {
    if forall p | p in ps :: HasObjectPermission(p, m, db, u, target) then Allow else Refusal(db, u)
  }
}
