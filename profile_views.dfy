/// The profile detail views of account/views.py, which hand the profile to
/// IsProfileOwnerOrReadOnly (account/permissions.py) and the request body to
/// the profile serializers: any authenticated user reads a profile; only its
/// own user writes or deletes it, and deleting it deletes the user.
module ProfileViews {
  import opened Common
  import opened Store
  import opened Permissions
  import opened ApiView
  import opened AccountSerializers
  import opened Cascade

  const ProfilePermissions: seq<Permission> := [Authenticated, ProfileOwnerOrReadOnly]

  /// `get_object(pk)`: the user of profile `pk` of `kind`, None for Http404.
  function ProfileOwner(db: Db, kind: ProfileKind, pk: nat): (r: Option<UserId>)
    ensures kind == TeacherKind ==> (r.Some? <==> pk in db.teachers)
    ensures kind == StudentKind ==> (r.Some? <==> pk in db.students)
    ensures r.Some? && kind == TeacherKind ==> r.value == db.teachers[pk].user
    ensures r.Some? && kind == StudentKind ==> r.value == db.students[pk].user
  {
    match kind
    case TeacherKind => if pk in db.teachers then Some(db.teachers[pk].user) else None
    case StudentKind => if pk in db.students then Some(db.students[pk].user) else None
  }

  /// The 400 answer of `is_valid(raise_exception=True)`: the body carries the
  /// refused keys under "invalid_fields", or the error of each failing field.
  function Rejection(v: Validation): Decision
    requires !v.Validated?
  {
    if v.InvalidFields? then Invalid("invalid_fields") else Invalid("field_errors")
  }

  /// TeacherProfileRetrieveUpdateDestroyAPIView / StudentProfileRetrieveUpdateDestroyAPIView:
  /// `check_permissions`, `get_object` (404, then the object permission),
  /// then for PUT the serializer.
  function ProfileDetail(kind: ProfileKind, m: HttpMethod, db: Db, u: Option<UserId>, pk: nat, data: Body): (d: Decision)
    ensures d == Allow <==>
      IsAuthenticated(db, u) && m in {Get, Head, Put, Delete} && ProfileOwner(db, kind, pk).Some? &&
      (IsSafe(m) || u.value == ProfileOwner(db, kind, pk).value) &&
      (m == Put ==> Validate(kind, data).Validated?)
    ensures d == NotFound <==> IsAuthenticated(db, u) && m in {Get, Head, Put, Delete} && ProfileOwner(db, kind, pk).None?
    ensures (IsAuthenticated(db, u) && m in {Put, Delete} && ProfileOwner(db, kind, pk).Some? &&
             u.value != ProfileOwner(db, kind, pk).value) ==> d == Denied
  {
    Respond(m, {Get, Head, Put, Delete}, ProfilePermissions, db, u,
      match ProfileOwner(db, kind, pk)
      case None => NotFound
      case Some(owner) =>
        ObjectGate(ProfilePermissions, m, db, u, ProfileObj(owner),
          if m != Put then Allow
          else
            var v := Validate(kind, data);
            if v.Validated? then Allow else Rejection(v)))
  }

  /// Any authenticated user reads any profile that exists.
  lemma AnyoneReadsProfiles(kind: ProfileKind, m: HttpMethod, db: Db, u: Option<UserId>, pk: nat, data: Body)
    requires IsAuthenticated(db, u) && (m == Get || m == Head) && ProfileOwner(db, kind, pk).Some?
    ensures ProfileDetail(kind, m, db, u, pk, data) == Allow
  {
  }

  /// Only the profile's own user gets a write or a delete through; an admin
  /// is refused like anyone else.
  lemma OnlyOwnerWrites(kind: ProfileKind, m: HttpMethod, db: Db, u: Option<UserId>, pk: nat, data: Body)
    requires !IsSafe(m) && ProfileDetail(kind, m, db, u, pk, data) == Allow
    ensures u.Some? && ProfileOwner(db, kind, pk) == Some(u.value)
  {
  }

  /// The owner's body with a key the serializer does not declare is refused
  /// with the list of such keys, before any field is converted.
  lemma OwnerUnknownKeyRefused(kind: ProfileKind, db: Db, u: Option<UserId>, pk: nat, data: Body, i: nat)
    requires IsAuthenticated(db, u) && ProfileOwner(db, kind, pk) == u
    requires i < |data| && data[i].0 !in DeclaredFields(kind)
    ensures ProfileDetail(kind, Put, db, u, pk, data) == Invalid("invalid_fields")
  {
    UnknownKeyRefused(kind, data, i);
  }

  /// What an allowed request leaves in the store: PUT writes the validated
  /// fields, DELETE deletes the profile's user (and by cascade the profile),
  /// GET and HEAD change nothing.
  function ProfileEffect(kind: ProfileKind, m: HttpMethod, db: Db, pk: nat, data: Body): (r: Db)
    requires ProfilesRefOk(db) && ProfileOwner(db, kind, pk).Some?
    requires m == Put ==> Validate(kind, data).Validated?
    ensures !(m in {Put, Delete}) ==> r == db
  {
    var owner := ProfileOwner(db, kind, pk).value;
    if m == Put then
      (if kind == TeacherKind then UpdateTeacherProfile(db, pk, Validate(kind, data).changes)
       else UpdateStudentProfile(db, pk, Validate(kind, data).changes))
    else if m == Delete then DeleteUser(db, owner)
    else db
  }

  /// After an allowed request the store still meets every constraint, and a
  /// deleted profile is gone with its user.
  lemma ProfileEffectKeepsValid(kind: ProfileKind, m: HttpMethod, db: Db, pk: nat, data: Body)
    requires Valid(db) && RolesExclusive(db) && ProfileOwner(db, kind, pk).Some?
    requires m == Put ==> Validate(kind, data).Validated?
    ensures Valid(ProfileEffect(kind, m, db, pk, data))
    ensures m == Delete ==>
      var after, owner := ProfileEffect(kind, m, db, pk, data), ProfileOwner(db, kind, pk).value;
      owner !in after.users && !IsTeacher(after, owner) && !IsStudent(after, owner)
  {
    var owner := ProfileOwner(db, kind, pk).value;
    if m == Put {
      if kind == TeacherKind {
        UpdateTeacherKeepsValid(db, pk, Validate(kind, data).changes);
      } else {
        UpdateStudentKeepsValid(db, pk, Validate(kind, data).changes);
      }
    } else if m == Delete {
      DeleteKeepsValid(db, Nothing().(users := {owner}));
      DeleteUserRemovesProfilesAndComments(db, owner);
    }
  }
}
