/// The request pipeline every view of the project inherits from Django REST
/// framework's APIView: authentication and `check_permissions` first, OPTIONS
/// answered by the metadata handler, 405 for a method without a handler, and
/// `check_object_permissions` once `get_object` has loaded the row. Also the
/// `get_permissions` overrides of the detail views, which assign the view's
/// `permission_classes` field from the request method.
module ApiView {
  import opened Common
  import opened Store
  import opened Permissions

  /// APIView.dispatch once the user is known: `check_permissions`, then the
  /// handler for `m` (HEAD runs GET's handler, so it is listed in `handles`
  /// wherever GET is).
  function Respond(m: HttpMethod, handles: set<HttpMethod>, ps: seq<Permission>, db: Db, u: Option<UserId>,
                   handler: Decision): (d: Decision)
    ensures d == Allow <==>
      CheckPermissions(ps, db, u) == Allow && m != Options && m in handles && handler == Allow
    ensures d != handler ==> d == Metadata || d == NotAllowed || d == Refusal(db, u)
  {
    var gate := CheckPermissions(ps, db, u);
    if gate != Allow then gate
    else if m == Options then Metadata
    else if m !in handles then NotAllowed
    else handler
  }

  /// `check_object_permissions(request, target)` followed by the rest of the handler.
  function ObjectGate(ps: seq<Permission>, m: HttpMethod, db: Db, u: Option<UserId>, target: Target,
                      rest: Decision): (d: Decision)
    ensures d == Allow <==> CheckObjectPermissions(ps, m, db, u, target) == Allow && rest == Allow
  {
    var gate := CheckObjectPermissions(ps, m, db, u, target);
    if gate != Allow then gate else rest
  }

  /// `serializer.is_valid(raise_exception=True)` followed by `save()`, for a
  /// serializer whose fields are not part of this model: `body` is its verdict
  /// on the request body.
  function SaveIfValid(body: Result<()>): Decision
  {
    match body
    case Ok(_) => Allow
    case Fail(msg) => Invalid(msg)
  }

  /// How a view's `get_permissions` picks its permission classes.
  ///   ReadMemberWriteOwner  safe methods: member of the classroom, others: its owner
  ///   CommentRules          the comment detail view's three-way choice
  ///   Fixed(ps)             no override: the class attribute `ps`
  datatype Policy = ReadMemberWriteOwner | CommentRules | Fixed(ps: seq<Permission>)

  /// The class attribute before any request. The comment detail view declares
  /// none, so it inherits the project default, taken to be the framework's
  /// default AllowAny (the settings module is not part of this model).
  function DeclaredPermissions(policy: Policy): seq<Permission>
  {
    if policy.Fixed? then policy.ps else []
  }

  /// The value `get_permissions` leaves in `permission_classes` for method `m`
  /// when the field held `current`.
  function SelectPermissions(policy: Policy, m: HttpMethod, current: seq<Permission>): (ps: seq<Permission>)
    ensures policy == ReadMemberWriteOwner ==>
      ps == (if IsSafe(m) then [Authenticated, ClassroomMember] else [Authenticated, ClassroomOwner])
    ensures policy == CommentRules && IsSafe(m) ==> ps == [Authenticated, ClassroomMember]
    ensures policy == CommentRules && m == Put ==> ps == [Authenticated, CommentAuthor]
    ensures policy == CommentRules && m == Delete ==> ps == [Authenticated]
    ensures policy == CommentRules && !IsSafe(m) && m != Put && m != Delete ==> ps == current
    ensures policy.Fixed? ==> ps == current
  {
    match policy
    case ReadMemberWriteOwner =>
      if IsSafe(m) then [Authenticated, ClassroomMember] else [Authenticated, ClassroomOwner]
    case CommentRules =>
      if IsSafe(m) then [Authenticated, ClassroomMember]
      else if m == Put then [Authenticated, CommentAuthor]
      else if m == Delete then [Authenticated]
      else current
    case Fixed(_) => current
  }

  /// The permission list in force for a request with method `m`.
  function PermissionsFor(policy: Policy, m: HttpMethod): seq<Permission>
  {
    SelectPermissions(policy, m, DeclaredPermissions(policy))
  }

  /// DRF calls `get_permissions` once for `check_permissions` and again for
  /// `check_object_permissions`; the second call leaves the field as the first did.
  lemma SelectPermissionsIdempotent(policy: Policy, m: HttpMethod, current: seq<Permission>)
    ensures SelectPermissions(policy, m, SelectPermissions(policy, m, current)) == SelectPermissions(policy, m, current)
  {
  }

  /// Every permission list a detail view can select starts with IsAuthenticated,
  /// except the framework default the comment view keeps for POST and PATCH.
  lemma SelectedPermissionsAuthenticate(policy: Policy, m: HttpMethod)
    requires policy != CommentRules || IsSafe(m) || m == Put || m == Delete
    requires policy.Fixed? ==> |policy.ps| > 0 && policy.ps[0] == Authenticated
    ensures |PermissionsFor(policy, m)| > 0 && PermissionsFor(policy, m)[0] == Authenticated
  {
  }

  /// A detail view object: `permission_classes` is the field its
  /// `get_permissions` override assigns.
  class DetailView {
    const policy: Policy
    var permissionClasses: seq<Permission>

    constructor (policy: Policy)
      ensures this.policy == policy
      ensures permissionClasses == DeclaredPermissions(policy)
    {
      this.policy := policy;
      permissionClasses := DeclaredPermissions(policy);
    }

    /// `get_permissions`: assigns the field for method `m` and returns it.
    method GetPermissions(m: HttpMethod) returns (ps: seq<Permission>)
      modifies this
      ensures permissionClasses == SelectPermissions(policy, m, old(permissionClasses))
      ensures ps == permissionClasses
    {
      match policy {
        case ReadMemberWriteOwner =>
          if IsSafe(m) {
            permissionClasses := [Authenticated, ClassroomMember];
          } else {
            permissionClasses := [Authenticated, ClassroomOwner];
          }
        case CommentRules =>
          if IsSafe(m) {
            permissionClasses := [Authenticated, ClassroomMember];
          } else if m == Put {
            permissionClasses := [Authenticated, CommentAuthor];
          } else if m == Delete {
            permissionClasses := [Authenticated];
          }
        case Fixed(_) =>
      }
      ps := permissionClasses;
    }
  }
}
