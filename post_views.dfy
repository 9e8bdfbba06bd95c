/// The course-post and comment endpoints of post/views.py: which requests
/// each view lets through, and what its list endpoints return.
///
/// Where a view saves a serializer whose classroom or post resolution is not
/// part of this model, the serializer's verdict is a parameter: the row it
/// resolved, or the message of the error it raised.
///
/// The post serializers as written break four of these views: CoursePost
/// creation always fails on the read-only `classroom`, and every use of
/// CommentSerializer fails its field assertion. The `AsWritten` members model
/// those views as they are; the others model the views as the tests and the
/// docstrings describe them.
module PostViews {
  import opened Common
  import opened Store
  import opened Permissions
  import opened ApiView

  const CreatePostPermissions: seq<Permission> := [Authenticated, ClassroomOwner]
  const ListPostsPermissions: seq<Permission> := [Authenticated, ClassroomMember]
  const CreateCommentPermissions: seq<Permission> := [Authenticated, ClassroomMember]
  const ListCommentsPermissions: seq<Permission> := [Authenticated, ClassroomMember]

  /// The classroom a comment belongs to, through its post.
  function CommentClassroom(db: Db, k: CommentId): ClassroomId
    requires PostsRefOk(db) && k in db.comments
  {
    db.posts[db.comments[k].post].classroom
  }

  /// CoursePostCreateAPIView: only the owner of the classroom may post in it.
  function CreatePost(m: HttpMethod, db: Db, u: Option<UserId>, resolved: Result<ClassroomId>): (d: Decision)
    requires resolved.Ok? ==> resolved.value in db.classrooms
    ensures d == Allow <==>
      IsAuthenticated(db, u) && m == Post && resolved.Ok? && IsClassroomOwner(db, u.value, resolved.value)
    ensures IsAuthenticated(db, u) && m == Post && resolved.Fail? ==> d == Invalid(resolved.message)
  {
    Respond(m, {Post}, CreatePostPermissions, db, u,
      match resolved
      case Fail(msg) => Invalid(msg)
      case Ok(c) => ObjectGate(CreatePostPermissions, m, db, u, ClassroomObj(c), Allow))
  }

  /// CoursePostCreateAPIView as written. CoursePostSerializer declares its
  /// `classroom` read-only, so `validated_data` never holds it: once the
  /// permission check and the serializer's checks of title and content
  /// (`fields`, their verdict) pass, `perform_create` raises KeyError, before
  /// any object permission is checked.
  function CreatePostAsWritten(m: HttpMethod, db: Db, u: Option<UserId>, fields: Result<()>): (d: Decision)
    ensures d != Allow
    ensures d == ServerError <==> IsAuthenticated(db, u) && m == Post && fields.Ok?
    ensures IsAuthenticated(db, u) && m == Post && fields.Fail? ==> d == Invalid(fields.message)
  {
    Respond(m, {Post}, CreatePostPermissions, db, u,
      match fields
      case Fail(msg) => Invalid(msg)
      case Ok(_) => ServerError)
  }

  /// A valid post body is answered 500 as written, where the corrected view
  /// creates the post for the classroom's owner and refuses anyone else 403.
  lemma PostCreationCrashes(db: Db, u: Option<UserId>, c: ClassroomId)
    requires IsAuthenticated(db, u) && c in db.classrooms
    ensures CreatePostAsWritten(Post, db, u, Ok(())) == ServerError
    ensures CreatePost(Post, db, u, Ok(c)) == if IsClassroomOwner(db, u.value, c) then Allow else Denied
  {
  }

  /// CoursePostListAPIView: the classroom of the URL must exist, and the
  /// requester must be one of its members.
  function ListPosts(m: HttpMethod, db: Db, u: Option<UserId>, c: ClassroomId): (d: Decision)
    ensures d == Allow <==> IsAuthenticated(db, u) && (m == Get || m == Head) && IsClassroomMember(db, u.value, c)
    ensures IsAuthenticated(db, u) && (m == Get || m == Head) && c !in db.classrooms ==>
      d == Invalid("Classroom does not exist.")
  {
    Respond(m, {Get, Head}, ListPostsPermissions, db, u,
      if c !in db.classrooms then Invalid("Classroom does not exist.")
      else ObjectGate(ListPostsPermissions, m, db, u, ClassroomObj(c), Allow))
  }

  /// The queryset of CoursePostListAPIView.
  function PostsOf(db: Db, c: ClassroomId): set<PostId>
  {
    set p | p in db.posts && db.posts[p].classroom == c
  }

  /// Whoever may list the posts of a classroom may read each of them through
  /// the detail endpoint.
  lemma ListedPostsAreReadable(m: HttpMethod, db: Db, u: Option<UserId>, c: ClassroomId, p: PostId,
                                body: Result<()>)
    requires ListPosts(m, db, u, c) == Allow && p in PostsOf(db, c)
    ensures PostDetail(m, db, u, c, p, body) == Allow
  {
  }

  /// CoursePostRetrieveUpdateDestroyAPIView. The permission target is the
  /// post's own classroom; the URL's classroom id `urlClassroom` is never read.
  /// `body` is the verdict of CoursePostSerializer on a PUT's body, checked
  /// once the post is loaded and the object permissions pass.
  function PostDetail(m: HttpMethod, db: Db, u: Option<UserId>, urlClassroom: ClassroomId, p: PostId,
                      body: Result<()>): (d: Decision)
    ensures d == Allow <==>
      IsAuthenticated(db, u) && m in {Get, Head, Put, Delete} && p in db.posts &&
      (if IsSafe(m) then IsClassroomMember(db, u.value, db.posts[p].classroom)
       else IsClassroomOwner(db, u.value, db.posts[p].classroom)) &&
      (m == Put ==> body.Ok?)
    ensures d == NotFound <==> IsAuthenticated(db, u) && m in {Get, Head, Put, Delete} && p !in db.posts
    ensures var owner := IsAuthenticated(db, u) && p in db.posts && IsClassroomOwner(db, u.value, db.posts[p].classroom);
      owner && m == Put && body.Fail? ==> d == Invalid(body.message)
  {
    var ps := PermissionsFor(ReadMemberWriteOwner, m);
    Respond(m, {Get, Head, Put, Delete}, ps, db, u,
      if p !in db.posts then NotFound
      else ObjectGate(ps, m, db, u, ClassroomObj(db.posts[p].classroom), if m == Put then SaveIfValid(body) else Allow))
  }

  /// CommentCreateAPIView: members of the post's classroom may comment.
  function CreateComment(m: HttpMethod, db: Db, u: Option<UserId>, resolved: Result<PostId>): (d: Decision)
    requires resolved.Ok? ==> resolved.value in db.posts
    ensures d == Allow <==>
      IsAuthenticated(db, u) && m == Post && resolved.Ok? &&
      IsClassroomMember(db, u.value, db.posts[resolved.value].classroom)
  {
    Respond(m, {Post}, CreateCommentPermissions, db, u,
      match resolved
      case Fail(msg) => Invalid(msg)
      case Ok(p) => ObjectGate(CreateCommentPermissions, m, db, u, ClassroomObj(db.posts[p].classroom), Allow))
  }

  /// CommentCreateAPIView as written. CommentSerializer declares a `post`
  /// field that its Meta.fields leaves out, so building its fields fails the
  /// framework's assertion: a POST that passes the permission check ends in a
  /// 500 inside `is_valid`. So does OPTIONS, whose metadata describes the
  /// fields of the serializer a POST would use.
  function CreateCommentAsWritten(m: HttpMethod, db: Db, u: Option<UserId>): (d: Decision)
    ensures d != Allow
    ensures d == ServerError <==> IsAuthenticated(db, u) && (m == Post || m == Options)
  {
    var d := Respond(m, {Post}, CreateCommentPermissions, db, u, ServerError);
    if d == Metadata then ServerError else d
  }

  /// A member commenting on a post gets a 500 as written, where the corrected
  /// view creates the comment.
  lemma CommentCreationCrashes(db: Db, u: Option<UserId>, p: PostId)
    requires IsAuthenticated(db, u) && p in db.posts && IsClassroomMember(db, u.value, db.posts[p].classroom)
    ensures CreateComment(Post, db, u, Ok(p)) == Allow
    ensures CreateCommentAsWritten(Post, db, u) == ServerError
  {
  }

  /// CommentListAPIView: the post of the URL must exist, and the requester
  /// must be a member of its classroom.
  function ListComments(m: HttpMethod, db: Db, u: Option<UserId>, urlClassroom: ClassroomId, p: PostId): (d: Decision)
    ensures d == Allow <==>
      IsAuthenticated(db, u) && (m == Get || m == Head) && p in db.posts &&
      IsClassroomMember(db, u.value, db.posts[p].classroom)
    ensures IsAuthenticated(db, u) && (m == Get || m == Head) && p !in db.posts ==> d == Invalid("Post does not exist.")
  {
    Respond(m, {Get, Head}, ListCommentsPermissions, db, u,
      if p !in db.posts then Invalid("Post does not exist.")
      else ObjectGate(ListCommentsPermissions, m, db, u, ClassroomObj(db.posts[p].classroom), Allow))
  }

  /// The queryset of CommentListAPIView: `post.comments`.
  function CommentsOf(db: Db, p: PostId): set<CommentId>
  {
    set k | k in db.comments && db.comments[k].post == p
  }

  /// CommentListAPIView as written: rendering a comment through
  /// CommentSerializer fails the same assertion as creating one, so a list
  /// that passes every check is a 500 unless the post has no comment.
  function ListCommentsAsWritten(m: HttpMethod, db: Db, u: Option<UserId>, urlClassroom: ClassroomId, p: PostId)
    : (d: Decision)
    ensures d == ServerError <==> ListComments(m, db, u, urlClassroom, p) == Allow && CommentsOf(db, p) != {}
    ensures d != ServerError ==> d == ListComments(m, db, u, urlClassroom, p)
  {
    Respond(m, {Get, Head}, ListCommentsPermissions, db, u,
      if p !in db.posts then Invalid("Post does not exist.")
      else ObjectGate(ListCommentsPermissions, m, db, u, ClassroomObj(db.posts[p].classroom),
                      if CommentsOf(db, p) == {} then Allow else ServerError))
  }

  /// A member listing the comments of a post that has one gets a 500 as
  /// written, where the corrected view lists them.
  lemma ListingCommentsCrashes(m: HttpMethod, db: Db, u: Option<UserId>, c: ClassroomId, p: PostId, k: CommentId)
    requires ListComments(m, db, u, c, p) == Allow && k in db.comments && db.comments[k].post == p
    ensures ListCommentsAsWritten(m, db, u, c, p) == ServerError
  {
    assert k in CommentsOf(db, p);
  }

  /// CommentRetrieveUpdateDeleteAPIView: reading needs membership of the
  /// classroom, editing needs authorship, deleting needs ownership of the
  /// classroom or authorship (check_permissions_for_classroom_and_comment).
  /// `read` is what rendering the comment gives, `put` what validating and
  /// saving a PUT's body gives, once the checks before them pass.
  function CommentDetailWith(m: HttpMethod, db: Db, u: Option<UserId>, urlClassroom: ClassroomId, urlPost: PostId,
                             k: CommentId, read: Decision, put: Decision): Decision
    requires PostsRefOk(db)
  {
    var ps := PermissionsFor(CommentRules, m);
    Respond(m, {Get, Head, Put, Delete}, ps, db, u,
      if k !in db.comments then NotFound
      else if IsSafe(m) then ObjectGate(ps, m, db, u, ClassroomObj(CommentClassroom(db, k)), read)
      else if m == Put then ObjectGate(ps, m, db, u, CommentObj(k), put)
      else if m == Delete then
        (if u.Some? && (IsClassroomOwner(db, u.value, CommentClassroom(db, k)) || IsCommentAuthor(db, u.value, k))
         then Allow
         else Refusal(db, u))
      else Allow)
  }

  /// The comment detail view with a serializer that renders and validates:
  /// `body` is its verdict on a PUT's body.
  function CommentDetail(m: HttpMethod, db: Db, u: Option<UserId>, urlClassroom: ClassroomId, urlPost: PostId,
                         k: CommentId, body: Result<()>): (d: Decision)
    requires PostsRefOk(db)
    ensures m == Put && IsAuthenticated(db, u) && IsCommentAuthor(db, u.value, k) ==> d == SaveIfValid(body)
  {
    CommentDetailWith(m, db, u, urlClassroom, urlPost, k, Allow, SaveIfValid(body))
  }

  /// The comment detail view as written: CommentSerializer fails its field
  /// assertion whenever GET, HEAD or PUT reaches it, so only DELETE can
  /// succeed.
  function CommentDetailAsWritten(m: HttpMethod, db: Db, u: Option<UserId>, urlClassroom: ClassroomId,
                                  urlPost: PostId, k: CommentId): (d: Decision)
    requires PostsRefOk(db)
    ensures d == ServerError <==>
      m in {Get, Head, Put} && CommentDetail(m, db, u, urlClassroom, urlPost, k, Ok(())) == Allow
    ensures d != ServerError ==> d == CommentDetail(m, db, u, urlClassroom, urlPost, k, Ok(()))
  {
    CommentDetailWith(m, db, u, urlClassroom, urlPost, k, ServerError, ServerError)
  }

  /// A member reading a comment gets a 500 as written, where the corrected
  /// view shows it.
  lemma CommentReadCrashes(db: Db, u: Option<UserId>, c: ClassroomId, p: PostId, k: CommentId)
    requires PostsRefOk(db) && IsAuthenticated(db, u) && k in db.comments
    requires IsClassroomMember(db, u.value, CommentClassroom(db, k))
    ensures CommentDetail(Get, db, u, c, p, k, Ok(())) == Allow
    ensures CommentDetailAsWritten(Get, db, u, c, p, k) == ServerError
  {
  }

  /// Reading a comment needs membership of the classroom of its post.
  lemma CommentReadNeedsMembership(m: HttpMethod, db: Db, u: Option<UserId>, c: ClassroomId, p: PostId, k: CommentId,
                                   body: Result<()>)
    requires PostsRefOk(db) && (m == Get || m == Head)
    ensures CommentDetail(m, db, u, c, p, k, body) == Allow <==>
      IsAuthenticated(db, u) && k in db.comments && IsClassroomMember(db, u.value, CommentClassroom(db, k))
  {
  }

  /// Editing a comment is allowed exactly to its author, and then only with a
  /// valid body: owning the classroom plays no part.
  lemma CommentEditOnlyByAuthor(db: Db, u: Option<UserId>, c: ClassroomId, p: PostId, k: CommentId, body: Result<()>)
    requires PostsRefOk(db)
    ensures CommentDetail(Put, db, u, c, p, k, body) == Allow <==>
      IsAuthenticated(db, u) && IsCommentAuthor(db, u.value, k) && body.Ok?
  {
  }

  /// Deleting a comment is allowed exactly to the owner of its classroom and
  /// to its author.
  lemma CommentDeleteByOwnerOrAuthor(db: Db, u: Option<UserId>, c: ClassroomId, p: PostId, k: CommentId,
                                     body: Result<()>)
    requires PostsRefOk(db)
    ensures CommentDetail(Delete, db, u, c, p, k, body) == Allow <==>
      IsAuthenticated(db, u) && k in db.comments &&
      (IsClassroomOwner(db, u.value, CommentClassroom(db, k)) || IsCommentAuthor(db, u.value, k))
  {
  }

  /// POST and PATCH reach the comment detail view under the framework default
  /// permissions, so they are answered 405 even without authentication.
  lemma CommentDetailOtherMethodsNotAllowed(m: HttpMethod, db: Db, u: Option<UserId>, c: ClassroomId, p: PostId,
                                            k: CommentId, body: Result<()>)
    requires PostsRefOk(db) && (m == Post || m == Patch)
    ensures CommentDetail(m, db, u, c, p, k, body) == NotAllowed
  {
  }

  /// A missing post or comment is reported 404 to every authenticated user.
  lemma MissingCommentNotFound(m: HttpMethod, db: Db, u: Option<UserId>, c: ClassroomId, p: PostId, k: CommentId,
                               body: Result<()>)
    requires PostsRefOk(db) && m in {Get, Head, Put, Delete} && IsAuthenticated(db, u) && k !in db.comments
    ensures CommentDetail(m, db, u, c, p, k, body) == NotFound
  {
  }
}
