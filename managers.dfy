/// authuser/managers.py: the manager that creates users, keyed by e-mail
/// instead of a user name. Saving the new row fires the profile hook of
/// authuser/signals.py, so a successful creation also holds its effect.
module Managers {
  import opened Common
  import opened Store
  import opened Text
  import opened Permissions
  import opened Signals
  import opened Writes

  /// The keyword arguments `**extra_fields` the model accepts as booleans;
  /// None for a keyword not passed.
  datatype ExtraFields = ExtraFields(staff: Option<bool>, superuser: Option<bool>, active: Option<bool>,
                                     teacher: Option<bool>)

  const NoExtraFields := ExtraFields(None, None, None, None)

  /// `not extra_fields.get(key)`: a missing key reads as None, which is falsy.
  predicate Falsy(v: Option<bool>)
  {
    v.None? || !v.value
  }

  /// The value of a boolean column of the new row: the keyword argument when
  /// given, the model default otherwise.
  function ColumnValue(v: Option<bool>, default: bool): bool
  {
    if v.Some? then v.value else default
  }

  const NoEmail := "Users must have an email address"
  const NotStaff := "Superuser must have is_staff=True."
  const NotSuperuser := "Superuser must have is_superuser=True."
  const NotTeacher := "Superuser must have is_teacher=True."

  // ---------------------------------------------------------------- e-mail

  predicate HasAt(s: string)
  {
    exists i | 0 <= i < |s| :: s[i] == '@'
  }

  /// BaseUserManager.normalize_email: strip the address, split it at its last
  /// '@' and lower-case the domain part; an address without '@' is returned as
  /// given.
  function NormalizeEmail(email: string): (r: string)
    ensures !HasAt(email) ==> r == email
    ensures HasAt(email) ==> HasAt(r)
  {
    var s := Strip(email);
    match LastIndexOf(s, '@')
    case None => email
    case Some(i) =>
      assert Rebuilt(s, i)[i] == '@';
      Rebuilt(s, i)
  }

  /// `LowerChar` leaves '@' alone and never produces it from anything else.
  lemma LowerKeepsAt(s: string)
    ensures forall k | 0 <= k < |s| :: (Lower(s)[k] == '@' <==> s[k] == '@')
  {
  }

  /// What normalization builds from a stripped address `s` whose last '@'
  /// is at `i`.
  function Rebuilt(s: string, i: nat): string
    requires i < |s|
  {
    s[..i] + "@" + Lower(s[i + 1..])
  }

  /// Lower-casing never turns a character into white space.
  lemma LowerCharNotSpace(c: char)
    ensures IsSpace(LowerChar(c)) == IsSpace(c)
  {
  }

  lemma RebuiltIsTrimmed(s: string, i: nat)
    requires i < |s| && s[i] == '@' && !IsSpace(s[0]) && !IsSpace(s[|s| - 1])
    ensures Strip(Rebuilt(s, i)) == Rebuilt(s, i)
  {
    var local, domain := s[..i], s[i + 1..];
    var r := local + "@" + Lower(domain);
    assert r == Rebuilt(s, i);
    if i == 0 {
      assert r[0] == '@' == s[0];
    } else {
      assert r[0] == local[0] == s[0];
    }
    if domain == [] {
      assert r[|r| - 1] == '@';
    } else {
      var last := domain[|domain| - 1];
      assert last == s[|s| - 1];
      assert r[|r| - 1] == Lower(domain)[|domain| - 1] == LowerChar(last);
      LowerCharNotSpace(last);
    }
    StripTrimmed(r);
  }

  lemma RebuiltKeepsLastAt(s: string, i: nat)
    requires LastIndexOf(s, '@') == Some(i)
    ensures LastIndexOf(Rebuilt(s, i), '@') == Some(i)
    ensures Rebuilt(s, i)[..i] == s[..i] && Rebuilt(s, i)[i + 1..] == Lower(s[i + 1..])
  {
    var domain := s[i + 1..];
    assert forall k | 0 <= k < |domain| :: domain[k] == s[i + 1 + k];
    LowerKeepsAt(domain);
    JoinedLastAt(s[..i], Lower(s[i + 1..]));
  }

  /// Normalizing a stripped address splits it at its last '@'.
  lemma NormalizeStripped(s: string, i: nat)
    requires Strip(s) == s && LastIndexOf(s, '@') == Some(i)
    ensures NormalizeEmail(s) == Rebuilt(s, i)
  {
  }

  lemma NormalizeFound(email: string, i: nat)
    requires LastIndexOf(Strip(email), '@') == Some(i)
    ensures NormalizeEmail(email) == Rebuilt(Strip(email), i)
  {
  }

  /// A normalized address is its own normalization: it is stripped already,
  /// keeps its last '@' in place and has a lower-case domain.
  lemma NormalizeEmailIdempotent(email: string)
    ensures NormalizeEmail(NormalizeEmail(email)) == NormalizeEmail(email)
  {
    var s := Strip(email);
    var found := LastIndexOf(s, '@');
    if found.Some? {
      var i := found.value;
      assert s != [] && !IsSpace(s[0]) && !IsSpace(s[|s| - 1]);
      NormalizeFound(email, i);
      RebuiltIsNormal(s, i);
      assert NormalizeEmail(email) == Rebuilt(s, i);
    }
  }

  /// Normalization leaves a rebuilt address as it is.
  lemma RebuiltIsNormal(s: string, i: nat)
    requires LastIndexOf(s, '@') == Some(i) && !IsSpace(s[0]) && !IsSpace(s[|s| - 1])
    ensures NormalizeEmail(Rebuilt(s, i)) == Rebuilt(s, i)
  {
    var r := Rebuilt(s, i);
    RebuiltIsTrimmed(s, i);
    RebuiltKeepsLastAt(s, i);
    NormalizeStripped(r, i);
    RebuiltTwice(s, i);
  }

  lemma RebuiltTwice(s: string, i: nat)
    requires i < |s| && Rebuilt(s, i)[..i] == s[..i] && Rebuilt(s, i)[i + 1..] == Lower(s[i + 1..])
    ensures Rebuilt(Rebuilt(s, i), i) == Rebuilt(s, i)
  {
    LowerIdempotent(s[i + 1..]);
  }

  lemma JoinedTrimmed(local: string, domain: string)
    requires local != [] && !IsSpace(local[0]) && domain != [] && !IsSpace(domain[|domain| - 1])
    ensures Strip(local + "@" + domain) == local + "@" + domain
  {
    var s := local + "@" + domain;
    assert s[0] == local[0] && s[|s| - 1] == domain[|domain| - 1];
    StripTrimmed(s);
  }

  /// An address with no white space around it whose domain holds no '@'
  /// keeps its local part as written and gets its domain lower-cased.
  lemma NormalizeEmailParts(local: string, domain: string)
    requires forall k | 0 <= k < |domain| :: domain[k] != '@'
    requires local != [] && !IsSpace(local[0]) && domain != [] && !IsSpace(domain[|domain| - 1])
    ensures NormalizeEmail(local + "@" + domain) == local + "@" + Lower(domain)
  {
    JoinedLastAt(local, domain);
    JoinedTrimmed(local, domain);
  }

  /// The address of the source's own test comes out with its domain lower-cased.
  lemma NormalizeEmailLowersDomain(local: string, domain: string)
    requires local == "tesst" && domain == "TEST.COM"
    ensures NormalizeEmail(local + "@" + domain) == local + "@" + "test.com"
  {
    NormalizeEmailParts(local, domain);
    LowerDomain(domain);
  }

  lemma LowerDomain(domain: string)
    requires domain == "TEST.COM"
    ensures Lower(domain) == "test.com"
  {
    var x := Lower(domain);
    assert x[0] == 't' && x[1] == 'e' && x[2] == 's' && x[3] == 't' && x[4] == '.' && x[5] == 'c' && x[6] == 'o' && x[7] == 'm';
  }

  // ---------------------------------------------------------------- create_user

  /// `self.model(email=email, **extra_fields)` followed by `set_password`:
  /// no password gives an unusable one; names start empty; `is_active`
  /// defaults to True and the other flags to False.
  function NewUser(email: string, password: Option<string>, extra: ExtraFields): (u: User)
    ensures u.email == NormalizeEmail(email)
    ensures u.password.Usable? <==> password.Some?
    ensures u.isTeacher == ColumnValue(extra.teacher, false) && u.isStaff == ColumnValue(extra.staff, false)
    ensures u.isSuperuser == ColumnValue(extra.superuser, false) && u.isActive == ColumnValue(extra.active, true)
  {
    User(NormalizeEmail(email), if password.Some? then Usable(password.value) else Unusable, "", "",
         ColumnValue(extra.teacher, false), ColumnValue(extra.staff, false), ColumnValue(extra.superuser, false),
         ColumnValue(extra.active, true))
  }

  predicate EmailTaken(db: Db, email: string)
  {
    exists v | v in db.users :: db.users[v].email == email
  }

  /// UserManager.create_user: an empty or missing e-mail is refused; an
  /// address some user already has breaks the unique constraint, which
  /// nobody catches; otherwise the row is saved under `id` and the profile
  /// hook runs for its first save, with `profile` the uuid of a new profile.
  function CreateUser(db: Db, id: UserId, email: Option<string>, password: Option<string>, extra: ExtraFields,
                      profile: nat): (r: Outcome<Db>)
    requires id !in db.users && profile !in db.teachers && profile !in db.students
    ensures r.Rejected? <==> email.None? || email.value == ""
    ensures r.Rejected? ==> r.message == NoEmail
    ensures r.Crashed? <==> email.Some? && email.value != "" && EmailTaken(db, NormalizeEmail(email.value))
    ensures r.Done? ==> r.value.users == db.users[id := NewUser(email.value, password, extra)]
  {
    if email.None? || email.value == "" then Rejected(NoEmail)
    else
      var user := NewUser(email.value, password, extra);
      if EmailTaken(db, user.email) then Crashed
      else Done(CreateUserProfile(db.(users := db.users[id := user]), id, true, profile))
  }

  /// A new user row keeps every constraint when its address is free.
  lemma InsertUserKeepsValid(db: Db, id: UserId, user: User)
    requires Valid(db) && RolesExclusive(db) && id !in db.users && !EmailTaken(db, user.email)
    ensures Valid(db.(users := db.users[id := user])) && RolesExclusive(db.(users := db.users[id := user]))
  {
    var t := db.users[id := user];
    assert EmailsUnique(t);
    ValidWithUsers(db, t);
  }

  /// create_user keeps every database constraint, and no user ends up with
  /// both kinds of profile.
  lemma CreateUserKeepsValid(db: Db, id: UserId, email: Option<string>, password: Option<string>,
                             extra: ExtraFields, profile: nat)
    requires Valid(db) && RolesExclusive(db)
    requires id !in db.users && profile !in db.teachers && profile !in db.students
    requires CreateUser(db, id, email, password, extra, profile).Done?
    ensures Valid(CreateUser(db, id, email, password, extra, profile).value)
    ensures RolesExclusive(CreateUser(db, id, email, password, extra, profile).value)
  {
    var user := NewUser(email.value, password, extra);
    InsertUserKeepsValid(db, id, user);
    CreateUserProfileKeepsValid(db.(users := db.users[id := user]), id, true, profile);
  }

  /// An ordinary user (neither staff nor superuser) gets exactly one profile:
  /// a teacher profile when `is_teacher` is set, a student profile otherwise.
  lemma OrdinaryUserGetsOneProfile(db: Db, id: UserId, email: Option<string>, password: Option<string>,
                                   extra: ExtraFields, profile: nat)
    requires ProfilesRefOk(db)
    requires id !in db.users && profile !in db.teachers && profile !in db.students
    requires CreateUser(db, id, email, password, extra, profile).Done?
    requires !ColumnValue(extra.staff, false) && !ColumnValue(extra.superuser, false)
    ensures IsTeacher(CreateUser(db, id, email, password, extra, profile).value, id) <==>
            ColumnValue(extra.teacher, false)
    ensures IsStudent(CreateUser(db, id, email, password, extra, profile).value, id) <==>
            !ColumnValue(extra.teacher, false)
  {
    var saved := db.(users := db.users[id := NewUser(email.value, password, extra)]);
    assert !IsTeacher(saved, id) && !IsStudent(saved, id);
    ProfileKindFollowsFlag(saved, id, true, profile);
  }

  // ---------------------------------------------------------------- create_superuser

  /// The four `setdefault` calls of create_superuser: every flag not given
  /// becomes True, every flag given keeps its value.
  function SuperuserFields(extra: ExtraFields): (fields: ExtraFields)
    ensures fields.staff.Some? && fields.superuser.Some? && fields.active.Some? && fields.teacher.Some?
    ensures extra.staff.Some? ==> fields.staff == extra.staff
    ensures extra.superuser.Some? ==> fields.superuser == extra.superuser
    ensures extra.active.Some? ==> fields.active == extra.active
    ensures extra.teacher.Some? ==> fields.teacher == extra.teacher
    ensures extra.staff.None? ==> fields.staff == Some(true)
    ensures extra.superuser.None? ==> fields.superuser == Some(true)
    ensures extra.active.None? ==> fields.active == Some(true)
    ensures extra.teacher.None? ==> fields.teacher == Some(true)
  {
    ExtraFields(Some(ColumnValue(extra.staff, true)), Some(ColumnValue(extra.superuser, true)),
                Some(ColumnValue(extra.active, true)), Some(ColumnValue(extra.teacher, true)))
  }

  /// `extra_fields.setdefault(...)`, one call per flag, on the dictionary of
  /// keyword arguments.
  method SetSuperuserDefaults(extra: ExtraFields) returns (fields: ExtraFields)
    ensures fields == SuperuserFields(extra)
  {
    fields := extra;
    if fields.staff.None? {
      fields := fields.(staff := Some(true));
    }
    if fields.superuser.None? {
      fields := fields.(superuser := Some(true));
    }
    if fields.active.None? {
      fields := fields.(active := Some(true));
    }
    if fields.teacher.None? {
      fields := fields.(teacher := Some(true));
    }
  }

  /// The three checks of create_superuser, in their order; `is_active` is
  /// not checked.
  function SuperuserRefusal(fields: ExtraFields): (r: Option<string>)
    ensures r.None? <==> !Falsy(fields.staff) && !Falsy(fields.superuser) && !Falsy(fields.teacher)
    ensures Falsy(fields.staff) ==> r == Some(NotStaff)
    ensures !Falsy(fields.staff) && Falsy(fields.superuser) ==> r == Some(NotSuperuser)
    ensures !Falsy(fields.staff) && !Falsy(fields.superuser) && Falsy(fields.teacher) ==> r == Some(NotTeacher)
  {
    if Falsy(fields.staff) then Some(NotStaff)
    else if Falsy(fields.superuser) then Some(NotSuperuser)
    else if Falsy(fields.teacher) then Some(NotTeacher)
    else None
  }

  /// UserManager.create_superuser: the defaults, the three checks, then
  /// create_user with the completed flags.
  function CreateSuperuser(db: Db, id: UserId, email: Option<string>, password: Option<string>, extra: ExtraFields,
                           profile: nat): (r: Outcome<Db>)
    requires id !in db.users && profile !in db.teachers && profile !in db.students
    ensures SuperuserRefusal(SuperuserFields(extra)).Some? ==>
      r == Rejected(SuperuserRefusal(SuperuserFields(extra)).value)
    ensures SuperuserRefusal(SuperuserFields(extra)).None? ==>
      r == CreateUser(db, id, email, password, SuperuserFields(extra), profile)
  {
    var fields := SuperuserFields(extra);
    match SuperuserRefusal(fields)
    case Some(msg) => Rejected(msg)
    case None => CreateUser(db, id, email, password, fields, profile)
  }

  /// An explicit False is refused with the message of the first flag checked,
  /// before the e-mail is looked at; with the flags left alone, a missing
  /// e-mail is refused as for any user.
  lemma SuperuserChecksComeFirst(db: Db, id: UserId, email: Option<string>, password: Option<string>,
                                 extra: ExtraFields, profile: nat)
    requires id !in db.users && profile !in db.teachers && profile !in db.students
    ensures extra.staff == Some(false) ==>
      CreateSuperuser(db, id, email, password, extra, profile) == Rejected(NotStaff)
    ensures extra.staff != Some(false) && extra.superuser == Some(false) ==>
      CreateSuperuser(db, id, email, password, extra, profile) == Rejected(NotSuperuser)
    ensures extra.staff != Some(false) && extra.superuser != Some(false) && extra.teacher == Some(false) ==>
      CreateSuperuser(db, id, email, password, extra, profile) == Rejected(NotTeacher)
    ensures extra == NoExtraFields && (email.None? || email.value == "") ==>
      CreateSuperuser(db, id, email, password, extra, profile) == Rejected(NoEmail)
  {
  }

  /// A superuser is staff, superuser and teacher, active unless told
  /// otherwise, and the profile hook gives it no profile.
  lemma SuperuserGetsNoProfile(db: Db, id: UserId, email: Option<string>, password: Option<string>,
                               extra: ExtraFields, profile: nat)
    requires id !in db.users && profile !in db.teachers && profile !in db.students
    requires CreateSuperuser(db, id, email, password, extra, profile).Done?
    ensures var r := CreateSuperuser(db, id, email, password, extra, profile).value;
      id in r.users && r.users[id].isStaff && r.users[id].isSuperuser && r.users[id].isTeacher &&
      r.users[id].isActive == ColumnValue(extra.active, true) &&
      r.teachers == db.teachers && r.students == db.students
  {
    var user := NewUser(email.value, password, SuperuserFields(extra));
    assert !GetsProfile(db.(users := db.users[id := user]), id, true);
  }

  /// `is_active=False` is accepted for a superuser: the row is created inactive.
  lemma InactiveSuperuserAccepted(db: Db, id: UserId, email: string, profile: nat)
    requires id !in db.users && profile !in db.teachers && profile !in db.students
    requires email != "" && !EmailTaken(db, NormalizeEmail(email))
    ensures CreateSuperuser(db, id, Some(email), None, NoExtraFields.(active := Some(false)), profile).Done?
    ensures !CreateSuperuser(db, id, Some(email), None, NoExtraFields.(active := Some(false)), profile)
              .value.users[id].isActive
  {
    SuperuserGetsNoProfile(db, id, Some(email), None, NoExtraFields.(active := Some(false)), profile);
  }
}
