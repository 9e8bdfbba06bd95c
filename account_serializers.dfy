/// account/serializers.py: the serializers of the two profile detail views.
/// `is_valid` first lists the keys of the body that are not declared fields
/// and refuses the body when there is any; otherwise the writable fields
/// convert their values as Django REST framework's field classes do, and
/// `update` writes the fields present in the body, on the profile and on its
/// user.
module AccountSerializers {
  import opened Common
  import opened Store
  import opened Text
  import opened Dates
  import opened Writes
  import opened Fields

  datatype ProfileKind = TeacherKind | StudentKind

  /// `Meta.fields` of TeacherProfileSerializer.
  const TeacherFields: set<string> :=
    {"user_id", "user_email", "user_first_name", "user_last_name", "user_is_teacher", "user_is_active",
     "user_date_joined", "user_last_login", "id", "bio", "date_of_birth", "years_of_experience", "profile_picture"}

  /// `Meta.fields` of StudentProfileSerializer: the same, without
  /// `years_of_experience`.
  const StudentFields: set<string> :=
    {"user_id", "user_email", "user_first_name", "user_last_name", "user_is_teacher", "user_is_active",
     "user_date_joined", "user_last_login", "id", "bio", "date_of_birth", "profile_picture"}

  function DeclaredFields(kind: ProfileKind): set<string>
  {
    if kind == TeacherKind then TeacherFields else StudentFields
  }

  /// A parsed JSON object: its keys, in the order of the request, with their values.
  type Body = seq<(string, Json)>

  predicate HasKey(data: Body, key: string)
  {
    exists i | 0 <= i < |data| :: data[i].0 == key
  }

  /// `data.get(key)`: the value of the first pair with that key.
  function Lookup(data: Body, key: string): (r: Option<Json>)
    ensures r.None? <==> !HasKey(data, key)
  {
    if data == [] then None
    else if data[0].0 == key then Some(data[0].1)
    else
      assert forall i | 1 <= i < |data| :: data[i] == data[1..][i - 1];
      Lookup(data[1..], key)
  }

  // ---------------------------------------------------------------- unknown keys

  /// The keys of `data` that are not in `declared`, in the order of `data`:
  /// what the loop of `is_valid` leaves in `self.invalid_fields`.
  function UnknownKeys(data: Body, declared: set<string>): (r: seq<string>)
    ensures |r| <= |data|
    ensures forall j | 0 <= j < |r| :: r[j] !in declared
  {
    if data == [] then []
    else
      var last := data[|data| - 1].0;
      UnknownKeys(data[..|data| - 1], declared) + (if last in declared then [] else [last])
  }

  /// A key is reported exactly when the body has it and it is not declared.
  lemma {:induction false} UnknownKeysExact(data: Body, declared: set<string>, key: string)
    ensures key in UnknownKeys(data, declared) <==> HasKey(data, key) && key !in declared
    decreases |data|
  {
    if data != [] {
      var front := data[..|data| - 1];
      UnknownKeysExact(front, declared, key);
      if HasKey(data, key) && data[|data| - 1].0 != key {
        var i :| 0 <= i < |data| && data[i].0 == key;
        assert front[i].0 == key;
      }
      if HasKey(front, key) {
        var i :| 0 <= i < |front| && front[i].0 == key;
        assert data[i].0 == key;
      }
    }
  }

  /// The keys are reported in the order of the body.
  lemma {:induction false} UnknownKeysInOrder(a: Body, b: Body, declared: set<string>)
    ensures UnknownKeys(a + b, declared) == UnknownKeys(a, declared) + UnknownKeys(b, declared)
    decreases |b|
  {
    if b == [] {
      assert a + b == a;
    } else {
      var front := b[..|b| - 1];
      assert (a + b)[..|a + b| - 1] == a + front;
      UnknownKeysInOrder(a, front, declared);
    }
  }

  // ---------------------------------------------------------------- fields

  const BadDate := "Date has wrong format. Use one of these formats instead: YYYY-MM-DD."
  const NotAnInteger := "A valid integer is required."
  const StringTooLarge := "String value too large."
  const Negative := "Ensure this value is greater than or equal to 0."
  const NotAFile := "The submitted data was not a file. Check the encoding type on the form."

  /// `validate_user_first_name` / `validate_user_last_name`: refuse a value
  /// that is not a string.
  function NameValidator(value: Json): (r: Result<string>)
    ensures r.Ok? <==> value.JString?
    ensures r.Ok? ==> r.value == value.s
    ensures r.Fail? ==> r.message == NotAString
  {
    if value.JString? then Ok(value.s) else Fail(NotAString)
  }

  /// The `CharField(allow_blank=True)` of a name: no null, no length bound.
  function NameField(v: Json): Result<Option<string>>
  {
    CharField(v, true, false, None)
  }

  /// The name fields as written: the CharField converts the value first, and
  /// the validator then only ever sees a string.
  function NameInputAsWritten(v: Json): (r: Result<string>)
    ensures r.Ok? <==> NameField(v).Ok?
    ensures r.Ok? ==> Some(r.value) == NameField(v).value
    ensures r.Fail? ==> r.message == NameField(v).message
  {
    match NameField(v)
    case Fail(msg) => Fail(msg)
    case Ok(s) => NameValidator(JString(s.value))
  }

  /// As written, a number passes both the field and the validator, and is
  /// stored as its decimal text; so does a float, as the text `str` gives it.
  lemma NumberAcceptedAsName(n: int)
    ensures NameInputAsWritten(JNumber(n)) == Ok(IntToString(n))
  {
    var t := IntToString(n);
    assert IsDigit(t[|t| - 1]);
    StripTrimmed(t);
    assert !IsBlank(JNumber(n));
  }

  /// The name fields as the validators intend them: only a string is a name,
  /// and it then goes through the CharField as before.
  function NameInput(v: Json): (r: Result<string>)
    ensures r.Ok? <==> v.JString? && NameField(v).Ok?
    ensures r.Ok? ==> r.value == Strip(v.s)
    ensures v.JNumber? || v.JFloat? ==> r == Fail(NotAString)
    ensures v.JString? && NameField(v).Fail? ==> r == Fail(NameField(v).message)
  {
    match v
    case JString(_) => NameInputAsWritten(v)
    case JNumber(_) => Fail(NotAString)
    case JFloat(_) => Fail(NotAString)
    case _ => NameInputAsWritten(v)
  }

  /// The intended names agree with the ones written wherever the value is
  /// not a number, and refuse every number the written ones accept.
  lemma NameInputCorrectsNumbers(v: Json)
    ensures !v.JNumber? && !v.JFloat? ==> NameInput(v) == NameInputAsWritten(v)
    ensures v.JNumber? ==> NameInput(v) == Fail(NotAString) && NameInputAsWritten(v).Ok?
    ensures v.JFloat? ==> NameInput(v) == Fail(NotAString)
  {
    if v.JNumber? {
      NumberAcceptedAsName(v.n);
    }
  }

  /// `bio`: a CharField that also takes null.
  function BioInput(v: Json): Result<Option<string>>
  {
    CharField(v, true, true, None)
  }

  /// `date_of_birth`: null, or a string `parse_date` reads as a date.
  function DateInput(v: Json): (r: Result<Option<Date>>)
    ensures r.Ok? <==> v.JNull? || (v.JString? && ParseIsoDate(v.s).Some?)
    ensures r.Ok? && v.JString? ==> r.value == ParseIsoDate(v.s)
    ensures r.Ok? && v.JNull? ==> r.value.None?
    ensures r.Fail? ==> r.message == BadDate
  {
    match v
    case JNull => Ok(None)
    case JString(s) => if ParseIsoDate(s).Some? then Ok(ParseIsoDate(s)) else Fail(BadDate)
    case _ => Fail(BadDate)
  }

  /// A date the serializer writes out is read back as the same date.
  lemma DateInputOfFormatted(d: Date)
    requires IsCalendarDate(d)
    ensures DateInput(JString(FormatIsoDate(d))) == Ok(Some(d))
  {
    ParseFormattedDate(d);
  }

  /// Zeros followed by white space, as `0*\s*` matches.
  predicate ZerosThenSpaces(t: string)
  {
    (forall j | 0 <= j < |t| :: IsSpace(t[j])) || (t[0] == '0' && ZerosThenSpaces(t[1..]))
  }

  /// `re.sub(r"\.0*\s*$", "", s)`: the only dot that can start a match is the
  /// last one.
  function DropZeroFraction(s: string): (r: string)
    ensures r == s || (exists p | 0 <= p < |s| :: s[p] == '.' && r == s[..p])
  {
    match LastIndexOf(s, '.')
    case None => s
    case Some(p) => if ZerosThenSpaces(s[p + 1..]) then s[..p] else s
  }

  /// `int(re_decimal.sub("", text))` followed by the `min_value=0` check.
  function NonNegativeInteger(text: string): (r: Result<Option<nat>>)
    ensures r.Ok? <==> ParseInteger(Strip(DropZeroFraction(text))).Some? && ParseInteger(Strip(DropZeroFraction(text))).value >= 0
    ensures r.Ok? ==> r.value == Some(ParseInteger(Strip(DropZeroFraction(text))).value as nat)
    ensures ParseInteger(Strip(DropZeroFraction(text))).None? ==> r == Fail(NotAnInteger)
    ensures r.Fail? && ParseInteger(Strip(DropZeroFraction(text))).Some? ==> r == Fail(Negative)
  {
    match ParseInteger(Strip(DropZeroFraction(text)))
    case None => Fail(NotAnInteger)
    case Some(n) => if n < 0 then Fail(Negative) else Ok(Some(n as nat))
  }

  /// `IntegerField(min_value=0, allow_null=True)`: null, an integer, a float
  /// whose text is an integer once a zero fraction is dropped, or a string of
  /// at most 1000 characters read the same way; the value must not be
  /// negative.
  function YearsInput(v: Json): (r: Result<Option<nat>>)
    ensures v.JNull? ==> r == Ok(None)
    ensures v.JBool? || v.JOther? ==> r == Fail(NotAnInteger)
    ensures v.JNumber? ==> r == (if v.n < 0 then Fail(Negative) else Ok(Some(v.n as nat)))
    ensures v.JFloat? ==> r == NonNegativeInteger(v.text)
    ensures v.JString? && |v.s| > 1000 ==> r == Fail(StringTooLarge)
    ensures v.JString? && |v.s| <= 1000 ==> r == NonNegativeInteger(v.s)
  {
    match v
    case JNull => Ok(None)
    case JNumber(n) => if n < 0 then Fail(Negative) else Ok(Some(n as nat))
    case JFloat(t) => NonNegativeInteger(t)
    case JString(s) => if |s| > 1000 then Fail(StringTooLarge) else NonNegativeInteger(s)
    case _ => Fail(NotAnInteger)
  }

  /// The zero-fraction pattern only looks at what follows the last dot.
  lemma DropZeroFractionOf(whole: string, fraction: string)
    requires forall k | 0 <= k < |fraction| :: fraction[k] != '.'
    ensures DropZeroFraction(whole + "." + fraction) == if ZerosThenSpaces(fraction) then whole else whole + "." + fraction
  {
    var t := whole + "." + fraction;
    forall k | |whole| < k < |t|
      ensures t[k] != '.'
    {
      assert t[k] == fraction[k - |whole| - 1];
    }
    LastIndexOfAt(t, '.', |whole|);
    assert t[|whole| + 1..] == fraction && t[..|whole|] == whole;
  }

  /// A float with a zero fraction is read as its whole part: 5.0 gives 5.
  lemma YearsOfWholeFloat(whole: nat, zeros: string)
    requires forall i | 0 <= i < |zeros| :: zeros[i] == '0'
    ensures YearsInput(JFloat(NatToString(whole) + "." + zeros)) == Ok(Some(whole))
  {
    var digits := NatToString(whole);
    DropZeroFractionOf(digits, zeros);
    ZerosAreZerosThenSpaces(zeros);
    StripTrimmed(digits);
    DigitsValueOfNatToString(whole);
  }

  /// A float with a non-zero fraction is refused: 5.5 is not an integer.
  lemma YearsOfFractionalFloat(whole: nat, fraction: string, i: nat)
    requires forall k | 0 <= k < |fraction| :: IsDigit(fraction[k])
    requires i < |fraction| && fraction[i] != '0'
    ensures YearsInput(JFloat(NatToString(whole) + "." + fraction)) == Fail(NotAnInteger)
  {
    var digits := NatToString(whole);
    var t := digits + "." + fraction;
    DropZeroFractionOf(digits, fraction);
    NotZerosThenSpaces(fraction, i);
    assert t[|t| - 1] == fraction[|fraction| - 1];
    StripTrimmed(t);
    assert !IsDigit(t[|digits|]);
  }

  lemma {:induction false} ZerosAreZerosThenSpaces(t: string)
    requires forall i | 0 <= i < |t| :: t[i] == '0'
    ensures ZerosThenSpaces(t)
    decreases |t|
  {
    if t != [] && !(forall j | 0 <= j < |t| :: IsSpace(t[j])) {
      ZerosAreZerosThenSpaces(t[1..]);
    }
  }

  lemma {:induction false} NotZerosThenSpaces(t: string, i: nat)
    requires i < |t| && IsDigit(t[i]) && t[i] != '0'
    ensures !ZerosThenSpaces(t)
    decreases |t|
  {
    if i > 0 {
      NotZerosThenSpaces(t[1..], i - 1);
    }
  }

  /// `profile_picture`: only null can arrive in a JSON body; any other value
  /// is not a file.
  function PictureInput(v: Json): (r: Result<()>)
    ensures r.Ok? <==> v.JNull?
    ensures r.Fail? ==> r.message == NotAFile
  {
    if v.JNull? then Ok(()) else Fail(NotAFile)
  }

  /// A field absent from the body is skipped (every writable field has
  /// `required=False`): None; a present one is converted by `convert`.
  function Optional<T>(v: Option<Json>, convert: Json -> Result<T>): (r: Result<Option<T>>)
    ensures v.None? ==> r == Ok(None)
    ensures v.Some? && convert(v.value).Ok? ==> r == Ok(Some(convert(v.value).value))
    ensures v.Some? && convert(v.value).Fail? ==> r == Fail(convert(v.value).message)
  {
    match v
    case None => Ok(None)
    case Some(x) => match convert(x) case Ok(y) => Ok(Some(y)) case Fail(m) => Fail(m)
  }

  function FirstName(data: Body): Result<Option<string>>
  {
    Optional(Lookup(data, "user_first_name"), NameInput)
  }

  function LastName(data: Body): Result<Option<string>>
  {
    Optional(Lookup(data, "user_last_name"), NameInput)
  }

  function Bio(data: Body): Result<Option<Option<string>>>
  {
    Optional(Lookup(data, "bio"), BioInput)
  }

  function DateOfBirth(data: Body): Result<Option<Option<Date>>>
  {
    Optional(Lookup(data, "date_of_birth"), DateInput)
  }

  function Picture(data: Body): Result<Option<()>>
  {
    Optional(Lookup(data, "profile_picture"), PictureInput)
  }

  function Years(data: Body): Result<Option<Option<nat>>>
  {
    Optional(Lookup(data, "years_of_experience"), YearsInput)
  }

  /// The writable fields; the others are read-only and ignore their values.
  datatype Field = FirstNameField | LastNameField | BioField | DateOfBirthField | PictureField | YearsField

  function FieldName(f: Field): string
  {
    match f
    case FirstNameField => "user_first_name"
    case LastNameField => "user_last_name"
    case BioField => "bio"
    case DateOfBirthField => "date_of_birth"
    case PictureField => "profile_picture"
    case YearsField => "years_of_experience"
  }

  function WritableFields(kind: ProfileKind): (fs: set<Field>)
    ensures forall f | f in fs :: FieldName(f) in DeclaredFields(kind)
    ensures YearsField in fs <==> kind == TeacherKind
  {
    {FirstNameField, LastNameField, BioField, DateOfBirthField, PictureField} +
    (if kind == TeacherKind then {YearsField} else {})
  }

  /// The message of a failed conversion.
  function ErrorOf<T>(r: Result<T>): (e: Option<string>)
    ensures e.None? <==> r.Ok?
  {
    if r.Fail? then Some(r.message) else None
  }

  /// The message of field `f` on `data`, None when it converts.
  function FieldError(f: Field, data: Body): Option<string>
  {
    match f
    case FirstNameField => ErrorOf(FirstName(data))
    case LastNameField => ErrorOf(LastName(data))
    case BioField => ErrorOf(Bio(data))
    case DateOfBirthField => ErrorOf(DateOfBirth(data))
    case PictureField => ErrorOf(Picture(data))
    case YearsField => ErrorOf(Years(data))
  }

  /// The error dictionary of the writable fields of `kind`: every field is
  /// checked, whatever the others give.
  function FieldErrorsOf(kind: ProfileKind, data: Body): map<Field, string>
  {
    map f | f in WritableFields(kind) && FieldError(f, data).Some? :: FieldError(f, data).value
  }

  /// With an empty error dictionary every writable field converts.
  lemma NoErrorsAllConvert(kind: ProfileKind, data: Body)
    requires FieldErrorsOf(kind, data) == map[]
    ensures FirstName(data).Ok? && LastName(data).Ok? && Bio(data).Ok? && DateOfBirth(data).Ok?
    ensures Picture(data).Ok? && (kind == TeacherKind ==> Years(data).Ok?)
  {
    NoFieldError(kind, data, FirstNameField);
    assert ErrorOf(FirstName(data)).None?;
    NoFieldError(kind, data, LastNameField);
    assert ErrorOf(LastName(data)).None?;
    NoFieldError(kind, data, BioField);
    assert ErrorOf(Bio(data)).None?;
    NoFieldError(kind, data, DateOfBirthField);
    assert ErrorOf(DateOfBirth(data)).None?;
    NoFieldError(kind, data, PictureField);
    assert ErrorOf(Picture(data)).None?;
    if kind == TeacherKind {
      NoFieldError(kind, data, YearsField);
      assert ErrorOf(Years(data)).None?;
    }
  }

  lemma NoFieldError(kind: ProfileKind, data: Body, f: Field)
    requires FieldErrorsOf(kind, data) == map[] && f in WritableFields(kind)
    ensures FieldError(f, data).None?
  {
    assert f !in FieldErrorsOf(kind, data);
  }

  /// The validated data of a profile body: None for a field absent from the
  /// body, the converted value for one present.
  datatype ProfileChanges = ProfileChanges(
    firstName: Option<string>,
    lastName: Option<string>,
    bio: Option<Option<string>>,
    dateOfBirth: Option<Option<Date>>,
    yearsOfExperience: Option<Option<nat>>)

  datatype Validation =
    | Validated(changes: ProfileChanges)
    | InvalidFields(fields: seq<string>)
    | FieldErrors(errors: map<Field, string>)

  /// `is_valid` of the serializer of `kind`: the unknown-key check, then the
  /// fields.
  function Validate(kind: ProfileKind, data: Body): (r: Validation)
    ensures r.InvalidFields? <==> UnknownKeys(data, DeclaredFields(kind)) != []
    ensures r.InvalidFields? ==> r.fields == UnknownKeys(data, DeclaredFields(kind))
    ensures r.FieldErrors? ==> r.errors == FieldErrorsOf(kind, data) && r.errors != map[]
    ensures r.Validated? ==> FieldErrorsOf(kind, data) == map[]
  {
    var unknown := UnknownKeys(data, DeclaredFields(kind));
    if unknown != [] then InvalidFields(unknown)
    else
      var errors := FieldErrorsOf(kind, data);
      if errors != map[] then FieldErrors(errors)
      else
        NoErrorsAllConvert(kind, data);
        Validated(ProfileChanges(FirstName(data).value, LastName(data).value, Bio(data).value,
                                 DateOfBirth(data).value,
                                 if kind == TeacherKind then Years(data).value else None))
  }

  /// One unknown key is enough to refuse the body, whatever the values of the
  /// other keys, and the key is named in the refusal.
  lemma UnknownKeyRefused(kind: ProfileKind, data: Body, i: nat)
    requires i < |data| && data[i].0 !in DeclaredFields(kind)
    ensures Validate(kind, data).InvalidFields? && data[i].0 in Validate(kind, data).fields
  {
    UnknownKeysExact(data, DeclaredFields(kind), data[i].0);
  }

  /// A student body naming `years_of_experience` is refused before any field
  /// is looked at.
  lemma StudentYearsRefused(data: Body)
    requires HasKey(data, "years_of_experience")
    ensures Validate(StudentKind, data).InvalidFields?
    ensures "years_of_experience" in Validate(StudentKind, data).fields
  {
    UnknownKeysExact(data, StudentFields, "years_of_experience");
  }

  /// A body with only declared keys is refused exactly when a writable field
  /// present in it fails to convert; an absent field never fails.
  lemma FieldErrorsNameFailingFields(kind: ProfileKind, data: Body, f: Field)
    requires UnknownKeys(data, DeclaredFields(kind)) == []
    ensures Validate(kind, data).FieldErrors? || Validate(kind, data).Validated?
    ensures Validate(kind, data).FieldErrors? ==>
      (f in Validate(kind, data).errors <==> f in WritableFields(kind) && HasKey(data, FieldName(f)) && FieldError(f, data).Some?)
    ensures !HasKey(data, FieldName(f)) ==> FieldError(f, data).None?
  {
  }

  /// The validated data holds exactly the fields the body has.
  lemma AbsentFieldsUntouched(kind: ProfileKind, data: Body)
    requires Validate(kind, data).Validated?
    ensures var c := Validate(kind, data).changes;
      (c.firstName.Some? <==> HasKey(data, "user_first_name")) &&
      (c.lastName.Some? <==> HasKey(data, "user_last_name")) &&
      (c.bio.Some? <==> HasKey(data, "bio")) &&
      (c.dateOfBirth.Some? <==> HasKey(data, "date_of_birth")) &&
      (c.yearsOfExperience.Some? <==> kind == TeacherKind && HasKey(data, "years_of_experience"))
  {
    NoErrorsAllConvert(kind, data);
  }

  /// A name given as a string is stored stripped.
  lemma ValidatedNameStripped(kind: ProfileKind, data: Body, s: string)
    requires Validate(kind, data).Validated? && Lookup(data, "user_first_name") == Some(JString(s))
    ensures Validate(kind, data).changes.firstName == Some(Strip(s))
  {
    NoErrorsAllConvert(kind, data);
    assert FirstName(data) == Ok(Some(NameInput(JString(s)).value));
  }

  /// Every writable field whose value does not convert is reported, under
  /// its own message, whatever the other fields give: the serializer does
  /// not stop at the first error.
  lemma EveryFieldErrorReported(kind: ProfileKind, data: Body, f: Field)
    requires UnknownKeys(data, DeclaredFields(kind)) == []
    requires f in WritableFields(kind) && FieldError(f, data).Some?
    ensures Validate(kind, data).FieldErrors?
    ensures f in Validate(kind, data).errors && Validate(kind, data).errors[f] == FieldError(f, data).value
  {
    assert f in FieldErrorsOf(kind, data);
  }

  /// Without `years_of_experience`, a body has an undeclared key for the
  /// student serializer exactly when it has one for the teacher serializer.
  lemma SameUnknownKeys(data: Body)
    requires !HasKey(data, "years_of_experience")
    ensures UnknownKeys(data, StudentFields) == [] <==> UnknownKeys(data, TeacherFields) == []
  {
    if UnknownKeys(data, StudentFields) != [] {
      var k := UnknownKeys(data, StudentFields)[0];
      UnknownKeysExact(data, StudentFields, k);
      UnknownKeysExact(data, TeacherFields, k);
    } else if UnknownKeys(data, TeacherFields) != [] {
      var k := UnknownKeys(data, TeacherFields)[0];
      UnknownKeysExact(data, StudentFields, k);
      UnknownKeysExact(data, TeacherFields, k);
    }
  }

  /// The student serializer validates exactly as the teacher one on a body
  /// without `years_of_experience`, and gives it no years to write.
  lemma StudentValidatesAsTeacher(data: Body)
    requires !HasKey(data, "years_of_experience")
    ensures Validate(StudentKind, data).InvalidFields? <==> Validate(TeacherKind, data).InvalidFields?
    ensures Validate(StudentKind, data).Validated? ==>
      Validate(TeacherKind, data).Validated? &&
      Validate(StudentKind, data).changes == Validate(TeacherKind, data).changes &&
      Validate(StudentKind, data).changes.yearsOfExperience.None?
  {
    SameUnknownKeys(data);
    if Validate(StudentKind, data).Validated? {
      SameFieldErrors(data);
    }
  }

  /// Without `years_of_experience`, both serializers report the same field
  /// errors: the years field, absent, reports none.
  lemma SameFieldErrors(data: Body)
    requires !HasKey(data, "years_of_experience")
    ensures FieldErrorsOf(TeacherKind, data) == FieldErrorsOf(StudentKind, data)
  {
    assert FieldError(YearsField, data).None?;
    assert FieldErrorsOf(TeacherKind, data).Keys == FieldErrorsOf(StudentKind, data).Keys;
  }

  // ---------------------------------------------------------------- update

  /// `validated_data.get(field, old)`.
  function Keep<T>(change: Option<T>, current: T): T
  {
    if change.Some? then change.value else current
  }

  /// The nested user part of `update`: `first_name` and `last_name` are set
  /// when present (when neither is, the row is left as it was).
  function UpdateNames(user: User, c: ProfileChanges): (r: User)
    ensures r == user.(firstName := r.firstName, lastName := r.lastName)
    ensures c.firstName.Some? ==> r.firstName == c.firstName.value
    ensures c.firstName.None? ==> r.firstName == user.firstName
    ensures c.lastName.Some? ==> r.lastName == c.lastName.value
    ensures c.lastName.None? ==> r.lastName == user.lastName
  {
    user.(firstName := Keep(c.firstName, user.firstName), lastName := Keep(c.lastName, user.lastName))
  }

  /// TeacherProfileSerializer.update on teacher profile `t`.
  function UpdateTeacherProfile(db: Db, t: TeacherId, c: ProfileChanges): (r: Db)
    requires t in db.teachers && db.teachers[t].user in db.users
    ensures r == db.(users := r.users, teachers := r.teachers)
    ensures r.users == db.users[db.teachers[t].user := UpdateNames(db.users[db.teachers[t].user], c)]
    ensures r.teachers.Keys == db.teachers.Keys
    ensures forall t' | t' in db.teachers && t' != t :: r.teachers[t'] == db.teachers[t']
    ensures r.teachers[t].user == db.teachers[t].user
    ensures r.teachers[t].bio == Keep(c.bio, db.teachers[t].bio)
    ensures r.teachers[t].dateOfBirth == Keep(c.dateOfBirth, db.teachers[t].dateOfBirth)
    ensures r.teachers[t].yearsOfExperience == Keep(c.yearsOfExperience, db.teachers[t].yearsOfExperience)
  {
    var p := db.teachers[t];
    db.(users := db.users[p.user := UpdateNames(db.users[p.user], c)],
        teachers := db.teachers[t := p.(bio := Keep(c.bio, p.bio), dateOfBirth := Keep(c.dateOfBirth, p.dateOfBirth),
                                        yearsOfExperience := Keep(c.yearsOfExperience, p.yearsOfExperience))])
  }

  /// StudentProfileSerializer.update on student profile `s`; there is no
  /// years of experience to write.
  function UpdateStudentProfile(db: Db, s: StudentId, c: ProfileChanges): (r: Db)
    requires s in db.students && db.students[s].user in db.users
    ensures r == db.(users := r.users, students := r.students)
    ensures r.users == db.users[db.students[s].user := UpdateNames(db.users[db.students[s].user], c)]
    ensures r.students.Keys == db.students.Keys
    ensures forall s' | s' in db.students && s' != s :: r.students[s'] == db.students[s']
    ensures r.students[s].user == db.students[s].user
    ensures r.students[s].bio == Keep(c.bio, db.students[s].bio)
    ensures r.students[s].dateOfBirth == Keep(c.dateOfBirth, db.students[s].dateOfBirth)
  {
    var p := db.students[s];
    db.(users := db.users[p.user := UpdateNames(db.users[p.user], c)],
        students := db.students[s := p.(bio := Keep(c.bio, p.bio), dateOfBirth := Keep(c.dateOfBirth, p.dateOfBirth))])
  }

  /// Sending the same body twice leaves the store as sending it once.
  lemma UpdateTeacherIdempotent(db: Db, t: TeacherId, c: ProfileChanges)
    requires t in db.teachers && db.teachers[t].user in db.users
    ensures UpdateTeacherProfile(UpdateTeacherProfile(db, t, c), t, c) == UpdateTeacherProfile(db, t, c)
  {
    var once := UpdateTeacherProfile(db, t, c);
    var twice := UpdateTeacherProfile(once, t, c);
    var owner := db.teachers[t].user;
    assert UpdateNames(once.users[owner], c) == once.users[owner];
    assert twice.users == once.users;
    assert twice.teachers[t] == once.teachers[t];
    assert twice.teachers == once.teachers;
  }

  lemma UpdateStudentIdempotent(db: Db, s: StudentId, c: ProfileChanges)
    requires s in db.students && db.students[s].user in db.users
    ensures UpdateStudentProfile(UpdateStudentProfile(db, s, c), s, c) == UpdateStudentProfile(db, s, c)
  {
    var once := UpdateStudentProfile(db, s, c);
    var twice := UpdateStudentProfile(once, s, c);
    var owner := db.students[s].user;
    assert UpdateNames(once.users[owner], c) == once.users[owner];
    assert twice.users == once.users;
    assert twice.students[s] == once.students[s];
    assert twice.students == once.students;
  }

  lemma NamesKeepEmails(users: map<UserId, User>, id: UserId, c: ProfileChanges)
    requires EmailsUnique(users) && id in users
    ensures EmailsUnique(users[id := UpdateNames(users[id], c)])
  {
  }

  lemma SameOwnerTeacher(db: Db, t: TeacherId, p: TeacherProfile)
    requires Valid(db) && RolesExclusive(db) && t in db.teachers && p.user == db.teachers[t].user
    ensures Valid(db.(teachers := db.teachers[t := p])) && RolesExclusive(db.(teachers := db.teachers[t := p]))
  {
    var r := db.(teachers := db.teachers[t := p]);
    assert ProfilesRefOk(r);
    assert ProfilesOneToOne(r);
    ValidWithTeachers(db, r.teachers);
  }

  lemma SameOwnerStudent(db: Db, s: StudentId, p: StudentProfile)
    requires Valid(db) && RolesExclusive(db) && s in db.students && p.user == db.students[s].user
    ensures Valid(db.(students := db.students[s := p])) && RolesExclusive(db.(students := db.students[s := p]))
  {
    var students := db.students[s := p];
    StudentOwnerKept(db.users, db.teachers, db.students, s, p);
    assert EnrollmentRefs(db.enrollments, students, db.classrooms);
    assert StudentAnswerRefs(db.studentAnswers, students, db.answers);
    assert StudentQuizRefs(db.studentQuizzes, students, db.quizzes);
    ValidWithStudents(db, students);
  }

  /// A student profile rewritten with the same owner keeps the profile
  /// constraints.
  lemma StudentOwnerKept(users: map<UserId, User>, teachers: map<TeacherId, TeacherProfile>,
                         students: map<StudentId, StudentProfile>, s: StudentId, p: StudentProfile)
    requires ProfileRefs(users, teachers, students) && StudentsOneToOne(students) && RolesDisjoint(teachers, students)
    requires s in students && p.user == students[s].user
    ensures ProfileRefs(users, teachers, students[s := p]) && StudentsOneToOne(students[s := p])
    ensures RolesDisjoint(teachers, students[s := p])
  {
  }

  /// Writing a profile keeps every constraint of the store: no e-mail, key
  /// or profile owner changes.
  lemma UpdateTeacherKeepsValid(db: Db, t: TeacherId, c: ProfileChanges)
    requires Valid(db) && RolesExclusive(db) && t in db.teachers
    ensures Valid(UpdateTeacherProfile(db, t, c)) && RolesExclusive(UpdateTeacherProfile(db, t, c))
  {
    var r := UpdateTeacherProfile(db, t, c);
    var mid := db.(users := r.users);
    NamesKeepEmails(db.users, db.teachers[t].user, c);
    ValidWithUsers(db, r.users);
    SameOwnerTeacher(mid, t, r.teachers[t]);
    assert r == mid.(teachers := mid.teachers[t := r.teachers[t]]);
  }

  lemma UpdateStudentKeepsValid(db: Db, s: StudentId, c: ProfileChanges)
    requires Valid(db) && RolesExclusive(db) && s in db.students
    ensures Valid(UpdateStudentProfile(db, s, c)) && RolesExclusive(UpdateStudentProfile(db, s, c))
  {
    var r := UpdateStudentProfile(db, s, c);
    var mid := db.(users := r.users);
    NamesKeepEmails(db.users, db.students[s].user, c);
    ValidWithUsers(db, r.users);
    SameOwnerStudent(mid, s, r.students[s]);
    assert r == mid.(students := mid.students[s := r.students[s]]);
  }

  // ---------------------------------------------------------------- is_valid

  /// A profile serializer bound to a request body; `invalidFields` is the
  /// attribute `is_valid` fills.
  class ProfileSerializer {
    const kind: ProfileKind
    var invalidFields: seq<string>

    constructor (kind: ProfileKind)
      ensures this.kind == kind && invalidFields == []
    {
      this.kind := kind;
      invalidFields := [];
    }

    /// `is_valid`: collect the undeclared keys of `data`; refuse the body if
    /// there is any, else run the fields.
    method IsValid(data: Body) returns (r: Validation)
      modifies this
      ensures invalidFields == UnknownKeys(data, DeclaredFields(kind))
      ensures r == Validate(kind, data)
    {
      invalidFields := [];
      var i := 0;
      while i < |data|
        invariant 0 <= i <= |data|
        invariant invalidFields == UnknownKeys(data[..i], DeclaredFields(kind))
      {
        assert data[..i + 1][..i] == data[..i];
        if data[i].0 !in DeclaredFields(kind) {
          invalidFields := invalidFields + [data[i].0];
        }
        i := i + 1;
      }
      assert data[..|data|] == data;
      if invalidFields != [] {
        return InvalidFields(invalidFields);
      }
      r := Validate(kind, data);
    }
  }
}
