/// The text field of Django REST framework that every serializer of the
/// project relies on, `CharField`, run on one value present in a request
/// body: the blank test, the null test, the conversion to a stripped string
/// and the validators, in the framework's order.
module Fields {
  import opened Common
  import opened Text

  const FieldRequired := "This field is required."
  const FieldBlank := "This field may not be blank."
  const MayNotBeNull := "This field may not be null."
  const NotAString := "Not a valid string."
  const NullCharacters := "Null characters are not allowed."

  /// The message of the `max_length` validator.
  function TooLong(maxLength: nat): (m: string)
    ensures |m| > |FieldBlank| && |m| > |FieldRequired| && |m| > |MayNotBeNull| && |m| > |NotAString|
  {
    "Ensure this field has no more than " + NatToString(maxLength) + " characters."
  }

  /// The values `to_internal_value` turns into text: a string or a number.
  predicate IsTextLike(v: Json)
  {
    v.JString? || v.JNumber? || v.JFloat?
  }

  /// `str(data)` for those values.
  function TextOf(v: Json): string
    requires IsTextLike(v)
  {
    match v
    case JString(s) => s
    case JNumber(n) => IntToString(n)
    case JFloat(t) => t
  }

  /// What `run_validation` treats as blank: the empty string, or, with
  /// `trim_whitespace`, a value whose `str` strips to nothing (the text of
  /// null, of a boolean or of a list or object never does).
  predicate IsBlank(v: Json)
  {
    IsTextLike(v) && Strip(TextOf(v)) == ""
  }

  predicate HasNoNullCharacter(s: string)
  {
    forall i | 0 <= i < |s| :: s[i] != '\0'
  }

  /// `CharField(allow_blank=…, allow_null=…, max_length=…)` on a present
  /// value: a blank value is refused or becomes ""; null is refused or
  /// becomes None; a boolean, a list or an object is not a string; anything
  /// else becomes its stripped `str`, which the `max_length` validator and
  /// the null-character validator then check.
  function CharField(v: Json, allowBlank: bool, allowNull: bool, maxLength: Option<nat>): (r: Result<Option<string>>)
    ensures IsBlank(v) ==> r == (if allowBlank then Ok(Some("")) else Fail(FieldBlank))
    ensures v.JNull? ==> r == (if allowNull then Ok(None) else Fail(MayNotBeNull))
    ensures v.JBool? || v.JOther? ==> r == Fail(NotAString)
    ensures IsTextLike(v) && !IsBlank(v) ==>
      var text := Strip(TextOf(v));
      (r.Ok? <==> (maxLength.None? || |text| <= maxLength.value) && HasNoNullCharacter(text)) &&
      (r.Ok? ==> r.value == Some(text)) &&
      (maxLength.Some? && |text| > maxLength.value ==> r == Fail(TooLong(maxLength.value))) &&
      (r.Fail? && (maxLength.None? || |text| <= maxLength.value) ==> r == Fail(NullCharacters))
    ensures r.Ok? ==> (r.value.None? <==> v.JNull?)
    ensures r.Fail? ==>
      r.message in {FieldBlank, MayNotBeNull, NotAString, NullCharacters} ||
      (maxLength.Some? && r.message == TooLong(maxLength.value))
  {
    if IsBlank(v) then
      (if allowBlank then Ok(Some("")) else Fail(FieldBlank))
    else
      match v
      case JNull => if allowNull then Ok(None) else Fail(MayNotBeNull)
      case JBool(_) => Fail(NotAString)
      case JOther => Fail(NotAString)
      case _ =>
        var text := Strip(TextOf(v));
        if maxLength.Some? && |text| > maxLength.value then Fail(TooLong(maxLength.value))
        else if exists i | 0 <= i < |text| :: text[i] == '\0' then Fail(NullCharacters)
        else Ok(Some(text))
  }

  /// `max_length` only narrows a CharField: with it, a value passes exactly
  /// when it passes without it and is short enough, and keeps the same
  /// value; a value it stops fails as too long.
  lemma MaxLengthOnlyNarrows(v: Json, allowBlank: bool, allowNull: bool, maxLength: nat)
    ensures var bounded := CharField(v, allowBlank, allowNull, Some(maxLength));
      var free := CharField(v, allowBlank, allowNull, None);
      (bounded.Ok? <==> free.Ok? && (free.value.Some? ==> |free.value.value| <= maxLength)) &&
      (bounded.Ok? ==> bounded == free) &&
      (bounded.Fail? ==> bounded == free || bounded == Fail(TooLong(maxLength)))
  {
  }

  /// A value that passes a CharField has no white space at either end, holds
  /// no null character, and is empty only where blank values are allowed.
  lemma CharFieldValue(v: Json, allowBlank: bool, allowNull: bool, maxLength: Option<nat>)
    requires CharField(v, allowBlank, allowNull, maxLength).Ok?
    ensures var r := CharField(v, allowBlank, allowNull, maxLength).value;
      r.Some? ==>
        (r.value == [] || (!IsSpace(r.value[0]) && !IsSpace(r.value[|r.value| - 1]))) &&
        HasNoNullCharacter(r.value) &&
        (maxLength.Some? ==> |r.value| <= maxLength.value) &&
        (r.value == [] ==> allowBlank)
  {
  }

  /// Stripping is the only change a CharField makes to a string: a string
  /// that already passes comes back as it was.
  lemma CharFieldKeepsCleanText(s: string, allowBlank: bool, allowNull: bool, maxLength: Option<nat>)
    requires CharField(JString(s), allowBlank, allowNull, maxLength).Ok?
    requires CharField(JString(s), allowBlank, allowNull, maxLength).value.Some?
    ensures var t := CharField(JString(s), allowBlank, allowNull, maxLength).value.value;
      CharField(JString(t), allowBlank, allowNull, maxLength) == Ok(Some(t))
  {
    var t := CharField(JString(s), allowBlank, allowNull, maxLength).value.value;
    CharFieldValue(JString(s), allowBlank, allowNull, maxLength);
    StripTrimmed(t);
  }
}
