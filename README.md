# QuizRoom-Hub, modelled in Dafny

QuizRoom-Hub is a Django REST backend for virtual classrooms. Users are
identified by their e-mail address; saving a new user gives it exactly one
profile, a teacher profile or a student profile, unless it is staff or a
superuser. Teachers own classrooms, and students enroll in them. A classroom
holds course posts, which carry comments, and quizzes. A quiz holds questions,
and a question holds answers, some of them valid. A student submits answers
and then asks for a mark: the number of valid answers they chose, as a
percentage of the quiz's questions with two decimals, rounded half to even.

This project models:

- the user manager and the profile-creation receiver (`Managers`, `Signals`);
- the tables, their foreign keys, the unique constraints and the cascading
  deletes (`Store`, `Cascade`, `Writes`);
- the tables as one object whose methods perform every write
  (`Persistence.Database`);
- the permission classes (`Permissions`) and the request pipeline of a REST
  view: authentication, then `has_permission`, OPTIONS, method dispatch and
  the handler (`ApiView`);
- the classroom, post, profile, quiz, question, answer and student-quiz views
  (`ClassroomViews`, `PostViews`, `ProfileViews`, `QuizViews`,
  `QuestionViews`, `AnswerViews`, `StudentQuizViews`);
- the validation and saving done by the account and quiz serializers
  (`AccountSerializers`, `QuizSerializers`), and the mark (`Grading`);
- the models' `__str__` texts and default orderings (`Display`, `Ordering`);
- the text and date conversions those need (`Text`, `Dates`).

A view is modelled as a function from the method, the tables, the requesting
user and the request data to a `Decision`. A decision is the response class:
allowed, 401, 403, 404, 405, 400 with its message, or a server error. Each
write is a function from the old tables to the new ones. Proved about them:

- every write keeps the foreign keys and the unique constraints;
- the permission rules hold, for example that only a classroom's owner edits
  its quizzes, and that whoever may list an object may read it;
- dates and integers read back as written;
- the mark is 100.00 when every question is answered correctly, never drops
  when one more valid answer is counted, and is not capped at 100.00;
- a cascading delete removes exactly the rows the CASCADE foreign keys reach.
- as written, the post serializers make every post creation, every comment
  creation, the comment list of a post that has comments, and every comment
  read or update end in a server error (see "## Findings").

## Model

| member | source | states |
|---|---|---|
| Signals.CreateUserProfile | authuser/signals.py:8-17 | after the first save of a user that is neither superuser nor staff and has no profile, exactly one profile row with the given id is added, a teacher profile iff `is_teacher`; after any other save the store is unchanged; existing profiles and all other tables stay as they were |
| Signals.NewTeacherRoles | authuser/signals.py:14-15 | a teacher profile inserted for a user without a student profile makes the user a teacher and not a student |
| Signals.NewStudentRoles | authuser/signals.py:16-17 | a student profile inserted for a user without a teacher profile makes the user a student and not a teacher |
| Signals.ProfileKindFollowsFlag | authuser/signals.py:10-17 | when the receiver acts, the user becomes a teacher exactly when `is_teacher` is set and a student exactly when it is not |
| Signals.OtherUsersUnaffected | authuser/signals.py:8-17 | whether any other user is a teacher or a student is the same before and after the receiver runs |
| Signals.NewTeacherOneToOne | account/models.py:12-13 | a new teacher profile for a user without one keeps the one-to-one `user` field of both profile tables |
| Signals.NewStudentOneToOne | account/models.py:30-31 | a new student profile for a user without one keeps the one-to-one `user` field of both profile tables |
| Signals.NewProfileExclusive | authuser/signals.py:12-13 | when the only new profile rows belong to a user who had none, and that user does not end up with both kinds, no user holds both a teacher and a student profile |
| Signals.NewTeacherValid | account/models.py:12-13 | inserting a teacher profile for an existing user without one keeps every database constraint |
| Signals.NewStudentValid | account/models.py:30-31 | inserting a student profile for an existing user without one keeps every database constraint |
| Signals.CreateUserProfileKeepsValid | authuser/signals.py:8-17 | the receiver keeps every foreign key and unique constraint, and never leaves a user with both kinds of profile |
| Managers.NormalizeEmail | authuser/managers.py:19 | `normalize_email`: an address with no '@' comes back as given; one with an '@' keeps one |
| Managers.RebuiltIsTrimmed | authuser/managers.py:19 | a stripped address rebuilt around its '@' with a lower-cased domain is still stripped |
| Managers.RebuiltKeepsLastAt | authuser/managers.py:19 | the rebuilt address keeps its last '@' at the same place, the local part unchanged and the domain lower-cased |
| Managers.NormalizeStripped | authuser/managers.py:19 | a stripped address is split at its last '@' |
| Managers.NormalizeFound | authuser/managers.py:19 | an address is stripped, then split at the last '@' of the stripped text |
| Managers.NormalizeEmailIdempotent | authuser/managers.py:19 | normalizing an address twice gives the same address as normalizing it once |
| Managers.RebuiltIsNormal | authuser/managers.py:19 | normalization leaves an already rebuilt address unchanged |
| Managers.NormalizeEmailParts | authuser/managers.py:19 | an address with no white space around it and no '@' in its domain keeps its local part and gets its domain lower-cased |
| Managers.NormalizeEmailLowersDomain | authuser/tests/test_models.py:29-32 | "tesst@TEST.COM" is stored as "tesst@test.com", the lower-cased address the test expects |
| Managers.NewUser | authuser/managers.py:20-21 | the new row holds the normalized address; its password is usable iff one was given; `is_active` defaults to True and the other flags to False |
| Managers.CreateUser | authuser/managers.py:13-23 | a missing or empty address is refused with "Users must have an email address"; an address already stored breaks the unique constraint; otherwise the users table gains exactly the new row |
| Managers.InsertUserKeepsValid | authuser/managers.py:22 | inserting a user whose normalized address is free keeps every constraint and the one-role rule |
| Managers.CreateUserKeepsValid | authuser/managers.py:13-23 | a successful create_user, with the profile hook it fires, keeps every constraint and the one-role rule |
| Managers.OrdinaryUserGetsOneProfile | authuser/tests/test_managers.py:43-53 | a new user that is neither staff nor superuser is a teacher iff `is_teacher` was passed true, and a student iff not |
| Managers.SuperuserFields | authuser/managers.py:29-32 | every flag not passed becomes True and every flag passed keeps its value |
| Managers.SetSuperuserDefaults | authuser/managers.py:29-32 | the four `setdefault` steps compute exactly the defaulted keyword set |
| Managers.SuperuserRefusal | authuser/managers.py:34-39 | staff, then superuser, then teacher are checked in that order and the first falsy one names the error; `is_active` is never checked |
| Managers.CreateSuperuser | authuser/managers.py:25-40 | a refused flag gives its message; otherwise the result is create_user with the defaulted flags |
| Managers.SuperuserChecksComeFirst | authuser/tests/test_managers.py:64-104 | an explicit False for staff, superuser or teacher is refused with that flag's message before the e-mail is looked at; with no flags a missing e-mail gives the create_user message |
| Managers.SuperuserGetsNoProfile | authuser/tests/test_managers.py:84-87 | a created superuser is staff, superuser and teacher, active unless told otherwise, and gets no profile row |
| Managers.InactiveSuperuserAccepted | authuser/managers.py:34-40 | `is_active=False` passes the checks and the superuser row is created inactive |
| AccountSerializers.Lookup | account/serializers.py:42-44 | a key is found in a body exactly when the body has it |
| AccountSerializers.UnknownKeys | account/serializers.py:40-45 | the keys collected by `is_valid` are at most as many as the body's and none of them is a declared field |
| AccountSerializers.UnknownKeysExact | account/serializers.py:40-45 | a key is reported as an invalid field if and only if the body has it and it is not declared |
| AccountSerializers.UnknownKeysInOrder | account/serializers.py:42-44 | the invalid fields are listed in the order of the body: the keys of a concatenated body are the keys of its two halves, one after the other |
| Fields.TooLong | account/models.py:17 | the `max_length` message is longer than, so different from, each of the field's other messages |
| Fields.CharField | account/serializers.py:16-17 | a `CharField` makes a blank value (one whose text strips to nothing) "" or the blank error, null None or the null error, and a boolean, list or object "Not a valid string."; a string or number becomes its stripped text, accepted exactly when it fits `max_length` and holds no null character, with the length message first; a failure carries one of those messages |
| Fields.MaxLengthOnlyNarrows | quiz/models.py:12 | `max_length` only narrows a CharField: with it a value passes exactly when it passes without it and its text is short enough, with the same value, and anything it stops fails as too long |
| Fields.CharFieldValue | account/serializers.py:16-17 | a value a CharField accepts has no white space at either end, no null character, fits `max_length`, and is empty only where blank is allowed |
| Fields.CharFieldKeepsCleanText | account/serializers.py:16-17 | a CharField is idempotent: the text it stores passes it again unchanged |
| AccountSerializers.NameValidator | account/serializers.py:30-38 | `validate_user_first_name`/`validate_user_last_name` accept exactly a string, unchanged, and refuse anything else with "Not a valid string." |
| AccountSerializers.NameInputAsWritten | account/serializers.py:16-38 | as written, a name is accepted exactly when its `CharField(allow_blank=True)` accepts it, with that field's value and message: the validator only ever sees the converted string |
| AccountSerializers.NumberAcceptedAsName | account/serializers.py:16-38 | as written, every JSON integer is accepted as a name and stored as its decimal text, although the validators mean to refuse non-strings |
| AccountSerializers.NameInput | account/serializers.py:30-38 | the intended name field accepts exactly a string its CharField accepts, stored stripped; a number or float is "Not a valid string.", and a refused string keeps the CharField's message |
| AccountSerializers.NameInputCorrectsNumbers | account/serializers.py:30-38 | the intended name field agrees with the written one on every value but numbers, and refuses every integer the written one accepts and every float |
| AccountSerializers.DateInput | account/models.py:15 | `date_of_birth` accepts exactly null or an ISO date string that names a calendar date, giving that date, and refuses everything else with DRF's date message |
| AccountSerializers.DateInputOfFormatted | account/models.py:15 | a date written out in ISO form is read back by the field as the same date |
| AccountSerializers.DropZeroFraction | account/models.py:17 | removing a trailing zero fraction either leaves the text unchanged or cuts it at a '.' |
| AccountSerializers.NonNegativeInteger | account/models.py:17 | a text is accepted exactly when, with a zero fraction dropped and stripped, `int` reads it as a number that is not negative; otherwise it is not an integer or it is negative |
| AccountSerializers.DropZeroFractionOf | account/models.py:17 | for `whole.fraction` the zero-fraction pattern looks only past the dot: it gives `whole` when the fraction is zeros and white space, and the text unchanged otherwise |
| AccountSerializers.YearsInput | account/models.py:17 | `years_of_experience` takes null as no value, refuses booleans and non-scalars, takes a non-negative integer and refuses a negative one, reads a float's text and a string of at most 1000 characters as `int` after dropping a zero fraction, and refuses longer strings |
| AccountSerializers.YearsOfWholeFloat | account/models.py:17 | a float with a zero fraction, such as 5.0, is read as its whole part |
| AccountSerializers.YearsOfFractionalFloat | account/models.py:17 | a float with a non-zero digit in its fraction, such as 5.5, is refused as not an integer |
| AccountSerializers.PictureInput | account/models.py:16 | in a JSON body only null is accepted for `profile_picture`; any other value is "not a file" |
| AccountSerializers.Optional | account/serializers.py:16-17 | a field absent from the body is skipped; a present one gives the converted value or the conversion's message |
| AccountSerializers.FirstName | account/serializers.py:16 | `user_first_name` is the intended name field on the body's value, skipped when absent |
| AccountSerializers.LastName | account/serializers.py:17 | `user_last_name` is the intended name field on the body's value, skipped when absent |
| AccountSerializers.Bio | account/models.py:14 | `bio` is a CharField allowing blank and null on the body's value, skipped when absent |
| AccountSerializers.DateOfBirth | account/models.py:15 | `date_of_birth` is the date field on the body's value, skipped when absent |
| AccountSerializers.Picture | account/models.py:16 | `profile_picture` is the picture field on the body's value, skipped when absent |
| AccountSerializers.Years | account/models.py:17 | `years_of_experience` is the years field on the body's value, skipped when absent |
| AccountSerializers.WritableFields | account/serializers.py:21-23 | every writable field is declared in `Meta.fields`, and `years_of_experience` is writable exactly for the teacher serializer |
| AccountSerializers.FieldErrorsOf | account/serializers.py:51 | the error dictionary maps each writable field that fails to its message, every field checked whatever the others give |
| AccountSerializers.NoErrorsAllConvert | account/serializers.py:51 | when no field reports an error, every writable field present in the body converts |
| AccountSerializers.Validate | account/serializers.py:40-51 | `is_valid` refuses a body exactly when it has an undeclared key, naming those keys; otherwise it refuses with the full error dictionary when a field fails, and validates only when none does |
| AccountSerializers.UnknownKeyRefused | account/serializers.py:40-49 | a single undeclared key refuses the body, whatever the other values, and is named in the refusal |
| AccountSerializers.StudentYearsRefused | account/serializers.py:88-89 | a student body naming `years_of_experience` is refused as an invalid field |
| AccountSerializers.FieldErrorsNameFailingFields | account/serializers.py:51 | with only declared keys, the body is validated or refused for its field errors, a field is in the error dictionary exactly when it is writable, present and fails, and an absent field never fails |
| AccountSerializers.AbsentFieldsUntouched | account/serializers.py:16-17 | the validated data holds a field exactly when the body has it (years only for the teacher serializer) |
| AccountSerializers.ValidatedNameStripped | account/serializers.py:16 | a first name given as a string is validated as the stripped string |
| AccountSerializers.EveryFieldErrorReported | account/serializers.py:51 | every failing writable field is reported under its own message, whatever the other fields give |
| AccountSerializers.StudentValidatesAsTeacher | account/serializers.py:76-117 | on a body without `years_of_experience` the student serializer refuses exactly when the teacher one does and validates the same changes, with no years |
| AccountSerializers.SameUnknownKeys | account/serializers.py:40-45 | without `years_of_experience`, a body has an undeclared key for the student serializer exactly when it has one for the teacher serializer |
| AccountSerializers.SameFieldErrors | account/serializers.py:51 | without `years_of_experience`, both serializers report the same field errors |
| AccountSerializers.UpdateNames | account/serializers.py:57-64 | the user's first and last names take the given values when present and stay as they were otherwise; nothing else of the user changes |
| AccountSerializers.UpdateTeacherProfile | account/serializers.py:53-73 | `update` rewrites the names of the profile's user and the bio, date of birth and years of the profile, each to the given value or the old one; no other row or table changes |
| AccountSerializers.UpdateStudentProfile | account/serializers.py:119-138 | the student `update` rewrites the names of the profile's user and the bio and date of birth, each to the given value or the old one; no other row or table changes |
| AccountSerializers.UpdateTeacherIdempotent | account/serializers.py:53-73 | sending the same teacher changes twice leaves the store as sending them once |
| AccountSerializers.UpdateStudentIdempotent | account/serializers.py:119-138 | sending the same student changes twice leaves the store as sending them once |
| AccountSerializers.NamesKeepEmails | account/serializers.py:57-64 | changing a user's names keeps e-mails unique |
| AccountSerializers.SameOwnerTeacher | account/serializers.py:66-71 | a teacher profile rewritten with the same owner keeps every constraint and the exclusive roles |
| AccountSerializers.SameOwnerStudent | account/serializers.py:132-136 | a student profile rewritten with the same owner keeps every constraint and the exclusive roles |
| AccountSerializers.UpdateTeacherKeepsValid | account/serializers.py:53-73 | the teacher `update` keeps every foreign key and unique constraint and the exclusive roles |
| AccountSerializers.UpdateStudentKeepsValid | account/serializers.py:119-138 | the student `update` keeps every foreign key and unique constraint and the exclusive roles |
| AccountSerializers.ProfileSerializer.constructor | account/serializers.py:9 | a new serializer has its kind and no invalid fields |
| AccountSerializers.ProfileSerializer.IsValid | account/serializers.py:40-51 | `is_valid` leaves in `invalid_fields` exactly the undeclared keys of the body and returns the verdict of `Validate` |
| Text.Strip | account/serializers.py:16-17 | the text `strip` keeps has none of Python's white space at either end |
| Text.StripRemovesOnlySpace | account/serializers.py:16-17 | `strip` removes white space only: its result is, character for character, a slice of the text with nothing but white space before and after it |
| Text.StripTrimmed | account/serializers.py:16-17 | stripping a text with no white space at either end leaves it unchanged |
| Text.Lower | authuser/managers.py:19 | lower-casing keeps the length and lower-cases each ASCII capital in place, leaving every other character as it is |
| Text.LowerIdempotent | authuser/managers.py:19 | lower-casing twice is lower-casing once |
| Text.IntToString | account/serializers.py:16-17 | `str` of an integer is a non-empty text, all digits when the integer is not negative, and a '-' followed by digits otherwise |
| Text.ParseInteger | account/models.py:17 | `int` reads exactly an optional sign followed by digits, with the sign of the value following the text |
| Text.DigitsValueOfNatToString | account/models.py:17 | the digits written for a natural number read back as that number |
| Text.ParseIntegerOfIntToString | account/models.py:17 | `int(str(i)) == i` for every integer |
| Text.LastIndexOf | authuser/managers.py:19 | `rfind` gives None exactly when the character is absent, and otherwise a position holding it with none after it |
| Text.LastIndexOfAt | authuser/managers.py:19 | a position holding the character with none after it is the one `rfind` returns |
| Text.JoinedLastAt | authuser/managers.py:19 | in `local@domain` with no '@' in the domain, the last '@' is the joining one and splits back into the two parts |
| Dates.DaysInMonth | account/models.py:15 | months have 28 to 31 days, and February has 29 exactly in leap years |
| Dates.FormatIsoDate | account/models.py:15 | `isoformat` writes ten characters with dashes at positions 4 and 7 |
| Dates.MatchDate | account/models.py:15 | a whole-text match of the date pattern names a calendar date, with four year digits, a dash, and a digit at the end, in 8 to 10 characters |
| Dates.ParseIsoDate | account/models.py:15 | `parse_date` accepts only a real calendar date written with four year digits and dashes, either matched by the whole text or by the text without one final newline; whatever the whole text matches it gives |
| Dates.DigitsValueOfPad | account/models.py:15 | a zero-padded number reads back as the number |
| Dates.ParseFormattedDate | account/models.py:15 | every date written by `isoformat` is read back by `parse_date` as the same date |
| Dates.ParseFormattedDateLine | account/models.py:15 | a date written by `isoformat` and followed by a newline is read back as the same date |
| Dates.TwoNewlinesRefused | account/models.py:15 | a text ending in two newlines is never a date |
| Display.QuestionLabel | quiz/models.py:37-38 | a question is named by at most ten characters of its description, a prefix of it, followed by "..." |
| Display.AnswerLabel | quiz/models.py:51-52 | an answer is named by the first ten characters of its description, or all of it when it is shorter |
| Display.CommentLabel | post/models.py:44-45 | a comment is named by at most ten characters of its content, a prefix of it, followed by "..." |
| Display.QuizLabel | quiz/models.py:24-25 | a quiz is named by its title, a '-', then its classroom's name |
| Display.PostLabel | post/models.py:26-27 | a post is named by its title, a '-', then its classroom's name |
| Display.BeforeFirstAt | account/models.py:24-25 | `split("@")[0]` is the prefix of the text up to its first '@', all of it when it has none |
| Display.BeforeFirstAtJoined | account/models.py:24-25 | the text before the first '@' of `local@rest` is `local` when `local` has no '@' |
| Display.ProfileLabel | account/models.py:24-25 | a profile is named by the part of its user's e-mail before the first '@': a prefix holding no '@', followed in the e-mail by '@' unless it is the whole e-mail |
| Display.ProfileLabelOfNormalizedEmail | account/models.py:41-42 | a profile of a user created with `local@domain` is named `local`: normalisation only lower-cases the domain |
| Display.MarkText | quiz/models.py:92-93 | a mark in hundredths is written as its whole part, a '.', and two digits |
| Display.MarkTextReadsBack | quiz/models.py:78 | the text of a mark reads back as the same number of hundredths |
| Display.StudentAnswerLabel | quiz/models.py:70-71 | a submitted answer is named by its student's profile name, a '-', then its answer's name, and nothing more |
| Display.StudentQuizLabel | quiz/models.py:92-93 | a mark row is named by its student's profile name, a '-', its quiz's name, " -> " and the mark's text, and nothing more |
| Ordering.CompareDatesIsBefore | account/models.py:39 | comparing dates agrees with the calendar order in all three outcomes |
| Ordering.CompareValuesFlips | account/models.py:22 | comparing one column the other way round flips the sign |
| Ordering.CompareValuesZero | account/models.py:22 | two column values compare equal exactly when they are the same |
| Ordering.CompareValuesTransitive | account/models.py:22 | the comparison of one column is transitive, wherever NULL is placed |
| Ordering.CompareRows | account/models.py:22 | the comparison of two rows under an ordering is always -1, 0 or 1 |
| Ordering.CompareRowsFlips | account/models.py:22 | comparing rows the other way round flips the sign |
| Ordering.CompareRowsZero | account/models.py:22 | two rows tie exactly when every ordering column holds the same value |
| Ordering.PrecedesTransitive | account/models.py:22 | being listed before is transitive |
| Ordering.PrecedesTotal | account/models.py:22 | of two rows with different keys exactly one is listed first, and no row is listed before another that is listed before it |
| Ordering.CompareRowsShort | account/models.py:22 | on one or two columns the first column decides, and the second breaks ties, each turned round when descending |
| Ordering.TeacherPrecedes | account/models.py:22 | teachers with known experience are listed from the most experienced, ties broken by the earlier date of birth |
| Ordering.UnknownExperiencePlacement | account/models.py:22 | a teacher of unknown experience comes before one of known experience exactly when the database sorts NULL as the largest value |
| Ordering.StudentPrecedes | account/models.py:39 | students with known dates of birth are listed from the earliest born |
| Ordering.NewestFirst | quiz/models.py:22 | quizzes, posts and comments are listed newest first |
| Ordering.MarkPrecedes | quiz/models.py:84 | marks are listed from the highest, equal marks from the latest answered |
| Grading.RoundHalfEven | quiz/serializers.py:217 | `quantize` gives an integer within half a step of the exact quotient, and the even one on a tie |
| Grading.PickHalfEvenNearest | quiz/serializers.py:217 | choosing between the quotient and its successor by the remainder lands within half a step, on the even one at a tie |
| Grading.NearestIsUnique | quiz/serializers.py:217 | at most one integer is within half a step of a quotient with ties going to the even one, so the rounding is well defined |
| Grading.RoundHalfEvenMonotone | quiz/serializers.py:217 | the rounding never decreases when the numerator grows |
| Grading.RoundHalfEvenExact | quiz/serializers.py:217 | an exact quotient is not changed by the rounding |
| Grading.Mark | quiz/serializers.py:217 | the mark, in hundredths, is within half a hundredth of `100 * correct / total` |
| Grading.MarkOfNoValidAnswerIsZero | quiz/serializers.py:217 | no valid answer gives a mark of 0.00 |
| Grading.MarkMonotone | quiz/serializers.py:210-217 | one more valid answer never lowers the mark |
| Grading.MarkOfAllValidIsFull | quiz/serializers.py:217 | as many valid answers as questions gives exactly 100.00 |
| Grading.MarkAtMostFull | quiz/serializers.py:217 | no more valid answers than questions gives at most 100.00 |
| Grading.MarkIsNotCapped | quiz/serializers.py:207-217 | the mark is not capped: twice as many valid answers as questions gives 200.00 |
| Grading.CountCorrect | quiz/serializers.py:208-212 | the accumulator loop counts exactly the submitted rows whose answer is valid |
| Grading.CorrectRows | quiz/serializers.py:208-212 | the correct rows are exactly the given rows whose answer is valid |
| Grading.QuestionsOf | quiz/serializers.py:207 | the quiz's questions are exactly the questions whose quiz it is |
| Grading.SubmittedRows | quiz/serializers.py:197 | the student's rows for a quiz are exactly their submitted answers to questions of that quiz |
| Grading.InjectionBound | quiz/models.py:63-68 | rows that map one-to-one into the questions of a quiz are no more than the questions |
| Grading.MarkAtMostFullWhenOneValidAnswerPerQuestion | quiz/serializers.py:197-217 | when the student holds at most one valid answer per question of the quiz, the mark is at most 100.00 |
| Permissions.IsStudent | classroom/permissions.py:86-97 | `IsStudent` grants exactly a user with a student profile |
| Permissions.IsTeacher | classroom/permissions.py:110-122 | `IsTeacher` grants exactly a user with a teacher profile |
| Permissions.IsClassroomOwner | classroom/permissions.py:59-73 | `IsClassroomOwner` grants exactly the user behind the classroom's teacher profile |
| Permissions.IsEnrolled | classroom/permissions.py:38-43 | the student branch of `IsClassroomMember` grants exactly a user whose student profile has an enrollment row for the classroom |
| Permissions.IsClassroomMember | classroom/permissions.py:21-46 | `IsClassroomMember` grants exactly, for an existing classroom, its owner or an enrolled student |
| Permissions.IsCommentAuthor | post/permissions.py:15-27 | `IsCommentAuthor` grants exactly the user who wrote the comment, whatever the method |
| Permissions.IsProfileOwnerOrReadOnly | account/permissions.py:10-16 | `IsProfileOwnerOrReadOnly` grants every safe method, and any other only to the profile's own user |
| Permissions.HasPermission | classroom/permissions.py:86-125 | `has_permission` is granted by every class that defines only the object hook, and never to an anonymous request by the others |
| Permissions.HasObjectPermission | classroom/permissions.py:21-73 | `has_object_permission` is granted by every class that defines only `has_permission`, never to an anonymous request by the ownership and membership classes, and for every safe method on a profile |
| Permissions.OwnerIsMember | classroom/permissions.py:34-36 | the owner of a classroom is a member of it |
| Permissions.MemberWithoutStudentProfileIsOwner | classroom/permissions.py:21-46 | for a user without a student profile, membership is exactly ownership |
| Permissions.MemberStudentIsEnrolled | classroom/permissions.py:38-43 | for a student who does not own the classroom, membership is exactly an enrollment row of their profile for it |
| Permissions.Refusal | classroom/permissions.py:86-97 | a refused request is 401 exactly when nobody is authenticated, and 403 otherwise |
| Permissions.CheckPermissions | classroom/permissions.py:86-125 | the view's permission check passes exactly when every class of its list grants `has_permission`, and otherwise gives the refusal |
| Permissions.CheckObjectPermissions | classroom/permissions.py:21-73 | the object check passes exactly when every class of the list grants `has_object_permission` on the loaded object, and otherwise gives the refusal |
| ApiView.Respond | classroom/views.py:108-225 | the handler runs exactly when the method is handled, is not OPTIONS and the permission check passes; otherwise the answer is the metadata, 405 or the refusal |
| ApiView.ObjectGate | classroom/views.py:134-137 | a handler on a loaded object goes on exactly when the object permissions pass |
| ApiView.SelectPermissions | post/views.py:351-368 | the classroom-style views pick IsAuthenticated with membership for safe methods and with ownership for the others; the comment view picks membership for safe methods, authorship for PUT, authentication alone for DELETE, and keeps the field for any other method; a view without an override keeps its class attribute |
| ApiView.SelectPermissionsIdempotent | post/views.py:351-368 | calling `get_permissions` a second time leaves the field as the first call did |
| ApiView.SelectedPermissionsAuthenticate | post/views.py:351-368 | every list a detail view selects starts with IsAuthenticated, except the default the comment view keeps for POST and PATCH |
| ApiView.DetailView.constructor | classroom/views.py:83 | a new detail view holds its declared permission classes |
| ApiView.DetailView.GetPermissions | classroom/views.py:108-119 | `get_permissions` assigns the field for the method from its old value and returns it |
| ClassroomViews.ListClassrooms | classroom/views.py:17-45 | the classroom list answers exactly authenticated teachers on GET or HEAD, and refuses an authenticated non-teacher with 403 |
| ClassroomViews.ClassroomsOfTeacher | classroom/views.py:37-45 | the listed classrooms are exactly those the requester owns |
| ClassroomViews.CreateClassroom | classroom/views.py:48-80 | creating a classroom is let through exactly for an authenticated teacher on POST whose body the serializer accepts; a teacher's invalid body is refused 400 with the serializer's message |
| ClassroomViews.ClassroomDetail | classroom/views.py:83-224 | a classroom is read by its members and changed or deleted by its owner, exactly, a PUT only with a body the serializer accepts; the owner's invalid PUT body is 400 with its message; a missing classroom is 404 for every authenticated GET, HEAD, PUT or DELETE |
| ClassroomViews.ListEnrollments | classroom/views.py:227-263 | the enrollment list answers exactly authenticated students and teachers on GET or HEAD |
| ClassroomViews.EnrollmentsVisibleTo | classroom/views.py:247-263 | a student sees exactly their own enrollments; anyone else sees exactly the enrollments in the classrooms they own |
| ClassroomViews.OwnEnrollment | classroom/views.py:257-259 | an enrollment is the user's own exactly when its student profile is that user's |
| ClassroomViews.ListedEnrollmentsAreReadable | classroom/views.py:247-263 | every enrollment the list shows can be read by the same user through the enrollment detail endpoint |
| ClassroomViews.CreateEnrollment | classroom/views.py:266-339 | an enrollment is created exactly for an authenticated student or teacher whose body resolves, a teacher only into a classroom they own; a teacher's enrollment into another classroom is refused with "Not a valid classroom." |
| ClassroomViews.EnrollmentDetail | classroom/views.py:342-455 | an enrollment is read by a member of its classroom and deleted by its owner, exactly; a missing student, classroom or row is 404 |
| ClassroomViews.EnrollmentExists | classroom/views.py:402-404 | an enrollment exists exactly when a row pairs the student with the classroom |
| PostViews.CreatePost | post/views.py:19-70 | as the tests expect: posting is let through exactly for the owner of the resolved classroom; a body that does not resolve is refused with the serializer's message |
| PostViews.CreatePostAsWritten | post/views.py:52-70 | as written, no post is ever created: an authenticated POST whose title and content pass is a 500 (KeyError on the read-only `classroom`), one whose fields fail is 400 with their message |
| PostViews.PostCreationCrashes | post/views.py:52-70 | a valid post body gets a 500 as written, where the corrected view creates the post for the owner and answers anyone else 403 |
| PostViews.ListPosts | post/views.py:73-111 | the post list answers exactly the members of the classroom on GET or HEAD; a missing classroom is refused with "Classroom does not exist." |
| PostViews.PostsOf | post/views.py:89-111 | the listed posts are exactly the posts of the route's classroom |
| PostViews.ListedPostsAreReadable | post/views.py:89-111 | whoever may list a classroom's posts may read each of them through the detail endpoint |
| PostViews.PostDetail | post/views.py:114-241 | a post is read by the members of its own classroom and changed or deleted by that classroom's owner, exactly, whatever classroom the URL names, a PUT only with a body the serializer accepts; the owner's invalid PUT body is 400 with its message; a missing post is 404 |
| PostViews.CreateComment | post/views.py:244-291 | as the post must have been meant to work: commenting is let through exactly for a member of the classroom of the resolved post |
| PostViews.CreateCommentAsWritten | post/views.py:244-291 | as written, no comment is ever created: every authenticated POST is a 500 (CommentSerializer's undeclared `post` field), and so is every authenticated OPTIONS, whose metadata describes that serializer's fields |
| PostViews.CommentCreationCrashes | post/views.py:278-291 | a member's comment is created by the corrected view and is a 500 as written |
| PostViews.ListComments | post/views.py:294-334 | the comment list answers exactly the members of the post's classroom on GET or HEAD; a missing post is refused with "Post does not exist." |
| PostViews.CommentsOf | post/views.py:312-333 | the listed comments are exactly the comments of the route's post |
| PostViews.ListCommentsAsWritten | post/views.py:294-334 | as written, the list is a 500 exactly when the corrected list would be let through and the post has a comment; otherwise it answers as the corrected list |
| PostViews.ListingCommentsCrashes | post/views.py:312-333 | a member listing a post that has a comment gets a 500 as written |
| PostViews.CommentReadNeedsMembership | post/views.py:402-403 | reading a comment is allowed exactly to the members of its post's classroom |
| PostViews.CommentEditOnlyByAuthor | post/views.py:404-405 | editing a comment is allowed exactly to its author with a valid body; owning the classroom plays no part |
| PostViews.CommentDeleteByOwnerOrAuthor | post/views.py:406-410 | deleting a comment is allowed exactly to the owner of its classroom and to its author |
| PostViews.CommentDetail | post/views.py:444-462 | with a working serializer, the author's PUT is answered by the body's verdict: let through when it validates, 400 with its message otherwise |
| PostViews.CommentDetailAsWritten | post/views.py:418-462 | as written, GET, HEAD and PUT are a 500 exactly where the corrected view would let them through, and every other answer is the corrected view's |
| PostViews.CommentReadCrashes | post/views.py:418-434 | a member reading a comment is shown it by the corrected view and gets a 500 as written |
| PostViews.CommentDetailOtherMethodsNotAllowed | post/views.py:351-368 | POST and PATCH on a comment are answered 405, even without authentication |
| PostViews.MissingCommentNotFound | post/views.py:370-389 | a missing comment is 404 for every authenticated GET, HEAD, PUT or DELETE |
| ProfileViews.ProfileOwner | account/views.py:101-119 | `get_object` finds a profile exactly when its row exists, and gives its user |
| ProfileViews.ProfileDetail | account/views.py:60-190 | a profile is read by any authenticated user and written or deleted only by its own user, a write only with a body that validates; a missing profile is 404 and anyone else's write is 403 |
| ProfileViews.AnyoneReadsProfiles | account/permissions.py:12-13 | any authenticated user reads any existing profile |
| ProfileViews.OnlyOwnerWrites | account/permissions.py:15-16 | a write or a delete gets through only for the profile's own user |
| ProfileViews.OwnerUnknownKeyRefused | account/views.py:151-167 | the owner's body with an undeclared key is refused with the list of such keys |
| ProfileViews.ProfileEffect | account/views.py:101-190 | a GET or HEAD of a profile leaves the tables as they were; only PUT and DELETE write |
| ProfileViews.ProfileEffectKeepsValid | account/views.py:175-190 | an allowed request leaves every constraint of the store intact, and a deleted profile's user is gone, with no profile left |
| QuizViews.QuizCreate | quiz/views/quiz_views.py:19-55 | a quiz is created exactly for an authenticated owner of the classroom a valid body names; a body naming a missing classroom is refused with "Classroom does not exist" |
| QuizViews.QuizList | quiz/views/quiz_views.py:58-91 | the quiz list answers exactly authenticated teachers on GET or HEAD |
| QuizViews.QuizzesOfTeacher | quiz/views/quiz_views.py:79-91 | the listed quizzes are exactly those of the classrooms the requester owns |
| QuizViews.QuizPutAsWritten | quiz/views/quiz_views.py:189-205 | as written, an update is saved exactly when the body is valid and names an existing classroom, whoever owns that classroom |
| QuizViews.QuizPut | quiz/views/quiz_views.py:189-205 | the corrected update is saved exactly when the body is valid and the requester owns the classroom it names |
| QuizViews.QuizDetailWith | quiz/views/quiz_views.py:94-227 | a quiz is read by the members of its classroom and updated or deleted by that classroom's owner, an update only when its save succeeds; a missing quiz is 404 |
| QuizViews.QuizDetailAsWritten | quiz/views/quiz_views.py:94-227 | the quiz detail view as written, whose PUT checks only the quiz's current classroom |
| QuizViews.QuizDetail | quiz/views/quiz_views.py:94-227 | the quiz detail view whose PUT also checks the classroom the quiz moves to |
| QuizViews.QuizUpdateStaysWithOwner | quiz/views/quiz_views.py:189-205 | with the corrected update, an update that goes through is by the owner of the quiz's classroom and leaves the quiz in a classroom that owner holds |
| QuizViews.QuizUpdateAsWrittenMovesIntoForeignClassroom | quiz/views/quiz_views.py:189-205 | as written, a teacher moves their own quiz into a classroom of another teacher |
| QuizViews.ListedQuizzesAreReadable | quiz/views/quiz_views.py:79-91 | every quiz the list shows can be read by the same teacher through the detail endpoint |
| QuestionViews.QuestionCreate | quiz/views/question_views.py:15-67 | a question is created exactly for an authenticated owner of the classroom of the route's quiz, with a description; a missing quiz is refused with "Quiz does not exist" |
| QuestionViews.QuestionList | quiz/views/question_views.py:70-111 | the question list answers exactly the members of the quiz's classroom on GET or HEAD; a missing quiz is 404 |
| QuestionViews.QuestionsListed | quiz/views/question_views.py:88-111 | the listed questions are exactly those of the route's quiz |
| QuestionViews.QuestionPutAsWritten | quiz/views/question_views.py:209-226 | as written, an update is saved exactly when it has a description and the route's quiz exists, whoever owns that quiz |
| QuestionViews.QuestionPut | quiz/views/question_views.py:209-226 | the corrected update is saved exactly when it has a description and the requester owns the classroom of the route's quiz |
| QuestionViews.QuestionDetailWith | quiz/views/question_views.py:114-249 | a question, looked up by its own id, is read by the members of its classroom and updated or deleted by that classroom's owner; a missing question is 404 |
| QuestionViews.QuestionDetailAsWritten | quiz/views/question_views.py:114-249 | the question detail view as written, whose PUT attaches the route's quiz unchecked |
| QuestionViews.QuestionDetail | quiz/views/question_views.py:114-249 | the question detail view whose PUT also checks the quiz the question moves to |
| QuestionViews.QuestionUpdateStaysWithOwner | quiz/views/question_views.py:209-226 | with the corrected update, an update that goes through is by the owner of the question's classroom and attaches it to a quiz of a classroom that owner holds |
| QuestionViews.QuestionUpdateAsWrittenMovesIntoForeignQuiz | quiz/views/question_views.py:209-226 | as written, a teacher moves their own question under a quiz of another teacher's classroom by naming it in the route |
| QuestionViews.ListedQuestionsAreReadable | quiz/views/question_views.py:88-111 | whoever may list a quiz's questions may read each of them |
| AnswerViews.AnswerCreate | quiz/views/answer_views.py:15-68 | an answer is created exactly for an authenticated owner of the classroom of the route's question, with a valid body; a missing question is refused with "Question does not exist" |
| AnswerViews.AnswerList | quiz/views/answer_views.py:71-113 | the answer list answers exactly the owner of the question's classroom on GET or HEAD; a missing question is 404 |
| AnswerViews.AnswersOf | quiz/views/answer_views.py:89-113 | the listed answers are exactly those of the route's question |
| AnswerViews.AnswerPutAsWritten | quiz/views/answer_views.py:195-214 | as written, an update is saved exactly when the body is valid and the route's question exists, whoever owns it |
| AnswerViews.AnswerPut | quiz/views/answer_views.py:195-214 | the corrected update is saved exactly when the body is valid and the requester owns the classroom of the route's question |
| AnswerViews.AnswerDetailWith | quiz/views/answer_views.py:116-238 | every method on an answer, reads included, needs ownership of its classroom, an update only when its save succeeds; a missing answer is 404 |
| AnswerViews.AnswerDetailAsWritten | quiz/views/answer_views.py:116-238 | the answer detail view as written, whose PUT attaches the route's question unchecked |
| AnswerViews.AnswerDetail | quiz/views/answer_views.py:116-238 | the answer detail view whose PUT also checks the question the answer moves to |
| AnswerViews.AnswerUpdateStaysWithOwner | quiz/views/answer_views.py:195-214 | with the corrected update, an update that goes through is by the owner of the answer's classroom and attaches it to a question of a classroom that owner holds |
| AnswerViews.AnswerUpdateAsWrittenMovesIntoForeignQuestion | quiz/views/answer_views.py:195-214 | as written, a teacher moves their own answer under a question of another teacher's classroom by naming it in the route |
| AnswerViews.StudentsNeverSeeAnswers | quiz/views/answer_views.py:140 | no student lists, reads, changes or creates answers, so none learns which answer is valid |
| AnswerViews.ListedAnswersAreReadable | quiz/views/answer_views.py:89-113 | whoever may list a question's answers may read each of them |
| StudentQuizViews.StudentOf | quiz/views/student_quiz_views.py:40-73 | the requester's student profile is found exactly when they have one, and it is theirs |
| StudentQuizViews.SubmitAnswer | quiz/views/student_quiz_views.py:16-73 | an answer is stored exactly for an authenticated student who is a member of the quiz's classroom, with a body that validates and an answer not yet given; a missing quiz is refused with "Quiz does not exist" |
| StudentQuizViews.SubmitQuiz | quiz/views/student_quiz_views.py:76-138 | a mark is stored exactly for a student member of the quiz's classroom, for a quiz with questions and not yet graded for them; a second submission is a server error; an empty quiz is refused with "Quiz has no questions." |
| StudentQuizViews.MarkList | quiz/views/student_quiz_views.py:141-187 | the mark list answers exactly the members of the route quiz's classroom on GET or HEAD; a missing quiz is refused with "Quiz does not exist." |
| StudentQuizViews.MarksVisibleTo | quiz/views/student_quiz_views.py:161-187 | a student gets all of their own marks, whatever the route's quiz; anyone else gets the marks of every quiz of the route quiz's classroom |
| StudentQuizViews.StudentNeverOwns | classroom/permissions.py:34-36 | while no user holds both profiles, a student owns no classroom |
| StudentQuizViews.OnlyEnrolledStudentsSubmit | quiz/views/student_quiz_views.py:16-138 | whoever answers or submits a quiz is a student, not a teacher, enrolled in the quiz's classroom |
| StudentQuizViews.StudentSeesOnlyOwnMarks | quiz/views/student_quiz_views.py:161-187 | a student's list of marks holds their own marks only |
| StudentQuizViews.OwnerSeesTheClassroomMarks | quiz/views/student_quiz_views.py:161-187 | the classroom owner's list holds exactly the marks of the quizzes of that classroom |
| QuizSerializers.RequiredText | quiz/models.py:30-43 | a required text field refuses an absent value as required, null as not null, a boolean, list or object as not a string, and otherwise fails only with the blank or null-character message |
| QuizSerializers.RequiredTextAccepts | quiz/models.py:30-43 | a required text field accepts exactly a string or number whose stripped text is not empty and holds no null character, storing that stripped text; a blank value is refused as blank |
| QuizSerializers.RequiredTextOfCleanString | quiz/models.py:30-43 | a non-empty string with no white space at either end and no null character is stored as it is |
| QuizSerializers.TitleField | quiz/models.py:12 | the title is accepted exactly when the required text accepts it and its stripped text is at most 200 characters, with the same value; it fails with the required text's message or the length message |
| QuizSerializers.ContentField | quiz/models.py:13 | `content` may be absent, is null for null, refuses a boolean, list or object, and keeps any other value's stripped text ("" for a blank one), refusing only one with a null character |
| QuizSerializers.QuizValidate | quiz/serializers.py:24-33 | `validate` passes exactly when `classroom_id` and `title` are both present, checking `classroom_id` first, each with its own message |
| QuizSerializers.ValidateQuiz | quiz/serializers.py:12-33 | a quiz body validates exactly when its title and content pass their fields and it names a classroom, with those values; the title's error is reported first, then the content's, then the missing classroom |
| QuizSerializers.QuizTitleCheckUnreachable | quiz/serializers.py:29-31 | the "title is required." branch of `validate` is never reached: a body without a title fails at the field |
| QuizSerializers.CreateQuiz | quiz/serializers.py:35-51 | a quiz is created exactly when the named classroom exists, with the given title and classroom and the creation time; its content is the validated content, or null when the body has none |
| QuizSerializers.QuizAfterPut | quiz/views/quiz_views.py:200-203 | a full quiz update sets the validated title and classroom, sets the content only when the body has one (null included), keeps the stored content otherwise, and keeps the creation time |
| QuizSerializers.QuizAfterPutIdempotent | quiz/views/quiz_views.py:200-203 | putting the same body twice leaves the quiz as putting it once |
| QuizSerializers.QuizAfterPutOfCreated | quiz/serializers.py:35-51 | putting the data a quiz was created from gives back that quiz |
| QuizSerializers.QuestionParent | quiz/serializers.py:64-75 | the question's parent resolves exactly when the context names an existing quiz, each failure with its message |
| QuizSerializers.ValidateQuestion | quiz/serializers.py:54-81 | a question body validates exactly when its description passes the required text and the context's quiz exists, storing the stripped description on that quiz; the description's error comes first, then the parent's |
| QuizSerializers.AnswerToInternal | quiz/serializers.py:94-97 | a present `is_valid` that is not a JSON boolean is refused with "Not a valid boolean."; otherwise the body converts exactly when its description passes the required text and a boolean is given, to the stripped description and that boolean |
| QuizSerializers.AnswerParent | quiz/serializers.py:99-110 | the answer's parent resolves exactly when the context names an existing question, each failure with its message |
| QuizSerializers.ValidateAnswer | quiz/serializers.py:84-117 | an answer body validates exactly when its fields convert and the context's question exists, storing the stripped description and the boolean on that question; a field error is reported before the parent's |
| QuizSerializers.NonBooleanReportedFirst | quiz/serializers.py:94-97 | a non-boolean `is_valid` is reported even when the question does not exist |
| QuizSerializers.SubmissionTarget | quiz/serializers.py:131-158 | a submission resolves exactly when the context gives the quiz and the student, the quiz and the question exist and the answer belongs to the question, each failure with its message in the source's order |
| QuizSerializers.ValidateSubmission | quiz/serializers.py:120-158 | a submission body validates exactly when it has both ids and they resolve |
| QuizSerializers.SubmissionQuestionNotCheckedAgainstQuiz | quiz/serializers.py:140-143 | a submission for one quiz is accepted with a question of another quiz |
| QuizSerializers.CreateStudentAnswer | quiz/serializers.py:160-171 | storing an answer fails exactly when the student already gave that answer, with "Student cannot answer the same question again."; otherwise exactly the one row is added and every constraint holds |
| QuizSerializers.ValidateGrading | quiz/serializers.py:183-200 | grading validates exactly when the context gives the quiz and the student and the quiz exists, and collects the student's answers to that quiz's questions |
| QuizSerializers.GradeOf | quiz/serializers.py:207-217 | the mark is refused exactly for a quiz without questions, and is otherwise within half a hundredth of the percentage of valid answers |
| QuizSerializers.SaveGrade | quiz/serializers.py:202-225 | an empty quiz is refused, a second mark of the same student for the same quiz fails on the unique constraint, and otherwise exactly the mark row is added, keeping every constraint |
| QuizSerializers.PerfectSubmissionScoresFull | quiz/serializers.py:207-217 | as many valid answers as the quiz has questions scores 100.00 |
| QuizSerializers.NoValidAnswerScoresZero | quiz/serializers.py:207-217 | no valid answer scores 0.00 |
| QuizSerializers.ValidatedData.constructor | quiz/serializers.py:64 | the dictionary starts with the fields given |
| QuizSerializers.ValidatedData.ValidateQuestionData | quiz/serializers.py:64-75 | `validate` resolves the quiz of the context and, on success only, adds it under "quiz"; nothing else of the dictionary changes |
| QuizSerializers.ValidatedData.ValidateAnswerData | quiz/serializers.py:99-110 | `validate` resolves the question of the context and, on success only, adds it under "question"; nothing else changes |
| QuizSerializers.ValidatedData.ValidateStudentAnswerData | quiz/serializers.py:131-158 | `validate` resolves the submission and, on success only, replaces the two ids by the quiz, question, answer and student |
| QuizSerializers.ValidatedData.ValidateStudentQuizData | quiz/serializers.py:183-200 | `validate` checks the context and the quiz and, on success only, adds the student's answers to the quiz, the quiz and the student |
| Store.StudentAnswersUnique | quiz/models.py:63-68 | the "student-answer" constraint holds exactly when no two rows pair the same student with the same answer |
| Store.StudentQuizzesUnique | quiz/models.py:85-90 | the "student-quiz" constraint holds exactly when no two mark rows share a student and a quiz |
| Store.Valid | quiz/models.py:16-90 | a state the database accepts has every foreign key resolved, unique e-mails, at most one profile of each kind per user, and every unique constraint |
| Writes.CreateClassroom | classroom/views.py:69-80 | a new classroom owned by the requester's teacher profile is added, and every constraint still holds |
| Writes.RenameClassroom | classroom/views.py:192-197 | renaming a classroom changes its name only, and every constraint still holds |
| Writes.Enroll | classroom/views.py:322-339 | saving an enrollment is refused exactly when the same student is already enrolled in the same classroom, with "This student is already enrolled in the specified classroom."; otherwise exactly the one row is added and every constraint holds |
| Writes.EnrollKeepsValid | classroom/views.py:322-339 | a new enrollment of an existing student into an existing classroom, not yet stored, keeps every constraint |
| Writes.CreatePost | post/views.py:52-70 | a new post in an existing classroom is added, and every constraint still holds |
| Writes.UpdatePost | post/views.py:211-216 | updating a post changes its title and content only, and every constraint still holds |
| Writes.CreateComment | post/views.py:278-291 | a new comment on an existing post by an existing user is added, and every constraint still holds |
| Writes.UpdateComment | post/views.py:457-462 | updating a comment changes its content only, and every constraint still holds |
| Writes.CreateQuiz | quiz/serializers.py:45-49 | a new quiz in an existing classroom is added, and every constraint still holds |
| Writes.UpdateQuiz | quiz/views/quiz_views.py:189-205 | saving a quiz may change its title, content and classroom, never its creation time, and every constraint still holds |
| Writes.CreateQuestion | quiz/serializers.py:77-81 | a new question of an existing quiz is added, and every constraint still holds |
| Writes.UpdateQuestion | quiz/views/question_views.py:209-226 | saving a question rewrites its row, and every constraint still holds |
| Writes.CreateAnswer | quiz/serializers.py:112-117 | a new answer of an existing question is added, and every constraint still holds |
| Writes.UpdateAnswer | quiz/views/answer_views.py:195-214 | saving an answer rewrites its row, and every constraint still holds |
| Writes.InsertStudentAnswer | quiz/models.py:63-68 | the insert is refused exactly when the student already gave that answer; otherwise exactly the one row is added and every constraint holds |
| Writes.InsertStudentAnswerKeepsValid | quiz/models.py:63-68 | a submitted answer not yet stored for that student keeps every constraint |
| Writes.InsertStudentQuiz | quiz/models.py:85-90 | the insert is refused exactly when the student already has a mark for the quiz; otherwise exactly the one row is added and every constraint holds |
| Writes.InsertStudentQuizKeepsValid | quiz/models.py:85-90 | a mark not yet stored for that student and quiz keeps every constraint |
| Writes.SecondAnswerRefused | quiz/models.py:63-68 | once an answer is stored, storing the same pair again is refused |
| Writes.SecondMarkRefused | quiz/models.py:85-90 | once a mark is stored, a second mark for the same student and quiz is refused |
| Cascade.Closure | quiz/models.py:16-77 | the rows a delete dooms are closed under every CASCADE foreign key: each row whose target is doomed is doomed |
| Cascade.ClosureHoldsRoots | quiz/models.py:16-77 | the closure dooms every row it starts from, and of the users only those |
| Cascade.ClosureOnlyReaches | quiz/models.py:16-77 | every doomed row is a root or refers, through one of its foreign keys, to a doomed row |
| Cascade.ClosureIsLeast | quiz/models.py:16-77 | the closure is the least closed set holding the roots: every closed set that holds them holds the closure |
| Cascade.SameRows | quiz/models.py:16-77 | two sets of doomed rows that include each other are the same |
| Cascade.RemoveKeepsProfileRefs | account/models.py:12-13 | removing a closed set of rows keeps every profile pointing at an existing user |
| Cascade.RemoveKeepsClassroomRefs | classroom/permissions.py:34-43 | removing a closed set of rows keeps every classroom pointing at an existing teacher and every enrollment at an existing student and classroom |
| Cascade.RemoveKeepsPostRefs | post/models.py:18-37 | removing a closed set of rows keeps every post and comment pointing at existing rows |
| Cascade.RemoveKeepsQuizRefs | quiz/models.py:16-45 | removing a closed set of rows keeps every quiz, question and answer pointing at existing rows |
| Cascade.RemoveKeepsSubmissionRefs | quiz/models.py:56-77 | removing a closed set of rows keeps every submitted answer and mark pointing at existing rows |
| Cascade.RemoveKeepsUniqueness | quiz/models.py:63-90 | removing rows keeps every unique constraint |
| Cascade.ClosureIsClosed | quiz/models.py:16-77 | the closure of a closure adds nothing |
| Cascade.DeleteKeepsValid | quiz/models.py:16-77 | a cascading delete keeps every foreign key and unique constraint |
| Cascade.DeleteRemovesExactlyTheClosure | quiz/models.py:16-77 | in every table a cascading delete removes exactly the doomed rows and keeps every other row unchanged |
| Cascade.DeleteUserRemovesProfilesAndComments | account/views.py:186-189 | deleting a user deletes the user, their profiles and their comments |
| Cascade.DeletePostRemovesItsComments | post/views.py:238-240 | deleting a post deletes its comments, while its classroom and the other posts stay |
| Cascade.DeleteClassroomRemovesCommentsOfItsPosts | classroom/views.py:221-223 | deleting a classroom deletes the comments of its posts |
| Cascade.DeleteClassroomRemovesQuizContent | classroom/views.py:221-223 | deleting a classroom deletes the students' answers to the questions of its quizzes |
| Cascade.DeleteQuizRemovesQuestionsAndMarks | quiz/views/quiz_views.py:213-227 | deleting a quiz deletes its questions and its marks, while the classrooms, the posts and the other quizzes stay |
| Cascade.DeleteAnswerRemovesItsSubmissions | quiz/views/answer_views.py:222-238 | deleting an answer deletes exactly the submitted answers that chose it |
| Cascade.ClosureOfEnrollment | classroom/views.py:452-454 | the closure of a single enrollment is that enrollment: nothing refers to an enrollment |
| Cascade.DeleteEnrollmentOnlyRemovesIt | classroom/views.py:452-454 | deleting an enrollment removes that row and touches no other |
| Persistence.RemoveKeepsRolesExclusive | authuser/signals.py:10-17 | deleting rows never leaves a user with both a teacher and a student profile |
| Persistence.Database.constructor | quiz/models.py:55-90 | a new database has no rows and meets every constraint |
| Persistence.Database.OnUserSaved | authuser/signals.py:8-17 | the post_save receiver changes the tables exactly as the profile-creation rule says: one profile for a newly created plain user, nothing otherwise |
| Persistence.Database.CreateUser | authuser/managers.py:13-23 | create_user refuses a missing e-mail, and otherwise stores the user with the normalised e-mail and hashed password, fires the receiver and keeps the constraints; a taken address breaks the unique e-mail constraint and changes nothing |
| Persistence.Database.SaveNewUser | authuser/managers.py:22 | inserting a new user and running the receiver yields the user plus at most one profile, keeping the constraints |
| Persistence.Database.CreateSuperuser | authuser/managers.py:25-40 | create_superuser fills in the four flags, refuses a false staff, superuser or teacher flag before touching the tables, then behaves as create_user |
| Persistence.Database.SaveNames | account/serializers.py:53-64 | the nested user update changes only the submitted names of that one user |
| Persistence.Database.UpdateTeacherProfile | account/serializers.py:53-71 | the teacher profile update leaves the tables as the serializer's update function says and keeps the constraints |
| Persistence.Database.UpdateStudentProfile | account/serializers.py:119-136 | the student profile update leaves the tables as the serializer's update function says and keeps the constraints |
| Persistence.Database.DeleteRows | account/views.py:189 | a delete leaves the tables as the cascading delete says |
| Persistence.Database.ProfileRequest | account/views.py:101-190 | the profile detail request returns the view's decision, changes the tables only when it is allowed and keeps the constraints |
| Persistence.Database.CreateClassroom | classroom/views.py:69-80 | creating a classroom for an existing teacher adds that one row and keeps the constraints |
| Persistence.Database.RenameClassroom | classroom/views.py:196 | renaming a classroom changes only its name and keeps the constraints |
| Persistence.Database.Enroll | classroom/views.py:322-339 | an enrollment is stored unless the student is already enrolled in that classroom, in which case the tables stay as they were |
| Persistence.Database.CreatePost | post/views.py:52-70 | creating a post in an existing classroom adds that one row and keeps the constraints |
| Persistence.Database.UpdatePost | post/views.py:211-216 | a post update changes only the title and content of that post and keeps the constraints |
| Persistence.Database.CreateComment | post/views.py:278-291 | creating a comment on an existing post by an existing user adds that one row and keeps the constraints |
| Persistence.Database.UpdateComment | post/views.py:457-462 | a comment update changes only the content of that comment and keeps the constraints |
| Persistence.Database.CreateQuiz | quiz/serializers.py:35-51 | creating a quiz in an existing classroom adds that one row and keeps the constraints |
| Persistence.Database.UpdateQuiz | quiz/views/quiz_views.py:189-205 | a quiz PUT assigns the validated title and classroom, and the content only when the body has it (an absent content keeps the stored one), keeps the creation time, changes no other row and keeps the constraints |
| Persistence.Database.CreateQuestion | quiz/serializers.py:77-81 | creating a question in an existing quiz adds that one row and keeps the constraints |
| Persistence.Database.UpdateQuestion | quiz/views/question_views.py:209-226 | a question update replaces that question's description and quiz, changes no other row and keeps the constraints |
| Persistence.Database.CreateAnswer | quiz/serializers.py:112-117 | creating an answer to an existing question adds that one row and keeps the constraints |
| Persistence.Database.UpdateAnswer | quiz/views/answer_views.py:195-214 | an answer update replaces that answer's description, validity and question, changes no other row and keeps the constraints |
| Persistence.Database.SaveStudentAnswer | quiz/serializers.py:160-171 | a submitted answer is stored unless the student already submitted that answer, which is an error that leaves the tables as they were |
| Persistence.Database.SaveStudentQuiz | quiz/serializers.py:202-225 | a quiz without questions is refused, a second mark for the same student and quiz breaks the unique constraint and changes nothing, otherwise the mark computed from the correct answers is added; the constraints hold throughout |

## Left out

- URL routing, the admin site, forms and migrations: the views are modelled per endpoint, with the route's parameters as arguments.
- JWT authentication: a request's user is an optional user id, and a user id that is not in the users table counts as unauthenticated. Inactive users being refused by the token backend is not modelled.
- The staff-only user list views at account/views.py:55 and account/views.py:225, and the filters in account/filters.py, are not modelled.
- Profile pictures and multipart request bodies: request bodies are JSON values, and image fields are not modelled.
- AccountSerializers.Lookup: a body is a list of key and value pairs, and a lookup takes the first pair with the key. Python's `json.loads` keeps the last value of a repeated key, and the `invalid_fields` loop (account/serializers.py:42) runs over the dict's distinct keys, so the source lists a repeated undeclared key once where `UnknownKeys` lists it once per pair. Bodies with a repeated key are not modelled faithfully.
- Text: white space is the set Python's `str.strip` removes, but digits are the ASCII ones. The Unicode digits `int()` and the date pattern's `\d` also accept, `_` separators in `int()`, and the extended formats of `date.fromisoformat` are not modelled.
- Text.Lower: only ASCII capitals are lowered. `str.lower` also lowers other capitals, so `Managers.NormalizeEmail` leaves a non-ASCII capital in a domain as it is, where the source lowers it.
- Fields.TextOf: a JSON float is given as the text `str()` writes for it ("1.5", "5.0", "1e+20"). Reading the literal into a binary float and formatting it back (`1.50` written as "1.5", `1e3` as "1000.0") is not modelled.
- Fields.CharField: the surrogate-character validator of the framework is not modelled, because a Dafny string holds no lone surrogates.
- The UUID fields (`classroom_id`, and the `quiz_id` and `question_id` of a request's context) are taken as already parsed: a malformed UUID is not modelled.
- Only one message is kept when several fields or validators fail: the serializers report the first failing field (in `QuizSerializers.ValidateQuiz`, `QuizSerializers.ValidateQuestion`, `QuizSerializers.AnswerToInternal` and `QuizSerializers.ValidateAnswer`), where the framework gathers every field's errors. The account serializers keep the full dictionary.
- AccountSerializers.Validate: the name fields go through the corrected `NameInput`, which refuses a JSON number. As written, the source stores a numeric `user_first_name` or `user_last_name` as its text; `NameInputAsWritten` models that path, and the finding below states the difference.
- The upper bound of PositiveIntegerField is not modelled, because it depends on the database backend.
- Grading.Mark: the mark is computed exactly and rounded half to even. The source computes it through a float before making it a Decimal, and ties that the float cannot represent exactly may round the other way.
- The mark column's bound (five digits, two decimal places) is not modelled. Whether it is enforced depends on the database. Because StudentAnswer is unique only per (student, answer), a student may submit several valid answers to one question, so a mark of 100.00 or more is possible.
- Ordering: the place of NULLs in an ordering is a parameter, because it depends on the database. The order of ties is left to the database.
- The StudentProfileSerializer's Meta.model names TeacherProfile (account/serializers.py:87). The model follows the fields the serializer declares and writes to the student profile, as its `update` does.
- The comment detail view has no permission rule for POST and PATCH (post/views.py:351-368). The model assumes the framework default, which lets anyone through.
- The Classroom and StudentClassroom model classes and ClassroomSerializer are not part of this model. For the two classes, their CASCADE foreign keys and unique enrollment pair are assumed. The verdict of ClassroomSerializer on a body is a parameter (`body` of ClassroomViews.CreateClassroom and ClassroomViews.ClassroomDetail).
- The post serializers (post/serializers.py) are modelled only by the failures they cause and by the verdicts they give, as parameters. CoursePost and Comment are modelled from post/models.py.
- PostViews.CreatePost: the source as written never creates a post (a 500 for every authenticated POST whose fields pass, modelled by `CreatePostAsWritten`). The member follows the behaviour post/tests/test_views.py:21-27 expects, and the finding below states the difference.
- PostViews.CreateComment: the source as written fails on every authenticated POST and OPTIONS (modelled by `CreateCommentAsWritten`). The member follows the intended behaviour; the comment endpoints have no tests (post/tests/test_views_setup.py:25-27 leaves their URLs commented out).
- PostViews.ListComments: the source as written is a 500 for every post with a comment (modelled by `ListCommentsAsWritten`). The member follows the intended behaviour.
- PostViews.CommentDetail: the source as written is a 500 on every GET, HEAD and PUT that passes its checks (modelled by `CommentDetailAsWritten`). The member follows the intended behaviour, and `Writes.UpdateComment` and `Persistence.Database.UpdateComment` model the intended write, as `Writes.CreatePost`, `Writes.CreateComment` and their `Persistence.Database` methods do.
- Timestamps and new uuids are parameters. Each creation requires the new key to be unused. The `auto_now` columns `Quiz.last_updated` (quiz/models.py:15), `CoursePost.last_updated` (post/models.py:17) and `Comment.updated_at` (post/models.py:34) are not modelled: they only record when a row was last saved.
- Persistence.Database holds the tables as one value, and each write replaces it. Two views holding the same row object is not modelled.
- The Cascade delete functions have no rows of their own. Their properties are stated by the Cascade lemmas.
- Concurrency and transactions: requests are applied one at a time.

## Findings

| source | as written | input that shows it | evidently intended | confidence | as-written member | corrected member |
|---|---|---|---|---|---|---|
| quiz/views/quiz_views.py:189-205 | the quiz PUT checks that the requester owns the quiz's current classroom, then saves every submitted field, including `classroom_id` | teacher 1 owns classroom 1 and quiz 7; a PUT on quiz 7 with `classroom_id` 2, a classroom of teacher 2, is allowed | a quiz moves only into a classroom its owner also owns, otherwise 403 | not executed | QuizViews.QuizUpdateAsWrittenMovesIntoForeignClassroom | QuizViews.QuizUpdateStaysWithOwner |
| quiz/views/question_views.py:209-226 | the question PUT checks ownership of the question's classroom, and the serializer attaches the quiz named in the URL | teacher 1's question 5, put through the URL of quiz 8 in teacher 2's classroom, is allowed | the destination quiz must belong to a classroom the requester owns | not executed | QuestionViews.QuestionUpdateAsWrittenMovesIntoForeignQuiz | QuestionViews.QuestionUpdateStaysWithOwner |
| quiz/views/answer_views.py:195-214 | the answer PUT checks ownership of the answer's classroom, and the serializer attaches the question named in the URL | teacher 1's answer 3, put through the URL of question 6 in teacher 2's classroom, is allowed | the destination question must belong to a classroom the requester owns | not executed | AnswerViews.AnswerUpdateAsWrittenMovesIntoForeignQuestion | AnswerViews.AnswerUpdateStaysWithOwner |
| account/serializers.py:16-17,30-38 | the name validators test `isinstance(value, str)` after the CharField has already turned a number into its text | a body with `"user_first_name": 123` stores the first name "123" | a name that is not a JSON string is refused | not executed | AccountSerializers.NumberAcceptedAsName | AccountSerializers.NameInputCorrectsNumbers |
| post/serializers.py:9 | CoursePostSerializer declares `classroom` read-only, so `perform_create` reads `validated_data["classroom"]`, which is never there | the classroom's owner posts `{"title": "t", "content": "c"}`: KeyError, 500 | the post is created in the URL's classroom (201), and anyone but its owner is refused 403 | not executed | PostViews.CreatePostAsWritten | PostViews.CreatePost |
| post/serializers.py:17-24 | CommentSerializer declares `post` but leaves it out of Meta.fields, so the framework's assertion fails while `is_valid` builds the fields | a member of the classroom posts a comment, or sends OPTIONS: AssertionError, 500 | the comment is created, and OPTIONS describes the fields | not executed | PostViews.CreateCommentAsWritten | PostViews.CreateComment |
| post/serializers.py:17-24 | the comment list renders each comment through the same serializer | a member lists a post that has one comment: AssertionError, 500 | the post's comments are listed | not executed | PostViews.ListCommentsAsWritten | PostViews.ListComments |
| post/serializers.py:17-24 | the comment detail view renders (GET) and validates (PUT) through the same serializer | the author of a comment reads it: AssertionError, 500 | the comment is shown, and its author may update it with a valid body | not executed | PostViews.CommentDetailAsWritten | PostViews.CommentDetail |
