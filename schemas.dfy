/**
 * The admin portal's form validators: four declarative record schemas for a
 * level, a lesson, a vocabulary entry and a dialogue line. A numeric field is
 * coerced to a number first; the model receives the outcome of that coercion.
 * A string field must be present and, where required, non-empty. Every failed
 * check yields one error naming its field with the message written beside
 * that check; errors are listed in the schema's field order.
 */
module Schemas {
  import opened Wrappers

  /** A form field after numeric coercion: a number (not necessarily whole) or NaN. */
  datatype NumberInput = Parsed(value: real) | NotANumber

  datatype FieldError = FieldError(field: string, message: string)

  // Messages written beside the checks.
  const LevelMin := "Level must be at least 1"
  const LevelMax := "Level must be at most 6"
  const NameRequired := "Name is required"
  const LevelRequired := "Level is required"
  const TitleRequired := "Title is required"
  const OrderIndexMin := "Order index must be at least 1"
  const LessonRequired := "Lesson is required"
  const HanziRequired := "Hanzi is required"
  const PinyinRequired := "Pinyin is required"
  const MeaningRequired := "Meaning (VN) is required"
  const RoleNameRequired := "Role name is required"
  const ContentHanziRequired := "Content (Hanzi) is required"
  const ContentPinyinRequired := "Content (Pinyin) is required"

  // Messages the validation library supplies itself.
  /** A required field that is absent. */
  const Missing := "Required"
  /** A numeric field whose coercion produced NaN. */
  const NotNumber := "Expected number, received nan"

  /*** Field checks ***/

  /** The errors of a coerced number with an inclusive lower bound and an optional inclusive upper bound. */
  function NumberErrors(field: string, n: NumberInput, min: real, minMessage: string,
                        max: Option<real>, maxMessage: string): (errs: seq<FieldError>)
    ensures forall e :: e in errs ==> e.field == field
    ensures errs == [] <==> n.Parsed? && min <= n.value && (max.Some? ==> n.value <= max.value)
  {
    match n
    case NotANumber => [FieldError(field, NotNumber)]
    case Parsed(v) =>
      (if v < min then [FieldError(field, minMessage)] else [])
      + (if max.Some? && v > max.value then [FieldError(field, maxMessage)] else [])
  }

  /** The errors of a string field that must hold at least one character. */
  function RequiredErrors(field: string, s: Option<string>, message: string): (errs: seq<FieldError>)
    ensures forall e :: e in errs ==> e.field == field
    ensures errs == [] <==> s.Some? && |s.value| >= 1
  {
    match s
    case None => [FieldError(field, Missing)]
    case Some(v) => if |v| < 1 then [FieldError(field, message)] else []
  }

  /** Which message a string check reports: the library's for an absent value, its own for an empty one. */
  lemma RequiredErrorsMessages(field: string, s: Option<string>, message: string)
    requires message != Missing
    ensures FieldError(field, Missing) in RequiredErrors(field, s, message) <==> s.None?
    ensures FieldError(field, message) in RequiredErrors(field, s, message) <==> s == Some("")
  {
  }

  /** Which message a number check reports: NaN's, the lower bound's, or the upper bound's. */
  lemma NumberErrorsMessages(field: string, n: NumberInput, min: real, minMessage: string,
                             max: Option<real>, maxMessage: string)
    requires minMessage != NotNumber && maxMessage != NotNumber && minMessage != maxMessage
    ensures FieldError(field, NotNumber) in NumberErrors(field, n, min, minMessage, max, maxMessage) <==> n.NotANumber?
    ensures FieldError(field, minMessage) in NumberErrors(field, n, min, minMessage, max, maxMessage)
            <==> n.Parsed? && n.value < min
    ensures FieldError(field, maxMessage) in NumberErrors(field, n, min, minMessage, max, maxMessage)
            <==> n.Parsed? && max.Some? && n.value > max.value
  {
  }

  /** The messages a list reports on a string field whose own errors are exactly that field's check. */
  lemma StringFieldMessages(errs: seq<FieldError>, field: string, s: Option<string>, message: string)
    requires message != Missing
    requires ErrorsOn(errs, field) == RequiredErrors(field, s, message)
    ensures FieldError(field, Missing) in errs <==> s.None?
    ensures FieldError(field, message) in errs <==> s == Some("")
  {
    RequiredErrorsMessages(field, s, message);
    FieldMember(errs, FieldError(field, Missing), RequiredErrors(field, s, message));
    FieldMember(errs, FieldError(field, message), RequiredErrors(field, s, message));
  }

  /** The messages a list reports on a number field with a lower bound only, whose own errors are that field's check. */
  lemma NumberFieldMessages(errs: seq<FieldError>, field: string, n: NumberInput, min: real, minMessage: string)
    requires minMessage != NotNumber && minMessage != ""
    requires ErrorsOn(errs, field) == NumberErrors(field, n, min, minMessage, None, "")
    ensures FieldError(field, NotNumber) in errs <==> n.NotANumber?
    ensures FieldError(field, minMessage) in errs <==> n.Parsed? && n.value < min
  {
    NumberErrorsMessages(field, n, min, minMessage, None, "");
    FieldMember(errs, FieldError(field, NotNumber), NumberErrors(field, n, min, minMessage, None, ""));
    FieldMember(errs, FieldError(field, minMessage), NumberErrors(field, n, min, minMessage, None, ""));
  }

  /** The errors in `errs` that concern `field`, in order. */
  function ErrorsOn(errs: seq<FieldError>, field: string): (r: seq<FieldError>)
    ensures forall e :: e in r <==> e in errs && e.field == field
  {
    if errs == [] then []
    else (if errs[0].field == field then [errs[0]] else []) + ErrorsOn(errs[1..], field)
  }

  /** An error is in a list exactly when it is among that list's errors on its own field. */
  lemma FieldMember(errs: seq<FieldError>, e: FieldError, own: seq<FieldError>)
    requires ErrorsOn(errs, e.field) == own
    ensures e in errs <==> e in own
  {
  }

  lemma {:induction false} ErrorsOnConcat(a: seq<FieldError>, b: seq<FieldError>, field: string)
    ensures ErrorsOn(a + b, field) == ErrorsOn(a, field) + ErrorsOn(b, field)
  {
    if a != [] {
      var head := if a[0].field == field then [a[0]] else [];
      assert a + b != [] && (a + b)[0] == a[0];
      assert (a + b)[1..] == a[1..] + b;
      assert ErrorsOn(a + b, field) == head + ErrorsOn(a[1..] + b, field);
      assert ErrorsOn(a, field) == head + ErrorsOn(a[1..], field);
      ErrorsOnConcat(a[1..], b, field);
    } else {
      assert a + b == b;
    }
  }

  /** Filtering the errors of one field's check by some field. */
  lemma {:induction false} ErrorsOnCheck(errs: seq<FieldError>, own: string, field: string)
    requires forall e :: e in errs ==> e.field == own
    ensures ErrorsOn(errs, field) == if own == field then errs else []
  {
    if errs != [] {
      assert errs[0] in errs;
      ErrorsOnCheck(errs[1..], own, field);
      assert errs == [errs[0]] + errs[1..];
    }
  }

  /** Appending one field's errors to a list adds them to that field's filter only. */
  lemma ErrorsOnAppend(prefix: seq<FieldError>, errs: seq<FieldError>, own: string, field: string)
    requires forall e :: e in errs ==> e.field == own
    ensures ErrorsOn(prefix + errs, field) == ErrorsOn(prefix, field) + (if own == field then errs else [])
  {
    ErrorsOnConcat(prefix, errs, field);
    ErrorsOnCheck(errs, own, field);
  }

  /*** Level ***/

  datatype LevelInput = LevelInput(level: NumberInput, name: Option<string>, description: Option<string>)
  datatype LevelFormData = LevelFormData(level: real, name: string, description: Option<string>)

  function LevelErrors(input: LevelInput): (errs: seq<FieldError>)
    ensures errs == [] <==> LevelAcceptable(input)
  {
    NumberErrors("level", input.level, 1.0, LevelMin, Some(6.0), LevelMax)
    + RequiredErrors("name", input.name, NameRequired)
  }

  /** The level rule: the level lies in [1, 6] and the name is non-empty; the description is free. */
  ghost predicate LevelAcceptable(input: LevelInput)
  {
    input.level.Parsed? && 1.0 <= input.level.value <= 6.0
    && input.name.Some? && input.name.value != ""
  }

  function ValidateLevel(input: LevelInput): (r: Result<LevelFormData, seq<FieldError>>)
    ensures r.Success? <==> LevelAcceptable(input)
    ensures r.Success? ==> r.value == LevelFormData(input.level.value, input.name.value, input.description)
    ensures r.Failure? ==> r.error != [] && r.error == LevelErrors(input)
  {
    var errs := LevelErrors(input);
    if errs == [] then Success(LevelFormData(input.level.value, input.name.value, input.description))
    else Failure(errs)
  }

  /** Which errors a level input gets, message by message. */
  lemma LevelErrorCatalogue(input: LevelInput)
    ensures forall e :: e in LevelErrors(input) ==>
      e in [FieldError("level", NotNumber), FieldError("level", LevelMin), FieldError("level", LevelMax),
            FieldError("name", Missing), FieldError("name", NameRequired)]
  {
  }

  /** Each message a level can report appears exactly under the condition that triggers it. */
  lemma LevelErrorMessages(input: LevelInput)
    ensures FieldError("level", NotNumber) in LevelErrors(input) <==> input.level.NotANumber?
    ensures FieldError("level", LevelMin) in LevelErrors(input) <==> input.level.Parsed? && input.level.value < 1.0
    ensures FieldError("level", LevelMax) in LevelErrors(input) <==> input.level.Parsed? && input.level.value > 6.0
    ensures FieldError("name", Missing) in LevelErrors(input) <==> input.name.None?
    ensures FieldError("name", NameRequired) in LevelErrors(input) <==> input.name == Some("")
  {
  }

  /** The bounds of `level` are inclusive: 1 and 6 pass, 0 and 7 fail with their own message only. */
  lemma LevelBoundsInclusive(name: string, description: Option<string>)
    requires name != ""
    ensures ValidateLevel(LevelInput(Parsed(1.0), Some(name), description)).Success?
    ensures ValidateLevel(LevelInput(Parsed(6.0), Some(name), description)).Success?
    ensures ValidateLevel(LevelInput(Parsed(0.0), Some(name), description)) == Failure([FieldError("level", LevelMin)])
    ensures ValidateLevel(LevelInput(Parsed(7.0), Some(name), description)) == Failure([FieldError("level", LevelMax)])
  {
    assert RequiredErrors("name", Some(name), NameRequired) == [];
    assert NumberErrors("level", Parsed(0.0), 1.0, LevelMin, Some(6.0), LevelMax) == [FieldError("level", LevelMin)];
    assert NumberErrors("level", Parsed(7.0), 1.0, LevelMin, Some(6.0), LevelMax) == [FieldError("level", LevelMax)];
    assert LevelErrors(LevelInput(Parsed(7.0), Some(name), description)) == [FieldError("level", LevelMax)];
  }

  /** Whether and how each level field fails depends on that field alone. */
  lemma LevelFieldsIndependent(input: LevelInput)
    ensures ErrorsOn(LevelErrors(input), "level") == NumberErrors("level", input.level, 1.0, LevelMin, Some(6.0), LevelMax)
    ensures ErrorsOn(LevelErrors(input), "name") == RequiredErrors("name", input.name, NameRequired)
  {
    var a := NumberErrors("level", input.level, 1.0, LevelMin, Some(6.0), LevelMax);
    var b := RequiredErrors("name", input.name, NameRequired);
    assert ErrorsOn(a + b, "level") == a by {
      ErrorsOnCheck(a, "level", "level");
      ErrorsOnAppend(a, b, "name", "level");
    }
    assert ErrorsOn(a + b, "name") == b by {
      ErrorsOnCheck(a, "level", "name");
      ErrorsOnAppend(a, b, "name", "name");
    }
  }

  /*** Lesson ***/

  datatype LessonInput = LessonInput(levelId: NumberInput, title: Option<string>, orderIndex: NumberInput)
  datatype LessonFormData = LessonFormData(levelId: real, title: string, orderIndex: real)

  function LessonErrors(input: LessonInput): (errs: seq<FieldError>)
    ensures errs == [] <==> LessonAcceptable(input)
  {
    NumberErrors("levelId", input.levelId, 1.0, LevelRequired, None, "")
    + RequiredErrors("title", input.title, TitleRequired)
    + NumberErrors("orderIndex", input.orderIndex, 1.0, OrderIndexMin, None, "")
  }

  /** The lesson rule: a level id of at least 1, a non-empty title, an order index of at least 1. */
  ghost predicate LessonAcceptable(input: LessonInput)
  {
    input.levelId.Parsed? && input.levelId.value >= 1.0
    && input.title.Some? && input.title.value != ""
    && input.orderIndex.Parsed? && input.orderIndex.value >= 1.0
  }

  function ValidateLesson(input: LessonInput): (r: Result<LessonFormData, seq<FieldError>>)
    ensures r.Success? <==> LessonAcceptable(input)
    ensures r.Success? ==> r.value == LessonFormData(input.levelId.value, input.title.value, input.orderIndex.value)
    ensures r.Failure? ==> r.error != [] && r.error == LessonErrors(input)
  {
    var errs := LessonErrors(input);
    if errs == [] then Success(LessonFormData(input.levelId.value, input.title.value, input.orderIndex.value))
    else Failure(errs)
  }

  lemma LessonErrorCatalogue(input: LessonInput)
    ensures forall e :: e in LessonErrors(input) ==>
      e in [FieldError("levelId", NotNumber), FieldError("levelId", LevelRequired),
            FieldError("title", Missing), FieldError("title", TitleRequired),
            FieldError("orderIndex", NotNumber), FieldError("orderIndex", OrderIndexMin)]
  {
  }

  /** Each message a lesson can report appears exactly under the condition that triggers it. */
  lemma LessonErrorMessages(input: LessonInput)
    ensures FieldError("levelId", NotNumber) in LessonErrors(input) <==> input.levelId.NotANumber?
    ensures FieldError("levelId", LevelRequired) in LessonErrors(input) <==> input.levelId.Parsed? && input.levelId.value < 1.0
    ensures FieldError("title", Missing) in LessonErrors(input) <==> input.title.None?
    ensures FieldError("title", TitleRequired) in LessonErrors(input) <==> input.title == Some("")
    ensures FieldError("orderIndex", NotNumber) in LessonErrors(input) <==> input.orderIndex.NotANumber?
    ensures FieldError("orderIndex", OrderIndexMin) in LessonErrors(input) <==> input.orderIndex.Parsed? && input.orderIndex.value < 1.0
  {
    var errs := LessonErrors(input);
    LessonFieldsIndependent(input);
    NumberFieldMessages(errs, "levelId", input.levelId, 1.0, LevelRequired);
    StringFieldMessages(errs, "title", input.title, TitleRequired);
    NumberFieldMessages(errs, "orderIndex", input.orderIndex, 1.0, OrderIndexMin);
  }

  lemma LessonFieldsIndependent(input: LessonInput)
    ensures ErrorsOn(LessonErrors(input), "levelId") == NumberErrors("levelId", input.levelId, 1.0, LevelRequired, None, "")
    ensures ErrorsOn(LessonErrors(input), "title") == RequiredErrors("title", input.title, TitleRequired)
    ensures ErrorsOn(LessonErrors(input), "orderIndex") == NumberErrors("orderIndex", input.orderIndex, 1.0, OrderIndexMin, None, "")
  {
    var a := NumberErrors("levelId", input.levelId, 1.0, LevelRequired, None, "");
    var b := RequiredErrors("title", input.title, TitleRequired);
    var c := NumberErrors("orderIndex", input.orderIndex, 1.0, OrderIndexMin, None, "");
    assert ErrorsOn(a + b + c, "levelId") == a by {
      ErrorsOnCheck(a, "levelId", "levelId");
      ErrorsOnAppend(a, b, "title", "levelId");
      ErrorsOnAppend(a + b, c, "orderIndex", "levelId");
    }
    assert ErrorsOn(a + b + c, "title") == b by {
      ErrorsOnCheck(a, "levelId", "title");
      ErrorsOnAppend(a, b, "title", "title");
      ErrorsOnAppend(a + b, c, "orderIndex", "title");
    }
    assert ErrorsOn(a + b + c, "orderIndex") == c by {
      ErrorsOnCheck(a, "levelId", "orderIndex");
      ErrorsOnAppend(a, b, "title", "orderIndex");
      ErrorsOnAppend(a + b, c, "orderIndex", "orderIndex");
    }
  }

  /*** Vocabulary ***/

  datatype VocabularyInput = VocabularyInput(lessonId: NumberInput, hanzi: Option<string>,
                                             pinyin: Option<string>, meaningVn: Option<string>)
  datatype VocabularyFormData = VocabularyFormData(lessonId: real, hanzi: string, pinyin: string, meaningVn: string)

  function VocabularyErrors(input: VocabularyInput): (errs: seq<FieldError>)
    ensures errs == [] <==> VocabularyAcceptable(input)
  {
    NumberErrors("lessonId", input.lessonId, 1.0, LessonRequired, None, "")
    + RequiredErrors("hanzi", input.hanzi, HanziRequired)
    + RequiredErrors("pinyin", input.pinyin, PinyinRequired)
    + RequiredErrors("meaningVn", input.meaningVn, MeaningRequired)
  }

  /** The vocabulary rule: a lesson id of at least 1 and non-empty hanzi, pinyin and meaning. */
  ghost predicate VocabularyAcceptable(input: VocabularyInput)
  {
    input.lessonId.Parsed? && input.lessonId.value >= 1.0
    && input.hanzi.Some? && input.hanzi.value != ""
    && input.pinyin.Some? && input.pinyin.value != ""
    && input.meaningVn.Some? && input.meaningVn.value != ""
  }

  function ValidateVocabulary(input: VocabularyInput): (r: Result<VocabularyFormData, seq<FieldError>>)
    ensures r.Success? <==> VocabularyAcceptable(input)
    ensures r.Success? ==> r.value == VocabularyFormData(input.lessonId.value, input.hanzi.value,
                                                         input.pinyin.value, input.meaningVn.value)
    ensures r.Failure? ==> r.error != [] && r.error == VocabularyErrors(input)
  {
    var errs := VocabularyErrors(input);
    if errs == [] then
      Success(VocabularyFormData(input.lessonId.value, input.hanzi.value, input.pinyin.value, input.meaningVn.value))
    else Failure(errs)
  }

  lemma VocabularyErrorCatalogue(input: VocabularyInput)
    ensures forall e :: e in VocabularyErrors(input) ==>
      e in [FieldError("lessonId", NotNumber), FieldError("lessonId", LessonRequired),
            FieldError("hanzi", Missing), FieldError("hanzi", HanziRequired),
            FieldError("pinyin", Missing), FieldError("pinyin", PinyinRequired),
            FieldError("meaningVn", Missing), FieldError("meaningVn", MeaningRequired)]
  {
  }

  /** Each message a vocabulary entry can report appears exactly under the condition that triggers it. */
  lemma VocabularyErrorMessages(input: VocabularyInput)
    ensures FieldError("lessonId", NotNumber) in VocabularyErrors(input) <==> input.lessonId.NotANumber?
    ensures FieldError("lessonId", LessonRequired) in VocabularyErrors(input) <==> input.lessonId.Parsed? && input.lessonId.value < 1.0
    ensures FieldError("hanzi", Missing) in VocabularyErrors(input) <==> input.hanzi.None?
    ensures FieldError("hanzi", HanziRequired) in VocabularyErrors(input) <==> input.hanzi == Some("")
    ensures FieldError("pinyin", Missing) in VocabularyErrors(input) <==> input.pinyin.None?
    ensures FieldError("pinyin", PinyinRequired) in VocabularyErrors(input) <==> input.pinyin == Some("")
    ensures FieldError("meaningVn", Missing) in VocabularyErrors(input) <==> input.meaningVn.None?
    ensures FieldError("meaningVn", MeaningRequired) in VocabularyErrors(input) <==> input.meaningVn == Some("")
  {
    var errs := VocabularyErrors(input);
    VocabularyFieldsIndependent(input);
    NumberFieldMessages(errs, "lessonId", input.lessonId, 1.0, LessonRequired);
    StringFieldMessages(errs, "hanzi", input.hanzi, HanziRequired);
    StringFieldMessages(errs, "pinyin", input.pinyin, PinyinRequired);
    StringFieldMessages(errs, "meaningVn", input.meaningVn, MeaningRequired);
  }

  lemma VocabularyFieldsIndependent(input: VocabularyInput)
    ensures ErrorsOn(VocabularyErrors(input), "lessonId") == NumberErrors("lessonId", input.lessonId, 1.0, LessonRequired, None, "")
    ensures ErrorsOn(VocabularyErrors(input), "hanzi") == RequiredErrors("hanzi", input.hanzi, HanziRequired)
    ensures ErrorsOn(VocabularyErrors(input), "pinyin") == RequiredErrors("pinyin", input.pinyin, PinyinRequired)
    ensures ErrorsOn(VocabularyErrors(input), "meaningVn") == RequiredErrors("meaningVn", input.meaningVn, MeaningRequired)
  {
    var a := NumberErrors("lessonId", input.lessonId, 1.0, LessonRequired, None, "");
    var b := RequiredErrors("hanzi", input.hanzi, HanziRequired);
    var c := RequiredErrors("pinyin", input.pinyin, PinyinRequired);
    var d := RequiredErrors("meaningVn", input.meaningVn, MeaningRequired);
    assert ErrorsOn(a + b + c + d, "lessonId") == a by {
      ErrorsOnCheck(a, "lessonId", "lessonId");
      ErrorsOnAppend(a, b, "hanzi", "lessonId");
      ErrorsOnAppend(a + b, c, "pinyin", "lessonId");
      ErrorsOnAppend(a + b + c, d, "meaningVn", "lessonId");
    }
    assert ErrorsOn(a + b + c + d, "hanzi") == b by {
      ErrorsOnCheck(a, "lessonId", "hanzi");
      ErrorsOnAppend(a, b, "hanzi", "hanzi");
      ErrorsOnAppend(a + b, c, "pinyin", "hanzi");
      ErrorsOnAppend(a + b + c, d, "meaningVn", "hanzi");
    }
    assert ErrorsOn(a + b + c + d, "pinyin") == c by {
      ErrorsOnCheck(a, "lessonId", "pinyin");
      ErrorsOnAppend(a, b, "hanzi", "pinyin");
      ErrorsOnAppend(a + b, c, "pinyin", "pinyin");
      ErrorsOnAppend(a + b + c, d, "meaningVn", "pinyin");
    }
    assert ErrorsOn(a + b + c + d, "meaningVn") == d by {
      ErrorsOnCheck(a, "lessonId", "meaningVn");
      ErrorsOnAppend(a, b, "hanzi", "meaningVn");
      ErrorsOnAppend(a + b, c, "pinyin", "meaningVn");
      ErrorsOnAppend(a + b + c, d, "meaningVn", "meaningVn");
    }
  }

  /*** Dialogue line ***/

  datatype DialogueLineInput = DialogueLineInput(lessonId: NumberInput, roleName: Option<string>,
                                                 contentHanzi: Option<string>, contentPinyin: Option<string>,
                                                 meaningVn: Option<string>, orderIndex: NumberInput)
  datatype DialogueLineFormData = DialogueLineFormData(lessonId: real, roleName: string, contentHanzi: string,
                                                       contentPinyin: string, meaningVn: string, orderIndex: real)

  function DialogueLineErrors(input: DialogueLineInput): (errs: seq<FieldError>)
    ensures errs == [] <==> DialogueLineAcceptable(input)
  {
    NumberErrors("lessonId", input.lessonId, 1.0, LessonRequired, None, "")
    + RequiredErrors("roleName", input.roleName, RoleNameRequired)
    + RequiredErrors("contentHanzi", input.contentHanzi, ContentHanziRequired)
    + RequiredErrors("contentPinyin", input.contentPinyin, ContentPinyinRequired)
    + RequiredErrors("meaningVn", input.meaningVn, MeaningRequired)
    + NumberErrors("orderIndex", input.orderIndex, 1.0, OrderIndexMin, None, "")
  }

  /** The dialogue-line rule: lesson id and order index at least 1, four non-empty texts. */
  ghost predicate DialogueLineAcceptable(input: DialogueLineInput)
  {
    input.lessonId.Parsed? && input.lessonId.value >= 1.0
    && input.roleName.Some? && input.roleName.value != ""
    && input.contentHanzi.Some? && input.contentHanzi.value != ""
    && input.contentPinyin.Some? && input.contentPinyin.value != ""
    && input.meaningVn.Some? && input.meaningVn.value != ""
    && input.orderIndex.Parsed? && input.orderIndex.value >= 1.0
  }

  function ValidateDialogueLine(input: DialogueLineInput): (r: Result<DialogueLineFormData, seq<FieldError>>)
    ensures r.Success? <==> DialogueLineAcceptable(input)
    ensures r.Success? ==> r.value == DialogueLineFormData(input.lessonId.value, input.roleName.value,
                                                           input.contentHanzi.value, input.contentPinyin.value,
                                                           input.meaningVn.value, input.orderIndex.value)
    ensures r.Failure? ==> r.error != [] && r.error == DialogueLineErrors(input)
  {
    var errs := DialogueLineErrors(input);
    if errs == [] then
      Success(DialogueLineFormData(input.lessonId.value, input.roleName.value, input.contentHanzi.value,
                                   input.contentPinyin.value, input.meaningVn.value, input.orderIndex.value))
    else Failure(errs)
  }

  lemma DialogueLineErrorCatalogue(input: DialogueLineInput)
    ensures forall e :: e in DialogueLineErrors(input) ==>
      e in [FieldError("lessonId", NotNumber), FieldError("lessonId", LessonRequired),
            FieldError("roleName", Missing), FieldError("roleName", RoleNameRequired),
            FieldError("contentHanzi", Missing), FieldError("contentHanzi", ContentHanziRequired),
            FieldError("contentPinyin", Missing), FieldError("contentPinyin", ContentPinyinRequired),
            FieldError("meaningVn", Missing), FieldError("meaningVn", MeaningRequired),
            FieldError("orderIndex", NotNumber), FieldError("orderIndex", OrderIndexMin)]
  {
  }

  /** Each message a dialogue line can report appears exactly under the condition that triggers it. */
  lemma DialogueLineErrorMessages(input: DialogueLineInput)
    ensures FieldError("lessonId", NotNumber) in DialogueLineErrors(input) <==> input.lessonId.NotANumber?
    ensures FieldError("lessonId", LessonRequired) in DialogueLineErrors(input) <==> input.lessonId.Parsed? && input.lessonId.value < 1.0
    ensures FieldError("roleName", Missing) in DialogueLineErrors(input) <==> input.roleName.None?
    ensures FieldError("roleName", RoleNameRequired) in DialogueLineErrors(input) <==> input.roleName == Some("")
    ensures FieldError("contentHanzi", Missing) in DialogueLineErrors(input) <==> input.contentHanzi.None?
    ensures FieldError("contentHanzi", ContentHanziRequired) in DialogueLineErrors(input) <==> input.contentHanzi == Some("")
    ensures FieldError("contentPinyin", Missing) in DialogueLineErrors(input) <==> input.contentPinyin.None?
    ensures FieldError("contentPinyin", ContentPinyinRequired) in DialogueLineErrors(input) <==> input.contentPinyin == Some("")
    ensures FieldError("meaningVn", Missing) in DialogueLineErrors(input) <==> input.meaningVn.None?
    ensures FieldError("meaningVn", MeaningRequired) in DialogueLineErrors(input) <==> input.meaningVn == Some("")
    ensures FieldError("orderIndex", NotNumber) in DialogueLineErrors(input) <==> input.orderIndex.NotANumber?
    ensures FieldError("orderIndex", OrderIndexMin) in DialogueLineErrors(input) <==> input.orderIndex.Parsed? && input.orderIndex.value < 1.0
  {
    var errs := DialogueLineErrors(input);
    assert (FieldError("lessonId", NotNumber) in errs <==> input.lessonId.NotANumber?)
      && (FieldError("lessonId", LessonRequired) in errs <==> input.lessonId.Parsed? && input.lessonId.value < 1.0) by {
      DialogueLineLessonIdErrors(input);
      NumberFieldMessages(errs, "lessonId", input.lessonId, 1.0, LessonRequired);
    }
    assert (FieldError("roleName", Missing) in errs <==> input.roleName.None?)
      && (FieldError("roleName", RoleNameRequired) in errs <==> input.roleName == Some("")) by {
      DialogueLineRoleNameErrors(input);
      StringFieldMessages(errs, "roleName", input.roleName, RoleNameRequired);
    }
    assert (FieldError("contentHanzi", Missing) in errs <==> input.contentHanzi.None?)
      && (FieldError("contentHanzi", ContentHanziRequired) in errs <==> input.contentHanzi == Some("")) by {
      DialogueLineContentHanziErrors(input);
      StringFieldMessages(errs, "contentHanzi", input.contentHanzi, ContentHanziRequired);
    }
    assert (FieldError("contentPinyin", Missing) in errs <==> input.contentPinyin.None?)
      && (FieldError("contentPinyin", ContentPinyinRequired) in errs <==> input.contentPinyin == Some("")) by {
      DialogueLineContentPinyinErrors(input);
      StringFieldMessages(errs, "contentPinyin", input.contentPinyin, ContentPinyinRequired);
    }
    assert (FieldError("meaningVn", Missing) in errs <==> input.meaningVn.None?)
      && (FieldError("meaningVn", MeaningRequired) in errs <==> input.meaningVn == Some("")) by {
      DialogueLineMeaningVnErrors(input);
      StringFieldMessages(errs, "meaningVn", input.meaningVn, MeaningRequired);
    }
    assert (FieldError("orderIndex", NotNumber) in errs <==> input.orderIndex.NotANumber?)
      && (FieldError("orderIndex", OrderIndexMin) in errs <==> input.orderIndex.Parsed? && input.orderIndex.value < 1.0) by {
      DialogueLineOrderIndexErrors(input);
      NumberFieldMessages(errs, "orderIndex", input.orderIndex, 1.0, OrderIndexMin);
    }
  }

  lemma DialogueLineFieldsIndependent(input: DialogueLineInput)
    ensures ErrorsOn(DialogueLineErrors(input), "lessonId") == NumberErrors("lessonId", input.lessonId, 1.0, LessonRequired, None, "")
    ensures ErrorsOn(DialogueLineErrors(input), "roleName") == RequiredErrors("roleName", input.roleName, RoleNameRequired)
    ensures ErrorsOn(DialogueLineErrors(input), "contentHanzi") == RequiredErrors("contentHanzi", input.contentHanzi, ContentHanziRequired)
    ensures ErrorsOn(DialogueLineErrors(input), "contentPinyin") == RequiredErrors("contentPinyin", input.contentPinyin, ContentPinyinRequired)
    ensures ErrorsOn(DialogueLineErrors(input), "meaningVn") == RequiredErrors("meaningVn", input.meaningVn, MeaningRequired)
    ensures ErrorsOn(DialogueLineErrors(input), "orderIndex") == NumberErrors("orderIndex", input.orderIndex, 1.0, OrderIndexMin, None, "")
  {
    DialogueLineLessonIdErrors(input);
    DialogueLineRoleNameErrors(input);
    DialogueLineContentHanziErrors(input);
    DialogueLineContentPinyinErrors(input);
    DialogueLineMeaningVnErrors(input);
    DialogueLineOrderIndexErrors(input);
  }

  /** The errors a dialogue line reports on `lessonId` are that field's own check. */
  lemma DialogueLineLessonIdErrors(input: DialogueLineInput)
    ensures ErrorsOn(DialogueLineErrors(input), "lessonId") == NumberErrors("lessonId", input.lessonId, 1.0, LessonRequired, None, "")
  {
    var a := NumberErrors("lessonId", input.lessonId, 1.0, LessonRequired, None, "");
    var b := RequiredErrors("roleName", input.roleName, RoleNameRequired);
    var c := RequiredErrors("contentHanzi", input.contentHanzi, ContentHanziRequired);
    var d := RequiredErrors("contentPinyin", input.contentPinyin, ContentPinyinRequired);
    var e := RequiredErrors("meaningVn", input.meaningVn, MeaningRequired);
    var g := NumberErrors("orderIndex", input.orderIndex, 1.0, OrderIndexMin, None, "");
    ErrorsOnSix(a, b, c, d, e, g, "lessonId", "roleName", "contentHanzi", "contentPinyin", "meaningVn", "orderIndex", "lessonId");
  }

  /** The errors a dialogue line reports on `roleName` are that field's own check. */
  lemma DialogueLineRoleNameErrors(input: DialogueLineInput)
    ensures ErrorsOn(DialogueLineErrors(input), "roleName") == RequiredErrors("roleName", input.roleName, RoleNameRequired)
  {
    var a := NumberErrors("lessonId", input.lessonId, 1.0, LessonRequired, None, "");
    var b := RequiredErrors("roleName", input.roleName, RoleNameRequired);
    var c := RequiredErrors("contentHanzi", input.contentHanzi, ContentHanziRequired);
    var d := RequiredErrors("contentPinyin", input.contentPinyin, ContentPinyinRequired);
    var e := RequiredErrors("meaningVn", input.meaningVn, MeaningRequired);
    var g := NumberErrors("orderIndex", input.orderIndex, 1.0, OrderIndexMin, None, "");
    ErrorsOnSix(a, b, c, d, e, g, "lessonId", "roleName", "contentHanzi", "contentPinyin", "meaningVn", "orderIndex", "roleName");
  }

  /** The errors a dialogue line reports on `contentHanzi` are that field's own check. */
  lemma DialogueLineContentHanziErrors(input: DialogueLineInput)
    ensures ErrorsOn(DialogueLineErrors(input), "contentHanzi") == RequiredErrors("contentHanzi", input.contentHanzi, ContentHanziRequired)
  {
    var a := NumberErrors("lessonId", input.lessonId, 1.0, LessonRequired, None, "");
    var b := RequiredErrors("roleName", input.roleName, RoleNameRequired);
    var c := RequiredErrors("contentHanzi", input.contentHanzi, ContentHanziRequired);
    var d := RequiredErrors("contentPinyin", input.contentPinyin, ContentPinyinRequired);
    var e := RequiredErrors("meaningVn", input.meaningVn, MeaningRequired);
    var g := NumberErrors("orderIndex", input.orderIndex, 1.0, OrderIndexMin, None, "");
    ErrorsOnSix(a, b, c, d, e, g, "lessonId", "roleName", "contentHanzi", "contentPinyin", "meaningVn", "orderIndex", "contentHanzi");
  }

  /** The errors a dialogue line reports on `contentPinyin` are that field's own check. */
  lemma DialogueLineContentPinyinErrors(input: DialogueLineInput)
    ensures ErrorsOn(DialogueLineErrors(input), "contentPinyin") == RequiredErrors("contentPinyin", input.contentPinyin, ContentPinyinRequired)
  {
    var a := NumberErrors("lessonId", input.lessonId, 1.0, LessonRequired, None, "");
    var b := RequiredErrors("roleName", input.roleName, RoleNameRequired);
    var c := RequiredErrors("contentHanzi", input.contentHanzi, ContentHanziRequired);
    var d := RequiredErrors("contentPinyin", input.contentPinyin, ContentPinyinRequired);
    var e := RequiredErrors("meaningVn", input.meaningVn, MeaningRequired);
    var g := NumberErrors("orderIndex", input.orderIndex, 1.0, OrderIndexMin, None, "");
    ErrorsOnSix(a, b, c, d, e, g, "lessonId", "roleName", "contentHanzi", "contentPinyin", "meaningVn", "orderIndex", "contentPinyin");
  }

  /** The errors a dialogue line reports on `meaningVn` are that field's own check. */
  lemma DialogueLineMeaningVnErrors(input: DialogueLineInput)
    ensures ErrorsOn(DialogueLineErrors(input), "meaningVn") == RequiredErrors("meaningVn", input.meaningVn, MeaningRequired)
  {
    var a := NumberErrors("lessonId", input.lessonId, 1.0, LessonRequired, None, "");
    var b := RequiredErrors("roleName", input.roleName, RoleNameRequired);
    var c := RequiredErrors("contentHanzi", input.contentHanzi, ContentHanziRequired);
    var d := RequiredErrors("contentPinyin", input.contentPinyin, ContentPinyinRequired);
    var e := RequiredErrors("meaningVn", input.meaningVn, MeaningRequired);
    var g := NumberErrors("orderIndex", input.orderIndex, 1.0, OrderIndexMin, None, "");
    ErrorsOnSix(a, b, c, d, e, g, "lessonId", "roleName", "contentHanzi", "contentPinyin", "meaningVn", "orderIndex", "meaningVn");
  }

  /** The errors a dialogue line reports on `orderIndex` are that field's own check. */
  lemma DialogueLineOrderIndexErrors(input: DialogueLineInput)
    ensures ErrorsOn(DialogueLineErrors(input), "orderIndex") == NumberErrors("orderIndex", input.orderIndex, 1.0, OrderIndexMin, None, "")
  {
    var a := NumberErrors("lessonId", input.lessonId, 1.0, LessonRequired, None, "");
    var b := RequiredErrors("roleName", input.roleName, RoleNameRequired);
    var c := RequiredErrors("contentHanzi", input.contentHanzi, ContentHanziRequired);
    var d := RequiredErrors("contentPinyin", input.contentPinyin, ContentPinyinRequired);
    var e := RequiredErrors("meaningVn", input.meaningVn, MeaningRequired);
    var g := NumberErrors("orderIndex", input.orderIndex, 1.0, OrderIndexMin, None, "");
    ErrorsOnSix(a, b, c, d, e, g, "lessonId", "roleName", "contentHanzi", "contentPinyin", "meaningVn", "orderIndex", "orderIndex");
  }

  /** Filtering six consecutive single-field error lists by one field. */
  lemma ErrorsOnSix(a: seq<FieldError>, b: seq<FieldError>, c: seq<FieldError>,
                    d: seq<FieldError>, e: seq<FieldError>, g: seq<FieldError>,
                    fa: string, fb: string, fc: string, fd: string, fe: string, fg: string, field: string)
    requires forall x :: x in a ==> x.field == fa
    requires forall x :: x in b ==> x.field == fb
    requires forall x :: x in c ==> x.field == fc
    requires forall x :: x in d ==> x.field == fd
    requires forall x :: x in e ==> x.field == fe
    requires forall x :: x in g ==> x.field == fg
    ensures ErrorsOn(a + b + c + d + e + g, field)
            == (if fa == field then a else []) + (if fb == field then b else [])
             + (if fc == field then c else []) + (if fd == field then d else [])
             + (if fe == field then e else []) + (if fg == field then g else [])
  {
    ErrorsOnCheck(a, fa, field);
    ErrorsOnAppend(a, b, fb, field);
    ErrorsOnAppend(a + b, c, fc, field);
    ErrorsOnAppend(a + b + c, d, fd, field);
    ErrorsOnAppend(a + b + c + d, e, fe, field);
    ErrorsOnAppend(a + b + c + d + e, g, fg, field);
  }
}
