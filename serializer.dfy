/** The REST path's validation: the field-level validators that
    `ModelSerializer` derives from the model, then
    `TaskSerializer.validate`, an ordered chain of guards over the submitted
    task data in which the first failing guard raises an error keyed by a
    field name. */
module Serializer {
  import opened Basics
  import Models

  /** The submitted data after field-level parsing. An absent kind flag is
      `None`; an absent or null optional field is `None`; texts are trimmed
      of surrounding white space, as DRF's character fields do. */
  datatype TaskData = TaskData(
    title: string,
    description: string,
    completed: bool,
    user: nat,
    daily: Option<bool>,
    weekly: Option<bool>,
    monthly: Option<bool>,
    executionDay: Option<string>,
    executionTime: Option<Time>,
    executionDate: Option<int>)

  /** The single error `validate` can raise. Each carries the key and the
      message of the error dictionary, given by `Key` and `Message`. */
  datatype ValidationError =
    | TypeError
    | BlankTime
    | BlankDay
    | BlankDate
    | UnknownDay
    | DailyField
    | WeeklyField
    | MonthlyField

  /** Either the validated data or the one error raised. */
  datatype Outcome = Valid(data: TaskData) | Invalid(error: ValidationError)

  /** The key of the error dictionary. */
  function Key(e: ValidationError): string {
    match e
    case TypeError => "type error"
    case BlankTime => "execution_time"
    case BlankDay => "execution_day"
    case BlankDate => "execution_date"
    case UnknownDay => "execution_day"
    case DailyField => "dailytask"
    case WeeklyField => "weeklytask"
    case MonthlyField => "monthlytask"
  }

  /** The message of the error dictionary. */
  function Message(e: ValidationError): string {
    match e
    case TypeError => "Please select one and only one of 'Daily', 'Weekly', or 'Monthly'."
    case BlankTime => "This field may not be blank."
    case BlankDay => "This field may not be blank."
    case BlankDate => "This field may not be blank."
    case UnknownDay => "Invalid value. Choose from: Sunday, Monday, Tuesday, Wednesday, Thursday, Friday, Saturday."
    case DailyField => "Invalid field for daily task."
    case WeeklyField => "Invalid field for weekly task."
    case MonthlyField => "Invalid field for monthly task."
  }

  /** `data.get(flag, False)`: an absent flag reads as false. */
  predicate Flag(f: Option<bool>) {
    f == Some(true)
  }

  predicate TimeGiven(t: Option<Time>) {
    t.Some?
  }

  function B2I(b: bool): nat {
    if b then 1 else 0
  }

  /** `sum([daily, weekly, monthly])`. */
  function KindCount(d: TaskData): nat {
    B2I(Flag(d.daily)) + B2I(Flag(d.weekly)) + B2I(Flag(d.monthly))
  }

  /** Exactly one of the three flags is set. */
  predicate OneKind(d: TaskData) {
    ExactlyOneOf(Flag(d.daily), Flag(d.weekly), Flag(d.monthly))
  }

  /** The guard `sum([daily, weekly, monthly]) != 1` is the negation of
      `OneKind`. */
  lemma OneKindIsCountOne(d: TaskData)
    ensures OneKind(d) <==> KindCount(d) == 1
  {
  }

  /** The accepted shapes, stated declaratively and independently of the
      order of the checks: exactly one kind, a time, the kind's own field,
      a recognised day name if a day is given, and no other kind's field. */
  predicate WellFormed(d: TaskData) {
    var daily, weekly, monthly := Flag(d.daily), Flag(d.weekly), Flag(d.monthly);
    && ExactlyOneOf(daily, weekly, monthly)
    && TimeGiven(d.executionTime)
    && (weekly ==> DayGiven(d.executionDay))
    && (monthly ==> DateGiven(d.executionDate))
    && (DayGiven(d.executionDay) ==> d.executionDay.value in DayNames)
    && (daily ==> !DayGiven(d.executionDay) && !DateGiven(d.executionDate))
    && (weekly ==> !DateGiven(d.executionDate))
    && (monthly ==> !DayGiven(d.executionDay))
  }

  /** `TaskSerializer.validate`: the guards in source order; the first that
      fails decides the error. On success the data is returned as given. */
  function Validate(d: TaskData): (r: Outcome)
    ensures r.Valid? <==> WellFormed(d)
    ensures r.Valid? ==> r.data == d
  {
    var daily, weekly, monthly := Flag(d.daily), Flag(d.weekly), Flag(d.monthly);
    if !OneKind(d) then Invalid(TypeError)
    else if !TimeGiven(d.executionTime) then Invalid(BlankTime)
    else if weekly && !DayGiven(d.executionDay) then Invalid(BlankDay)
    else if monthly && !DateGiven(d.executionDate) then Invalid(BlankDate)
    else if DayGiven(d.executionDay) && d.executionDay.value !in DayNames then Invalid(UnknownDay)
    else if daily && (DayGiven(d.executionDay) || DateGiven(d.executionDate)) then Invalid(DailyField)
    else if weekly && DateGiven(d.executionDate) then Invalid(WeeklyField)
    else if monthly && DayGiven(d.executionDay) then Invalid(MonthlyField)
    else Valid(d)
  }

  // ---------------------------------------------------------------- is_valid

  /** The model fields whose own validators `is_valid()` runs before
      `validate`: `ModelSerializer` builds them from the model's fields. */
  datatype ModelField = TitleField | DescriptionField | DayField | DateField

  /** The field-level errors, in field order: the title and the description
      may not be blank, the title has `max_length=255`, the day
      `max_length=9`, and the date `MinValueValidator(1)` and
      `MaxValueValidator(31)`. */
  function FieldErrors(d: TaskData): (r: seq<ModelField>)
    ensures TitleField in r <==> d.title == "" || |d.title| > Models.TitleMaxLength
    ensures DescriptionField in r <==> d.description == ""
    ensures DayField in r <==> !Models.DayInDomain(d.executionDay)
    ensures DateField in r <==> !Models.DateInDomain(d.executionDate)
  {
    (if d.title == "" || |d.title| > Models.TitleMaxLength then [TitleField] else [])
    + (if d.description == "" then [DescriptionField] else [])
    + (if !Models.DayInDomain(d.executionDay) then [DayField] else [])
    + (if !Models.DateInDomain(d.executionDate) then [DateField] else [])
  }

  /** The field domains of a submitted task, stated apart from the list of
      errors. */
  predicate FieldValid(d: TaskData) {
    && d.title != "" && |d.title| <= Models.TitleMaxLength
    && d.description != ""
    && Models.DayInDomain(d.executionDay)
    && Models.DateInDomain(d.executionDate)
  }

  /** What `serializer.is_valid()` decides: the data is saved, the
      field-level validators refuse some fields (and `validate` is not run),
      or `validate` raises its one error. */
  datatype Submission = Accepted(data: TaskData) | FieldsRefused(fields: seq<ModelField>) | Refused(error: ValidationError)

  /** `serializer.is_valid()`: the field-level validators first, then
      `validate` on data that passed them. */
  function IsValid(d: TaskData): (r: Submission)
    ensures r.FieldsRefused? <==> !FieldValid(d)
    ensures r.FieldsRefused? ==> r.fields == FieldErrors(d) && r.fields != []
    ensures r.Accepted? <==> FieldValid(d) && WellFormed(d)
    ensures r.Accepted? ==> r.data == d
    ensures r.Refused? <==> FieldValid(d) && Validate(d).Invalid?
    ensures r.Refused? ==> Validate(d) == Invalid(r.error)
  {
    var errors := FieldErrors(d);
    if errors != [] then FieldsRefused(errors)
    else
      assert FieldValid(d);
      match Validate(d)
      case Valid(data) => Accepted(data)
      case Invalid(e) => Refused(e)
  }

  /** `validate` alone accepts a monthly request with date 45 and a daily
      request with date 0 (0 is falsy there), but the field validators
      refuse both dates before `validate` runs. */
  lemma FieldChecksFirst()
    ensures Validate(Sample(false, false, true, None, Some(Time(20, 20)), Some(45))).Valid?
    ensures IsValid(Sample(false, false, true, None, Some(Time(20, 20)), Some(45))) == FieldsRefused([DateField])
    ensures Validate(Sample(true, false, false, None, Some(Time(20, 20)), Some(0))).Valid?
    ensures IsValid(Sample(true, false, false, None, Some(Time(20, 20)), Some(0))) == FieldsRefused([DateField])
  {
    assert FieldErrors(Sample(false, false, true, None, Some(Time(20, 20)), Some(45))) == [DateField];
    assert FieldErrors(Sample(true, false, false, None, Some(Time(20, 20)), Some(0))) == [DateField];
  }

  /** A blank title is refused by the field validators whatever the
      recurrence fields hold. */
  lemma BlankTitleRefused(d: TaskData)
    requires d.title == ""
    ensures IsValid(d).FieldsRefused? && TitleField in IsValid(d).fields
  {
  }

  /** The errors carry the seven keys the tests assert. */
  lemma ErrorKeys(e: ValidationError)
    ensures Key(e) in ["type error", "execution_time", "execution_day", "execution_date",
                       "dailytask", "weeklytask", "monthlytask"]
  {
  }

  /** Only the day has two messages: blank, and not a day name. */
  lemma DayKey(e: ValidationError)
    ensures Key(e) == "execution_day" <==> e == BlankDay || e == UnknownDay
  {
  }

  /** The kind-count check comes first: unless exactly one flag is set, the
      only error is "type error", whatever else is wrong. */
  lemma KindCountFirst(d: TaskData)
    ensures Validate(d) == Invalid(TypeError) <==> KindCount(d) != 1
  {
  }

  /** With one kind selected, a missing time is reported under
      "execution_time", for every kind. */
  lemma MissingTime(d: TaskData)
    requires OneKind(d)
    ensures d.executionTime.None? <==> Validate(d) == Invalid(BlankTime)
  {
  }

  /** A weekly task without a day, or a monthly task without a date, is
      reported under that field. */
  lemma MissingKindField(d: TaskData)
    requires OneKind(d) && TimeGiven(d.executionTime)
    ensures Flag(d.weekly) && !DayGiven(d.executionDay) ==> Validate(d) == Invalid(BlankDay)
    ensures Flag(d.monthly) && !DateGiven(d.executionDate) ==> Validate(d) == Invalid(BlankDate)
  {
  }

  /** A given day that is not one of the seven names (compared exactly, so
      "monday" is refused) is refused whatever the kind, before the
      foreign-field checks. */
  lemma UnknownDayRefused(d: TaskData)
    requires OneKind(d) && TimeGiven(d.executionTime)
    requires DayGiven(d.executionDay) && d.executionDay.value !in DayNames
    requires Flag(d.monthly) ==> DateGiven(d.executionDate)
    ensures Validate(d) == Invalid(UnknownDay)
  {
  }

  /** The foreign-field rules, once the earlier checks pass: a daily task may
      carry neither a day nor a date, a weekly task no date, a monthly task
      no day. */
  lemma ForeignFields(d: TaskData)
    requires OneKind(d) && TimeGiven(d.executionTime)
    requires Flag(d.weekly) ==> DayGiven(d.executionDay)
    requires Flag(d.monthly) ==> DateGiven(d.executionDate)
    requires DayGiven(d.executionDay) ==> d.executionDay.value in DayNames
    ensures Flag(d.daily) ==> (Validate(d) == Invalid(DailyField)
                               <==> DayGiven(d.executionDay) || DateGiven(d.executionDate))
    ensures Flag(d.weekly) ==> (Validate(d) == Invalid(WeeklyField)
                                <==> DateGiven(d.executionDate))
    ensures Flag(d.monthly) ==> (Validate(d) == Invalid(MonthlyField)
                                 <==> DayGiven(d.executionDay))
  {
  }

  function Sample(daily: bool, weekly: bool, monthly: bool, day: Option<string>, time: Option<Time>, date: Option<int>): TaskData {
    TaskData("title", "description", false, 1, Some(daily), Some(weekly), Some(monthly), day, time, date)
  }

  /** The API tests' wrong-kind requests: all three flags set with foreign
      fields, and no flag set, both give only "type error". */
  lemma TypeErrorCases()
    ensures Validate(Sample(true, true, true, Some("Monday"), Some(Time(20, 20)), Some(31)))
            == Invalid(TypeError)
    ensures Validate(Sample(false, false, false, Some("Monday"), Some(Time(20, 20)), Some(31)))
            == Invalid(TypeError)
  {
    assert Validate(Sample(true, true, true, Some("Monday"), Some(Time(20, 20)), Some(31)))
            == Invalid(TypeError);
    assert Validate(Sample(false, false, false, Some("Monday"), Some(Time(20, 20)), Some(31)))
            == Invalid(TypeError);
  }

  /** The API tests' requests with a missing field. */
  lemma MissingFieldCases()
    ensures Validate(Sample(true, false, false, None, None, None)) == Invalid(BlankTime)
    ensures Validate(Sample(false, true, false, None, Some(Time(20, 20)), None)) == Invalid(BlankDay)
    ensures Validate(Sample(false, false, true, None, Some(Time(20, 20)), None)) == Invalid(BlankDate)
  {
    assert Validate(Sample(true, false, false, None, None, None)) == Invalid(BlankTime);
    assert Validate(Sample(false, true, false, None, Some(Time(20, 20)), None)) == Invalid(BlankDay);
    assert Validate(Sample(false, false, true, None, Some(Time(20, 20)), None)) == Invalid(BlankDate);
  }

  /** The API tests' requests with an unknown day or foreign fields. */
  lemma WrongFieldCases()
    ensures Validate(Sample(false, true, false, Some("invalid"), Some(Time(20, 20)), None))
            == Invalid(UnknownDay)
    ensures Validate(Sample(true, false, false, Some("Monday"), Some(Time(20, 20)), Some(31)))
            == Invalid(DailyField)
    ensures Validate(Sample(false, true, false, Some("Monday"), Some(Time(20, 20)), Some(31)))
            == Invalid(WeeklyField)
    ensures Validate(Sample(false, false, true, Some("Monday"), Some(Time(20, 20)), Some(31)))
            == Invalid(MonthlyField)
  {
    assert Validate(Sample(false, true, false, Some("invalid"), Some(Time(20, 20)), None))
            == Invalid(UnknownDay);
    assert Validate(Sample(true, false, false, Some("Monday"), Some(Time(20, 20)), Some(31)))
            == Invalid(DailyField);
    assert Validate(Sample(false, true, false, Some("Monday"), Some(Time(20, 20)), Some(31)))
            == Invalid(WeeklyField);
    assert Validate(Sample(false, false, true, Some("Monday"), Some(Time(20, 20)), Some(31)))
            == Invalid(MonthlyField);
  }

  /** The API tests' accepted requests: daily with a time, weekly with a time
      and a day, monthly with a time and a date. */
  lemma AcceptedCases()
    ensures Validate(Sample(true, false, false, None, Some(Time(20, 20)), None)).Valid?
    ensures Validate(Sample(false, true, false, Some("Monday"), Some(Time(20, 20)), None)).Valid?
    ensures Validate(Sample(false, false, true, None, Some(Time(20, 20)), Some(31))).Valid?
  {
    assert Validate(Sample(true, false, false, None, Some(Time(20, 20)), None)).Valid?;
    assert Validate(Sample(false, true, false, Some("Monday"), Some(Time(20, 20)), None)).Valid?;
    assert Validate(Sample(false, false, true, None, Some(Time(20, 20)), Some(31))).Valid?;
  }

  /** The same three requests pass the field validators too, so the API
      saves them. */
  lemma AcceptedRequests()
    ensures IsValid(Sample(true, false, false, None, Some(Time(20, 20)), None)).Accepted?
    ensures IsValid(Sample(false, true, false, Some("Monday"), Some(Time(20, 20)), None)).Accepted?
    ensures IsValid(Sample(false, false, true, None, Some(Time(20, 20)), Some(31))).Accepted?
  {
    AcceptedCases();
    Models.DayNamesFit();
    assert "Monday" == DayNames[1];
  }
}
