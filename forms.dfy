/** The HTML form path: `TaskForm` (which fields are required, and the
    ordered `clean` chain with its own messages and range checks), the edit
    flow built on it, and `UserRegisterForm.clean_fullname`. */
module Forms {
  import opened Basics
  import opened Models

  /** The raw POST values that decide which fields are required: the
      submitted text of the weekly and monthly inputs (absent: `None`). */
  datatype RawPost = RawPost(weekly: Option<string>, monthly: Option<string>)

  /** The `required` flags of the three execution fields. */
  datatype Required = Required(time: bool, day: bool, date: bool)

  /** Truthiness of a submitted text value. */
  predicate Submitted(v: Option<string>) {
    v.Some? && v.value != ""
  }

  /** `TaskForm.__init__`: the time is always required; the day is required
      when the raw weekly value is truthy and the date when the raw monthly
      value is truthy. The raw value is used, so a submitted "false" still
      makes the field required. */
  function FieldsRequired(raw: RawPost): Required
  {
    Required(true, Submitted(raw.weekly), Submitted(raw.monthly))
  }

  /** The form's cleaned values. The flags are booleans (an unticked box is
      false); an empty optional field is `None`; a submitted value is kept
      as given, and its range is checked by `ModelValid`. */
  datatype CleanedData = CleanedData(
    title: string,
    description: string,
    completed: bool,
    daily: bool,
    weekly: bool,
    monthly: bool,
    executionDay: Option<string>,
    executionTime: Option<Time>,
    executionDate: Option<int>)

  /** The non-field error `clean` can raise; `Message` gives its text. */
  datatype FormError =
    | NoKind
    | NotOneKind
    | BadDay
    | BadDate
    | DailyField
    | WeeklyField
    | MonthlyField

  function Message(e: FormError): string {
    match e
    case NoKind => "At least one of 'Daily', 'Weekly', or 'Monthly' must be selected."
    case NotOneKind => "Please select one and only one of 'Daily', 'Weekly', or 'Monthly'."
    case BadDay => "Invalid 'Execution Day'. Please select a valid day of the week."
    case BadDate => "Invalid 'Execution Date'. Please select a valid day (1 to 31)."
    case DailyField => "Invalid field for daily task."
    case WeeklyField => "Invalid field for weekly task."
    case MonthlyField => "Invalid field for monthly task."
  }

  datatype CleanOutcome = Cleaned(data: CleanedData) | Rejected(error: FormError)

  /** `execution_day in allowed_days` (None is not in the list). */
  predicate DayAllowed(d: Option<string>) {
    d.Some? && d.value in DayNames
  }

  /** `execution_date in range(1, 32)` (None is not in the range). */
  predicate DateAllowed(d: Option<int>) {
    d.Some? && 1 <= d.value <= 31
  }

  /** The accepted forms, stated without the order of the checks. */
  predicate Acceptable(cd: CleanedData) {
    && ExactlyOneOf(cd.daily, cd.weekly, cd.monthly)
    && (cd.weekly ==> DayAllowed(cd.executionDay))
    && (cd.monthly ==> DateAllowed(cd.executionDate))
    && (cd.daily ==> !DayGiven(cd.executionDay) && !DateGiven(cd.executionDate))
    && (cd.weekly ==> !DateGiven(cd.executionDate))
    && (cd.monthly ==> !DayGiven(cd.executionDay))
  }

  /** `TaskForm.clean`: the checks in source order; the first that fails
      raises. A valid form returns its cleaned data unchanged. */
  function Clean(cd: CleanedData): (r: CleanOutcome)
    ensures r.Cleaned? <==> Acceptable(cd)
    ensures r.Cleaned? ==> r.data == cd
  {
    if !cd.daily && !cd.weekly && !cd.monthly then Rejected(NoKind)
    else if !ExactlyOneOf(cd.daily, cd.weekly, cd.monthly) then Rejected(NotOneKind)
    else if cd.weekly && !DayAllowed(cd.executionDay) then Rejected(BadDay)
    else if cd.monthly && !DateAllowed(cd.executionDate) then Rejected(BadDate)
    else if cd.daily && (DayGiven(cd.executionDay) || DateGiven(cd.executionDate)) then Rejected(DailyField)
    else if cd.weekly && DateGiven(cd.executionDate) then Rejected(WeeklyField)
    else if cd.monthly && DayGiven(cd.executionDay) then Rejected(MonthlyField)
    else Cleaned(cd)
  }

  /** With no kind selected the error is the "At least one" message, never
      the "one and only one" message; with two or three it is the latter. */
  lemma KindErrors(cd: CleanedData)
    ensures !cd.daily && !cd.weekly && !cd.monthly <==> Clean(cd) == Rejected(NoKind)
    ensures (cd.daily || cd.weekly || cd.monthly) && !ExactlyOneOf(cd.daily, cd.weekly, cd.monthly)
            <==> Clean(cd) == Rejected(NotOneKind)
    ensures Message(NoKind) != Message(NotOneKind)
  {
  }

  /** A weekly form needs one of the seven day names and a monthly form a
      date in 1..31; an out-of-range date such as 0 or 32 is refused. */
  lemma RangeChecks(cd: CleanedData)
    requires ExactlyOneOf(cd.daily, cd.weekly, cd.monthly)
    ensures cd.weekly && !DayAllowed(cd.executionDay) ==> Clean(cd) == Rejected(BadDay)
    ensures cd.monthly && cd.executionDate.Some? && (cd.executionDate.value < 1 || cd.executionDate.value > 31)
            ==> Clean(cd) == Rejected(BadDate)
    ensures cd.monthly && cd.executionDate.None? ==> Clean(cd) == Rejected(BadDate)
  {
  }

  /** The foreign-field rules, once the kind and range checks pass. */
  lemma ForeignFields(cd: CleanedData)
    requires ExactlyOneOf(cd.daily, cd.weekly, cd.monthly)
    requires cd.weekly ==> DayAllowed(cd.executionDay)
    requires cd.monthly ==> DateAllowed(cd.executionDate)
    ensures cd.daily ==> (Clean(cd) == Rejected(DailyField)
                          <==> DayGiven(cd.executionDay) || DateGiven(cd.executionDate))
    ensures cd.weekly ==> (Clean(cd) == Rejected(WeeklyField) <==> DateGiven(cd.executionDate))
    ensures cd.monthly ==> (Clean(cd) == Rejected(MonthlyField) <==> DayGiven(cd.executionDay))
  {
  }

  /** The form fields that can be reported as required, in the form's
      field order; `FieldName` gives the name the error is keyed by. */
  datatype Field = Title | Description | ExecutionDay | ExecutionTime | ExecutionDate

  function FieldName(f: Field): string {
    match f
    case Title => "title"
    case Description => "description"
    case ExecutionDay => "execution_day"
    case ExecutionTime => "execution_time"
    case ExecutionDate => "execution_date"
  }

  /** The required fields that were left empty, in the form's field order;
      each gets Django's "This field is required." error. The title and the
      description are always required, since their model fields are not
      `blank=True`; the values are the cleaned ones, so a title of only
      spaces has already become empty. */
  function MissingRequired(req: Required, cd: CleanedData): (missing: seq<Field>)
    ensures Title in missing <==> cd.title == ""
    ensures Description in missing <==> cd.description == ""
    ensures ExecutionDay in missing <==> req.day && cd.executionDay.None?
    ensures ExecutionTime in missing <==> req.time && cd.executionTime.None?
    ensures ExecutionDate in missing <==> req.date && cd.executionDate.None?
  {
    MissingText(cd) + MissingExecution(req, cd)
  }

  /** The empty title and description. */
  function MissingText(cd: CleanedData): (missing: seq<Field>)
    ensures Title in missing <==> cd.title == ""
    ensures Description in missing <==> cd.description == ""
    ensures forall f :: f in missing ==> f == Title || f == Description
  {
    (if cd.title == "" then [Title] else [])
    + (if cd.description == "" then [Description] else [])
  }

  /** The empty required execution fields. */
  function MissingExecution(req: Required, cd: CleanedData): (missing: seq<Field>)
    ensures ExecutionDay in missing <==> req.day && cd.executionDay.None?
    ensures ExecutionTime in missing <==> req.time && cd.executionTime.None?
    ensures ExecutionDate in missing <==> req.date && cd.executionDate.None?
    ensures Title !in missing && Description !in missing
  {
    (if req.day && cd.executionDay.None? then [ExecutionDay] else [])
    + (if req.time && cd.executionTime.None? then [ExecutionTime] else [])
    + (if req.date && cd.executionDate.None? then [ExecutionDate] else [])
  }

  /** The model-level checks the form runs after `clean`: the title's and
      the day's `max_length` and the date's `MinValueValidator(1)` and
      `MaxValueValidator(31)`. */
  predicate ModelValid(cd: CleanedData) {
    |cd.title| <= TitleMaxLength && DayInDomain(cd.executionDay) && DateInDomain(cd.executionDate)
  }

  /** `form.is_valid()`: no missing required field, `clean` accepted and the
      model's field validators passed. */
  predicate IsValid(raw: RawPost, cd: CleanedData) {
    MissingRequired(FieldsRequired(raw), cd) == [] && Clean(cd).Cleaned? && ModelValid(cd)
  }

  /** `form.save()` on an existing task: the form's fields are copied onto
      it; identity, owner and creation instant stay. */
  function Saved(t: Task, cd: CleanedData): Task {
    t.(title := cd.title, description := cd.description, completed := cd.completed,
       daily := cd.daily, weekly := cd.weekly, monthly := cd.monthly,
       executionDay := cd.executionDay, executionTime := cd.executionTime,
       executionDate := cd.executionDate)
  }

  /** The stored row after an edit request: saved when the form is valid,
      unchanged otherwise. */
  function EditTask(stored: Task, raw: RawPost, cd: CleanedData): (t: Task)
    ensures !IsValid(raw, cd) ==> t == stored
    ensures IsValid(raw, cd) ==> t.title == cd.title && t.description == cd.description
                                 && t.completed == cd.completed
                                 && t.daily == cd.daily && t.weekly == cd.weekly && t.monthly == cd.monthly
                                 && t.executionDay == cd.executionDay && t.executionTime == cd.executionTime
                                 && t.executionDate == cd.executionDate
    ensures t.id == stored.id && t.user == stored.user && t.createdAt == stored.createdAt
    ensures IsValid(raw, cd) ==> TaskInDomain(t) && t.title != "" && t.description != ""
    ensures TaskInDomain(stored) ==> TaskInDomain(t)
  {
    if IsValid(raw, cd) then Saved(stored, cd) else stored
  }

  /** A successful edit leaves a task with exactly one kind and a time. */
  lemma EditKeepsOneKind(stored: Task, raw: RawPost, cd: CleanedData)
    requires IsValid(raw, cd)
    ensures var t := EditTask(stored, raw, cd);
      ExactlyOneOf(t.daily, t.weekly, t.monthly) && t.executionTime.Some?
      && (t.weekly ==> t.executionDay.Some? && t.executionDay.value in DayNames)
      && (t.monthly ==> t.executionDate.Some? && 1 <= t.executionDate.value <= 31)
  {
  }

  /** The edit test's first request: nothing ticked, every field empty. The
      form is refused and the stored task stays as it was. */
  lemma EmptyEditRejected(stored: Task)
    ensures var cd := CleanedData("", "", false, false, false, false, None, None, None);
      EditTask(stored, RawPost(Some(""), Some("")), cd) == stored
  {
  }

  /** An edit whose cleaned title is empty is refused with "This field is
      required." and stores nothing, whatever else it carries. */
  lemma EmptyTitleRejected(stored: Task, raw: RawPost, cd: CleanedData)
    requires cd.title == ""
    ensures Title in MissingRequired(FieldsRequired(raw), cd)
    ensures EditTask(stored, raw, cd) == stored
  {
  }

  /** A daily edit with a date of 0 passes `clean` (0 is falsy there) but is
      refused by `MinValueValidator(1)`, so the task is not changed. */
  lemma ZeroDateRejected(stored: Task, raw: RawPost, cd: CleanedData)
    requires cd.daily && !cd.weekly && !cd.monthly && cd.executionDate == Some(0)
    requires !DayGiven(cd.executionDay)
    ensures Clean(cd).Cleaned?
    ensures EditTask(stored, raw, cd) == stored
  {
  }

  /** On the raw post: the time is reported missing exactly when it is
      absent, the day exactly when the raw weekly value is truthy and the
      day absent, the date likewise with the raw monthly value; so a valid
      form carries each field that was required. */
  lemma RawRequirements(raw: RawPost, cd: CleanedData)
    ensures ExecutionTime in MissingRequired(FieldsRequired(raw), cd) <==> cd.executionTime.None?
    ensures ExecutionDay in MissingRequired(FieldsRequired(raw), cd)
            <==> Submitted(raw.weekly) && cd.executionDay.None?
    ensures ExecutionDate in MissingRequired(FieldsRequired(raw), cd)
            <==> Submitted(raw.monthly) && cd.executionDate.None?
    ensures IsValid(raw, cd) ==>
      && cd.executionTime.Some?
      && (Submitted(raw.weekly) ==> cd.executionDay.Some?)
      && (Submitted(raw.monthly) ==> cd.executionDate.Some?)
  {
  }

  /** A raw "false" makes the day required although the cleaned weekly flag
      is false. */
  lemma RawFalseStillRequires()
    ensures FieldsRequired(RawPost(Some("false"), None)).day
  {
  }

  /** `str.isalpha` on one character (ASCII letters). */
  predicate IsAlpha(c: char) {
    ('a' <= c <= 'z') || ('A' <= c <= 'Z')
  }

  datatype NameOutcome = NameOk(name: string) | NameError(message: string)

  const FullnameMsg := "Full name should only contain alphabetic characters."

  /** `str.isalpha` on a string: non-empty and every character alphabetic. */
  function AllAlpha(s: string): (r: bool)
    ensures r <==> |s| > 0 && forall i :: 0 <= i < |s| ==> IsAlpha(s[i])
  {
    if |s| == 0 then false
    else if |s| == 1 then IsAlpha(s[0])
    else IsAlpha(s[0]) && AllAlpha(s[1..])
  }

  /** `UserRegisterForm.clean_fullname`, applied to the value its
      `CharField` has already cleaned: surrounding spaces are stripped and an
      empty value has been refused with "This field is required." before this
      check runs, so " Albert " reaches it as "Albert". */
  function CleanFullname(fullname: string): (r: NameOutcome)
    ensures r.NameOk? <==> |fullname| > 0 && forall i :: 0 <= i < |fullname| ==> IsAlpha(fullname[i])
    ensures r.NameOk? ==> r.name == fullname
    ensures r.NameError? ==> r.message == FullnameMsg
  {
    if AllAlpha(fullname) then NameOk(fullname) else NameError(FullnameMsg)
  }

  /** A digit or a space anywhere in the full name rejects it. */
  lemma FullnameRejectsDigitOrSpace(fullname: string, i: nat)
    requires i < |fullname| && (('0' <= fullname[i] <= '9') || fullname[i] == ' ')
    ensures CleanFullname(fullname).NameError?
  {
  }
}
