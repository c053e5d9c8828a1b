/** The three stored entities: Task, UserProfile and TaskHistory, with their
    field defaults, the domains their field validators accept, and their
    string forms. */
module Models {
  import opened Basics

  /** A task row. `user` is the owning user's id; `createdAt` is the creation
      instant as an opaque number. The three kind flags are independent
      booleans: nothing in the model forces exactly one of them. */
  datatype Task = Task(
    id: nat,
    user: nat,
    title: string,
    description: string,
    completed: bool,
    createdAt: int,
    daily: bool,
    weekly: bool,
    monthly: bool,
    executionDay: Option<string>,
    executionTime: Option<Time>,
    executionDate: Option<int>)

  /** The per-user profile holding the IANA time-zone name. */
  datatype UserProfile = UserProfile(user: nat, timezone: string)

  /** One archived occurrence of a task. */
  datatype TaskHistory = TaskHistory(
    user: nat,
    title: string,
    description: string,
    executionDay: Option<string>,
    executionTime: Option<Time>,
    executionDate: Option<int>,
    completed: bool,
    taskType: TaskKind,
    date: Date)

  const TitleMaxLength := 255
  const DayMaxLength := 9
  const TimezoneMaxLength := 50
  const TaskTypeMaxLength := 10

  /** The stored value of `task_type` for each kind (the choice keys). */
  function TaskTypeName(k: TaskKind): (s: string)
    ensures 0 < |s| <= TaskTypeMaxLength
  {
    match k
    case Daily => "daily"
    case Weekly => "weekly"
    case Monthly => "monthly"
  }

  /** `execution_date` as its validators accept it: absent, or 1..31. */
  predicate DateInDomain(d: Option<int>) {
    d.Some? ==> 1 <= d.value <= 31
  }

  /** `execution_day` as its column accepts it: absent, or at most 9 characters. */
  predicate DayInDomain(d: Option<string>) {
    d.Some? ==> |d.value| <= DayMaxLength
  }

  /** The field domains of a storable task. */
  predicate TaskInDomain(t: Task) {
    |t.title| <= TitleMaxLength && DayInDomain(t.executionDay) && DateInDomain(t.executionDate)
  }

  /** The field domains of a storable history row. */
  predicate HistoryInDomain(h: TaskHistory) {
    |h.title| <= TitleMaxLength && DayInDomain(h.executionDay) && DateInDomain(h.executionDate)
  }

  /** A task created with only its required fields: every other field takes
      its declared default. */
  function NewTask(id: nat, user: nat, title: string, description: string, now: int): (t: Task)
    ensures !t.completed && !t.daily && !t.weekly && !t.monthly
    ensures t.executionDay.None? && t.executionTime.None? && t.executionDate.None?
    ensures t.id == id && t.user == user && t.title == title && t.description == description
    ensures t.createdAt == now
    ensures |title| <= TitleMaxLength ==> TaskInDomain(t)
  {
    Task(id, user, title, description, false, now, false, false, false, None, None, None)
  }

  /** A profile created for a user gets the time zone "UTC". */
  function NewProfile(user: nat): (p: UserProfile)
    ensures p.user == user && p.timezone == "UTC"
    ensures |p.timezone| <= TimezoneMaxLength
  {
    UserProfile(user, "UTC")
  }

  /** `str(task)`: the title. */
  function TaskString(t: Task): string
  {
    t.title
  }

  /** `str(date)`: ISO format YYYY-MM-DD. */
  function IsoDate(d: Date): string {
    Pad4(d.year) + "-" + Pad2(d.month) + "-" + Pad2(d.day)
  }

  /** The ISO date has the fixed YYYY-MM-DD layout and reads back as the
      date. */
  lemma IsoDateLayout(d: Date)
    requires d.year < 10000 && d.month < 100 && d.day < 100
    ensures var s := IsoDate(d);
      && |s| == 10 && s[4] == '-' && s[7] == '-'
      && AllDigits(s[..4]) && DigitsValue(s[..4]) == d.year
      && AllDigits(s[5..7]) && DigitsValue(s[5..7]) == d.month
      && AllDigits(s[8..]) && DigitsValue(s[8..]) == d.day
  {
    var s := IsoDate(d);
    PadValue(d.year);
    PadValue(d.month);
    PadValue(d.day);
    assert s[..4] == Pad4(d.year);
    assert s[5..7] == Pad2(d.month);
    assert s[8..] == Pad2(d.day);
  }

  /** `str(history)`: "<date> - <title>". */
  function HistoryString(h: TaskHistory): (s: string)
  {
    IsoDate(h.date) + " - " + h.title
  }

  /** Every English day name fits the 9-character column, and "Wednesday"
      uses all of it. */
  lemma DayNamesFit()
    ensures forall i :: 0 <= i < |DayNames| ==> DayInDomain(Some(DayNames[i]))
    ensures |DayNames[3]| == DayMaxLength && DayNames[3] == "Wednesday"
  {
  }

  /** The stored task-type values are exactly "daily", "weekly", "monthly",
      and each kind has its own. */
  lemma TaskTypeNamesDistinct(k1: TaskKind, k2: TaskKind)
    ensures TaskTypeName(k1) == TaskTypeName(k2) <==> k1 == k2
    ensures TaskTypeName(k1) in ["daily", "weekly", "monthly"]
  {
  }

  /** The string form of a history row starts with its ISO date and ends with
      its title. */
  lemma HistoryStringParts(h: TaskHistory)
    requires h.date.year < 10000 && h.date.month < 100 && h.date.day < 100
    ensures var s := HistoryString(h);
      |s| >= 13 && s[..10] == IsoDate(h.date) && s[10..13] == " - " && s[13..] == h.title
  {
    IsoDateLayout(h.date);
  }

  /** The model does not enforce a single kind: a task with no kind flag that
      carries both a day and a date is still within every field domain. */
  lemma NoKindTaskIsStorable(id: nat, user: nat)
    ensures var t := NewTask(id, user, "title", "description", 0)
        .(executionDay := Some("Monday"), executionTime := Some(Time(0, 0)), executionDate := Some(31));
      TaskInDomain(t) && !t.daily && !t.weekly && !t.monthly
  {
  }
}
