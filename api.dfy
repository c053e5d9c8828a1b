/** The REST task endpoint: the query-parameter filters and orderings of
    `TaskViewSet.get_queryset`, and the `complete` action that toggles a
    task found through that queryset. */
module Api {
  import opened Basics
  import opened Models
  import opened Store

  /** The query parameters `get_queryset` reads, as the raw texts of the
      query string (absent: `None`). */
  datatype QueryParams = QueryParams(
    userId: Option<string>,
    daily: Option<string>,
    weekly: Option<string>,
    monthly: Option<string>,
    completed: Option<string>,
    days: Option<string>)

  function ToUpper(c: char): char {
    if 'a' <= c <= 'z' then (c as int - 32) as char else c
  }

  function ToLower(c: char): char {
    if 'A' <= c <= 'Z' then (c as int + 32) as char else c
  }

  /** Every character lower-cased. */
  function LowerAll(s: string): (r: string)
    ensures |r| == |s|
    ensures forall i :: 0 <= i < |s| ==> r[i] == ToLower(s[i])
  {
    if s == [] then [] else [ToLower(s[0])] + LowerAll(s[1..])
  }

  /** `str.capitalize` (ASCII): the first character upper-cased, the rest
      lower-cased. */
  function Capitalize(s: string): (r: string)
    ensures |r| == |s|
    ensures |s| > 0 ==> r[0] == ToUpper(s[0])
    ensures forall i :: 0 < i < |s| ==> r[i] == ToLower(s[i])
  {
    if s == [] then [] else [ToUpper(s[0])] + LowerAll(s[1..])
  }

  /** `str.capitalize` maps every spelling of a day name to the stored
      name. (The `days` parameter is also read as a date, so a request
      carrying a day name fails before this matters: `DayNameLookupFails`.) */
  lemma CapitalizeDayNames()
    ensures Capitalize("monday") == "Monday"
    ensures Capitalize("FRIDAY") == "Friday"
    ensures Capitalize("sUnDaY") == "Sunday"
  {
    CapitalizeMonday();
    CapitalizeFriday();
    CapitalizeSunday();
  }

  lemma CapitalizeMonday()
    ensures Capitalize("monday") == "Monday"
  {
    assert Capitalize("monday") == "Monday";
  }

  lemma CapitalizeFriday()
    ensures Capitalize("FRIDAY") == "Friday"
  {
    assert Capitalize("FRIDAY") == "Friday";
  }

  lemma CapitalizeSunday()
    ensures Capitalize("sUnDaY") == "Sunday"
  {
    assert Capitalize("sUnDaY") == "Sunday";
  }

  lemma CapitalizeIdempotent(s: string)
    ensures Capitalize(Capitalize(s)) == Capitalize(s)
  {
  }

  // ---------------------------------------------------------------- filters

  /** `queryset.filter(...)`: the tasks satisfying f, in their order. */
  function Filter(ts: seq<Task>, f: Task -> bool): (r: seq<Task>)
    ensures |r| <= |ts|
    ensures forall t :: t in r ==> t in ts && f(t)
  {
    if ts == [] then [] else (if f(ts[0]) then [ts[0]] else []) + Filter(ts[1..], f)
  }

  lemma {:induction false} FilterCounts(ts: seq<Task>, f: Task -> bool)
    ensures forall t :: multiset(Filter(ts, f))[t] == if f(t) then multiset(ts)[t] else 0
  {
    if ts != [] {
      FilterCounts(ts[1..], f);
      assert ts == [ts[0]] + ts[1..];
      assert multiset(ts) == multiset{ts[0]} + multiset(ts[1..]);
    }
  }

  // ---------------------------------------------------------------- ordering

  /** A three-part sort key compared lexicographically. */
  datatype Key = Key(a: int, b: int, c: int)

  predicate KeyLe(x: Key, y: Key) {
    x.a < y.a || (x.a == y.a && (x.b < y.b || (x.b == y.b && x.c <= y.c)))
  }

  /** The three `order_by` calls. */
  datatype Ordering = ByTime | ByDay | ByDate

  /** The position of an `execution_time` in `order_by`: NULL sorts
      before every time (SQLite's rule). */
  function TimeRank(t: Option<Time>): (r: int)
    ensures t.None? ==> r < 0
    ensures t.Some? ==> r >= 0
  {
    if t.None? then -1 else t.value.hour * 60 + t.value.minute
  }

  /** Times of day are ranked as the clock orders them: by hour, then by
      minute. */
  lemma TimeRankOrder(a: Time, b: Time)
    requires ValidTime(a) && ValidTime(b)
    ensures TimeRank(Some(a)) <= TimeRank(Some(b)) <==> a.hour < b.hour || (a.hour == b.hour && a.minute <= b.minute)
    ensures TimeRank(Some(a)) == TimeRank(Some(b)) <==> a == b
  {
  }

  /** The position of an `execution_date` in `order_by`: NULL sorts before
      every day of the month, and days keep their order. */
  function DateRank(d: Option<int>): (r: int)
    ensures d.None? ==> r < 0
    ensures d.Some? && d.value >= 1 ==> r >= 1
  {
    if d.None? then -1 else d.value
  }

  /** The `Case(When(execution_day=...))` rank: Monday 1 .. Sunday 7,
      anything else (including no day) 8. */
  function DayRank(d: Option<string>): (r: int)
    ensures 1 <= r <= 8
    ensures r == 8 <==> d.None? || d.value !in DayNames
  {
    if d == Some("Monday") then 1
    else if d == Some("Tuesday") then 2
    else if d == Some("Wednesday") then 3
    else if d == Some("Thursday") then 4
    else if d == Some("Friday") then 5
    else if d == Some("Saturday") then 6
    else if d == Some("Sunday") then 7
    else 8
  }

  function SortKey(t: Task, o: Ordering): Key {
    var done := if t.completed then 1 else 0;
    match o
    case ByTime => Key(done, TimeRank(t.executionTime), 0)
    case ByDay => Key(done, DayRank(t.executionDay), TimeRank(t.executionTime))
    case ByDate => Key(done, DateRank(t.executionDate), TimeRank(t.executionTime))
  }

  ghost predicate SortedBy(ts: seq<Task>, o: Ordering) {
    forall i, j :: 0 <= i < j < |ts| ==> KeyLe(SortKey(ts[i], o), SortKey(ts[j], o))
  }

  /** Insert x before the first element whose key is not smaller. */
  function Insert(x: Task, ts: seq<Task>, o: Ordering): seq<Task> {
    if ts == [] then [x]
    else if KeyLe(SortKey(x, o), SortKey(ts[0], o)) then [x] + ts
    else [ts[0]] + Insert(x, ts[1..], o)
  }

  /** Days of the month are ranked in their order. */
  lemma DateRankOrder(d: int, e: int)
    requires d >= 1 && e >= 1
    ensures DateRank(Some(d)) <= DateRank(Some(e)) <==> d <= e
  {
  }

  /** `queryset.order_by(...)` by insertion sort: the order is by the key,
      and the rows are the same rows. */
  function SortBy(ts: seq<Task>, o: Ordering): (r: seq<Task>)
    ensures SortedBy(r, o)
    ensures multiset(r) == multiset(ts) && |r| == |ts|
  {
    if ts == [] then []
    else
      var rest := SortBy(ts[1..], o);
      InsertStep(ts, rest, o);
      Insert(ts[0], rest, o)
  }

  /** The key order is total. */
  lemma KeyTotal(x: Key, y: Key)
    ensures KeyLe(x, y) || KeyLe(y, x)
  {
  }

  /** Prepending a key no larger than every element keeps the order. */
  lemma PrependSorted(y: Task, rest: seq<Task>, o: Ordering)
    requires SortedBy(rest, o)
    requires forall t :: t in rest ==> KeyLe(SortKey(y, o), SortKey(t, o))
    ensures SortedBy([y] + rest, o)
  {
    var r := [y] + rest;
    forall i, j | 0 <= i < j < |r| ensures KeyLe(SortKey(r[i], o), SortKey(r[j], o)) {
      if i == 0 {
        assert r[j] in rest;
      } else {
        assert r[i] == rest[i - 1] && r[j] == rest[j - 1];
      }
    }
  }

  /** Inserting adds exactly x to the members. */
  lemma {:induction false} InsertMembers(x: Task, ts: seq<Task>, o: Ordering)
    ensures forall t :: t in Insert(x, ts, o) <==> t == x || t in ts
  {
    if ts != [] && !KeyLe(SortKey(x, o), SortKey(ts[0], o)) {
      InsertMembers(x, ts[1..], o);
      assert ts == [ts[0]] + ts[1..];
    }
  }

  /** In an ordered sequence the head's key is no larger than any other. */
  lemma HeadFirst(ts: seq<Task>, o: Ordering)
    requires SortedBy(ts, o) && ts != []
    ensures forall t :: t in ts ==> KeyLe(SortKey(ts[0], o), SortKey(t, o))
  {
    forall t | t in ts ensures KeyLe(SortKey(ts[0], o), SortKey(t, o)) {
      var j :| 0 <= j < |ts| && ts[j] == t;
    }
  }

  lemma {:induction false} InsertSorted(x: Task, ts: seq<Task>, o: Ordering)
    requires SortedBy(ts, o)
    ensures SortedBy(Insert(x, ts, o), o)
    ensures multiset(Insert(x, ts, o)) == multiset(ts) + multiset{x}
  {
    if ts == [] {
    } else if KeyLe(SortKey(x, o), SortKey(ts[0], o)) {
      HeadFirst(ts, o);
      PrependSorted(x, ts, o);
    } else {
      var rest := Insert(x, ts[1..], o);
      assert SortedBy(ts[1..], o);
      InsertSorted(x, ts[1..], o);
      InsertMembers(x, ts[1..], o);
      HeadFirst(ts, o);
      KeyTotal(SortKey(x, o), SortKey(ts[0], o));
      assert ts == [ts[0]] + ts[1..];
      PrependSorted(ts[0], rest, o);
    }
  }

  /** One step of the sort: inserting the head into the sorted tail. */
  lemma InsertStep(ts: seq<Task>, rest: seq<Task>, o: Ordering)
    requires ts != [] && SortedBy(rest, o) && multiset(rest) == multiset(ts[1..])
    ensures SortedBy(Insert(ts[0], rest, o), o)
    ensures multiset(Insert(ts[0], rest, o)) == multiset(ts)
    ensures |Insert(ts[0], rest, o)| == |ts|
  {
    InsertSorted(ts[0], rest, o);
    assert ts == [ts[0]] + ts[1..];
    assert |multiset(Insert(ts[0], rest, o))| == |Insert(ts[0], rest, o)|;
  }

  /** A later `filter` keeps the order of an ordered queryset. */
  lemma {:induction false} FilterKeepsOrder(ts: seq<Task>, f: Task -> bool, o: Ordering)
    requires SortedBy(ts, o)
    ensures SortedBy(Filter(ts, f), o)
  {
    if ts != [] {
      assert SortedBy(ts[1..], o);
      FilterKeepsOrder(ts[1..], f, o);
      var rest := Filter(ts[1..], f);
      if f(ts[0]) {
        forall t | t in rest ensures KeyLe(SortKey(ts[0], o), SortKey(t, o)) {
          var j :| 0 <= j < |ts[1..]| && ts[1..][j] == t;
          assert ts[j + 1] == t;
        }
        PrependSorted(ts[0], rest, o);
      }
    }
  }

  // ---------------------------------------------------------------- get_queryset

  predicate IsTrue(v: Option<string>) {
    v == Some("true")
  }

  /** Truthiness of a query-string value: present and not empty. */
  predicate Given(v: Option<string>) {
    v.Some? && v.value != ""
  }

  predicate IsSign(c: char) {
    c == '-' || c == '+'
  }

  /** Python's `int()` on a query-string text, as Django applies it when it
      prepares the value of an integer lookup: an optional sign followed by
      one or more ASCII digits. Any other text makes the lookup raise
      ValueError (`None`). */
  function IntValue(s: string): (r: Option<int>)
    ensures r.Some? ==> s != [] && (IsDigitChar(s[0]) || IsSign(s[0]))
  {
    if |s| >= 2 && IsSign(s[0]) && AllDigits(s[1..]) then
      Some(if s[0] == '-' then 0 - DigitsValue(s[1..]) as int else DigitsValue(s[1..]))
    else if s != [] && AllDigits(s) then Some(DigitsValue(s))
    else None
  }

  /** `int()` reads back every integer's decimal text. */
  lemma IntValueOfString(n: int)
    ensures IntValue(IntToString(n)) == Some(n)
  {
    if n >= 0 {
      NatToStringValue(n);
    } else {
      NatToStringValue(-n);
      var s := IntToString(n);
      assert s[1..] == NatToString(-n);
    }
  }

  /** A text that starts with an ASCII letter is not an integer. */
  lemma IntValueRefusesLetter(s: string)
    requires s != [] && (('a' <= s[0] <= 'z') || ('A' <= s[0] <= 'Z'))
    ensures IntValue(s).None?
  {
  }

  /** Whether an integer lookup raises: a truthy `user_id` (api.py applies
      `filter(user=...)`) or a truthy `days` (read a second time as `date`
      and applied as `filter(execution_date=...)`) that is not an integer. */
  predicate LookupFails(q: QueryParams) {
    (Given(q.userId) && IntValue(q.userId.value).None?)
    || (Given(q.days) && IntValue(q.days.value).None?)
  }

  /** The kind filters with their orderings, in source order; each later
      `order_by` replaces the earlier one. */
  function KindStage(s: seq<Task>, q: QueryParams): (r: seq<Task>)
    ensures |r| <= |s|
  {
    var s2 := if IsTrue(q.daily) then SortBy(Filter(s, (t: Task) => t.daily), ByTime) else s;
    var s3 := if IsTrue(q.weekly) then SortBy(Filter(s2, (t: Task) => t.weekly), ByDay) else s2;
    if IsTrue(q.monthly) then SortBy(Filter(s3, (t: Task) => t.monthly), ByDate) else s3
  }

  /** Whether a task has every kind the parameters ask for. */
  predicate KindMatches(t: Task, q: QueryParams) {
    && (IsTrue(q.daily) ==> t.daily)
    && (IsTrue(q.weekly) ==> t.weekly)
    && (IsTrue(q.monthly) ==> t.monthly)
  }

  /** `get_queryset` over the task table in table order; `None` when an
      integer lookup raises (the request fails with a server error). */
  function GetQueryset(all: seq<Task>, q: QueryParams): (r: Option<seq<Task>>)
    ensures r.None? <==> LookupFails(q)
    ensures r.Some? ==> |r.value| <= |all|
  {
    if LookupFails(q) then None
    else
      var s1 := if Given(q.userId) then Filter(all, (t: Task) => Some(t.user as int) == IntValue(q.userId.value)) else all;
      var s4 := KindStage(s1, q);
      var s5 := if IsTrue(q.completed) then Filter(s4, (t: Task) => t.completed) else s4;
      var s6 := if Given(q.days) then Filter(s5, (t: Task) => t.executionDay == Some(Capitalize(q.days.value))) else s5;
      Some(if Given(q.days) then Filter(s6, (t: Task) => t.executionDate == IntValue(q.days.value)) else s6)
  }

  /** Whether a task passes every filter the parameters switch on. A truthy
      `days` asks for that day name and, as an integer, for that date. */
  predicate Matches(t: Task, q: QueryParams) {
    && (Given(q.userId) ==> Some(t.user as int) == IntValue(q.userId.value))
    && KindMatches(t, q)
    && (IsTrue(q.completed) ==> t.completed)
    && (Given(q.days) ==> t.executionDay == Some(Capitalize(q.days.value))
                          && t.executionDate == IntValue(q.days.value))
  }

  /** The kind stage keeps exactly the tasks of the requested kinds, each
      as often as its input does. */
  lemma KindStageContents(s: seq<Task>, q: QueryParams)
    ensures forall t :: multiset(KindStage(s, q))[t] == if KindMatches(t, q) then multiset(s)[t] else 0
  {
    var s2 := if IsTrue(q.daily) then SortBy(Filter(s, (t: Task) => t.daily), ByTime) else s;
    if IsTrue(q.daily) {
      FilterCounts(s, (t: Task) => t.daily);
    }
    var s3 := if IsTrue(q.weekly) then SortBy(Filter(s2, (t: Task) => t.weekly), ByDay) else s2;
    if IsTrue(q.weekly) {
      FilterCounts(s2, (t: Task) => t.weekly);
    }
    if IsTrue(q.monthly) {
      FilterCounts(s3, (t: Task) => t.monthly);
    }
  }

  /** The request fails exactly when an integer lookup raises; otherwise the
      queryset holds exactly the matching tasks, each as often as the table
      does: so it is a sub-multiset of the table, every returned task
      belongs to the requested user, has the requested kind, completion,
      day and date, and no matching task is dropped. */
  lemma QuerysetContents(all: seq<Task>, q: QueryParams)
    ensures GetQueryset(all, q).None? <==> LookupFails(q)
    ensures GetQueryset(all, q).Some? ==>
      forall t :: multiset(GetQueryset(all, q).value)[t] == if Matches(t, q) then multiset(all)[t] else 0
  {
    if !LookupFails(q) {
      var s1 := if Given(q.userId) then Filter(all, (t: Task) => Some(t.user as int) == IntValue(q.userId.value)) else all;
      if Given(q.userId) { FilterCounts(all, (t: Task) => Some(t.user as int) == IntValue(q.userId.value)); }
      var s4 := KindStage(s1, q);
      KindStageContents(s1, q);
      var s5 := if IsTrue(q.completed) then Filter(s4, (t: Task) => t.completed) else s4;
      if IsTrue(q.completed) { FilterCounts(s4, (t: Task) => t.completed); }
      if Given(q.days) {
        FilterCounts(s5, (t: Task) => t.executionDay == Some(Capitalize(q.days.value)));
        var s6 := Filter(s5, (t: Task) => t.executionDay == Some(Capitalize(q.days.value)));
        FilterCounts(s6, (t: Task) => t.executionDate == IntValue(q.days.value));
      }
    }
  }

  /** Membership form of `QuerysetContents`. */
  lemma QuerysetMembers(all: seq<Task>, q: QueryParams)
    ensures GetQueryset(all, q).None? <==> LookupFails(q)
    ensures GetQueryset(all, q).Some? ==>
      forall t :: t in GetQueryset(all, q).value <==> t in all && Matches(t, q)
  {
    QuerysetContents(all, q);
    if !LookupFails(q) {
      var r := GetQueryset(all, q).value;
      forall t ensures t in r <==> t in all && Matches(t, q) {
        assert t in r <==> multiset(r)[t] > 0;
        assert t in all <==> multiset(all)[t] > 0;
      }
    }
  }

  /** The capitalized form of a text starting with a digit or a sign is no
      day name, for every day name starts with a capital letter. */
  lemma NotADayName(s: string)
    requires s != [] && (IsDigitChar(s[0]) || IsSign(s[0]))
    ensures Capitalize(s) !in DayNames
  {
    var c := Capitalize(s);
    assert c[0] == s[0];
    forall i | 0 <= i < |DayNames| ensures c != DayNames[i] {
      assert 'A' <= DayNames[i][0] <= 'Z';
    }
  }

  /** A `days` value spelling a day name (in any case) is not an integer, so
      the date lookup raises and the request fails whatever the table holds. */
  lemma DayNameLookupFails(all: seq<Task>, q: QueryParams)
    requires Given(q.days) && Capitalize(q.days.value) in DayNames
    ensures GetQueryset(all, q).None?
  {
    var s := q.days.value;
    if IntValue(s).Some? {
      NotADayName(s);
    }
    QuerysetContents(all, q);
  }

  /** A `days` value that is an integer asks for a day name that no task
      stored with a day name (or without a day) can have, so the result is
      empty. */
  lemma NumericDaysEmpty(all: seq<Task>, q: QueryParams)
    requires Given(q.days) && !LookupFails(q)
    requires forall t :: t in all ==> t.executionDay.None? || t.executionDay.value in DayNames
    ensures GetQueryset(all, q) == Some([])
  {
    QuerysetMembers(all, q);
    NotADayName(q.days.value);
    NoneMatch(all, GetQueryset(all, q).value, q);
  }

  /** A selection of tasks that match a numeric `days` while every task
      holds a day name or none is empty. */
  lemma NoneMatch(all: seq<Task>, r: seq<Task>, q: QueryParams)
    requires Given(q.days) && Capitalize(q.days.value) !in DayNames
    requires forall t :: t in all ==> t.executionDay.None? || t.executionDay.value in DayNames
    requires forall t :: t in r ==> t in all && Matches(t, q)
    ensures r == []
  {
    forall t ensures t !in r {
    }
    forall t ensures multiset(r)[t] == 0 {
      assert t !in r;
    }
    assert multiset(r) == multiset{};
    assert |r| == |multiset(r)| == 0;
  }

  /** The ordering in force is that of the last `order_by` applied:
      monthly's, else weekly's, else daily's. */
  function LastOrdering(q: QueryParams): Option<Ordering> {
    if IsTrue(q.monthly) then Some(ByDate)
    else if IsTrue(q.weekly) then Some(ByDay)
    else if IsTrue(q.daily) then Some(ByTime)
    else None
  }

  /** The kind stage is ordered by the last ordering it applied. */
  lemma KindStageOrder(s: seq<Task>, q: QueryParams)
    requires LastOrdering(q).Some?
    ensures SortedBy(KindStage(s, q), LastOrdering(q).value)
  {
    var s2 := if IsTrue(q.daily) then SortBy(Filter(s, (t: Task) => t.daily), ByTime) else s;
    var s3 := if IsTrue(q.weekly) then SortBy(Filter(s2, (t: Task) => t.weekly), ByDay) else s2;
    if IsTrue(q.monthly) {
    } else if IsTrue(q.weekly) {
    } else {
    }
  }

  /** The result is ordered by the last ordering applied: incomplete before
      complete, then by time (daily), day rank and time (weekly), or date
      and time (monthly). */
  lemma QuerysetOrder(all: seq<Task>, q: QueryParams)
    requires LastOrdering(q).Some? && !LookupFails(q)
    ensures GetQueryset(all, q).Some? && SortedBy(GetQueryset(all, q).value, LastOrdering(q).value)
  {
    var o := LastOrdering(q).value;
    var s1 := if Given(q.userId) then Filter(all, (t: Task) => Some(t.user as int) == IntValue(q.userId.value)) else all;
    var s4 := KindStage(s1, q);
    KindStageOrder(s1, q);
    var s5 := if IsTrue(q.completed) then Filter(s4, (t: Task) => t.completed) else s4;
    if IsTrue(q.completed) { FilterKeepsOrder(s4, (t: Task) => t.completed, o); }
    if Given(q.days) {
      FilterKeepsOrder(s5, (t: Task) => t.executionDay == Some(Capitalize(q.days.value)), o);
      var s6 := Filter(s5, (t: Task) => t.executionDay == Some(Capitalize(q.days.value)));
      FilterKeepsOrder(s6, (t: Task) => t.executionDate == IntValue(q.days.value), o);
    }
  }

  // ---------------------------------------------------------------- complete

  /** The outcome of the `complete` action: the saved task, a 404, or the
      server error of a lookup that raises inside `get_object`. */
  datatype CompleteResult = Done(task: Task) | NotFound | LookupError

  /** The `complete` action: the task with primary key pk is looked up in
      the queryset, its flag is toggled and the saved task is returned. */
  method Complete(db: Database, q: QueryParams, pk: nat) returns (r: CompleteResult)
    requires db.Valid()
    modifies db.tasks
    ensures db.Valid()
    ensures r.LookupError? <==> LookupFails(q)
    ensures r.NotFound? <==> !LookupFails(q) && forall t :: t in GetQueryset(old(db.tasks[..]), q).value ==> t.id != pk
    ensures !r.Done? ==> db.tasks[..] == old(db.tasks[..])
    ensures r.Done? ==> exists i :: 0 <= i < db.tasks.Length && old(db.tasks[i]) in GetQueryset(old(db.tasks[..]), q).value
                                    && old(db.tasks[i]).id == pk && r.task == Toggled(old(db.tasks[i]))
                                    && db.tasks[..] == old(db.tasks[..])[i := r.task]
  {
    if LookupFails(q) {
      return LookupError;
    }
    QuerysetMembers(db.tasks[..], q);
    var i := db.IndexOf(pk);
    if i >= 0 && Matches(db.tasks[i], q) {
      assert db.tasks[i] == db.tasks[..][i];
      db.ToggleAt(i);
      r := Done(db.tasks[i]);
    } else {
      r := NotFound;
      forall t | t in GetQueryset(db.tasks[..], q).value ensures t.id != pk {
        var j :| 0 <= j < db.tasks.Length && db.tasks[j] == t;
      }
    }
  }
}
