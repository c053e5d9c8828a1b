/** The parts of the HTML views that compute: the dashboard counts of
    `index`, the `mark_task_complete` toggle, and the rows and column widths
    `export_task_to_excel` writes into its three sheets. */
module Views {
  import opened Basics
  import opened Models
  import opened Store
  import opened Reset

  // ---------------------------------------------------------------- index

  /** `Task.objects.filter([completed=True,] <kind>=True, user=user).count()`. */
  function Count(ts: seq<Task>, user: nat, k: TaskKind, completedOnly: bool): (c: nat)
    ensures c <= |ts|
    ensures !completedOnly ==> c == |Owned(ts, user, k)|
  {
    if ts == [] then 0
    else
      var last := ts[|ts| - 1];
      Count(ts[..|ts| - 1], user, k, completedOnly)
        + (if Selected(last, user, k) && (!completedOnly || last.completed) then 1 else 0)
  }

  /** The completed count never exceeds the total. */
  lemma {:induction false} CompletedAtMostTotal(ts: seq<Task>, user: nat, k: TaskKind)
    ensures Count(ts, user, k, true) <= Count(ts, user, k, false)
  {
    if ts != [] {
      CompletedAtMostTotal(ts[..|ts| - 1], user, k);
    }
  }

  /** The two counts agree exactly when every selected task is completed. */
  lemma {:induction false} CountsAgree(ts: seq<Task>, user: nat, k: TaskKind)
    ensures Count(ts, user, k, true) == Count(ts, user, k, false)
            <==> forall t :: t in ts && Selected(t, user, k) ==> t.completed
  {
    if ts != [] {
      var init := ts[..|ts| - 1];
      CountsAgree(init, user, k);
      CompletedAtMostTotal(init, user, k);
      assert ts == init + [ts[|ts| - 1]];
    }
  }

  /** The total is positive exactly when the user has a task of the kind. */
  lemma {:induction false} TotalPositive(ts: seq<Task>, user: nat, k: TaskKind)
    ensures Count(ts, user, k, false) > 0 <==> exists t :: t in ts && Selected(t, user, k)
  {
    if ts != [] {
      var init := ts[..|ts| - 1];
      TotalPositive(init, user, k);
      assert ts == init + [ts[|ts| - 1]];
    }
  }

  datatype KindStats = KindStats(completed: nat, total: nat, remaining: int)

  datatype Dashboard = Dashboard(daily: KindStats, weekly: KindStats, monthly: KindStats, completedAll: bool)

  function Stats(ts: seq<Task>, user: nat, k: TaskKind): (s: KindStats)
    ensures s.completed == Count(ts, user, k, true) && s.total == Count(ts, user, k, false)
    ensures s.remaining == s.total - s.completed && s.remaining >= 0
  {
    CompletedAtMostTotal(ts, user, k);
    var c := Count(ts, user, k, true);
    var n := Count(ts, user, k, false);
    KindStats(c, n, n - c)
  }

  /** A task flagged with at least one kind. */
  predicate Flagged(t: Task) {
    t.daily || t.weekly || t.monthly
  }

  /** The user has a task with a kind flag, and every such task is
      completed. */
  predicate AllFlaggedDone(ts: seq<Task>, user: nat) {
    (exists t :: t in ts && t.user == user && Flagged(t))
    && forall t :: t in ts && t.user == user && Flagged(t) ==> t.completed
  }

  /** `index`: the per-kind counts and the all-completed flag, which holds
      exactly when the user has a task with a kind flag and every such task
      is completed. No remaining count is negative. */
  function Index(ts: seq<Task>, user: nat): (r: Dashboard)
    ensures r.completedAll <==> AllFlaggedDone(ts, user)
    ensures r.daily.remaining >= 0 && r.weekly.remaining >= 0 && r.monthly.remaining >= 0
  {
    CompletedAllMeaning(ts, user);
    var d, w, m := Stats(ts, user, Daily), Stats(ts, user, Weekly), Stats(ts, user, Monthly);
    Dashboard(d, w, m, d.completed + w.completed + m.completed == d.total + w.total + m.total
                       && d.total + w.total + m.total != 0)
  }

  /** The summed counts agree, with a positive total, exactly when the user
      has a task with a kind flag and every such task is completed (a task
      may carry several flags and be counted more than once). */
  lemma CompletedAllMeaning(ts: seq<Task>, user: nat)
    ensures var d, w, m := Stats(ts, user, Daily), Stats(ts, user, Weekly), Stats(ts, user, Monthly);
      (d.completed + w.completed + m.completed == d.total + w.total + m.total
       && d.total + w.total + m.total != 0) <==> AllFlaggedDone(ts, user)
  {
    CompletedAtMostTotal(ts, user, Daily);
    CompletedAtMostTotal(ts, user, Weekly);
    CompletedAtMostTotal(ts, user, Monthly);
    CountsAgree(ts, user, Daily);
    CountsAgree(ts, user, Weekly);
    CountsAgree(ts, user, Monthly);
    TotalPositive(ts, user, Daily);
    TotalPositive(ts, user, Weekly);
    TotalPositive(ts, user, Monthly);
    var all := forall t :: t in ts && t.user == user && Flagged(t) ==> t.completed;
    if all {
      assert forall t :: t in ts && Selected(t, user, Daily) ==> t.completed;
      assert forall t :: t in ts && Selected(t, user, Weekly) ==> t.completed;
      assert forall t :: t in ts && Selected(t, user, Monthly) ==> t.completed;
    }
    if exists t :: t in ts && t.user == user && Flagged(t) {
      var t :| t in ts && t.user == user && Flagged(t);
      assert Selected(t, user, Daily) || Selected(t, user, Weekly) || Selected(t, user, Monthly);
    }
  }

  /** Right after a reset of kind k the dashboard shows no completed task of
      that kind for the user, so the "all completed" flag is off. */
  lemma ResetClearsDashboard(ts: seq<Task>, user: nat, k: TaskKind)
    ensures Count(Cleared(ts, user, k), user, k, true) == 0
  {
    ClearedSpec(ts, user, k);
    ZeroCount(Cleared(ts, user, k), user, k);
  }

  lemma {:induction false} ZeroCount(ts: seq<Task>, user: nat, k: TaskKind)
    requires forall i :: 0 <= i < |ts| && Selected(ts[i], user, k) ==> !ts[i].completed
    ensures Count(ts, user, k, true) == 0
  {
    if ts != [] {
      ZeroCount(ts[..|ts| - 1], user, k);
    }
  }

  // ---------------------------------------------------------------- mark_task_complete

  /** What the view sends back: 404, a redirect to the task's list page, or
      `NoResponse` when the view returns None (a GET request, or a POST on a
      task with no kind flag). Django answers a None with a server error
      (500); on a POST the toggle has already been saved by then. */
  datatype Response = NotFound | Redirect(page: string) | NoResponse

  /** The list page of a task's kind, in the order daily, weekly, monthly. */
  function ListPage(t: Task): (r: Option<string>)
    ensures r.None? <==> !Flagged(t)
  {
    if t.daily then Some("dailytask")
    else if t.weekly then Some("weeklytask")
    else if t.monthly then Some("monthlytask")
    else None
  }

  /** `mark_task_complete`: on POST, the user's own task with the given id
      is toggled (another user's task, or a missing one, is a 404 and
      nothing changes). */
  method MarkTaskComplete(db: Database, post: bool, taskId: nat, user: nat) returns (r: Response)
    requires db.Valid()
    modifies db.tasks
    ensures db.Valid()
    ensures r == NotFound <==> post && forall i :: 0 <= i < db.tasks.Length ==> !(old(db.tasks[i]).id == taskId && old(db.tasks[i]).user == user)
    ensures !post ==> r == NoResponse
    ensures r != NotFound && post ==> exists i :: 0 <= i < db.tasks.Length && old(db.tasks[i]).id == taskId && old(db.tasks[i]).user == user
                                       && db.tasks[..] == old(db.tasks[..])[i := Toggled(old(db.tasks[i]))]
                                       && r == (if ListPage(db.tasks[i]).Some? then Redirect(ListPage(db.tasks[i]).value) else NoResponse)
    ensures r == NotFound || !post ==> db.tasks[..] == old(db.tasks[..])
  {
    if !post {
      return NoResponse;
    }
    var i := db.IndexOf(taskId);
    if i < 0 || db.tasks[i].user != user {
      return NotFound;
    }
    db.ToggleAt(i);
    var page := ListPage(db.tasks[i]);
    r := if page.Some? then Redirect(page.value) else NoResponse;
  }

  // ---------------------------------------------------------------- export_task_to_excel

  const Headers: seq<string> := ["Date", "Title", "Description", "Execution_time", "Completed"]

  /** The sheet title and section header of each kind. */
  function SheetTitle(k: TaskKind): string {
    match k
    case Daily => "Daily"
    case Weekly => "Weekly"
    case Monthly => "Monthly"
  }

  /** The kinds in the order the sheets are created. */
  const Kinds: seq<TaskKind> := [Daily, Weekly, Monthly]

  /** `strftime('%d-%m-%Y')`. */
  function FormatDate(d: Date): string {
    Pad2(d.day) + "-" + Pad2(d.month) + "-" + Pad4(d.year)
  }

  /** `strftime('%H:%M')`. */
  function FormatTime(t: Time): string {
    Pad2(t.hour) + ":" + Pad2(t.minute)
  }

  predicate ValidDate(d: Date) {
    1 <= d.day <= 31 && 1 <= d.month <= 12 && d.year < 10000
  }

  /** The date text has the fixed dd-mm-yyyy layout and reads back as the
      date. */
  lemma FormatDateInverse(d: Date)
    requires ValidDate(d)
    ensures var s := FormatDate(d);
      && |s| == 10 && s[2] == '-' && s[5] == '-'
      && AllDigits(s[..2]) && DigitsValue(s[..2]) == d.day
      && AllDigits(s[3..5]) && DigitsValue(s[3..5]) == d.month
      && AllDigits(s[6..]) && DigitsValue(s[6..]) == d.year
  {
    var s := FormatDate(d);
    PadValue(d.day);
    PadValue(d.month);
    PadValue(d.year);
    assert s[..2] == Pad2(d.day);
    assert s[3..5] == Pad2(d.month);
    assert s[6..] == Pad4(d.year);
  }

  /** The time text has the HH:MM layout and reads back as the time. */
  lemma FormatTimeInverse(t: Time)
    requires ValidTime(t)
    ensures var s := FormatTime(t);
      && |s| == 5 && s[2] == ':'
      && AllDigits(s[..2]) && DigitsValue(s[..2]) == t.hour
      && AllDigits(s[3..]) && DigitsValue(s[3..]) == t.minute
  {
    var s := FormatTime(t);
    PadValue(t.hour);
    PadValue(t.minute);
    assert s[..2] == Pad2(t.hour);
    assert s[3..] == Pad2(t.minute);
  }

  /** `str(value)` of an optional day or date: Python renders `None` as
      "None". */
  function DayText(d: Option<string>): string {
    if d.None? then "None" else d.value
  }

  function DateText(d: Option<int>): string {
    if d.None? then "None" else IntToString(d.value)
  }

  /** The fourth cell: the time, with the day for weekly rows and
      "Day <n>" for monthly rows. */
  function ScheduleCell(h: TaskHistory, time: string): string {
    match h.taskType
    case Daily => time
    case Weekly => DayText(h.executionDay) + ", " + time
    case Monthly => "Day " + DateText(h.executionDate) + ", " + time
  }

  /** A written row has one cell per column. */
  type Row = r: seq<string> | |r| == 5 witness ["", "", "", "", ""]

  /** One data row, or `None` when the row has no execution time (the
      `strftime` call then raises and the export fails). */
  function DataRow(h: TaskHistory): (r: Option<Row>)
    ensures r.Some? <==> h.executionTime.Some?
  {
    if h.executionTime.None? then None
    else
      var time := FormatTime(h.executionTime.value);
      Some([FormatDate(h.date), h.title, h.description, ScheduleCell(h, time), if h.completed then "yes" else "no"])
  }

  /** The five cells of a row: the date, the title, the description, the
      schedule (the time, "<day>, " before it for weekly rows and
      "Day <n>, " for monthly ones) and "yes" or "no" for completion. */
  lemma DataRowCells(h: TaskHistory)
    requires h.executionTime.Some?
    ensures var row := DataRow(h).value; var time := FormatTime(h.executionTime.value);
      && row[0] == FormatDate(h.date) && row[1] == h.title && row[2] == h.description
      && (h.taskType == Daily ==> row[3] == time)
      && (h.taskType == Weekly ==> row[3] == DayText(h.executionDay) + ", " + time)
      && (h.taskType == Monthly ==> row[3] == "Day " + DateText(h.executionDate) + ", " + time)
      && (row[4] == "yes" <==> h.completed) && (row[4] == "no" <==> !h.completed)
  {
    PadValue(h.executionTime.value.hour);
    PadValue(h.executionTime.value.minute);
  }

  /** The width rule for one written value: grow to the value's length plus
      two, capped at 30. A width within the cap never shrinks, and the
      column then fits the value or has reached the cap. */
  function Fit(w: nat, value: string): (r: nat)
    ensures w <= 30 ==> r >= w
    ensures r >= |value| + 2 || r >= 30
    ensures r != w ==> r <= 30
  {
    var cw := |value| + 2;
    if w < cw then (if cw < 30 then cw else 30) else w
  }

  function Min30(n: nat): nat {
    if n < 30 then n else 30
  }

  function Max(a: nat, b: nat): nat {
    if a < b then b else a
  }

  /** Below the cap, the rule keeps the larger of the current width and the
      capped value width. */
  lemma FitIsMax(w: nat, value: string)
    requires w <= 30
    ensures Fit(w, value) == Max(w, Min30(|value| + 2))
  {
  }

  /** The header widths `len(header) + 2`. */
  function HeaderWidths(): (ws: seq<nat>)
    ensures |ws| == 5
    ensures forall c :: 0 <= c < 5 ==> ws[c] == |Headers[c]| + 2
  {
    [6, 7, 13, 16, 11]
  }

  function Widen(ws: seq<nat>, row: Row): (r: seq<nat>)
    requires |ws| == 5
    ensures |r| == 5
  {
    seq(5, c requires 0 <= c < 5 => Fit(ws[c], row[c]))
  }

  /** The column widths after the header and the given data rows. */
  function Widths(rows: seq<Row>): (ws: seq<nat>)
    ensures |ws| == 5
  {
    if rows == [] then HeaderWidths()
    else Widen(Widths(rows[..|rows| - 1]), rows[|rows| - 1])
  }

  /** Writing data never narrows a column below its header width nor widens
      it past 30, and every column is at least as wide as each of its values
      (plus two, up to the cap). */
  lemma {:induction false} WidthBounds(rows: seq<Row>)
    ensures forall c :: 0 <= c < 5 ==> HeaderWidths()[c] <= Widths(rows)[c] <= 30
    ensures forall j, c :: 0 <= j < |rows| && 0 <= c < 5 ==> Min30(|rows[j][c]| + 2) <= Widths(rows)[c]
  {
    if rows != [] {
      var init := rows[..|rows| - 1];
      WidthBounds(init);
      forall c | 0 <= c < 5 ensures Widths(rows)[c] == Max(Widths(init)[c], Min30(|rows[|rows| - 1][c]| + 2)) {
        FitIsMax(Widths(init)[c], rows[|rows| - 1][c]);
      }
      forall j, c | 0 <= j < |rows| && 0 <= c < 5 ensures Min30(|rows[j][c]| + 2) <= Widths(rows)[c] {
        if j < |rows| - 1 {
          assert rows[j] == init[j];
        }
      }
    }
  }

  /** Each column's width is its header width or one of its capped value
      widths, so with `WidthBounds` it is their maximum. */
  lemma {:induction false} WidthAttained(rows: seq<Row>, c: nat)
    requires c < 5
    ensures Widths(rows)[c] == HeaderWidths()[c]
            || exists j :: 0 <= j < |rows| && Widths(rows)[c] == Min30(|rows[j][c]| + 2)
  {
    if rows != [] {
      var init := rows[..|rows| - 1];
      WidthBounds(init);
      WidthAttained(init, c);
      FitIsMax(Widths(init)[c], rows[|rows| - 1][c]);
      if Widths(rows)[c] != Widths(init)[c] {
        assert Widths(rows)[c] == Min30(|rows[|rows| - 1][c]| + 2);
      } else if Widths(init)[c] != HeaderWidths()[c] {
        var j :| 0 <= j < |init| && Widths(init)[c] == Min30(|init[j][c]| + 2);
        assert rows[j] == init[j];
      }
    }
  }

  /** The rows written for some history rows, or `None` as soon as one of
      them has none. The sheet lemmas below hold for any row function;
      the export uses `DataRow`. */
  function RowsOf(hs: seq<TaskHistory>, rowOf: TaskHistory -> Option<Row>): (r: Option<seq<Row>>)
    ensures r.Some? ==> |r.value| == |hs|
  {
    if hs == [] then Some([])
    else
      var init := RowsOf(hs[..|hs| - 1], rowOf);
      var last := rowOf(hs[|hs| - 1]);
      if init.None? || last.None? then None else Some(init.value + [last.value])
  }

  /** Row i of the written rows is the row of history row i. */
  lemma {:induction false} RowsOfAt(hs: seq<TaskHistory>, rowOf: TaskHistory -> Option<Row>, i: nat)
    requires RowsOf(hs, rowOf).Some? && i < |hs|
    ensures rowOf(hs[i]) == Some(RowsOf(hs, rowOf).value[i])
  {
    var init := hs[..|hs| - 1];
    if i < |hs| - 1 {
      RowsOfAt(init, rowOf, i);
      assert init[i] == hs[i];
    }
  }

  /** Writing fails exactly when one history row has no row. */
  lemma {:induction false} RowsOfFails(hs: seq<TaskHistory>, rowOf: TaskHistory -> Option<Row>)
    ensures RowsOf(hs, rowOf).None? <==> exists i :: 0 <= i < |hs| && rowOf(hs[i]).None?
  {
    if hs != [] {
      var init := hs[..|hs| - 1];
      RowsOfFails(init, rowOf);
      if RowsOf(init, rowOf).None? {
        var i :| 0 <= i < |init| && rowOf(init[i]).None?;
        assert init[i] == hs[i];
      } else {
        forall i | 0 <= i < |init| ensures rowOf(hs[i]).Some? {
          assert init[i] == hs[i];
        }
      }
    }
  }

  /** `TaskHistory.objects.filter(task_type=..., user=user)`, in table order. */
  function UserRows(hs: seq<TaskHistory>, user: nat, k: TaskKind): (r: seq<TaskHistory>)
    ensures forall h :: h in r <==> h in hs && h.user == user && h.taskType == k
  {
    if hs == [] then []
    else
      var last := hs[|hs| - 1];
      assert hs == hs[..|hs| - 1] + [last];
      UserRows(hs[..|hs| - 1], user, k) + (if last.user == user && last.taskType == k then [last] else [])
  }

  /** A written sheet: its cells row by row (the section header, the column
      headers, then the data) and its final column widths. */
  datatype Sheet = Sheet(title: string, cells: seq<seq<string>>, widths: seq<nat>)

  /** A sheet as the export writes it: the title row and the header row,
      then each history row in turn, each written row widening the columns;
      `None` as soon as a history row has no row. */
  function Written(title: string, hs: seq<TaskHistory>, rowOf: TaskHistory -> Option<Row>): (r: Option<Sheet>)
    ensures r.Some? ==> r.value.title == title && |r.value.widths| == 5
  {
    if hs == [] then Some(Sheet(title, [[title], Headers], HeaderWidths()))
    else
      var init := Written(title, hs[..|hs| - 1], rowOf);
      var row := rowOf(hs[|hs| - 1]);
      if init.None? || row.None? then None
      else Some(init.value.(cells := init.value.cells + [row.value], widths := Widen(init.value.widths, row.value)))
  }

  /** The sheet of kind `k` for the given history rows. */
  function SheetFor(k: TaskKind, hs: seq<TaskHistory>): Option<Sheet> {
    Written(SheetTitle(k), hs, DataRow)
  }

  /** The written sheet is the title row, the header row and the written
      rows, with the widths `Widths` of those rows. */
  lemma {:induction false} WrittenRows(title: string, hs: seq<TaskHistory>, rowOf: TaskHistory -> Option<Row>)
    ensures Written(title, hs, rowOf).Some? <==> RowsOf(hs, rowOf).Some?
    ensures RowsOf(hs, rowOf).Some? ==>
              Written(title, hs, rowOf).value
              == Sheet(title, [[title], Headers] + RowsOf(hs, rowOf).value, Widths(RowsOf(hs, rowOf).value))
  {
    if hs != [] {
      var init := hs[..|hs| - 1];
      WrittenRows(title, init, rowOf);
      var data := RowsOf(init, rowOf);
      var row := rowOf(hs[|hs| - 1]);
      if data.Some? && row.Some? {
        var rows := data.value + [row.value];
        assert rows[..|rows| - 1] == data.value;
        assert [[title], Headers] + data.value + [row.value] == [[title], Headers] + rows;
      }
    }
  }

  /** A written sheet holds the title row, the header row, then one row
      per history row in order. */
  lemma WrittenShape(title: string, hs: seq<TaskHistory>, rowOf: TaskHistory -> Option<Row>)
    requires Written(title, hs, rowOf).Some?
    ensures var sheet := Written(title, hs, rowOf).value;
      && |sheet.cells| == 2 + |hs|
      && sheet.cells[..2] == [[title], Headers]
      && forall i :: 0 <= i < |hs| ==> rowOf(hs[i]) == Some(sheet.cells[2 + i])
  {
    WrittenRows(title, hs, rowOf);
    forall i | 0 <= i < |hs| ensures rowOf(hs[i]) == Some(Written(title, hs, rowOf).value.cells[2 + i]) {
      RowsOfAt(hs, rowOf, i);
    }
  }

  /** Writing a sheet fails exactly when one history row has no row. */
  lemma WrittenFails(title: string, hs: seq<TaskHistory>, rowOf: TaskHistory -> Option<Row>)
    ensures Written(title, hs, rowOf).None? <==> exists i :: 0 <= i < |hs| && rowOf(hs[i]).None?
  {
    WrittenRows(title, hs, rowOf);
    RowsOfFails(hs, rowOf);
  }

  /** The sheet after one more history row. */
  lemma WrittenNext(title: string, hs: seq<TaskHistory>, rowOf: TaskHistory -> Option<Row>, i: nat)
    requires i < |hs|
    ensures var init := Written(title, hs[..i], rowOf);
      Written(title, hs[..i + 1], rowOf)
      == if init.None? || rowOf(hs[i]).None? then None
         else Some(init.value.(cells := init.value.cells + [rowOf(hs[i]).value],
                               widths := Widen(init.value.widths, rowOf(hs[i]).value)))
  {
    assert hs[..i + 1][..i] == hs[..i];
  }

  /** One pass of the width rule over the cells of a written row. */
  method WidenColumns(widths: array<nat>, row: Row)
    requires widths.Length == 5
    modifies widths
    ensures widths[..] == Widen(old(widths[..]), row)
  {
    for c := 0 to 5
      invariant widths[..c] == Widen(old(widths[..]), row)[..c]
      invariant widths[c..] == old(widths[..])[c..]
    {
      widths[c] := Fit(widths[c], row[c]);
    }
  }

  /** Writes the title row, the header row and one row per history row,
      keeping the column widths in an array. */
  method WriteRows(title: string, hs: seq<TaskHistory>, rowOf: TaskHistory -> Option<Row>) returns (sheet: Option<Sheet>)
    ensures sheet == Written(title, hs, rowOf)
  {
    var widths := new nat[5];
    widths[0], widths[1], widths[2], widths[3], widths[4] := 6, 7, 13, 16, 11;
    var cells := [[title], Headers];
    var i := 0;
    assert widths[..] == HeaderWidths() && hs[..0] == [];
    while i < |hs|
      invariant 0 <= i <= |hs|
      invariant Written(title, hs[..i], rowOf) == Some(Sheet(title, cells, widths[..]))
    {
      var row := rowOf(hs[i]);
      if row.None? {
        WrittenFails(title, hs, rowOf);
        return None;
      }
      WrittenNext(title, hs, rowOf, i);
      WidenColumns(widths, row.value);
      cells := cells + [row.value];
      i := i + 1;
    }
    assert hs[..|hs|] == hs;
    sheet := Some(Sheet(title, cells, widths[..]));
  }

  /** One sheet of the export, written with `DataRow`. */
  method WriteSheet(k: TaskKind, hs: seq<TaskHistory>) returns (sheet: Option<Sheet>)
    ensures sheet == SheetFor(k, hs)
  {
    sheet := WriteRows(SheetTitle(k), hs, DataRow);
  }

  /** The sheet of kind `k` of a user's export. */
  function UserSheet(hs: seq<TaskHistory>, user: nat): TaskKind -> Option<Sheet> {
    k => SheetFor(k, UserRows(hs, user, k))
  }

  /** The sheets of the given kinds in order, or `None` when one fails. */
  function Sheets(sheetOf: TaskKind -> Option<Sheet>, ks: seq<TaskKind>): (r: Option<seq<Sheet>>)
    ensures r.Some? ==> |r.value| == |ks|
  {
    if ks == [] then Some([])
    else
      var init := Sheets(sheetOf, ks[..|ks| - 1]);
      var sheet := sheetOf(ks[|ks| - 1]);
      if init.None? || sheet.None? then None else Some(init.value + [sheet.value])
  }

  /** The workbook: one sheet per kind in the order Daily, Weekly, Monthly,
      or `None` when the export fails. */
  function Workbook(hs: seq<TaskHistory>, user: nat): Option<seq<Sheet>> {
    Sheets(UserSheet(hs, user), Kinds)
  }

  /** Once a prefix of the kinds fails, the whole export fails. */
  lemma {:induction false} SheetsPrefixFails(sheetOf: TaskKind -> Option<Sheet>, ks: seq<TaskKind>, n: nat)
    requires n <= |ks| && Sheets(sheetOf, ks[..n]).None?
    ensures Sheets(sheetOf, ks).None?
  {
    if n < |ks| {
      var init := ks[..|ks| - 1];
      assert init[..n] == ks[..n];
      SheetsPrefixFails(sheetOf, init, n);
    } else {
      assert ks[..n] == ks;
    }
  }

  /** The sheets of one more kind. */
  lemma SheetsNext(sheetOf: TaskKind -> Option<Sheet>, ks: seq<TaskKind>, n: nat)
    requires n < |ks|
    ensures Sheets(sheetOf, ks[..n + 1])
            == if Sheets(sheetOf, ks[..n]).None? || sheetOf(ks[n]).None? then None
               else Some(Sheets(sheetOf, ks[..n]).value + [sheetOf(ks[n]).value])
  {
    assert ks[..n + 1][..n] == ks[..n];
  }

  /** `export_task_to_excel`: one sheet per task type of the user's history. */
  method ExportTaskToExcel(hs: seq<TaskHistory>, user: nat) returns (book: Option<seq<Sheet>>)
    ensures book == Workbook(hs, user)
  {
    ghost var sheetOf := UserSheet(hs, user);
    var sheets: seq<Sheet> := [];
    var n := 0;
    assert Kinds[..0] == [];
    while n < 3
      invariant 0 <= n <= 3 && Sheets(sheetOf, Kinds[..n]) == Some(sheets)
    {
      var k := Kinds[n];
      var s := WriteSheet(k, UserRows(hs, user, k));
      assert s == sheetOf(k);
      SheetsNext(sheetOf, Kinds, n);
      if s.None? {
        SheetsPrefixFails(sheetOf, Kinds, n + 1);
        return None;
      }
      sheets := sheets + [s.value];
      n := n + 1;
    }
    assert Kinds[..3] == Kinds;
    book := Some(sheets);
  }

  /** Sheet j of the export is the sheet of kind `ks[j]`. */
  lemma {:induction false} SheetsAt(sheetOf: TaskKind -> Option<Sheet>, ks: seq<TaskKind>, j: nat)
    requires Sheets(sheetOf, ks).Some? && j < |ks|
    ensures sheetOf(ks[j]) == Some(Sheets(sheetOf, ks).value[j])
  {
    var init := ks[..|ks| - 1];
    if j < |ks| - 1 {
      SheetsAt(sheetOf, init, j);
      assert init[j] == ks[j];
    }
  }

  /** The export over some kinds fails exactly when the sheet of one of
      them fails. */
  lemma {:induction false} SheetsFail(sheetOf: TaskKind -> Option<Sheet>, ks: seq<TaskKind>)
    ensures Sheets(sheetOf, ks).None? <==> exists j :: 0 <= j < |ks| && sheetOf(ks[j]).None?
  {
    if ks != [] {
      var init := ks[..|ks| - 1];
      SheetsFail(sheetOf, init);
      if Sheets(sheetOf, init).None? {
        var j :| 0 <= j < |init| && sheetOf(init[j]).None?;
        assert init[j] == ks[j];
      } else {
        forall j | 0 <= j < |init| ensures sheetOf(ks[j]).Some? {
          assert init[j] == ks[j];
        }
      }
    }
  }

  /** The sheet of kind `k` of a user's export holds, after its title row
      and the header row, one row per history row of that user and kind,
      in table order. */
  lemma UserSheetShape(hs: seq<TaskHistory>, user: nat, k: TaskKind)
    requires SheetFor(k, UserRows(hs, user, k)).Some?
    ensures var rows := UserRows(hs, user, k);
      var sheet := SheetFor(k, rows).value;
      && |sheet.cells| == 2 + |rows|
      && sheet.cells[..2] == [[SheetTitle(k)], Headers]
      && forall i :: 0 <= i < |rows| ==>
           rows[i].user == user && rows[i].taskType == k && DataRow(rows[i]) == Some(sheet.cells[2 + i])
  {
    var rows := UserRows(hs, user, k);
    WrittenShape(SheetTitle(k), rows, DataRow);
    forall i | 0 <= i < |rows| ensures rows[i].user == user && rows[i].taskType == k {
      assert rows[i] in rows;
    }
  }

  /** The workbook has exactly three sheets, the Daily, Weekly and Monthly
      sheets of the user's rows, in that order (their contents are
      `UserSheetShape`). */
  lemma WorkbookShape(hs: seq<TaskHistory>, user: nat)
    requires Workbook(hs, user).Some?
    ensures var book := Workbook(hs, user).value;
      && |book| == 3
      && book[0].title == "Daily" && book[1].title == "Weekly" && book[2].title == "Monthly"
      && SheetFor(Daily, UserRows(hs, user, Daily)) == Some(book[0])
      && SheetFor(Weekly, UserRows(hs, user, Weekly)) == Some(book[1])
      && SheetFor(Monthly, UserRows(hs, user, Monthly)) == Some(book[2])
  {
    SheetsAt(UserSheet(hs, user), Kinds, 0);
    SheetsAt(UserSheet(hs, user), Kinds, 1);
    SheetsAt(UserSheet(hs, user), Kinds, 2);
  }

  /** One sheet fails exactly when one of the user's history rows of its
      type has no execution time. */
  lemma SheetFails(hs: seq<TaskHistory>, user: nat, k: TaskKind)
    ensures SheetFor(k, UserRows(hs, user, k)).None?
            <==> exists h :: h in hs && h.user == user && h.taskType == k && h.executionTime.None?
  {
    var rows := UserRows(hs, user, k);
    WrittenFails(SheetTitle(k), rows, DataRow);
    if h :| h in hs && h.user == user && h.taskType == k && h.executionTime.None? {
      assert h in rows;
      var i :| 0 <= i < |rows| && rows[i] == h;
    } else {
      forall i | 0 <= i < |rows| ensures rows[i].executionTime.Some? {
        assert rows[i] in rows;
      }
    }
  }

  /** The export fails exactly when one of the user's history rows has no
      execution time. */
  lemma WorkbookFails(hs: seq<TaskHistory>, user: nat)
    ensures Workbook(hs, user).None? <==> exists h :: h in hs && h.user == user && h.executionTime.None?
  {
    var sheetOf := UserSheet(hs, user);
    SheetsFail(sheetOf, Kinds);
    if h :| h in hs && h.user == user && h.executionTime.None? {
      var j := if h.taskType == Daily then 0 else if h.taskType == Weekly then 1 else 2;
      SheetFails(hs, user, Kinds[j]);
      assert sheetOf(Kinds[j]).None?;
    } else {
      forall j | 0 <= j < 3 ensures sheetOf(Kinds[j]).Some? {
        SheetFails(hs, user, Kinds[j]);
      }
    }
  }

  /** The texts of 5 July 2023, 08:00 and day 31. */
  lemma ExportTexts()
    ensures FormatTime(Time(8, 0)) == "08:00"
    ensures FormatDate(Date(2023, 7, 5)) == "05-07-2023"
    ensures IntToString(31) == "31"
  {
    assert NatToString(8) == "8" && NatToString(0) == "0" && NatToString(5) == "5" && NatToString(7) == "7";
    assert NatToString(31) == NatToString(3) + "1";
    assert NatToString(2023) == NatToString(202) + "3";
    assert NatToString(202) == NatToString(20) + "2";
    assert NatToString(20) == NatToString(2) + "0";
  }

  /** The rows the export test expects for a completed task of each kind
      archived on 5 July 2023 at 08:00. */
  lemma ExportRowCases()
    ensures DataRow(TaskHistory(1, "Daily Task 1", "This is a daily task", None, Some(Time(8, 0)), None, true, Daily, Date(2023, 7, 5)))
            == Some(["05-07-2023", "Daily Task 1", "This is a daily task", "08:00", "yes"])
    ensures DataRow(TaskHistory(1, "Weekly Task 1", "This is a weekly task", Some("Wednesday"), Some(Time(8, 0)), None, true, Weekly, Date(2023, 7, 5))).value[3]
            == "Wednesday, 08:00"
    ensures DataRow(TaskHistory(1, "Monthly Task 1", "This is a monthly task", None, Some(Time(8, 0)), Some(31), true, Monthly, Date(2023, 7, 5))).value[3]
            == "Day 31, 08:00"
  {
    ExportTexts();
  }
}
