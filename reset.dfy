/** The three reset commands (daily, weekly, monthly). Each run loops over
    all profiles; when the profile's local time is the kind's trigger
    minute, it archives one history row per task of that kind owned by the
    user and then clears the completion flag of those tasks. The check is an
    exact wall-clock match: the code keeps no record of the last reset. */
module Reset {
  import opened Basics
  import opened Models
  import opened Store

  /** The wall clock in a profile's time zone at the moment of the run.
      `weekday` follows Python's `weekday()`: Monday is 0. */
  datatype LocalDateTime = LocalDateTime(date: Date, weekday: nat, hour: nat, minute: nat)

  /** A task carries the flag of kind k. */
  predicate OfKind(t: Task, k: TaskKind) {
    match k
    case Daily => t.daily
    case Weekly => t.weekly
    case Monthly => t.monthly
  }

  /** `Task.objects.filter(<kind>=True, user=user)`. */
  predicate Selected(t: Task, user: nat, k: TaskKind) {
    t.user == user && OfKind(t, k)
  }

  /** The trigger minute of each command: 00:00 every day; Monday at 00:00;
      the first of the month at 00:00. */
  predicate Trigger(k: TaskKind, now: LocalDateTime)
    ensures Trigger(k, now) ==> now.hour == 0 && now.minute == 0
  {
    match k
    case Daily => now.hour == 0 && now.minute == 0
    case Weekly => now.weekday == 0 && now.hour == 0 && now.minute == 0
    case Monthly => now.date.day == 1 && now.hour == 0 && now.minute == 0
  }

  /** The history row made for one task: the daily command copies no
      day or date, the weekly one copies the day, the monthly one the date. */
  function Snapshot(t: Task, k: TaskKind, today: Date): (h: TaskHistory)
    ensures h.user == t.user && h.title == t.title && h.description == t.description
    ensures h.executionTime == t.executionTime && h.completed == t.completed
    ensures h.taskType == k && h.date == today
    ensures h.executionDay == (if k == Weekly then t.executionDay else None)
    ensures h.executionDate == (if k == Monthly then t.executionDate else None)
  {
    match k
    case Daily => TaskHistory(t.user, t.title, t.description, None, t.executionTime, None, t.completed, Daily, today)
    case Weekly => TaskHistory(t.user, t.title, t.description, t.executionDay, t.executionTime, None, t.completed, Weekly, today)
    case Monthly => TaskHistory(t.user, t.title, t.description, None, t.executionTime, t.executionDate, t.completed, Monthly, today)
  }

  /** The user's tasks of kind k, in table order. */
  function Owned(ts: seq<Task>, user: nat, k: TaskKind): seq<Task>
  {
    if ts == [] then []
    else
      var last := ts[|ts| - 1];
      Owned(ts[..|ts| - 1], user, k) + (if Selected(last, user, k) then [last] else [])
  }

  /** The `bulk_create` list: one snapshot per selected task, in table order. */
  function Snapshots(ts: seq<Task>, user: nat, k: TaskKind, today: Date): (r: seq<TaskHistory>)
    ensures |r| <= |ts|
    ensures forall h :: h in r ==> h.user == user && h.taskType == k && h.date == today
  {
    if ts == [] then []
    else
      var last := ts[|ts| - 1];
      Snapshots(ts[..|ts| - 1], user, k, today)
      + (if Selected(last, user, k) then [Snapshot(last, k, today)] else [])
  }

  /** The archived row's string form is the day's ISO date, " - ", then the
      task's own string form; with a four-digit year the title follows the
      ten-character date and the separator. */
  lemma SnapshotString(t: Task, k: TaskKind, today: Date)
    ensures HistoryString(Snapshot(t, k, today)) == IsoDate(today) + " - " + TaskString(t)
    ensures today.year < 10000 && today.month < 100 && today.day < 100 ==>
      var s := HistoryString(Snapshot(t, k, today)); |s| >= 13 && s[13..] == TaskString(t)
  {
    if today.year < 10000 && today.month < 100 && today.day < 100 {
      HistoryStringParts(Snapshot(t, k, today));
    }
  }

  /** The task table after `filter(user=user, completed=True, <kind>=True)
      .update(completed=False)`. */
  function Cleared(ts: seq<Task>, user: nat, k: TaskKind): (r: seq<Task>)
    ensures |r| == |ts|
    ensures forall i :: 0 <= i < |ts| ==> r[i].(completed := ts[i].completed) == ts[i]
    ensures forall i :: 0 <= i < |ts| ==> (r[i].completed <==> ts[i].completed && !Selected(ts[i], user, k))
  {
    seq(|ts|, i requires 0 <= i < |ts| =>
      if Selected(ts[i], user, k) && ts[i].completed then ts[i].(completed := false) else ts[i])
  }

  /** Owned keeps each selected task as often as the table holds it and
      nothing else. */
  lemma {:induction false} OwnedCounts(ts: seq<Task>, user: nat, k: TaskKind)
    ensures forall t :: multiset(Owned(ts, user, k))[t] == if Selected(t, user, k) then multiset(ts)[t] else 0
  {
    if ts != [] {
      var init, last := ts[..|ts| - 1], ts[|ts| - 1];
      OwnedCounts(init, user, k);
      assert ts == init + [last];
      assert multiset(ts) == multiset(init) + multiset{last};
    }
  }

  /** Exactly one snapshot per selected task, completed or not, each a copy
      of that task: Snapshots is Snapshot mapped over Owned. */
  lemma {:induction false} SnapshotsAreCopies(ts: seq<Task>, user: nat, k: TaskKind, today: Date)
    ensures |Snapshots(ts, user, k, today)| == |Owned(ts, user, k)|
    ensures forall j :: 0 <= j < |Owned(ts, user, k)| ==>
      Snapshots(ts, user, k, today)[j] == Snapshot(Owned(ts, user, k)[j], k, today)
  {
    if ts != [] {
      SnapshotsAreCopies(ts[..|ts| - 1], user, k, today);
    }
  }

  /** After the reset every selected task is incomplete; all other rows are
      untouched, and a selected row changes in its flag only. */
  lemma ClearedSpec(ts: seq<Task>, user: nat, k: TaskKind)
    ensures |Cleared(ts, user, k)| == |ts|
    ensures forall i :: 0 <= i < |ts| && Selected(ts[i], user, k) ==>
      Cleared(ts, user, k)[i] == ts[i].(completed := false)
    ensures forall i :: 0 <= i < |ts| && !Selected(ts[i], user, k) ==> Cleared(ts, user, k)[i] == ts[i]
  {
  }

  /** The snapshot must come before the reset: taken afterwards, every row
      would record "not completed". */
  lemma {:induction false} SnapshotAfterResetLosesCompletion(ts: seq<Task>, user: nat, k: TaskKind, today: Date)
    ensures forall h :: h in Snapshots(Cleared(ts, user, k), user, k, today) ==> !h.completed
  {
    if ts != [] {
      var init := ts[..|ts| - 1];
      SnapshotAfterResetLosesCompletion(init, user, k, today);
      assert Cleared(ts, user, k)[..|ts| - 1] == Cleared(init, user, k);
    }
  }

  /** The contents of both tables. */
  datatype Tables = Tables(tasks: seq<Task>, history: seq<TaskHistory>)

  /** One profile's turn in a run: nothing happens unless the local time is
      the trigger; then the snapshots are appended and the flags cleared. */
  function Step(db: Tables, p: UserProfile, k: TaskKind, localNow: string -> LocalDateTime): (r: Tables)
    ensures |r.tasks| == |db.tasks| && |r.history| >= |db.history|
  {
    var now := localNow(p.timezone);
    if Trigger(k, now) then
      Tables(Cleared(db.tasks, p.user, k), db.history + Snapshots(db.tasks, p.user, k, now.date))
    else db
  }

  /** A whole run: every profile in turn. */
  function Run(db: Tables, profiles: seq<UserProfile>, k: TaskKind, localNow: string -> LocalDateTime): (r: Tables)
    ensures |r.tasks| == |db.tasks| && |r.history| >= |db.history|
  {
    if profiles == [] then db
    else Step(Run(db, profiles[..|profiles| - 1], k, localNow), profiles[|profiles| - 1], k, localNow)
  }

  /** The rows handed to `bulk_create`, one per selected task in table order. */
  method CollectSnapshots(a: array<Task>, user: nat, k: TaskKind, today: Date) returns (rows: seq<TaskHistory>)
    ensures rows == Snapshots(a[..], user, k, today)
  {
    var i := 0;
    rows := [];
    while i < a.Length
      invariant 0 <= i <= a.Length
      invariant rows == Snapshots(a[..i], user, k, today)
    {
      assert a[..i + 1][..i] == a[..i];
      if Selected(a[i], user, k) {
        rows := rows + [Snapshot(a[i], k, today)];
      }
      i := i + 1;
    }
    assert a[..a.Length] == a[..];
  }

  /** The `update(completed=False)`, row by row. */
  method ClearFlags(a: array<Task>, user: nat, k: TaskKind)
    modifies a
    ensures a[..] == Cleared(old(a[..]), user, k)
  {
    var i := 0;
    while i < a.Length
      invariant 0 <= i <= a.Length
      invariant forall j :: 0 <= j < i ==> a[j] == Cleared(old(a[..]), user, k)[j]
      invariant forall j :: i <= j < a.Length ==> a[j] == old(a[j])
    {
      if Selected(a[i], user, k) && a[i].completed {
        a[i] := a[i].(completed := false);
      }
      i := i + 1;
    }
  }

  /** `_reset_daily_tasks` and its weekly and monthly counterparts: snapshot
      every task of kind k owned by the user, then clear their flags. */
  method ResetUserTasks(db: Database, user: nat, k: TaskKind, today: Date)
    requires db.Valid()
    modifies db, db.tasks
    ensures db.Valid() && db.tasks == old(db.tasks)
    ensures db.history == old(db.history) + Snapshots(old(db.tasks[..]), user, k, today)
    ensures db.tasks[..] == Cleared(old(db.tasks[..]), user, k)
  {
    var rows := CollectSnapshots(db.tasks, user, k, today);
    db.history := db.history + rows;
    ClearFlags(db.tasks, user, k);
    assert forall j :: 0 <= j < db.tasks.Length ==> db.tasks[j].id == old(db.tasks[j]).id;
  }

  /** `Command.handle` of a reset command for kind k. */
  method Handle(db: Database, k: TaskKind, profiles: seq<UserProfile>, localNow: string -> LocalDateTime)
    requires db.Valid()
    modifies db, db.tasks
    ensures db.Valid() && db.tasks == old(db.tasks)
    ensures Tables(db.tasks[..], db.history) == Run(Tables(old(db.tasks[..]), old(db.history)), profiles, k, localNow)
  {
    var i := 0;
    while i < |profiles|
      invariant 0 <= i <= |profiles|
      invariant db.Valid() && db.tasks == old(db.tasks)
      invariant Tables(db.tasks[..], db.history) == Run(Tables(old(db.tasks[..]), old(db.history)), profiles[..i], k, localNow)
    {
      var p := profiles[i];
      var now := localNow(p.timezone);
      if Trigger(k, now) {
        ResetUserTasks(db, p.user, k, now.date);
      }
      assert profiles[..i + 1][..i] == profiles[..i];
      i := i + 1;
    }
    assert profiles[..|profiles|] == profiles;
  }

  /** `reset_daily_tasks`. */
  method ResetDailyTasks(db: Database, profiles: seq<UserProfile>, localNow: string -> LocalDateTime)
    requires db.Valid()
    modifies db, db.tasks
    ensures db.Valid() && db.tasks == old(db.tasks)
    ensures Tables(db.tasks[..], db.history) == Run(Tables(old(db.tasks[..]), old(db.history)), profiles, Daily, localNow)
  {
    Handle(db, Daily, profiles, localNow);
  }

  /** `reset_weekly_tasks`. */
  method ResetWeeklyTasks(db: Database, profiles: seq<UserProfile>, localNow: string -> LocalDateTime)
    requires db.Valid()
    modifies db, db.tasks
    ensures db.Valid() && db.tasks == old(db.tasks)
    ensures Tables(db.tasks[..], db.history) == Run(Tables(old(db.tasks[..]), old(db.history)), profiles, Weekly, localNow)
  {
    Handle(db, Weekly, profiles, localNow);
  }

  /** `reset_monthly_tasks`. */
  method ResetMonthlyTasks(db: Database, profiles: seq<UserProfile>, localNow: string -> LocalDateTime)
    requires db.Valid()
    modifies db, db.tasks
    ensures db.Valid() && db.tasks == old(db.tasks)
    ensures Tables(db.tasks[..], db.history) == Run(Tables(old(db.tasks[..]), old(db.history)), profiles, Monthly, localNow)
  {
    Handle(db, Monthly, profiles, localNow);
  }

  /** Outside the trigger minute a profile changes nothing. */
  lemma NoTriggerNoChange(db: Tables, p: UserProfile, k: TaskKind, localNow: string -> LocalDateTime)
    requires !Trigger(k, localNow(p.timezone))
    ensures Step(db, p, k, localNow) == db
  {
  }

  /** A run in which no profile is at its trigger minute changes nothing. */
  lemma {:induction false} QuietRun(db: Tables, profiles: seq<UserProfile>, k: TaskKind, localNow: string -> LocalDateTime)
    requires forall p :: p in profiles ==> !Trigger(k, localNow(p.timezone))
    ensures Run(db, profiles, k, localNow) == db
  {
    if profiles != [] {
      QuietRun(db, profiles[..|profiles| - 1], k, localNow);
    }
  }

  /** History only grows: the rows present before a run are kept, unchanged
      and in place, and every added row is stamped with the run's kind. */
  lemma {:induction false} RunAppendsHistory(db: Tables, profiles: seq<UserProfile>, k: TaskKind, localNow: string -> LocalDateTime)
    ensures var r := Run(db, profiles, k, localNow);
      |r.history| >= |db.history| && r.history[..|db.history|] == db.history
      && (forall j :: |db.history| <= j < |r.history| ==> r.history[j].taskType == k)
      && |r.tasks| == |db.tasks|
  {
    if profiles != [] {
      var mid := Run(db, profiles[..|profiles| - 1], k, localNow);
      RunAppendsHistory(db, profiles[..|profiles| - 1], k, localNow);
      var p := profiles[|profiles| - 1];
      var now := localNow(p.timezone);
      if Trigger(k, now) {
        var r := Run(db, profiles, k, localNow);
        assert r.history == mid.history + Snapshots(mid.tasks, p.user, k, now.date);
        forall j | |db.history| <= j < |r.history|
          ensures r.history[j].taskType == k
        {
          if j >= |mid.history| {
            assert r.history[j] in Snapshots(mid.tasks, p.user, k, now.date);
          }
        }
      }
    }
  }

  /** One profile's turn touches only the completion flag of row i, and
      only when the row is of kind k, is the profile's user's and the
      profile is at its trigger minute. */
  lemma StepFrame(db: Tables, p: UserProfile, k: TaskKind, localNow: string -> LocalDateTime, i: nat)
    requires i < |db.tasks|
    ensures var r := Step(db, p, k, localNow);
      |r.tasks| == |db.tasks|
      && r.tasks[i].(completed := db.tasks[i].completed) == db.tasks[i]
      && ((!OfKind(db.tasks[i], k) || p.user != db.tasks[i].user || !Trigger(k, localNow(p.timezone)))
          ==> r.tasks[i] == db.tasks[i])
  {
  }

  /** A run touches only the completion flag of tasks of kind k whose owner
      had a profile at its trigger minute; every other row is unchanged. */
  lemma {:induction false} RunFrame(db: Tables, profiles: seq<UserProfile>, k: TaskKind, localNow: string -> LocalDateTime, i: nat)
    requires i < |db.tasks|
    ensures var r := Run(db, profiles, k, localNow);
      |r.tasks| == |db.tasks|
      && r.tasks[i].(completed := db.tasks[i].completed) == db.tasks[i]
      && ((!OfKind(db.tasks[i], k)
           || forall p :: p in profiles && p.user == db.tasks[i].user ==> !Trigger(k, localNow(p.timezone)))
          ==> r.tasks[i] == db.tasks[i])
  {
    if profiles != [] {
      var init := profiles[..|profiles| - 1];
      var p := profiles[|profiles| - 1];
      RunFrame(db, init, k, localNow, i);
      var mid := Run(db, init, k, localNow);
      StepFrame(mid, p, k, localNow, i);
      assert p in profiles;
      assert forall q :: q in init ==> q in profiles;
    }
  }

  /** After a run, every task of kind k of a user whose profile was at its
      trigger minute is incomplete. */
  lemma {:induction false} RunClears(db: Tables, profiles: seq<UserProfile>, k: TaskKind, localNow: string -> LocalDateTime, i: nat)
    requires i < |db.tasks| && OfKind(db.tasks[i], k)
    requires exists p :: p in profiles && p.user == db.tasks[i].user && Trigger(k, localNow(p.timezone))
    ensures var r := Run(db, profiles, k, localNow);
      |r.tasks| == |db.tasks| && !r.tasks[i].completed
  {
    var init := profiles[..|profiles| - 1];
    var last := profiles[|profiles| - 1];
    var mid := Run(db, init, k, localNow);
    RunFrame(db, init, k, localNow, i);
    if exists p :: p in init && p.user == db.tasks[i].user && Trigger(k, localNow(p.timezone)) {
      RunClears(db, init, k, localNow, i);
    } else {
      assert profiles == init + [last];
      assert last.user == db.tasks[i].user && Trigger(k, localNow(last.timezone));
    }
  }

  /** Two runs in the same trigger minute archive every task twice; the
      second batch records every task as incomplete. */
  lemma DoubleRunDuplicates(db: Tables, p: UserProfile, k: TaskKind, localNow: string -> LocalDateTime)
    requires Trigger(k, localNow(p.timezone))
    ensures var once := Step(db, p, k, localNow);
      var twice := Step(once, p, k, localNow);
      |twice.history| == |db.history| + 2 * |Owned(db.tasks, p.user, k)|
      && forall j :: |once.history| <= j < |twice.history| ==> !twice.history[j].completed
  {
    var d := localNow(p.timezone).date;
    var once := Step(db, p, k, localNow);
    SnapshotsAreCopies(db.tasks, p.user, k, d);
    SnapshotsAreCopies(once.tasks, p.user, k, d);
    OwnedSameLength(db.tasks, p.user, k);
    SnapshotAfterResetLosesCompletion(db.tasks, p.user, k, d);
    var twice := Step(once, p, k, localNow);
    forall j | |once.history| <= j < |twice.history|
      ensures !twice.history[j].completed
    {
      assert twice.history[j] in Snapshots(once.tasks, p.user, k, d);
    }
  }

  /** Clearing flags does not change which tasks are selected. */
  lemma {:induction false} OwnedSameLength(ts: seq<Task>, user: nat, k: TaskKind)
    ensures |Owned(Cleared(ts, user, k), user, k)| == |Owned(ts, user, k)|
  {
    if ts != [] {
      var init := ts[..|ts| - 1];
      OwnedSameLength(init, user, k);
      assert Cleared(ts, user, k)[..|ts| - 1] == Cleared(init, user, k);
    }
  }
}
