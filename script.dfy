/** The computing parts of the front-end script: the 12-hour time text of
    `convertTo12HourFormat`, the completion badge of `updateBadge`, the row
    numbers of `updateNumberColumn`, and the ascending and descending
    comparators of the `custom-datetime` column type. */
module Script {
  import opened Basics
  import opened Models
  import opened Reset
  import opened Views

  // ---------------------------------------------------------------- JavaScript values

  /** A JavaScript number as far as the script uses one: an integer or NaN. */
  datatype JsNumber = Num(value: int) | NaN

  /** `String(n)` for an integer or NaN. */
  function NumberText(n: JsNumber): string {
    match n
    case NaN => "NaN"
    case Num(v) => IntToString(v)
  }

  /** `s.split(sep)`: the pieces between the separators, at least one. */
  function Split(s: string, sep: char): (parts: seq<string>)
    ensures |parts| >= 1
  {
    if s == [] then [""]
    else if s[0] == sep then [""] + Split(s[1..], sep)
    else
      var rest := Split(s[1..], sep);
      [[s[0]] + rest[0]] + rest[1..]
  }

  /** `parts.join(sep)`: the text starts with the first piece, followed by
      a separator when there are more. */
  function Join(parts: seq<string>, sep: char): (r: string)
    requires |parts| >= 1
    ensures |r| >= |parts[0]| && r[..|parts[0]|] == parts[0]
    ensures |parts| == 1 ==> r == parts[0]
    ensures |parts| > 1 ==> |r| > |parts[0]| && r[|parts[0]|] == sep
  {
    if |parts| == 1 then parts[0] else parts[0] + [sep] + Join(parts[1..], sep)
  }

  predicate NoSep(s: string, sep: char) {
    forall i :: 0 <= i < |s| ==> s[i] != sep
  }

  /** Joining the pieces gives back the text. */
  lemma {:induction false} JoinSplit(s: string, sep: char)
    ensures Join(Split(s, sep), sep) == s
  {
    if s != [] {
      JoinSplit(s[1..], sep);
      var rest := Split(s[1..], sep);
      if s[0] == sep {
        assert Split(s, sep) == [""] + rest;
        assert ([""] + rest)[1..] == rest;
      } else {
        JoinFirst(s[0], rest, sep);
      }
      assert s == [s[0]] + s[1..];
    }
  }

  /** A character put in front of the first piece comes first in the join. */
  lemma JoinFirst(c: char, parts: seq<string>, sep: char)
    requires |parts| >= 1
    ensures Join([[c] + parts[0]] + parts[1..], sep) == [c] + Join(parts, sep)
  {
    var longer := [[c] + parts[0]] + parts[1..];
    assert longer[1..] == parts[1..];
  }

  /** No piece holds the separator. */
  lemma {:induction false} SplitNoSep(s: string, sep: char)
    ensures forall j :: 0 <= j < |Split(s, sep)| ==> NoSep(Split(s, sep)[j], sep)
  {
    if s != [] {
      SplitNoSep(s[1..], sep);
      var rest := Split(s[1..], sep);
      var parts := Split(s, sep);
      if s[0] == sep {
        assert parts[1..] == rest;
      } else {
        forall j | 0 <= j < |parts| ensures NoSep(parts[j], sep) {
          if j > 0 {
            assert parts[j] == rest[j];
          } else {
            assert parts[0] == [s[0]] + rest[0];
          }
        }
      }
    }
  }

  /** A text without the separator is one piece; a separator after such a
      text ends the first piece. */
  lemma {:induction false} SplitFirst(a: string, b: string, sep: char)
    requires NoSep(a, sep)
    ensures Split(a, sep) == [a]
    ensures Split(a + [sep] + b, sep) == [a] + Split(b, sep)
  {
    if a != [] {
      SplitFirst(a[1..], b, sep);
      assert (a + [sep] + b)[1..] == a[1..] + [sep] + b;
      assert [a[0]] + a[1..] == a;
    } else {
      assert a + [sep] + b == [sep] + b;
    }
  }

  /** The white space `parseInt` skips (the ASCII part of JavaScript's
      StrWhiteSpaceChar). */
  predicate IsJsSpace(c: char) {
    c == ' ' || c == '\t' || c == '\n' || c == '\r' || c == 11 as char || c == 12 as char
  }

  function TrimStart(s: string): string {
    if s != [] && IsJsSpace(s[0]) then TrimStart(s[1..]) else s
  }

  /** The value of a digit in base 10 or 16, if it is one. */
  function DigitValue(c: char, radix: nat): Option<nat> {
    if '0' <= c <= '9' then Some(c as int - '0' as int)
    else if radix == 16 && 'a' <= c <= 'f' then Some(c as int - 'a' as int + 10)
    else if radix == 16 && 'A' <= c <= 'F' then Some(c as int - 'A' as int + 10)
    else None
  }

  /** The longest prefix made of digits of the radix. */
  function DigitPrefix(s: string, radix: nat): (r: string)
    ensures forall i :: 0 <= i < |r| ==> DigitValue(r[i], radix).Some?
  {
    if s == [] || DigitValue(s[0], radix).None? then [] else [s[0]] + DigitPrefix(s[1..], radix)
  }

  function RadixValue(s: string, radix: nat): nat
    requires forall i :: 0 <= i < |s| ==> DigitValue(s[i], radix).Some?
  {
    if s == [] then 0
    else RadixValue(s[..|s| - 1], radix) * radix + DigitValue(s[|s| - 1], radix).value
  }

  /** `parseInt(s)` with no radix: leading white space skipped, an optional
      sign, base 16 after "0x" or "0X", then as many digits as there are;
      NaN when there is none. */
  function ParseInt(s: string): (r: JsNumber)
    ensures s != [] && AllDigits(s) ==> r == Num(DigitsValue(s))
  {
    DecimalText(s);
    var t := TrimStart(s);
    var negative := t != [] && t[0] == '-';
    var u := if t != [] && (t[0] == '-' || t[0] == '+') then t[1..] else t;
    var hex := |u| >= 2 && u[0] == '0' && (u[1] == 'x' || u[1] == 'X');
    var radix := if hex then 16 else 10;
    var run := DigitPrefix(if hex then u[2..] else u, radix);
    if run == [] then NaN
    else
      var v: int := RadixValue(run, radix);
      Num(if negative then -v else v)
  }

  /** In base 10 the digit value agrees with the decimal reading. */
  lemma {:induction false} RadixDecimal(s: string)
    requires AllDigits(s)
    ensures forall i :: 0 <= i < |s| ==> DigitValue(s[i], 10).Some?
    ensures RadixValue(s, 10) == DigitsValue(s)
  {
    if s != [] {
      RadixDecimal(s[..|s| - 1]);
    }
  }

  /** A digit string is its own longest digit prefix. */
  lemma {:induction false} DigitPrefixAll(s: string)
    requires AllDigits(s)
    ensures DigitPrefix(s, 10) == s
  {
    if s != [] {
      DigitPrefixAll(s[1..]);
      assert [s[0]] + s[1..] == s;
    }
  }

  /** A decimal digit string has no white space, no sign and no "0x" to
      skip, and is its own digit run. */
  lemma DecimalText(s: string)
    ensures s != [] && AllDigits(s) ==>
      && TrimStart(s) == s && s[0] != '-' && s[0] != '+'
      && (|s| >= 2 ==> s[1] != 'x' && s[1] != 'X')
      && DigitPrefix(s, 10) == s && RadixValue(s, 10) == DigitsValue(s)
  {
    if s != [] && AllDigits(s) {
      assert IsDigitChar(s[0]);
      if |s| >= 2 {
        assert IsDigitChar(s[1]);
      }
      DigitPrefixAll(s);
      RadixDecimal(s);
    }
  }

  // ---------------------------------------------------------------- convertTo12HourFormat

  /** The hour shown on a 12-hour clock: 0 becomes 12, 13 and above lose 12. */
  function Hour12(h: int): int {
    if h == 0 then 12 else if h > 12 then h - 12 else h
  }

  function Period(hour: JsNumber): string {
    if hour.Num? && hour.value >= 12 then "p.m." else "a.m."
  }

  /** `convertTo12HourFormat(timeString)`: hour and minute split at ':'; the
      hour through `parseInt`; a missing minute is the text "undefined"; a
      NaN hour fails every comparison and is shown as "NaN". */
  function Convert12(timeString: string): (r: string)
    ensures |r| >= 4 && (r[|r| - 4..] == "a.m." || r[|r| - 4..] == "p.m.")
  {
    var time := Split(timeString, ':');
    var hour := ParseInt(time[0]);
    var minute := if |time| > 1 then time[1] else "undefined";
    EndsWith(NumberText(Shown(hour)) + ":" + minute + " ", Period(hour));
    NumberText(Shown(hour)) + ":" + minute + " " + Period(hour)
  }

  lemma EndsWith(x: string, y: string)
    ensures (x + y)[|x + y| - |y|..] == y
  {
  }

  /** The hour after the 12-hour adjustment; NaN stays NaN. */
  function Shown(hour: JsNumber): JsNumber {
    if hour.Num? then Num(Hour12(hour.value)) else NaN
  }

  /** An "<hour>:<minute>" text with no further colon: the hour text before
      the colon and the minute text after it. */
  lemma Convert12Pieces(hourText: string, minute: string)
    requires NoSep(hourText, ':') && NoSep(minute, ':')
    ensures var hour := ParseInt(hourText);
      Convert12(hourText + ":" + minute) == NumberText(Shown(hour)) + ":" + minute + " " + Period(hour)
  {
    SplitFirst(hourText, minute, ':');
    SplitFirst(minute, [], ':');
  }

  /** An "<hour>:<minute>:<seconds>" text, as the API sends a stored time:
      only the first two pieces are used, so the seconds are not shown. */
  lemma Convert12Seconds(hourText: string, minute: string, seconds: string)
    requires NoSep(hourText, ':') && NoSep(minute, ':')
    ensures var hour := ParseInt(hourText);
      Convert12(hourText + ":" + minute + ":" + seconds)
      == NumberText(Shown(hour)) + ":" + minute + " " + Period(hour)
  {
    assert hourText + ":" + minute + ":" + seconds == hourText + [':'] + (minute + [':'] + seconds);
    SplitFirst(hourText, minute + [':'] + seconds, ':');
    SplitFirst(minute, seconds, ':');
  }

  /** Without a colon the minute is "undefined". */
  lemma Convert12Alone(hourText: string)
    requires NoSep(hourText, ':')
    ensures var hour := ParseInt(hourText);
      Convert12(hourText) == NumberText(Shown(hour)) + ":" + "undefined" + " " + Period(hour)
  {
    SplitFirst(hourText, [], ':');
  }

  /** A digit string holds no colon. */
  lemma DigitsNoColon(s: string)
    requires AllDigits(s)
    ensures NoSep(s, ':')
  {
    forall i | 0 <= i < |s| ensures s[i] != ':' {
      assert IsDigitChar(s[i]);
    }
  }

  /** For an "HH:MM" text: the hour is shown without a leading zero, the
      minute text is kept, and the period is "p.m." exactly from 12 on. An
      hour 0..23 is shown in 1..12; a larger one is still only reduced by 12. */
  lemma Convert12Wellformed(h: nat, minute: string)
    requires h < 100 && NoSep(minute, ':')
    ensures h < 24 ==> 1 <= Hour12(h) <= 12
    ensures h >= 24 ==> Hour12(h) == h - 12 >= 12
    ensures Convert12(Pad2(h) + ":" + minute)
            == NatToString(Hour12(h)) + ":" + minute + " " + (if h >= 12 then "p.m." else "a.m.")
    ensures |NatToString(Hour12(h))| > 1 ==> NatToString(Hour12(h))[0] != '0'
  {
    PadValue(h);
    var text := Pad2(h);
    DigitsNoColon(text);
    var hour := ParseInt(text);
    assert hour == Num(h);
    assert NumberText(Shown(hour)) == NatToString(Hour12(h));
    assert Period(hour) == if h >= 12 then "p.m." else "a.m.";
    Convert12Pieces(text, minute);
    NatToStringValue(Hour12(h));
  }

  /** For an "HH:<minute>:<seconds>" text: the same hour mapping, minute and
      period as without the seconds. */
  lemma Convert12WellformedSeconds(h: nat, minute: string, seconds: string)
    requires h < 100 && NoSep(minute, ':')
    ensures Convert12(Pad2(h) + ":" + minute + ":" + seconds)
            == NatToString(Hour12(h)) + ":" + minute + " " + (if h >= 12 then "p.m." else "a.m.")
  {
    PadValue(h);
    var text := Pad2(h);
    DigitsNoColon(text);
    var hour := ParseInt(text);
    assert hour == Num(h);
    assert NumberText(Shown(hour)) == NatToString(Hour12(h));
    Convert12Seconds(text, minute, seconds);
  }

  /** The API's "14:30:00" is shown as "2:30 p.m.". */
  lemma AfternoonWithSeconds()
    ensures Convert12("14:30:00") == "2:30 p.m."
  {
    AfternoonTexts();
    AfternoonJoins();
    Convert12WellformedSeconds(14, "30", "00");
  }

  lemma AfternoonTexts()
    ensures Pad2(14) == "14" && NatToString(Hour12(14)) == "2"
  {
    assert NatToString(14) == NatToString(1) + "4";
  }

  lemma AfternoonJoins()
    ensures "14" + ":" + "30" + ":" + "00" == "14:30:00"
    ensures "2" + ":" + "30" + " " + "p.m." == "2:30 p.m."
  {
  }

  /** Midnight is "12:<mm> a.m.". */
  lemma MidnightIsTwelve(minute: string)
    requires NoSep(minute, ':')
    ensures Convert12("00:" + minute) == "12:" + minute + " a.m."
  {
    var zero := 0;
    Convert12Wellformed(zero, minute);
    MidnightTexts();
    MidnightJoins(minute);
  }

  lemma MidnightJoins(minute: string)
    ensures "00" + ":" + minute == "00:" + minute
    ensures "12" + ":" + minute + " " + "a.m." == "12:" + minute + " a.m."
  {
  }

  lemma MidnightTexts()
    ensures Pad2(0) == "00" && NatToString(Hour12(0)) == "12"
  {
    assert NatToString(0) == "0";
    assert NatToString(12) == NatToString(1) + "2";
  }

  /** The 24-hour clock hour back from the 12-hour hour and the period. */
  function Hour24(h12: int, pm: bool): int {
    if pm then (if h12 == 12 then 12 else h12 + 12) else (if h12 == 12 then 0 else h12)
  }

  /** The hour and the period together determine the 24-hour hour. */
  lemma TwelveHourRoundTrip(h: nat)
    requires h < 24
    ensures Hour24(Hour12(h), h >= 12) == h
  {
  }

  /** A text with no colon and no number to parse shows "NaN" as the hour
      and "undefined" as the minute. */
  lemma Convert12NoNumber(s: string)
    requires NoSep(s, ':') && ParseInt(s).NaN?
    ensures Convert12(s) == "NaN:undefined a.m."
  {
    Convert12Alone(s);
    NaNText();
  }

  lemma NaNText()
    ensures "NaN" + ":" + "undefined" + " " + "a.m." == "NaN:undefined a.m."
  {
  }

  /** A digit text with no colon shows the minute "undefined". */
  lemma Convert12NoColon(s: string)
    requires s != [] && AllDigits(s)
    ensures Convert12(s) == IntToString(Hour12(DigitsValue(s))) + ":" + "undefined" + " " + Period(Num(DigitsValue(s)))
  {
    DigitsNoColon(s);
    Convert12Alone(s);
  }

  // ---------------------------------------------------------------- updateBadge

  /** What the badge container holds: nothing, the "complete-all-task"
      badge, or the "not-completed" badge, each with "(completed/total)". */
  datatype Badge = NoBadge | CompleteAll(completed: nat, total: nat) | NotCompleted(completed: nat, total: nat)

  /** `updateBadge` on the completed-row and all-row counts of the table. */
  function BadgeFor(completed: nat, total: nat): (b: Badge)
    ensures !b.NoBadge? ==> b.completed == completed && b.total == total
  {
    if completed == total && total != 0 then CompleteAll(completed, total)
    else if completed != total && total != 0 then NotCompleted(completed, total)
    else NoBadge
  }

  /** The badge is empty exactly for an empty table, "complete-all" exactly
      when every one of some rows is completed, and "not-completed"
      otherwise. */
  lemma BadgeCases(completed: nat, total: nat)
    ensures BadgeFor(completed, total).NoBadge? <==> total == 0
    ensures BadgeFor(completed, total).CompleteAll? <==> completed == total && total > 0
    ensures BadgeFor(completed, total).NotCompleted? <==> completed != total && total > 0
  {
  }

  /** On the user's list of one kind the badge says "complete-all" exactly
      when the user has a task of that kind and all of them are completed,
      agreeing with the dashboard counts. */
  lemma BadgeOfList(ts: seq<Task>, user: nat, k: TaskKind)
    ensures var s := Stats(ts, user, k);
      && (BadgeFor(s.completed, s.total).CompleteAll?
          <==> (exists t :: t in ts && Selected(t, user, k))
               && forall t :: t in ts && Selected(t, user, k) ==> t.completed)
      && (BadgeFor(s.completed, s.total).NoBadge? <==> forall t :: t in ts ==> !Selected(t, user, k))
  {
    CountsAgree(ts, user, k);
    TotalPositive(ts, user, k);
  }

  // ---------------------------------------------------------------- updateNumberColumn

  /** The number shown in row i of zero-based page p with page length L. */
  function RowNumber(page: nat, length: int, i: nat): int {
    page * length + 1 + i
  }

  /** `updateNumberColumn`: numbers the rows shown on the current page,
      from `(currentPage - 1) * rowsPerPage + 1` on. */
  method UpdateNumberColumn(cells: array<int>, page: nat, rowsPerPage: int)
    modifies cells
    ensures forall i :: 0 <= i < cells.Length ==> cells[i] == RowNumber(page, rowsPerPage, i)
  {
    var currentPage := page + 1;
    var startNumber := (currentPage - 1) * rowsPerPage + 1;
    for index := 0 to cells.Length
      invariant forall i :: 0 <= i < index ==> cells[i] == RowNumber(page, rowsPerPage, i)
    {
      cells[index] := startNumber + index;
    }
  }

  lemma {:induction false} MulLe(a: nat, b: nat, c: nat)
    requires a <= b
    ensures a * c <= b * c
    decreases b - a
  {
    if a < b {
      MulLe(a + 1, b, c);
      assert (a + 1) * c == a * c + c;
    }
  }

  /** With a positive page length, every number from 1 on is shown in some
      row of some page. */
  lemma RowNumberOnto(length: nat, n: int)
    requires length > 0 && n >= 1
    ensures var page, i := (n - 1) / length, (n - 1) % length;
      i < length && RowNumber(page, length, i) == n
  {
  }

  /** Pages do not overlap: two rows of pages of the same positive length
      with the same number are the same row of the same page. */
  lemma RowNumberOneToOne(length: nat, p: nat, i: nat, q: nat, j: nat)
    requires length > 0 && i < length && j < length
    requires RowNumber(p, length, i) == RowNumber(q, length, j)
    ensures p == q && i == j
  {
    if p < q {
      MulLe(p + 1, q, length);
    } else if q < p {
      MulLe(q + 1, p, length);
    }
  }

  // ---------------------------------------------------------------- custom-datetime ordering

  /** `a < b` and `a > b` on JavaScript numbers: false whenever NaN is
      involved. */
  predicate Less(a: JsNumber, b: JsNumber) {
    a.Num? && b.Num? && a.value < b.value
  }

  /** `custom-datetime-asc`: negative when a comes first, positive when b
      does, zero when neither is smaller. */
  function Asc(a: JsNumber, b: JsNumber): (r: int)
    ensures -1 <= r <= 1
    ensures r < 0 <==> Less(a, b)
    ensures r > 0 <==> Less(b, a)
  {
    if Less(a, b) then -1 else if Less(b, a) then 1 else 0
  }

  /** `custom-datetime-desc`: the ascending answer reversed. */
  function Desc(a: JsNumber, b: JsNumber): (r: int)
    ensures r == -Asc(a, b)
  {
    if Less(a, b) then 1 else if Less(b, a) then -1 else 0
  }

  /** Both comparators answer only -1, 0 or 1, swapping the arguments
      negates the answer, and on numbers the answer is the sign of the
      difference. */
  lemma ComparatorLaws(a: JsNumber, b: JsNumber)
    ensures Desc(a, b) in {-1, 0, 1}
    ensures Asc(a, b) == -Asc(b, a)
    ensures a.Num? && b.Num? ==>
      (Asc(a, b) < 0 <==> a.value < b.value) && (Asc(a, b) == 0 <==> a.value == b.value)
  {
  }

  /** NaN compares equal to every number, so "equal" is not transitive once
      a key is NaN. */
  lemma NaNTiesEverything()
    ensures Asc(Num(1), NaN) == 0 && Asc(NaN, Num(2)) == 0 && Asc(Num(1), Num(2)) == -1
  {
  }
}
