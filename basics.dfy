/** Values shared by every part of the TaskMaster model: optional fields,
    times of day, calendar dates, the three recurrence kinds, the English
    day names and the decimal rendering of numbers. */
module Basics {

  datatype Option<+T> = None | Some(value: T)

  /** A parsed `TimeField` value (seconds are not kept). */
  datatype Time = Time(hour: nat, minute: nat)

  predicate ValidTime(t: Time) {
    t.hour < 24 && t.minute < 60
  }

  /** A calendar date (`DateField`). */
  datatype Date = Date(year: nat, month: nat, day: nat)

  /** The three recurrence kinds a task can be flagged with. */
  datatype TaskKind = Daily | Weekly | Monthly

  /** The seven day names, in the order the validators list them. */
  const DayNames: seq<string> :=
    ["Sunday", "Monday", "Tuesday", "Wednesday", "Thursday", "Friday", "Saturday"]

  /** Python truthiness of an optional text field: present and non-empty. */
  predicate DayGiven(d: Option<string>) {
    d.Some? && d.value != ""
  }

  /** Python truthiness of an optional number field: present and non-zero. */
  predicate DateGiven(d: Option<int>) {
    d.Some? && d.value != 0
  }

  /** Exactly one of three booleans holds. */
  predicate ExactlyOneOf(a: bool, b: bool, c: bool) {
    (a && !b && !c) || (!a && b && !c) || (!a && !b && c)
  }

  /** The decimal digit for 0..9. */
  function DigitChar(d: nat): (c: char)
    requires d < 10
    ensures '0' <= c <= '9'
    ensures c as int - '0' as int == d
  {
    ('0' as int + d) as char
  }

  predicate IsDigitChar(c: char) {
    '0' <= c <= '9'
  }

  predicate AllDigits(s: string) {
    forall i :: 0 <= i < |s| ==> IsDigitChar(s[i])
  }

  /** The value of a string of decimal digits. */
  function DigitsValue(s: string): nat
    requires AllDigits(s)
  {
    if s == [] then 0
    else DigitsValue(s[..|s| - 1]) * 10 + (s[|s| - 1] as int - '0' as int)
  }

  /** Decimal rendering of a natural number, without leading zeros
      (Python's `str` and JavaScript's template text for integers). Its
      digits and value are stated by `NatToStringValue`. */
  function NatToString(n: nat): (s: string)
    ensures |s| >= 1
    decreases n
  {
    if n < 10 then [DigitChar(n)] else NatToString(n / 10) + [DigitChar(n % 10)]
  }

  /** The rendering is a digit string, reads back as n and has no leading
      zero. */
  lemma {:induction false} NatToStringValue(n: nat)
    ensures AllDigits(NatToString(n)) && DigitsValue(NatToString(n)) == n
    ensures |NatToString(n)| > 1 ==> NatToString(n)[0] != '0'
    ensures n < 10 <==> |NatToString(n)| == 1
    ensures 10 <= n < 100 <==> |NatToString(n)| == 2
    ensures 100 <= n < 1000 <==> |NatToString(n)| == 3
    ensures 1000 <= n < 10000 <==> |NatToString(n)| == 4
    decreases n
  {
    if n >= 10 {
      NatToStringValue(n / 10);
      var s := NatToString(n);
      assert s[..|s| - 1] == NatToString(n / 10);
    }
  }

  /** Decimal rendering of an integer with a leading minus sign when negative. */
  function IntToString(n: int): (s: string)
    ensures |s| >= 1
    ensures n >= 0 ==> s == NatToString(n)
    ensures n < 0 ==> s[0] == '-'
  {
    if n >= 0 then NatToString(n) else "-" + NatToString(-n)
  }

  /** A leading zero does not change the value of a digit string. */
  lemma {:induction false} LeadingZero(s: string)
    requires AllDigits(s)
    ensures AllDigits("0" + s) && DigitsValue("0" + s) == DigitsValue(s)
  {
    if s != [] {
      var t := "0" + s;
      assert t[..|t| - 1] == "0" + s[..|s| - 1];
      LeadingZero(s[..|s| - 1]);
    } else {
      assert "0" + s == "0";
    }
  }

  /** Zero padding to two digits, as `%d`, `%m`, `%H` and `%M` of strftime do. */
  function Pad2(n: nat): string
  {
    if n < 10 then "0" + NatToString(n) else NatToString(n)
  }

  /** Zero padding to three digits (a step towards `Pad4`). */
  function Pad3(n: nat): string
  {
    if n < 100 then "0" + Pad2(n) else NatToString(n)
  }

  /** Zero padding to four digits, as `%Y` does for four-digit years. */
  function Pad4(n: nat): string
  {
    if n < 1000 then "0" + Pad3(n) else NatToString(n)
  }

  /** The padded texts have their widths, are digit strings and read back
      as the number. */
  lemma PadValue(n: nat)
    ensures n < 100 ==> |Pad2(n)| == 2
    ensures n < 1000 ==> |Pad3(n)| == 3
    ensures n < 10000 ==> |Pad4(n)| == 4
    ensures AllDigits(Pad2(n)) && DigitsValue(Pad2(n)) == n
    ensures AllDigits(Pad3(n)) && DigitsValue(Pad3(n)) == n
    ensures AllDigits(Pad4(n)) && DigitsValue(Pad4(n)) == n
  {
    NatToStringValue(n);
    if n < 10 {
      LeadingZero(NatToString(n));
    }
    if n < 100 {
      LeadingZero(Pad2(n));
    }
    if n < 1000 {
      LeadingZero(Pad3(n));
    }
  }
}
