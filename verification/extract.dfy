/** The text helpers of the ingestion backend (backend/app.py): the syslog
    timestamp and `rhost=` extractors, the `strptime("%b %d %H:%M:%S")`
    conversion of a timestamp to seconds, and `str.splitlines`. Character
    classes are ASCII. */
module Extract {
  import opened Common

  // ---------------------------------------------------------------------
  // extract_datetime: ^(\w{3} \d{1,2} \d{2}:\d{2}:\d{2})

  /** The "HH:MM:SS" shape starting at `o`. */
  predicate ClockAt(p: string, o: nat)
  {
    o + 8 <= |p|
    && IsDigit(p[o]) && IsDigit(p[o + 1]) && p[o + 2] == ':'
    && IsDigit(p[o + 3]) && IsDigit(p[o + 4]) && p[o + 5] == ':'
    && IsDigit(p[o + 6]) && IsDigit(p[o + 7])
  }

  /** `p` is, in full, three word characters, a space, a one- or two-digit
      day, a space and a clock time. */
  predicate IsStamp(p: string)
  {
    (|p| == 14 || |p| == 15)
    && IsWordChar(p[0]) && IsWordChar(p[1]) && IsWordChar(p[2]) && p[3] == ' '
    && IsDigit(p[4]) && (|p| == 15 ==> IsDigit(p[5]))
    && p[|p| - 9] == ' ' && ClockAt(p, |p| - 8)
  }

  /** Number of digits of the day field of a stamp. */
  function DayDigits(p: string): nat requires IsStamp(p) { |p| - 13 }

  /** The leading timestamp of a log line, if the line starts with one. The
      day quantifier is greedy, so a two-digit day is tried first. */
  function ExtractDatetime(line: string): (r: Option<string>)
    ensures r.Some? ==> IsStamp(r.value) && r.value <= line
  {
    if |line| >= 15 && IsStamp(line[..15]) then Some(line[..15])
    else if |line| >= 14 && IsStamp(line[..14]) then Some(line[..14])
    else None
  }

  /** The extractor finds a timestamp exactly when some prefix of the line
      is one, and then it finds the longest. */
  lemma ExtractDatetimeComplete(line: string)
    ensures ExtractDatetime(line).None? <==> forall n :: 0 <= n <= |line| ==> !IsStamp(line[..n])
    ensures ExtractDatetime(line).Some? ==>
      forall n :: |ExtractDatetime(line).value| < n <= |line| ==> !IsStamp(line[..n])
  {
  }

  // ---------------------------------------------------------------------
  // extract_ip: rhost=([\w\.-]+)

  predicate IsIpChar(c: char) { IsWordChar(c) || c == '.' || c == '-' }

  /** "rhost=" starts at `i` and is followed by at least one address
      character: the places where the pattern can match. */
  predicate RhostAt(line: string, i: int)
  {
    0 <= i && i + 7 <= |line| && line[i..i + 6] == "rhost=" && IsIpChar(line[i + 6])
  }

  /** End of the maximal run of address characters starting at `j`. */
  function RunEnd(line: string, j: nat): (e: nat)
    requires j <= |line|
    ensures j <= e <= |line|
    ensures forall k :: j <= k < e ==> IsIpChar(line[k])
    ensures e == |line| || !IsIpChar(line[e])
    decreases |line| - j
  {
    if j < |line| && IsIpChar(line[j]) then RunEnd(line, j + 1) else j
  }

  /** The search of `re.search`: the leftmost match position at or after `i`. */
  function ExtractIpFrom(line: string, i: nat): (r: Option<string>)
    requires i <= |line|
    ensures r.None? <==> forall j :: i <= j <= |line| ==> !RhostAt(line, j)
    ensures r.Some? ==> exists j :: (i <= j < |line| && RhostAt(line, j)
      && (forall k :: i <= k < j ==> !RhostAt(line, k))
      && r.value == line[j + 6..RunEnd(line, j + 6)])
    decreases |line| - i
  {
    if i == |line| then None
    else if RhostAt(line, i) then Some(line[i + 6..RunEnd(line, i + 6)])
    else ExtractIpFrom(line, i + 1)
  }

  /** The address after the first "rhost=" that is followed by an address
      character: the maximal run of such characters there. */
  function ExtractIp(line: string): (r: Option<string>)
    ensures r.None? <==> forall j :: 0 <= j <= |line| ==> !RhostAt(line, j)
    ensures r.Some? ==> exists j :: (0 <= j < |line| && RhostAt(line, j)
      && (forall k :: 0 <= k < j ==> !RhostAt(line, k))
      && r.value == line[j + 6..RunEnd(line, j + 6)])
    ensures r.Some? ==> r.value != [] && forall k :: 0 <= k < |r.value| ==> IsIpChar(r.value[k])
  {
    ExtractIpFrom(line, 0)
  }

  // ---------------------------------------------------------------------
  // datetime.strptime(dt, "%b %d %H:%M:%S"): no year, so the year is 1900.

  function LowerAscii(c: char): char
  {
    if 'A' <= c <= 'Z' then (c as int + 32) as char else c
  }

  const MonthAbbreviations: seq<string> :=
    ["jan", "feb", "mar", "apr", "may", "jun", "jul", "aug", "sep", "oct", "nov", "dec"]

  /** Days of each month of 1900, which is not a leap year. */
  const MonthDays: seq<nat> := [31, 28, 31, 30, 31, 30, 31, 31, 30, 31, 30, 31]

  /** The month number (0 for January) of a three-letter name, matched
      without regard to case, as `%b` does. */
  function MonthIndex(name: string): (r: Option<nat>)
    requires |name| == 3
    ensures r.None? <==> [LowerAscii(name[0]), LowerAscii(name[1]), LowerAscii(name[2])] !in MonthAbbreviations
    ensures r.Some? ==> (r.value < 12
      && LowerAscii(name[0]) == MonthAbbreviations[r.value][0]
      && LowerAscii(name[1]) == MonthAbbreviations[r.value][1]
      && LowerAscii(name[2]) == MonthAbbreviations[r.value][2])
  {
    var lower := [LowerAscii(name[0]), LowerAscii(name[1]), LowerAscii(name[2])];
    if lower in MonthAbbreviations then Some(FirstIndex(MonthAbbreviations, lower)) else None
  }

  /** Days of 1900 before the first of each month. */
  const DaysBefore: seq<nat> := [0, 31, 59, 90, 120, 151, 181, 212, 243, 273, 304, 334]

  lemma DaysBeforeBound(m: nat)
    requires m < 12
    ensures DaysBefore[m] + MonthDays[m] <= 365
  {
    if m < 6 {
      assert m == 0 || m == 1 || m == 2 || m == 3 || m == 4 || m == 5;
    } else {
      assert m == 6 || m == 7 || m == 8 || m == 9 || m == 10 || m == 11;
    }
  }

  function TwoDigits(p: string, o: nat): (v: nat)
    requires o + 2 <= |p| && IsDigit(p[o]) && IsDigit(p[o + 1])
    ensures v < 100
  {
    10 * DigitValue(p[o]) + DigitValue(p[o + 1])
  }

  function DayValue(p: string): (v: nat)
    requires IsStamp(p)
    ensures v < 100
  {
    if DayDigits(p) == 1 then DigitValue(p[4]) else TwoDigits(p, 4)
  }

  function HourValue(p: string): nat requires IsStamp(p) { TwoDigits(p, |p| - 8) }
  function MinuteValue(p: string): nat requires IsStamp(p) { TwoDigits(p, |p| - 5) }
  function SecondValue(p: string): nat requires IsStamp(p) { TwoDigits(p, |p| - 2) }

  /** The stamp names a real moment of 1900: a known month, a day that month
      has, an hour below 24, a minute and a second below 60. */
  predicate ValidStamp(p: string)
    requires IsStamp(p)
  {
    var m := MonthIndex(p[..3]);
    m.Some? && 1 <= DayValue(p) <= MonthDays[m.value]
    && HourValue(p) < 24 && MinuteValue(p) < 60 && SecondValue(p) < 60
  }

  /** The day of 1900 a valid stamp names, 0 for January 1. */
  function DayOfYear(p: string): (d: nat)
    requires IsStamp(p) && ValidStamp(p)
    ensures d < 365
  {
    var m := MonthIndex(p[..3]).value;
    DaysBeforeBound(m);
    DaysBefore[m] + DayValue(p) - 1
  }

  /** Seconds since 1900-01-01 00:00:00 of a stamp, or `None` where
      `strptime` (or the `datetime` it builds) raises `ValueError`. Times are
      compared only by differences, so this origin loses nothing. The value
      reads back as the stamp's day of the year, hour, minute and second. */
  function StampSeconds(p: string): (r: Option<int>)
    requires IsStamp(p)
    ensures r.Some? <==> ValidStamp(p)
    ensures r.Some? ==> 0 <= r.value < 365 * 86400
    ensures r.Some? ==> (r.value / 86400 == DayOfYear(p) && r.value % 86400 / 3600 == HourValue(p)
      && r.value % 3600 / 60 == MinuteValue(p) && r.value % 60 == SecondValue(p))
  {
    if ValidStamp(p) then Some(ClockSeconds(DayOfYear(p), HourValue(p), MinuteValue(p), SecondValue(p)))
    else None
  }

  /** Seconds since the start of the year of a day and a time of day. */
  function ClockSeconds(day: nat, h: nat, mi: nat, s: nat): (t: nat)
    requires day < 365 && h < 24 && mi < 60 && s < 60
    ensures t < 365 * 86400
    ensures t / 86400 == day && t % 86400 / 3600 == h && t % 3600 / 60 == mi && t % 60 == s
  {
    assert h * 3600 <= 23 * 3600 && mi * 60 <= 59 * 60 && day * 86400 <= 364 * 86400;
    var t := day * 86400 + h * 3600 + mi * 60 + s;
    assert t / 86400 == day && t % 86400 == h * 3600 + mi * 60 + s;
    assert t % 3600 == mi * 60 + s;
    t
  }

  /** Each month of 1900 starts the day after the previous one ends. */
  lemma MonthStart(m: nat)
    requires m < 11
    ensures DaysBefore[m + 1] == DaysBefore[m] + MonthDays[m]
  {
    assert forall k :: 0 <= k < 11 ==> DaysBefore[k + 1] == DaysBefore[k] + MonthDays[k];
  }

  /** A later month starts after an earlier one ends. */
  lemma {:induction false} MonthsFollow(m1: nat, m2: nat)
    requires m1 < m2 < 12
    ensures DaysBefore[m1] + MonthDays[m1] <= DaysBefore[m2]
    decreases m2 - m1
  {
    MonthStart(m1);
    if m1 + 1 < m2 {
      MonthsFollow(m1 + 1, m2);
    }
  }

  /** `p` names an earlier moment of the year than `q`: month, day, hour,
      minute and second compared in that order. */
  predicate Earlier(p: string, q: string)
    requires IsStamp(p) && ValidStamp(p) && IsStamp(q) && ValidStamp(q)
  {
    var m1, m2 := MonthIndex(p[..3]).value, MonthIndex(q[..3]).value;
    m1 < m2 || (m1 == m2 && (DayValue(p) < DayValue(q) || (DayValue(p) == DayValue(q)
      && (HourValue(p) < HourValue(q) || (HourValue(p) == HourValue(q)
      && (MinuteValue(p) < MinuteValue(q) || (MinuteValue(p) == MinuteValue(q) && SecondValue(p) < SecondValue(q))))))))
  }

  /** Two valid stamps name the same moment exactly when their fields agree. */
  predicate SameMoment(p: string, q: string)
    requires IsStamp(p) && ValidStamp(p) && IsStamp(q) && ValidStamp(q)
  {
    MonthIndex(p[..3]).value == MonthIndex(q[..3]).value && DayValue(p) == DayValue(q)
    && HourValue(p) == HourValue(q) && MinuteValue(p) == MinuteValue(q) && SecondValue(p) == SecondValue(q)
  }

  /** The day of the year follows the calendar. */
  lemma DayOrder(p: string, q: string)
    requires IsStamp(p) && ValidStamp(p) && IsStamp(q) && ValidStamp(q)
    ensures var m1, m2 := MonthIndex(p[..3]).value, MonthIndex(q[..3]).value;
      && (DayOfYear(p) < DayOfYear(q) <==> m1 < m2 || (m1 == m2 && DayValue(p) < DayValue(q)))
      && (DayOfYear(p) == DayOfYear(q) <==> m1 == m2 && DayValue(p) == DayValue(q))
  {
    var m1, m2 := MonthIndex(p[..3]).value, MonthIndex(q[..3]).value;
    if m1 < m2 {
      MonthsFollow(m1, m2);
    } else if m2 < m1 {
      MonthsFollow(m2, m1);
    }
  }

  /** The seconds of valid stamps keep the calendar order, and two stamps
      get the same seconds exactly when they name the same moment. */
  lemma StampOrder(p: string, q: string)
    requires IsStamp(p) && ValidStamp(p) && IsStamp(q) && ValidStamp(q)
    ensures StampSeconds(p).value < StampSeconds(q).value <==> Earlier(p, q)
    ensures StampSeconds(p).value == StampSeconds(q).value <==> SameMoment(p, q)
  {
    DayOrder(p, q);
  }

  /** The same time of day on consecutive days, across the end of a month
      too, is 86400 seconds apart. */
  lemma NextDay(p: string, q: string)
    requires IsStamp(p) && ValidStamp(p) && IsStamp(q) && ValidStamp(q)
    requires HourValue(p) == HourValue(q) && MinuteValue(p) == MinuteValue(q) && SecondValue(p) == SecondValue(q)
    requires var m1, m2 := MonthIndex(p[..3]).value, MonthIndex(q[..3]).value;
      || (m1 == m2 && DayValue(q) == DayValue(p) + 1)
      || (m2 == m1 + 1 && DayValue(p) == MonthDays[m1] && DayValue(q) == 1)
    ensures StampSeconds(q).value - StampSeconds(p).value == 86400
  {
    var m1, m2 := MonthIndex(p[..3]).value, MonthIndex(q[..3]).value;
    assert DayOfYear(q) == DayOfYear(p) + 1 by {
      if m2 == m1 + 1 {
        MonthStart(m1);
      }
    }
    var clock := HourValue(p) * 3600 + MinuteValue(p) * 60 + SecondValue(p);
    assert StampSeconds(p).value == DayOfYear(p) * 86400 + clock;
    assert StampSeconds(q).value == DayOfYear(q) * 86400 + clock;
  }

  /** Within one minute, seconds differ as the stamps' second fields do. */
  lemma SameMinute(p: string, q: string)
    requires IsStamp(p) && ValidStamp(p) && IsStamp(q) && ValidStamp(q)
    requires MonthIndex(p[..3]) == MonthIndex(q[..3]) && DayValue(p) == DayValue(q)
    requires HourValue(p) == HourValue(q) && MinuteValue(p) == MinuteValue(q)
    ensures StampSeconds(q).value - StampSeconds(p).value == SecondValue(q) - SecondValue(p)
  {
  }

  /** `within_10_seconds`: at most ten seconds apart, in either order. */
  predicate Within10Seconds(t1: int, t2: int)
  {
    -10 <= t1 - t2 <= 10
  }

  // ---------------------------------------------------------------------
  // str.splitlines()

  predicate IsLineBoundary(c: char)
  {
    c == '\n' || c == '\r' || c == '\U{000B}' || c == '\U{000C}' || c == '\U{001C}' || c == '\U{001D}'
    || c == '\U{001E}' || c == '\U{0085}' || c == '\U{2028}' || c == '\U{2029}'
  }

  predicate NoBoundary(s: string)
  {
    forall k :: 0 <= k < |s| ==> !IsLineBoundary(s[k])
  }

  /** Index of the first line boundary of `s`, or |s|. */
  function LineEnd(s: string): (e: nat)
    ensures e <= |s| && NoBoundary(s[..e])
    ensures e < |s| ==> IsLineBoundary(s[e])
  {
    if s == [] || IsLineBoundary(s[0]) then 0
    else
      var e := 1 + LineEnd(s[1..]);
      assert s[..e] == [s[0]] + s[1..][..e - 1];
      e
  }

  /** Python's `str.splitlines()`: lines without their terminators, "\r\n"
      counting as one terminator and no empty line after a final one. */
  function SplitLines(s: string): (lines: seq<string>)
    ensures forall i :: 0 <= i < |lines| ==> NoBoundary(lines[i])
    decreases |s|
  {
    if s == [] then []
    else
      var e := LineEnd(s);
      if e == |s| then [s]
      else
        var skip := if s[e] == '\r' && e + 1 < |s| && s[e + 1] == '\n' then 2 else 1;
        [s[..e]] + SplitLines(s[e + skip..])
  }

  /** Lines free of terminators, the last one non-empty, are split back
      exactly as they were joined with "\n". */
  lemma {:induction false} SplitLinesJoin(lines: seq<string>)
    requires forall i :: 0 <= i < |lines| ==> NoBoundary(lines[i])
    requires lines != [] ==> lines[|lines| - 1] != ""
    ensures SplitLines(Join(lines, "\n")) == lines
  {
    if |lines| == 1 {
      assert LineEnd(lines[0]) == |lines[0]| by { LineEndOfPlain(lines[0], ""); }
    } else if |lines| > 1 {
      var s := Join(lines, "\n");
      var rest := Join(lines[1..], "\n");
      var e := |lines[0]|;
      assert s == lines[0] + ("\n" + rest);
      LineEndOfPlain(lines[0], "\n" + rest);
      assert s[e] == '\n' && s[e + 1..] == rest && s[..e] == lines[0];
      assert SplitLines(s) == [lines[0]] + SplitLines(rest);
      assert forall i :: 0 <= i < |lines[1..]| ==> NoBoundary(lines[1..][i]) by {
        forall i | 0 <= i < |lines[1..]| ensures NoBoundary(lines[1..][i]) {
          assert lines[1..][i] == lines[i + 1];
        }
      }
      SplitLinesJoin(lines[1..]);
    }
  }

  lemma {:induction false} LineEndOfPlain(a: string, b: string)
    requires NoBoundary(a)
    requires b == [] || IsLineBoundary(b[0])
    ensures LineEnd(a + b) == |a|
  {
    if a != [] {
      assert (a + b)[1..] == a[1..] + b;
      LineEndOfPlain(a[1..], b);
    } else {
      assert a + b == b;
    }
  }
}
