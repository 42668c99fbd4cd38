/**
 * Digital readout strings (tilt_clock_3D..js, `pad` and the time and date strings in `animate`).
 *
 * `pad(n)` is the decimal text of n left-padded with '0' to two characters;
 * the time readout is `HH:MM:SS` from the 24-hour clock and the date readout
 * `MM/DD/YY`, with the month shifted from 0-based to 1-based and the year cut
 * to the last two characters of its decimal text.
 */
module Readout {

  predicate IsDigit(c: char) { '0' <= c <= '9' }

  predicate AllDigits(s: string) { forall i :: 0 <= i < |s| ==> IsDigit(s[i]) }

  function DigitChar(d: nat): (c: char)
    requires d < 10
    ensures IsDigit(c)
  {
    (('0' as int) + d) as char
  }

  function DigitValue(c: char): nat
    requires IsDigit(c)
  {
    (c as int) - ('0' as int)
  }

  /** `n.toString()` for a non-negative integer: its decimal digits, no leading zero. */
  function NatToString(n: nat): (s: string)
    ensures 1 <= |s|
    ensures AllDigits(s)
    ensures s[|s| - 1] == DigitChar(n % 10)
    ensures |s| == 1 <==> n < 10
    ensures s[0] == '0' ==> n == 0
    decreases n
  {
    if n < 10 then [DigitChar(n)] else NatToString(n / 10) + [DigitChar(n % 10)]
  }

  /** `n.toString()` for any integer: a minus sign before the digits of a negative number. */
  function IntToString(n: int): string
  {
    if n < 0 then "-" + NatToString(-n) else NatToString(n)
  }

  /** The value of a string of decimal digits, leading zeros allowed. */
  function ParseDecimal(s: string): nat
    requires AllDigits(s)
    decreases |s|
  {
    if s == [] then 0 else ParseDecimal(s[..|s| - 1]) * 10 + DigitValue(s[|s| - 1])
  }

  /** `s.padStart(width, c)` with a one-character pad string. */
  function PadStart(s: string, width: nat, c: char): string
  {
    if |s| >= width then s else seq(width - |s|, _ => c) + s
  }

  /** `pad(n)` of the source. */
  function Pad(n: nat): string
  {
    PadStart(NatToString(n), 2, '0')
  }

  /** `s.slice(-2)`: the last two characters, or the whole string when it is shorter. */
  function LastTwo(s: string): string
  {
    if |s| >= 2 then s[|s| - 2..] else s
  }

  /** Reading the digits back gives the number: the decimal text is faithful. */
  lemma {:induction false} NatToStringRoundTrip(n: nat)
    ensures ParseDecimal(NatToString(n)) == n
    decreases n
  {
    var s := NatToString(n);
    if n >= 10 {
      NatToStringRoundTrip(n / 10);
      assert s[..|s| - 1] == NatToString(n / 10);
    }
  }

  lemma {:induction false} LeadingZeroIgnored(s: string)
    requires AllDigits(s)
    ensures ParseDecimal(['0'] + s) == ParseDecimal(s)
    decreases |s|
  {
    if s != [] {
      var t := ['0'] + s;
      assert t[..|t| - 1] == ['0'] + s[..|s| - 1];
      LeadingZeroIgnored(s[..|s| - 1]);
    }
  }

  /** `pad(n)` has at least two characters, all digits; a number of two or more digits is
      unchanged and a single digit gets one leading '0'. */
  lemma PadShape(n: nat)
    ensures |Pad(n)| >= 2
    ensures AllDigits(Pad(n))
    ensures n >= 10 ==> Pad(n) == NatToString(n)
    ensures n < 10 ==> Pad(n) == ['0', DigitChar(n)]
  {
    if n < 10 {
      assert seq(1, _ => '0') == ['0'];
    }
  }

  /** Padding loses nothing: the padded text still reads back as n. */
  lemma PadRoundTrip(n: nat)
    ensures AllDigits(Pad(n))
    ensures ParseDecimal(Pad(n)) == n
  {
    PadShape(n);
    NatToStringRoundTrip(n);
    if n < 10 {
      LeadingZeroIgnored(NatToString(n));
    }
  }

  /** Below 100, `pad(n)` is exactly the tens digit followed by the units digit. */
  lemma PadTwoDigits(n: nat)
    requires n < 100
    ensures Pad(n) == [DigitChar(n / 10), DigitChar(n % 10)]
  {
    PadShape(n);
    if n >= 10 {
      var s := NatToString(n);
      assert s == NatToString(n / 10) + [DigitChar(n % 10)];
      assert NatToString(n / 10) == [DigitChar(n / 10)];
    }
  }

  /** From a year of two or more digits, the last two characters are its last two digits,
      that is `pad(year % 100)`. */
  lemma YearSuffix(year: int)
    requires year >= 10
    ensures LastTwo(IntToString(year)) == [DigitChar((year / 10) % 10), DigitChar(year % 10)]
    ensures LastTwo(IntToString(year)) == Pad(year % 100)
  {
    var s := NatToString(year);
    var p := NatToString(year / 10);
    assert s == p + [DigitChar(year % 10)];
    assert s[|s| - 2..] == [p[|p| - 1], DigitChar(year % 10)];
    TensAndUnits(year);
    PadTwoDigits(year % 100);
  }

  lemma TensAndUnits(n: nat)
    ensures (n % 100) / 10 == (n / 10) % 10 && (n % 100) % 10 == n % 10
  {
    var q, c := n / 10, n % 10;
    var a, b := q / 10, q % 10;
    assert n == 100 * a + (10 * b + c);
    assert n % 100 == 10 * b + c;
  }

  /** The time readout, from the 24-hour hours, the minutes and the whole seconds. */
  function TimeString(hours: nat, minutes: nat, seconds: nat): string
  {
    Pad(hours) + ":" + Pad(minutes) + ":" + Pad(seconds)
  }

  /** The date readout, from the 0-based month, the day of the month and the full year. */
  function DateString(month: nat, day: nat, year: int): string
  {
    Pad(month + 1) + "/" + Pad(day) + "/" + LastTwo(IntToString(year))
  }

  /** Three two-character fields joined by a one-character separator. */
  lemma JoinedFields(f1: string, f2: string, f3: string, sep: char)
    requires |f1| == 2 && |f2| == 2 && |f3| == 2
    ensures var r := f1 + [sep] + f2 + [sep] + f3;
      r == [f1[0], f1[1], sep, f2[0], f2[1], sep, f3[0], f3[1]]
      && r[0..2] == f1 && r[3..5] == f2 && r[6..8] == f3
  {
  }

  /** For hours 0 to 23 the time readout is always eight characters `HH:MM:SS`, digit pairs
      that read back as the hours, minutes and seconds. */
  lemma TimeStringShape(hours: nat, minutes: nat, seconds: nat)
    requires hours < 24 && minutes < 60 && seconds < 60
    ensures var r := TimeString(hours, minutes, seconds);
      r == [DigitChar(hours / 10), DigitChar(hours % 10), ':',
            DigitChar(minutes / 10), DigitChar(minutes % 10), ':',
            DigitChar(seconds / 10), DigitChar(seconds % 10)]
    ensures var r := TimeString(hours, minutes, seconds);
      && |r| == 8
      && AllDigits(r[0..2]) && ParseDecimal(r[0..2]) == hours
      && AllDigits(r[3..5]) && ParseDecimal(r[3..5]) == minutes
      && AllDigits(r[6..8]) && ParseDecimal(r[6..8]) == seconds
  {
    var hh, mm, ss := Pad(hours), Pad(minutes), Pad(seconds);
    var r := TimeString(hours, minutes, seconds);
    assert r == hh + [':'] + mm + [':'] + ss;
    PadTwoDigits(hours);
    PadTwoDigits(minutes);
    PadTwoDigits(seconds);
    JoinedFields(hh, mm, ss, ':');
    assert ParseDecimal(r[0..2]) == hours by { PadRoundTrip(hours); }
    assert ParseDecimal(r[3..5]) == minutes by { PadRoundTrip(minutes); }
    assert ParseDecimal(r[6..8]) == seconds by { PadRoundTrip(seconds); }
  }

  /** For a Date's month (0 to 11), day (1 to 31) and a year of two or more digits the date
      readout is eight characters `MM/DD/YY`: the 1-based month, the day and the year's last
      two digits. */
  lemma DateStringShape(month: nat, day: nat, year: int)
    requires month < 12 && 1 <= day <= 31 && year >= 10
    ensures var r := DateString(month, day, year);
      r == [DigitChar((month + 1) / 10), DigitChar((month + 1) % 10), '/',
            DigitChar(day / 10), DigitChar(day % 10), '/',
            DigitChar((year / 10) % 10), DigitChar(year % 10)]
    ensures var r := DateString(month, day, year);
      && |r| == 8
      && AllDigits(r[0..2]) && ParseDecimal(r[0..2]) == month + 1
      && AllDigits(r[3..5]) && ParseDecimal(r[3..5]) == day
      && AllDigits(r[6..8]) && ParseDecimal(r[6..8]) == year % 100
  {
    var mm, dd, yy := Pad(month + 1), Pad(day), LastTwo(IntToString(year));
    var r := DateString(month, day, year);
    assert r == mm + ['/'] + dd + ['/'] + yy;
    PadTwoDigits(month + 1);
    PadTwoDigits(day);
    YearSuffix(year);
    assert |mm| == 2 && |dd| == 2 && |yy| == 2;
    JoinedFields(mm, dd, yy, '/');
    assert ParseDecimal(r[0..2]) == month + 1 by { PadRoundTrip(month + 1); }
    assert ParseDecimal(r[3..5]) == day by { PadRoundTrip(day); }
    assert ParseDecimal(r[6..8]) == year % 100 by { PadRoundTrip(year % 100); }
  }

  /** A worked example: 8 August 2025 at 09:05:07. */
  lemma ReadoutExample()
    ensures TimeString(9, 5, 7) == "09:05:07"
    ensures DateString(7, 8, 2025) == "08/08/25"
  {
    TimeStringShape(9, 5, 7);
    DateStringShape(7, 8, 2025);
  }
}
