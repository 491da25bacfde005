/** Calendar dates. A date is its proleptic Gregorian ordinal, the number that
    Python's `date.toordinal()` gives (0001-01-01 is day 1), so that `today + k`
    is the date `k` days from today; its "YYYY-MM-DD" text is produced and read
    by a calendar whose exact algorithm (strftime and strptime with '%Y-%m-%d')
    stays abstract. */
module Dates {
  import opened Wrappers
  import opened Text

  /** A calendar date as a day number; consecutive days are consecutive numbers. */
  type Day = int

  /** `date.min` (0001-01-01) and `date.max` (9999-12-31): arithmetic that
      leaves this range raises OverflowError. */
  const DateMin: Day := 1
  const DateMax: Day := 3652059

  /** 1000-01-01, the first date whose year has four digits: from here to
      `DateMax` the text of a date is always "YYYY-MM-DD". */
  const Year1000: Day := 364878

  /** The date-text codec: `format` is strftime('%Y-%m-%d'), `parse` is strptime
      with the same format, `None` standing for the ValueError it raises. */
  datatype Calendar = Calendar(format: Day -> string, parse: string -> Option<Day>)

  /** Four digits, a dash, two digits, a dash, two digits. */
  predicate IsDateText(s: string)
  {
    && |s| == 10 && s[4] == '-' && s[7] == '-'
    && forall i :: 0 <= i < 10 && i != 4 && i != 7 ==> '0' <= s[i] <= '9'
  }

  /** What the model relies on from the date codec: for the dates of four-digit
      years, the text of a date has the "YYYY-MM-DD" shape and parsing it gives
      the date back; and no text that parses holds a tab (the format's
      directives accept only digits, the dashes and a blank). */
  ghost predicate ValidCalendar(cal: Calendar)
  {
    && (forall d :: Year1000 <= d <= DateMax ==> IsDateText(cal.format(d)))
    && (forall d :: Year1000 <= d <= DateMax ==> cal.parse(cal.format(d)) == Some(d))
    && (forall s :: cal.parse(s).Some? ==> '\t' !in s)
  }

  /** `k` decimal digits of `n`, the most significant first (digits beyond the
      `k`-th are dropped). */
  function FixedDigits(n: nat, k: nat): (r: string)
    ensures |r| == k && AllDigits(r)
  {
    if k == 0 then [] else FixedDigits(n / 10, k - 1) + [DigitChar(n % 10)]
  }

  function Pow10(k: nat): (p: nat)
    ensures p >= 1
  {
    if k == 0 then 1 else 10 * Pow10(k - 1)
  }

  lemma {:induction false} FixedDigitsValue(n: nat, k: nat)
    requires n < Pow10(k)
    ensures DigitsValue(FixedDigits(n, k)) == n
  {
    if k > 0 {
      FixedDigitsValue(n / 10, k - 1);
      var r := FixedDigits(n, k);
      assert r[..|r| - 1] == FixedDigits(n / 10, k - 1);
    }
  }

  /** A calendar that writes a day number as eight digits in the "YYYY-MM-DD"
      shape; it shows that `ValidCalendar` can be met. */
  function EightDigitFormat(d: Day): (s: string)
    ensures 0 <= d ==> IsDateText(s)
  {
    var t := FixedDigits(if d < 0 then 0 else d, 8);
    t[..4] + "-" + t[4..6] + "-" + t[6..]
  }

  function EightDigitParse(s: string): (r: Option<Day>)
    ensures r.Some? ==> IsDateText(s)
  {
    if IsDateText(s) then
      assert AllDigits(s[..4] + s[5..7] + s[8..]) by {
        var t := s[..4] + s[5..7] + s[8..];
        forall i | 0 <= i < 8 ensures IsDigit(t[i]) {
          if i < 4 { assert t[i] == s[i]; }
          else if i < 6 { assert t[i] == s[i + 1]; }
          else { assert t[i] == s[i + 2]; }
        }
      }
      Some(DigitsValue(s[..4] + s[5..7] + s[8..]))
    else None
  }

  lemma EightDigitRoundTrip(d: Day)
    requires 0 <= d < 100000000
    ensures EightDigitParse(EightDigitFormat(d)) == Some(d)
  {
    var t := FixedDigits(d, 8);
    var s := EightDigitFormat(d);
    assert s[..4] + s[5..7] + s[8..] == t;
    assert Pow10(8) == 100000000;
    FixedDigitsValue(d, 8);
  }

  lemma DateTextHasNoTab(s: string)
    requires IsDateText(s)
    ensures '\t' !in s
  {
    forall i | 0 <= i < |s| ensures s[i] != '\t' {
      if i != 4 && i != 7 {
        assert '0' <= s[i] <= '9';
      }
    }
  }

  /** Some calendar meets `ValidCalendar`, so the lemmas that require it are not
      vacuous. */
  lemma SomeValidCalendar()
    ensures exists cal :: ValidCalendar(cal)
  {
    var cal := Calendar(EightDigitFormat, EightDigitParse);
    forall d | Year1000 <= d <= DateMax
      ensures cal.parse(cal.format(d)) == Some(d)
    {
      EightDigitRoundTrip(d);
    }
    forall s | cal.parse(s).Some? ensures '\t' !in s {
      DateTextHasNoTab(s);
    }
    assert ValidCalendar(cal);
  }

  /** from_today(days): the date `days` days after `today` (before, when negative). */
  function FromToday(today: Day, days: int): (d: Day)
    ensures days < 0 ==> d < today
    ensures days > 0 ==> today < d
    ensures d - days == today
  {
    today + days
  }

  /** `timedelta` counts time in whole microseconds. */
  const MicrosPerDay: int := 86400000000

  /** Half a microsecond, as a fraction of a day. */
  const HalfMicro: real := 1.0 / 172800000000.0

  /** Rounding to the nearest integer, a tie going to the even neighbour, as
      `timedelta` rounds a fractional microsecond count. */
  function RoundHalfEven(y: real): (m: int)
    ensures y - 0.5 <= m as real <= y + 0.5
    ensures (m as real == y - 0.5 || m as real == y + 0.5) ==> m % 2 == 0
  {
    var f := y.Floor;
    var frac := y - f as real;
    if frac < 0.5 then f
    else if frac > 0.5 then f + 1
    else if f % 2 == 0 then f else f + 1
  }

  /** The whole days of `timedelta(days=x)`: `x` is first rounded to whole
      microseconds, half to even; the result is normalised to whole days plus
      a non-negative remainder under a day, and adding it to a date uses only
      the whole days. */
  function DeltaDays(x: real): (n: int)
    ensures var m := RoundHalfEven(x * MicrosPerDay as real);
      n * MicrosPerDay <= m < (n + 1) * MicrosPerDay
    ensures n as real - HalfMicro <= x <= n as real + 1.0 - HalfMicro
  {
    var m := RoundHalfEven(x * MicrosPerDay as real);
    var n := m / MicrosPerDay;
    assert n * MicrosPerDay <= m <= (n + 1) * MicrosPerDay - 1;
    assert (n * MicrosPerDay) as real - 0.5 <= x * MicrosPerDay as real;
    assert x * MicrosPerDay as real <= ((n + 1) * MicrosPerDay) as real - 0.5;
    n
  }

  /** from_today(x) for a float `x`: the date `DeltaDays(x)` days after `today`,
      or `None` for the OverflowError raised when that date lies outside
      `DateMin..DateMax`. */
  function FromTodayReal(today: Day, x: real): (r: Option<Day>)
    ensures r.Some? <==> DateMin <= today + DeltaDays(x) <= DateMax
    ensures r.Some? ==>
      r.value as real - HalfMicro <= today as real + x <= r.value as real + 1.0 - HalfMicro
  {
    var d := FromToday(today, DeltaDays(x));
    if DateMin <= d <= DateMax then Some(d) else None
  }

  /** A whole number of days moves the date by exactly that many days. */
  lemma FromTodayWholeDays(today: Day, k: int)
    requires DateMin <= today + k <= DateMax
    ensures FromTodayReal(today, k as real) == Some(FromToday(today, k))
  {
    assert RoundHalfEven(k as real * MicrosPerDay as real) == k * MicrosPerDay;
  }
}
