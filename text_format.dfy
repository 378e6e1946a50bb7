/**
 * Zero-padded decimal rendering as Python's `f"{n:02d}"` and `strftime`'s `%Y`, `%m`,
 * `%d`, `%H`, `%M` produce it, the two date/time layouts the forecast uses
 * (`%Y%m%d` and `%Y-%m-%d %H:%M`), and parsers that read each layout back.
 */
module TextFormat {
  import opened Outcomes
  import opened Calendar

  function Pow10(w: nat): (p: nat)
    ensures p >= 1
  {
    if w == 0 then 1 else 10 * Pow10(w - 1)
  }

  predicate IsDigit(c: char) {
    '0' <= c <= '9'
  }

  predicate AllDigits(s: string) {
    forall i :: 0 <= i < |s| ==> IsDigit(s[i])
  }

  function DigitChar(n: nat): (c: char)
    requires n < 10
    ensures IsDigit(c)
  {
    ['0', '1', '2', '3', '4', '5', '6', '7', '8', '9'][n]
  }

  function DigitValue(c: char): (n: nat)
    requires IsDigit(c)
    ensures n < 10
  {
    (c as int - '0' as int) as nat
  }

  /** The shortest decimal rendering of n, as `str(n)`. */
  function Digits(n: nat): (s: string)
    ensures |s| >= 1 && AllDigits(s)
  {
    if n < 10 then [DigitChar(n)] else Digits(n / 10) + [DigitChar(n % 10)]
  }

  /** The number a string of digits denotes, most significant digit first. */
  function Value(s: string): nat
    requires AllDigits(s)
  {
    if s == [] then 0 else Value(s[..|s| - 1]) * 10 + DigitValue(s[|s| - 1])
  }

  function Zeros(k: nat): (s: string)
    ensures |s| == k && AllDigits(s)
  {
    if k == 0 then [] else Zeros(k - 1) + ['0']
  }

  /** n rendered in decimal and left-padded with zeros to at least w characters. */
  function Pad(n: nat, w: nat): (s: string)
    ensures AllDigits(s) && |s| >= w
  {
    var d := Digits(n);
    if |d| < w then Zeros(w - |d|) + d else d
  }

  lemma {:induction false} ValueOfDigits(n: nat)
    ensures Value(Digits(n)) == n
  {
    if n >= 10 {
      var s := Digits(n);
      assert s[..|s| - 1] == Digits(n / 10);
      ValueOfDigits(n / 10);
    }
  }

  lemma {:induction false} DigitsFitWidth(n: nat, w: nat)
    requires 1 <= w && n < Pow10(w)
    ensures |Digits(n)| <= w
  {
    if n >= 10 {
      assert w >= 2;
      assert n / 10 < Pow10(w - 1);
      DigitsFitWidth(n / 10, w - 1);
    }
  }

  /** Leading zeros do not change the value of a string of digits. */
  lemma {:induction false} ValueIgnoresLeadingZeros(k: nat, s: string)
    requires AllDigits(s)
    ensures Value(Zeros(k) + s) == Value(s)
    decreases |s|, k
  {
    var z := Zeros(k) + s;
    if s == [] {
      assert z == Zeros(k);
      if k > 0 {
        assert z[..|z| - 1] == Zeros(k - 1);
        ValueIgnoresLeadingZeros(k - 1, []);
        assert Zeros(k - 1) + [] == Zeros(k - 1);
      }
    } else {
      assert z[..|z| - 1] == Zeros(k) + s[..|s| - 1];
      ValueIgnoresLeadingZeros(k, s[..|s| - 1]);
    }
  }

  /** Padding to a width the number fits in gives exactly w digits that read back as n. */
  lemma PadRoundTrip(n: nat, w: nat)
    requires 1 <= w && n < Pow10(w)
    ensures |Pad(n, w)| == w && Value(Pad(n, w)) == n
  {
    var d := Digits(n);
    DigitsFitWidth(n, w);
    ValueOfDigits(n);
    if |d| < w {
      assert Pad(n, w) == Zeros(w - |d|) + d;
      ValueIgnoresLeadingZeros(w - |d|, d);
    } else {
      assert Pad(n, w) == d;
    }
  }

  lemma PadWidth(n: nat, w: nat)
    ensures 1 <= w && n < Pow10(w) ==> |Pad(n, w)| == w
  {
    if 1 <= w && n < Pow10(w) {
      PadRoundTrip(n, w);
    }
  }

  /** A run hour as `f"{run:02d}"` renders it. */
  function RunLabel(run: nat): (s: string)
    requires run < 100
    ensures |s| == 2 && AllDigits(s) && Value(s) == run
  {
    PadRoundTrip(run, 2);
    Pad(run, 2)
  }

  /** A date as `date.strftime("%Y%m%d")` renders it. */
  function DateStamp(d: Date): (s: string)
    requires ValidDate(d) && d.year <= MAX_YEAR
    ensures |s| == 8 && AllDigits(s)
  {
    PadRoundTrip(d.year, 4);
    PadRoundTrip(d.month, 2);
    PadRoundTrip(d.day, 2);
    Pad(d.year, 4) + Pad(d.month, 2) + Pad(d.day, 2)
  }

  /** Reads a `%Y%m%d` stamp back into a date. */
  function ParseDateStamp(s: string): Option<Date> {
    if |s| == 8 && AllDigits(s) then
      Some(Date(Value(s[0..4]), Value(s[4..6]), Value(s[6..8])))
    else
      None
  }

  lemma DateStampRoundTrip(d: Date)
    requires ValidDate(d) && d.year <= MAX_YEAR
    ensures ParseDateStamp(DateStamp(d)) == Some(d)
  {
    PadRoundTrip(d.year, 4);
    PadRoundTrip(d.month, 2);
    PadRoundTrip(d.day, 2);
    var s := DateStamp(d);
    assert s[0..4] == Pad(d.year, 4);
    assert s[4..6] == Pad(d.month, 2);
    assert s[6..8] == Pad(d.day, 2);
  }

  /** The date part of a timestamp, `%Y-%m-%d`. */
  function DateText(d: Date): (s: string)
    requires ValidDate(d)
    ensures |s| >= 10 && (d.year <= MAX_YEAR ==> |s| == 10)
  {
    PadWidth(d.year, 4);
    PadRoundTrip(d.month, 2);
    PadRoundTrip(d.day, 2);
    Pad(d.year, 4) + "-" + Pad(d.month, 2) + "-" + Pad(d.day, 2)
  }

  function ParseDateText(s: string): Option<Date> {
    if |s| == 10 && s[4] == '-' && s[7] == '-'
       && AllDigits(s[0..4]) && AllDigits(s[5..7]) && AllDigits(s[8..10])
    then Some(Date(Value(s[0..4]), Value(s[5..7]), Value(s[8..10])))
    else None
  }

  lemma DateTextRoundTrip(d: Date)
    requires ValidDate(d) && d.year <= MAX_YEAR
    ensures ParseDateText(DateText(d)) == Some(d)
  {
    PadRoundTrip(d.year, 4);
    PadRoundTrip(d.month, 2);
    PadRoundTrip(d.day, 2);
    var s := DateText(d);
    assert s[0..4] == Pad(d.year, 4);
    assert s[5..7] == Pad(d.month, 2);
    assert s[8..10] == Pad(d.day, 2);
  }

  /** The clock part of a timestamp, `%H:%M`. */
  function ClockText(hour: nat, minute: nat): (s: string)
    requires hour < 24 && minute < 60
    ensures |s| == 5
  {
    PadRoundTrip(hour, 2);
    PadRoundTrip(minute, 2);
    Pad(hour, 2) + ":" + Pad(minute, 2)
  }

  function ParseClockText(s: string): Option<(nat, nat)> {
    if |s| == 5 && s[2] == ':' && AllDigits(s[0..2]) && AllDigits(s[3..5])
    then Some((Value(s[0..2]), Value(s[3..5])))
    else None
  }

  lemma ClockTextRoundTrip(hour: nat, minute: nat)
    requires hour < 24 && minute < 60
    ensures ParseClockText(ClockText(hour, minute)) == Some((hour, minute))
  {
    PadRoundTrip(hour, 2);
    PadRoundTrip(minute, 2);
    var s := ClockText(hour, minute);
    assert s[0..2] == Pad(hour, 2);
    assert s[3..5] == Pad(minute, 2);
  }

  /** A timestamp as `strftime('%Y-%m-%d %H:%M')` renders it. */
  function FormatDateTime(t: DateTime): (s: string)
    requires ValidDateTime(t)
    ensures |s| >= 16 && (t.date.year <= MAX_YEAR ==> |s| == 16)
  {
    DateText(t.date) + " " + ClockText(t.hour, t.minute)
  }

  /** Reads a `%Y-%m-%d %H:%M` timestamp back. */
  function ParseDateTime(s: string): Option<DateTime> {
    if |s| == 16 && s[10] == ' ' then
      match (ParseDateText(s[0..10]), ParseClockText(s[11..16]))
      case (Some(d), Some(hm)) => Some(DateTime(d, hm.0, hm.1))
      case _ => None
    else
      None
  }

  /** Formatting loses nothing: the text reads back as the timestamp it came from. */
  lemma DateTimeRoundTrip(t: DateTime)
    requires ValidDateTime(t) && t.date.year <= MAX_YEAR
    ensures ParseDateTime(FormatDateTime(t)) == Some(t)
  {
    var date, clock := DateText(t.date), ClockText(t.hour, t.minute);
    var s := FormatDateTime(t);
    assert s == date + " " + clock;
    assert s[0..10] == date;
    assert s[11..16] == clock;
    DateTextRoundTrip(t.date);
    ClockTextRoundTrip(t.hour, t.minute);
    assert ParseDateText(s[0..10]) == Some(t.date);
    assert ParseClockText(s[11..16]) == Some((t.hour, t.minute));
  }
}
