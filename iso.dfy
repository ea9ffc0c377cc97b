/**
 * ISO 8601 text of dates and timestamps, as Python's `date.isoformat()`
 * ("YYYY-MM-DD") and `datetime.isoformat()` ("YYYY-MM-DDTHH:MM:SS" for a
 * value without microseconds) write them.
 */
module Iso {
  import opened Common
  import opened Dates
  import opened Decimal

  /** The year as `%04d`; Python has no year outside 1..9999, where this is exactly four digits. */
  function YearText(y: int): string {
    if y >= 0 then Padded(y, 4) else "-" + Padded(-y, 4)
  }

  function DateIso(d: Date): string
    requires ValidDate(d)
  {
    YearText(d.year) + "-" + Padded(d.month, 2) + "-" + Padded(d.day, 2)
  }

  /** "HH:MM:SS" for a number of seconds into the day. */
  function ClockIso(seconds: int): string
    requires 0 <= seconds < 86400
  {
    Padded(seconds / 3600, 2) + ":" + Padded(seconds / 60 % 60, 2) + ":" + Padded(seconds % 60, 2)
  }

  function StampIso(t: Timestamp): string
    requires ValidTimestamp(t)
  {
    DateIso(t.date) + "T" + ClockIso(t.seconds)
  }

  /** Reads "YYYY-MM-DD" back into a calendar date of Python's range, if it is one. */
  function ParseIsoDate(s: string): (r: Option<Date>)
    ensures r.Some? ==> ValidDate(r.value) && 1 <= r.value.year <= 9999
  {
    if |s| == 10 && s[4] == '-' && s[7] == '-'
      && AllDigits(s[..4]) && AllDigits(s[5..7]) && AllDigits(s[8..])
    then
      var d := Date(DigitsValue(s[..4]), DigitsValue(s[5..7]), DigitsValue(s[8..]));
      if 1 <= d.year <= 9999 && ValidDate(d) then Some(d) else None
    else None
  }

  lemma FourDigits(n: nat)
    requires n < 10000
    ensures |Padded(n, 4)| == 4 && DigitsValue(Padded(n, 4)) == n
  {
    assert Pow10(4) == 10000;
    PaddedLength(n, 4);
    PaddedValue(n, 4);
  }

  lemma TwoDigits(n: nat)
    requires n < 100
    ensures |Padded(n, 2)| == 2 && DigitsValue(Padded(n, 2)) == n
  {
    assert Pow10(2) == 100;
    PaddedLength(n, 2);
    PaddedValue(n, 2);
  }

  /** Every date of Python's range is written as ten characters that read back as the same date. */
  lemma DateIsoRoundTrip(d: Date)
    requires ValidDate(d) && 1 <= d.year <= 9999
    ensures |DateIso(d)| == 10
    ensures ParseIsoDate(DateIso(d)) == Some(d)
  {
    var y, m, dd := Padded(d.year, 4), Padded(d.month, 2), Padded(d.day, 2);
    FourDigits(d.year);
    TwoDigits(d.month);
    TwoDigits(d.day);
    var s := DateIso(d);
    assert s == y + "-" + m + "-" + dd;
    assert s[..4] == y && s[5..7] == m && s[8..] == dd;
  }

  lemma ClockIsoFields(seconds: int)
    requires 0 <= seconds < 86400
    ensures var c := ClockIso(seconds);
      && |c| == 8 && c[2] == ':' && c[5] == ':'
      && AllDigits(c[..2]) && AllDigits(c[3..5]) && AllDigits(c[6..])
      && DigitsValue(c[3..5]) < 60 && DigitsValue(c[6..]) < 60
      && DigitsValue(c[..2]) * 3600 + DigitsValue(c[3..5]) * 60 + DigitsValue(c[6..]) == seconds
  {
    var hh, mm, ss := seconds / 3600, seconds / 60 % 60, seconds % 60;
    ClockArithmetic(seconds);
    var h, m, s := Padded(hh, 2), Padded(mm, 2), Padded(ss, 2);
    TwoDigits(hh);
    TwoDigits(mm);
    TwoDigits(ss);
    var c := ClockIso(seconds);
    assert c == h + ":" + m + ":" + s;
    assert c[..2] == h && c[3..5] == m && c[6..] == s;
  }

  /** Hours, minutes and seconds of the day put back together. */
  lemma ClockArithmetic(seconds: int)
    requires 0 <= seconds < 86400
    ensures seconds / 3600 < 24 && seconds / 60 % 60 < 60 && seconds % 60 < 60
    ensures (seconds / 3600) * 3600 + (seconds / 60 % 60) * 60 + seconds % 60 == seconds
  {
    var minutes := seconds / 60;
    assert minutes * 60 + seconds % 60 == seconds;
    assert (minutes / 60) * 60 + minutes % 60 == minutes;
    assert minutes / 60 == seconds / 3600;
  }

  /**
   * A timestamp of Python's range is written in nineteen characters: its date,
   * which reads back, 'T', and the clock fields, which give back the seconds.
   */
  lemma StampIsoRoundTrip(t: Timestamp)
    requires ValidTimestamp(t) && 1 <= t.date.year <= 9999
    ensures var s := StampIso(t);
      && |s| == 19 && s[10] == 'T'
      && ParseIsoDate(s[..10]) == Some(t.date)
      && s[11..] == ClockIso(t.seconds)
  {
    DateIsoRoundTrip(t.date);
    ClockIsoFields(t.seconds);
    var s := StampIso(t);
    assert s[..10] == DateIso(t.date);
  }
}
