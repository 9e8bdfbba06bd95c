/// Calendar dates as the profile serializers read and write them: Django's
/// `parse_date` on the way in, `date.isoformat()` on the way out.
module Dates {
  import opened Common
  import opened Text
  import opened Store

  predicate IsLeap(year: int)
  {
    year % 4 == 0 && (year % 100 != 0 || year % 400 == 0)
  }

  function DaysInMonth(year: int, month: int): (n: int)
    requires 1 <= month <= 12
    ensures 28 <= n <= 31
    ensures month == 2 ==> (n == 29 <==> IsLeap(year))
  {
    if month == 2 then (if IsLeap(year) then 29 else 28)
    else if month == 4 || month == 6 || month == 9 || month == 11 then 30
    else 31
  }

  /// The dates `datetime.date` accepts.
  predicate IsCalendarDate(d: Date)
  {
    1 <= d.year <= 9999 && 1 <= d.month <= 12 && 1 <= d.day <= DaysInMonth(d.year, d.month)
  }

  /// `n` written with exactly `width` digits, zero-padded on the left.
  function Pad(n: nat, width: nat): (s: string)
    ensures |s| == width && forall i | 0 <= i < |s| :: IsDigit(s[i])
  {
    if width == 0 then [] else Pad(n / 10, width - 1) + [DigitChar(n % 10)]
  }

  /// `date.isoformat()`: YYYY-MM-DD.
  function FormatIsoDate(d: Date): (s: string)
    requires IsCalendarDate(d)
    ensures |s| == 10 && s[4] == '-' && s[7] == '-'
  {
    Pad(d.year, 4) + "-" + Pad(d.month, 2) + "-" + Pad(d.day, 2)
  }

  /// The year, month and day parts of `YYYY-M-D`, where month and day have one
  /// or two characters.
  function DateParts(s: string): (r: Option<(string, string, string)>)
    ensures r.Some? ==> |r.value.0| == 4 && 1 <= |r.value.1| <= 2
    ensures r.Some? ==> s == r.value.0 + "-" + r.value.1 + "-" + r.value.2
  {
    if |s| >= 8 && s[4] == '-' && s[6] == '-' then Some((s[..4], s[5..6], s[7..]))
    else if |s| >= 9 && s[4] == '-' && s[7] == '-' then Some((s[..4], s[5..7], s[8..]))
    else None
  }

  /// A whole-text match of `date_re`: four digits of year, one or two of
  /// month and of day, separated by dashes, naming a real date; None for
  /// anything else.
  function MatchDate(s: string): (r: Option<Date>)
    ensures r.Some? ==> IsCalendarDate(r.value)
    ensures r.Some? ==> 8 <= |s| <= 10 && s[4] == '-' && AllDigits(s[..4]) && IsDigit(s[|s| - 1])
  {
    match DateParts(s)
    case None => None
    case Some((y, m, d)) =>
      if AllDigits(y) && AllDigits(m) && AllDigits(d) && |d| <= 2 &&
         IsCalendarDate(Date(DigitsValue(y), DigitsValue(m), DigitsValue(d)))
      then Some(Date(DigitsValue(y), DigitsValue(m), DigitsValue(d)))
      else None
  }

  /// `parse_date`: `date_re` ends in `$`, which also matches before a final
  /// newline, so a date followed by one "\n" is read as that date.
  /// (`date.fromisoformat`, tried first, accepts no more of the texts
  /// modelled here.)
  function ParseIsoDate(s: string): (r: Option<Date>)
    ensures r.Some? ==> IsCalendarDate(r.value)
    ensures r.Some? ==> 8 <= |s| <= 11 && s[4] == '-' && AllDigits(s[..4])
    ensures r.Some? ==> r == MatchDate(s) || (|s| > 0 && s[|s| - 1] == '\n' && r == MatchDate(s[..|s| - 1]))
    ensures MatchDate(s).Some? ==> r == MatchDate(s)
  {
    if |s| > 0 && s[|s| - 1] == '\n' then
      var line := s[..|s| - 1];
      var r := MatchDate(line);
      if r.Some? then
        assert line[..4] == s[..4];
        r
      else r
    else MatchDate(s)
  }

  /// Only one newline is forgiven.
  lemma TwoNewlinesRefused(s: string)
    ensures ParseIsoDate(s + "\n\n") == None
  {
    var t := s + "\n\n";
    assert t[..|t| - 1] == s + "\n";
  }

  function Power10(k: nat): (p: nat)
    ensures p >= 1
  {
    if k == 0 then 1 else 10 * Power10(k - 1)
  }

  lemma {:induction false} DigitsValueOfPad(n: nat, width: nat)
    requires n < Power10(width)
    ensures DigitsValue(Pad(n, width)) == n
    decreases width
  {
    if width > 0 {
      var s := Pad(n, width);
      assert s[..|s| - 1] == Pad(n / 10, width - 1);
      DigitsValueOfPad(n / 10, width - 1);
    }
  }

  /// The serializer reads back every date it writes.
  lemma ParseFormattedDate(d: Date)
    requires IsCalendarDate(d)
    ensures ParseIsoDate(FormatIsoDate(d)) == Some(d)
  {
    var s := FormatIsoDate(d);
    var y, m, day := Pad(d.year, 4), Pad(d.month, 2), Pad(d.day, 2);
    assert s == y + "-" + m + "-" + day;
    assert s[6] == m[1] && IsDigit(m[1]);
    assert s[..4] == y && s[5..7] == m && s[8..] == day;
    assert DateParts(s) == Some((y, m, day));
    assert Power10(2) == 100 && Power10(4) == 10000 by {
      assert Power10(1) == 10;
      assert Power10(3) == 1000;
    }
    DigitsValueOfPad(d.year, 4);
    DigitsValueOfPad(d.month, 2);
    DigitsValueOfPad(d.day, 2);
  }

  /// A written date followed by a newline reads back as the same date.
  lemma ParseFormattedDateLine(d: Date)
    requires IsCalendarDate(d)
    ensures ParseIsoDate(FormatIsoDate(d) + "\n") == Some(d)
  {
    var s := FormatIsoDate(d) + "\n";
    assert s[..|s| - 1] == FormatIsoDate(d);
    ParseFormattedDate(d);
  }

  /// `date_of_birth` ordering: the calendar order of dates.
  predicate Before(a: Date, b: Date)
  {
    a.year < b.year || (a.year == b.year && (a.month < b.month || (a.month == b.month && a.day < b.day)))
  }
}
