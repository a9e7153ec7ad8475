/**
 * Calendar dates and their text forms: `convert_date` (strptime with
 * `%Y-%m-%d`), `date.fromisoformat` as the `add` handler uses it, and
 * `date.isoformat()`, the extended calendar-date form of section 4.1.2.2
 * of ISO 8601:2004 in which the application writes dates back out.
 */
module Dates {
  import opened Wrappers
  import opened Numerals

  /** The range of years `datetime.date` admits. */
  const MIN_YEAR := 1
  const MAX_YEAR := 9999

  type Year = y: int | MIN_YEAR <= y <= MAX_YEAR witness MIN_YEAR
  type Month = m: int | 1 <= m <= 12 witness 1
  type Day = d: int | 1 <= d <= 31 witness 1

  /**
   * A date of the proleptic Gregorian calendar, as Python's `datetime.date`.
   * The field types bound each field; `ValidDate` adds the length of the month.
   */
  datatype Date = Date(year: Year, month: Month, day: Day)

  predicate IsLeapYear(y: int) {
    y % 4 == 0 && (y % 100 != 0 || y % 400 == 0)
  }

  function DaysInMonth(y: int, m: int): int
    requires 1 <= m <= 12
  {
    if m == 2 then (if IsLeapYear(y) then 29 else 28)
    else if m == 4 || m == 6 || m == 9 || m == 11 then 30
    else 31
  }

  /** The dates `datetime.date` can hold: no 31 April, no 29 February outside leap years. */
  predicate ValidDate(d: Date) {
    d.day <= DaysInMonth(d.year, d.month)
  }

  /** Chronological order, `a < b` on Python dates. */
  predicate Before(a: Date, b: Date) {
    || a.year < b.year
    || (a.year == b.year && a.month < b.month)
    || (a.year == b.year && a.month == b.month && a.day < b.day)
  }

  /** `Before` is a strict total order. */
  lemma BeforeTotal(a: Date, b: Date)
    ensures !Before(a, a)
    ensures a != b ==> (Before(a, b) <==> !Before(b, a))
  {
  }

  lemma BeforeTransitive(a: Date, b: Date, c: Date)
    requires Before(a, b) && Before(b, c)
    ensures Before(a, c)
  {
  }

  // ---------------------------------------------------------------------
  // convert_date: strptime(s, '%Y-%m-%d')

  /**
   * The month field of `%m`: the pattern `1[0-2]|0[1-9]|[1-9]`, that is one
   * or two digits naming a month from 1 to 12.
   */
  function MonthField(t: string): (r: Option<int>)
    ensures r.Some? ==> 1 <= r.value <= 12
  {
    if 1 <= |t| <= 2 && AllDigits(t) && 1 <= Value(t) <= 12 then Some(Value(t)) else None
  }

  /**
   * The day field of `%d`: the pattern `3[01]|[12]\d|0[1-9]|[1-9]| [1-9]`,
   * one or two digits naming a day from 1 to 31, or a space and one digit.
   */
  function DayField(t: string): (r: Option<int>)
    ensures r.Some? ==> 1 <= r.value <= 31
  {
    if 1 <= |t| <= 2 && AllDigits(t) && 1 <= Value(t) <= 31 then Some(Value(t))
    else if |t| == 2 && t[0] == ' ' && '1' <= t[1] <= '9' then Some(DigitValue(t[1]))
    else None
  }

  /** The date the three fields name, if `datetime.date` accepts it. */
  function Assemble(y: int, m: Option<int>, d: Option<int>): (r: Option<Date>)
    requires m.Some? ==> 1 <= m.value <= 12
    requires d.Some? ==> 1 <= d.value <= 31
    ensures r.Some? ==> ValidDate(r.value)
  {
    if m.Some? && d.Some? && MIN_YEAR <= y <= MAX_YEAR && ValidDate(Date(y, m.value, d.value)) then
      Some(Date(y, m.value, d.value))
    else None
  }

  /**
   * `convert_date`: the date a `YYYY-MM-DD` text names, `None` for the empty
   * text and for every text strptime rejects. `%Y` takes exactly four
   * digits; the month field runs to the second `-` and the day field to
   * the end of the text, since strptime refuses unconverted data.
   */
  function ParseDate(s: string): (r: Option<Date>)
    ensures s == [] ==> r.None?
    ensures |s| < 8 || |s| > 10 ==> r.None?
    ensures r.Some? ==> ValidDate(r.value)
  {
    if s == [] then None
    else if |s| < 8 || !AllDigits(s[..4]) || s[4] != '-' then None
    else
      var sep := if s[6] == '-' then 6 else 7;
      if s[sep] != '-' then None
      else Assemble(Value(s[..4]), MonthField(s[5..sep]), DayField(s[sep + 1..]))
  }

  /** The texts `%m` reads as month `m`: `07`, and `7` for a one-digit month. */
  function MonthSpellings(m: int): set<string>
    requires 1 <= m <= 12
  {
    {Pad2(m)} + (if m < 10 then {[Digit(m)]} else {})
  }

  /** The texts `%d` reads as day `d`: `05`, and `5` and ` 5` for a one-digit day. */
  function DaySpellings(d: int): set<string>
    requires 1 <= d <= 31
  {
    {Pad2(d)} + (if d < 10 then {[Digit(d)], [' ', Digit(d)]} else {})
  }

  /** `s` is one of the ways of writing `d` that `%Y-%m-%d` accepts. */
  ghost predicate Spells(s: string, d: Date) {
    exists mt, dt :: mt in MonthSpellings(d.month) && dt in DaySpellings(d.day)
      && s == Pad4(d.year) + "-" + mt + "-" + dt
  }

  lemma MonthFieldOfSpelling(m: int, t: string)
    requires 1 <= m <= 12 && t in MonthSpellings(m)
    ensures MonthField(t) == Some(m) && 1 <= |t| <= 2 && AllDigits(t)
  {
  }

  lemma DayFieldOfSpelling(d: int, t: string)
    requires 1 <= d <= 31 && t in DaySpellings(d)
    ensures DayField(t) == Some(d) && 1 <= |t| <= 2 && t[|t| - 1] != '-'
  {
    if d < 10 && t == [' ', Digit(d)] {
      assert !IsDigit(t[0]);
    }
  }

  lemma SpellingOfMonthField(t: string)
    requires MonthField(t).Some?
    ensures t in MonthSpellings(MonthField(t).value)
  {
    if |t| == 2 {
      Pad2OfValue(t);
    } else {
      assert [Digit(Value(t))] == t;
    }
  }

  lemma SpellingOfDayField(t: string)
    requires DayField(t).Some?
    ensures t in DaySpellings(DayField(t).value)
  {
    if 1 <= |t| <= 2 && AllDigits(t) && 1 <= Value(t) <= 31 {
      if |t| == 2 {
        Pad2OfValue(t);
      } else {
        assert [Digit(Value(t))] == t;
      }
    } else {
      assert [' ', Digit(DigitValue(t[1]))] == t;
    }
  }

  /** Every text `convert_date` accepts spells the date it returns. */
  lemma ParseDateSound(s: string, d: Date)
    requires ParseDate(s) == Some(d)
    ensures ValidDate(d) && Spells(s, d)
  {
    var sep := if s[6] == '-' then 6 else 7;
    var yt, mt, dt := s[..4], s[5..sep], s[sep + 1..];
    Pad4OfValue(yt);
    SpellingOfMonthField(mt);
    SpellingOfDayField(dt);
    assert s == yt + "-" + mt + "-" + dt;
  }

  /** Every spelling of a valid date is accepted, and yields that date. */
  lemma ParseDateComplete(s: string, d: Date)
    requires ValidDate(d) && Spells(s, d)
    ensures ParseDate(s) == Some(d)
  {
    var mt, dt :| mt in MonthSpellings(d.month) && dt in DaySpellings(d.day)
      && s == Pad4(d.year) + "-" + mt + "-" + dt;
    var yt := Pad4(d.year);
    MonthFieldOfSpelling(d.month, mt);
    DayFieldOfSpelling(d.day, dt);
    assert s[..4] == yt;
    var sep := 5 + |mt|;
    assert s[sep] == '-';
    assert s[5..sep] == mt;
    assert s[sep + 1..] == dt;
    if |mt| == 2 {
      assert s[6] == mt[1];
    }
  }

  /** `convert_date(s)` is `d` exactly when `s` is a spelling of the valid date `d`. */
  lemma ParseDateSpec(s: string, d: Date)
    ensures ParseDate(s) == Some(d) <==> ValidDate(d) && Spells(s, d)
  {
    if ParseDate(s) == Some(d) {
      ParseDateSound(s, d);
    }
    if ValidDate(d) && Spells(s, d) {
      ParseDateComplete(s, d);
    }
  }

  // ---------------------------------------------------------------------
  // date.isoformat() and date.fromisoformat()

  /** `date.isoformat()`: `YYYY-MM-DD`, every field zero-padded. */
  function IsoFormat(d: Date): (s: string)
    ensures |s| == 10
  {
    Pad4(d.year) + "-" + Pad2(d.month) + "-" + Pad2(d.day)
  }

  /** `date.fromisoformat(s)`: exactly `YYYY-MM-DD` with every field zero-padded. */
  function ParseIsoDate(s: string): (r: Option<Date>)
    ensures r.Some? ==> ValidDate(r.value)
  {
    if |s| == 10 && AllDigits(s[..4]) && s[4] == '-' && AllDigits(s[5..7]) && s[7] == '-' && AllDigits(s[8..]) then
      var y, m, d := Value(s[..4]), Value(s[5..7]), Value(s[8..]);
      if MIN_YEAR <= y <= MAX_YEAR && 1 <= m <= 12 && 1 <= d <= 31 && ValidDate(Date(y, m, d)) then
        Some(Date(y, m, d))
      else None
    else None
  }

  /** Round trip: both parsers read the ISO text of a valid date back as that date. */
  lemma {:induction false} IsoFormatRoundTrip(d: Date)
    requires ValidDate(d)
    ensures ParseIsoDate(IsoFormat(d)) == Some(d)
    ensures ParseDate(IsoFormat(d)) == Some(d)
  {
    var s := IsoFormat(d);
    assert s[..4] == Pad4(d.year);
    assert s[5..7] == Pad2(d.month);
    assert s[8..] == Pad2(d.day);
    assert Pad2(d.month) in MonthSpellings(d.month);
    assert Pad2(d.day) in DaySpellings(d.day);
    ParseDateComplete(s, d);
  }

  /** The other way round: `fromisoformat` accepts only the ISO text of the date it returns. */
  lemma ParseIsoDateCanonical(s: string, d: Date)
    requires ParseIsoDate(s) == Some(d)
    ensures IsoFormat(d) == s
  {
    Pad4OfValue(s[..4]);
    Pad2OfValue(s[5..7]);
    Pad2OfValue(s[8..]);
    assert s == s[..4] + "-" + s[5..7] + "-" + s[8..];
  }

  /** What `fromisoformat` accepts, strptime accepts as the same date. */
  lemma ParseIsoDateIsParseDate(s: string)
    requires ParseIsoDate(s).Some?
    ensures ParseDate(s) == ParseIsoDate(s)
  {
    ParseIsoDateCanonical(s, ParseIsoDate(s).value);
    IsoFormatRoundTrip(ParseIsoDate(s).value);
  }

  /** strptime also accepts a one-digit month and day, which `fromisoformat` refuses. */
  lemma UnpaddedAccepted(d: Date)
    requires ValidDate(d) && d.month < 10 && d.day < 10
    ensures ParseDate(Pad4(d.year) + "-" + [Digit(d.month)] + "-" + [Digit(d.day)]) == Some(d)
    ensures ParseIsoDate(Pad4(d.year) + "-" + [Digit(d.month)] + "-" + [Digit(d.day)]) == None
  {
    var s := Pad4(d.year) + "-" + [Digit(d.month)] + "-" + [Digit(d.day)];
    assert [Digit(d.month)] in MonthSpellings(d.month);
    assert [Digit(d.day)] in DaySpellings(d.day);
    ParseDateComplete(s, d);
  }

  /**
   * A well-formed text naming an impossible date (31 April, 29 February of
   * a common year) yields `None` from both parsers rather than an error.
   */
  lemma ImpossibleDateRejected(y: Year, m: Month, d: Day)
    requires !ValidDate(Date(y, m, d))
    ensures ParseDate(Pad4(y) + "-" + Pad2(m) + "-" + Pad2(d)) == None
    ensures ParseIsoDate(Pad4(y) + "-" + Pad2(m) + "-" + Pad2(d)) == None
  {
    var s := Pad4(y) + "-" + Pad2(m) + "-" + Pad2(d);
    assert s[..4] == Pad4(y) && s[5..7] == Pad2(m) && s[8..] == Pad2(d);
    assert s[6] != '-';
  }
}
