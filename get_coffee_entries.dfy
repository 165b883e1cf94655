/**
 * `GetCoffeeEntriesUseCase.Execute` of internal/usecases/get_coffee_entries.go:
 * the page size default, the `YYYY-MM-DD` date, and the one-day window in UTC
 * the entries are fetched for, shifted by the caller's offset from UTC.
 *
 * Instants are nanoseconds since the Unix epoch, as everywhere in this model.
 * The repository call is the parameter `fetch`: what it returns for the query
 * the use case builds decides the outcome.
 */
module GetCoffeeEntries {
  import opened Wrappers
  import Numerals
  import Uuids
  import UseCaseErrors

  const DefaultLimit: int := 50
  const NanosPerSecond: int := 1_000_000_000
  const SecondsPerDay: int := 86400
  /** `24 * time.Hour`. */
  const NanosPerDay: int := SecondsPerDay * NanosPerSecond

  /** A proleptic Gregorian calendar date. */
  datatype Date = Date(year: int, month: int, day: int)

  predicate IsLeap(year: int)
  {
    year % 4 == 0 && (year % 100 != 0 || year % 400 == 0)
  }

  /** The length of a month, as `time.daysIn` gives it. */
  function DaysIn(month: int, year: int): (r: int)
    requires 1 <= month <= 12
    ensures 28 <= r <= 31
  {
    if month == 2 then (if IsLeap(year) then 29 else 28)
    else if month == 4 || month == 6 || month == 9 || month == 11 then 30
    else 31
  }

  predicate IsValidDate(d: Date)
  {
    1 <= d.month <= 12 && 1 <= d.day <= DaysIn(d.month, d.year)
  }

  /**
   * `time.Parse("2006-01-02", s)`: four digits of year, '-', two digits of
   * month, '-', two digits of day and nothing more; the month must lie in
   * 1..12 and the day in the month's range.
   */
  function ParseDate(s: string): (r: Option<Date>)
    ensures r.Some? ==> IsValidDate(r.value) && r.value.year >= 0
  {
    if |s| != 10 || s[4] != '-' || s[7] != '-' then None
    else
      var y := Numerals.ValueOf(s[..4], 10);
      var m := Numerals.ValueOf(s[5..7], 10);
      var d := Numerals.ValueOf(s[8..], 10);
      if y.None? || m.None? || d.None? then None
      else if !(1 <= m.value <= 12) || !(1 <= d.value <= DaysIn(m.value, y.value)) then None
      else Some(Date(y.value, m.value, d.value))
  }

  /** The date written in the layout `2006-01-02`. */
  function FormatDate(d: Date): string
    requires 0 <= d.year <= 9999 && 1 <= d.month <= 12 && 1 <= d.day <= 31
  {
    Numerals.FixedWidth(d.year, 10, 4) + ("-" + (Numerals.FixedWidth(d.month, 10, 2) + ("-" + Numerals.FixedWidth(d.day, 10, 2))))
  }

  /** The number of days from 1970-01-01 to the date (negative before it), in the proleptic Gregorian calendar. */
  function DaysFromCivil(d: Date): int
  {
    var y := if d.month <= 2 then d.year - 1 else d.year;
    var era := y / 400;
    var yoe := y - era * 400;
    var mp := if d.month > 2 then d.month - 3 else d.month + 9;
    var doy := (153 * mp + 2) / 5 + d.day - 1;
    var doe := yoe * 365 + yoe / 4 - yoe / 100 + doy;
    era * 146097 + doe - 719468
  }

  /** `time.Date(y, m, d, 0, 0, 0, 0, zone)` for a zone `offsetSeconds` east of UTC. */
  function MidnightIn(d: Date, offsetSeconds: int): int
  {
    (DaysFromCivil(d) * SecondsPerDay - offsetSeconds) * NanosPerSecond
  }

  /** `adjustTimeWithOffsetMinutes`: the date's midnight in `time.FixedZone("UserOffset", offsetMinutes*60)`. */
  function AdjustTimeWithOffsetMinutes(d: Date, offsetMinutes: int): int
  {
    MidnightIn(d, offsetMinutes * 60)
  }

  /** `limit`, with 50 in place of a limit that is not positive. */
  function EffectiveLimit(limit: int): (r: int)
    ensures r >= 1
    ensures limit > 0 ==> r == limit
    ensures limit <= 0 ==> r == DefaultLimit
  {
    if limit <= 0 then DefaultLimit else limit
  }

  /** The arguments of `GetByUserIDAndDateRange`. */
  datatype RangeQuery = RangeQuery(user: Uuids.Uuid, limit: int, offset: int, start: int, end: int)

  /** The query for a parsed date: the day's start in UTC (shifted by the offset when one is given) and one day on. */
  function Query(user: Uuids.Uuid, date: Date, tzOffsetMinutes: Option<int>, limit: int, offset: int): RangeQuery
  {
    var start := if tzOffsetMinutes.Some? then AdjustTimeWithOffsetMinutes(date, tzOffsetMinutes.value) else MidnightIn(date, 0);
    RangeQuery(user, EffectiveLimit(limit), offset, start, start + NanosPerDay)
  }

  /** A failure of the repository call, whatever its cause. */
  datatype FetchError = FetchError

  /**
   * `Execute`: a date that does not parse is `ErrInvalidInput` and nothing is
   * fetched; a failed fetch is `ErrInternalError`; a nil slice becomes the
   * empty list and any other list is returned as fetched.
   */
  function Execute<E>(user: Uuids.Uuid, dateStr: string, tzOffsetMinutes: Option<int>, limit: int, offset: int,
                      fetch: RangeQuery -> Result<Option<seq<E>>, FetchError>): (r: Result<seq<E>, UseCaseErrors.UseCaseError>)
    ensures ParseDate(dateStr).None? ==> r == Err(UseCaseErrors.InvalidInput)
    ensures ParseDate(dateStr).Some? ==>
              var fetched := fetch(Query(user, ParseDate(dateStr).value, tzOffsetMinutes, limit, offset));
              && (r == Err(UseCaseErrors.InternalError) <==> fetched.Err?)
              && (r.Ok? <==> fetched.Ok?)
              && (fetched == Ok(None) ==> r == Ok([]))
              && (fetched.Ok? && fetched.value.Some? ==> r == Ok(fetched.value.value))
  {
    match ParseDate(dateStr)
    case None => Err(UseCaseErrors.InvalidInput)
    case Some(date) =>
      match fetch(Query(user, date, tzOffsetMinutes, limit, offset))
      case Err(_) => Err(UseCaseErrors.InternalError)
      case Ok(None) => Ok([])
      case Ok(Some(entries)) => Ok(entries)
  }

  // ---- properties ---------------------------------------------------------

  /** A date that does not parse is refused whatever the repository would have answered. */
  lemma BadDateFetchesNothing<E>(user: Uuids.Uuid, dateStr: string, tz: Option<int>, limit: int, offset: int,
                                 f: RangeQuery -> Result<Option<seq<E>>, FetchError>,
                                 g: RangeQuery -> Result<Option<seq<E>>, FetchError>)
    requires ParseDate(dateStr).None?
    ensures Execute(user, dateStr, tz, limit, offset, f) == Execute(user, dateStr, tz, limit, offset, g) == Err(UseCaseErrors.InvalidInput)
  {
  }

  /**
   * The window is exactly one day long, starts at the date's UTC midnight moved
   * back by the offset (60 seconds per minute), and carries the caller's
   * offset and the effective limit.
   */
  lemma QueryWindow(user: Uuids.Uuid, date: Date, tz: Option<int>, limit: int, offset: int)
    ensures var q := Query(user, date, tz, limit, offset);
      && q.end - q.start == 24 * 3600 * NanosPerSecond
      && q.start == DaysFromCivil(date) * SecondsPerDay * NanosPerSecond - (if tz.Some? then 60 * tz.value * NanosPerSecond else 0)
      && q.offset == offset && q.user == user
      && q.limit == (if limit <= 0 then 50 else limit)
  {
  }

  /** Consecutive days of a month are consecutive day numbers. */
  lemma NextDay(d: Date)
    ensures DaysFromCivil(Date(d.year, d.month, d.day + 1)) == DaysFromCivil(d) + 1
  {
  }

  /** Within a month, the end of one day's window is where the next day's window starts. */
  lemma WindowsAdjoin(user: Uuids.Uuid, d: Date, tz: Option<int>, limit: int, offset: int)
    ensures Query(user, Date(d.year, d.month, d.day + 1), tz, limit, offset).start == Query(user, d, tz, limit, offset).end
  {
    NextDay(d);
  }

  /** The epoch is day 0, and 2025-08-21 is day 20321. */
  lemma KnownDays()
    ensures DaysFromCivil(Date(1970, 1, 1)) == 0
    ensures DaysFromCivil(Date(2025, 8, 21)) == 20321
  {
  }

  /** Every valid date of a four-digit year parses back from its `2006-01-02` rendering. */
  lemma ParseFormatDate(d: Date)
    requires IsValidDate(d) && 0 <= d.year <= 9999
    ensures ParseDate(FormatDate(d)) == Some(d)
  {
    var ys, ms, ds := Numerals.FixedWidth(d.year, 10, 4), Numerals.FixedWidth(d.month, 10, 2), Numerals.FixedWidth(d.day, 10, 2);
    var s := FormatDate(d);
    assert s == ys + ("-" + (ms + ("-" + ds)));
    assert s[..4] == ys && s[4] == '-' && s[5..7] == ms && s[7] == '-' && s[8..] == ds;
    assert Numerals.Pow(10, 4) == 10000 && Numerals.Pow(10, 2) == 100;
    Numerals.ValueOfFixedWidth(d.year, 10, 4);
    Numerals.ValueOfFixedWidth(d.month, 10, 2);
    Numerals.ValueOfFixedWidth(d.day, 10, 2);
  }

  /** The layout takes no other shape: a missing zero, another separator or a thirteenth month is refused. */
  lemma LayoutRejects()
    ensures ParseDate("2025-8-21") == None
    ensures ParseDate("2025/08/21") == None
    ensures ParseDate("2025-13-01") == None
    ensures ParseDate("2025-02-29") == None
  {
    assert "2025-8-21"[4] == '-';
    assert |"2025-8-21"| == 9;
    assert "2025/08/21"[4] == '/';
    assert "2025-13-01"[..4] == "2025" && "2025-13-01"[5..7] == "13" && "2025-13-01"[8..] == "01";
    assert Numerals.ValueOf("13", 10) == Some(13) by {
      assert "13"[..1] == "1";
    }
    assert "2025-02-29"[..4] == "2025" && "2025-02-29"[5..7] == "02" && "2025-02-29"[8..] == "29";
    assert Numerals.ValueOf("2025", 10) == Some(2025) by {
      assert "2025"[..3] == "202" && "202"[..2] == "20" && "20"[..1] == "2";
    }
    assert Numerals.ValueOf("02", 10) == Some(2) by {
      assert "02"[..1] == "0";
    }
    assert Numerals.ValueOf("29", 10) == Some(29) by {
      assert "29"[..1] == "2";
    }
  }
}
