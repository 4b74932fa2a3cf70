/**
 * The trading-day gate (`is_trading_day`): weekends and listed holidays are
 * closed, and any fault while deciding counts as open (fail-open).
 * The India Standard Time clock and the holiday file are inputs.
 */
module Calendar {
  import opened Text

  /** `datetime.weekday()`: 0 is Monday, 6 is Sunday. */
  type Weekday = d: int | 0 <= d <= 6

  /** What the IST clock read gives: a fault (the time zone cannot be resolved), or the day. */
  datatype Clock = ClockFault | Now(weekday: Weekday, date: string)

  /**
   * The holiday file: not there, there but raising on open/read (a directory,
   * no permission, undecodable bytes), or the lines its iteration yields.
   */
  datatype HolidayFile = Missing | Unreadable | Lines(lines: seq<string>)

  /** The decision together with the reason the script logs for it. */
  datatype Decision = ClosedWeekend | ClosedHoliday | Open | OpenWithoutHolidayList | OpenFailSafe
  {
    predicate IsOpen()
    {
      !ClosedWeekend? && !ClosedHoliday?
    }
  }

  /** `{line.strip() for line in f if line.strip()}` */
  function Holidays(lines: seq<string>): (h: set<string>)
    // blank lines add nothing, so the empty string is never a holiday
    ensures "" !in h
    // every non-blank line contributes its stripped text, and nothing else is in the set
    ensures forall i :: 0 <= i < |lines| && Strip(lines[i]) != "" ==> Strip(lines[i]) in h
    ensures forall d :: d in h ==> exists i :: 0 <= i < |lines| && Strip(lines[i]) == d
    // the entries carry no surrounding whitespace
    ensures forall d :: d in h ==> Strip(d) == d
  {
    assert forall l :: Strip(Strip(l)) == Strip(l) by {
      forall l {
        StripIdempotent(l);
      }
    }
    set l | l in lines && Strip(l) != "" :: Strip(l)
  }

  /** Saturday and Sunday are `weekday() >= 5`. */
  predicate IsWeekend(weekday: Weekday)
  {
    weekday >= 5
  }

  /** `YYYY-MM-DD`, the form `strftime("%Y-%m-%d")` produces for years 1000..9999. */
  predicate IsIsoDate(d: string)
  {
    && |d| == 10
    && d[4] == '-' && d[7] == '-'
    && forall i :: 0 <= i < 10 && i != 4 && i != 7 ==> '0' <= d[i] <= '9'
  }

  /** The gate's decision, with the reason `is_trading_day` logs for it. */
  function Decide(clock: Clock, file: HolidayFile): (d: Decision)
    // closed only for a weekend or a listed holiday, read from a clock that did not fail
    ensures d == ClosedWeekend <==> clock.Now? && IsWeekend(clock.weekday)
    ensures d == ClosedHoliday ==> clock.Now? && file.Lines? && clock.date in Holidays(file.lines) && clock.date != ""
    // the fail-safe branch is taken exactly on a fault: the clock, or reading an existing file
    ensures d == OpenFailSafe <==> clock.ClockFault? || (!IsWeekend(clock.weekday) && file.Unreadable?)
    ensures d == OpenWithoutHolidayList <==> clock.Now? && !IsWeekend(clock.weekday) && file.Missing?
  {
    match clock
    case ClockFault => OpenFailSafe
    case Now(weekday, date) =>
      if IsWeekend(weekday) then ClosedWeekend
      else match file
        case Missing => OpenWithoutHolidayList
        case Unreadable => OpenFailSafe
        case Lines(lines) => if date in Holidays(lines) then ClosedHoliday else Open
  }

  /** `is_trading_day()` */
  predicate IsTradingDay(clock: Clock, file: HolidayFile)
    // False exactly for a weekend, or for a date in the holiday set; every fault gives True
    ensures !IsTradingDay(clock, file) <==>
      clock.Now? && (IsWeekend(clock.weekday) || (file.Lines? && clock.date in Holidays(file.lines)))
  {
    Decide(clock, file).IsOpen()
  }

  /** A weekend is closed whatever the holiday file holds, even if it cannot be read. */
  lemma WeekendIsClosed(weekday: Weekday, date: string, file: HolidayFile)
    requires IsWeekend(weekday)
    ensures !IsTradingDay(Now(weekday, date), file)
    ensures Decide(Now(weekday, date), file) == ClosedWeekend
  {
  }

  /**
   * On a weekday with the holiday file read, the market is closed exactly when
   * some line, stripped, is non-blank and equals the date.
   */
  lemma HolidayRule(weekday: Weekday, date: string, lines: seq<string>)
    requires !IsWeekend(weekday)
    ensures !IsTradingDay(Now(weekday, date), Lines(lines))
      <==> exists i :: 0 <= i < |lines| && Strip(lines[i]) == date && date != ""
  {
  }

  /** Blank lines never close the market, so an empty holiday list never does. */
  lemma BlankLinesAreIgnored(weekday: Weekday, date: string, lines: seq<string>)
    requires !IsWeekend(weekday)
    requires forall i :: 0 <= i < |lines| ==> AllSpace(lines[i])
    ensures IsTradingDay(Now(weekday, date), Lines(lines))
  {
    forall l | l in lines
      ensures Strip(l) == ""
    {
      StripOfPadded(l, "", "");
      assert l + "" + "" == l;
    }
    assert Holidays(lines) == {};
  }

  /**
   * A date listed in the file, with any surrounding whitespace and its line
   * ending, closes the market on that weekday.
   */
  lemma ListedDateIsClosed(weekday: Weekday, date: string, lines: seq<string>, i: nat, pre: string, post: string)
    requires !IsWeekend(weekday) && IsIsoDate(date)
    requires i < |lines| && lines[i] == pre + date + post
    requires AllSpace(pre) && AllSpace(post)
    ensures Decide(Now(weekday, date), Lines(lines)) == ClosedHoliday
  {
    StripOfPadded(pre, date, post);
    assert lines[i] in lines;
  }

  /** Every other weekday is open: a missing file, an unreadable file or a clock fault never closes. */
  lemma FailOpen(clock: Clock, file: HolidayFile)
    requires clock.ClockFault? || (!IsWeekend(clock.weekday) && !file.Lines?)
    ensures IsTradingDay(clock, file)
    ensures clock.ClockFault? || file.Unreadable? <==> Decide(clock, file) == OpenFailSafe
  {
  }
}
