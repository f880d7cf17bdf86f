/**
 * The session calendar: which instants an instrument trades, what trading date they
 * belong to, and when the market next opens. Instants are exchange-local milliseconds
 * from day 0, so a minute, a day and a weekday are plain divisions.
 */
module Session {
  import opened Calendar
  import opened Common
  import opened Contracts

  const MINUTE_MS: int := 60_000
  const DAY_MINUTES: int := 1440
  const OPEN_MINUTE: int := 1020

  datatype Window = Window(weekday: int, startMinute: int, endMinute: int)

  datatype Maintenance = Maintenance(name: string, weekdays: seq<int>, startMinute: int, endMinute: int)

  datatype Spec = Spec(windows: seq<Window>, maintenance: seq<Maintenance>)

  datatype Holiday = FULL | EARLY(closeMinute: int)

  type Holidays = map<int, Holiday>

  /** Sunday to Thursday, 17:00 to 16:00 the next day. */
  const GLOBEX_WINDOWS: seq<Window> := [
    Window(0, 1020, 2400), Window(1, 1020, 2400), Window(2, 1020, 2400), Window(3, 1020, 2400), Window(4, 1020, 2400)
  ]

  const DAILY_BREAK := Maintenance("Daily maintenance", [1, 2, 3, 4], 960, 1020)
  const EQUITY_HALT := Maintenance("Equity index halt", [1, 2, 3, 4, 5], 915, 930)
  const EQUITY_SPEC := Spec(GLOBEX_WINDOWS, [DAILY_BREAK, EQUITY_HALT])
  const STANDARD_SPEC := Spec(GLOBEX_WINDOWS, [DAILY_BREAK])

  predicate Globex(spec: Spec) { spec == EQUITY_SPEC || spec == STANDARD_SPEC }

  function MinuteAt(t: int): int { t / MINUTE_MS }
  function DayAt(minute: int): int { minute / DAY_MINUTES }
  function MinuteOfDay(minute: int): (r: int)
    ensures 0 <= r < DAY_MINUTES
  {
    minute % DAY_MINUTES
  }

  /** An instant lies in its minute of its day. */
  lemma ClockIs(t: int)
    ensures var day, m := DayAt(MinuteAt(t)), MinuteOfDay(MinuteAt(t));
            0 <= m < 1440 && 86_400_000 * day + 60_000 * m <= t < 86_400_000 * day + 60_000 * (m + 1)
  {
    var minute := MinuteAt(t);
    assert t == 60_000 * minute + t % 60_000;
    assert minute == 1440 * DayAt(minute) + MinuteOfDay(minute);
  }

  // ---------------------------------------------------------------- the source's functions, minute by minute

  function TradingDate(spec: Spec, minute: int): int {
    var open := if spec.windows == [] then OPEN_MINUTE else spec.windows[0].startMinute;
    if MinuteOfDay(minute) >= open then DayAt(minute) + 1 else DayAt(minute)
  }

  datatype Hit = Hit(openMinute: int, closeMinute: int, openDay: int)

  /** The first window of the list that opened today, or yesterday across midnight, and holds the minute. */
  function FindIn(windows: seq<Window>, day: int, minute: int): Option<Hit> {
    if windows == [] then None
    else
      var w := windows[0];
      if w.weekday == Weekday(day) && w.startMinute <= minute < w.endMinute then
        Some(Hit(w.startMinute, w.endMinute, day))
      else if w.endMinute > DAY_MINUTES && w.weekday == Weekday(day - 1) && minute + DAY_MINUTES < w.endMinute then
        Some(Hit(w.startMinute, w.endMinute, day - 1))
      else FindIn(windows[1..], day, minute)
  }

  function FindWindow(spec: Spec, minute: int): Option<Hit> {
    FindIn(spec.windows, DayAt(minute), MinuteOfDay(minute))
  }

  function MaintenanceIn(windows: seq<Maintenance>, weekday: int, minute: int): Option<string> {
    if windows == [] then None
    else
      var m := windows[0];
      if (m.weekdays == [] || weekday in m.weekdays) && m.startMinute <= minute < m.endMinute then Some(m.name)
      else MaintenanceIn(windows[1..], weekday, minute)
  }

  function InMaintenance(spec: Spec, minute: int): Option<string> {
    MaintenanceIn(spec.maintenance, Weekday(DayAt(minute)), MinuteOfDay(minute))
  }

  datatype Reason = HolidayOn(day: int) | OutsideSession | EarlyCloseOn(day: int)

  datatype MarketState = OPEN | MAINTENANCE(name: string) | CLOSED(reason: Reason)

  predicate IsFullClosure(holidays: Holidays, day: int) {
    day in holidays && holidays[day].FULL?
  }

  predicate ClosedEarly(holidays: Holidays, day: int, minute: int) {
    day in holidays && holidays[day].EARLY? && holidays[day].closeMinute <= minute < OPEN_MINUTE
  }

  function GetMarketState(spec: Spec, holidays: Holidays, minute: int): MarketState {
    var day := DayAt(minute);
    if IsFullClosure(holidays, day) then CLOSED(HolidayOn(day))
    else
      var maintenance := InMaintenance(spec, minute);
      if maintenance.Some? then MAINTENANCE(maintenance.value)
      else if FindWindow(spec, minute).None? then CLOSED(OutsideSession)
      else if IsFullClosure(holidays, TradingDate(spec, minute)) then CLOSED(HolidayOn(TradingDate(spec, minute)))
      else if ClosedEarly(holidays, day, MinuteOfDay(minute)) then CLOSED(EarlyCloseOn(day))
      else OPEN
  }

  predicate IsMarketOpen(spec: Spec, holidays: Holidays, t: int) {
    GetMarketState(spec, holidays, MinuteAt(t)) == OPEN
  }

  function SessionStart(spec: Spec, t: int): Option<int> {
    match FindWindow(spec, MinuteAt(t))
    case None => None
    case Some(hit) => Some((hit.openDay * DAY_MINUTES + hit.openMinute) * MINUTE_MS)
  }

  function SessionEnd(spec: Spec, t: int): Option<int> {
    match FindWindow(spec, MinuteAt(t))
    case None => None
    case Some(hit) => Some((hit.openDay * DAY_MINUTES + hit.closeMinute) * MINUTE_MS)
  }

  // ---------------------------------------------------------------- sessions as intervals

  /** The session that window `w` opens on `day` holds this minute. */
  predicate Contains(w: Window, day: int, minute: int) {
    Weekday(day) == w.weekday
    && day * 1440 + w.startMinute <= minute < day * 1440 + w.endMinute
  }

  predicate WellFormed(w: Window) {
    0 <= w.startMinute < DAY_MINUTES && w.endMinute <= 2 * DAY_MINUTES
  }

  /** Looking only at today and yesterday finds every session there is. */
  lemma {:induction false} FindIsExact(windows: seq<Window>, minute: int)
    requires forall w | w in windows :: WellFormed(w)
    ensures var hit := FindIn(windows, DayAt(minute), MinuteOfDay(minute));
            if hit.None? then forall w, d | w in windows :: !Contains(w, d, minute)
            else exists w :: w in windows && Contains(w, hit.value.openDay, minute)
                             && hit.value == Hit(w.startMinute, w.endMinute, hit.value.openDay)
  {
    if windows != [] {
      var w, rest := windows[0], windows[1..];
      assert w in windows && forall v | v in rest :: v in windows;
      FindIsExact(rest, minute);
      forall d
        ensures Contains(w, d, minute) ==> d == DayAt(minute) || d == DayAt(minute) - 1
      {
      }
      assert forall v | v in windows :: v == w || v in rest;
    }
  }

  lemma GlobexWindows(w: Window)
    ensures w in GLOBEX_WINDOWS <==> 0 <= w.weekday <= 4 && w.startMinute == 1020 && w.endMinute == 2400
  {
  }

  /** `day` opens the Globex session that holds this minute. */
  predicate InSessionOf(day: int, minute: int) {
    0 <= Weekday(day) <= 4 && day * 1440 + 1020 <= minute < day * 1440 + 2400
  }

  lemma GlobexSession(spec: Spec, minute: int)
    requires Globex(spec)
    ensures FindWindow(spec, minute).None? ==> forall d :: !InSessionOf(d, minute)
    ensures FindWindow(spec, minute).Some? ==>
              var hit := FindWindow(spec, minute).value;
              hit.openMinute == 1020 && hit.closeMinute == 2400 && InSessionOf(hit.openDay, minute)
  {
    forall w
      ensures w in GLOBEX_WINDOWS <==> 0 <= w.weekday <= 4 && w.startMinute == 1020 && w.endMinute == 2400
    {
      GlobexWindows(w);
    }
    FindIsExact(GLOBEX_WINDOWS, minute);
    if FindWindow(spec, minute).None? {
      forall d
        ensures !InSessionOf(d, minute)
      {
        var w := Window(Weekday(d), 1020, 2400);
        GlobexWindows(w);
        if w in GLOBEX_WINDOWS { assert !Contains(w, d, minute); }
      }
    }
  }

  /** No minute lies in two sessions. */
  lemma AtMostOneSession(a: int, b: int, minute: int)
    requires InSessionOf(a, minute) && InSessionOf(b, minute)
    ensures a == b
  {
  }

  /** The session's bounds hold the instant, and hold it in exactly one session. */
  lemma SessionBounds(spec: Spec, t: int)
    requires Globex(spec)
    ensures SessionStart(spec, t).Some? <==> exists d :: InSessionOf(d, MinuteAt(t))
    ensures SessionEnd(spec, t).Some? <==> SessionStart(spec, t).Some?
    ensures SessionStart(spec, t).Some? ==>
              SessionStart(spec, t).value <= t < SessionEnd(spec, t).value
              && exists d :: InSessionOf(d, MinuteAt(t)) && SessionStart(spec, t).value == 86_400_000 * d + 61_200_000
                             && SessionEnd(spec, t).value == 86_400_000 * d + 144_000_000
  {
    GlobexSession(spec, MinuteAt(t));
    if hit :| FindWindow(spec, MinuteAt(t)) == Some(hit) {
      Aligned(t, hit.openDay * DAY_MINUTES + hit.openMinute);
      Aligned(t, hit.openDay * DAY_MINUTES + hit.closeMinute);
      assert InSessionOf(hit.openDay, MinuteAt(t));
    }
  }

  lemma Aligned(t: int, minute: int)
    ensures minute * MINUTE_MS <= t <==> minute <= MinuteAt(t)
  {
    assert t == MinuteAt(t) * MINUTE_MS + t % MINUTE_MS;
  }

  // ---------------------------------------------------------------- trading dates

  /** Every minute of a session belongs to one trading date, the weekday after it opened. */
  lemma TradingDateOfSession(spec: Spec, day: int, minute: int)
    requires Globex(spec) && InSessionOf(day, minute)
    ensures TradingDate(spec, minute) == day + 1
    ensures MONDAY <= Weekday(TradingDate(spec, minute)) <= FRIDAY
  {
    WeekdayShift(day, 1);
    assert DayAt(minute) == if minute < (day + 1) * DAY_MINUTES then day else day + 1;
  }

  /** Trading dates never go backwards, with any session windows. */
  lemma TradingDateMonotone(spec: Spec, a: int, b: int)
    requires a <= b
    ensures TradingDate(spec, a) <= TradingDate(spec, b)
  {
    assert DayAt(a) <= DayAt(b);
    assert a == DayAt(a) * DAY_MINUTES + MinuteOfDay(a);
    assert b == DayAt(b) * DAY_MINUTES + MinuteOfDay(b);
  }

  /** Two instants share a trading date exactly when no 17:00 lies between them. */
  lemma SameTradingDate(spec: Spec, a: int, b: int)
    requires Globex(spec) && a <= b
    ensures TradingDate(spec, a) == TradingDate(spec, b)
            <==> forall d :: !(a < d * DAY_MINUTES + OPEN_MINUTE <= b)
  {
    TradingDayStarts(spec, a);
    TradingDayStarts(spec, b);
    var next := TradingDate(spec, a);
    if TradingDate(spec, a) != TradingDate(spec, b) {
      TradingDateMonotone(spec, a, b);
      assert a < next * DAY_MINUTES + OPEN_MINUTE <= b;
    }
  }

  lemma TradingDayStarts(spec: Spec, minute: int)
    requires Globex(spec)
    ensures (TradingDate(spec, minute) - 1) * DAY_MINUTES + OPEN_MINUTE <= minute
    ensures minute < TradingDate(spec, minute) * DAY_MINUTES + OPEN_MINUTE
  {
    assert minute == DayAt(minute) * DAY_MINUTES + MinuteOfDay(minute);
  }

  // ---------------------------------------------------------------- the trading week

  /** Minutes since Sunday midnight. */
  function MinuteOfWeek(minute: int): int {
    Weekday(DayAt(minute)) * DAY_MINUTES + MinuteOfDay(minute)
  }

  /** The five windows are one week, Sunday 17:00 to Friday 16:00, less an hour a day. */
  lemma WeekIsFiveSessions(spec: Spec, minute: int)
    requires Globex(spec)
    ensures FindWindow(spec, minute).Some?
            <==> 1020 <= MinuteOfWeek(minute) < 8160 && (MinuteOfWeek(minute) - 1020) % 1440 < 1380
  {
    GlobexSession(spec, minute);
    var day, m := DayAt(minute), MinuteOfDay(minute);
    WeekdayShift(day - 1, 1);
    assert minute == day * DAY_MINUTES + m;
    BreakOf(Weekday(day), m);
    assert InSessionOf(day, minute) <==> 0 <= Weekday(day) <= 4 && m >= 1020;
    assert InSessionOf(day - 1, minute) <==> 1 <= Weekday(day) <= 5 && m < 960;
    if FindWindow(spec, minute).Some? {
      var d := FindWindow(spec, minute).value.openDay;
      assert d == day || d == day - 1;
    }
  }

  lemma BreakOf(weekday: int, m: int)
    requires 0 <= weekday < 7 && 0 <= m < 1440
    ensures var w := 1440 * weekday + m;
            1020 <= w < 8160 && (w - 1020) % 1440 < 1380
            <==> (weekday <= 4 && m >= 1020) || (1 <= weekday <= 5 && m < 960)
  {
    var w := 1440 * weekday + m;
    if m >= 1020 {
      assert w - 1020 == 1440 * weekday + (m - 1020);
    } else {
      assert w - 1020 == 1440 * (weekday - 1) + (m + 420);
    }
  }

  /** Whatever the calendar says, the market is shut from Friday 16:00 to Sunday 17:00. */
  lemma WeekendIsClosed(spec: Spec, holidays: Holidays, minute: int)
    requires Globex(spec)
    requires MinuteOfWeek(minute) < 1020 || MinuteOfWeek(minute) >= 8160
    ensures GetMarketState(spec, holidays, minute).CLOSED?
  {
    WeekIsFiveSessions(spec, minute);
    MaintenanceHours(spec, minute);
  }

  /** The maintenance hours, by weekday and minute. */
  predicate InBreak(spec: Spec, weekday: int, m: int) {
    (1 <= weekday <= 4 && 960 <= m < 1020) || (spec == EQUITY_SPEC && 1 <= weekday <= 5 && 915 <= m < 930)
  }

  /** Maintenance is the daily hour Monday to Thursday, and for equities a quarter of an hour. */
  lemma MaintenanceHours(spec: Spec, minute: int)
    requires Globex(spec)
    ensures InMaintenance(spec, minute).Some? <==> InBreak(spec, Weekday(DayAt(minute)), MinuteOfDay(minute))
  {
    var w := Weekday(DayAt(minute));
    assert w in DAILY_BREAK.weekdays <==> 1 <= w <= 4;
    assert w in EQUITY_HALT.weekdays <==> 1 <= w <= 5;
    var m := MinuteOfDay(minute);
    assert [EQUITY_HALT][1..] == [] && [DAILY_BREAK][1..] == [] && [DAILY_BREAK, EQUITY_HALT][1..] == [EQUITY_HALT];
    assert MaintenanceIn([EQUITY_HALT], w, m).Some? <==> 1 <= w <= 5 && 915 <= m < 930;
    assert MaintenanceIn([DAILY_BREAK], w, m).Some? <==> 1 <= w <= 4 && 960 <= m < 1020;
  }

  /** An open market is in one session, on a trading date that is a weekday and no holiday. */
  lemma OpenMeansTrading(spec: Spec, holidays: Holidays, minute: int)
    requires Globex(spec) && GetMarketState(spec, holidays, minute) == OPEN
    ensures exists d :: InSessionOf(d, minute) && TradingDate(spec, minute) == d + 1
    ensures MONDAY <= Weekday(TradingDate(spec, minute)) <= FRIDAY
    ensures !IsFullClosure(holidays, TradingDate(spec, minute)) && !IsFullClosure(holidays, DayAt(minute))
  {
    GlobexSession(spec, minute);
    TradingDateOfSession(spec, FindWindow(spec, minute).value.openDay, minute);
  }

  /** The evening belongs to the next day. */
  function EveningDay(minute: int): int {
    if MinuteOfDay(minute) >= OPEN_MINUTE then DayAt(minute) + 1 else DayAt(minute)
  }

  /** When the market is open and when it is in maintenance, told by the week and the holiday table. */
  lemma OpenIff(spec: Spec, holidays: Holidays, minute: int)
    requires Globex(spec)
    ensures var (day, m) := (DayAt(minute), MinuteOfDay(minute));
            GetMarketState(spec, holidays, minute) == OPEN
            <==> && 1020 <= MinuteOfWeek(minute) < 8160 && (MinuteOfWeek(minute) - 1020) % 1440 < 1380
                 && !InBreak(spec, Weekday(day), m)
                 && !IsFullClosure(holidays, day) && !IsFullClosure(holidays, EveningDay(minute))
                 && (day in holidays && holidays[day].EARLY? ==> m < holidays[day].closeMinute || m >= OPEN_MINUTE)
    ensures GetMarketState(spec, holidays, minute).MAINTENANCE?
            <==> InBreak(spec, Weekday(DayAt(minute)), MinuteOfDay(minute)) && !IsFullClosure(holidays, DayAt(minute))
  {
    WeekIsFiveSessions(spec, minute);
    MaintenanceHours(spec, minute);
    assert TradingDate(spec, minute) == EveningDay(minute);
  }

  predicate FullOn(holidays: Holidays, day: int) { day in holidays && holidays[day] == FULL }

  /** The market's state in full, with its reason, told by the week and the holiday table in the order they are asked. */
  lemma StateIs(spec: Spec, holidays: Holidays, minute: int)
    requires Globex(spec)
    ensures var day, m, week := DayAt(minute), MinuteOfDay(minute), MinuteOfWeek(minute);
            var evening := if m >= 1020 then day + 1 else day;
            GetMarketState(spec, holidays, minute)
            == if FullOn(holidays, day) then CLOSED(HolidayOn(day))
               else if InBreak(spec, Weekday(day), m) then
                 MAINTENANCE(if m < 930 then "Equity index halt" else "Daily maintenance")
               else if week < 1020 || week >= 8160 || (week - 1020) % 1440 >= 1380 then CLOSED(OutsideSession)
               else if FullOn(holidays, evening) then CLOSED(HolidayOn(evening))
               else if day in holidays && holidays[day].closeMinute <= m < 1020 then CLOSED(EarlyCloseOn(day))
               else OPEN
  {
    WeekIsFiveSessions(spec, minute);
    MaintenanceHours(spec, minute);
    MaintenanceNames(spec, minute);
    assert TradingDate(spec, minute) == EveningDay(minute);
  }

  lemma MaintenanceNames(spec: Spec, minute: int)
    requires Globex(spec)
    ensures InMaintenance(spec, minute).Some? ==>
              InMaintenance(spec, minute)
              == Some(if MinuteOfDay(minute) < 930 then "Equity index halt" else "Daily maintenance")
  {
    var w, m := Weekday(DayAt(minute)), MinuteOfDay(minute);
    assert [EQUITY_HALT][1..] == [] && [DAILY_BREAK][1..] == [] && [DAILY_BREAK, EQUITY_HALT][1..] == [EQUITY_HALT];
    NamesIn(w, m);
  }

  lemma NamesIn(weekday: int, m: int)
    ensures MaintenanceIn([EQUITY_HALT], weekday, m).Some? ==>
              915 <= m < 930 && MaintenanceIn([EQUITY_HALT], weekday, m) == Some("Equity index halt")
    ensures MaintenanceIn([DAILY_BREAK], weekday, m).Some? ==>
              960 <= m && MaintenanceIn([DAILY_BREAK], weekday, m) == Some("Daily maintenance")
  {
    assert [EQUITY_HALT][1..] == [] && [DAILY_BREAK][1..] == [];
    assert [EQUITY_HALT][0] == EQUITY_HALT && [DAILY_BREAK][0] == DAILY_BREAK;
    assert MaintenanceIn([], weekday, m) == None;
    assert EQUITY_HALT.name == "Equity index halt" && DAILY_BREAK.name == "Daily maintenance";
  }

  // ---------------------------------------------------------------- the next opening

  /** `k` minutes on from `t`, within the search, and none before it open. */
  ghost predicate FirstOpenStep(spec: Spec, holidays: Holidays, t: int, steps: int, k: int) {
    && 0 <= k < steps
    && IsMarketOpen(spec, holidays, t + k * 60_000)
    && forall j | 0 <= j < k :: !IsMarketOpen(spec, holidays, t + j * 60_000)
  }

  method NextOpen(spec: Spec, holidays: Holidays, t: int, maxDays: int) returns (found: Option<int>)
    ensures found.Some? ==>
              exists k :: found.value == t + k * 60_000
                          && FirstOpenStep(spec, holidays, t, maxDays * 1440, k)
    ensures found.None? ==> forall j | 0 <= j < maxDays * 1440 :: !IsMarketOpen(spec, holidays, t + j * 60_000)
  {
    var cursor := t;
    var limit := t + maxDays * DAY_MS;
    ghost var k := 0;
    while cursor < limit
      invariant k >= 0 && cursor == t + k * MINUTE_MS
      invariant forall j | 0 <= j < k :: !IsMarketOpen(spec, holidays, t + j * MINUTE_MS)
    {
      if IsMarketOpen(spec, holidays, cursor) {
        assert FirstOpenStep(spec, holidays, t, maxDays * DAY_MINUTES, k);
        return Some(cursor);
      }
      cursor := cursor + MINUTE_MS;
      k := k + 1;
    }
    return None;
  }

  /** The scan misses no opening: only the minute of the answer itself can have been open before it. */
  lemma NothingOpensBefore(spec: Spec, holidays: Holidays, t: int, steps: int, k: int, u: int)
    requires FirstOpenStep(spec, holidays, t, steps, k)
    requires t <= u < t + k * MINUTE_MS && IsMarketOpen(spec, holidays, u)
    ensures MinuteAt(u) == MinuteAt(t + k * MINUTE_MS)
    ensures t + k * MINUTE_MS - u < MINUTE_MS
  {
    StepMinutes(t, k);
    var j := MinuteAt(u) - MinuteAt(t);
    assert 0 <= j <= k;
    StepMinutes(t, j);
    assert IsMarketOpen(spec, holidays, t + j * MINUTE_MS);
  }

  lemma StepMinutes(t: int, k: int)
    ensures MinuteAt(t + k * MINUTE_MS) == MinuteAt(t) + k
  {
  }

  /** Eight in the morning of a business day is always inside a session. */
  lemma OpenAtEight(spec: Spec, holidays: Holidays, day: int)
    requires Globex(spec) && MONDAY <= Weekday(day) <= FRIDAY && !IsFullClosure(holidays, day)
    requires day in holidays && holidays[day].EARLY? ==> holidays[day].closeMinute > 480
    ensures GetMarketState(spec, holidays, day * DAY_MINUTES + 480) == OPEN
  {
    var minute := day * DAY_MINUTES + 480;
    assert DayAt(minute) == day && MinuteOfDay(minute) == 480;
    MaintenanceHours(spec, minute);
    GlobexSession(spec, minute);
    WeekdayShift(day - 1, 1);
    assert InSessionOf(day - 1, minute);
  }

  function FullClosures(holidays: Holidays): set<int> {
    set d | d in holidays && holidays[d].FULL?
  }

  /** With the exchange's kind of calendar, ten days are always enough to find an opening. */
  lemma TenDaysAreEnough(spec: Spec, holidays: Holidays, t: int)
    requires Globex(spec) && Sparse(FullClosures(holidays))
    requires forall d | d in holidays && holidays[d].EARLY? :: holidays[d].closeMinute > 480
    ensures exists k :: FirstOpenStep(spec, holidays, t, 10 * DAY_MINUTES, k)
  {
    var today := DayAt(MinuteAt(t));
    var day := SomeBusinessDay(FullClosures(holidays), today + 1);
    OpenAtEight(spec, holidays, day);
    var k := day * DAY_MINUTES + 480 - MinuteAt(t);
    StepMinutes(t, k);
    FirstOf(spec, holidays, t, k);
  }

  lemma SomeBusinessDay(closures: set<int>, from: int) returns (day: int)
    requires Sparse(closures)
    ensures from <= day < from + 7 && IsBusinessDay(closures, day)
  {
    WeekHasFour(closures, from + 7);
    day := from;
    while !IsBusinessDay(closures, day)
      invariant from <= day < from + 7
      invariant BusinessDaysIn(closures, day, from + 7) >= 4
      decreases from + 7 - day
    {
      CountSplits(closures, day, day + 1, from + 7);
      assert BusinessDaysIn(closures, day, day) == 0;
      day := day + 1;
    }
  }

  lemma {:induction false} FirstOf(spec: Spec, holidays: Holidays, t: int, k: int)
    requires 0 <= k < 10 * DAY_MINUTES && IsMarketOpen(spec, holidays, t + k * MINUTE_MS)
    ensures exists j :: FirstOpenStep(spec, holidays, t, 10 * DAY_MINUTES, j)
    decreases k
  {
    if j :| 0 <= j < k && IsMarketOpen(spec, holidays, t + j * MINUTE_MS) {
      FirstOf(spec, holidays, t, j);
    } else {
      assert FirstOpenStep(spec, holidays, t, 10 * DAY_MINUTES, k);
    }
  }
}
