/**
 * Which futures contract is the front month: the walk over business days, the expiry
 * rules, and the forward search over listed months. Instants are exchange-local
 * milliseconds counted from day 0; contract months are month indices.
 */
module Contracts {
  import opened Calendar
  import opened Common

  const DAY_MS: int := 86_400_000

  // ---------------------------------------------------------------- business days

  predicate IsBusinessDay(closures: set<int>, day: int) {
    Weekday(day) != SATURDAY && Weekday(day) != SUNDAY && day !in closures
  }

  function Before(closures: set<int>, day: int): set<int> {
    set c | c in closures && c < day
  }

  /** Weekend days that lie directly behind `day`. */
  function WeekendBehind(day: int): nat {
    if Weekday(day) == MONDAY then 2 else if Weekday(day) == SUNDAY then 1 else 0
  }

  /** What keeps a walk from going on for ever: closures are finite, weekends are two days. */
  lemma DayBehind(closures: set<int>, day: int)
    ensures Before(closures, day - 1) <= Before(closures, day)
    ensures day - 1 in closures ==> Before(closures, day - 1) < Before(closures, day)
    ensures Weekday(day - 1) == SATURDAY || Weekday(day - 1) == SUNDAY ==> WeekendBehind(day - 1) < WeekendBehind(day)
  {
    if day - 1 in closures {
      assert day - 1 in Before(closures, day);
    }
  }

  /** Back from `day`, not counting it, over `n` business days. */
  function BusinessDaysBack(closures: set<int>, day: int, n: int): int
    decreases n, Before(closures, day), WeekendBehind(day)
  {
    if n <= 0 then day
    else
      DayBehind(closures, day);
      BusinessDaysBack(closures, day - 1, if IsBusinessDay(closures, day - 1) then n - 1 else n)
  }

  method MinusBusinessDays(closures: set<int>, day: int, n: int) returns (cursor: int)
    ensures cursor == BusinessDaysBack(closures, day, n)
  {
    cursor := day;
    var remaining := n;
    while remaining > 0
      invariant BusinessDaysBack(closures, cursor, remaining) == BusinessDaysBack(closures, day, n)
      decreases remaining, Before(closures, cursor), WeekendBehind(cursor)
    {
      DayBehind(closures, cursor);
      cursor := cursor - 1;
      if IsBusinessDay(closures, cursor) { remaining := remaining - 1; }
    }
  }

  /** Business days from `from` up to but not including `to`. */
  function BusinessDaysIn(closures: set<int>, from: int, to: int): nat
    decreases to - from
  {
    if from >= to then 0
    else BusinessDaysIn(closures, from, to - 1) + if IsBusinessDay(closures, to - 1) then 1 else 0
  }

  function BusinessDays(closures: set<int>, from: int, to: int): set<int> {
    set d | from <= d < to && 1 <= Weekday(d) <= 5 && d !in closures
  }

  /** How many they are: the days Monday to Friday that are no closures. */
  lemma {:induction false} BusinessDaysAre(closures: set<int>, from: int, to: int)
    ensures |BusinessDays(closures, from, to)| == BusinessDaysIn(closures, from, to)
    decreases (to - from)
  {
    if from >= to {
      assert BusinessDays(closures, from, to) == {};
    } else {
      BusinessDaysAre(closures, from, to - 1);
      var front := BusinessDays(closures, from, to - 1);
      assert BusinessDays(closures, from, to) == if IsBusinessDay(closures, to - 1) then front + {to - 1} else front;
    }
  }

  lemma {:induction false} WalkCounts(closures: set<int>, day: int, n: nat)
    ensures var r := BusinessDaysBack(closures, day, n);
            && r <= day && BusinessDaysIn(closures, r, day) == n
            && (n > 0 ==> IsBusinessDay(closures, r))
    decreases n, Before(closures, day), WeekendBehind(day)
  {
    if n > 0 {
      DayBehind(closures, day);
      WalkCounts(closures, day - 1, if IsBusinessDay(closures, day - 1) then n - 1 else n);
    }
  }

  lemma {:induction false} CountSplits(closures: set<int>, a: int, b: int, c: int)
    requires a <= b <= c
    ensures BusinessDaysIn(closures, a, c) == BusinessDaysIn(closures, a, b) + BusinessDaysIn(closures, b, c)
    decreases c - b
  {
    if b < c { CountSplits(closures, a, b, c - 1); }
  }

  lemma CountsItself(closures: set<int>, a: int, b: int)
    requires a < b && IsBusinessDay(closures, a)
    ensures BusinessDaysIn(closures, a, b) == 1 + BusinessDaysIn(closures, a + 1, b)
  {
    CountSplits(closures, a, a + 1, b);
    assert BusinessDaysIn(closures, a, a) == 0;
  }

  /** The day reached is the one business day with exactly `n` business days from it to the start. */
  lemma WalkIsExact(closures: set<int>, day: int, n: nat, r: int)
    requires n > 0
    ensures r == BusinessDaysBack(closures, day, n)
            <==> r < day && IsBusinessDay(closures, r) && BusinessDaysIn(closures, r, day) == n
  {
    var back := BusinessDaysBack(closures, day, n);
    WalkCounts(closures, day, n);
    if r < day && IsBusinessDay(closures, r) && BusinessDaysIn(closures, r, day) == n {
      if r < back {
        CountSplits(closures, r, back, day);
        CountsItself(closures, r, back);
      } else if back < r {
        CountSplits(closures, back, r, day);
        CountsItself(closures, back, r);
      }
    }
  }

  /** Starting later never lands earlier. */
  lemma WalkIsMonotone(closures: set<int>, a: int, b: int, n: nat)
    requires a <= b
    ensures BusinessDaysBack(closures, a, n) <= BusinessDaysBack(closures, b, n)
  {
    WalkCounts(closures, a, n);
    WalkCounts(closures, b, n);
    var ra, rb := BusinessDaysBack(closures, a, n), BusinessDaysBack(closures, b, n);
    if n > 0 && rb < ra {
      CountSplits(closures, rb, ra, b);
      CountSplits(closures, ra, a, b);
      CountsItself(closures, rb, ra);
    }
  }

  /** Where no week holds two closures, every week has at least four business days. */
  lemma WeekHasFour(closures: set<int>, day: int)
    requires Sparse(closures)
    ensures BusinessDaysIn(closures, day - 7, day) >= 4
  {
    FourOfSeven(closures, day - 7);
  }

  lemma FourOfSeven(closures: set<int>, d: int)
    requires Sparse(closures)
    ensures BusinessDaysIn(closures, d, d + 7) >= 4
  {
    WeekendsInWeek(d);
    CountNext(closures, d, 0);
    CountNext(closures, d, 1);
    CountNext(closures, d, 2);
    CountNext(closures, d, 3);
    CountNext(closures, d, 4);
    CountNext(closures, d, 5);
    CountNext(closures, d, 6);
    OneClosureAWeek(closures, d);
  }

  predicate Weekend(day: int) { Weekday(day) == SATURDAY || Weekday(day) == SUNDAY }

  function One(b: bool): nat { if b then 1 else 0 }

  lemma CountNext(closures: set<int>, d: int, k: nat)
    ensures BusinessDaysIn(closures, d, d + k + 1)
            >= BusinessDaysIn(closures, d, d + k) + 1 - One(Weekend(d + k)) - One(d + k in closures)
  {
  }

  lemma WeekendsInWeek(d: int)
    ensures One(Weekend(d)) + One(Weekend(d + 1)) + One(Weekend(d + 2)) + One(Weekend(d + 3))
            + One(Weekend(d + 4)) + One(Weekend(d + 5)) + One(Weekend(d + 6)) == 2
  {
    WeekdayShift(d, 1);
    WeekdayShift(d, 2);
    WeekdayShift(d, 3);
    WeekdayShift(d, 4);
    WeekdayShift(d, 5);
    WeekdayShift(d, 6);
  }

  lemma WeekdayShift(d: int, k: nat)
    requires k < 7
    ensures Weekday(d + k) == if Weekday(d) + k < 7 then Weekday(d) + k else Weekday(d) + k - 7
  {
  }

  lemma OneClosureAWeek(closures: set<int>, d: int)
    requires Sparse(closures)
    ensures One(d in closures) + One(d + 1 in closures) + One(d + 2 in closures) + One(d + 3 in closures)
            + One(d + 4 in closures) + One(d + 5 in closures) + One(d + 6 in closures) <= 1
  {
  }

  /** Up to four business days back is at most a week back. */
  lemma ShortWalk(closures: set<int>, day: int, n: nat)
    requires Sparse(closures) && n <= 4
    ensures day - 7 <= BusinessDaysBack(closures, day, n) <= day
  {
    WeekHasFour(closures, day);
    WalkCounts(closures, day, n);
    var r := BusinessDaysBack(closures, day, n);
    if r < day - 7 {
      CountSplits(closures, r, day - 7, day);
      CountsItself(closures, r, day - 7);
    }
  }

  // ---------------------------------------------------------------- expiry rules

  datatype Expiry =
    | THIRD_FRIDAY
    | BUSINESS_DAYS_BEFORE_DAY(businessDays: int, dayOfMonth: int)
    | BUSINESS_DAYS_BEFORE_MONTH_END(monthEndDays: int)

  datatype Cycle = QUARTERLY | MONTHLY | CUSTOM(months: seq<int>)

  datatype RollRule = RollRule(cycle: Cycle, expiry: Expiry, rollDaysBeforeExpiry: int)

  const EQUITY_ROLL := RollRule(QUARTERLY, THIRD_FRIDAY, 8)
  const GOLD_ROLL := RollRule(CUSTOM([2, 4, 6, 8, 10, 12]), BUSINESS_DAYS_BEFORE_MONTH_END(3), 5)
  const CRUDE_ROLL := RollRule(MONTHLY, BUSINESS_DAYS_BEFORE_DAY(3, 25), 2)

  function MonthsForCycle(rule: RollRule): seq<int> {
    match rule.cycle
    case QUARTERLY => [3, 6, 9, 12]
    case MONTHLY => [1, 2, 3, 4, 5, 6, 7, 8, 9, 10, 11, 12]
    case CUSTOM(months) => months
  }

  predicate Listed(rule: RollRule, m: int) {
    m % 12 + 1 in MonthsForCycle(rule)
  }

  /** Monday is 1 and Sunday 7, as the date library counts. */
  function IsoWeekday(day: int): int {
    if Weekday(day) == SUNDAY then 7 else Weekday(day)
  }

  function ThirdFriday(m: int): int {
    var first := MonthStart(m);
    first + (5 - IsoWeekday(first) + 7) % 7 + 14
  }

  /** It is the Friday whose day of the month is 15 to 21, and there is only one. */
  lemma ThirdFridayIsTheOne(m: int, day: int)
    ensures day == ThirdFriday(m) <==> Weekday(day) == FRIDAY && 15 <= day - MonthStart(m) + 1 <= 21
  {
    FridayOffset(MonthStart(m), day - MonthStart(m));
  }

  lemma FridayOffset(first: int, k: int)
    ensures k == (5 - IsoWeekday(first) + 7) % 7 + 14 <==> Weekday(first + k) == FRIDAY && 14 <= k <= 20
  {
  }

  function Min(a: int, b: int): int { if a < b then a else b }

  /** Last trading day of contract month `m`; none when the rule's day does not exist in that month. */
  function LastTradingDay(closures: set<int>, rule: RollRule, m: int): Option<int> {
    match rule.expiry
    case THIRD_FRIDAY => Some(ThirdFriday(m))
    case BUSINESS_DAYS_BEFORE_DAY(n, d) =>
      // The day must exist in the contract month; one month earlier it is clamped to the month's end.
      if 1 <= d <= MonthLength(m)
      then Some(BusinessDaysBack(closures, MonthStart(m - 1) + Min(d, MonthLength(m - 1)) - 1, n))
      else None
    case BUSINESS_DAYS_BEFORE_MONTH_END(n) => Some(BusinessDaysBack(closures, MonthStart(m + 1), n))
  }

  /** The `n`-th business day before `day`, or the day itself when none are asked for. */
  predicate BusinessDaysBefore(closures: set<int>, r: int, day: int, n: int) {
    if n <= 0 then r == day
    else r < day && IsBusinessDay(closures, r) && BusinessDaysIn(closures, r, day) == n
  }

  /**
   * The last trading day by the calendar. The two business-day rules count back from a day
   * of the month before, clamped to that month's end and missing when the contract month
   * has no such day, and from the end of the contract month itself.
   */
  predicate ExpiresOn(closures: set<int>, rule: RollRule, m: int, r: int) {
    match rule.expiry
    case THIRD_FRIDAY => Weekday(r) == 5 && 15 <= r - MonthStart(m) + 1 <= 21
    case BUSINESS_DAYS_BEFORE_DAY(n, d) =>
      && 1 <= d <= MonthStart(m + 1) - MonthStart(m)
      && BusinessDaysBefore(closures, r, Min(MonthStart(m - 1) + d, MonthStart(m)) - 1, n)
    case BUSINESS_DAYS_BEFORE_MONTH_END(n) => BusinessDaysBefore(closures, r, MonthStart(m + 1), n)
  }

  /** The day computed is that day, and there is none only where the rule's day is missing from the month. */
  lemma ExpiryIsExact(closures: set<int>, rule: RollRule, m: int, r: int)
    ensures LastTradingDay(closures, rule, m) == Some(r) <==> ExpiresOn(closures, rule, m, r)
    ensures LastTradingDay(closures, rule, m).None?
            <==> rule.expiry.BUSINESS_DAYS_BEFORE_DAY?
                 && !(1 <= rule.expiry.dayOfMonth <= MonthStart(m + 1) - MonthStart(m))
  {
    MonthsFollow(m);
    MonthsFollow(m - 1);
    match rule.expiry
    case THIRD_FRIDAY => ThirdFridayIsTheOne(m, r);
    case BUSINESS_DAYS_BEFORE_DAY(n, d) =>
      if n > 0 { WalkIsExact(closures, Min(MonthStart(m - 1) + d, MonthStart(m)) - 1, n, r); }
    case BUSINESS_DAYS_BEFORE_MONTH_END(n) =>
      if n > 0 { WalkIsExact(closures, MonthStart(m + 1), n, r); }
  }

  method ExpiryDay(closures: set<int>, rule: RollRule, m: int) returns (last: Option<int>)
    ensures last == LastTradingDay(closures, rule, m)
  {
    match rule.expiry
    case THIRD_FRIDAY =>
      return Some(ThirdFriday(m));
    case BUSINESS_DAYS_BEFORE_DAY(n, d) =>
      if !(1 <= d <= MonthLength(m)) { return None; }
      var day := MinusBusinessDays(closures, MonthStart(m - 1) + Min(d, MonthLength(m - 1)) - 1, n);
      return Some(day);
    case BUSINESS_DAYS_BEFORE_MONTH_END(n) =>
      var day := MinusBusinessDays(closures, MonthStart(m + 1), n);
      return Some(day);
  }

  /** Month `m` is listed and has not rolled yet: its roll date, at midnight, lies ahead. */
  ghost predicate Live(closures: set<int>, rule: RollRule, m: int, asOf: int) {
    Listed(rule, m)
    && exists r :: ExpiresOn(closures, rule, m, r) && (r - rule.rollDaysBeforeExpiry) * 86_400_000 > asOf
  }

  /** The month of the instant, in milliseconds. */
  function MonthAt(asOf: int): (now: int)
    ensures MonthStart(now) * 86_400_000 <= asOf < MonthStart(now + 1) * 86_400_000
  {
    AtMidnight(asOf, MonthStart(MonthOf(asOf / DAY_MS)));
    AtMidnight(asOf, MonthStart(MonthOf(asOf / DAY_MS) + 1));
    MonthOf(asOf / DAY_MS)
  }

  const SEARCH_MONTHS: nat := 36

  /** `m` is the first live month among the 36 from the current one on. */
  ghost predicate Resolves(closures: set<int>, rule: RollRule, asOf: int, m: int) {
    && MonthAt(asOf) <= m < MonthAt(asOf) + 36
    && Live(closures, rule, m, asOf)
    && forall k | MonthAt(asOf) <= k < m :: !Live(closures, rule, k, asOf)
  }

  function RollDay(closures: set<int>, rule: RollRule, m: int): Option<int> {
    match LastTradingDay(closures, rule, m)
    case None => None
    case Some(last) => Some(last - rule.rollDaysBeforeExpiry)
  }

  lemma LiveByRollDay(closures: set<int>, rule: RollRule, m: int, asOf: int)
    ensures Live(closures, rule, m, asOf)
            <==> && Listed(rule, m) && RollDay(closures, rule, m).Some?
                 && RollDay(closures, rule, m).value * DAY_MS > asOf
  {
    var last := LastTradingDay(closures, rule, m);
    if last.Some? { ExpiryIsExact(closures, rule, m, last.value); }
    if Live(closures, rule, m, asOf) {
      var r :| ExpiresOn(closures, rule, m, r) && (r - rule.rollDaysBeforeExpiry) * 86_400_000 > asOf;
      ExpiryIsExact(closures, rule, m, r);
    }
  }

  /** The forward search; None is the server's "unable to resolve". */
  method ResolveActiveContract(closures: set<int>, rule: RollRule, asOf: int) returns (contract: Option<int>)
    ensures forall m :: contract == Some(m) <==> Resolves(closures, rule, asOf, m)
  {
    for offset := 0 to SEARCH_MONTHS
      invariant forall k | MonthAt(asOf) <= k < MonthAt(asOf) + offset :: !Live(closures, rule, k, asOf)
    {
      var candidate := MonthAt(asOf) + offset;
      if candidate % 12 + 1 !in MonthsForCycle(rule) { continue; }
      var last := ExpiryDay(closures, rule, candidate);
      LiveByRollDay(closures, rule, candidate, asOf);
      if last.Some? && (last.value - rule.rollDaysBeforeExpiry) * DAY_MS > asOf { return Some(candidate); }
    }
    return None;
  }

  // ---------------------------------------------------------------- the front month over time

  lemma ResolvesOnce(closures: set<int>, rule: RollRule, asOf: int, a: int, b: int)
    requires Resolves(closures, rule, asOf, a) && Resolves(closures, rule, asOf, b)
    ensures a == b
  {
  }

  /** Time only ever moves the front month forward, whatever the rule and the closures. */
  lemma NeverRollsBack(closures: set<int>, rule: RollRule, early: int, late: int, a: int, b: int)
    requires early <= late
    requires Resolves(closures, rule, early, a) && Resolves(closures, rule, late, b)
    ensures a <= b
  {
    MonthOfMonotone(early / DAY_MS, late / DAY_MS);
    LiveByRollDay(closures, rule, b, early);
    LiveByRollDay(closures, rule, b, late);
  }

  /** A rule whose contracts have all rolled by the end of their own month. */
  predicate RollsInTime(rule: RollRule) {
    && rule.rollDaysBeforeExpiry >= 0
    && (rule.expiry.BUSINESS_DAYS_BEFORE_MONTH_END? ==> rule.expiry.monthEndDays > 0)
  }

  lemma RollsByMonthEnd(closures: set<int>, rule: RollRule, m: int)
    requires RollsInTime(rule) && RollDay(closures, rule, m).Some?
    ensures RollDay(closures, rule, m).value < MonthStart(m + 1)
  {
    MonthsFollow(m);
    MonthsFollow(m - 1);
    match rule.expiry
    case THIRD_FRIDAY => ThirdFridayIsTheOne(m, ThirdFriday(m));
    case BUSINESS_DAYS_BEFORE_DAY(n, d) =>
      NotAhead(closures, MonthStart(m - 1) + Min(d, MonthLength(m - 1)) - 1, n);
    case BUSINESS_DAYS_BEFORE_MONTH_END(n) =>
      NotAhead(closures, MonthStart(m + 1), n);
  }

  lemma NotAhead(closures: set<int>, day: int, n: int)
    ensures BusinessDaysBack(closures, day, n) <= day
    ensures n > 0 ==> BusinessDaysBack(closures, day, n) < day
  {
    if n > 0 { WalkIsExact(closures, day, n, BusinessDaysBack(closures, day, n)); }
  }

  /** A month already over has rolled, so starting at the current month skips nothing. */
  lemma PastMonthsHaveRolled(closures: set<int>, rule: RollRule, asOf: int, m: int)
    requires RollsInTime(rule) && m < MonthAt(asOf)
    ensures !Live(closures, rule, m, asOf)
  {
    MonthsApart(m + 1, MonthAt(asOf));
    LiveByRollDay(closures, rule, m, asOf);
    if RollDay(closures, rule, m).Some? {
      RollsByMonthEnd(closures, rule, m);
      AtMidnight(asOf, RollDay(closures, rule, m).value);
    }
  }

  /** A day lies ahead of an instant at midnight exactly when it is after the instant's day. */
  lemma AtMidnight(asOf: int, day: int)
    ensures day * DAY_MS > asOf <==> day > asOf / DAY_MS
  {
    assert asOf == asOf / DAY_MS * DAY_MS + asOf % DAY_MS;
  }

  /** The contract found is the nearest of all listed months, past or future, that has not rolled. */
  lemma FrontMonthIsNearest(closures: set<int>, rule: RollRule, asOf: int, m: int)
    requires RollsInTime(rule) && Resolves(closures, rule, asOf, m)
    ensures Live(closures, rule, m, asOf)
    ensures forall k | Live(closures, rule, k, asOf) :: m <= k
  {
    forall k | k < m
      ensures !Live(closures, rule, k, asOf)
    {
      if k < MonthAt(asOf) { PastMonthsHaveRolled(closures, rule, asOf, k); }
    }
  }

  /** A listed month that rolls only after the current one is over is live. */
  lemma LiveAhead(closures: set<int>, rule: RollRule, asOf: int, m: int)
    requires Listed(rule, m) && RollDay(closures, rule, m).Some?
    requires RollDay(closures, rule, m).value >= MonthStart(MonthAt(asOf) + 1)
    ensures Live(closures, rule, m, asOf)
  {
    AtMidnight(asOf, RollDay(closures, rule, m).value);
    LiveByRollDay(closures, rule, m, asOf);
  }

  lemma {:induction false} FirstLive(closures: set<int>, rule: RollRule, asOf: int, m: int)
    requires MonthAt(asOf) <= m < MonthAt(asOf) + 36 && Live(closures, rule, m, asOf)
    ensures exists c :: MonthAt(asOf) <= c <= m && Resolves(closures, rule, asOf, c)
    decreases m - MonthAt(asOf)
  {
    if k :| MonthAt(asOf) <= k < m && Live(closures, rule, k, asOf) {
      FirstLive(closures, rule, asOf, k);
    } else {
      assert Resolves(closures, rule, asOf, m);
    }
  }

  /** The rules of the registry. */
  predicate Registered(rule: RollRule) {
    rule == EQUITY_ROLL || rule == GOLD_ROLL || rule == CRUDE_ROLL
  }

  /** Every registered rule finds its contract within three months, at any instant. */
  lemma SearchAlwaysFinds(closures: set<int>, rule: RollRule, asOf: int)
    requires Sparse(closures) && Registered(rule)
    ensures exists m :: MonthAt(asOf) <= m <= MonthAt(asOf) + 3 && Resolves(closures, rule, asOf, m)
  {
    var now := MonthAt(asOf);
    var m := if rule == EQUITY_ROLL then NextQuarter(now)
             else if rule == GOLD_ROLL then NextEven(now)
             else now + 2;
    NextMonths(now);
    if rule == EQUITY_ROLL { EquityRollsLate(closures, m, now); }
    else if rule == GOLD_ROLL { GoldRollsLate(closures, m, now); }
    else { CrudeRollsLate(closures, now); }
    LiveAhead(closures, rule, asOf, m);
    FirstLive(closures, rule, asOf, m);
  }

  /** The next listed month after `now` of the quarterly and of the even-month cycle. */
  function NextQuarter(now: int): int { if now % 3 == 2 then now + 3 else now + 2 - now % 3 }

  function NextEven(now: int): int { if now % 2 == 0 then now + 1 else now + 2 }

  /** Listed, and rolling only after month `now` is over. */
  predicate RollsAfter(closures: set<int>, rule: RollRule, m: int, now: int) {
    && Listed(rule, m)
    && RollDay(closures, rule, m).Some?
    && RollDay(closures, rule, m).value >= MonthStart(now + 1)
  }

  lemma NextMonths(now: int)
    ensures now < NextQuarter(now) <= now + 3 && NextQuarter(now) % 3 == 2
    ensures now < NextEven(now) <= now + 2 && NextEven(now) % 2 == 1
  {
  }

  lemma EquityRollsLate(closures: set<int>, m: int, now: int)
    requires now < m && m % 3 == 2
    ensures RollsAfter(closures, EQUITY_ROLL, m, now)
  {
    MonthsApart(now + 1, m);
    CyclesListed(m);
    ThirdFridayIsTheOne(m, ThirdFriday(m));
  }

  lemma GoldRollsLate(closures: set<int>, m: int, now: int)
    requires Sparse(closures) && now < m && m % 2 == 1
    ensures RollsAfter(closures, GOLD_ROLL, m, now)
  {
    MonthsApart(now + 1, m);
    MonthsFollow(m);
    CyclesListed(m);
    ShortWalk(closures, MonthStart(m + 1), 3);
  }

  lemma CrudeRollsLate(closures: set<int>, now: int)
    requires Sparse(closures)
    ensures RollsAfter(closures, CRUDE_ROLL, now + 2, now)
  {
    CyclesListed(now + 2);
    ShortWalk(closures, MonthStart(now + 1) + 24, 3);
  }

  lemma CyclesListed(m: int)
    ensures Listed(CRUDE_ROLL, m)
    ensures Listed(EQUITY_ROLL, m) <==> m % 3 == 2
    ensures Listed(GOLD_ROLL, m) <==> m % 2 == 1
  {
    QuarterMonths(m);
    EvenMonths(m);
  }

  lemma QuarterMonths(m: int)
    ensures m % 12 + 1 in {3, 6, 9, 12} <==> m % 3 == 2
  {
    var q, k := m / 12, m % 12;
    assert m % 3 == k % 3 by { assert m == 3 * (4 * q) + k; }
  }

  lemma EvenMonths(m: int)
    ensures m % 12 + 1 in {2, 4, 6, 8, 10, 12} <==> m % 2 == 1
  {
    var q, k := m / 12, m % 12;
    assert m % 2 == k % 2 by { assert m == 2 * (6 * q) + k; }
  }

  // ---------------------------------------------------------------- from one roll to the next

  /** Roll days follow the months. */
  lemma RollsInOrder(closures: set<int>, rule: RollRule, a: int, b: int)
    requires Registered(rule) && a <= b
    ensures RollDay(closures, rule, a).Some? && RollDay(closures, rule, b).Some?
    ensures RollDay(closures, rule, a).value <= RollDay(closures, rule, b).value
  {
    if a < b { MonthsApart(a, b); MonthsApart(a - 1, b - 1); MonthsApart(a + 1, b + 1); }
    ThirdFridayIsTheOne(a, ThirdFriday(a));
    ThirdFridayIsTheOne(b, ThirdFriday(b));
    WalkIsMonotone(closures, MonthStart(a - 1) + 24, MonthStart(b - 1) + 24, 3);
    WalkIsMonotone(closures, MonthStart(a + 1), MonthStart(b + 1), 3);
  }

  /** A month of a registered rule rolls no earlier than the start of the month before. */
  lemma RollsNearMonth(closures: set<int>, rule: RollRule, m: int)
    requires Sparse(closures) && Registered(rule) && Listed(rule, m)
    ensures RollDay(closures, rule, m).Some? && RollDay(closures, rule, m).value >= MonthStart(m - 1)
  {
    CyclesListed(m);
    if rule == EQUITY_ROLL { EquityRollsLate(closures, m, m - 2); }
    else if rule == GOLD_ROLL { GoldRollsLate(closures, m, m - 2); }
    else { CrudeRollsLate(closures, m - 2); }
  }

  /** The listed months next to one another. */
  predicate Consecutive(rule: RollRule, p: int, m: int) {
    && Listed(rule, p) && Listed(rule, m)
    && p < m <= p + 3
    && forall k | p < k < m :: !Listed(rule, k)
  }

  /** A contract is the front month exactly from the roll of the one before it to its own. */
  lemma FrontFromRollToRoll(closures: set<int>, rule: RollRule, asOf: int, p: int, m: int)
    requires Sparse(closures) && Registered(rule) && Consecutive(rule, p, m)
    ensures RollDay(closures, rule, p).Some? && RollDay(closures, rule, m).Some?
    ensures Resolves(closures, rule, asOf, m)
            <==> RollDay(closures, rule, p).value * DAY_MS <= asOf < RollDay(closures, rule, m).value * DAY_MS
  {
    RollsNearMonth(closures, rule, p);
    RollsNearMonth(closures, rule, m);
    LiveByRollDay(closures, rule, p, asOf);
    LiveByRollDay(closures, rule, m, asOf);
    var start, end := RollDay(closures, rule, p).value, RollDay(closures, rule, m).value;
    if Resolves(closures, rule, asOf, m) && p < MonthAt(asOf) {
      PastMonthsHaveRolled(closures, rule, asOf, p);
    }
    if start * DAY_MS <= asOf < end * DAY_MS {
      MonthIsNear(closures, rule, asOf, p, m);
      forall k | MonthAt(asOf) <= k < m
        ensures !Live(closures, rule, k, asOf)
      {
        if k <= p { RollsInOrder(closures, rule, k, p); }
        LiveByRollDay(closures, rule, k, asOf);
      }
    }
  }

  lemma MonthIsNear(closures: set<int>, rule: RollRule, asOf: int, p: int, m: int)
    requires Sparse(closures) && Registered(rule) && Consecutive(rule, p, m)
    requires RollDay(closures, rule, p).Some? && RollDay(closures, rule, m).Some?
    requires RollDay(closures, rule, p).value * DAY_MS <= asOf < RollDay(closures, rule, m).value * DAY_MS
    ensures MonthAt(asOf) <= m < MonthAt(asOf) + 36
  {
    var now := MonthAt(asOf);
    RollsNearMonth(closures, rule, p);
    RollsByMonthEnd(closures, rule, m);
    if m < now { MonthsApart(m + 1, now); }
    if now < p - 1 { MonthsApart(now + 1, p - 1); }
  }

  /**
   * The index contracts in plain days: only March, June, September and December are
   * listed, and each is the front month from eight days before the third Friday of the
   * one before it until eight days before its own.
   */
  lemma EquityFrontMonth(closures: set<int>, asOf: int, m: int, e: int, f: int)
    requires Sparse(closures)
    requires Weekday(f) == 5 && 15 <= f - MonthStart(m) + 1 <= 21
    requires Weekday(e) == 5 && 15 <= e - MonthStart(m - 3) + 1 <= 21
    ensures Resolves(closures, EQUITY_ROLL, asOf, m)
            <==> m % 12 + 1 in {3, 6, 9, 12} && (e - 8) * 86_400_000 <= asOf < (f - 8) * 86_400_000
  {
    CyclesListed(m);
    QuarterMonths(m);
    hide Listed, MonthsForCycle;
    if m % 3 == 2 {
      CyclesAround(m);
      ExpiryIsExact(closures, EQUITY_ROLL, m, f);
      ExpiryIsExact(closures, EQUITY_ROLL, m - 3, e);
      FrontFromRollToRoll(closures, EQUITY_ROLL, asOf, m - 3, m);
    }
  }

  /**
   * Gold: the even months, each from five days before the third-last business day of the
   * one before it until five days before its own.
   */
  lemma GoldFrontMonth(closures: set<int>, asOf: int, m: int, e: int, f: int)
    requires Sparse(closures)
    requires f < MonthStart(m + 1) && IsBusinessDay(closures, f) && BusinessDaysIn(closures, f, MonthStart(m + 1)) == 3
    requires e < MonthStart(m - 1) && IsBusinessDay(closures, e) && BusinessDaysIn(closures, e, MonthStart(m - 1)) == 3
    ensures Resolves(closures, GOLD_ROLL, asOf, m)
            <==> m % 12 + 1 in {2, 4, 6, 8, 10, 12} && (e - 5) * 86_400_000 <= asOf < (f - 5) * 86_400_000
  {
    CyclesListed(m);
    EvenMonths(m);
    hide Listed, MonthsForCycle;
    if m % 2 == 1 {
      CyclesAround(m);
      ExpiryIsExact(closures, GOLD_ROLL, m, f);
      ExpiryIsExact(closures, GOLD_ROLL, m - 2, e);
      FrontFromRollToRoll(closures, GOLD_ROLL, asOf, m - 2, m);
    }
  }

  /**
   * Crude oil: every month, each from two days before the third business day ahead of the
   * 25th of the month two before it until two days before the one ahead of the next 25th.
   */
  lemma CrudeFrontMonth(closures: set<int>, asOf: int, m: int, e: int, f: int)
    requires Sparse(closures)
    requires var day := MonthStart(m - 1) + 24;
             f < day && IsBusinessDay(closures, f) && BusinessDaysIn(closures, f, day) == 3
    requires var day := MonthStart(m - 2) + 24;
             e < day && IsBusinessDay(closures, e) && BusinessDaysIn(closures, e, day) == 3
    ensures Resolves(closures, CRUDE_ROLL, asOf, m) <==> (e - 2) * 86_400_000 <= asOf < (f - 2) * 86_400_000
  {
    CyclesAround(m);
    MonthsFollow(m);
    MonthsFollow(m - 1);
    MonthsFollow(m - 2);
    ExpiryIsExact(closures, CRUDE_ROLL, m, f);
    ExpiryIsExact(closures, CRUDE_ROLL, m - 1, e);
    FrontFromRollToRoll(closures, CRUDE_ROLL, asOf, m - 1, m);
  }

  lemma CyclesAround(m: int)
    ensures Consecutive(CRUDE_ROLL, m - 1, m)
    ensures m % 3 == 2 ==> Consecutive(EQUITY_ROLL, m - 3, m)
    ensures m % 2 == 1 ==> Consecutive(GOLD_ROLL, m - 2, m)
  {
    hide Listed, MonthsForCycle;
    CyclesListed(m);
    CyclesListed(m - 1);
    CyclesListed(m - 2);
    CyclesListed(m - 3);
  }

  /**
   * The roll rule's own comment puts the metals expiry in the month before delivery; the
   * code puts it in the delivery month, and the two never agree.
   */
  lemma MetalsExpireInDeliveryMonth(closures: set<int>, m: int, n: nat)
    requires Sparse(closures) && 1 <= n <= 4
    ensures var code := BusinessDaysBack(closures, MonthStart(m + 1), n);
            MonthOf(code) == m && BusinessDaysBack(closures, MonthStart(m), n) < MonthStart(m)
  {
    ShortWalk(closures, MonthStart(m + 1), n);
    NotAhead(closures, MonthStart(m + 1), n);
    NotAhead(closures, MonthStart(m), n);
    MonthsFollow(m);
    var code := BusinessDaysBack(closures, MonthStart(m + 1), n);
    if MonthOf(code) < m { MonthsApart(MonthOf(code) + 1, m); }
    if MonthOf(code) > m { MonthsApart(m + 1, MonthOf(code)); }
  }
}
