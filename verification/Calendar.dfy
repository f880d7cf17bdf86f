/**
 * The exchange-local calendar. Months are counted from January 2025, days from its first
 * day, which was a Wednesday; both counts run into the past as negative numbers.
 */
module Calendar {

  predicate Leap(year: int) {
    year % 4 == 0 && (year % 100 != 0 || year % 400 == 0)
  }

  /** Thirty days hath September. Month `m` is month `m % 12` of year `2025 + m / 12`. */
  function MonthLength(m: int): (length: int)
    ensures 28 <= length <= 31
  {
    var month := m % 12;
    if month == 1 then if Leap(2025 + m / 12) then 29 else 28
    else if month == 3 || month == 5 || month == 8 || month == 10 then 30
    else 31
  }

  function Distance(m: int): nat { if m >= 0 then m else -m }

  /** The first day of month `m`. */
  function MonthStart(m: int): int
    decreases Distance(m)
  {
    if m == 0 then 0
    else if m > 0 then MonthStart(m - 1) + MonthLength(m - 1)
    else MonthStart(m + 1) - MonthLength(m)
  }

  function DateOf(year: int, month: int, day: int): int
    requires 1 <= month <= 12
  {
    MonthStart(12 * (year - 2025) + month - 1) + day - 1
  }

  lemma MonthsFollow(m: int)
    ensures MonthStart(m + 1) == MonthStart(m) + MonthLength(m)
  {
  }

  lemma {:induction false} MonthsApart(a: int, b: int)
    requires a <= b
    ensures MonthStart(b) - MonthStart(a) >= 28 * (b - a)
    decreases b - a
  {
    if a < b {
      MonthsApart(a, b - 1);
      MonthsFollow(b - 1);
    }
  }

  // ---------------------------------------------------------------- the month a day lies in

  /** How far the search from month `m` still has to go. */
  function Search(m: int, day: int): int {
    if day >= 0 then day - MonthStart(m) else MonthStart(m + 1) - day
  }

  function MonthFrom(m: int, day: int): (r: int)
    requires if day >= 0 then MonthStart(m) <= day else day < MonthStart(m + 1)
    ensures MonthStart(r) <= day < MonthStart(r + 1)
    decreases Search(m, day)
  {
    MonthsFollow(m);
    MonthsFollow(m - 1);
    if day < MonthStart(m) then MonthFrom(m - 1, day)
    else if day >= MonthStart(m + 1) then MonthFrom(m + 1, day)
    else m
  }

  /** The month that `day` lies in. */
  function MonthOf(day: int): (m: int)
    ensures MonthStart(m) <= day < MonthStart(m + 1)
  {
    if day >= 0 then MonthFrom(0, day) else MonthFrom(-1, day)
  }

  lemma MonthOfMonotone(a: int, b: int)
    requires a <= b
    ensures MonthOf(a) <= MonthOf(b)
  {
    if MonthOf(b) < MonthOf(a) { MonthsApart(MonthOf(b) + 1, MonthOf(a)); }
  }

  /** The lengths of a year's months, from January to December. */
  const LENGTHS: seq<int> := [31, 28, 31, 30, 31, 30, 31, 31, 30, 31, 30, 31]

  /** Month `k` of any year, by the table; February has its leap day in the Gregorian years. */
  lemma MonthsOfYear(year: int, k: nat)
    requires k < 12
    ensures var m := 12 * (year - 2025) + k;
            MonthStart(m + 1) - MonthStart(m)
            == LENGTHS[k] + if k == 1 && (year % 400 == 0 || (year % 4 == 0 && year % 100 != 0)) then 1 else 0
    ensures MonthStart(0) == 0
  {
    var m := 12 * (year - 2025) + k;
    MonthsFollow(m);
    assert MonthStart(0) == 0;
    MonthInYear(year, k);
    LengthInTable(m, year, k);
  }

  lemma MonthInYear(year: int, k: nat)
    requires k < 12
    ensures var m := 12 * (year - 2025) + k;
            m % 12 == k && 2025 + m / 12 == year
  {
  }

  lemma LengthInTable(m: int, year: int, k: nat)
    requires k < 12 && m % 12 == k && 2025 + m / 12 == year
    ensures MonthLength(m)
            == LENGTHS[k] + if k == 1 && (year % 400 == 0 || (year % 4 == 0 && year % 100 != 0)) then 1 else 0
  {
  }

  // ---------------------------------------------------------------- weekdays

  const SUNDAY := 0
  const MONDAY := 1
  const THURSDAY := 4
  const FRIDAY := 5
  const SATURDAY := 6

  /** 0 is Sunday. */
  function Weekday(day: int): (w: int)
    ensures 0 <= w < 7
  {
    (day + 3) % 7
  }

  /** The first day of 2025 was a Wednesday, and the days of the week follow one another. */
  lemma WeekdaysFollow(day: int)
    ensures Weekday(0) == 3
    ensures Weekday(day + 1) == if Weekday(day) == 6 then 0 else Weekday(day) + 1
  {
  }

  // ---------------------------------------------------------------- the exchange's full closures

  lemma TableMonths()
    ensures MonthStart(3) == 90 && MonthStart(6) == 181 && MonthStart(10) == 304 && MonthStart(11) == 334
    ensures MonthStart(12) == 365 && MonthStart(15) == 455 && MonthStart(18) == 546 && MonthStart(22) == 669
    ensures MonthStart(23) == 699 && MonthStart(24) == 730 && MonthStart(26) == 789 && MonthStart(30) == 911
    ensures MonthStart(34) == 1034 && MonthStart(35) == 1064
  {
  }

  /** Every full closure in the holiday table. */
  const FULL_CLOSURES: set<int> := {
    DateOf(2025, 1, 1), DateOf(2025, 4, 18), DateOf(2025, 7, 4), DateOf(2025, 11, 27), DateOf(2025, 12, 25),
    DateOf(2026, 1, 1), DateOf(2026, 4, 3), DateOf(2026, 7, 3), DateOf(2026, 11, 26), DateOf(2026, 12, 25),
    DateOf(2027, 1, 1), DateOf(2027, 3, 26), DateOf(2027, 7, 5), DateOf(2027, 11, 25), DateOf(2027, 12, 24)
  }

  /** No week holds two full closures. */
  ghost predicate Sparse(closures: set<int>) {
    forall a, b | a in closures && b in closures && a < b :: b - a >= 7
  }

  lemma TableIsSparse()
    ensures Sparse(FULL_CLOSURES)
  {
    TableMonths();
    assert FULL_CLOSURES
        == {0, 107, 184, 330, 358, 365, 457, 548, 694, 723, 730, 814, 915, 1058, 1087};
  }

  /** The table and the weekdays agree: no closure on a weekend, Thanksgiving on Thursdays. */
  lemma ClosuresFallOnWeekdays()
    ensures forall d | d in FULL_CLOSURES :: MONDAY <= Weekday(d) <= FRIDAY
    ensures Weekday(DateOf(2025, 11, 27)) == Weekday(DateOf(2026, 11, 26)) == Weekday(DateOf(2027, 11, 25)) == THURSDAY
  {
    TableMonths();
    assert FULL_CLOSURES
        == {0, 107, 184, 330, 358, 365, 457, 548, 694, 723, 730, 814, 915, 1058, 1087};
  }
}
