/**
 * How far the price gate's test for "a closure lies in this silence" can be trusted, when
 * it asks the session calendar at both ends and at the midpoint.
 */
module GapSampling {
  import opened Calendar
  import opened Common
  import opened Contracts
  import opened JsNumber
  import opened PriceGate
  import Session

  /** The gate's view of a market that keeps these sessions. */
  function MarketOn(spec: Session.Spec, holidays: Session.Holidays): Market {
    Market({}, root => false, (root, t) => Session.IsMarketOpen(spec, holidays, t))
  }

  /** The market is shut from `shut` until just before `reopen`. */
  datatype Closure = Closure(shut: int, reopen: int)

  predicate During(c: Closure, t: int) { c.shut <= t < c.reopen }

  ghost predicate InSome(closures: seq<Closure>, t: int) {
    exists i :: 0 <= i < |closures| && During(closures[i], t)
  }

  /** A silence in which the market is shut exactly during these closures. */
  ghost predicate SilenceOver(m: Market, root: string, from: int, closures: seq<Closure>, to: int) {
    && from <= to
    && forall t | from <= t <= to :: m.open(root, t) <==> !InSome(closures, t)
  }

  /** What of the silence lies before the closure and what lies after it differ by no more than its length. */
  predicate NearMiddle(c: Closure, from: int, to: int) {
    var before, closed, after := c.shut - from, c.reopen - c.shut, to - c.reopen;
    before - closed <= after < before + closed
  }

  /**
   * A silence over any closures is recognised exactly when one of them holds an end of it or
   * lies near its middle; however many closures it crosses, the others do not help.
   */
  lemma ClosuresAreSampledIff(m: Market, root: string, from: int, closures: seq<Closure>, to: int)
    requires SilenceOver(m, root, from, closures, to)
    ensures GapSpanned(m, root, from, to)
            <==> exists i :: 0 <= i < |closures| && (During(closures[i], from) || During(closures[i], to)
                                                     || NearMiddle(closures[i], from, to))
  {
    var mid := from + (to - from) / 2;
    assert from <= mid <= to;
    forall i | 0 <= i < |closures|
      ensures During(closures[i], mid) <==> NearMiddle(closures[i], from, to)
    {
      MiddleOf(closures[i], from, to);
    }
  }

  lemma MiddleOf(c: Closure, from: int, to: int)
    ensures During(c, from + (to - from) / 2) <==> NearMiddle(c, from, to)
  {
  }

  /** Without any closure the test never fires. */
  lemma NoClosureNoSample(m: Market, root: string, from: int, to: int)
    requires from <= to && forall t | from <= t <= to :: m.open(root, t)
    ensures !GapSpanned(m, root, from, to)
  {
    assert from <= from + (to - from) / 2 <= to;
  }

  function MinuteOn(day: int, minute: int): int {
    (day * Session.DAY_MINUTES + minute) * Session.MINUTE_MS
  }

  /**
   * The weekend is always recognised: from anywhere in Friday's session to anywhere in
   * Monday's, the midpoint falls between Friday 16:00 and Sunday 17:00.
   */
  lemma WeekendIsAlwaysSampled(spec: Session.Spec, holidays: Session.Holidays, root: string, thursday: int, from: int, to: int)
    requires Session.Globex(spec) && Weekday(thursday) == THURSDAY
    requires Session.InSessionOf(thursday, Session.MinuteAt(from))
    requires Session.InSessionOf(thursday + 3, Session.MinuteAt(to))
    ensures GapSpanned(MarketOn(spec, holidays), root, from, to)
  {
    var mid := from + (to - from) / 2;
    MidpointMinute(from, to);
    var minute := Session.MinuteAt(mid);
    WeekendMinutes(thursday, minute);
    Session.WeekendIsClosed(spec, holidays, minute);
  }

  lemma MidpointMinute(from: int, to: int)
    requires from <= to
    ensures var mid := Session.MinuteAt(from + (to - from) / 2);
            Session.MinuteAt(from) + Session.MinuteAt(to) - 1 <= 2 * mid <= Session.MinuteAt(from) + Session.MinuteAt(to) + 1
  {
  }

  lemma WeekendMinutes(thursday: int, minute: int)
    requires Weekday(thursday) == THURSDAY
    requires thursday * 1440 + 2400 <= minute < thursday * 1440 + 5340
    ensures Session.MinuteOfWeek(minute) < 1020 || Session.MinuteOfWeek(minute) >= 8160
  {
    WeekdayShift(thursday, 1);
    WeekdayShift(thursday, 2);
    WeekdayShift(thursday, 3);
  }

  function Halt(day: int): Closure { Closure(MinuteOn(day, 915), MinuteOn(day, 930)) }

  function DailyBreak(day: int): Closure { Closure(MinuteOn(day, 960), MinuteOn(day, 1020)) }

  lemma DuringMinutes(day: int, from: int, to: int, t: int)
    ensures During(Closure(MinuteOn(day, from), MinuteOn(day, to)), t)
            <==> day * 1440 + from <= Session.MinuteAt(t) < day * 1440 + to
  {
    Session.Aligned(t, day * 1440 + from);
    Session.Aligned(t, day * 1440 + to);
  }

  /** An index future on a Monday to Thursday trades but for the halt and the break. */
  lemma OpenOnDay(day: int, t: int)
    requires MONDAY <= Weekday(day) <= THURSDAY
    requires day * 1440 <= Session.MinuteAt(t) < day * 1440 + 1440
    ensures Session.IsMarketOpen(Session.EQUITY_SPEC, map[], t)
            <==> !During(Halt(day), t) && !During(DailyBreak(day), t)
  {
    var minute := Session.MinuteAt(t);
    var m := minute - day * 1440;
    assert Session.DayAt(minute) == day && Session.MinuteOfDay(minute) == m;
    Session.OpenIff(Session.EQUITY_SPEC, map[], minute);
    Session.BreakOf(Weekday(day), m);
    DuringMinutes(day, 915, 930, t);
    DuringMinutes(day, 960, 1020, t);
  }

  /** From before the halt to after the break of one day: recognised only with one of the two near the middle. */
  lemma AfternoonIsSampledIff(day: int, root: string, from: int, to: int)
    requires MONDAY <= Weekday(day) <= THURSDAY
    requires MinuteOn(day, 0) <= from < MinuteOn(day, 915) && MinuteOn(day, 1020) <= to < MinuteOn(day, 1440)
    ensures GapSpanned(MarketOn(Session.EQUITY_SPEC, map[]), root, from, to)
            <==> NearMiddle(Halt(day), from, to) || NearMiddle(DailyBreak(day), from, to)
  {
    var m, closures := MarketOn(Session.EQUITY_SPEC, map[]), [Halt(day), DailyBreak(day)];
    forall t | from <= t <= to
      ensures m.open(root, t) <==> !InSome(closures, t)
    {
      DuringMinutes(day, 0, 1440, t);
      OpenOnDay(day, t);
      assert During(closures[0], t) || During(closures[1], t) <==> InSome(closures, t);
    }
    assert !During(Halt(day), from) && !During(DailyBreak(day), from) && !InSome(closures, from);
    assert !During(Halt(day), to) && !During(DailyBreak(day), to) && !InSome(closures, to);
    ClosuresAreSampledIff(m, root, from, closures, to);
    forall i | 0 <= i < |closures|
      ensures !During(closures[i], from) && !During(closures[i], to)
    {
    }
    assert closures[0] == Halt(day) && closures[1] == DailyBreak(day);
  }

  /**
   * One such silence: from 14:00 to 17:01 neither the halt nor the break lies near the
   * middle, so after an hour of closed market a new price is still held against the old one.
   */
  lemma DailyBreakIsMissed(day: int, root: string, s: SymbolState)
    requires MONDAY <= Weekday(day) <= THURSDAY
    requires s.lastAccepted == Some(Fin(100.0)) && s.lastAcceptedTs == MinuteOn(day, 840) && s.pending.None?
    ensures var m := MarketOn(Session.EQUITY_SPEC, map[]);
            var (from, to) := (MinuteOn(day, 840), MinuteOn(day, 1021));
            && (forall t | During(DailyBreak(day), t) :: !m.open(root, t))
            && !GapSpanned(m, root, from, to)
            && Rule(DEFAULT_OPTIONS, m, s, PriceEvent(root, Number(Fin(101.0)), to, to)) == Withheld
  {
    forall t | During(DailyBreak(day), t)
      ensures !Session.IsMarketOpen(Session.EQUITY_SPEC, map[], t)
    {
      DuringMinutes(day, 960, 1020, t);
      OpenOnDay(day, t);
    }
    AfternoonIsSampledIff(day, root, MinuteOn(day, 840), MinuteOn(day, 1021));
    FarPrice();
  }

  lemma FarPrice()
    ensures !Within(Fin(100.0), 101.0, DEFAULT_OPTIONS.tolerance)
  {
    assert Abs(101.0 - 100.0) / Abs(100.0) == 0.01;
  }
}
