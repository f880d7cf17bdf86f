/**
 * The price integrity gate: one state machine per symbol that decides whether a
 * price is published, held back for corroboration, or refused.
 *
 * The functions below say what one observation does to the gate; the class is the
 * gate itself, updated field by field, and each of its methods is proved to be
 * exactly one step of those functions. What the steps guarantee over whole runs is
 * proved in GateRuns.
 */
module PriceGate {
  import opened Common
  import opened JsNumber

  datatype Verdict = ACCEPT | QUARANTINE | REJECT

  datatype Note = NotFinite | AtOrBelowZero | WentBack | AwaitingSecondOpinion

  datatype Anomaly = Anomaly(
    symbol: string, verdict: Verdict, price: Num, lastAccepted: Option<Num>,
    deviation: Num, exchangeTs: int, at: int, note: Note)

  datatype Counters = Counters(
    accepted: nat, quarantined: nat, released: nat, discarded: nat, rejected: nat, reanchored: nat)

  datatype Held = Held(price: real, exchangeTs: int, at: int)

  /** `lastAccepted` is a Num because the bar path stores a close it never checked. */
  datatype SymbolState = SymbolState(
    lastAccepted: Option<Num>, lastAcceptedTs: int, pending: Option<Held>, newestBarTime: int)

  datatype Options = Options(
    tolerance: real, reanchorAfterMs: int, quarantineTtlMs: int, historySize: nat)

  const DEFAULT_OPTIONS := Options(0.005, 120_000, 60_000, 50)
  const NO_COUNTS := Counters(0, 0, 0, 0, 0, 0)
  const FRESH := SymbolState(None, 0, None, 0)

  /** What the gate asks of the instrument registry and of the session calendar. */
  datatype Market = Market(
    listed: set<string>,
    allowsNegative: string -> bool,
    open: (string, int) -> bool)

  /** The argument of `check`: a number, or one of the two ways of not having one. */
  datatype Price = Null | Undefined | Number(n: Num)

  datatype Bar = Bar(open: Num, high: Num, low: Num, close: Num, time: int)

  datatype GateEvent =
    | PriceEvent(root: string, price: Price, ts: int, now: int)
    | BarEvent(root: string, bar: Bar, now: int)

  /** Which branch of the gate an observation takes. */
  datatype Ruling =
    | NotANumber | Impossible | First | Reanchored | Near | Released | Withheld
    | Revision | Covered

  datatype GateState = GateState(
    states: map<string, SymbolState>, counters: map<string, Counters>, anomalies: seq<Anomaly>)

  const EMPTY := GateState(map[], map[], [])

  function StateOf(g: GateState, root: string): SymbolState {
    if root in g.states then g.states[root] else FRESH
  }

  function CountersOf(g: GateState, root: string): Counters {
    if root in g.counters then g.counters[root] else NO_COUNTS
  }

  /** `Number(price)`: null becomes zero, undefined becomes NaN. */
  function Raw(price: Price): Num {
    match price
    case Null => Fin(0.0)
    case Undefined => NaN
    case Number(n) => n
  }

  /** `|p - anchor| / |anchor|`, with the division by zero JavaScript allows. */
  function Deviation(anchor: Num, p: real): Num {
    match anchor
    case Fin(a) => if a != 0.0 then Fin(Abs(p - a) / Abs(a)) else if p == 0.0 then NaN else PosInf
    case _ => NaN
  }

  predicate Within(anchor: Num, p: real, tolerance: real) {
    Leq(Deviation(anchor, p), Fin(tolerance))
  }

  /** Both ends of a silence and its midpoint, sampled for a market that was not open. */
  predicate GapSpanned(m: Market, root: string, from: int, to: int) {
    var mid := from + (to - from) / 2;
    !m.open(root, from) || !m.open(root, to) || !m.open(root, mid)
  }

  predicate Reanchors(o: Options, m: Market, root: string, s: SymbolState, ts: int) {
    ts - s.lastAcceptedTs > o.reanchorAfterMs && GapSpanned(m, root, s.lastAcceptedTs, ts)
  }

  predicate Corroborates(o: Options, s: SymbolState, p: real, now: int) {
    s.pending.Some?
    && now - s.pending.value.at <= o.quarantineTtlMs
    && Within(Fin(s.pending.value.price), p, o.tolerance)
  }

  function RuleOnPrice(o: Options, m: Market, root: string, s: SymbolState, price: Price, ts: int, now: int): Ruling {
    if !(price.Number? && price.n.Fin?) then NotANumber
    else
      var p := price.n.v;
      if p <= 0.0 && !m.allowsNegative(root) then Impossible
      else if s.lastAccepted.None? then First
      else if Reanchors(o, m, root, s, ts) then Reanchored
      else if Within(s.lastAccepted.value, p, o.tolerance) then Near
      else if Corroborates(o, s, p, now) then Released
      else Withheld
  }

  predicate IsRevision(s: SymbolState, bar: Bar) {
    s.newestBarTime > 0 && bar.time < s.newestBarTime
  }

  predicate Covers(o: Options, s: SymbolState, bar: Bar) {
    s.lastAccepted.Some?
    && bar.time - s.lastAcceptedTs <= o.reanchorAfterMs
    && Leq(bar.low, s.lastAccepted.value)
    && Leq(s.lastAccepted.value, bar.high)
  }

  function Rule(o: Options, m: Market, s: SymbolState, ev: GateEvent): Ruling {
    match ev
    case PriceEvent(root, price, ts, now) => RuleOnPrice(o, m, root, s, price, ts, now)
    case BarEvent(root, bar, now) =>
      if IsRevision(s, bar) then Revision
      else if Covers(o, s, bar) then Covered
      else RuleOnPrice(o, m, root, s, Number(bar.close), bar.time, now)
  }

  function VerdictOf(r: Ruling): Verdict {
    match r
    case NotANumber => REJECT
    case Impossible => REJECT
    case Withheld => QUARANTINE
    case _ => ACCEPT
  }

  function PriceOf(ev: GateEvent): Num {
    match ev
    case PriceEvent(_, price, _, _) => Raw(price)
    case BarEvent(_, bar, _) => bar.close
  }

  function TimeOf(ev: GateEvent): int {
    match ev
    case PriceEvent(_, _, ts, _) => ts
    case BarEvent(_, bar, _) => bar.time
  }

  function Seen(s: SymbolState, ev: GateEvent): SymbolState {
    if ev.BarEvent? && !IsRevision(s, ev.bar)
    then s.(newestBarTime := if ev.bar.time > s.newestBarTime then ev.bar.time else s.newestBarTime)
    else s
  }

  /** A re-anchor, a first price and a covering bar all leave `pending` alone. */
  function Step(o: Options, m: Market, s: SymbolState, ev: GateEvent): SymbolState {
    var seen := Seen(s, ev);
    var moved := seen.(lastAccepted := Some(PriceOf(ev)), lastAcceptedTs := TimeOf(ev));
    match Rule(o, m, s, ev)
    case NotANumber => seen
    case Impossible => seen
    case Revision => seen
    case First => moved
    case Reanchored => moved
    case Covered => moved
    case Near => moved.(pending := None)
    case Released => moved.(pending := None)
    case Withheld =>
      seen.(pending := Some(Held(if PriceOf(ev).Fin? then PriceOf(ev).v else 0.0, TimeOf(ev), ev.now)))
  }

  function Bump(c: Counters, r: Ruling, hadPending: bool): Counters {
    match r
    case NotANumber => c.(rejected := c.rejected + 1)
    case Impossible => c.(rejected := c.rejected + 1)
    case Revision => c
    case First => c.(accepted := c.accepted + 1)
    case Covered => c.(accepted := c.accepted + 1)
    case Reanchored => c.(accepted := c.accepted + 1, reanchored := c.reanchored + 1)
    case Near => c.(accepted := c.accepted + 1, discarded := c.discarded + if hadPending then 1 else 0)
    case Released => c.(accepted := c.accepted + 1, released := c.released + 1)
    case Withheld => c.(quarantined := c.quarantined + 1)
  }

  /** What is written to the anomaly log: at most one entry per observation. */
  function Report(o: Options, m: Market, s: SymbolState, ev: GateEvent): Option<Anomaly> {
    match Rule(o, m, s, ev)
    case NotANumber =>
      Some(Anomaly(ev.root, REJECT, PriceOf(ev), s.lastAccepted, NaN, TimeOf(ev), ev.now, NotFinite))
    case Impossible =>
      Some(Anomaly(ev.root, REJECT, PriceOf(ev), s.lastAccepted, NaN, TimeOf(ev), ev.now, AtOrBelowZero))
    case Near =>
      if s.pending.None? || s.lastAccepted.None? then None else
      var held := s.pending.value;
      Some(Anomaly(ev.root, QUARANTINE, Fin(held.price), s.lastAccepted,
                   Deviation(s.lastAccepted.value, held.price), held.exchangeTs, ev.now, WentBack))
    case Withheld =>
      if s.lastAccepted.None? || !PriceOf(ev).Fin? then None else
      Some(Anomaly(ev.root, QUARANTINE, PriceOf(ev), s.lastAccepted,
                   Deviation(s.lastAccepted.value, PriceOf(ev).v), TimeOf(ev), ev.now, AwaitingSecondOpinion))
    case _ => None
  }

  function Logged(log: seq<Anomaly>, entry: Option<Anomaly>, cap: nat): seq<Anomaly> {
    if entry.None? then log else PushBounded(log, entry.value, cap)
  }

  /** One observation judged: the whole new state of the gate. */
  function Judge(o: Options, m: Market, g: GateState, ev: GateEvent): GateState {
    var s := StateOf(g, ev.root);
    var r := Rule(o, m, s, ev);
    GateState(
      g.states[ev.root := Step(o, m, s, ev)],
      if r == Revision then g.counters
      else g.counters[ev.root := Bump(CountersOf(g, ev.root), r, s.pending.Some?)],
      Logged(g.anomalies, Report(o, m, s, ev), o.historySize))
  }

  function JudgeVerdict(o: Options, m: Market, g: GateState, ev: GateEvent): Verdict {
    VerdictOf(Rule(o, m, StateOf(g, ev.root), ev))
  }

  /** The state and counter rows that `check` creates on first sight of a symbol. */
  function Entered(g: GateState, root: string): GateState {
    g.(states := g.states[root := StateOf(g, root)], counters := g.counters[root := CountersOf(g, root)])
  }

  lemma EnteringChangesNothing(o: Options, m: Market, g: GateState, ev: GateEvent)
    requires ev.PriceEvent?
    ensures Judge(o, m, Entered(g, ev.root), ev) == Judge(o, m, g, ev)
    ensures JudgeVerdict(o, m, Entered(g, ev.root), ev) == JudgeVerdict(o, m, g, ev)
  {
    var e := Entered(g, ev.root);
    assert StateOf(e, ev.root) == StateOf(g, ev.root) && CountersOf(e, ev.root) == CountersOf(g, ev.root);
    var s := Step(o, m, StateOf(g, ev.root), ev);
    assert e.states[ev.root := s] == g.states[ev.root := s];
    var c := Bump(CountersOf(g, ev.root), Rule(o, m, StateOf(g, ev.root), ev), StateOf(g, ev.root).pending.Some?);
    assert e.counters[ev.root := c] == g.counters[ev.root := c];
  }

  /** A bar that neither revises nor covers is judged by its close, as a price would be. */
  lemma BarJudgedByClose(o: Options, m: Market, g: GateState, root: string, bar: Bar, now: int)
    requires !IsRevision(StateOf(g, root), bar)
    requires !Covers(o, StateOf(g, root), bar)
    ensures var ev := BarEvent(root, bar, now);
            var close := PriceEvent(root, Number(bar.close), bar.time, now);
            var seen := g.(states := g.states[root := Seen(StateOf(g, root), ev)]);
            Judge(o, m, seen, close) == Judge(o, m, g, ev)
            && JudgeVerdict(o, m, seen, close) == JudgeVerdict(o, m, g, ev)
  {
    var ev := BarEvent(root, bar, now);
    var close := PriceEvent(root, Number(bar.close), bar.time, now);
    var s := StateOf(g, root);
    var t := Seen(s, ev);
    var seen := g.(states := g.states[root := t]);
    assert StateOf(seen, root) == t;
    assert Rule(o, m, t, close) == Rule(o, m, s, ev);
    assert Step(o, m, t, close) == Step(o, m, s, ev);
    assert seen.states[root := Step(o, m, t, close)] == g.states[root := Step(o, m, s, ev)];
  }

  // ---------------------------------------------------------------- the gate in plain numbers

  /** A price the gate will consider at all. */
  predicate Believable(m: Market, root: string, price: Price) {
    price.Number? && price.n.Fin? && (price.n.v > 0.0 || m.allowsNegative(root))
  }

  /** `p` differs from `a` by at most that fraction of `a`; nothing agrees with zero, or with what is no number. */
  predicate Agrees(a: Num, p: real, tolerance: real) {
    a.Fin? && a.v != 0.0 && Abs(p - a.v) <= tolerance * Abs(a.v)
  }

  /** The deviation times the anchor is the distance; it is infinite from zero, and no number from no number. */
  lemma DeviationIs(anchor: Num, p: real)
    ensures match anchor
            case Fin(a) =>
              if a != 0.0 then Deviation(anchor, p).Fin? && Deviation(anchor, p).v * Abs(a) == Abs(p - a)
              else Deviation(anchor, p) == if p == 0.0 then NaN else PosInf
            case _ => Deviation(anchor, p) == NaN
  {
  }

  lemma WithinIff(anchor: Num, p: real, tolerance: real)
    ensures Within(anchor, p, tolerance) <==> Agrees(anchor, p, tolerance)
  {
    DeviationIs(anchor, p);
    if anchor.Fin? && anchor.v != 0.0 {
      OrderScales(Deviation(anchor, p).v, tolerance, Abs(anchor.v));
    }
  }

  lemma OrderScales(d: real, t: real, a: real)
    requires a > 0.0
    ensures d <= t <==> d * a <= t * a
  {
    if d < t { assert (t - d) * a > 0.0; }
    if t < d { assert (d - t) * a > 0.0; }
  }

  /** A silence longer than the limit that the sampled calendar puts a closure in. */
  predicate AcrossClosure(o: Options, m: Market, s: SymbolState, root: string, ts: int) {
    ts - s.lastAcceptedTs > o.reanchorAfterMs && GapSpanned(m, root, s.lastAcceptedTs, ts)
  }

  /** The waiting price is not stale and agrees. */
  predicate Vouched(o: Options, s: SymbolState, p: real, now: int) {
    s.pending.Some? && now - s.pending.value.at <= o.quarantineTtlMs
    && Agrees(Fin(s.pending.value.price), p, o.tolerance)
  }

  /** The four reasons to take a price. */
  predicate Acceptable(o: Options, m: Market, s: SymbolState, root: string, p: real, ts: int, now: int) {
    || s.lastAccepted.None?
    || AcrossClosure(o, m, s, root, ts)
    || Agrees(s.lastAccepted.value, p, o.tolerance)
    || Vouched(o, s, p, now)
  }

  /** What a price's verdict is, and what becomes of the anchor and of the price held back. */
  lemma PriceIsJudged(o: Options, m: Market, s: SymbolState, root: string, price: Price, ts: int, now: int)
    ensures var ev := PriceEvent(root, price, ts, now);
            var v, t := VerdictOf(Rule(o, m, s, ev)), Step(o, m, s, ev);
            && (v == REJECT <==> !Believable(m, root, price))
            && (v == ACCEPT <==> Believable(m, root, price) && Acceptable(o, m, s, root, price.n.v, ts, now))
            && t.newestBarTime == s.newestBarTime
            && (v == REJECT ==> t == s)
            && (v == QUARANTINE ==> t == s.(pending := Some(Held(price.n.v, ts, now))))
            && (v == ACCEPT ==>
                  && t.lastAccepted == Some(price.n) && t.lastAcceptedTs == ts
                  && t.pending == if s.lastAccepted.None? || AcrossClosure(o, m, s, root, ts) then s.pending else None)
  {
    if s.lastAccepted.Some? && Believable(m, root, price) {
      WithinIff(s.lastAccepted.value, price.n.v, o.tolerance);
    }
    if s.pending.Some? && Believable(m, root, price) {
      WithinIff(Fin(s.pending.value.price), price.n.v, o.tolerance);
    }
  }

  lemma VerdictIs(o: Options, m: Market, g: GateState, root: string, price: Price, ts: int, now: int)
    ensures var v := JudgeVerdict(o, m, g, PriceEvent(root, price, ts, now));
            && (v == REJECT <==> !Believable(m, root, price))
            && (v == ACCEPT <==> Believable(m, root, price)
                                 && Acceptable(o, m, StateOf(g, root), root, price.n.v, ts, now))
  {
    PriceIsJudged(o, m, StateOf(g, root), root, price, ts, now);
  }

  /** The bar's range holds the anchor, and no silence lies between. */
  predicate Spans(o: Options, s: SymbolState, bar: Bar) {
    s.lastAccepted.Some? && bar.time - s.lastAcceptedTs <= o.reanchorAfterMs
    && AtMost(bar.low, s.lastAccepted.value) && AtMost(s.lastAccepted.value, bar.high)
  }

  /** What a bar's verdict is: passed as a revision, taken for its range, or judged as its close would be. */
  lemma BarIsJudged(o: Options, m: Market, s: SymbolState, root: string, bar: Bar, now: int)
    ensures var ev := BarEvent(root, bar, now);
            var v, t := VerdictOf(Rule(o, m, s, ev)), Step(o, m, s, ev);
            if s.newestBarTime > 0 && bar.time < s.newestBarTime then
              v == ACCEPT && t == s
            else
              && t.newestBarTime >= bar.time && t.newestBarTime >= s.newestBarTime
              && (t.newestBarTime == bar.time || t.newestBarTime == s.newestBarTime)
              && if Spans(o, s, bar) then
                   && v == ACCEPT && t.lastAccepted == Some(bar.close) && t.lastAcceptedTs == bar.time
                   && t.pending == s.pending
                 else
                   var close := PriceEvent(root, Number(bar.close), bar.time, now);
                   && v == VerdictOf(Rule(o, m, s, close))
                   && t.(newestBarTime := s.newestBarTime) == Step(o, m, s, close)
  {
    if s.lastAccepted.Some? {
      LeqIsAtMost(bar.low, s.lastAccepted.value);
      LeqIsAtMost(s.lastAccepted.value, bar.high);
    }
  }

  /** What the six counters do with a price. */
  lemma CountersAreJudged(o: Options, m: Market, s: SymbolState, c: Counters, root: string, price: Price, ts: int, now: int)
    ensures var ev := PriceEvent(root, price, ts, now);
            var v, d := VerdictOf(Rule(o, m, s, ev)), Bump(c, Rule(o, m, s, ev), s.pending.Some?);
            var anchored := v == ACCEPT && s.lastAccepted.Some?;
            var across := AcrossClosure(o, m, s, root, ts);
            && d.accepted == c.accepted + (if v == ACCEPT then 1 else 0)
            && d.quarantined == c.quarantined + (if v == QUARANTINE then 1 else 0)
            && d.rejected == c.rejected + (if v == REJECT then 1 else 0)
            && d.reanchored == c.reanchored + (if anchored && across then 1 else 0)
            && d.discarded == c.discarded + (if anchored && !across && s.pending.Some?
                                                && Agrees(s.lastAccepted.value, price.n.v, o.tolerance) then 1 else 0)
            && d.released == c.released + (if anchored && !across
                                              && !Agrees(s.lastAccepted.value, price.n.v, o.tolerance) then 1 else 0)
  {
    if s.lastAccepted.Some? && Believable(m, root, price) {
      WithinIff(s.lastAccepted.value, price.n.v, o.tolerance);
    }
  }

  /** What the counters do with a bar: nothing, one accept, or what its close would do. */
  lemma CountersTakeBar(o: Options, m: Market, s: SymbolState, c: Counters, root: string, bar: Bar, now: int)
    ensures var d := Bump(c, Rule(o, m, s, BarEvent(root, bar, now)), s.pending.Some?);
            if s.newestBarTime > 0 && bar.time < s.newestBarTime then d == c
            else if Spans(o, s, bar) then d == c.(accepted := c.accepted + 1)
            else d == Bump(c, Rule(o, m, s, PriceEvent(root, Number(bar.close), bar.time, now)), s.pending.Some?)
  {
    if s.lastAccepted.Some? {
      LeqIsAtMost(bar.low, s.lastAccepted.value);
      LeqIsAtMost(s.lastAccepted.value, bar.high);
    }
  }

  /** The log says of a refused price what it was and why. */
  lemma RefusalIsReported(o: Options, m: Market, s: SymbolState, root: string, price: Price, ts: int, now: int)
    requires !Believable(m, root, price)
    ensures var (number, note) := match price
                                  case Null => (Fin(0.0), NotFinite)
                                  case Undefined => (NaN, NotFinite)
                                  case Number(n) => (n, if n.Fin? then AtOrBelowZero else NotFinite);
            Report(o, m, s, PriceEvent(root, price, ts, now))
            == Some(Anomaly(root, REJECT, number, s.lastAccepted, NaN, ts, now, note))
  {
  }

  /** `d` is how far `p` lies from the anchor, as a fraction of a finite anchor other than zero. */
  predicate Fraction(d: Num, anchor: Num, p: real) {
    anchor.Fin? && anchor.v != 0.0 ==> d.Fin? && d.v * Abs(anchor.v) == Abs(p - anchor.v)
  }

  /** The log says of a price held back what it was and how far it lies from the anchor. */
  lemma HoldIsReported(o: Options, m: Market, s: SymbolState, root: string, p: real, ts: int, now: int)
    requires Believable(m, root, Number(Fin(p))) && !Acceptable(o, m, s, root, p, ts, now)
    ensures var report := Report(o, m, s, PriceEvent(root, Number(Fin(p)), ts, now));
            && report.Some? && Fraction(report.value.deviation, s.lastAccepted.value, p)
            && report.value.(deviation := NaN)
               == Anomaly(root, QUARANTINE, Fin(p), s.lastAccepted, NaN, ts, now, AwaitingSecondOpinion)
  {
    PriceIsJudged(o, m, s, root, Number(Fin(p)), ts, now);
    DeviationIs(s.lastAccepted.value, p);
  }

  /** An accepted price is reported only for the held price it contradicts, and then by that one's price and time. */
  lemma DiscardIsReported(o: Options, m: Market, s: SymbolState, root: string, p: real, ts: int, now: int)
    requires Believable(m, root, Number(Fin(p))) && Acceptable(o, m, s, root, p, ts, now)
    ensures var report := Report(o, m, s, PriceEvent(root, Number(Fin(p)), ts, now));
            && (report.Some? <==> s.lastAccepted.Some? && s.pending.Some? && !AcrossClosure(o, m, s, root, ts)
                                  && Agrees(s.lastAccepted.value, p, o.tolerance))
            && (report.Some? ==>
                  var held := s.pending.value;
                  && Fraction(report.value.deviation, s.lastAccepted.value, held.price)
                  && report.value.(deviation := NaN)
                     == Anomaly(root, QUARANTINE, Fin(held.price), s.lastAccepted, NaN, held.exchangeTs, now, WentBack))
  {
    PriceIsJudged(o, m, s, root, Number(Fin(p)), ts, now);
    if s.lastAccepted.Some? {
      WithinIff(s.lastAccepted.value, p, o.tolerance);
      if s.pending.Some? { DeviationIs(s.lastAccepted.value, s.pending.value.price); }
    }
  }

  /** The shipped settings: half a percent, two minutes of silence, a minute of quarantine, fifty entries. */
  lemma DefaultsInNumbers(m: Market, s: SymbolState, root: string, a: real, p: real, ts: int, now: int)
    requires s.lastAccepted == Some(Fin(a)) && a > 0.0 && p > 0.0
    ensures DEFAULT_OPTIONS.historySize == 50
    ensures Acceptable(DEFAULT_OPTIONS, m, s, root, p, ts, now)
            <==> || -a <= 200.0 * (p - a) <= a
                 || (ts - s.lastAcceptedTs > 120_000 && GapSpanned(m, root, s.lastAcceptedTs, ts))
                 || (s.pending.Some? && now - s.pending.value.at <= 60_000 && s.pending.value.price != 0.0
                     && 200.0 * Abs(p - s.pending.value.price) <= Abs(s.pending.value.price))
  {
  }

  /** The gate. Every field below is read and written the way the server does it. */
  class PriceIntegrity {
    var states: map<string, SymbolState>
    var counters: map<string, Counters>
    var anomalies: seq<Anomaly>
    const options: Options
    const market: Market

    ghost function View(): GateState
      reads this
    {
      GateState(states, counters, anomalies)
    }

    constructor (options: Options, market: Market)
      ensures View() == EMPTY && this.options == options && this.market == market
    {
      states, counters, anomalies := map[], map[], [];
      this.options, this.market := options, market;
    }

    method EnsureState(root: string)
      modifies this`states
      ensures states == old(states)[root := StateOf(old(View()), root)]
    {
      if root !in states {
        states := states[root := FRESH];
      }
      assert states == states[root := states[root]];
    }

    method EnsureCounters(root: string)
      modifies this`counters
      ensures counters == old(counters)[root := CountersOf(old(View()), root)]
    {
      if root !in counters {
        counters := counters[root := NO_COUNTS];
      }
      assert counters == counters[root := counters[root]];
    }

    method Record(anomaly: Anomaly)
      modifies this`anomalies
      ensures anomalies == PushBounded(old(anomalies), anomaly, options.historySize)
    {
      anomalies := anomalies + [anomaly];
      if |anomalies| > options.historySize {
        anomalies := anomalies[|anomalies| - options.historySize..];
      }
    }

    method Accept(root: string, price: Num, ts: int)
      requires root in states && root in counters
      modifies this`states, this`counters
      ensures states == old(states)[root := old(states)[root].(lastAccepted := Some(price), lastAcceptedTs := ts)]
      ensures counters == old(counters)[root := old(counters)[root].(accepted := old(counters)[root].accepted + 1)]
    {
      states := states[root := states[root].(lastAccepted := Some(price), lastAcceptedTs := ts)];
      counters := counters[root := counters[root].(accepted := counters[root].accepted + 1)];
    }

    method Check(root: string, price: Price, ts: int, now: int) returns (verdict: Verdict)
      modifies this
      ensures View() == Judge(options, market, old(View()), PriceEvent(root, price, ts, now))
      ensures verdict == JudgeVerdict(options, market, old(View()), PriceEvent(root, price, ts, now))
      ensures verdict == REJECT <==> !Believable(market, root, price)
      ensures verdict == ACCEPT <==> Believable(market, root, price)
                                     && Acceptable(options, market, StateOf(old(View()), root), root, price.n.v, ts, now)
    {
      VerdictIs(options, market, View(), root, price, ts, now);
      EnsureState(root);
      EnsureCounters(root);
      assert View() == Entered(old(View()), root);
      EnteringChangesNothing(options, market, old(View()), PriceEvent(root, price, ts, now));
      verdict := Decide(root, price, ts, now);
    }

    /** The first half of `check`, once the symbol has its rows: what is refused, first, or across a closure. */
    method Decide(root: string, price: Price, ts: int, now: int) returns (verdict: Verdict)
      requires root in states && root in counters
      modifies this
      ensures View() == Judge(options, market, old(View()), PriceEvent(root, price, ts, now))
      ensures verdict == JudgeVerdict(options, market, old(View()), PriceEvent(root, price, ts, now))
    {
      ghost var ev := PriceEvent(root, price, ts, now);
      ghost var before := View();
      var state := states[root];
      var counts := counters[root];

      if !(price.Number? && price.n.Fin?) {
        counters := counters[root := counts.(rejected := counts.rejected + 1)];
        Record(Anomaly(root, REJECT, Raw(price), state.lastAccepted, NaN, ts, now, NotFinite));
        assert Rule(options, market, state, ev) == NotANumber;
        assert states == before.states[root := Step(options, market, state, ev)];
        assert counters == before.counters[root := Bump(counts, NotANumber, state.pending.Some?)];
        return REJECT;
      }
      var p := price.n.v;
      if p <= 0.0 && !market.allowsNegative(root) {
        counters := counters[root := counts.(rejected := counts.rejected + 1)];
        Record(Anomaly(root, REJECT, Fin(p), state.lastAccepted, NaN, ts, now, AtOrBelowZero));
        assert Rule(options, market, state, ev) == Impossible;
        assert states == before.states[root := Step(options, market, state, ev)];
        assert counters == before.counters[root := Bump(counts, Impossible, state.pending.Some?)];
        return REJECT;
      }
      if state.lastAccepted == None {
        Accept(root, Fin(p), ts);
        assert Rule(options, market, state, ev) == First;
        assert states == before.states[root := Step(options, market, state, ev)];
        assert counters == before.counters[root := Bump(counts, First, state.pending.Some?)];
        return ACCEPT;
      }
      if ts - state.lastAcceptedTs > options.reanchorAfterMs
         && GapSpanned(market, root, state.lastAcceptedTs, ts) {
        counters := counters[root := counts.(reanchored := counts.reanchored + 1)];
        Accept(root, Fin(p), ts);
        assert Rule(options, market, state, ev) == Reanchored;
        assert states == before.states[root := Step(options, market, state, ev)];
        assert counters == before.counters[root := Bump(counts, Reanchored, state.pending.Some?)];
        return ACCEPT;
      }
      verdict := Compare(root, p, ts, now);
    }

    /** The second half of `check`: the price against the anchor and against what is held. */
    method Compare(root: string, p: real, ts: int, now: int) returns (verdict: Verdict)
      requires root in states && root in counters && states[root].lastAccepted.Some?
      requires p > 0.0 || market.allowsNegative(root)
      requires !Reanchors(options, market, root, states[root], ts)
      modifies this
      ensures View() == Judge(options, market, old(View()), PriceEvent(root, Number(Fin(p)), ts, now))
      ensures verdict == JudgeVerdict(options, market, old(View()), PriceEvent(root, Number(Fin(p)), ts, now))
    {
      ghost var ev := PriceEvent(root, Number(Fin(p)), ts, now);
      ghost var before := View();
      var state := states[root];
      var counts := counters[root];
      var deviation := Deviation(state.lastAccepted.value, p);
      if Leq(deviation, Fin(options.tolerance)) {
        if state.pending.Some? {
          counters := counters[root := counts.(discarded := counts.discarded + 1)];
          var held := state.pending.value;
          Record(Anomaly(root, QUARANTINE, Fin(held.price), state.lastAccepted,
                         Deviation(state.lastAccepted.value, held.price), held.exchangeTs, now, WentBack));
          states := states[root := state.(pending := None)];
        }
        Accept(root, Fin(p), ts);
        assert Rule(options, market, state, ev) == Near;
        assert states == before.states[root := Step(options, market, state, ev)];
        assert counters == before.counters[root := Bump(counts, Near, state.pending.Some?)];
        return ACCEPT;
      }
      var pending := state.pending;
      if pending.Some? && now - pending.value.at <= options.quarantineTtlMs {
        var agreement := Deviation(Fin(pending.value.price), p);
        if Leq(agreement, Fin(options.tolerance)) {
          counters := counters[root := counts.(released := counts.released + 1)];
          states := states[root := state.(pending := None)];
          Accept(root, Fin(p), ts);
          assert Rule(options, market, state, ev) == Released;
          assert states == before.states[root := Step(options, market, state, ev)];
          assert counters == before.counters[root := Bump(counts, Released, state.pending.Some?)];
          return ACCEPT;
        }
      }
      counters := counters[root := counts.(quarantined := counts.quarantined + 1)];
      states := states[root := state.(pending := Some(Held(p, ts, now)))];
      Record(Anomaly(root, QUARANTINE, Fin(p), state.lastAccepted, deviation, ts, now, AwaitingSecondOpinion));
      assert Rule(options, market, state, ev) == Withheld;
      assert states == before.states[root := Step(options, market, state, ev)];
      assert counters == before.counters[root := Bump(counts, Withheld, state.pending.Some?)];
      return QUARANTINE;
    }

    method CheckBar(root: string, bar: Bar, now: int) returns (verdict: Verdict)
      modifies this
      ensures View() == Judge(options, market, old(View()), BarEvent(root, bar, now))
      ensures verdict == JudgeVerdict(options, market, old(View()), BarEvent(root, bar, now))
    {
      ghost var before := View();
      EnsureState(root);
      var state := states[root];
      assert state == StateOf(before, root);
      if state.newestBarTime > 0 && bar.time < state.newestBarTime {
        return ACCEPT;
      }
      ghost var ev := BarEvent(root, bar, now);
      state := state.(newestBarTime := if bar.time > state.newestBarTime then bar.time else state.newestBarTime);
      states := states[root := state];
      assert View() == before.(states := before.states[root := Seen(StateOf(before, root), ev)]);
      if state.lastAccepted.Some?
         && bar.time - state.lastAcceptedTs <= options.reanchorAfterMs
         && Leq(bar.low, state.lastAccepted.value)
         && Leq(state.lastAccepted.value, bar.high) {
        EnsureCounters(root);
        Accept(root, bar.close, bar.time);
        assert Rule(options, market, StateOf(before, root), ev) == Covered;
        assert states == before.states[root := Step(options, market, StateOf(before, root), ev)];
        return ACCEPT;
      }
      BarJudgedByClose(options, market, before, root, bar, now);
      verdict := Check(root, Number(bar.close), bar.time, now);
    }

    method Clear()
      modifies this
      ensures View() == EMPTY
    {
      states := map[];
      anomalies := [];
      counters := map[];
    }
  }
}
