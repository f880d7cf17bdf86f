/**
 * The market event bus: per-symbol ordering and de-duplication around the price gate.
 * The functions say what one call does; the class is proved to do exactly that.
 */
module Bus {
  import opened Common
  import opened JsNumber
  import opened PriceGate

  datatype Quote = Quote(
    symbol: string, exchangeTs: int, bid: Option<Num>, ask: Option<Num>, last: Option<Num>, seqNo: int)

  datatype Trade = Trade(symbol: string, exchangeTs: int, price: Num, size: Num, seqNo: int)

  datatype Clock = Clock(lastQuoteTs: int, lastTradeTs: int, lastTradeSeq: int, seqNo: nat)

  const NEW_CLOCK := Clock(0, 0, -1, 0)

  datatype Stats = Stats(
    published: nat, droppedOutOfOrder: nat, droppedDuplicate: nat,
    droppedQuarantined: nat, droppedRejected: nat, bySymbol: map<string, nat>)

  datatype BusState = BusState(clocks: map<string, Clock>, stats: Stats, gate: GateState)

  const NO_STATS := Stats(0, 0, 0, 0, 0, map[])
  const IDLE := BusState(map[], NO_STATS, EMPTY)

  datatype BusOp =
    | PublishQuote(quote: Quote, now: int)
    | PublishTrade(trade: Trade)
    | PublishBar(symbol: string, bar: Bar, now: int)
    | PublishDepth(symbol: string)
    | NextSeq(symbol: string)
    | ResetSymbol(symbol: string)
    | ResetAll

  function ClockOf(b: BusState, symbol: string): Clock {
    if symbol in b.clocks then b.clocks[symbol] else NEW_CLOCK
  }

  /** `getInstrument`: roots are upper case, and lookup ignores case. */
  function GetInstrument(m: Market, symbol: string): Option<string> {
    if ToUpper(symbol) in m.listed then Some(ToUpper(symbol)) else None
  }

  /** The last trade, else the middle of a real, two-sided, uncrossed book. */
  function Mark(q: Quote): Option<Num> {
    if q.last.Some? then q.last
    else if q.bid.Some? && q.ask.Some? && Leq(q.bid.value, q.ask.value)
    then Some(Midpoint(q.bid.value, q.ask.value))
    else None
  }

  /** What a quote asks the gate, when it asks at all. */
  function GateQuestion(m: Market, q: Quote, now: int): Option<GateEvent> {
    var root := GetInstrument(m, q.symbol);
    var mark := Mark(q);
    if root.Some? && mark.Some?
    then Some(PriceEvent(root.value, Number(mark.value), q.exchangeTs, now))
    else None
  }

  function BarQuestion(m: Market, symbol: string, bar: Bar, now: int): Option<GateEvent> {
    var root := GetInstrument(m, symbol);
    if root.Some? then Some(BarEvent(root.value, bar, now)) else None
  }

  function Asked(o: Options, m: Market, g: GateState, question: Option<GateEvent>): GateState {
    if question.None? then g else Judge(o, m, g, question.value)
  }

  function Answer(o: Options, m: Market, g: GateState, question: Option<GateEvent>): Verdict {
    if question.None? then ACCEPT else JudgeVerdict(o, m, g, question.value)
  }

  function Counted(s: Stats, symbol: string): Stats {
    s.(published := s.published + 1,
       bySymbol := s.bySymbol[symbol := (if symbol in s.bySymbol then s.bySymbol[symbol] else 0) + 1])
  }

  function CountedDrop(s: Stats, v: Verdict): Stats {
    if v == QUARANTINE then s.(droppedQuarantined := s.droppedQuarantined + 1)
    else s.(droppedRejected := s.droppedRejected + 1)
  }

  function OnQuote(o: Options, m: Market, b: BusState, q: Quote, now: int): BusState {
    var c := ClockOf(b, q.symbol);
    var seen := b.(clocks := b.clocks[q.symbol := c]);
    if q.exchangeTs < c.lastQuoteTs
    then seen.(stats := b.stats.(droppedOutOfOrder := b.stats.droppedOutOfOrder + 1))
    else if q.exchangeTs == c.lastQuoteTs
    then seen.(stats := b.stats.(droppedDuplicate := b.stats.droppedDuplicate + 1))
    else
      var question := GateQuestion(m, q, now);
      var v := Answer(o, m, b.gate, question);
      var asked := seen.(gate := Asked(o, m, b.gate, question));
      if v != ACCEPT then asked.(stats := CountedDrop(b.stats, v))
      else asked.(clocks := b.clocks[q.symbol := c.(lastQuoteTs := q.exchangeTs)],
                  stats := Counted(b.stats, q.symbol))
  }

  function OnTrade(b: BusState, t: Trade): BusState {
    var c := ClockOf(b, t.symbol);
    var seen := b.(clocks := b.clocks[t.symbol := c]);
    if t.seqNo <= c.lastTradeSeq
    then seen.(stats := b.stats.(droppedDuplicate := b.stats.droppedDuplicate + 1))
    else if t.exchangeTs < c.lastTradeTs
    then seen.(stats := b.stats.(droppedOutOfOrder := b.stats.droppedOutOfOrder + 1))
    else b.(clocks := b.clocks[t.symbol := c.(lastTradeSeq := t.seqNo, lastTradeTs := t.exchangeTs)],
            stats := Counted(b.stats, t.symbol))
  }

  function OnBar(o: Options, m: Market, b: BusState, symbol: string, bar: Bar, now: int): BusState {
    var question := BarQuestion(m, symbol, bar, now);
    var v := Answer(o, m, b.gate, question);
    b.(gate := Asked(o, m, b.gate, question),
       stats := if v != ACCEPT then CountedDrop(b.stats, v) else Counted(b.stats, symbol))
  }

  function BusStep(o: Options, m: Market, b: BusState, op: BusOp): BusState {
    match op
    case PublishQuote(q, now) => OnQuote(o, m, b, q, now)
    case PublishTrade(t) => OnTrade(b, t)
    case PublishBar(symbol, bar, now) => OnBar(o, m, b, symbol, bar, now)
    case PublishDepth(symbol) => b.(stats := Counted(b.stats, symbol))
    case NextSeq(symbol) =>
      var c := ClockOf(b, symbol);
      b.(clocks := b.clocks[symbol := c.(seqNo := c.seqNo + 1)])
    case ResetSymbol(symbol) => b.(clocks := b.clocks - {symbol})
    case ResetAll => b.(clocks := map[], gate := EMPTY)
  }

  /** What the call returns: true exactly when listeners saw the event. */
  predicate Passes(o: Options, m: Market, b: BusState, op: BusOp) {
    match op
    case PublishQuote(q, now) =>
      q.exchangeTs > ClockOf(b, q.symbol).lastQuoteTs
      && Answer(o, m, b.gate, GateQuestion(m, q, now)) == ACCEPT
    case PublishTrade(t) =>
      t.seqNo > ClockOf(b, t.symbol).lastTradeSeq && t.exchangeTs >= ClockOf(b, t.symbol).lastTradeTs
    case PublishBar(symbol, bar, now) => Answer(o, m, b.gate, BarQuestion(m, symbol, bar, now)) == ACCEPT
    case PublishDepth(_) => true
    case _ => false
  }

  // ---------------------------------------------------------------- the bus in plain numbers

  /** The middle of two numbers: as far from the one as from the other; none of a crossed book, or of no numbers. */
  predicate IsMiddle(bid: Num, ask: Num, mark: Option<Num>) {
    && (mark.Some? <==> AtMost(bid, ask))
    && (mark.Some? && bid.Fin? && ask.Fin? ==> mark.value.Fin? && mark.value.v - bid.v == ask.v - mark.value.v)
    && (mark.Some? && !(bid.Fin? && ask.Fin?) ==>
          mark.value == if bid == ask || bid.Fin? then ask else if ask.Fin? then bid else NaN)
  }

  /** The price a quote stands for: its last trade, else the middle of a two-sided book. */
  predicate IsMark(q: Quote, mark: Option<Num>) {
    if q.last.Some? then mark == q.last
    else if q.bid.Some? && q.ask.Some? then IsMiddle(q.bid.value, q.ask.value, mark)
    else mark == None
  }

  lemma MarkIs(q: Quote)
    ensures IsMark(q, Mark(q))
    ensures forall mark | IsMark(q, mark) :: mark == Mark(q)
  {
    if q.last.None? && q.bid.Some? && q.ask.Some? {
      LeqIsAtMost(q.bid.value, q.ask.value);
    }
  }

  /** A middle lies between the two sides. */
  lemma MiddleIsBetween(bid: real, ask: real, mark: Option<Num>)
    requires IsMiddle(Fin(bid), Fin(ask), mark) && mark.Some?
    ensures bid <= mark.value.v <= ask
  {
  }

  /** One more published, for this symbol. */
  predicate OneMorePublished(before: Stats, after: Stats, symbol: string) {
    && symbol in after.bySymbol
    && after.bySymbol[symbol] == (if symbol in before.bySymbol then before.bySymbol[symbol] else 0) + 1
    && after == before.(published := before.published + 1, bySymbol := before.bySymbol[symbol := after.bySymbol[symbol]])
  }

  /** What the statistics make of the gate's verdict. */
  predicate CountedByVerdict(before: Stats, after: Stats, symbol: string, v: Verdict) {
    match v
    case ACCEPT => OneMorePublished(before, after, symbol)
    case QUARANTINE => after == before.(droppedQuarantined := before.droppedQuarantined + 1)
    case REJECT => after == before.(droppedRejected := before.droppedRejected + 1)
  }

  /** A quote is late, or a duplicate, or put to the gate when it is listed and has a mark. */
  lemma QuoteOutcome(o: Options, m: Market, b: BusState, q: Quote, now: int, mark: Option<Num>)
    requires IsMark(q, mark)
    ensures var d := BusStep(o, m, b, PublishQuote(q, now));
            var passes, last := Passes(o, m, b, PublishQuote(q, now)), ClockOf(b, q.symbol).lastQuoteTs;
            if q.exchangeTs < last then
              !passes && d.gate == b.gate && d.stats == b.stats.(droppedOutOfOrder := b.stats.droppedOutOfOrder + 1)
            else if q.exchangeTs == last then
              !passes && d.gate == b.gate && d.stats == b.stats.(droppedDuplicate := b.stats.droppedDuplicate + 1)
            else if ToUpper(q.symbol) in m.listed && mark.Some? then
              var ev := PriceEvent(ToUpper(q.symbol), Number(mark.value), q.exchangeTs, now);
              var v := JudgeVerdict(o, m, b.gate, ev);
              && d.gate == Judge(o, m, b.gate, ev) && (passes <==> v == ACCEPT)
              && CountedByVerdict(b.stats, d.stats, q.symbol, v)
            else
              passes && d.gate == b.gate && OneMorePublished(b.stats, d.stats, q.symbol)
  {
    MarkIs(q);
  }

  /** A trade is a duplicate by its number, or late by its time, or published. */
  lemma TradeOutcome(o: Options, m: Market, b: BusState, t: Trade)
    ensures var d := BusStep(o, m, b, PublishTrade(t));
            var passes, c := Passes(o, m, b, PublishTrade(t)), ClockOf(b, t.symbol);
            && d.gate == b.gate
            && if t.seqNo <= c.lastTradeSeq then
                 !passes && d.stats == b.stats.(droppedDuplicate := b.stats.droppedDuplicate + 1)
               else if t.exchangeTs < c.lastTradeTs then
                 !passes && d.stats == b.stats.(droppedOutOfOrder := b.stats.droppedOutOfOrder + 1)
               else
                 passes && OneMorePublished(b.stats, d.stats, t.symbol)
  {
  }

  /** A bar of a listed symbol is put to the gate; any other is published. No clock moves. */
  lemma BarOutcome(o: Options, m: Market, b: BusState, symbol: string, bar: Bar, now: int)
    ensures var d := BusStep(o, m, b, PublishBar(symbol, bar, now));
            var passes := Passes(o, m, b, PublishBar(symbol, bar, now));
            && d.clocks == b.clocks
            && if ToUpper(symbol) in m.listed then
                 var ev := BarEvent(ToUpper(symbol), bar, now);
                 var v := JudgeVerdict(o, m, b.gate, ev);
                 && d.gate == Judge(o, m, b.gate, ev) && (passes <==> v == ACCEPT)
                 && CountedByVerdict(b.stats, d.stats, symbol, v)
               else
                 passes && d.gate == b.gate && OneMorePublished(b.stats, d.stats, symbol)
  {
  }

  /** Depth is always published; a stream number is one more than the last; resets keep the statistics. */
  lemma OtherOutcomes(o: Options, m: Market, b: BusState, symbol: string)
    ensures var d := BusStep(o, m, b, PublishDepth(symbol));
            Passes(o, m, b, PublishDepth(symbol)) && d.gate == b.gate && OneMorePublished(b.stats, d.stats, symbol)
    ensures var d := BusStep(o, m, b, NextSeq(symbol));
            d.stats == b.stats && d.gate == b.gate && ClockOf(d, symbol).seqNo == ClockOf(b, symbol).seqNo + 1
    ensures BusStep(o, m, b, ResetSymbol(symbol)).stats == b.stats && BusStep(o, m, b, ResetSymbol(symbol)).gate == b.gate
    ensures BusStep(o, m, b, ResetAll).stats == b.stats && BusStep(o, m, b, ResetAll).gate == EMPTY
    ensures ClockOf(BusStep(o, m, b, ResetSymbol(symbol)), symbol) == Clock(0, 0, -1, 0)
    ensures BusStep(o, m, b, ResetAll).clocks == map[]
  {
  }

  class MarketEventBus {
    var clocks: map<string, Clock>
    var published: nat
    var droppedOutOfOrder: nat
    var droppedDuplicate: nat
    var droppedQuarantined: nat
    var droppedRejected: nat
    var bySymbol: map<string, nat>
    const integrity: PriceIntegrity

    ghost function StatsView(): Stats
      reads this
    {
      Stats(published, droppedOutOfOrder, droppedDuplicate, droppedQuarantined, droppedRejected, bySymbol)
    }

    ghost function View(): BusState
      reads this, integrity
    {
      BusState(clocks, StatsView(), integrity.View())
    }

    constructor (options: Options, market: Market)
      ensures View() == IDLE && fresh(integrity)
      ensures integrity.options == options && integrity.market == market
    {
      clocks, bySymbol := map[], map[];
      published, droppedOutOfOrder, droppedDuplicate, droppedQuarantined, droppedRejected := 0, 0, 0, 0, 0;
      integrity := new PriceIntegrity(options, market);
    }

    method EnsureClock(symbol: string) returns (c: Clock)
      modifies this`clocks
      ensures c == ClockOf(old(View()), symbol)
      ensures clocks == old(clocks)[symbol := c]
    {
      if symbol !in clocks {
        clocks := clocks[symbol := NEW_CLOCK];
      }
      c := clocks[symbol];
      assert clocks == clocks[symbol := c];
    }

    method Record(symbol: string)
      modifies this`published, this`bySymbol
      ensures StatsView() == Counted(old(StatsView()), symbol)
    {
      published := published + 1;
      bySymbol := bySymbol[symbol := (if symbol in bySymbol then bySymbol[symbol] else 0) + 1];
    }

    method Refuse(verdict: Verdict)
      modifies this`droppedQuarantined, this`droppedRejected
      ensures StatsView() == CountedDrop(old(StatsView()), verdict)
    {
      if verdict == QUARANTINE {
        droppedQuarantined := droppedQuarantined + 1;
      } else {
        droppedRejected := droppedRejected + 1;
      }
    }

    method PublishQuote(q: Quote, now: int) returns (ok: bool)
      modifies this, integrity
      ensures View() == BusStep(integrity.options, integrity.market, old(View()), BusOp.PublishQuote(q, now))
      ensures ok == Passes(integrity.options, integrity.market, old(View()), BusOp.PublishQuote(q, now))
    {
      var c := EnsureClock(q.symbol);
      if q.exchangeTs < c.lastQuoteTs {
        droppedOutOfOrder := droppedOutOfOrder + 1;
        return false;
      }
      if q.exchangeTs == c.lastQuoteTs {
        droppedDuplicate := droppedDuplicate + 1;
        return false;
      }
      var root := GetInstrument(integrity.market, q.symbol);
      var markable :=
        if q.last.Some? then q.last
        else if q.bid.Some? && q.ask.Some? && Leq(q.bid.value, q.ask.value)
        then Some(Midpoint(q.bid.value, q.ask.value))
        else None;
      if root.Some? && markable.Some? {
        var verdict := integrity.Check(root.value, Number(markable.value), q.exchangeTs, now);
        if verdict != ACCEPT {
          Refuse(verdict);
          return false;
        }
      }
      clocks := clocks[q.symbol := c.(lastQuoteTs := q.exchangeTs)];
      assert clocks == old(clocks)[q.symbol := c.(lastQuoteTs := q.exchangeTs)];
      Record(q.symbol);
      return true;
    }

    method PublishTrade(t: Trade) returns (ok: bool)
      modifies this
      ensures View() == BusStep(integrity.options, integrity.market, old(View()), BusOp.PublishTrade(t))
      ensures ok == Passes(integrity.options, integrity.market, old(View()), BusOp.PublishTrade(t))
    {
      var c := EnsureClock(t.symbol);
      if t.seqNo <= c.lastTradeSeq {
        droppedDuplicate := droppedDuplicate + 1;
        return false;
      }
      if t.exchangeTs < c.lastTradeTs {
        droppedOutOfOrder := droppedOutOfOrder + 1;
        return false;
      }
      clocks := clocks[t.symbol := c.(lastTradeSeq := t.seqNo, lastTradeTs := t.exchangeTs)];
      assert clocks == old(clocks)[t.symbol := c.(lastTradeSeq := t.seqNo, lastTradeTs := t.exchangeTs)];
      Record(t.symbol);
      return true;
    }

    method PublishBar(symbol: string, bar: Bar, now: int) returns (ok: bool)
      modifies this, integrity
      ensures View() == BusStep(integrity.options, integrity.market, old(View()), BusOp.PublishBar(symbol, bar, now))
      ensures ok == Passes(integrity.options, integrity.market, old(View()), BusOp.PublishBar(symbol, bar, now))
    {
      var root := GetInstrument(integrity.market, symbol);
      if root.Some? {
        var verdict := integrity.CheckBar(root.value, bar, now);
        if verdict != ACCEPT {
          Refuse(verdict);
          return false;
        }
      }
      Record(symbol);
      return true;
    }

    method PublishDepth(symbol: string) returns (ok: bool)
      modifies this
      ensures View() == BusStep(integrity.options, integrity.market, old(View()), BusOp.PublishDepth(symbol))
      ensures ok
    {
      Record(symbol);
      return true;
    }

    /** The next sequence number of a symbol's stream. */
    method Advance(symbol: string) returns (n: nat)
      modifies this
      ensures View() == BusStep(integrity.options, integrity.market, old(View()), BusOp.NextSeq(symbol))
      ensures n == ClockOf(old(View()), symbol).seqNo + 1
    {
      var c := EnsureClock(symbol);
      clocks := clocks[symbol := c.(seqNo := c.seqNo + 1)];
      assert clocks == old(clocks)[symbol := c.(seqNo := c.seqNo + 1)];
      n := c.seqNo + 1;
    }

    method Reset(symbol: string)
      modifies this`clocks
      ensures View() == BusStep(integrity.options, integrity.market, old(View()), BusOp.ResetSymbol(symbol))
    {
      clocks := clocks - {symbol};
    }

    method ClearAll()
      modifies this`clocks, integrity
      ensures View() == BusStep(integrity.options, integrity.market, old(View()), BusOp.ResetAll)
    {
      integrity.Clear();
      clocks := map[];
    }
  }
}
