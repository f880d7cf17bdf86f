/** Ordering, replay and conservation on the market event bus, over every run of calls. */
module BusRuns {
  import opened Common
  import opened JsNumber
  import opened PriceGate
  import opened GateRuns
  import opened Bus

  function RunBus(o: Options, m: Market, ops: seq<BusOp>): BusState {
    if ops == [] then IDLE
    else BusStep(o, m, RunBus(o, m, ops[..|ops| - 1]), ops[|ops| - 1])
  }

  /** Quotes of a symbol that listeners saw since its ordering state was last forgotten. */
  function QuotesOut(o: Options, m: Market, ops: seq<BusOp>, symbol: string): seq<Quote> {
    if ops == [] then []
    else
      var n := |ops| - 1;
      var before := QuotesOut(o, m, ops[..n], symbol);
      match ops[n]
      case PublishQuote(q, _) =>
        if q.symbol == symbol && Passes(o, m, RunBus(o, m, ops[..n]), ops[n]) then before + [q] else before
      case ResetSymbol(s) => if s == symbol then [] else before
      case ResetAll => []
      case _ => before
  }

  function TradesOut(o: Options, m: Market, ops: seq<BusOp>, symbol: string): seq<Trade> {
    if ops == [] then []
    else
      var n := |ops| - 1;
      var before := TradesOut(o, m, ops[..n], symbol);
      match ops[n]
      case PublishTrade(t) =>
        if t.symbol == symbol && Passes(o, m, RunBus(o, m, ops[..n]), ops[n]) then before + [t] else before
      case ResetSymbol(s) => if s == symbol then [] else before
      case ResetAll => []
      case _ => before
  }

  /** Strictly later each time, the clock standing on the newest. */
  ghost predicate QuotesOrdered(out: seq<Quote>, c: Clock) {
    && (forall i, j | 0 <= i < j < |out| :: out[i].exchangeTs < out[j].exchangeTs)
    && (forall i | 0 <= i < |out| :: 0 < out[i].exchangeTs)
    && c.lastQuoteTs == if out == [] then 0 else out[|out| - 1].exchangeTs
  }

  /** Strictly rising sequence numbers, never an earlier time, the clock on the newest. */
  ghost predicate TradesOrdered(out: seq<Trade>, c: Clock) {
    && (forall i, j | 0 <= i < j < |out| ::
          out[i].seqNo < out[j].seqNo && out[i].exchangeTs <= out[j].exchangeTs)
    && c.lastTradeSeq == (if out == [] then -1 else out[|out| - 1].seqNo)
    && c.lastTradeTs == (if out == [] then 0 else out[|out| - 1].exchangeTs)
  }

  lemma OneMoreQuote(out: seq<Quote>, c: Clock, q: Quote)
    requires QuotesOrdered(out, c) && q.exchangeTs > c.lastQuoteTs
    ensures QuotesOrdered(out + [q], c.(lastQuoteTs := q.exchangeTs))
  {
  }

  lemma OneMoreTrade(out: seq<Trade>, c: Clock, t: Trade)
    requires TradesOrdered(out, c) && t.seqNo > c.lastTradeSeq && t.exchangeTs >= c.lastTradeTs
    ensures TradesOrdered(out + [t], c.(lastTradeSeq := t.seqNo, lastTradeTs := t.exchangeTs))
  {
  }

  /** What one call does to one symbol's clock. */
  lemma ClockStep(o: Options, m: Market, b: BusState, op: BusOp, symbol: string)
    ensures var c, d := ClockOf(b, symbol), ClockOf(BusStep(o, m, b, op), symbol);
            match op
            case PublishQuote(q, _) =>
              d == if q.symbol == symbol && Passes(o, m, b, op) then c.(lastQuoteTs := q.exchangeTs) else c
            case PublishTrade(t) =>
              d == if t.symbol == symbol && Passes(o, m, b, op)
                   then c.(lastTradeSeq := t.seqNo, lastTradeTs := t.exchangeTs) else c
            case ResetSymbol(s) => d == if s == symbol then NEW_CLOCK else c
            case ResetAll => d == NEW_CLOCK
            case NextSeq(_) => d.(seqNo := c.seqNo) == c
            case _ => d == c
    ensures symbol in b.clocks && op != ResetAll && op != ResetSymbol(symbol)
            ==> symbol in BusStep(o, m, b, op).clocks
    ensures op.PublishQuote? && op.quote.symbol == symbol ==> symbol in BusStep(o, m, b, op).clocks
    ensures op.PublishTrade? && op.trade.symbol == symbol ==> symbol in BusStep(o, m, b, op).clocks
  {
  }

  lemma {:induction false} QuotesInOrder(o: Options, m: Market, ops: seq<BusOp>, symbol: string)
    ensures QuotesOrdered(QuotesOut(o, m, ops, symbol), ClockOf(RunBus(o, m, ops), symbol))
    ensures QuotesOut(o, m, ops, symbol) != [] ==> symbol in RunBus(o, m, ops).clocks
  {
    if ops != [] {
      var n := |ops| - 1;
      QuotesInOrder(o, m, ops[..n], symbol);
      var b, op := RunBus(o, m, ops[..n]), ops[n];
      ClockStep(o, m, b, op, symbol);
      if Passes(o, m, b, op) && op.PublishQuote? && op.quote.symbol == symbol {
        OneMoreQuote(QuotesOut(o, m, ops[..n], symbol), ClockOf(b, symbol), op.quote);
      }
    }
  }

  lemma {:induction false} TradesInOrder(o: Options, m: Market, ops: seq<BusOp>, symbol: string)
    ensures TradesOrdered(TradesOut(o, m, ops, symbol), ClockOf(RunBus(o, m, ops), symbol))
    ensures TradesOut(o, m, ops, symbol) != [] ==> symbol in RunBus(o, m, ops).clocks
  {
    if ops != [] {
      var n := |ops| - 1;
      TradesInOrder(o, m, ops[..n], symbol);
      var b, op := RunBus(o, m, ops[..n]), ops[n];
      ClockStep(o, m, b, op, symbol);
      if Passes(o, m, b, op) && op.PublishTrade? && op.trade.symbol == symbol {
        OneMoreTrade(TradesOut(o, m, ops[..n], symbol), ClockOf(b, symbol), op.trade);
      }
    }
  }

  /** Between resets, listeners see each symbol's quotes and trades in order, once each. */
  lemma {:induction false} PublishedInOrder(o: Options, m: Market, ops: seq<BusOp>, symbol: string)
    ensures QuotesOrdered(QuotesOut(o, m, ops, symbol), ClockOf(RunBus(o, m, ops), symbol))
    ensures TradesOrdered(TradesOut(o, m, ops, symbol), ClockOf(RunBus(o, m, ops), symbol))
    ensures QuotesOut(o, m, ops, symbol) != [] || TradesOut(o, m, ops, symbol) != []
            ==> symbol in RunBus(o, m, ops).clocks
  {
    QuotesInOrder(o, m, ops, symbol);
    TradesInOrder(o, m, ops, symbol);
  }

  /** An offer of something listeners have already seen since the last reset. */
  ghost predicate AlreadySeen(o: Options, m: Market, ops: seq<BusOp>, op: BusOp) {
    match op
    case PublishQuote(q, _) => q in QuotesOut(o, m, ops, q.symbol)
    case PublishTrade(t) => t in TradesOut(o, m, ops, t.symbol)
    case _ => false
  }

  function Dropped(s: Stats): nat {
    s.droppedOutOfOrder + s.droppedDuplicate + s.droppedQuarantined + s.droppedRejected
  }

  lemma SeenOnceIsDropped(o: Options, m: Market, ops: seq<BusOp>, op: BusOp)
    requires AlreadySeen(o, m, ops, op)
    ensures var b, d := RunBus(o, m, ops), BusStep(o, m, RunBus(o, m, ops), op);
            && !Passes(o, m, b, op)
            && d.clocks == b.clocks && d.gate == b.gate
            && d.stats.published == b.stats.published && d.stats.bySymbol == b.stats.bySymbol
            && Dropped(d.stats) == Dropped(b.stats) + 1
  {
    var symbol := if op.PublishQuote? then op.quote.symbol else op.trade.symbol;
    var b := RunBus(o, m, ops);
    PublishedInOrder(o, m, ops, symbol);
    assert b.clocks[symbol := ClockOf(b, symbol)] == b.clocks;
  }

  lemma SeenOnceChangesNoHistory(o: Options, m: Market, ops: seq<BusOp>, op: BusOp, symbol: string)
    requires AlreadySeen(o, m, ops, op)
    ensures QuotesOut(o, m, ops + [op], symbol) == QuotesOut(o, m, ops, symbol)
    ensures TradesOut(o, m, ops + [op], symbol) == TradesOut(o, m, ops, symbol)
    ensures RunBus(o, m, ops + [op]) == BusStep(o, m, RunBus(o, m, ops), op)
  {
    assert (ops + [op])[..|ops|] == ops;
    SeenOnceIsDropped(o, m, ops, op);
  }

  /**
   * Replay is harmless: offering again anything already seen, in any order and any
   * number of times, publishes nothing and moves neither a clock nor the gate.
   */
  lemma {:induction false} ReplayIsIdempotent(o: Options, m: Market, ops: seq<BusOp>, replay: seq<BusOp>)
    requires forall op | op in replay :: AlreadySeen(o, m, ops, op)
    ensures var b, d := RunBus(o, m, ops), RunBus(o, m, ops + replay);
            && d.clocks == b.clocks && d.gate == b.gate
            && d.stats.published == b.stats.published && d.stats.bySymbol == b.stats.bySymbol
            && Dropped(d.stats) == Dropped(b.stats) + |replay|
    decreases |replay|
  {
    if replay == [] {
      assert ops + replay == ops;
    } else {
      var op := replay[0];
      var more := ops + [op];
      SeenOnceIsDropped(o, m, ops, op);
      SeenOnceChangesNoHistory(o, m, ops, op, "");
      forall x | x in replay[1..]
        ensures AlreadySeen(o, m, more, x)
      {
        StillSeen(o, m, ops, op, x);
      }
      hide AlreadySeen, BusStep, RunBus, Dropped;
      ReplayIsIdempotent(o, m, more, replay[1..]);
      assert more + replay[1..] == ops + replay;
    }
  }

  lemma StillSeen(o: Options, m: Market, ops: seq<BusOp>, op: BusOp, x: BusOp)
    requires AlreadySeen(o, m, ops, op) && AlreadySeen(o, m, ops, x)
    ensures AlreadySeen(o, m, ops + [op], x)
  {
    hide QuotesOut, TradesOut;
    match x
    case PublishQuote(q, _) => SeenOnceChangesNoHistory(o, m, ops, op, q.symbol);
    case PublishTrade(t) => SeenOnceChangesNoHistory(o, m, ops, op, t.symbol);
    case _ =>
  }

  // ---------------------------------------------------------------- conservation

  ghost function Total(tally: map<string, nat>): nat
    decreases |tally|
  {
    if tally == map[] then 0
    else
      var k :| k in tally;
      tally[k] + Total(tally - {k})
  }

  /** The sum does not depend on the order the entries are taken in. */
  lemma {:induction false} TotalRemove(tally: map<string, nat>, k: string)
    requires k in tally
    ensures Total(tally) == tally[k] + Total(tally - {k})
    decreases |tally|
  {
    var j :| j in tally && Total(tally) == tally[j] + Total(tally - {j});
    if j != k {
      TotalRemove(tally - {j}, k);
      TotalRemove(tally - {k}, j);
      assert tally - {j} - {k} == tally - {k} - {j};
    }
  }

  lemma TotalIncrement(tally: map<string, nat>, k: string)
    ensures Total(tally[k := (if k in tally then tally[k] else 0) + 1]) == Total(tally) + 1
  {
    var more := tally[k := (if k in tally then tally[k] else 0) + 1];
    TotalRemove(more, k);
    assert more - {k} == tally - {k};
    if k in tally {
      TotalRemove(tally, k);
    } else {
      assert tally - {k} == tally;
    }
  }

  predicate IsOffer(op: BusOp) {
    op.PublishQuote? || op.PublishTrade? || op.PublishBar? || op.PublishDepth?
  }

  function Offers(ops: seq<BusOp>): nat {
    if ops == [] then 0
    else Offers(ops[..|ops| - 1]) + if IsOffer(ops[|ops| - 1]) then 1 else 0
  }

  function Passed(o: Options, m: Market, ops: seq<BusOp>): nat {
    if ops == [] then 0
    else
      var n := |ops| - 1;
      Passed(o, m, ops[..n]) + if Passes(o, m, RunBus(o, m, ops[..n]), ops[n]) then 1 else 0
  }

  lemma StatsStep(o: Options, m: Market, b: BusState, op: BusOp)
    ensures var d := BusStep(o, m, b, op);
            && d.stats.published == b.stats.published + (if Passes(o, m, b, op) then 1 else 0)
            && Dropped(d.stats) == Dropped(b.stats) + (if IsOffer(op) && !Passes(o, m, b, op) then 1 else 0)
            && (Passes(o, m, b, op) ==> exists k :: d.stats == Counted(b.stats, k))
            && (!Passes(o, m, b, op) ==> d.stats.bySymbol == b.stats.bySymbol)
  {
    if Passes(o, m, b, op) {
      var k := match op
        case PublishQuote(q, _) => q.symbol
        case PublishTrade(t) => t.symbol
        case PublishBar(symbol, _, _) => symbol
        case PublishDepth(symbol) => symbol
        case _ => "";
      assert BusStep(o, m, b, op).stats == Counted(b.stats, k);
    }
  }

  /**
   * Over every run, each offer is counted exactly once, as published or as one kind
   * of drop, and the per-symbol counts add up to what was published.
   */
  lemma {:induction false} OffersAreConserved(o: Options, m: Market, ops: seq<BusOp>)
    ensures var s := RunBus(o, m, ops).stats;
            && s.published == Passed(o, m, ops)
            && s.published + Dropped(s) == Offers(ops)
            && s.published == Total(s.bySymbol)
  {
    if ops != [] {
      var n := |ops| - 1;
      var b := RunBus(o, m, ops[..n]);
      OffersAreConserved(o, m, ops[..n]);
      StatsStep(o, m, b, ops[n]);
      if Passes(o, m, b, ops[n]) {
        var k :| RunBus(o, m, ops).stats == Counted(b.stats, k);
        TotalIncrement(b.stats.bySymbol, k);
      }
    }
  }

  // ---------------------------------------------------------------- what the gate was asked

  function Question(m: Market, b: BusState, op: BusOp): Option<GateEvent> {
    match op
    case PublishQuote(q, now) =>
      if q.exchangeTs > ClockOf(b, q.symbol).lastQuoteTs then GateQuestion(m, q, now) else None
    case PublishBar(symbol, bar, now) => BarQuestion(m, symbol, bar, now)
    case _ => None
  }

  /** Everything put to the gate since it was last cleared. */
  function Questions(o: Options, m: Market, ops: seq<BusOp>): seq<GateEvent> {
    if ops == [] then []
    else
      var n := |ops| - 1;
      if ops[n] == ResetAll then []
      else
        var question := Question(m, RunBus(o, m, ops[..n]), ops[n]);
        Questions(o, m, ops[..n]) + if question.Some? then [question.value] else []
  }

  lemma GateStep(o: Options, m: Market, b: BusState, op: BusOp)
    requires op != ResetAll
    ensures BusStep(o, m, b, op).gate == Asked(o, m, b.gate, Question(m, b, op))
    ensures Passes(o, m, b, op) ==> Answer(o, m, b.gate, Question(m, b, op)) == ACCEPT
    ensures op.PublishQuote? && Passes(o, m, b, op) ==> Question(m, b, op) == GateQuestion(m, op.quote, op.now)
  {
  }

  /** The gate inside the bus has seen exactly the questions put to it, in order. */
  lemma {:induction false} GateSeesQuestions(o: Options, m: Market, ops: seq<BusOp>)
    ensures RunBus(o, m, ops).gate == RunGate(o, m, Questions(o, m, ops))
  {
    if ops != [] {
      var n := |ops| - 1;
      GateSeesQuestions(o, m, ops[..n]);
      if ops[n] != ResetAll {
        var b := RunBus(o, m, ops[..n]);
        GateStep(o, m, b, ops[n]);
        var question := Question(m, b, ops[n]);
        var asked := Questions(o, m, ops[..n]);
        if question.Some? {
          assert (asked + [question.value])[..|asked|] == asked;
        } else {
          assert asked + [] == asked;
        }
      }
    }
  }

  /** Somewhere in the questions, this quote's mark was put to the gate and accepted. */
  ghost predicate GateAccepted(o: Options, m: Market, evs: seq<GateEvent>, q: Quote, root: string) {
    Mark(q).Some?
    && exists i: nat ::
         i < |evs| && VerdictOf(Rulings(o, m, evs)[i]) == ACCEPT
         && exists now: int :: evs[i] == PriceEvent(root, Number(Mark(q).value), q.exchangeTs, now)
  }

  lemma AcceptedStays(o: Options, m: Market, evs: seq<GateEvent>, more: seq<GateEvent>, q: Quote, root: string)
    requires GateAccepted(o, m, evs, q, root)
    ensures GateAccepted(o, m, evs + more, q, root)
  {
    var i: nat :| i < |evs| && VerdictOf(Rulings(o, m, evs)[i]) == ACCEPT
      && exists now: int :: evs[i] == PriceEvent(root, Number(Mark(q).value), q.exchangeTs, now);
    RulingsPrefix(o, m, evs + more, |evs|);
    assert (evs + more)[..|evs|] == evs;
    assert Rulings(o, m, evs + more)[i] == Rulings(o, m, evs)[i];
    assert (evs + more)[i] == evs[i];
  }

  /** Nothing that would mark a listed position is published without the gate's accept. */
  lemma {:induction false} MarksWereAccepted(o: Options, m: Market, ops: seq<BusOp>, symbol: string)
    ensures forall q | q in QuotesOut(o, m, ops, symbol) ::
              q.symbol == symbol
              && (ToUpper(symbol) in m.listed && Mark(q).Some?
                  ==> GateAccepted(o, m, Questions(o, m, ops), q, ToUpper(symbol)))
  {
    if ops == [] { return; }
    var n := |ops| - 1;
    var b := RunBus(o, m, ops[..n]);
    MarksWereAccepted(o, m, ops[..n], symbol);
    if ops[n] == ResetAll { return; }
    var question := Question(m, b, ops[n]);
    var asked := Questions(o, m, ops[..n]);
    forall q | q in QuotesOut(o, m, ops, symbol)
      ensures q.symbol == symbol
      ensures ToUpper(symbol) in m.listed && Mark(q).Some?
              ==> GateAccepted(o, m, Questions(o, m, ops), q, ToUpper(symbol))
    {
      if q in QuotesOut(o, m, ops[..n], symbol) {
        if ToUpper(symbol) in m.listed && Mark(q).Some? {
          AcceptedStays(o, m, asked, if question.Some? then [question.value] else [], q, ToUpper(symbol));
        }
      } else {
        assert ops[n].PublishQuote? && ops[n].quote == q && Passes(o, m, b, ops[n]);
        if ToUpper(symbol) in m.listed && Mark(q).Some? {
          NewlyAccepted(o, m, ops, q, symbol);
        }
      }
    }
  }

  lemma NewlyAccepted(o: Options, m: Market, ops: seq<BusOp>, q: Quote, symbol: string)
    requires ops != [] && ops[|ops| - 1].PublishQuote? && ops[|ops| - 1].quote == q && q.symbol == symbol
    requires Passes(o, m, RunBus(o, m, ops[..|ops| - 1]), ops[|ops| - 1])
    requires ToUpper(symbol) in m.listed && Mark(q).Some?
    ensures GateAccepted(o, m, Questions(o, m, ops), q, ToUpper(symbol))
  {
    var n := |ops| - 1;
    var b := RunBus(o, m, ops[..n]);
    GateStep(o, m, b, ops[n]);
    GateSeesQuestions(o, m, ops[..n]);
    var asked := Questions(o, m, ops[..n]);
    var ev := PriceEvent(ToUpper(symbol), Number(Mark(q).value), q.exchangeTs, ops[n].now);
    var evs := Questions(o, m, ops);
    assert evs == asked + [ev];
    RulingsAt(o, m, evs, |asked|);
    assert evs[..|asked|] == asked;
    assert VerdictOf(Rulings(o, m, evs)[|asked|]) == ACCEPT;
    assert evs[|asked|] == ev;
  }
}
