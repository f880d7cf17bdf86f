/**
 * The market data service: provider events in, marks out. One service step is one
 * provider event or one replacement of the provider.
 */
module MarketService {
  import opened Common
  import opened JsNumber
  import opened PriceGate
  import opened GateRuns
  import opened Bus
  import opened BusRuns
  import opened QuoteStore

  datatype FeedMode = DELAYED | REALTIME | REPLAY

  datatype MarketEvent =
    | QuoteEvent(quote: Quote)
    | TradeEvent(trade: Trade)
    | BarArrived(symbol: string, bar: Bar)
    | DepthEvent(symbol: string)
    | StatusEvent(mode: FeedMode, declaredDelaySeconds: int)

  datatype ServiceOp = Arrives(event: MarketEvent, now: int) | SwitchProvider(mode: FeedMode)

  datatype ServiceState = ServiceState(bus: BusState, store: StoreState)

  const STOPPED := ServiceState(IDLE, NOTHING)

  /** The bus call an event makes; a status touches neither clocks nor gate. */
  function BusCall(event: MarketEvent, now: int): Option<BusOp> {
    match event
    case QuoteEvent(q) => Some(PublishQuote(q, now))
    case TradeEvent(t) => Some(PublishTrade(t))
    case BarArrived(symbol, bar) => Some(PublishBar(symbol, bar, now))
    case DepthEvent(symbol) => Some(PublishDepth(symbol))
    case StatusEvent(_, _) => None
  }

  /** The store takes a quote or a trade only when the bus let it through. */
  function ServiceStep(o: Options, m: Market, s: ServiceState, op: ServiceOp): ServiceState {
    match op
    case SwitchProvider(_) => ServiceState(BusStep(o, m, s.bus, ResetAll), NOTHING)
    case Arrives(event, now) =>
      var call := BusCall(event, now);
      if call.None? then s
      else
        var through := Passes(o, m, s.bus, call.value);
        ServiceState(
          BusStep(o, m, s.bus, call.value),
          if through && event.QuoteEvent? then WithQuote(s.store, event.quote, now)
          else if through && event.TradeEvent? then WithTrade(s.store, event.trade, now)
          else s.store)
  }

  function DelayFor(mode: FeedMode): int {
    if mode == DELAYED then 600_000 else 0
  }

  class MarketDataService {
    const bus: MarketEventBus
    const quotes: Store
    var subscriberCounts: map<string, nat>
    /** The symbols the running provider is following for us. */
    var followed: set<string>

    ghost function View(): ServiceState
      reads this, bus, bus.integrity, quotes
    {
      ServiceState(bus.View(), quotes.View())
    }

    /** What is followed is what is counted: listed roots, each at least once. */
    ghost predicate Subscribed()
      reads this
    {
      && followed == subscriberCounts.Keys
      && forall k | k in subscriberCounts ::
           subscriberCounts[k] >= 1 && k in bus.integrity.market.listed && ToUpper(k) == k
    }

    constructor (options: Options, market: Market, mode: FeedMode)
      ensures View() == STOPPED && Subscribed() && followed == {}
      ensures fresh(bus) && fresh(bus.integrity) && fresh(quotes)
      ensures bus.integrity.options == options && bus.integrity.market == market
      ensures quotes.expectedDelayMs == if mode == DELAYED then 600_000 else 0
    {
      bus := new MarketEventBus(options, market);
      quotes := new Store(DelayFor(mode));
      subscriberCounts, followed := map[], {};
    }

    /** The handler `attach` installs on the provider. */
    method Receive(event: MarketEvent, now: int)
      modifies bus, bus.integrity, quotes
      ensures View() == ServiceStep(bus.integrity.options, bus.integrity.market, old(View()), Arrives(event, now))
      ensures quotes.expectedDelayMs
              == if event.StatusEvent? && event.mode == DELAYED then event.declaredDelaySeconds * 1000
                 else old(quotes.expectedDelayMs)
    {
      match event
      case QuoteEvent(q) =>
        var ok := bus.PublishQuote(q, now);
        if !ok { return; }
        quotes.PutQuote(q, now);
      case TradeEvent(t) =>
        var ok := bus.PublishTrade(t);
        if !ok { return; }
        quotes.PutTrade(t, now);
      case BarArrived(symbol, bar) =>
        var _ := bus.PublishBar(symbol, bar, now);
      case DepthEvent(symbol) =>
        var _ := bus.PublishDepth(symbol);
      case StatusEvent(mode, declared) =>
        if mode == DELAYED {
          quotes.expectedDelayMs := declared * 1000;
        }
    }

    /** False when the symbol is not listed, where the server throws. */
    method Subscribe(symbol: string) returns (known: bool)
      requires Subscribed()
      modifies this
      ensures Subscribed()
      ensures known == (ToUpper(symbol) in bus.integrity.market.listed)
      ensures !known ==> subscriberCounts == old(subscriberCounts)
      ensures known ==>
                var root := ToUpper(symbol);
                subscriberCounts == old(subscriberCounts)[
                  root := if root in old(subscriberCounts) then old(subscriberCounts)[root] + 1 else 1]
    {
      var root := ToUpper(symbol);
      if root !in bus.integrity.market.listed { return false; }
      ToUpperIdempotent(symbol);
      var count := if root in subscriberCounts then subscriberCounts[root] else 0;
      subscriberCounts := subscriberCounts[root := count + 1];
      if count == 0 {
        followed := followed + {root};
      }
      return true;
    }

    method Unsubscribe(symbol: string)
      requires Subscribed()
      modifies this
      ensures Subscribed()
      ensures var root := ToUpper(symbol);
              subscriberCounts == OneFewer(old(subscriberCounts), root)
      ensures var root := ToUpper(symbol);
              if root in old(subscriberCounts) && old(subscriberCounts)[root] > 1
              then subscriberCounts == old(subscriberCounts)[root := old(subscriberCounts)[root] - 1]
              else root !in subscriberCounts && subscriberCounts == old(subscriberCounts) - {root}
    {
      var root := ToUpper(symbol);
      var count := if root in subscriberCounts then subscriberCounts[root] else 0;
      if count <= 1 {
        subscriberCounts := subscriberCounts - {root};
        followed := followed - {root};
      } else {
        subscriberCounts := subscriberCounts[root := count - 1];
      }
    }

    /** Replace the provider: everything learned is dropped, every symbol followed again. */
    method Switch(mode: FeedMode)
      requires Subscribed()
      modifies this, bus, bus.integrity, quotes
      ensures View() == ServiceStep(bus.integrity.options, bus.integrity.market, old(View()), SwitchProvider(mode))
      ensures quotes.expectedDelayMs == if mode == DELAYED then 600_000 else 0
      ensures Subscribed() && followed == old(followed)
      ensures subscriberCounts == Rebuilt(old(subscriberCounts))
      ensures subscriberCounts.Keys == old(subscriberCounts).Keys && forall k | k in subscriberCounts :: subscriberCounts[k] == 1
    {
      var symbols := subscriberCounts.Keys;
      followed := {};
      quotes.Clear();
      bus.ClearAll();
      subscriberCounts := map[];
      quotes.expectedDelayMs := DelayFor(mode);
      FollowAll(symbols);
    }

    method FollowAll(symbols: set<string>)
      requires Subscribed() && followed == {} && symbols <= bus.integrity.market.listed
      requires forall k | k in symbols :: ToUpper(k) == k
      modifies this
      ensures Subscribed() && subscriberCounts == map k | k in symbols :: 1
    {
      var left := symbols;
      while left != {}
        invariant left <= symbols
        invariant Subscribed()
        invariant subscriberCounts == map k | k in symbols - left :: 1
        decreases left
      {
        var symbol :| symbol in left;
        left := left - {symbol};
        var _ := Subscribe(symbol);
      }
    }

    method MarkPrice(symbol: string) returns (mark: Option<Num>)
      ensures mark == MarkIn(View().store, ToUpper(symbol))
      ensures var root := ToUpper(symbol);
              if root in quotes.quotes then IsMark(quotes.quotes[root], mark) else mark == None
    {
      mark := quotes.MarkPrice(ToUpper(symbol));
    }
  }

  function CountOf(counts: map<string, nat>, root: string): nat {
    if root in counts then counts[root] else 0
  }

  function OneFewer(counts: map<string, nat>, root: string): map<string, nat> {
    if CountOf(counts, root) <= 1 then counts - {root} else counts[root := counts[root] - 1]
  }

  /** What a provider switch makes of the reference counts: one per symbol. */
  function Rebuilt(counts: map<string, nat>): map<string, nat> {
    map k | k in counts :: 1
  }

  /**
   * A switch keeps every subscription only where one subscriber held it: after it,
   * the first of several subscribers to leave takes the symbol away from the rest.
   */
  lemma SwitchKeepsSubscribersIffOne(counts: map<string, nat>, root: string)
    requires root in counts && counts[root] >= 1
    ensures (root in OneFewer(Rebuilt(counts), root) <==> root in OneFewer(counts, root))
            <==> counts[root] == 1
  {
    assert CountOf(Rebuilt(counts), root) == 1;
  }

  // ---------------------------------------------------------------- mark safety

  function RunService(o: Options, m: Market, ops: seq<ServiceOp>): ServiceState {
    if ops == [] then STOPPED
    else ServiceStep(o, m, RunService(o, m, ops[..|ops| - 1]), ops[|ops| - 1])
  }

  /** The bus calls a service run makes. */
  function BusOps(ops: seq<ServiceOp>): seq<BusOp> {
    if ops == [] then []
    else
      var before := BusOps(ops[..|ops| - 1]);
      match ops[|ops| - 1]
      case SwitchProvider(_) => before + [ResetAll]
      case Arrives(event, now) =>
        var call := BusCall(event, now);
        if call.Some? then before + [call.value] else before
  }

  function LastQuote(o: Options, m: Market, ops: seq<ServiceOp>, symbol: string): Option<Quote> {
    var out := QuotesOut(o, m, BusOps(ops), symbol);
    if out == [] then None else Some(out[|out| - 1])
  }

  lemma {:induction false} BusIsDriven(o: Options, m: Market, ops: seq<ServiceOp>)
    ensures RunService(o, m, ops).bus == RunBus(o, m, BusOps(ops))
  {
    if ops != [] {
      var n := |ops| - 1;
      BusIsDriven(o, m, ops[..n]);
      var before, after := BusOps(ops[..n]), BusOps(ops);
      if after != before {
        assert after[..|before|] == before;
      }
    }
  }

  /** One more bus call extends a symbol's published quotes by at most one. */
  lemma QuotesOutNext(o: Options, m: Market, calls: seq<BusOp>, call: BusOp, symbol: string)
    requires !call.ResetSymbol?
    ensures var out := QuotesOut(o, m, calls, symbol);
            QuotesOut(o, m, calls + [call], symbol)
            == if call == ResetAll then []
               else if call.PublishQuote? && call.quote.symbol == symbol && Passes(o, m, RunBus(o, m, calls), call)
               then out + [call.quote]
               else out
  {
    assert (calls + [call])[..|calls|] == calls;
  }

  /** What one service step does to the stored quotes. */
  lemma StoredQuotes(o: Options, m: Market, s: ServiceState, op: ServiceOp)
    ensures var quotes := ServiceStep(o, m, s, op).store.quotes;
            match op
            case SwitchProvider(_) => quotes == map[]
            case Arrives(QuoteEvent(q), now) =>
              quotes == if Passes(o, m, s.bus, PublishQuote(q, now)) then s.store.quotes[q.symbol := q]
                        else s.store.quotes
            case _ => quotes == s.store.quotes
  {
  }

  ghost predicate Holds(quotes: map<string, Quote>, out: seq<Quote>, symbol: string) {
    if out == [] then symbol !in quotes
    else symbol in quotes && quotes[symbol] == out[|out| - 1]
  }

  /** The store holds the newest quote published since the provider last changed. */
  lemma {:induction false} StoreHoldsLastPublished(o: Options, m: Market, ops: seq<ServiceOp>, symbol: string)
    ensures Holds(RunService(o, m, ops).store.quotes, QuotesOut(o, m, BusOps(ops), symbol), symbol)
  {
    if ops != [] {
      var n := |ops| - 1;
      var s, calls := RunService(o, m, ops[..n]), BusOps(ops[..n]);
      StoreHoldsLastPublished(o, m, ops[..n], symbol);
      BusIsDriven(o, m, ops[..n]);
      HeldNext(o, m, s, calls, ops[n], symbol);
      BusOpsNext(ops);
    }
  }

  /** The bus calls of one more service step. */
  function NewCalls(op: ServiceOp): seq<BusOp> {
    match op
    case SwitchProvider(_) => [ResetAll]
    case Arrives(event, now) => if BusCall(event, now).Some? then [BusCall(event, now).value] else []
  }

  lemma BusOpsNext(ops: seq<ServiceOp>)
    requires ops != []
    ensures BusOps(ops) == BusOps(ops[..|ops| - 1]) + NewCalls(ops[|ops| - 1])
  {
  }

  lemma HeldNext(o: Options, m: Market, s: ServiceState, calls: seq<BusOp>, op: ServiceOp, symbol: string)
    requires s.bus == RunBus(o, m, calls) && Holds(s.store.quotes, QuotesOut(o, m, calls, symbol), symbol)
    ensures Holds(ServiceStep(o, m, s, op).store.quotes, QuotesOut(o, m, calls + NewCalls(op), symbol), symbol)
  {
    StoredQuotes(o, m, s, op);
    if NewCalls(op) == [] {
      assert calls + NewCalls(op) == calls;
    } else {
      QuotesOutNext(o, m, calls, NewCalls(op)[0], symbol);
    }
  }

  /** What one service step does to the stored trades. */
  lemma StoredTrades(o: Options, m: Market, s: ServiceState, op: ServiceOp)
    ensures var trades := ServiceStep(o, m, s, op).store.trades;
            match op
            case SwitchProvider(_) => trades == map[]
            case Arrives(TradeEvent(t), now) =>
              trades == if Passes(o, m, s.bus, PublishTrade(t)) then WithTrade(s.store, t, now).trades else s.store.trades
            case _ => trades == s.store.trades
  {
  }

  lemma TradesOutNext(o: Options, m: Market, calls: seq<BusOp>, call: BusOp, symbol: string)
    requires !call.ResetSymbol?
    ensures var out := TradesOut(o, m, calls, symbol);
            TradesOut(o, m, calls + [call], symbol)
            == if call == ResetAll then []
               else if call.PublishTrade? && call.trade.symbol == symbol && Passes(o, m, RunBus(o, m, calls), call)
               then out + [call.trade]
               else out
  {
    assert (calls + [call])[..|calls|] == calls;
  }

  /** A symbol's buffer of trades, empty before the first. */
  function Buffered(trades: map<string, seq<Trade>>, symbol: string): seq<Trade> {
    if symbol in trades then trades[symbol] else []
  }

  lemma BufferNext(o: Options, m: Market, s: ServiceState, calls: seq<BusOp>, op: ServiceOp, symbol: string)
    requires s.bus == RunBus(o, m, calls)
    requires Buffered(s.store.trades, symbol) == Newest(TradesOut(o, m, calls, symbol), TRADE_BUFFER)
    ensures Buffered(ServiceStep(o, m, s, op).store.trades, symbol)
            == Newest(TradesOut(o, m, calls + NewCalls(op), symbol), TRADE_BUFFER)
  {
    StoredTrades(o, m, s, op);
    if NewCalls(op) == [] {
      assert calls + NewCalls(op) == calls;
    } else {
      TradesOutNext(o, m, calls, NewCalls(op)[0], symbol);
      if op.Arrives? && op.event.TradeEvent? {
        PushKeepsNewest(TradesOut(o, m, calls, symbol), op.event.trade, TRADE_BUFFER);
      }
    }
  }

  /** The store keeps the newest 500 trades published since the provider last changed, in order. */
  lemma {:induction false} StoreHoldsNewestTrades(o: Options, m: Market, ops: seq<ServiceOp>, symbol: string)
    ensures Buffered(RunService(o, m, ops).store.trades, symbol)
            == Newest(TradesOut(o, m, BusOps(ops), symbol), TRADE_BUFFER)
  {
    if ops != [] {
      var n := |ops| - 1;
      StoreHoldsNewestTrades(o, m, ops[..n], symbol);
      BusIsDriven(o, m, ops[..n]);
      BufferNext(o, m, RunService(o, m, ops[..n]), BusOps(ops[..n]), ops[n], symbol);
      BusOpsNext(ops);
    }
  }

  /** This price was accepted in this gate history as this quote's, at its time, and history stands behind it. */
  ghost predicate Corroborated(o: Options, m: Market, evs: seq<GateEvent>, root: string, q: Quote, price: Num) {
    exists i: nat ::
      && i < |evs|
      && evs[i].PriceEvent? && evs[i].root == root && evs[i].ts == q.exchangeTs && evs[i].price == Number(price)
      && VerdictOf(Rulings(o, m, evs)[i]) == ACCEPT
      && Believable(m, root, evs[i].price)
      && Witnessed(o, m, evs, Rulings(o, m, evs), i)
  }

  /**
   * Mark safety. After any sequence of provider events and provider switches, the
   * mark is that of the newest quote published since the last switch: its last trade,
   * else the middle of its uncrossed book, else none. For a listed instrument it is a
   * finite price the gate accepted since then as that quote's, with a first price, an
   * anchor or a waiting price in its own history behind it.
   */
  lemma MarkSafety(o: Options, m: Market, ops: seq<ServiceOp>, symbol: string)
    ensures var root := ToUpper(symbol);
            var mark := MarkIn(RunService(o, m, ops).store, root);
            var last := LastQuote(o, m, ops, root);
            && (if last.None? then mark == None else IsMark(last.value, mark))
            && (mark.Some? && root in m.listed
                ==> mark.value.Fin? && Corroborated(o, m, Questions(o, m, BusOps(ops)), root, last.value, mark.value))
  {
    var root := ToUpper(symbol);
    ToUpperIdempotent(symbol);
    StoreHoldsLastPublished(o, m, ops, root);
    var mark, last := MarkIn(RunService(o, m, ops).store, root), LastQuote(o, m, ops, root);
    if last.Some? { MarkIs(last.value); }
    if mark.Some? && root in m.listed {
      MarksWereAccepted(o, m, BusOps(ops), root);
      AcceptedMarkIsCorroborated(o, m, Questions(o, m, BusOps(ops)), last.value, root);
    }
  }

  /** What each event of the provider does: which bus call it is, and what reaches the store. */
  lemma EventOutcome(o: Options, m: Market, s: ServiceState, event: MarketEvent, now: int)
    ensures var t := ServiceStep(o, m, s, Arrives(event, now));
            match event
            case QuoteEvent(q) =>
              && t.bus == BusStep(o, m, s.bus, PublishQuote(q, now))
              && t.store == if !Passes(o, m, s.bus, PublishQuote(q, now)) then s.store else
                            s.store.(quotes := s.store.quotes[q.symbol := q], receivedAt := s.store.receivedAt[q.symbol := now])
            case TradeEvent(tr) =>
              && t.bus == BusStep(o, m, s.bus, PublishTrade(tr))
              && t.store.quotes == s.store.quotes
              && t.store.receivedAt == if Passes(o, m, s.bus, PublishTrade(tr)) then s.store.receivedAt[tr.symbol := now]
                                       else s.store.receivedAt
            case BarArrived(symbol, bar) =>
              t.bus == BusStep(o, m, s.bus, PublishBar(symbol, bar, now)) && t.store == s.store
            case DepthEvent(symbol) => t.bus == BusStep(o, m, s.bus, PublishDepth(symbol)) && t.store == s.store
            case StatusEvent(_, _) => t == s
    ensures ServiceStep(o, m, s, SwitchProvider(DELAYED)).store == NOTHING
  {
  }

  lemma AcceptedMarkIsCorroborated(o: Options, m: Market, evs: seq<GateEvent>, q: Quote, root: string)
    requires GateAccepted(o, m, evs, q, root)
    ensures Mark(q).value.Fin? && Corroborated(o, m, evs, root, q, Mark(q).value)
  {
    var i: nat :| i < |evs| && VerdictOf(Rulings(o, m, evs)[i]) == ACCEPT
      && exists now: int :: evs[i] == PriceEvent(root, Number(Mark(q).value), q.exchangeTs, now);
    AcceptedIffWitnessed(o, m, evs, i);
    assert Believable(m, root, evs[i].price);
  }
}
