/** The quote store: the newest quote of each symbol, and the price positions are marked at. */
module QuoteStore {
  import opened Common
  import opened JsNumber
  import opened Bus

  const TRADE_BUFFER: nat := 500

  datatype StoreState = StoreState(
    quotes: map<string, Quote>, receivedAt: map<string, int>, trades: map<string, seq<Trade>>)

  const NOTHING := StoreState(map[], map[], map[])

  function WithQuote(s: StoreState, q: Quote, now: int): StoreState {
    s.(quotes := s.quotes[q.symbol := q], receivedAt := s.receivedAt[q.symbol := now])
  }

  function WithTrade(s: StoreState, t: Trade, now: int): StoreState {
    var buffer := if t.symbol in s.trades then s.trades[t.symbol] else [];
    s.(trades := s.trades[t.symbol := PushBounded(buffer, t, TRADE_BUFFER)],
       receivedAt := s.receivedAt[t.symbol := now])
  }

  /** The price a stored quote marks a position at, if it marks it at all. */
  function MarkIn(s: StoreState, symbol: string): Option<Num> {
    if symbol !in s.quotes then None else Mark(s.quotes[symbol])
  }

  class Store {
    var quotes: map<string, Quote>
    var receivedAt: map<string, int>
    var trades: map<string, seq<Trade>>
    var expectedDelayMs: int

    ghost function View(): StoreState
      reads this
    {
      StoreState(quotes, receivedAt, trades)
    }

    constructor (expectedDelayMs: int)
      ensures View() == NOTHING && this.expectedDelayMs == expectedDelayMs
    {
      quotes, receivedAt, trades := map[], map[], map[];
      this.expectedDelayMs := expectedDelayMs;
    }

    method PutQuote(q: Quote, now: int)
      modifies this`quotes, this`receivedAt
      ensures View() == WithQuote(old(View()), q, now)
      ensures quotes == old(quotes)[q.symbol := q] && receivedAt == old(receivedAt)[q.symbol := now]
    {
      quotes := quotes[q.symbol := q];
      receivedAt := receivedAt[q.symbol := now];
    }

    method PutTrade(t: Trade, now: int)
      modifies this`trades, this`receivedAt
      ensures View() == WithTrade(old(View()), t, now)
      ensures receivedAt == old(receivedAt)[t.symbol := now]
      ensures t.symbol in trades && trades == old(trades)[t.symbol := trades[t.symbol]]
      ensures var all := (if t.symbol in old(trades) then old(trades)[t.symbol] else []) + [t];
              trades[t.symbol] == if |all| > 500 then all[|all| - 500..] else all
    {
      if t.symbol !in trades {
        trades := trades[t.symbol := []];
      }
      var buffer := trades[t.symbol] + [t];
      if |buffer| > TRADE_BUFFER {
        buffer := buffer[|buffer| - TRADE_BUFFER..];
      }
      trades := trades[t.symbol := buffer];
      receivedAt := receivedAt[t.symbol := now];
      assert trades == WithTrade(old(View()), t, now).trades;
    }

    method MarkPrice(symbol: string) returns (mark: Option<Num>)
      ensures mark == MarkIn(View(), symbol)
      ensures if symbol in quotes then IsMark(quotes[symbol], mark) else mark == None
    {
      if symbol in quotes { MarkIs(quotes[symbol]); }
      if symbol !in quotes { return None; }
      var q := quotes[symbol];
      if q.last != None { return q.last; }
      if q.bid != None && q.ask != None && Leq(q.bid.value, q.ask.value) {
        return Some(Midpoint(q.bid.value, q.ask.value));
      }
      return None;
    }

    method Clear()
      modifies this`quotes, this`receivedAt, this`trades
      ensures View() == NOTHING
    {
      quotes, trades, receivedAt := map[], map[], map[];
    }
  }
}
