/**
 * The cache of closed bars: prices stored as ticks, chunked upserts, and pages read
 * backwards from a cursor. The database table is a map; one statement is one step.
 */
module BarCache {
  import opened Common
  import opened Ticks
  import opened Normalize

  datatype Key = Key(symbol: string, timeframe: string, time: int)
  datatype Row = Row(open: int, high: int, low: int, close: int, volume: int, provider: string)
  datatype Entry = Entry(key: Key, row: Row)

  type Table = map<Key, Row>

  const CHUNK: nat := 500
  const DEFAULT_LIMIT: nat := 1500
  const MAX_LIMIT: nat := 20000
  const MAX_SAFE_INTEGER: int := 0x1F_FFFF_FFFF_FFFF

  // ---------------------------------------------------------------- the upsert

  /** A conflicting row is revised in place and keeps the provider that first wrote it. */
  function Put(table: Table, e: Entry): Table {
    table[e.key := if e.key in table then e.row.(provider := table[e.key].provider) else e.row]
  }

  function PutAll(table: Table, entries: seq<Entry>): Table {
    if entries == [] then table else Put(PutAll(table, entries[..|entries| - 1]), entries[|entries| - 1])
  }

  predicate DistinctKeys(entries: seq<Entry>) {
    forall i, j | 0 <= i < j < |entries| :: entries[i].key != entries[j].key
  }

  datatype Outcome = Outcome(table: Table, completed: bool)

  /** One statement per chunk; a chunk that names a bucket twice is refused and ends the run. */
  function Chunked(table: Table, entries: seq<Entry>, size: nat): Outcome
    requires size > 0
    decreases |entries|
  {
    if entries == [] then Outcome(table, true)
    else
      var n := if |entries| < size then |entries| else size;
      if !DistinctKeys(entries[..n]) then Outcome(table, false)
      else Chunked(PutAll(table, entries[..n]), entries[n..], size)
  }

  /** The chunk from `i` to `end` is what a run over the rest does first. */
  lemma NextChunk(table: Table, rows: seq<Entry>, i: nat, end: nat)
    requires i < |rows| && end == if i + CHUNK < |rows| then i + CHUNK else |rows|
    ensures Chunked(table, rows[i..], CHUNK)
            == if DistinctKeys(rows[i..end]) then Chunked(PutAll(table, rows[i..end]), rows[end..], CHUNK)
               else Outcome(table, false)
  {
    assert rows[i..][..end - i] == rows[i..end] && rows[i..][end - i..] == rows[end..];
  }

  lemma {:induction false} PutAllAppends(table: Table, a: seq<Entry>, b: seq<Entry>)
    ensures PutAll(PutAll(table, a), b) == PutAll(table, a + b)
    decreases |b|
  {
    if b == [] {
      assert a + b == a;
    } else {
      var init := b[..|b| - 1];
      PutAllAppends(table, a, init);
      assert (a + b)[..|a + b| - 1] == a + init;
    }
  }

  /** Whenever a chunked run completes, it did what one statement would have done. */
  lemma {:induction false} ChunkingIsInvisible(table: Table, entries: seq<Entry>, size: nat)
    requires size > 0 && Chunked(table, entries, size).completed
    ensures Chunked(table, entries, size).table == PutAll(table, entries)
    decreases |entries|
  {
    if entries != [] {
      var n := if |entries| < size then |entries| else size;
      ChunkingIsInvisible(PutAll(table, entries[..n]), entries[n..], size);
      PutAllAppends(table, entries[..n], entries[n..]);
      assert entries[..n] + entries[n..] == entries;
    }
  }

  /** Two entries of the same chunk name the same bucket. */
  predicate Clash(entries: seq<Entry>, size: nat, i: nat, j: nat)
    requires size > 0
  {
    i < j < |entries| && i / size == j / size && entries[i].key == entries[j].key
  }

  /** A run completes exactly when no chunk names a bucket twice. */
  lemma {:induction false} CompletesIffNoClash(table: Table, entries: seq<Entry>, size: nat)
    requires size > 0
    ensures Chunked(table, entries, size).completed <==> forall i: nat, j: nat :: !Clash(entries, size, i, j)
    decreases |entries|
  {
    if entries != [] {
      var n := if |entries| < size then |entries| else size;
      var rest := entries[n..];
      FirstChunk(entries, size, n);
      if DistinctKeys(entries[..n]) {
        CompletesIffNoClash(PutAll(table, entries[..n]), rest, size);
        LaterChunks(entries, size, n);
      }
    }
  }

  /** What a refused run leaves: the chunks before the first one that names a bucket twice, and nothing of the rest. */
  lemma {:induction false} RefusedRunKeepsChunks(table: Table, entries: seq<Entry>, size: nat) returns (k: nat)
    requires size > 0 && !Chunked(table, entries, size).completed
    ensures k < |entries| && k % size == 0
    ensures Chunked(table, entries, size).table == PutAll(table, entries[..k])
    ensures exists i: nat, j: nat | k <= i < j < |entries| && j < k + size :: entries[i].key == entries[j].key
    ensures forall i: nat, j: nat | Clash(entries, size, i, j) :: j >= k
    decreases |entries|
  {
    var n := if |entries| < size then |entries| else size;
    FirstChunk(entries, size, n);
    if !DistinctKeys(entries[..n]) {
      k := 0;
      RefusedAtOnce(entries, n);
    } else {
      var rest := entries[n..];
      var l := RefusedRunKeepsChunks(PutAll(table, entries[..n]), rest, size);
      k := l + n;
      RefusedLater(table, entries, size, n, l);
    }
  }

  lemma RefusedAtOnce(entries: seq<Entry>, n: nat)
    requires n <= |entries| && !DistinctKeys(entries[..n])
    ensures exists i: nat, j: nat | i < j < n :: entries[i].key == entries[j].key
    ensures entries[..0] == []
  {
    var i, j :| 0 <= i < j < n && entries[..n][i].key == entries[..n][j].key;
    assert entries[i].key == entries[j].key;
  }

  lemma RefusedLater(table: Table, entries: seq<Entry>, size: nat, n: nat, l: nat)
    requires size > 0 && entries != [] && n == (if |entries| < size then |entries| else size)
    requires DistinctKeys(entries[..n])
    requires l < |entries[n..]| && l % size == 0
    requires exists i: nat, j: nat | l <= i < j < |entries[n..]| && j < l + size :: entries[n..][i].key == entries[n..][j].key
    requires forall i: nat, j: nat | Clash(entries[n..], size, i, j) :: j >= l
    ensures (l + n) % size == 0
    ensures PutAll(PutAll(table, entries[..n]), entries[n..][..l]) == PutAll(table, entries[..l + n])
    ensures exists i: nat, j: nat | l + n <= i < j < |entries| && j < l + n + size :: entries[i].key == entries[j].key
    ensures forall i: nat, j: nat | Clash(entries, size, i, j) :: j >= l + n
  {
    var rest := entries[n..];
    assert entries[..n] + rest[..l] == entries[..l + n];
    PutAllAppends(table, entries[..n], rest[..l]);
    NextMultiple(l, size);
    var i: nat, j: nat :| l <= i < j < |rest| && j < l + size && rest[i].key == rest[j].key;
    assert entries[i + n].key == entries[j + n].key;
    forall i: nat, j: nat | Clash(entries, size, i, j)
      ensures j >= l + n
    {
      ClashLater(entries, size, n, i, j);
    }
  }

  lemma NextMultiple(l: nat, size: nat)
    requires size > 0 && l % size == 0
    ensures (l + size) % size == 0
  {
    var q := l / size;
    assert l == q * size;
    assert l + size == (q + 1) * size;
    MultipleRest(l + size, size, q + 1);
  }

  lemma MultipleRest(v: nat, size: nat, q: nat)
    requires size > 0 && v == q * size
    ensures v % size == 0
  {
    QuotientIs(v, size, q, 0);
  }

  /** Past the first chunk, the clashes are those of the rest. */
  lemma ClashLater(entries: seq<Entry>, size: nat, n: nat, i: nat, j: nat)
    requires size > 0 && entries != [] && n == (if |entries| < size then |entries| else size)
    requires DistinctKeys(entries[..n]) && Clash(entries, size, i, j)
    ensures i >= n && Clash(entries[n..], size, i - n, j - n)
  {
    FirstChunk(entries, size, n);
    assert j >= n;
    NextQuotient(j - n, size);
    if i < n { SmallQuotient(i, size); }
    if i >= n { NextQuotient(i - n, size); }
  }

  lemma FirstChunk(entries: seq<Entry>, size: nat, n: nat)
    requires size > 0 && entries != [] && n == if |entries| < size then |entries| else size
    ensures DistinctKeys(entries[..n]) <==> forall i: nat, j: nat | j < n :: !Clash(entries, size, i, j)
  {
    forall i: nat | i < n
      ensures i / size == 0
    {
      SmallQuotient(i, size);
    }
    if !DistinctKeys(entries[..n]) {
      var i, j :| 0 <= i < j < n && entries[..n][i].key == entries[..n][j].key;
      assert Clash(entries, size, i, j);
    } else {
      forall i: nat, j: nat | j < n
        ensures !Clash(entries, size, i, j)
      {
        if i < j { assert entries[..n][i].key != entries[..n][j].key; }
      }
    }
  }

  lemma SmallQuotient(i: nat, size: nat)
    requires i < size
    ensures i / size == 0
  {
  }

  lemma NextQuotient(i: nat, size: nat)
    requires size > 0
    ensures (i + size) / size == i / size + 1
  {
    var q := i / size;
    assert i == q * size + i % size;
    assert i + size == (q + 1) * size + i % size;
    QuotientIs(i + size, size, q + 1, i % size);
  }

  lemma QuotientIs(v: nat, size: nat, q: nat, r: nat)
    requires size > 0 && v == q * size + r && r < size
    ensures v / size == q
  {
    var d := v / size;
    assert v == d * size + v % size;
    assert (q - d) * size == v % size - r;
    if q > d { Multiples(1, q - d, size); }
    if q < d { Multiples(q - d, -1, size); }
  }

  lemma LaterChunks(entries: seq<Entry>, size: nat, n: nat)
    requires size > 0 && entries != [] && n == (if |entries| < size then |entries| else size)
    requires DistinctKeys(entries[..n])
    ensures (forall i: nat, j: nat :: !Clash(entries, size, i, j))
            <==> forall i: nat, j: nat :: !Clash(entries[n..], size, i, j)
  {
    var rest := entries[n..];
    FirstChunk(entries, size, n);
    forall i: nat, j: nat | i < j
      ensures Clash(rest, size, i, j) <==> Clash(entries, size, i + n, j + n)
    {
      if j < |rest| {
        NextQuotient(i, size);
        NextQuotient(j, size);
      }
    }
    forall i: nat, j: nat | Clash(entries, size, i, j)
      ensures i >= n && Clash(rest, size, i - n, j - n)
    {
      ClashLater(entries, size, n, i, j);
    }
  }

  /** After distinct buckets are stored, each reads as written and no other row has moved. */
  lemma {:induction false} StoredExactly(table: Table, entries: seq<Entry>)
    requires DistinctKeys(entries)
    ensures forall i | 0 <= i < |entries| :: StoredAs(table, PutAll(table, entries), entries[i])
    ensures forall k | (forall i | 0 <= i < |entries| :: entries[i].key != k) ::
              (k in PutAll(table, entries) <==> k in table)
              && (k in table ==> PutAll(table, entries)[k] == table[k])
  {
    if entries != [] {
      var n := |entries| - 1;
      var before := PutAll(table, entries[..n]);
      StoredExactly(table, entries[..n]);
      forall i | 0 <= i < |entries|
        ensures StoredAs(table, PutAll(table, entries), entries[i])
      {
        if i < n { assert entries[..n][i] == entries[i]; }
      }
      forall k | forall i | 0 <= i < |entries| :: entries[i].key != k
        ensures (k in PutAll(table, entries) <==> k in table)
                && (k in table ==> PutAll(table, entries)[k] == table[k])
      {
        assert forall i | 0 <= i < n :: entries[..n][i].key != k;
      }
    }
  }

  predicate StoredAs(before: Table, after: Table, e: Entry) {
    e.key in after
    && after[e.key] == if e.key in before then e.row.(provider := before[e.key].provider) else e.row
  }

  // ---------------------------------------------------------------- rows and bars

  function ClosedBars(bars: seq<NormBar>): seq<NormBar> {
    if bars == [] then []
    else
      var rest := ClosedBars(bars[..|bars| - 1]);
      if bars[|bars| - 1].closed then rest + [bars[|bars| - 1]] else rest
  }

  /** The closed bars are those of the parts, in order; one bar alone is kept exactly when it is closed. */
  lemma {:induction false} ClosedBarsAreKept(a: seq<NormBar>, b: seq<NormBar>, x: NormBar)
    ensures ClosedBars(a + b) == ClosedBars(a) + ClosedBars(b)
    ensures ClosedBars([x]) == if x.closed then [x] else []
    decreases |b|
  {
    assert [x][..0] == [];
    if b == [] {
      assert a + b == a;
    } else {
      assert (a + b)[..|a + b| - 1] == a + b[..|b| - 1];
      ClosedBarsAreKept(a, b[..|b| - 1], x);
    }
  }

  /** Which bars reach the table: the closed ones among those offered, and no others. */
  lemma {:induction false} ClosedBarsAre(bars: seq<NormBar>, x: NormBar)
    ensures x in ClosedBars(bars) <==> x in bars && x.closed
  {
    if bars != [] {
      ClosedBarsAre(bars[..|bars| - 1], x);
    }
  }

  function RowOf(spec: Instrument, provider: string, b: NormBar): Row
    requires spec.Valid()
  {
    Row(PriceToTicks(spec, b.open), PriceToTicks(spec, b.high), PriceToTicks(spec, b.low), PriceToTicks(spec, b.close),
        b.volume, provider)
  }

  function EntriesOf(spec: Instrument, symbol: string, tf: string, provider: string, bars: seq<NormBar>): (es: seq<Entry>)
    requires spec.Valid()
    ensures |es| == |bars|
  {
    seq(|bars|, i requires 0 <= i < |bars| => Entry(Key(symbol, tf, bars[i].time), RowOf(spec, provider, bars[i])))
  }

  function BarOf(spec: Instrument, time: int, r: Row): NormBar
    requires spec.Valid()
  {
    NormBar(time, TicksToPrice(spec, r.open), TicksToPrice(spec, r.high), TicksToPrice(spec, r.low),
            TicksToPrice(spec, r.close), r.volume, true)
  }

  /** Snapped bars lose nothing on the way through the table. */
  lemma RowKeepsBar(spec: Instrument, provider: string, b: NormBar)
    requires spec.Valid() && b.closed
    ensures BarOf(spec, b.time, RowOf(spec, provider, b)) == b <==> AllOnTick(spec, b)
    ensures RowOf(spec, provider, b).provider == provider
  {
  }

  // ---------------------------------------------------------------- reading a page

  function Greatest(s: set<int>): (m: int)
    requires s != {}
    ensures m in s && forall x | x in s :: x <= m
  {
    GreatestExists(s);
    var m :| m in s && forall x | x in s :: x <= m;
    m
  }

  lemma Member<T>(s: set<T>) returns (x: T)
    requires s != {}
    ensures x in s
  {
    x :| x in s;
  }

  lemma {:induction false} GreatestExists(s: set<int>)
    requires s != {}
    ensures exists m :: m in s && forall x | x in s :: x <= m
  {
    var a := Member(s);
    var rest := s - {a};
    if rest == {} {
      assert s == {a};
    } else {
      GreatestExists(rest);
      var b :| b in rest && forall x | x in rest :: x <= b;
      assert forall x | x in s :: x == a || x in rest;
      assert (if a < b then b else a) in s;
    }
  }

  predicate Increasing(s: seq<int>) {
    forall i, j | 0 <= i < j < |s| :: s[i] < s[j]
  }

  function Ascending(s: set<int>): (sorted: seq<int>)
    ensures |sorted| == |s| && Increasing(sorted)
    ensures forall x :: x in sorted <==> x in s
  {
    if s == {} then []
    else
      var m := Greatest(s);
      var rest := Ascending(s - {m});
      assert forall x | x in rest :: x in s && x != m;
      rest + [m]
  }

  /** The buckets of one series, oldest first, that lie before the cursor. */
  function TimesBefore(table: Table, symbol: string, tf: string, before: int): seq<int> {
    Ascending(set k | k in table && k.symbol == symbol && k.timeframe == tf && k.time < before :: k.time)
  }

  predicate Held(table: Table, symbol: string, tf: string, times: seq<int>) {
    forall i | 0 <= i < |times| :: Key(symbol, tf, times[i]) in table
  }

  function BarsAt(spec: Instrument, table: Table, symbol: string, tf: string, times: seq<int>): (bars: seq<NormBar>)
    requires spec.Valid() && Held(table, symbol, tf, times)
    ensures |bars| == |times|
  {
    seq(|times|, i requires 0 <= i < |times| => BarOf(spec, times[i], table[Key(symbol, tf, times[i])]))
  }

  lemma TimesAreHeld(table: Table, symbol: string, tf: string, before: int)
    ensures Held(table, symbol, tf, TimesBefore(table, symbol, tf, before))
  {
    var times := TimesBefore(table, symbol, tf, before);
    forall i | 0 <= i < |times|
      ensures Key(symbol, tf, times[i]) in table
    {
      assert times[i] in times;
    }
  }

  /** The whole stored series before the cursor. */
  function History(spec: Instrument, table: Table, symbol: string, tf: string, before: int): seq<NormBar>
    requires spec.Valid()
  {
    TimesAreHeld(table, symbol, tf, before);
    BarsAt(spec, table, symbol, tf, TimesBefore(table, symbol, tf, before))
  }

  /** Newest first, at most `limit`, turned round again: the newest `limit` in time order. */
  function ReadCache(spec: Instrument, table: Table, symbol: string, tf: string, limit: nat, before: int): seq<NormBar>
    requires spec.Valid()
  {
    Newest(History(spec, table, symbol, tf, before), limit)
  }

  predicate StrictlyLater(bars: seq<NormBar>) {
    forall i, j | 0 <= i < j < |bars| :: bars[i].time < bars[j].time
  }

  /** A history is in strict time order and holds exactly the stored buckets before the cursor. */
  lemma HistoryIsExact(spec: Instrument, table: Table, symbol: string, tf: string, before: int)
    requires spec.Valid()
    ensures var h := History(spec, table, symbol, tf, before);
            && StrictlyLater(h)
            && (forall i | 0 <= i < |h| ::
                  h[i].time < before && Key(symbol, tf, h[i].time) in table
                  && h[i] == BarOf(spec, h[i].time, table[Key(symbol, tf, h[i].time)]))
            && (forall k | k in table && k.symbol == symbol && k.timeframe == tf && k.time < before ::
                  exists i :: 0 <= i < |h| && h[i].time == k.time)
  {
    var times, h := TimesBefore(table, symbol, tf, before), History(spec, table, symbol, tf, before);
    forall i | 0 <= i < |h|
      ensures h[i].time < before && Key(symbol, tf, h[i].time) in table
    {
      assert times[i] in times;
    }
    forall k | k in table && k.symbol == symbol && k.timeframe == tf && k.time < before
      ensures exists i :: 0 <= i < |h| && h[i].time == k.time
    {
      assert k.time in times;
      var i :| 0 <= i < |times| && times[i] == k.time;
      assert h[i].time == k.time;
    }
  }

  /** What a request asks for: the default is 1500 bars, never more than 20000, from the end of time. */
  function LimitOf(limit: Option<nat>): nat {
    var asked := if limit.Some? then limit.value else DEFAULT_LIMIT;
    if asked < MAX_LIMIT then asked else MAX_LIMIT
  }

  function CursorOf(before: Option<int>): int {
    if before.Some? then before.value else MAX_SAFE_INTEGER
  }

  /** `page` is the newest of `all`, up to so many: what is left out is older than all that is shown, and the page is then full. */
  ghost predicate NewestOf(page: seq<NormBar>, all: seq<NormBar>, most: nat) {
    && |page| <= most && StrictlyLater(page)
    && (forall x :: x in page ==> x in all)
    && forall x | x in all && x !in page :: |page| == most && forall y | y in page :: x.time < y.time
  }

  lemma NewestAre(h: seq<NormBar>, most: nat)
    requires StrictlyLater(h)
    ensures NewestOf(Newest(h, most), h, most)
  {
    var page := Newest(h, most);
    NewestIs(h, most);
    var first := |h| - |page|;
    forall k | 0 <= k < |h|
      ensures k >= first ==> h[k] in page
    {
      if k >= first { assert page[k - first] == h[k]; }
    }
  }

  /**
   * The bars served for a request, told by the table: stored bars of the series before the
   * cursor, in time order, at most as many as asked for; a stored bar that is left out is
   * older than all that are shown, and the page is then full.
   */
  lemma PageIsNewest(spec: Instrument, table: Table, symbol: string, tf: string, limit: Option<nat>, before: Option<int>)
    requires spec.Valid()
    ensures var page := ReadCache(spec, table, symbol, tf, LimitOf(limit), CursorOf(before));
            var end := if before == None then 9_007_199_254_740_991 else before.value;
            var most := if limit == None then 1_500 else if limit.value > 20_000 then 20_000 else limit.value;
            && |page| <= most && StrictlyLater(page)
            && (forall x | x in page ::
                  x.time < end && Key(symbol, tf, x.time) in table && x == BarOf(spec, x.time, table[Key(symbol, tf, x.time)]))
            && (forall k | k in table && k.symbol == symbol && k.timeframe == tf && k.time < end ::
                  BarOf(spec, k.time, table[k]) in page || (|page| == most && forall y | y in page :: k.time < y.time))
  {
    var most, end := LimitOf(limit), CursorOf(before);
    HistoryIsExact(spec, table, symbol, tf, end);
    NewestAre(History(spec, table, symbol, tf, end), most);
    forall x
      ensures x in History(spec, table, symbol, tf, end)
              <==> x.time < end && Key(symbol, tf, x.time) in table
                   && x == BarOf(spec, x.time, table[Key(symbol, tf, x.time)])
    {
      InHistory(spec, table, symbol, tf, end, x);
    }
    hide History, BarOf;
  }

  // ---------------------------------------------------------------- paging backwards

  /** The bars of a series before a cursor. */
  function Below(h: seq<NormBar>, before: int): seq<NormBar> {
    if h == [] then []
    else if h[|h| - 1].time < before then h
    else Below(h[..|h| - 1], before)
  }

  lemma {:induction false} BelowIsPrefix(h: seq<NormBar>, before: int)
    requires StrictlyLater(h)
    ensures Below(h, before) <= h
    ensures forall i | 0 <= i < |h| :: h[i].time < before <==> i < |Below(h, before)|
  {
    if h != [] {
      if h[|h| - 1].time >= before { BelowIsPrefix(h[..|h| - 1], before); }
    }
  }

  lemma BelowFirst(h: seq<NormBar>, first: nat)
    requires StrictlyLater(h) && first < |h|
    ensures Below(h, h[first].time) == h[..first]
  {
    var older := Below(h, h[first].time);
    BelowIsPrefix(h, h[first].time);
    assert |older| <= first;
    if first > 0 { assert h[first - 1].time < h[first].time; }
  }

  /** An earlier cursor sees a prefix of what a later one sees. */
  lemma ReadIsBelow(spec: Instrument, table: Table, symbol: string, tf: string, from: int, before: int)
    requires spec.Valid() && from <= before
    ensures StrictlyLater(History(spec, table, symbol, tf, before))
    ensures History(spec, table, symbol, tf, from) == Below(History(spec, table, symbol, tf, before), from)
  {
    HistoryIsExact(spec, table, symbol, tf, before);
    HistoryIsExact(spec, table, symbol, tf, from);
    var all, part := History(spec, table, symbol, tf, before), History(spec, table, symbol, tf, from);
    BelowIsPrefix(all, from);
    forall x
      ensures x in part <==> x in Below(all, from)
    {
      InHistory(spec, table, symbol, tf, before, x);
      InHistory(spec, table, symbol, tf, from, x);
      InBelow(all, from, x);
    }
    SameMembers(part, Below(all, from));
  }

  /** A bar belongs to a history exactly when the table holds it, before the cursor. */
  lemma InHistory(spec: Instrument, table: Table, symbol: string, tf: string, before: int, x: NormBar)
    requires spec.Valid()
    ensures x in History(spec, table, symbol, tf, before)
            <==> x.time < before && Key(symbol, tf, x.time) in table
                 && x == BarOf(spec, x.time, table[Key(symbol, tf, x.time)])
  {
    HistoryIsExact(spec, table, symbol, tf, before);
    var h, key := History(spec, table, symbol, tf, before), Key(symbol, tf, x.time);
    if x.time < before && key in table && x == BarOf(spec, x.time, table[key]) {
      var i :| 0 <= i < |h| && h[i].time == key.time;
      assert h[i] == x;
    }
  }

  lemma InBelow(h: seq<NormBar>, before: int, x: NormBar)
    requires StrictlyLater(h)
    ensures x in Below(h, before) <==> x in h && x.time < before
  {
    BelowIsPrefix(h, before);
  }

  lemma SomeMember(s: seq<NormBar>)
    requires s != []
    ensures exists x :: x in s
  {
    assert s[0] in s;
  }

  /** Two series in strict time order with the same bars are the same series. */
  lemma {:induction false} SameMembers(a: seq<NormBar>, b: seq<NormBar>)
    requires StrictlyLater(a) && StrictlyLater(b)
    requires forall x :: x in a <==> x in b
    ensures a == b
  {
    if a == [] {
      if b != [] { SomeMember(b); }
    } else if b == [] {
      SomeMember(a);
    } else {
      var x, y := a[|a| - 1], b[|b| - 1];
      assert x in b && y in a;
      assert x == y;
      var a', b' := a[..|a| - 1], b[..|b| - 1];
      forall z
        ensures z in a' <==> z in b'
      {
        assert z in a <==> z in a' || z == x;
        assert z in b <==> z in b' || z == x;
      }
      SameMembers(a', b');
    }
  }

  /** The cursor moves strictly back, and the next request sees exactly what the page left over. */
  lemma CursorDescends(spec: Instrument, table: Table, symbol: string, tf: string, limit: nat, before: int)
    requires spec.Valid() && limit > 0
    requires |ReadCache(spec, table, symbol, tf, limit, before)| >= limit
    ensures var page := ReadCache(spec, table, symbol, tf, limit, before);
            && |page| == limit && page[0].time < before
            && History(spec, table, symbol, tf, page[0].time) + page == History(spec, table, symbol, tf, before)
  {
    var h := History(spec, table, symbol, tf, before);
    assert |h| >= limit;
    NewestSplits(h, limit);
    OlderPart(spec, table, symbol, tf, before, |h| - limit);
  }

  lemma NewestSplits(h: seq<NormBar>, limit: nat)
    requires 0 < limit <= |h|
    ensures var page := Newest(h, limit);
            |page| == limit && page[0] == h[|h| - limit] && h[..|h| - limit] + page == h
  {
  }

  /** The series before one of its own bars is the part before that bar. */
  lemma OlderPart(spec: Instrument, table: Table, symbol: string, tf: string, before: int, first: nat)
    requires spec.Valid() && first < |History(spec, table, symbol, tf, before)|
    ensures var h := History(spec, table, symbol, tf, before);
            h[first].time < before && History(spec, table, symbol, tf, h[first].time) == h[..first]
  {
    var h := History(spec, table, symbol, tf, before);
    HistoryIsExact(spec, table, symbol, tf, before);
    ReadIsBelow(spec, table, symbol, tf, h[first].time, before);
    BelowFirst(h, first);
  }

  // ---------------------------------------------------------------- pages and their cursors

  datatype Source = CACHE | PROVIDER | MIXED

  datatype LimitReason = PROVIDER_FLOOR | NOTHING_REPLAYED | REPLAY_ONLY

  datatype BarPage = BarPage(
    bars: seq<NormBar>, hasMore: bool, nextCursor: Option<int>, limitReason: Option<LimitReason>, source: Source)

  function OldestOf(bars: seq<NormBar>): Option<int> {
    if bars == [] then None else Some(bars[0].time)
  }

  /** `atFloor` says whether a bar is as old as the provider's history goes. */
  function PageOf(bars: seq<NormBar>, limit: nat, atFloor: int -> bool, source: Source): BarPage {
    var oldest := OldestOf(bars);
    var floor := oldest.Some? && atFloor(oldest.value);
    BarPage(bars, |bars| >= limit && !floor, oldest, if floor then Some(PROVIDER_FLOOR) else None, source)
  }

  /**
   * What the labels say: the cursor is the oldest bar shown; a page has more behind it
   * when it is full, unless its oldest bar is at the provider's floor, which is then the
   * reason given.
   */
  predicate LabelsFit(page: BarPage, limit: nat, atFloor: int -> bool) {
    && (page.bars == [] ==> page.nextCursor == None && page.limitReason == None && page.hasMore == (limit == 0))
    && (page.bars != [] ==>
          && page.nextCursor == Some(page.bars[0].time)
          && (page.hasMore <==> limit <= |page.bars| && !atFloor(page.bars[0].time))
          && page.limitReason == if atFloor(page.bars[0].time) then Some(PROVIDER_FLOOR) else None)
  }

  lemma PageIsLabelled(bars: seq<NormBar>, limit: nat, atFloor: int -> bool, source: Source)
    ensures var page := PageOf(bars, limit, atFloor, source);
            page.bars == bars && page.source == source && LabelsFit(page, limit, atFloor)
  {
  }

  /** What a client does with pages: prepend each, ask again with its cursor, stop when there is no more. */
  function PagedHistory(spec: Instrument, table: Table, symbol: string, tf: string, limit: nat, before: int,
                        atFloor: int -> bool): seq<NormBar>
    requires spec.Valid() && limit > 0
    decreases |History(spec, table, symbol, tf, before)|
  {
    var page := PageOf(ReadCache(spec, table, symbol, tf, limit, before), limit, atFloor, CACHE);
    if !page.hasMore then page.bars
    else
      CursorDescends(spec, table, symbol, tf, limit, before);
      PagedHistory(spec, table, symbol, tf, limit, page.nextCursor.value, atFloor) + page.bars
  }

  /** `part` is the end of `h`, and all of it unless it starts with a bar at the provider's floor. */
  predicate EndsAtFloor(part: seq<NormBar>, h: seq<NormBar>, atFloor: int -> bool) {
    && |part| <= |h| && part == h[|h| - |part|..]
    && (part == h || (part != [] && atFloor(part[0].time)))
  }

  /**
   * Pages put together are the stored series, every bar once, in order, for any page size:
   * all of it, or all from the first bar found at the provider's floor.
   */
  lemma {:induction false} PagesRebuildHistory(spec: Instrument, table: Table, symbol: string, tf: string,
                                               limit: nat, before: int, atFloor: int -> bool)
    requires spec.Valid() && limit > 0
    ensures EndsAtFloor(PagedHistory(spec, table, symbol, tf, limit, before, atFloor),
                        History(spec, table, symbol, tf, before), atFloor)
    ensures (forall t :: !atFloor(t)) ==> PagedHistory(spec, table, symbol, tf, limit, before, atFloor)
                                          == History(spec, table, symbol, tf, before)
    decreases |History(spec, table, symbol, tf, before)|
  {
    var bars := ReadCache(spec, table, symbol, tf, limit, before);
    if PageOf(bars, limit, atFloor, CACHE).hasMore {
      CursorDescends(spec, table, symbol, tf, limit, before);
      PagesRebuildHistory(spec, table, symbol, tf, limit, bars[0].time, atFloor);
      PartAndPage(PagedHistory(spec, table, symbol, tf, limit, bars[0].time, atFloor),
                  History(spec, table, symbol, tf, bars[0].time), bars, atFloor);
    }
  }

  lemma PartAndPage(part: seq<NormBar>, older: seq<NormBar>, page: seq<NormBar>, atFloor: int -> bool)
    requires EndsAtFloor(part, older, atFloor)
    ensures EndsAtFloor(part + page, older + page, atFloor)
  {
  }

  /** The bars strictly before the cursor, in the order they come. */
  function EarlierThan(bars: seq<NormBar>, before: int): seq<NormBar> {
    if bars == [] then []
    else
      var rest := EarlierThan(bars[..|bars| - 1], before);
      if bars[|bars| - 1].time < before then rest + [bars[|bars| - 1]] else rest
  }

  /** A replay is served from what it has emitted so far; the cache is neither read nor written. */
  function ReplayPage(folded: seq<NormBar>, limit: nat, before: int): BarPage {
    var earlier := EarlierThan(folded, before);
    var bars := Newest(earlier, limit);
    BarPage(bars, |earlier| > |bars|, OldestOf(bars), Some(if bars == [] then NOTHING_REPLAYED else REPLAY_ONLY), PROVIDER)
  }

  lemma {:induction false} EarlierAre(folded: seq<NormBar>, before: int, x: NormBar)
    ensures x in EarlierThan(folded, before) <==> x in folded && x.time < before
  {
    if folded != [] { EarlierAre(folded[..|folded| - 1], before, x); }
  }

  /**
   * A replay page in full: the newest bars emitted before the cursor, with more behind them
   * exactly when some were left out, and a reason that says whether anything was emitted.
   */
  lemma ReplayPageIs(folded: seq<NormBar>, limit: nat, before: int, x: NormBar)
    requires StrictlyLater(folded)
    ensures var page := ReplayPage(folded, limit, before);
            && |page.bars| <= limit && StrictlyLater(page.bars) && page.source == PROVIDER
            && (x in page.bars ==> x in folded && x.time < before)
            && (x in folded && x.time < before && x !in page.bars ==>
                  page.hasMore && |page.bars| == limit && forall y | y in page.bars :: x.time < y.time)
            && (page.hasMore ==> |page.bars| == limit)
            && (page.bars == [] ==> page.nextCursor == None && page.limitReason == Some(NOTHING_REPLAYED))
            && (page.bars != [] ==> page.nextCursor == Some(page.bars[0].time) && page.limitReason == Some(REPLAY_ONLY))
  {
    EarlierIsBelow(folded, before);
    BelowIsPrefix(folded, before);
    NewestAre(EarlierThan(folded, before), limit);
    NewestIs(EarlierThan(folded, before), limit);
    EarlierAre(folded, before, x);
    hide EarlierThan;
  }

  lemma {:induction false} EarlierIsBelow(bars: seq<NormBar>, before: int)
    requires StrictlyLater(bars)
    ensures EarlierThan(bars, before) == Below(bars, before)
  {
    if bars != [] {
      var init := bars[..|bars| - 1];
      EarlierIsBelow(init, before);
      BelowIsPrefix(init, before);
      if bars[|bars| - 1].time < before {
        assert forall i | 0 <= i < |init| :: init[i] == bars[i] && bars[i].time < bars[|bars| - 1].time;
        assert Below(init, before) == init;
        assert bars == init + [bars[|bars| - 1]];
      }
    }
  }

  function PagedReplay(folded: seq<NormBar>, limit: nat, before: int): seq<NormBar>
    requires limit > 0 && StrictlyLater(folded)
    decreases |EarlierThan(folded, before)|
  {
    var page := ReplayPage(folded, limit, before);
    if !page.hasMore then page.bars
    else
      ReplayCursorDescends(folded, limit, before);
      PagedReplay(folded, limit, page.nextCursor.value) + page.bars
  }

  lemma ReplayCursorDescends(folded: seq<NormBar>, limit: nat, before: int)
    requires limit > 0 && StrictlyLater(folded) && ReplayPage(folded, limit, before).hasMore
    ensures var page := ReplayPage(folded, limit, before);
            && page.nextCursor.Some? && page.bars != []
            && EarlierThan(folded, page.nextCursor.value) + page.bars == EarlierThan(folded, before)
  {
    var earlier := EarlierThan(folded, before);
    EarlierIsBelow(folded, before);
    BelowIsPrefix(folded, before);
    NewestSplits(earlier, limit);
    var first := |earlier| - limit;
    assert earlier[first] == folded[first];
    EarlierIsBelow(folded, folded[first].time);
    BelowFirst(folded, first);
    assert folded[..first] == earlier[..first];
  }

  /** Replay pages, too, put together are what the replay has emitted before the cursor. */
  lemma {:induction false} ReplayPagesRebuild(folded: seq<NormBar>, limit: nat, before: int)
    requires limit > 0 && StrictlyLater(folded)
    ensures PagedReplay(folded, limit, before) == EarlierThan(folded, before)
    decreases |EarlierThan(folded, before)|
  {
    var page := ReplayPage(folded, limit, before);
    if page.hasMore {
      ReplayCursorDescends(folded, limit, before);
      ReplayPagesRebuild(folded, limit, page.nextCursor.value);
    }
  }

  // ---------------------------------------------------------------- the service

  /** What the provider answered: nothing usable, or bars already folded to the timeframe. */
  datatype Fetch = Failed | Fetched(bars: seq<NormBar>)

  class BarService {
    var table: Table
    const providerId: string

    constructor (providerId: string)
      ensures table == map[] && this.providerId == providerId
    {
      table := map[];
      this.providerId := providerId;
    }

    /** Persist the closed bars, chunk by chunk; None where a statement is refused. */
    method Store(spec: Instrument, symbol: string, tf: string, bars: seq<NormBar>) returns (written: Option<nat>)
      requires spec.Valid()
      modifies this`table
      ensures var entries := EntriesOf(spec, symbol, tf, providerId, ClosedBars(bars));
              var outcome := Chunked(old(table), entries, 500);
              && table == outcome.table
              && written == if outcome.completed then Some(|entries|) else None
    {
      var closed := ClosedBars(bars);
      if |closed| == 0 { return Some(0); }
      var rows := EntriesOf(spec, symbol, tf, providerId, closed);
      var count: nat := 0;
      var i: nat := 0;
      while i < |rows|
        invariant i <= |rows| && count == i
        invariant Chunked(old(table), rows, CHUNK) == Chunked(table, rows[i..], CHUNK)
      {
        var end := if i + CHUNK < |rows| then i + CHUNK else |rows|;
        var chunk := rows[i..end];
        NextChunk(table, rows, i, end);
        if !DistinctKeys(chunk) { return None; }
        table := PutAll(table, chunk);
        count := count + |chunk|;
        i := end;
      }
      return Some(count);
    }

    /** Fetch and store; false when either failed, though chunks already stored stay. */
    method Fill(spec: Instrument, symbol: string, tf: string, fetch: Fetch) returns (filled: bool)
      requires spec.Valid()
      modifies this`table
      ensures fetch.Failed? ==> !filled && table == old(table)
      ensures fetch.Fetched? ==>
                Outcome(table, filled)
                == Chunked(old(table), EntriesOf(spec, symbol, tf, providerId, ClosedBars(fetch.bars)), 500)
    {
      if fetch.Failed? { return false; }
      var written := Store(spec, symbol, tf, fetch.bars);
      return written.Some?;
    }

    /**
     * The page of the cache as it then is, refilled first when it was short or had holes.
     * `replay` holds the folded bars of a provider in replay mode, which bypasses the cache.
     */
    method GetBars(spec: Instrument, symbol: string, tf: string, limit: Option<nat>, before: Option<int>,
                   replay: Option<seq<NormBar>>, hasHoles: bool, fetch: Fetch, atFloor: int -> bool)
      returns (page: BarPage)
      requires spec.Valid()
      modifies this`table
      ensures var (cap, cursor) := (LimitOf(limit), CursorOf(before));
              var cached := ReadCache(spec, old(table), symbol, tf, cap, cursor);
              if replay.Some? then
                table == old(table) && page == ReplayPage(replay.value, cap, cursor)
              else if |cached| >= cap && !hasHoles then
                table == old(table) && page == PageOf(cached, cap, atFloor, CACHE)
              else
                var outcome := if fetch.Failed? then Outcome(old(table), false) else
                               Chunked(old(table), EntriesOf(spec, symbol, tf, providerId, ClosedBars(fetch.bars)), 500);
                && table == outcome.table
                && page == if outcome.completed
                           then PageOf(ReadCache(spec, table, symbol, tf, cap, cursor), cap, atFloor,
                                       if cached == [] then PROVIDER else MIXED)
                           else PageOf(cached, cap, atFloor, CACHE)
      ensures replay.None? ==> LabelsFit(page, LimitOf(limit), atFloor)
    {
      var cap, cursor := LimitOf(limit), CursorOf(before);
      if replay.Some? { return ReplayPage(replay.value, cap, cursor); }
      var cached := ReadCache(spec, table, symbol, tf, cap, cursor);
      var source := CACHE;
      if |cached| < cap || hasHoles {
        var filled := Fill(spec, symbol, tf, fetch);
        if filled {
          source := if |cached| == 0 then PROVIDER else MIXED;
          cached := ReadCache(spec, table, symbol, tf, cap, cursor);
        }
      }
      return PageOf(cached, cap, atFloor, source);
    }
  }

  /**
   * Bars on the tick grid, in distinct buckets, read back exactly as they were stored,
   * whatever the cache held before and however the rows were chunked.
   */
  lemma ReadsBackEqual(spec: Instrument, table: Table, symbol: string, tf: string, provider: string,
                       bars: seq<NormBar>, size: nat, before: int)
    requires spec.Valid() && size > 0
    requires forall i | 0 <= i < |bars| :: bars[i].closed && AllOnTick(spec, bars[i])
    requires forall i, j | 0 <= i < j < |bars| :: bars[i].time != bars[j].time
    ensures var outcome := Chunked(table, EntriesOf(spec, symbol, tf, provider, bars), size);
            && outcome.completed
            && forall i | 0 <= i < |bars| && bars[i].time < before ::
                 bars[i] in History(spec, outcome.table, symbol, tf, before)
  {
    var entries := EntriesOf(spec, symbol, tf, provider, bars);
    assert DistinctKeys(entries);
    CompletesIffNoClash(table, entries, size);
    ChunkingIsInvisible(table, entries, size);
    StoredExactly(table, entries);
    var after := PutAll(table, entries);
    HistoryIsExact(spec, after, symbol, tf, before);
    forall i | 0 <= i < |bars| && bars[i].time < before
      ensures bars[i] in History(spec, after, symbol, tf, before)
    {
      var key := Key(symbol, tf, bars[i].time);
      assert StoredAs(table, after, entries[i]);
      RowKeepsBar(spec, provider, bars[i]);
      var h := History(spec, after, symbol, tf, before);
      var k :| 0 <= k < |h| && h[k].time == key.time;
      assert h[k] == BarOf(spec, key.time, after[key]);
    }
  }

  // ---------------------------------------------------------------- what the table keeps

  predicate SoundRow(r: Row) {
    r.low <= r.open <= r.high && r.low <= r.close <= r.high && r.volume >= 0
  }

  predicate InSeries(k: Key, symbol: string, tf: string) { k.symbol == symbol && k.timeframe == tf }

  /** Every stored bar of one series is consistent and starts on the grid of its timeframe. */
  ghost predicate SoundSeriesIn(table: Table, symbol: string, tf: string, grid: int -> bool) {
    forall k | k in table && InSeries(k, symbol, tf) :: SoundRow(table[k]) && grid(k.time)
  }

  lemma ConsistentBarsMakeSoundRows(spec: Instrument, provider: string, b: NormBar)
    requires spec.Valid() && Consistent(b)
    ensures SoundRow(RowOf(spec, provider, b))
  {
    TicksMonotone(spec, b.low, b.open);
    TicksMonotone(spec, b.open, b.high);
    TicksMonotone(spec, b.low, b.close);
    TicksMonotone(spec, b.close, b.high);
  }

  ghost predicate SoundEntries(entries: seq<Entry>, symbol: string, tf: string, grid: int -> bool) {
    forall i | 0 <= i < |entries| && InSeries(entries[i].key, symbol, tf) ::
      SoundRow(entries[i].row) && grid(entries[i].key.time)
  }

  lemma {:induction false} PutAllKeepsSound(table: Table, entries: seq<Entry>, symbol: string, tf: string, grid: int -> bool)
    requires SoundSeriesIn(table, symbol, tf, grid) && SoundEntries(entries, symbol, tf, grid)
    ensures SoundSeriesIn(PutAll(table, entries), symbol, tf, grid)
  {
    if entries != [] { PutAllKeepsSound(table, entries[..|entries| - 1], symbol, tf, grid); }
  }

  /** Storing bars that are consistent, or of another series, keeps a series consistent even where the run is cut short. */
  lemma {:induction false} StoringKeepsSound(table: Table, entries: seq<Entry>, size: nat, symbol: string, tf: string, grid: int -> bool)
    requires size > 0 && SoundSeriesIn(table, symbol, tf, grid) && SoundEntries(entries, symbol, tf, grid)
    ensures SoundSeriesIn(Chunked(table, entries, size).table, symbol, tf, grid)
    decreases |entries|
  {
    if entries != [] {
      var n := if |entries| < size then |entries| else size;
      if DistinctKeys(entries[..n]) {
        PutAllKeepsSound(table, entries[..n], symbol, tf, grid);
        StoringKeepsSound(PutAll(table, entries[..n]), entries[n..], size, symbol, tf, grid);
      }
    }
  }

  /** One call of `store`: the instrument, the series, and the bars offered. */
  datatype Batch = Batch(spec: Instrument, symbol: string, timeframe: string, provider: string, bars: seq<NormBar>)

  predicate AllValid(batches: seq<Batch>) {
    forall i | 0 <= i < |batches| :: batches[i].spec.Valid()
  }

  function EntriesIn(b: Batch): seq<Entry>
    requires b.spec.Valid()
  {
    EntriesOf(b.spec, b.symbol, b.timeframe, b.provider, ClosedBars(b.bars))
  }

  /** The cache after any number of stores, of any series, complete or cut short. */
  function AfterStores(batches: seq<Batch>): Table
    requires AllValid(batches)
  {
    if batches == [] then map[]
    else Chunked(AfterStores(batches[..|batches| - 1]), EntriesIn(batches[|batches| - 1]), CHUNK).table
  }

  ghost predicate SoundBars(bars: seq<NormBar>, grid: int -> bool) {
    forall i | 0 <= i < |bars| :: Consistent(bars[i]) && grid(bars[i].time)
  }

  /** The closed bars offered for one series are consistent and on its grid; nothing is asked of other series. */
  ghost predicate SoundBatches(batches: seq<Batch>, symbol: string, tf: string, grid: int -> bool) {
    forall i | 0 <= i < |batches| && batches[i].symbol == symbol && batches[i].timeframe == tf ::
      SoundBars(ClosedBars(batches[i].bars), grid)
  }

  lemma SoundBarsMakeSoundEntries(b: Batch, symbol: string, tf: string, grid: int -> bool)
    requires b.spec.Valid()
    requires b.symbol == symbol && b.timeframe == tf ==> SoundBars(ClosedBars(b.bars), grid)
    ensures SoundEntries(EntriesIn(b), symbol, tf, grid)
  {
    var closed := ClosedBars(b.bars);
    forall i | 0 <= i < |closed| && b.symbol == symbol && b.timeframe == tf
      ensures SoundRow(RowOf(b.spec, b.provider, closed[i]))
    {
      ConsistentBarsMakeSoundRows(b.spec, b.provider, closed[i]);
    }
  }

  /** Whatever else is stored, in whatever order and with whatever failures, a series offered consistent bars stays sound. */
  lemma {:induction false} CacheStaysSound(batches: seq<Batch>, symbol: string, tf: string, grid: int -> bool)
    requires AllValid(batches) && SoundBatches(batches, symbol, tf, grid)
    ensures SoundSeriesIn(AfterStores(batches), symbol, tf, grid)
  {
    if batches != [] {
      var init, b := batches[..|batches| - 1], batches[|batches| - 1];
      CacheStaysSound(init, symbol, tf, grid);
      SoundBarsMakeSoundEntries(b, symbol, tf, grid);
      StoringKeepsSound(AfterStores(init), EntriesIn(b), CHUNK, symbol, tf, grid);
    }
  }

  lemma SoundRowsReadConsistent(spec: Instrument, time: int, r: Row)
    requires spec.Valid() && SoundRow(r)
    ensures Consistent(BarOf(spec, time, r))
  {
    PriceMonotone(spec, r.low, r.open);
    PriceMonotone(spec, r.open, r.high);
    PriceMonotone(spec, r.low, r.close);
    PriceMonotone(spec, r.close, r.high);
  }

  /** Every page of a sound series is made of consistent bars in strict time order. */
  lemma PagesAreSound(spec: Instrument, table: Table, symbol: string, tf: string, limit: nat, before: int, grid: int -> bool)
    requires spec.Valid() && SoundSeriesIn(table, symbol, tf, grid)
    ensures var page := ReadCache(spec, table, symbol, tf, limit, before);
            && StrictlyLater(page) && |page| <= limit && SoundBars(page, grid)
            && forall i | 0 <= i < |page| :: page[i].closed && page[i].time < before
  {
    HistoryIsExact(spec, table, symbol, tf, before);
    var h, page := History(spec, table, symbol, tf, before), ReadCache(spec, table, symbol, tf, limit, before);
    forall i | 0 <= i < |page|
      ensures Consistent(page[i]) && grid(page[i].time) && page[i].closed && page[i].time < before
    {
      assert page[i] in h;
      HeldBarIsSound(spec, table, symbol, tf, before, page[i], grid);
    }
  }

  lemma HeldBarIsSound(spec: Instrument, table: Table, symbol: string, tf: string, before: int, x: NormBar, grid: int -> bool)
    requires spec.Valid() && SoundSeriesIn(table, symbol, tf, grid) && x in History(spec, table, symbol, tf, before)
    ensures Consistent(x) && grid(x.time) && x.closed && x.time < before
  {
    InHistory(spec, table, symbol, tf, before, x);
    SoundRowsReadConsistent(spec, x.time, table[Key(symbol, tf, x.time)]);
  }
}
