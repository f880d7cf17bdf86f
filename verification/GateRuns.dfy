/** What the price gate guarantees over every run, of any length and over any symbols. */
module GateRuns {
  import opened Common
  import opened JsNumber
  import opened PriceGate

  /** The gate after a whole run of observations, starting empty. */
  function RunGate(o: Options, m: Market, evs: seq<GateEvent>): GateState {
    if evs == [] then EMPTY
    else Judge(o, m, RunGate(o, m, evs[..|evs| - 1]), evs[|evs| - 1])
  }

  /** The ruling on every observation of a run, in order. */
  function Rulings(o: Options, m: Market, evs: seq<GateEvent>): (rs: seq<Ruling>)
    ensures |rs| == |evs|
  {
    if evs == [] then []
    else
      var n := |evs| - 1;
      Rulings(o, m, evs[..n]) + [Rule(o, m, StateOf(RunGate(o, m, evs[..n]), evs[n].root), evs[n])]
  }

  lemma RulingsInit(o: Options, m: Market, evs: seq<GateEvent>)
    requires evs != []
    ensures Rulings(o, m, evs)[..|evs| - 1] == Rulings(o, m, evs[..|evs| - 1])
  {
  }

  lemma {:induction false} RulingsPrefix(o: Options, m: Market, evs: seq<GateEvent>, n: nat)
    requires n <= |evs|
    ensures Rulings(o, m, evs)[..n] == Rulings(o, m, evs[..n])
    decreases |evs|
  {
    if n < |evs| {
      var k := |evs| - 1;
      RulingsPrefix(o, m, evs[..k], n);
      RulingsInit(o, m, evs);
      assert evs[..k][..n] == evs[..n];
      assert Rulings(o, m, evs)[..n] == Rulings(o, m, evs)[..k][..n];
    } else {
      assert evs[..n] == evs;
    }
  }

  lemma RulingsAt(o: Options, m: Market, evs: seq<GateEvent>, i: nat)
    requires i < |evs|
    ensures Rulings(o, m, evs)[i] == Rule(o, m, StateOf(RunGate(o, m, evs[..i]), evs[i].root), evs[i])
  {
    var upto := evs[..i + 1];
    RulingsPrefix(o, m, evs, i + 1);
    assert upto[..i] == evs[..i];
    assert Rulings(o, m, evs)[i] == Rulings(o, m, upto)[i];
  }

  /** One symbol's state after a run of its own observations. */
  function After(o: Options, m: Market, s: SymbolState, evs: seq<GateEvent>): SymbolState {
    if evs == [] then s
    else Step(o, m, After(o, m, s, evs[..|evs| - 1]), evs[|evs| - 1])
  }

  function RulingIn(o: Options, m: Market, s: SymbolState, evs: seq<GateEvent>, i: nat): Ruling
    requires i < |evs|
  {
    Rule(o, m, After(o, m, s, evs[..i]), evs[i])
  }

  lemma AfterNext(o: Options, m: Market, s: SymbolState, evs: seq<GateEvent>, n: nat)
    requires n < |evs|
    ensures After(o, m, s, evs[..n + 1]) == Step(o, m, After(o, m, s, evs[..n]), evs[n])
  {
    assert evs[..n + 1][..n] == evs[..n];
  }

  /** An observation that set the anchor: accepted, and not a mere revision of an old bar. */
  predicate SetsAnchor(r: Ruling) {
    VerdictOf(r) == ACCEPT && r != Revision
  }

  predicate TouchesPending(r: Ruling) {
    r == Withheld || r == Near || r == Released
  }

  predicate AnchorIs(s: SymbolState, ev: GateEvent) {
    s.lastAccepted == Some(PriceOf(ev)) && s.lastAcceptedTs == TimeOf(ev)
  }

  predicate PendingIs(s: SymbolState, ev: GateEvent) {
    PriceOf(ev).Fin? && s.pending == Some(Held(PriceOf(ev).v, TimeOf(ev), ev.now))
  }

  /** What one observation does to the anchor and to the held price, ruling by ruling. */
  lemma StepEffect(o: Options, m: Market, s: SymbolState, ev: GateEvent)
    ensures var r, t := Rule(o, m, s, ev), Step(o, m, s, ev);
            && (SetsAnchor(r) ==> AnchorIs(t, ev))
            && (!SetsAnchor(r) ==> t.lastAccepted == s.lastAccepted && t.lastAcceptedTs == s.lastAcceptedTs)
            && (r == Withheld ==> PendingIs(t, ev))
            && (r == Near || r == Released ==> t.pending.None?)
            && (!TouchesPending(r) ==> t.pending == s.pending)
            && (ev.PriceEvent? ==> t.newestBarTime == s.newestBarTime)
  {
  }

  /** One more observation moves its own symbol by one step and leaves the others alone. */
  lemma RunGateStep(o: Options, m: Market, evs: seq<GateEvent>, root: string)
    requires evs != []
    ensures var n := |evs| - 1;
            StateOf(RunGate(o, m, evs), root)
            == if evs[n].root == root then Step(o, m, StateOf(RunGate(o, m, evs[..n]), root), evs[n])
               else StateOf(RunGate(o, m, evs[..n]), root)
  {
  }

  // ---------------------------------------------------------------- symbols are independent

  function Select(evs: seq<GateEvent>, root: string): seq<GateEvent> {
    if evs == [] then []
    else
      var rest := Select(evs[..|evs| - 1], root);
      if evs[|evs| - 1].root == root then rest + [evs[|evs| - 1]] else rest
  }

  /** However the symbols' observations interleave, each symbol sees only its own. */
  lemma {:induction false} SymbolsDoNotInterfere(o: Options, m: Market, evs: seq<GateEvent>, root: string)
    ensures StateOf(RunGate(o, m, evs), root) == After(o, m, FRESH, Select(evs, root))
  {
    if evs != [] {
      var init, last := evs[..|evs| - 1], evs[|evs| - 1];
      SymbolsDoNotInterfere(o, m, init, root);
      if last.root == root {
        assert Select(evs, root)[..|Select(evs, root)| - 1] == Select(init, root);
      }
    }
  }

  // ---------------------------------------------------------------- every accept has a witness

  /** `j` is the newest observation of this symbol before `n` that set the anchor. */
  ghost predicate IsAnchor(evs: seq<GateEvent>, rs: seq<Ruling>, root: string, j: nat, n: nat)
    requires n <= |evs| && n <= |rs|
  {
    j < n && evs[j].root == root && SetsAnchor(rs[j])
    && forall k: nat | j < k < n && evs[k].root == root :: !SetsAnchor(rs[k])
  }

  ghost predicate NoAnchor(evs: seq<GateEvent>, rs: seq<Ruling>, root: string, n: nat)
    requires n <= |evs| && n <= |rs|
  {
    forall k: nat | k < n && evs[k].root == root :: !SetsAnchor(rs[k])
  }

  /** `j` was withheld and, before `n`, neither replaced, contradicted nor released. */
  ghost predicate IsPending(evs: seq<GateEvent>, rs: seq<Ruling>, root: string, j: nat, n: nat)
    requires n <= |evs| && n <= |rs|
  {
    j < n && evs[j].root == root && rs[j] == Withheld
    && forall k: nat | j < k < n && evs[k].root == root :: !TouchesPending(rs[k])
  }

  ghost predicate AnchorTraced(s: SymbolState, evs: seq<GateEvent>, rs: seq<Ruling>, root: string, n: nat)
    requires n <= |evs| && n <= |rs|
  {
    if s.lastAccepted.None? then NoAnchor(evs, rs, root, n)
    else exists j: nat :: IsAnchor(evs, rs, root, j, n) && AnchorIs(s, evs[j])
  }

  ghost predicate PendingTraced(s: SymbolState, evs: seq<GateEvent>, rs: seq<Ruling>, root: string, n: nat)
    requires n <= |evs| && n <= |rs|
  {
    if s.pending.None? then forall j: nat :: !IsPending(evs, rs, root, j, n)
    else exists j: nat :: IsPending(evs, rs, root, j, n) && PendingIs(s, evs[j])
  }

  lemma AnchorTracedStep(s: SymbolState, t: SymbolState, evs: seq<GateEvent>, rs: seq<Ruling>, root: string, n: nat)
    requires n < |evs| && n < |rs| && AnchorTraced(s, evs, rs, root, n)
    requires if evs[n].root == root && SetsAnchor(rs[n]) then AnchorIs(t, evs[n])
             else t.lastAccepted == s.lastAccepted && t.lastAcceptedTs == s.lastAcceptedTs
    ensures AnchorTraced(t, evs, rs, root, n + 1)
  {
    if evs[n].root == root && SetsAnchor(rs[n]) {
      assert IsAnchor(evs, rs, root, n, n + 1) && AnchorIs(t, evs[n]);
    } else if s.lastAccepted.Some? {
      var j: nat :| IsAnchor(evs, rs, root, j, n) && AnchorIs(s, evs[j]);
      assert IsAnchor(evs, rs, root, j, n + 1) && AnchorIs(t, evs[j]);
    }
  }

  lemma PendingTracedStep(s: SymbolState, t: SymbolState, evs: seq<GateEvent>, rs: seq<Ruling>, root: string, n: nat)
    requires n < |evs| && n < |rs| && PendingTraced(s, evs, rs, root, n)
    requires if evs[n].root == root && rs[n] == Withheld then PendingIs(t, evs[n])
             else if evs[n].root == root && TouchesPending(rs[n]) then t.pending.None?
             else t.pending == s.pending
    ensures PendingTraced(t, evs, rs, root, n + 1)
  {
    if evs[n].root == root && rs[n] == Withheld {
      assert IsPending(evs, rs, root, n, n + 1) && PendingIs(t, evs[n]);
    } else if evs[n].root == root && TouchesPending(rs[n]) {
    } else if s.pending.Some? {
      var j: nat :| IsPending(evs, rs, root, j, n) && PendingIs(s, evs[j]);
      assert IsPending(evs, rs, root, j, n + 1) && PendingIs(t, evs[j]);
    } else {
      var next := n + 1;
      forall j: nat
        ensures !IsPending(evs, rs, root, j, next)
      {
        assert !IsPending(evs, rs, root, j, n);
      }
    }
  }

  /** How observation `k` changes one symbol, told through its ruling alone. */
  lemma RulingEffect(o: Options, m: Market, evs: seq<GateEvent>, root: string, k: nat)
    requires k < |evs|
    ensures var s, t := StateOf(RunGate(o, m, evs[..k]), root), StateOf(RunGate(o, m, evs[..k + 1]), root);
            var r := Rulings(o, m, evs)[k];
            && (if evs[k].root == root && SetsAnchor(r) then AnchorIs(t, evs[k])
                else t.lastAccepted == s.lastAccepted && t.lastAcceptedTs == s.lastAcceptedTs)
            && (if evs[k].root == root && r == Withheld then PendingIs(t, evs[k])
                else if evs[k].root == root && TouchesPending(r) then t.pending.None?
                else t.pending == s.pending)
  {
    RulingsAt(o, m, evs, k);
    assert evs[..k + 1][..k] == evs[..k];
    RunGateStep(o, m, evs[..k + 1], root);
    if evs[k].root == root {
      StepEffect(o, m, StateOf(RunGate(o, m, evs[..k]), root), evs[k]);
    }
  }

  /**
   * At every moment of every run the anchor is the newest accepted observation of the
   * symbol, and what is held is its newest withheld one that nothing has settled.
   */
  lemma {:induction false} StateComesFromHistory(o: Options, m: Market, evs: seq<GateEvent>, root: string, n: nat)
    requires n <= |evs|
    ensures AnchorTraced(StateOf(RunGate(o, m, evs[..n]), root), evs, Rulings(o, m, evs), root, n)
    ensures PendingTraced(StateOf(RunGate(o, m, evs[..n]), root), evs, Rulings(o, m, evs), root, n)
  {
    if n > 0 {
      var k := n - 1;
      StateComesFromHistory(o, m, evs, root, k);
      RulingEffect(o, m, evs, root, k);
      var s, t := StateOf(RunGate(o, m, evs[..k]), root), StateOf(RunGate(o, m, evs[..n]), root);
      AnchorTracedStep(s, t, evs, Rulings(o, m, evs), root, k);
      PendingTracedStep(s, t, evs, Rulings(o, m, evs), root, k);
    }
  }

  /** Observation `j` is the anchor and agrees with `p`, or lies across a sampled closure. */
  predicate AnchorBears(o: Options, m: Market, anchor: GateEvent, p: real, ts: int) {
    (ts - TimeOf(anchor) > o.reanchorAfterMs && GapSpanned(m, anchor.root, TimeOf(anchor), ts))
    || Agrees(PriceOf(anchor), p, o.tolerance)
  }

  /** Observation `j` is still waiting, not yet stale, and agrees with `p`. */
  predicate PendingBears(o: Options, held: GateEvent, p: real, now: int) {
    now - held.now <= o.quarantineTtlMs && Agrees(PriceOf(held), p, o.tolerance)
  }

  /**
   * Something in this symbol's own history stands behind the price of observation
   * `i`: it is the first, or the anchor bears it out, or a waiting price does.
   */
  ghost predicate Witnessed(o: Options, m: Market, evs: seq<GateEvent>, rs: seq<Ruling>, i: nat)
    requires i < |evs| == |rs| && evs[i].PriceEvent? && Believable(m, evs[i].root, evs[i].price)
  {
    var root, p := evs[i].root, evs[i].price.n.v;
    || NoAnchor(evs, rs, root, i)
    || (exists j: nat :: IsAnchor(evs, rs, root, j, i) && AnchorBears(o, m, evs[j], p, evs[i].ts))
    || (exists j: nat :: IsPending(evs, rs, root, j, i) && PendingBears(o, evs[j], p, evs[i].now))
  }

  lemma TracedBears(o: Options, m: Market, s: SymbolState, evs: seq<GateEvent>, rs: seq<Ruling>, i: nat)
    requires i < |evs| == |rs| && evs[i].PriceEvent? && Believable(m, evs[i].root, evs[i].price)
    requires AnchorTraced(s, evs, rs, evs[i].root, i) && PendingTraced(s, evs, rs, evs[i].root, i)
    ensures Witnessed(o, m, evs, rs, i)
            <==> Acceptable(o, m, s, evs[i].root, evs[i].price.n.v, evs[i].ts, evs[i].now)
  {
    var root, p := evs[i].root, evs[i].price.n.v;
    if s.lastAccepted.Some? {
      var a: nat :| IsAnchor(evs, rs, root, a, i) && AnchorIs(s, evs[a]);
      assert !NoAnchor(evs, rs, root, i);
      forall j: nat | IsAnchor(evs, rs, root, j, i) ensures j == a { }
    }
    if s.pending.Some? {
      var h: nat :| IsPending(evs, rs, root, h, i) && PendingIs(s, evs[h]);
      forall j: nat | IsPending(evs, rs, root, j, i) ensures j == h { }
    }
  }

  /** The gate publishes a price exactly when its own history stands behind it. */
  lemma AcceptedIffWitnessed(o: Options, m: Market, evs: seq<GateEvent>, i: nat)
    requires i < |evs| && evs[i].PriceEvent?
    ensures VerdictOf(Rulings(o, m, evs)[i]) == ACCEPT
            <==> Believable(m, evs[i].root, evs[i].price) && Witnessed(o, m, evs, Rulings(o, m, evs), i)
  {
    var s := StateOf(RunGate(o, m, evs[..i]), evs[i].root);
    RulingsAt(o, m, evs, i);
    PriceIsJudged(o, m, s, evs[i].root, evs[i].price, evs[i].ts, evs[i].now);
    StateComesFromHistory(o, m, evs, evs[i].root, i);
    if Believable(m, evs[i].root, evs[i].price) {
      TracedBears(o, m, s, evs, Rulings(o, m, evs), i);
    }
  }

  /** A sampled closure is a real one: the market really was shut at some instant of the silence. */
  lemma SampledClosureIsReal(m: Market, root: string, from: int, to: int)
    requires from <= to && GapSpanned(m, root, from, to)
    ensures exists t :: from <= t <= to && !m.open(root, t)
  {
    var mid := from + (to - from) / 2;
    assert from <= mid <= to;
    if m.open(root, from) && m.open(root, to) {
      assert !m.open(root, mid);
    }
  }

  // ---------------------------------------------------------------- lone outliers are erased

  predicate PriceRun(m: Market, evs: seq<GateEvent>) {
    forall k | 0 <= k < |evs| :: evs[k].PriceEvent? && Believable(m, evs[k].root, evs[k].price)
  }

  function Keep(evs: seq<GateEvent>, kept: seq<bool>): seq<GateEvent>
    requires |evs| == |kept|
  {
    if evs == [] then []
    else
      var n := |evs| - 1;
      var rest := Keep(evs[..n], kept[..n]);
      if kept[n] then rest + [evs[n]] else rest
  }

  /** Index of the newest kept observation before `n`, or -1. */
  function LastKept(kept: seq<bool>, n: nat): (j: int)
    requires n <= |kept|
    ensures -1 <= j < n
    ensures j >= 0 ==> kept[j]
  {
    if n == 0 then -1 else if kept[n - 1] then n - 1 else LastKept(kept, n - 1)
  }

  function AnchorPrice(start: SymbolState, evs: seq<GateEvent>, kept: seq<bool>, n: nat): Num
    requires n <= |evs| == |kept| && start.lastAccepted.Some?
  {
    var j := LastKept(kept, n);
    if j == -1 then start.lastAccepted.value else PriceOf(evs[j])
  }

  function AnchorTime(start: SymbolState, evs: seq<GateEvent>, kept: seq<bool>, n: nat): int
    requires n <= |evs| == |kept|
  {
    var j := LastKept(kept, n);
    if j == -1 then start.lastAcceptedTs else TimeOf(evs[j])
  }

  /** Two withheld prices in a row that do not vouch for one another. */
  predicate Disagree(o: Options, first: GateEvent, second: GateEvent)
    requires PriceOf(second).Fin?
  {
    second.now - first.now > o.quarantineTtlMs || !Within(PriceOf(first), PriceOf(second).v, o.tolerance)
  }

  /**
   * A run of believable prices in which every kept one is within tolerance of the
   * kept one before it, every other is not and is not vouched for by its neighbour,
   * no silence re-anchors, and the run ends on a kept price. An outlier between two
   * kept prices is the special case where nothing has to disagree.
   */
  ghost predicate OutlierRun(o: Options, m: Market, start: SymbolState, evs: seq<GateEvent>, kept: seq<bool>) {
    && |evs| == |kept|
    && start.lastAccepted.Some?
    && PriceRun(m, evs)
    && (forall n: nat | n < |evs| ::
          kept[n] == Within(AnchorPrice(start, evs, kept, n), PriceOf(evs[n]).v, o.tolerance))
    && (forall n: nat | n < |evs| ::
          var t := AnchorTime(start, evs, kept, n);
          TimeOf(evs[n]) - t <= o.reanchorAfterMs || !GapSpanned(m, evs[n].root, t, TimeOf(evs[n])))
    && (forall n: nat | 0 < n < |evs| && !kept[n - 1] && !kept[n] :: Disagree(o, evs[n - 1], evs[n]))
  }

  lemma OutlierRuling(o: Options, m: Market, start: SymbolState, evs: seq<GateEvent>, kept: seq<bool>, k: nat)
    requires OutlierRun(o, m, start, evs, kept) && k < |evs|
    requires var s := After(o, m, start, evs[..k]);
             && s.lastAccepted == Some(AnchorPrice(start, evs, kept, k))
             && s.lastAcceptedTs == AnchorTime(start, evs, kept, k)
             && (if k > 0 && !kept[k - 1] then PendingIs(s, evs[k - 1]) else s.pending.None?)
    ensures Rule(o, m, After(o, m, start, evs[..k]), evs[k]) == if kept[k] then Near else Withheld
  {
    assert evs[k].PriceEvent? && Believable(m, evs[k].root, evs[k].price);
    if k > 0 && !kept[k - 1] && !kept[k] {
      assert Disagree(o, evs[k - 1], evs[k]);
    }
  }

  lemma {:induction false} OutlierState(o: Options, m: Market, start: SymbolState, evs: seq<GateEvent>, kept: seq<bool>, n: nat)
    requires OutlierRun(o, m, start, evs, kept) && start.pending.None?
    requires n <= |evs|
    ensures var s := After(o, m, start, evs[..n]);
            && s.lastAccepted == Some(AnchorPrice(start, evs, kept, n))
            && s.lastAcceptedTs == AnchorTime(start, evs, kept, n)
            && (if n > 0 && !kept[n - 1] then PendingIs(s, evs[n - 1]) else s.pending.None?)
  {
    if n > 0 {
      var k := n - 1;
      OutlierState(o, m, start, evs, kept, k);
      AfterNext(o, m, start, evs, k);
      OutlierRuling(o, m, start, evs, kept, k);
      StepEffect(o, m, After(o, m, start, evs[..k]), evs[k]);
    }
  }

  /** A price near the anchor does the same whether or not something was held. */
  lemma NearErases(o: Options, m: Market, s: SymbolState, ev: GateEvent)
    requires ev.PriceEvent? && Rule(o, m, s, ev) == Near
    ensures Step(o, m, s, ev).(pending := None) == Step(o, m, s.(pending := None), ev)
  {
    assert Rule(o, m, s.(pending := None), ev) == Near;
  }

  lemma WithheldOnlyHolds(o: Options, m: Market, s: SymbolState, ev: GateEvent)
    requires ev.PriceEvent? && Rule(o, m, s, ev) == Withheld
    ensures Step(o, m, s, ev).(pending := None) == s.(pending := None)
  {
  }

  lemma {:induction false} OutliersErasedUpTo(o: Options, m: Market, start: SymbolState, evs: seq<GateEvent>, kept: seq<bool>, n: nat)
    requires OutlierRun(o, m, start, evs, kept) && start.pending.None?
    requires n <= |evs|
    ensures After(o, m, start, evs[..n]).(pending := None) == After(o, m, start, Keep(evs[..n], kept[..n]))
  {
    if n > 0 {
      var k := n - 1;
      OutliersErasedUpTo(o, m, start, evs, kept, k);
      OutlierState(o, m, start, evs, kept, k);
      OutlierRuling(o, m, start, evs, kept, k);
      AfterNext(o, m, start, evs, k);
      assert evs[..n][..k] == evs[..k] && kept[..n][..k] == kept[..k];
      var s, clean := After(o, m, start, evs[..k]), Keep(evs[..k], kept[..k]);
      if kept[k] {
        NearErases(o, m, s, evs[k]);
        assert (clean + [evs[k]])[..|clean|] == clean;
      } else {
        WithheldOnlyHolds(o, m, s, evs[k]);
      }
    }
  }

  /**
   * Outliers leave no trace: exactly the kept prices are published, and the state
   * that remains is the one a run without the outliers would have left.
   */
  lemma OutliersAreErased(o: Options, m: Market, start: SymbolState, evs: seq<GateEvent>, kept: seq<bool>)
    requires OutlierRun(o, m, start, evs, kept) && start.pending.None?
    requires evs != [] ==> kept[|evs| - 1]
    ensures forall i: nat | i < |evs| :: VerdictOf(RulingIn(o, m, start, evs, i)) == ACCEPT <==> kept[i]
    ensures After(o, m, start, evs) == After(o, m, start, Keep(evs, kept))
  {
    var n := |evs|;
    OutliersErasedUpTo(o, m, start, evs, kept, n);
    assert evs[..n] == evs && kept[..n] == kept;
    assert After(o, m, start, evs).pending == None by { OutlierState(o, m, start, evs, kept, n); }
    forall i: nat | i < n
      ensures VerdictOf(RulingIn(o, m, start, evs, i)) == ACCEPT <==> kept[i]
    {
      OutlierVerdict(o, m, start, evs, kept, i);
    }
  }

  lemma OutlierVerdict(o: Options, m: Market, start: SymbolState, evs: seq<GateEvent>, kept: seq<bool>, i: nat)
    requires OutlierRun(o, m, start, evs, kept) && start.pending.None? && i < |evs|
    ensures VerdictOf(RulingIn(o, m, start, evs, i)) == ACCEPT <==> kept[i]
  {
    OutlierState(o, m, start, evs, kept, i);
    OutlierRuling(o, m, start, evs, kept, i);
  }

  // ---------------------------------------------------------------- real moves get through

  /** Each price agrees with the one before it and follows it within the quarantine window. */
  ghost predicate Sustained(o: Options, m: Market, evs: seq<GateEvent>) {
    PriceRun(m, evs)
    && forall i: nat | 0 < i < |evs| ::
         Within(PriceOf(evs[i - 1]), PriceOf(evs[i]).v, o.tolerance)
         && evs[i].now - evs[i - 1].now <= o.quarantineTtlMs
  }

  /** Whatever the state, a price that agrees with the one just seen is accepted and becomes the anchor. */
  lemma SustainedNext(o: Options, m: Market, s: SymbolState, a: GateEvent, b: GateEvent)
    requires a.PriceEvent? && Believable(m, a.root, a.price) && b.PriceEvent? && Believable(m, b.root, b.price)
    requires Within(PriceOf(a), PriceOf(b).v, o.tolerance) && b.now - a.now <= o.quarantineTtlMs
    ensures var t := Step(o, m, s, a);
            VerdictOf(Rule(o, m, t, b)) == ACCEPT && Step(o, m, t, b).lastAccepted == Some(PriceOf(b))
  {
  }

  /**
   * A sustained move is published at most one observation late, whatever state it
   * meets; from the second observation on, the anchor is on the move itself.
   */
  lemma SustainedMoveGetsThrough(o: Options, m: Market, start: SymbolState, evs: seq<GateEvent>)
    requires Sustained(o, m, evs)
    ensures forall i: nat | 0 < i < |evs| :: VerdictOf(RulingIn(o, m, start, evs, i)) == ACCEPT
    ensures |evs| > 1 ==> After(o, m, start, evs).lastAccepted == Some(PriceOf(evs[|evs| - 1]))
  {
    forall i: nat | 0 < i < |evs|
      ensures VerdictOf(RulingIn(o, m, start, evs, i)) == ACCEPT
      ensures After(o, m, start, evs[..i + 1]).lastAccepted == Some(PriceOf(evs[i]))
    {
      AfterNext(o, m, start, evs, i - 1);
      AfterNext(o, m, start, evs, i);
      SustainedNext(o, m, After(o, m, start, evs[..i - 1]), evs[i - 1], evs[i]);
    }
    assert evs[..|evs|] == evs;
  }

  // ---------------------------------------------------------------- how far the anchor can drift

  /** Accepts among the first `n` observations. */
  function Accepts(o: Options, m: Market, s: SymbolState, evs: seq<GateEvent>, n: nat): nat
    requires n <= |evs|
  {
    if n == 0 then 0
    else Accepts(o, m, s, evs, n - 1) + if VerdictOf(RulingIn(o, m, s, evs, n - 1)) == ACCEPT then 1 else 0
  }

  lemma NearIsClose(a: real, p: real, tolerance: real)
    requires Within(Fin(a), p, tolerance)
    ensures tolerance >= 0.0
    ensures Abs(p - a) <= tolerance * Abs(a)
  {
    var d := Abs(p - a) / Abs(a);
    assert d * Abs(a) == Abs(p - a);
    assert d * Abs(a) <= tolerance * Abs(a);
  }

  /** An anchor between (1 - tolerance)^k and (1 + tolerance)^k times where it started. */
  predicate DriftedAtMost(tolerance: real, k: nat, start: real, anchor: Option<Num>) {
    && anchor.Some? && anchor.value.Fin?
    && Abs(anchor.value.v) <= Power(1.0 + tolerance, k) * Abs(start)
    && (tolerance <= 1.0 ==> Abs(anchor.value.v) >= Power(1.0 - tolerance, k) * Abs(start))
  }

  lemma OneMoreAccept(tolerance: real, k: nat, start: real, a: real, p: real)
    requires DriftedAtMost(tolerance, k, start, Some(Fin(a)))
    requires Within(Fin(a), p, tolerance)
    ensures DriftedAtMost(tolerance, k + 1, start, Some(Fin(p)))
  {
    DriftUp(tolerance, k, start, a, p);
    if tolerance <= 1.0 { DriftDown(tolerance, k, start, a, p); }
  }

  lemma DriftUp(tolerance: real, k: nat, start: real, a: real, p: real)
    requires Abs(a) <= Power(1.0 + tolerance, k) * Abs(start) && Within(Fin(a), p, tolerance)
    ensures Abs(p) <= Power(1.0 + tolerance, k + 1) * Abs(start)
  {
    NearIsClose(a, p, tolerance);
    var c, b := 1.0 + tolerance, Abs(a);
    assert Abs(p) <= c * b;
    CompoundUp(c, k, Abs(start), b, Abs(p));
  }

  lemma DriftDown(tolerance: real, k: nat, start: real, a: real, p: real)
    requires tolerance <= 1.0
    requires Abs(a) >= Power(1.0 - tolerance, k) * Abs(start) && Within(Fin(a), p, tolerance)
    ensures Abs(p) >= Power(1.0 - tolerance, k + 1) * Abs(start)
  {
    NearIsClose(a, p, tolerance);
    var c, b := 1.0 - tolerance, Abs(a);
    assert Abs(p) >= c * b;
    CompoundDown(c, k, Abs(start), b, Abs(p));
  }

  lemma CompoundUp(c: real, k: nat, y: real, a: real, p: real)
    requires c >= 0.0 && a <= Power(c, k) * y && p <= c * a
    ensures p <= Power(c, k + 1) * y
  {
    var x := Power(c, k);
    assert c * (x * y - a) >= 0.0;
    assert c * (x * y) == (c * x) * y;
  }

  lemma CompoundDown(c: real, k: nat, y: real, a: real, p: real)
    requires c >= 0.0 && a >= Power(c, k) * y && p >= c * a
    ensures p >= Power(c, k + 1) * y
  {
    var x := Power(c, k);
    assert c * (a - x * y) >= 0.0;
    assert c * (x * y) == (c * x) * y;
  }

  /** A price that neither re-anchors nor releases. */
  predicate NoJump(o: Options, m: Market, s: SymbolState, evs: seq<GateEvent>, i: nat)
    requires i < |evs|
  {
    evs[i].PriceEvent? && RulingIn(o, m, s, evs, i) != Reanchored && RulingIn(o, m, s, evs, i) != Released
  }

  /**
   * Without a re-anchor or a release, k accepted prices move the anchor by at most k
   * compounded tolerances, up or down.
   */
  lemma {:induction false} DriftIsBounded(o: Options, m: Market, s: SymbolState, evs: seq<GateEvent>, n: nat)
    requires n <= |evs| && s.lastAccepted.Some? && s.lastAccepted.value.Fin?
    requires forall i: nat | i < n :: NoJump(o, m, s, evs, i)
    ensures DriftedAtMost(o.tolerance, Accepts(o, m, s, evs, n), s.lastAccepted.value.v,
                          After(o, m, s, evs[..n]).lastAccepted)
  {
    if n == 0 {
      assert evs[..0] == [];
      return;
    }
    var i := n - 1;
    assert NoJump(o, m, s, evs, i);
    DriftIsBounded(o, m, s, evs, i);
    AfterNext(o, m, s, evs, i);
    DriftStep(o, m, After(o, m, s, evs[..i]), evs[i], Accepts(o, m, s, evs, i), s.lastAccepted.value.v);
  }

  lemma DriftStep(o: Options, m: Market, t: SymbolState, ev: GateEvent, k: nat, start: real)
    requires ev.PriceEvent? && Rule(o, m, t, ev) != Reanchored && Rule(o, m, t, ev) != Released
    requires DriftedAtMost(o.tolerance, k, start, t.lastAccepted)
    ensures DriftedAtMost(o.tolerance, if VerdictOf(Rule(o, m, t, ev)) == ACCEPT then k + 1 else k, start,
                          Step(o, m, t, ev).lastAccepted)
  {
    StepEffect(o, m, t, ev);
    if VerdictOf(Rule(o, m, t, ev)) == ACCEPT {
      OneMoreAccept(o.tolerance, k, start, t.lastAccepted.value.v, PriceOf(ev).v);
    }
  }

  // ---------------------------------------------------------------- bookkeeping is conserved

  /** Observations of a symbol that the gate judged: all but revisions of old bars. */
  function Judged(o: Options, m: Market, evs: seq<GateEvent>, root: string): nat {
    if evs == [] then 0
    else
      var n := |evs| - 1;
      Judged(o, m, evs[..n], root)
      + if evs[n].root == root && Rulings(o, m, evs)[n] != Revision then 1 else 0
  }

  /** Everything ever reported, before the log's bound is applied. */
  function Reported(o: Options, m: Market, evs: seq<GateEvent>): seq<Anomaly> {
    if evs == [] then []
    else
      var n := |evs| - 1;
      var report := Report(o, m, StateOf(RunGate(o, m, evs[..n]), evs[n].root), evs[n]);
      Reported(o, m, evs[..n]) + if report.Some? then [report.value] else []
  }

  function About(log: seq<Anomaly>, root: string): nat {
    if log == [] then 0
    else About(log[..|log| - 1], root) + if log[|log| - 1].symbol == root then 1 else 0
  }

  lemma AboutPush(log: seq<Anomaly>, x: Anomaly, root: string)
    ensures About(log + [x], root) == About(log, root) + if x.symbol == root then 1 else 0
  {
    assert (log + [x])[..|log|] == log;
  }

  /** The books of one symbol balance against what it holds. */
  predicate Balanced(c: Counters, s: SymbolState) {
    && c.released + c.discarded + (if s.pending.Some? then 1 else 0) <= c.quarantined
    && c.released + c.reanchored <= c.accepted
    && (s.lastAccepted.None? <==> c.accepted == 0)
  }

  lemma BookkeepingStep(o: Options, m: Market, s: SymbolState, c: Counters, ev: GateEvent)
    requires Balanced(c, s)
    ensures var r := Rule(o, m, s, ev);
            var d := if r == Revision then c else Bump(c, r, s.pending.Some?);
            var report := Report(o, m, s, ev);
            && Balanced(d, Step(o, m, s, ev))
            && d.accepted + d.quarantined + d.rejected
               == c.accepted + c.quarantined + c.rejected + (if r == Revision then 0 else 1)
            && d.rejected + d.quarantined + d.discarded
               == c.rejected + c.quarantined + c.discarded + (if report.Some? then 1 else 0)
            && (report.Some? ==> report.value.symbol == ev.root)
  {
  }

  /**
   * Counters over every run: each judged observation is accepted, quarantined or
   * rejected; a quarantined price is released or discarded at most once, and one more
   * may still be waiting; and every refusal, hold and discard was reported.
   */
  lemma {:induction false} CountersAreConserved(o: Options, m: Market, evs: seq<GateEvent>, root: string)
    ensures var c, s := CountersOf(RunGate(o, m, evs), root), StateOf(RunGate(o, m, evs), root);
            && Balanced(c, s)
            && c.accepted + c.quarantined + c.rejected == Judged(o, m, evs, root)
            && About(Reported(o, m, evs), root) == c.rejected + c.quarantined + c.discarded
  {
    if evs != [] {
      var n := |evs| - 1;
      CountersAreConserved(o, m, evs[..n], root);
      RunGateStep(o, m, evs, root);
      CountersStep(o, m, RunGate(o, m, evs[..n]), evs[n], root);
      ReportedNext(o, m, evs, root);
      RulingsAt(o, m, evs, n);
    }
  }

  /** How many observations of a symbol were ruled `r`. */
  function Tally(o: Options, m: Market, evs: seq<GateEvent>, root: string, r: Ruling): nat {
    if evs == [] then 0
    else
      var n := |evs| - 1;
      Tally(o, m, evs[..n], root, r)
      + if evs[n].root == root && Rule(o, m, StateOf(RunGate(o, m, evs[..n]), root), evs[n]) == r then 1 else 0
  }

  /** Each counter is the number of times its branches were taken. */
  predicate CountsAre(c: Counters, taken: Ruling -> nat) {
    && c.rejected == taken(NotANumber) + taken(Impossible)
    && c.quarantined == taken(Withheld) && c.released == taken(Released) && c.reanchored == taken(Reanchored)
    && c.accepted == taken(First) + taken(Covered) + taken(Near) + taken(Released) + taken(Reanchored)
    && c.discarded <= taken(Near)
  }

  lemma CountsNext(c: Counters, before: Ruling -> nat, after: Ruling -> nat, r: Ruling, hadPending: bool)
    requires CountsAre(c, before)
    requires forall x :: after(x) == before(x) + if x == r then 1 else 0
    ensures CountsAre(Bump(c, r, hadPending), after)
  {
  }

  /** Over every run each counter counts its rulings. */
  lemma {:induction false} CountersCountRulings(o: Options, m: Market, evs: seq<GateEvent>, root: string)
    ensures CountsAre(CountersOf(RunGate(o, m, evs), root), r => Tally(o, m, evs, root, r))
  {
    if evs != [] {
      var init, ev := evs[..|evs| - 1], evs[|evs| - 1];
      var g := RunGate(o, m, init);
      CountersCountRulings(o, m, init, root);
      CountersNext(o, m, g, ev, root);
      if ev.root == root {
        CountsNext(CountersOf(g, root), r => Tally(o, m, init, root, r), r => Tally(o, m, evs, root, r),
                   Rule(o, m, StateOf(g, root), ev), StateOf(g, root).pending.Some?);
      }
    }
  }

  lemma CountersNext(o: Options, m: Market, g: GateState, ev: GateEvent, root: string)
    ensures CountersOf(Judge(o, m, g, ev), root)
            == if ev.root == root
               then Bump(CountersOf(g, root), Rule(o, m, StateOf(g, root), ev), StateOf(g, root).pending.Some?)
               else CountersOf(g, root)
  {
  }

  lemma CountersStep(o: Options, m: Market, g: GateState, ev: GateEvent, root: string)
    requires Balanced(CountersOf(g, root), StateOf(g, root))
    ensures var (c, s) := (CountersOf(g, root), StateOf(g, root));
            var (d, t) := (CountersOf(Judge(o, m, g, ev), root), StateOf(Judge(o, m, g, ev), root));
            var report := Report(o, m, StateOf(g, ev.root), ev);
            && Balanced(d, t)
            && d.accepted + d.quarantined + d.rejected
               == c.accepted + c.quarantined + c.rejected
                  + (if ev.root == root && Rule(o, m, s, ev) != Revision then 1 else 0)
            && d.rejected + d.quarantined + d.discarded
               == c.rejected + c.quarantined + c.discarded + (if ev.root == root && report.Some? then 1 else 0)
  {
    if ev.root == root { BookkeepingStep(o, m, StateOf(g, root), CountersOf(g, root), ev); }
  }

  lemma ReportedNext(o: Options, m: Market, evs: seq<GateEvent>, root: string)
    requires evs != []
    ensures var n := |evs| - 1;
            var report := Report(o, m, StateOf(RunGate(o, m, evs[..n]), evs[n].root), evs[n]);
            About(Reported(o, m, evs), root)
            == About(Reported(o, m, evs[..n]), root) + if evs[n].root == root && report.Some? then 1 else 0
  {
    var n := |evs| - 1;
    var report := Report(o, m, StateOf(RunGate(o, m, evs[..n]), evs[n].root), evs[n]);
    assert report.Some? ==> report.value.symbol == evs[n].root;
    if report.Some? {
      AboutPush(Reported(o, m, evs[..n]), report.value, root);
    } else {
      assert Reported(o, m, evs[..n]) + [] == Reported(o, m, evs[..n]);
    }
  }

  /** The anomaly log is the newest `historySize` of everything ever reported, in order. */
  lemma {:induction false} LogIsNewestReports(o: Options, m: Market, evs: seq<GateEvent>)
    ensures RunGate(o, m, evs).anomalies == Newest(Reported(o, m, evs), o.historySize)
  {
    if evs != [] {
      var n := |evs| - 1;
      LogIsNewestReports(o, m, evs[..n]);
      var report := Report(o, m, StateOf(RunGate(o, m, evs[..n]), evs[n].root), evs[n]);
      if report.Some? {
        PushKeepsNewest(Reported(o, m, evs[..n]), report.value, o.historySize);
      } else {
        assert Reported(o, m, evs[..n]) + [] == Reported(o, m, evs[..n]);
      }
    }
  }

  // ---------------------------------------------------------------- what the bar path does not check

  /** A bar as every feed emits it: finite prices, the open and the close inside the range. */
  predicate WellFormedBar(bar: Bar) {
    && bar.open.Fin? && bar.high.Fin? && bar.low.Fin? && bar.close.Fin?
    && bar.low.v <= bar.open.v <= bar.high.v && bar.low.v <= bar.close.v <= bar.high.v
  }

  /** The bar becomes the anchor because its range covers the old one. */
  predicate InstalledByCover(o: Options, m: Market, s: SymbolState, root: string, bar: Bar, now: int) {
    var ev := BarEvent(root, bar, now);
    Rule(o, m, s, ev) == Covered && Step(o, m, s, ev).lastAccepted == Some(bar.close)
  }

  /**
   * The corroboration rule does not reach bars that cover the anchor. Any finite close,
   * however far away, can be installed as the new anchor by some well-formed bar, unless
   * the newest bar already seen lies too far past the last accepted price.
   */
  lemma CoveringBarInstallsAnyClose(o: Options, m: Market, s: SymbolState, root: string, a: real, close: real, now: int)
    requires s.lastAccepted == Some(Fin(a))
    ensures (exists bar: Bar ::
               WellFormedBar(bar) && bar.close == Fin(close) && InstalledByCover(o, m, s, root, bar, now))
            <==> s.newestBarTime <= 0 || s.newestBarTime <= s.lastAcceptedTs + o.reanchorAfterMs
  {
    var low, high := if a < close then a else close, if a < close then close else a;
    var bar := Bar(Fin(a), Fin(high), Fin(low), Fin(close), s.lastAcceptedTs + o.reanchorAfterMs);
    if s.newestBarTime <= 0 || s.newestBarTime <= s.lastAcceptedTs + o.reanchorAfterMs {
      assert WellFormedBar(bar) && bar.close == Fin(close) && InstalledByCover(o, m, s, root, bar, now);
    }
  }
}
