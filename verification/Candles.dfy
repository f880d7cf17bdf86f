/** The candle audit, and the live bar merged onto a page of history. */
module Candles {
  import opened Common
  import opened JsNumber
  import opened Ticks
  import opened Normalize
  import opened BarCache

  /** A bar as the audit meets it: any number may be missing its value. None is a time that is not finite. */
  datatype AuditBar = AuditBar(time: Option<int>, open: Num, high: Num, low: Num, close: Num, volume: Option<Num>)

  datatype Kind =
    | HIGH_BELOW_LOW | HIGH_BELOW_BODY | LOW_ABOVE_BODY | NON_FINITE | NEGATIVE_VOLUME
    | TIME_NOT_INCREASING | DUPLICATE_TIME | MISALIGNED_BUCKET | GAP

  datatype Violation = Violation(kind: Kind, index: nat)

  /** barMs: 0 or less means no alignment check, as when it is left out. */
  datatype AuditOptions = AuditOptions(barMs: int, reportGaps: bool, epochMs: int)

  predicate AllFinite(b: AuditBar) {
    b.open.Fin? && b.high.Fin? && b.low.Fin? && b.close.Fin? && b.time.Some?
  }

  predicate Aligned(opts: AuditOptions, time: int) {
    opts.barMs > 0 ==> (time - opts.epochMs) % opts.barMs == 0
  }

  /** What the audit demands of one bar on its own. */
  predicate SoundBar(opts: AuditOptions, b: AuditBar) {
    && AllFinite(b)
    && b.low.v <= b.open.v <= b.high.v && b.low.v <= b.close.v <= b.high.v
    && (b.volume.Some? ==> !Less(b.volume.value, Fin(0.0)))
    && Aligned(opts, b.time.value)
  }

  predicate Earlier(a: AuditBar, b: AuditBar) {
    a.time.Some? && b.time.Some? && a.time.value < b.time.value
  }

  /** Every bar sound, each strictly later than those before it. */
  ghost predicate SoundSeries(opts: AuditOptions, bars: seq<AuditBar>) {
    && (forall i | 0 <= i < |bars| :: SoundBar(opts, bars[i]))
    && forall i, j | 0 <= i < j < |bars| :: Earlier(bars[i], bars[j])
  }

  function When(broken: bool, kind: Kind, index: nat): seq<Violation> {
    if broken then [Violation(kind, index)] else []
  }

  /** The reports of one bar, in the order they are made. */
  function AllOf(shape: bool, high: bool, low: bool, volume: bool, off: bool, same: bool, back: bool, gap: bool,
                 index: nat): seq<Violation> {
    When(shape, HIGH_BELOW_LOW, index) + When(high, HIGH_BELOW_BODY, index) + When(low, LOW_ABOVE_BODY, index)
    + When(volume, NEGATIVE_VOLUME, index) + When(off, MISALIGNED_BUCKET, index) + When(same, DUPLICATE_TIME, index)
    + When(back, TIME_NOT_INCREASING, index) + When(gap, GAP, index)
  }

  /** What one bar breaks, given the time of the newest finite bar before it. */
  function Broken(opts: AuditOptions, b: AuditBar, index: nat, previous: Option<int>): seq<Violation> {
    if !AllFinite(b) then [Violation(NON_FINITE, index)]
    else
      var time := b.time.value;
      AllOf(b.high.v < b.low.v, b.high.v < Max(b.open.v, b.close.v), b.low.v > Min(b.open.v, b.close.v),
            b.volume.Some? && Less(b.volume.value, Fin(0.0)), !Aligned(opts, time),
            previous.Some? && time == previous.value, previous.Some? && time < previous.value,
            previous.Some? && time > previous.value && opts.reportGaps && opts.barMs > 0
            && time - previous.value != opts.barMs, index)
  }

  function PreviousTime(bars: seq<AuditBar>): Option<int> {
    if bars == [] then None
    else if AllFinite(bars[|bars| - 1]) then bars[|bars| - 1].time
    else PreviousTime(bars[..|bars| - 1])
  }

  function AllBroken(opts: AuditOptions, bars: seq<AuditBar>): seq<Violation> {
    if bars == [] then []
    else
      var n := |bars| - 1;
      AllBroken(opts, bars[..n]) + Broken(opts, bars[n], n, PreviousTime(bars[..n]))
  }

  predicate Hard(vs: seq<Violation>) {
    exists i :: 0 <= i < |vs| && vs[i].kind != GAP
  }

  function HardOnes(vs: seq<Violation>): seq<Violation> {
    if vs == [] then []
    else HardOnes(vs[..|vs| - 1]) + if vs[|vs| - 1].kind != GAP then [vs[|vs| - 1]] else []
  }

  /** One pass over the bars; `ok` when nothing but gaps was found. */
  method AuditCandles(bars: seq<AuditBar>, opts: AuditOptions) returns (violations: seq<Violation>, ok: bool)
    ensures violations == AllBroken(opts, bars)
    ensures ok <==> !Hard(violations)
  {
    violations := [];
    var previous: Option<int> := None;
    for index := 0 to |bars|
      invariant violations == AllBroken(opts, bars[..index])
      invariant previous == PreviousTime(bars[..index])
    {
      assert bars[..index + 1][..index] == bars[..index];
      violations := violations + Broken(opts, bars[index], index, previous);
      if AllFinite(bars[index]) { previous := bars[index].time; }
    }
    assert bars[..|bars|] == bars;
    NoHardIff(violations);
    ok := |HardOnes(violations)| == 0;
  }

  // ---------------------------------------------------------------- what each report means

  /** The newest finite bar before bar `n` has this time. */
  ghost predicate NewestFinite(bars: seq<AuditBar>, n: nat, time: int)
    requires n <= |bars|
  {
    exists i :: 0 <= i < n && AllFinite(bars[i]) && bars[i].time == Some(time) && forall j | i < j < n :: !AllFinite(bars[j])
  }

  lemma {:induction false} PreviousTimeIs(bars: seq<AuditBar>, n: nat)
    requires n <= |bars|
    ensures forall time :: PreviousTime(bars[..n]) == Some(time) <==> NewestFinite(bars, n, time)
  {
    if n > 0 {
      PreviousTimeIs(bars, n - 1);
      assert bars[..n][..n - 1] == bars[..n - 1] && bars[..n][n - 1] == bars[n - 1];
      forall time
        ensures PreviousTime(bars[..n]) == Some(time) <==> NewestFinite(bars, n, time)
      {
        if !AllFinite(bars[n - 1]) {
          assert NewestFinite(bars, n, time) <==> NewestFinite(bars, n - 1, time);
        }
      }
    } else {
      assert bars[..0] == [];
    }
  }

  /** What is wrong with a bar of finite values that follows one of time `previous`, kind by kind. */
  predicate Faulty(opts: AuditOptions, b: AuditBar, previous: Option<int>, kind: Kind)
    requires AllFinite(b)
  {
    match kind
    case HIGH_BELOW_LOW => b.high.v < b.low.v
    case HIGH_BELOW_BODY => b.high.v < b.open.v || b.high.v < b.close.v
    case LOW_ABOVE_BODY => b.open.v < b.low.v || b.close.v < b.low.v
    case NON_FINITE => false
    case NEGATIVE_VOLUME => b.volume.Some? && (b.volume.value == NegInf || (b.volume.value.Fin? && b.volume.value.v < 0.0))
    case MISALIGNED_BUCKET => opts.barMs > 0 && (b.time.value - opts.epochMs) % opts.barMs != 0
    case DUPLICATE_TIME => previous == b.time
    case TIME_NOT_INCREASING => previous.Some? && b.time.value < previous.value
    case GAP =>
      opts.reportGaps && opts.barMs > 0 && previous.Some? && previous.value < b.time.value
      && b.time.value - previous.value != opts.barMs
  }

  lemma InWhen(broken: bool, kind: Kind, index: nat, x: Violation)
    ensures x in When(broken, kind, index) <==> broken && x == Violation(kind, index)
  {
  }

  lemma BrokenReports(opts: AuditOptions, b: AuditBar, index: nat, previous: Option<int>, x: Violation)
    ensures x in Broken(opts, b, index, previous)
            <==> x.index == index && if AllFinite(b) then Faulty(opts, b, previous, x.kind) else x.kind == NON_FINITE
  {
    if AllFinite(b) { EachReported(opts, b, index, previous, x); }
  }

  lemma EachReported(opts: AuditOptions, b: AuditBar, index: nat, previous: Option<int>, x: Violation)
    requires AllFinite(b)
    ensures x in Broken(opts, b, index, previous) <==> x.index == index && Faulty(opts, b, previous, x.kind)
  {
    hide AllOf, Less, Aligned;
    var time := b.time.value;
    NegativeVolume(b);
    OffGrid(opts, time);
    InSum(b.high.v < b.low.v, b.high.v < Max(b.open.v, b.close.v), b.low.v > Min(b.open.v, b.close.v),
          b.volume.Some? && Less(b.volume.value, Fin(0.0)), !Aligned(opts, time),
          previous.Some? && time == previous.value, previous.Some? && time < previous.value,
          previous.Some? && time > previous.value && opts.reportGaps && opts.barMs > 0
          && time - previous.value != opts.barMs, index, x);
  }

  lemma NegativeVolume(b: AuditBar)
    ensures b.volume.Some? && Less(b.volume.value, Fin(0.0))
            <==> b.volume.Some? && (b.volume.value == NegInf || (b.volume.value.Fin? && b.volume.value.v < 0.0))
  {
  }

  lemma OffGrid(opts: AuditOptions, time: int)
    ensures !Aligned(opts, time) <==> opts.barMs > 0 && (time - opts.epochMs) % opts.barMs != 0
  {
  }

  lemma InSum(shape: bool, high: bool, low: bool, volume: bool, off: bool, same: bool, back: bool, gap: bool,
              index: nat, x: Violation)
    ensures x in AllOf(shape, high, low, volume, off, same, back, gap, index)
            <==> x.index == index
                 && match x.kind
                    case HIGH_BELOW_LOW => shape
                    case HIGH_BELOW_BODY => high
                    case LOW_ABOVE_BODY => low
                    case NON_FINITE => false
                    case NEGATIVE_VOLUME => volume
                    case MISALIGNED_BUCKET => off
                    case DUPLICATE_TIME => same
                    case TIME_NOT_INCREASING => back
                    case GAP => gap
  {
    InWhen(shape, HIGH_BELOW_LOW, index, x);
    InWhen(high, HIGH_BELOW_BODY, index, x);
    InWhen(low, LOW_ABOVE_BODY, index, x);
    InWhen(volume, NEGATIVE_VOLUME, index, x);
    InWhen(off, MISALIGNED_BUCKET, index, x);
    InWhen(same, DUPLICATE_TIME, index, x);
    InWhen(back, TIME_NOT_INCREASING, index, x);
    InWhen(gap, GAP, index, x);
    hide When;
  }

  /**
   * Which violations the audit of a series reports: for each bar, by its place, exactly the
   * kinds of fault it has. A bar that is not finite has that one fault.
   */
  lemma ReportedIff(opts: AuditOptions, bars: seq<AuditBar>, x: Violation)
    requires x.index < |bars|
    ensures x in AllBroken(opts, bars)
            <==> if AllFinite(bars[x.index]) then Faulty(opts, bars[x.index], PreviousTime(bars[..x.index]), x.kind)
                 else x.kind == NON_FINITE
  {
    assert bars[..|bars|] == bars;
    ReportedAt(opts, bars, x, |bars|);
    BrokenReports(opts, bars[x.index], x.index, PreviousTime(bars[..x.index]), x);
  }

  lemma {:induction false} ReportedAt(opts: AuditOptions, bars: seq<AuditBar>, x: Violation, n: nat)
    requires n <= |bars|
    ensures x in AllBroken(opts, bars[..n])
            <==> x.index < n && x in Broken(opts, bars[x.index], x.index, PreviousTime(bars[..x.index]))
  {
    if n > 0 {
      ReportedAt(opts, bars, x, n - 1);
      assert bars[..n][..n - 1] == bars[..n - 1] && bars[..n][n - 1] == bars[n - 1];
      BrokenReports(opts, bars[n - 1], n - 1, PreviousTime(bars[..n - 1]), x);
      hide Broken;
    }
  }

  // ---------------------------------------------------------------- what passes

  lemma {:induction false} NoHardIff(vs: seq<Violation>)
    ensures HardOnes(vs) == [] <==> !Hard(vs)
  {
    if vs != [] {
      var n := |vs| - 1;
      NoHardIff(vs[..n]);
      if Hard(vs[..n]) {
        var i :| 0 <= i < n && vs[..n][i].kind != GAP;
        assert vs[i].kind != GAP;
      }
      if vs[n].kind == GAP && Hard(vs) {
        var i :| 0 <= i < |vs| && vs[i].kind != GAP;
        assert vs[..n][i].kind != GAP;
      }
    }
  }

  lemma HardAppend(a: seq<Violation>, b: seq<Violation>)
    ensures Hard(a + b) <==> Hard(a) || Hard(b)
  {
    if i :| 0 <= i < |a| && a[i].kind != GAP { assert (a + b)[i].kind != GAP; }
    if i :| 0 <= i < |b| && b[i].kind != GAP { assert (a + b)[|a| + i].kind != GAP; }
  }

  lemma HardWhen(broken: bool, kind: Kind, index: nat)
    ensures Hard(When(broken, kind, index)) <==> broken && kind != GAP
  {
    if broken { assert When(broken, kind, index)[0].kind == kind; }
  }

  /** One bar breaks nothing hard exactly when it is sound and later than the one before. */
  lemma BrokenIff(opts: AuditOptions, b: AuditBar, index: nat, previous: Option<int>)
    ensures Hard(Broken(opts, b, index, previous))
            <==> !(SoundBar(opts, b) && (previous.Some? ==> previous.value < b.time.value))
  {
    if !AllFinite(b) {
      assert Broken(opts, b, index, previous)[0].kind == NON_FINITE;
    } else {
      var time := b.time.value;
      HardOf(b.high.v < b.low.v, b.high.v < Max(b.open.v, b.close.v), b.low.v > Min(b.open.v, b.close.v),
             b.volume.Some? && Less(b.volume.value, Fin(0.0)), !Aligned(opts, time),
             previous.Some? && time == previous.value, previous.Some? && time < previous.value,
             previous.Some? && time > previous.value && opts.reportGaps && opts.barMs > 0
             && time - previous.value != opts.barMs, index);
      hide AllOf;
    }
  }

  /** A gap is the only report that is not hard. */
  lemma HardOf(shape: bool, high: bool, low: bool, volume: bool, off: bool, same: bool, back: bool, gap: bool, index: nat)
    ensures Hard(AllOf(shape, high, low, volume, off, same, back, gap, index))
            <==> shape || high || low || volume || off || same || back
  {
    HardSum(When(shape, HIGH_BELOW_LOW, index), When(high, HIGH_BELOW_BODY, index), When(low, LOW_ABOVE_BODY, index),
            When(volume, NEGATIVE_VOLUME, index), When(off, MISALIGNED_BUCKET, index), When(same, DUPLICATE_TIME, index),
            When(back, TIME_NOT_INCREASING, index), When(gap, GAP, index));
    HardWhen(shape, HIGH_BELOW_LOW, index);
    HardWhen(high, HIGH_BELOW_BODY, index);
    HardWhen(low, LOW_ABOVE_BODY, index);
    HardWhen(volume, NEGATIVE_VOLUME, index);
    HardWhen(off, MISALIGNED_BUCKET, index);
    HardWhen(same, DUPLICATE_TIME, index);
    HardWhen(back, TIME_NOT_INCREASING, index);
    HardWhen(gap, GAP, index);
  }

  lemma HardSum(v1: seq<Violation>, v2: seq<Violation>, v3: seq<Violation>, v4: seq<Violation>,
                v5: seq<Violation>, v6: seq<Violation>, v7: seq<Violation>, v8: seq<Violation>)
    ensures Hard(v1 + v2 + v3 + v4 + v5 + v6 + v7 + v8)
            <==> Hard(v1) || Hard(v2) || Hard(v3) || Hard(v4) || Hard(v5) || Hard(v6) || Hard(v7) || Hard(v8)
  {
    HardAppend(v1, v2);
    HardAppend(v1 + v2, v3);
    HardAppend(v1 + v2 + v3, v4);
    HardAppend(v1 + v2 + v3 + v4, v5);
    HardAppend(v1 + v2 + v3 + v4 + v5, v6);
    HardAppend(v1 + v2 + v3 + v4 + v5 + v6, v7);
    HardAppend(v1 + v2 + v3 + v4 + v5 + v6 + v7, v8);
  }

  /** The audit passes exactly the sound series. */
  lemma {:induction false} OkIffSound(opts: AuditOptions, bars: seq<AuditBar>)
    ensures !Hard(AllBroken(opts, bars)) <==> SoundSeries(opts, bars)
  {
    if bars != [] {
      var n := |bars| - 1;
      OkIffSound(opts, bars[..n]);
      var previous := PreviousTime(bars[..n]);
      HardAppend(AllBroken(opts, bars[..n]), Broken(opts, bars[n], n, previous));
      BrokenIff(opts, bars[n], n, previous);
      SoundSnoc(opts, bars);
    }
  }

  lemma SoundSnoc(opts: AuditOptions, bars: seq<AuditBar>)
    requires bars != []
    ensures var n := |bars| - 1;
            SoundSeries(opts, bars)
            <==> SoundSeries(opts, bars[..n]) && SoundBar(opts, bars[n])
                 && (PreviousTime(bars[..n]).Some? ==> PreviousTime(bars[..n]).value < bars[n].time.value)
  {
    var n := |bars| - 1;
    var init := bars[..n];
    assert forall i | 0 <= i < n :: init[i] == bars[i];
    if SoundSeries(opts, init) && n > 0 {
      assert SoundBar(opts, init[n - 1]);
      assert PreviousTime(init) == bars[n - 1].time;
    }
  }

  // ---------------------------------------------------------------- the live bar on top of a page

  /** The forming bar joins the cached bar of its own bucket. */
  function Combined(last: NormBar, forming: NormBar): NormBar {
    forming.(
      open := last.open, high := Max(last.high, forming.high), low := Min(last.low, forming.low),
      volume := if last.volume < forming.volume then forming.volume else last.volume, closed := false)
  }

  /** Combined into its bucket, appended after it, or dropped when it is older than the page. */
  function Merged(page: seq<NormBar>, forming: NormBar): seq<NormBar> {
    if page == [] then [forming]
    else
      var last := page[|page| - 1];
      if last.time == forming.time then page[|page| - 1 := Combined(last, forming)]
      else if forming.time > last.time then page + [forming]
      else page
  }

  /** Only the newest page takes the live bar, and only when the bar is of the market's own bucket. */
  function ChartBars(page: seq<NormBar>, before: Option<int>, forming: Option<NormBar>, liveBucket: int): seq<NormBar> {
    if before.Some? || forming.None? || forming.value.time != liveBucket then page
    else Merged(page, forming.value)
  }

  method GetChartBars(page: seq<NormBar>, before: Option<int>, forming: Option<NormBar>, liveBucket: int)
    returns (bars: seq<NormBar>)
    ensures bars == ChartBars(page, before, forming, liveBucket)
  {
    if before.Some? { return page; }
    if forming.None? { return page; }
    if forming.value.time != liveBucket { return page; }
    var merged := page;
    if |merged| > 0 && merged[|merged| - 1].time == forming.value.time {
      var last := merged[|merged| - 1];
      merged := merged[|merged| - 1 := forming.value.(
        open := last.open, high := Max(last.high, forming.value.high), low := Min(last.low, forming.value.low),
        volume := if last.volume < forming.value.volume then forming.value.volume else last.volume, closed := false)];
    } else if |merged| == 0 || forming.value.time > merged[|merged| - 1].time {
      merged := merged + [forming.value];
    }
    return merged;
  }

  /** The forming bar told apart from the cached bar of its bucket: open of the one, close of the other, both ranges. */
  predicate Joins(c: NormBar, last: NormBar, forming: NormBar) {
    && c.time == forming.time && c.open == last.open && c.close == forming.close && !c.closed
    && last.high <= c.high && forming.high <= c.high && (c.high == last.high || c.high == forming.high)
    && c.low <= last.low && c.low <= forming.low && (c.low == last.low || c.low == forming.low)
    && last.volume <= c.volume && forming.volume <= c.volume && (c.volume == last.volume || c.volume == forming.volume)
  }

  /**
   * The chart, case by case. An older page, no live bar, or one of another bucket than the
   * market's: the page as it is. Otherwise the live bar is appended to a page that ends
   * before it, joined to the last bar when that is of its bucket, and left out when it is
   * older.
   */
  lemma ChartIs(page: seq<NormBar>, before: Option<int>, forming: Option<NormBar>, liveBucket: int)
    ensures var chart, n := ChartBars(page, before, forming, liveBucket), |page| - 1;
            && (before != None || forming == None || forming.value.time != liveBucket ==> chart == page)
            && (before == None && forming.Some? && forming.value.time == liveBucket ==>
                  && (n < 0 || page[n].time < liveBucket ==> chart == page + [forming.value])
                  && (n >= 0 && page[n].time == liveBucket ==>
                        |chart| == n + 1 && chart[..n] == page[..n] && Joins(chart[n], page[n], forming.value))
                  && (n >= 0 && page[n].time > liveBucket ==> chart == page))
  {
    if forming.Some? && page != [] && page[|page| - 1].time == forming.value.time {
      var merged := Merged(page, forming.value);
      assert merged[..|page| - 1] == page[..|page| - 1];
    }
  }

  function Audited(b: NormBar): AuditBar {
    AuditBar(Some(b.time), Fin(b.open), Fin(b.high), Fin(b.low), Fin(b.close), Some(Fin(b.volume as real)))
  }

  function AuditedAll(bars: seq<NormBar>): seq<AuditBar> {
    seq(|bars|, i requires 0 <= i < |bars| => Audited(bars[i]))
  }

  /** A page the audit would pass. */
  predicate SoundPage(opts: AuditOptions, bars: seq<NormBar>) {
    && (forall i | 0 <= i < |bars| :: Consistent(bars[i]) && Aligned(opts, bars[i].time))
    && StrictlyLater(bars)
  }

  lemma SoundPageIff(opts: AuditOptions, bars: seq<NormBar>)
    ensures SoundPage(opts, bars) <==> SoundSeries(opts, AuditedAll(bars))
  {
    var audited := AuditedAll(bars);
    forall i | 0 <= i < |bars|
      ensures SoundBar(opts, audited[i]) <==> Consistent(bars[i]) && Aligned(opts, bars[i].time)
    {
    }
    forall i, j | 0 <= i < j < |bars|
      ensures Earlier(audited[i], audited[j]) <==> bars[i].time < bars[j].time
    {
    }
  }

  /** The merge keeps a sound page sound and adds at most one bar. */
  lemma MergeKeepsSound(opts: AuditOptions, page: seq<NormBar>, forming: NormBar)
    requires SoundPage(opts, page) && Consistent(forming) && Aligned(opts, forming.time)
    ensures SoundPage(opts, Merged(page, forming))
    ensures |page| <= |Merged(page, forming)| <= |page| + 1
  {
    var n, merged := |page| - 1, Merged(page, forming);
    if page != [] && page[n].time == forming.time {
      CombinedIsConsistent(page[n], forming);
      forall i | 0 <= i < |merged|
        ensures Consistent(merged[i]) && Aligned(opts, merged[i].time) && merged[i].time == page[i].time
      {
      }
    } else if page != [] && forming.time > page[n].time {
      forall i | 0 <= i < |page|
        ensures merged[i] == page[i] && page[i].time < forming.time
      {
      }
    }
  }

  lemma CombinedIsConsistent(last: NormBar, forming: NormBar)
    requires Consistent(last) && Consistent(forming)
    ensures Consistent(Combined(last, forming))
  {
  }

  /** `a` covers the range and the volume of `b`. */
  predicate Covers(a: NormBar, b: NormBar) {
    a.low <= b.low && b.high <= a.high && b.volume <= a.volume
  }

  /**
   * Nothing is lost in the merge: unless the live bar is older than the page, the last
   * candle is of its bucket, closes where it closes and covers it; a cached bar of that
   * bucket is covered too and keeps its open; and every earlier bar is untouched.
   */
  lemma LastCandleCoversBoth(page: seq<NormBar>, forming: NormBar)
    requires page != [] ==> page[|page| - 1].time <= forming.time
    ensures var merged := Merged(page, forming);
            && merged != []
            && var last := merged[|merged| - 1];
               && last.time == forming.time && last.close == forming.close && Covers(last, forming)
               && (if page != [] && page[|page| - 1].time == forming.time
                   then |merged| == |page| && merged[..|page| - 1] == page[..|page| - 1]
                        && Covers(last, page[|page| - 1]) && last.open == page[|page| - 1].open
                   else merged == page + [forming])
  {
    var merged := Merged(page, forming);
    if page != [] && page[|page| - 1].time == forming.time {
      assert merged[..|page| - 1] == page[..|page| - 1];
    }
  }

  // ---------------------------------------------------------------- from the vendor to the chart

  /**
   * The whole way: a series filled by any run of stores of consistent, aligned bars, in a
   * cache that also holds any other series, serves, with the live bar merged on top, a
   * chart that passes the audit, whatever page is asked for.
   */
  lemma ChartPassesAudit(opts: AuditOptions, spec: Instrument, batches: seq<Batch>, symbol: string, tf: string,
                         limit: nat, before: Option<int>, forming: Option<NormBar>, liveBucket: int)
    requires spec.Valid() && AllValid(batches)
    requires SoundBatches(batches, symbol, tf, t => Aligned(opts, t))
    requires forming.Some? ==> Consistent(forming.value) && Aligned(opts, forming.value.time)
    ensures var page := ReadCache(spec, AfterStores(batches), symbol, tf, limit, CursorOf(before));
            !Hard(AllBroken(opts, AuditedAll(ChartBars(page, before, forming, liveBucket))))
  {
    var grid := t => Aligned(opts, t);
    var table := AfterStores(batches);
    var page := ReadCache(spec, table, symbol, tf, limit, CursorOf(before));
    CacheStaysSound(batches, symbol, tf, grid);
    PagesAreSound(spec, table, symbol, tf, limit, CursorOf(before), grid);
    if forming.Some? { MergeKeepsSound(opts, page, forming.value); }
    var chart := ChartBars(page, before, forming, liveBucket);
    SoundPageIff(opts, chart);
    OkIffSound(opts, AuditedAll(chart));
  }
}
