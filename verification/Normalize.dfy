/** Normalising one vendor bar: snap the prices, re-derive the extremes, count what was done. */
module Normalize {
  import opened Common
  import opened JsNumber
  import opened Ticks

  /** Every field is a number, or null or undefined. The timestamp is in whole seconds. */
  datatype RawBar = RawBar(
    tsSeconds: int, open: Option<Num>, high: Option<Num>, low: Option<Num>, close: Option<Num>, volume: Option<Num>)

  datatype NormBar = NormBar(time: int, open: real, high: real, low: real, close: real, volume: int, closed: bool)

  function Max(a: real, b: real): real { if a < b then b else a }
  function Min(a: real, b: real): real { if a < b then a else b }

  predicate Complete(raw: RawBar) {
    raw.open.Some? && raw.high.Some? && raw.low.Some? && raw.close.Some?
  }

  predicate Finite(raw: RawBar)
    requires Complete(raw)
  {
    raw.open.value.Fin? && raw.high.value.Fin? && raw.low.value.Fin? && raw.close.value.Fin?
  }

  predicate Usable(raw: RawBar) { Complete(raw) && Finite(raw) }

  /** The volume as a whole number, never below zero. */
  function VolumeOf(raw: RawBar): int {
    if raw.volume.None? || !raw.volume.value.Fin? then 0
    else
      var rounded := Round(raw.volume.value.v);
      if rounded < 0 then 0 else rounded
  }

  /** The bar that comes out: snapped prices, and extremes that span all four of them. */
  function Normalized(spec: Instrument, raw: RawBar, closed: bool): NormBar
    requires spec.Valid() && Usable(raw)
  {
    var o, h := SnapPrice(spec, raw.open.value.v), SnapPrice(spec, raw.high.value.v);
    var l, c := SnapPrice(spec, raw.low.value.v), SnapPrice(spec, raw.close.value.v);
    NormBar(raw.tsSeconds * 1000, o, Max(Max(o, h), Max(l, c)), Min(Min(o, h), Min(l, c)), c, VolumeOf(raw), closed)
  }

  predicate Moved(spec: Instrument, raw: RawBar)
    requires spec.Valid() && Usable(raw)
  {
    || SnapPrice(spec, raw.open.value.v) != raw.open.value.v || SnapPrice(spec, raw.high.value.v) != raw.high.value.v
    || SnapPrice(spec, raw.low.value.v) != raw.low.value.v || SnapPrice(spec, raw.close.value.v) != raw.close.value.v
  }

  class Stats {
    var accepted: nat
    var droppedNullPrice: nat
    var droppedInvalidOhlc: nat
    var droppedNonFinite: nat
    var snapped: nat

    constructor ()
      ensures accepted == droppedNullPrice == droppedInvalidOhlc == droppedNonFinite == snapped == 0
    {
      accepted, droppedNullPrice, droppedInvalidOhlc, droppedNonFinite, snapped := 0, 0, 0, 0, 0;
    }
  }

  /** Exactly one counter says what became of the bar; the inconsistent-extremes drop is never taken. */
  method NormalizeBar(spec: Instrument, raw: RawBar, stats: Stats, closed: bool) returns (bar: Option<NormBar>)
    requires spec.Valid()
    modifies stats
    ensures bar == if Usable(raw) then Some(Normalized(spec, raw, closed)) else None
    ensures bar.Some? <==> forall price | price in {raw.open, raw.high, raw.low, raw.close} :: price.Some? && price.value.Fin?
    ensures stats.droppedInvalidOhlc == old(stats.droppedInvalidOhlc)
    ensures stats.accepted == old(stats.accepted) + if bar.Some? then 1 else 0
    ensures stats.droppedNullPrice
            == old(stats.droppedNullPrice) + if None in {raw.open, raw.high, raw.low, raw.close} then 1 else 0
    ensures stats.droppedNonFinite
            == old(stats.droppedNonFinite) + if bar.None? && None !in {raw.open, raw.high, raw.low, raw.close} then 1 else 0
    ensures stats.snapped == old(stats.snapped) + if Usable(raw) && Moved(spec, raw) then 1 else 0
  {
    if raw.open.None? || raw.high.None? || raw.low.None? || raw.close.None? {
      stats.droppedNullPrice := stats.droppedNullPrice + 1;
      return None;
    }
    if !Finite(raw) {
      stats.droppedNonFinite := stats.droppedNonFinite + 1;
      return None;
    }
    var o, h := SnapPrice(spec, raw.open.value.v), SnapPrice(spec, raw.high.value.v);
    var l, c := SnapPrice(spec, raw.low.value.v), SnapPrice(spec, raw.close.value.v);
    if o != raw.open.value.v || h != raw.high.value.v || l != raw.low.value.v || c != raw.close.value.v {
      stats.snapped := stats.snapped + 1;
    }
    var hi, lo := Max(Max(o, h), Max(l, c)), Min(Min(o, h), Min(l, c));
    if !(lo <= o <= hi && lo <= c <= hi) {
      stats.droppedInvalidOhlc := stats.droppedInvalidOhlc + 1;
      return None;
    }
    stats.accepted := stats.accepted + 1;
    return Some(NormBar(raw.tsSeconds * 1000, o, hi, lo, c, VolumeOf(raw), closed));
  }

  // ---------------------------------------------------------------- what a normalised bar is

  predicate Consistent(bar: NormBar) {
    bar.low <= bar.open <= bar.high && bar.low <= bar.close <= bar.high && bar.volume >= 0
  }

  predicate OnTick(spec: Instrument, price: real)
    requires spec.Valid()
  {
    SnapPrice(spec, price) == price
  }

  predicate AllOnTick(spec: Instrument, bar: NormBar)
    requires spec.Valid()
  {
    OnTick(spec, bar.open) && OnTick(spec, bar.high) && OnTick(spec, bar.low) && OnTick(spec, bar.close)
  }

  /** Whatever the vendor sent, what comes out is consistent and on the tick grid. */
  lemma NormalizedIsSound(spec: Instrument, raw: RawBar, closed: bool)
    requires spec.Valid() && Usable(raw)
    ensures Consistent(Normalized(spec, raw, closed)) && AllOnTick(spec, Normalized(spec, raw, closed))
  {
    SnapIsIdempotent(spec, raw.open.value.v);
    SnapIsIdempotent(spec, raw.high.value.v);
    SnapIsIdempotent(spec, raw.low.value.v);
    SnapIsIdempotent(spec, raw.close.value.v);
  }

  /** One of four, and none of them is above it. */
  predicate Highest(x: real, a: real, b: real, c: real, d: real) {
    x >= a && x >= b && x >= c && x >= d && (x == a || x == b || x == c || x == d)
  }

  /**
   * Field by field: the snapped open and close, the highest and the lowest of the four
   * snapped prices, the second in milliseconds, and the nearest whole volume, or 0 where
   * that is negative or no number was given.
   */
  lemma NormalizedIs(spec: Instrument, raw: RawBar, closed: bool)
    requires spec.Valid() && Usable(raw)
    ensures var bar := Normalized(spec, raw, closed);
            var o, h := SnapPrice(spec, raw.open.value.v), SnapPrice(spec, raw.high.value.v);
            var l, c := SnapPrice(spec, raw.low.value.v), SnapPrice(spec, raw.close.value.v);
            && bar.open == o && bar.close == c && Highest(bar.high, o, h, l, c) && Highest(-bar.low, -o, -h, -l, -c)
            && bar.time == 1000 * raw.tsSeconds && bar.closed == closed && bar.volume >= 0
            && (match raw.volume
                case Some(Fin(v)) =>
                  if v >= -0.5 then bar.volume as real - 0.5 <= v < bar.volume as real + 0.5 else bar.volume == 0
                case _ => bar.volume == 0)
  {
    match raw.volume
    case Some(Fin(v)) => RoundIs(v, Round(v));
    case _ =>
  }

  /** A bar counts as snapped exactly when one of its four prices is off the tick grid. */
  lemma MovedIffOffTick(spec: Instrument, raw: RawBar)
    requires spec.Valid() && Usable(raw)
    ensures Moved(spec, raw)
            <==> exists price :: price in {raw.open, raw.high, raw.low, raw.close} && !OnTick(spec, price.value.v)
  {
    if Moved(spec, raw) {
      assert raw.open in {raw.open} && raw.high in {raw.high} && raw.low in {raw.low} && raw.close in {raw.close};
    }
  }

  /** The vendor's own extremes hold its open and close. */
  predicate ConsistentRaw(raw: RawBar)
    requires Usable(raw)
  {
    raw.low.value.v <= raw.open.value.v <= raw.high.value.v && raw.low.value.v <= raw.close.value.v <= raw.high.value.v
  }

  /** Snapping keeps order, so a consistent bar keeps its own extremes: nothing is invented. */
  lemma ExtremesAreSnapped(spec: Instrument, raw: RawBar, closed: bool)
    requires spec.Valid() && Usable(raw) && ConsistentRaw(raw)
    ensures var bar := Normalized(spec, raw, closed);
            bar.high == SnapPrice(spec, raw.high.value.v) && bar.low == SnapPrice(spec, raw.low.value.v)
  {
    SnapIsMonotone(spec, raw.low.value.v, raw.open.value.v);
    SnapIsMonotone(spec, raw.low.value.v, raw.close.value.v);
    SnapIsMonotone(spec, raw.open.value.v, raw.high.value.v);
    SnapIsMonotone(spec, raw.close.value.v, raw.high.value.v);
  }

  function AsRaw(bar: NormBar): RawBar
  {
    RawBar(bar.time / 1000, Some(Fin(bar.open)), Some(Fin(bar.high)), Some(Fin(bar.low)), Some(Fin(bar.close)),
           Some(Fin(bar.volume as real)))
  }

  /** Normalising is a projection: a normalised bar comes out as it went in. */
  lemma NormalizingTwice(spec: Instrument, raw: RawBar, closed: bool)
    requires spec.Valid() && Usable(raw)
    ensures var bar := Normalized(spec, raw, closed);
            Usable(AsRaw(bar)) && Normalized(spec, AsRaw(bar), closed) == bar && !Moved(spec, AsRaw(bar))
  {
    NormalizedIsSound(spec, raw, closed);
    var volume := Normalized(spec, raw, closed).volume;
    RoundIs(volume as real, volume);
  }
}
