/**
 * Tick arithmetic. Prices are exact reals here (no binary rounding); `Round` is
 * JavaScript's Math.round, which sends a tie up, not away from zero.
 */
module Ticks {
  import opened Common

  /** The part of an instrument this arithmetic uses: 10 ** precision, tick size, tick value. */
  datatype Instrument = Instrument(scale: int, tickSizeScaled: int, tickValueMicros: int) {
    predicate Valid() { scale > 0 && tickSizeScaled > 0 && tickValueMicros > 0 }
  }

  function Round(x: real): int { (x + 0.5).Floor }

  /** A price in scale units, before rounding. */
  function InUnits(spec: Instrument, price: real): real { price * spec.scale as real }

  function Scaled(spec: Instrument, price: real): int {
    Round(InUnits(spec, price))
  }

  /** The ticks nearest to a number of scale units. */
  function Nearest(scaled: int, tick: int): int
    requires tick > 0
  {
    Round(scaled as real / tick as real)
  }

  function PriceToTicks(spec: Instrument, price: real): int
    requires spec.Valid()
  {
    Nearest(Scaled(spec, price), spec.tickSizeScaled)
  }

  function TicksToPrice(spec: Instrument, ticks: int): real
    requires spec.Valid()
  {
    (ticks * spec.tickSizeScaled) as real / spec.scale as real
  }

  function SnapPrice(spec: Instrument, price: real): real
    requires spec.Valid()
  {
    TicksToPrice(spec, PriceToTicks(spec, price))
  }

  /** A scaled price that is, but for noise, a whole number of ticks. */
  predicate OnGrid(x: real, tick: int)
    requires tick > 0
  {
    Abs(x - Round(x) as real) <= 0.000001 && Round(x) % tick == 0
  }

  predicate IsValidTickPrice(spec: Instrument, price: real)
    requires spec.Valid()
  {
    OnGrid(InUnits(spec, price), spec.tickSizeScaled)
  }

  function TicksToMicros(spec: Instrument, ticks: int, qty: int): int {
    ticks * qty * spec.tickValueMicros
  }

  function MicrosToTicks(spec: Instrument, micros: int, qty: int): int
    requires spec.Valid()
  {
    if qty <= 0 then 0 else Quotient(micros, qty, spec.tickValueMicros)
  }

  function Quotient(micros: int, qty: int, value: int): int
    requires qty > 0 && value > 0
  {
    PositiveProduct(qty, value);
    micros / (qty * value)
  }

  lemma PositiveProduct(a: int, b: int)
    requires a > 0 && b > 0
    ensures a * b > 0
  {
  }

  // ---------------------------------------------------------------- rounding

  /** The rounded value is the integer within half of `x`, the upper one on a tie. */
  lemma RoundIs(x: real, r: int)
    ensures r == Round(x) <==> r as real - 0.5 <= x < r as real + 0.5
  {
  }

  /** Rounding is symmetric around zero exactly off the ties. */
  lemma RoundSymmetricIff(x: real)
    ensures Round(-x) == -Round(x) <==> x != Round(x) as real - 0.5
  {
    RoundIs(-x, -Round(x));
  }

  /** Rounding a quotient, without dividing. */
  lemma RoundQuotient(s: int, t: int, r: int)
    requires t > 0
    ensures r == Nearest(s, t) <==> (2 * r - 1) * t <= 2 * s < (2 * r + 1) * t
  {
    var q := s as real / t as real;
    RoundIs(q, r);
    QuotientAgainst(s as real, t as real, r as real - 0.5);
    QuotientAgainst(s as real, t as real, r as real + 0.5);
    Halves(r, t);
  }

  lemma QuotientAgainst(s: real, t: real, bound: real)
    requires t > 0.0
    ensures bound <= s / t <==> bound * t <= s
    ensures s / t < bound <==> s < bound * t
  {
    var q := s / t;
    assert q * t == s;
    Scale(bound, q, t);
    Scale(q, bound, t);
  }

  lemma Scale(a: real, b: real, t: real)
    requires t > 0.0
    ensures a <= b <==> a * t <= b * t
    ensures a < b <==> a * t < b * t
  {
    if a < b { assert (b - a) * t > 0.0; }
    if b < a { assert (a - b) * t > 0.0; }
  }

  lemma Halves(r: int, t: int)
    ensures 2.0 * ((r as real - 0.5) * t as real) == ((2 * r - 1) * t) as real
    ensures 2.0 * ((r as real + 0.5) * t as real) == ((2 * r + 1) * t) as real
  {
    assert ((2 * r - 1) * t) as real == (2 * r - 1) as real * t as real;
    assert ((2 * r + 1) * t) as real == (2 * r + 1) as real * t as real;
  }

  lemma {:induction false} Multiples(a: int, b: int, t: int)
    requires t > 0
    ensures a <= b <==> a * t <= b * t
    ensures a < b <==> a * t < b * t
  {
    if a < b { assert (b - a) * t > 0; }
    if b < a { assert (a - b) * t > 0; }
  }

  // ---------------------------------------------------------------- snapping

  /** The scaled price of a whole number of ticks is that number times the tick. */
  lemma ScaledTicks(spec: Instrument, ticks: int)
    requires spec.Valid()
    ensures InUnits(spec, TicksToPrice(spec, ticks)) == (ticks * spec.tickSizeScaled) as real
    ensures Scaled(spec, TicksToPrice(spec, ticks)) == ticks * spec.tickSizeScaled
  {
    RoundIs((ticks * spec.tickSizeScaled) as real, ticks * spec.tickSizeScaled);
  }

  /** Ticks survive the way to a price and back. */
  lemma TicksRoundTrip(spec: Instrument, ticks: int)
    requires spec.Valid()
    ensures PriceToTicks(spec, TicksToPrice(spec, ticks)) == ticks
  {
    ScaledTicks(spec, ticks);
    var t := spec.tickSizeScaled;
    RoundQuotient(ticks * t, t, ticks);
    assert (2 * ticks - 1) * t == 2 * (ticks * t) - t;
    assert (2 * ticks + 1) * t == 2 * (ticks * t) + t;
  }

  lemma SnapIsIdempotent(spec: Instrument, price: real)
    requires spec.Valid()
    ensures SnapPrice(spec, SnapPrice(spec, price)) == SnapPrice(spec, price)
  {
    TicksRoundTrip(spec, PriceToTicks(spec, price));
  }

  lemma TicksMonotone(spec: Instrument, a: real, b: real)
    requires spec.Valid() && a <= b
    ensures PriceToTicks(spec, a) <= PriceToTicks(spec, b)
  {
    Scale(a, b, spec.scale as real);
    QuotientMonotone(Scaled(spec, a), Scaled(spec, b), spec.tickSizeScaled);
  }

  lemma QuotientMonotone(a: int, b: int, t: int)
    requires t > 0 && a <= b
    ensures Nearest(a, t) <= Nearest(b, t)
  {
    var ra, rb := Nearest(a, t), Nearest(b, t);
    RoundQuotient(a, t, ra);
    RoundQuotient(b, t, rb);
    if rb < ra { Multiples(2 * rb + 1, 2 * ra - 1, t); }
  }

  lemma PriceMonotone(spec: Instrument, a: int, b: int)
    requires spec.Valid()
    ensures TicksToPrice(spec, a) <= TicksToPrice(spec, b) <==> a <= b
  {
    ScaledTicks(spec, a);
    ScaledTicks(spec, b);
    Multiples(a, b, spec.tickSizeScaled);
    Scale(TicksToPrice(spec, a), TicksToPrice(spec, b), spec.scale as real);
  }

  /** Snapping keeps the order of prices. */
  lemma SnapIsMonotone(spec: Instrument, a: real, b: real)
    requires spec.Valid() && a <= b
    ensures SnapPrice(spec, a) <= SnapPrice(spec, b)
  {
    TicksMonotone(spec, a, b);
    PriceMonotone(spec, PriceToTicks(spec, a), PriceToTicks(spec, b));
  }

  /** A snapped price is off by at most half a tick and half a scale unit, counted in scale units. */
  lemma SnapError(spec: Instrument, price: real)
    requires spec.Valid()
    ensures 2.0 * Abs(InUnits(spec, SnapPrice(spec, price)) - InUnits(spec, price)) <= (spec.tickSizeScaled + 1) as real
  {
    var x, t, n := InUnits(spec, price), spec.tickSizeScaled, PriceToTicks(spec, price);
    ScaledTicks(spec, n);
    RoundIs(x, Scaled(spec, price));
    NearestTicks(Scaled(spec, price), t);
    WithinHalves(x, Scaled(spec, price), n * t, t);
  }

  lemma NearestTicks(s: int, t: int)
    requires t > 0
    ensures 2 * (Nearest(s, t) * t) - t <= 2 * s < 2 * (Nearest(s, t) * t) + t
  {
    var n := Nearest(s, t);
    RoundQuotient(s, t, n);
    assert (2 * n - 1) * t == 2 * (n * t) - t && (2 * n + 1) * t == 2 * (n * t) + t;
  }

  lemma WithinHalves(x: real, s: int, nt: int, t: int)
    requires s as real - 0.5 <= x < s as real + 0.5 && 2 * nt - t <= 2 * s < 2 * nt + t
    ensures 2.0 * Abs(nt as real - x) <= (t + 1) as real
  {
  }

  /** A price is a valid tick price exactly when snapping moves it by at most a millionth of a scale unit. */
  lemma ValidIffUnmoved(spec: Instrument, price: real)
    requires spec.Valid()
    ensures IsValidTickPrice(spec, price)
            <==> Abs(InUnits(spec, price) - InUnits(spec, SnapPrice(spec, price))) <= 0.000001
  {
    ScaledTicks(spec, PriceToTicks(spec, price));
    UnmovedIffOnGrid(InUnits(spec, price), InUnits(spec, SnapPrice(spec, price)), spec.tickSizeScaled);
  }

  /** How far rounding to ticks moves a scaled price. */
  function Moved(x: real, tick: int): real
    requires tick > 0
  {
    Abs(x - (Nearest(Round(x), tick) * tick) as real)
  }

  lemma ValidScaled(x: real, t: int)
    requires t > 0
    ensures OnGrid(x, t) <==> Moved(x, t) <= 0.000001
  {
    var s := Round(x);
    if s % t == 0 { ExactTicks(s, t); }
    var n := Nearest(s, t);
    if Moved(x, t) <= 0.000001 {
      RoundIs(x, n * t);
      ExactMultiple(n, t);
    }
  }

  lemma UnmovedIffOnGrid(x: real, y: real, t: int)
    requires t > 0 && y == (Nearest(Round(x), t) * t) as real
    ensures OnGrid(x, t) <==> Abs(x - y) <= 0.000001
  {
    ValidScaled(x, t);
  }

  lemma ExactTicks(s: int, t: int)
    requires t > 0 && s % t == 0
    ensures Nearest(s, t) * t == s
  {
    var k := s / t;
    assert s == k * t;
    RoundQuotient(s, t, k);
    assert (2 * k - 1) * t == 2 * (k * t) - t && (2 * k + 1) * t == 2 * (k * t) + t;
  }

  lemma ExactMultiple(n: int, t: int)
    requires t > 0
    ensures (n * t) % t == 0
  {
    var q, r := (n * t) / t, (n * t) % t;
    assert n * t == q * t + r;
    assert (n - q) * t == r;
    if n > q { Multiples(1, n - q, t); }
    if n < q { Multiples(n - q, -1, t); }
  }

  // ---------------------------------------------------------------- snapping is not symmetric

  /** Twice the scaled value halfway between tick `k` and the next. */
  function Midway(spec: Instrument, k: int): int { (2 * k + 1) * spec.tickSizeScaled }

  /** A price halfway between two scale units. */
  predicate ScaleTie(spec: Instrument, price: real) {
    InUnits(spec, price) == Scaled(spec, price) as real - 0.5
  }

  /**
   * Snapping is symmetric around zero exactly when no midpoint between ticks is hit:
   * by the scaled price, or, where the scaled price itself was a tie, by anything
   * between its two neighbours.
   */
  lemma SnapSymmetricIff(spec: Instrument, price: real)
    requires spec.Valid()
    ensures var s := Scaled(spec, price);
            var low := if ScaleTie(spec, price) then 2 * s - 2 else 2 * s;
            PriceToTicks(spec, -price) == -PriceToTicks(spec, price)
            <==> forall k :: !(low <= Midway(spec, k) <= 2 * s)
  {
    var t, s, r := spec.tickSizeScaled, Scaled(spec, price), PriceToTicks(spec, price);
    var tie := ScaleTie(spec, price);
    var low := if tie then 2 * s - 2 else 2 * s;
    NegatedScaled(spec, price);
    var negated := if tie then 1 - s else -s;
    RoundQuotient(s, t, r);
    RoundQuotient(negated, t, -r);
    assert (2 * -r - 1) * t == -((2 * r + 1) * t) && (2 * -r + 1) * t == -((2 * r - 1) * t);
    assert PriceToTicks(spec, -price) == -r <==> Midway(spec, r - 1) < low;
    forall k
      ensures low <= Midway(spec, k) <= 2 * s ==> low <= Midway(spec, r - 1)
    {
      if k > r - 1 { Multiples(2 * r + 1, 2 * k + 1, t); } else { Multiples(2 * k + 1, 2 * r - 1, t); }
    }
    assert Midway(spec, r - 1) <= 2 * s;
  }

  lemma NegatedScaled(spec: Instrument, price: real)
    ensures Scaled(spec, -price) == if ScaleTie(spec, price) then 1 - Scaled(spec, price) else -Scaled(spec, price)
  {
    var x := InUnits(spec, price);
    assert InUnits(spec, -price) == -x;
    RoundIs(x, Round(x));
    RoundIs(-x, -Round(x));
    RoundIs(-x, 1 - Round(x));
  }

  /** Crude oil, which may trade below zero. */
  const CL := Instrument(100, 1, 10_000_000)

  /** One such price: half a cent of crude snaps up on both sides of zero. */
  lemma HalfCentIsNotSymmetric()
    ensures SnapPrice(CL, 0.005) == 0.01 && SnapPrice(CL, -0.005) == 0.0
  {
    assert InUnits(CL, 0.005) == 0.5 && InUnits(CL, -0.005) == -0.5;
    RoundIs(0.5, 1);
    RoundIs(-0.5, 0);
    RoundQuotient(1, 1, 1);
    RoundQuotient(0, 1, 0);
  }

  // ---------------------------------------------------------------- money

  /** One tick of one contract is worth the tick value, and worth adds up over ticks and contracts; no contracts buy no ticks. */
  lemma TickMoney(spec: Instrument, a: int, b: int, qty: int, more: int, micros: int)
    requires spec.Valid()
    ensures TicksToMicros(spec, 1, 1) == spec.tickValueMicros
    ensures TicksToMicros(spec, a + b, qty) == TicksToMicros(spec, a, qty) + TicksToMicros(spec, b, qty)
    ensures TicksToMicros(spec, a, qty + more) == TicksToMicros(spec, a, qty) + TicksToMicros(spec, a, more)
    ensures qty <= 0 ==> MicrosToTicks(spec, micros, qty) == 0
  {
    Distributes(a, b, qty, spec.tickValueMicros);
    Distributes(qty, more, a, spec.tickValueMicros);
    assert a * (qty + more) == (qty + more) * a && a * qty == qty * a && a * more == more * a;
  }

  lemma Distributes(a: int, b: int, c: int, d: int)
    ensures (a + b) * c * d == a * c * d + b * c * d
  {
    assert (a + b) * c == a * c + b * c;
    assert (a * c + b * c) * d == (a * c) * d + (b * c) * d;
  }

  /** The ticks a budget buys are the most that cost no more than the budget. */
  lemma BudgetBuys(spec: Instrument, micros: int, qty: int, ticks: int)
    requires spec.Valid() && qty > 0
    ensures ticks <= MicrosToTicks(spec, micros, qty) <==> TicksToMicros(spec, ticks, qty) <= micros
  {
    var d := qty * spec.tickValueMicros;
    PositiveProduct(qty, spec.tickValueMicros);
    assert TicksToMicros(spec, ticks, qty) == ticks * d;
    var q := micros / d;
    assert q * d <= micros < q * d + d;
    assert (q + 1) * d == q * d + d;
    Multiples(ticks, q, d);
    Multiples(q + 1, ticks, d);
  }

  /** Money made of whole ticks converts back to exactly those ticks. */
  lemma MicrosRoundTrip(spec: Instrument, ticks: int, qty: int)
    requires spec.Valid() && qty > 0
    ensures MicrosToTicks(spec, TicksToMicros(spec, ticks, qty), qty) == ticks
  {
    var micros := TicksToMicros(spec, ticks, qty);
    BudgetBuys(spec, micros, qty, ticks);
    BudgetBuys(spec, micros, qty, ticks + 1);
    var d := qty * spec.tickValueMicros;
    PositiveProduct(qty, spec.tickValueMicros);
    assert TicksToMicros(spec, ticks, qty) == ticks * d && TicksToMicros(spec, ticks + 1, qty) == (ticks + 1) * d;
    Multiples(ticks, ticks + 1, d);
  }
}
