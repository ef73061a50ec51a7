/**
 Fill-price revalidation of a stop-loss and a take-profit
 (order-listener/app/stop_revalidation.py). Prices are exact reals.

 A leg that sits on the wrong side of the fill, or within 0.1% of it, is moved to its asked
 fractional distance from the fill. In distance mode a leg is also moved when its distance
 has drifted by more than 2% of what was asked.
 */
module StopRevalidation {
  import opened Prelude

  const MIN_STOP_DIST_FRAC := 0.001
  const DISTANCE_TOLERANCE := 0.02

  datatype Side = Long | Short

  datatype Change = Change(before: real, after: real)

  datatype Stops = Stops(
    sl: Option<real>, tp: Option<real>, slChange: Option<Change>, tpChange: Option<Change>)

  function FracDist(ref: real, price: real): real {
    if ref <= 0.0 then MIN_STOP_DIST_FRAC
    else Max(Abs(ref - price) / ref, MIN_STOP_DIST_FRAC)
  }

  predicate DistanceDrifted(ref: real, fill: real, stop: real)
    requires fill > 0.0
  {
    var asked := FracDist(ref, stop);
    Abs(Abs(fill - stop) / fill - asked) > asked * DISTANCE_TOLERANCE
  }

  /** The stop-loss of a long and the take-profit of a short sit below the fill. */
  predicate Below(side: Side, isStop: bool) {
    side.Long? == isStop
  }

  /** On its right side of the fill, at least 0.1% away. */
  predicate RightSide(below: bool, fill: real, level: real) {
    if below then level <= fill * (1.0 - MIN_STOP_DIST_FRAC)
    else level >= fill * (1.0 + MIN_STOP_DIST_FRAC)
  }

  /** A fraction away from the fill, on the given side. */
  function Placed(below: bool, fill: real, dist: real): real {
    if below then fill * (1.0 - dist) else fill * (1.0 + dist)
  }

  function Leg(below: bool, ref: real, fill: real, level: real, distanceBased: bool): (r: (real, Option<Change>))
    requires fill > 0.0
  {
    if RightSide(below, fill, level) && !(distanceBased && DistanceDrifted(ref, fill, level)) then
      (level, None)
    else
      var moved := Placed(below, fill, FracDist(ref, level));
      (moved, Some(Change(level, moved)))
  }

  function Revalidate(side: Side, refPrice: Option<real>, fillPrice: Option<real>,
                      sl: Option<real>, tp: Option<real>, distanceBased: bool): Stops
  {
    var ref, fill := refPrice.GetOr(0.0), fillPrice.GetOr(0.0);
    if fill <= 0.0 then Stops(sl, tp, None, None)
    else
      var (sl', slChange) :=
        if sl.None? then (None, None)
        else var (l, c) := Leg(Below(side, true), ref, fill, sl.value, distanceBased); (Some(l), c);
      var (tp', tpChange) :=
        if tp.None? then (None, None)
        else var (l, c) := Leg(Below(side, false), ref, fill, tp.value, distanceBased); (Some(l), c);
      Stops(sl', tp', slChange, tpChange)
  }

  /** What one leg becomes: its fractional distance from the fill. */
  function Got(fill: real, level: real): real
    requires fill > 0.0
  {
    Abs(fill - level) / fill
  }

  /** A level placed at fraction `dist` from the fill is at distance `dist`, on the asked side. */
  lemma PlacedAt(below: bool, fill: real, dist: real)
    requires fill > 0.0 && dist >= MIN_STOP_DIST_FRAC
    ensures var level := Placed(below, fill, dist);
            RightSide(below, fill, level) && Got(fill, level) == dist
  {
    var level := Placed(below, fill, dist);
    assert fill * dist >= fill * MIN_STOP_DIST_FRAC;
    assert Abs(fill - level) == fill * dist;
    assert fill * dist / fill == dist;
  }

  /** A level on its right side is at least the minimum distance away. */
  lemma RightSideDistance(below: bool, fill: real, level: real)
    requires fill > 0.0 && RightSide(below, fill, level)
    ensures Got(fill, level) >= MIN_STOP_DIST_FRAC
  {
    assert Abs(fill - level) >= fill * MIN_STOP_DIST_FRAC;
    Cancel(MIN_STOP_DIST_FRAC, Abs(fill - level) / fill, fill);
  }

  lemma Cancel(x: real, y: real, b: real)
    requires b > 0.0 && x * b <= y * b
    ensures x <= y
  {}

  /** Everything one leg guarantees: validity; when it moves; how far it is from the ask; and
      that a second pass against the fill itself leaves it alone. */
  lemma LegIsSound(below: bool, ref: real, fill: real, level: real, distanceBased: bool)
    requires fill > 0.0
    ensures var (l, change) := Leg(below, ref, fill, level, distanceBased);
            && RightSide(below, fill, l)
            && (change.None? ==> l == level)
            && (change.Some? ==> change.value == Change(level, l) && Got(fill, l) == FracDist(ref, level))
            && (!distanceBased ==> (change.None? <==> RightSide(below, fill, level)))
            && (distanceBased ==> Abs(Got(fill, l) - FracDist(ref, level))
                                  <= FracDist(ref, level) * DISTANCE_TOLERANCE)
            && Leg(below, fill, fill, l, distanceBased) == (l, None)
  {
    hide FracDist, Placed;
    var (l, change) := Leg(below, ref, fill, level, distanceBased);
    AskedIsAtLeastTheMinimum(ref, level);
    PlacedAt(below, fill, FracDist(ref, level));
    assert Got(fill, l) == FracDist(ref, level) || l == level;
    FillAsReferenceKeeps(below, fill, l, distanceBased);
  }

  /** Measured against the fill itself, a valid leg has not drifted at all. */
  lemma FillAsReferenceKeeps(below: bool, fill: real, level: real, distanceBased: bool)
    requires fill > 0.0 && RightSide(below, fill, level)
    ensures Leg(below, fill, fill, level, distanceBased) == (level, None)
  {
    RightSideDistance(below, fill, level);
    assert FracDist(fill, level) == Got(fill, level);
  }

  /** With a positive fill, every returned leg is valid for it and present exactly when it was
      given; in level mode a leg is moved exactly when it was not already valid; and a second
      call that takes the fill as its reference changes nothing. */
  lemma RevalidatedStopsAreValid(side: Side, ref: Option<real>, fill: real, sl: Option<real>,
                                 tp: Option<real>, distanceBased: bool)
    requires fill > 0.0
    ensures var r := Revalidate(side, ref, Some(fill), sl, tp, distanceBased);
            && r.sl.Some? == sl.Some? && r.tp.Some? == tp.Some?
            && (r.sl.Some? ==> RightSide(Below(side, true), fill, r.sl.value))
            && (r.tp.Some? ==> RightSide(Below(side, false), fill, r.tp.value))
            && (r.slChange.None? ==> r.sl == sl) && (r.tpChange.None? ==> r.tp == tp)
            && (!distanceBased && sl.Some? ==> (r.slChange.None? <==> RightSide(Below(side, true), fill, sl.value)))
            && (!distanceBased && tp.Some? ==> (r.tpChange.None? <==> RightSide(Below(side, false), fill, tp.value)))
            && Revalidate(side, Some(fill), Some(fill), r.sl, r.tp, distanceBased)
               == Stops(r.sl, r.tp, None, None)
  {
    var r := ref.GetOr(0.0);
    if sl.Some? { LegIsSound(Below(side, true), r, fill, sl.value, distanceBased); }
    if tp.Some? { LegIsSound(Below(side, false), r, fill, tp.value, distanceBased); }
  }

  /** In level mode the second call may use any reference at all. */
  lemma LevelModeIsIdempotent(side: Side, ref: Option<real>, ref': Option<real>, fill: real,
                              sl: Option<real>, tp: Option<real>)
    requires fill > 0.0
    ensures var r := Revalidate(side, ref, Some(fill), sl, tp, false);
            var again := Revalidate(side, ref', Some(fill), r.sl, r.tp, false);
            again.slChange.None? && again.tpChange.None? && again.sl == r.sl && again.tp == r.tp
  {
    RevalidatedStopsAreValid(side, ref, fill, sl, tp, false);
  }

  /** By how much slippage shifts the distance of a moved level, seen from the reference: a level
      below the fill comes nearer when the fill is above the reference, one above it goes
      further. */
  function Shift(below: bool, ref: real, fill: real, asked: real): real
    requires ref > 0.0
  {
    var slippage := (fill - ref) / ref;
    if below then -slippage * (1.0 - asked) else slippage * (1.0 + asked)
  }

  /** The shifted distance is still within 2% of the asked one. */
  predicate Absorbs(asked: real, shift: real) {
    var shifted := Max(Abs(asked + shift), MIN_STOP_DIST_FRAC);
    0.98 * shifted <= asked <= 1.02 * shifted
  }

  lemma Swap(a: real, b: real, c: real)
    ensures (a * b) * c == (a * c) * b
  {}

  lemma Distribute(a: real, b: real, c: real)
    ensures (a + b) * c == a * c + b * c
  {}

  lemma SlippageTimesReference(ref: real, fill: real)
    requires ref > 0.0
    ensures (fill - ref) / ref * ref == fill - ref
  {}

  lemma ShiftTimesReference(below: bool, ref: real, fill: real, asked: real)
    requires ref > 0.0
    ensures Shift(below, ref, fill, asked) * ref ==
              if below then -(fill - ref) * (1.0 - asked) else (fill - ref) * (1.0 + asked)
  {
    var slippage := (fill - ref) / ref;
    SlippageTimesReference(ref, fill);
    if below {
      Swap(-slippage, 1.0 - asked, ref);
    } else {
      Swap(slippage, 1.0 + asked, ref);
    }
  }

  lemma AbsScales(a: real, ref: real)
    requires ref > 0.0
    ensures Abs(a * ref) == Abs(a) * ref
  {
    if a >= 0.0 {
      assert a * ref >= 0.0;
    } else {
      assert (-a) * ref > 0.0;
    }
  }

  lemma DistanceFromReference(below: bool, ref: real, fill: real, asked: real)
    requires ref > 0.0
    ensures FracDist(ref, Placed(below, fill, asked)) ==
              Max(Abs(asked + Shift(below, ref, fill, asked)), MIN_STOP_DIST_FRAC)
  {
    hide Shift;
    var l := Placed(below, fill, asked);
    var shift := Shift(below, ref, fill, asked);
    ShiftTimesReference(below, ref, fill, asked);
    Distribute(asked, shift, ref);
    assert (asked + shift) * ref == if below then ref - l else l - ref;
    AbsScales(asked + shift, ref);
    SameQuotient(Abs(ref - l), ref, Abs(asked + shift));
  }

  /** In distance mode a second call on the same reference asks for another distance than the
      first, namely that of the stop the first one placed. It changes nothing exactly when the
      first call left the level alone, or slippage was small enough for the asked distance to
      absorb it. */
  lemma TwiceOnOneReferenceIsOnceIff(below: bool, ref: real, fill: real, level: real)
    requires ref > 0.0 && fill > 0.0
    ensures var asked := FracDist(ref, level);
            var once := Leg(below, ref, fill, level, true).0;
            (Leg(below, ref, fill, once, true) == (once, None) <==>
               || (RightSide(below, fill, level) && !DistanceDrifted(ref, fill, level))
               || Absorbs(asked, Shift(below, ref, fill, asked)))
  {
    hide FracDist, Shift, Placed;
    var asked := FracDist(ref, level);
    var once := Leg(below, ref, fill, level, true).0;
    if !(RightSide(below, fill, level) && !DistanceDrifted(ref, fill, level)) {
      AskedIsAtLeastTheMinimum(ref, level);
      PlacedAt(below, fill, asked);
      DistanceFromReference(below, ref, fill, asked);
      var again := FracDist(ref, once);
      assert again == Max(Abs(asked + Shift(below, ref, fill, asked)), MIN_STOP_DIST_FRAC);
      assert DistanceDrifted(ref, fill, once) <==> Abs(asked - again) > again * DISTANCE_TOLERANCE;
    }
  }

  lemma AskedIsAtLeastTheMinimum(ref: real, level: real)
    ensures FracDist(ref, level) >= MIN_STOP_DIST_FRAC
  {}

  /** For a slippage that leaves the level on its side of the reference, that is: within two
      parts in 102 towards the reference and two parts in 98 away from it. */
  lemma AbsorbsIff(asked: real, shift: real)
    requires asked >= MIN_STOP_DIST_FRAC && asked + shift >= MIN_STOP_DIST_FRAC
    ensures Absorbs(asked, shift) <==> -(2.0 / 102.0) * asked <= shift <= (2.0 / 98.0) * asked
  {
    assert 0.98 * (asked + shift) <= asked <==> shift <= (2.0 / 98.0) * asked;
    assert asked <= 1.02 * (asked + shift) <==> -(2.0 / 102.0) * asked <= shift;
  }

  /** Filled ten percent away from the reference, a stop asked for at 1% is moved again by a
      second call, to eight times its distance. */
  lemma DistanceModeMovesAgainOnOldReference()
    ensures var once := Revalidate(Long, Some(100.0), Some(110.0), Some(99.0), None, true);
            var twice := Revalidate(Long, Some(100.0), Some(110.0), once.sl, None, true);
            once.sl == Some(108.9) && twice.sl == Some(100.21)
  {
  }

  lemma QuotientBounds(a: real, b: real, x: real, y: real)
    requires x > 0.0 && y > 0.0
    requires 0.98 * x <= a <= 1.02 * x && 0.98 * y <= b <= 1.02 * y
    ensures a / b >= (x / y) * (0.98 / 1.02)
    ensures a / b <= (x / y) * (1.02 / 0.98)
  {
    Cross(a, b, 0.98 * x, 1.02 * y);
    Cross(1.02 * x, 0.98 * y, a, b);
    Scaled(x, y, 0.98, 1.02);
    Scaled(x, y, 1.02, 0.98);
  }

  lemma Scaled(x: real, y: real, m: real, n: real)
    requires x > 0.0 && y > 0.0 && m > 0.0 && n > 0.0
    ensures (m * x) / (n * y) == (x / y) * (m / n)
  {
    var k, s := x / y, m / n;
    calc {
      (k * s) * (n * y);
      (k * y) * (s * n);
      { assert k * y == x && s * n == m; }
      x * m;
    }
    SameQuotient(m * x, n * y, k * s);
  }

  lemma SameQuotient(a: real, b: real, q: real)
    requires b > 0.0 && q * b == a
    ensures a / b == q
  {
    var r := a / b;
    assert (r - q) * b == 0.0;
  }

  lemma Cross(a: real, b: real, c: real, d: real)
    requires a >= c >= 0.0 && 0.0 < b <= d
    ensures a / b >= c / d
  {
    var q, r := a / b, c / d;
    assert q * b == a && r * d == c && r >= 0.0;
    assert r * b <= r * d;
    Cancel(r, q, b);
  }

  /** Distance mode keeps the reward/risk of the ask within 0.98/1.02 and 1.02/0.98, whatever
      the slippage. */
  lemma RewardRiskIsKept(side: Side, ref: Option<real>, fill: real, sl: real, tp: real)
    requires fill > 0.0
    ensures var r := Revalidate(side, ref, Some(fill), Some(sl), Some(tp), true);
            var asked := FracDist(ref.GetOr(0.0), tp) / FracDist(ref.GetOr(0.0), sl);
            && Got(fill, r.sl.value) > 0.0
            && asked * (0.98 / 1.02) <= Got(fill, r.tp.value) / Got(fill, r.sl.value) <= asked * (1.02 / 0.98)
  {
    var rf := ref.GetOr(0.0);
    LegIsSound(Below(side, true), rf, fill, sl, true);
    LegIsSound(Below(side, false), rf, fill, tp, true);
    var r := Revalidate(side, ref, Some(fill), Some(sl), Some(tp), true);
    QuotientBounds(Got(fill, r.tp.value), Got(fill, r.sl.value), FracDist(rf, tp), FracDist(rf, sl));
  }
}
