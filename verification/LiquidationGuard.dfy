/**
 The after-fill liquidation guard (order-listener/app/reconciler.py, _guard_liquidation_safety)
 with the price rounding it uses (order-listener/app/webhook_handler.py, _infer_price_decimals).

 A resting stop on the wrong side of the exchange's liquidation price is replaced by one
 between entry and liquidation, rounded to a number of decimals that depends on the price.
 Prices are exact reals; the one rounding step is explicit.
 */
module LiquidationGuard {
  import opened Prelude
  import ModifyStops

  datatype Side = Long | Short

  const TIGHTEN_MARGIN_FRAC := 0.10
  const TIGHTEN_MIN_MARGIN_FRAC := 0.0005
  const TIGHTEN_MAX_MARGIN_FRAC := 0.90

  /** Ten to the power of the decimals inferred from a price. */
  function PriceScale(price: real): real {
    if price >= 10000.0 then 10.0
    else if price >= 1000.0 then 100.0
    else if price >= 100.0 then 1000.0
    else if price >= 10.0 then 10000.0
    else if price >= 1.0 then 100000.0
    else 1000000.0
  }

  function RoundPrice(x: real, scale: real): real
    requires scale > 0.0
  {
    RoundHalfEven(x * scale) as real / scale
  }

  /** Half of the smallest price step at this price: the most rounding can move a price. */
  function HalfStep(price: real): real {
    0.5 / PriceScale(price)
  }

  lemma RoundPriceMovesAtMostHalfAStep(x: real, price: real)
    ensures Abs(RoundPrice(x, PriceScale(price)) - x) <= HalfStep(price)
  {
    var s := PriceScale(price);
    var n := RoundHalfEven(x * s) as real;
    assert Abs(x * s - n) <= 0.5;
    assert n / s - x == (n - x * s) / s;
  }

  /** Half a step is at most five millionths of the price in every band from 0.1 upward. */
  lemma HalfStepIsTiny(price: real)
    requires price >= 0.1
    ensures HalfStep(price) <= 0.000005 * price
  {}

  function Margin(entry: real, distance: real): real {
    Min(Max(distance * TIGHTEN_MARGIN_FRAC, entry * TIGHTEN_MIN_MARGIN_FRAC),
        distance * TIGHTEN_MAX_MARGIN_FRAC)
  }

  /** The margin to liquidation, by the distance from the entry: a tenth of it, but at least five
      hundredths of a percent of the entry, and never more than nine tenths of it. */
  lemma MarginByDistance(entry: real, distance: real)
    requires entry > 0.0 && distance > 0.0
    ensures Margin(entry, distance) ==
              if distance >= entry / 200.0 then distance / 10.0
              else if distance >= entry / 1800.0 then entry / 2000.0
              else distance * 9.0 / 10.0
  {}

  function Distance(entry: real, liq: real): real {
    Abs(liq - entry)
  }

  /** The stop before it is rounded. */
  function Asked(side: Side, entry: real, liq: real): real {
    var margin := Margin(entry, Distance(entry, liq));
    if side.Short? then liq - margin else liq + margin
  }

  function TightenedStop(side: Side, entry: real, liq: real): real {
    RoundPrice(Asked(side, entry, liq), PriceScale(entry))
  }

  predicate Unsafe(side: Side, sl: real, liq: real) {
    if side.Short? then sl >= liq else sl <= liq
  }

  /** The price step that holds a liquidation price starts this many steps up, on the losing side. */
  function StepOf(side: Side, liq: real, scale: real): int {
    if side.Short? then -(-liq * scale).Floor - 1 else (liq * scale).Floor
  }

  /** A price clears the middle of the step that holds the liquidation price; one on the very middle
      is rounded to the even end. */
  predicate ClearsHalfAStep(side: Side, x: real, liq: real, scale: real) {
    var m := StepOf(side, liq, scale);
    var middle := m as real + 0.5;
    if side.Short? then x * scale < middle || (x * scale == middle && m % 2 == 0)
    else x * scale > middle || (x * scale == middle && m % 2 == 1)
  }

  lemma RoundsUpIff(y: real, m: int)
    ensures RoundHalfEven(y) > m <==> y > m as real + 0.5 || (y == m as real + 0.5 && m % 2 == 1)
  {}

  lemma QuotientAgainst(a: real, b: real, q: real)
    requires b > 0.0
    ensures (a / b <= q <==> a <= q * b) && (a / b >= q <==> a >= q * b)
  {
    QuotientAtMost(a, b, q);
    QuotientAtMost(-a, b, -q);
    assert -a / b == -(a / b);
  }

  /** Exactly when a rounded price is on the safe side of liquidation. */
  lemma RoundedIsSafeIff(side: Side, x: real, liq: real, scale: real)
    requires scale > 0.0
    ensures !Unsafe(side, RoundPrice(x, scale), liq) <==> ClearsHalfAStep(side, x, liq, scale)
  {
    var m := StepOf(side, liq, scale);
    RoundsUpIff(x * scale, m);
    QuotientAgainst(RoundHalfEven(x * scale) as real, scale, liq);
    hide RoundHalfEven;
    assert -liq * scale == -(liq * scale);
  }

  function Opposite(side: Side): Side {
    if side.Short? then Long else Short
  }

  /** For every entry and liquidation price: the new stop is strictly between the two exactly when
      it clears, before it is rounded, half a price step on either side. */
  lemma TightenedStopIsBetweenIff(side: Side, entry: real, liq: real)
    ensures var sl := TightenedStop(side, entry, liq);
            && (!Unsafe(side, sl, liq) <==> ClearsHalfAStep(side, Asked(side, entry, liq), liq, PriceScale(entry)))
            && ((if side.Short? then sl > entry else sl < entry) <==>
                  ClearsHalfAStep(Opposite(side), Asked(side, entry, liq), entry, PriceScale(entry)))
  {
    hide ClearsHalfAStep, RoundPrice, Margin;
    RoundedIsSafeIff(side, Asked(side, entry, liq), liq, PriceScale(entry));
    RoundedIsSafeIff(Opposite(side), Asked(side, entry, liq), entry, PriceScale(entry));
  }

  /** The new stop is safe whenever rounding cannot eat the margin. */
  lemma TightenedStopIsSafe(side: Side, entry: real, liq: real)
    requires HalfStep(entry) < Margin(entry, Distance(entry, liq))
    ensures !Unsafe(side, TightenedStop(side, entry, liq), liq)
  {
    RoundPriceMovesAtMostHalfAStep(Asked(side, entry, liq), entry);
  }

  /** And strictly between liquidation and entry whenever it cannot eat the rest either. */
  lemma TightenedStopIsBetween(side: Side, entry: real, liq: real)
    requires if side.Short? then entry < liq else liq < entry
    requires var distance := Distance(entry, liq);
             HalfStep(entry) < Margin(entry, distance) && HalfStep(entry) < distance - Margin(entry, distance)
    ensures var sl := TightenedStop(side, entry, liq);
            if side.Short? then entry < sl < liq else liq < sl < entry
  {
    RoundPriceMovesAtMostHalfAStep(Asked(side, entry, liq), entry);
  }

  /** Both conditions hold in every price band from 0.1 upward once the liquidation price is
      more than 0.005% of the entry away: the new stop is strictly inside, for both sides. */
  lemma TightenedStopIsBetweenInEveryBand(side: Side, entry: real, liq: real)
    requires entry >= 0.1 && Distance(entry, liq) > 0.00005 * entry
    requires if side.Short? then entry < liq else liq < entry
    ensures var sl := TightenedStop(side, entry, liq);
            && (if side.Short? then entry < sl < liq else liq < sl < entry)
            && !Unsafe(side, sl, liq)
  {
    HalfStepIsTiny(entry);
    TightenedStopIsBetween(side, entry, liq);
  }

  /** At exactly 0.005% the strict side is lost: this long's stop is rounded onto its entry. */
  lemma RoundedOntoEntry()
    ensures Distance(1.0, 0.99995) == 0.00005 * 1.0
    ensures TightenedStop(Long, 1.0, 0.99995) == 1.0
  {
    assert Margin(1.0, 0.00005) == 0.000045;
    assert 0.999995 * 100000.0 == 99999.5;
    assert (99999.5).Floor == 99999;
  }

  /** And a coin below 0.1 has no room for a stop between its entry and a liquidation price 5% away:
      its prices have six decimals. */
  lemma CheapCoinStopLandsOnEntry()
    ensures TightenedStop(Long, 0.00001, 0.0000095) == 0.00001
  {
    assert Asked(Long, 0.00001, 0.0000095) == 0.00000955;
    assert 0.00000955 * 1000000.0 == 9.55;
    assert (9.55).Floor == 9;
  }

  lemma LandingsReach(side: Side, sl: real, liq: real)
    requires sl > 0.0
    ensures (forall landed :: ModifyStops.Lands(landed, sl) ==> !Unsafe(side, landed, liq))
       <==> (if side.Short? then liq - sl else sl - liq) > ModifyStops.PRICE_TOLERANCE * sl
  {
    var slack := ModifyStops.PRICE_TOLERANCE * sl;
    var edge := if side.Short? then sl + slack else sl - slack;
    forall landed ensures ModifyStops.Lands(landed, sl) <==> Abs(landed - sl) <= slack {
      QuotientAtMost(Abs(landed - sl), sl, ModifyStops.PRICE_TOLERANCE);
    }
    assert ModifyStops.Lands(edge, sl);
  }

  /** Every price at which the placed stop would count as confirmed is on the safe side. */
  ghost predicate SafeWhereverItLands(side: Side, entry: real, liq: real) {
    forall landed :: ModifyStops.Lands(landed, TightenedStop(side, entry, liq)) ==> !Unsafe(side, landed, liq)
  }

  /** What rounding leaves of the margin. */
  function MarginLeft(side: Side, entry: real, liq: real): real {
    if side.Short? then liq - TightenedStop(side, entry, liq) else TightenedStop(side, entry, liq) - liq
  }

  /** A stop that is confirmed is taken to be safe by construction. It is, wherever it landed,
      exactly when the margin the guard left exceeds the placement tolerance at that price. */
  lemma EveryLandingIsSafeIff(side: Side, entry: real, liq: real)
    requires TightenedStop(side, entry, liq) > 0.0
    ensures SafeWhereverItLands(side, entry, liq)
       <==> MarginLeft(side, entry, liq) > ModifyStops.PRICE_TOLERANCE * TightenedStop(side, entry, liq)
  {
    LandingsReach(side, TightenedStop(side, entry, liq), liq);
  }

  /** In terms of the distance alone: a liquidation price at least 1.02% away is far enough, in
      every price band from 0.1 upward and for both sides; one at most 0.98% away is not. */
  lemma LandingIsSafeByDistance(side: Side, entry: real, liq: real)
    requires entry >= 0.1 && liq > 0.0 && (if side.Short? then entry < liq else liq < entry)
    ensures Distance(entry, liq) >= 0.0102 * Max(entry, liq) ==> SafeWhereverItLands(side, entry, liq)
    ensures Distance(entry, liq) <= 0.0098 * Min(entry, liq) ==> !SafeWhereverItLands(side, entry, liq)
  {
    hide RoundPrice, PriceScale, HalfStep, SafeWhereverItLands;
    RoundPriceMovesAtMostHalfAStep(Asked(side, entry, liq), entry);
    HalfStepIsTiny(entry);
    if Distance(entry, liq) >= 0.0102 * Max(entry, liq) || Distance(entry, liq) <= 0.0098 * Min(entry, liq) {
      EveryLandingIsSafeIff(side, entry, liq);
    }
  }

  /** A long entered at 100 that is liquidated at 99.5: the stop is asked for at 99.55, and 99.46
      would be confirmed. */
  lemma ConfirmedBeyondLiquidation()
    ensures TightenedStop(Long, 100.0, 99.5) == 99.55
    ensures ModifyStops.Lands(99.46, 99.55) && Unsafe(Long, 99.46, 99.5)
  {
    assert Margin(100.0, 0.5) == 0.05;
    assert 99.55 * 1000.0 == 99550.0;
    assert (99550.0).Floor == 99550;
    QuotientAtMost(0.09, 99.55, ModifyStops.PRICE_TOLERANCE);
  }

  // ---------------------------------------------------------------------------------
  // One pass over an account
  // ---------------------------------------------------------------------------------

  /** What the exchange reports of a live position. Absent prices were missing or unreadable. */
  datatype Live = Live(entry: Option<real>, liq: Option<real>)

  /** An open database row: its key on the exchange, and whether a missing stop is the guard's
      own gap to close. */
  datatype Row<Key> = Row(key: Key, side: Side, managed: bool)

  /** The stop the guard would place for a row, given the stop resting now; None to leave it. */
  function Decide(side: Side, managed: bool, live: Live, resting: Option<real>): Option<real> {
    if live.liq.None? || live.liq.value <= 0.0 then None
    else if resting.None? && !managed then None
    else if resting.Some? && !Unsafe(side, resting.value, live.liq.value) then None
    else if live.entry.None? || live.entry.value <= 0.0 then None
    else if Distance(live.entry.value, live.liq.value) <= 0.0 then None
    else Some(TightenedStop(side, live.entry.value, live.liq.value))
  }

  /** Rounding cannot eat the margin at these prices. */
  predicate Roomy(live: Live) {
    live.entry.Some? && live.liq.Some? ==>
      HalfStep(live.entry.value) < Margin(live.entry.value, Distance(live.entry.value, live.liq.value))
  }

  /** The exchange says where the position is liquidated and where it was entered. */
  predicate Readable(live: Live) {
    && live.liq.Some? && live.liq.value > 0.0
    && live.entry.Some? && live.entry.value > 0.0 && live.entry.value != live.liq.value
  }

  /** A stop that the market reaches before it reaches liquidation. */
  predicate Protects(side: Side, stop: real, live: Live)
    requires live.liq.Some?
  {
    match side
    case Long => live.liq.value < stop
    case Short => stop < live.liq.value
  }

  /** What the guard is for: no stop rests on the wrong side of liquidation, and a managed position
      has one. */
  predicate Guarded(side: Side, managed: bool, live: Live, resting: Option<real>) {
    Readable(live) ==>
      && (resting.Some? ==> Protects(side, resting.value, live))
      && (managed ==> resting.Some?)
  }

  /** The guard has nothing to do exactly when the position is guarded, or nobody manages its
      missing stop, or the exchange does not say enough. */
  lemma NothingToDoIff(side: Side, managed: bool, live: Live, resting: Option<real>)
    ensures Decide(side, managed, live, resting).None? <==> Guarded(side, managed, live, resting)
    ensures Decide(side, managed, live, resting).Some? ==>
              Decide(side, managed, live, resting).value == TightenedStop(side, live.entry.value, live.liq.value)
  {}

  /** Tightening is a fixpoint: what the guard places for one row, it leaves alone on the next
      pass, for every row of that position. */
  lemma PlacedStopIsLeftAlone(side: Side, managed: bool, live: Live, resting: Option<real>, other: bool)
    requires Roomy(live) && Decide(side, managed, live, resting).Some?
    ensures Decide(side, other, live, Decide(side, managed, live, resting)) == None
  {
    TightenedStopIsSafe(side, live.entry.value, live.liq.value);
  }

  /** The stops resting on the exchange, by position key. */
  class Exchange<Key(==,!new)> {
    var stops: map<Key, real>

    /** Ask for a stop. A confirmed answer means it rests at that price; otherwise the old
        stop, which was cancelled first, may or may not still be there. */
    method PlaceStop(key: Key, price: real) returns (confirmed: bool)
      modifies this
      ensures confirmed ==> stops == old(stops)[key := price]
      ensures stops - {key} == old(stops) - {key}
    {
      confirmed := *;
      if confirmed {
        stops := stops[key := price];
      } else if * {
        stops := stops - {key};
      }
    }

    function Resting(key: Key): Option<real>
      reads this
    {
      if key in stops then Some(stops[key]) else None
    }

    /** A trigger read: unknown, or exact. */
    method ReadStop(key: Key) returns (known: bool, resting: Option<real>)
      ensures known ==> resting == Resting(key)
    {
      known := *;
      resting := Resting(key);
    }

    /** One pass. When every read was answered and every placement confirmed, every position is
        guarded, and the next pass over the same positions would place nothing. Stops of positions
        that were guarded before, for every row of theirs, are untouched. Rows of several
        strategies may share one position of the exchange. */
    method GuardPass(rows: seq<Row<Key>>, live: map<Key, Live>) returns (complete: bool)
      requires forall i, j :: 0 <= i < j < |rows| && rows[i].key == rows[j].key ==> rows[i].side == rows[j].side
      modifies this
      ensures complete ==> forall r :: r in rows && r.key in live && Roomy(live[r.key]) ==>
                Decide(r.side, r.managed, live[r.key], Resting(r.key)) == None
      ensures complete ==> forall r :: r in rows && r.key in live && Roomy(live[r.key]) ==>
                Guarded(r.side, r.managed, live[r.key], Resting(r.key))
      ensures forall k :: AllGuarded(rows, live, k, old(Resting(k))) ==> Resting(k) == old(Resting(k))
    {
      hide Decide, Roomy, Idle, Guarded, AllGuarded;
      forall k ensures Idle(rows, live, k, Resting(k)) <==> AllGuarded(rows, live, k, Resting(k)) {
        IdleIsGuarded(rows, live, k, Resting(k));
      }
      complete := true;
      forall k ensures Idle(rows[..0], live, k, Resting(k)) { NothingToMove(rows, live, k, Resting(k)); }
      for i := 0 to |rows|
        invariant complete ==> forall j :: 0 <= j < i && rows[j].key in live && Roomy(live[rows[j].key]) ==>
                    Decide(rows[j].side, rows[j].managed, live[rows[j].key], Resting(rows[j].key)) == None
        invariant forall k :: Idle(rows[..i], live, k, old(Resting(k))) ==> Resting(k) == old(Resting(k))
      {
        var r := rows[i];
        forall k ensures Idle(rows[..i + 1], live, k, old(Resting(k))) <==>
                         Idle(rows[..i], live, k, old(Resting(k))) && IdleRow(r, live, k, old(Resting(k))) {
          OneMoreRow(rows, i, live, k, old(Resting(k)));
        }
        label before:
        if r.key in live {
          var known, resting := ReadStop(r.key);
          if !known {
            complete := false;
          } else {
            var wanted := Decide(r.side, r.managed, live[r.key], resting);
            if wanted.Some? {
              if Roomy(live[r.key]) {
                PlacedStopIsLeftAlone(r.side, r.managed, live[r.key], resting, true);
                PlacedStopIsLeftAlone(r.side, r.managed, live[r.key], resting, false);
              }
              var confirmed := PlaceStop(r.key, wanted.value);
              complete := complete && confirmed;
              forall k | k != r.key ensures Resting(k) == old@before(Resting(k)) {
                assert k in stops <==> k in stops - {r.key};
                assert k in old@before(stops) <==> k in old@before(stops) - {r.key};
              }
              assert confirmed ==> Resting(r.key) == wanted;
            }
          }
        }
      }
      assert rows[..|rows|] == rows;
      forall r | r in rows && r.key in live
        ensures Decide(r.side, r.managed, live[r.key], Resting(r.key)) == None ==>
                  Guarded(r.side, r.managed, live[r.key], Resting(r.key))
      {
        NothingToDoIff(r.side, r.managed, live[r.key], Resting(r.key));
      }
    }
  }

  /** A row gives no reason to move the stop of `k`. */
  predicate IdleRow<Key(==)>(r: Row<Key>, live: map<Key, Live>, k: Key, resting: Option<real>) {
    r.key == k && k in live ==> Decide(r.side, r.managed, live[k], resting) == None
  }

  predicate Idle<Key(==)>(rows: seq<Row<Key>>, live: map<Key, Live>, k: Key, resting: Option<real>) {
    forall r <- rows :: IdleRow(r, live, k, resting)
  }

  /** Every row of a position finds it guarded. */
  predicate AllGuarded<Key(==)>(rows: seq<Row<Key>>, live: map<Key, Live>, k: Key, resting: Option<real>) {
    k in live ==> forall r <- rows :: r.key == k ==> Guarded(r.side, r.managed, live[k], resting)
  }

  lemma IdleIsGuarded<Key>(rows: seq<Row<Key>>, live: map<Key, Live>, k: Key, resting: Option<real>)
    ensures Idle(rows, live, k, resting) <==> AllGuarded(rows, live, k, resting)
  {
    hide Decide, Guarded;
    if k in live {
      forall r <- rows
        ensures Decide(r.side, r.managed, live[k], resting) == None <==> Guarded(r.side, r.managed, live[k], resting)
      {
        NothingToDoIff(r.side, r.managed, live[k], resting);
      }
    }
  }

  lemma NothingToMove<Key>(rows: seq<Row<Key>>, live: map<Key, Live>, k: Key, resting: Option<real>)
    ensures Idle(rows[..0], live, k, resting)
  {}

  lemma OneMoreRow<Key>(rows: seq<Row<Key>>, i: nat, live: map<Key, Live>, k: Key, resting: Option<real>)
    requires i < |rows|
    ensures Idle(rows[..i + 1], live, k, resting) <==>
        Idle(rows[..i], live, k, resting) && IdleRow(rows[i], live, k, resting)
  {
    assert rows[..i + 1] == rows[..i] + [rows[i]];
    assert forall r <- rows[..i + 1] :: r in rows[..i] || r == rows[i];
  }
}
