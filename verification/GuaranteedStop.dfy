/**
 The stop-loss every opening order is given (order-listener/app/webhook_handler.py,
 compute_guaranteed_sl) and the maintenance-margin rate it falls back to
 (order-listener/app/config.py, fallback_mmr).

 The venue liquidates a position when the price has moved by 1/leverage less the maintenance
 rate; `Liquidation` is that price. The code never knows the true rate, only an estimate.
 */
module GuaranteedStop {
  import opened Prelude
  import opened LiquidationGuard

  const MMR_CONSERVATISM_BUFFER := 0.0015
  const DEGENERATE_SL_DIST := 0.0005

  function FallbackMmr(leverage: int): real {
    if leverage <= 0 then 1.0 else 1.0 / (2.0 * leverage as real) + MMR_CONSERVATISM_BUFFER
  }

  /** The share of the entry that can be lost before liquidation. */
  function Headroom(leverage: nat, mmr: real): real
    requires leverage > 0
  {
    1.0 / leverage as real - mmr
  }

  function StopDistance(leverage: nat, mmr: real): (d: real)
    requires leverage > 0
    ensures d > 0.0
  {
    if Headroom(leverage, mmr) <= 0.0 then DEGENERATE_SL_DIST else Headroom(leverage, mmr)
  }

  /** The price a share `d` of the entry away, on the losing side. */
  function Away(entry: real, side: Side, d: real): real {
    if side.Long? then entry * (1.0 - d) else entry * (1.0 + d)
  }

  function Liquidation(entry: real, side: Side, leverage: nat, trueRate: real): real
    requires leverage > 0
  {
    Away(entry, side, Headroom(leverage, trueRate))
  }

  /** A strategy's own stop counts only on the losing side of the entry. */
  predicate Counts(entry: real, side: Side, sl: Option<real>) {
    sl.Some? && (if side.Long? then sl.value < entry else sl.value > entry)
  }

  function Unrounded(entry: real, leverage: nat, side: Side, strategySl: Option<real>, mmr: real): real
    requires leverage > 0
  {
    var safe := Away(entry, side, StopDistance(leverage, mmr));
    if !Counts(entry, side, strategySl) then safe
    else if side.Long? then Max(strategySl.value, safe)
    else Min(strategySl.value, safe)
  }

  function GuaranteedSl(entry: real, leverage: nat, side: Side, strategySl: Option<real>, mmr: real): real
    requires leverage > 0
  {
    RoundPrice(Unrounded(entry, leverage, side, strategySl, mmr), PriceScale(entry))
  }

  /** The stop is on the losing side of the entry, is one of the two candidates, and protects at
      least as well as either. */
  lemma TightestStopWins(entry: real, leverage: nat, side: Side, strategySl: Option<real>, mmr: real)
    requires leverage > 0 && entry > 0.0
    ensures var sl := Unrounded(entry, leverage, side, strategySl, mmr);
            var safe := Away(entry, side, StopDistance(leverage, mmr));
            && Counts(entry, side, Some(sl))
            && (sl == safe || Some(sl) == strategySl)
            && (if side.Long? then sl >= safe else sl <= safe)
            && (Counts(entry, side, strategySl) ==>
                  if side.Long? then sl >= strategySl.value else sl <= strategySl.value)
  {
    assert entry * StopDistance(leverage, mmr) > 0.0;
  }

  /** Without a stop of the strategy's own, the stop is where the venue would liquidate if the
      estimate were right, as long as the estimate leaves any headroom; otherwise it is five
      hundredths of a percent away from the entry. */
  lemma SafeStopIsEstimatedLiquidation(entry: real, leverage: nat, side: Side, mmr: real)
    requires leverage > 0 && entry > 0.0
    ensures var stop := Unrounded(entry, leverage, side, None, mmr);
            if mmr < 1.0 / leverage as real then stop == Liquidation(entry, side, leverage, mmr)
            else Abs(stop - entry) == entry * 5.0 / 10000.0
  {
    assert entry * DEGENERATE_SL_DIST > 0.0;
  }

  lemma AwayApart(entry: real, side: Side, near: real, far: real)
    ensures if side.Long? then Away(entry, side, near) == Away(entry, side, far) + entry * (far - near)
            else Away(entry, side, near) == Away(entry, side, far) - entry * (far - near)
  {}

  /** A price on the safe side of another that clears the step clears it as well. */
  lemma SaferClears(side: Side, x: real, y: real, liq: real, scale: real)
    requires scale > 0.0 && ClearsHalfAStep(side, x, liq, scale) && if side.Long? then x <= y else y <= x
    ensures ClearsHalfAStep(side, y, liq, scale)
  {
    if side.Long? { assert (y - x) * scale >= 0.0; } else { assert (x - y) * scale >= 0.0; }
  }

  /** For every entry, leverage and pair of rates: whatever the strategy asked for, the stop is on
      the safe side of liquidation exactly when the price the estimated distance away clears the
      middle of the price step that holds the liquidation price. */
  lemma StopIsInsideIff(entry: real, leverage: nat, side: Side, mmr: real, trueRate: real)
    requires leverage > 0 && entry > 0.0
    ensures (forall sl: Option<real> ::
               !Unsafe(side, GuaranteedSl(entry, leverage, side, sl, mmr),
                   Liquidation(entry, side, leverage, trueRate))) <==>
            ClearsHalfAStep(side, Away(entry, side, StopDistance(leverage, mmr)),
                            Liquidation(entry, side, leverage, trueRate), PriceScale(entry))
  {
    hide ClearsHalfAStep, RoundPrice, StopDistance, Away, Liquidation;
    var liq := Liquidation(entry, side, leverage, trueRate);
    var safe := Away(entry, side, StopDistance(leverage, mmr));
    forall sl: Option<real>
      ensures var x := Unrounded(entry, leverage, side, sl, mmr);
              && (!Unsafe(side, GuaranteedSl(entry, leverage, side, sl, mmr), liq) <==>
                    ClearsHalfAStep(side, x, liq, PriceScale(entry)))
              && (ClearsHalfAStep(side, safe, liq, PriceScale(entry)) ==>
                  ClearsHalfAStep(side, x, liq, PriceScale(entry)))
    {
      var x := Unrounded(entry, leverage, side, sl, mmr);
      RoundedIsSafeIff(side, x, liq, PriceScale(entry));
      if ClearsHalfAStep(side, safe, liq, PriceScale(entry)) {
        SaferClears(side, safe, x, liq, PriceScale(entry));
      }
    }
    if forall sl: Option<real> :: !Unsafe(side, GuaranteedSl(entry, leverage, side, sl, mmr), liq) {
      assert !Unsafe(side, GuaranteedSl(entry, leverage, side, None, mmr), liq);
      assert Unrounded(entry, leverage, side, None, mmr) == safe;
    }
  }

  /** It does as soon as the estimate leaves more than half a price step to the true headroom. */
  lemma StopIsInside(entry: real, leverage: nat, side: Side, strategySl: Option<real>, mmr: real, trueRate: real)
    requires leverage > 0 && entry > 0.0
    ensures HalfStep(entry) < entry * (Headroom(leverage, trueRate) - StopDistance(leverage, mmr)) ==>
              !Unsafe(side, GuaranteedSl(entry, leverage, side, strategySl, mmr),
                  Liquidation(entry, side, leverage, trueRate))
  {
    hide StopDistance, Headroom, RoundPrice, HalfStep, PriceScale, Away;
    AwayApart(entry, side, StopDistance(leverage, mmr), Headroom(leverage, trueRate));
    RoundPriceMovesAtMostHalfAStep(Unrounded(entry, leverage, side, strategySl, mmr), entry);
  }

  lemma HalfOfLeverage(leverage: nat)
    requires leverage > 0
    ensures 1.0 / leverage as real == 2.0 * (1.0 / (2.0 * leverage as real))
    ensures leverage <= 990 ==> 1.0 / (2.0 * leverage as real) > 0.000505
    ensures 1.0 / (2.0 * leverage as real) > DEGENERATE_SL_DIST <==> leverage < 1000
  {
    var l := leverage as real;
    var half := 1.0 / (2.0 * l);
    assert half * (2.0 * l) == 1.0;
    assert (2.0 * half) * l == 1.0;
    QuotientAtMost(1.0, 2.0 * l, 0.000505);
    QuotientAtMost(1.0, 2.0 * l, DEGENERATE_SL_DIST);
    QuotientAtMost(1.0, l, 2.0 * half);
    assert (1.0 / l - 2.0 * half) * l == 0.0;
  }

  /** What the stop distance leaves of a true headroom when the estimate is the true rate and the
      buffer. */
  function Slack(headroom: real): real {
    if headroom > MMR_CONSERVATISM_BUFFER then MMR_CONSERVATISM_BUFFER else headroom - DEGENERATE_SL_DIST
  }

  lemma FallbackLeavesSlack(leverage: nat, trueRate: real)
    requires leverage > 0 && trueRate <= 1.0 / (2.0 * leverage as real)
    ensures Slack(1.0 / (2.0 * leverage as real))
        <= Headroom(leverage, trueRate) - StopDistance(leverage, FallbackMmr(leverage))
  {
    HalfOfLeverage(leverage);
  }

  /** The fallback assumes the worst tier, a true rate of at most half of 1/leverage: every stop it
      gives is strictly on the safe side of liquidation as soon as that tier's slack exceeds half
      a price step. */
  lemma FallbackStopIsInside(entry: real, leverage: nat, side: Side, strategySl: Option<real>, trueRate: real)
    requires leverage > 0 && entry > 0.0 && trueRate <= 1.0 / (2.0 * leverage as real)
    ensures HalfStep(entry) < entry * Slack(1.0 / (2.0 * leverage as real)) ==>
              !Unsafe(side, GuaranteedSl(entry, leverage, side, strategySl, FallbackMmr(leverage)),
                      Liquidation(entry, side, leverage, trueRate))
  {
    hide HalfStep, Slack, StopDistance, Headroom, FallbackMmr, GuaranteedSl, Liquidation, Unsafe;
    var gap := Headroom(leverage, trueRate) - StopDistance(leverage, FallbackMmr(leverage));
    FallbackLeavesSlack(leverage, trueRate);
    MoreOf(entry, Slack(1.0 / (2.0 * leverage as real)), gap);
    StopIsInside(entry, leverage, side, strategySl, FallbackMmr(leverage), trueRate);
  }

  lemma MoreOf(entry: real, less: real, more: real)
    requires entry > 0.0 && less <= more
    ensures entry * less <= entry * more
  {}

  lemma Widen(entry: real, share: real)
    requires entry > 0.0 && share > 0.000005
    ensures entry * share > 0.000005 * entry
  {
    assert entry * (share - 0.000005) > 0.0;
  }

  /** In every price band from 0.1 upward that is the case up to a leverage of 990. */
  lemma SlackFitsHalfAStep(entry: real, leverage: nat)
    requires 0 < leverage <= 990 && entry >= 0.1
    ensures HalfStep(entry) < entry * Slack(1.0 / (2.0 * leverage as real))
  {
    hide HalfStep;
    HalfOfLeverage(leverage);
    HalfStepIsTiny(entry);
    Widen(entry, Slack(1.0 / (2.0 * leverage as real)));
  }

  /** Below it prices have six decimals, and the stop can be rounded past liquidation: entered at
      0.0000124 with a leverage of 20. */
  lemma CheapCoinIsLiquidatedFirst()
    ensures FallbackMmr(20) == 0.0265
    ensures GuaranteedSl(0.0000124, 20, Long, None, 0.0265) == 0.000012
    ensures Liquidation(0.0000124, Long, 20, 0.025) == 0.00001209
    ensures Unsafe(Long, 0.000012, 0.00001209)
  {
    assert StopDistance(20, 0.0265) == 0.0235;
    assert 0.0000124 * (1.0 - 0.0235) * 1000000.0 == 12.1086;
    assert (12.1086).Floor == 12;
  }

  /** Rounding apart, its reach is exactly a leverage below 1000: there the fixed distance of
      0.05% meets the liquidation price of the worst tier. */
  lemma FallbackReachIff(leverage: nat)
    requires leverage > 0
    ensures StopDistance(leverage, FallbackMmr(leverage)) < Headroom(leverage, 1.0 / (2.0 * leverage as real))
       <==> leverage < 1000
  {
    HalfOfLeverage(leverage);
  }

  /** The venue's own rate comes with the conservatism buffer on top: every stop is strictly on the
      safe side of liquidation as soon as the slack this leaves exceeds half a price step. */
  lemma LiveStopIsInside(entry: real, leverage: nat, side: Side, strategySl: Option<real>, trueRate: real)
    requires leverage > 0 && entry > 0.0
    ensures HalfStep(entry) < entry * Slack(Headroom(leverage, trueRate)) ==>
              !Unsafe(side, GuaranteedSl(entry, leverage, side, strategySl, trueRate + MMR_CONSERVATISM_BUFFER),
                      Liquidation(entry, side, leverage, trueRate))
  {
    hide HalfStep, GuaranteedSl, Liquidation, Unsafe;
    assert Slack(Headroom(leverage, trueRate))
        == Headroom(leverage, trueRate) - StopDistance(leverage, trueRate + MMR_CONSERVATISM_BUFFER);
    StopIsInside(entry, leverage, side, strategySl, trueRate + MMR_CONSERVATISM_BUFFER, trueRate);
  }

  /** Rounding apart, that is where its reach ends: the fixed distance takes over below 0.15% of
      headroom and is safe exactly above 0.05%. */
  lemma LiveReachIff(leverage: nat, trueRate: real)
    requires leverage > 0
    ensures StopDistance(leverage, trueRate + MMR_CONSERVATISM_BUFFER) < Headroom(leverage, trueRate)
       <==> Headroom(leverage, trueRate) > DEGENERATE_SL_DIST
  {}
}
