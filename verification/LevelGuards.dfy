/**
 The stop and take-profit a post may set on an open leg: the guards of
 social-listener/app/statemachine.py (evaluate_stop, evaluate_take_profit), what
 social-listener/app/main.py sends and records (apply_levels), and the sweep that re-asserts a
 standing break-even (_sweep_standing_stops).
 */
module LevelGuards {
  import opened Prelude
  import S = Stance

  /** What a post says about levels. */
  datatype Instruction = Instruction(stop: S.Num, toBreakeven: bool, takeProfit: S.Num, age: Option<real>)

  datatype Verdict =
    | Set(price: real)
    | NoInstruction | NoPosition | SignalTooOld | NoEntryPrice
    | WouldWidenRisk | AlreadyCrossed | NotTighter | WrongSide | Unchanged
  {
    function Price(): Option<real> {
      if Set? then Some(price) else None
    }
  }

  /** `a` protects at least as well as `b`. */
  predicate Tighter(side: S.Side, a: real, b: real) {
    if side.LONG? then a >= b else a <= b
  }

  predicate Aged(rec: Instruction, maxAge: real) {
    rec.age.Some? && rec.age.value > maxAge
  }

  function EvaluateStop(rec: Instruction, side: Option<S.Side>, entry: Option<real>, mark: Option<real>,
                        last: Option<real>, maxAge: real): Verdict
  {
    if rec.stop.Missing? && !rec.toBreakeven then NoInstruction
    else if side.None? then NoPosition
    else if Aged(rec, maxAge) then SignalTooOld
    else if entry.None? then NoEntryPrice
    else if rec.stop.Unreadable? then NoInstruction
    else
      var want := if rec.stop.Number? then rec.stop.value else entry.value;
      var short := side.value.SHORT?;
      if (if short then want > entry.value else want < entry.value) then WouldWidenRisk
      else if mark.Some? && (if short then want <= mark.value else want >= mark.value) then AlreadyCrossed
      else if last.Some? && (if short then want > last.value else want < last.value) then NotTighter
      else Set(want)
  }

  function EvaluateTakeProfit(rec: Instruction, side: Option<S.Side>, entry: Option<real>, mark: Option<real>,
                              last: Option<real>, maxAge: real): Verdict
  {
    if rec.takeProfit.Missing? then NoInstruction
    else if side.None? then NoPosition
    else if Aged(rec, maxAge) then SignalTooOld
    else if rec.takeProfit.Unreadable? then NoInstruction
    else
      var want := rec.takeProfit.value;
      var short := side.value.SHORT?;
      if entry.Some? && (if short then want >= entry.value else want <= entry.value) then WrongSide
      else if mark.Some? && (if short then want >= mark.value else want <= mark.value) then AlreadyCrossed
      else if last.Some? && Abs(last.value - want) / Max(want, 0.000000001) < 0.000001 then Unchanged
      else Set(want)
  }

  /** A recorded leg with a live position. `openingStop` and `openingProfit` are the levels of
      the order that opened it; `breakeven` is the standing instruction. */
  datatype Leg = Leg(side: S.Side, entry: real, openingStop: Option<real>, openingProfit: Option<real>,
                     stop: Option<real>, profit: Option<real>, breakeven: bool)

  function First(a: Option<real>, b: Option<real>): Option<real> {
    if a.Some? then a else b
  }

  /** `ok` is whether both levels were confirmed resting. Levels go out together, the one that
      did not change at its current price, and are recorded only when confirmed. */
  function ApplyLevels(leg: Leg, rec: Instruction, mark: Option<real>, ok: bool, maxAge: real): Leg {
    var wantStop := EvaluateStop(rec, Some(leg.side), Some(leg.entry), mark, leg.stop, maxAge).Price();
    var wantProfit := EvaluateTakeProfit(rec, Some(leg.side), Some(leg.entry), mark,
                                         First(leg.profit, leg.openingProfit), maxAge).Price();
    if (wantStop.None? && wantProfit.None?) || !ok then leg
    else leg.(stop := First(wantStop, First(leg.stop, leg.openingStop)),
              profit := First(wantProfit, First(leg.profit, leg.openingProfit)),
              breakeven := leg.breakeven || (wantStop.Some? && rec.toBreakeven && rec.stop.Missing?))
  }

  const BREAK_EVEN: Instruction := Instruction(S.Missing, true, S.Missing, None)

  predicate AtBreakeven(leg: Leg)
    requires leg.entry > 0.0
  {
    leg.stop.Some? && Abs(leg.stop.value - leg.entry) / leg.entry < 0.000001
  }

  function SweepStandingStop(leg: Leg, mark: Option<real>, ok: bool, maxAge: real): Leg
    requires leg.entry > 0.0
  {
    if !leg.breakeven || AtBreakeven(leg) then leg
    else
      var want := EvaluateStop(BREAK_EVEN, Some(leg.side), Some(leg.entry), mark, None, maxAge).Price();
      if want.None? || !ok then leg
      else leg.(stop := want, profit := First(leg.profit, leg.openingProfit))
  }

  /** A scale-in drops the recorded stop when it is sent, and blends the entry when it is executed. */
  datatype Event =
    | Post(rec: Instruction, mark: Option<real>, ok: bool)
    | StandingSweep(mark: Option<real>, ok: bool)
    | ScaleInSent
    | ScaleInFilled(entry: real)

  function Step(leg: Leg, e: Event, maxAge: real): Leg
    requires leg.entry > 0.0
  {
    match e
    case Post(rec, mark, ok) => ApplyLevels(leg, rec, mark, ok, maxAge)
    case StandingSweep(mark, ok) => SweepStandingStop(leg, mark, ok, maxAge)
    case ScaleInSent => leg.(stop := None)
    case ScaleInFilled(entry) => if entry > 0.0 then leg.(entry := entry) else leg
  }

  function Run(leg: Leg, es: seq<Event>, maxAge: real): (r: Leg)
    requires leg.entry > 0.0
    ensures r.entry > 0.0 && r.side == leg.side
    decreases |es|
  {
    if es == [] then leg else Step(Run(leg, es[..|es| - 1], maxAge), es[|es| - 1], maxAge)
  }

  /** A stop a post sets protects break-even or better, is not already crossed, and is at least
      as tight as the last one; and every readable instruction that meets all of this is taken. */
  lemma StopIsSetIff(rec: Instruction, side: S.Side, entry: real, mark: Option<real>,
                                        last: Option<real>, maxAge: real, want: real)
    requires rec.stop == S.Number(want) || (rec.stop.Missing? && rec.toBreakeven && want == entry)
    ensures EvaluateStop(rec, Some(side), Some(entry), mark, last, maxAge) == Set(want) <==>
              && (rec.age.Some? ==> rec.age.value <= maxAge)
              && Tighter(side, want, entry)
              && (mark.Some? ==> !Tighter(side, want, mark.value))
              && (last.Some? ==> Tighter(side, want, last.value))
  {
  }

  predicate Apart(difference: real, price: real) {
    1000000.0 * difference >= price && 1000000.0 * (1000000000.0 * difference) >= 1.0
  }

  /** A readable take-profit is taken exactly when the post is fresh, the level is in profit and
      still ahead of the market, and it differs from the last one by at least a millionth (or by
      1e-15, for a price below 1e-9). */
  lemma TakeProfitIsSetIff(rec: Instruction, side: S.Side, entry: real, mark: Option<real>,
                           last: Option<real>, maxAge: real, want: real)
    requires rec.takeProfit == S.Number(want)
    ensures EvaluateTakeProfit(rec, Some(side), Some(entry), mark, last, maxAge) == Set(want) <==>
              && (rec.age.Some? ==> rec.age.value <= maxAge)
              && (if side.LONG? then entry < want else want < entry)
              && (mark.Some? ==> if side.LONG? then mark.value < want else want < mark.value)
              && (last.Some? ==> Apart(last.value - want, want) || Apart(want - last.value, want))
  {
    if last.Some? {
      QuotientBelow(Abs(last.value - want), Max(want, 0.000000001), 0.000001);
    }
  }

  /** A take-profit a post sets is in profit and still ahead of the market. */
  lemma TakeProfitIsAhead(rec: Instruction, side: S.Side, entry: real, mark: Option<real>,
                                             last: Option<real>, maxAge: real)
    requires EvaluateTakeProfit(rec, Some(side), Some(entry), mark, last, maxAge).Set?
    ensures var want := EvaluateTakeProfit(rec, Some(side), Some(entry), mark, last, maxAge).price;
            rec.takeProfit == S.Number(want) && !Tighter(side, entry, want)
            && (mark.Some? ==> !Tighter(side, mark.value, want))
  {
  }

  /** Both levels can be set in one post only in order: stop, market, target. */
  lemma LevelsBracketTheMarket(rec: Instruction, side: S.Side, entry: real, mark: real,
                                                  lastStop: Option<real>, lastProfit: Option<real>, maxAge: real)
    requires EvaluateStop(rec, Some(side), Some(entry), Some(mark), lastStop, maxAge).Set?
    requires EvaluateTakeProfit(rec, Some(side), Some(entry), Some(mark), lastProfit, maxAge).Set?
    ensures var stop := EvaluateStop(rec, Some(side), Some(entry), Some(mark), lastStop, maxAge).price;
            var profit := EvaluateTakeProfit(rec, Some(side), Some(entry), Some(mark), lastProfit, maxAge).price;
            if side.LONG? then entry <= stop < mark < profit else profit < mark < stop <= entry
  {
  }

  /** What a post leaves of a leg: nothing changes unless a level is taken and both are confirmed;
      then the levels that were not taken stay where they rest, and only a break-even that was
      taken becomes a standing one. */
  lemma PostSetsLevels(leg: Leg, rec: Instruction, mark: Option<real>, ok: bool, maxAge: real)
    ensures var stop := EvaluateStop(rec, Some(leg.side), Some(leg.entry), mark, leg.stop, maxAge);
            var resting := if leg.profit.Some? then leg.profit else leg.openingProfit;
            var profit := EvaluateTakeProfit(rec, Some(leg.side), Some(leg.entry), mark, resting, maxAge);
            var after := ApplyLevels(leg, rec, mark, ok, maxAge);
            && (after != leg ==> ok && (stop.Set? || profit.Set?))
            && (ok && stop.Set? ==>
                  && after.stop == Some(stop.price)
                  && after.profit == if profit.Set? then Some(profit.price) else resting)
            && (ok && profit.Set? ==> after.profit == Some(profit.price))
            && (ok && profit.Set? && !stop.Set? ==> after.stop == if leg.stop.Some? then leg.stop else leg.openingStop)
            && (after.breakeven <==> leg.breakeven || (ok && stop.Set? && rec.toBreakeven && rec.stop.Missing?))
            && after.entry == leg.entry && after.side == leg.side
  {
    hide EvaluateStop, EvaluateTakeProfit;
  }

  /** A sweep that moves the stop of a leg away from the market. */
  predicate Loosens(leg: Leg, mark: Option<real>, ok: bool)
    requires leg.entry > 0.0
  {
    && ok && leg.breakeven && leg.stop.Some?
    && (leg.stop.value - leg.entry >= leg.entry / 1000000.0 || leg.entry - leg.stop.value >= leg.entry / 1000000.0)
    && !Tighter(leg.side, leg.entry, leg.stop.value)
    && (mark.Some? ==> !Tighter(leg.side, leg.entry, mark.value))
  }

  /** The standing break-even is meant to keep a de-risked leg de-risked. The sweep gives up
      protection exactly when the stop has since been tightened beyond the entry, the market has
      not come back to the entry, and the move is confirmed. */
  lemma SweepLoosensIff(leg: Leg, mark: Option<real>, ok: bool, maxAge: real)
    requires leg.entry > 0.0 && leg.stop.Some?
    ensures var after := SweepStandingStop(leg, mark, ok, maxAge);
            after.stop.Some? && (!Tighter(leg.side, after.stop.value, leg.stop.value) <==> Loosens(leg, mark, ok))
  {
    AtBreakevenIff(leg);
    hide AtBreakeven;
  }

  lemma AtBreakevenIff(leg: Leg)
    requires leg.entry > 0.0 && leg.stop.Some?
    ensures AtBreakeven(leg) <==>
              leg.stop.value - leg.entry < leg.entry / 1000000.0 && leg.entry - leg.stop.value < leg.entry / 1000000.0
  {
    QuotientBelow(Abs(leg.stop.value - leg.entry), leg.entry, 0.000001);
  }

  /** Over every run of posts, sweeps and fills in which no scale-in is sent and no sweep meets the
      case above, the stop only tightens. */
  lemma {:induction false} StopRatchets(leg: Leg, es: seq<Event>, maxAge: real)
    requires leg.entry > 0.0 && leg.stop.Some?
    requires forall i :: 0 <= i < |es| ==> !es[i].ScaleInSent?
    requires forall i :: 0 <= i < |es| && es[i].StandingSweep? ==>
        !Loosens(Run(leg, es[..i], maxAge), es[i].mark, es[i].ok)
    ensures var after := Run(leg, es, maxAge);
            after.stop.Some? && Tighter(leg.side, after.stop.value, leg.stop.value)
    decreases |es|
  {
    if es != [] {
      var n := |es| - 1;
      forall i | 0 <= i < n ensures es[..n][..i] == es[..i] && es[..n][i] == es[i] {}
      StopRatchets(leg, es[..n], maxAge);
      var before := Run(leg, es[..n], maxAge);
      if es[n].StandingSweep? {
        assert !Loosens(before, es[n].mark, es[n].ok);
        SweepLoosensIff(before, es[n].mark, es[n].ok, maxAge);
      }
    }
  }

  /** A sweep between a scale-in and its execution re-asserts break-even at the entry that is about
      to move. The stop stays there when the fill comes, and the sweep after it gives up protection
      exactly when the fill pulled the entry back and the market has not come back to it. */
  lemma SweepMidScaleIn(leg: Leg, mark: real, entry: real, later: Option<real>, maxAge: real)
    requires leg.entry > 0.0 && entry > 0.0 && leg.breakeven && !Tighter(leg.side, leg.entry, mark)
    ensures
      var filled := Run(leg, [ScaleInSent, StandingSweep(Some(mark), true), ScaleInFilled(entry)], maxAge);
      && filled.stop == Some(leg.entry) && filled.entry == entry
      && (Loosens(filled, later, true) <==>
            && !AtBreakeven(filled) && !Tighter(leg.side, entry, leg.entry)
            && (later.Some? ==> !Tighter(leg.side, entry, later.value)))
  {
    var es := [ScaleInSent, StandingSweep(Some(mark), true), ScaleInFilled(entry)];
    assert es[..2] == [ScaleInSent, StandingSweep(Some(mark), true)];
    assert es[..2][..1] == [ScaleInSent] && es[..2][..1][..0] == [];
    assert Run(leg, es[..2][..1], maxAge) == Step(leg, ScaleInSent, maxAge);
    assert Run(leg, es[..2], maxAge) == Step(Step(leg, ScaleInSent, maxAge), StandingSweep(Some(mark), true), maxAge);
    AtBreakevenIff(Run(leg, es, maxAge));
  }

  /** "Risk off" at 100, then "stop to 110", then the sweep: the stop is back at 100. */
  lemma SweepUndoesALaterStop(maxAge: real)
    ensures
      var leg := Leg(S.LONG, 100.0, Some(90.0), None, None, None, false);
      var riskOff := Post(BREAK_EVEN, Some(120.0), true);
      var tighten := Post(Instruction(S.Number(110.0), false, S.Missing, None), Some(120.0), true);
      && Step(Step(leg, riskOff, maxAge), tighten, maxAge).stop == Some(110.0)
      && Run(leg, [riskOff, tighten, StandingSweep(Some(120.0), true)], maxAge).stop == Some(100.0)
  {
    var leg := Leg(S.LONG, 100.0, Some(90.0), None, None, None, false);
    var riskOff := Post(BREAK_EVEN, Some(120.0), true);
    var tighten := Post(Instruction(S.Number(110.0), false, S.Missing, None), Some(120.0), true);
    var es := [riskOff, tighten, StandingSweep(Some(120.0), true)];
    assert es[..2] == [riskOff, tighten] && es[..2][..1] == [riskOff] && es[..2][..1][..0] == [];
    assert Run(leg, es[..2][..1], maxAge) == Step(leg, riskOff, maxAge);
    assert Run(leg, es[..2], maxAge) == Step(Step(leg, riskOff, maxAge), tighten, maxAge);
  }

  // ---------------------------------------------------------------------------------
  // In place
  // ---------------------------------------------------------------------------------

  /** The recorded row of a leg, with the position behind it. `ok` is the executor's answer. */
  class LegRow {
    var leg: Leg

    constructor (leg: Leg)
      ensures this.leg == leg
    {
      this.leg := leg;
    }

    /** Writes only the columns that are given. */
    method SetLevels(stop: Option<real>, profit: Option<real>, breakeven: bool)
      modifies this
      ensures leg == old(leg).(stop := First(stop, old(leg).stop), profit := First(profit, old(leg).profit),
                               breakeven := old(leg).breakeven || breakeven)
    {
      if stop.Some? { leg := leg.(stop := stop); }
      if profit.Some? { leg := leg.(profit := profit); }
      if breakeven { leg := leg.(breakeven := true); }
    }

    /** The levels of a post. */
    method Apply(rec: Instruction, mark: Option<real>, ok: bool, maxAge: real) returns (stop: Verdict, profit: Verdict)
      modifies this
      ensures leg == ApplyLevels(old(leg), rec, mark, ok, maxAge)
      ensures stop == EvaluateStop(rec, Some(old(leg).side), Some(old(leg).entry), mark, old(leg).stop, maxAge)
    {
      var restingStop, restingProfit := leg.stop, leg.profit;
      if restingStop.None? { restingStop := leg.openingStop; }
      if restingProfit.None? { restingProfit := leg.openingProfit; }
      stop := EvaluateStop(rec, Some(leg.side), Some(leg.entry), mark, leg.stop, maxAge);
      profit := EvaluateTakeProfit(rec, Some(leg.side), Some(leg.entry), mark, restingProfit, maxAge);
      if !stop.Set? && !profit.Set? {
        return;
      }
      var sendStop := if stop.Set? then Some(stop.price) else restingStop;
      var sendProfit := if profit.Set? then Some(profit.price) else restingProfit;
      if ok {
        SetLevels(sendStop, sendProfit, stop.Set? && rec.toBreakeven && rec.stop.Missing?);
      }
    }

    /** The standing break-even, re-asserted. */
    method Sweep(mark: Option<real>, ok: bool, maxAge: real)
      requires leg.entry > 0.0
      modifies this
      ensures leg == SweepStandingStop(old(leg), mark, ok, maxAge)
    {
      if !leg.breakeven { return; }
      if leg.stop.Some? && Abs(leg.stop.value - leg.entry) / leg.entry < 0.000001 { return; }
      var want := EvaluateStop(BREAK_EVEN, Some(leg.side), Some(leg.entry), mark, None, maxAge);
      if want.Set? && ok {
        SetLevels(Some(want.price), if leg.profit.Some? then leg.profit else leg.openingProfit, false);
      }
    }
  }
}
