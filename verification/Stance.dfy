/**
 The social listener's decision function (social-listener/app/statemachine.py), the legs it
 decides about (social-listener/app/legs.py) and the webhook steps a decision expands to
 (social-listener/app/emitter.py).

 A decision names one signal and the legs it leads to. The emitter turns the signal into
 steps that reach the exchange one by one and may stop half way.
 */
module Stance {
  import opened Prelude

  datatype Side = LONG | SHORT

  function Opposite(s: Side): Side {
    if s.LONG? then SHORT else LONG
  }

  datatype Legs = Legs(long: bool, short: bool) {
    predicate IsOpen(s: Side) {
      if s.LONG? then long else short
    }

    predicate Flat() {
      !long && !short
    }

    predicate Both() {
      long && short
    }

    function SoleOpen(): Option<Side> {
      if long && !short then Some(LONG) else if short && !long then Some(SHORT) else None
    }

    function WithSide(s: Side, isOpen: bool): Legs {
      if s.LONG? then Legs(isOpen, short) else Legs(long, isOpen)
    }

    /** Every leg open here is open there. */
    predicate Within(other: Legs) {
      (long ==> other.long) && (short ==> other.short)
    }
  }

  datatype Action = OPEN | FLIP | CLOSE | TRIM | ADD | STOP | OTHER

  datatype Phase = Backfill | Live

  /** A number the model may have left out or garbled. */
  datatype Num = Missing | Unreadable | Number(value: real) {
    function Or(default: real): real {
      if Number? then value else default
    }
  }

  /** `listed` is whether the asset is named and on the whitelist; `age` the seconds since the
      post, when it carries a timestamp. */
  datatype Record = Record(
    action: Action, listed: bool, confidence: real, direction: Option<Side>,
    reference: Option<real>, trigger: Option<real>, sizeFraction: Num, addMultiple: Num,
    age: Option<real>)

  datatype Settings = Settings(
    confidenceFloor: real, stalenessPct: real, maxAge: real, entryOnMissingPrice: bool,
    minTrim: real, maxTrim: real, defaultTrim: real, maxAdd: real, defaultAdd: real)

  /** Why a decision came out as it did; AddAsOpen marks an ADD judged as an entry. */
  datatype Reason =
    | NoReason | AddAsOpen(inner: Reason)
    | AddAtMarket | AddSideAmbiguous | AddSideMismatch | AddSizeZero | BackfillNoAdd | BackfillNoTrim
    | BackfillReplay | CloseSideNotOpen | LowConfidence | NoMark | NoPosition | NoPositionToAdd
    | NoPositionToTrim | NoStateChange | NoTarget | NotWhitelisted | Ok | OkImpliedRef | PricelessNoEntry
    | PricelessRecent | SideAmbiguous | SideNotOpen | SignalTooOld | StaleImpliedRef | StalePrice | StopOnly
    | TrimAtMarket | TrimLevelPending | TrimLevelReached | TrimSideAmbiguous | TrimSideMismatch
    | ZeroReference

  datatype Signal =
    | NoSignal
    | OpenLeg(side: Side)
    | CloseLeg(side: Side)
    | FlipTo(side: Side)
    | CloseAll
    | TrimLeg(side: Side)
    | AddTo(side: Side)

  /** Raised is a post the function fails on: a reference price of zero. */
  datatype Kind = Acted | Skipped | Parked | Raised

  datatype Decision = Decision(
    kind: Kind, reason: Reason, to: Legs, changes: map<Side, bool>, signal: Signal, leg: Option<Side>,
    emit: bool, size: Option<real>)

  function Skip(legs: Legs, reason: Reason, signal: Signal, leg: Option<Side>): Decision {
    Decision(Skipped, reason, legs, map[], signal, leg, false, None)
  }

  function Apply(legs: Legs, changes: map<Side, bool>): Legs {
    Legs(if LONG in changes then changes[LONG] else legs.long,
         if SHORT in changes then changes[SHORT] else legs.short)
  }

  function Act(legs: Legs, reason: Reason, signal: Signal, changes: map<Side, bool>, leg: Option<Side>): Decision {
    Decision(Acted, reason, Apply(legs, changes), changes, signal, leg, true, None)
  }

  predicate TooOld(rec: Record, st: Settings) {
    rec.age.Some? && rec.age.value > st.maxAge
  }

  function TrimFraction(rec: Record, st: Settings): real {
    Max(st.minTrim, Min(st.maxTrim, rec.sizeFraction.Or(st.defaultTrim)))
  }

  function AddMultiple(rec: Record, st: Settings): real {
    Max(0.0, Min(st.maxAdd, rec.addMultiple.Or(st.defaultAdd)))
  }

  /** The price has already run further than allowed in the direction of the entry. */
  predicate Chased(mark: real, ref: real, goingLong: bool, st: Settings)
    requires ref != 0.0
  {
    var moved := (mark - ref) / ref;
    if goingLong then moved > st.stalenessPct else -moved > st.stalenessPct
  }

  /** Sizes a post asks for count between the limits and are clamped to them; the defaults stand in
      for what is missing or garbled. */
  lemma SizesAreClamped(rec: Record, st: Settings)
    requires st.minTrim <= st.maxTrim && 0.0 <= st.maxAdd
    ensures st.minTrim <= TrimFraction(rec, st) <= st.maxTrim && 0.0 <= AddMultiple(rec, st) <= st.maxAdd
    ensures var asked := if rec.sizeFraction.Number? then rec.sizeFraction.value else st.defaultTrim;
            && (asked >= st.minTrim ==> TrimFraction(rec, st) <= asked)
            && (asked <= st.maxTrim ==> TrimFraction(rec, st) >= asked)
    ensures var asked := if rec.addMultiple.Number? then rec.addMultiple.value else st.defaultAdd;
            && (asked >= 0.0 ==> AddMultiple(rec, st) <= asked)
            && (asked <= st.maxAdd ==> AddMultiple(rec, st) >= asked)
  {}

  /** The chase: the mark has moved from the reference, in the direction of the entry, by more than
      the allowed share of it. */
  lemma ChasedIff(mark: real, ref: real, goingLong: bool, st: Settings)
    requires ref > 0.0
    ensures Chased(mark, ref, goingLong, st) <==>
              (if goingLong then mark - ref else ref - mark) > st.stalenessPct * ref
  {
    QuotientAtMost(mark - ref, ref, st.stalenessPct);
    QuotientAtMost(ref - mark, ref, st.stalenessPct);
    assert (ref - mark) / ref == -((mark - ref) / ref);
  }

  /** Which open leg a management post is about, or why it cannot be told. */
  function ResolveLeg(rec: Record, legs: Legs): (r: (Option<Side>, Reason))
    ensures r.0.Some? ==> legs.IsOpen(r.0.value)
    ensures r.0.None? <==>
      if rec.direction.Some? then !legs.IsOpen(rec.direction.value) else legs.Flat() || legs.Both()
  {
    if rec.direction.Some? then
      if legs.IsOpen(rec.direction.value) then (rec.direction, NoReason) else (None, SideNotOpen)
    else if legs.Flat() then (None, NoPosition)
    else if legs.SoleOpen().Some? then (legs.SoleOpen(), NoReason)
    else (None, SideAmbiguous)
  }

  function TrimRefusal(refusal: Reason): Reason {
    if refusal == NoPosition then NoPositionToTrim
    else if refusal == SideNotOpen then TrimSideMismatch
    else TrimSideAmbiguous
  }

  function AddRefusal(refusal: Reason): Reason {
    if refusal == NoPosition then NoPositionToAdd
    else if refusal == SideNotOpen then AddSideMismatch
    else AddSideAmbiguous
  }

  function EvaluateAdd(rec: Record, phase: Phase, legs: Legs, mark: Option<real>, st: Settings): Decision {
    var (side, refusal) := ResolveLeg(rec, legs);
    if side.None? then Skip(legs, AddRefusal(refusal), NoSignal, None)
    else
      var multiple := AddMultiple(rec, st);
      var signal := AddTo(side.value);
      if multiple <= 0.0 then Skip(legs, AddSizeZero, signal, side)
      else if phase.Backfill? then Skip(legs, BackfillNoAdd, signal, side)
      else if TooOld(rec, st) then Skip(legs, SignalTooOld, signal, side)
      else if rec.reference.Some? && mark.Some? && rec.reference.value == 0.0 then
        Skip(legs, ZeroReference, signal, side).(kind := Raised)
      else if rec.reference.Some? && mark.Some? && Chased(mark.value, rec.reference.value, side.value.LONG?, st) then
        Skip(legs, StalePrice, signal, side)
      else Act(legs, AddAtMarket, signal, map[], side).(size := Some(multiple))
  }

  function EvaluateTrim(rec: Record, phase: Phase, legs: Legs, mark: Option<real>, st: Settings): Decision {
    var (side, refusal) := ResolveLeg(rec, legs);
    if side.None? then Skip(legs, TrimRefusal(refusal), NoSignal, None)
    else
      var fraction := Some(TrimFraction(rec, st));
      var signal := TrimLeg(side.value);
      if phase.Backfill? then Skip(legs, BackfillNoTrim, signal, side)
      else if TooOld(rec, st) then Skip(legs, SignalTooOld, signal, side)
      else if rec.trigger.None? then Act(legs, TrimAtMarket, signal, map[], side).(size := fraction)
      else if mark.None? then Skip(legs, NoMark, signal, side)
      else if (if side.value.SHORT? then mark.value <= rec.trigger.value else mark.value >= rec.trigger.value) then
        Act(legs, TrimLevelReached, signal, map[], side).(size := fraction)
      else Skip(legs, TrimLevelPending, signal, side).(kind := Parked, size := fraction)
  }

  /** A trim or scale-in that cannot be pinned to a leg says why: the named side is not open, nothing
      is, or both are and none is named. */
  lemma TrimRefusalNamesTheCause(rec: Record, phase: Phase, legs: Legs, mark: Option<real>, st: Settings)
    ensures var trim := EvaluateTrim(rec, phase, legs, mark, st);
            if rec.direction.Some? && !legs.IsOpen(rec.direction.value) then
              trim == Skip(legs, TrimSideMismatch, NoSignal, None)
            else if rec.direction.None? && legs.long == legs.short then
              trim == Skip(legs, if legs.long then TrimSideAmbiguous else NoPositionToTrim, NoSignal, None)
            else trim.leg == if rec.direction.Some? then rec.direction else Some(if legs.long then LONG else SHORT)
  {}

  lemma AddRefusalNamesTheCause(rec: Record, phase: Phase, legs: Legs, mark: Option<real>, st: Settings)
    ensures var add := EvaluateAdd(rec, phase, legs, mark, st);
            if rec.direction.Some? && !legs.IsOpen(rec.direction.value) then
              add == Skip(legs, AddSideMismatch, NoSignal, None)
            else if rec.direction.None? && legs.long == legs.short then
              add == Skip(legs, if legs.long then AddSideAmbiguous else NoPositionToAdd, NoSignal, None)
            else add.leg == if rec.direction.Some? then rec.direction else Some(if legs.long then LONG else SHORT)
  {}

  /** When the market has gone as far as a level, in the direction of the leg. */
  predicate HasReached(side: Side, mark: real, level: real) {
    match side
    case LONG => level <= mark
    case SHORT => mark <= level
  }

  /** A trim of an open leg is carried out exactly live, while the post is fresh, and at market or
      once the market has reached its level in the leg's favour; it is parked exactly when that is
      all it lacks. */
  lemma TrimIsActedIff(rec: Record, phase: Phase, legs: Legs, mark: Option<real>, st: Settings)
    ensures var d, side := EvaluateTrim(rec, phase, legs, mark, st), ResolveLeg(rec, legs).0;
            var due := side.Some? && phase.Live? && (rec.age.Some? ==> rec.age.value <= st.maxAge);
            && (d.kind.Acted? <==>
                  due && (rec.trigger.None? || (mark.Some? && HasReached(side.value, mark.value, rec.trigger.value))))
            && (d.kind.Parked? <==>
                  due && rec.trigger.Some? && mark.Some? && !HasReached(side.value, mark.value, rec.trigger.value))
            && (d.kind.Acted? || d.kind.Parked? ==> d.signal == TrimLeg(side.value) && d.leg == side && d.size.Some?)
  {}

  /** A scale-in is carried out exactly live, fresh, for more than nothing, and when the mark, if
      there is one, has not run away from a price the post cites. */
  lemma AddIsActedIff(rec: Record, phase: Phase, legs: Legs, mark: Option<real>, st: Settings)
    ensures var d, side := EvaluateAdd(rec, phase, legs, mark, st), ResolveLeg(rec, legs).0;
            && (d.kind.Acted? <==>
                  && side.Some? && phase.Live? && (rec.age.Some? ==> rec.age.value <= st.maxAge)
                  && (if rec.addMultiple.Number? then rec.addMultiple.value else st.defaultAdd) > 0.0 && st.maxAdd > 0.0
                  && (rec.reference.Some? && mark.Some? ==>
                        && rec.reference.value != 0.0
                        && !Chased(mark.value, rec.reference.value, side == Some(LONG), st)))
            && (d.kind.Acted? ==> d.signal == AddTo(side.value) && d.leg == side && d.size.Some?)
  {
    hide Chased;
  }

  datatype Plan = Refuse(reason: Reason, about: Option<Side>)
                | Go(signal: Signal, changes: map<Side, bool>, goingLong: bool, target: Option<Side>)

  /** A named side closes that side; an unnamed one closes everything. */
  function PlanClose(rec: Record, legs: Legs): Plan {
    if legs.Flat() then Refuse(NoStateChange, None)
    else if rec.direction.Some? then
      if !legs.IsOpen(rec.direction.value) then Refuse(CloseSideNotOpen, rec.direction)
      else Go(CloseLeg(rec.direction.value), map[rec.direction.value := false], false, rec.direction)
    else if legs.SoleOpen().Some? then
      Go(CloseLeg(legs.SoleOpen().value), map[legs.SoleOpen().value := false], false, legs.SoleOpen())
    else Go(CloseAll, map[LONG := false, SHORT := false], false, None)
  }

  /** An OPEN or FLIP towards a side. `multi` allows a second leg. */
  function PlanEntry(flip: bool, want: Side, legs: Legs, multi: bool): Plan {
    var other := Opposite(want);
    if legs.IsOpen(want) then
      if flip && legs.IsOpen(other) then Go(CloseLeg(other), map[other := false], other.LONG?, Some(want))
      else Refuse(NoStateChange, None)
    else if legs.IsOpen(other) && (flip || !multi) then
      Go(FlipTo(want), map[other := false, want := true], want.LONG?, Some(want))
    else Go(OpenLeg(want), map[want := true], want.LONG?, Some(want))
  }

  /** The gates every full-position move passes: age, a price to compare with, and the chase. */
  function Gate(rec: Record, phase: Phase, legs: Legs, mark: Option<real>, implied: Option<real>,
                st: Settings, signal: Signal, changes: map<Side, bool>, goingLong: bool, leg: Option<Side>): Decision
  {
    var ref := if rec.reference.Some? then rec.reference else implied;
    if phase.Backfill? then Act(legs, BackfillReplay, signal, changes, leg)
    else if TooOld(rec, st) then Skip(legs, SignalTooOld, signal, leg)
    else if rec.reference.None? && !st.entryOnMissingPrice then Skip(legs, PricelessNoEntry, signal, leg)
    else if ref.None? then Act(legs, PricelessRecent, signal, changes, leg)
    else if mark.None? then Skip(legs, NoMark, signal, leg)
    else if ref.value == 0.0 then Skip(legs, ZeroReference, signal, leg).(kind := Raised)
    else if Chased(mark.value, ref.value, goingLong, st) then
      Skip(legs, if rec.reference.Some? then StalePrice else StaleImpliedRef, signal, leg)
    else Act(legs, if rec.reference.Some? then Ok else OkImpliedRef, signal, changes, leg)
  }

  /** What a full-position move would do, before the gates. */
  function PlanOf(rec: Record, legs: Legs, multi: bool): Plan {
    match rec.action
    case STOP => Refuse(StopOnly, None)
    case CLOSE => PlanClose(rec, legs)
    case OPEN | FLIP | ADD =>
      if rec.direction.None? then Refuse(NoTarget, None)
      else PlanEntry(rec.action.FLIP?, rec.direction.value, legs, multi)
    case TRIM | OTHER => Refuse(NoTarget, None)
  }

  function FullMove(rec: Record, phase: Phase, legs: Legs, mark: Option<real>, implied: Option<real>,
                    st: Settings, plan: Plan): Decision
  {
    if plan.Refuse? then Skip(legs, plan.reason, NoSignal, plan.about)
    else Gate(rec, phase, legs, mark, implied, st, plan.signal, plan.changes, plan.goingLong, plan.target)
  }

  /** An ADD with nothing open and a named side is an entry. */
  predicate IsReentry(rec: Record, legs: Legs) {
    rec.action.ADD? && legs.Flat() && rec.direction.Some?
  }

  function Evaluate(rec: Record, phase: Phase, legs: Legs, mark: Option<real>, implied: Option<real>,
                    multi: bool, st: Settings): Decision
  {
    if rec.confidence < st.confidenceFloor then Skip(legs, LowConfidence, NoSignal, None)
    else if !rec.listed then Skip(legs, NotWhitelisted, NoSignal, None)
    else if rec.action.TRIM? then EvaluateTrim(rec, phase, legs, mark, st)
    else if rec.action.ADD? && !IsReentry(rec, legs) then EvaluateAdd(rec, phase, legs, mark, st)
    else
      var d := FullMove(rec, phase, legs, mark, implied, st, PlanOf(rec, legs, multi));
      if IsReentry(rec, legs) then d.(reason := AddAsOpen(d.reason)) else d
  }

  // ---------------------------------------------------------------------------------
  // Webhook steps
  // ---------------------------------------------------------------------------------

  datatype WebhookStep = OpenStep(side: Side) | CloseStep(side: Side) | PartialStep(side: Side) | AddStep(side: Side)

  function Steps(signal: Signal): seq<WebhookStep> {
    match signal
    case NoSignal => []
    case OpenLeg(s) => [OpenStep(s)]
    case CloseLeg(s) => [CloseStep(s)]
    case FlipTo(s) => [CloseStep(Opposite(s)), OpenStep(s)]
    case CloseAll => [CloseStep(LONG), CloseStep(SHORT)]
    case TrimLeg(s) => [PartialStep(s)]
    case AddTo(s) => [AddStep(s)]
  }

  /** The legs after a step that is allowed: opening a flat leg, closing an open one, changing
      the size of an open one. None when it is not. */
  function Legal(legs: Legs, step: WebhookStep): Option<Legs> {
    match step
    case OpenStep(s) => if legs.IsOpen(s) then None else Some(legs.WithSide(s, true))
    case CloseStep(s) => if legs.IsOpen(s) then Some(legs.WithSide(s, false)) else None
    case PartialStep(s) => if legs.IsOpen(s) then Some(legs) else None
    case AddStep(s) => if legs.IsOpen(s) then Some(legs) else None
  }

  function RunSteps(legs: Legs, steps: seq<WebhookStep>): Option<Legs>
    decreases |steps|
  {
    if steps == [] then Some(legs)
    else
      var next := Legal(legs, steps[0]);
      if next.None? then None else RunSteps(next.value, steps[1..])
  }

  lemma RunTwo(legs: Legs, a: WebhookStep, b: WebhookStep)
    ensures [a, b][..0] == [] && [a, b][..1] == [a] && [a, b][..2] == [a, b]
    ensures RunSteps(legs, [a]) == Legal(legs, a)
    ensures RunSteps(legs, [a, b]) == if Legal(legs, a).None? then None else Legal(Legal(legs, a).value, b)
  {
    assert [a][1..] == [];
    assert [a, b][1..] == [b] && [b][1..] == [];
    if Legal(legs, a).Some? {
      assert RunSteps(Legal(legs, a).value, [b]) == Legal(Legal(legs, a).value, b);
    }
  }

  /** What a decision about `legs` has to mean to the emitter. Acting emits, and running the
      steps of its signal from the recorded legs is legal at every step and ends in exactly the
      decided legs, which are also what the recorded changes give. Anything but acting emits
      nothing and changes nothing. */
  ghost predicate Refines(legs: Legs, d: Decision) {
    && d.to == Apply(legs, d.changes)
    && (d.emit <==> d.kind.Acted?)
    && (d.kind.Acted? ==> Steps(d.signal) != [] && RunSteps(legs, Steps(d.signal)) == Some(d.to))
    && (!d.kind.Acted? ==> d.to == legs && d.changes == map[])
  }

  lemma RunSignal(legs: Legs, signal: Signal)
    ensures |Steps(signal)| <= 2
    ensures |Steps(signal)| == 1 ==> RunSteps(legs, Steps(signal)) == Legal(legs, Steps(signal)[0])
    ensures |Steps(signal)| == 2 ==>
              var next := Legal(legs, Steps(signal)[0]);
              RunSteps(legs, Steps(signal)) == if next.None? then None else Legal(next.value, Steps(signal)[1])
  {
    if |Steps(signal)| == 2 {
      RunTwo(legs, Steps(signal)[0], Steps(signal)[1]);
      assert Steps(signal) == [Steps(signal)[0], Steps(signal)[1]];
    } else if |Steps(signal)| == 1 {
      RunTwo(legs, Steps(signal)[0], Steps(signal)[0]);
      assert Steps(signal) == [Steps(signal)[0]];
    }
  }

  ghost predicate PlanRefines(legs: Legs, plan: Plan) {
    plan.Go? ==> Steps(plan.signal) != [] && RunSteps(legs, Steps(plan.signal)) == Some(Apply(legs, plan.changes))
  }

  lemma ClosePlanRefines(rec: Record, legs: Legs)
    ensures PlanRefines(legs, PlanClose(rec, legs))
  {
    hide RunSteps;
    if PlanClose(rec, legs).Go? {
      RunSignal(legs, PlanClose(rec, legs).signal);
    }
  }

  lemma EntryPlanRefines(flip: bool, want: Side, legs: Legs, multi: bool)
    ensures PlanRefines(legs, PlanEntry(flip, want, legs, multi))
  {
    hide RunSteps;
    if PlanEntry(flip, want, legs, multi).Go? {
      RunSignal(legs, PlanEntry(flip, want, legs, multi).signal);
    }
  }

  lemma EveryPlanRefines(rec: Record, legs: Legs, multi: bool)
    ensures PlanRefines(legs, PlanOf(rec, legs, multi))
  {
    hide RunSteps, Steps, Apply, PlanClose, PlanEntry;
    ClosePlanRefines(rec, legs);
    if rec.direction.Some? {
      EntryPlanRefines(rec.action.FLIP?, rec.direction.value, legs, multi);
    }
  }

  /** A trim or scale-in that is acted on changes the size of an open leg and no leg's state. */
  ghost predicate Manages(legs: Legs, d: Decision) {
    && (d.emit <==> d.kind.Acted?)
    && d.changes == map[]
    && (d.kind.Acted? ==>
          && (d.signal.TrimLeg? || d.signal.AddTo?)
          && legs.IsOpen(d.signal.side) && d.to == Apply(legs, map[]))
    && (!d.kind.Acted? ==> d.to == legs)
  }

  lemma TrimManages(rec: Record, phase: Phase, legs: Legs, mark: Option<real>, st: Settings)
    ensures Manages(legs, EvaluateTrim(rec, phase, legs, mark, st))
  {
    hide TrimFraction, TooOld, TrimRefusal, Apply;
  }

  lemma AddManages(rec: Record, phase: Phase, legs: Legs, mark: Option<real>, st: Settings)
    ensures Manages(legs, EvaluateAdd(rec, phase, legs, mark, st))
  {
    hide AddMultiple, TooOld, AddRefusal, Chased, Apply;
  }

  lemma ManagingRefines(legs: Legs, d: Decision)
    requires Manages(legs, d)
    ensures Refines(legs, d)
  {
    hide RunSteps;
    if d.kind.Acted? {
      RunSignal(legs, d.signal);
    }
  }

  lemma GateOutcome(rec: Record, phase: Phase, legs: Legs, mark: Option<real>, implied: Option<real>,
                                       st: Settings, plan: Plan)
    requires plan.Go?
    ensures var d := Gate(rec, phase, legs, mark, implied, st, plan.signal, plan.changes, plan.goingLong, plan.target);
            && (d.emit <==> d.kind.Acted?)
            && (if d.kind.Acted? then d.signal == plan.signal && d.changes == plan.changes
                && d.to == Apply(legs, plan.changes)
                else d.to == legs && d.changes == map[])
  {
    hide TooOld, Chased, Apply;
  }

  lemma FullMoveRefines(rec: Record, phase: Phase, legs: Legs, mark: Option<real>, implied: Option<real>,
                                           st: Settings, plan: Plan)
    requires PlanRefines(legs, plan)
    ensures var d := FullMove(rec, phase, legs, mark, implied, st, plan);
            && Refines(legs, d)
            && (d.kind.Acted? ==> plan.Go? && d.signal == plan.signal && d.changes == plan.changes)
  {
    hide Gate, RunSteps, Steps;
    if plan.Go? {
      GateOutcome(rec, phase, legs, mark, implied, st, plan);
    }
  }

  /** A decision refines to its steps, for every record, leg state, phase, price and mode. */
  lemma DecisionRefinesToSteps(rec: Record, phase: Phase, legs: Legs, mark: Option<real>, implied: Option<real>,
                               multi: bool, st: Settings)
    ensures Refines(legs, Evaluate(rec, phase, legs, mark, implied, multi, st))
  {
    hide EvaluateTrim, EvaluateAdd, PlanOf, FullMove, RunSteps, Steps, IsReentry;
    TrimManages(rec, phase, legs, mark, st);
    ManagingRefines(legs, EvaluateTrim(rec, phase, legs, mark, st));
    AddManages(rec, phase, legs, mark, st);
    ManagingRefines(legs, EvaluateAdd(rec, phase, legs, mark, st));
    EveryPlanRefines(rec, legs, multi);
    FullMoveRefines(rec, phase, legs, mark, implied, st, PlanOf(rec, legs, multi));
  }

  lemma ManagementSignals(rec: Record, phase: Phase, legs: Legs, mark: Option<real>, st: Settings)
    ensures EvaluateTrim(rec, phase, legs, mark, st).kind.Acted? ==>
        EvaluateTrim(rec, phase, legs, mark, st).signal.TrimLeg?
    ensures EvaluateAdd(rec, phase, legs, mark, st).kind.Acted? ==>
        EvaluateAdd(rec, phase, legs, mark, st).signal.AddTo?
  {
    hide TooOld, Chased, TrimRefusal, AddRefusal, TrimFraction, AddMultiple, ResolveLeg;
  }

  /** A full-position move that is acted on is the plan's, whatever gates it passed. */
  lemma ActedMoveIsThePlan(rec: Record, phase: Phase, legs: Legs, mark: Option<real>, implied: Option<real>,
                           multi: bool, st: Settings)
    ensures var d := Evaluate(rec, phase, legs, mark, implied, multi, st);
            var plan := PlanOf(rec, legs, multi);
            d.kind.Acted? ==>
              if d.signal.TrimLeg? || d.signal.AddTo? then rec.action.TRIM? || rec.action.ADD?
              else plan.Go? && d.signal == plan.signal && d.changes == plan.changes
  {
    ManagementSignals(rec, phase, legs, mark, st);
    EveryPlanRefines(rec, legs, multi);
    FullMoveRefines(rec, phase, legs, mark, implied, st, PlanOf(rec, legs, multi));
    PlanSignals(rec, legs, multi);
    hide EvaluateTrim, EvaluateAdd, PlanOf, FullMove, RunSteps, Steps, Apply, Refines, PlanRefines;
  }

  lemma PlanSignals(rec: Record, legs: Legs, multi: bool)
    ensures var plan := PlanOf(rec, legs, multi);
            && (plan.Go? ==> !plan.signal.TrimLeg? && !plan.signal.AddTo?)
            && (plan.Go? && plan.signal.OpenLeg? && !multi ==> !legs.IsOpen(Opposite(plan.signal.side)))
  {}

  /** On a net account no decision, and no moment between its steps, holds both legs. */
  lemma NetAccountNeverHoldsBoth(rec: Record, phase: Phase, legs: Legs, mark: Option<real>, implied: Option<real>,
                                 st: Settings, k: nat)
    requires !legs.Both()
    ensures var d := Evaluate(rec, phase, legs, mark, implied, false, st);
            && !d.to.Both()
            && (d.kind.Acted? && k <= |Steps(d.signal)| ==>
                  RunSteps(legs, Steps(d.signal)[..k]).Some? && !RunSteps(legs, Steps(d.signal)[..k]).value.Both())
  {
    DecisionRefinesToSteps(rec, phase, legs, mark, implied, false, st);
    ActedMoveIsThePlan(rec, phase, legs, mark, implied, false, st);
    PlanSignals(rec, legs, false);
    hide Evaluate, PlanOf, RunSteps;
    var d := Evaluate(rec, phase, legs, mark, implied, false, st);
    if d.kind.Acted? && k <= |Steps(d.signal)| {
      NetStepsNeverHoldBoth(legs, d, k);
    }
    if d.kind.Acted? {
      NetStepsNeverHoldBoth(legs, d, |Steps(d.signal)|);
      assert Steps(d.signal)[..|Steps(d.signal)|] == Steps(d.signal);
    }
  }

  lemma NetStepsNeverHoldBoth(legs: Legs, d: Decision, k: nat)
    requires !legs.Both() && Refines(legs, d) && d.kind.Acted?
    requires d.signal.OpenLeg? ==> !legs.IsOpen(Opposite(d.signal.side))
    requires k <= |Steps(d.signal)|
    ensures RunSteps(legs, Steps(d.signal)[..k]).Some? && !RunSteps(legs, Steps(d.signal)[..k]).value.Both()
  {
    hide Apply;
    var steps := Steps(d.signal);
    RunSignal(legs, d.signal);
    if k == |steps| {
      assert steps[..k] == steps;
    } else if k == 1 {
      RunTwo(legs, steps[0], steps[0]);
      assert steps[..1] == [steps[0]];
    }
  }

  /** An acted FLIP ends with only its own side open, whatever was open before and whatever
      the account's mode. */
  lemma FlipLeavesItsOwnSideOnly(rec: Record, phase: Phase, legs: Legs, mark: Option<real>, implied: Option<real>,
                                 multi: bool, st: Settings)
    requires rec.action.FLIP?
    ensures var d := Evaluate(rec, phase, legs, mark, implied, multi, st);
            d.kind.Acted? ==> rec.direction.Some? && d.to == Legs(false, false).WithSide(rec.direction.value, true)
  {
    DecisionRefinesToSteps(rec, phase, legs, mark, implied, multi, st);
    ActedMoveIsThePlan(rec, phase, legs, mark, implied, multi, st);
    hide Evaluate, Steps, RunSteps;
  }

  // ---------------------------------------------------------------------------------
  // The gates
  // ---------------------------------------------------------------------------------

  /** The price has run no further in the direction of the entry. */
  predicate NoFurther(mark: real, mark': real, goingLong: bool) {
    if goingLong then mark' <= mark else mark' >= mark
  }

  lemma MovedOrders(a: real, b: real, ref: real)
    requires ref > 0.0 && a <= b
    ensures (a - ref) / ref <= (b - ref) / ref
  {
    QuotientAtMost(a - ref, ref, (b - ref) / ref);
    assert (b - ref) / ref * ref == b - ref;
  }

  lemma ChaseIsMonotone(mark: real, mark': real, ref: real, goingLong: bool, st: Settings)
    requires ref > 0.0 && NoFurther(mark, mark', goingLong) && !Chased(mark, ref, goingLong, st)
    ensures !Chased(mark', ref, goingLong, st)
  {
    if goingLong { MovedOrders(mark', mark, ref); } else { MovedOrders(mark, mark', ref); }
  }

  predicate Younger(age: Option<real>, age': Option<real>) {
    age'.None? || (age.Some? && age'.value <= age.value)
  }

  predicate PositivePrice(price: Option<real>) {
    price.Some? ==> price.value > 0.0
  }

  /** Which way the chase gate looks: a scale-in by its leg, anything else by its plan. */
  function GoesLong(rec: Record, legs: Legs, multi: bool): bool {
    if rec.action.ADD? && !IsReentry(rec, legs) then ResolveLeg(rec, legs).0 == Some(LONG)
    else
      var plan := PlanOf(rec, legs, multi);
      plan.Go? && plan.goingLong
  }

  lemma GateIsMonotone(rec: Record, rec': Record, legs: Legs, mark: real, mark': real,
                                          implied: Option<real>, st: Settings, plan: Plan)
    requires rec' == rec.(age := rec'.age) && Younger(rec.age, rec'.age)
    requires PositivePrice(rec.reference) && PositivePrice(implied)
    requires plan.Go? && NoFurther(mark, mark', plan.goingLong)
    requires FullMove(rec, Live, legs, Some(mark), implied, st, plan).kind.Acted?
    ensures FullMove(rec', Live, legs, Some(mark'), implied, st, plan)
        == FullMove(rec, Live, legs, Some(mark), implied, st, plan)
  {
    hide Chased, Apply;
    var ref := if rec.reference.Some? then rec.reference else implied;
    if ref.Some? && !Chased(mark, ref.value, plan.goingLong, st) {
      ChaseIsMonotone(mark, mark', ref.value, plan.goingLong, st);
    }
  }

  lemma AddIsMonotone(rec: Record, rec': Record, legs: Legs, mark: real, mark': real, st: Settings)
    requires rec' == rec.(age := rec'.age) && Younger(rec.age, rec'.age) && PositivePrice(rec.reference)
    requires NoFurther(mark, mark', ResolveLeg(rec, legs).0 == Some(LONG))
    requires EvaluateAdd(rec, Live, legs, Some(mark), st).kind.Acted?
    ensures EvaluateAdd(rec', Live, legs, Some(mark'), st) == EvaluateAdd(rec, Live, legs, Some(mark), st)
  {
    hide Chased, Apply, AddRefusal;
    if rec.reference.Some? && !Chased(mark, rec.reference.value, ResolveLeg(rec, legs).0 == Some(LONG), st) {
      ChaseIsMonotone(mark, mark', rec.reference.value, ResolveLeg(rec, legs).0 == Some(LONG), st);
    }
  }

  /** The gates are monotone: what is acted on live, trims apart, is acted on in the same way
      when the post is younger and the price has run no further. */
  lemma FresherAndCheaperStillActs(rec: Record, rec': Record, legs: Legs, mark: real, mark': real,
                                                      implied: Option<real>, multi: bool, st: Settings)
    requires rec' == rec.(age := rec'.age) && Younger(rec.age, rec'.age) && !rec.action.TRIM?
    requires PositivePrice(rec.reference) && PositivePrice(implied)
    requires NoFurther(mark, mark', GoesLong(rec, legs, multi))
    requires Evaluate(rec, Live, legs, Some(mark), implied, multi, st).kind.Acted?
    ensures Evaluate(rec', Live, legs, Some(mark'), implied, multi, st)
        == Evaluate(rec, Live, legs, Some(mark), implied, multi, st)
  {
    hide EvaluateAdd, PlanClose, PlanEntry, Gate, ResolveLeg, NoFurther, PositivePrice;
    if rec.action.ADD? && !IsReentry(rec, legs) {
      SameLeg(rec, rec', legs);
      AddIsMonotone(rec, rec', legs, mark, mark', st);
    } else {
      SamePlan(rec, rec', legs, multi);
      GateIsMonotone(rec, rec', legs, mark, mark', implied, st, PlanOf(rec, legs, multi));
    }
  }

  lemma SameLeg(rec: Record, rec': Record, legs: Legs)
    requires rec' == rec.(age := rec'.age)
    ensures ResolveLeg(rec', legs) == ResolveLeg(rec, legs)
  {}

  lemma SamePlan(rec: Record, rec': Record, legs: Legs, multi: bool)
    requires rec' == rec.(age := rec'.age)
    ensures PlanOf(rec', legs, multi) == PlanOf(rec, legs, multi)
  {}

  /** Trims and scale-ins, as opposed to full-position moves. */
  predicate ManagesOnly(rec: Record, legs: Legs) {
    rec.action.TRIM? || (rec.action.ADD? && !IsReentry(rec, legs))
  }

  /** Live, a full-position move is carried out only while it is fresh, and only against a mark
      that has not run away from its cited or implied price; without either price only when
      that is configured. An old post is only ever replayed into the record. Trims and scale-ins
      are never replayed at all. */
  lemma ActedPostPassedItsGates(rec: Record, phase: Phase, legs: Legs, mark: Option<real>,
                                                   implied: Option<real>, multi: bool, st: Settings)
    requires Evaluate(rec, phase, legs, mark, implied, multi, st).kind.Acted?
    ensures rec.confidence >= st.confidenceFloor && rec.listed
    ensures phase.Live? ==> !TooOld(rec, st)
    ensures phase.Backfill? ==> Evaluate(rec, phase, legs, mark, implied, multi, st).changes != map[]
    ensures phase.Live? && !rec.action.TRIM? && rec.reference.Some? && mark.Some? ==>
              rec.reference.value != 0.0 && !Chased(mark.value, rec.reference.value, GoesLong(rec, legs, multi), st)
    ensures phase.Live? && !ManagesOnly(rec, legs) ==>
              var ref := if rec.reference.Some? then rec.reference else implied;
              && (rec.reference.None? ==> st.entryOnMissingPrice)
              && (ref.Some? ==>
                    && mark.Some? && ref.value != 0.0
                    && !Chased(mark.value, ref.value, GoesLong(rec, legs, multi), st))
  {
    hide Chased, TooOld, Apply, TrimRefusal, AddRefusal;
    if !ManagesOnly(rec, legs) {
      PlansChangeSomething(rec, legs, multi);
      hide PlanOf;
    }
  }

  /** A full-position move that has something to do: a leg to close, or a side to open or to be
      left alone on. */
  predicate HasWork(rec: Record, legs: Legs) {
    match rec.action
    case CLOSE => (legs.long && rec.direction != Some(SHORT)) || (legs.short && rec.direction != Some(LONG))
    case OPEN => rec.direction.Some? && !legs.IsOpen(rec.direction.value)
    case FLIP =>
      && rec.direction.Some?
      && !(legs.IsOpen(rec.direction.value) && !legs.IsOpen(Opposite(rec.direction.value)))
    case ADD => rec.direction.Some? && !legs.long && !legs.short
    case STOP | TRIM | OTHER => false
  }

  /** The side whose run-away price holds a move back: that of the entry; the short side for every
      close; and for a flip onto a side that is already held, the side it gives up. */
  function ChaseSide(rec: Record, legs: Legs): Side {
    if rec.action.CLOSE? || rec.direction.None? then SHORT
    else if legs.IsOpen(rec.direction.value) then Opposite(rec.direction.value)
    else rec.direction.value
  }

  /** A full-position move is acted on exactly when the post is trusted, has something to do, and is
      either replayed or fresh, with a price cited or implied that the mark has not run away from,
      or with none when that is configured. A close is held back like an entry: by a price that has
      fallen, whichever leg it closes. */
  lemma MoveIsActedIff(rec: Record, phase: Phase, legs: Legs, mark: Option<real>, implied: Option<real>,
                       multi: bool, st: Settings)
    requires !ManagesOnly(rec, legs)
    ensures Evaluate(rec, phase, legs, mark, implied, multi, st).kind.Acted? <==>
              var ref := if rec.reference.Some? then rec.reference else implied;
              && rec.confidence >= st.confidenceFloor && rec.listed && HasWork(rec, legs)
              && (phase.Live? ==>
                    && (rec.age.Some? ==> rec.age.value <= st.maxAge)
                    && (rec.reference.None? ==> st.entryOnMissingPrice)
                    && (ref.Some? ==>
                          && mark.Some? && ref.value != 0.0
                          && !Chased(mark.value, ref.value, ChaseSide(rec, legs) == LONG, st)))
  {
    MoveHasWork(rec, legs, multi);
    var plan := PlanOf(rec, legs, multi);
    if plan.Go? { GateActsIff(rec, phase, legs, mark, implied, st, plan); }
    hide Chased, Apply, PlanOf, HasWork, ChaseSide, Gate, EvaluateTrim, EvaluateAdd;
  }

  lemma GateActsIff(rec: Record, phase: Phase, legs: Legs, mark: Option<real>, implied: Option<real>,
                    st: Settings, plan: Plan)
    requires plan.Go?
    ensures FullMove(rec, phase, legs, mark, implied, st, plan).kind.Acted? <==>
              var ref := if rec.reference.Some? then rec.reference else implied;
              phase.Live? ==>
                && (rec.age.Some? ==> rec.age.value <= st.maxAge)
                && (rec.reference.None? ==> st.entryOnMissingPrice)
                && (ref.Some? ==>
                      && mark.Some? && ref.value != 0.0
                      && !Chased(mark.value, ref.value, plan.goingLong, st))
  {
    hide Chased, Apply;
  }

  lemma MoveHasWork(rec: Record, legs: Legs, multi: bool)
    requires !ManagesOnly(rec, legs)
    ensures PlanOf(rec, legs, multi).Go? <==> HasWork(rec, legs)
    ensures PlanOf(rec, legs, multi).Go? ==>
              (PlanOf(rec, legs, multi).goingLong <==> ChaseSide(rec, legs) == LONG)
  {}

  /** What an acted move means for the legs: a close leaves open what it does not name; anything
      else ends with its own side open, and with the other side open only if it was, on a hedge
      account, and the move is no flip. */
  lemma ActedMoveMeans(rec: Record, phase: Phase, legs: Legs, mark: Option<real>, implied: Option<real>,
                       multi: bool, st: Settings, side: Side)
    requires !ManagesOnly(rec, legs) && Evaluate(rec, phase, legs, mark, implied, multi, st).kind.Acted?
    ensures Evaluate(rec, phase, legs, mark, implied, multi, st).to.IsOpen(side) <==>
              if rec.action.CLOSE? then legs.IsOpen(side) && rec.direction.Some? && rec.direction.value != side
              else
                && rec.direction.Some?
                && (side == rec.direction.value || (legs.IsOpen(side) && multi && !rec.action.FLIP?))
  {
    var plan := PlanOf(rec, legs, multi);
    hide Gate, PlanOf, Apply, EvaluateTrim, EvaluateAdd;
    if plan.Go? {
      GateOutcome(rec, phase, legs, mark, implied, st, plan);
      PlanMeans(rec, legs, multi, side);
    }
  }

  lemma PlanMeans(rec: Record, legs: Legs, multi: bool, side: Side)
    requires PlanOf(rec, legs, multi).Go?
    ensures Apply(legs, PlanOf(rec, legs, multi).changes).IsOpen(side) <==>
              if rec.action.CLOSE? then legs.IsOpen(side) && rec.direction.Some? && rec.direction.value != side
              else
                && rec.direction.Some?
                && (side == rec.direction.value || (legs.IsOpen(side) && multi && !rec.action.FLIP?))
  {}

  lemma PlansChangeSomething(rec: Record, legs: Legs, multi: bool)
    ensures PlanOf(rec, legs, multi).Go? ==> PlanOf(rec, legs, multi).changes != map[]
  {
    var plan := PlanOf(rec, legs, multi);
    if plan.Go? {
      assert (if plan.signal.CloseAll? then LONG else plan.signal.side) in plan.changes;
    }
  }
}
