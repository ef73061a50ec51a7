/**
 The bracket exit calculator (signal-engine/app/exits.py): one position with a stop, a
 trailing stop, an RSI tighten and two targets.

 `BracketState` is the calculator as it is written, with a long and a short branch at every
 step. It is proved to follow `Step`, a single machine in GAIN coordinates (a price times the
 sign of the direction, so that larger is always better for the position). Everything else
 is proved of `Step` and of its runs, once for both directions.
 */
module Bracket {
  import opened Prelude

  datatype Direction = Long | Short

  function Sign(d: Direction): real {
    if d.Long? then 1.0 else -1.0
  }

  /** A price as seen by the position: larger is better. The map is its own inverse. */
  function Gain(d: Direction, price: real): real {
    if d.Long? then price else -price
  }

  datatype Spec = Spec(
    direction: Direction,
    tp1OffsetPct: real, tp1SizePct: real, tp2OffsetPct: real,
    stopOffsetPct: real, trailArmPct: real, trailPct: real, beOffsetPct: real,
    rsiLong: Option<real>, rsiShort: Option<real>)

  datatype Reason = Tp1 | Tp2 | Stop | BeStop | Trail

  datatype Exit = Exit(reason: Reason, size: real)

  // ---------------------------------------------------------------------------------
  // The one-sided machine
  // ---------------------------------------------------------------------------------

  /** The fixed levels of a bracket, in gain coordinates. `keep` is the share of the peak the
      trailing stop keeps: 1 - trail for a long, 1 + trail for a short. */
  datatype Plan = Plan(
    start: real, stop0: real, tighten: real, be: real, arm: real, tp1: real, tp2: real,
    keep: real, tp1Size: real)

  datatype State = State(
    peak: real, protective: real, remaining: real,
    armed: bool, tp1Done: bool, tightened: bool, closed: bool)

  /** One update, seen from the position: the best and worst gain of the bar, and whether the
      RSI sits past the threshold of the bracket's side. */
  datatype Bar = Bar(best: real, worst: real, rsiExtreme: bool)

  function PlanOf(spec: Spec, entry: real): Plan {
    var d := Sign(spec.direction);
    Plan(Gain(spec.direction, entry),
         Gain(spec.direction, entry * (1.0 - d * spec.stopOffsetPct / 100.0)),
         Gain(spec.direction, entry * (1.0 - d * spec.stopOffsetPct / 200.0)),
         Gain(spec.direction, entry * (1.0 + d * spec.beOffsetPct / 100.0)),
         Gain(spec.direction, entry * (1.0 + d * spec.trailArmPct / 100.0)),
         Gain(spec.direction, entry * (1.0 + d * spec.tp1OffsetPct / 100.0)),
         Gain(spec.direction, entry * (1.0 + d * spec.tp2OffsetPct / 100.0)),
         1.0 - d * (spec.trailPct / 100.0),
         spec.tp1SizePct)
  }

  function Start(p: Plan): State {
    State(p.start, p.stop0, 100.0, false, false, false, false)
  }

  function TrailLevel(peak: real, keep: real): real {
    peak * keep
  }

  /** The stop in force: the trailing level counts only once the trail is armed. */
  function Effective(p: Plan, s: State): real {
    if s.armed then Max(s.protective, TrailLevel(s.peak, p.keep)) else s.protective
  }

  /** What a bar does before any exit is considered: peak, RSI tighten, arming. */
  function Observe(p: Plan, s: State, b: Bar): State {
    var tightens := b.rsiExtreme && !s.tp1Done && !s.tightened;
    s.(peak := Max(s.peak, b.best),
       protective := if tightens then p.tighten else s.protective,
       tightened := s.tightened || tightens,
       armed := s.armed || b.best >= p.arm)
  }

  function Step(p: Plan, s: State, b: Bar): (State, seq<Exit>) {
    if s.closed then (s, [])
    else
      var o := Observe(p, s, b);
      if b.worst <= Effective(p, o) then
        var reason := if b.worst > o.protective then Trail else if o.tp1Done then BeStop else Stop;
        (o.(closed := true), [Exit(reason, o.remaining)])
      else
        var takes1 := !o.tp1Done && b.best >= p.tp1;
        var t := if takes1
                 then o.(remaining := o.remaining - p.tp1Size, tp1Done := true, protective := p.be)
                 else o;
        var first := if takes1 then [Exit(Tp1, p.tp1Size)] else [];
        if t.tp1Done && b.best >= p.tp2 then
          (t.(closed := true), first + [Exit(Tp2, t.remaining)])
        else (t, first)
  }

  function Run(p: Plan, s: State, bars: seq<Bar>): (State, seq<Exit>)
    decreases |bars|
  {
    if bars == [] then (s, [])
    else
      var (s1, e1) := Step(p, s, bars[0]);
      var (s2, e2) := Run(p, s1, bars[1..]);
      (s2, e1 + e2)
  }

  // ---------------------------------------------------------------------------------
  // Conservation and the shape of a run
  // ---------------------------------------------------------------------------------

  function TotalSize(exits: seq<Exit>): real {
    if exits == [] then 0.0 else exits[0].size + TotalSize(exits[1..])
  }

  function Reasons(exits: seq<Exit>): seq<Reason> {
    seq(|exits|, i requires 0 <= i < |exits| => exits[i].reason)
  }

  lemma {:induction false} TotalSizeConcat(a: seq<Exit>, b: seq<Exit>)
    ensures TotalSize(a + b) == TotalSize(a) + TotalSize(b)
  {
    if a == [] {
      assert a + b == b;
    } else {
      assert (a + b)[1..] == a[1..] + b;
      TotalSizeConcat(a[1..], b);
    }
  }

  /** What is still to be sold. A closed bracket has nothing left, although the calculator
      never resets its `_remaining` field. */
  function Left(s: State): real {
    if s.closed then 0.0 else s.remaining
  }

  /** The exits that can still follow, by what has already happened. */
  predicate Follows(before: State, after: State, reasons: seq<Reason>) {
    if before.closed then after.closed && reasons == []
    else if before.tp1Done then
      if after.closed then reasons == [BeStop] || reasons == [Trail] || reasons == [Tp2]
      else after.tp1Done && reasons == []
    else if after.closed then
      reasons == [Stop] || reasons == [Trail]
      || reasons == [Tp1, BeStop] || reasons == [Tp1, Trail] || reasons == [Tp1, Tp2]
    else reasons == if after.tp1Done then [Tp1] else []
  }

  lemma {:induction false} RunConserves(p: Plan, s: State, bars: seq<Bar>)
    ensures var (s', exits) := Run(p, s, bars);
            TotalSize(exits) + Left(s') == Left(s) && Follows(s, s', Reasons(exits))
    decreases |bars|
  {
    hide Step, Follows, TotalSize, Left;
    if bars != [] {
      var (s1, e1) := Step(p, s, bars[0]);
      var (s2, e2) := Run(p, s1, bars[1..]);
      RunConserves(p, s1, bars[1..]);
      TotalSizeConcat(e1, e2);
      assert Reasons(e1 + e2) == Reasons(e1) + Reasons(e2);
      StepShape(p, s, bars[0]);
      StoriesCompose(s, s1, s2, Reasons(e1), Reasons(e2));
    } else {
      NothingHappened(s);
    }
  }

  lemma StoriesCompose(before: State, between: State, after: State, first: seq<Reason>, second: seq<Reason>)
    requires Follows(before, between, first) && Follows(between, after, second)
    ensures Follows(before, after, first + second)
  {
  }

  lemma NothingHappened(s: State)
    ensures TotalSize([]) == 0.0 && Reasons([]) == [] && Follows(s, s, [])
  {
  }

  lemma StepShape(p: Plan, s: State, b: Bar)
    ensures var (s', exits) := Step(p, s, b);
            TotalSize(exits) + Left(s') == Left(s) && Follows(s, s', Reasons(exits))
  {
    var (s', exits) := Step(p, s, b);
    if |exits| == 2 {
      assert exits[1..] == [exits[1]];
      assert exits[1..][1..] == [];
      assert TotalSize(exits[1..]) == exits[1].size;
      assert Reasons(exits) == [exits[0].reason, exits[1].reason];
    } else if |exits| == 1 {
      assert exits[1..] == [];
      assert Reasons(exits) == [exits[0].reason];
    }
  }

  /** Over any run of a fresh bracket: emitted size plus what remains is 100, emitted size is
      100 once closed, and the emitted reasons form one of the five allowed stories or a
      beginning of one. */
  lemma RunShape(p: Plan, bars: seq<Bar>)
    ensures var (s, exits) := Run(p, Start(p), bars);
            && TotalSize(exits) == (if s.closed then 100.0 else 100.0 - s.remaining)
            && (s.closed <==> Reasons(exits) in {[Stop], [Trail], [Tp1, BeStop], [Tp1, Trail], [Tp1, Tp2]})
            && (!s.closed ==> Reasons(exits) == if s.tp1Done then [Tp1] else [])
  {
    RunConserves(p, Start(p), bars);
  }

  // ---------------------------------------------------------------------------------
  // The same bracket, told by its history
  // ---------------------------------------------------------------------------------

  predicate Reached(bars: seq<Bar>, level: real) {
    exists bar <- bars :: bar.best >= level
  }

  /** Some bar found the RSI past its threshold before the first target was reached. */
  predicate Tightened(p: Plan, bars: seq<Bar>) {
    exists i :: 0 <= i < |bars| && bars[i].rsiExtreme && !Reached(bars[..i], p.tp1)
  }

  /** The best gain so far, the entry included. */
  ghost predicate IsPeak(p: Plan, bars: seq<Bar>, peak: real) {
    && peak >= p.start && (forall bar <- bars :: peak >= bar.best)
    && (peak == p.start || exists bar <- bars :: peak == bar.best)
  }

  /** The stop that stays where it is put: break-even once the first target was reached, half way
      to the entry once the RSI asked for it. */
  function Protective(p: Plan, target: bool, bars: seq<Bar>): real {
    if target then p.be else if Tightened(p, bars) then p.tighten else p.stop0
  }

  lemma ReachedOneMore(bars: seq<Bar>, b: Bar, level: real)
    ensures Reached(bars + [b], level) <==> Reached(bars, level) || b.best >= level
  {
    if Reached(bars, level) {
      var bar :| bar in bars && bar.best >= level;
      assert bar in bars + [b];
    }
    assert b in bars + [b];
  }

  lemma TightenedOneMore(p: Plan, bars: seq<Bar>, b: Bar)
    ensures Tightened(p, bars + [b]) <==> Tightened(p, bars) || (b.rsiExtreme && !Reached(bars, p.tp1))
  {
    var all := bars + [b];
    forall i | 0 <= i <= |bars| ensures all[..i] == bars[..i] {}
    assert all[..|bars|] == bars && all[|bars|] == b;
    if i :| 0 <= i < |bars| && bars[i].rsiExtreme && !Reached(bars[..i], p.tp1) {
      assert all[i].rsiExtreme && !Reached(all[..i], p.tp1);
    }
    if b.rsiExtreme && !Reached(bars, p.tp1) {
      assert all[|bars|].rsiExtreme && !Reached(all[..|bars|], p.tp1);
    }
  }

  /** What the calculator remembers of an open bracket, from the bars it was fed. */
  ghost predicate Remembers(p: Plan, bars: seq<Bar>, s: State) {
    && (s.tp1Done <==> Reached(bars, p.tp1)) && (s.armed <==> Reached(bars, p.arm))
    && (s.tightened <==> Tightened(p, bars)) && IsPeak(p, bars, s.peak)
    && s.protective == Protective(p, Reached(bars, p.tp1), bars)
    && s.remaining == if Reached(bars, p.tp1) then 100.0 - p.tp1Size else 100.0
  }

  /** What a bar fires, by the bars before it: a stop takes everything that is left, the targets
      what they are for. */
  ghost predicate Fires(p: Plan, bars: seq<Bar>, b: Bar, peak: real, exits: seq<Exit>) {
    var before, all := Reached(bars, p.tp1), bars + [b];
    var held := if before then 100.0 - p.tp1Size else 100.0;
    var protective := Protective(p, before, all);
    var trailed := Reached(all, p.arm) && b.worst <= TrailLevel(peak, p.keep);
    if b.worst <= protective then exits == [Exit(if before then BeStop else Stop, held)]
    else if trailed then exits == [Exit(Trail, held)]
    else
      exits == (if !before && b.best >= p.tp1 then [Exit(Tp1, p.tp1Size)] else [])
             + (if Reached(all, p.tp1) && b.best >= p.tp2 then [Exit(Tp2, 100.0 - p.tp1Size)] else [])
  }

  /** What a bar fires, by whether the first target was reached before it. */
  lemma FiredSizes(p: Plan, bars: seq<Bar>, b: Bar, peak: real, fired: seq<Exit>)
    requires Fires(p, bars, b, peak, fired)
    ensures if Reached(bars, p.tp1) then
              |fired| <= 1 && (|fired| == 1 ==> fired[0].size == 100.0 - p.tp1Size)
            else
              && |fired| <= 2
              && (|fired| > 0 ==> fired[0].size == if fired[0].reason == Tp1 then p.tp1Size else 100.0)
              && (|fired| > 1 ==> fired[0].reason == Tp1 && fired[1].size == 100.0 - p.tp1Size)
  {
    ReachedOneMore(bars, b, p.tp1);
    hide Reached, TrailLevel, Protective;
  }

  lemma PeakOneMore(p: Plan, bars: seq<Bar>, b: Bar, peak: real)
    requires IsPeak(p, bars, peak)
    ensures IsPeak(p, bars + [b], Max(peak, b.best))
  {
    assert b in bars + [b] && forall bar <- bars :: bar in bars + [b];
  }

  lemma Grown(p: Plan, bars: seq<Bar>, b: Bar, s: State)
    requires Remembers(p, bars, s)
    ensures var all, before := bars + [b], Reached(bars, p.tp1);
            && (Reached(all, p.tp1) <==> before || b.best >= p.tp1)
            && (Reached(all, p.arm) <==> s.armed || b.best >= p.arm)
            && (Tightened(p, all) <==> s.tightened || (b.rsiExtreme && !before))
            && IsPeak(p, all, Max(s.peak, b.best))
  {
    ReachedOneMore(bars, b, p.tp1);
    ReachedOneMore(bars, b, p.arm);
    TightenedOneMore(p, bars, b);
    PeakOneMore(p, bars, b, s.peak);
    hide Reached, Tightened, IsPeak, Protective;
  }

  /** Peak, arming and tightening are those of the bars with this one. */
  lemma ObserveRemembers(p: Plan, bars: seq<Bar>, b: Bar, s: State)
    requires Remembers(p, bars, s)
    ensures var o, all, before := Observe(p, s, b), bars + [b], Reached(bars, p.tp1);
            && o == State(Max(s.peak, b.best), Protective(p, before, all), if before then 100.0 - p.tp1Size else 100.0,
                          Reached(all, p.arm), before, Tightened(p, all), s.closed)
            && IsPeak(p, all, o.peak)
  {
    Grown(p, bars, b, s);
    hide Reached, Tightened, IsPeak;
  }

  lemma StepCases(p: Plan, b: Bar, s: State)
    requires !s.closed
    ensures var o, exits := Observe(p, s, b), Step(p, s, b).1;
            if b.worst <= o.protective then exits == [Exit(if o.tp1Done then BeStop else Stop, o.remaining)]
            else if o.armed && b.worst <= TrailLevel(o.peak, p.keep) then exits == [Exit(Trail, o.remaining)]
            else
              var left := if o.tp1Done then o.remaining else o.remaining - p.tp1Size;
              exits == (if !o.tp1Done && b.best >= p.tp1 then [Exit(Tp1, p.tp1Size)] else [])
                     + (if (o.tp1Done || b.best >= p.tp1) && b.best >= p.tp2 then [Exit(Tp2, left)] else [])
  {
    hide Observe, TrailLevel;
  }

  lemma StepFires(p: Plan, bars: seq<Bar>, b: Bar, s: State)
    requires !s.closed && Remembers(p, bars, s)
    ensures Fires(p, bars, b, Max(s.peak, b.best), Step(p, s, b).1)
  {
    ObserveRemembers(p, bars, b, s);
    ReachedOneMore(bars, b, p.tp1);
    StepCases(p, b, s);
    hide Reached, Tightened, IsPeak, TrailLevel, Observe, Protective, Step, Remembers;
  }

  lemma StepKeeps(p: Plan, b: Bar, s: State)
    requires !s.closed
    ensures var o, (s', exits) := Observe(p, s, b), Step(p, s, b);
            && (s'.closed <==> exits != [] && exits[|exits| - 1].reason != Tp1)
            && (!s'.closed ==>
                  s' == if !o.tp1Done && b.best >= p.tp1
                        then o.(remaining := o.remaining - p.tp1Size, tp1Done := true, protective := p.be) else o)
  {
    assert !Observe(p, s, b).closed;
    hide Observe, Effective;
  }

  lemma StepRemembers(p: Plan, bars: seq<Bar>, b: Bar, s: State)
    requires !s.closed && Remembers(p, bars, s)
    ensures var (s', exits) := Step(p, s, b);
            && (!s'.closed ==> Remembers(p, bars + [b], s'))
            && (s'.closed <==> exits != [] && exits[|exits| - 1].reason != Tp1)
  {
    ObserveRemembers(p, bars, b, s);
    ReachedOneMore(bars, b, p.tp1);
    StepKeeps(p, b, s);
    hide Reached, Tightened, IsPeak, Observe, Step;
  }

  lemma {:induction false} RunLast(p: Plan, s: State, bars: seq<Bar>, b: Bar)
    ensures var (s1, e1) := Run(p, s, bars);
            var (s2, e2) := Step(p, s1, b);
            Run(p, s, bars + [b]) == (s2, e1 + e2)
    decreases |bars|
  {
    var all := bars + [b];
    if bars == [] {
      assert all == [b] && all[1..] == [];
      var (s2, e2) := Step(p, s, b);
      assert Run(p, s2, all[1..]) == (s2, []);
      assert e2 + [] == e2 && [] + e2 == e2;
    } else {
      assert all[0] == bars[0] && all[1..] == bars[1..] + [b];
      var (s1, e1) := Step(p, s, bars[0]);
      RunLast(p, s1, bars[1..], b);
      var (s2, e2) := Run(p, s1, bars[1..]);
      var (s3, e3) := Step(p, s2, b);
      assert e1 + (e2 + e3) == (e1 + e2) + e3;
      hide Step;
    }
  }

  lemma {:induction false} RunRemembers(p: Plan, bars: seq<Bar>)
    ensures !Run(p, Start(p), bars).0.closed ==> Remembers(p, bars, Run(p, Start(p), bars).0)
    decreases |bars|
  {
    if bars != [] {
      var n := |bars| - 1;
      RunRemembers(p, bars[..n]);
      var s := Run(p, Start(p), bars[..n]).0;
      assert bars == bars[..n] + [bars[n]];
      RunLast(p, Start(p), bars[..n], bars[n]);
      if !s.closed { StepRemembers(p, bars[..n], bars[n], s); }
      hide Remembers, Step, Run;
    }
  }

  /** What one more bar fires on an open bracket, from the bars before it alone: it is stopped
      exactly when the bar reached the protective stop, which is break-even once the first target
      was reached; the trail takes it exactly when the bar reached the trailing level of the peak
      and not that stop; and the targets are taken exactly when neither was reached. */
  lemma NextBarFires(p: Plan, bars: seq<Bar>, b: Bar)
    requires !Run(p, Start(p), bars).0.closed
    ensures var (s, exits) := Run(p, Start(p), bars);
            var (s', all) := Run(p, Start(p), bars + [b]);
            exists peak: real, fired: seq<Exit> ::
              && IsPeak(p, bars + [b], peak) && Fires(p, bars, b, peak, fired) && all == exits + fired
              && (s'.closed <==> fired != [] && fired[|fired| - 1].reason != Tp1)
  {
    RunRemembers(p, bars);
    RunLast(p, Start(p), bars, b);
    var s := Run(p, Start(p), bars).0;
    StepRemembers(p, bars, b, s);
    StepFires(p, bars, b, s);
    PeakOneMore(p, bars, b, s.peak);
    hide Run, Fires, IsPeak, Remembers;
    var fired := Step(p, s, b).1;
    assert IsPeak(p, bars + [b], Max(s.peak, b.best)) && Fires(p, bars, b, Max(s.peak, b.best), fired);
  }

  /** Over every run of a fresh bracket, in terms of its spec: the first target sells exactly its
      share, what follows it sells the rest, and an exit without it sells everything. */
  lemma {:induction false} ExitsCarry(spec: Spec, entry: real, bars: seq<Bar>)
    ensures var exits := Run(PlanOf(spec, entry), Start(PlanOf(spec, entry)), bars).1;
            && |exits| <= 2
            && (|exits| > 0 ==> exits[0].size == if exits[0].reason == Tp1 then spec.tp1SizePct else 100.0)
            && (|exits| > 1 ==> exits[0].reason == Tp1 && exits[1].size == 100.0 - spec.tp1SizePct)
    decreases |bars|
  {
    var p := PlanOf(spec, entry);
    RunShape(p, bars);
    if bars != [] {
      var n := |bars| - 1;
      ExitsCarry(spec, entry, bars[..n]);
      assert bars == bars[..n] + [bars[n]];
      RunLast(p, Start(p), bars[..n], bars[n]);
      var (s, exits) := Run(p, Start(p), bars[..n]);
      RunShape(p, bars[..n]);
      if !s.closed {
        RunRemembers(p, bars[..n]);
        StepRemembers(p, bars[..n], bars[n], s);
        StepFires(p, bars[..n], bars[n], s);
        FiredSizes(p, bars[..n], bars[n], Max(s.peak, bars[n].best), Step(p, s, bars[n]).1);
        assert Reasons(exits) == if s.tp1Done then [Tp1] else [];
        assert |Reasons(exits)| == |exits| && (exits != [] ==> Reasons(exits)[0] == exits[0].reason);
        hide Run, Step, Reached, Tightened, IsPeak, TotalSize, Reasons, Fires, Protective;
      } else {
        assert exits + [] == exits;
      }
    }
  }

  /** The levels of a plan in prices: where the spec puts them from the entry, in the direction of
      the position or against it, with the tightened stop half way to the first one, and the share
      of the price that the trailing stop gives up. */
  lemma LevelsOfSpec(spec: Spec, entry: real, peak: real)
    ensures var p, d := PlanOf(spec, entry), spec.direction;
            && Gain(d, p.start) == entry
            && p.start - p.stop0 == entry * spec.stopOffsetPct / 100.0
            && p.tighten == (p.start + p.stop0) / 2.0
            && p.be - p.start == entry * spec.beOffsetPct / 100.0
            && p.arm - p.start == entry * spec.trailArmPct / 100.0
            && p.tp1 - p.start == entry * spec.tp1OffsetPct / 100.0
            && p.tp2 - p.start == entry * spec.tp2OffsetPct / 100.0
            && Gain(d, peak) - TrailLevel(Gain(d, peak), p.keep) == peak * spec.trailPct / 100.0
            && p.tp1Size == spec.tp1SizePct
  {
    assert entry * (spec.stopOffsetPct / 200.0) == entry * spec.stopOffsetPct / 200.0;
    assert peak * (spec.trailPct / 100.0) == peak * spec.trailPct / 100.0;
  }

  // ---------------------------------------------------------------------------------
  // The ratchet
  // ---------------------------------------------------------------------------------

  /** The stops of the plan are ordered and the trailing level rises with the peak. */
  predicate Ordered(p: Plan) {
    p.stop0 <= p.tighten <= p.be && p.keep >= 0.0
  }

  /** The protective stop is determined by the two latches. */
  predicate Latched(p: Plan, s: State) {
    s.protective == if s.tp1Done then p.be else if s.tightened then p.tighten else p.stop0
  }

  /** Non-negative offsets on a positive entry order the plan, for both directions. The trail
      of a long must not exceed the whole price. */
  lemma SpecIsOrdered(spec: Spec, entry: real)
    requires entry > 0.0 && spec.stopOffsetPct >= 0.0 && spec.beOffsetPct >= 0.0
    requires 0.0 <= spec.trailPct <= 100.0
    ensures Ordered(PlanOf(spec, entry))
    ensures Latched(PlanOf(spec, entry), Start(PlanOf(spec, entry)))
  {
    var p := PlanOf(spec, entry);
    var d := Sign(spec.direction);
    var unit := entry / 200.0;
    assert p.stop0 == d * entry - 2.0 * (unit * spec.stopOffsetPct);
    assert p.tighten == d * entry - unit * spec.stopOffsetPct;
    assert p.be == d * entry + 2.0 * (unit * spec.beOffsetPct);
    assert unit * spec.stopOffsetPct >= 0.0 && unit * spec.beOffsetPct >= 0.0;
  }

  lemma TrailRises(keep: real, a: real, b: real)
    requires keep >= 0.0 && a <= b
    ensures TrailLevel(a, keep) <= TrailLevel(b, keep)
  {}

  lemma StepRatchets(p: Plan, s: State, b: Bar)
    requires Ordered(p) && Latched(p, s)
    ensures var s' := Step(p, s, b).0;
            && Latched(p, s')
            && s.peak <= s'.peak && s.protective <= s'.protective
            && Effective(p, s) <= Effective(p, s')
            && (s.armed ==> s'.armed) && (s.tp1Done ==> s'.tp1Done) && (s.closed ==> s' == s)
  {
    var o := Observe(p, s, b);
    TrailRises(p.keep, s.peak, o.peak);
    assert Effective(p, s) <= Effective(p, o);
    var s' := Step(p, s, b).0;
    assert !s.closed ==> s'.peak == o.peak && s'.armed == o.armed && o.protective <= s'.protective;
  }

  lemma {:induction false} RunRatchetsFrom(p: Plan, s: State, bars: seq<Bar>)
    requires Ordered(p) && Latched(p, s)
    ensures var s' := Run(p, s, bars).0;
            Latched(p, s') && s.peak <= s'.peak && s.protective <= s'.protective
            && Effective(p, s) <= Effective(p, s')
    decreases |bars|
  {
    if bars != [] {
      StepRatchets(p, s, bars[0]);
      RunRatchetsFrom(p, Step(p, s, bars[0]).0, bars[1..]);
    }
  }

  lemma {:induction false} RunSplits(p: Plan, s: State, a: seq<Bar>, b: seq<Bar>)
    ensures Run(p, s, a + b).0 == Run(p, Run(p, s, a).0, b).0
    decreases |a|
  {
    if a == [] {
      assert a + b == b;
    } else {
      assert (a + b)[0] == a[0] && (a + b)[1..] == a[1..] + b;
      RunSplits(p, Step(p, s, a[0]).0, a[1..], b);
    }
  }

  /** Between any two moments of a run, in price terms: peak, protective stop and effective
      stop move only in the profitable direction, through every latch. */
  lemma RatchetOverRun(spec: Spec, entry: real, bars: seq<Bar>, i: nat, j: nat)
    requires entry > 0.0 && spec.stopOffsetPct >= 0.0 && spec.beOffsetPct >= 0.0
    requires 0.0 <= spec.trailPct <= 100.0
    requires i <= j <= |bars|
    ensures var p := PlanOf(spec, entry);
            var early, late := Run(p, Start(p), bars[..i]).0, Run(p, Start(p), bars[..j]).0;
            && NotWorse(spec.direction, early.peak, late.peak)
            && NotWorse(spec.direction, early.protective, late.protective)
            && NotWorse(spec.direction, Effective(p, early), Effective(p, late))
  {
    var p := PlanOf(spec, entry);
    SpecIsOrdered(spec, entry);
    RunRatchetsFrom(p, Start(p), bars[..i]);
    RunRatchetsFrom(p, Run(p, Start(p), bars[..i]).0, bars[i..j]);
    assert bars[..j] == bars[..i] + bars[i..j];
    RunSplits(p, Start(p), bars[..i], bars[i..j]);
  }

  /** Two gains, read as prices of a bracket of direction `d`: the later price is at least as
      high for a long and at most as high for a short. */
  predicate NotWorse(d: Direction, early: real, late: real) {
    var before, after := Gain(d, early), Gain(d, late);
    if d.Long? then after >= before else after <= before
  }

  // ---------------------------------------------------------------------------------
  // A bar against the tick paths inside it
  // ---------------------------------------------------------------------------------

  function Ticks(path: seq<real>): seq<Bar> {
    seq(|path|, i requires 0 <= i < |path| => Bar(path[i], path[i], false))
  }

  predicate Inside(path: seq<real>, worst: real, best: real) {
    forall i :: 0 <= i < |path| ==> worst <= path[i] <= best
  }

  /** Some order of ticks, each inside the bar, closes the bracket. */
  predicate PathCloses(p: Plan, s: State, path: seq<real>) {
    Run(p, s, Ticks(path)).0.closed
  }

  /** The bars that are too optimistic: the first target is newly taken, the second is not
      reached, the stop in force during the bar is not hit, yet the bar comes back to
      break-even, where the stop moves once the first target is taken. */
  predicate Optimistic(p: Plan, s: State, best: real, worst: real) {
    && !s.tp1Done && p.tp1 <= best < p.tp2
    && Effective(p, Observe(p, s, Bar(best, worst, false))) < worst <= p.be
  }

  /** No bar can be optimistic, at any moment of any run. */
  ghost predicate NeverOptimistic(p: Plan) {
    forall bars: seq<Bar>, best: real, worst: real | worst <= best ::
      var s := Run(p, Start(p), bars).0;
      !s.closed ==> !Optimistic(p, s, best, worst)
  }

  /** By the time the first target is reached, the trail is armed and has reached break-even. */
  predicate TrailCoversBreakEven(p: Plan) {
    p.arm <= p.tp1 && TrailLevel(p.tp1, p.keep) >= p.be
  }

  /** Which brackets can be fed bars as well as ticks: exactly those whose trail arms no later
      than the first target and then covers break-even, or whose very first stop does. */
  lemma NeverOptimisticIff(p: Plan)
    requires Ordered(p) && Latched(p, Start(p)) && p.start <= p.tp1 && p.be <= p.tp1 < p.tp2
    ensures NeverOptimistic(p) <==> p.stop0 >= p.be || TrailCoversBreakEven(p)
  {
    if p.stop0 >= p.be || TrailCoversBreakEven(p) {
      forall bars: seq<Bar>, best: real, worst: real | worst <= best && !Run(p, Start(p), bars).0.closed
        ensures !Optimistic(p, Run(p, Start(p), bars).0, best, worst)
      {
        CoveredIsNotOptimistic(p, bars, best, worst);
      }
    } else {
      assert Run(p, Start(p), []).0 == Start(p);
      assert Optimistic(p, Run(p, Start(p), []).0, p.tp1, p.be);
    }
  }

  lemma CoveredIsNotOptimistic(p: Plan, bars: seq<Bar>, best: real, worst: real)
    requires Ordered(p) && Latched(p, Start(p)) && (p.stop0 >= p.be || TrailCoversBreakEven(p))
    ensures !Optimistic(p, Run(p, Start(p), bars).0, best, worst)
  {
    RunRatchetsFrom(p, Start(p), bars);
    hide Run, TrailLevel;
    var s := Run(p, Start(p), bars).0;
    if p.tp1 <= best {
      TrailRises(p.keep, p.tp1, Max(s.peak, best));
    }
  }

  /** The bracket the signal engine's own test strategy asks for. */
  function TestSpec(direction: Direction): Spec {
    Spec(direction, 0.5, 50.0, 1.0, 0.7, 0.4, 0.3, 0.1, Some(75.0), Some(25.0))
  }

  /** It is covered, on both sides and at every entry. */
  lemma TestSpecIsNeverOptimistic(direction: Direction, entry: real)
    requires entry > 0.0
    ensures NeverOptimistic(PlanOf(TestSpec(direction), entry))
  {
    SpecIsOrdered(TestSpec(direction), entry);
    TestSpecIsCovered(direction, entry);
    hide NeverOptimistic, PlanOf, TrailCoversBreakEven;
    NeverOptimisticIff(PlanOf(TestSpec(direction), entry));
  }

  lemma TestSpecIsCovered(direction: Direction, entry: real)
    requires entry > 0.0
    ensures var p := PlanOf(TestSpec(direction), entry);
            TrailCoversBreakEven(p) && p.start <= p.tp1 && p.be <= p.tp1 < p.tp2
  {
    var p := PlanOf(TestSpec(direction), entry);
    if direction.Long? {
      assert p.tp1 == 1.005 * entry && p.arm == 1.004 * entry && p.be == 1.001 * entry && p.tp2 == 1.01 * entry;
      assert p.keep == 0.997;
    } else {
      assert p.tp1 == -0.995 * entry && p.arm == -0.996 * entry && p.be == -0.999 * entry && p.tp2 == -0.99 * entry;
      assert p.keep == 1.003;
    }
  }

  /** A bracket that arms its trail after the first target is not: entered at 100, its first bar
      of 100.1 to 101 takes the first target and leaves it open. */
  lemma LateTrailIsOptimistic()
    ensures var p := PlanOf(Spec(Long, 1.0, 50.0, 2.0, 2.0, 1.5, 0.5, 0.1, None, None), 100.0);
            Optimistic(p, Start(p), 101.0, 100.1) && !NeverOptimistic(p)
  {
    var spec := Spec(Long, 1.0, 50.0, 2.0, 2.0, 1.5, 0.5, 0.1, None, None);
    SpecIsOrdered(spec, 100.0);
    NeverOptimisticIff(PlanOf(spec, 100.0));
  }

  /** Exactly when a single update with a bar's extremes closes every bracket that some tick
      path inside the bar would close: whenever the bar is not `Optimistic`. */
  lemma BarIsPessimisticIff(p: Plan, s: State, best: real, worst: real)
    requires Ordered(p) && Latched(p, s) && !s.closed && worst <= best
    ensures (forall path :: Inside(path, worst, best) && PathCloses(p, s, path)
                            ==> Step(p, s, Bar(best, worst, false)).0.closed)
       <==> !Optimistic(p, s, best, worst)
  {
    var closes := Step(p, s, Bar(best, worst, false)).0.closed;
    if Optimistic(p, s, best, worst) {
      OptimisticPathCloses(p, s, best, worst);
      assert Inside([best, worst], worst, best) && PathCloses(p, s, [best, worst]) && !closes;
    } else if !closes {
      forall path | Inside(path, worst, best) ensures !PathCloses(p, s, path) {
        NoPathCloses(p, s, s, best, worst, path);
      }
    }
  }

  /** In the optimistic case, best tick first and worst tick second closes at break-even. */
  lemma OptimisticPathCloses(p: Plan, s: State, best: real, worst: real)
    requires Ordered(p) && !s.closed && worst <= best && Optimistic(p, s, best, worst)
    ensures PathCloses(p, s, [best, worst])
    ensures !Step(p, s, Bar(best, worst, false)).0.closed
  {
    var ticks := Ticks([best, worst]);
    assert ticks == [Bar(best, best, false), Bar(worst, worst, false)];
    assert ticks[1..] == [Bar(worst, worst, false)];
    assert ticks[1..][1..] == [];
    var s1 := Step(p, s, ticks[0]).0;
    assert s1.tp1Done && s1.protective == p.be && !s1.closed;
    assert Step(p, s1, ticks[1]).0.closed;
    assert Run(p, s1, ticks[1..]).0 == Step(p, s1, ticks[1]).0;
  }

  /** If the bar leaves the bracket open and is not optimistic, no tick inside it can meet a
      stop or the second target: by induction on the path, from any state `t` it can reach. */
  lemma {:induction false} NoPathCloses(p: Plan, s: State, t: State, best: real, worst: real, path: seq<real>)
    requires Ordered(p) && Latched(p, s) && !s.closed && worst <= best
    requires !Optimistic(p, s, best, worst) && !Step(p, s, Bar(best, worst, false)).0.closed
    requires Inside(path, worst, best)
    requires !t.closed && t.peak <= Max(s.peak, best)
    requires t.armed ==> s.armed || best >= p.arm
    requires t.protective < worst
             || (t.protective == s.protective && t.tp1Done == s.tp1Done)
    requires s.tp1Done ==> t.tp1Done
    requires t.tp1Done ==> s.tp1Done || best >= p.tp1
    ensures !PathCloses(p, t, path)
    decreases |path|
  {
    if path != [] {
      var x := path[0];
      var b := Bar(x, x, false);
      var o := Observe(p, s, Bar(best, worst, false));
      var t1 := Step(p, t, b).0;
      var ot := Observe(p, t, b);
      TrailRises(p.keep, ot.peak, o.peak);
      assert Effective(p, o) < worst && s.protective < worst;
      assert ot.armed ==> o.armed && TrailLevel(o.peak, p.keep) < worst;
      assert Effective(p, ot) < worst;
      assert x >= p.tp2 ==> !t1.tp1Done;
      assert !t1.closed;
      assert Ticks(path)[1..] == Ticks(path[1..]);
      NoPathCloses(p, s, t1, best, worst, path[1..]);
    }
  }

  // ---------------------------------------------------------------------------------
  // The calculator itself
  // ---------------------------------------------------------------------------------

  class BracketState {
    ghost const plan: Plan
    const direction: Direction
    const tp1: real
    const tp2: real
    const be: real
    const trailArm: real
    const trailPct: real
    const tp1Size: real
    const tighten: real
    const rsiLong: real
    const rsiShort: real

    var protective: real
    var peak: real
    var remaining: real
    var armed: bool
    var tp1Done: bool
    var tightened: bool
    var closed: bool

    /** The price levels held by the object are the levels of `plan`. */
    ghost predicate Valid() {
      var d := direction;
      && plan.tp1 == Gain(d, tp1) && plan.tp2 == Gain(d, tp2) && plan.be == Gain(d, be)
      && plan.arm == Gain(d, trailArm) && plan.tighten == Gain(d, tighten)
      && plan.keep == 1.0 - Sign(d) * trailPct && plan.tp1Size == tp1Size
    }

    ghost function Value(): State
      reads this
    {
      State(Gain(direction, peak), Gain(direction, protective), remaining, armed, tp1Done, tightened, closed)
    }

    /** The update as the one-sided machine sees it: an RSI is extreme past its side's threshold. */
    function Seen(high: real, low: real, rsi: Option<real>): (b: Bar)
      ensures low <= high ==> b.best == Max(Gain(direction, high), Gain(direction, low))
      ensures low <= high ==> b.worst == Min(Gain(direction, high), Gain(direction, low))
      ensures b.rsiExtreme <==>
                && rsi.Some?
                && Gain(direction, rsi.value) > Gain(direction, if direction.Long? then rsiLong else rsiShort)
    {
      match direction
      case Long => Bar(high, low, rsi.Some? && rsi.value > rsiLong)
      case Short => Bar(-low, -high, rsi.Some? && rsi.value < rsiShort)
    }

    constructor (spec: Spec, entry: real)
      ensures Valid() && plan == PlanOf(spec, entry) && direction == spec.direction
      ensures Value() == Start(plan)
      ensures rsiLong == spec.rsiLong.GetOr(75.0) && rsiShort == spec.rsiShort.GetOr(25.0)
    {
      var d := Sign(spec.direction);
      plan := PlanOf(spec, entry);
      direction := spec.direction;
      tp1 := entry * (1.0 + d * spec.tp1OffsetPct / 100.0);
      tp2 := entry * (1.0 + d * spec.tp2OffsetPct / 100.0);
      be := entry * (1.0 + d * spec.beOffsetPct / 100.0);
      trailArm := entry * (1.0 + d * spec.trailArmPct / 100.0);
      trailPct := spec.trailPct / 100.0;
      tp1Size := spec.tp1SizePct;
      tighten := entry * (1.0 - d * spec.stopOffsetPct / 200.0);
      rsiLong := spec.rsiLong.GetOr(75.0);
      rsiShort := spec.rsiShort.GetOr(25.0);
      protective := entry * (1.0 - d * spec.stopOffsetPct / 100.0);
      peak := entry;
      remaining := 100.0;
      armed, tp1Done, tightened, closed := false, false, false, false;
    }

    /** The stop in force: the protective one, or the trailing one once armed and closer. */
    method EffectiveStop() returns (effective: real)
      requires Valid()
      ensures Gain(direction, effective) == Effective(plan, Value())
    {
      var trailLevel := peak * (1.0 - Sign(direction) * trailPct);
      assert Gain(direction, trailLevel) == TrailLevel(Gain(direction, peak), plan.keep);
      effective := protective;
      if armed {
        effective := if direction.Long? then Max(protective, trailLevel) else Min(protective, trailLevel);
      }
    }

    /** Peak, RSI tighten and arming: everything a bar changes before an exit is considered. */
    method Track(high: real, low: real, rsi: Option<real>)
      requires Valid()
      modifies this
      ensures Valid() && Value() == Observe(plan, old(Value()), Seen(high, low, rsi))
    {
      var d := direction;
      peak := if d.Long? then Max(peak, high) else Min(peak, low);
      if rsi.Some? && !tp1Done && !tightened {
        if (d.Long? && rsi.value > rsiLong) || (d.Short? && rsi.value < rsiShort) {
          protective := tighten;
          tightened := true;
        }
      }
      if (d.Long? && high >= trailArm) || (d.Short? && low <= trailArm) {
        armed := true;
      }
    }

    /** One price update. Returns the exits it fires, in order. */
    method Update(high: real, low: real, rsi: Option<real>) returns (exits: seq<Exit>)
      requires Valid()
      modifies this
      ensures Valid()
      ensures (Value(), exits) == Step(plan, old(Value()), Seen(high, low, rsi))
    {
      if closed { return []; }
      var d := direction;
      Track(high, low, rsi);
      ghost var o := Value();
      var effective := EffectiveStop();
      if (d.Long? && low <= effective) || (d.Short? && high >= effective) {
        var breached := (d.Long? && low <= protective) || (d.Short? && high >= protective);
        closed := true;
        return [Exit(if !breached then Trail else if tp1Done then BeStop else Stop, remaining)];
      }
      assert Seen(high, low, rsi).worst > Effective(plan, o);
      exits := [];
      if !tp1Done && ((d.Long? && high >= tp1) || (d.Short? && low <= tp1)) {
        exits := [Exit(Tp1, tp1Size)];
        remaining := remaining - tp1Size;
        tp1Done := true;
        protective := be;
      }
      if tp1Done && ((d.Long? && high >= tp2) || (d.Short? && low <= tp2)) {
        exits := exits + [Exit(Tp2, remaining)];
        closed := true;
      }
    }
  }
}
