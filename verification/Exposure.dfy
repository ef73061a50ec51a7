/**
 Trims and scale-ins of one leg: the sizes the social listener asks for
 (social-listener/app/main.py, statemachine.py) and what the order listener makes of them
 (order-listener/app/webhook_handler.py).

 Sizes are integers in units of 1e-8 coin, the decimals every size is rounded to.
 */
module Exposure {
  import opened Prelude
  import opened Orders

  const MIN_TRIM_FRACTION := 0.1
  const MAX_TRIM_FRACTION := 0.9
  const MAX_ADD_MULTIPLE := 1.0

  function Fraction(raw: real): (f: real)
    ensures MIN_TRIM_FRACTION <= f <= MAX_TRIM_FRACTION
    ensures MIN_TRIM_FRACTION <= raw <= MAX_TRIM_FRACTION ==> f == raw
  {
    Max(MIN_TRIM_FRACTION, Min(MAX_TRIM_FRACTION, raw))
  }

  function Multiple(raw: real): (m: real)
    ensures 0.0 <= m <= MAX_ADD_MULTIPLE
    ensures 0.0 <= raw <= MAX_ADD_MULTIPLE ==> m == raw
  {
    Max(0.0, Min(MAX_ADD_MULTIPLE, raw))
  }

  /** `unit` is one standard entry at the current mark; without a mark there is none. */
  predicate BelowTrimFloor(held: nat, unit: Option<nat>) {
    unit.Some? && held as real < 0.2 * unit.value as real
  }

  function Scale(f: real, x: real): real {
    f * x
  }

  function Share(held: nat, raw: real): real {
    Scale(Fraction(raw), held as real)
  }

  /** The size a trim asks for. Nothing when it is refused. */
  function TrimSize(held: nat, unit: Option<nat>, raw: real): (size: Option<nat>) {
    var asked := RoundHalfEven(Share(held, raw));
    if held == 0 || BelowTrimFloor(held, unit) || asked <= 0 then None else Some(asked)
  }

  function Wanted(unit: nat, raw: real): real {
    Scale(Multiple(raw), unit as real)
  }

  /** The size a scale-in asks for. Nothing when it is refused. */
  function AddSize(held: nat, unit: nat, raw: real): (size: Option<nat>) {
    var room := 2 * unit - held;
    if held == 0 || unit == 0 || Multiple(raw) <= 0.0 || room <= 0 then None
    else
      var asked := RoundHalfEven(Min(Wanted(unit, raw), room as real));
      if asked <= 0 then None else Some(asked)
  }

  /** An order that changes the size of the leg. */
  type SizedAsk = ask: Ask | !ask.CloseAsk? witness TrimAsk(0)

  /** `trims` counts the trims that were executed; `added` and `trimmed` are running sums. The
      listener sizes an order from the held size it reads; the order is executed later, against
      the size held then. */
  datatype Leg = Leg(held: nat, added: nat, trimmed: nat, trims: nat, asks: seq<SizedAsk>)

  datatype Event =
    | Trim(entry: Option<nat>, fraction: real)
    | Add(unit: nat, multiple: real)
    | Executes(ask: nat, reported: nat)
    | Drops(ask: nat)

  /** One order against the live position, with its share of the sums. */
  function Execute(s: Leg, i: nat, reported: nat): Leg
    requires i < |s.asks|
  {
    var rest := s.(asks := Without(s.asks, i));
    var ask := s.asks[i];
    var left := HeldAfter(s.held, ask, reported);
    if ask.AddAsk? then rest.(held := left, added := s.added + left - s.held)
    else if s.held == 0 then rest
    else rest.(held := left, trimmed := s.trimmed + s.held - left, trims := s.trims + 1)
  }

  function Step(s: Leg, e: Event): Leg {
    match e
    case Trim(entry, fraction) =>
      var asked := TrimSize(s.held, entry, fraction);
      if asked.None? then s else s.(asks := s.asks + [TrimAsk(asked.value)])
    case Add(unit, multiple) =>
      var asked := AddSize(s.held, unit, multiple);
      if asked.None? then s else s.(asks := s.asks + [AddAsk(asked.value)])
    case Executes(i, reported) => if i < |s.asks| then Execute(s, i, reported) else s
    case Drops(i) => if i < |s.asks| then s.(asks := Without(s.asks, i)) else s
  }

  function Run(s: Leg, es: seq<Event>): Leg
    decreases |es|
  {
    if es == [] then s else Step(Run(s, es[..|es| - 1]), es[|es| - 1])
  }

  function Opened(size: nat): Leg {
    Leg(size, 0, 0, 0, [])
  }

  // ---------------------------------------------------------------------------------
  // One size
  // ---------------------------------------------------------------------------------

  lemma RoundMonotone(x: real, y: real)
    requires x <= y
    ensures RoundHalfEven(x) <= RoundHalfEven(y)
  {
    if x.Floor < y.Floor {
      RoundWithinIntegers(x, x.Floor, x.Floor + 1);
      RoundWithinIntegers(y, y.Floor, y.Floor + 1);
    }
  }

  lemma ScaleUp(lo: real, f: real, hi: real, x: real)
    requires lo <= f <= hi && x >= 0.0
    ensures lo * x <= Scale(f, x) <= hi * x
  {
    assert (f - lo) * x >= 0.0 && (hi - f) * x >= 0.0;
  }

  lemma ShareBounds(held: nat, raw: real)
    ensures 0.1 * held as real <= Share(held, raw) <= 0.9 * held as real
  {
    hide Scale;
    ScaleUp(0.1, Fraction(raw), 0.9, held as real);
  }

  lemma WantedBounds(unit: nat, raw: real)
    ensures 0.0 <= Wanted(unit, raw) <= unit as real
  {
    hide Scale;
    ScaleUp(0.0, Multiple(raw), 1.0, unit as real);
  }

  /** A trim asks for a share of the leg between the clamps, to within half a unit. */
  lemma TrimIsAShare(held: nat, unit: Option<nat>, raw: real)
    requires TrimSize(held, unit, raw).Some?
    ensures var q := TrimSize(held, unit, raw).value;
            && 1 <= q <= held
            && 0.1 * held as real - 0.5 <= q as real <= 0.9 * held as real + 0.5
  {
    hide Share, RoundHalfEven;
    ShareBounds(held, raw);
    RoundWithinIntegers(Share(held, raw), 0, held);
  }

  /** A scale-in never takes the leg past the ceiling, rounding included, nor past one entry. */
  lemma AddStaysUnderTheCeiling(held: nat, unit: nat, raw: real)
    requires AddSize(held, unit, raw).Some?
    ensures var q := AddSize(held, unit, raw).value;
            1 <= q <= unit && held + q <= 2 * unit
  {
    hide Wanted, RoundHalfEven, Multiple;
    WantedBounds(unit, raw);
    var room := 2 * unit - held;
    var size := Min(Wanted(unit, raw), room as real);
    RoundWithinIntegers(size, 0, room);
    RoundWithinIntegers(size, 0, unit);
  }

  /** Sizes a trim may ask for when the floor lets it pass. */
  ghost predicate TrimsNeverClose(unit: nat) {
    forall held: nat, raw: real ::
      TrimSize(held, Some(unit), raw).Some? ==> TrimSize(held, Some(unit), raw).value < held
  }

  /** With a mark, the clamps and the floor together keep every trim from closing its leg
      exactly when a standard entry is more than twenty units; on a smaller one rounding can
      turn nine tenths into the whole. */
  lemma TrimsNeverCloseIff(unit: nat)
    ensures TrimsNeverClose(unit) <==> unit > 20
  {
    if unit > 20 {
      forall held: nat, raw: real | TrimSize(held, Some(unit), raw).Some?
        ensures TrimSize(held, Some(unit), raw).value < held
      {
        BigTrimIsPartial(held, Some(unit), raw);
      }
    } else {
      assert Share(4, 0.9) == 3.6;
      assert TrimSize(4, Some(unit), 0.9) == Some(4);
    }
  }

  lemma BigTrimIsPartial(held: nat, unit: Option<nat>, raw: real)
    requires TrimSize(held, unit, raw).Some? && held >= 5
    ensures TrimSize(held, unit, raw).value < held
  {
    hide Share;
    TrimIsAShare(held, unit, raw);
    if held == 5 {
      ShareBounds(held, raw);
      RoundMonotone(Share(5, raw), 4.5);
      assert RoundHalfEven(4.5) == 4;
    }
  }

  /** Without a mark there is no floor, and a trim can close its leg exactly while the leg is down
      to one to four units. */
  lemma MarklessTrimsNeverCloseIff(held: nat)
    ensures (forall raw: real :: TrimSize(held, None, raw).Some? ==> TrimSize(held, None, raw).value < held)
       <==> held == 0 || held >= 5
  {
    if 0 < held < 5 {
      assert Share(held, 0.9) == 0.9 * held as real;
      assert TrimSize(held, None, 0.9) == Some(held);
    } else {
      forall raw: real | TrimSize(held, None, raw).Some?
        ensures TrimSize(held, None, raw).value < held
      {
        BigTrimIsPartial(held, None, raw);
      }
    }
  }

  // ---------------------------------------------------------------------------------
  // Outstanding orders
  // ---------------------------------------------------------------------------------

  predicate Settling(e: Event) {
    e.Executes? || e.Drops?
  }

  /** The venue executes at most what was asked, and at least `least` of a trim. */
  predicate Fills(s: Leg, e: Event, least: nat) {
    e.Executes? && e.ask < |s.asks| ==>
      var ask := s.asks[e.ask];
      Executed(ask.size, e.reported) <= ask.size && (ask.TrimAsk? ==> least <= Executed(ask.size, e.reported))
  }

  predicate FillsAll(s: Leg, es: seq<Event>, least: nat) {
    forall i :: 0 <= i < |es| ==> Fills(Run(s, es[..i]), es[i], least)
  }

  /** However the outstanding orders are executed or dropped, the leg cannot be closed, and
      cannot pass the ceiling. */
  predicate Fits(s: Leg, ceiling: nat) {
    TrimSum(s.asks) < s.held && s.held + AddSum(s.asks) <= ceiling
  }

  lemma SettlingKeepsFit(s: Leg, e: Event, ceiling: nat)
    requires Fits(s, ceiling) && Settling(e) && Fills(s, e, 0)
    ensures Fits(Step(s, e), ceiling)
  {
    if e.ask < |s.asks| {
      SumsWithout(s.asks, e.ask);
      hide TrimSum, AddSum, Without;
    }
  }

  lemma {:induction false} SettlingRunKeepsFit(s: Leg, es: seq<Event>, ceiling: nat)
    requires Fits(s, ceiling) && FillsAll(s, es, 0) && forall e <- es :: Settling(e)
    ensures Fits(Run(s, es), ceiling)
    decreases |es|
  {
    hide Fits, Step, Fills;
    if es != [] {
      var n := |es| - 1;
      forall i | 0 <= i < n ensures es[..n][..i] == es[..i] && es[..n][i] == es[i] {}
      SettlingRunKeepsFit(s, es[..n], ceiling);
      assert es[n] in es && Fills(Run(s, es[..n]), es[n], 0);
      SettlingKeepsFit(Run(s, es[..n]), es[n], ceiling);
    }
  }

  /** The worst that can become of outstanding orders: one kind is executed in full, the other
      dropped. */
  function Folded(s: Leg, trims: bool): Leg
    decreases |s.asks|
  {
    if s.asks == [] then s
    else Folded(Step(s, if s.asks[0].TrimAsk? == trims then Executes(0, 0) else Drops(0)), trims)
  }

  /** Those events, in order. */
  function FoldedEvents(s: Leg, trims: bool): (es: seq<Event>)
    ensures forall e <- es :: Settling(e)
    decreases |s.asks|
  {
    if s.asks == [] then []
    else
      var e := if s.asks[0].TrimAsk? == trims then Executes(0, 0) else Drops(0);
      [e] + FoldedEvents(Step(s, e), trims)
  }

  lemma {:induction false} RunFront(s: Leg, e: Event, es: seq<Event>)
    ensures Run(s, [e] + es) == Run(Step(s, e), es)
    decreases |es|
  {
    var all := [e] + es;
    if es == [] {
      assert all[..0] == [] && Run(s, all[..0]) == s;
    } else {
      assert all[..|all| - 1] == [e] + es[..|es| - 1];
      RunFront(s, e, es[..|es| - 1]);
      hide Step;
    }
  }

  lemma FillsFront(s: Leg, e: Event, es: seq<Event>)
    requires Fills(s, e, 0) && FillsAll(Step(s, e), es, 0)
    ensures FillsAll(s, [e] + es, 0)
  {
    var all := [e] + es;
    forall i | 0 <= i < |all|
      ensures Fills(Run(s, all[..i]), all[i], 0)
    {
      if i == 0 {
        assert all[..0] == [] && Run(s, all[..0]) == s;
      } else {
        assert all[..i] == [e] + es[..i - 1];
        RunFront(s, e, es[..i - 1]);
      }
    }
  }

  lemma {:induction false} FoldedRuns(s: Leg, trims: bool)
    ensures Run(s, FoldedEvents(s, trims)) == Folded(s, trims)
    ensures FillsAll(s, FoldedEvents(s, trims), 0)
    decreases |s.asks|
  {
    if s.asks != [] {
      var e := if s.asks[0].TrimAsk? == trims then Executes(0, 0) else Drops(0);
      FoldedRuns(Step(s, e), trims);
      RunFront(s, e, FoldedEvents(Step(s, e), trims));
      FillsFront(s, e, FoldedEvents(Step(s, e), trims));
    }
  }

  /** Executed in full, outstanding trims take all they ask, and the leg with them once they ask
      for all of it. */
  lemma {:induction false} FoldedTrims(s: Leg)
    ensures Folded(s, true).held == if TrimSum(s.asks) >= s.held then 0 else s.held - TrimSum(s.asks)
    decreases |s.asks|
  {
    if s.asks != [] {
      var next := Step(s, if s.asks[0].TrimAsk? then Executes(0, 0) else Drops(0));
      assert Without(s.asks, 0) == s.asks[1..];
      FoldedTrims(next);
    }
  }

  lemma {:induction false} FoldedAdds(s: Leg)
    ensures Folded(s, false).held == s.held + AddSum(s.asks)
    decreases |s.asks|
  {
    if s.asks != [] {
      var next := Step(s, if s.asks[0].AddAsk? then Executes(0, 0) else Drops(0));
      assert Without(s.asks, 0) == s.asks[1..];
      FoldedAdds(next);
    }
  }

  /** A way of settling some of the outstanding orders, by a venue that never overfills. */
  ghost predicate Settlement(s: Leg, es: seq<Event>) {
    FillsAll(s, es, 0) && forall e <- es :: Settling(e)
  }

  /** Exactly when outstanding orders are harmless: every way of executing or dropping them
      leaves the leg open when, and only when, the trims among them ask for less than is held;
      and within a ceiling when, and only when, the scale-ins leave it room. */
  lemma OutstandingOrdersAreSafeIff(s: Leg, ceiling: nat)
    ensures (forall es | Settlement(s, es) :: Run(s, es).held > 0) <==> TrimSum(s.asks) < s.held
    ensures (forall es | Settlement(s, es) :: Run(s, es).held <= ceiling) <==> s.held + AddSum(s.asks) <= ceiling
  {
    FoldedRuns(s, true);
    FoldedTrims(s);
    FoldedRuns(s, false);
    FoldedAdds(s);
    assert Settlement(s, FoldedEvents(s, true)) && Settlement(s, FoldedEvents(s, false));
    hide Run, Folded, FoldedEvents, FillsAll;
    forall es | Settlement(s, es)
      ensures TrimSum(s.asks) < s.held ==> Run(s, es).held > 0
      ensures s.held + AddSum(s.asks) <= ceiling ==> Run(s, es).held <= ceiling
    {
      if TrimSum(s.asks) < s.held { SettlingRunKeepsFit(s, es, s.held + AddSum(s.asks)); }
      if s.held + AddSum(s.asks) <= ceiling { SettlingRunStaysBelow(s, es, ceiling); }
    }
  }

  lemma SettlingStaysBelow(s: Leg, e: Event, ceiling: nat)
    requires s.held + AddSum(s.asks) <= ceiling && Settling(e) && Fills(s, e, 0)
    ensures Step(s, e).held + AddSum(Step(s, e).asks) <= ceiling
  {
    if e.ask < |s.asks| {
      SumsWithout(s.asks, e.ask);
      hide TrimSum, AddSum, Without;
    }
  }

  lemma {:induction false} SettlingRunStaysBelow(s: Leg, es: seq<Event>, ceiling: nat)
    requires s.held + AddSum(s.asks) <= ceiling && Settlement(s, es)
    ensures Run(s, es).held + AddSum(Run(s, es).asks) <= ceiling
    decreases |es|
  {
    hide Step, Fills, AddSum;
    if es != [] {
      var n := |es| - 1;
      forall i | 0 <= i < n ensures es[..n][..i] == es[..i] && es[..n][i] == es[i] {}
      SettlingRunStaysBelow(s, es[..n], ceiling);
      assert es[n] in es && Fills(Run(s, es[..n]), es[n], 0);
      SettlingStaysBelow(Run(s, es[..n]), es[n], ceiling);
    }
  }

  /** The failing runs. Two parked trims of a half, sized from one read, close the leg; two
      scale-ins sized from one read take it to three entries. */
  lemma TwoTrimsOfOneReadClose()
    ensures
      var asked := Run(Opened(1000), [Trim(Some(1000), 0.5), Trim(Some(1000), 0.5)]);
      asked.asks == [TrimAsk(500), TrimAsk(500)] && Run(asked, [Executes(0, 0), Executes(0, 0)]).held == 0
  {
    assert Share(1000, 0.5) == 500.0;
    RunTwo(Opened(1000), Trim(Some(1000), 0.5), Trim(Some(1000), 0.5));
    var asked := Run(Opened(1000), [Trim(Some(1000), 0.5), Trim(Some(1000), 0.5)]);
    assert asked.asks == [TrimAsk(500), TrimAsk(500)];
    RunTwo(asked, Executes(0, 0), Executes(0, 0));
  }

  lemma TwoScaleInsOfOneReadPassTheCeiling()
    ensures
      var asked := Run(Opened(1000), [Add(1000, 1.0), Add(1000, 1.0)]);
      asked.asks == [AddAsk(1000), AddAsk(1000)] && Run(asked, [Executes(0, 0), Executes(0, 0)]).held == 3000
  {
    assert Wanted(1000, 1.0) == 1000.0;
    RunTwo(Opened(1000), Add(1000, 1.0), Add(1000, 1.0));
    var asked := Run(Opened(1000), [Add(1000, 1.0), Add(1000, 1.0)]);
    assert asked.asks == [AddAsk(1000), AddAsk(1000)];
    RunTwo(asked, Executes(0, 0), Executes(0, 0));
  }

  lemma RunTwo(s: Leg, a: Event, b: Event)
    ensures Run(s, [a, b]) == Step(Step(s, a), b)
  {
    assert [a, b][..1] == [a] && [a][..0] == [];
    assert Run(s, [a][..0]) == s;
    assert Run(s, [a]) == Step(s, a);
    hide Step;
  }

  // ---------------------------------------------------------------------------------
  // Whole runs
  // ---------------------------------------------------------------------------------

  /** Size is conserved whatever the venue reports. */
  lemma {:induction false} SizeIsConserved(size: nat, es: seq<Event>)
    ensures var s := Run(Opened(size), es); s.held + s.trimmed == size + s.added
    decreases |es|
  {
    if es != [] {
      SizeIsConserved(size, es[..|es| - 1]);
      hide TrimSize, AddSize;
    }
  }

  /** Standard entries lie between two bounds, and every trim has a mark. */
  predicate EntryWithin(e: Event, lo: nat, hi: nat) {
    match e
    case Trim(entry, _) => entry.Some? && lo <= entry.value <= hi
    case Add(unit, _) => lo <= unit <= hi
    case Executes(_, _) => true
    case Drops(_) => true
  }

  /** An order is asked for only while none is outstanding. */
  predicate AsksAlone(s: Leg, e: Event) {
    e.Trim? || e.Add? ==> s.asks == []
  }

  predicate Admissible(s: Leg, e: Event, lo: nat, hi: nat, least: nat) {
    EntryWithin(e, lo, hi) && AsksAlone(s, e) && Fills(s, e, least)
  }

  predicate AdmissibleRun(s: Leg, es: seq<Event>, lo: nat, hi: nat, least: nat) {
    forall i :: 0 <= i < |es| ==> Admissible(Run(s, es[..i]), es[i], lo, hi, least)
  }

  function Ceiling(size: nat, hi: nat): nat {
    if size >= 2 * hi then size else 2 * hi
  }

  predicate Bounded(s: Leg, size: nat, hi: nat, least: nat) {
    Fits(s, Ceiling(size, hi)) && s.trims * least <= s.trimmed
  }

  /** An order asked for while none is outstanding fits, whatever becomes of it. */
  lemma LoneOrderFits(s: Leg, e: Event, size: nat, lo: nat, hi: nat)
    requires 20 < lo && s.held > 0 && s.held <= Ceiling(size, hi) && s.asks == []
    requires (e.Trim? || e.Add?) && EntryWithin(e, lo, hi)
    ensures Fits(Step(s, e), Ceiling(size, hi))
  {
    hide TrimSize, AddSize;
    var s' := Step(s, e);
    if s'.asks != [] {
      SumsAppend([], s'.asks[0]);
      assert s'.asks == [] + [s'.asks[0]];
      if e.Trim? {
        AboveFloorIsBig(s.held, e.entry, e.fraction);
        BigTrimIsPartial(s.held, e.entry, e.fraction);
      } else {
        AddStaysUnderTheCeiling(s.held, e.unit, e.multiple);
      }
    }
  }

  lemma AboveFloorIsBig(held: nat, entry: Option<nat>, raw: real)
    requires entry.Some? && entry.value > 20 && TrimSize(held, entry, raw).Some?
    ensures held >= 5
  {}

  lemma OneMore(n: nat, least: nat)
    ensures (n + 1) * least == n * least + least
  {}

  lemma ExecutingCountsTrims(s: Leg, e: Event, least: nat)
    requires Settling(e) && Fills(s, e, least) && TrimSum(s.asks) < s.held && s.trims * least <= s.trimmed
    ensures Step(s, e).trims * least <= Step(s, e).trimmed
  {
    if e.Executes? && e.ask < |s.asks| && s.asks[e.ask].TrimAsk? {
      SumsWithout(s.asks, e.ask);
      OneMore(s.trims, least);
      hide TrimSum, AddSum, Without;
    }
  }

  lemma StepStaysBounded(s: Leg, e: Event, size: nat, lo: nat, hi: nat, least: nat)
    requires 20 < lo && Bounded(s, size, hi, least) && Admissible(s, e, lo, hi, least)
    ensures Bounded(Step(s, e), size, hi, least)
  {
    if Settling(e) {
      SettlingKeepsFit(s, e, Ceiling(size, hi));
      ExecutingCountsTrims(s, e, least);
    } else {
      LoneOrderFits(s, e, size, lo, hi);
      hide TrimSize, AddSize, Fits;
    }
  }

  lemma AdmissibleSplits(s: Leg, es: seq<Event>, lo: nat, hi: nat, least: nat)
    requires es != [] && AdmissibleRun(s, es, lo, hi, least)
    ensures AdmissibleRun(s, es[..|es| - 1], lo, hi, least)
    ensures Admissible(Run(s, es[..|es| - 1]), es[|es| - 1], lo, hi, least)
  {
    hide Admissible, Run;
    var n := |es| - 1;
    forall i | 0 <= i < n
      ensures Admissible(Run(s, es[..n][..i]), es[..n][i], lo, hi, least)
    {
      assert es[..n][..i] == es[..i] && es[..n][i] == es[i];
    }
  }

  /** Over every mix of trims and scale-ins, each asked for while nothing is outstanding and
      executed, late or not at all, at marks that keep a standard entry between `lo` and `hi`:
      the leg is never closed by a trim, never exceeds two entries (or its opening size), and
      only finitely many trims are executed, at most (opening size + added) / least of them. */
  lemma {:induction false} ExposureIsBounded(size: nat, es: seq<Event>, lo: nat, hi: nat, least: nat)
    requires 20 < lo && size > 0 && AdmissibleRun(Opened(size), es, lo, hi, least)
    ensures Bounded(Run(Opened(size), es), size, hi, least)
    ensures var s := Run(Opened(size), es); s.held > 0 && s.trims * least + s.held <= size + s.added
    decreases |es|
  {
    hide Step, Admissible, AdmissibleRun;
    SizeIsConserved(size, es);
    if es != [] {
      var n := |es| - 1;
      AdmissibleSplits(Opened(size), es, lo, hi, least);
      ExposureIsBounded(size, es[..n], lo, hi, least);
      hide Bounded;
      StepStaysBounded(Run(Opened(size), es[..n]), es[n], size, lo, hi, least);
    }
  }

  /** The least a trim of a leg above the floor asks for: a tenth of a fifth of an entry. */
  function TrimQuantum(lo: nat): (q: nat)
    ensures q >= 1
  {
    var q := RoundHalfEven(0.02 * lo as real);
    if q <= 1 then 1 else q
  }

  lemma TrimTakesAQuantum(held: nat, unit: nat, raw: real, lo: nat)
    requires TrimSize(held, Some(unit), raw).Some? && lo <= unit
    ensures TrimSize(held, Some(unit), raw).value >= TrimQuantum(lo)
  {
    hide Share, RoundHalfEven;
    ShareBounds(held, raw);
    RoundMonotone(0.02 * lo as real, Share(held, raw));
  }

  /** The venue executes exactly what was asked, or reports nothing. */
  predicate Exact(s: Leg, e: Event) {
    e.Executes? && e.ask < |s.asks| ==> Executed(s.asks[e.ask].size, e.reported) == s.asks[e.ask].size
  }

  predicate ExactRun(s: Leg, es: seq<Event>, lo: nat, hi: nat) {
    forall i :: 0 <= i < |es| ==>
      && EntryWithin(es[i], lo, hi) && AsksAlone(Run(s, es[..i]), es[i]) && Exact(Run(s, es[..i]), es[i])
  }

  predicate AsksQuanta(asks: seq<SizedAsk>, least: nat) {
    forall ask <- asks :: ask.TrimAsk? ==> ask.size >= least
  }

  lemma StepAsksQuanta(s: Leg, e: Event, lo: nat, hi: nat)
    requires AsksQuanta(s.asks, TrimQuantum(lo)) && EntryWithin(e, lo, hi)
    ensures AsksQuanta(Step(s, e).asks, TrimQuantum(lo))
  {
    hide TrimSize, AddSize, TrimQuantum;
    if e.Trim? && TrimSize(s.held, e.entry, e.fraction).Some? {
      TrimTakesAQuantum(s.held, e.entry.value, e.fraction, lo);
    }
  }

  lemma {:induction false} RunAsksQuanta(s: Leg, es: seq<Event>, lo: nat, hi: nat)
    requires s.asks == [] && ExactRun(s, es, lo, hi)
    ensures AsksQuanta(Run(s, es).asks, TrimQuantum(lo))
    decreases |es|
  {
    hide Step, EntryWithin, TrimQuantum;
    if es != [] {
      var n := |es| - 1;
      forall i | 0 <= i < n ensures es[..n][..i] == es[..i] && es[..n][i] == es[i] {}
      RunAsksQuanta(s, es[..n], lo, hi);
      StepAsksQuanta(Run(s, es[..n]), es[n], lo, hi);
    }
  }

  /** A venue that fills exactly what is asked takes at least a quantum per trim. */
  lemma ExactTrimsTakeQuanta(size: nat, es: seq<Event>, lo: nat, hi: nat)
    requires 20 < lo && size > 0 && ExactRun(Opened(size), es, lo, hi)
    ensures var s := Run(Opened(size), es); s.trims * TrimQuantum(lo) + s.held <= size + s.added
  {
    hide Run, TrimQuantum, EntryWithin, AsksAlone;
    forall i | 0 <= i < |es|
      ensures Admissible(Run(Opened(size), es[..i]), es[i], lo, hi, TrimQuantum(lo))
    {
      assert ExactRun(Opened(size), es[..i], lo, hi) by {
        forall j | 0 <= j < i ensures es[..i][..j] == es[..j] && es[..i][j] == es[j] {}
      }
      RunAsksQuanta(Opened(size), es[..i], lo, hi);
      assert Exact(Run(Opened(size), es[..i]), es[i]);
    }
    ExposureIsBounded(size, es, lo, hi, TrimQuantum(lo));
  }

  // ---------------------------------------------------------------------------------
  // Trims alone
  // ---------------------------------------------------------------------------------

  /** What is left at most after `n` trims: nine tenths each time, plus half a unit of rounding. */
  function Decayed(n: nat, size: real): real {
    if n == 0 then size else 0.9 * Decayed(n - 1, size) + 0.5
  }

  lemma DecayedBy22(size: real)
    ensures Decayed(22, size) < 0.0985 * Max(size, 0.0) + 5.0
  {
    assert Decayed(1, size) == 0.9 * size + 0.5;
    assert Decayed(2, size) == 0.81 * size + 0.95;
    assert Decayed(3, size) == 0.729 * size + 1.355;
    assert Decayed(4, size) == 0.6561 * size + 1.7195;
    assert Decayed(5, size) == 0.59049 * size + 2.04755;
    assert Decayed(6, size) == 0.531441 * size + 2.342795;
    assert Decayed(7, size) == 0.4782969 * size + 2.6085155;
    assert Decayed(8, size) == 0.43046721 * size + 2.84766395;
    assert Decayed(9, size) == 0.387420489 * size + 3.062897555;
    assert Decayed(10, size) == 0.3486784401 * size + 3.2566077995;
    assert Decayed(11, size) == 0.31381059609 * size + 3.43094701955;
    assert Decayed(12, size) == 0.282429536481 * size + 3.587852317595;
    assert Decayed(13, size) == 0.2541865828329 * size + 3.7290670858355;
    assert Decayed(14, size) == 0.22876792454961 * size + 3.85616037725195;
    assert Decayed(15, size) == 0.205891132094649 * size + 3.970544339526755;
    assert Decayed(16, size) == 0.1853020188851841 * size + 4.0734899055740795;
    assert Decayed(17, size) == 0.16677181699666569 * size + 4.16614091501667155;
    assert Decayed(18, size) == 0.150094635296999121 * size + 4.249526823515004395;
    assert Decayed(19, size) == 0.1350851717672992089 * size + 4.3245741411635039555;
    assert Decayed(20, size) == 0.12157665459056928801 * size + 4.39211672704715355995;
    assert Decayed(21, size) == 0.109418989131512359209 * size + 4.452905054342438203955;
  }

  lemma {:induction false} DecayedFalls(m: nat, n: nat, size: real)
    requires m <= n
    ensures Decayed(n, size) <= Max(5.0, Decayed(m, size))
    decreases n - m
  {
    if m < n {
      DecayedFalls(m, n - 1, size);
    }
  }

  /** Trims only, all at one mark. */
  predicate TrimsAt(es: seq<Event>, unit: nat) {
    forall e <- es :: !e.Add? && (e.Trim? ==> e.entry == Some(unit))
  }

  /** A trim on its way was sized from the leg as it still is, and found it above the floor. */
  predicate DecayedLeg(s: Leg, size: nat, unit: nat) {
    && |s.asks| <= 1
    && (s.asks != [] ==>
          && s.asks[0].TrimAsk? && 0.2 * unit as real <= s.held as real
          && 0.1 * s.held as real - 0.5 <= s.asks[0].size as real)
    && s.held as real <= Decayed(s.trims, size as real)
    && (s.trims > 0 ==> 0.2 * unit as real <= Decayed(s.trims - 1, size as real))
  }

  lemma AskingDecays(s: Leg, e: Event, size: nat, unit: nat)
    requires e.Trim? && e.entry == Some(unit) && AsksAlone(s, e) && DecayedLeg(s, size, unit)
    ensures DecayedLeg(Step(s, e), size, unit)
  {
    if TrimSize(s.held, e.entry, e.fraction).Some? {
      TrimIsAShare(s.held, e.entry, e.fraction);
      assert !BelowTrimFloor(s.held, Some(unit));
      hide TrimSize;
    }
  }

  lemma ExecutingDecays(s: Leg, e: Event, size: nat, unit: nat)
    requires Settling(e) && Exact(s, e) && DecayedLeg(s, size, unit)
    ensures DecayedLeg(Step(s, e), size, unit)
  {
    if e.ask < |s.asks| {
      assert Without(s.asks, e.ask) == [];
    }
  }

  lemma OpenedHasNotDecayed(size: nat, unit: nat)
    ensures DecayedLeg(Opened(size), size, unit)
  {}

  /** Trims at one mark make a leg decay geometrically, up to rounding, and each found it above
      the floor. */
  lemma {:induction false} TrimsDecay(size: nat, es: seq<Event>, unit: nat)
    requires TrimsAt(es, unit) && ExactRun(Opened(size), es, unit, unit)
    ensures DecayedLeg(Run(Opened(size), es), size, unit)
    decreases |es|
  {
    hide Step, Exact, DecayedLeg, EntryWithin, AsksAlone;
    if es == [] {
      OpenedHasNotDecayed(size, unit);
    } else {
      var n := |es| - 1;
      forall i | 0 <= i < n ensures es[..n][..i] == es[..i] && es[..n][i] == es[i] {}
      TrimsDecay(size, es[..n], unit);
      var s := Run(Opened(size), es[..n]);
      assert es[n] in es && Exact(s, es[n]) && AsksAlone(s, es[n]);
      if es[n].Trim? {
        AskingDecays(s, es[n], size, unit);
      } else {
        ExecutingDecays(s, es[n], size, unit);
      }
    }
  }

  /** Between two scale-ins at most twenty-two trims are executed, however many posts ask, as long
      as each is asked for while none is outstanding: from the ceiling of two entries they run
      into the floor of a fifth of one. */
  lemma AtMostTwentyTwoTrims(size: nat, es: seq<Event>, unit: nat)
    requires unit >= 2000 && size <= 2 * unit
    requires TrimsAt(es, unit) && ExactRun(Opened(size), es, unit, unit)
    ensures Run(Opened(size), es).trims <= 22
  {
    hide Run, Decayed, ExactRun, TrimsAt;
    TrimsDecay(size, es, unit);
    var n := Run(Opened(size), es).trims;
    if n > 22 {
      DecayedBy22(size as real);
      DecayedFalls(22, n - 1, size as real);
      assert false;
    }
  }

  // ---------------------------------------------------------------------------------
  // In place
  // ---------------------------------------------------------------------------------

  /** The open position the sizes are derived from. */
  class Position {
    var leg: Leg

    constructor (size: nat)
      ensures leg == Opened(size)
    {
      leg := Opened(size);
    }

    /** Asks for a partial close of a share of the live position. */
    method FireTrim(entry: Option<nat>, fraction: real) returns (sent: Option<nat>)
      modifies this
      ensures leg == Step(old(leg), Trim(entry, fraction))
      ensures sent == TrimSize(old(leg).held, entry, fraction)
    {
      hide Share, RoundHalfEven;
      var held := leg.held;
      if held == 0 || (entry.Some? && held as real < 0.2 * entry.value as real) {
        return None;
      }
      var asked := RoundHalfEven(Share(held, fraction));
      if asked <= 0 {
        return None;
      }
      leg := leg.(asks := leg.asks + [TrimAsk(asked)]);
      sent := Some(asked);
    }

    /** Asks for a scale-in, below both ceilings. */
    method FireAdd(unit: nat, multiple: real) returns (sent: Option<nat>)
      modifies this
      ensures leg == Step(old(leg), Add(unit, multiple))
      ensures sent == AddSize(old(leg).held, unit, multiple)
    {
      hide Wanted, Multiple, RoundHalfEven;
      var held := leg.held;
      if unit == 0 || held == 0 || Multiple(multiple) <= 0.0 {
        return None;
      }
      var room := 2 * unit - held;
      if room <= 0 {
        return None;
      }
      var asked := RoundHalfEven(Min(Wanted(unit, multiple), room as real));
      if asked <= 0 {
        return None;
      }
      leg := leg.(asks := leg.asks + [AddAsk(asked)]);
      sent := Some(asked);
    }

    /** The background run of one accepted order, against the size held by then. */
    method RunOrder(i: nat, reported: nat)
      requires i < |leg.asks|
      modifies this
      ensures leg == Step(old(leg), Executes(i, reported))
    {
      var ask := leg.asks[i];
      leg := leg.(asks := leg.asks[..i] + leg.asks[i + 1..]);
      if ask.AddAsk? {
        var size := Executed(ask.size, reported);
        leg := leg.(held := leg.held + size, added := leg.added + size);
      } else if leg.held > 0 {
        var closing := Minimum(ask.size, leg.held);
        if closing < leg.held {
          closing := Minimum(Executed(ask.size, reported), leg.held);
        }
        leg := leg.(held := leg.held - closing, trimmed := leg.trimmed + closing, trims := leg.trims + 1);
      }
    }
  }
}
