/**
 What the social listener has recorded, what the exchange holds, and the accepted orders in between
 (social-listener/app/main.py, emitter.py; order-listener/app/webhook_handler.py).

 A post is decided against the recorded legs, its orders are sized from the held ones, and the
 stance advances when every webhook call was answered with success. The orders run later, in any
 order, and each can be dropped.
 */
module StanceRuns {
  import opened Prelude
  import opened Stance
  import opened Orders
  import E = Exposure

  /** The sizes held on the exchange. */
  datatype Sizes = Sizes(long: nat, short: nat) {
    function At(s: Side): nat {
      if s.LONG? then long else short
    }

    function With(s: Side, size: nat): Sizes {
      if s.LONG? then Sizes(size, short) else Sizes(long, size)
    }

    /** The legs that are held. */
    function Open(): (legs: Legs)
      ensures forall s: Side :: legs.IsOpen(s) <==> At(s) > 0
    {
      Legs(long > 0, short > 0)
    }
  }

  /** An entry or scale-in is never of size zero. */
  type SomeAsk = ask: Ask | ask.AddAsk? ==> ask.size > 0 witness CloseAsk

  /** An accepted order on one side. */
  datatype Order = Order(side: Side, ask: SomeAsk)

  /** The orders of one side, in turn. */
  function Of(orders: seq<Order>, s: Side): seq<SomeAsk> {
    if orders == [] then [] else (if orders[0].side == s then [orders[0].ask] else []) + Of(orders[1..], s)
  }

  datatype World = World(recorded: Legs, held: Sizes, orders: seq<Order>) {
    /** What the entries and scale-ins outstanding on a side ask for. */
    function Adds(s: Side): nat {
      AddSum(Of(orders, s))
    }

    function Trims(s: Side): nat {
      TrimSum(Of(orders, s))
    }

    predicate Closing(s: Side) {
      CloseAsk in Of(orders, s)
    }
  }

  /** A post with everything it is judged by, and the standard entry at the mark; without a mark
      there is none. */
  datatype Post = Post(rec: Record, mark: Option<real>, implied: Option<real>, entry: Option<nat>)

  /** What becomes of an accepted order: executed, for as much as the venue reports, or dropped by
      a guard or the venue. */
  datatype Fate = Executes(order: nat, reported: nat) | Drops(order: nat)

  /** Live: the first `done` calls were answered with success and, if an answer was `lost`, the
      next one was accepted as well. Replayed: a backfill, which records and never emits. Reached:
      the market reached the level of a parked trim. Stopped: the exchange closed a leg by itself.
      Swept: recorded legs without a position are forgotten. */
  datatype Event =
    | LivePost(post: Post, done: nat, lost: bool)
    | Background(fate: Fate)
    | Replayed(post: Post)
    | Reached(side: Side, fraction: real, entry: Option<nat>, accepted: bool)
    | Stopped(side: Side)
    | Swept

  // ---------------------------------------------------------------------------------
  // Emission
  // ---------------------------------------------------------------------------------

  /** The order of one step. An entry is one standard entry; a trim or scale-in is sized from the
      held leg; without a size nothing is sent, not even a close. */
  function AskOf(held: Sizes, step: WebhookStep, size: real, entry: Option<nat>): Option<SomeAsk> {
    match step
    case OpenStep(_) => if entry.Some? && entry.value > 0 then Some(AddAsk(entry.value)) else None
    case CloseStep(_) => if entry.Some? && entry.value > 0 then Some(CloseAsk) else None
    case PartialStep(s) =>
      var asked := E.TrimSize(held.At(s), entry, size);
      if asked.Some? then Some(TrimAsk(asked.value)) else None
    case AddStep(s) =>
      if entry.None? then None
      else
        var asked := E.AddSize(held.At(s), entry.value, size);
        if asked.Some? then Some(AddAsk(asked.value)) else None
  }

  /** All sizes are settled before the first call. */
  predicate Sendable(held: Sizes, d: Decision, entry: Option<nat>) {
    d.emit && forall step <- Steps(d.signal) :: AskOf(held, step, d.size.GetOr(0.0), entry).Some?
  }

  function OrdersOf(held: Sizes, d: Decision, entry: Option<nat>): (orders: seq<Order>)
    requires Sendable(held, d, entry)
    ensures |orders| == |Steps(d.signal)|
  {
    var steps := Steps(d.signal);
    seq(|steps|, i requires 0 <= i < |steps| =>
      Order(steps[i].side, AskOf(held, steps[i], d.size.GetOr(0.0), entry).value))
  }

  /** The orders of an emission that were accepted. */
  function Landed(held: Sizes, d: Decision, entry: Option<nat>, done: nat, lost: bool): seq<Order>
    requires Sendable(held, d, entry)
  {
    var n := if lost then done + 1 else done;
    if n >= |Steps(d.signal)| then OrdersOf(held, d, entry) else OrdersOf(held, d, entry)[..n]
  }

  function Decide(w: World, post: Post, phase: Phase, multi: bool, st: Settings): Decision {
    Evaluate(post.rec, phase, w.recorded, post.mark, post.implied, multi, st)
  }

  function Resolve(w: World, fate: Fate): World {
    if fate.order >= |w.orders| then w
    else
      var o := w.orders[fate.order];
      var held := if fate.Drops? then w.held
          else w.held.With(o.side, HeldAfter(w.held.At(o.side), o.ask, fate.reported));
      World(w.recorded, held, Without(w.orders, fate.order))
  }

  /** A parked trim is sized from the held leg as well, and fired only for a recorded one. */
  function Fired(w: World, s: Side, fraction: real, entry: Option<nat>): seq<Order> {
    var asked := E.TrimSize(w.held.At(s), entry, fraction);
    if w.recorded.IsOpen(s) && asked.Some? then [Order(s, TrimAsk(asked.value))] else []
  }

  function Next(w: World, e: Event, multi: bool, st: Settings): World {
    match e
    case LivePost(post, done, lost) =>
      var d := Decide(w, post, Live, multi, st);
      if !Sendable(w.held, d, post.entry) then w
      else
        World(if done >= |Steps(d.signal)| then d.to else w.recorded, w.held,
              w.orders + Landed(w.held, d, post.entry, done, lost))
    case Background(fate) => Resolve(w, fate)
    case Replayed(post) => w.(recorded := Decide(w, post, Backfill, multi, st).to)
    case Reached(s, fraction, entry, accepted) =>
      if accepted then w.(orders := w.orders + Fired(w, s, fraction, entry)) else w
    case Stopped(s) => w.(held := w.held.With(s, 0))
    case Swept => w.(recorded := Legs(w.recorded.long && w.held.long > 0, w.recorded.short && w.held.short > 0))
  }

  function Run(w: World, es: seq<Event>, multi: bool, st: Settings): World
    decreases |es|
  {
    if es == [] then w else Next(Run(w, es[..|es| - 1], multi, st), es[|es| - 1], multi, st)
  }

  function Settle(w: World, fates: seq<Fate>): World
    decreases |fates|
  {
    if fates == [] then w else Settle(Resolve(w, fates[0]), fates[1..])
  }

  /** The recorded stance claims no position the exchange does not hold. */
  predicate Honest(w: World) {
    w.recorded.Within(w.held.Open())
  }

  /** The exchange holds no leg the stance does not know. */
  predicate Known(w: World) {
    w.held.Open().Within(w.recorded)
  }

  /** Nothing accepted is waiting to be executed. */
  predicate Settled(w: World) {
    w.orders == []
  }

  lemma WithinIff(a: Legs, b: Legs)
    ensures a.Within(b) <==> forall s: Side :: a.IsOpen(s) ==> b.IsOpen(s)
  {
    if forall s: Side :: a.IsOpen(s) ==> b.IsOpen(s) {
      assert a.IsOpen(LONG) ==> b.IsOpen(LONG);
      assert a.IsOpen(SHORT) ==> b.IsOpen(SHORT);
    }
  }

  // ---------------------------------------------------------------------------------
  // What was executed
  // ---------------------------------------------------------------------------------

  /** What an executed order did to its leg. */
  datatype Effect = Opens(side: Side) | Closes(side: Side) | Keeps(side: Side)

  function EffectOf(held: Sizes, o: Order, reported: nat): Effect {
    if o.ask.AddAsk? then Opens(o.side)
    else if HeldAfter(held.At(o.side), o.ask, reported) == 0 then Closes(o.side)
    else Keeps(o.side)
  }

  /** The effects of the orders that are executed along the way. */
  function Effects(w: World, fates: seq<Fate>): seq<Effect>
    decreases |fates|
  {
    if fates == [] then []
    else
      (if fates[0].Executes? && fates[0].order < |w.orders|
       then [EffectOf(w.held, w.orders[fates[0].order], fates[0].reported)] else []) +
      Effects(Resolve(w, fates[0]), fates[1..])
  }

  /** Whether a leg is held after these effects: the last one that opened or closed it opened it,
      or it was held and none of them closed it. */
  ghost predicate EndsHeld(held: Legs, s: Side, effects: seq<Effect>) {
    || (held.IsOpen(s) && Closes(s) !in effects)
    || (exists i :: 0 <= i < |effects| && effects[i] == Opens(s) && Closes(s) !in effects[i..])
  }

  function Affect(held: Legs, e: Effect): Legs {
    match e
    case Opens(s) => held.WithSide(s, true)
    case Closes(s) => held.WithSide(s, false)
    case Keeps(s) => held
  }

  lemma EndsHeldAfterOne(held: Legs, s: Side, e: Effect, effects: seq<Effect>)
    ensures EndsHeld(Affect(held, e), s, effects) <==> EndsHeld(held, s, [e] + effects)
  {
    var all := [e] + effects;
    assert forall i :: 0 <= i <= |effects| ==> all[i + 1..] == effects[i..];
    if EndsHeld(held, s, all) {
      if i :| 0 <= i < |all| && all[i] == Opens(s) && Closes(s) !in all[i..] {
        if i > 0 { assert effects[i - 1] == Opens(s) && all[i..] == effects[i - 1..]; }
      }
    }
    if i :| 0 <= i < |effects| && effects[i] == Opens(s) && Closes(s) !in effects[i..] {
      assert all[i + 1] == Opens(s) && all[i + 1..] == effects[i..];
    }
    assert all[0..] == all;
  }

  lemma ResolvingAffects(w: World, fate: Fate)
    requires fate.Executes? && fate.order < |w.orders|
    ensures Resolve(w, fate).held.Open() == Affect(w.held.Open(), EffectOf(w.held, w.orders[fate.order], fate.reported))
  {}

  /** From any state, whatever is executed or dropped: a leg is held in the end exactly when the
      last executed order that opened or closed it opened it, or it was held and none closed it.
      Entries and scale-ins open; closes close, and so do trims that ask for all that is left. */
  lemma {:induction false} SettlesAsExecuted(w: World, fates: seq<Fate>, s: Side)
    ensures Settle(w, fates).recorded == w.recorded
    ensures Settle(w, fates).held.At(s) > 0 <==> EndsHeld(w.held.Open(), s, Effects(w, fates))
    decreases |fates|
  {
    if fates == [] {
      assert EndsHeld(w.held.Open(), s, []) <==> w.held.Open().IsOpen(s);
    } else {
      hide Affect, Without, EndsHeld, EffectOf, HeldAfter;
      var next := Resolve(w, fates[0]);
      SettlesAsExecuted(next, fates[1..], s);
      var rest := Effects(next, fates[1..]);
      if fates[0].Executes? && fates[0].order < |w.orders| {
        ResolvingAffects(w, fates[0]);
        EndsHeldAfterOne(w.held.Open(), s, EffectOf(w.held, w.orders[fates[0].order], fates[0].reported), rest);
      } else {
        assert [] + rest == rest;
      }
    }
  }

  lemma {:induction false} EffectsComeFromOrders(w: World, fates: seq<Fate>, s: Side)
    ensures Opens(s) in Effects(w, fates) ==> exists o <- w.orders :: o.side == s && o.ask.AddAsk?
    ensures Closes(s) in Effects(w, fates) ==> exists o <- w.orders :: o.side == s && !o.ask.AddAsk?
    decreases |fates|
  {
    if fates != [] {
      EffectsComeFromOrders(Resolve(w, fates[0]), fates[1..], s);
      if fates[0].order < |w.orders| {
        hide HeldAfter, Without;
        WithoutKeepsTheRest(w.orders, fates[0].order);
      }
    }
  }

  /** As long as no side has both an order that opens and one that can close among those
      outstanding, only which ones are executed matters, not when. */
  lemma SettlesTo(w: World, fates: seq<Fate>, s: Side)
    requires forall a, b :: a in w.orders && b in w.orders && a.side == b.side == s ==> a.ask.AddAsk? == b.ask.AddAsk?
    ensures Settle(w, fates).held.At(s) > 0 <==>
              Opens(s) in Effects(w, fates) || (w.held.At(s) > 0 && Closes(s) !in Effects(w, fates))
  {
    SettlesAsExecuted(w, fates, s);
    EffectsComeFromOrders(w, fates, s);
    hide Settle, Effects;
    var effects := Effects(w, fates);
    if Opens(s) in effects {
      var i :| 0 <= i < |effects| && effects[i] == Opens(s);
      assert forall e <- effects[i..] :: e in effects;
    }
  }

  // ---------------------------------------------------------------------------------
  // Whatever becomes of what is outstanding
  // ---------------------------------------------------------------------------------

  /** A way of dealing with everything outstanding: in any order, each executed or dropped, by a
      venue that executes at most what was asked. */
  predicate ResolvesAll(w: World, fates: seq<Fate>)
    decreases |fates|
  {
    if fates == [] then w.orders == []
    else
      && fates[0].order < |w.orders|
      && (fates[0].Executes? ==> NoOverfill(w.orders[fates[0].order].ask, fates[0].reported))
      && ResolvesAll(Resolve(w, fates[0]), fates[1..])
  }

  /** In any order, each executed for what it asked. */
  predicate ExecutesAll(w: World, fates: seq<Fate>) {
    && ResolvesAll(w, fates)
    && (forall fate <- fates :: fate.Executes? && fate.reported == 0)
  }

  lemma OfFront(orders: seq<Order>, s: Side)
    requires orders != []
    ensures var first, rest := orders[0], Of(orders[1..], s);
            && AddSum(Of(orders, s))
                == AddSum(rest) + (if first.side == s && first.ask.AddAsk? then first.ask.size else 0)
            && TrimSum(Of(orders, s))
                == TrimSum(rest) + (if first.side == s && first.ask.TrimAsk? then first.ask.size else 0)
            && (CloseAsk in Of(orders, s) <==> CloseAsk in rest || first == Order(s, CloseAsk))
  {
    var rest := Of(orders[1..], s);
    if orders[0].side == s {
      assert Of(orders, s) == [orders[0].ask] + rest;
      assert ([orders[0].ask] + rest)[1..] == rest;
    } else {
      assert [] + rest == rest;
    }
  }

  lemma {:induction false} OfWithout(orders: seq<Order>, i: nat, s: Side)
    requires i < |orders|
    ensures var here, rest := orders[i], Of(Without(orders, i), s);
            && AddSum(Of(orders, s)) == AddSum(rest) + (if here.side == s && here.ask.AddAsk? then here.ask.size else 0)
            && TrimSum(Of(orders, s))
                == TrimSum(rest) + (if here.side == s && here.ask.TrimAsk? then here.ask.size else 0)
            && (CloseAsk in Of(orders, s) <==> CloseAsk in rest || here == Order(s, CloseAsk))
    decreases |orders|
  {
    hide Of, AddSum, TrimSum;
    OfFront(orders, s);
    if i == 0 {
      assert Without(orders, 0) == orders[1..];
    } else {
      var rest := Without(orders, i);
      assert rest[0] == orders[0] && rest[1..] == Without(orders[1..], i - 1);
      OfFront(rest, s);
      OfWithout(orders[1..], i - 1, s);
    }
  }

  lemma ResolveLoad(w: World, fate: Fate, s: Side)
    requires fate.order < |w.orders|
    ensures var w', o := Resolve(w, fate), w.orders[fate.order];
            && w'.recorded == w.recorded && |w'.orders| == |w.orders| - 1
            && w.Adds(s) == w'.Adds(s) + (if o.side == s && o.ask.AddAsk? then o.ask.size else 0)
            && w.Trims(s) == w'.Trims(s) + (if o.side == s && o.ask.TrimAsk? then o.ask.size else 0)
            && (w.Closing(s) <==> w'.Closing(s) || o == Order(s, CloseAsk))
            && w'.held.At(s) == if fate.Executes? && o.side == s
                then HeldAfter(w.held.At(s), o.ask, fate.reported) else w.held.At(s)
  {
    OfWithout(w.orders, fate.order, s);
    hide Of, AddSum, TrimSum, HeldAfter;
  }

  /** However everything outstanding is executed, bounds on what is held in the end. */
  lemma {:induction false} HeldAfterAll(w: World, fates: seq<Fate>, s: Side)
    requires ExecutesAll(w, fates)
    ensures var held, adds, trims := w.held.At(s), w.Adds(s), w.Trims(s);
            var left := Settle(w, fates).held.At(s);
            && Settle(w, fates).recorded == w.recorded && Settled(Settle(w, fates))
            && (!w.Closing(s) ==> left >= held + adds - trims)
            && (!w.Closing(s) && trims <= held ==> left == held + adds - trims)
            && (adds == 0 && (w.Closing(s) || held <= trims) ==> left == 0)
            && (adds == 0 && trims <= held ==> left <= held - trims)
    decreases |fates|
  {
    if fates == [] {
      assert Of(w.orders, s) == [];
    } else {
      assert fates[0] in fates && forall fate <- fates[1..] :: fate in fates;
      ResolveLoad(w, fates[0], s);
      hide Of, AddSum, TrimSum, Without;
      HeldAfterAll(Resolve(w, fates[0]), fates[1..], s);
      hide Settle, Resolve, ResolvesAll;
    }
  }

  /** The first order of a kind, or the first of all. */
  function Pick(orders: seq<Order>, adds: bool): (i: nat)
    requires orders != []
    ensures i < |orders|
    ensures (exists o <- orders :: o.ask.AddAsk? == adds) ==> orders[i].ask.AddAsk? == adds
    decreases |orders|
  {
    if orders[0].ask.AddAsk? == adds || |orders| == 1 then 0
    else
      var i := Pick(orders[1..], adds);
      if orders[1..][i].ask.AddAsk? == adds then i + 1 else 0
  }

  /** Executes everything, the entries and scale-ins first or last. */
  function Grouped(w: World, adds: bool): (fates: seq<Fate>)
    ensures ExecutesAll(w, fates)
    decreases |w.orders|
  {
    if w.orders == [] then []
    else
      var fate := Executes(Pick(w.orders, adds), 0);
      [fate] + Grouped(Resolve(w, fate), adds)
  }

  lemma {:induction false} NoAdds(orders: seq<Order>, s: Side)
    requires forall o <- orders :: !o.ask.AddAsk?
    ensures AddSum(Of(orders, s)) == 0
    decreases |orders|
  {
    if orders != [] {
      OfFront(orders, s);
      NoAdds(orders[1..], s);
    }
  }

  lemma {:induction false} OnlyAdds(orders: seq<Order>, s: Side)
    requires forall o <- orders :: o.ask.AddAsk?
    ensures TrimSum(Of(orders, s)) == 0
    decreases |orders|
  {
    if orders != [] {
      OfFront(orders, s);
      OnlyAdds(orders[1..], s);
    }
  }

  /** With entries and scale-ins first, the trims take all they ask, or all there is. */
  lemma {:induction false} AddsFirst(w: World, s: Side)
    requires !w.Closing(s)
    ensures var all := w.held.At(s) + w.Adds(s);
            Settle(w, Grouped(w, true)).held.At(s) == if w.Trims(s) >= all then 0 else all - w.Trims(s)
    decreases |w.orders|
  {
    hide Of, AddSum, TrimSum, Settle, ResolvesAll;
    if forall o <- w.orders :: !o.ask.AddAsk? {
      NoAdds(w.orders, s);
      HeldAfterAll(w, Grouped(w, true), s);
    } else {
      var fate := Executes(Pick(w.orders, true), 0);
      ResolveLoad(w, fate, s);
      AddsFirst(Resolve(w, fate), s);
      SettleFront(w, fate, Grouped(Resolve(w, fate), true));
    }
  }

  lemma SettleFront(w: World, fate: Fate, fates: seq<Fate>)
    ensures Settle(w, [fate] + fates) == Settle(Resolve(w, fate), fates)
  {
    assert ([fate] + fates)[1..] == fates;
  }

  /** With them last, trims that ask for all that is held leave them alone. */
  lemma {:induction false} AddsLast(w: World, s: Side)
    requires !w.Closing(s) && w.Trims(s) >= w.held.At(s)
    ensures Settle(w, Grouped(w, false)).held.At(s) == w.Adds(s)
    decreases |w.orders|
  {
    hide Of, AddSum, TrimSum, Settle, ResolvesAll;
    if forall o <- w.orders :: o.ask.AddAsk? {
      OnlyAdds(w.orders, s);
      HeldAfterAll(w, Grouped(w, false), s);
    } else {
      var fate := Executes(Pick(w.orders, false), 0);
      ResolveLoad(w, fate, s);
      AddsLast(Resolve(w, fate), s);
      SettleFront(w, fate, Grouped(Resolve(w, fate), false));
    }
  }

  /** Executes everything, one order after all the others. */
  function Lastly(w: World, i: nat): (fates: seq<Fate>)
    requires i < |w.orders|
    ensures ExecutesAll(w, fates)
    decreases |w.orders|
  {
    if |w.orders| == 1 then [Executes(0, 0)]
    else if i == 0 then [Executes(1, 0)] + Lastly(Resolve(w, Executes(1, 0)), 0)
    else [Executes(0, 0)] + Lastly(Resolve(w, Executes(0, 0)), i - 1)
  }

  lemma {:induction false} LastOneDecides(w: World, i: nat)
    requires i < |w.orders|
    ensures var o := w.orders[i];
            && (o.ask.AddAsk? ==> Settle(w, Lastly(w, i)).held.At(o.side) > 0)
            && (o.ask.CloseAsk? ==> Settle(w, Lastly(w, i)).held.At(o.side) == 0)
    decreases |w.orders|
  {
    if |w.orders| == 1 {
      SettleFront(w, Executes(0, 0), []);
    } else {
      hide HeldAfter, ResolvesAll;
      var fate, k := Executes(if i == 0 then 1 else 0, 0), if i == 0 then 0 else i - 1;
      assert Resolve(w, fate).orders[k] == w.orders[i];
      LastOneDecides(Resolve(w, fate), k);
      SettleFront(w, fate, Lastly(Resolve(w, fate), k));
    }
  }

  lemma {:induction false} SomeAdd(orders: seq<Order>, s: Side) returns (i: nat)
    requires AddSum(Of(orders, s)) > 0
    ensures i < |orders| && orders[i].side == s && orders[i].ask.AddAsk?
    decreases |orders|
  {
    OfFront(orders, s);
    if orders[0].side == s && orders[0].ask.AddAsk? {
      i := 0;
    } else {
      i := SomeAdd(orders[1..], s);
      i := i + 1;
    }
  }

  lemma {:induction false} SomeClose(orders: seq<Order>, s: Side) returns (i: nat)
    requires CloseAsk in Of(orders, s)
    ensures i < |orders| && orders[i] == Order(s, CloseAsk)
    decreases |orders|
  {
    OfFront(orders, s);
    if orders[0] == Order(s, CloseAsk) {
      i := 0;
    } else {
      i := SomeClose(orders[1..], s);
      i := i + 1;
    }
  }

  /** The two ends of a side with an entry or scale-in outstanding. */
  lemma CanEndOpen(w: World, s: Side) returns (fates: seq<Fate>)
    requires w.Adds(s) > 0
    ensures ExecutesAll(w, fates) && Settle(w, fates).held.At(s) > 0
  {
    var i := SomeAdd(w.orders, s);
    LastOneDecides(w, i);
    fates := Lastly(w, i);
  }

  lemma CanEndClosed(w: World, s: Side) returns (fates: seq<Fate>)
    requires w.Closing(s) || w.Trims(s) >= w.held.At(s) + w.Adds(s)
    ensures ExecutesAll(w, fates) && Settle(w, fates).held.At(s) == 0
  {
    if w.Closing(s) {
      var i := SomeClose(w.orders, s);
      LastOneDecides(w, i);
      fates := Lastly(w, i);
    } else {
      AddsFirst(w, s);
      fates := Grouped(w, true);
    }
  }

  /** Every order of executing what is outstanding ends with the same sizes exactly when every side
      that has an entry or scale-in outstanding has no close, and no trims for more than is held. */
  lemma OrderIsIrrelevantIff(w: World)
    ensures (forall a, b :: ExecutesAll(w, a) && ExecutesAll(w, b) ==> Settle(w, a) == Settle(w, b)) <==>
            (forall s: Side :: w.Adds(s) > 0 ==> !w.Closing(s) && w.Trims(s) <= w.held.At(s))
  {
    hide Settle, ResolvesAll, Of, AddSum, TrimSum;
    if s: Side :| w.Adds(s) > 0 && w.Closing(s) {
      var a := CanEndOpen(w, s);
      var b := CanEndClosed(w, s);
      assert Settle(w, a) != Settle(w, b);
    } else if s: Side :| w.Adds(s) > 0 && !w.Closing(s) && w.Trims(s) > w.held.At(s) {
      AddsFirst(w, s);
      AddsLast(w, s);
      assert Settle(w, Grouped(w, true)) != Settle(w, Grouped(w, false));
    } else {
      forall a, b | ExecutesAll(w, a) && ExecutesAll(w, b) ensures Settle(w, a) == Settle(w, b) {
        HeldAfterAll(w, a, LONG);
        HeldAfterAll(w, a, SHORT);
        HeldAfterAll(w, b, LONG);
        HeldAfterAll(w, b, SHORT);
      }
    }
  }

  /** And with the same legs exactly when every such side has no close, and no trims for all that
      is held and added. */
  lemma LegsAreTheSameIff(w: World)
    ensures (forall a, b :: ExecutesAll(w, a) && ExecutesAll(w, b) ==>
        Settle(w, a).held.Open() == Settle(w, b).held.Open()) <==>
            (forall s: Side :: w.Adds(s) > 0 ==> !w.Closing(s) && w.Trims(s) < w.held.At(s) + w.Adds(s))
  {
    hide Settle, ResolvesAll, Of, AddSum, TrimSum;
    if s: Side :| w.Adds(s) > 0 && (w.Closing(s) || w.Trims(s) >= w.held.At(s) + w.Adds(s)) {
      var a := CanEndOpen(w, s);
      var b := CanEndClosed(w, s);
      assert Settle(w, a).held.Open().IsOpen(s) != Settle(w, b).held.Open().IsOpen(s);
    } else {
      forall a, b | ExecutesAll(w, a) && ExecutesAll(w, b)
        ensures Settle(w, a).held.Open() == Settle(w, b).held.Open()
      {
        HeldAfterAll(w, a, LONG);
        HeldAfterAll(w, a, SHORT);
        HeldAfterAll(w, b, LONG);
        HeldAfterAll(w, b, SHORT);
      }
    }
  }

  /** However the orders outstanding overtake one another, the exchange ends up with known legs
      exactly when every leg that is not recorded has no entry or scale-in outstanding, and is not
      held, or has a close or trims for all of it outstanding. */
  lemma EveryOrderEndsKnownIff(w: World)
    ensures (forall fates :: ExecutesAll(w, fates) ==> Known(Settle(w, fates))) <==>
            (forall s: Side :: !w.recorded.IsOpen(s) ==>
               w.Adds(s) == 0 && (w.Closing(s) || w.Trims(s) >= w.held.At(s)))
  {
    hide Settle, ResolvesAll, Of, AddSum, TrimSum;
    if s: Side :| !w.recorded.IsOpen(s) && w.Adds(s) > 0 {
      var a := CanEndOpen(w, s);
      HeldAfterAll(w, a, s);
      assert !Known(Settle(w, a));
    } else if s: Side :| !w.recorded.IsOpen(s) && w.Adds(s) == 0 && !w.Closing(s) && w.Trims(s) < w.held.At(s) {
      var a := Grouped(w, true);
      HeldAfterAll(w, a, s);
      assert !Known(Settle(w, a));
    } else {
      forall fates | ExecutesAll(w, fates) ensures Known(Settle(w, fates)) {
        HeldAfterAll(w, fates, LONG);
        HeldAfterAll(w, fates, SHORT);
      }
    }
  }

  /** And with an honest stance exactly when every recorded leg has no close outstanding, and trims
      for less than is held and added. */
  lemma EveryOrderEndsHonestIff(w: World)
    ensures (forall fates :: ExecutesAll(w, fates) ==> Honest(Settle(w, fates))) <==>
            (forall s: Side :: w.recorded.IsOpen(s) ==>
               !w.Closing(s) && w.Trims(s) < w.held.At(s) + w.Adds(s))
  {
    hide Settle, ResolvesAll, Of, AddSum, TrimSum;
    if s: Side :| w.recorded.IsOpen(s) && (w.Closing(s) || w.Trims(s) >= w.held.At(s) + w.Adds(s)) {
      var a := CanEndClosed(w, s);
      HeldAfterAll(w, a, s);
      assert !Honest(Settle(w, a));
    } else {
      forall fates | ExecutesAll(w, fates) ensures Honest(Settle(w, fates)) {
        HeldAfterAll(w, fates, LONG);
        HeldAfterAll(w, fates, SHORT);
      }
    }
  }

  /** Executes the trims and drops everything else. */
  function TrimsOnly(w: World): (fates: seq<Fate>)
    ensures ResolvesAll(w, fates)
    decreases |w.orders|
  {
    if w.orders == [] then []
    else
      var fate := if w.orders[0].ask.TrimAsk? then Executes(0, 0) else Drops(0);
      [fate] + TrimsOnly(Resolve(w, fate))
  }

  lemma {:induction false} TrimmedAlone(w: World, s: Side)
    ensures Settle(w, TrimsOnly(w)).held.At(s) == if w.Trims(s) >= w.held.At(s) then 0 else w.held.At(s) - w.Trims(s)
    ensures Settle(w, TrimsOnly(w)).recorded == w.recorded
    decreases |w.orders|
  {
    if w.orders == [] {
      assert Of(w.orders, s) == [];
    } else {
      hide Of, AddSum, TrimSum, ResolvesAll;
      var fate := if w.orders[0].ask.TrimAsk? then Executes(0, 0) else Drops(0);
      ResolveLoad(w, fate, s);
      TrimmedAlone(Resolve(w, fate), s);
      SettleFront(w, fate, TrimsOnly(Resolve(w, fate)));
    }
  }

  /** Whatever is executed or dropped, what it cannot do. */
  lemma {:induction false} HeldAfterAny(w: World, fates: seq<Fate>, s: Side)
    requires ResolvesAll(w, fates)
    ensures Settle(w, fates).recorded == w.recorded && Settled(Settle(w, fates))
    ensures !w.Closing(s) && w.Trims(s) < w.held.At(s) ==> Settle(w, fates).held.At(s) > 0
    ensures w.Adds(s) == 0 ==> Settle(w, fates).held.At(s) <= w.held.At(s)
    decreases |fates|
  {
    if fates != [] {
      ResolveLoad(w, fates[0], s);
      HeldAfterAny(Resolve(w, fates[0]), fates[1..], s);
      hide Of, AddSum, TrimSum, Settle, Resolve, ResolvesAll, Without;
    }
  }

  /** When orders may be dropped as well, or executed for less: the exchange is sure to end up with
      known legs exactly when every leg that is not recorded is not held, and has no entry or
      scale-in outstanding. */
  lemma EveryFateEndsKnownIff(w: World)
    ensures (forall fates :: ResolvesAll(w, fates) ==> Known(Settle(w, fates))) <==>
            (forall s: Side :: !w.recorded.IsOpen(s) ==> w.Adds(s) == 0 && w.held.At(s) == 0)
  {
    hide Settle, ResolvesAll, Of, AddSum, TrimSum;
    if s: Side :| !w.recorded.IsOpen(s) && w.Adds(s) > 0 {
      var a := CanEndOpen(w, s);
      HeldAfterAny(w, a, s);
      assert !Known(Settle(w, a));
    } else if s: Side :| !w.recorded.IsOpen(s) && w.held.At(s) > 0 {
      var a := AllDropped(w);
      assert !Known(Settle(w, a));
    } else {
      forall fates | ResolvesAll(w, fates) ensures Known(Settle(w, fates)) {
        HeldAfterAny(w, fates, LONG);
        HeldAfterAny(w, fates, SHORT);
      }
    }
  }

  lemma {:induction false} AllDropped(w: World) returns (fates: seq<Fate>)
    ensures ResolvesAll(w, fates) && Settle(w, fates).held == w.held && Settle(w, fates).recorded == w.recorded
    decreases |w.orders|
  {
    if w.orders == [] {
      fates := [];
    } else {
      var rest := AllDropped(Resolve(w, Drops(0)));
      SettleFront(w, Drops(0), rest);
      fates := [Drops(0)] + rest;
    }
  }

  /** And with an honest stance exactly when every recorded leg is held, and has no close outstanding
      and trims for less than is held. */
  lemma EveryFateEndsHonestIff(w: World)
    ensures (forall fates :: ResolvesAll(w, fates) ==> Honest(Settle(w, fates))) <==>
            (forall s: Side :: w.recorded.IsOpen(s) ==> !w.Closing(s) && w.Trims(s) < w.held.At(s))
  {
    hide Settle, ResolvesAll, Of, AddSum, TrimSum;
    if s: Side :| w.recorded.IsOpen(s) && w.Closing(s) {
      var a := CanEndClosed(w, s);
      HeldAfterAny(w, a, s);
      assert !Honest(Settle(w, a));
    } else if s: Side :| w.recorded.IsOpen(s) && w.Trims(s) >= w.held.At(s) {
      TrimmedAlone(w, s);
      assert !Honest(Settle(w, TrimsOnly(w)));
    } else {
      forall fates | ResolvesAll(w, fates) ensures Honest(Settle(w, fates)) {
        HeldAfterAny(w, fates, LONG);
        HeldAfterAny(w, fates, SHORT);
      }
    }
  }

  // ---------------------------------------------------------------------------------
  // One live post
  // ---------------------------------------------------------------------------------

  /** An emission has one step a side, and never an entry after an entry. */
  lemma StepsAreApart(signal: Signal)
    ensures var steps := Steps(signal);
            && |steps| <= 2
            && (|steps| == 2 ==> steps[0].side != steps[1].side && steps[0].CloseStep?)
            && (forall a, b :: a in steps && b in steps && a.side == b.side ==> a == b)
  {}

  lemma SignalSteps(legs: Legs, d: Decision)
    requires Refines(legs, d) && d.emit
    ensures var steps := Steps(d.signal);
            && (forall s :: OpenStep(s) in steps ==> !legs.IsOpen(s) && d.to.IsOpen(s))
            && (forall s :: CloseStep(s) in steps ==> legs.IsOpen(s) && !d.to.IsOpen(s))
            && (forall s :: OpenStep(s) !in steps && CloseStep(s) !in steps ==> d.to.IsOpen(s) == legs.IsOpen(s))
            && (forall s :: AddStep(s) in steps || PartialStep(s) in steps ==> legs.IsOpen(s))
  {
    hide Apply;
    RunSignal(legs, d.signal);
    hide RunSteps;
  }

  /** Every order of an emission stands for one of its steps. */
  predicate StandsFor(o: Order, step: WebhookStep) {
    && o.side == step.side
    && (o.ask.AddAsk? <==> step.OpenStep? || step.AddStep?)
    && (o.ask.CloseAsk? <==> step.CloseStep?)
  }

  lemma LandedStandsFor(held: Sizes, d: Decision, entry: Option<nat>, done: nat, lost: bool)
    requires Sendable(held, d, entry)
    ensures var landed, steps := Landed(held, d, entry, done, lost), Steps(d.signal);
            && |landed| <= |steps|
            && (forall i :: 0 <= i < |landed| ==> StandsFor(landed[i], steps[i]))
            && (done >= |steps| ==> |landed| == |steps|)
            && (done < |steps| ==> |landed| == if lost then done + 1 else done)
  {
    hide Steps;
    var steps := Steps(d.signal);
    forall i | 0 <= i < |steps| ensures AskOf(held, steps[i], d.size.GetOr(0.0), entry).Some? {
      assert steps[i] in steps;
    }
  }

  /** Whether a settled emission leaves the stance honest about a side, by what was executed:
      recording an entry needs it executed, unless the leg was there already; leaving a close
      unrecorded needs it not executed; a trim must not have closed its leg. */
  predicate StaysHonest(w: World, d: Decision, done: nat, effects: seq<Effect>, s: Side) {
    var steps := Steps(d.signal);
    && (OpenStep(s) in steps && done >= |steps| ==> Opens(s) in effects || w.held.At(s) > 0)
    && (CloseStep(s) in steps && done < |steps| ==> Closes(s) !in effects)
    && (PartialStep(s) in steps ==> Closes(s) !in effects)
  }

  /** Whether it leaves the exchange without a leg the stance does not know: the other way round. */
  predicate StaysKnown(w: World, d: Decision, done: nat, effects: seq<Effect>, s: Side) {
    var steps := Steps(d.signal);
    && (CloseStep(s) in steps && done >= |steps| ==> Closes(s) in effects || w.held.At(s) == 0)
    && (OpenStep(s) in steps && done < |steps| ==> Opens(s) !in effects)
  }

  /** The legs a settled emission leaves, side by side. */
  lemma EmissionSettles(w: World, d: Decision, entry: Option<nat>, done: nat, lost: bool, fates: seq<Fate>,
      recorded: Legs, s: Side)
    requires Refines(w.recorded, d) && Sendable(w.held, d, entry)
    ensures var accepted := World(recorded, w.held, Landed(w.held, d, entry, done, lost));
            var effects := Effects(accepted, fates);
            && Settle(accepted, fates).recorded == recorded
            && (Settle(accepted, fates).held.At(s) > 0 <==>
                  Opens(s) in effects || (w.held.At(s) > 0 && Closes(s) !in effects))
            && (Opens(s) in effects ==> OpenStep(s) in Steps(d.signal) || AddStep(s) in Steps(d.signal))
            && (Closes(s) in effects ==> CloseStep(s) in Steps(d.signal) || PartialStep(s) in Steps(d.signal))
  {
    var landed := Landed(w.held, d, entry, done, lost);
    var accepted := World(recorded, w.held, landed);
    SignalSteps(w.recorded, d);
    StepsAreApart(d.signal);
    LandedStandsFor(w.held, d, entry, done, lost);
    hide Steps, Landed, Settle, Effects, Refines, Sendable;
    var steps := Steps(d.signal);
    forall o | o in landed
      ensures exists step <- steps :: StandsFor(o, step)
    {
      var i :| 0 <= i < |landed| && landed[i] == o;
      assert steps[i] in steps && StandsFor(o, steps[i]);
    }
    SettlesTo(accepted, fates, s);
    SettlesAsExecuted(accepted, fates, s);
    EffectsComeFromOrders(accepted, fates, s);
  }

  lemma BothSides(w: World, d: Decision, done: nat, effects: seq<Effect>)
    ensures (forall s: Side :: StaysHonest(w, d, done, effects, s)) <==>
              StaysHonest(w, d, done, effects, LONG) && StaysHonest(w, d, done, effects, SHORT)
    ensures (forall s: Side :: StaysKnown(w, d, done, effects, s)) <==>
              StaysKnown(w, d, done, effects, LONG) && StaysKnown(w, d, done, effects, SHORT)
  {
    hide StaysHonest, StaysKnown;
    forall s: Side
      ensures StaysHonest(w, d, done, effects, s) == StaysHonest(w, d, done, effects, if s.LONG? then LONG else SHORT)
      ensures StaysKnown(w, d, done, effects, s) == StaysKnown(w, d, done, effects, if s.LONG? then LONG else SHORT)
    {}
  }

  lemma BySide(w: World)
    ensures Honest(w) <==>
              && (w.recorded.IsOpen(LONG) ==> w.held.At(LONG) > 0)
              && (w.recorded.IsOpen(SHORT) ==> w.held.At(SHORT) > 0)
    ensures Known(w) <==>
              && (w.held.At(LONG) > 0 ==> w.recorded.IsOpen(LONG))
              && (w.held.At(SHORT) > 0 ==> w.recorded.IsOpen(SHORT))
  {}

  lemma OutcomeOnSide(w: World, d: Decision, entry: Option<nat>, done: nat, lost: bool, fates: seq<Fate>, s: Side)
    requires Refines(w.recorded, d) && Sendable(w.held, d, entry)
    ensures var recorded := if done >= |Steps(d.signal)| then d.to else w.recorded;
            var accepted := World(recorded, w.held, Landed(w.held, d, entry, done, lost));
            var left, effects := Settle(accepted, fates), Effects(accepted, fates);
            && left.recorded == recorded
            && ((w.recorded.IsOpen(s) ==> w.held.At(s) > 0) ==>
                  ((recorded.IsOpen(s) ==> left.held.At(s) > 0) <==> StaysHonest(w, d, done, effects, s)))
            && ((w.held.At(s) > 0 ==> w.recorded.IsOpen(s)) ==>
                  ((left.held.At(s) > 0 ==> recorded.IsOpen(s)) <==> StaysKnown(w, d, done, effects, s)))
  {
    SignalSteps(w.recorded, d);
    StepsAreApart(d.signal);
    EmissionSettles(w, d, entry, done, lost, fates, if done >= |Steps(d.signal)| then d.to else w.recorded, s);
    hide Steps, Landed, Settle, Effects, Refines, Sendable;
  }

  lemma OutcomeIff(w: World, d: Decision, entry: Option<nat>, done: nat, lost: bool, fates: seq<Fate>)
    requires Refines(w.recorded, d) && Sendable(w.held, d, entry)
    ensures var recorded := if done >= |Steps(d.signal)| then d.to else w.recorded;
            var accepted := World(recorded, w.held, Landed(w.held, d, entry, done, lost));
            var effects := Effects(accepted, fates);
            && (Honest(w) ==> (Honest(Settle(accepted, fates)) <==>
                forall s: Side :: StaysHonest(w, d, done, effects, s)))
            && (Known(w) ==> (Known(Settle(accepted, fates)) <==> forall s: Side :: StaysKnown(w, d, done, effects, s)))
  {
    hide *;
    var recorded := if done >= |Steps(d.signal)| then d.to else w.recorded;
    var accepted := World(recorded, w.held, Landed(w.held, d, entry, done, lost));
    var left, effects := Settle(accepted, fates), Effects(accepted, fates);
    BySide(w);
    BySide(left);
    OutcomeOnSide(w, d, entry, done, lost, fates, LONG);
    OutcomeOnSide(w, d, entry, done, lost, fates, SHORT);
    BothSides(w, d, done, effects);
  }

  lemma {:induction false} NothingSettles(w: World, fates: seq<Fate>)
    requires Settled(w)
    ensures Settle(w, fates) == w
    decreases |fates|
  {
    if fates != [] {
      NothingSettles(w, fates[1..]);
    }
  }

  lemma HonestWhenExecuted(w: World, fates: seq<Fate>)
    ensures Honest(Settle(w, fates)) <==>
              forall s: Side :: w.recorded.IsOpen(s) ==> EndsHeld(w.held.Open(), s, Effects(w, fates))
    ensures Known(Settle(w, fates)) <==>
              forall s: Side :: EndsHeld(w.held.Open(), s, Effects(w, fates)) ==> w.recorded.IsOpen(s)
  {
    hide EndsHeld, Effects, Settle;
    forall s: Side
      ensures Settle(w, fates).recorded == w.recorded
      ensures Settle(w, fates).held.Open().IsOpen(s) <==> EndsHeld(w.held.Open(), s, Effects(w, fates))
    {
      SettlesAsExecuted(w, fates, s);
    }
    SettlesAsExecuted(w, fates, LONG);
    WithinIff(w.recorded, Settle(w, fates).held.Open());
    WithinIff(Settle(w, fates).held.Open(), w.recorded);
  }

  /** Emission is meant to be fail-closed: the stance advances only when every step went through.
      But a step goes through when its webhook is answered, and the order is executed, or dropped,
      afterwards. Whatever was outstanding before, and whatever becomes of it all, the stance is
      honest afterwards exactly when every recorded leg was last opened, or was held and not closed,
      by the orders that were executed. For a post that finds nothing outstanding that is: every
      recorded entry was executed, no unrecorded close was, and no trim closed its leg. */
  lemma LivePostStaysHonestIff(w: World, post: Post, done: nat, lost: bool, fates: seq<Fate>, multi: bool, st: Settings)
    ensures var accepted := Next(w, LivePost(post, done, lost), multi, st);
            Honest(Settle(accepted, fates)) <==>
              forall s: Side :: accepted.recorded.IsOpen(s) ==> EndsHeld(w.held.Open(), s, Effects(accepted, fates))
    ensures var d := Decide(w, post, Live, multi, st);
            var accepted := Next(w, LivePost(post, done, lost), multi, st);
            Honest(w) && Settled(w) ==>
              (Honest(Settle(accepted, fates)) <==>
                 || !Sendable(w.held, d, post.entry)
                 || forall s: Side :: StaysHonest(w, d, done, Effects(accepted, fates), s))
  {
    DecisionRefinesToSteps(post.rec, Live, w.recorded, post.mark, post.implied, multi, st);
    hide Evaluate, Landed, Refines, StaysHonest, StaysKnown, EndsHeld, Sendable;
    var d := Decide(w, post, Live, multi, st);
    HonestWhenExecuted(Next(w, LivePost(post, done, lost), multi, st), fates);
    if Honest(w) && Settled(w) {
      if Sendable(w.held, d, post.entry) {
        OutcomeIff(w, d, post.entry, done, lost, fates);
        assert w.orders + Landed(w.held, d, post.entry, done, lost) == Landed(w.held, d, post.entry, done, lost);
      } else {
        NothingSettles(w, fates);
      }
    }
  }

  /** And the exchange holds only known legs exactly when every leg these orders leave held is
      recorded; for a post that finds nothing outstanding, when every recorded close was executed
      and no unrecorded entry was. */
  lemma LivePostStaysKnownIff(w: World, post: Post, done: nat, lost: bool, fates: seq<Fate>, multi: bool, st: Settings)
    ensures var accepted := Next(w, LivePost(post, done, lost), multi, st);
            Known(Settle(accepted, fates)) <==>
              forall s: Side :: EndsHeld(w.held.Open(), s, Effects(accepted, fates)) ==> accepted.recorded.IsOpen(s)
    ensures var d := Decide(w, post, Live, multi, st);
            var accepted := Next(w, LivePost(post, done, lost), multi, st);
            Known(w) && Settled(w) ==>
              (Known(Settle(accepted, fates)) <==>
                 || !Sendable(w.held, d, post.entry)
                 || forall s: Side :: StaysKnown(w, d, done, Effects(accepted, fates), s))
  {
    DecisionRefinesToSteps(post.rec, Live, w.recorded, post.mark, post.implied, multi, st);
    hide Evaluate, Landed, Refines, StaysHonest, StaysKnown, EndsHeld, Sendable;
    var d := Decide(w, post, Live, multi, st);
    HonestWhenExecuted(Next(w, LivePost(post, done, lost), multi, st), fates);
    if Known(w) && Settled(w) {
      if Sendable(w.held, d, post.entry) {
        OutcomeIff(w, d, post.entry, done, lost, fates);
        assert w.orders + Landed(w.held, d, post.entry, done, lost) == Landed(w.held, d, post.entry, done, lost);
      } else {
        NothingSettles(w, fates);
      }
    }
  }

  /** The sweep restores honesty from any state, and forgets nothing that is held. */
  lemma SweepRestoresHonesty(w: World, multi: bool, st: Settings, s: Side)
    ensures var w' := Next(w, Swept, multi, st);
            && Honest(w')
            && (w'.recorded.IsOpen(s) <==> w.recorded.IsOpen(s) && w.held.At(s) > 0)
            && w'.held == w.held
  {}

  // ---------------------------------------------------------------------------------
  // Failing inputs
  // ---------------------------------------------------------------------------------

  const EXAMPLE: Settings := Settings(0.5, 0.01, 3600.0, true, 0.1, 0.9, 0.25, 1.0, 0.5)

  const FLAT: Legs := Legs(false, false)

  const JUST_LONG: Legs := Legs(true, false)

  /** A post about one side, at a mark where a standard entry is 1000 units. */
  function ExamplePost(action: Action, side: Side): Post {
    Post(Record(action, true, 1.0, Some(side), None, None, Missing, Missing, None), Some(100.0), None, Some(1000))
  }

  lemma SettleOne(w: World, fate: Fate)
    ensures Settle(w, [fate]) == Resolve(w, fate)
  {
    assert [fate][1..] == [];
  }

  lemma SettleTwo(w: World, a: Fate, b: Fate)
    ensures Settle(w, [a, b]) == Resolve(Resolve(w, a), b)
  {
    assert [a, b][1..] == [b];
    SettleOne(Resolve(w, a), b);
  }

  /** The orders of an example post, one step at a time. */
  lemma ExampleOrders(held: Sizes, d: Decision, orders: seq<Order>)
    requires Sendable(held, d, Some(1000)) && |orders| == |Steps(d.signal)|
    requires forall i :: 0 <= i < |orders| ==>
               orders[i] == Order(Steps(d.signal)[i].side,
                   AskOf(held, Steps(d.signal)[i], d.size.GetOr(0.0), Some(1000)).value)
    ensures OrdersOf(held, d, Some(1000)) == orders
  {}

  /** Half a flip: flat on the exchange, still recorded long. */
  lemma HalfAFlipClaimsAClosedLeg()
    ensures
      var long := World(JUST_LONG, Sizes(1000, 0), []);
      var accepted := Next(long, LivePost(ExamplePost(FLIP, SHORT), 1, false), false, EXAMPLE);
      Settle(accepted, [Executes(0, 0)]) == World(JUST_LONG, Sizes(0, 0), [])
  {
    var w := World(JUST_LONG, Sizes(1000, 0), []);
    var d := Decide(w, ExamplePost(FLIP, SHORT), Live, false, EXAMPLE);
    assert d.signal == FlipTo(SHORT);
    ExampleOrders(w.held, d, [Order(LONG, CloseAsk), Order(SHORT, AddAsk(1000))]);
    assert [Order(LONG, CloseAsk), Order(SHORT, AddAsk(1000))][..1] == [Order(LONG, CloseAsk)];
    SettleOne(World(JUST_LONG, Sizes(1000, 0), [Order(LONG, CloseAsk)]), Executes(0, 0));
  }

  /** An entry that was answered with success and dropped by a guard: recorded, not held. */
  lemma DroppedEntryIsClaimed()
    ensures
      var accepted := Next(World(FLAT, Sizes(0, 0), []), LivePost(ExamplePost(OPEN, LONG), 1, false), false, EXAMPLE);
      Settle(accepted, [Drops(0)]) == World(JUST_LONG, Sizes(0, 0), [])
  {
    ExampleEntry();
    SettleOne(World(JUST_LONG, Sizes(0, 0), [Order(LONG, AddAsk(1000))]), Drops(0));
  }

  /** A flip both of whose calls were answered with success, its close refused afterwards: short is
      recorded, and both legs are held. */
  lemma RefusedCloseIsForgotten()
    ensures
      var long := World(JUST_LONG, Sizes(1000, 0), []);
      var accepted := Next(long, LivePost(ExamplePost(FLIP, SHORT), 2, false), false, EXAMPLE);
      Settle(accepted, [Executes(1, 0), Drops(0)]) == World(Legs(false, true), Sizes(1000, 1000), [])
  {
    var w := World(JUST_LONG, Sizes(1000, 0), []);
    var d := Decide(w, ExamplePost(FLIP, SHORT), Live, false, EXAMPLE);
    assert d.signal == FlipTo(SHORT);
    var orders := [Order(LONG, CloseAsk), Order(SHORT, AddAsk(1000))];
    ExampleOrders(w.held, d, orders);
    var accepted := World(Legs(false, true), Sizes(1000, 0), orders);
    assert [] + orders == orders;
    SettleTwo(accepted, Executes(1, 0), Drops(0));
    assert Without(orders, 1) == [Order(LONG, CloseAsk)] && Without([Order(LONG, CloseAsk)], 0) == [];
  }

  lemma ExampleEntry()
    ensures Next(World(FLAT, Sizes(0, 0), []), LivePost(ExamplePost(OPEN, LONG), 1, false), false, EXAMPLE)
         == World(JUST_LONG, Sizes(0, 0), [Order(LONG, AddAsk(1000))])
  {
    var w := World(FLAT, Sizes(0, 0), []);
    var d := Decide(w, ExamplePost(OPEN, LONG), Live, false, EXAMPLE);
    assert d.signal == OpenLeg(LONG);
    ExampleOrders(w.held, d, [Order(LONG, AddAsk(1000))]);
  }

  lemma ExampleClose(w: World)
    requires w.recorded == JUST_LONG
    ensures Next(w, LivePost(ExamplePost(CLOSE, LONG), 1, false), false, EXAMPLE)
         == World(FLAT, w.held, w.orders + [Order(LONG, CloseAsk)])
  {
    var d := Decide(w, ExamplePost(CLOSE, LONG), Live, false, EXAMPLE);
    assert d.signal == CloseLeg(LONG);
    ExampleOrders(w.held, d, [Order(LONG, CloseAsk)]);
  }

  lemma ExampleScaleIn()
    ensures Next(World(JUST_LONG, Sizes(1000, 0), []), LivePost(ExamplePost(ADD, LONG), 1, false), false, EXAMPLE)
         == World(JUST_LONG, Sizes(1000, 0), [Order(LONG, AddAsk(500))])
  {
    var w := World(JUST_LONG, Sizes(1000, 0), []);
    var d := Decide(w, ExamplePost(ADD, LONG), Live, false, EXAMPLE);
    assert d.signal == AddTo(LONG) && d.size == Some(0.5);
    assert E.Wanted(1000, 0.5) == 500.0;
    assert E.AddSize(1000, 1000, 0.5) == Some(500);
    ExampleOrders(w.held, d, [Order(LONG, AddAsk(500))]);
  }

  /** Two posts in a row, the second accepted before the first is executed. The close overtakes the
      entry: every recorded step is executed, and a leg is held that nobody records. */
  lemma OrdersOvertake()
    ensures
      var opening := Next(World(FLAT, Sizes(0, 0), []), LivePost(ExamplePost(OPEN, LONG), 1, false), false, EXAMPLE);
      var closing := Next(opening, LivePost(ExamplePost(CLOSE, LONG), 1, false), false, EXAMPLE);
      && Settle(closing, [Executes(0, 0), Executes(0, 0)]) == World(FLAT, Sizes(0, 0), [])
      && Settle(closing, [Executes(1, 0), Executes(0, 0)]) == World(FLAT, Sizes(1000, 0), [])
  {
    ExampleEntry();
    ExampleClose(World(JUST_LONG, Sizes(0, 0), [Order(LONG, AddAsk(1000))]));
    hide Next;
    BothOrders(Sizes(0, 0), 1000);
  }

  /** So does a close that overtakes a scale-in. */
  lemma CloseOvertakesScaleIn()
    ensures
      var long := World(JUST_LONG, Sizes(1000, 0), []);
      var adding := Next(long, LivePost(ExamplePost(ADD, LONG), 1, false), false, EXAMPLE);
      var closing := Next(adding, LivePost(ExamplePost(CLOSE, LONG), 1, false), false, EXAMPLE);
      && Settle(closing, [Executes(0, 0), Executes(0, 0)]) == World(FLAT, Sizes(0, 0), [])
      && Settle(closing, [Executes(1, 0), Executes(0, 0)]) == World(FLAT, Sizes(500, 0), [])
  {
    ExampleScaleIn();
    ExampleClose(World(JUST_LONG, Sizes(1000, 0), [Order(LONG, AddAsk(500))]));
    hide Next;
    BothOrders(Sizes(1000, 0), 500);
  }

  lemma BothOrders(held: Sizes, size: nat)
    requires size > 0
    ensures
      var w := World(FLAT, held, [Order(LONG, AddAsk(size))] + [Order(LONG, CloseAsk)]);
      && Settle(w, [Executes(0, 0), Executes(0, 0)]) == World(FLAT, Sizes(0, held.short), [])
      && Settle(w, [Executes(1, 0), Executes(0, 0)]) == World(FLAT, Sizes(size, held.short), [])
  {
    var orders := [Order(LONG, AddAsk(size))] + [Order(LONG, CloseAsk)];
    var w := World(FLAT, held, orders);
    SettleTwo(w, Executes(0, 0), Executes(0, 0));
    SettleTwo(w, Executes(1, 0), Executes(0, 0));
    assert Without(orders, 0) == [Order(LONG, CloseAsk)] && Without([Order(LONG, CloseAsk)], 0) == [];
    assert Without(orders, 1) == [Order(LONG, AddAsk(size))] && Without([Order(LONG, AddAsk(size))], 0) == [];
  }

  /** Two parked halves that are reached before the first is executed: long is recorded, and
      nothing is held. */
  lemma TwoReachedTrimsCloseARecordedLeg()
    ensures
      var reached := Reached(LONG, 0.5, Some(1000), true);
      var both := Next(Next(World(JUST_LONG, Sizes(1000, 0), []), reached, false, EXAMPLE), reached, false, EXAMPLE);
      Settle(both, [Executes(0, 0), Executes(0, 0)]) == World(JUST_LONG, Sizes(0, 0), [])
  {
    assert E.Share(1000, 0.5) == 500.0;
    assert E.TrimSize(1000, Some(1000), 0.5) == Some(500);
    var half := Order(LONG, TrimAsk(500));
    var w := World(JUST_LONG, Sizes(1000, 0), [half] + [half]);
    SettleTwo(w, Executes(0, 0), Executes(0, 0));
    assert Without([half] + [half], 0) == [half] && Without([half], 0) == [];
  }

  // ---------------------------------------------------------------------------------
  // Whole runs
  // ---------------------------------------------------------------------------------

  /** Every held leg is recorded or about to be closed, and every entry and scale-in on its way is
      recorded. */
  ghost predicate Tracked(w: World) {
    forall s: Side ::
      && (w.held.At(s) > 0 ==> w.recorded.IsOpen(s) || w.Closing(s))
      && (w.Adds(s) > 0 ==> w.recorded.IsOpen(s))
  }

  /** An event that keeps the exchange known: no post or sweep gives up a leg that has an entry or
      scale-in outstanding, no replay gives up any, no answer to an entry is lost, and no close of
      an unrecorded leg is dropped but for another. */
  ghost predicate KeepsTrack(w: World, e: Event, multi: bool, st: Settings) {
    match e
    case LivePost(post, done, lost) =>
      var d := Decide(w, post, Live, multi, st);
      && (forall s: Side :: w.recorded.IsOpen(s) && !d.to.IsOpen(s) ==> w.Adds(s) == 0)
      && (lost && done < |Steps(d.signal)| ==> !Steps(d.signal)[done].OpenStep?)
    case Background(fate) =>
      fate.Drops? && fate.order < |w.orders| && w.orders[fate.order].ask.CloseAsk? ==>
        var s := w.orders[fate.order].side;
        w.held.At(s) == 0 || w.recorded.IsOpen(s) || Resolve(w, fate).Closing(s)
    case Replayed(post) => w.recorded.Within(Decide(w, post, Backfill, multi, st).to)
    case Reached(_, _, _, _) => true
    case Stopped(_) => true
    case Swept => forall s: Side :: w.recorded.IsOpen(s) && w.held.At(s) == 0 ==> w.Adds(s) == 0
  }

  lemma ResolvingKeepsTrack(w: World, fate: Fate, multi: bool, st: Settings)
    requires Tracked(w) && KeepsTrack(w, Background(fate), multi, st) && fate.order < |w.orders|
    ensures Tracked(Resolve(w, fate))
  {
    hide Of, AddSum, TrimSum, Without;
    var w' := Resolve(w, fate);
    forall s: Side
      ensures w'.held.At(s) > 0 ==> w'.recorded.IsOpen(s) || w'.Closing(s)
      ensures w'.Adds(s) > 0 ==> w'.recorded.IsOpen(s)
    {
      ResolveLoad(w, fate, s);
    }
  }

  lemma {:induction false} OfConcat(a: seq<Order>, b: seq<Order>, s: Side)
    ensures Of(a + b, s) == Of(a, s) + Of(b, s)
    decreases |a|
  {
    if a == [] {
      assert a + b == b;
    } else {
      assert (a + b)[1..] == a[1..] + b;
      OfConcat(a[1..], b, s);
      var first := if a[0].side == s then [a[0].ask] else [];
      assert first + (Of(a[1..], s) + Of(b, s)) == first + Of(a[1..], s) + Of(b, s);
    }
  }

  lemma {:induction false} SumsConcat(a: seq<Ask>, b: seq<Ask>)
    ensures AddSum(a + b) == AddSum(a) + AddSum(b)
    decreases |a|
  {
    if a == [] {
      assert a + b == b;
    } else {
      assert (a + b)[1..] == a[1..] + b;
      SumsConcat(a[1..], b);
    }
  }

  /** More orders are accepted. */
  lemma Accepting(w: World, recorded: Legs, more: seq<Order>, s: Side)
    ensures var w' := World(recorded, w.held, w.orders + more);
            && w'.Adds(s) == w.Adds(s) + AddSum(Of(more, s))
            && (w'.Closing(s) <==> w.Closing(s) || CloseAsk in Of(more, s))
  {
    OfConcat(w.orders, more, s);
    SumsConcat(Of(w.orders, s), Of(more, s));
    hide Of, AddSum;
  }

  lemma {:induction false} CloseIsAmong(orders: seq<Order>, s: Side)
    requires Order(s, CloseAsk) in orders
    ensures CloseAsk in Of(orders, s)
    decreases |orders|
  {
    OfFront(orders, s);
    if orders[0] != Order(s, CloseAsk) { CloseIsAmong(orders[1..], s); }
  }

  lemma EmittingKeepsTrack(w: World, post: Post, done: nat, lost: bool, multi: bool, st: Settings)
    requires Tracked(w) && KeepsTrack(w, LivePost(post, done, lost), multi, st)
    requires Refines(w.recorded, Decide(w, post, Live, multi, st))
    requires Sendable(w.held, Decide(w, post, Live, multi, st), post.entry)
    ensures Tracked(Next(w, LivePost(post, done, lost), multi, st))
  {
    hide Evaluate, Of, AddSum, TrimSum;
    var d := Decide(w, post, Live, multi, st);
    var steps, landed := Steps(d.signal), Landed(w.held, d, post.entry, done, lost);
    var recorded := if done >= |steps| then d.to else w.recorded;
    SignalSteps(w.recorded, d);
    StepsAreApart(d.signal);
    LandedStandsFor(w.held, d, post.entry, done, lost);
    hide Steps, Landed, Refines, Sendable;
    var w' := World(recorded, w.held, w.orders + landed);
    forall s: Side
      ensures w'.held.At(s) > 0 ==> w'.recorded.IsOpen(s) || w'.Closing(s)
      ensures w'.Adds(s) > 0 ==> w'.recorded.IsOpen(s)
    {
      Accepting(w, recorded, landed, s);
      if AddSum(Of(landed, s)) > 0 {
        var i := SomeAdd(landed, s);
        assert StandsFor(landed[i], steps[i]) && steps[i] in steps;
      }
      if w.recorded.IsOpen(s) && !recorded.IsOpen(s) {
        var i :| 0 <= i < |steps| && steps[i] == CloseStep(s);
        assert StandsFor(landed[i], steps[i]);
        CloseIsAmong(landed, s);
      }
    }
  }

  lemma ReachingKeepsTrack(w: World, s: Side, fraction: real, entry: Option<nat>)
    requires Tracked(w)
    ensures Tracked(w.(orders := w.orders + Fired(w, s, fraction, entry)))
  {
    var more := Fired(w, s, fraction, entry);
    hide E.TrimSize;
    var w' := w.(orders := w.orders + more);
    forall side: Side
      ensures w'.held.At(side) > 0 ==> w'.recorded.IsOpen(side) || w'.Closing(side)
      ensures w'.Adds(side) > 0 ==> w'.recorded.IsOpen(side)
    {
      Accepting(w, w.recorded, more, side);
      NoAdds(more, side);
    }
  }

  lemma NetAccountOverStep(w: World, e: Event, st: Settings)
    requires !w.recorded.Both()
    ensures !Next(w, e, false, st).recorded.Both()
    ensures Tracked(w) && KeepsTrack(w, e, false, st) ==> Tracked(Next(w, e, false, st))
  {
    hide Evaluate, RunSteps, Tracked, KeepsTrack, Landed, Steps, Refines, Sendable;
    match e
    case LivePost(post, done, lost) =>
      NetAccountNeverHoldsBoth(post.rec, Live, w.recorded, post.mark, post.implied, st, 0);
      DecisionRefinesToSteps(post.rec, Live, w.recorded, post.mark, post.implied, false, st);
      var d := Decide(w, post, Live, false, st);
      if Sendable(w.held, d, post.entry) && Tracked(w) && KeepsTrack(w, e, false, st) {
        EmittingKeepsTrack(w, post, done, lost, false, st);
      }
    case Background(fate) =>
      if Tracked(w) && KeepsTrack(w, e, false, st) && fate.order < |w.orders| {
        ResolvingKeepsTrack(w, fate, false, st);
      }
    case Replayed(post) =>
      NetAccountNeverHoldsBoth(post.rec, Backfill, w.recorded, post.mark, post.implied, st, 0);
      ReplayingKeepsTrack(w, post, st);
    case Reached(s, fraction, entry, accepted) =>
      if Tracked(w) { ReachingKeepsTrack(w, s, fraction, entry); }
    case Stopped(s) => StoppingKeepsTrack(w, s);
    case Swept => SweepingKeepsTrack(w, st);
  }

  lemma ReplayingKeepsTrack(w: World, post: Post, st: Settings)
    ensures Tracked(w) && KeepsTrack(w, Replayed(post), false, st) ==> Tracked(Next(w, Replayed(post), false, st))
  {
    hide Evaluate, Of;
  }

  lemma StoppingKeepsTrack(w: World, s: Side)
    ensures Tracked(w) ==> Tracked(w.(held := w.held.With(s, 0)))
  {
    hide Of;
  }

  lemma SweepingKeepsTrack(w: World, st: Settings)
    ensures Tracked(w) && KeepsTrack(w, Swept, false, st) ==> Tracked(Next(w, Swept, false, st))
  {
    hide Of;
  }

  /** Over every run on a net account, with emissions stopping anywhere, orders executed late, out of
      order or not at all, parked trims and stops firing, replays and sweeps, the recorded stance
      never holds both legs. Over those that keep track, the exchange holds no leg the stance does
      not know whenever nothing is outstanding, and so never both. */
  lemma {:induction false} NetAccountOverRuns(w: World, es: seq<Event>, st: Settings)
    requires !w.recorded.Both() && Tracked(w)
    ensures !Run(w, es, false, st).recorded.Both()
    ensures (forall i :: 0 <= i < |es| ==> KeepsTrack(Run(w, es[..i], false, st), es[i], false, st)) ==>
              var w' := Run(w, es, false, st);
              && Tracked(w')
              && (Settled(w') ==> Known(w') && !w'.held.Open().Both())
    decreases |es|
  {
    hide Next, KeepsTrack, Tracked;
    if es != [] {
      var n := |es| - 1;
      forall i | 0 <= i < n ensures es[..n][..i] == es[..i] && es[..n][i] == es[i] {}
      NetAccountOverRuns(w, es[..n], st);
      NetAccountOverStep(Run(w, es[..n], false, st), es[n], st);
    }
    TrackedIsKnown(Run(w, es, false, st));
  }

  lemma TrackedIsKnown(w: World)
    ensures Tracked(w) && Settled(w) ==> Known(w)
  {
    WithinIff(w.held.Open(), w.recorded);
  }

  // ---------------------------------------------------------------------------------
  // The emission, its orders and the sweep, in place
  // ---------------------------------------------------------------------------------

  /** The answer to one webhook call. */
  datatype Answer = Accepted | Rejected | LostBefore | LostAfter

  class Account {
    var recorded: Legs
    var held: Sizes
    var orders: seq<Order>

    constructor (world: World)
      ensures Value() == world
    {
      recorded, held, orders := world.recorded, world.held, world.orders;
    }

    function Value(): World
      reads this
    {
      World(recorded, held, orders)
    }

    /** Sizes the steps, fires them in order and stops at the first that is not answered with
        success. Missing answers are calls that never left. What is accepted is only queued. */
    method Emit(d: Decision, entry: Option<nat>, answers: seq<Answer>) returns (ok: bool, done: nat, ghost lost: bool)
      requires Sendable(held, d, entry)
      modifies this`orders
      ensures done <= |Steps(d.signal)| && done <= |answers|
      ensures ok <==> done == |Steps(d.signal)|
      ensures forall i :: 0 <= i < done ==> answers[i].Accepted?
      ensures !ok ==> done == |answers| || !answers[done].Accepted?
      ensures lost <==> done < |Steps(d.signal)| && done < |answers| && answers[done].LostAfter?
      ensures orders == old(orders) + Landed(held, d, entry, done, lost)
    {
      hide Steps, Sendable;
      var sized := OrdersOf(held, d, entry);
      done, lost := 0, false;
      assert orders == old(orders) + sized[..0];
      while done < |sized|
        invariant 0 <= done <= |sized| && done <= |answers|
        invariant forall i :: 0 <= i < done ==> answers[i].Accepted?
        invariant orders == old(orders) + sized[..done]
      {
        if done == |answers| || answers[done].Rejected? || answers[done].LostBefore? {
          return false, done, false;
        }
        assert sized[..done + 1] == sized[..done] + [sized[done]];
        orders := orders + [sized[done]];
        if answers[done].LostAfter? {
          assert done + 1 == |sized| ==> sized[..done + 1] == sized;
          return false, done, true;
        }
        done := done + 1;
      }
      assert sized[..done] == sized;
      ok := true;
    }

    /** The background run of one accepted order. */
    method RunOrder(fate: Fate)
      requires fate.order < |orders|
      modifies this`held, this`orders
      ensures Value() == Resolve(old(Value()), fate)
    {
      var o := orders[fate.order];
      orders := orders[..fate.order] + orders[fate.order + 1..];
      if fate.Executes? {
        var size := held.At(o.side);
        match o.ask {
        case AddAsk(asked) =>
          size := size + (if fate.reported == 0 then asked else fate.reported);
        case TrimAsk(asked) =>
          var closing := Minimum(asked, size);
          if closing < size {
            closing := Minimum(if fate.reported == 0 then asked else fate.reported, size);
          }
          size := size - closing;
        case CloseAsk =>
          size := 0;
        }
        held := held.With(o.side, size);
      }
    }

    /** A live post: decide, emit, and advance the recorded legs only when every step went
        through. */
    method HandleLive(post: Post, multi: bool, st: Settings, answers: seq<Answer>) returns (done: nat, ghost lost: bool)
      modifies this`recorded, this`orders
      ensures Value() == Next(old(Value()), LivePost(post, done, lost), multi, st)
    {
      DecisionRefinesToSteps(post.rec, Live, recorded, post.mark, post.implied, multi, st);
      hide Evaluate, Landed, RunSteps, Sendable, Steps;
      var d := Evaluate(post.rec, Live, recorded, post.mark, post.implied, multi, st);
      done, lost := 0, false;
      if Sendable(held, d, post.entry) {
        var ok;
        ok, done, lost := Emit(d, post.entry, answers);
        if ok {
          recorded := Apply(recorded, d.changes);
        }
      }
    }

    /** Forgets the recorded legs the exchange has closed, one leg at a time. */
    method SweepClosedLegs(multi: bool, st: Settings)
      modifies this`recorded
      ensures Value() == Next(old(Value()), Swept, multi, st)
    {
      var rows := (if recorded.long then [LONG] else []) + (if recorded.short then [SHORT] else []);
      for i := 0 to |rows|
        invariant forall s :: recorded.IsOpen(s) <==> old(recorded).IsOpen(s) && (held.At(s) > 0 || s !in rows[..i])
      {
        if held.At(rows[i]) == 0 {
          recorded := recorded.WithSide(rows[i], false);
        }
      }
      assert rows[..|rows|] == rows;
      assert old(recorded).long ==> rows[0] == LONG;
      assert old(recorded).short ==> rows[|rows| - 1] == SHORT;
      assert recorded.IsOpen(LONG) <==> recorded.long;
      assert recorded.IsOpen(SHORT) <==> recorded.short;
    }
  }
}
