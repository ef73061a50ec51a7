/**
 What follows from the ledger equation, and what it does not cover: the allocation and its
 high-water mark, the PnL sync as a fixpoint, the exact drift of a close that meets a booked
 PnL, and the net result of an external close.
 */
module LedgerProperties {
  import opened Prelude
  import opened Ledger

  // ---------------------------------------------------------------------------------
  // Totals
  // ---------------------------------------------------------------------------------

  function Flips(ops: seq<Op>, s: nat): real
    decreases |ops|
  {
    if ops == [] then 0.0
    else
      var last := ops[|ops| - 1];
      Flips(ops[..|ops| - 1], s) + if last.Flip? && last.strategy == s then last.amount else 0.0
  }

  /** If step `i` of a run closes an open position, it finds no attributed PnL. */
  predicate MeetsNull(db: Db, ops: seq<Op>, i: nat)
    requires i < |ops|
  {
    ops[i].Close? ==>
      var before := Run(db, ops[..i]);
      ops[i].position < |before.positions| && before.positions[ops[i].position].open ==>
        before.positions[ops[i].position].pnl.None?
  }

  lemma {:induction false} NullClosesDriftByFlipsOnly(db: Db, ops: seq<Op>, s: nat)
    requires forall i :: 0 <= i < |ops| ==> MeetsNull(db, ops, i)
    ensures RunDrift(db, ops, s) == Flips(ops, s)
    decreases |ops|
  {
    if ops != [] {
      var n := |ops| - 1;
      var prefix := ops[..n];
      forall i | 0 <= i < n ensures MeetsNull(db, prefix, i) {
        assert MeetsNull(db, ops, i);
        assert prefix[..i] == ops[..i] && prefix[i] == ops[i];
      }
      NullClosesDriftByFlipsOnly(db, prefix, s);
      assert MeetsNull(db, ops, n);
    }
  }

  /** With nothing in flight at either end, and every full close meeting NULL, a strategy's
      total moves by exactly the realized PnL of its positions and its direct flip bookings. */
  lemma TotalsFollowPositions(db: Db, ops: seq<Op>, s: nat)
    requires s < |db.strategies| && db.inflight == [] && Run(db, ops).inflight == []
    requires forall i :: 0 <= i < |ops| ==> MeetsNull(db, ops, i)
    ensures |Run(db, ops).strategies| == |db.strategies|
    ensures Run(db, ops).strategies[s].total - db.strategies[s].total
         == PositionPnl(Run(db, ops).positions, s) - PositionPnl(db.positions, s) + Flips(ops, s)
  {
    hide Run, MeetsNull;
    LedgerEquation(db, ops, s);
    NullClosesDriftByFlipsOnly(db, ops, s);
  }

  // ---------------------------------------------------------------------------------
  // Allocation and high-water mark
  // ---------------------------------------------------------------------------------

  /** The high-water mark: the peak column, or the allocation while the column is NULL. */
  function HighWater(s: Strategy): real {
    s.peak.GetOr(s.allocation)
  }

  /** The largest of the starting mark and every allocation a run passes through. */
  function Highest(db: Db, ops: seq<Op>, s: nat): real
    requires s < |db.strategies|
    decreases |ops|
  {
    if ops == [] then HighWater(db.strategies[s])
    else
      Max(Highest(db, ops[..|ops| - 1], s),
          AllocationAfter(db, ops, s))
  }

  function AllocationAfter(db: Db, ops: seq<Op>, s: nat): real
    requires s < |db.strategies|
  {
    if s < |Run(db, ops).strategies| then Run(db, ops).strategies[s].allocation else 0.0
  }

  lemma StepMovesAllocation(db: Db, op: Op, s: nat)
    requires s < |db.strategies| && db.strategies[s].allocation <= HighWater(db.strategies[s])
    ensures |Step(db, op).strategies| == |db.strategies|
    ensures var before, after := db.strategies[s], Step(db, op).strategies[s];
            && after.allocation - after.total == before.allocation - before.total
            && HighWater(after) == Max(HighWater(before), after.allocation)
  {
    StepKeepsStrategies(db, op);
    match op
    case Book(i) =>
    case Disable(_) =>
    case _ =>
  }

  /** Over every run: the allocation moves exactly with the total, and the high-water mark is
      the running maximum of the allocation. */
  lemma {:induction false} PeakIsRunningMaximum(db: Db, ops: seq<Op>, s: nat)
    requires s < |db.strategies| && db.strategies[s].allocation <= HighWater(db.strategies[s])
    ensures var db' := Run(db, ops);
            && |db'.strategies| == |db.strategies|
            && db'.strategies[s].allocation - db.strategies[s].allocation
               == db'.strategies[s].total - db.strategies[s].total
            && HighWater(db'.strategies[s]) == Highest(db, ops, s)
            && db'.strategies[s].allocation <= HighWater(db'.strategies[s])
    decreases |ops|
  {
    hide Step, HighWater;
    if ops != [] {
      var n := |ops| - 1;
      PeakIsRunningMaximum(db, ops[..n], s);
      StepMovesAllocation(Run(db, ops[..n]), ops[n], s);
    }
  }

  // ---------------------------------------------------------------------------------
  // The sync
  // ---------------------------------------------------------------------------------

  function Sync(db: Db): Db {
    SyncStatement(SyncStatement(db, true), false)
  }

  predicate Settled(db: Db) {
    forall p :: 0 <= p < |db.positions| && Priced(db.orders, p) ==>
      db.positions[p].pnl == Some(Rollup(db.orders, db.positions[p], p))
  }

  /** Both statements look at every position, open or closed: after them each one with a priced
      closing order carries exactly its rollup, and no other field has changed. */
  lemma SyncSettles(db: Db)
    ensures Settled(Sync(db)) && Sync(db).orders == db.orders && |Sync(db).positions| == |db.positions|
    ensures forall p :: 0 <= p < |db.positions| ==>
              Sync(db).positions[p] == db.positions[p].(pnl :=
                if Priced(db.orders, p) then Some(Rollup(db.orders, db.positions[p], p)) else db.positions[p].pnl)
  {
    hide ClosePnl, CloseFee, Priced;
    forall p | 0 <= p < |db.positions|
      ensures Sync(db).positions[p] == db.positions[p].(pnl :=
                if Priced(db.orders, p) then Some(Rollup(db.orders, db.positions[p], p)) else db.positions[p].pnl)
    {
      var once := SyncStatement(db, true).positions[p];
      assert Rollup(db.orders, once, p) == Rollup(db.orders, db.positions[p], p);
    }
  }

  lemma {:induction false} NothingToBook(db: Db, first: bool, n: nat)
    requires n <= |db.positions|
    requires forall p :: 0 <= p < n ==> SyncedPnl(db.orders, db.positions[p], p, first) == db.positions[p].pnl
    ensures SyncBookings(db, first, n) == []
  {
    hide SyncedPnl;
    if n > 0 {
      NothingToBook(db, first, n - 1);
    }
  }

  lemma SettledStatementDoesNothing(db: Db, first: bool)
    requires Settled(db)
    ensures SyncStatement(db, first) == db
  {
    hide Rollup, Priced;
    forall p | 0 <= p < |db.positions|
      ensures SyncedPnl(db.orders, db.positions[p], p, first) == db.positions[p].pnl
    {
    }
    NothingToBook(db, first, |db.positions|);
    assert SyncStatement(db, first).positions == db.positions;
  }

  /** A second sync changes nothing and books nothing. */
  lemma SyncIsIdempotent(db: Db)
    ensures Sync(Sync(db)) == Sync(db)
  {
    hide Settled, SyncStatement;
    SyncSettles(db);
    SettledStatementDoesNothing(Sync(db), true);
    SettledStatementDoesNothing(Sync(db), false);
  }

  // ---------------------------------------------------------------------------------
  // The drift
  // ---------------------------------------------------------------------------------

  /** The sync has no status filter, so a position with a priced partial close is booked while
      it is still open. Its full close then books the whole net figure on top, and the strategy
      is ahead of its positions by exactly what the sync had booked. */
  lemma PartialCloseThenFullCloseDrifts(db: Db, p: nat, gross: real, fee: Option<real>, order: Option<nat>)
    requires p < |db.positions| && db.positions[p].open && Priced(db.orders, p)
    requires db.positions[p].strategy < |db.strategies|
    ensures var s := db.positions[p].strategy;
            && Sync(db).positions[p].open
            && |Step(Sync(db), Close(p, Some(gross), fee, order)).strategies| == |db.strategies|
            && Excess(Step(Sync(db), Close(p, Some(gross), fee, order)), s)
               == Excess(db, s) + Rollup(db.orders, db.positions[p], p)
  {
    hide Rollup, Priced, Excess, SyncStatement, Step;
    var s := db.positions[p].strategy;
    SyncSettles(db);
    SyncKeepsExcess(db, true, s);
    KeepsStrategies(db);
    SyncKeepsExcess(SyncStatement(db, true), false, s);
    StepKeepsStrategies(Sync(db), Close(p, Some(gross), fee, order));
    CloseMovesExcess(Sync(db), p, Some(gross), fee, order, s);
  }

  lemma KeepsStrategies(db: Db)
    ensures SyncStatement(db, true).strategies == db.strategies
    ensures Sync(db).strategies == db.strategies
  {}

  /** A full close leaves the excess alone exactly when it reports no PnL or meets none. */
  lemma CloseKeepsLedgerIff(db: Db, p: nat, gross: Option<real>, fee: Option<real>, order: Option<nat>)
    requires p < |db.positions| && db.positions[p].open && db.positions[p].strategy < |db.strategies|
    ensures var s := db.positions[p].strategy;
            && |Step(db, Close(p, gross, fee, order)).strategies| == |db.strategies|
            && (Excess(Step(db, Close(p, gross, fee, order)), s) == Excess(db, s)
                <==> gross.None? || db.positions[p].pnl.GetOr(0.0) == 0.0)
  {
    hide Excess;
    CloseMovesExcess(db, p, gross, fee, order, db.positions[p].strategy);
  }

  // ---------------------------------------------------------------------------------
  // Sizes and costs
  // ---------------------------------------------------------------------------------

  /** A fill grows the open leg by its size and its cost by what the fill cost, or opens a leg with
      just that and nothing realized. No other row changes. */
  lemma FillAddsItsCost(db: Db, s: nat, symbol: nat, side: Side, size: real, price: real, opener: nat)
    requires size > 0.0 && forall p <- db.positions :: p.open ==> p.size >= 0.0
    ensures var db' := Step(db, Fill(s, symbol, side, size, price, opener));
            var found := FindOpen(db.positions, s, symbol, side);
            if found.None? then
              db'.positions == db.positions + [Position(s, symbol, side, true, size, price, None, Some(opener))]
            else
              var p := found.value;
              && |db'.positions| == |db.positions|
              && (forall q :: 0 <= q < |db.positions| && q != p ==> db'.positions[q] == db.positions[q])
              && db'.positions[p].size == db.positions[p].size + size
              && db'.positions[p].entry * db'.positions[p].size
                 == db.positions[p].entry * db.positions[p].size + price * size
              && db'.positions[p] == db.positions[p].(size := db'.positions[p].size, entry := db'.positions[p].entry)
  {
    var found := FindOpen(db.positions, s, symbol, side);
    if found.Some? {
      assert db.positions[found.value] in db.positions;
      var total := db.positions[found.value].entry * db.positions[found.value].size + price * size;
      var grown := db.positions[found.value].size + size;
      assert total / grown * grown == total;
    }
  }

  /** A reduction takes its size off the row and links its order; realized PnL waits for the sync. */
  lemma ReduceTakesItsSize(db: Db, p: nat, size: real, order: Option<nat>)
    requires p < |db.positions| && db.positions[p].open
    ensures var db' := Step(db, Reduce(p, size, order));
            && |db'.positions| == |db.positions|
            && db.positions[p].size == db'.positions[p].size + size
            && db'.positions[p] == db.positions[p].(size := db'.positions[p].size)
            && (forall q :: 0 <= q < |db.positions| && q != p ==> db'.positions[q] == db.positions[q])
            && |db'.orders| == |db.orders|
            && (forall o :: 0 <= o < |db.orders| ==>
                  db'.orders[o] == if order == Some(o) then db.orders[o].(closes := Some(p)) else db.orders[o])
            && db'.inflight == db.inflight && db'.strategies == db.strategies
  {}

  // ---------------------------------------------------------------------------------
  // What a full close attributes
  // ---------------------------------------------------------------------------------

  lemma {:induction false} UnpricedHasNothing(orders: seq<Order>, p: nat)
    requires !Priced(orders, p)
    ensures ClosePnl(orders, p) == 0.0 && CloseFee(orders, p) == 0.0
    decreases |orders|
  {
    if orders != [] {
      UnpricedHasNothing(orders[..|orders| - 1], p);
    }
  }

  /** Linking an unlinked order adds its figures to those of the position it closes. */
  lemma {:induction false} LinkingAdds(orders: seq<Order>, o: nat, p: nat)
    requires o < |orders| && orders[o].closes != Some(p) && orders[o].pnl.Some?
    ensures var linked := LinkOrder(orders, Some(o), p);
            && Priced(linked, p)
            && ClosePnl(linked, p) == ClosePnl(orders, p) + orders[o].pnl.value
            && CloseFee(linked, p) == CloseFee(orders, p) + orders[o].fee.GetOr(0.0)
    decreases |orders|
  {
    var n := |orders| - 1;
    var linked := LinkOrder(orders, Some(o), p);
    if o < n {
      assert linked[..n] == LinkOrder(orders[..n], Some(o), p);
      LinkingAdds(orders[..n], o, p);
    } else {
      assert linked[..n] == orders[..n];
    }
  }

  /** A full close under an order of its own, with the figures that order carries: the row gets,
      and the strategy is owed, what the sync would attribute to that order alone. So both sync
      statements leave the row and book nothing for it, unless priced partial closes came before;
      then they move it by exactly the PnL of those, less their fees. */
  lemma FullCloseMatchesTheSync(db: Db, p: nat, gross: real, fee: Option<real>, o: nat)
    requires p < |db.positions| && db.positions[p].open && o < |db.orders|
    requires db.orders[o].pnl == Some(gross) && db.orders[o].fee == fee && db.orders[o].closes != Some(p)
    ensures var closed := Step(db, Close(p, Some(gross), fee, Some(o)));
            && |closed.positions| == |db.positions| && !closed.positions[p].open && closed.positions[p].pnl.Some?
            && (forall q :: 0 <= q < |db.positions| && q != p ==> closed.positions[q] == db.positions[q])
            && closed.inflight == db.inflight + [Booking(db.positions[p].strategy, closed.positions[p].pnl.value)]
            && Priced(closed.orders, p)
            && Rollup(closed.orders, closed.positions[p], p)
               == closed.positions[p].pnl.value + ClosePnl(db.orders, p) - CloseFee(db.orders, p)
            && Sync(closed).positions[p].pnl == Some(Rollup(closed.orders, closed.positions[p], p))
            && (!Priced(db.orders, p) ==>
                  Sync(closed).positions[p] == SyncStatement(closed, true).positions[p] == closed.positions[p])
  {
    hide SyncStatement, ClosePnl, CloseFee, Priced, Settled;
    var closed := Step(db, Close(p, Some(gross), fee, Some(o)));
    LinkingAdds(db.orders, o, p);
    SyncSettles(closed);
    if !Priced(db.orders, p) {
      UnpricedHasNothing(db.orders, p);
      FirstSyncLeaves(closed, p);
    }
  }

  /** The first statement leaves rows alone that carry a PnL. */
  lemma FirstSyncLeaves(db: Db, p: nat)
    requires p < |db.positions| && db.positions[p].pnl.Some?
    ensures SyncStatement(db, true).positions[p] == db.positions[p]
  {}

  /** Without an order of its own the row gets gross less the fees of both legs, and so is the
      strategy owed; without a reported PnL neither gets anything. */
  lemma UnorderedCloseNetsFees(db: Db, p: nat, gross: Option<real>, fee: Option<real>)
    requires p < |db.positions| && db.positions[p].open
    ensures var closed := Step(db, Close(p, gross, fee, None));
            var net := gross.GetOr(0.0) - fee.GetOr(0.0)
                         - (if db.positions[p].opener.Some? && db.positions[p].opener.value < |db.orders|
                            then db.orders[db.positions[p].opener.value].fee.GetOr(0.0) else 0.0);
            && closed.positions == db.positions[p := db.positions[p].(
                 open := false, pnl := if gross.Some? then Some(net) else db.positions[p].pnl)]
            && closed.orders == db.orders
            && closed.inflight == db.inflight + if gross.Some? then [Booking(db.positions[p].strategy, net)] else []
  {}

  // ---------------------------------------------------------------------------------
  // External closes
  // ---------------------------------------------------------------------------------

  /** What the exchange's history says of a vanished position. `gross` is None when the close
      is unconfirmed. `fee` covers both legs when `roundTrip`, else the closing fills only. */
  datatype History = History(gross: Option<real>, fee: Option<real>, roundTrip: bool)

  /** The closing fee left for the last close. */
  function RemainingFee(db: Db, p: nat, h: History): Option<real>
    requires p < |db.positions|
  {
    if h.fee.None? then None
    else
      var legs := if h.roundTrip then Abs(h.fee.value) - OpenFee(db.orders, db.positions[p]) else Abs(h.fee.value);
      Some(Max(legs - CloseFee(db.orders, p), 0.0))
  }

  function RemainingPnl(db: Db, p: nat, h: History): Option<real> {
    if h.gross.None? then None else Some(h.gross.value - ClosePnl(db.orders, p))
  }

  /** The synthetic closing order, then the close that carries it. */
  function ExternalClose(db: Db, p: nat, h: History): seq<Op>
    requires p < |db.positions|
  {
    [NewOrder(RemainingPnl(db, p, h), RemainingFee(db, p, h)),
     Close(p, RemainingPnl(db, p, h), if h.gross.None? then None else RemainingFee(db, p, h), Some(|db.orders|))]
  }

  /** The synthetic order, before it is linked. */
  function NewRow(db: Db, p: nat, h: History): Order
    requires p < |db.positions|
  {
    Order(RemainingPnl(db, p, h), RemainingFee(db, p, h), None)
  }

  lemma ExternalCloseRuns(db: Db, p: nat, h: History)
    requires p < |db.positions| && db.positions[p].open
    ensures var db' := Run(db, ExternalClose(db, p, h));
            && db'.orders == db.orders + [Order(RemainingPnl(db, p, h), RemainingFee(db, p, h), Some(p))]
            && |db'.positions| == |db.positions|
            && db'.positions[p].opener == db.positions[p].opener
            && !db'.positions[p].open
            && db'.positions[p].pnl ==
                 if h.gross.None? then db.positions[p].pnl
                 else Some(h.gross.value - ClosePnl(db.orders, p) - RemainingFee(db, p, h).GetOr(0.0)
                             - OpenFee(db.orders + [NewRow(db, p, h)], db.positions[p]))
  {
    hide OpenFee, ClosePnl, CloseFee, RemainingFee;
    var ops := ExternalClose(db, p, h);
    assert ops[..1][..0] == [];
    assert Run(db, ops[..0]) == db;
    assert Run(db, ops[..1]) == Step(db, ops[0]);
    var placed := Run(db, ops[..1]);
    assert ops[..|ops| - 1] == ops[..1];
    assert Run(db, ops) == Step(placed, ops[1]);
    var row := Order(RemainingPnl(db, p, h), RemainingFee(db, p, h), None);
    assert LinkOrder(placed.orders, Some(|db.orders|), p) == db.orders + [row.(closes := Some(p))];
  }

  /** The fees a position ends up paying. A round-trip total below what is already recorded is
      clamped, and then the recorded fees stand. */
  function FeesPaid(db: Db, p: nat, h: History): real
    requires p < |db.positions|
  {
    var openFee, closeFee := OpenFee(db.orders, db.positions[p]), CloseFee(db.orders, p);
    if h.fee.None? then openFee + closeFee
    else if h.roundTrip then Max(Abs(h.fee.value), openFee + closeFee)
    else openFee + Max(Abs(h.fee.value), closeFee)
  }

  /** After a confirmed external close and one sync, a position has realized the exchange's
      gross less the fees paid, whatever priced partial closes came before and whatever the
      position carried; and that sync is final. */
  lemma ExternalCloseNetsFees(db: Db, p: nat, h: History)
    requires p < |db.positions| && db.positions[p].open && h.gross.Some?
    requires db.positions[p].opener.Some? ==> db.positions[p].opener.value < |db.orders|
    ensures var db' := Sync(Run(db, ExternalClose(db, p, h)));
            && p < |db'.positions| && !db'.positions[p].open
            && db'.positions[p].pnl == Some(h.gross.value - FeesPaid(db, p, h))
            && Sync(db') == db'
  {
    hide Run, SyncStatement, Settled;
    var closed := Run(db, ExternalClose(db, p, h));
    ExternalCloseRuns(db, p, h);
    SyncSettles(closed);
    SyncIsIdempotent(closed);
    RollupWithLastClose(db, p, h, closed);
  }

  lemma RollupWithLastClose(db: Db, p: nat, h: History, closed: Db)
    requires p < |db.positions| && h.gross.Some? && p < |closed.positions|
    requires db.positions[p].opener.Some? ==> db.positions[p].opener.value < |db.orders|
    requires closed.orders == db.orders + [Order(RemainingPnl(db, p, h), RemainingFee(db, p, h), Some(p))]
    requires closed.positions[p].opener == db.positions[p].opener
    ensures Priced(closed.orders, p)
    ensures Rollup(closed.orders, closed.positions[p], p) == h.gross.value - FeesPaid(db, p, h)
  {
    assert closed.orders[..|db.orders|] == db.orders;
    assert OpenFee(closed.orders, closed.positions[p]) == OpenFee(db.orders, db.positions[p]);
  }

  /** When nothing is clamped, the two fee scopes read as documented. */
  lemma UnclampedFees(db: Db, p: nat, h: History)
    requires p < |db.positions| && h.fee.Some?
    ensures h.roundTrip && Abs(h.fee.value) >= OpenFee(db.orders, db.positions[p]) + CloseFee(db.orders, p) ==>
              FeesPaid(db, p, h) == Abs(h.fee.value)
    ensures !h.roundTrip && Abs(h.fee.value) >= CloseFee(db.orders, p) ==>
              FeesPaid(db, p, h) == OpenFee(db.orders, db.positions[p]) + Abs(h.fee.value)
  {}

  /** The positions the history recovery looks at. */
  predicate Recoverable(db: Db, p: nat)
    requires p < |db.positions|
  {
    !db.positions[p].open && db.positions[p].pnl.None? && !Priced(db.orders, p)
  }

  /** What becomes of an unconfirmed external close. The sync attributes the priced partial
      closes alone when there are any, and leaves the row as it was otherwise. The history
      recovery, which only looks at closed positions without a priced close and with a NULL PnL,
      reaches the row exactly when no priced partial close preceded it and it carried no PnL;
      in every other case the rest of the close is never made good. */
  lemma UnconfirmedCloseIsRecoveredIff(db: Db, p: nat, h: History, net: real)
    requires p < |db.positions| && db.positions[p].open && h.gross.None?
    requires db.positions[p].opener.Some? ==> db.positions[p].opener.value < |db.orders|
    ensures var db' := Sync(Run(db, ExternalClose(db, p, h)));
            && p < |db'.positions|
            && db'.positions[p].pnl ==
                 (if Priced(db.orders, p) then Some(Rollup(db.orders, db.positions[p], p)) else db.positions[p].pnl)
            && (Recoverable(db', p) <==> !Priced(db.orders, p) && db.positions[p].pnl.None?)
            && (Step(db', Recover(p, net)) != db' <==> !Priced(db.orders, p) && db.positions[p].pnl.None?)
  {
    hide Run, SyncStatement, Settled;
    var closed := Run(db, ExternalClose(db, p, h));
    ExternalCloseRuns(db, p, h);
    SyncSettles(closed);
    assert closed.orders[..|db.orders|] == db.orders;
    assert OpenFee(closed.orders, closed.positions[p]) == OpenFee(db.orders, db.positions[p]);
    var db' := Sync(closed);
    if db'.positions[p].pnl.None? {
      assert Step(db', Recover(p, net)).positions[p].pnl == Some(net);
    }
  }

  // ---------------------------------------------------------------------------------
  // History recovery
  // ---------------------------------------------------------------------------------

  predicate Linked(orders: seq<Order>, p: nat) {
    exists i :: 0 <= i < |orders| && orders[i].closes == Some(p)
  }

  /** The net figure the recovery attributes: a round-trip fee already covers the opening. */
  function RecoveredNet(db: Db, p: nat, h: History): real
    requires p < |db.positions| && h.gross.Some?
  {
    var fee := if h.fee.None? then 0.0 else Abs(h.fee.value);
    h.gross.value - fee - if h.roundTrip then 0.0 else OpenFee(db.orders, db.positions[p])
  }

  function AbsFee(h: History): Option<real> {
    if h.fee.None? then None else Some(Abs(h.fee.value))
  }

  lemma {:induction false} UnlinkedIsUnpriced(orders: seq<Order>, p: nat)
    requires !Linked(orders, p)
    ensures !Priced(orders, p) && ClosePnl(orders, p) == 0.0 && CloseFee(orders, p) == 0.0
  {
    if orders != [] {
      var n := |orders| - 1;
      assert orders[n].closes != Some(p);
      forall i | 0 <= i < n ensures orders[..n][i].closes != Some(p) {
        assert orders[i].closes != Some(p);
      }
      UnlinkedIsUnpriced(orders[..n], p);
    }
  }

  /** The recovery's statements: the figure, and a closing order when none is linked yet. */
  function Recovery(db: Db, p: nat, h: History): Db
    requires p < |db.positions| && h.gross.Some?
  {
    var recovered := Step(db, Recover(p, RecoveredNet(db, p, h)));
    if Linked(db.orders, p) then recovered else Step(recovered, LinkedOrder(h.gross, AbsFee(h), p))
  }

  /** A closing order that the recovery creates carries the whole fee, and the next sync rolls it
      up together with the opening fee. The recovered figure survives the sync exactly when an
      order was linked already, the fee was not a round trip, or opening cost nothing; otherwise
      the opening fee is charged twice. */
  lemma RecoveredFigureSurvivesSyncIff(db: Db, p: nat, h: History)
    requires p < |db.positions| && !db.positions[p].open && db.positions[p].pnl.None? && h.gross.Some?
    requires !Priced(db.orders, p)
    requires db.positions[p].opener.Some? ==> db.positions[p].opener.value < |db.orders|
    ensures var net := RecoveredNet(db, p, h);
            var db' := Sync(Recovery(db, p, h));
            && p < |db'.positions|
            && db'.positions[p].pnl ==
                 Some(net - if h.roundTrip && !Linked(db.orders, p) then OpenFee(db.orders, db.positions[p]) else 0.0)
            && (db'.positions[p].pnl == Some(net)
                <==> Linked(db.orders, p) || !h.roundTrip || OpenFee(db.orders, db.positions[p]) == 0.0)
  {
    hide SyncStatement, Settled, Rollup, Priced, Linked;
    var recovered := Recovery(db, p, h);
    if !Linked(db.orders, p) {
      RollupOfOnlyClose(db, p, h, recovered);
    }
    SyncSettles(recovered);
  }

  lemma RollupOfOnlyClose(db: Db, p: nat, h: History, after: Db)
    requires p < |db.positions| && p < |after.positions| && h.gross.Some? && !Linked(db.orders, p)
    requires db.positions[p].opener.Some? ==> db.positions[p].opener.value < |db.orders|
    requires after.orders == db.orders + [Order(h.gross, AbsFee(h), Some(p))]
    requires after.positions[p].opener == db.positions[p].opener
    ensures Priced(after.orders, p)
    ensures Rollup(after.orders, after.positions[p], p)
         == h.gross.value - AbsFee(h).GetOr(0.0) - OpenFee(db.orders, db.positions[p])
  {
    UnlinkedIsUnpriced(db.orders, p);
    assert after.orders[..|db.orders|] == db.orders;
    assert OpenFee(after.orders, after.positions[p]) == OpenFee(db.orders, db.positions[p]);
  }
}
