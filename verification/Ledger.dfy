/**
 The position and PnL ledger (order-listener/app/webhook_handler.py and
 order-listener/app/reconciler.py).

 Four writers touch the same totals: fills, closes, the PnL sync and the history recovery.
 Each changes position rows in one statement and books the amount into the strategy in a
 later one. A database step here is ONE such statement, so a run of steps covers every
 interleaving of the writers. An amount that has been put on a position and not yet booked
 into its strategy is in flight.

 Rows are addressed by their index: rows are appended and never deleted.
 */
module Ledger {
  import opened Prelude

  datatype Side = Long | Short

  /** `peak` and `maxDrawdownPct` are nullable columns. */
  datatype Strategy = Strategy(
    total: real, allocation: real, peak: Option<real>, maxDrawdownPct: Option<real>, enabled: bool)

  /** `pnl` is NULL until it is first attributed. `opener` is the opening order. */
  datatype Position = Position(
    strategy: nat, symbol: nat, side: Side, open: bool,
    size: real, entry: real, pnl: Option<real>, opener: Option<nat>)

  /** `closes` links a closing order to its position. */
  datatype Order = Order(pnl: Option<real>, fee: Option<real>, closes: Option<nat>)

  datatype Booking = Booking(strategy: nat, amount: real)

  datatype Db = Db(
    strategies: seq<Strategy>, positions: seq<Position>, orders: seq<Order>, inflight: seq<Booking>)

  // ---------------------------------------------------------------------------------
  // Reading the rows
  // ---------------------------------------------------------------------------------

  predicate IsPriced(o: Order, p: nat) {
    o.closes == Some(p) && o.pnl.Some?
  }

  /** Some closing order of the position carries a PnL. */
  function Priced(orders: seq<Order>, p: nat): bool {
    orders != [] && (IsPriced(orders[|orders| - 1], p) || Priced(orders[..|orders| - 1], p))
  }

  function ClosePnl(orders: seq<Order>, p: nat): real {
    if orders == [] then 0.0
    else
      var last := orders[|orders| - 1];
      ClosePnl(orders[..|orders| - 1], p) + if IsPriced(last, p) then last.pnl.value else 0.0
  }

  /** Fees of the closing orders that carry a PnL. */
  function CloseFee(orders: seq<Order>, p: nat): real {
    if orders == [] then 0.0
    else
      var last := orders[|orders| - 1];
      CloseFee(orders[..|orders| - 1], p) + if IsPriced(last, p) then last.fee.GetOr(0.0) else 0.0
  }

  function OpenFee(orders: seq<Order>, position: Position): real {
    if position.opener.Some? && position.opener.value < |orders|
    then orders[position.opener.value].fee.GetOr(0.0)
    else 0.0
  }

  /** What the sync attributes to a position: gross of its closes, less their fees, less the
      fee of its opening order. */
  function Rollup(orders: seq<Order>, position: Position, p: nat): real {
    ClosePnl(orders, p) - CloseFee(orders, p) - OpenFee(orders, position)
  }

  /** The open position of a strategy, symbol and side, of which there is at most one. */
  function FindOpen(positions: seq<Position>, strategy: nat, symbol: nat, side: Side): (found: Option<nat>)
    ensures found.Some? ==>
      && found.value < |positions| && positions[found.value].open
      && positions[found.value].strategy == strategy && positions[found.value].symbol == symbol
      && positions[found.value].side == side
    ensures found.None? ==> forall i :: 0 <= i < |positions| && positions[i].open ==>
      !(positions[i].strategy == strategy && positions[i].symbol == symbol && positions[i].side == side)
  {
    if positions == [] then None
    else
      var n := |positions| - 1;
      var last := positions[n];
      if last.open && last.strategy == strategy && last.symbol == symbol && last.side == side then Some(n)
      else FindOpen(positions[..n], strategy, symbol, side)
  }

  // ---------------------------------------------------------------------------------
  // Statements
  // ---------------------------------------------------------------------------------

  datatype Op =
    | Fill(strategy: nat, symbol: nat, side: Side, size: real, price: real, opener: nat)
    | NewOrder(pnl: Option<real>, fee: Option<real>)
    | LinkedOrder(pnl: Option<real>, fee: Option<real>, position: nat)
    | SetOrder(row: nat, pnl: Option<real>, fee: Option<real>)
    | Reduce(position: nat, size: real, order: Option<nat>)
    | Close(position: nat, gross: Option<real>, fee: Option<real>, order: Option<nat>)
    | SyncFirst
    | SyncCorrect
    | Recover(position: nat, net: real)
    | Flip(strategy: nat, amount: real)
    | Book(index: nat)
    | Disable(strategy: nat)

  function LinkOrder(orders: seq<Order>, order: Option<nat>, p: nat): seq<Order> {
    if order.Some? && order.value < |orders|
    then orders[order.value := orders[order.value].(closes := Some(p))]
    else orders
  }

  /** The position-level figure of a full close: net of both legs' fees. */
  function NetOfClose(db: Db, p: nat, gross: Option<real>, fee: Option<real>): Option<real>
    requires p < |db.positions|
  {
    if gross.None? then None
    else Some(gross.value - OpenFee(db.orders, db.positions[p]) - fee.GetOr(0.0))
  }

  /** What one sync statement makes of one row, and what it then owes the strategy. */
  function SyncedPnl(orders: seq<Order>, position: Position, p: nat, first: bool): Option<real> {
    if Priced(orders, p) && position.pnl.None? == first then Some(Rollup(orders, position, p))
    else position.pnl
  }

  /** The bookings of a sync statement, in row order: the change of every row it changes. */
  function SyncBookings(db: Db, first: bool, n: nat): seq<Booking>
    requires n <= |db.positions|
  {
    if n == 0 then []
    else
      var position := db.positions[n - 1];
      var next := SyncedPnl(db.orders, position, n - 1, first);
      SyncBookings(db, first, n - 1)
      + if next == position.pnl then []
        else [Booking(position.strategy, next.GetOr(0.0) - position.pnl.GetOr(0.0))]
  }

  function SyncStatement(db: Db, first: bool): Db {
    db.(positions := seq(|db.positions|, i requires 0 <= i < |db.positions| =>
          db.positions[i].(pnl := SyncedPnl(db.orders, db.positions[i], i, first))),
        inflight := db.inflight + SyncBookings(db, first, |db.positions|))
  }

  /** The size-weighted mean entry of a topped-up position. */
  function BlendedEntry(p: Position, size: real, price: real): real
    requires p.size + size != 0.0
  {
    (p.entry * p.size + price * size) / (p.size + size)
  }

  function ToppedUp(p: Position, size: real, price: real): (r: Position)
    requires p.size + size != 0.0
    ensures r.strategy == p.strategy && r.pnl == p.pnl && r.open == p.open
  {
    p.(size := p.size + size, entry := BlendedEntry(p, size, price))
  }

  function Booked(s: Strategy, amount: real): Strategy {
    s.(total := s.total + amount,
       allocation := s.allocation + amount,
       peak := Some(Max(s.peak.GetOr(s.allocation), s.allocation + amount)))
  }

  /** One statement. A statement whose row does not exist, or is not in the state its WHERE
      clause asks for, changes nothing. */
  function Step(db: Db, op: Op): Db {
    match op
    case Fill(strategy, symbol, side, size, price, opener) =>
      var found := FindOpen(db.positions, strategy, symbol, side);
      if found.Some? then
        var p := db.positions[found.value];
        if p.size + size == 0.0 then db
        else db.(positions := db.positions[found.value := ToppedUp(p, size, price)])
      else
        db.(positions := db.positions + [Position(strategy, symbol, side, true, size, price, None, Some(opener))])
    case NewOrder(pnl, fee) => db.(orders := db.orders + [Order(pnl, fee, None)])
    case LinkedOrder(pnl, fee, p) => db.(orders := db.orders + [Order(pnl, fee, Some(p))])
    case SetOrder(row, pnl, fee) =>
      if row < |db.orders|
      then db.(orders := db.orders[row := db.orders[row].(pnl := pnl, fee := fee)])
      else db
    case Reduce(p, size, order) =>
      if p < |db.positions| && db.positions[p].open
      then db.(positions := db.positions[p := db.positions[p].(size := db.positions[p].size - size)],
               orders := LinkOrder(db.orders, order, p))
      else db
    case Close(p, gross, fee, order) =>
      if p < |db.positions| && db.positions[p].open then
        var net := NetOfClose(db, p, gross, fee);
        db.(positions := db.positions[p := db.positions[p].(
              open := false, pnl := if net.Some? then net else db.positions[p].pnl)],
            orders := LinkOrder(db.orders, order, p),
            inflight := db.inflight
              + if net.Some? then [Booking(db.positions[p].strategy, net.value)] else [])
      else db
    case SyncFirst => SyncStatement(db, true)
    case SyncCorrect => SyncStatement(db, false)
    case Recover(p, net) =>
      if p < |db.positions| && !db.positions[p].open && db.positions[p].pnl.None?
      then db.(positions := db.positions[p := db.positions[p].(pnl := Some(net))],
               inflight := db.inflight + [Booking(db.positions[p].strategy, net)])
      else db
    case Flip(strategy, amount) => db.(inflight := db.inflight + [Booking(strategy, amount)])
    case Book(i) =>
      if i < |db.inflight| && db.inflight[i].strategy < |db.strategies| then
        var b := db.inflight[i];
        db.(strategies := db.strategies[b.strategy := Booked(db.strategies[b.strategy], b.amount)],
            inflight := db.inflight[..i] + db.inflight[i + 1..])
      else db
    case Disable(strategy) =>
      if strategy < |db.strategies|
      then db.(strategies := db.strategies[strategy := db.strategies[strategy].(enabled := false)])
      else db
  }

  function Run(db: Db, ops: seq<Op>): Db
    decreases |ops|
  {
    if ops == [] then db else Step(Run(db, ops[..|ops| - 1]), ops[|ops| - 1])
  }

  lemma {:induction false} RunConcat(db: Db, a: seq<Op>, b: seq<Op>)
    ensures Run(db, a + b) == Run(Run(db, a), b)
    decreases |b|
  {
    hide Step;
    if b == [] {
      assert a + b == a;
    } else {
      var ab, n := a + b, |b| - 1;
      assert ab[..|ab| - 1] == a + b[..n] && ab[|ab| - 1] == b[n];
      RunConcat(db, a, b[..n]);
    }
  }

  // ---------------------------------------------------------------------------------
  // The ledger equation
  // ---------------------------------------------------------------------------------

  function PositionPnl(positions: seq<Position>, s: nat): real {
    if positions == [] then 0.0
    else
      var last := positions[|positions| - 1];
      PositionPnl(positions[..|positions| - 1], s) + if last.strategy == s then last.pnl.GetOr(0.0) else 0.0
  }

  function InFlight(bookings: seq<Booking>, s: nat): real {
    if bookings == [] then 0.0
    else
      var last := bookings[|bookings| - 1];
      InFlight(bookings[..|bookings| - 1], s) + if last.strategy == s then last.amount else 0.0
  }

  /** What a strategy has booked, or is about to book, beyond what its positions realized. */
  function Excess(db: Db, s: nat): real
    requires s < |db.strategies|
  {
    db.strategies[s].total + InFlight(db.inflight, s) - PositionPnl(db.positions, s)
  }

  /** The amount by which a statement moves the excess: a direct flip booking moves it by its
      amount, and a full close that meets an already attributed PnL moves it by that PnL.
      Nothing else moves it. */
  function Drift(db: Db, op: Op, s: nat): real {
    match op
    case Flip(strategy, amount) => if strategy == s then amount else 0.0
    case Close(p, gross, fee, order) =>
      if p < |db.positions| && db.positions[p].open && db.positions[p].strategy == s && gross.Some?
      then db.positions[p].pnl.GetOr(0.0)
      else 0.0
    case _ => 0.0
  }

  function RunDrift(db: Db, ops: seq<Op>, s: nat): real
    decreases |ops|
  {
    if ops == [] then 0.0
    else
      var n := |ops| - 1;
      RunDrift(db, ops[..n], s) + Drift(Run(db, ops[..n]), ops[n], s)
  }

  lemma {:induction false} PositionPnlUpdate(positions: seq<Position>, i: nat, p: Position, s: nat)
    requires i < |positions| && p.strategy == positions[i].strategy
    ensures PositionPnl(positions[i := p], s) == PositionPnl(positions, s)
              + if p.strategy == s then p.pnl.GetOr(0.0) - positions[i].pnl.GetOr(0.0) else 0.0
    decreases |positions|
  {
    var n := |positions| - 1;
    var updated := positions[i := p];
    if i == n {
      assert updated[..n] == positions[..n];
    } else {
      assert updated[..n] == positions[..n][i := p];
      PositionPnlUpdate(positions[..n], i, p, s);
    }
  }

  lemma {:induction false} InFlightConcat(a: seq<Booking>, b: seq<Booking>, s: nat)
    ensures InFlight(a + b, s) == InFlight(a, s) + InFlight(b, s)
    decreases |b|
  {
    if b == [] {
      assert a + b == a;
    } else {
      var ab, n := a + b, |b| - 1;
      assert ab[..|ab| - 1] == a + b[..n];
      InFlightConcat(a, b[..n], s);
    }
  }

  lemma InFlightOne(a: seq<Booking>, b: Booking, s: nat)
    ensures InFlight(a + [b], s) == InFlight(a, s) + if b.strategy == s then b.amount else 0.0
  {
    assert (a + [b])[..|a|] == a;
  }

  lemma {:induction false} InFlightRemove(a: seq<Booking>, i: nat, s: nat)
    requires i < |a|
    ensures InFlight(a[..i] + a[i + 1..], s) == InFlight(a, s) - if a[i].strategy == s then a[i].amount else 0.0
  {
    hide InFlight;
    InFlightConcat(a[..i], a[i + 1..], s);
    InFlightOne(a[..i], a[i], s);
    assert a == a[..i] + [a[i]] + a[i + 1..];
    InFlightConcat(a[..i] + [a[i]], a[i + 1..], s);
  }

  lemma PositionPnlTake(positions: seq<Position>, n: nat, s: nat)
    requires 0 < n <= |positions|
    ensures PositionPnl(positions[..n], s) ==
              PositionPnl(positions[..n - 1], s)
                  + (if positions[n - 1].strategy == s then positions[n - 1].pnl.GetOr(0.0) else 0.0)
  {
    assert positions[..n][..n - 1] == positions[..n - 1];
  }

  lemma SyncBookingsStep(db: Db, first: bool, n: nat, s: nat)
    requires 0 < n <= |db.positions|
    ensures var before, after := db.positions[n - 1], SyncStatement(db, first).positions[n - 1];
            && after == before.(pnl := after.pnl)
            && InFlight(SyncBookings(db, first, n), s) == InFlight(SyncBookings(db, first, n - 1), s) +
                 (if before.strategy == s then after.pnl.GetOr(0.0) - before.pnl.GetOr(0.0) else 0.0)
  {
    hide SyncedPnl, InFlight;
    var before := db.positions[n - 1];
    var next := SyncedPnl(db.orders, before, n - 1, first);
    if next != before.pnl {
      InFlightOne(SyncBookings(db, first, n - 1), Booking(before.strategy, next.GetOr(0.0) - before.pnl.GetOr(0.0)), s);
    } else {
      assert SyncBookings(db, first, n) == SyncBookings(db, first, n - 1);
    }
  }

  /** A sync statement puts in flight exactly what it adds to the positions. */
  lemma {:induction false} SyncIsBalanced(db: Db, first: bool, n: nat, s: nat)
    requires n <= |db.positions|
    ensures InFlight(SyncBookings(db, first, n), s)
         == PositionPnl(SyncStatement(db, first).positions[..n], s) - PositionPnl(db.positions[..n], s)
  {
    if n == 0 {
      assert SyncStatement(db, first).positions[..0] == [] && db.positions[..0] == [];
    } else {
      hide SyncedPnl, InFlight, PositionPnl, SyncBookings;
      SyncIsBalanced(db, first, n - 1, s);
      PositionPnlTake(SyncStatement(db, first).positions, n, s);
      PositionPnlTake(db.positions, n, s);
      SyncBookingsStep(db, first, n, s);
    }
  }

  lemma StepKeepsStrategies(db: Db, op: Op)
    ensures |Step(db, op).strategies| == |db.strategies|
  {}

  /** One statement moves the excess of a strategy by its drift and by nothing else. */
  lemma StepMovesExcessByDrift(db: Db, op: Op, s: nat)
    requires s < |db.strategies|
    ensures |Step(db, op).strategies| == |db.strategies|
    ensures Excess(Step(db, op), s) == Excess(db, s) + Drift(db, op, s)
  {
    StepKeepsStrategies(db, op);
    match op
    case Fill(_, _, _, _, _, _) => FillKeepsExcess(db, op, s);
    case Reduce(_, _, _) => ReduceKeepsExcess(db, op, s);
    case Close(p, gross, fee, order) => CloseMovesExcess(db, p, gross, fee, order, s);
    case SyncFirst => SyncKeepsExcess(db, true, s);
    case SyncCorrect => SyncKeepsExcess(db, false, s);
    case Recover(_, _) => RecoverKeepsExcess(db, op, s);
    case Flip(strategy, amount) => InFlightOne(db.inflight, Booking(strategy, amount), s);
    case Book(i) => BookKeepsExcess(db, i, s);
    case NewOrder(_, _) =>
    case LinkedOrder(_, _, _) =>
    case SetOrder(_, _, _) =>
    case Disable(_) =>
  }

  lemma FillKeepsExcess(db: Db, op: Op, s: nat)
    requires s < |db.strategies| && op.Fill?
    ensures Excess(Step(db, op), s) == Excess(db, s)
  {
    hide ToppedUp;
    var found := FindOpen(db.positions, op.strategy, op.symbol, op.side);
    if found.Some? {
      var p := db.positions[found.value];
      if p.size + op.size != 0.0 {
        PositionPnlUpdate(db.positions, found.value, ToppedUp(p, op.size, op.price), s);
      }
    } else {
      assert Step(db, op).positions[..|db.positions|] == db.positions;
    }
  }

  lemma ReduceKeepsExcess(db: Db, op: Op, s: nat)
    requires s < |db.strategies| && op.Reduce?
    ensures Excess(Step(db, op), s) == Excess(db, s)
  {
    var p := op.position;
    if p < |db.positions| && db.positions[p].open {
      PositionPnlUpdate(db.positions, p, Step(db, op).positions[p], s);
    }
  }

  lemma RecoverKeepsExcess(db: Db, op: Op, s: nat)
    requires s < |db.strategies| && op.Recover?
    ensures Excess(Step(db, op), s) == Excess(db, s)
  {
    var p := op.position;
    if p < |db.positions| && !db.positions[p].open && db.positions[p].pnl.None? {
      PositionPnlUpdate(db.positions, p, Step(db, op).positions[p], s);
      InFlightOne(db.inflight, Booking(db.positions[p].strategy, op.net), s);
    }
  }

  lemma BookKeepsExcess(db: Db, i: nat, s: nat)
    requires s < |db.strategies|
    ensures Excess(Step(db, Book(i)), s) == Excess(db, s)
  {
    if i < |db.inflight| { InFlightRemove(db.inflight, i, s); }
  }

  lemma SyncKeepsExcess(db: Db, first: bool, s: nat)
    requires s < |db.strategies|
    ensures Excess(SyncStatement(db, first), s) == Excess(db, s)
  {
    var n := |db.positions|;
    SyncIsBalanced(db, first, n, s);
    InFlightConcat(db.inflight, SyncBookings(db, first, n), s);
    var after := SyncStatement(db, first).positions;
    assert after[..n] == after && db.positions[..n] == db.positions;
  }

  lemma CloseMovesExcess(db: Db, p: nat, gross: Option<real>, fee: Option<real>, order: Option<nat>, s: nat)
    requires s < |db.strategies|
    ensures Excess(Step(db, Close(p, gross, fee, order)), s)
         == Excess(db, s) + Drift(db, Close(p, gross, fee, order), s)
  {
    hide OpenFee;
    if p < |db.positions| && db.positions[p].open {
      var after := Step(db, Close(p, gross, fee, order));
      PositionPnlUpdate(db.positions, p, after.positions[p], s);
      var net := NetOfClose(db, p, gross, fee);
      if net.Some? {
        InFlightOne(db.inflight, Booking(db.positions[p].strategy, net.value), s);
      } else {
        assert after.inflight == db.inflight;
      }
    }
  }

  /** The ledger equation, over every interleaving of the writers: what a strategy's total has
      moved by, plus what is in flight, is what its positions' realized PnL has moved by, plus
      the direct flip bookings, plus the PnL met by every full close that did not find NULL. */
  lemma {:induction false} LedgerEquation(db: Db, ops: seq<Op>, s: nat)
    requires s < |db.strategies|
    ensures |Run(db, ops).strategies| == |db.strategies|
    ensures Excess(Run(db, ops), s) == Excess(db, s) + RunDrift(db, ops, s)
    decreases |ops|
  {
    hide Step, Excess, Drift;
    if ops != [] {
      var n := |ops| - 1;
      LedgerEquation(db, ops[..n], s);
      StepMovesExcessByDrift(Run(db, ops[..n]), ops[n], s);
    }
  }
}
