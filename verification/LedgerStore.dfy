/**
 The writers of the ledger as they are written: statements against one store of rows.

 Booking an amount can breach the strategy's drawdown floor, which flattens its open legs,
 each of which books again: a cascade that ends because every nested booking follows a close.
 Every writer is proved to be a run of `Ledger` statements, so the ledger equation covers it.
 */
module LedgerStore {
  import opened Prelude
  import opened Ledger
  import opened LedgerProperties

  const DEFAULT_DRAWDOWN_PCT := 50.0

  predicate IsDrawdownBreached(allocation: real, peak: real, maxPct: real) {
    peak > 0.0 && allocation <= peak * (1.0 - maxPct / 100.0)
  }

  /** The row as the drawdown check reads it: a NULL or zero peak is the allocation itself, a
      NULL or zero limit is fifty percent. */
  predicate Breached(s: Strategy) {
    var peak := if s.peak.GetOr(0.0) == 0.0 then s.allocation else s.peak.value;
    var pct := if s.maxDrawdownPct.GetOr(0.0) == 0.0 then DEFAULT_DRAWDOWN_PCT else s.maxDrawdownPct.value;
    IsDrawdownBreached(s.allocation, peak, pct)
  }

  /** With a recorded peak and a limit, a strategy is breached exactly when its loss from that peak
      is at least the limit's share of it, the limit being half by default; without a recorded peak
      it is never breached. */
  lemma BreachedIff(s: Strategy)
    requires s.maxDrawdownPct.GetOr(0.0) >= 0.0
    ensures var pct := if s.maxDrawdownPct.None? || s.maxDrawdownPct.value == 0.0 then 50.0 else s.maxDrawdownPct.value;
            if s.peak.None? || s.peak.value == 0.0 then !Breached(s)
            else Breached(s) <==> s.peak.value > 0.0 && s.peak.value - s.allocation >= s.peak.value * pct / 100.0
  {
    var pct := if s.maxDrawdownPct.None? || s.maxDrawdownPct.value == 0.0 then 50.0 else s.maxDrawdownPct.value;
    var peak := if s.peak.None? || s.peak.value == 0.0 then s.allocation else s.peak.value;
    assert peak * (1.0 - pct / 100.0) == peak - peak * pct / 100.0;
    if peak > 0.0 { assert peak * pct > 0.0; }
  }

  function OpenLegs(positions: seq<Position>, s: nat): nat {
    if positions == [] then 0
    else
      var last := positions[|positions| - 1];
      OpenLegs(positions[..|positions| - 1], s) + if last.open && last.strategy == s then 1 else 0
  }

  lemma {:induction false} OpenLegsUpdate(positions: seq<Position>, i: nat, p: Position, s: nat)
    requires i < |positions| && p.strategy == positions[i].strategy
    ensures OpenLegs(positions[i := p], s) + (if positions[i].open && p.strategy == s then 1 else 0)
         == OpenLegs(positions, s) + (if p.open && p.strategy == s then 1 else 0)
    decreases |positions|
  {
    var n := |positions| - 1;
    var updated := positions[i := p];
    if i == n {
      assert updated[..n] == positions[..n];
    } else {
      assert updated[..n] == positions[..n][i := p];
      OpenLegsUpdate(positions[..n], i, p, s);
    }
  }

  lemma {:induction false} NoOpenLegs(positions: seq<Position>, s: nat)
    requires forall p :: 0 <= p < |positions| ==> !(positions[p].open && positions[p].strategy == s)
    ensures OpenLegs(positions, s) == 0
    decreases |positions|
  {
    if positions != [] {
      NoOpenLegs(positions[..|positions| - 1], s);
    }
  }

  predicate SameKey(a: Position, b: Position) {
    a.strategy == b.strategy && a.symbol == b.symbol && a.side == b.side
  }

  /** At most one open row per strategy, symbol and side. */
  predicate OneLegEach(positions: seq<Position>) {
    forall i, j :: 0 <= i < j < |positions| && positions[i].open && positions[j].open ==>
        !SameKey(positions[i], positions[j])
  }

  /** The statements a cascade of strategy `s` may consist of. */
  predicate CascadeOp(op: Op, s: nat) {
    op.NewOrder? || op.Close? || op.Book? || op == Disable(s)
  }

  predicate IsCascade(steps: seq<Op>, s: nat) {
    forall i :: 0 <= i < |steps| ==> CascadeOp(steps[i], s)
  }

  lemma RunNone(db: Db)
    ensures Run(db, []) == db
  {}

  lemma RunOne(db: Db, op: Op)
    ensures Run(db, [op]) == Step(db, op)
  {
    assert [op][..0] == [];
    assert Run(db, [op][..0]) == db;
  }

  lemma RunThen(db: Db, steps: seq<Op>, op: Op)
    ensures Run(db, steps + [op]) == Step(Run(db, steps), op)
  {
    assert (steps + [op])[..|steps|] == steps;
  }

  lemma CascadesConcat(a: seq<Op>, b: seq<Op>, s: nat)
    requires IsCascade(a, s) && IsCascade(b, s)
    ensures IsCascade(a + b, s)
  {}

  lemma NothingRun(db: Db, s: nat)
    ensures Run(db, []) == db && IsCascade([], s)
  {}

  /** Every open row of the strategy has its key in the list. */
  predicate AllIn(positions: seq<Position>, s: nat, keys: seq<(nat, Side)>) {
    forall p :: 0 <= p < |positions| && positions[p].open && positions[p].strategy == s ==>
      (positions[p].symbol, positions[p].side) in keys
  }

  /** What is known of an executed close: the caller's figures, or the exchange's. */
  datatype Report = Report(realized: Option<real>, fee: Option<real>, size: real)

  /** An executed close, as statements: under the given order, or under one of its own, number `n`,
      or under none when inserting that fails; a full close may set off a booking. */
  predicate CarriedOut(steps: seq<Op>, n: nat, p: nat, full: bool, report: Report, order: Option<nat>) {
    var own := if order.None? && 0 < |steps| && steps[0].NewOrder? then 1 else 0;
    var closing := if own == 1 then Some(n) else order;
    && own < |steps|
    && (own == 1 ==> steps[0] == NewOrder(report.realized, report.fee))
    && (if full then steps[own] == Close(p, report.realized, report.fee, closing)
        else |steps| == own + 1 && steps[own] == Reduce(p, report.size, closing))
  }

  class Store {
    var strategies: seq<Strategy>
    var positions: seq<Position>
    var orders: seq<Order>
    ghost var inflight: seq<Booking>
    ghost var refused: bool   // whether the exchange has refused a close so far

    ghost function Value(): Db
      reads this
    {
      Db(strategies, positions, orders, inflight)
    }

    /** What a writer leaves alone while it works for strategy `s`: the other strategies, the
        positions of the other strategies, and the number of rows of each table but orders. */
    twostate predicate Only(s: nat)
      reads this
    {
      && |strategies| == |old(strategies)| && |positions| == |old(positions)|
      && (forall t :: 0 <= t < |strategies| && t != s ==> strategies[t] == old(strategies)[t])
      && (forall p :: 0 <= p < |positions| ==>
            && SameKey(positions[p], old(positions)[p])
            && (positions[p].strategy != s ==> positions[p] == old(positions)[p])
            && (positions[p].open ==> old(positions)[p].open))
      && OpenLegs(positions, s) <= old(OpenLegs(positions, s))
      && (old(refused) ==> refused)
    }

    /** Nothing of the strategy is left open, unless the exchange refused a close. */
    twostate predicate Flat(s: nat)
      reads this
    {
      OneLegEach(old(positions)) && !refused ==> OpenLegs(positions, s) == 0
    }

    /** Book one in-flight amount, then evaluate the drawdown stop. Afterwards the strategy is
        disabled or within its floor. */
    method BookRealizedPnl(s: nat, amount: real, ghost i: nat) returns (ghost steps: seq<Op>)
      requires s < |strategies| && i < |inflight| && inflight[i] == Booking(s, amount)
      modifies this
      ensures Value() == Run(old(Value()), [Book(i)] + steps) && IsCascade(steps, s)
      ensures inflight == old(inflight)[..i] + old(inflight)[i + 1..]
      ensures Only(s)
      ensures strategies[s].enabled ==> !Breached(strategies[s])
      ensures old(strategies)[s].enabled && Breached(Booked(old(strategies)[s], amount)) ==>
                !strategies[s].enabled && Flat(s)
      decreases OpenLegs(positions, s), 5
    {
      hide Run;
      ghost var db := Value();
      var row := strategies[s];
      var mark := if row.peak.Some? then row.peak.value else row.allocation;
      strategies := strategies[s := row.(
        total := row.total + amount,
        allocation := row.allocation + amount,
        peak := Some(Max(mark, row.allocation + amount)))];
      inflight := inflight[..i] + inflight[i + 1..];
      assert Value() == Step(db, Book(i));
      RunOne(db, Book(i));
      steps := DisableIfDrawdownBreached(s);
      RunConcat(db, [Book(i)], steps);
    }

    /** An enabled strategy below its floor has its legs closed and is disabled; any other is left
        alone. */
    method DisableIfDrawdownBreached(s: nat) returns (ghost steps: seq<Op>)
      requires s < |strategies|
      modifies this
      ensures Value() == Run(old(Value()), steps) && IsCascade(steps, s)
      ensures inflight == old(inflight) && Only(s)
      ensures if old(strategies)[s].enabled && Breached(old(strategies)[s])
              then !strategies[s].enabled && Flat(s) else Value() == old(Value())
      ensures strategies[s].enabled ==> !Breached(strategies[s])
      decreases OpenLegs(positions, s), 4
    {
      steps := [];
      var row := strategies[s];
      if !row.enabled { return; }
      var peak := if row.peak.None? || row.peak.value == 0.0 then row.allocation else row.peak.value;
      var pct := if row.maxDrawdownPct.None? || row.maxDrawdownPct.value == 0.0
                 then DEFAULT_DRAWDOWN_PCT else row.maxDrawdownPct.value;
      if IsDrawdownBreached(row.allocation, peak, pct) {
        steps := FlattenStrategyPositions(s);
        ghost var db := Value();
        strategies := strategies[s := strategies[s].(enabled := false)];
        assert Value() == Step(db, Disable(s));
        RunThen(old(Value()), steps, Disable(s));
        steps := steps + [Disable(s)];
      }
    }

    /** Close every leg that is open now. A leg closed meanwhile by a nested booking is skipped. */
    method FlattenStrategyPositions(s: nat) returns (ghost steps: seq<Op>)
      requires s < |strategies|
      modifies this
      ensures Value() == Run(old(Value()), steps) && IsCascade(steps, s)
      ensures inflight == old(inflight) && Only(s) && Flat(s)
      decreases OpenLegs(positions, s), 3
    {
      hide Run, OpenLegs, IsCascade;
      var legs := OpenKeys(s);
      steps := [];
      NothingRun(Value(), s);
      for i := 0 to |legs|
        invariant Value() == Run(old(Value()), steps) && IsCascade(steps, s)
        invariant inflight == old(inflight) && Only(s)
        invariant OneLegEach(old(positions)) && !refused ==> AllIn(positions, s, legs[i..])
      {
        ghost var before := steps;
        var success, more, _ := CloseStrategyPosition(s, legs[i].0, legs[i].1, None, None, false, None, None);
        RunConcat(old(Value()), before, more);
        CascadesConcat(before, more, s);
        steps := steps + more;
        assert legs[i..][1..] == legs[i + 1..];
      }
      if OneLegEach(old(positions)) && !refused {
        NoOpenLegs(positions, s);
      }
    }

    method OpenKeys(s: nat) returns (keys: seq<(nat, Side)>)
      ensures AllIn(positions, s, keys)
    {
      keys := [];
      for i := 0 to |positions|
        invariant forall j :: 0 <= j < i && positions[j].open && positions[j].strategy == s ==>
                    (positions[j].symbol, positions[j].side) in keys
      {
        if positions[i].open && positions[i].strategy == s {
          keys := keys + [(positions[i].symbol, positions[i].side)];
        }
      }
    }

    /** Ask the exchange to close: it may refuse, and may or may not report figures. */
    method AskExchange() returns (ok: bool, realized: Option<real>, fee: Option<real>, filled: Option<real>)
      modifies this`refused
      ensures refused == (old(refused) || !ok)
    {
      ok, realized, fee, filled := *, *, *, *;
      refused := refused || !ok;
    }

    /** Give an executed close an order row of its own. */
    method InsertOrder(pnl: Option<real>, fee: Option<real>) returns (id: nat)
      modifies this`orders
      ensures id == |old(orders)| && Value() == Step(old(Value()), NewOrder(pnl, fee))
    {
      id := |orders|;
      orders := orders + [Order(pnl, fee, None)];
    }

    /** Close or reduce the open position of a strategy, symbol and side. The order row comes
        first, then the position, and after a full close with a known PnL the booking. */
    method CloseStrategyPosition(s: nat, symbol: nat, side: Side, closeSize: Option<real>, order: Option<nat>,
                                 skipExchange: bool, realizedPnl: Option<real>, closeFee: Option<real>)
      returns (success: bool, ghost steps: seq<Op>, ghost report: Report)
      requires s < |strategies|
      modifies this
      ensures Value() == Run(old(Value()), steps)
      ensures closeSize.None? ==> IsCascade(steps, s)
      ensures inflight == old(inflight) && Only(s)
      ensures !success ==> steps == []
      ensures success ==> FindOpen(old(positions), s, symbol, side).Some?
      ensures !success ==> refused || FindOpen(old(positions), s, symbol, side).None?
      ensures OneLegEach(old(positions)) && closeSize.None? && !refused ==> FindOpen(positions, s, symbol, side).None?
      ensures success && closeSize.None? ==> !positions[FindOpen(old(positions), s, symbol, side).value].open
      ensures skipExchange ==> success == FindOpen(old(positions), s, symbol, side).Some?
      ensures success ==>
                var p := FindOpen(old(positions), s, symbol, side).value;
                var size := old(positions)[p].size;
                && CarriedOut(steps, |old(orders)|, p, closeSize.None? || closeSize.value >= size, report, order)
                && (skipExchange ==> report.realized == realizedPnl && report.fee == closeFee)
                && (closeSize.Some? && closeSize.value < size ==>
                      || report.size == closeSize.value
                      || (!skipExchange && report.size <= size && (size > 0.0 ==> report.size > 0.0)))
      decreases OpenLegs(positions, s), 2
    {
      hide Run, OpenLegs, FindOpen, CarriedOut;
      success, steps, report := false, [], Report(realizedPnl, closeFee, 0.0);
      ghost var db0 := Value();
      RunNone(db0);
      var found := FindOpen(positions, s, symbol, side);
      if found.None? { return; }
      var p := found.value;
      var current := positions[p].size;
      var size := if closeSize.Some? then Min(closeSize.value, current) else current;
      var isFull := size >= current;
      var realized, fee := realizedPnl, closeFee;
      if !skipExchange {
        var ok, r, f, filled := AskExchange();
        if !ok { return; }
        realized, fee := r, f;
        if filled.Some? && !isFull && filled.value > 0.0 { size := Min(filled.value, current); }
      }
      success, report := true, Report(realized, fee, size);
      steps := RecordClose(s, p, isFull, size, realized, fee, order);
    }

    /** Write down a close that was executed: its order row, then the position. */
    method RecordClose(s: nat, p: nat, isFull: bool, size: real, realized: Option<real>, fee: Option<real>,
        order: Option<nat>)
      returns (ghost steps: seq<Op>)
      requires s < |strategies| && p < |positions| && positions[p].open && positions[p].strategy == s
      modifies this
      ensures Value() == Run(old(Value()), steps)
      ensures CarriedOut(steps, |old(orders)|, p, isFull, Report(realized, fee, size), order)
      ensures inflight == old(inflight) && Only(s)
      ensures isFull ==> IsCascade(steps, s) && !positions[p].open
      decreases OpenLegs(positions, s), 1
    {
      hide Run, Step, OpenLegs;
      ghost var db0 := Value();
      RunNone(db0);
      steps := [];
      var closing := order;
      var inserted: bool := *;
      if closing.None? && inserted {
        var id := InsertOrder(realized, fee);
        assert positions == db0.positions && strategies == db0.strategies && inflight == db0.inflight by {
          KeepsRows(db0, realized, fee);
        }
        closing := Some(id);
        RunOne(db0, NewOrder(realized, fee));
        steps := [NewOrder(realized, fee)];
      }
      if isFull {
        var more := CloseWhole(s, p, realized, fee, closing);
        RunConcat(db0, steps, more);
        steps := steps + more;
      } else {
        ReduceRow(s, p, size, closing);
        RunThen(db0, steps, Reduce(p, size, closing));
        steps := steps + [Reduce(p, size, closing)];
      }
    }

    /** The reduce transaction: the position's size and the order's link. */
    method ReduceRow(s: nat, p: nat, size: real, closing: Option<nat>)
      requires p < |positions| && positions[p].open && positions[p].strategy == s
      modifies this`positions, this`orders
      ensures Value() == Step(old(Value()), Reduce(p, size, closing)) && Only(s)
    {
      OpenLegsUpdate(positions, p, positions[p].(size := positions[p].size - size), s);
      positions := positions[p := positions[p].(size := positions[p].size - size)];
      orders := LinkOrder(orders, closing, p);
    }

    /** The full-close transaction: the position's status and PnL and the order's link. */
    method CloseRow(s: nat, p: nat, realized: Option<real>, fee: Option<real>, closing: Option<nat>)
      returns (net: Option<real>)
      requires p < |positions| && positions[p].open && positions[p].strategy == s
      modifies this`positions, this`orders, this`inflight
      ensures Value() == Step(old(Value()), Close(p, realized, fee, closing)) && Only(s)
      ensures !positions[p].open && OpenLegs(positions, s) < old(OpenLegs(positions, s))
      ensures inflight == old(inflight) + if net.Some? then [Booking(s, net.value)] else []
    {
      hide OpenFee, OpenLegs, LinkOrder;
      net := if realized.None? then None
             else Some(realized.value - OpenFee(orders, positions[p]) - fee.GetOr(0.0));
      var closed := positions[p].(open := false, pnl := if net.Some? then net else positions[p].pnl);
      OpenLegsUpdate(positions, p, closed, s);
      positions := positions[p := closed];
      orders := LinkOrder(orders, closing, p);
      inflight := inflight + if net.Some? then [Booking(s, net.value)] else [];
    }

    /** A full close and the booking that follows it. */
    method CloseWhole(s: nat, p: nat, realized: Option<real>, fee: Option<real>, closing: Option<nat>)
      returns (ghost steps: seq<Op>)
      requires s < |strategies| && p < |positions| && positions[p].open && positions[p].strategy == s
      modifies this
      ensures Value() == Run(old(Value()), steps) && IsCascade(steps, s)
      ensures 0 < |steps| && steps[0] == Close(p, realized, fee, closing)
      ensures inflight == old(inflight) && Only(s) && !positions[p].open
      decreases OpenLegs(positions, s), 0
    {
      hide Run, Step;
      ghost var db := Value();
      var net := CloseRow(s, p, realized, fee, closing);
      steps := [Close(p, realized, fee, closing)];
      RunOne(db, steps[0]);
      if net.Some? {
        ghost var last := |inflight| - 1;
        var more := BookRealizedPnl(s, net.value, last);
        RunConcat(db, steps, [Book(last)] + more);
        steps := steps + ([Book(last)] + more);
      }
    }

    // -------------------------------------------------------------------------------
    // Fills
    // -------------------------------------------------------------------------------

    /** Top up the open leg, or create it with a NULL PnL. */
    method ApplyPositionFill(s: nat, symbol: nat, side: Side, size: real, price: real, opener: nat)
      requires size > 0.0
      requires forall i :: 0 <= i < |positions| && positions[i].open ==> positions[i].size >= 0.0
      modifies this`positions
      ensures Value() == Step(old(Value()), Fill(s, symbol, side, size, price, opener))
      ensures forall i :: 0 <= i < |positions| && positions[i].open ==> positions[i].size >= 0.0
    {
      var found := FindOpen(positions, s, symbol, side);
      if found.Some? {
        var p := positions[found.value];
        positions := positions[found.value := p.(size := p.size + size, entry := BlendedEntry(p, size, price))];
      } else {
        positions := positions + [Position(s, symbol, side, true, size, price, None, Some(opener))];
      }
    }

    // -------------------------------------------------------------------------------
    // The sync
    // -------------------------------------------------------------------------------

    /** One UPDATE ... RETURNING over all positions. */
    method SyncRows(first: bool) returns (changed: seq<Booking>)
      modifies this`positions, this`inflight
      ensures Value() == SyncStatement(old(Value()), first)
      ensures changed == SyncBookings(old(Value()), first, |old(positions)|)
    {
      hide Rollup, Priced;
      ghost var db := Value();
      changed := [];
      var rows := positions;
      for i := 0 to |positions|
        invariant |rows| == |positions| && rows[i..] == positions[i..]
        invariant forall j :: 0 <= j < i ==> rows[j] == positions[j].(pnl := SyncedPnl(orders, positions[j], j, first))
        invariant changed == SyncBookings(db, first, i)
      {
        var next := SyncedPnl(orders, positions[i], i, first);
        if next != positions[i].pnl {
          changed := changed + [Booking(positions[i].strategy, next.GetOr(0.0) - positions[i].pnl.GetOr(0.0))];
        }
        rows := rows[i := positions[i].(pnl := next)];
      }
      positions := rows;
      inflight := inflight + changed;
      assert positions == SyncStatement(db, first).positions;
    }

    predicate OwnersExist()
      reads this
    {
      forall p :: 0 <= p < |positions| ==> positions[p].strategy < |strategies|
    }

    lemma {:induction false} BookingsHaveOwners(db: Db, first: bool, n: nat)
      requires n <= |db.positions| && forall p :: 0 <= p < |db.positions| ==> db.positions[p].strategy < |db.strategies|
      ensures forall b :: b in SyncBookings(db, first, n) ==> b.strategy < |db.strategies|
    {
      hide SyncedPnl;
      if n > 0 {
        BookingsHaveOwners(db, first, n - 1);
      }
    }

    /** Both statements first, the bookings after, each with whatever cascade it sets off. */
    method SyncPositionPnl() returns (ghost steps: seq<Op>)
      requires OwnersExist() && inflight == []
      modifies this
      ensures Value() == Run(old(Value()), [SyncFirst, SyncCorrect] + steps)
      ensures inflight == [] && OwnersExist()
    {
      hide Run, Step;
      ghost var db := Value();
      var due := SyncStatements();
      steps := BookAll(due);
      RunConcat(db, [SyncFirst, SyncCorrect], steps);
    }

    /** The two statements of a sync; returns what they have put in flight. */
    method SyncStatements() returns (due: seq<Booking>)
      requires OwnersExist() && inflight == []
      modifies this
      ensures Value() == Run(old(Value()), [SyncFirst, SyncCorrect])
      ensures inflight == due && OwnersExist()
      ensures forall b :: b in due ==> b.strategy < |strategies|
    {
      hide Run, SyncStatement, SyncBookings;
      ghost var db := Value();
      BookingsHaveOwners(db, true, |positions|);
      SyncKeepsRows(db, true);
      var newly := SyncRows(true);
      ghost var db1 := Value();
      BookingsHaveOwners(db1, false, |positions|);
      SyncKeepsRows(db1, false);
      var corrected := SyncRows(false);
      TwoStatements(db);
      due := newly + corrected;
    }

    lemma TwoStatements(db: Db)
      ensures Run(db, [SyncFirst, SyncCorrect]) == SyncStatement(SyncStatement(db, true), false)
    {
      hide SyncStatement;
      RunOne(db, SyncFirst);
      RunThen(db, [SyncFirst], SyncCorrect);
      assert [SyncFirst] + [SyncCorrect] == [SyncFirst, SyncCorrect];
    }

    /** Book what a sync has put in flight, oldest first. */
    method BookAll(due: seq<Booking>) returns (ghost steps: seq<Op>)
      requires OwnersExist() && inflight == due
      requires forall b :: b in due ==> b.strategy < |strategies|
      modifies this
      ensures Value() == Run(old(Value()), steps)
      ensures inflight == [] && OwnersExist()
    {
      hide Run;
      ghost var db := Value();
      steps := [];
      RunNone(db);
      for i := 0 to |due|
        invariant |strategies| == |db.strategies| && OwnersExist()
        invariant inflight == due[i..]
        invariant Value() == Run(db, steps)
      {
        assert due[i] in due;
        var more := BookRealizedPnl(due[i].strategy, due[i].amount, 0);
        RunConcat(db, steps, [Book(0)] + more);
        steps := steps + ([Book(0)] + more);
      }
    }

    lemma SyncKeepsRows(db: Db, first: bool)
      ensures var db' := SyncStatement(db, first);
              && db'.strategies == db.strategies && |db'.positions| == |db.positions|
              && db'.inflight == db.inflight + SyncBookings(db, first, |db.positions|)
              && forall p :: 0 <= p < |db.positions| ==> db'.positions[p].strategy == db.positions[p].strategy
    {}

    // -------------------------------------------------------------------------------
    // The reconciler's writers
    // -------------------------------------------------------------------------------

    /** A position found gone: the synthetic order, the close, and the booking. */
    method HandleFullExternalClose(s: nat, symbol: nat, side: Side, h: History) returns (ghost steps: seq<Op>)
      requires s < |strategies| && FindOpen(positions, s, symbol, side).Some?
      modifies this
      ensures var p := FindOpen(old(positions), s, symbol, side).value;
              && Value() == Run(old(Value()), ExternalClose(old(Value()), p, h) + steps)
              && p < |positions| && !positions[p].open
      ensures IsCascade(steps, s) && inflight == old(inflight) && Only(s)
    {
      hide Run, Step;
      ghost var db := Value();
      var p := FindOpen(positions, s, symbol, side).value;
      var pnl := if h.gross.None? then None else Some(h.gross.value - ClosePnl(orders, p));
      var fee := None;
      if h.fee.Some? {
        var total := Abs(h.fee.value);
        var legs := if h.roundTrip then total - OpenFee(orders, positions[p]) else total;
        fee := Some(Max(legs - CloseFee(orders, p), 0.0));
      }
      assert pnl == RemainingPnl(db, p, h) && fee == RemainingFee(db, p, h);
      var id := InsertOrder(pnl, fee);
      assert positions == db.positions && strategies == db.strategies && inflight == db.inflight by {
        KeepsRows(db, pnl, fee);
      }
      RunOne(db, NewOrder(pnl, fee));
      var closeFee := if h.gross.None? then None else fee;
      var success, all, _ := CloseStrategyPosition(s, symbol, side, None, Some(id), true, pnl, closeFee);
      RunConcat(db, [NewOrder(pnl, fee)], all);
      steps := all[1..];
      assert [NewOrder(pnl, fee)] + all == ExternalClose(db, p, h) + steps;
    }

    lemma KeepsRows(db: Db, pnl: Option<real>, fee: Option<real>)
      ensures var db' := Step(db, NewOrder(pnl, fee));
              db'.positions == db.positions && db'.strategies == db.strategies && db'.inflight == db.inflight
    {}

    /** A closed position still without a PnL: attribute the history's figure, book it, and
        create a closing order when the position has none. */
    method RecoverManualClosePnl(p: nat, h: History) returns (ghost steps: seq<Op>)
      requires p < |positions| && positions[p].strategy < |strategies| && h.gross.Some?
      requires !positions[p].open && positions[p].pnl.None? && !Priced(orders, p)
      modifies this
      ensures IsCascade(steps, old(positions)[p].strategy) && inflight == old(inflight)
      ensures var recovered := [Recover(p, RecoveredNet(old(Value()), p, h)), Book(|old(inflight)|)];
              var booked := Run(old(Value()), recovered + steps);
              Value() == if Linked(booked.orders, p) then booked else Step(booked, LinkedOrder(h.gross, AbsFee(h), p))
    {
      hide Run;
      ghost var db := Value();
      var s := positions[p].strategy;
      var fee := if h.fee.None? then None else Some(Abs(h.fee.value));
      var net := h.gross.value - fee.GetOr(0.0) - if h.roundTrip then 0.0 else OpenFee(orders, positions[p]);
      assert net == RecoveredNet(db, p, h);
      positions := positions[p := positions[p].(pnl := Some(net))];
      inflight := inflight + [Booking(s, net)];
      assert Value() == Step(db, Recover(p, net));
      RunOne(db, Recover(p, net));
      ghost var last := |inflight| - 1;
      steps := BookRealizedPnl(s, net, last);
      RunConcat(db, [Recover(p, net)], [Book(last)] + steps);
      assert [Recover(p, net)] + ([Book(last)] + steps) == [Recover(p, net), Book(last)] + steps;
      if !Linked(orders, p) {
        orders := orders + [Order(h.gross, fee, Some(p))];
      }
    }

    /** A flip the exchange netted with no leg of ours to close: booked directly. */
    method BookFlip(s: nat, amount: real) returns (ghost steps: seq<Op>)
      requires s < |strategies|
      modifies this
      ensures Value() == Run(old(Value()), [Flip(s, amount), Book(|old(inflight)|)] + steps) && IsCascade(steps, s)
      ensures inflight == old(inflight) && Only(s)
    {
      hide Run;
      ghost var db := Value();
      inflight := inflight + [Booking(s, amount)];
      assert Value() == Step(db, Flip(s, amount));
      RunOne(db, Flip(s, amount));
      ghost var last := |inflight| - 1;
      steps := BookRealizedPnl(s, amount, last);
      RunConcat(db, [Flip(s, amount)], [Book(last)] + steps);
      assert [Flip(s, amount)] + ([Book(last)] + steps) == [Flip(s, amount), Book(last)] + steps;
    }
  }
}
