/**
 Attribution of exchange size to resting limit orders (order-listener/app/reconciler.py,
 _reconcile_pending_orders) and the position top-up it feeds
 (order-listener/app/webhook_handler.py, _apply_position_fill).

 One pass walks the pending orders oldest first. An order that has left the exchange's open
 orders claims what the live position holds beyond the database's own, up to its size; if
 there is nothing to claim within tolerance it is cancelled. Sizes and prices are exact.
 */
module PendingFills {
  import opened Prelude

  const SIZE_EPSILON_ABS := 0.000001
  const SIZE_EPSILON_REL := 0.005

  datatype Side = Long | Short

  /** The database keeps one open position per strategy, symbol and side; the exchange one per
      symbol and side. */
  datatype Key = Key(strategy: nat, symbol: nat, side: Side)

  datatype ExchangeKey = ExchangeKey(symbol: nat, side: Side)

  datatype Position = Position(size: real, entry: real)

  /** A pending order. `resting` covers the two cases the pass leaves alone: still listed as
      open on the exchange, or never given an exchange id. */
  datatype Order = Order(id: nat, key: Key, size: real, price: Option<real>, resting: bool)

  datatype Status = Filled(size: real, price: real) | Cancelled

  datatype Book = Book(positions: map<Key, Position>, statuses: map<nat, Status>)
  {
    function At(k: Key): Position {
      if k in positions then positions[k] else Position(0.0, 0.0)
    }

    /** Size times entry: what the position cost. */
    function Cost(k: Key): real {
      At(k).entry * At(k).size
    }

    predicate Valid() {
      forall k :: k in positions ==> positions[k].size >= 0.0
    }
  }

  type LiveMap = map<ExchangeKey, Position>

  function LiveAt(live: LiveMap, k: Key): Position {
    var e := ExchangeKey(k.symbol, k.side);
    if e in live then live[e] else Position(0.0, 0.0)
  }

  function Tolerance(size: real): real {
    Max(SIZE_EPSILON_ABS, size * SIZE_EPSILON_REL)
  }

  /** The fill price of an order: the reported one, else the order's own, else zero. A reported
      price of exactly zero counts as not reported. */
  function FillPrice(reported: real, o: Order): real {
    if reported != 0.0 then reported else o.price.GetOr(0.0)
  }

  /** The entry of a topped-up position: the size-weighted mean. */
  function BlendedEntry(old_: Position, size: real, price: real): real
    requires old_.size + size > 0.0
  {
    (old_.entry * old_.size + price * size) / (old_.size + size)
  }

  /** Top up the open position or create it. */
  function ApplyFill(b: Book, o: Order, size: real, reported: real): Book
    requires b.Valid() && size > 0.0
  {
    var price := FillPrice(reported, o);
    var p :=
      if o.key in b.positions then
        var old_ := b.positions[o.key];
        Position(old_.size + size, BlendedEntry(old_, size, price))
      else Position(size, price);
    b.(positions := b.positions[o.key := p])
  }

  /** What an order claims from the residual; zero when it claims nothing. */
  function Claim(b: Book, o: Order, live: LiveMap): (size: real)
    requires o.size > 0.0
    ensures 0.0 <= size <= o.size
  {
    var available := LiveAt(live, o.key).size - b.At(o.key).size;
    if !o.resting && available > Tolerance(o.size) then Min(o.size, available) else 0.0
  }

  /** The price of a fill of `size`, solved back from the exchange's blended entry. */
  function SolveBack(live: Position, held: Position, size: real): real
    requires size > 0.0
  {
    (live.entry * live.size - held.entry * held.size) / size
  }

  function MarginalPrice(b: Book, o: Order, live: LiveMap): real
    requires o.size > 0.0 && Claim(b, o, live) > 0.0
  {
    SolveBack(LiveAt(live, o.key), b.At(o.key), Claim(b, o, live))
  }

  function Process(b: Book, o: Order, live: LiveMap): (b': Book)
    requires b.Valid() && o.size > 0.0
    ensures b'.Valid()
  {
    if o.resting then b
    else
      var size := Claim(b, o, live);
      if size > 0.0 then
        var price := MarginalPrice(b, o, live);
        var filled := ApplyFill(b, o, size, price);
        filled.(statuses := filled.statuses[o.id := Filled(size, price)])
      else b.(statuses := b.statuses[o.id := Cancelled])
  }

  predicate Sized(orders: seq<Order>) {
    forall i :: 0 <= i < |orders| ==> orders[i].size > 0.0
  }

  function Pass(b: Book, orders: seq<Order>, live: LiveMap): (b': Book)
    requires b.Valid() && Sized(orders)
    ensures b'.Valid()
    decreases |orders|
  {
    if orders == [] then b
    else Process(Pass(b, Init(orders), live), Last(orders), live)
  }

  function Init(orders: seq<Order>): (s: seq<Order>)
    requires orders != []
    ensures Sized(orders) ==> Sized(s)
  {
    orders[..|orders| - 1]
  }

  function Last(orders: seq<Order>): Order
    requires orders != []
  {
    orders[|orders| - 1]
  }

  /** What the orders of one key claim over a pass. */
  function Claimed(b: Book, orders: seq<Order>, live: LiveMap, k: Key): real
    requires b.Valid() && Sized(orders)
    decreases |orders|
  {
    if orders == [] then 0.0
    else
      Claimed(b, Init(orders), live, k)
      + if Last(orders).key == k then Claim(Pass(b, Init(orders), live), Last(orders), live) else 0.0
  }

  function Claims(b: Book, orders: seq<Order>, live: LiveMap, k: Key): nat
    requires b.Valid() && Sized(orders)
    decreases |orders|
  {
    if orders == [] then 0
    else
      Claims(b, Init(orders), live, k)
      + if Last(orders).key == k && Claim(Pass(b, Init(orders), live), Last(orders), live) > 0.0 then 1 else 0
  }

  // ---------------------------------------------------------------------------------
  // Size
  // ---------------------------------------------------------------------------------

  /** Over one pass and for every key: the claims sum to the growth of the database position,
      which never passes the exchange's size. */
  lemma {:induction false} ClaimsAreGrowth(b: Book, orders: seq<Order>, live: LiveMap, k: Key)
    requires b.Valid() && Sized(orders)
    ensures var b' := Pass(b, orders, live);
            && b'.At(k).size - b.At(k).size == Claimed(b, orders, live, k)
            && b.At(k).size <= b'.At(k).size <= Max(b.At(k).size, LiveAt(live, k).size)
    decreases |orders|
  {
    if orders != [] {
      ClaimsAreGrowth(b, Init(orders), live, k);
    }
  }

  /** The residual of a key never grows during a pass. */
  lemma {:induction false} SizeOnlyGrows(b: Book, orders: seq<Order>, live: LiveMap, k: Key, i: nat)
    requires b.Valid() && Sized(orders) && i <= |orders|
    ensures Pass(b, orders[..i], live).At(k).size <= Pass(b, orders, live).At(k).size
    decreases |orders| - i
  {
    if i == |orders| {
      assert orders[..i] == orders;
    } else {
      var next := orders[..i + 1];
      assert Init(next) == orders[..i] && Last(next) == orders[i];
      SizeOnlyGrows(b, orders, live, k, i + 1);
    }
  }

  /** First in, first out: an order that has left the exchange gets its whole size, unless the
      residual that remains at the end of the pass is within its tolerance. It is cancelled
      exactly when the residual it met was. */
  lemma OldestFirst(b: Book, orders: seq<Order>, live: LiveMap, i: nat)
    requires b.Valid() && Sized(orders) && i < |orders| && !orders[i].resting
    ensures var o := orders[i];
            var met := Pass(b, orders[..i], live);
            var residual := LiveAt(live, o.key).size - Pass(b, orders, live).At(o.key).size;
            && (Claim(met, o, live) == o.size || residual <= Tolerance(o.size))
            && (Claim(met, o, live) == 0.0 <==> LiveAt(live, o.key).size - met.At(o.key).size <= Tolerance(o.size))
  {
    var next := orders[..i + 1];
    assert Init(next) == orders[..i] && Last(next) == orders[i];
    SizeOnlyGrows(b, orders, live, orders[i].key, i + 1);
  }

  // ---------------------------------------------------------------------------------
  // Entry price
  // ---------------------------------------------------------------------------------

  lemma BlendKeepsCost(old_: Position, size: real, price: real)
    requires old_.size + size > 0.0
    ensures BlendedEntry(old_, size, price) * (old_.size + size) == old_.entry * old_.size + price * size
  {
    var total := old_.entry * old_.size + price * size;
    assert (total / (old_.size + size)) * (old_.size + size) == total;
  }

  lemma BackSolved(gap: real, size: real)
    requires size > 0.0
    ensures (gap / size) * size == gap && (gap / size == 0.0 <==> gap == 0.0)
  {}

  /** A fill adds its own cost to the position, topped up or new. */
  lemma FillAddsCost(b: Book, o: Order, size: real, reported: real)
    requires b.Valid() && size > 0.0
    ensures ApplyFill(b, o, size, reported).Cost(o.key) == b.Cost(o.key) + FillPrice(reported, o) * size
  {
    if o.key in b.positions {
      BlendKeepsCost(b.positions[o.key], size, FillPrice(reported, o));
    }
  }

  /** What one claim does to the cost of its position. With a back-solved price other than
      zero the cost becomes that of the exchange's whole position; a back-solved price of
      exactly zero is taken for a missing one, and the order's own price is used instead. */
  lemma ClaimSetsCost(b: Book, o: Order, live: LiveMap)
    requires b.Valid() && o.size > 0.0 && Claim(b, o, live) > 0.0
    ensures Process(b, o, live).Cost(o.key) == CostAfterClaim(b, o, live)
  {
    hide ApplyFill, Process, MarginalPrice, LiveCost;
    MarginalSolves(b, o, live);
    FillAddsCost(b, o, Claim(b, o, live), MarginalPrice(b, o, live));
    ProcessFills(b, o, live);
  }

  lemma MarginalSolves(b: Book, o: Order, live: LiveMap)
    requires o.size > 0.0 && Claim(b, o, live) > 0.0
    ensures MarginalPrice(b, o, live) * Claim(b, o, live) == LiveCost(live, o.key) - b.Cost(o.key)
    ensures MarginalPrice(b, o, live) == 0.0 <==> LiveCost(live, o.key) == b.Cost(o.key)
  {
    BackSolved(LiveCost(live, o.key) - b.Cost(o.key), Claim(b, o, live));
  }

  lemma ProcessFills(b: Book, o: Order, live: LiveMap)
    requires b.Valid() && o.size > 0.0 && Claim(b, o, live) > 0.0
    ensures Process(b, o, live).At(o.key) == ApplyFill(b, o, Claim(b, o, live), MarginalPrice(b, o, live)).At(o.key)
  {
  }

  lemma Positive(a: real, b: real)
    requires a > 0.0 && b > 0.0
    ensures a * b > 0.0
  {}

  lemma CostOfSamePosition(a: Book, b: Book, k: Key)
    requires a.At(k) == b.At(k)
    ensures a.Cost(k) == b.Cost(k)
  {}

  function LiveCost(live: LiveMap, k: Key): real {
    LiveAt(live, k).entry * LiveAt(live, k).size
  }

  function CostAfterClaim(b: Book, o: Order, live: LiveMap): real
    requires o.size > 0.0
  {
    if b.Cost(o.key) != LiveCost(live, o.key) then LiveCost(live, o.key)
    else b.Cost(o.key) + o.price.GetOr(0.0) * Claim(b, o, live)
  }

  /** At a positive order price, a claim always crosses over: it reaches the exchange's cost
      when the position did not carry it, and leaves it when the position did. */
  lemma ClaimFlipsCost(b: Book, o: Order, live: LiveMap)
    requires b.Valid() && o.size > 0.0 && Claim(b, o, live) > 0.0
    requires o.price.Some? && o.price.value > 0.0
    ensures Process(b, o, live).Cost(o.key) == LiveCost(live, o.key) <==> b.Cost(o.key) != LiveCost(live, o.key)
  {
    hide Process, LiveCost, Book.Cost;
    ClaimSetsCost(b, o, live);
    Positive(o.price.value, Claim(b, o, live));
  }

  /** An order touches no key but its own, and not even that when it claims nothing. */
  lemma ProcessLeavesOthers(b: Book, o: Order, live: LiveMap, k: Key)
    requires b.Valid() && o.size > 0.0 && (o.key != k || Claim(b, o, live) == 0.0)
    ensures Process(b, o, live).At(k) == b.At(k)
  {
  }

  lemma ClaimAddsSize(b: Book, o: Order, live: LiveMap)
    requires b.Valid() && o.size > 0.0 && Claim(b, o, live) > 0.0
    ensures Process(b, o, live).At(o.key).size == b.At(o.key).size + Claim(b, o, live)
  {}

  /** A claim that takes the whole residual leaves the position at the exchange's size, and at
      the exchange's entry as long as its back-solved price is not zero. */
  lemma WholeResidualMeetsExchange(b: Book, o: Order, live: LiveMap)
    requires b.Valid() && o.size > 0.0
    requires Claim(b, o, live) > 0.0 && Claim(b, o, live) == LiveAt(live, o.key).size - b.At(o.key).size
    requires MarginalPrice(b, o, live) != 0.0
    ensures Process(b, o, live).At(o.key) == LiveAt(live, o.key)
  {
    hide Process, MarginalPrice, Book.Cost, LiveCost;
    MarginalSolves(b, o, live);
    ClaimSetsCost(b, o, live);
    ClaimAddsSize(b, o, live);
    MeetsExchangeIff(Process(b, o, live), live, o.key);
  }

  lemma OnlyClaimsFlipCost(b: Book, o: Order, live: LiveMap, k: Key)
    requires b.Valid() && o.size > 0.0 && (o.key == k ==> o.price.Some? && o.price.value > 0.0)
    ensures Process(b, o, live).Cost(k) == LiveCost(live, k) <==>
              if o.key == k && Claim(b, o, live) > 0.0
              then b.Cost(k) != LiveCost(live, k)
              else b.Cost(k) == LiveCost(live, k)
  {
    hide Process, LiveCost, Book.Cost, Claim;
    if o.key == k && Claim(b, o, live) > 0.0 {
      ClaimFlipsCost(b, o, live);
    } else {
      ProcessLeavesOthers(b, o, live, k);
      CostOfSamePosition(Process(b, o, live), b, k);
    }
  }

  /** The orders of a key are priced above zero. */
  predicate Priced(orders: seq<Order>, k: Key) {
    forall o <- orders :: o.key == k ==> o.price.Some? && o.price.value > 0.0
  }

  /** The cost a key is left with alternates with every claim of the pass: it agrees with the
      exchange's exactly when it did not at first and the claims are odd, or did and they are
      even. */
  lemma {:induction false} CostAlternates(b: Book, orders: seq<Order>, live: LiveMap, k: Key)
    requires b.Valid() && Sized(orders) && Priced(orders, k)
    ensures Pass(b, orders, live).Cost(k) == LiveCost(live, k)
       <==> (b.Cost(k) == LiveCost(live, k) <==> Claims(b, orders, live, k) % 2 == 0)
    decreases |orders|
  {
    hide Process, LiveCost, Book.Cost, Claim;
    if orders != [] {
      var o := Last(orders);
      var met := Pass(b, Init(orders), live);
      assert o in orders && forall x <- Init(orders) :: x in orders;
      CostAlternates(b, Init(orders), live, k);
      OnlyClaimsFlipCost(met, o, live, k);
      assert Pass(b, orders, live) == Process(met, o, live);
      hide Pass, Priced;
    }
  }

  /** What orders of given sizes make of a residual, without looking at any book: each in turn
      takes what is left, up to its size, while that exceeds its tolerance. */
  datatype Served = Served(left: real, claims: nat)

  function Serve(residual: real, orders: seq<Order>, k: Key): Served
    decreases |orders|
  {
    if orders == [] then Served(residual, 0)
    else
      var before := Serve(residual, Init(orders), k);
      var o := Last(orders);
      if o.key == k && !o.resting && before.left > Tolerance(o.size)
      then Served(before.left - Min(o.size, before.left), before.claims + 1)
      else before
  }

  lemma {:induction false} PassServesTheResidual(b: Book, orders: seq<Order>, live: LiveMap, k: Key)
    requires b.Valid() && Sized(orders)
    ensures Serve(LiveAt(live, k).size - b.At(k).size, orders, k)
         == Served(LiveAt(live, k).size - Pass(b, orders, live).At(k).size, Claims(b, orders, live, k))
    decreases |orders|
  {
    if orders != [] {
      PassServesTheResidual(b, Init(orders), live, k);
      hide ApplyFill, MarginalPrice;
      OneIsServed(Pass(b, Init(orders), live), Last(orders), live, k);
    }
  }

  lemma OneIsServed(met: Book, o: Order, live: LiveMap, k: Key)
    requires met.Valid() && o.size > 0.0
    ensures Process(met, o, live).At(k).size ==
              met.At(k).size + (if o.key == k then Claim(met, o, live) else 0.0)
  {}

  /** Exactly when a pass leaves a key at the exchange's size AND entry, from the residual, the
      order sizes and what the position cost, for orders of the key with a positive price: the
      residual is served to the last unit, by an odd number of orders when the position did not
      carry the exchange's cost and by an even number when it did. */
  lemma PassMeetsExchangeIff(b: Book, orders: seq<Order>, live: LiveMap, k: Key)
    requires b.Valid() && Sized(orders) && LiveAt(live, k).size > 0.0 && Priced(orders, k)
    ensures var served := Serve(LiveAt(live, k).size - b.At(k).size, orders, k);
            (Pass(b, orders, live).At(k) == LiveAt(live, k) <==>
               && served.left == 0.0
               && (served.claims % 2 == 0 <==> b.Cost(k) == LiveCost(live, k)))
  {
    hide Pass, Claims, Process, Book.Cost, LiveCost, Serve;
    PassServesTheResidual(b, orders, live, k);
    CostAlternates(b, orders, live, k);
    MeetsExchangeIff(Pass(b, orders, live), live, k);
  }

  lemma MeetsExchangeIff(b: Book, live: LiveMap, k: Key)
    requires LiveAt(live, k).size > 0.0
    ensures b.At(k) == LiveAt(live, k)
       <==> b.At(k).size == LiveAt(live, k).size && b.Cost(k) == LiveCost(live, k)
  {
    SamePositionIff(b.At(k), LiveAt(live, k));
  }

  lemma SamePositionIff(p: Position, x: Position)
    requires x.size > 0.0
    ensures p == x <==> p.size == x.size && p.entry * p.size == x.entry * x.size
  {
    if p.size == x.size && p.entry * p.size == x.entry * x.size {
      assert (p.entry - x.entry) * x.size == 0.0;
    }
  }

  /** Two orders of one unit, both filled at 100 between two passes: the first is booked at
      200, the second at its own limit of 90, and the position ends at 145 instead of 100. */
  lemma TwoFillsInOnePass()
    ensures var k := Key(1, 1, Long);
            var live := map[ExchangeKey(1, Long) := Position(2.0, 100.0)];
            var b := Book(map[], map[]);
            var first, second := Order(1, k, 1.0, Some(100.0), false), Order(2, k, 1.0, Some(90.0), false);
            && Process(b, first, live).At(k) == Position(1.0, 200.0)
            && Process(Process(b, first, live), second, live).At(k) == Position(2.0, 145.0)
  {
  }

  // ---------------------------------------------------------------------------------
  // What becomes of the orders
  // ---------------------------------------------------------------------------------

  predicate Unique(orders: seq<Order>) {
    forall i, j :: 0 <= i < j < |orders| ==> orders[i].id != orders[j].id
  }

  function StatusOf(b: Book, id: nat): Option<Status> {
    if id in b.statuses then Some(b.statuses[id]) else None
  }

  /** The residual is within an order's tolerance. */
  predicate Negligible(residual: real, size: real) {
    residual <= 0.000001 || residual <= size / 200.0
  }

  lemma {:induction false} OthersKeepTheirStatus(b: Book, orders: seq<Order>, live: LiveMap, id: nat)
    requires b.Valid() && Sized(orders)
    requires forall o <- orders :: o.id == id ==> o.resting
    ensures StatusOf(Pass(b, orders, live), id) == StatusOf(b, id)
    decreases |orders|
  {
    if orders != [] {
      assert Last(orders) in orders && forall o <- Init(orders) :: o in orders;
      OthersKeepTheirStatus(b, Init(orders), live, id);
      hide ApplyFill, MarginalPrice, Claim;
      OnlyItsOwnStatus(Pass(b, Init(orders), live), Last(orders), live, id);
    }
  }

  lemma OnlyItsOwnStatus(b: Book, o: Order, live: LiveMap, id: nat)
    requires b.Valid() && o.size > 0.0 && (o.id == id ==> o.resting)
    ensures StatusOf(Process(b, o, live), id) == StatusOf(b, id)
  {
    hide MarginalPrice, Claim;
  }

  /** What a fill of an order costs at a price; a price of zero stands for the order's own. */
  function Worth(o: Order, price: real, size: real): real {
    if price != 0.0 then price * size else o.price.GetOr(0.0) * size
  }

  /** What one order that left the exchange is recorded as, by what it does to its position. */
  ghost predicate Recorded(status: Option<Status>, met: Book, after: Book, o: Order, live: LiveMap) {
    var residual := LiveAt(live, o.key).size - met.At(o.key).size;
    if Negligible(residual, o.size) then status == Some(Cancelled) && after.At(o.key) == met.At(o.key)
    else
      && status.Some? && status.value.Filled?
      && status.value.size == after.At(o.key).size - met.At(o.key).size == Min(o.size, residual)
      && after.Cost(o.key) == met.Cost(o.key) + Worth(o, status.value.price, status.value.size)
  }

  lemma ClaimsIff(b: Book, o: Order, live: LiveMap)
    requires o.size > 0.0 && !o.resting
    ensures var residual := LiveAt(live, o.key).size - b.At(o.key).size;
            if Negligible(residual, o.size) then Claim(b, o, live) == 0.0
            else Claim(b, o, live) == Min(o.size, residual) > 0.0
  {}

  lemma ClaimIsRecorded(b: Book, o: Order, live: LiveMap)
    requires b.Valid() && o.size > 0.0 && !o.resting
    ensures StatusOf(Process(b, o, live), o.id) ==
              Some(if Claim(b, o, live) > 0.0 then Filled(Claim(b, o, live), MarginalPrice(b, o, live)) else Cancelled)
  {
    hide Claim, MarginalPrice;
  }

  /** The price of a fill, or the order's own for a price of zero, times its size is the cost added. */
  lemma ClaimAddsCost(b: Book, o: Order, live: LiveMap)
    requires b.Valid() && o.size > 0.0 && Claim(b, o, live) > 0.0
    ensures Process(b, o, live).Cost(o.key) == b.Cost(o.key) + Worth(o, MarginalPrice(b, o, live), Claim(b, o, live))
  {
    hide ApplyFill, Process, MarginalPrice, Claim;
    var size, price := Claim(b, o, live), MarginalPrice(b, o, live);
    FillAddsCost(b, o, size, price);
    ProcessFills(b, o, live);
    CostOfSamePosition(Process(b, o, live), ApplyFill(b, o, size, price), o.key);
    hide Book.Cost, Book.At;
  }

  lemma ProcessRecords(b: Book, o: Order, live: LiveMap)
    requires b.Valid() && o.size > 0.0 && !o.resting
    ensures Recorded(StatusOf(Process(b, o, live), o.id), b, Process(b, o, live), o, live)
  {
    ClaimsIff(b, o, live);
    ClaimIsRecorded(b, o, live);
    if Claim(b, o, live) > 0.0 {
      ClaimAddsSize(b, o, live);
      ClaimAddsCost(b, o, live);
    } else {
      ProcessLeavesOthers(b, o, live, o.key);
    }
    hide Process, MarginalPrice, Claim, Negligible, StatusOf, Worth, Book.At, Book.Cost, LiveAt;
  }

  /** Over a pass of orders with ids of their own: one that left the exchange is cancelled exactly
      when the residual it met was within its tolerance, and is filled otherwise, with the size by
      which its position grew then, at the price that accounts for the cost then added, or, with a
      price of zero, its own. Orders that still rest, and orders not on the list, keep their
      status. */
  lemma OrdersAreRecorded(b: Book, orders: seq<Order>, live: LiveMap, i: nat)
    requires b.Valid() && Sized(orders) && Unique(orders) && i < |orders|
    ensures var o, final := orders[i], Pass(b, orders, live);
            if o.resting then StatusOf(final, o.id) == StatusOf(b, o.id)
            else Recorded(StatusOf(final, o.id), Pass(b, orders[..i], live), Pass(b, orders[..i + 1], live), o, live)
  {
    var o := orders[i];
    if o.resting {
      assert forall x <- orders :: x.id == o.id ==> x == o;
      OthersKeepTheirStatus(b, orders, live, o.id);
    } else {
      var next := orders[..i + 1];
      assert Init(next) == orders[..i] && Last(next) == o;
      ProcessRecords(Pass(b, orders[..i], live), o, live);
      LaterOrdersKeepIt(b, orders, live, i, i + 1);
    }
  }

  lemma {:induction false} LaterOrdersKeepIt(b: Book, orders: seq<Order>, live: LiveMap, i: nat, j: nat)
    requires b.Valid() && Sized(orders) && Unique(orders) && i < j <= |orders|
    ensures StatusOf(Pass(b, orders[..j], live), orders[i].id) == StatusOf(Pass(b, orders, live), orders[i].id)
    decreases |orders| - j
  {
    if j == |orders| {
      assert orders[..j] == orders;
    } else {
      var next := orders[..j + 1];
      assert Init(next) == orders[..j] && Last(next) == orders[j];
      LaterOrdersKeepIt(b, orders, live, i, j + 1);
      hide ApplyFill, MarginalPrice, Claim, Process;
      OnlyItsOwnStatus(Pass(b, orders[..j], live), orders[j], live, orders[i].id);
    }
  }

  // ---------------------------------------------------------------------------------
  // Strategies that share one exchange position
  // ---------------------------------------------------------------------------------

  predicate Distinct(strategies: seq<nat>) {
    forall i, j :: 0 <= i < j < |strategies| ==> strategies[i] != strategies[j]
  }

  /** What the strategies hold of one exchange position, by the database. */
  function HeldBy(b: Book, strategies: seq<nat>, e: ExchangeKey): real {
    if strategies == [] then 0.0
    else b.At(Key(strategies[0], e.symbol, e.side)).size + HeldBy(b, strategies[1..], e)
  }

  /** What their orders are served, each strategy from a residual of its own: all of the exchange
      position that it does not hold itself. */
  function ServedTo(b: Book, orders: seq<Order>, live: LiveMap, strategies: seq<nat>, e: ExchangeKey): real {
    if strategies == [] then 0.0
    else
      var k := Key(strategies[0], e.symbol, e.side);
      var residual := LiveAt(live, k).size - b.At(k).size;
      residual - Serve(residual, orders, k).left + ServedTo(b, orders, live, strategies[1..], e)
  }

  lemma {:induction false} PassAddsWhatIsServed(b: Book, orders: seq<Order>, live: LiveMap, strategies: seq<nat>,
      e: ExchangeKey)
    requires b.Valid() && Sized(orders)
    ensures HeldBy(Pass(b, orders, live), strategies, e)
        == HeldBy(b, strategies, e) + ServedTo(b, orders, live, strategies, e)
    decreases |strategies|
  {
    hide Pass, Serve;
    if strategies != [] {
      PassServesTheResidual(b, orders, live, Key(strategies[0], e.symbol, e.side));
      PassAddsWhatIsServed(b, orders, live, strategies[1..], e);
    }
  }

  function LiveSize(live: LiveMap, e: ExchangeKey): real {
    if e in live then live[e].size else 0.0
  }

  /** The strategies that share a position hold no more than the exchange does after a pass exactly
      when their orders are served no more than what none of them held. */
  lemma SharedPositionIsNotOverclaimedIff(b: Book, orders: seq<Order>, live: LiveMap, strategies: seq<nat>,
      e: ExchangeKey)
    requires b.Valid() && Sized(orders) && Distinct(strategies)
    ensures HeldBy(Pass(b, orders, live), strategies, e) <= LiveSize(live, e) <==>
            ServedTo(b, orders, live, strategies, e) <= LiveSize(live, e) - HeldBy(b, strategies, e)
  {
    PassAddsWhatIsServed(b, orders, live, strategies, e);
  }

  /** An order that left the exchange and finds a residual within its tolerance is served nothing,
      and any other is served. */
  lemma {:induction false} NothingIsServedIff(residual: real, orders: seq<Order>, k: Key)
    requires Sized(orders)
    ensures Serve(residual, orders, k).left <= residual
    ensures Serve(residual, orders, k).left == residual <==>
            forall o <- orders :: o.key == k && !o.resting ==> residual <= Tolerance(o.size)
    decreases |orders|
  {
    if orders != [] {
      NothingIsServedIff(residual, Init(orders), k);
      assert orders == Init(orders) + [Last(orders)];
    }
  }

  /** An order of one of the strategies on the exchange position. */
  predicate Shares(o: Order, strategies: seq<nat>, e: ExchangeKey) {
    o.key.strategy in strategies && ExchangeKey(o.key.symbol, o.key.side) == e
  }

  lemma {:induction false} NothingIsServedToIff(b: Book, orders: seq<Order>, live: LiveMap, strategies: seq<nat>,
      e: ExchangeKey)
    requires Sized(orders)
    ensures ServedTo(b, orders, live, strategies, e) >= 0.0
    ensures ServedTo(b, orders, live, strategies, e) == 0.0 <==>
            forall o <- orders | !o.resting && Shares(o, strategies, e) ::
              LiveSize(live, e) - b.At(o.key).size <= Tolerance(o.size)
    decreases |strategies|
  {
    hide Serve, Tolerance;
    if strategies != [] {
      var k := Key(strategies[0], e.symbol, e.side);
      NothingIsServedIff(LiveAt(live, k).size - b.At(k).size, orders, k);
      NothingIsServedToIff(b, orders, live, strategies[1..], e);
      assert LiveAt(live, k).size == LiveSize(live, e);
      assert forall s <- strategies :: s == strategies[0] || s in strategies[1..];
      assert forall o <- orders :: ExchangeKey(o.key.symbol, o.key.side) == e && o.key.strategy == strategies[0] ==>
          o.key == k;
    }
  }

  /** A position the strategies already account for is claimed again, for what the others hold of
      it, by every order that leaves the exchange: they stay within it exactly when each such order
      finds that the others hold no more than its tolerance. */
  lemma AccountedPositionIsClaimedAgainIff(b: Book, orders: seq<Order>, live: LiveMap, strategies: seq<nat>,
      e: ExchangeKey)
    requires b.Valid() && Sized(orders) && Distinct(strategies) && HeldBy(b, strategies, e) == LiveSize(live, e)
    ensures HeldBy(Pass(b, orders, live), strategies, e) <= LiveSize(live, e) <==>
            forall o <- orders | !o.resting && Shares(o, strategies, e) ::
              HeldBy(b, strategies, e) - b.At(o.key).size <= Tolerance(o.size)
  {
    hide Pass, HeldBy, ServedTo;
    SharedPositionIsNotOverclaimedIff(b, orders, live, strategies, e);
    NothingIsServedToIff(b, orders, live, strategies, e);
  }

  /** Two strategies that share one exchange position are each given all of it. */
  lemma TwoStrategiesClaimTheSamePosition()
    ensures var first, second := Key(1, 1, Long), Key(2, 1, Long);
            var live := map[ExchangeKey(1, Long) := Position(1.0, 100.0)];
            var a, b := Order(1, first, 1.0, Some(100.0), false), Order(2, second, 1.0, Some(100.0), false);
            var after := Process(Process(Book(map[], map[]), a, live), b, live);
            && after.At(first) == LiveAt(live, first) == Position(1.0, 100.0)
            && after.At(second) == LiveAt(live, second) == Position(1.0, 100.0)
  {}

  // ---------------------------------------------------------------------------------
  // The pass itself
  // ---------------------------------------------------------------------------------

  class Ledger {
    var positions: map<Key, Position>
    var statuses: map<nat, Status>

    function Value(): Book
      reads this
    {
      Book(positions, statuses)
    }

    /** Top up the open leg of a key, or create it. */
    method ApplyPositionFill(o: Order, size: real, reported: real)
      requires Value().Valid() && size > 0.0
      modifies this`positions
      ensures Value() == ApplyFill(old(Value()), o, size, reported)
    {
      var price := if reported != 0.0 then reported else o.price.GetOr(0.0);
      if o.key in positions {
        var existing := positions[o.key];
        positions := positions[o.key := Position(existing.size + size, BlendedEntry(existing, size, price))];
      } else {
        positions := positions[o.key := Position(size, price)];
      }
    }

    method ReconcilePendingOrders(orders: seq<Order>, live: LiveMap)
      requires Value().Valid() && Sized(orders)
      modifies this
      ensures Value() == Pass(old(Value()), orders, live)
    {
      for i := 0 to |orders|
        invariant Value().Valid() && Sized(orders[..i])
        invariant Value() == Pass(old(Value()), orders[..i], live)
      {
        var o := orders[i];
        assert Init(orders[..i + 1]) == orders[..i] && Last(orders[..i + 1]) == o;
        if o.resting { continue; }
        var x := LiveAt(live, o.key);
        var existing := Value().At(o.key);
        var available := x.size - existing.size;
        if available > Max(SIZE_EPSILON_ABS, o.size * SIZE_EPSILON_REL) {
          var fillSize := Min(o.size, available);
          var marginal := SolveBack(x, existing, fillSize);
          ApplyPositionFill(o, fillSize, marginal);
          statuses := statuses[o.id := Filled(fillSize, marginal)];
        } else {
          statuses := statuses[o.id := Cancelled];
        }
      }
      assert orders[..|orders|] == orders;
    }
  }
}
