/**
 Orders that were accepted and not yet executed. The webhook answers first and runs the order in
 the background (order-listener/app/webhook_handler.py), against the size held by then: an entry
 or scale-in tops up the open leg or creates it, a close takes all of it, and a trim takes what it
 asked for, which is all of the leg once that is no more.

 Sizes are integers in units of 1e-8 coin, the decimals every size is rounded to.
 */
module Orders {

  datatype Ask = AddAsk(size: nat) | TrimAsk(size: nat) | CloseAsk

  function Minimum(a: nat, b: nat): nat {
    if a <= b then a else b
  }

  /** What the venue executed: the asked size when it reports none. */
  function Executed(asked: nat, reported: nat): nat {
    if reported == 0 then asked else reported
  }

  /** A trim that asks for the whole leg closes it; otherwise the leg shrinks by what was
      executed, never by more than it holds. */
  function Reduced(held: nat, asked: nat, reported: nat): (left: nat)
    ensures left <= held
  {
    if asked >= held then 0 else held - Minimum(Executed(asked, reported), held)
  }

  /** One order against the live position: a trim finds nothing to reduce once the leg is closed,
      an entry or scale-in opens it again. */
  function HeldAfter(held: nat, ask: Ask, reported: nat): nat {
    match ask
    case AddAsk(asked) => held + Executed(asked, reported)
    case TrimAsk(asked) => Reduced(held, asked, reported)
    case CloseAsk => 0
  }

  /** The venue executes at most what was asked. */
  predicate NoOverfill(ask: Ask, reported: nat) {
    ask.CloseAsk? || Executed(ask.size, reported) <= ask.size
  }

  /** The queue without its order `i`. */
  function Without<T>(queue: seq<T>, i: nat): seq<T>
    requires i < |queue|
  {
    queue[..i] + queue[i + 1..]
  }

  lemma WithoutKeepsTheRest<T>(queue: seq<T>, i: nat)
    requires i < |queue|
    ensures forall o <- queue :: o in Without(queue, i) || o == queue[i]
    ensures forall o <- Without(queue, i) :: o in queue
  {
    assert queue == queue[..i] + [queue[i]] + queue[i + 1..];
  }

  /** What the trims of a queue ask for, and what its entries and scale-ins do. */
  function TrimSum(asks: seq<Ask>): nat {
    if asks == [] then 0 else (if asks[0].TrimAsk? then asks[0].size else 0) + TrimSum(asks[1..])
  }

  function AddSum(asks: seq<Ask>): nat {
    if asks == [] then 0 else (if asks[0].AddAsk? then asks[0].size else 0) + AddSum(asks[1..])
  }

  lemma {:induction false} SumsAppend(asks: seq<Ask>, ask: Ask)
    ensures TrimSum(asks + [ask]) == TrimSum(asks) + (if ask.TrimAsk? then ask.size else 0)
    ensures AddSum(asks + [ask]) == AddSum(asks) + (if ask.AddAsk? then ask.size else 0)
    decreases |asks|
  {
    if asks == [] {
      assert asks + [ask] == [ask] && [ask][1..] == [];
    } else {
      assert (asks + [ask])[1..] == asks[1..] + [ask];
      SumsAppend(asks[1..], ask);
    }
  }

  lemma {:induction false} SumsWithout(asks: seq<Ask>, i: nat)
    requires i < |asks|
    ensures TrimSum(asks) == TrimSum(Without(asks, i)) + (if asks[i].TrimAsk? then asks[i].size else 0)
    ensures AddSum(asks) == AddSum(Without(asks, i)) + (if asks[i].AddAsk? then asks[i].size else 0)
    decreases |asks|
  {
    if i == 0 {
      assert Without(asks, 0) == asks[1..];
    } else {
      var rest := Without(asks, i);
      assert rest[0] == asks[0] && rest[1..] == Without(asks[1..], i - 1);
      SumsWithout(asks[1..], i - 1);
    }
  }
}
