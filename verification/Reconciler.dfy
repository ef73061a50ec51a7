/**
 The miss-streak machine of the position reconciler (order-listener/app/reconciler.py,
 reconcile_once): a row is closed or shrunk to match the exchange only after enough
 consecutive confirmed discrepancies.

 A read is UNKNOWN for a whole account, or a confirmed map of sizes. Other writers may resize
 a row at any time between passes.
 */
module Reconciler {
  import opened Prelude

  const SIZE_EPSILON_ABS := 0.000001
  const SIZE_EPSILON_REL := 0.005

  datatype Row = Row(open: bool, size: real, misses: int, divergent: bool, exchangeSize: Option<real>)

  function Tolerance(size: real): real {
    Max(SIZE_EPSILON_ABS, size * SIZE_EPSILON_REL)
  }

  datatype Verdict = Match | Larger | Miss

  /** A confirmed read against the row's size; None is a position the exchange does not have. */
  function Judge(size: real, ex: Option<real>): Verdict {
    if ex.Some? && Abs(size - ex.value) <= Tolerance(size) then Match
    else if ex.Some? && ex.value > size + Tolerance(size) then Larger
    else Miss
  }

  /** A read matches a row when the sizes differ by at most a millionth or half a percent of the
      row's; beyond that it is larger, or a miss. */
  lemma JudgeIff(size: real, ex: Option<real>)
    requires size >= 0.0
    ensures Judge(size, ex) == Larger <==>
              ex.Some? && ex.value - size > 1.0 / 1000000.0 && ex.value - size > size / 200.0
    ensures Judge(size, ex) == Miss <==>
              ex.Some? ==> size - ex.value > 1.0 / 1000000.0 && size - ex.value > size / 200.0
  {}

  predicate Vanished(ex: Option<real>) {
    ex.None? || ex.value <= SIZE_EPSILON_ABS
  }

  /** What happens to a row between two moments: a pass that could not read its account, a pass
      that could, or another writer's resize. */
  datatype Event = Unknown | Read(ex: Option<real>) | Resized(size: real)

  function AfterRead(row: Row, ex: Option<real>, threshold: int): Row {
    match Judge(row.size, ex)
    case Match =>
      if row.misses != 0 || row.divergent then row.(misses := 0, divergent := false, exchangeSize := None) else row
    case Larger => row.(misses := 0, divergent := true, exchangeSize := ex)
    case Miss =>
      if row.misses + 1 < threshold then row.(misses := row.misses + 1)
      else if Vanished(ex) then row.(misses := row.misses + 1, open := false)
      else row.(size := ex.value, misses := 0)
  }

  function Step(row: Row, e: Event, threshold: int): Row {
    if !row.open then row
    else
      match e
      case Unknown => row
      case Read(ex) => AfterRead(row, ex, threshold)
      case Resized(size) => row.(size := size)
  }

  function Run(row: Row, es: seq<Event>, threshold: int): Row
    decreases |es|
  {
    if es == [] then row
    else Step(Run(row, es[..|es| - 1], threshold), es[|es| - 1], threshold)
  }

  // ---------------------------------------------------------------------------------
  // Safety over runs
  // ---------------------------------------------------------------------------------

  /** Every confirmed read from `j` on was a discrepancy against the row as it then was. */
  predicate Quiet(row: Row, es: seq<Event>, threshold: int, j: nat) {
    forall i :: j <= i < |es| && es[i].Read? ==> Judge(Run(row, es[..i], threshold).size, es[i].ex) == Miss
  }

  /** Confirmed reads from `j` on. Passes that could not read do not count. */
  function Reads(es: seq<Event>, j: nat): nat
    decreases |es|
  {
    if |es| <= j then 0 else Reads(es[..|es| - 1], j) + if es[|es| - 1].Read? then 1 else 0
  }

  /** The row is still open, was never touched by the reconciler from `j` on, and its counter
      is the number of confirmed reads since, all of them discrepancies. */
  predicate StreakFrom(row: Row, es: seq<Event>, threshold: int, j: nat) {
    && j <= |es| && Quiet(row, es, threshold, j)
    && Run(row, es, threshold).misses == Reads(es, j)
  }

  lemma QuietExtends(row: Row, es: seq<Event>, e: Event, threshold: int, j: nat)
    requires Quiet(row, es, threshold, j)
    requires e.Read? ==> Judge(Run(row, es, threshold).size, e.ex) == Miss
    ensures Quiet(row, es + [e], threshold, j)
  {
    forall i | j <= i < |es + [e]| && (es + [e])[i].Read?
      ensures Judge(Run(row, (es + [e])[..i], threshold).size, (es + [e])[i].ex) == Miss
    {
      assert (es + [e])[..i] == es[..i];
      if i == |es| { assert es[..i] == es; }
    }
  }

  /** The counter always counts an unbroken streak. */
  lemma {:induction false} CounterIsAStreak(row: Row, es: seq<Event>, threshold: int)
    requires row.misses == 0
    ensures Run(row, es, threshold).open ==> exists j :: StreakFrom(row, es, threshold, j)
    decreases |es|
  {
    if es == [] {
      assert StreakFrom(row, es, threshold, 0);
    } else {
      var n := |es| - 1;
      var init, e := es[..n], es[n];
      assert es == init + [e];
      var before, after := Run(row, init, threshold), Run(row, es, threshold);
      if after.open {
        CounterIsAStreak(row, init, threshold);
        var j :| StreakFrom(row, init, threshold, j);
        if after.misses == 0 && e.Read? {
          assert StreakFrom(row, es, threshold, |es|);
        } else {
          QuietExtends(row, init, e, threshold, j);
          assert StreakFrom(row, es, threshold, j);
        }
      }
    }
  }

  /** Over every run of passes and of other writers: when a pass closes or shrinks a row, the
      last `threshold` confirmed reads at least, up to and including that pass, were all
      discrepancies, with no confirmed match and no larger size between them; and the pass
      leaves a shrunk row exactly at the size just read. No pass ever grows a row, and a pass
      that could not read changes nothing. */
  lemma ActsOnlyOnAStreak(row: Row, es: seq<Event>, e: Event, threshold: int)
    requires row.misses == 0
    ensures var before, after := Run(row, es, threshold), Run(row, es + [e], threshold);
            && (e.Unknown? ==> after == before)
            && (e.Read? ==> after.size <= before.size)
            && (e.Read? && (after.open != before.open || after.size != before.size) ==>
                  && (exists j: nat | j <= |es| ::
                        Quiet(row, es + [e], threshold, j) && Reads(es + [e], j) >= threshold)
                  && (if e.ex.None? || e.ex.value <= 1.0 / 1000000.0 then !after.open && after.size == before.size
                      else after.open && e.ex == Some(after.size)))
  {
    var all := es + [e];
    assert all[..|all| - 1] == es;
    var before, after := Run(row, es, threshold), Run(row, all, threshold);
    if e.Read? && (after.open != before.open || after.size != before.size) {
      CounterIsAStreak(row, es, threshold);
      var j :| StreakFrom(row, es, threshold, j);
      QuietExtends(row, es, e, threshold, j);
      assert Reads(all, j) == Reads(es, j) + 1;
    }
  }

  /** The last confirmed read that was no discrepancy found the exchange to hold more. */
  predicate LastLarger(row: Row, es: seq<Event>, threshold: int, i: nat) {
    && i < |es| && es[i].Read? && Judge(Run(row, es[..i], threshold).size, es[i].ex) == Larger
    && Quiet(row, es, threshold, i + 1)
  }

  /** Over every run that leaves the row open: it is flagged as divergent exactly when that read
      found more than the row has, and then with the size it found. */
  lemma {:induction false} DivergentIff(row: Row, es: seq<Event>, threshold: int)
    requires !row.divergent
    ensures var after := Run(row, es, threshold);
            after.open ==>
              && (after.divergent <==> exists i: nat :: LastLarger(row, es, threshold, i))
              && (forall i: nat :: LastLarger(row, es, threshold, i) ==> after.exchangeSize == es[i].ex)
    decreases |es|
  {
    if es != [] {
      var n := |es| - 1;
      var init, e := es[..n], es[n];
      assert es == init + [e];
      DivergentIff(row, init, threshold);
      forall i: nat ensures LastLarger(row, es, threshold, i) <==>
                         if i == n then e.Read? && Judge(Run(row, init, threshold).size, e.ex) == Larger
                         else LastLarger(row, init, threshold, i)
                              && (e.Read? ==> Judge(Run(row, init, threshold).size, e.ex) == Miss)
        ensures LastLarger(row, init, threshold, i) ==> i < n
      {
        LastLargerOneMore(row, init, e, threshold, i);
      }
      hide LastLarger, Judge, Vanished;
      var after := Run(row, es, threshold);
      if after.open && after.divergent {
        if e.Read? && Judge(Run(row, init, threshold).size, e.ex) == Larger {
          assert LastLarger(row, es, threshold, n);
        } else {
          var i: nat :| LastLarger(row, init, threshold, i);
          assert LastLarger(row, es, threshold, i);
        }
      }
    }
  }

  lemma LastLargerOneMore(row: Row, es: seq<Event>, e: Event, threshold: int, i: nat)
    ensures LastLarger(row, es + [e], threshold, i) <==>
              if i == |es| then e.Read? && Judge(Run(row, es, threshold).size, e.ex) == Larger
              else LastLarger(row, es, threshold, i) && (e.Read? ==> Judge(Run(row, es, threshold).size, e.ex) == Miss)
    ensures LastLarger(row, es, threshold, i) ==> i < |es|
  {
    var all := es + [e];
    assert all[..|es|] == es && forall k :: 0 <= k <= |es| ==> all[..k] == es[..k];
    hide Run, Judge;
    if i < |es| {
      if Quiet(row, es, threshold, i + 1) && (e.Read? ==> Judge(Run(row, es, threshold).size, e.ex) == Miss) {
        QuietExtends(row, es, e, threshold, i + 1);
      }
      if Quiet(row, all, threshold, i + 1) {
        forall k | i + 1 <= k < |es| && es[k].Read?
          ensures Judge(Run(row, es[..k], threshold).size, es[k].ex) == Miss
        {
          assert all[k] == es[k] && all[..k] == es[..k];
        }
      }
    }
  }

  // ---------------------------------------------------------------------------------
  // Liveness
  // ---------------------------------------------------------------------------------

  /** The position is gone: every confirmed read says so. */
  predicate Gone(es: seq<Event>) {
    forall i :: 0 <= i < |es| ==> es[i].Unknown? || (es[i].Read? && es[i].ex.None?)
  }

  lemma {:induction false} GoneStreakCounts(row: Row, es: seq<Event>, threshold: int)
    requires row.open && row.misses >= 0 && Gone(es) && row.misses + Reads(es, 0) < threshold
    ensures Run(row, es, threshold) == row.(misses := row.misses + Reads(es, 0))
    decreases |es|
  {
    if es != [] {
      GoneStreakCounts(row, es[..|es| - 1], threshold);
    }
  }

  /** A position that is gone is closed by exactly the confirmed read that completes the
      threshold, however many passes could not read. */
  lemma {:induction false} GonePositionIsClosedIff(row: Row, es: seq<Event>, threshold: int)
    requires row.open && row.misses == 0 && Gone(es) && threshold >= 1
    ensures Run(row, es, threshold).open <==> Reads(es, 0) < threshold
    decreases |es|
  {
    if Reads(es, 0) < threshold {
      GoneStreakCounts(row, es, threshold);
    } else {
      var n := |es| - 1;
      if Reads(es[..n], 0) < threshold {
        GoneStreakCounts(row, es[..n], threshold);
      } else {
        GonePositionIsClosedIff(row, es[..n], threshold);
      }
    }
  }

  // ---------------------------------------------------------------------------------
  // One pass over all rows
  // ---------------------------------------------------------------------------------

  datatype Place = Place(account: nat, symbol: nat, long: bool)

  type Reading = Option<map<(nat, bool), real>>

  /** What a pass sees of a row: nothing, or the size the exchange holds for its key. */
  function Sight(place: Place, readings: map<nat, Reading>): Event {
    if place.account !in readings || readings[place.account].None? then Unknown
    else
      var sizes := readings[place.account].value;
      Read(if (place.symbol, place.long) in sizes then Some(sizes[(place.symbol, place.long)]) else None)
  }

  class Rows {
    const places: seq<Place>
    var rows: seq<Row>

    ghost predicate Valid()
      reads this
    {
      |rows| == |places|
    }

    method ReconcileOnce(readings: map<nat, Reading>, threshold: int)
      requires Valid()
      modifies this
      ensures Valid()
      ensures forall i :: 0 <= i < |rows| ==> rows[i] == Step(old(rows)[i], Sight(places[i], readings), threshold)
    {
      for i := 0 to |rows|
        invariant Valid()
        invariant forall j :: 0 <= j < i ==> rows[j] == Step(old(rows)[j], Sight(places[j], readings), threshold)
        invariant forall j :: i <= j < |rows| ==> rows[j] == old(rows)[j]
      {
        var row, seen := rows[i], Sight(places[i], readings);
        if !row.open || seen.Unknown? { continue; }
        var size := if seen.ex.Some? then seen.ex.value else 0.0;
        var diff := row.size - size;
        var tol := Max(SIZE_EPSILON_ABS, row.size * SIZE_EPSILON_REL);
        if seen.ex.Some? && Abs(diff) <= tol {
          if row.misses != 0 || row.divergent {
            rows := rows[i := row.(misses := 0, divergent := false, exchangeSize := None)];
          }
          continue;
        }
        if seen.ex.Some? && size > row.size + tol {
          rows := rows[i := row.(misses := 0, divergent := true, exchangeSize := Some(size))];
          continue;
        }
        var misses := row.misses + 1;
        rows := rows[i := row.(misses := misses)];
        if misses < threshold { continue; }
        if seen.ex.None? || size <= SIZE_EPSILON_ABS {
          rows := rows[i := rows[i].(open := false)];
        } else {
          rows := rows[i := rows[i].(size := row.size - diff, misses := 0)];
        }
      }
    }
  }
}
