/**
 The ledger of trims of one stance (social-listener/app/db.py: trim_already_taken,
 insert_pending_trim, record_fired_trim, and the status transitions of parked trims).

 A trim is refused when one at the same level was already taken or is parked, and when the
 newest one is too recent. Rows are in order of their ids; times are seconds.
 */
module TrimLedger {
  import opened Prelude
  import P = PostLock

  datatype Status = Pending | Fired | Retired

  datatype Row = Row(level: Option<real>, created: int, status: Status)

  /** Where an emission came from. An emission whose answer was lost is in no row that says so. */
  datatype Origin = Market(row: nat) | FromPark(row: nat) | Unrecorded

  /** An emission that was accepted. */
  datatype Fire = Fire(at: int, origin: Origin)

  datatype Ledger = Ledger(now: int, rows: seq<Row>, fires: seq<Fire>)

  predicate Live(row: Row) {
    !row.status.Retired?
  }

  predicate SameLevel(prev: real, level: real) {
    Abs(prev - level) / Max(Abs(prev), 0.000000001) < 0.0001
  }

  predicate Clashes(row: Row, level: Option<real>) {
    Live(row) && level.Some? && row.level.Some? && SameLevel(row.level.value, level.value)
  }

  /** The newest row that still counts. */
  function Newest(rows: seq<Row>): Option<Row> {
    if rows == [] then None
    else if Live(rows[|rows| - 1]) then Some(rows[|rows| - 1])
    else Newest(rows[..|rows| - 1])
  }

  predicate AlreadyTaken(rows: seq<Row>, level: Option<real>, now: int, interval: nat) {
    || (exists row <- rows :: Clashes(row, level))
    || (Newest(rows).Some? && now - Newest(rows).value.created < interval)
  }

  /** A trim at market is entered only when its emission was answered with success; a parked one
      is then marked fired, and stays parked otherwise. */
  datatype Event =
    | Wait(seconds: nat)
    | FireNow(level: Option<real>, outcome: P.Outcome)
    | Park(at: real)
    | ParkedFires(row: nat, outcome: P.Outcome)
    | Retire(row: nat)

  function Emitted(s: Ledger, outcome: P.Outcome, origin: Origin): seq<Fire> {
    match outcome
    case Accepted => s.fires + [Fire(s.now, origin)]
    case Refused => s.fires
    case LostAfter => s.fires + [Fire(s.now, Unrecorded)]
  }

  function Step(s: Ledger, e: Event, interval: nat): Ledger {
    match e
    case Wait(seconds) => s.(now := s.now + seconds)
    case FireNow(level, outcome) =>
      if AlreadyTaken(s.rows, level, s.now, interval) then s
      else
        var s' := s.(fires := Emitted(s, outcome, Market(|s.rows|)));
        if outcome.Accepted? then s'.(rows := s.rows + [Row(level, s.now, Fired)]) else s'
    case Park(at) =>
      if AlreadyTaken(s.rows, Some(at), s.now, interval) then s
      else s.(rows := s.rows + [Row(Some(at), s.now, Pending)])
    case ParkedFires(i, outcome) =>
      if i >= |s.rows| || !s.rows[i].status.Pending? then s
      else
        var s' := s.(fires := Emitted(s, outcome, FromPark(i)));
        if outcome.Accepted? then s'.(rows := s.rows[i := s.rows[i].(status := Fired)]) else s'
    case Retire(i) =>
      if i < |s.rows| && s.rows[i].status.Pending?
      then s.(rows := s.rows[i := s.rows[i].(status := Retired)])
      else s
  }

  function Run(s: Ledger, es: seq<Event>, interval: nat): Ledger
    decreases |es|
  {
    if es == [] then s else Step(Run(s, es[..|es| - 1], interval), es[|es| - 1], interval)
  }

  function Opened(at: int): Ledger {
    Ledger(at, [], [])
  }

  /** Trims that count were instructed at least an interval apart and never twice at a level. */
  ghost predicate Spaced(s: Ledger, interval: nat) {
    && (forall i :: 0 <= i < |s.rows| ==> s.rows[i].created <= s.now)
    && (forall i, j :: 0 <= i < j < |s.rows| && Live(s.rows[i]) && Live(s.rows[j]) ==>
          && s.rows[j].created >= s.rows[i].created + interval
          && !Clashes(s.rows[i], s.rows[j].level))
  }

  lemma {:induction false} NewestIsLast(rows: seq<Row>, i: nat)
    requires i < |rows| && Live(rows[i])
    ensures Newest(rows).Some? && exists k :: i <= k < |rows| && rows[k] == Newest(rows).value && Live(rows[k])
    decreases |rows|
  {
    var n := |rows| - 1;
    if Live(rows[n]) {
      assert rows[n] == Newest(rows).value;
    } else {
      NewestIsLast(rows[..n], i);
      var k :| i <= k < n && rows[..n][k] == Newest(rows[..n]).value && Live(rows[..n][k]);
      assert rows[k] == Newest(rows).value;
    }
  }

  /** Less than a ten-thousandth of a level, whatever its sign, or less than 1e-13. */
  predicate Tiny(d: real, level: real) {
    10000.0 * d < level || 10000.0 * d < -level || 1000000000.0 * (10000.0 * d) < 1.0
  }

  /** A trim at `level` now would repeat a row. */
  predicate Repeats(row: Row, level: Option<real>, now: int, interval: nat) {
    || now - row.created < interval
    || (level.Some? && row.level.Some?
        && Tiny(row.level.value - level.value, row.level.value)
        && Tiny(level.value - row.level.value, row.level.value))
  }

  lemma RepeatsIff(row: Row, level: Option<real>, now: int, interval: nat)
    requires Live(row)
    ensures Repeats(row, level, now, interval) <==> Clashes(row, level) || now - row.created < interval
  {
    if level.Some? && row.level.Some? {
      QuotientBelow(Abs(row.level.value - level.value), Max(Abs(row.level.value), 0.000000001), 0.0001);
    }
  }

  lemma ClashesAreLive(row: Row, level: Option<real>)
    ensures Clashes(row, level) ==> Live(row)
  {}

  lemma {:induction false} NewestRow(rows: seq<Row>) returns (i: nat)
    requires Newest(rows).Some?
    ensures i < |rows| && rows[i] == Newest(rows).value && Live(rows[i])
    decreases |rows|
  {
    i := |rows| - 1;
    if !Live(rows[i]) { i := NewestRow(rows[..i]); }
  }

  /** A counting row that is repeated makes the trim count as taken: the newest one is as recent. */
  lemma RepeatIsTaken(s: Ledger, level: Option<real>, interval: nat, i: nat)
    requires Spaced(s, interval) && i < |s.rows| && Live(s.rows[i])
    requires Clashes(s.rows[i], level) || s.now - s.rows[i].created < interval
    ensures AlreadyTaken(s.rows, level, s.now, interval)
  {
    NewestIsLast(s.rows, i);
    var k :| i <= k < |s.rows| && s.rows[k] == Newest(s.rows).value && Live(s.rows[k]);
    assert s.rows[k].created >= s.rows[i].created;
    assert s.rows[i] in s.rows;
    hide Clashes, Newest;
  }

  /** What counts as a repeat, in a table whose counting rows were instructed in the order of their
      ids: a counting trim whose level differs by less than a ten-thousandth of itself (or by less
      than 1e-13), or any counting trim instructed within the interval. */
  lemma AlreadyTakenIff(s: Ledger, level: Option<real>, interval: nat)
    requires Spaced(s, interval)
    ensures AlreadyTaken(s.rows, level, s.now, interval) <==>
              exists i :: 0 <= i < |s.rows| && s.rows[i].status != Retired && Repeats(s.rows[i], level, s.now, interval)
  {
    hide Clashes, Repeats, Newest;
    if AlreadyTaken(s.rows, level, s.now, interval) {
      var i: nat;
      if row :| row in s.rows && Clashes(row, level) {
        i :| 0 <= i < |s.rows| && s.rows[i] == row;
        ClashesAreLive(row, level);
      } else {
        i := NewestRow(s.rows);
      }
      RepeatsIff(s.rows[i], level, s.now, interval);
      assert Repeats(s.rows[i], level, s.now, interval);
    }
    if i :| 0 <= i < |s.rows| && s.rows[i].status != Retired && Repeats(s.rows[i], level, s.now, interval) {
      RepeatsIff(s.rows[i], level, s.now, interval);
      RepeatIsTaken(s, level, interval, i);
    }
  }

  lemma AdmittedRowIsSpaced(s: Ledger, row: Row, interval: nat)
    requires Spaced(s, interval) && !AlreadyTaken(s.rows, row.level, s.now, interval) && row.created == s.now
    ensures Spaced(s.(rows := s.rows + [row]), interval)
  {
    var rows := s.rows + [row];
    forall i | 0 <= i < |s.rows| && Live(s.rows[i])
      ensures row.created >= rows[i].created + interval && !Clashes(rows[i], row.level)
    {
      NewestIsLast(s.rows, i);
      var k :| i <= k < |s.rows| && s.rows[k] == Newest(s.rows).value && Live(s.rows[k]);
      assert s.rows[k].created >= s.rows[i].created;
      assert s.rows[i] in s.rows;
    }
  }

  lemma StepIsSpaced(s: Ledger, e: Event, interval: nat)
    requires Spaced(s, interval)
    ensures Spaced(Step(s, e, interval), interval)
  {
    hide AlreadyTaken, SameLevel, Emitted;
    match e
    case FireNow(level, outcome) =>
      if !AlreadyTaken(s.rows, level, s.now, interval) { AdmittedRowIsSpaced(s, Row(level, s.now, Fired), interval); }
    case Park(at) =>
      if !AlreadyTaken(s.rows, Some(at), s.now, interval) {
        AdmittedRowIsSpaced(s, Row(Some(at), s.now, Pending), interval);
      }
    case _ =>
  }

  function LiveRows(rows: seq<Row>): nat {
    if rows == [] then 0 else LiveRows(rows[..|rows| - 1]) + if Live(rows[|rows| - 1]) then 1 else 0
  }

  function FiredRows(rows: seq<Row>): nat {
    if rows == [] then 0 else FiredRows(rows[..|rows| - 1]) + if rows[|rows| - 1].status.Fired? then 1 else 0
  }

  lemma {:induction false} FiredUpdate(rows: seq<Row>, i: nat, row: Row)
    requires i < |rows|
    ensures FiredRows(rows[i := row]) + (if rows[i].status.Fired? then 1 else 0)
         == FiredRows(rows) + (if row.status.Fired? then 1 else 0)
    decreases |rows|
  {
    var n := |rows| - 1;
    if i == n {
      assert rows[i := row][..n] == rows[..n];
    } else {
      assert rows[i := row][..n] == rows[..n][i := row];
      FiredUpdate(rows[..n], i, row);
    }
  }

  lemma FiredOne(rows: seq<Row>, row: Row)
    ensures FiredRows(rows + [row]) == FiredRows(rows) + (if row.status.Fired? then 1 else 0)
  {
    assert (rows + [row])[..|rows|] == rows;
  }

  lemma {:induction false} FiredAreLive(rows: seq<Row>)
    ensures FiredRows(rows) <= LiveRows(rows)
    decreases |rows|
  {
    if rows != [] {
      FiredAreLive(rows[..|rows| - 1]);
    }
  }

  lemma Times(n: int, interval: int)
    ensures n * interval == (n - 1) * interval + interval
  {}

  /** Live rows an interval apart span at least that much time. */
  lemma {:induction false} SpacedRowsSpan(rows: seq<Row>, since: int, until: int, interval: nat)
    requires forall i :: 0 <= i < |rows| ==> since <= rows[i].created
    requires forall i :: 0 <= i < |rows| && Live(rows[i]) ==> rows[i].created <= until
    requires forall i, j :: 0 <= i < j < |rows| && Live(rows[i]) && Live(rows[j]) ==>
        rows[j].created >= rows[i].created + interval
    requires LiveRows(rows) > 0
    ensures (LiveRows(rows) - 1) * interval <= until - since
    decreases |rows|
  {
    var n := |rows| - 1;
    if !Live(rows[n]) {
      SpacedRowsSpan(rows[..n], since, until, interval);
    } else if LiveRows(rows[..n]) > 0 {
      forall i | 0 <= i < n && Live(rows[..n][i])
        ensures rows[..n][i].created <= rows[n].created - interval
      {
        assert rows[i] == rows[..n][i];
      }
      SpacedRowsSpan(rows[..n], since, rows[n].created - interval, interval);
      Times(LiveRows(rows) - 1, interval);
    }
  }

  function Unrecordeds(fires: seq<Fire>): nat {
    if fires == [] then 0
    else Unrecordeds(fires[..|fires| - 1]) + if fires[|fires| - 1].origin.Unrecorded? then 1 else 0
  }

  lemma UnrecordedOne(fires: seq<Fire>, fire: Fire)
    ensures Unrecordeds(fires + [fire]) == Unrecordeds(fires) + (if fire.origin.Unrecorded? then 1 else 0)
  {
    assert (fires + [fire])[..|fires|] == fires;
  }

  /** Every recorded emission has a fired row of its own: made when the row was, at market, or
      some time after it, from the park. */
  ghost predicate Traced(s: Ledger) {
    && (forall a :: 0 <= a < |s.fires| && !s.fires[a].origin.Unrecorded? ==>
          var f := s.fires[a];
          && f.origin.row < |s.rows| && s.rows[f.origin.row].status.Fired? && f.at <= s.now
          && s.rows[f.origin.row].created <= f.at
          && (f.origin.Market? ==> f.at == s.rows[f.origin.row].created))
    && (forall a, b :: 0 <= a < b < |s.fires| && !s.fires[a].origin.Unrecorded? && !s.fires[b].origin.Unrecorded? ==>
          s.fires[a].origin.row != s.fires[b].origin.row)
  }

  ghost predicate Counted(s: Ledger, at: int, interval: nat) {
    && Spaced(s, interval) && at <= s.now
    && (forall i :: 0 <= i < |s.rows| ==> at <= s.rows[i].created)
    && |s.fires| == FiredRows(s.rows) + Unrecordeds(s.fires)
    && Traced(s)
  }

  lemma StepCountsFires(s: Ledger, e: Event, interval: nat)
    requires |s.fires| == FiredRows(s.rows) + Unrecordeds(s.fires)
    ensures var s' := Step(s, e, interval); |s'.fires| == FiredRows(s'.rows) + Unrecordeds(s'.fires)
  {
    hide AlreadyTaken, FiredRows, Unrecordeds;
    match e
    case FireNow(level, outcome) =>
      FiredOne(s.rows, Row(level, s.now, Fired));
      UnrecordedOne(s.fires, Fire(s.now, if outcome.Accepted? then Market(|s.rows|) else Unrecorded));
    case Park(at) => FiredOne(s.rows, Row(Some(at), s.now, Pending));
    case ParkedFires(i, outcome) =>
      if i < |s.rows| { FiredUpdate(s.rows, i, s.rows[i].(status := Fired)); }
      UnrecordedOne(s.fires, Fire(s.now, if outcome.Accepted? then FromPark(i) else Unrecorded));
    case Retire(i) =>
      if i < |s.rows| { FiredUpdate(s.rows, i, s.rows[i].(status := Retired)); }
    case Wait(_) =>
  }

  lemma StepIsTraced(s: Ledger, e: Event, interval: nat)
    requires Traced(s) && forall i :: 0 <= i < |s.rows| ==> s.rows[i].created <= s.now
    ensures Traced(Step(s, e, interval))
  {
    hide AlreadyTaken;
  }

  lemma StepKeepsDates(s: Ledger, e: Event, at: int, interval: nat)
    requires at <= s.now && forall i :: 0 <= i < |s.rows| ==> at <= s.rows[i].created
    ensures var s' := Step(s, e, interval);
            at <= s'.now && forall i :: 0 <= i < |s'.rows| ==> at <= s'.rows[i].created
  {
    hide AlreadyTaken, Emitted;
  }

  lemma StepIsCounted(s: Ledger, e: Event, at: int, interval: nat)
    requires Counted(s, at, interval)
    ensures Counted(Step(s, e, interval), at, interval)
  {
    assert forall i :: 0 <= i < |s.rows| ==> s.rows[i].created <= s.now;
    hide Step, Spaced, FiredRows, Unrecordeds, Traced;
    StepIsSpaced(s, e, interval);
    StepCountsFires(s, e, interval);
    StepKeepsDates(s, e, at, interval);
    StepIsTraced(s, e, interval);
  }

  lemma {:induction false} RunIsCounted(at: int, es: seq<Event>, interval: nat)
    ensures Counted(Run(Opened(at), es, interval), at, interval)
    decreases |es|
  {
    hide Counted, Step;
    if es != [] {
      RunIsCounted(at, es[..|es| - 1], interval);
      StepIsCounted(Run(Opened(at), es[..|es| - 1], interval), es[|es| - 1], at, interval);
    } else {
      NothingIsCounted(at, interval);
    }
  }

  lemma NothingIsCounted(at: int, interval: nat)
    ensures Counted(Opened(at), at, interval)
  {}

  /** Over every run of one stance, however often a card is reposted: trims that count are
      instructed at least the interval apart and never twice at a level that was taken or is
      parked; and no more are accepted than intervals fit into the stance, plus one, plus those
      whose answer was lost. */
  lemma TrimsAreRationed(at: int, es: seq<Event>, interval: nat)
    ensures var s := Run(Opened(at), es, interval);
            && Spaced(s, interval)
            && (|s.fires| > Unrecordeds(s.fires) ==> (|s.fires| - Unrecordeds(s.fires) - 1) * interval <= s.now - at)
  {
    RunIsCounted(at, es, interval);
    var s := Run(Opened(at), es, interval);
    hide Run, Spaced;
    if |s.fires| > Unrecordeds(s.fires) {
      FiresFit(s, at, interval);
    }
  }

  lemma FiresFit(s: Ledger, at: int, interval: nat)
    requires Counted(s, at, interval) && FiredRows(s.rows) > 0
    ensures (FiredRows(s.rows) - 1) * interval <= s.now - at
  {
    FiredAreLive(s.rows);
    SpacedRowsSpan(s.rows, at, s.now, interval);
    FewerTimes(FiredRows(s.rows) - 1, LiveRows(s.rows) - 1, interval);
  }

  lemma FewerTimes(m: int, n: int, interval: nat)
    requires m <= n
    ensures m * interval <= n * interval
  {
    assert (n - m) * interval >= 0;
  }

  /** Two recorded trims in the order of their instructions: the second was instructed an interval
      after the first, and goes out an interval after it when the first went out at market. */
  lemma MarketTrimIsFollowedLate(at: int, es: seq<Event>, interval: nat, a: nat, b: nat)
    requires var s := Run(Opened(at), es, interval);
             && a < |s.fires| && b < |s.fires|
             && !s.fires[a].origin.Unrecorded? && !s.fires[b].origin.Unrecorded?
             && s.fires[a].origin.row < s.fires[b].origin.row
    ensures var s := Run(Opened(at), es, interval);
            var first, second := s.fires[a], s.fires[b];
            && second.origin.row < |s.rows|
            && s.rows[second.origin.row].created >= s.rows[first.origin.row].created + interval
            && (first.origin.Market? ==> second.at >= first.at + interval)
  {
    RunIsCounted(at, es, interval);
    hide Run, AlreadyTaken;
  }

  predicate Apart(f: Fire, g: Fire, interval: nat) {
    f.at + interval <= g.at || g.at + interval <= f.at
  }

  /** Whatever happens from here on, no other recorded trim is within the interval of the given
      one, before it or after. */
  ghost predicate StaysApart(s: Ledger, k: nat, interval: nat)
    requires k < |s.fires|
  {
    forall es: seq<Event>, b: nat ::
      b < |Run(s, es, interval).fires| && b != k && !Run(s, es, interval).fires[b].origin.Unrecorded? ==>
        Apart(s.fires[k], Run(s, es, interval).fires[b], interval)
  }

  /** No trim is parked, and none left the park within the interval, the given one aside. */
  predicate ParkIsQuiet(s: Ledger, k: nat, interval: nat) {
    && (forall row <- s.rows :: !row.status.Pending?)
    && (forall b: nat :: b < |s.fires| && b != k && s.fires[b].origin.FromPark? ==> s.fires[b].at + interval <= s.now)
  }

  /** Every row marked fired has its emission. */
  ghost predicate Sent(s: Ledger) {
    forall i :: 0 <= i < |s.rows| && s.rows[i].status.Fired? ==>
      exists b: nat :: b < |s.fires| && !s.fires[b].origin.Unrecorded? && s.fires[b].origin.row == i
  }

  lemma StepIsSent(s: Ledger, e: Event, interval: nat)
    requires Sent(s)
    ensures Sent(Step(s, e, interval))
  {
    hide AlreadyTaken;
    var s' := Step(s, e, interval);
    assert s.fires <= s'.fires;
    forall i | 0 <= i < |s'.rows| && s'.rows[i].status.Fired?
      ensures exists b: nat :: b < |s'.fires| && !s'.fires[b].origin.Unrecorded? && s'.fires[b].origin.row == i
    {
      if i < |s.rows| && s.rows[i].status.Fired? {
        var b: nat :| b < |s.fires| && !s.fires[b].origin.Unrecorded? && s.fires[b].origin.row == i;
        assert s'.fires[b] == s.fires[b];
      } else {
        assert s'.fires[|s.fires|].origin.row == i;
      }
    }
  }

  lemma {:induction false} RunIsSent(at: int, es: seq<Event>, interval: nat)
    ensures Sent(Run(Opened(at), es, interval))
    decreases |es|
  {
    hide Step;
    if es != [] {
      RunIsSent(at, es[..|es| - 1], interval);
      StepIsSent(Run(Opened(at), es[..|es| - 1], interval), es[|es| - 1], interval);
    }
  }

  /** A recorded trim that went out in the second of its instruction, apart from the others, with
      nothing parked that was instructed before it. */
  ghost predicate Alone(s: Ledger, k: nat, interval: nat) {
    && k < |s.fires| && !s.fires[k].origin.Unrecorded? && s.fires[k].origin.row < |s.rows|
    && Live(s.rows[s.fires[k].origin.row]) && s.rows[s.fires[k].origin.row].created == s.fires[k].at
    && (forall i :: 0 <= i < |s.rows| && s.rows[i].status.Pending? ==> i > s.fires[k].origin.row)
    && (forall b: nat :: b < |s.fires| && b != k && !s.fires[b].origin.Unrecorded? ==>
          Apart(s.fires[k], s.fires[b], interval))
  }

  lemma StepLeavesAlone(s: Ledger, e: Event, k: nat, interval: nat)
    requires Spaced(s, interval) && Alone(s, k, interval)
    requires s.rows[s.fires[k].origin.row].status.Fired?
    ensures var s' := Step(s, e, interval);
            && s.fires <= s'.fires && Alone(s', k, interval) && s'.rows[s'.fires[k].origin.row].status.Fired?
  {
    StepIsSpaced(s, e, interval);
    hide AlreadyTaken, SameLevel, Clashes;
    var s', f := Step(s, e, interval), s.fires[k];
    assert s'.fires[k] == f;
    forall b: nat | b < |s'.fires| && b != k && !s'.fires[b].origin.Unrecorded?
      ensures Apart(f, s'.fires[b], interval)
    {
      if b < |s.fires| {
        assert s'.fires[b] == s.fires[b];
      } else {
        assert s'.rows[s'.fires[b].origin.row].created >= s'.rows[f.origin.row].created + interval;
      }
    }
  }

  lemma {:induction false} RunLeavesAlone(s: Ledger, es: seq<Event>, k: nat, interval: nat)
    requires Spaced(s, interval) && Alone(s, k, interval)
    requires s.rows[s.fires[k].origin.row].status.Fired?
    ensures var s' := Run(s, es, interval);
            && Spaced(s', interval) && s.fires <= s'.fires
            && Alone(s', k, interval) && s'.rows[s'.fires[k].origin.row].status.Fired?
    decreases |es|
  {
    hide Step, Spaced;
    if es != [] {
      var before := Run(s, es[..|es| - 1], interval);
      RunLeavesAlone(s, es[..|es| - 1], k, interval);
      StepIsSpaced(before, es[|es| - 1], interval);
      StepLeavesAlone(before, es[|es| - 1], k, interval);
      assert s.fires[k] == before.fires[k];
    }
  }

  /** Two continuations that crowd a trim: a parked row fires at once, or a trim at market is
      instructed as soon as the table admits one. */
  lemma ParkedRowCrowds(s: Ledger, k: nat, i: nat, interval: nat)
    requires interval > 0 && k < |s.fires| && s.fires[k].at == s.now
    requires i < |s.rows| && s.rows[i].status.Pending?
    ensures !StaysApart(s, k, interval)
  {
    var es := [ParkedFires(i, P.Accepted)];
    assert Run(s, es, interval) == Step(Run(s, [], interval), es[0], interval) == Step(s, es[0], interval) by {
      assert es[..0] == [];
    }
    var s' := Run(s, es, interval);
    assert s'.fires == s.fires + [Fire(s.now, FromPark(i))];
    assert !Apart(s.fires[k], s'.fires[|s.fires|], interval);
  }

  lemma NextTrimCrowds(s: Ledger, k: nat, interval: nat)
    requires interval > 0 && k < |s.fires| && s.fires[k].at == s.now
    requires Newest(s.rows).Some? && Newest(s.rows).value.created < s.now
    ensures !StaysApart(s, k, interval)
  {
    var due := Newest(s.rows).value.created + interval;
    var wait := if due > s.now then due - s.now else 0;
    var es := [Wait(wait), FireNow(None, P.Accepted)];
    assert es[..1] == [Wait(wait)] && es[..1][..0] == [];
    var waited := s.(now := s.now + wait);
    assert Run(s, es[..1], interval) == Step(Run(s, [], interval), Wait(wait), interval) == waited;
    assert !AlreadyTaken(waited.rows, None, waited.now, interval);
    var s' := Run(s, es, interval);
    assert s'.fires == s.fires + [Fire(waited.now, Market(|s.rows|))];
    assert !Apart(s.fires[k], s'.fires[|s.fires|], interval);
  }

  lemma StaysApartNow(s: Ledger, k: nat, b: nat, interval: nat)
    requires k < |s.fires| && b < |s.fires| && b != k && !s.fires[b].origin.Unrecorded?
    requires StaysApart(s, k, interval)
    ensures Apart(s.fires[k], s.fires[b], interval)
  {
    var es: seq<Event> := [];
    assert Run(s, es, interval) == s;
  }

  /** A trim that has just gone out stays the interval away from every other one, in every
      continuation, exactly when it was instructed this very second, nothing is parked, and
      nothing left the park within the interval. */
  lemma StaysApartIff(s: Ledger, at: int, k: nat, interval: nat)
    requires Counted(s, at, interval) && Sent(s) && interval > 0
    requires k < |s.fires| && !s.fires[k].origin.Unrecorded? && s.fires[k].at == s.now
    ensures s.fires[k].origin.row < |s.rows|
    ensures StaysApart(s, k, interval) <==>
              s.rows[s.fires[k].origin.row].created == s.now && ParkIsQuiet(s, k, interval)
  {
    hide AlreadyTaken, FiredRows, Unrecordeds, Run, Step;
    var f := s.fires[k];
    var r := f.origin.row;
    if s.rows[r].created == s.now && ParkIsQuiet(s, k, interval) {
      assert Alone(s, k, interval) by { QuietIsAlone(s, at, k, interval); }
      forall es: seq<Event>, b: nat
        | b < |Run(s, es, interval).fires| && b != k && !Run(s, es, interval).fires[b].origin.Unrecorded?
        ensures Apart(f, Run(s, es, interval).fires[b], interval)
      {
        RunLeavesAlone(s, es, k, interval);
      }
    } else if StaysApart(s, k, interval) {
      NoisyIsCrowded(s, at, k, interval);
      assert false;
    }
  }

  lemma QuietIsAlone(s: Ledger, at: int, k: nat, interval: nat)
    requires Counted(s, at, interval) && interval > 0
    requires k < |s.fires| && !s.fires[k].origin.Unrecorded? && s.fires[k].at == s.now
    requires s.rows[s.fires[k].origin.row].created == s.now && ParkIsQuiet(s, k, interval)
    ensures Alone(s, k, interval)
  {
    hide Clashes, FiredRows, Unrecordeds;
    var f := s.fires[k];
    forall b: nat | b < |s.fires| && b != k && !s.fires[b].origin.Unrecorded?
      ensures Apart(f, s.fires[b], interval)
    {
      var g := s.fires[b];
      assert g.origin.row != f.origin.row;
      if g.origin.Market? {
        assert s.rows[g.origin.row].created == g.at && Live(s.rows[g.origin.row]) && Live(s.rows[f.origin.row]);
      }
    }
    assert forall i :: 0 <= i < |s.rows| ==> s.rows[i] in s.rows;
  }

  lemma OtherTrimCrowds(s: Ledger, k: nat, b: nat, interval: nat)
    requires k < |s.fires| && b < |s.fires| && b != k && !s.fires[b].origin.Unrecorded?
    requires s.fires[k].at == s.now >= s.fires[b].at > s.now - interval
    ensures !StaysApart(s, k, interval)
  {
    hide StaysApart;
    if StaysApart(s, k, interval) { StaysApartNow(s, k, b, interval); }
  }

  /** The trim was instructed earlier: either a newer row fired this very second, or the table
      admits the next trim too soon. */
  lemma EarlierTrimIsCrowded(s: Ledger, k: nat, interval: nat)
    requires Traced(s) && Sent(s) && interval > 0
    requires forall row <- s.rows :: row.created <= s.now && !row.status.Pending?
    requires k < |s.fires| && !s.fires[k].origin.Unrecorded? && s.fires[k].at == s.now
    requires s.rows[s.fires[k].origin.row].created < s.now
    ensures !StaysApart(s, k, interval)
  {
    hide StaysApart;
    var r := s.fires[k].origin.row;
    NewestIsLast(s.rows, r);
    var n :| r <= n < |s.rows| && s.rows[n] == Newest(s.rows).value && Live(s.rows[n]);
    if s.rows[n].created < s.now {
      NextTrimCrowds(s, k, interval);
    } else {
      var b: nat :| b < |s.fires| && !s.fires[b].origin.Unrecorded? && s.fires[b].origin.row == n;
      OtherTrimCrowds(s, k, b, interval);
    }
  }

  lemma NoisyIsCrowded(s: Ledger, at: int, k: nat, interval: nat)
    requires Counted(s, at, interval) && Sent(s) && interval > 0
    requires k < |s.fires| && !s.fires[k].origin.Unrecorded? && s.fires[k].at == s.now
    requires s.rows[s.fires[k].origin.row].created != s.now || !ParkIsQuiet(s, k, interval)
    ensures !StaysApart(s, k, interval)
  {
    hide Clashes, FiredRows, Unrecordeds, StaysApart, Sent;
    assert forall row <- s.rows :: row.created <= s.now;
    if i: nat :| i < |s.rows| && s.rows[i].status.Pending? {
      ParkedRowCrowds(s, k, i, interval);
    } else if b: nat :| b < |s.fires| && b != k && s.fires[b].origin.FromPark? && s.fires[b].at + interval > s.now {
      OtherTrimCrowds(s, k, b, interval);
    } else {
      EarlierTrimIsCrowded(s, k, interval);
    }
  }

  /** When a trim at market is sure to keep its interval to the trims before and after it, judged
      before it is sent, in every state a stance can reach: exactly when no trim is parked and none
      left the park within the interval. */
  lemma MarketTrimStaysApartIff(at: int, es: seq<Event>, level: Option<real>, interval: nat)
    requires interval > 0
    requires var s := Run(Opened(at), es, interval); !AlreadyTaken(s.rows, level, s.now, interval)
    ensures var s := Run(Opened(at), es, interval);
            var sent := Step(s, FireNow(level, P.Accepted), interval);
            && |sent.fires| == |s.fires| + 1
            && (StaysApart(sent, |s.fires|, interval) <==>
                  && (forall row <- s.rows :: !row.status.Pending?)
                  && (forall f <- s.fires :: f.origin.FromPark? ==> f.at + interval <= s.now))
  {
    hide Run, AlreadyTaken, StaysApart, Spaced, FiredRows, Unrecordeds, Traced, Sent;
    var s := Run(Opened(at), es, interval);
    RunIsCounted(at, es, interval);
    RunIsSent(at, es, interval);
    StepIsCounted(s, FireNow(level, P.Accepted), at, interval);
    StepIsSent(s, FireNow(level, P.Accepted), interval);
    var sent := Step(s, FireNow(level, P.Accepted), interval);
    StaysApartIff(sent, at, |s.fires|, interval);
    assert forall b: nat :: b < |s.fires| ==> sent.fires[b] == s.fires[b];
    assert sent.rows == s.rows + [Row(level, s.now, Fired)];
  }

  /** The same for a parked trim whose level was reached: only one that fires in the second it was
      parked, beside no other, is sure to keep its interval. */
  lemma ParkedTrimStaysApartIff(at: int, es: seq<Event>, i: nat, interval: nat)
    requires interval > 0
    requires var s := Run(Opened(at), es, interval); i < |s.rows| && s.rows[i].status.Pending?
    ensures var s := Run(Opened(at), es, interval);
            var sent := Step(s, ParkedFires(i, P.Accepted), interval);
            && |sent.fires| == |s.fires| + 1
            && (StaysApart(sent, |s.fires|, interval) <==>
                  && s.rows[i].created == s.now
                  && (forall j :: 0 <= j < |s.rows| && s.rows[j].status.Pending? ==> j == i)
                  && (forall f <- s.fires :: f.origin.FromPark? ==> f.at + interval <= s.now))
  {
    hide Run, AlreadyTaken, StaysApart, Spaced, FiredRows, Unrecordeds, Traced, Sent;
    var s := Run(Opened(at), es, interval);
    RunIsCounted(at, es, interval);
    RunIsSent(at, es, interval);
    StepIsCounted(s, ParkedFires(i, P.Accepted), at, interval);
    StepIsSent(s, ParkedFires(i, P.Accepted), interval);
    var sent := Step(s, ParkedFires(i, P.Accepted), interval);
    StaysApartIff(sent, at, |s.fires|, interval);
    assert forall b: nat :: b < |s.fires| ==> sent.fires[b] == s.fires[b];
    assert forall j :: 0 <= j < |s.rows| && j != i ==> sent.rows[j] == s.rows[j];
  }

  /** A parked trim that fires after two hours and a market trim in the same second. */
  lemma ParkedTrimFiresBesideAnother()
    ensures var parked := Step(Step(Opened(0), Park(64.0), 1800), Wait(7200), 1800);
            Step(Step(parked, ParkedFires(0, P.Accepted), 1800), FireNow(None, P.Accepted), 1800).fires
              == [Fire(7200, FromPark(0)), Fire(7200, Market(1))]
  {
    var parked := Step(Step(Opened(0), Park(64.0), 1800), Wait(7200), 1800);
    assert parked == Ledger(7200, [Row(Some(64.0), 0, Pending)], []);
    var fired := Step(parked, ParkedFires(0, P.Accepted), 1800);
    assert fired == Ledger(7200, [Row(Some(64.0), 0, Fired)], [Fire(7200, FromPark(0))]);
    assert Newest(fired.rows) == Some(Row(Some(64.0), 0, Fired));
  }

  /** The rows of one stance, as the database holds them. */
  class TrimTable {
    var ledger: Ledger

    constructor (at: int)
      ensures ledger == Opened(at)
    {
      ledger := Opened(at);
    }

    /** Whether a trim must not run, found by a walk over the rows that count. */
    method TrimAlreadyTaken(level: Option<real>, interval: nat) returns (taken: bool)
      ensures taken <==> AlreadyTaken(ledger.rows, level, ledger.now, interval)
    {
      hide SameLevel;
      var rows := ledger.rows;
      var newest: Option<Row> := None;
      taken := false;
      for i := 0 to |rows|
        invariant newest == Newest(rows[..i])
        invariant taken <==> exists j :: 0 <= j < i && Clashes(rows[j], level)
      {
        assert rows[..i + 1][..i] == rows[..i];
        if Live(rows[i]) {
          newest := Some(rows[i]);
          taken := taken || Clashes(rows[i], level);
        }
      }
      assert rows[..|rows|] == rows;
      taken := taken || (newest.Some? && ledger.now - newest.value.created < interval);
    }

    /** Sends a trim; the answer may be a refusal, or never come. */
    method Emit(outcome: P.Outcome, origin: Origin) returns (ok: bool)
      modifies this
      ensures ledger == old(ledger).(fires := Emitted(old(ledger), outcome, origin))
      ensures ok <==> outcome.Accepted?
    {
      if !outcome.Refused? {
        ledger := ledger.(fires := ledger.fires + [Fire(ledger.now, if outcome.Accepted? then origin else Unrecorded)]);
      }
      ok := outcome.Accepted?;
    }

    /** A trim at market: refused as a repeat, or sent, and entered when that went well. */
    method FireAtMarket(level: Option<real>, outcome: P.Outcome, interval: nat) returns (ok: bool)
      modifies this
      ensures ledger == Step(old(ledger), FireNow(level, outcome), interval)
      ensures ok <==> outcome.Accepted? && !AlreadyTaken(old(ledger).rows, level, old(ledger).now, interval)
    {
      hide AlreadyTaken, Emitted;
      var taken := TrimAlreadyTaken(level, interval);
      if taken {
        return false;
      }
      ok := Emit(outcome, Market(|ledger.rows|));
      if ok {
        ledger := ledger.(rows := ledger.rows + [Row(level, ledger.now, Fired)]);
      }
    }

    /** A trim the market has not reached. */
    method ParkAt(level: real, interval: nat) returns (parked: bool)
      modifies this
      ensures ledger == Step(old(ledger), Park(level), interval)
      ensures parked <==> !AlreadyTaken(old(ledger).rows, Some(level), old(ledger).now, interval)
    {
      hide AlreadyTaken;
      var taken := TrimAlreadyTaken(Some(level), interval);
      parked := !taken;
      if parked {
        ledger := ledger.(rows := ledger.rows + [Row(Some(level), ledger.now, Pending)]);
      }
    }

    /** A parked trim whose level was reached: left parked unless the answer was a success. */
    method FireParked(i: nat, outcome: P.Outcome, interval: nat)
      modifies this
      ensures ledger == Step(old(ledger), ParkedFires(i, outcome), interval)
    {
      hide Emitted;
      if i < |ledger.rows| && ledger.rows[i].status.Pending? {
        var ok := Emit(outcome, FromPark(i));
        if ok { Resolve(i, Fired); }
      }
    }

    /** A status transition leaves rows alone that are no longer pending. */
    method Resolve(i: nat, status: Status)
      modifies this
      ensures ledger == if i < |old(ledger).rows| && old(ledger).rows[i].status.Pending?
                        then old(ledger).(rows := old(ledger).rows[i := old(ledger).rows[i].(status := status)])
                        else old(ledger)
    {
      if i < |ledger.rows| && ledger.rows[i].status.Pending? {
        ledger := ledger.(rows := ledger.rows[i := ledger.rows[i].(status := status)]);
      }
    }
  }
}
