/**
 The crash-safe notification consumer (notification-service/app/consumer.py): an entry of the
 stream is checked against the log, dispatched, logged and acknowledged, and any of these can
 fail; what was not acknowledged is read again after a restart.
 */
module Consumer {
  import opened Prelude

  type Key = nat

  /** The deduplication window, 24 hours in milliseconds. */
  const WINDOW := 86_400_000

  const BATCH := 10

  /** NoData carries no payload, Unreadable one that does not parse; `known` is whether the
      event type can be rendered. */
  datatype Body = NoData | Unreadable | Message(key: Option<Key>, known: bool)

  datatype Entry = Entry(id: nat, body: Body)

  datatype Row = Row(entry: nat, key: Option<Key>, at: int)

  /** `logged` is false for a dispatch whose log row was never written. */
  datatype Send = Send(entry: nat, key: Option<Key>, at: int, logged: bool)

  datatype Fate = FailsBeforeSend | FailsBeforeLog | FailsBeforeAck | Completes

  /** One pass over an entry: the time until it is looked up, the time its dispatch takes, the
      time its log row takes, and how far it gets. */
  datatype Attempt = Attempt(wait: nat, sending: nat, logging: nat, fate: Fate)

  datatype State = State(
    now: int, delivered: seq<Entry>, pending: seq<Entry>, acked: set<Entry>, log: seq<Row>, sends: seq<Send>)

  datatype Event = Deliver(body: Body) | Process(entry: Entry, attempt: Attempt)

  /** A row of the key in the window, whatever its status. */
  predicate AlreadySent(log: seq<Row>, key: Option<Key>, now: int) {
    key.Some? && exists r <- log :: r.key == key && r.at > now - WINDOW
  }

  function Without(p: seq<Entry>, e: Entry): seq<Entry> {
    if p == [] then [] else if p[0] == e then p[1..] else [p[0]] + Without(p[1..], e)
  }

  function Ack(s: State, e: Entry): State {
    s.(pending := Without(s.pending, e), acked := s.acked + {e})
  }

  /** The log row, and the acknowledgement if nothing fails in between. */
  function Conclude(s: State, e: Entry, a: Attempt): State
    requires e.body.Message?
  {
    var at := s.now + a.logging;
    var s' := s.(now := at, log := s.log + [Row(e.id, e.body.key, at)]);
    if a.fate.Completes? then Ack(s', e) else s'
  }

  function ProcessEntry(s0: State, e: Entry, a: Attempt): State {
    var s := s0.(now := s0.now + a.wait);
    match e.body
    case NoData => if a.fate.Completes? then Ack(s, e) else s
    case Unreadable => s
    case Message(key, known) =>
      if AlreadySent(s.log, key, s.now) || !known then
        if a.fate.FailsBeforeSend? || a.fate.FailsBeforeLog? then s else Conclude(s, e, a)
      else if a.fate.FailsBeforeSend? then s
      else
        var at := s.now + a.sending;
        var s' := s.(now := at, sends := s.sends + [Send(e.id, key, at, !a.fate.FailsBeforeLog?)]);
        if a.fate.FailsBeforeLog? then s' else Conclude(s', e, a)
  }

  function Step(s: State, ev: Event): State {
    match ev
    case Deliver(body) =>
      var e := Entry(|s.delivered|, body);
      s.(delivered := s.delivered + [e], pending := s.pending + [e])
    case Process(e, a) => if e in s.pending then ProcessEntry(s, e, a) else s
  }

  function Run(s: State, es: seq<Event>): State
    decreases |es|
  {
    if es == [] then s else Step(Run(s, es[..|es| - 1]), es[|es| - 1])
  }

  const Initial: State := State(0, [], [], {}, [], [])

  /** What one attempt at a pending entry comes to, by how far it gets: a message is dispatched
      exactly when it can be rendered, is no repeat and the attempt gets there; it is logged,
      dispatched or not, exactly when the attempt gets that far; and the entry is acknowledged
      exactly when the attempt completes, unless it cannot be read at all. */
  lemma AttemptOutcome(s: State, e: Entry, a: Attempt)
    requires e in s.pending
    ensures var s' := Step(s, Process(e, a));
            var repeat := e.body.Message? && AlreadySent(s.log, e.body.key, s.now + a.wait);
            var sent := e.body.Message? && e.body.known && !repeat && a.fate != FailsBeforeSend;
            var logged := e.body.Message? && (a.fate == FailsBeforeAck || a.fate == Completes);
            && (if sent
                then && |s'.sends| == |s.sends| + 1
                     && s'.sends[..|s.sends|] == s.sends && s'.sends[|s.sends|].entry == e.id
                     && s'.sends[|s.sends|].key == e.body.key && (s'.sends[|s.sends|].logged <==> logged)
                else s'.sends == s.sends)
            && (if logged
                then |s'.log| == |s.log| + 1 && s'.log[..|s.log|] == s.log
                     && s'.log[|s.log|] == Row(e.id, e.body.key, s'.now)
                else s'.log == s.log)
            && s'.acked == s.acked + (if a.fate == Completes && e.body != Unreadable then {e} else {})
            && s'.now >= s.now && s'.delivered == s.delivered
  {
    hide AlreadySent, Without;
  }

  // ---------------------------------------------------------------------------------
  // Nothing is lost
  // ---------------------------------------------------------------------------------

  predicate Logged(log: seq<Row>, id: nat) {
    exists r <- log :: r.entry == id
  }

  /** No id is pending twice. */
  ghost predicate Consistent(p: seq<Entry>) {
    forall i, j :: 0 <= i < j < |p| ==> p[i].id != p[j].id
  }

  /** Every delivered entry is pending or acknowledged, never both; the acknowledged ones that
      carry a message are in the log. */
  ghost predicate Safe(s: State) {
    && (forall e <- s.delivered :: e in s.pending || e in s.acked)
    && (forall e <- s.pending :: e in s.delivered && e !in s.acked)
    && (forall e <- s.acked :: e in s.delivered && !e.body.Unreadable?)
    && (forall e <- s.acked :: e.body.Message? ==> Logged(s.log, e.id))
    && (forall e <- s.delivered :: e.id < |s.delivered|)
    && Consistent(s.pending)
  }

  lemma {:induction false} WithoutRemoves(p: seq<Entry>, e: Entry)
    requires Consistent(p)
    ensures Consistent(Without(p, e))
    ensures forall x :: x in Without(p, e) <==> x in p && x != e
    ensures e !in p ==> Without(p, e) == p
    decreases |p|
  {
    if p != [] {
      var rest := p[1..];
      assert p == [p[0]] + rest;
      assert p[0] !in rest;
      if p[0] != e {
        WithoutRemoves(rest, e);
        var w := Without(rest, e);
        forall j | 0 <= j < |w|
          ensures w[j].id != p[0].id
        {
          assert w[j] in rest;
        }
      }
    }
  }

  lemma AckIsSafe(s: State, e: Entry)
    requires Safe(s) && e in s.pending && !e.body.Unreadable? && (e.body.Message? ==> Logged(s.log, e.id))
    ensures Safe(Ack(s, e))
  {
    WithoutRemoves(s.pending, e);
  }

  lemma GrowingLogIsSafe(s: State, row: Row, s': State)
    requires Safe(s) && s'.log == s.log + [row]
    requires s'.delivered == s.delivered && s'.pending == s.pending && s'.acked == s.acked
    ensures Safe(s') && Logged(s'.log, row.entry)
  {
    assert row in s'.log;
    forall e | e in s.acked && e.body.Message?
      ensures Logged(s'.log, e.id)
    {
      var r :| r in s.log && r.entry == e.id;
      assert r in s'.log;
    }
  }

  lemma ConcludeIsSafe(s: State, e: Entry, a: Attempt)
    requires Safe(s) && e in s.pending && e.body.Message?
    ensures Safe(Conclude(s, e, a))
  {
    hide Safe, Ack;
    var at := s.now + a.logging;
    var row := Row(e.id, e.body.key, at);
    var s' := s.(now := at, log := s.log + [row]);
    GrowingLogIsSafe(s, row, s');
    if a.fate.Completes? {
      AckIsSafe(s', e);
    }
  }

  lemma StepIsSafe(s: State, ev: Event)
    requires Safe(s)
    ensures Safe(Step(s, ev))
  {
    match ev
    case Deliver(body) =>
    case Process(e, a) =>
      if e in s.pending {
        ProcessIsSafe(s, e, a);
      }
  }

  lemma ClockAndSendsAreSafe(s: State, now: int, sends: seq<Send>)
    requires Safe(s)
    ensures Safe(s.(now := now, sends := sends))
  {}

  lemma ProcessIsSafe(s: State, e: Entry, a: Attempt)
    requires Safe(s) && e in s.pending
    ensures Safe(ProcessEntry(s, e, a))
  {
    hide Safe, Conclude, AlreadySent, Ack;
    var s1 := s.(now := s.now + a.wait);
    ClockAndSendsAreSafe(s, s1.now, s.sends);
    match e.body
    case NoData => AckIsSafe(s1, e);
    case Unreadable =>
    case Message(key, known) =>
      ConcludeIsSafe(s1, e, a);
      var at := s1.now + a.sending;
      var sends := s.sends + [Send(e.id, key, at, !a.fate.FailsBeforeLog?)];
      ClockAndSendsAreSafe(s1, at, sends);
      ConcludeIsSafe(s1.(now := at, sends := sends), e, a);
  }

  /** Over every run, failing anywhere any number of times: an acknowledged entry with a message
      has a log row, and an entry without one is still pending. */
  lemma {:induction false} NothingIsLost(es: seq<Event>)
    ensures Safe(Run(Initial, es))
    ensures var s := Run(Initial, es);
            forall e <- s.delivered :: e.body.Message? && !Logged(s.log, e.id) ==> e in s.pending
    decreases |es|
  {
    if es != [] {
      NothingIsLost(es[..|es| - 1]);
      StepIsSafe(Run(Initial, es[..|es| - 1]), es[|es| - 1]);
    }
  }

  // ---------------------------------------------------------------------------------
  // Deduplication
  // ---------------------------------------------------------------------------------

  ghost predicate Covered(log: seq<Row>, send: Send) {
    exists r <- log :: r.key == send.key && r.at >= send.at
  }

  /** A dispatch that was logged keeps its key quiet for a whole window. */
  ghost predicate Spaced(s: State) {
    && (forall x <- s.sends :: x.logged && x.key.Some? ==> Covered(s.log, x))
    && (forall i, j :: 0 <= i < j < |s.sends| ==>
          s.sends[i].logged && s.sends[i].key.Some? && s.sends[i].key == s.sends[j].key ==>
          s.sends[j].at >= s.sends[i].at + WINDOW)
  }

  lemma CoveredGrows(log: seq<Row>, row: Row, x: Send)
    requires Covered(log, x)
    ensures Covered(log + [row], x)
  {
    var r :| r in log && r.key == x.key && r.at >= x.at;
    assert r in log + [row];
  }

  lemma ConcludeIsSpaced(s: State, e: Entry, a: Attempt, x: Send)
    requires e.body.Message? && Covered(s.log, x)
    ensures Covered(Conclude(s, e, a).log, x)
  {
    CoveredGrows(s.log, Row(e.id, e.body.key, s.now + a.logging), x);
  }

  lemma QuietKey(s: State, key: Option<Key>, now: int, i: nat)
    requires Spaced(s) && !AlreadySent(s.log, key, now)
    requires i < |s.sends| && s.sends[i].logged && key.Some? && s.sends[i].key == key
    ensures now >= s.sends[i].at + WINDOW
  {
    var x := s.sends[i];
    assert x in s.sends;
    var r :| r in s.log && r.key == x.key && r.at >= x.at;
    assert r.at <= now - WINDOW;
  }

  /** The state between the dispatch of a message and its log row. */
  function Dispatched(s: State, e: Entry, a: Attempt): State
    requires e.body.Message?
  {
    var at := s.now + a.wait + a.sending;
    s.(now := at, sends := s.sends + [Send(e.id, e.body.key, at, !a.fate.FailsBeforeLog?)])
  }

  lemma DispatchIsSpaced(s: State, e: Entry, a: Attempt)
    requires Spaced(s) && e.body.Message? && !AlreadySent(s.log, e.body.key, s.now + a.wait)
    ensures Spaced(if a.fate.FailsBeforeLog? then Dispatched(s, e, a) else Conclude(Dispatched(s, e, a), e, a))
  {
    hide AlreadySent, Without, Covered;
    var mid := Dispatched(s, e, a);
    var s' := if a.fate.FailsBeforeLog? then mid else Conclude(mid, e, a);
    assert s'.sends == mid.sends;
    forall x | x in s'.sends && x.logged && x.key.Some?
      ensures Covered(s'.log, x)
    {
      if x in s.sends {
        if s'.log != s.log { ConcludeIsSpaced(mid, e, a, x); }
      } else {
        NewRowCovers(s.log, Row(e.id, e.body.key, mid.now + a.logging), x);
      }
    }
    forall i, j | 0 <= i < j < |s'.sends| && s'.sends[i].logged && s'.sends[i].key.Some?
        && s'.sends[i].key == s'.sends[j].key
      ensures s'.sends[j].at >= s'.sends[i].at + WINDOW
    {
      if j == |s.sends| {
        QuietKey(s, e.body.key, s.now + a.wait, i);
      }
    }
  }

  lemma NewRowCovers(log: seq<Row>, row: Row, x: Send)
    requires row.key == x.key && row.at >= x.at
    ensures Covered(log + [row], x)
  {
    assert (log + [row])[|log|] == row;
  }

  lemma SkipIsSpaced(s: State, e: Entry, a: Attempt)
    requires Spaced(s) && e.body.Message?
    ensures Spaced(Conclude(s, e, a))
  {
    hide Covered, Without;
    forall x | x in s.sends && x.logged && x.key.Some?
      ensures Covered(Conclude(s, e, a).log, x)
    {
      ConcludeIsSpaced(s, e, a, x);
    }
  }

  lemma ProcessIsSpaced(s: State, e: Entry, a: Attempt)
    requires Spaced(s)
    ensures Spaced(ProcessEntry(s, e, a))
  {
    hide AlreadySent, Without, Conclude, Spaced;
    var s1 := s.(now := s.now + a.wait);
    assert Spaced(s1) by { ClockIsSpaced(s, s1.now); }
    if e.body.Message? {
      SkipIsSpaced(s1, e, a);
      if !AlreadySent(s1.log, e.body.key, s1.now) {
        DispatchIsSpaced(s, e, a);
      }
    } else {
      AckIsSpaced(s1, e);
    }
  }

  lemma ClockIsSpaced(s: State, now: int)
    requires Spaced(s)
    ensures Spaced(s.(now := now))
  {}

  lemma AckIsSpaced(s: State, e: Entry)
    requires Spaced(s)
    ensures Spaced(Ack(s, e))
  {}

  /** Over every run: two dispatches of one key less than a window apart mean that the earlier
      one failed before its log row was written. */
  lemma {:induction false} DispatchesAreSpaced(es: seq<Event>)
    ensures Spaced(Run(Initial, es))
    decreases |es|
  {
    if es != [] {
      var s := Run(Initial, es[..|es| - 1]);
      DispatchesAreSpaced(es[..|es| - 1]);
      match es[|es| - 1]
      case Deliver(body) =>
      case Process(e, a) =>
        if e in s.pending {
          ProcessIsSpaced(s, e, a);
        }
    }
  }

  /** At exactly a window after the log row the key may be dispatched again. */
  lemma WindowIsHalfOpen(row: Row)
    requires row.key.Some?
    ensures !AlreadySent([row], row.key, row.at + WINDOW)
    ensures AlreadySent([row], row.key, row.at + WINDOW - 1)
  {
    assert row in [row];
  }

  /** Failing between dispatch and log row leaves the entry pending and the log as it was: the
      next attempt dispatches again. */
  lemma FailureBeforeTheLogDispatchesAgain(s: State, e: Entry, a: Attempt, b: Attempt)
    requires e in s.pending && e.body.Message? && e.body.known && !AlreadySent(s.log, e.body.key, s.now + a.wait)
    requires a.fate.FailsBeforeLog? && !b.fate.FailsBeforeSend?
    ensures var s' := Run(s, [Process(e, a), Process(e, b)]);
            && |s'.sends| == |s.sends| + 2 && !s'.sends[|s.sends|].logged
            && s'.sends[|s.sends|].entry == s'.sends[|s.sends| + 1].entry == e.id
  {
    var s1 := ProcessEntry(s, e, a);
    assert s1.log == s.log && s1.pending == s.pending;
    assert [Process(e, a), Process(e, b)][..1] == [Process(e, a)] && [Process(e, a)][..0] == [];
    assert Run(s, [Process(e, a), Process(e, b)][..0]) == s;
    assert Run(s, [Process(e, a)]) == s1;
  }

  /** When a key was last logged, as sent, failed or skipped. */
  function LastAt(log: seq<Row>, key: Option<Key>): Option<int> {
    if log == [] then None
    else if log[|log| - 1].key == key then Some(log[|log| - 1].at)
    else LastAt(log[..|log| - 1], key)
  }

  function KeySends(sends: seq<Send>, key: Option<Key>): nat {
    if sends == [] then 0
    else KeySends(sends[..|sends| - 1], key) + if sends[|sends| - 1].key == key then 1 else 0
  }

  /** Rows are in order of time, and none is from the future. */
  ghost predicate Timed(s: State) {
    && (forall i, j :: 0 <= i < j < |s.log| ==> s.log[i].at <= s.log[j].at)
    && (forall i :: 0 <= i < |s.log| ==> s.log[i].at <= s.now)
  }

  lemma {:induction false} LastIsLatest(log: seq<Row>, key: Option<Key>)
    requires forall i, j :: 0 <= i < j < |log| ==> log[i].at <= log[j].at
    ensures LastAt(log, key).None? ==> forall r <- log :: r.key != key
    ensures LastAt(log, key).Some? ==> forall r <- log :: r.key == key ==> r.at <= LastAt(log, key).value
    ensures LastAt(log, key).Some? ==> exists r <- log :: r.key == key && r.at == LastAt(log, key).value
    decreases |log|
  {
    if log != [] {
      var n := |log| - 1;
      if log[n].key == key {
        assert log[n] in log;
      } else {
        LastIsLatest(log[..n], key);
        if LastAt(log[..n], key).Some? {
          var r :| r in log[..n] && r.key == key && r.at == LastAt(log[..n], key).value;
          assert r in log;
        }
      }
    }
  }

  /** A lookup is answered by the key's last row alone. */
  lemma AlreadySentIff(s: State, key: Option<Key>, at: int)
    requires Timed(s) && key.Some?
    ensures AlreadySent(s.log, key, at) <==> LastAt(s.log, key).Some? && at < LastAt(s.log, key).value + WINDOW
  {
    LastIsLatest(s.log, key);
  }

  lemma StepIsTimed(s: State, ev: Event)
    requires Timed(s)
    ensures Timed(Step(s, ev))
  {
    hide AlreadySent, Without;
  }

  lemma {:induction false} RunIsTimed(s: State, es: seq<Event>)
    requires Timed(s)
    ensures Timed(Run(s, es))
    decreases |es|
  {
    hide Step, Timed;
    if es != [] {
      RunIsTimed(s, es[..|es| - 1]);
      StepIsTimed(Run(s, es[..|es| - 1]), es[|es| - 1]);
    }
  }

  /** A renderable message of the key that is looked up a whole window or more after the key's
      last row, or is its first, and gets as far as its dispatch. */
  predicate Reopens(s: State, ev: Event, key: Option<Key>) {
    && ev.Process? && ev.entry in s.pending
    && ev.entry.body.Message? && ev.entry.body.key == key && ev.entry.body.known
    && !ev.attempt.fate.FailsBeforeSend?
    && (LastAt(s.log, key).Some? ==> s.now + ev.attempt.wait >= LastAt(s.log, key).value + WINDOW)
  }

  lemma SendsOne(sends: seq<Send>, x: Send, key: Option<Key>)
    ensures KeySends(sends + [x], key) == KeySends(sends, key) + (if x.key == key then 1 else 0)
  {
    assert (sends + [x])[..|sends|] == sends;
  }

  lemma StepDispatchesIff(s: State, ev: Event, key: Option<Key>)
    requires Timed(s) && key.Some?
    ensures KeySends(Step(s, ev).sends, key) == KeySends(s.sends, key) + (if Reopens(s, ev, key) then 1 else 0)
  {
    if ev.Process? && ev.entry in s.pending && ev.entry.body.Message? {
      var e, a := ev.entry, ev.attempt;
      if e.body.key == key {
        AlreadySentIff(s, key, s.now + a.wait);
      }
      SendsOne(s.sends, Send(e.id, e.body.key, s.now + a.wait + a.sending, !a.fate.FailsBeforeLog?), key);
    }
    hide AlreadySent, KeySends, LastAt, Without;
  }

  /** Every logged occurrence renews the window, a suppressed one too. */
  lemma OccurrenceRenewsTheWindow(s: State, e: Entry, a: Attempt)
    requires e in s.pending && e.body.Message? && (a.fate.FailsBeforeAck? || a.fate.Completes?)
    ensures var s' := Step(s, Process(e, a)); LastAt(s'.log, e.body.key) == Some(s'.now)
  {
    hide AlreadySent, Without;
  }

  /** No occurrence of the key reopens it. */
  predicate NeverReopens(s: State, es: seq<Event>, key: Option<Key>) {
    forall i :: 0 <= i < |es| ==> !Reopens(Run(s, es[..i]), es[i], key)
  }

  lemma NeverReopensSplits(s: State, es: seq<Event>, key: Option<Key>)
    requires es != []
    ensures NeverReopens(s, es, key) <==>
              NeverReopens(s, es[..|es| - 1], key) && !Reopens(Run(s, es[..|es| - 1]), es[|es| - 1], key)
  {
    hide Run, Reopens;
    var n := |es| - 1;
    forall i | 0 <= i < n
      ensures Reopens(Run(s, es[..n][..i]), es[..n][i], key) <==> Reopens(Run(s, es[..i]), es[i], key)
    {
      assert es[..n][..i] == es[..i] && es[..n][i] == es[i];
    }
  }

  /** Over every run, whatever else is in it, and from any moment on: a key is dispatched again
      exactly when some occurrence of it is looked up a whole window after the key's last row.
      As suppressed occurrences are rows too, a key that keeps recurring within a window of its
      last occurrence stays silent however long it goes on. */
  lemma {:induction false} RecurringKeyStaysSilentIff(s: State, es: seq<Event>, key: Option<Key>)
    requires Timed(s) && key.Some?
    ensures KeySends(s.sends, key) <= KeySends(Run(s, es).sends, key)
    ensures KeySends(Run(s, es).sends, key) == KeySends(s.sends, key) <==> NeverReopens(s, es, key)
    decreases |es|
  {
    if es != [] {
      hide Step, Reopens, KeySends, Timed, NeverReopens;
      var n := |es| - 1;
      RecurringKeyStaysSilentIff(s, es[..n], key);
      RunIsTimed(s, es[..n]);
      StepDispatchesIff(Run(s, es[..n]), es[n], key);
      NeverReopensSplits(s, es, key);
    }
  }

  // ---------------------------------------------------------------------------------
  // The drain of pending entries
  // ---------------------------------------------------------------------------------

  /** Whether an attempt ends with the entry acknowledged. It does not depend on the log. */
  predicate Acks(e: Entry, fate: Fate) {
    fate.Completes? && !e.body.Unreadable?
  }

  /** What an unlimited pass leaves. */
  function Stuck(p: seq<Entry>, fates: nat -> Fate): seq<Entry> {
    if p == [] then []
    else if Acks(p[0], fates(p[0].id)) then Stuck(p[1..], fates)
    else [p[0]] + Stuck(p[1..], fates)
  }

  /** What the drain leaves: it reads on as long as fewer than `room` stuck entries are in front. */
  function Drained(p: seq<Entry>, fates: nat -> Fate, room: nat): seq<Entry> {
    if p == [] || room == 0 then p
    else if Acks(p[0], fates(p[0].id)) then Drained(p[1..], fates, room)
    else [p[0]] + Drained(p[1..], fates, room - 1)
  }

  /** With fewer stuck entries than a batch holds, the drain gets through everything else. */
  lemma {:induction false} FewStuckEntriesDoNotBlock(p: seq<Entry>, fates: nat -> Fate, room: nat)
    requires |Stuck(p, fates)| < room
    ensures Drained(p, fates, room) == Stuck(p, fates)
    decreases |p|
  {
    if p != [] {
      FewStuckEntriesDoNotBlock(p[1..], fates, if Acks(p[0], fates(p[0].id)) then room else room - 1);
    }
  }

  /** The stuck entry that completes a batch keeps everything behind it from being tried. */
  lemma {:induction false} FullBatchBlocks(a: seq<Entry>, e: Entry, b: seq<Entry>, fates: nat -> Fate, room: nat)
    requires |Stuck(a, fates)| + 1 == room && !Acks(e, fates(e.id))
    ensures Drained(a + [e] + b, fates, room) == Stuck(a, fates) + [e] + b
    decreases |a|
  {
    var p := a + [e] + b;
    if a == [] {
      assert p == [e] + b && p[1..] == b;
    } else {
      assert p[1..] == a[1..] + [e] + b && p[0] == a[0];
      FullBatchBlocks(a[1..], e, b, fates, if Acks(a[0], fates(a[0].id)) then room else room - 1);
    }
  }

  lemma {:induction false} StuckStays(p: seq<Entry>, fates: nat -> Fate)
    ensures |Stuck(p, fates)| <= |p|
    ensures |Stuck(p, fates)| == |p| ==> Stuck(p, fates) == p
    ensures forall e <- Stuck(p, fates) :: e in p && !Acks(e, fates(e.id))
    ensures forall e <- p :: e in Stuck(p, fates) || Acks(e, fates(e.id))
    decreases |p|
  {
    if p != [] {
      StuckStays(p[1..], fates);
      assert p == [p[0]] + p[1..];
    }
  }

  lemma {:induction false} StuckExtends(p: seq<Entry>, e: Entry, fates: nat -> Fate)
    ensures Stuck(p + [e], fates) == Stuck(p, fates) + (if Acks(e, fates(e.id)) then [] else [e])
    decreases |p|
  {
    if p == [] {
      assert p + [e] == [e] && [e][1..] == [];
    } else {
      assert (p + [e])[1..] == p[1..] + [e] && (p + [e])[0] == p[0];
      StuckExtends(p[1..], e, fates);
    }
  }

  /** One round over a batch in front changes nothing about what the drain will leave. */
  lemma {:induction false} RoundKeepsTheOutcome(a: seq<Entry>, b: seq<Entry>, fates: nat -> Fate, room: nat)
    requires |a| <= room
    ensures Drained(Stuck(a, fates) + b, fates, room) == Drained(a + b, fates, room)
    decreases |a|
  {
    hide Acks;
    if a == [] {
      assert a + b == b && Stuck(a, fates) + b == b;
    } else {
      assert (a + b)[1..] == a[1..] + b && (a + b)[0] == a[0];
      if Acks(a[0], fates(a[0].id)) {
        RoundKeepsTheOutcome(a[1..], b, fates, room);
      } else {
        RoundKeepsTheOutcome(a[1..], b, fates, room - 1);
        var later := Stuck(a[1..], fates) + b;
        assert Stuck(a, fates) + b == [a[0]] + later && ([a[0]] + later)[1..] == later;
        hide Stuck;
      }
    }
  }

  lemma {:induction false} StuckBatchIsFinal(a: seq<Entry>, b: seq<Entry>, fates: nat -> Fate, room: nat)
    requires Stuck(a, fates) == a && (b == [] || |a| == room) && |a| <= room
    ensures Drained(a + b, fates, room) == a + b
    decreases |a|
  {
    if a == [] {
      assert a + b == b;
    } else {
      StuckStays(a, fates);
      assert a[0] in a;
      assert !Acks(a[0], fates(a[0].id));
      assert (a + b)[1..] == a[1..] + b && (a + b)[0] == a[0];
      StuckBatchIsFinal(a[1..], b, fates, room - 1);
    }
  }

  lemma {:induction false} WithoutAt(a: seq<Entry>, e: Entry, b: seq<Entry>)
    requires e !in a
    ensures Without(a + [e] + b, e) == a + b
    decreases |a|
  {
    var p := a + [e] + b;
    if a == [] {
      assert p == [e] + b && p[1..] == b && a + b == b;
    } else {
      assert a[0] in a && p[0] == a[0];
      assert p[1..] == a[1..] + [e] + b;
      WithoutAt(a[1..], e, b);
      calc {
        Without(p, e);
        [a[0]] + Without(p[1..], e);
        [a[0]] + (a[1..] + b);
        a + b;
      }
    }
  }

  function Front(p: seq<Entry>): (b: seq<Entry>)
    ensures |b| <= BATCH && b <= p
  {
    if |p| <= BATCH then p else p[..BATCH]
  }

  function Ids(p: seq<Entry>): (ids: seq<nat>)
    ensures |ids| == |p|
  {
    seq(|p|, i requires 0 <= i < |p| => p[i].id)
  }

  /** How the attempts of a round go. */
  function RoundFates(attempts: (nat, nat) -> Attempt, round: nat): nat -> Fate {
    (id: nat) => attempts(round, id).fate
  }

  /** An entry fares the same in every round. */
  ghost predicate Steady(attempts: (nat, nat) -> Attempt, fates: nat -> Fate) {
    forall round: nat, id: nat :: attempts(round, id).fate == fates(id)
  }

  /** The pending entries after one round over the front batch. */
  function AfterRound(p: seq<Entry>, fates: nat -> Fate): seq<Entry> {
    Stuck(Front(p), fates) + p[|Front(p)|..]
  }

  lemma {:induction false} StuckIsConsistent(p: seq<Entry>, fates: nat -> Fate)
    requires Consistent(p)
    ensures Consistent(Stuck(p, fates))
    decreases |p|
  {
    if p != [] {
      StuckIsConsistent(p[1..], fates);
      StuckStays(p[1..], fates);
      var kept := Stuck(p[1..], fates);
      forall j | 0 <= j < |kept|
        ensures kept[j].id != p[0].id
      {
        assert kept[j] in p[1..];
      }
    }
  }

  lemma ConsistentConcat(a: seq<Entry>, b: seq<Entry>)
    requires Consistent(a) && Consistent(b)
    requires forall i, j :: 0 <= i < |a| && 0 <= j < |b| ==> a[i].id != b[j].id
    ensures Consistent(a + b)
  {}

  lemma ConsistentSlice(p: seq<Entry>, n: nat)
    requires Consistent(p) && n <= |p|
    ensures Consistent(p[..n]) && Consistent(p[n..])
    ensures forall i, j :: 0 <= i < n && 0 <= j < |p| - n ==> p[..n][i].id != p[n..][j].id
  {}

  lemma RoundIsConsistent(p: seq<Entry>, fates: nat -> Fate)
    requires Consistent(p)
    ensures Consistent(AfterRound(p, fates))
    ensures forall e <- AfterRound(p, fates) :: e in p
  {
    hide Stuck, Consistent;
    var batch, rest := Front(p), p[|Front(p)|..];
    var kept := Stuck(batch, fates);
    assert batch == p[..|batch|];
    ConsistentSlice(p, |batch|);
    StuckIsConsistent(batch, fates);
    StuckStays(batch, fates);
    forall i, j | 0 <= i < |kept| && 0 <= j < |rest|
      ensures kept[i].id != rest[j].id
    {
      assert kept[i] in batch;
    }
    ConsistentConcat(kept, rest);
  }

  /** A round either acknowledges something, and the front batch is then another one, or changes
      nothing at all. */
  lemma RoundMakesProgress(p: seq<Entry>, fates: nat -> Fate)
    requires Consistent(p) && p != []
    ensures var p' := AfterRound(p, fates);
            || (p' == p && Stuck(Front(p), fates) == Front(p))
            || (|p'| < |p| && (p' == [] || Ids(Front(p')) != Ids(Front(p))))
  {
    var batch, rest := Front(p), p[|Front(p)|..];
    var p' := AfterRound(p, fates);
    assert p == batch + rest;
    StuckStays(batch, fates);
    RoundIsConsistent(p, fates);
    if |Stuck(batch, fates)| < |batch| {
      var i := MissingFrom(batch, Stuck(batch, fates), fates);
      GoneFromTheRound(p, fates, i);
      if p' != [] && i < |Front(p')| {
        assert Front(p')[i] == p'[i];
        assert Ids(Front(p'))[i] != Ids(batch)[i];
      }
    }
  }

  lemma GoneFromTheRound(p: seq<Entry>, fates: nat -> Fate, i: nat)
    requires Consistent(p) && i < |Front(p)| && Front(p)[i] !in Stuck(Front(p), fates)
    ensures forall x <- AfterRound(p, fates) :: x.id != Front(p)[i].id
  {
    var batch, rest := Front(p), p[|Front(p)|..];
    StuckStays(batch, fates);
    assert p[i] == batch[i];
    forall x | x in AfterRound(p, fates)
      ensures x.id != batch[i].id
    {
      if x in Stuck(batch, fates) {
        var j :| 0 <= j < |batch| && batch[j] == x;
        assert p[j] == x;
      } else {
        var j :| 0 <= j < |rest| && rest[j] == x;
        assert p[|batch| + j] == x;
      }
    }
  }

  /** An entry of a batch that a round acknowledged. */
  lemma {:induction false} MissingFrom(p: seq<Entry>, kept: seq<Entry>, fates: nat -> Fate) returns (i: nat)
    requires Consistent(p) && kept == Stuck(p, fates) && |kept| < |p|
    ensures i < |p| && p[i] !in kept
    decreases |p|
  {
    forall x | x in p[1..]
      ensures x != p[0]
    {
      var j :| 0 <= j < |p| - 1 && p[1..][j] == x;
      assert p[j + 1] == x;
    }
    if Acks(p[0], fates(p[0].id)) {
      i := 0;
      StuckStays(p[1..], fates);
    } else {
      var k := MissingFrom(p[1..], kept[1..], fates);
      i := k + 1;
      assert p[i] == p[1..][k];
      assert kept == [p[0]] + kept[1..];
    }
  }

  lemma {:induction false} RunConcat(s: State, a: seq<Event>, b: seq<Event>)
    ensures Run(s, a + b) == Run(Run(s, a), b)
    decreases |b|
  {
    if b == [] {
      assert a + b == a;
    } else {
      RunConcat(s, a, b[..|b| - 1]);
      assert (a + b)[..|a + b| - 1] == a + b[..|b| - 1];
      hide Step;
    }
  }

  lemma RunOneMore(s: State, es: seq<Event>, ev: Event)
    ensures Run(s, es + [ev]) == Step(Run(s, es), ev)
  {
    assert (es + [ev])[..|es|] == es;
    hide Step;
  }

  /** The pending entries of a round that has tried the first `i` of its batch. */
  ghost predicate Midway(p: seq<Entry>, batch: seq<Entry>, i: nat, rest: seq<Entry>, fates: nat -> Fate) {
    i <= |batch| && p == Stuck(batch[..i], fates) + batch[i..] + rest
  }

  lemma RoundStarts(p: seq<Entry>, fates: nat -> Fate)
    ensures Midway(p, Front(p), 0, p[|Front(p)|..], fates)
  {
    var batch, rest := Front(p), p[|Front(p)|..];
    assert batch[..0] == [] && batch[0..] == batch && p == batch + rest;
    assert Stuck(batch[..0], fates) + batch[0..] == batch;
  }

  lemma NotYetTried(batch: seq<Entry>, i: nat, fates: nat -> Fate)
    requires i < |batch| && Consistent(batch)
    ensures batch[i] !in Stuck(batch[..i], fates)
  {
    StuckStays(batch[..i], fates);
    hide Stuck;
    forall x | x in batch[..i]
      ensures x != batch[i]
    {
      var j :| 0 <= j < i && batch[..i][j] == x;
      assert batch[j] == x;
    }
  }

  lemma Regroup(kept: seq<Entry>, e: Entry, behind: seq<Entry>, rest: seq<Entry>)
    ensures kept + ([e] + behind) + rest == kept + [e] + (behind + rest) == (kept + [e]) + behind + rest
    ensures kept + (behind + rest) == kept + behind + rest
    ensures e in kept + [e] + (behind + rest)
  {
    assert (kept + [e] + (behind + rest))[|kept|] == e;
  }

  lemma RoundStep(p: seq<Entry>, batch: seq<Entry>, i: nat, rest: seq<Entry>, fates: nat -> Fate)
    requires i < |batch| && Consistent(batch) && Midway(p, batch, i, rest, fates)
    ensures batch[i] in p
    ensures Midway(if Acks(batch[i], fates(batch[i].id)) then Without(p, batch[i]) else p, batch, i + 1, rest, fates)
  {
    var e, kept, behind := batch[i], Stuck(batch[..i], fates), batch[i + 1..];
    NotYetTried(batch, i, fates);
    StuckExtends(batch[..i], e, fates);
    assert batch[i..] == [e] + behind && batch[..i] + [e] == batch[..i + 1];
    Regroup(kept, e, behind, rest);
    WithoutAt(kept, e, behind + rest);
    hide Stuck, Without, Consistent;
    assert Stuck(batch[..i + 1], fates) == if Acks(e, fates(e.id)) then kept + [] else kept + [e];
    assert kept + [] == kept;
  }

  lemma RoundEnds(p: seq<Entry>, was: seq<Entry>, fates: nat -> Fate)
    requires Midway(p, Front(was), |Front(was)|, was[|Front(was)|..], fates)
    ensures p == AfterRound(was, fates)
  {
    var batch := Front(was);
    assert batch[..|batch|] == batch && batch[|batch|..] == [];
  }

  class NotificationConsumer {
    var now: int
    var delivered: seq<Entry>
    var pending: seq<Entry>
    var acked: set<Entry>
    var log: seq<Row>
    var sends: seq<Send>

    constructor (s: State)
      ensures Value() == s
    {
      now, delivered, pending, acked, log, sends := s.now, s.delivered, s.pending, s.acked, s.log, s.sends;
    }

    function Value(): State
      reads this
    {
      State(now, delivered, pending, acked, log, sends)
    }

    method AckEntry(e: Entry)
      modifies this`pending, this`acked
      ensures Value() == Ack(old(Value()), e)
    {
      pending := Without(pending, e);
      acked := acked + {e};
    }

    method LogEntry(e: Entry, at: int)
      requires e.body.Message?
      modifies this`now, this`log
      ensures Value() == old(Value()).(now := at, log := old(log) + [Row(e.id, e.body.key, at)])
    {
      now := at;
      log := log + [Row(e.id, e.body.key, at)];
    }

    /** One entry, as far as the attempt gets. */
    method Handle(e: Entry, a: Attempt)
      requires e in pending
      modifies this
      ensures Value() == Step(old(Value()), Process(e, a))
      ensures pending == if Acks(e, a.fate) then Without(old(pending), e) else old(pending)
    {
      hide AlreadySent;
      now := now + a.wait;
      match e.body
      case NoData =>
        if a.fate.Completes? {
          AckEntry(e);
        }
      case Unreadable =>
      case Message(key, known) =>
        if a.fate.FailsBeforeSend? {
          return;
        }
        if !AlreadySent(log, key, now) && known {
          now := now + a.sending;
          sends := sends + [Send(e.id, key, now, !a.fate.FailsBeforeLog?)];
        }
        if !a.fate.FailsBeforeLog? {
          LogEntry(e, now + a.logging);
          if a.fate.Completes? {
            AckEntry(e);
          }
        }
    }

    /** One round: every entry of the front batch is tried once. */
    method Round(attempts: (nat, nat) -> Attempt, round: nat) returns (ghost es: seq<Event>)
      requires Consistent(pending)
      modifies this
      ensures Value() == Run(old(Value()), es)
      ensures pending == AfterRound(old(pending), RoundFates(attempts, round))
    {
      hide Run, Step, Midway, Without, Acks, AfterRound;
      var batch := Front(pending);
      ghost var s0 := Value();
      ghost var rest := pending[|batch|..];
      ghost var fates := RoundFates(attempts, round);
      es := [];
      NothingRun(s0);
      RoundStarts(pending, fates);
      for i := 0 to |batch|
        invariant Value() == Run(s0, es)
        invariant Midway(pending, batch, i, rest, fates)
      {
        RoundStep(pending, batch, i, rest, fates);
        RunOneMore(s0, es, Process(batch[i], attempts(round, batch[i].id)));
        es := es + [Process(batch[i], attempts(round, batch[i].id))];
        Handle(batch[i], attempts(round, batch[i].id));
      }
      RoundEnds(pending, s0.pending, fates);
    }

    /** Tries the first ten pending entries over and over until nothing is pending or a whole
        round changed nothing. `attempts(round, id)` is how the environment treats an entry. */
    method DrainPending(attempts: (nat, nat) -> Attempt, ghost fates: nat -> Fate)
        returns (polls: nat, ghost es: seq<Event>)
      requires Consistent(pending)
      modifies this
      ensures Value() == Run(old(Value()), es)
      ensures polls <= |old(pending)| + 1
      ensures Steady(attempts, fates) ==> pending == Drained(old(pending), fates, BATCH)
    {
      hide Run, Step, Stuck, Drained, AfterRound, Ids, Front;
      es := [];
      polls := 0;
      var last: Option<seq<nat>> := None;
      ghost var progress := true;
      ghost var s0 := Value();
      NothingRun(s0);
      while true
        invariant Value() == Run(s0, es)
        invariant polls + |pending| <= |s0.pending| + (if progress then 0 else 1)
        invariant Consistent(pending)
        invariant !progress ==> pending != [] && last == Some(Ids(Front(pending)))
        invariant progress && pending != [] && last.Some? ==> last.value != Ids(Front(pending))
        invariant Steady(attempts, fates) ==> Drained(pending, fates, BATCH) == Drained(s0.pending, fates, BATCH)
        invariant !progress && Steady(attempts, fates) ==> Stuck(Front(pending), fates) == Front(pending)
        decreases |pending|, progress
      {
        polls := polls + 1;
        if pending == [] || Some(Ids(Front(pending))) == last {
          break;
        }
        last := Some(Ids(Front(pending)));
        ghost var before := pending;
        ghost var round := Round(attempts, polls);
        RunConcat(s0, es, round);
        es := es + round;
        progress := pending != before;
        RoundIsConsistent(before, RoundFates(attempts, polls));
        RoundMakesProgress(before, RoundFates(attempts, polls));
        if Steady(attempts, fates) {
          SameFates(before, attempts, polls, fates);
          RoundKeepsDrained(before, fates);
        }
      }
      if Steady(attempts, fates) {
        EndOfDrain(pending, fates);
      }
    }
  }

  lemma NothingRun(s: State)
    ensures Run(s, []) == s
  {}

  lemma {:induction false} SameStuck(p: seq<Entry>, f: nat -> Fate, g: nat -> Fate)
    requires forall id: nat :: f(id) == g(id)
    ensures Stuck(p, f) == Stuck(p, g)
    decreases |p|
  {
    if p != [] {
      SameStuck(p[1..], f, g);
    }
  }

  lemma SameFates(p: seq<Entry>, attempts: (nat, nat) -> Attempt, round: nat, fates: nat -> Fate)
    requires Steady(attempts, fates)
    ensures AfterRound(p, RoundFates(attempts, round)) == AfterRound(p, fates)
    ensures Stuck(Front(p), RoundFates(attempts, round)) == Stuck(Front(p), fates)
  {
    SameStuck(Front(p), RoundFates(attempts, round), fates);
  }

  lemma RoundKeepsDrained(p: seq<Entry>, fates: nat -> Fate)
    ensures Drained(AfterRound(p, fates), fates, BATCH) == Drained(p, fates, BATCH)
  {
    var batch, rest := Front(p), p[|Front(p)|..];
    assert p == batch + rest;
    RoundKeepsTheOutcome(batch, rest, fates, BATCH);
  }

  lemma EndOfDrain(p: seq<Entry>, fates: nat -> Fate)
    requires p == [] || Stuck(Front(p), fates) == Front(p)
    ensures Drained(p, fates, BATCH) == p
  {
    if p == [] {
      return;
    }
    var batch, rest := Front(p), p[|Front(p)|..];
    assert p == batch + rest;
    StuckBatchIsFinal(batch, rest, fates, BATCH);
  }
}
