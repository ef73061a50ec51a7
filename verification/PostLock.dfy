/**
 At most one order per post: the per-post lock (social-listener/app/post_lock.py), the handler
 it guards (social-listener/app/main.py) and the watcher of parked trims, as a transition
 system whose steps are the stretches between two awaits.

 Handlers of the live buffer and of the catchup loop run concurrently; the lock is in memory,
 the audit rows and the parked trims are in the database. Handlers can fail anywhere, and so
 can the whole process.
 */
module PostLock {
  type Key = nat
  type Worker = nat

  /** The handler of the live buffer's flush; there is one at a time. */
  const LIVE: Worker := 0

  /** What became of an emission: LostAfter was accepted by the order listener, but its answer did
      not reach us. */
  datatype Outcome = Accepted | Refused | LostAfter {
    predicate Landed() {
      !Refused?
    }
  }

  datatype Verdict = Fire(outcome: Outcome) | Park | Nothing

  /** Entered: inside the slot. Judging: no audit row was found. Judged: the decision is
      carried out, the audit row still missing. ToPark: row written, trim not yet parked. */
  datatype Stage = Entered | Judging | Judged(landed: bool, park: bool) | ToPark

  datatype Task = Task(key: Key, stage: Stage)

  datatype TrimStatus = Pending | Fired | Retired

  /** A pass over the trims that were pending when it began; `sent` while the trim at the head
      is accepted but not yet resolved. */
  datatype Sweep = Idle | Sweeping(queue: seq<Key>, sent: bool)

  datatype State = State(
    inFlight: set<Key>, workers: map<Worker, Task>, rows: set<Key>, trims: map<Key, TrimStatus>,
    sweep: Sweep, emitted: multiset<Key>)

  datatype Event =
    | Enter(w: Worker, key: Key)
    | CheckRow(w: Worker)
    | Judge(w: Worker, verdict: Verdict)
    | NoteFiredTrim(w: Worker)
    | WriteRow(w: Worker)
    | ParkTrim(w: Worker)
    | Abandon(w: Worker)
    | MessageArrives
    | CancelTrims(keys: set<Key>)
    | SweepStart(expired: set<Key>, order: seq<Key>)
    | SweepSend(outcome: Outcome)
    | SweepResolve
    | SweepPass
    | SweepDrop
    | SweepEnd
    | SweepAbort
    | Crash

  const Initial: State := State({}, map[], {}, map[], Idle, multiset{})

  predicate At(s: State, w: Worker, stage: Stage) {
    w in s.workers && s.workers[w].stage == stage
  }

  function Move(s: State, w: Worker, stage: Stage): State
    requires w in s.workers
  {
    s.(workers := s.workers[w := s.workers[w].(stage := stage)])
  }

  /** Leaving the slot, however it happens, releases the key. */
  function Leave(s: State, w: Worker): State
    requires w in s.workers
  {
    s.(workers := s.workers - {w}, inFlight := s.inFlight - {s.workers[w].key})
  }

  function Retire(trims: map<Key, TrimStatus>, keys: set<Key>): map<Key, TrimStatus> {
    map k <- trims :: if k in keys && trims[k].Pending? then Retired else trims[k]
  }

  function InsertTrim(trims: map<Key, TrimStatus>, k: Key, status: TrimStatus): map<Key, TrimStatus> {
    if k in trims then trims else trims[k := status]
  }

  function ResolveTrim(trims: map<Key, TrimStatus>, k: Key, status: TrimStatus): map<Key, TrimStatus> {
    if k in trims && trims[k].Pending? then trims[k := status] else trims
  }

  predicate IsPending(s: State, k: Key) {
    k in s.trims && s.trims[k].Pending?
  }

  predicate Distinct(queue: seq<Key>) {
    forall i, j :: 0 <= i < j < |queue| ==> queue[i] != queue[j]
  }

  /** The pending trims, each once, in the order the database returns them. */
  predicate ListsPending(order: seq<Key>, s: State) {
    && Distinct(order)
    && (forall k <- order :: IsPending(s, k))
    && (forall k <- s.trims :: IsPending(s, k) ==> k in order)
  }

  function Landed(s: State, k: Key, outcome: Outcome): State {
    if outcome.Landed() then s.(emitted := s.emitted + multiset{k}) else s
  }

  /** An event that is not enabled does nothing. In particular a handler that finds the key in
      flight drops its copy of the post. A message that arrives cancels the flush that is under
      way, wherever it waits. */
  function Step(s: State, e: Event): State {
    match e
    case Enter(w, k) =>
      if w in s.workers || k in s.inFlight then s
      else s.(inFlight := s.inFlight + {k}, workers := s.workers[w := Task(k, Entered)])
    case CheckRow(w) =>
      if !At(s, w, Entered) then s
      else if s.workers[w].key in s.rows then Leave(s, w)
      else Move(s, w, Judging)
    case Judge(w, verdict) =>
      if !At(s, w, Judging) then s
      else if verdict.Fire? then
        Landed(Move(s, w, Judged(verdict.outcome.Landed(), false)), s.workers[w].key, verdict.outcome)
      else Move(s, w, Judged(false, verdict.Park?))
    case NoteFiredTrim(w) =>
      if !At(s, w, Judged(true, false)) then s
      else s.(trims := InsertTrim(s.trims, s.workers[w].key, Fired))
    case WriteRow(w) =>
      if w !in s.workers || !s.workers[w].stage.Judged? then s
      else
        var s' := s.(rows := s.rows + {s.workers[w].key});
        if s.workers[w].stage.park then Move(s', w, ToPark) else Leave(s', w)
    case ParkTrim(w) =>
      if !At(s, w, ToPark) then s
      else Leave(s.(trims := InsertTrim(s.trims, s.workers[w].key, Pending)), w)
    case Abandon(w) => if w in s.workers then Leave(s, w) else s
    case MessageArrives => if LIVE in s.workers then Leave(s, LIVE) else s
    case CancelTrims(keys) => s.(trims := Retire(s.trims, keys))
    case SweepStart(expired, order) =>
      var s' := s.(trims := Retire(s.trims, expired));
      if s.sweep.Idle? && ListsPending(order, s') then s'.(sweep := Sweeping(order, false)) else s
    case SweepSend(outcome) =>
      if !AtHead(s, false) then s
      else
        var s' := Landed(s, s.sweep.queue[0], outcome);
        if outcome.Accepted? then s'.(sweep := s.sweep.(sent := true)) else NextTrim(s')
    case SweepResolve =>
      if !AtHead(s, true) then s
      else NextTrim(s.(trims := ResolveTrim(s.trims, s.sweep.queue[0], Fired)))
    case SweepPass => if AtHead(s, false) then NextTrim(s) else s
    case SweepDrop =>
      if !AtHead(s, false) then s
      else NextTrim(s.(trims := ResolveTrim(s.trims, s.sweep.queue[0], Retired)))
    case SweepEnd => if s.sweep == Sweeping([], false) then s.(sweep := Idle) else s
    case SweepAbort => s.(sweep := Idle)
    case Crash => s.(inFlight := {}, workers := map[], sweep := Idle)
  }

  predicate AtHead(s: State, sent: bool) {
    s.sweep.Sweeping? && s.sweep.queue != [] && s.sweep.sent == sent
  }

  function NextTrim(s: State): State
    requires s.sweep.Sweeping? && s.sweep.queue != []
  {
    s.(sweep := Sweeping(s.sweep.queue[1..], false))
  }

  function Run(s: State, es: seq<Event>): State
    decreases |es|
  {
    if es == [] then s else Step(Run(s, es[..|es| - 1]), es[|es| - 1])
  }

  // ---------------------------------------------------------------------------------
  // Invariants
  // ---------------------------------------------------------------------------------

  /** The lock: a handler in the slot owns its key, and no other handler is on it. */
  ghost predicate Exclusive(s: State) {
    && (forall w <- s.workers :: s.workers[w].key in s.inFlight)
    && (forall v, w :: v in s.workers && w in s.workers && v != w ==> s.workers[v].key != s.workers[w].key)
  }

  predicate NotParked(s: State, k: Key) {
    !IsPending(s, k) && !(s.sweep.Sweeping? && k in s.sweep.queue)
  }

  /** While a post is being judged it has no audit row; a trim is parked, queued or about to be
      parked only behind its row, and not parked twice. */
  ghost predicate Ordered(s: State) {
    && (forall w <- s.workers ::
          (s.workers[w].stage.Judging? || s.workers[w].stage.Judged? ==> s.workers[w].key !in s.rows))
    && (forall w <- s.workers ::
          (s.workers[w].stage.ToPark? ==> s.workers[w].key in s.rows && NotParked(s, s.workers[w].key)))
    && (forall k <- s.trims :: IsPending(s, k) ==> k in s.rows)
    && (s.sweep.Sweeping? ==> Distinct(s.sweep.queue) && forall k <- s.sweep.queue :: k in s.rows)
    && (s.sweep.Sweeping? && s.sweep.sent ==> s.sweep.queue != [])
  }

  ghost predicate Invariant(s: State) {
    Exclusive(s) && Ordered(s)
  }

  ghost predicate OnKey(s: State, k: Key, stage: Stage) {
    exists w :: w in s.workers && s.workers[w] == Task(k, stage)
  }

  /** The trim of `k` is at the head of the pass, accepted and unresolved. */
  predicate HeadSent(s: State, k: Key) {
    s.sweep.Sweeping? && s.sweep.sent && s.sweep.queue != [] && s.sweep.queue[0] == k
  }

  predicate Queued(s: State, k: Key) {
    s.sweep.Sweeping? && k in (if s.sweep.sent && s.sweep.queue != [] then s.sweep.queue[1..] else s.sweep.queue)
  }

  /** The system may still emit for `k`. */
  ghost predicate MayEmit(s: State, k: Key) {
    || (k !in s.rows && !OnKey(s, k, Judged(true, false)))
    || (OnKey(s, k, ToPark) && k !in s.trims)
    || (IsPending(s, k) && !HeadSent(s, k))
    || Queued(s, k)
  }

  /** A failure between an emission that landed and the write that records it: of the handler
      before its row, be it only because a message arrives, of the watcher before it resolves the
      trim, or of the answer to the watcher's call. */
  ghost predicate Slips(s: State, e: Event, k: Key) {
    match e
    case Abandon(w) => w in s.workers && s.workers[w] == Task(k, Judged(true, false))
    case MessageArrives => LIVE in s.workers && s.workers[LIVE] == Task(k, Judged(true, false))
    case SweepAbort => HeadSent(s, k)
    case Crash => OnKey(s, k, Judged(true, false)) || HeadSent(s, k)
    case SweepSend(outcome) => outcome.LostAfter? && AtHead(s, false) && s.sweep.queue[0] == k
    case _ => false
  }

  ghost function SlipsOver(s: State, es: seq<Event>, k: Key): nat
    decreases |es|
  {
    if es == [] then 0
    else SlipsOver(s, es[..|es| - 1], k) +
         (if Slips(Run(s, es[..|es| - 1]), es[|es| - 1], k) then 1 else 0)
  }

  ghost function Credit(s: State, k: Key): nat {
    s.emitted[k] + if MayEmit(s, k) then 1 else 0
  }

  lemma LeaveKeepsExclusive(s: State, w: Worker)
    requires Exclusive(s) && w in s.workers
    ensures Exclusive(Leave(s, w))
  {}

  lemma MoveKeepsExclusive(s: State, w: Worker, to: Stage)
    requires Exclusive(s) && w in s.workers
    ensures Exclusive(Move(s, w, to))
  {}

  lemma SameSlotsKeepExclusive(s: State, s': State)
    requires Exclusive(s) && s'.workers == s.workers && s'.inFlight == s.inFlight
    ensures Exclusive(s')
  {}

  lemma EnteringKeepsExclusive(s: State, w: Worker, k: Key)
    requires Exclusive(s) && w !in s.workers && k !in s.inFlight
    ensures Exclusive(s.(inFlight := s.inFlight + {k}, workers := s.workers[w := Task(k, Entered)]))
  {}

  lemma CrashIsExclusive(s: State)
    ensures Exclusive(s.(inFlight := {}, workers := map[], sweep := Idle))
  {}

  lemma StepKeepsExclusive(s: State, e: Event)
    requires Exclusive(s)
    ensures Exclusive(Step(s, e))
  {
    hide Exclusive, ListsPending, Retire, InsertTrim, ResolveTrim;
    match e
    case Enter(w, k) =>
      if w !in s.workers && k !in s.inFlight { EnteringKeepsExclusive(s, w, k); }
    case CheckRow(w) =>
      if At(s, w, Entered) {
        LeaveKeepsExclusive(s, w);
        MoveKeepsExclusive(s, w, Judging);
      }
    case Judge(w, verdict) =>
      if At(s, w, Judging) {
        var to := if verdict.Fire? then Judged(verdict.outcome.Landed(), false) else Judged(false, verdict.Park?);
        MoveKeepsExclusive(s, w, to);
        SameSlotsKeepExclusive(Move(s, w, to), Step(s, e));
      }
    case WriteRow(w) =>
      if w in s.workers {
        var s' := s.(rows := s.rows + {s.workers[w].key});
        SameSlotsKeepExclusive(s, s');
        LeaveKeepsExclusive(s', w);
        MoveKeepsExclusive(s', w, ToPark);
      }
    case ParkTrim(w) =>
      if w in s.workers {
        var s' := s.(trims := InsertTrim(s.trims, s.workers[w].key, Pending));
        SameSlotsKeepExclusive(s, s');
        LeaveKeepsExclusive(s', w);
      }
    case Abandon(w) =>
      if w in s.workers { LeaveKeepsExclusive(s, w); }
    case MessageArrives =>
      if LIVE in s.workers { LeaveKeepsExclusive(s, LIVE); }
    case Crash => CrashIsExclusive(s);
    case _ =>
      SameSlotsKeepExclusive(s, Step(s, e));
  }

  lemma LeaveKeepsOrder(s: State, w: Worker)
    requires Ordered(s) && w in s.workers
    ensures Ordered(Leave(s, w))
  {}

  /** The audit row of a judged post is written: no other handler is on that key. */
  lemma WritingRowKeepsOrder(s: State, w: Worker)
    requires Invariant(s) && w in s.workers && s.workers[w].stage.Judged?
    ensures Ordered(Step(s, WriteRow(w)))
  {}

  lemma ParkingKeepsOrder(s: State, w: Worker)
    requires Invariant(s) && At(s, w, ToPark)
    ensures Ordered(Step(s, ParkTrim(w)))
  {}

  lemma MovingKeepsOrder(s: State, w: Worker, to: Stage)
    requires Ordered(s) && w in s.workers && (to.Judging? || to.Judged?) && s.workers[w].key !in s.rows
    ensures Ordered(Move(s, w, to))
  {}

  lemma SweepingKeepsOrder(s: State, trims: map<Key, TrimStatus>)
    requires Ordered(s) && s.sweep.Sweeping? && s.sweep.queue != []
    requires forall k <- trims :: trims[k].Pending? ==> IsPending(s, k)
    ensures Ordered(NextTrim(s.(trims := trims)))
  {
    var q := s.sweep.queue;
    assert forall i :: 0 <= i < |q| - 1 ==> q[1..][i] == q[i + 1];
  }

  lemma SendingKeepsOrder(s: State, outcome: Outcome)
    requires Ordered(s) && AtHead(s, false)
    ensures Ordered(Step(s, SweepSend(outcome)))
  {
    if !outcome.Accepted? {
      SweepingKeepsOrder(Landed(s, s.sweep.queue[0], outcome), s.trims);
    }
  }

  lemma SweepEventKeepsOrder(s: State, e: Event)
    requires Ordered(s) && AtHead(s, e.SweepResolve?)
    requires e.SweepSend? || e.SweepResolve? || e.SweepPass? || e.SweepDrop?
    ensures Ordered(Step(s, e))
  {
    hide Ordered;
    match e
    case SweepSend(outcome) => SendingKeepsOrder(s, outcome);
    case SweepResolve => SweepingKeepsOrder(s, ResolveTrim(s.trims, s.sweep.queue[0], Fired));
    case SweepPass => SweepingKeepsOrder(s, s.trims);
    case SweepDrop => SweepingKeepsOrder(s, ResolveTrim(s.trims, s.sweep.queue[0], Retired));
    case _ =>
  }

  lemma HandlerKeepsOrder(s: State, e: Event)
    requires Invariant(s)
    requires e.CheckRow? || e.Judge? || e.WriteRow? || e.ParkTrim? || e.Abandon?
    ensures Ordered(Step(s, e))
  {
    hide Ordered, Exclusive, Leave, Move, InsertTrim;
    match e
    case CheckRow(w) =>
      if At(s, w, Entered) {
        LeaveKeepsOrder(s, w);
        if s.workers[w].key !in s.rows { MovingKeepsOrder(s, w, Judging); }
      }
    case Judge(w, verdict) =>
      if At(s, w, Judging) { JudgingKeepsOrder(s, w, verdict); }
    case WriteRow(w) =>
      if w in s.workers && s.workers[w].stage.Judged? { WritingRowKeepsOrder(s, w); }
    case ParkTrim(w) =>
      if At(s, w, ToPark) { ParkingKeepsOrder(s, w); }
    case Abandon(w) =>
      if w in s.workers { LeaveKeepsOrder(s, w); }
    case _ =>
  }

  lemma JudgingKeepsOrder(s: State, w: Worker, verdict: Verdict)
    requires Ordered(s) && At(s, w, Judging)
    ensures Ordered(Step(s, Judge(w, verdict)))
  {
    var to := if verdict.Fire? then Judged(verdict.outcome.Landed(), false) else Judged(false, verdict.Park?);
    MovingKeepsOrder(s, w, to);
  }

  lemma StepKeepsOrder(s: State, e: Event)
    requires Invariant(s)
    ensures Ordered(Step(s, e))
  {
    if e.CheckRow? || e.Judge? || e.WriteRow? || e.ParkTrim? || e.Abandon? {
      HandlerKeepsOrder(s, e);
    } else if e.MessageArrives? {
      HandlerKeepsOrder(s, Abandon(LIVE));
    } else if e.SweepSend? || e.SweepResolve? || e.SweepPass? || e.SweepDrop? {
      if AtHead(s, e.SweepResolve?) { SweepEventKeepsOrder(s, e); }
    }
  }

  /** Over every run, with handlers and the process failing anywhere: no two handlers judge one
      post, and a trim waits for the watcher only behind its audit row. */
  lemma {:induction false} RunKeepsInvariant(s: State, es: seq<Event>)
    requires Invariant(s)
    ensures Invariant(Run(s, es))
    decreases |es|
  {
    if es != [] {
      RunKeepsInvariant(s, es[..|es| - 1]);
      StepKeepsExclusive(Run(s, es[..|es| - 1]), es[|es| - 1]);
      StepKeepsOrder(Run(s, es[..|es| - 1]), es[|es| - 1]);
      hide Exclusive, Ordered, Step;
    }
  }

  lemma OnKeyAfterLeave(s: State, w: Worker, k: Key, stage: Stage)
    requires w in s.workers && s.workers[w] != Task(k, stage)
    ensures OnKey(Leave(s, w), k, stage) <==> OnKey(s, k, stage)
  {
    var s' := Leave(s, w);
    forall v | v in s.workers && s.workers[v] == Task(k, stage)
      ensures OnKey(s', k, stage)
    {
      assert v in s'.workers && s'.workers[v] == Task(k, stage);
    }
  }

  lemma OnKeyAfterMove(s: State, w: Worker, to: Stage, k: Key, stage: Stage)
    requires w in s.workers && s.workers[w] != Task(k, stage)
    ensures OnKey(Move(s, w, to), k, stage) <==> OnKey(s, k, stage) || Task(s.workers[w].key, to) == Task(k, stage)
  {
    var s' := Move(s, w, to);
    assert s'.workers[w] == Task(s.workers[w].key, to);
    forall v | v in s.workers && s.workers[v] == Task(k, stage)
      ensures OnKey(s', k, stage)
    {
      assert v in s'.workers && s'.workers[v] == Task(k, stage);
    }
  }

  /** Every event pays for what it emits: out of the one emission the key is still good for, or
      by a slip. */
  ghost predicate Pays(s: State, e: Event, k: Key) {
    Credit(Step(s, e), k) <= Credit(s, k) + if Slips(s, e, k) then 1 else 0
  }

  lemma CheckRowPays(s: State, w: Worker, k: Key)
    requires Invariant(s) && At(s, w, Entered)
    ensures Pays(s, CheckRow(w), k)
  {
    if s.workers[w].key in s.rows {
      OnKeyAfterLeave(s, w, k, Judged(true, false));
      OnKeyAfterLeave(s, w, k, ToPark);
    } else {
      OnKeyAfterMove(s, w, Judging, k, Judged(true, false));
      OnKeyAfterMove(s, w, Judging, k, ToPark);
    }
  }

  lemma JudgePays(s: State, w: Worker, verdict: Verdict, k: Key)
    requires Invariant(s) && At(s, w, Judging)
    ensures Pays(s, Judge(w, verdict), k)
  {
    var to := if verdict.Fire? then Judged(verdict.outcome.Landed(), false) else Judged(false, verdict.Park?);
    OnKeyAfterMove(s, w, to, k, Judged(true, false));
    OnKeyAfterMove(s, w, to, k, ToPark);
    var s' := Step(s, Judge(w, verdict));
    assert OnKey(s', k, Judged(true, false)) <==> OnKey(Move(s, w, to), k, Judged(true, false));
    assert OnKey(s', k, ToPark) <==> OnKey(Move(s, w, to), k, ToPark);
  }

  lemma WriteRowPays(s: State, w: Worker, k: Key)
    requires Invariant(s) && w in s.workers && s.workers[w].stage.Judged?
    ensures Pays(s, WriteRow(w), k)
  {
    var here := s.workers[w];
    var s' := s.(rows := s.rows + {here.key});
    if here != Task(k, Judged(true, false)) {
      OnKeyAfterLeave(s', w, k, Judged(true, false));
      OnKeyAfterMove(s', w, ToPark, k, Judged(true, false));
    }
    OnKeyAfterLeave(s', w, k, ToPark);
    OnKeyAfterMove(s', w, ToPark, k, ToPark);
    assert OnKey(s', k, ToPark) <==> OnKey(s, k, ToPark);
    assert OnKey(s', k, Judged(true, false)) <==> OnKey(s, k, Judged(true, false));
  }

  lemma ParkTrimPays(s: State, w: Worker, k: Key)
    requires Invariant(s) && At(s, w, ToPark)
    ensures Pays(s, ParkTrim(w), k)
  {
    var s' := s.(trims := InsertTrim(s.trims, s.workers[w].key, Pending));
    OnKeyAfterLeave(s', w, k, Judged(true, false));
    if s.workers[w].key != k { OnKeyAfterLeave(s', w, k, ToPark); }
    assert OnKey(s', k, ToPark) <==> OnKey(s, k, ToPark);
    assert OnKey(s', k, Judged(true, false)) <==> OnKey(s, k, Judged(true, false));
  }

  lemma AbandonPays(s: State, w: Worker, k: Key)
    requires Invariant(s) && w in s.workers
    ensures Pays(s, Abandon(w), k)
  {
    if s.workers[w] != Task(k, Judged(true, false)) { OnKeyAfterLeave(s, w, k, Judged(true, false)); }
    if s.workers[w] != Task(k, ToPark) { OnKeyAfterLeave(s, w, k, ToPark); }
  }

  /** Moving past the head of the pass leaves the other trims queued, each once. */
  lemma NextTrimQueue(s: State, k: Key)
    requires Ordered(s) && s.sweep.Sweeping? && s.sweep.queue != []
    ensures Queued(NextTrim(s), k) <==> k in s.sweep.queue[1..]
    ensures k in s.sweep.queue <==> k == s.sweep.queue[0] || k in s.sweep.queue[1..]
    ensures s.sweep.queue[0] !in s.sweep.queue[1..]
  {
    var q := s.sweep.queue;
    assert q == [q[0]] + q[1..];
  }

  lemma SweepSendPays(s: State, outcome: Outcome, k: Key)
    requires Invariant(s) && AtHead(s, false)
    ensures Pays(s, SweepSend(outcome), k)
  {
    NextTrimQueue(s, k);
    NextTrimQueue(Landed(s, s.sweep.queue[0], outcome), k);
    SameTasks(s, Step(s, SweepSend(outcome)), k);
  }

  lemma SweepAdvancePays(s: State, e: Event, k: Key)
    requires Invariant(s) && AtHead(s, e.SweepResolve?)
    requires e.SweepResolve? || e.SweepPass? || e.SweepDrop?
    ensures Pays(s, e, k)
  {
    NextTrimQueue(s, k);
    SameTasks(s, Step(s, e), k);
  }

  lemma SameTasks(s: State, s': State, k: Key)
    requires s.workers == s'.workers
    ensures OnKey(s', k, Judged(true, false)) <==> OnKey(s, k, Judged(true, false))
    ensures OnKey(s', k, ToPark) <==> OnKey(s, k, ToPark)
  {
    forall v | v in s.workers && s.workers[v].key == k
      ensures v in s'.workers && s'.workers[v] == s.workers[v]
    {}
  }

  lemma EnterPays(s: State, w: Worker, key: Key, k: Key)
    requires Invariant(s)
    ensures Pays(s, Enter(w, key), k)
  {
    var s' := Step(s, Enter(w, key));
    forall v, stage | v in s.workers && s.workers[v] == Task(k, stage)
      ensures OnKey(s', k, stage)
    {
      assert v in s'.workers && s'.workers[v] == Task(k, stage);
    }
  }

  lemma CrashPays(s: State, k: Key)
    requires Invariant(s)
    ensures Pays(s, Crash, k)
  {
    assert !OnKey(Step(s, Crash), k, ToPark);
  }

  lemma SweepStartPays(s: State, expired: set<Key>, order: seq<Key>, k: Key)
    requires Invariant(s)
    ensures Pays(s, SweepStart(expired, order), k)
  {
    var s' := Step(s, SweepStart(expired, order));
    SameTasks(s, s', k);
    assert IsPending(s', k) ==> IsPending(s, k);
    if s.sweep.Idle? && Queued(s', k) {
      assert k in order;
    }
  }

  lemma StepPays(s: State, e: Event, k: Key)
    requires Invariant(s)
    ensures Pays(s, e, k)
  {
    match e
    case CheckRow(w) =>
      if At(s, w, Entered) { CheckRowPays(s, w, k); }
    case Judge(w, verdict) =>
      if At(s, w, Judging) { JudgePays(s, w, verdict, k); }
    case WriteRow(w) =>
      if w in s.workers && s.workers[w].stage.Judged? { WriteRowPays(s, w, k); }
    case ParkTrim(w) =>
      if At(s, w, ToPark) { ParkTrimPays(s, w, k); }
    case Abandon(w) =>
      if w in s.workers { AbandonPays(s, w, k); }
    case MessageArrives =>
      if LIVE in s.workers { AbandonPays(s, LIVE, k); }
    case SweepStart(expired, order) => SweepStartPays(s, expired, order, k);
    case SweepSend(outcome) =>
      if AtHead(s, false) { SweepSendPays(s, outcome, k); }
    case SweepResolve =>
      if AtHead(s, true) { SweepAdvancePays(s, e, k); }
    case SweepPass =>
      if AtHead(s, false) { SweepAdvancePays(s, e, k); }
    case SweepDrop =>
      if AtHead(s, false) { SweepAdvancePays(s, e, k); }
    case Enter(w, key) => EnterPays(s, w, key, k);
    case Crash => CrashPays(s, k);
    case NoteFiredTrim(_) => SameTasks(s, Step(s, e), k);
    case CancelTrims(_) => SameTasks(s, Step(s, e), k);
    case SweepEnd => SameTasks(s, Step(s, e), k);
    case SweepAbort => SameTasks(s, Step(s, e), k);
  }

  lemma {:induction false} RunPays(s: State, es: seq<Event>, k: Key)
    requires Invariant(s)
    ensures Credit(Run(s, es), k) <= Credit(s, k) + SlipsOver(s, es, k)
    decreases |es|
  {
    if es != [] {
      var init := es[..|es| - 1];
      RunPays(s, init, k);
      RunKeepsInvariant(s, init);
      StepPays(Run(s, init), es[|es| - 1], k);
      hide Credit, Step, Slips;
    }
  }

  /** Over every run of handlers, watcher and failures, the emissions of a post that were
      accepted number at most one plus its slips. */
  lemma EmissionsAreBounded(es: seq<Event>, k: Key)
    ensures Credit(Run(Initial, es), k) <= 1 + SlipsOver(Initial, es, k)
  {
    RunPays(Initial, es, k);
  }

  /** At most one order instruction per post, as long as no failure falls between an emission
      and the write that records it. */
  lemma AtMostOneOrderPerPost(es: seq<Event>, k: Key)
    requires SlipsOver(Initial, es, k) == 0
    ensures Run(Initial, es).emitted[k] <= 1
  {
    EmissionsAreBounded(es, k);
  }

  predicate FiredWereEmitted(s: State) {
    forall k <- s.trims :: s.trims[k].Fired? ==> s.emitted[k] > 0
  }

  predicate LandedWereEmitted(s: State) {
    forall w <- s.workers :: s.workers[w].stage.Judged? && s.workers[w].stage.landed ==> s.emitted[s.workers[w].key] > 0
  }

  predicate SentWasEmitted(s: State) {
    s.sweep.Sweeping? && s.sweep.sent && s.sweep.queue != [] ==> s.emitted[s.sweep.queue[0]] > 0
  }

  /** What the tables say was sent was sent: a trim marked fired, a handler that noted its emission,
      and an accepted trim at the head of the pass all stand for an accepted emission. */
  predicate Backed(s: State) {
    FiredWereEmitted(s) && LandedWereEmitted(s) && SentWasEmitted(s)
  }

  lemma EmissionsOnlyGrow(s: State, e: Event, k: Key)
    ensures s.emitted[k] <= Step(s, e).emitted[k]
  {
    hide ListsPending, Retire, InsertTrim, ResolveTrim;
  }

  lemma StepKeepsFired(s: State, e: Event)
    requires Backed(s)
    ensures FiredWereEmitted(Step(s, e))
  {
    var s' := Step(s, e);
    forall k | k in s'.trims && s'.trims[k].Fired?
      ensures s'.emitted[k] > 0
    {
      EmissionsOnlyGrow(s, e, k);
      hide ListsPending, Leave, Move, Landed;
    }
  }

  lemma StepKeepsLanded(s: State, e: Event)
    requires Backed(s)
    ensures LandedWereEmitted(Step(s, e))
  {
    var s' := Step(s, e);
    forall w | w in s'.workers && s'.workers[w].stage.Judged? && s'.workers[w].stage.landed
      ensures s'.emitted[s'.workers[w].key] > 0
    {
      EmissionsOnlyGrow(s, e, s'.workers[w].key);
      hide ListsPending, Retire, InsertTrim, ResolveTrim;
    }
  }

  lemma StepKeepsSent(s: State, e: Event)
    requires Backed(s)
    ensures SentWasEmitted(Step(s, e))
  {
    var s' := Step(s, e);
    if s'.sweep.Sweeping? && s'.sweep.sent && s'.sweep.queue != [] {
      EmissionsOnlyGrow(s, e, s'.sweep.queue[0]);
      hide ListsPending, Retire, InsertTrim, ResolveTrim, Leave, Move;
    }
  }

  lemma StepKeepsBacked(s: State, e: Event)
    requires Backed(s)
    ensures Backed(Step(s, e))
  {
    StepKeepsFired(s, e);
    StepKeepsLanded(s, e);
    StepKeepsSent(s, e);
    hide Step, FiredWereEmitted, LandedWereEmitted, SentWasEmitted;
  }

  /** Over every run, a trim is marked fired only if an emission for it was accepted. */
  lemma {:induction false} FiredTrimsWereEmitted(es: seq<Event>)
    ensures Backed(Run(Initial, es))
    decreases |es|
  {
    hide Step, Backed;
    if es != [] {
      FiredTrimsWereEmitted(es[..|es| - 1]);
      StepKeepsBacked(Run(Initial, es[..|es| - 1]), es[|es| - 1]);
    } else {
      NothingIsBacked();
    }
  }

  lemma NothingIsBacked()
    ensures Backed(Initial)
  {}

  /** The lock at work: in every reachable state the handlers in their slots are on different
      posts, and a trim is parked only behind its audit row. */
  lemma OneHandlerPerPost(es: seq<Event>)
    ensures var s := Run(Initial, es);
            && (forall v, w :: v in s.workers && w in s.workers && v != w ==> s.workers[v].key != s.workers[w].key)
            && (forall k <- s.trims :: IsPending(s, k) ==> k in s.rows)
  {
    RunKeepsInvariant(Initial, es);
  }

  lemma {:induction false} RunConcat(s: State, a: seq<Event>, b: seq<Event>)
    ensures Run(s, a + b) == Run(Run(s, a), b)
    decreases |b|
  {
    if b == [] {
      assert a + b == a;
    } else {
      RunConcat(s, a, b[..|b| - 1]);
      assert (a + b)[..|a + b| - 1] == a + b[..|b| - 1];
      hide Step;
    }
  }

  lemma RunOne(s: State, e: Event)
    ensures Run(s, [e]) == Step(s, e)
  {
    assert [e][..0] == [];
    assert Run(s, [e][..0]) == s;
  }

  lemma RunTwo(s: State, a: Event, b: Event)
    ensures Run(s, [a, b]) == Step(Step(s, a), b)
  {
    RunOne(s, a);
    assert [a, b][..1] == [a];
    hide Step;
  }

  lemma RunFour(s: State, a: Event, b: Event, c: Event, d: Event)
    ensures Run(s, [a, b, c, d]) == Step(Step(Step(Step(s, a), b), c), d)
  {
    RunTwo(s, a, b);
    RunTwo(Run(s, [a, b]), c, d);
    RunConcat(s, [a, b], [c, d]);
    assert [a, b] + [c, d] == [a, b, c, d];
    hide Step;
  }

  /** The bound is met: from every state in which a handler has emitted and not yet written its
      row, failing there lets the next handler emit for the same post again. */
  lemma FailureBeforeTheRowEmitsAgain(s: State, w: Worker, k: Key)
    requires Invariant(s) && w in s.workers && s.workers[w] == Task(k, Judged(true, false))
    ensures Slips(s, Abandon(w), k)
    ensures Run(s, [Abandon(w), Enter(w, k), CheckRow(w), Judge(w, Fire(Accepted))]).emitted[k] == s.emitted[k] + 1
  {
    RunFour(s, Abandon(w), Enter(w, k), CheckRow(w), Judge(w, Fire(Accepted)));
    var s1 := Step(s, Abandon(w));
    assert s1.rows == s.rows && k !in s1.inFlight && w !in s1.workers;
    var s2 := Step(s1, Enter(w, k));
    assert At(s2, w, Entered) && s2.rows == s.rows;
  }

  lemma {:induction false} SlipsConcat(s: State, a: seq<Event>, b: seq<Event>, k: Key)
    ensures SlipsOver(s, a + b, k) == SlipsOver(s, a, k) + SlipsOver(Run(s, a), b, k)
    decreases |b|
  {
    hide Step, Slips;
    if b == [] {
      assert a + b == a;
    } else {
      var init := b[..|b| - 1];
      SlipsConcat(s, a, init, k);
      RunConcat(s, a, init);
      assert (a + b)[..|a + b| - 1] == a + init;
    }
  }

  /** From here the system can emit for `k` once more without any further slip. */
  ghost predicate CanEmit(s: State, k: Key) {
    exists es :: SlipsOver(s, es, k) == 0 && Run(s, es).emitted[k] > s.emitted[k]
  }

  lemma EmitsAfter(s: State, e: Event, k: Key)
    requires !Slips(s, e, k) && Step(s, e).emitted[k] >= s.emitted[k]
    requires CanEmit(Step(s, e), k) || Step(s, e).emitted[k] > s.emitted[k]
    ensures CanEmit(s, k)
  {
    hide Step, Slips;
    RunOne(s, e);
    SlipsConcat(s, [], [e], k);
    assert [e][..0] == [] && SlipsOver(s, [e], k) == 0;
    if Step(s, e).emitted[k] <= s.emitted[k] {
      var es :| SlipsOver(Step(s, e), es, k) == 0 && Run(Step(s, e), es).emitted[k] > Step(s, e).emitted[k];
      RunConcat(s, [e], es);
      SlipsConcat(s, [e], es, k);
    }
  }

  /** A post without its row is emitted for by the next handler, after a restart if need be. */
  lemma UnrecordedPostEmits(s: State, k: Key)
    requires Invariant(s) && k !in s.rows && !OnKey(s, k, Judged(true, false))
    ensures CanEmit(s, k)
  {
    var s1 := Step(s, Crash);
    var s2 := Step(s1, Enter(LIVE, k));
    var s3 := Step(s2, CheckRow(LIVE));
    assert s3.workers[LIVE] == Task(k, Judging);
    EmitsAfter(s3, Judge(LIVE, Fire(Accepted)), k);
    hide CanEmit;
    EmitsAfter(s2, CheckRow(LIVE), k);
    EmitsAfter(s1, Enter(LIVE, k), k);
    EmitsAfter(s, Crash, k);
  }

  /** A trim of the pass is emitted for once those before it have been passed over. */
  lemma {:induction false} QueuedTrimEmits(s: State, k: Key)
    requires Invariant(s) && Queued(s, k)
    ensures CanEmit(s, k)
    decreases |s.sweep.queue|
  {
    hide CanEmit, Exclusive;
    var q := s.sweep.queue;
    if s.sweep.sent {
      PassingKeepsInvariant(s, SweepResolve);
      QueuedTrimEmits(Step(s, SweepResolve), k);
      EmitsAfter(s, SweepResolve, k);
    } else if q[0] == k {
      EmitsAfter(s, SweepSend(Accepted), k);
    } else {
      assert q == [q[0]] + q[1..];
      PassingKeepsInvariant(s, SweepPass);
      QueuedTrimEmits(Step(s, SweepPass), k);
      EmitsAfter(s, SweepPass, k);
    }
  }

  lemma PassingKeepsInvariant(s: State, e: Event)
    requires Invariant(s)
    ensures Invariant(Step(s, e))
  {
    StepKeepsExclusive(s, e);
    StepKeepsOrder(s, e);
  }

  /** The pending trims in some order, the given one first. */
  lemma {:induction false} ListedFirst(keys: set<Key>, k: Key) returns (order: seq<Key>)
    requires k in keys
    ensures Distinct(order) && order != [] && order[0] == k
    ensures forall x :: x in order <==> x in keys
    decreases |keys|
  {
    if other :| other in keys && other != k {
      var rest := ListedFirst(keys - {other}, k);
      order := rest + [other];
    } else {
      order := [k];
    }
  }

  lemma PendingTrimEmits(s: State, k: Key)
    requires Invariant(s) && IsPending(s, k) && !HeadSent(s, k)
    ensures CanEmit(s, k)
  {
    var s1 := Step(s, SweepAbort);
    PassingKeepsInvariant(s, SweepAbort);
    var order := ListedFirst((set x | x in s.trims && IsPending(s, x)), k);
    assert Retire(s1.trims, {}) == s1.trims;
    assert ListsPending(order, s1);
    PassingKeepsInvariant(s1, SweepStart({}, order));
    hide CanEmit, Invariant, ListsPending, Retire;
    QueuedTrimEmits(Step(s1, SweepStart({}, order)), k);
    EmitsAfter(s1, SweepStart({}, order), k);
    EmitsAfter(s, SweepAbort, k);
  }

  lemma ParkingTrimEmits(s: State, k: Key)
    requires Invariant(s) && OnKey(s, k, ToPark) && k !in s.trims
    ensures CanEmit(s, k)
  {
    var w :| w in s.workers && s.workers[w] == Task(k, ToPark);
    PassingKeepsInvariant(s, ParkTrim(w));
    PendingTrimEmits(Step(s, ParkTrim(w)), k);
    hide CanEmit;
    EmitsAfter(s, ParkTrim(w), k);
  }

  /** From which states another emission can be reached without a slip: exactly those in which the
      post has no row and no emission to show for it, its trim is about to be parked for the first
      time, is parked and not just sent, or is still ahead in the pass. */
  lemma CanEmitIff(s: State, k: Key)
    requires Invariant(s)
    ensures CanEmit(s, k) <==> MayEmit(s, k)
  {
    if MayEmit(s, k) {
      if k !in s.rows && !OnKey(s, k, Judged(true, false)) { UnrecordedPostEmits(s, k); }
      else if Queued(s, k) { QueuedTrimEmits(s, k); }
      else if OnKey(s, k, ToPark) && k !in s.trims { ParkingTrimEmits(s, k); }
      else { PendingTrimEmits(s, k); }
    } else {
      forall es | SlipsOver(s, es, k) == 0
        ensures Run(s, es).emitted[k] <= s.emitted[k]
      {
        RunPays(s, es, k);
        hide MayEmit;
      }
    }
  }

  /** What a slip costs. Afterwards the post can be emitted for again exactly when its handler was
      the one that failed, or its trim is still parked. */
  lemma SlipEmitsAgainIff(s: State, e: Event, k: Key)
    requires Invariant(s) && Slips(s, e, k)
    ensures CanEmit(Step(s, e), k) <==> OnKey(s, k, Judged(true, false)) || IsPending(s, k)
  {
    PassingKeepsInvariant(s, e);
    CanEmitIff(Step(s, e), k);
    SlipReopensIff(s, e, k);
  }

  lemma SlipReopensIff(s: State, e: Event, k: Key)
    requires Invariant(s) && Slips(s, e, k)
    ensures MayEmit(Step(s, e), k) <==> OnKey(s, k, Judged(true, false)) || IsPending(s, k)
  {
    var s' := Step(s, e);
    if e.SweepSend? { NextTrimQueue(s, k); NextTrimQueue(Landed(s, k, e.outcome), k); }
  }

  /** A lost answer is taken for a refusal: the trim stays parked, and is fired a second time
      exactly unless it was retired meanwhile. */
  lemma LostAnswerFiresTheTrimTwice(s: State, k: Key)
    requires Invariant(s) && AtHead(s, false) && s.sweep.queue[0] == k
    ensures Slips(s, SweepSend(LostAfter), k)
    ensures var lost := Step(s, SweepSend(LostAfter));
            lost.emitted[k] == s.emitted[k] + 1 && (CanEmit(lost, k) <==> IsPending(s, k))
  {
    SlipEmitsAgainIff(s, SweepSend(LostAfter), k);
    assert k in s.rows;
    hide CanEmit;
  }

  /** A message that arrives while the live handler waits between emission and row is enough. */
  lemma MessageDuringEmissionEmitsAgain(s: State, k: Key)
    requires Invariant(s) && LIVE in s.workers && s.workers[LIVE] == Task(k, Judged(true, false))
    ensures Slips(s, MessageArrives, k) && CanEmit(Step(s, MessageArrives), k)
  {
    SlipEmitsAgainIff(s, MessageArrives, k);
  }

  // ---------------------------------------------------------------------------------
  // In place
  // ---------------------------------------------------------------------------------

  /** What the watcher finds for one parked trim. */
  datatype Fate = LegGone | NotReached | Sent(outcome: Outcome)

  function FateEvents(fate: Fate): seq<Event> {
    match fate
    case LegGone => [SweepDrop]
    case NotReached => [SweepPass]
    case Sent(outcome) => if outcome.Accepted? then [SweepSend(outcome), SweepResolve] else [SweepSend(outcome)]
  }

  function FatesEvents(fates: seq<Fate>): seq<Event> {
    if fates == [] then [] else FatesEvents(fates[..|fates| - 1]) + FateEvents(fates[|fates| - 1])
  }

  lemma FatesExtend(fates: seq<Fate>, i: nat)
    requires i < |fates|
    ensures FatesEvents(fates[..i + 1]) == FatesEvents(fates[..i]) + FateEvents(fates[i])
  {
    assert fates[..i + 1][..i] == fates[..i];
  }

  /** The tables after the watcher has dealt with one trim. */
  function AfterFate(s: State, k: Key, fate: Fate): State {
    match fate
    case LegGone => s.(trims := ResolveTrim(s.trims, k, Retired))
    case NotReached => s
    case Sent(outcome) =>
      var s' := Landed(s, k, outcome);
      if outcome.Accepted? then s'.(trims := ResolveTrim(s.trims, k, Fired)) else s'
  }

  lemma FateSteps(s: State, fate: Fate)
    requires AtHead(s, false)
    ensures Run(s, FateEvents(fate)) ==
              AfterFate(s, s.sweep.queue[0], fate).(sweep := Sweeping(s.sweep.queue[1..], false))
  {
    hide Run, ResolveTrim;
    match fate
    case LegGone => RunOne(s, SweepDrop);
    case NotReached => RunOne(s, SweepPass);
    case Sent(outcome) => SentSteps(s, outcome);
  }

  lemma SentSteps(s: State, outcome: Outcome)
    requires AtHead(s, false)
    ensures Run(s, FateEvents(Sent(outcome))) ==
              AfterFate(s, s.sweep.queue[0], Sent(outcome)).(sweep := Sweeping(s.sweep.queue[1..], false))
  {
    hide Run, ResolveTrim;
    if outcome.Accepted? {
      RunTwo(s, SweepSend(outcome), SweepResolve);
    } else {
      RunOne(s, SweepSend(outcome));
    }
  }

  lemma StartedPass(s: State, expired: set<Key>, order: seq<Key>)
    requires s.sweep.Idle? && ListsPending(order, s.(trims := Retire(s.trims, expired)))
    ensures Run(s, [SweepStart(expired, order)])
        == s.(trims := Retire(s.trims, expired), sweep := Sweeping(order, false))
  {
    RunOne(s, SweepStart(expired, order));
    hide ListsPending, Retire;
  }

  lemma FateLeavesThePass(s: State, sweep: Sweep, next: Sweep, k: Key, fate: Fate)
    ensures AfterFate(s.(sweep := sweep), k, fate).(sweep := next) == AfterFate(s, k, fate).(sweep := next)
  {
    hide ResolveTrim;
  }

  lemma ExtendedPass(s0: State, es: seq<Event>, s: State, queue: seq<Key>, fate: Fate)
    requires queue != [] && Run(s0, es) == s.(sweep := Sweeping(queue, false))
    ensures Run(s0, es + FateEvents(fate)) == AfterFate(s, queue[0], fate).(sweep := Sweeping(queue[1..], false))
  {
    hide Run, FateEvents, AfterFate;
    FateSteps(s.(sweep := Sweeping(queue, false)), fate);
    FateLeavesThePass(s, Sweeping(queue, false), Sweeping(queue[1..], false), queue[0], fate);
    RunConcat(s0, es, FateEvents(fate));
  }

  lemma PassExtends(s0: State, s: State, expired: set<Key>, order: seq<Key>, fates: seq<Fate>, i: nat)
    requires |fates| == |order| && i < |order|
    requires Run(s0, [SweepStart(expired, order)] + FatesEvents(fates[..i])) == s.(sweep := Sweeping(order[i..], false))
    ensures var es := [SweepStart(expired, order)] + FatesEvents(fates[..i]);
            && es + FateEvents(fates[i]) == [SweepStart(expired, order)] + FatesEvents(fates[..i + 1])
            && Run(s0, es + FateEvents(fates[i]))
                == AfterFate(s, order[i], fates[i]).(sweep := Sweeping(order[i + 1..], false))
  {
    hide Run, FatesEvents, FateEvents, AfterFate;
    ExtendedPass(s0, [SweepStart(expired, order)] + FatesEvents(fates[..i]), s, order[i..], fates[i]);
    assert order[i..][1..] == order[i + 1..];
    FatesExtend(fates, i);
  }

  lemma EndedPass(s0: State, es: seq<Event>, s: State)
    requires s.sweep.Idle? && Run(s0, es) == s.(sweep := Sweeping([], false))
    ensures Run(s0, es + [SweepEnd]) == s
  {
    RunConcat(s0, es, [SweepEnd]);
    RunOne(Run(s0, es), SweepEnd);
  }

  /** The tables after one post handled without interruption. */
  function AfterPost(s: State, k: Key, verdict: Verdict): State {
    if k in s.inFlight || k in s.rows then s
    else
      var s' := if verdict.Fire? then Landed(s, k, verdict.outcome) else s;
      s'.(rows := s.rows + {k}, trims := if verdict.Park? then InsertTrim(s.trims, k, Pending) else s.trims)
  }

  function PostEvents(w: Worker, k: Key, verdict: Verdict): seq<Event> {
    [Enter(w, k), CheckRow(w), Judge(w, verdict), WriteRow(w)] + [ParkTrim(w)]
  }

  lemma TurnedAwayTwice(s: State, w: Worker, verdict: Verdict)
    requires w !in s.workers
    ensures Step(Step(Step(s, Judge(w, verdict)), WriteRow(w)), ParkTrim(w)) == s
    ensures Step(s, CheckRow(w)) == s
  {}

  lemma JudgedSteps(s: State, w: Worker, k: Key, verdict: Verdict)
    requires s.workers == map[w := Task(k, Judging)] && k !in s.rows && k in s.inFlight
    ensures Step(Step(Step(s, Judge(w, verdict)), WriteRow(w)), ParkTrim(w)) ==
              AfterPost(s.(inFlight := s.inFlight - {k}, workers := map[]), k, verdict)
  {
    var s1 := Step(s, Judge(w, verdict));
    var stage := if verdict.Fire? then Judged(verdict.outcome.Landed(), false) else Judged(false, verdict.Park?);
    assert s1.workers == map[w := Task(k, stage)];
    var s2 := Step(s1, WriteRow(w));
    if stage.park {
      assert s2.workers == map[w := Task(k, ToPark)];
    } else {
      assert s2.workers == map[];
    }
  }

  lemma PostSteps(s: State, w: Worker, k: Key, verdict: Verdict)
    requires s.workers == map[]
    ensures Run(s, PostEvents(w, k, verdict)) == AfterPost(s, k, verdict)
  {
    var es := [Enter(w, k), CheckRow(w), Judge(w, verdict), WriteRow(w)];
    RunConcat(s, es, [ParkTrim(w)]);
    RunFour(s, Enter(w, k), CheckRow(w), Judge(w, verdict), WriteRow(w));
    RunOne(Run(s, es), ParkTrim(w));
    EnterAndCheck(s, w, k);
    TurnedAwayTwice(s, w, verdict);
    if k !in s.inFlight && k !in s.rows {
      var s2 := s.(inFlight := s.inFlight + {k}, workers := map[w := Task(k, Judging)]);
      JudgedSteps(s2, w, k, verdict);
      assert s2.inFlight - {k} == s.inFlight;
    }
    hide Step, Run;
  }

  lemma EnterAndCheck(s: State, w: Worker, k: Key)
    requires s.workers == map[]
    ensures Step(Step(s, Enter(w, k)), CheckRow(w)) ==
              if k in s.inFlight || k in s.rows then s
              else s.(inFlight := s.inFlight + {k}, workers := map[w := Task(k, Judging)])
  {
    if k !in s.inFlight {
      var s1 := Step(s, Enter(w, k));
      assert s1 == s.(inFlight := s.inFlight + {k}, workers := map[w := Task(k, Entered)]);
      assert s1.inFlight - {k} == s.inFlight && s1.workers - {w} == map[];
    }
  }

  /** The tables and the lock of one process, between two awaits. */
  class Listener {
    var inFlight: set<Key>
    var rows: set<Key>
    var trims: map<Key, TrimStatus>
    var emitted: multiset<Key>

    constructor ()
      ensures Value() == Initial
    {
      inFlight, rows, trims, emitted := {}, {}, map[], multiset{};
    }

    function Value(): State
      reads this
    {
      State(inFlight, map[], rows, trims, Idle, emitted)
    }

    /** Non-blocking: the second caller is turned away. */
    method TryEnter(key: Key) returns (owned: bool)
      modifies this`inFlight
      ensures owned <==> key !in old(inFlight)
      ensures inFlight == old(inFlight) + {key}
    {
      if key in inFlight {
        return false;
      }
      inFlight := inFlight + {key};
      owned := true;
    }

    method Exit(key: Key)
      modifies this`inFlight
      ensures inFlight == old(inFlight) - {key}
    {
      inFlight := inFlight - {key};
    }

    /** One post handled without interruption. */
    method Handle(w: Worker, key: Key, verdict: Verdict)
      modifies this
      ensures Value() == Run(old(Value()), PostEvents(w, key, verdict))
    {
      PostSteps(Value(), w, key, verdict);
      hide Run, PostEvents;
      var owned := TryEnter(key);
      if owned {
        if key !in rows {
          if verdict.Fire? && verdict.outcome.Landed() {
            emitted := emitted + multiset{key};
          }
          rows := rows + {key};
          if verdict.Park? {
            trims := InsertTrim(trims, key, Pending);
          }
        }
        Exit(key);
      }
    }

    /** What the watcher does about one parked trim. */
    method Settle(key: Key, fate: Fate)
      modifies this`trims, this`emitted
      ensures Value() == AfterFate(old(Value()), key, fate)
    {
      match fate
      case LegGone =>
        trims := ResolveTrim(trims, key, Retired);
      case NotReached =>
      case Sent(outcome) =>
        if outcome.Landed() {
          emitted := emitted + multiset{key};
        }
        if outcome.Accepted? {
          trims := ResolveTrim(trims, key, Fired);
        }
    }

    /** One pass over the parked trims, in the order the database lists them. */
    method SweepPendingTrims(expired: set<Key>, order: seq<Key>, fates: seq<Fate>)
      requires |fates| == |order| && ListsPending(order, Value().(trims := Retire(trims, expired)))
      modifies this`trims, this`emitted
      ensures Value() == Run(old(Value()), [SweepStart(expired, order)] + FatesEvents(fates) + [SweepEnd])
    {
      ghost var s0 := Value();
      StartedPass(s0, expired, order);
      trims := Retire(trims, expired);
      ghost var es := [SweepStart(expired, order)];
      assert es == [SweepStart(expired, order)] + FatesEvents(fates[..0]);
      hide Run, FatesEvents, FateEvents, ListsPending, AfterFate, Retire, Step;
      assert order[0..] == order;
      for i := 0 to |order|
        invariant es == [SweepStart(expired, order)] + FatesEvents(fates[..i])
        invariant Run(s0, es) == Value().(sweep := Sweeping(order[i..], false))
      {
        PassExtends(s0, Value(), expired, order, fates, i);
        es := es + FateEvents(fates[i]);
        Settle(order[i], fates[i]);
      }
      assert fates[..|fates|] == fates && order[|order|..] == [];
      EndedPass(s0, es, Value());
    }
  }
}
