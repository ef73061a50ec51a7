/**
 The modify-stops protocol (order-executor/app/main.py): cancel every resting trigger of a
 position, place the wanted ones, read back, and retry only the legs proved absent.

 `Exchange` is the environment. It may refuse a cancel, reject or silently drop a leg, place
 something else altogether, or fail to answer a read. Three ghost flags record whether it has
 behaved: `exact` as long as every ANSWERED read was true, `obeyed` as long as every cancel took
 effect, `orderly` as long as every placement added at most one trigger of a kind it was asked
 for, where it was asked for it. `strays` are the triggers that were added all the same when the
 answer was an error, and `errors` counts those answers. `ModifyStops` is verified against all of
 its behaviours; what needs a flag says so.
 */
module ModifyStops {
  import opened Prelude

  const VERIFY_ATTEMPTS := 3
  const READ_RETRIES := 2
  const PRICE_TOLERANCE := 0.001

  datatype Side = Long | Short

  datatype Kind = Tp | Sl | OtherKind

  /** A resting trigger. `px` is None when the exchange gave no readable price. */
  datatype Trigger = Trigger(oid: nat, kind: Kind, px: Option<real>, side: Side)

  /** One entry of the adapter's answer to a place call. */
  datatype Report = Report(kind: Kind, error: bool)

  type Book = map<nat, Trigger>

  /** The leg a call is restricted to: one side on a hedge account, anything on a net one. */
  type Scope = Option<Side>

  predicate InScope(t: Trigger, scope: Scope) {
    scope.None? || t.side == scope.value
  }

  /** An actual trigger price counts as the requested one. A requested price of zero is never
      matched. */
  predicate Lands(actual: real, requested: real) {
    requested != 0.0 && Abs(actual - requested) / Abs(requested) <= PRICE_TOLERANCE
  }

  /** Within a thousandth of a requested price that is not zero. */
  lemma LandsIff(actual: real, requested: real)
    ensures Lands(actual, requested) <==>
              && requested != 0.0
              && (1000.0 * (actual - requested) <= requested || 1000.0 * (actual - requested) <= -requested)
              && (1000.0 * (requested - actual) <= requested || 1000.0 * (requested - actual) <= -requested)
  {
    if requested != 0.0 {
      QuotientAtMost(Abs(actual - requested), Abs(requested), PRICE_TOLERANCE);
    }
  }

  predicate LandsAt(t: Trigger, kind: Kind, requested: real) {
    t.kind == kind && t.px.Some? && Lands(t.px.value, requested)
  }

  function FindLanded(verify: seq<Trigger>, kind: Kind, requested: real): (found: Option<Trigger>)
    ensures found.Some? ==> found.value in verify && LandsAt(found.value, kind, requested)
    ensures found.None? ==> forall t :: t in verify ==> !LandsAt(t, kind, requested)
  {
    if verify == [] then None
    else if LandsAt(verify[0], kind, requested) then Some(verify[0])
    else FindLanded(verify[1..], kind, requested)
  }

  // ---------------------------------------------------------------------------------
  // What may rest
  // ---------------------------------------------------------------------------------

  predicate Rests(book: Book, o: nat, kind: Kind, scope: Scope) {
    o in book && book[o].kind == kind && InScope(book[o], scope)
  }

  ghost predicate NoneResting(book: Book, kind: Kind, scope: Scope) {
    forall o :: !Rests(book, o, kind, scope)
  }

  ghost predicate AtMostOne(book: Book, kind: Kind, scope: Scope) {
    forall a, b :: Rests(book, a, kind, scope) && Rests(book, b, kind, scope) ==> a == b
  }

  /** A trigger of this kind rests within tolerance of `px`. */
  ghost predicate RestsAt(book: Book, kind: Kind, scope: Scope, px: real) {
    exists o :: Rests(book, o, kind, scope) && LandsAt(book[o], kind, px)
  }

  ghost predicate Extends(before: Book, after: Book) {
    forall o :: o in before ==> o in after && after[o] == before[o]
  }

  /** Orders are filed under their own id. */
  ghost predicate Keyed(book: Book) {
    forall o :: o in book ==> book[o].oid == o
  }

  /** A reply that is exactly the resting triggers of the scope. */
  ghost predicate Exact(reply: seq<Trigger>, book: Book, scope: Scope) {
    forall t: Trigger :: t in reply <==> t.oid in book && book[t.oid] == t && InScope(t, scope)
  }

  /** The triggers of the leg a hedge call must not touch. */
  ghost function Outside(book: Book, scope: Scope): Book {
    map o | o in book && !InScope(book[o], scope) :: book[o]
  }

  /** The last word of a place answer on one kind: was it placed without error? */
  function Accepted(placed: seq<Report>, kind: Kind): (accepted: bool)
    ensures accepted <==>
              exists i :: 0 <= i < |placed| && placed[i] == Report(kind, false)
                       && forall j :: i < j < |placed| ==> placed[j].kind != kind
  {
    if placed == [] then false
    else
      var last := placed[|placed| - 1];
      if last.kind == kind then !last.error else Accepted(placed[..|placed| - 1], kind)
  }

  /** A placement that keeps its word for one kind: it adds nothing unless the kind was asked
      for and reported without error, and then at most one trigger, within tolerance. It may
      still have added nothing. */
  ghost predicate KeepsWord(before: Book, after: Book, kind: Kind, asked: Option<real>, placed: seq<Report>) {
    && (forall o :: o in after && o !in before && after[o].kind == kind ==>
          asked.Some? && Accepted(placed, kind) && LandsAt(after[o], kind, asked.value))
    && (forall a, b ::
          (a in after && a !in before && after[a].kind == kind
           && b in after && b !in before && after[b].kind == kind) ==> a == b)
  }

  /** The same apart from the answer: at most one trigger of a kind that was asked for, within
      tolerance. */
  ghost predicate AddsAtMostOne(before: Book, after: Book, kind: Kind, asked: Option<real>) {
    && (forall o :: o in after && o !in before && after[o].kind == kind ==>
          asked.Some? && LandsAt(after[o], kind, asked.value))
    && (forall a, b ::
          (a in after && a !in before && after[a].kind == kind
           && b in after && b !in before && after[b].kind == kind) ==> a == b)
  }

  /** What a placement added of one kind although its answer was an error. */
  ghost function Strays(before: Book, after: Book, kind: Kind, placed: seq<Report>): set<nat> {
    if Accepted(placed, kind) then {} else set o | o in after && o !in before && after[o].kind == kind
  }

  /** Whether the answer on a kind that was asked for was an error, or missing. */
  function Errors(asked: Option<real>, placed: seq<Report>, kind: Kind): nat {
    if asked.Some? && !Accepted(placed, kind) then 1 else 0
  }

  lemma OneStrayPerError(before: Book, after: Book, kind: Kind, asked: Option<real>, placed: seq<Report>)
    requires AddsAtMostOne(before, after, kind, asked)
    ensures |Strays(before, after, kind, placed)| <= Errors(asked, placed, kind)
  {
    var strays := Strays(before, after, kind, placed);
    if o :| o in strays {
      assert strays == {o};
    }
  }

  /** Strays apart, such a placement keeps its word. */
  lemma KeepsWordButForStrays(before: Book, after: Book, kind: Kind, asked: Option<real>, placed: seq<Report>,
                              aside0: set<nat>, aside: set<nat>)
    requires AddsAtMostOne(before, after, kind, asked) && Extends(before, after)
    requires Strays(before, after, kind, placed) <= aside && aside0 <= aside
    requires forall o <- before :: o in aside ==> o in aside0
    ensures KeepsWord(before - aside0, after - aside, kind, asked, placed)
    ensures Extends(before - aside0, after - aside)
  {
    var strays := Strays(before, after, kind, placed);
    assert forall o :: o in after - aside ==> o !in strays;
  }

  lemma {:induction false} UnionSize(a: set<nat>, b: set<nat>)
    ensures |a + b| <= |a| + |b|
    decreases b
  {
    if o :| o in b {
      UnionSize(a, b - {o});
      assert a + b == (a + (b - {o})) + {o};
    } else {
      assert a + b == a;
    }
  }

  lemma NewStrays(before: Book, after: Book, tp: Option<real>, sl: Option<real>, placed: seq<Report>, strays: set<nat>)
    ensures var more := strays + Strays(before, after, Tp, placed) + Strays(before, after, Sl, placed);
            && (forall o <- before :: o in more ==> o in strays)
            && (AddsAtMostOne(before, after, Tp, tp) && AddsAtMostOne(before, after, Sl, sl) ==>
                  |more| - |strays| <= Errors(tp, placed, Tp) + Errors(sl, placed, Sl))
  {
    if AddsAtMostOne(before, after, Tp, tp) && AddsAtMostOne(before, after, Sl, sl) {
      OneStrayPerError(before, after, Tp, tp, placed);
      OneStrayPerError(before, after, Sl, sl, placed);
      UnionSize(strays, Strays(before, after, Tp, placed));
      UnionSize(strays + Strays(before, after, Tp, placed), Strays(before, after, Sl, placed));
      hide AddsAtMostOne;
    }
  }

  datatype Placement = Placement(before: Book, tp: Option<real>, sl: Option<real>, after: Book)

  class Exchange {
    const hedge: bool
    var book: Book
    ghost var exact: bool
    ghost var obeyed: bool
    ghost var orderly: bool
    ghost var strays: set<nat>
    ghost var errors: nat
    ghost var replies: seq<Option<seq<Trigger>>>
    ghost var placements: seq<Placement>

    /** Read the resting triggers of a scope. None is an unanswered read. */
    method List(scope: Scope) returns (reply: Option<seq<Trigger>>)
      modifies this`replies, this`exact
      ensures replies == old(replies) + [reply]
      ensures exact ==> old(exact)
      ensures exact && reply.Some? ==> Exact(reply.value, book, scope)
    {
      reply := *;
      replies := replies + [reply];
      exact := exact && (reply.Some? ==> Exact(reply.value, book, scope));
    }

    method Cancel(oid: nat) returns (ok: bool)
      modifies this`book, this`obeyed
      ensures book == old(book) || book == old(book) - {oid}
      ensures obeyed ==> old(obeyed) && oid !in book
    {
      ok := *;
      if * { book := book - {oid}; }
      obeyed := obeyed && oid !in book;
    }

    /** Whatever a place call adds within the scope. */
    method Add(scope: Scope)
      requires Keyed(book)
      modifies this`book
      ensures Keyed(book)
      ensures Extends(old(book), book) && Outside(book, scope) == Outside(old(book), scope)
    {
      var n :| n >= 0;
      for i := 0 to n
        invariant Extends(old(book), book) && Outside(book, scope) == Outside(old(book), scope)
        invariant Keyed(book)
      {
        var t: Trigger := *;
        if t.oid !in book && InScope(t, scope) { book := book[t.oid := t]; }
      }
    }

    /** Place the asked legs. Nothing that rests is removed and nothing is added outside the
        scope; beyond that the answer and the effect are the environment's. */
    method Place(scope: Scope, tp: Option<real>, sl: Option<real>) returns (placed: seq<Report>)
      requires Keyed(book)
      modifies this`book, this`orderly, this`strays, this`errors, this`placements
      ensures Keyed(book)
      ensures Extends(old(book), book) && Outside(book, scope) == Outside(old(book), scope)
      ensures placements == old(placements) + [Placement(old(book), tp, sl, book)]
      ensures orderly ==> old(orderly)
      ensures orderly ==> AddsAtMostOne(old(book), book, Tp, tp) && AddsAtMostOne(old(book), book, Sl, sl)
      ensures strays == old(strays) + Strays(old(book), book, Tp, placed) + Strays(old(book), book, Sl, placed)
      ensures forall o <- old(book) :: o in strays ==> o in old(strays)
      ensures errors == old(errors) + Errors(tp, placed, Tp) + Errors(sl, placed, Sl)
      ensures orderly ==> |strays| - |old(strays)| <= errors - old(errors)
    {
      placed := *;
      ghost var before := book;
      Add(scope);
      NewStrays(before, book, tp, sl, placed, strays);
      hide AddsAtMostOne, Strays, Errors, Keyed, Extends, Outside;
      orderly := orderly && AddsAtMostOne(before, book, Tp, tp) && AddsAtMostOne(before, book, Sl, sl);
      strays := strays + Strays(before, book, Tp, placed) + Strays(before, book, Sl, placed);
      errors := errors + Errors(tp, placed, Tp) + Errors(sl, placed, Sl);
      placements := placements + [Placement(before, tp, sl, book)];
    }
  }

  // ---------------------------------------------------------------------------------
  // Effective prices and leg states
  // ---------------------------------------------------------------------------------

  datatype Request = Request(side: Side, tp: Option<real>, sl: Option<real>, clearTp: bool, clearSl: bool)
  {
    function Price(kind: Kind): Option<real> {
      if kind.Tp? then tp else if kind.Sl? then sl else None
    }

    predicate Clears(kind: Kind) {
      if kind.Tp? then clearTp else kind.Sl? && clearSl
    }
  }

  datatype LegState = Unwanted | Pending | AwaitingConfirm | Confirmed

  datatype Outcome = NoPosition | TriggersUnknown | NothingToDo | Attempted

  datatype Response = Response(
    outcome: Outcome, success: bool, tpOk: Option<bool>, slOk: Option<bool>, attempts: nat)
  {
    function Ok(kind: Kind): Option<bool> {
      if kind.Tp? then tpOk else slOk
    }
  }

  /** The price a kind is resting at in a read: the last readable one wins. */
  function RestingPrice(existing: seq<Trigger>, kind: Kind): Option<real> {
    if existing == [] then None
    else
      var last := existing[|existing| - 1];
      if last.kind == kind && last.px.Some? then last.px
      else RestingPrice(existing[..|existing| - 1], kind)
  }

  /** The price a leg must end up at: the asked one, else the one it rests at unless cleared. */
  function EffectivePrice(req: Request, existing: seq<Trigger>, kind: Kind): Option<real> {
    if req.Price(kind).Some? then req.Price(kind)
    else if req.Clears(kind) then None
    else RestingPrice(existing, kind)
  }

  function ScopeOf(ex: Exchange, side: Side): Scope {
    if ex.hedge then Some(side) else None
  }

  /** On a hedge account a call is about its own leg, on a net one about everything. */
  lemma ScopeIsTheLeg(ex: Exchange, side: Side, t: Trigger)
    ensures InScope(t, ScopeOf(ex, side)) <==> ex.hedge ==> t.side == side
  {}

  /** Some answered read of this list shows the leg within tolerance. */
  ghost predicate Seen(replies: seq<Option<seq<Trigger>>>, kind: Kind, px: real) {
    exists i :: 0 <= i < |replies| && replies[i].Some? && FindLanded(replies[i].value, kind, px).Some?
  }

  function AfterPlace(state: LegState, placed: seq<Report>, kind: Kind): LegState {
    if !state.Pending? then state
    else if Accepted(placed, kind) then AwaitingConfirm
    else Pending
  }

  function AfterVerify(state: LegState, verify: Option<seq<Trigger>>, kind: Kind, eff: Option<real>): LegState {
    if verify.None? || eff.None? || !(state.AwaitingConfirm? || state.Pending?) then state
    else if FindLanded(verify.value, kind, eff.value).Some? then Confirmed
    else Pending
  }

  /** What holds of one leg between attempts when the exchange behaves: every resting trigger
      of the kind is a match, there is at most one, and none while the leg is pending. */
  ghost predicate LegInvariant(book: Book, kind: Kind, scope: Scope, eff: Option<real>, state: LegState) {
    && (state.Unwanted? <==> eff.None?)
    && (forall o :: Rests(book, o, kind, scope) ==> eff.Some? && LandsAt(book[o], kind, eff.value))
    && AtMostOne(book, kind, scope)
    && (state.Pending? || state.Unwanted? ==> NoneResting(book, kind, scope))
  }

  lemma PlaceKeepsLeg(before: Book, after: Book, kind: Kind, scope: Scope, eff: Option<real>,
                      state: LegState, placed: seq<Report>)
    requires LegInvariant(before, kind, scope, eff, state) && Extends(before, after)
    requires KeepsWord(before, after, kind, if state.Pending? then eff else None, placed)
    ensures LegInvariant(after, kind, scope, eff, AfterPlace(state, placed, kind))
  {
    forall o | Rests(after, o, kind, scope)
      ensures eff.Some? && LandsAt(after[o], kind, eff.value)
    {
      if o in before { assert Rests(before, o, kind, scope); }
    }
    forall a, b | Rests(after, a, kind, scope) && Rests(after, b, kind, scope) ensures a == b {
      if a in before { assert Rests(before, a, kind, scope); }
      if b in before { assert Rests(before, b, kind, scope); }
    }
    var next := AfterPlace(state, placed, kind);
    if next.Pending? || next.Unwanted? {
      forall o ensures !Rests(after, o, kind, scope) {
        if Rests(after, o, kind, scope) && o in before { assert Rests(before, o, kind, scope); }
      }
    }
  }

  lemma VerifyKeepsLeg(book: Book, kind: Kind, scope: Scope, eff: Option<real>, state: LegState,
                       verify: Option<seq<Trigger>>, left: set<nat>)
    requires LegInvariant(book - left, kind, scope, eff, state)
    requires (verify.Some? ==> Exact(verify.value, book, scope)) && Keyed(book)
    ensures LegInvariant(book - left, kind, scope, eff, AfterVerify(state, verify, kind, eff))
  {
    var next := AfterVerify(state, verify, kind, eff);
    if next.Pending? && verify.Some? && eff.Some? {
      forall o | Rests(book - left, o, kind, scope) ensures book[o] in verify.value {}
    }
  }

  // ---------------------------------------------------------------------------------
  // The protocol
  // ---------------------------------------------------------------------------------

  /** The price of a kind in a read, found by the loop the route runs over it. */
  method ReadPrice(existing: seq<Trigger>, kind: Kind) returns (price: Option<real>)
    ensures price == RestingPrice(existing, kind)
  {
    price := None;
    for i := 0 to |existing|
      invariant price == RestingPrice(existing[..i], kind)
    {
      if existing[i].kind == kind && existing[i].px.Some? { price := existing[i].px; }
      assert existing[..i + 1][..i] == existing[..i];
    }
    assert existing[..|existing|] == existing;
  }

  method CancelAll(ex: Exchange, existing: seq<Trigger>)
    modifies ex`book, ex`obeyed
    ensures forall o :: o in ex.book ==> o in old(ex.book) && ex.book[o] == old(ex.book)[o]
    ensures forall o :: o in old(ex.book) && (forall t :: t in existing ==> t.oid != o) ==> o in ex.book
    ensures ex.obeyed ==> old(ex.obeyed)
    ensures ex.obeyed ==> forall t :: t in existing ==> t.oid !in ex.book
  {
    for i := 0 to |existing|
      invariant forall o :: o in ex.book ==> o in old(ex.book) && ex.book[o] == old(ex.book)[o]
      invariant forall o :: o in old(ex.book) && (forall j :: 0 <= j < i ==> existing[j].oid != o) ==> o in ex.book
      invariant ex.obeyed ==> old(ex.obeyed)
      invariant ex.obeyed ==> forall j :: 0 <= j < i ==> existing[j].oid !in ex.book
    {
      var _ := ex.Cancel(existing[i].oid);
    }
  }

  /** Read back, repeating only the read while it stays unanswered. */
  method ReadBack(ex: Exchange, scope: Scope) returns (verify: Option<seq<Trigger>>)
    modifies ex`replies, ex`exact
    ensures |old(ex.replies)| < |ex.replies| <= |old(ex.replies)| + READ_RETRIES + 1
    ensures ex.replies[..|old(ex.replies)|] == old(ex.replies)
    ensures ex.replies[|ex.replies| - 1] == verify
    ensures forall i :: |old(ex.replies)| <= i < |ex.replies| - 1 ==> ex.replies[i].None?
    ensures verify.None? ==> |ex.replies| == |old(ex.replies)| + READ_RETRIES + 1
    ensures ex.exact ==> old(ex.exact) && (verify.Some? ==> Exact(verify.value, ex.book, scope))
  {
    verify := ex.List(scope);
    var tries := 0;
    while verify.None? && tries < READ_RETRIES
      invariant 0 <= tries <= READ_RETRIES
      invariant |ex.replies| == |old(ex.replies)| + tries + 1
      invariant ex.replies[..|old(ex.replies)|] == old(ex.replies)
      invariant ex.replies[|ex.replies| - 1] == verify
      invariant forall i :: |old(ex.replies)| <= i < |ex.replies| - 1 ==> ex.replies[i].None?
      invariant ex.exact ==> old(ex.exact) && (verify.Some? ==> Exact(verify.value, ex.book, scope))
    {
      verify := ex.List(scope);
      tries := tries + 1;
    }
  }

  /** Only the last of a read-back's replies can be an answer. */
  lemma SeenAfterReadBack(before: seq<Option<seq<Trigger>>>, after: seq<Option<seq<Trigger>>>,
                          from: nat, kind: Kind, px: real)
    requires from <= |before| < |after| && after[..|before|] == before
    requires forall i :: |before| <= i < |after| - 1 ==> after[i].None?
    ensures Seen(after[from..], kind, px)
       <==> Seen(before[from..], kind, px)
            || (after[|after| - 1].Some? && FindLanded(after[|after| - 1].value, kind, px).Some?)
  {
    var old_, new_ := before[from..], after[from..];
    if Seen(old_, kind, px) {
      var i :| 0 <= i < |old_| && old_[i].Some? && FindLanded(old_[i].value, kind, px).Some?;
      assert new_[i] == after[from + i] == before[from + i];
    }
    var verify := after[|after| - 1];
    assert new_[|new_| - 1] == verify;
    if Seen(new_, kind, px) {
      var i :| 0 <= i < |new_| && new_[i].Some? && FindLanded(new_[i].value, kind, px).Some?;
      if from + i < |before| {
        assert old_[i] == before[from + i] == after[from + i];
      }
    }
  }

  /** Apart from the triggers that are `left` because their cancel did not take effect, or strays,
      a place call asks for a leg only when none of its kind rests, and leaves at most one of each kind
      resting. */
  ghost predicate NeverStacks(p: Placement, scope: Scope, left: set<nat>) {
    && (p.tp.Some? ==> NoneResting(p.before - left, Tp, scope))
    && (p.sl.Some? ==> NoneResting(p.before - left, Sl, scope))
    && AtMostOne(p.after - left, Tp, scope) && AtMostOne(p.after - left, Sl, scope)
  }

  lemma MoreAside(p: Placement, scope: Scope, aside: set<nat>, more: set<nat>)
    requires NeverStacks(p, scope, aside) && aside <= more
    ensures NeverStacks(p, scope, more)
  {
    forall o, kind
      ensures Rests(p.before - more, o, kind, scope) ==> Rests(p.before - aside, o, kind, scope)
      ensures Rests(p.after - more, o, kind, scope) ==> Rests(p.after - aside, o, kind, scope)
    {}
  }

  /** So do the place calls from number `n` on. */
  ghost predicate NoneStacks(placements: seq<Placement>, n: nat, scope: Scope, left: set<nat>) {
    n <= |placements| && forall i :: n <= i < |placements| ==> NeverStacks(placements[i], scope, left)
  }

  lemma OneMoreStacksNothing(before: seq<Placement>, after: seq<Placement>, n: nat, scope: Scope,
                             aside: set<nat>, more: set<nat>)
    requires NoneStacks(before, n, scope, aside) && aside <= more
    requires |after| == |before| + 1 && after[..|before|] == before && NeverStacks(after[|before|], scope, more)
    ensures NoneStacks(after, n, scope, more)
  {
    hide NeverStacks;
    forall i | n <= i < |before|
      ensures NeverStacks(after[i], scope, more)
    {
      assert after[i] == before[i];
      MoreAside(before[i], scope, aside, more);
    }
  }

  function Initial(eff: Option<real>): LegState {
    if eff.Some? then Pending else Unwanted
  }

  /** What a call can be judged by: the triggers resting, every reply so far, and whether the
      exchange has behaved. */
  datatype World = World(book: Book, strays: set<nat>, replies: seq<Option<seq<Trigger>>>, exact: bool, orderly: bool)

  ghost function Now(ex: Exchange): World
    reads ex
  {
    World(ex.book, ex.strays, ex.replies, ex.exact, ex.orderly)
  }

  /** What the attempts have established of one leg, from the reply at position `from` on. */
  ghost predicate LegKnown(w: World, from: nat, kind: Kind, scope: Scope, eff: Option<real>, state: LegState,
                           left: set<nat>)
    requires from <= |w.replies|
  {
    && (state.Unwanted? <==> eff.None?)
    && (eff.Some? ==> (state.Confirmed? <==> Seen(w.replies[from..], kind, eff.value)))
    && (eff.Some? && w.exact && state.Confirmed? ==> RestsAt(w.book, kind, scope, eff.value))
    && (w.exact && w.orderly ==> LegInvariant(w.book - (left + w.strays), kind, scope, eff, state))
    && (state.AwaitingConfirm? ==> w.replies != [] && w.replies[|w.replies| - 1].None?)
  }

  lemma ExtendsRestsAt(before: Book, after: Book, kind: Kind, scope: Scope, px: real)
    requires Extends(before, after) && RestsAt(before, kind, scope, px)
    ensures RestsAt(after, kind, scope, px)
  {
    var o :| Rests(before, o, kind, scope) && LandsAt(before[o], kind, px);
    assert Rests(after, o, kind, scope);
  }

  lemma FoundRestsAt(book: Book, verify: seq<Trigger>, kind: Kind, scope: Scope, px: real)
    requires Exact(verify, book, scope) && FindLanded(verify, kind, px).Some?
    ensures RestsAt(book, kind, scope, px)
  {
    var t := FindLanded(verify, kind, px).value;
    assert Rests(book, t.oid, kind, scope);
  }

  /** One attempt carries what is known of a leg across the place call and the read-back. */
  lemma KnowLeg(w0: World, w: World, from: nat, kind: Kind, scope: Scope, eff: Option<real>,
                state: LegState, placed: seq<Report>, left: set<nat>)
    requires from <= |w0.replies| < |w.replies| && w.replies[..|w0.replies|] == w0.replies
    requires forall i :: |w0.replies| <= i < |w.replies| - 1 ==> w.replies[i].None?
    requires Extends(w0.book, w.book) && Keyed(w.book)
    requires (w.exact ==> w0.exact) && (w.orderly ==> w0.orderly)
    requires LegKnown(w0, from, kind, scope, eff, state, left)
    requires w.orderly ==> AddsAtMostOne(w0.book, w.book, kind, if state.Pending? then eff else None)
    requires w0.strays <= w.strays && Strays(w0.book, w.book, kind, placed) <= w.strays
    requires forall o <- w0.book :: o in w.strays ==> o in w0.strays
    requires w.exact && w.replies[|w.replies| - 1].Some? ==> Exact(w.replies[|w.replies| - 1].value, w.book, scope)
    ensures LegKnown(w, from, kind, scope, eff,
                     AfterVerify(AfterPlace(state, placed, kind), w.replies[|w.replies| - 1], kind, eff), left)
    ensures w.exact && w.orderly ==> AtMostOne(w.book - (left + w.strays), kind, scope)
  {
    var verify := w.replies[|w.replies| - 1];
    var reported := AfterPlace(state, placed, kind);
    if eff.Some? {
      SeenAfterReadBack(w0.replies, w.replies, from, kind, eff.value);
      if w.exact && state.Confirmed? {
        ExtendsRestsAt(w0.book, w.book, kind, scope, eff.value);
      }
      if w.exact && verify.Some? && FindLanded(verify.value, kind, eff.value).Some? {
        FoundRestsAt(w.book, verify.value, kind, scope, eff.value);
      }
    }
    if w.exact && w.orderly {
      KeepsWordButForStrays(w0.book, w.book, kind, if state.Pending? then eff else None, placed,
                            left + w0.strays, left + w.strays);
      PlaceKeepsLeg(w0.book - (left + w0.strays), w.book - (left + w.strays), kind, scope, eff, state, placed);
      VerifyKeepsLeg(w.book, kind, scope, eff, reported, verify, left + w.strays);
    }
  }

  /** The reports of one place call, folded into a leg's state one by one. */
  method Reported(state: LegState, placed: seq<Report>, kind: Kind) returns (next: LegState)
    ensures next == AfterPlace(state, placed, kind)
  {
    next := state;
    for i := 0 to |placed|
      invariant next == AfterPlace(state, placed[..i], kind)
    {
      if placed[i].kind == kind && state.Pending? {
        next := if placed[i].error then Pending else AwaitingConfirm;
      }
      assert placed[..i + 1][..i] == placed[..i];
    }
    assert placed[..|placed|] == placed;
  }

  lemma StacksNothing(w0: World, w: World, from: nat, scope: Scope, tp: Option<real>, sl: Option<real>,
                      tpState: LegState, slState: LegState, left: set<nat>)
    requires from <= |w0.replies| && w0.exact && w0.orderly && w0.strays <= w.strays
    requires LegKnown(w0, from, Tp, scope, tp, tpState, left) && LegKnown(w0, from, Sl, scope, sl, slState, left)
    requires AtMostOne(w.book - (left + w.strays), Tp, scope) && AtMostOne(w.book - (left + w.strays), Sl, scope)
    ensures var placeTp, placeSl := if tpState.Pending? then tp else None, if slState.Pending? then sl else None;
            NeverStacks(Placement(w0.book, placeTp, placeSl, w.book), scope, left + w.strays)
  {
    forall o, kind
      ensures Rests(w0.book - (left + w.strays), o, kind, scope) ==> Rests(w0.book - (left + w0.strays), o, kind, scope)
    {}
  }

  /** Place what is pending, then read back. */
  method Attempt(ex: Exchange, scope: Scope, tp: Option<real>, sl: Option<real>,
                 tpState0: LegState, slState0: LegState, ghost from: nat, ghost left: set<nat>)
    returns (tpState: LegState, slState: LegState)
    requires Keyed(ex.book) && from <= |ex.replies|
    requires LegKnown(Now(ex), from, Tp, scope, tp, tpState0, left)
    requires LegKnown(Now(ex), from, Sl, scope, sl, slState0, left)
    modifies ex
    ensures Keyed(ex.book) && (ex.exact ==> old(ex.exact)) && (ex.orderly ==> old(ex.orderly))
    ensures ex.obeyed == old(ex.obeyed) && Extends(old(ex.book), ex.book)
    ensures old(ex.strays) <= ex.strays && (ex.orderly ==> |ex.strays| - |old(ex.strays)| <= ex.errors - old(ex.errors))
    ensures Outside(ex.book, scope) == Outside(old(ex.book), scope)
    ensures |old(ex.replies)| < |ex.replies| <= |old(ex.replies)| + READ_RETRIES + 1
    ensures ex.replies[..|old(ex.replies)|] == old(ex.replies)
    ensures |ex.placements| == |old(ex.placements)| + 1 && ex.placements[..|old(ex.placements)|] == old(ex.placements)
    ensures ex.placements[|old(ex.placements)|].tp == if tpState0.Pending? then tp else None
    ensures ex.placements[|old(ex.placements)|].sl == if slState0.Pending? then sl else None
    ensures ex.exact && ex.orderly ==> NeverStacks(ex.placements[|old(ex.placements)|], scope, left + ex.strays)
    ensures LegKnown(Now(ex), from, Tp, scope, tp, tpState, left)
    ensures LegKnown(Now(ex), from, Sl, scope, sl, slState, left)
  {
    hide AddsAtMostOne, Strays, Errors, KeepsWord, Seen, RestsAt, AtMostOne, NoneResting, Extends, Exact;
    ghost var w0 := Now(ex);
    var placeTp := if tpState0.Pending? then tp else None;
    var placeSl := if slState0.Pending? then sl else None;
    var placed := ex.Place(scope, placeTp, placeSl);
    tpState := Reported(tpState0, placed, Tp);
    slState := Reported(slState0, placed, Sl);
    var verify := ReadBack(ex, scope);
    KnowLeg(w0, Now(ex), from, Tp, scope, tp, tpState0, placed, left);
    KnowLeg(w0, Now(ex), from, Sl, scope, sl, slState0, placed, left);
    if ex.exact && ex.orderly {
      StacksNothing(w0, Now(ex), from, scope, tp, sl, tpState0, slState0, left);
    }
    hide LegKnown, NeverStacks;
    tpState := AfterVerify(tpState, verify, Tp, tp);
    slState := AfterVerify(slState, verify, Sl, sl);
  }

  /** The place calls from number `n` on ask for legs at these prices only, the first one for all
      that are wanted. */
  ghost predicate AsksFor(placements: seq<Placement>, n: nat, tp: Option<real>, sl: Option<real>) {
    && n <= |placements|
    && (forall i :: n <= i < |placements| ==>
          && (placements[i].tp.Some? ==> placements[i].tp == tp)
          && (placements[i].sl.Some? ==> placements[i].sl == sl))
    && (n < |placements| ==> placements[n].tp == tp && placements[n].sl == sl)
  }

  lemma AsksOnceMore(before: seq<Placement>, after: seq<Placement>, n: nat, tp: Option<real>, sl: Option<real>,
                     tpState: LegState, slState: LegState)
    requires AsksFor(before, n, tp, sl) && |after| == |before| + 1 && after[..|before|] == before
    requires after[|before|].tp == if tpState.Pending? then tp else None
    requires after[|before|].sl == if slState.Pending? then sl else None
    requires |before| == n ==> tpState == Initial(tp) && slState == Initial(sl)
    ensures AsksFor(after, n, tp, sl)
  {
    assert forall i :: 0 <= i < |before| ==> after[i] == before[i];
  }

  /** Attempt until no leg is known to be absent, at most three times. */
  method PlaceAndVerify(ex: Exchange, scope: Scope, tp: Option<real>, sl: Option<real>, ghost left: set<nat>)
    returns (tpState: LegState, slState: LegState, attempts: nat)
    requires Keyed(ex.book)
    requires LegKnown(Now(ex), |ex.replies|, Tp, scope, tp, Initial(tp), left)
    requires LegKnown(Now(ex), |ex.replies|, Sl, scope, sl, Initial(sl), left)
    modifies ex
    ensures Keyed(ex.book) && (ex.exact ==> old(ex.exact)) && (ex.orderly ==> old(ex.orderly))
    ensures ex.obeyed == old(ex.obeyed) && Extends(old(ex.book), ex.book)
    ensures old(ex.strays) <= ex.strays && (ex.orderly ==> |ex.strays| - |old(ex.strays)| <= ex.errors - old(ex.errors))
    ensures Outside(ex.book, scope) == Outside(old(ex.book), scope)
    ensures attempts <= VERIFY_ATTEMPTS && |ex.placements| == |old(ex.placements)| + attempts
    ensures |old(ex.replies)| <= |ex.replies| <= |old(ex.replies)| + attempts * (READ_RETRIES + 1)
    ensures ex.replies[..|old(ex.replies)|] == old(ex.replies)
    ensures LegKnown(Now(ex), |old(ex.replies)|, Tp, scope, tp, tpState, left)
    ensures LegKnown(Now(ex), |old(ex.replies)|, Sl, scope, sl, slState, left)
    ensures tpState.Pending? || slState.Pending? ==> attempts == VERIFY_ATTEMPTS
    ensures AsksFor(ex.placements, |old(ex.placements)|, tp, sl) && (attempts == 0 <==> tp.None? && sl.None?)
    ensures ex.exact && ex.orderly ==> NoneStacks(ex.placements, |old(ex.placements)|, scope, left + ex.strays)
  {
    ghost var from := |ex.replies|;
    tpState, slState, attempts := Initial(tp), Initial(sl), 0;
    assert AsksFor(ex.placements, |ex.placements|, tp, sl);
    assert NoneStacks(ex.placements, |ex.placements|, scope, left + ex.strays);
    hide AsksFor, NeverStacks, NoneStacks, LegKnown, Outside, Keyed;
    while (slState.Pending? || tpState.Pending?) && attempts < VERIFY_ATTEMPTS
      invariant Keyed(ex.book) && (ex.exact ==> old(ex.exact)) && (ex.orderly ==> old(ex.orderly))
      invariant ex.obeyed == old(ex.obeyed) && Extends(old(ex.book), ex.book)
      invariant old(ex.strays) <= ex.strays
      invariant ex.orderly ==> |ex.strays| - |old(ex.strays)| <= ex.errors - old(ex.errors)
      invariant Outside(ex.book, scope) == Outside(old(ex.book), scope)
      invariant attempts <= VERIFY_ATTEMPTS && |ex.placements| == |old(ex.placements)| + attempts
      invariant from <= |ex.replies| <= from + attempts * (READ_RETRIES + 1)
      invariant ex.replies[..from] == old(ex.replies)
      invariant LegKnown(Now(ex), from, Tp, scope, tp, tpState, left)
      invariant LegKnown(Now(ex), from, Sl, scope, sl, slState, left)
      invariant AsksFor(ex.placements, |old(ex.placements)|, tp, sl)
      invariant attempts == 0 ==> tpState == Initial(tp) && slState == Initial(sl)
      invariant attempts > 0 ==> tp.Some? || sl.Some?
      invariant ex.exact && ex.orderly ==> NoneStacks(ex.placements, |old(ex.placements)|, scope, left + ex.strays)
    {
      attempts := attempts + 1;
      ghost var aside, asked, tpState0, slState0 := left + ex.strays, ex.placements, tpState, slState;
      tpState, slState := Attempt(ex, scope, tp, sl, tpState, slState, from, left);
      AsksOnceMore(asked, ex.placements, |old(ex.placements)|, tp, sl, tpState0, slState0);
      if ex.exact && ex.orderly {
        OneMoreStacksNothing(asked, ex.placements, |old(ex.placements)|, scope, aside, left + ex.strays);
      }
    }
  }

  /** The verdict on one leg, as the caller reads it. */
  function Verdict(eff: Option<real>, state: LegState): Option<bool> {
    if eff.None? then None else Some(state.Confirmed?)
  }

  /** A verdict on one leg is honest when it is given exactly for a wanted leg; is good exactly
      when an answered read-back of this call showed the leg; and, reads being exact, a good
      leg really rests within tolerance of its effective price. `before` counts the replies
      that precede the call; the first one after them is what the call found resting. */
  ghost predicate HonestVerdict(w: World, before: nat, req: Request, scope: Scope, kind: Kind, ok: Option<bool>) {
    before < |w.replies| && w.replies[before].Some? &&
    var eff := EffectivePrice(req, w.replies[before].value, kind);
    && (ok.None? <==> eff.None?)
    && (eff.Some? ==> (ok == Some(true) <==> Seen(w.replies[before + 1..], kind, eff.value)))
    && (eff.Some? && w.exact && ok == Some(true) ==> RestsAt(w.book, kind, scope, eff.value))
  }

  /** What rests of one kind, apart from what is `left` and from strays, when reads are exact and
      placements orderly: at most one trigger; none when the leg is unwanted; none when it failed and the
      last read was answered. */
  ghost predicate Unstacked(w: World, scope: Scope, kind: Kind, ok: Option<bool>, left: set<nat>) {
    && AtMostOne(w.book - (left + w.strays), kind, scope)
    && (ok.None? ==> NoneResting(w.book - (left + w.strays), kind, scope))
    && (ok == Some(false) && w.replies != [] && w.replies[|w.replies| - 1].Some? ==>
          NoneResting(w.book - (left + w.strays), kind, scope))
  }

  lemma JudgeLeg(w: World, before: nat, req: Request, scope: Scope, kind: Kind, state: LegState, left: set<nat>)
    requires before < |w.replies| && w.replies[before].Some?
    requires LegKnown(w, before + 1, kind, scope, EffectivePrice(req, w.replies[before].value, kind), state, left)
    ensures HonestVerdict(w, before, req, scope, kind,
                          Verdict(EffectivePrice(req, w.replies[before].value, kind), state))
  {
  }

  lemma StartLeg(w: World, kind: Kind, scope: Scope, eff: Option<real>, left: set<nat>)
    requires w.exact ==> NoneResting(w.book - left, kind, scope)
    ensures LegKnown(w, |w.replies|, kind, scope, eff, Initial(eff), left)
  {
    assert w.replies[|w.replies|..] == [];
    forall o ensures Rests(w.book - (left + w.strays), o, kind, scope) ==> Rests(w.book - left, o, kind, scope) {}
  }

  lemma RestLeg(w: World, from: nat, kind: Kind, scope: Scope, eff: Option<real>, state: LegState, left: set<nat>)
    requires from <= |w.replies| && LegKnown(w, from, kind, scope, eff, state, left)
    ensures w.exact && w.orderly ==> Unstacked(w, scope, kind, Verdict(eff, state), left)
  {
  }

  /** A call gives up on a leg only after its last place call, or with its last read unanswered. */
  lemma GivesUp(w: World, from: nat, kind: Kind, scope: Scope, eff: Option<real>, state: LegState, left: set<nat>)
    requires from <= |w.replies| && LegKnown(w, from, kind, scope, eff, state, left)
    ensures Verdict(eff, state) == Some(false) ==>
              state.Pending? || (w.replies != [] && w.replies[|w.replies| - 1].None?)
  {
  }

  /** The triggers of a read that rest nevertheless. */
  function StillResting(existing: seq<Trigger>, book: Book): set<nat> {
    set t | t in existing && t.oid in book :: t.oid
  }

  lemma CancelledAll(before: Book, after: Book, existing: seq<Trigger>, kind: Kind, scope: Scope)
    requires Exact(existing, before, scope) && Keyed(before)
    requires forall o :: o in after ==> o in before && after[o] == before[o]
    ensures NoneResting(after - StillResting(existing, after), kind, scope)
  {
    forall o | o in after && InScope(after[o], scope) ensures before[o] in existing {}
  }

  lemma CancelsOnlyTheScope(before: Book, after: Book, existing: seq<Trigger>, scope: Scope)
    requires Exact(existing, before, scope) && Keyed(before)
    requires forall o :: o in after ==> o in before && after[o] == before[o]
    requires forall o :: o in before && (forall t :: t in existing ==> t.oid != o) ==> o in after
    ensures Outside(after, scope) == Outside(before, scope)
  {
    forall o | o in before && !InScope(before[o], scope) ensures o in after {
      forall t | t in existing ensures t.oid != o {}
    }
  }

  // ---------------------------------------------------------------------------------
  // What the caller asked for
  // ---------------------------------------------------------------------------------

  /** The last trigger of a kind with a readable price in a read. */
  ghost predicate IsLast(existing: seq<Trigger>, kind: Kind, i: int) {
    && 0 <= i < |existing| && existing[i].kind == kind && existing[i].px.Some?
    && (forall j :: i < j < |existing| && existing[j].kind == kind ==> existing[j].px.None?)
  }

  ghost predicate LastReadable(existing: seq<Trigger>, kind: Kind, p: real) {
    exists i :: IsLast(existing, kind, i) && existing[i].px == Some(p)
  }

  ghost predicate NoneReadable(existing: seq<Trigger>, kind: Kind) {
    forall i :: 0 <= i < |existing| && existing[i].kind == kind ==> existing[i].px.None?
  }

  /** A leg that has to end up at `p` is answered for, well exactly when a read-back of the call
      showed it there; and then, reads being exact, it rests there. */
  ghost predicate EndsAt(w: World, before: nat, scope: Scope, kind: Kind, ok: Option<bool>, p: real)
    requires before < |w.replies|
  {
    && ok.Some?
    && (ok.value <==> Seen(w.replies[before + 1..], kind, p))
    && (w.exact && ok.value ==> RestsAt(w.book, kind, scope, p))
  }

  /** What a call delivers of one kind, by the price and the clear flag it was given and what it
      found: a priced leg ends up at the asked price, one that is neither priced nor cleared where
      it was, and any other is gone. */
  ghost predicate Delivers(w: World, before: nat, scope: Scope, kind: Kind, asked: Option<real>, clear: bool,
                           ok: Option<bool>, left: set<nat>)
  {
    before < |w.replies| && w.replies[before].Some? &&
    var existing := w.replies[before].value;
    && (asked.Some? ==> EndsAt(w, before, scope, kind, ok, asked.value))
    && (forall p :: LastReadable(existing, kind, p) && asked.None? && !clear ==> EndsAt(w, before, scope, kind, ok, p))
    && (asked.None? && (clear || NoneReadable(existing, kind)) ==>
          && ok.None?
          && (w.exact && w.orderly ==> NoneResting(w.book - (left + w.strays), kind, scope)))
  }

  /** The price a kind is to rest at: the asked one, else the one it was found at unless cleared. */
  ghost predicate Wanted(existing: seq<Trigger>, kind: Kind, asked: Option<real>, clear: bool, price: Option<real>) {
    if asked.Some? then price == asked
    else if clear || NoneReadable(existing, kind) then price.None?
    else price.Some? && LastReadable(existing, kind, price.value)
  }

  lemma {:induction false} RestingPriceIsFound(existing: seq<Trigger>, kind: Kind) returns (i: int)
    ensures RestingPrice(existing, kind).None? ==> NoneReadable(existing, kind)
    ensures RestingPrice(existing, kind).Some? ==>
              IsLast(existing, kind, i) && existing[i].px == RestingPrice(existing, kind)
    decreases |existing|
  {
    i := |existing| - 1;
    if existing != [] && !(existing[i].kind == kind && existing[i].px.Some?) {
      i := RestingPriceIsFound(existing[..|existing| - 1], kind);
      assert forall k :: 0 <= k < |existing| - 1 ==> existing[..|existing| - 1][k] == existing[k];
    }
  }

  lemma RestingPriceIs(existing: seq<Trigger>, kind: Kind)
    ensures RestingPrice(existing, kind).None? <==> NoneReadable(existing, kind)
    ensures forall p :: LastReadable(existing, kind, p) <==> RestingPrice(existing, kind) == Some(p)
  {
    var i := RestingPriceIsFound(existing, kind);
    hide RestingPrice;
  }

  lemma VerdictDelivers(w: World, before: nat, req: Request, scope: Scope, kind: Kind, ok: Option<bool>, left: set<nat>)
    requires HonestVerdict(w, before, req, scope, kind, ok)
    requires w.exact && w.orderly ==> Unstacked(w, scope, kind, ok, left)
    ensures Delivers(w, before, scope, kind, req.Price(kind), req.Clears(kind), ok, left)
  {
    RestingPriceIs(w.replies[before].value, kind);
    hide RestingPrice, Seen, RestsAt, NoneResting, AtMostOne, LastReadable, NoneReadable;
  }

  /** What the main path guarantees of a call whose first read was number `before`. */
  ghost predicate Judged(w: World, before: nat, req: Request, scope: Scope, r: Response, left: set<nat>) {
    && HonestVerdict(w, before, req, scope, Tp, r.tpOk)
    && HonestVerdict(w, before, req, scope, Sl, r.slOk)
    && (r.success <==> r.tpOk != Some(false) && r.slOk != Some(false))
    && (w.exact && w.orderly ==> Unstacked(w, scope, Tp, r.tpOk, left) && Unstacked(w, scope, Sl, r.slOk, left))
  }

  lemma JudgedDelivers(w: World, before: nat, req: Request, scope: Scope, r: Response, left: set<nat>)
    requires Judged(w, before, req, scope, r, left)
    ensures Delivers(w, before, scope, Tp, req.tp, req.clearTp, r.tpOk, left)
    ensures Delivers(w, before, scope, Sl, req.sl, req.clearSl, r.slOk, left)
    ensures r.success <==> r.tpOk != Some(false) && r.slOk != Some(false)
  {
    hide HonestVerdict, Unstacked, Delivers;
    VerdictDelivers(w, before, req, scope, Tp, r.tpOk, left);
    VerdictDelivers(w, before, req, scope, Sl, r.slOk, left);
  }

  /** Step 3: cancel what was read. */
  method Clear(ex: Exchange, scope: Scope, existing: seq<Trigger>) returns (ghost left: set<nat>)
    requires Keyed(ex.book) && (ex.exact ==> Exact(existing, ex.book, scope))
    modifies ex`book, ex`obeyed
    ensures Keyed(ex.book) && (ex.obeyed ==> old(ex.obeyed))
    ensures left == StillResting(existing, ex.book) && (ex.obeyed ==> left == {})
    ensures forall o <- left :: o in ex.book && o in old(ex.book) && ex.book[o] == old(ex.book)[o]
    ensures ex.exact ==> Outside(ex.book, scope) == Outside(old(ex.book), scope)
    ensures ex.exact ==> NoneResting(ex.book - left, Tp, scope) && NoneResting(ex.book - left, Sl, scope)
  {
    hide Exact, NoneResting;
    CancelAll(ex, existing);
    left := StillResting(existing, ex.book);
    if ex.exact {
      CancelsOnlyTheScope(old(ex.book), ex.book, existing, scope);
      CancelledAll(old(ex.book), ex.book, existing, Tp, scope);
      CancelledAll(old(ex.book), ex.book, existing, Sl, scope);
    }
  }

  /** The response to what became of the two legs. */
  function Answer(tp: Option<real>, sl: Option<real>, tpState: LegState, slState: LegState, attempts: nat): Response {
    var tpOk, slOk := Verdict(tp, tpState), Verdict(sl, slState);
    Response(Attempted, slOk != Some(false) && tpOk != Some(false), tpOk, slOk, attempts)
  }

  lemma AnswerIsJudged(w: World, before: nat, req: Request, scope: Scope, existing: seq<Trigger>,
                                          tpState: LegState, slState: LegState, attempts: nat, left: set<nat>)
    requires before < |w.replies| && w.replies[before] == Some(existing)
    requires LegKnown(w, before + 1, Tp, scope, EffectivePrice(req, existing, Tp), tpState, left)
    requires LegKnown(w, before + 1, Sl, scope, EffectivePrice(req, existing, Sl), slState, left)
    ensures Judged(w, before, req, scope,
                   Answer(EffectivePrice(req, existing, Tp), EffectivePrice(req, existing, Sl),
                          tpState, slState, attempts), left)
  {
    hide LegKnown, HonestVerdict, Unstacked, EffectivePrice;
    JudgeLeg(w, before, req, scope, Tp, tpState, left);
    JudgeLeg(w, before, req, scope, Sl, slState, left);
    RestLeg(w, before + 1, Tp, scope, EffectivePrice(req, existing, Tp), tpState, left);
    RestLeg(w, before + 1, Sl, scope, EffectivePrice(req, existing, Sl), slState, left);
  }

  /** Steps 3 and 4: cancel what was read, then place and verify the effective legs. */
  method Replace(ex: Exchange, req: Request, scope: Scope, existing: seq<Trigger>, tp: Option<real>, sl: Option<real>)
    returns (r: Response, ghost left: set<nat>)
    requires Keyed(ex.book) && (ex.exact ==> Exact(existing, ex.book, scope))
    requires ex.replies != [] && ex.replies[|ex.replies| - 1] == Some(existing)
    requires tp == EffectivePrice(req, existing, Tp) && sl == EffectivePrice(req, existing, Sl)
    modifies ex
    ensures Keyed(ex.book) && (ex.exact ==> old(ex.exact)) && (ex.orderly ==> old(ex.orderly))
    ensures |ex.placements| <= |old(ex.placements)| + 3
    ensures |old(ex.replies)| <= |ex.replies| <= |old(ex.replies)| + 9
    ensures ex.replies[..|old(ex.replies)|] == old(ex.replies)
    ensures ex.exact ==> Outside(ex.book, scope) == Outside(old(ex.book), scope)
    ensures ex.exact && ex.orderly ==> NoneStacks(ex.placements, |old(ex.placements)|, scope, left + ex.strays)
    ensures ex.obeyed ==> old(ex.obeyed) && left == {}
    ensures old(ex.strays) <= ex.strays && (ex.orderly ==> |ex.strays| - |old(ex.strays)| <= ex.errors - old(ex.errors))
    ensures forall o <- left :: o in ex.book && o in old(ex.book) && ex.book[o] == old(ex.book)[o]
    ensures r.outcome.Attempted? && Judged(Now(ex), |old(ex.replies)| - 1, req, scope, r, left)
    ensures r.attempts == |ex.placements| - |old(ex.placements)| && AsksFor(ex.placements, |old(ex.placements)|, tp, sl)
    ensures r.attempts == 0 <==> tp.None? && sl.None?
    ensures r.tpOk == Some(false) || r.slOk == Some(false) ==>
              r.attempts == 3 || (ex.replies != [] && ex.replies[|ex.replies| - 1].None?)
  {
    hide LegKnown, Judged, NoneStacks, Exact, NoneResting, Keyed, Outside, EffectivePrice, Verdict, AsksFor;
    ghost var before := |ex.replies| - 1;
    left := Clear(ex, scope, existing);
    StartLeg(Now(ex), Tp, scope, tp, left);
    StartLeg(Now(ex), Sl, scope, sl, left);
    var tpState, slState, attempts := PlaceAndVerify(ex, scope, tp, sl, left);
    assert ex.replies[before] == ex.replies[..before + 1][before] == Some(existing);
    AnswerIsJudged(Now(ex), before, req, scope, existing, tpState, slState, attempts, left);
    GivesUp(Now(ex), before + 1, Tp, scope, tp, tpState, left);
    GivesUp(Now(ex), before + 1, Sl, scope, sl, slState, left);
    r := Answer(tp, sl, tpState, slState, attempts);
  }

  /** The route. `position` is the size of the position found for the symbol and side. */
  method ModifyStops(ex: Exchange, req: Request, position: Option<real>) returns (r: Response, ghost left: set<nat>)
    requires Keyed(ex.book)
    modifies ex
    ensures Keyed(ex.book) && (ex.exact ==> old(ex.exact)) && (ex.orderly ==> old(ex.orderly))
    // At most ten reads and three place calls.
    ensures |old(ex.replies)| <= |ex.replies| <= |old(ex.replies)| + 10
    ensures |ex.placements| <= |old(ex.placements)| + 3
    // Which way the call goes.
    ensures r.outcome.NoPosition? <==> position.None?
    ensures position.Some? ==> |ex.replies| > |old(ex.replies)|
    ensures position.Some? ==> (r.outcome.TriggersUnknown? <==> ex.replies[|old(ex.replies)|].None?)
    ensures position.Some? && ex.replies[|old(ex.replies)|].Some? ==>
              var existing := ex.replies[|old(ex.replies)|].value;
              (r.outcome.NothingToDo? <==>
                 && req.tp.None? && !req.clearTp && NoneReadable(existing, Tp)
                 && req.sl.None? && !req.clearSl && NoneReadable(existing, Sl))
    // Off the main path nothing is touched.
    ensures !r.outcome.Attempted? ==>
              ex.book == old(ex.book) && ex.placements == old(ex.placements) && r.success == r.outcome.NothingToDo?
    // The verdicts, and success as the verdict on every wanted leg.
    ensures r.outcome.Attempted? ==> Judged(Now(ex), |old(ex.replies)|, req, ScopeOf(ex, req.side), r, left)
    // Every leg is where it was asked for, or where it was, or gone.
    ensures r.outcome.Attempted? ==>
              var w, before, scope := Now(ex), |old(ex.replies)|, ScopeOf(ex, req.side);
              && Delivers(w, before, scope, Tp, req.tp, req.clearTp, r.tpOk, left)
              && Delivers(w, before, scope, Sl, req.sl, req.clearSl, r.slOk, left)
              && (r.success <==> r.tpOk != Some(false) && r.slOk != Some(false))
    // The first place call asks for every leg that is to rest, later ones for nothing else, and
    // the call gives up only after the third, or with its last read unanswered.
    ensures r.outcome.Attempted? ==>
              exists tp, sl ::
                && Wanted(ex.replies[|old(ex.replies)|].value, Tp, req.tp, req.clearTp, tp)
                && Wanted(ex.replies[|old(ex.replies)|].value, Sl, req.sl, req.clearSl, sl)
                && AsksFor(ex.placements, |old(ex.placements)|, tp, sl) && (r.attempts == 0 <==> tp.None? && sl.None?)
    ensures r.attempts == |ex.placements| - |old(ex.placements)|
    ensures r.tpOk == Some(false) || r.slOk == Some(false) ==>
              r.attempts == 3 || (ex.replies != [] && ex.replies[|ex.replies| - 1].None?)
    // The other leg of a hedge account is untouched.
    ensures ex.exact ==> Outside(ex.book, ScopeOf(ex, req.side)) == Outside(old(ex.book), ScopeOf(ex, req.side))
    // Nothing is ever stacked, except on triggers whose cancel did not take effect.
    ensures r.outcome.Attempted? && ex.exact && ex.orderly ==>
              NoneStacks(ex.placements, |old(ex.placements)|, ScopeOf(ex, req.side), left + ex.strays)
    ensures ex.obeyed ==> old(ex.obeyed) && left == {}
    ensures old(ex.strays) <= ex.strays && (ex.orderly ==> |ex.strays| - |old(ex.strays)| <= ex.errors - old(ex.errors))
    ensures forall o <- left :: o in ex.book && o in old(ex.book) && ex.book[o] == old(ex.book)[o]
  {
    hide Judged, Delivers, NoneStacks, Exact, Keyed, Outside, RestingPrice, LastReadable, NoneReadable, AddsAtMostOne;
    hide AsksFor;
    var scope := ScopeOf(ex, req.side);
    ghost var before := |ex.replies|;
    if position.None? { return Response(NoPosition, false, None, None, 0), {}; }
    var existing := ex.List(scope);
    if existing.None? { return Response(TriggersUnknown, false, None, None, 0), {}; }
    RestingPriceIs(existing.value, Tp);
    RestingPriceIs(existing.value, Sl);
    var restingTp := ReadPrice(existing.value, Tp);
    var restingSl := ReadPrice(existing.value, Sl);
    var tp := if req.tp.None? && !req.clearTp then restingTp else req.tp;
    var sl := if req.sl.None? && !req.clearSl then restingSl else req.sl;
    if tp.None? && sl.None? && !(req.clearTp || req.clearSl) {
      return Response(NothingToDo, true, None, None, 0), {};
    }
    assert tp == EffectivePrice(req, existing.value, Tp) && sl == EffectivePrice(req, existing.value, Sl);
    assert Wanted(existing.value, Tp, req.tp, req.clearTp, tp) && Wanted(existing.value, Sl, req.sl, req.clearSl, sl);
    r, left := Replace(ex, req, scope, existing.value, tp, sl);
    JudgedDelivers(Now(ex), before, req, scope, r, left);
    assert ex.replies[..before] == ex.replies[..before + 1][..before] == old(ex.replies);
  }

  // ---------------------------------------------------------------------------------
  // A refused cancel
  // ---------------------------------------------------------------------------------

  /** A stop rests at 90 and its cancel is refused; one at 95 is placed and read back. The call
      reports success, and two stops rest. */
  lemma RefusedCancelStacks()
    ensures
      var old_, new_ := Trigger(1, Sl, Some(90.0), Long), Trigger(2, Sl, Some(95.0), Long);
      var req := Request(Long, None, Some(95.0), false, false);
      var w := World(map[1 := old_, 2 := new_], {}, [Some([old_]), Some([old_, new_])], true, true);
      && KeepsWord(map[1 := old_], w.book, Sl, Some(95.0), [Report(Sl, false)])
      && Judged(w, 0, req, None, Answer(None, Some(95.0), Unwanted, Confirmed, 1), StillResting([old_], map[1 := old_]))
      && Answer(None, Some(95.0), Unwanted, Confirmed, 1).success
      && !AtMostOne(w.book, Sl, None)
  {
    var old_, new_ := Trigger(1, Sl, Some(90.0), Long), Trigger(2, Sl, Some(95.0), Long);
    var req := Request(Long, None, Some(95.0), false, false);
    var w := World(map[1 := old_, 2 := new_], {}, [Some([old_]), Some([old_, new_])], true, true);
    assert Lands(95.0, 95.0);
    assert Rests(w.book, 1, Sl, None) && Rests(w.book, 2, Sl, None);
    var left := StillResting([old_], map[1 := old_]);
    assert old_.oid in left;
    assert left == {1};
    var eff := EffectivePrice(req, [old_], Sl);
    assert eff == Some(95.0) && EffectivePrice(req, [old_], Tp) == None by {
      assert [old_][..0] == [];
      assert RestingPrice([old_], Tp) == RestingPrice([], Tp);
    }
    assert w.replies[1..][0] == Some([old_, new_]);
    assert [old_, new_][1..] == [new_];
    assert FindLanded([new_], Sl, 95.0) == Some(new_);
  }

  /** A stop is placed, but the answer is an error and the read-back stays unanswered: it is placed
      again and read back. The call reports success, and two stops rest. */
  lemma LandedErrorStacks()
    ensures
      var first, second := Trigger(1, Sl, Some(95.0), Long), Trigger(2, Sl, Some(95.0), Long);
      var req := Request(Long, None, Some(95.0), false, false);
      var error, fine := [Report(Sl, true)], [Report(Sl, false)];
      var replies := [Some([]), None, None, None, Some([first, second])];
      var w := World(map[1 := first, 2 := second], {1}, replies, true, true);
      && AddsAtMostOne(map[], map[1 := first], Sl, Some(95.0)) && Strays(map[], map[1 := first], Sl, error) == {1}
      && AfterVerify(AfterPlace(Pending, error, Sl), None, Sl, Some(95.0)) == Pending
      && AddsAtMostOne(map[1 := first], w.book, Sl, Some(95.0)) && Strays(map[1 := first], w.book, Sl, fine) == {}
      && AfterVerify(AfterPlace(Pending, fine, Sl), Some([first, second]), Sl, Some(95.0)) == Confirmed
      && Judged(w, 0, req, None, Answer(None, Some(95.0), Unwanted, Confirmed, 2), {})
      && Answer(None, Some(95.0), Unwanted, Confirmed, 2).success
      && !AtMostOne(w.book, Sl, None)
  {
    var first, second := Trigger(1, Sl, Some(95.0), Long), Trigger(2, Sl, Some(95.0), Long);
    var req := Request(Long, None, Some(95.0), false, false);
    var w := World(map[1 := first, 2 := second], {1}, [Some([]), None, None, None, Some([first, second])], true, true);
    assert Lands(95.0, 95.0);
    assert FindLanded([first, second], Sl, 95.0) == Some(first);
    assert 1 in Strays(map[], map[1 := first], Sl, [Report(Sl, true)]);
    assert EffectivePrice(req, [], Sl) == Some(95.0) && EffectivePrice(req, [], Tp) == None;
    assert w.replies[1..][3] == Some([first, second]);
    assert Rests(w.book, 1, Sl, None) && Rests(w.book, 2, Sl, None);
  }
}
