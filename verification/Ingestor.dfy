/**
 The closed-candle stream (market-ingestion/app/ingestor.py): warm-up from REST, the watch loop
 that closes a bar when the next one opens, and the stitching of gaps.

 Open times are counted in bars: the bar `t` opens `t` intervals after the epoch. The venue's
 REST history is a function `rest` from open times to candles.
 */
module Ingestor {
  import opened Prelude

  datatype Candle = Candle(t: int, o: real, h: real, l: real, c: real, v: real)

  type History = int -> Candle

  ghost predicate Faithful(rest: History) {
    forall t :: rest(t).t == t
  }

  /** The most bars one request returns. */
  const REQUEST_CAP := 1000

  predicate Contiguous(s: seq<Candle>) {
    forall i :: 0 < i < |s| ==> s[i].t == s[i - 1].t + 1
  }

  function Tail(s: seq<Candle>): int
    requires s != []
  {
    s[|s| - 1].t
  }

  // ---------------------------------------------------------------------------------
  // Warm-up
  // ---------------------------------------------------------------------------------

  /** The bars of a REST answer that the stream does not have yet. */
  function NewBars(stream: seq<Candle>, closed: seq<Candle>): seq<Candle> {
    if closed == [] then []
    else
      var rest := NewBars(stream, closed[..|closed| - 1]);
      var bar := closed[|closed| - 1];
      if stream != [] && bar.t <= Tail(stream) then rest else rest + [bar]
  }

  /** The last bar of an answer is still forming. */
  function Warmup(stream: seq<Candle>, raw: seq<Candle>): seq<Candle> {
    if raw == [] then stream else stream + NewBars(stream, raw[..|raw| - 1])
  }

  predicate Discontinuous(stream: seq<Candle>, raw: seq<Candle>) {
    && raw != [] && stream != []
    && var added := NewBars(stream, raw[..|raw| - 1]);
       added != [] && added[0].t > Tail(stream) + 1
  }

  // ---------------------------------------------------------------------------------
  // Watch loop
  // ---------------------------------------------------------------------------------

  /** The bar being watched: the open time it was first seen with and its latest update. */
  datatype Bar = Bar(open: int, candle: Candle)

  datatype Watch = Watch(stream: seq<Candle>, prev: Option<Bar>)

  function Limit(missing: int): (n: nat) {
    var wanted := if missing + 10 >= 10 then missing + 10 else 10;
    if wanted <= REQUEST_CAP then wanted else REQUEST_CAP
  }

  function Missing(from: int, to: int): nat {
    if to - from - 1 >= 0 then to - from - 1 else 0
  }

  /** The bars from `from` to `to`, the second excluded. */
  function Bars(rest: History, from: int, to: int): (s: seq<Candle>)
    ensures |s| == if from <= to then to - from else 0
  {
    seq(if from <= to then to - from else 0, i => rest(from + i))
  }

  /** The bars between two open times, both excluded, as far as one request reaches. */
  function Stitch(rest: History, from: int, to: int): seq<Candle> {
    var n := Missing(from, to);
    Bars(rest, from + 1, from + 1 + if n <= Limit(n) then n else Limit(n))
  }

  function Step(w: Watch, c: Candle, rest: History): Watch {
    var seen := Some(Bar(c.t, c));
    if w.prev.None? then
      var filled := if w.stream != [] && c.t > Tail(w.stream) + 1 then Stitch(rest, Tail(w.stream), c.t) else [];
      Watch(w.stream + filled, seen)
    else if c.t > w.prev.value.open then
      var filled := if c.t > w.prev.value.open + 1 then Stitch(rest, w.prev.value.open, c.t) else [];
      Watch(w.stream + [w.prev.value.candle] + filled, seen)
    else
      Watch(w.stream, Some(Bar(w.prev.value.open, c)))
  }

  function Run(w: Watch, feed: seq<Candle>, rest: History): Watch
    decreases |feed|
  {
    if feed == [] then w else Step(Run(w, feed[..|feed| - 1], rest), feed[|feed| - 1], rest)
  }

  function Started(stream: seq<Candle>): Watch {
    Watch(stream, None)
  }

  /** Open times never go back, and the feed starts after what the stream holds. */
  predicate Forward(stream: seq<Candle>, feed: seq<Candle>) {
    && (forall i, j :: 0 <= i < j < |feed| ==> feed[i].t <= feed[j].t)
    && (stream != [] && feed != [] ==> feed[0].t > Tail(stream))
  }

  /** What the stream or the feed shows just before event `i`. */
  function Before(stream: seq<Candle>, feed: seq<Candle>, i: nat): Option<int>
    requires i < |feed|
  {
    if i > 0 then Some(feed[i - 1].t) else if stream == [] then None else Some(Tail(stream))
  }

  predicate SmallGap(stream: seq<Candle>, feed: seq<Candle>, i: nat)
    requires i < |feed|
  {
    var before := Before(stream, feed, i);
    before.Some? ==> Missing(before.value, feed[i].t) <= REQUEST_CAP
  }

  predicate SmallGaps(stream: seq<Candle>, feed: seq<Candle>) {
    forall i :: 0 <= i < |feed| ==> SmallGap(stream, feed, i)
  }

  /** Contiguous, and complete up to the bar being watched. */
  predicate UpToDate(w: Watch) {
    && Contiguous(w.stream)
    && (w.prev.Some? && w.stream != [] ==> Tail(w.stream) == w.prev.value.open - 1)
  }

  predicate Tracks(w: Watch, c: Candle) {
    w.prev == Some(Bar(c.t, c))
  }

  lemma StitchReachesIff(rest: History, from: int, to: int)
    requires Faithful(rest) && from + 1 < to
    ensures var s := Stitch(rest, from, to);
            && Contiguous(s) && s != [] && s[0].t == from + 1
            && (Tail(s) == to - 1 <==> Missing(from, to) <= REQUEST_CAP)
            && (Missing(from, to) <= REQUEST_CAP ==> s == Bars(rest, from + 1, to))
  {
  }

  lemma ContiguousAppend(a: seq<Candle>, b: seq<Candle>)
    ensures Contiguous(a + b) <==>
              Contiguous(a) && Contiguous(b) && (a != [] && b != [] ==> b[0].t == Tail(a) + 1)
  {
    var s := a + b;
    if Contiguous(s) {
      forall i | 0 < i < |a| ensures a[i].t == a[i - 1].t + 1 {
        assert s[i] == a[i] && s[i - 1] == a[i - 1];
      }
      forall i | 0 < i < |b| ensures b[i].t == b[i - 1].t + 1 {
        assert s[|a| + i] == b[i] && s[|a| + i - 1] == b[i - 1];
      }
      if a != [] && b != [] {
        assert s[|a|] == b[0] && s[|a| - 1] == a[|a| - 1];
      }
    }
  }

  lemma StepUpToDateIff(w: Watch, c: Candle, rest: History, before: Option<int>)
    requires Faithful(rest)
    requires w.prev.Some? ==> Tracks(w, w.prev.value.candle) && before == Some(w.prev.value.open) && before.value <= c.t
    requires w.prev.None? ==> before == (if w.stream == [] then None else Some(Tail(w.stream)))
    requires w.prev.None? && before.Some? ==> before.value < c.t
    ensures Tracks(Step(w, c, rest), c)
    ensures UpToDate(Step(w, c, rest)) <==>
              UpToDate(w) && (before.Some? ==> Missing(before.value, c.t) <= REQUEST_CAP)
  {
    hide Stitch, Contiguous;
    if before.Some? && before.value + 1 < c.t {
      StitchReachesIff(rest, before.value, c.t);
      var filled := Stitch(rest, before.value, c.t);
      if w.prev.Some? {
        ContiguousAppend(w.stream, [w.prev.value.candle]);
        ContiguousAppend(w.stream + [w.prev.value.candle], filled);
        Singleton(w.prev.value.candle);
      } else {
        ContiguousAppend(w.stream, filled);
      }
    } else if w.prev.Some? && w.prev.value.open < c.t {
      ContiguousAppend(w.stream, [w.prev.value.candle]);
      Singleton(w.prev.value.candle);
      assert w.stream + [w.prev.value.candle] + [] == w.stream + [w.prev.value.candle];
    } else {
      assert w.stream + [] == w.stream;
    }
  }

  lemma Singleton(c: Candle)
    ensures Contiguous([c])
  {}

  lemma {:induction false} RunTracksTheFeed(stream: seq<Candle>, feed: seq<Candle>, rest: History)
    requires Faithful(rest) && Forward(stream, feed) && Contiguous(stream)
    ensures var w := Run(Started(stream), feed, rest);
            && (feed == [] ==> w == Started(stream))
            && (feed != [] ==> Tracks(w, feed[|feed| - 1]))
            && (UpToDate(w) <==> SmallGaps(stream, feed))
    decreases |feed|
  {
    if feed != [] {
      var n := |feed| - 1;
      RunTracksTheFeed(stream, feed[..n], rest);
      hide UpToDate, Step, Contiguous;
      StepUpToDateIff(Run(Started(stream), feed[..n], rest), feed[n], rest, Before(stream, feed, n));
      SmallGapsSplit(stream, feed);
    }
  }

  lemma SmallGapsSplit(stream: seq<Candle>, feed: seq<Candle>)
    requires feed != []
    ensures SmallGaps(stream, feed) <==>
              SmallGaps(stream, feed[..|feed| - 1]) && SmallGap(stream, feed, |feed| - 1)
  {
    var n := |feed| - 1;
    hide SmallGap;
    forall i | 0 <= i < n
      ensures SmallGap(stream, feed[..n], i) <==> SmallGap(stream, feed, i)
    {
      SmallGapOfPrefix(stream, feed, n, i);
    }
  }

  lemma SmallGapOfPrefix(stream: seq<Candle>, feed: seq<Candle>, n: nat, i: nat)
    requires i < n <= |feed|
    ensures SmallGap(stream, feed[..n], i) <==> SmallGap(stream, feed, i)
  {}

  /** For every feed whose open times do not go back and start after the stream, with complete
      REST answers: the stream stays contiguous and complete up to the watched bar exactly when
      no gap exceeds what one request returns. */
  lemma StreamIsCompleteIff(stream: seq<Candle>, feed: seq<Candle>, rest: History)
    requires Faithful(rest) && Forward(stream, feed) && Contiguous(stream)
    ensures UpToDate(Run(Started(stream), feed, rest)) <==> SmallGaps(stream, feed)
  {
    RunTracksTheFeed(stream, feed, rest);
  }

  // ---------------------------------------------------------------------------------
  // What the stream holds
  // ---------------------------------------------------------------------------------

  /** The last update the feed brought for an open time. */
  function LastUpdate(feed: seq<Candle>, t: int): Option<Candle>
    decreases |feed|
  {
    if feed == [] then None
    else if feed[|feed| - 1].t == t then Some(feed[|feed| - 1])
    else LastUpdate(feed[..|feed| - 1], t)
  }

  /** The closed bar `t`: its last update when the feed showed it, its history otherwise. */
  function Closed(feed: seq<Candle>, rest: History, t: int): Candle {
    LastUpdate(feed, t).GetOr(rest(t))
  }

  /** Where the closed bars of a run begin. */
  function FirstBar(stream: seq<Candle>, feed: seq<Candle>): int
    requires feed != []
  {
    if stream == [] then feed[0].t else Tail(stream) + 1
  }

  function ClosedBars(feed: seq<Candle>, rest: History, from: int, to: int): (s: seq<Candle>)
    ensures |s| == if from <= to then to - from else 0
  {
    seq(if from <= to then to - from else 0, k => Closed(feed, rest, from + k))
  }

  ghost predicate HoldsClosedBars(w: Watch, stream: seq<Candle>, feed: seq<Candle>, rest: History)
    requires feed != []
  {
    && FirstBar(stream, feed) <= feed[|feed| - 1].t
    && w.stream == stream + ClosedBars(feed, rest, FirstBar(stream, feed), feed[|feed| - 1].t)
  }

  /** Bars the feed does not show come from the history. */
  lemma ClosedBarsUnseen(feed: seq<Candle>, rest: History, from: int, to: int)
    requires forall i :: 0 <= i < |feed| ==> feed[i].t < from || to <= feed[i].t
    ensures ClosedBars(feed, rest, from, to) == Bars(rest, from, to)
  {
    var bars := ClosedBars(feed, rest, from, to);
    forall k | 0 <= k < |bars|
      ensures bars[k] == rest(from + k)
    {
      NotShown(feed, from + k);
      assert bars[k] == Closed(feed, rest, from + k);
    }
  }

  lemma {:induction false} NotShown(feed: seq<Candle>, t: int)
    requires forall i :: 0 <= i < |feed| ==> feed[i].t != t
    ensures LastUpdate(feed, t) == None
    decreases |feed|
  {
    if feed != [] {
      NotShown(feed[..|feed| - 1], t);
    }
  }

  lemma FirstEventHolds(stream: seq<Candle>, c: Candle, rest: History)
    requires Faithful(rest) && Forward(stream, [c]) && SmallGaps(stream, [c])
    ensures HoldsClosedBars(Step(Started(stream), c, rest), stream, [c], rest)
  {
    assert SmallGap(stream, [c], 0);
    ClosedBarsUnseen([c], rest, FirstBar(stream, [c]), c.t);
    if stream != [] && c.t > Tail(stream) + 1 {
      StitchReachesIff(rest, Tail(stream), c.t);
    } else {
      assert stream + [] == stream;
    }
  }

  /** Another event changes no bar before its own open time, closes the watched bar with its
      last update, and leaves the bars in between to the history. */
  lemma ClosedBarsExtend(feed: seq<Candle>, rest: History, from: int)
    requires |feed| > 1 && Forward([], feed) && from <= feed[|feed| - 2].t
    ensures var n := |feed| - 1;
            var last, c := feed[n - 1], feed[n];
            ClosedBars(feed, rest, from, c.t) ==
              ClosedBars(feed[..n], rest, from, last.t) +
              (if c.t > last.t then [last] + Bars(rest, last.t + 1, c.t) else [])
  {
    var n := |feed| - 1;
    var last, c := feed[n - 1], feed[n];
    var bars := ClosedBars(feed, rest, from, c.t);
    forall k | 0 <= k < |bars|
      ensures bars[k] == Closed(feed[..n], rest, from + k)
    {
      assert bars[k] == Closed(feed, rest, from + k);
      assert LastUpdate(feed, from + k) == LastUpdate(feed[..n], from + k);
    }
    ClosedBarsUnseen(feed[..n], rest, last.t + 1, c.t);
    var between := ClosedBars(feed[..n], rest, last.t + 1, c.t);
    forall k | last.t + 1 - from <= k < |bars|
      ensures bars[k] == between[k - (last.t + 1 - from)]
    {
      var j := k - (last.t + 1 - from);
      assert bars[k] == Closed(feed[..n], rest, from + k);
      assert between[j] == Closed(feed[..n], rest, last.t + 1 + j);
    }
    if c.t > last.t {
      assert bars[last.t - from] == last;
    }
  }

  lemma StepAppends(w: Watch, last: Candle, c: Candle, rest: History)
    requires Faithful(rest) && Tracks(w, last) && Missing(last.t, c.t) <= REQUEST_CAP
    ensures Step(w, c, rest).stream ==
              w.stream + (if c.t > last.t then [last] + Bars(rest, last.t + 1, c.t) else [])
  {
    hide Stitch;
    var w' := Step(w, c, rest);
    if c.t > last.t + 1 {
      StitchReachesIff(rest, last.t, c.t);
      assert w'.stream == w.stream + [last] + Stitch(rest, last.t, c.t);
    } else if c.t > last.t {
      assert w'.stream == w.stream + [last] + [];
    }
  }

  lemma NextEventHolds(w: Watch, stream: seq<Candle>, feed: seq<Candle>, rest: History)
    requires Faithful(rest) && |feed| > 1 && Forward(stream, feed) && SmallGap(stream, feed, |feed| - 1)
    requires HoldsClosedBars(w, stream, feed[..|feed| - 1], rest) && Tracks(w, feed[|feed| - 2])
    ensures HoldsClosedBars(Step(w, feed[|feed| - 1], rest), stream, feed, rest)
  {
    hide ClosedBars, Bars, Step;
    var n := |feed| - 1;
    var last, c := feed[n - 1], feed[n];
    ClosedBarsExtend(feed, rest, FirstBar(stream, feed));
    StepAppends(w, last, c, rest);
  }

  /** The stream a run leaves is the old one followed by every bar up to the watched one, each
      with the last update the feed brought for it, or its history where the feed skipped it. */
  lemma {:induction false} StreamHoldsClosedBars(stream: seq<Candle>, feed: seq<Candle>, rest: History)
    requires Faithful(rest) && Forward(stream, feed) && Contiguous(stream) && SmallGaps(stream, feed) && feed != []
    ensures HoldsClosedBars(Run(Started(stream), feed, rest), stream, feed, rest)
    decreases |feed|
  {
    hide HoldsClosedBars, Step, SmallGap;
    var n := |feed| - 1;
    if n == 0 {
      assert feed == [feed[0]];
      FirstEventHolds(stream, feed[0], rest);
      assert Run(Started(stream), feed[..0], rest) == Started(stream);
    } else {
      SmallGapsSplit(stream, feed);
      StreamHoldsClosedBars(stream, feed[..n], rest);
      RunTracksTheFeed(stream, feed[..n], rest);
      NextEventHolds(Run(Started(stream), feed[..n], rest), stream, feed, rest);
    }
  }

  // ---------------------------------------------------------------------------------
  // Feeds that go back
  // ---------------------------------------------------------------------------------

  /** The latest open time shown. */
  function Top(feed: seq<Candle>): int
    requires feed != []
    decreases |feed|
  {
    var last := feed[|feed| - 1].t;
    if |feed| == 1 || Top(feed[..|feed| - 1]) < last then last else Top(feed[..|feed| - 1])
  }

  /** Event `i` closes no bar, or the bar whose own update came just before it, with a gap that
      one request fills; the first event follows the stream. */
  predicate ClosesRight(stream: seq<Candle>, feed: seq<Candle>, i: nat)
    requires i < |feed|
  {
    if i == 0 then stream != [] ==> feed[0].t > Tail(stream) && Missing(Tail(stream), feed[0].t) <= REQUEST_CAP
    else
      var open := Top(feed[..i]);
      feed[i].t > open ==> feed[i - 1].t == open && Missing(open, feed[i].t) <= REQUEST_CAP
  }

  predicate ClosesAllRight(stream: seq<Candle>, feed: seq<Candle>) {
    forall i :: 0 <= i < |feed| ==> ClosesRight(stream, feed, i)
  }

  lemma FirstEventIsUpToDateIff(stream: seq<Candle>, c: Candle, rest: History)
    requires Faithful(rest) && Contiguous(stream)
    ensures UpToDate(Step(Started(stream), c, rest)) <==> ClosesRight(stream, [c], 0)
  {
    hide Stitch, Contiguous;
    if stream != [] && c.t > Tail(stream) + 1 {
      StitchReachesIff(rest, Tail(stream), c.t);
      ContiguousAppend(stream, Stitch(rest, Tail(stream), c.t));
    } else {
      assert stream + [] == stream;
    }
  }

  lemma ClosingIsUpToDateIff(w: Watch, c: Candle, rest: History)
    requires Faithful(rest) && w.prev.Some? && w.prev.value.candle.t <= w.prev.value.open
    ensures var Bar(open, candle) := w.prev.value;
            UpToDate(Step(w, c, rest)) <==>
              UpToDate(w) && (c.t > open ==> candle.t == open && Missing(open, c.t) <= REQUEST_CAP)
  {
    hide Stitch, Contiguous;
    var Bar(open, candle) := w.prev.value;
    if c.t > open {
      ContiguousAppend(w.stream, [candle]);
      Singleton(candle);
      if c.t > open + 1 {
        StitchReachesIff(rest, open, c.t);
        ContiguousAppend(w.stream + [candle], Stitch(rest, open, c.t));
      } else {
        assert w.stream + [candle] + [] == w.stream + [candle];
      }
    }
  }

  /** For every feed, whatever order its open times come in: the stream stays contiguous and
      complete up to the watched bar exactly when the feed starts after it, every bar is closed
      right after an update of its own, and no gap exceeds what one request returns. */
  lemma {:induction false} AnyFeedIsCompleteIff(stream: seq<Candle>, feed: seq<Candle>, rest: History)
    requires Faithful(rest) && Contiguous(stream)
    ensures var w := Run(Started(stream), feed, rest);
            && (feed != [] ==> w.prev == Some(Bar(Top(feed), feed[|feed| - 1])) && feed[|feed| - 1].t <= Top(feed))
            && (UpToDate(w) <==> ClosesAllRight(stream, feed))
    decreases |feed|
  {
    if feed != [] {
      var n := |feed| - 1;
      AnyFeedIsCompleteIff(stream, feed[..n], rest);
      ClosesRightSplit(stream, feed);
      var w := Run(Started(stream), feed[..n], rest);
      hide UpToDate, Stitch;
      if n == 0 {
        FirstEventIsUpToDateIff(stream, feed[0], rest);
        assert ClosesRight(stream, [feed[0]], 0) <==> ClosesRight(stream, feed, 0);
      } else {
        ClosingIsUpToDateIff(w, feed[n], rest);
      }
    }
  }

  lemma ClosesRightSplit(stream: seq<Candle>, feed: seq<Candle>)
    requires feed != []
    ensures ClosesAllRight(stream, feed) <==>
              ClosesAllRight(stream, feed[..|feed| - 1]) && ClosesRight(stream, feed, |feed| - 1)
  {
    var n := |feed| - 1;
    forall i | 0 <= i < n
      ensures ClosesRight(stream, feed[..n], i) <==> ClosesRight(stream, feed, i)
    {
      assert feed[..n][..i] == feed[..i];
    }
  }

  /** A failing feed: an event that goes back in time replaces the watched candle and later closes
      it under a wrong open time. */
  lemma BackwardEventBreaksTheOrder(a: Candle, b: Candle, c: Candle, rest: History)
    requires a.t == 7 && b.t == 5 && c.t == 8
    ensures Run(Started([b.(t := 6)]), [a, b, c], rest).stream == [b.(t := 6), b]
    ensures !Contiguous([b.(t := 6), b])
  {
    var w := Started([b.(t := 6)]);
    assert [a, b, c][..2] == [a, b] && [a, b][..1] == [a] && [a][..0] == [];
    assert Run(w, [a], rest) == Step(w, a, rest);
    assert Run(w, [a, b], rest) == Step(Step(w, a, rest), b, rest);
    var s := [b.(t := 6), b];
    assert s[1].t != s[0].t + 1;
  }

  // ---------------------------------------------------------------------------------
  // Sessions
  // ---------------------------------------------------------------------------------

  lemma {:induction false} ContiguousBelow(s: seq<Candle>, n: nat)
    requires Contiguous(s) && n < |s|
    ensures forall i :: 0 <= i <= n ==> s[i].t == s[n].t - (n - i)
    decreases n
  {
    if n > 0 {
      ContiguousBelow(s, n - 1);
    }
  }

  lemma {:induction false} NothingNew(stream: seq<Candle>, closed: seq<Candle>)
    requires stream != [] && forall i :: 0 <= i < |closed| ==> closed[i].t <= Tail(stream)
    ensures NewBars(stream, closed) == []
    decreases |closed|
  {
    if closed != [] {
      NothingNew(stream, closed[..|closed| - 1]);
    }
  }

  lemma OneMoreNewBar(stream: seq<Candle>, closed: seq<Candle>)
    requires closed != [] && (stream == [] || closed[|closed| - 1].t > Tail(stream))
    ensures NewBars(stream, closed) == NewBars(stream, closed[..|closed| - 1]) + [closed[|closed| - 1]]
  {}

  /** The bars kept are a suffix of the answer: all of it, or what lies past the tail. */
  lemma {:induction false} NewBarsAreASuffix(stream: seq<Candle>, closed: seq<Candle>)
    requires Contiguous(closed)
    ensures var added := NewBars(stream, closed);
            && |added| <= |closed| && added == closed[|closed| - |added|..]
            && (stream == [] ==> added == closed)
            && (stream != [] && |added| < |closed| ==> closed[|closed| - |added| - 1].t <= Tail(stream))
            && (stream != [] && added != [] ==> added[0].t > Tail(stream))
    decreases |closed|
  {
    hide Contiguous;
    if closed != [] {
      var n := |closed| - 1;
      if stream != [] && closed[n].t <= Tail(stream) {
        ContiguousBelow(closed, n);
        NothingNew(stream, closed);
      } else {
        SliceIsContiguous(closed, 0, n);
        assert closed[0..n] == closed[..n];
        NewBarsAreASuffix(stream, closed[..n]);
        var before := NewBars(stream, closed[..n]);
        OneMoreNewBar(stream, closed);
        hide NewBars;
        var k := n - |before|;
        assert closed[..n][k..] + [closed[n]] == closed[k..];
        assert k > 0 ==> closed[..n][k - 1] == closed[k - 1];
      }
    }
  }

  /** What a warm-up appends: contiguous bars past the tail, ending just before the forming bar. */
  lemma WarmupAppends(stream: seq<Candle>, raw: seq<Candle>)
    requires Contiguous(raw) && raw != []
    ensures var added := NewBars(stream, raw[..|raw| - 1]);
            && Contiguous(added)
            && (added != [] ==> Tail(added) == raw[|raw| - 1].t - 1)
            && (stream != [] && added != [] ==> added[0].t > Tail(stream))
            && (stream == [] ==> |added| == |raw| - 1)
            && (stream != [] && added == [] && |raw| > 1 ==> raw[|raw| - 1].t - 1 <= Tail(stream))
  {
    hide Contiguous, NewBars;
    var closed := raw[..|raw| - 1];
    SliceIsContiguous(raw, 0, |raw| - 1);
    assert raw[0..|raw| - 1] == closed;
    NewBarsAreASuffix(stream, closed);
    var added := NewBars(stream, closed);
    SliceIsContiguous(closed, |closed| - |added|, |closed|);
    assert closed[|closed| - |added|..|closed|] == added;
    if |raw| > 1 {
      ContiguousBelow(raw, |raw| - 1);
      assert closed[|closed| - 1] == raw[|raw| - 2];
    }
    if added != [] {
      assert added[|added| - 1] == closed[|closed| - 1];
    }
  }

  /** Warm-up with a contiguous answer keeps the stream contiguous exactly when it reports no
      discontinuity, and leaves it complete up to the bar that is still forming. */
  lemma WarmupIsContiguousIff(stream: seq<Candle>, raw: seq<Candle>)
    requires Contiguous(stream) && Contiguous(raw)
    ensures Contiguous(Warmup(stream, raw)) <==> !Discontinuous(stream, raw)
    ensures |raw| > 1 ==> Warmup(stream, raw) != []
    ensures |raw| > 1 ==>
              var forming := raw[|raw| - 1].t;
              Tail(Warmup(stream, raw)) == if stream == [] then forming - 1 else Larger(Tail(stream), forming - 1)
  {
    hide Contiguous, NewBars;
    if raw != [] {
      WarmupAppends(stream, raw);
      var added := NewBars(stream, raw[..|raw| - 1]);
      ContiguousAppend(stream, added);
      assert added == [] ==> stream + added == stream;
      if added != [] {
        RisesTo(added);
      }
    }
  }

  lemma RisesTo(s: seq<Candle>)
    requires Contiguous(s) && s != []
    ensures s[0].t <= Tail(s)
  {
    ContiguousBelow(s, |s| - 1);
  }

  lemma SliceIsContiguous(s: seq<Candle>, i: nat, j: nat)
    requires Contiguous(s) && i <= j <= |s|
    ensures Contiguous(s[i..j])
  {}

  function Larger(a: int, b: int): int {
    if a >= b then a else b
  }

  /** One life of the process: warm-up, unless it failed, and then the watch loop. */
  datatype Session = Session(raw: seq<Candle>, feed: seq<Candle>)

  function Sessions(stream: seq<Candle>, ss: seq<Session>, rest: History): seq<Candle>
    decreases |ss|
  {
    if ss == [] then stream
    else
      var before := Sessions(stream, ss[..|ss| - 1], rest);
      Run(Started(Warmup(before, ss[|ss| - 1].raw)), ss[|ss| - 1].feed, rest).stream
  }

  predicate Healthy(stream: seq<Candle>, s: Session) {
    && Contiguous(s.raw) && !Discontinuous(stream, s.raw)
    && Forward(Warmup(stream, s.raw), s.feed) && SmallGaps(Warmup(stream, s.raw), s.feed)
  }

  /** Over any number of restarts, as long as no warm-up reports a discontinuity and no gap
      exceeds a request. */
  lemma {:induction false} StreamSurvivesRestarts(stream: seq<Candle>, ss: seq<Session>, rest: History)
    requires Faithful(rest) && Contiguous(stream)
    requires forall i :: 0 <= i < |ss| ==> Healthy(Sessions(stream, ss[..i], rest), ss[i])
    ensures Contiguous(Sessions(stream, ss, rest))
    decreases |ss|
  {
    if ss != [] {
      var n := |ss| - 1;
      hide Contiguous, Forward, SmallGaps, Warmup, Run, Discontinuous;
      forall i | 0 <= i < n
        ensures Healthy(Sessions(stream, ss[..n][..i], rest), ss[..n][i])
      {
        assert ss[..n][..i] == ss[..i] && ss[..n][i] == ss[i];
      }
      StreamSurvivesRestarts(stream, ss[..n], rest);
      var before := Sessions(stream, ss[..n], rest);
      assert Healthy(before, ss[n]);
      WarmupIsContiguousIff(before, ss[n].raw);
      StreamIsCompleteIff(Warmup(before, ss[n].raw), ss[n].feed, rest);
    }
  }

  // ---------------------------------------------------------------------------------
  // In place
  // ---------------------------------------------------------------------------------

  /** The last candle of every answer that is not empty; stalls and errors are empty answers. */
  function Candles(answers: seq<seq<Candle>>): seq<Candle>
    decreases |answers|
  {
    if answers == [] then []
    else
      var last := answers[|answers| - 1];
      Candles(answers[..|answers| - 1]) + (if last == [] then [] else [last[|last| - 1]])
  }

  class Ingestor {
    var stream: seq<Candle>
    var forming: Option<Candle>
    const rest: History

    constructor (stream: seq<Candle>, rest: History)
      ensures this.stream == stream && forming == None && this.rest == rest
    {
      this.stream, this.forming, this.rest := stream, None, rest;
    }

    /** Reads the REST answer bar by bar. */
    method LoadWarmup(raw: seq<Candle>) returns (discontinuous: bool)
      modifies this
      ensures stream == Warmup(old(stream), raw)
      ensures discontinuous == Discontinuous(old(stream), raw)
      ensures forming == if raw == [] then old(forming) else Some(raw[|raw| - 1])
    {
      if raw == [] {
        return false;
      }
      var closed := raw[..|raw| - 1];
      var tail := if stream == [] then None else Some(Tail(stream));
      var first: Option<int> := None;
      for i := 0 to |closed|
        invariant stream == old(stream) + NewBars(old(stream), closed[..i])
        invariant first.None? <==> NewBars(old(stream), closed[..i]) == []
        invariant first.Some? ==> first.value == NewBars(old(stream), closed[..i])[0].t
      {
        assert closed[..i + 1][..i] == closed[..i];
        if tail.None? || closed[i].t > tail.value {
          stream := stream + [closed[i]];
          first := if first.None? then Some(closed[i].t) else first;
        }
      }
      assert closed[..|closed|] == closed;
      discontinuous := tail.Some? && first.Some? && first.value > tail.value + 1;
      forming := Some(raw[|raw| - 1]);
    }

    /** The venue's answer to a request: the bars that exist by `now`, at most `limit`. */
    method Fetch(since: int, limit: nat, now: int) returns (raw: seq<Candle>)
      ensures raw == Bars(rest, since, Smaller(now + 1, since + limit))
    {
      raw := Bars(rest, since, Smaller(now + 1, since + limit));
    }

    /** Inserts the bars between two open times. The answer may run past the forming bar. */
    method GapStitch(from: int, to: int)
      requires from < to && Faithful(rest)
      modifies this`stream
      ensures stream == old(stream) + Stitch(rest, from, to)
    {
      var now :| now >= to;
      var raw := Fetch(from + 1, Limit(Missing(from, to)), now);
      var count := 0;
      for i := 0 to |raw|
        invariant count == if i <= Missing(from, to) then i else Missing(from, to)
        invariant stream == old(stream) + raw[..count]
      {
        if raw[i].t < to {
          stream := stream + [raw[i]];
          count := count + 1;
        }
      }
      assert raw[..count] == Stitch(rest, from, to);
    }

    /** One event of the feed. */
    method Observe(prev: Option<Bar>, candle: Candle) returns (next: Option<Bar>)
      requires Faithful(rest)
      modifies this
      ensures Watch(stream, next) == Step(Watch(old(stream), prev), candle, rest)
      ensures forming == Some(candle)
    {
      hide Stitch;
      forming := Some(candle);
      if prev.None? {
        if stream != [] && candle.t > Tail(stream) + 1 {
          GapStitch(Tail(stream), candle.t);
        } else {
          assert stream + [] == stream;
        }
        next := Some(Bar(candle.t, candle));
      } else if candle.t > prev.value.open {
        stream := stream + [prev.value.candle];
        if candle.t > prev.value.open + 1 {
          GapStitch(prev.value.open, candle.t);
        } else {
          assert stream + [] == stream;
        }
        next := Some(Bar(candle.t, candle));
      } else {
        next := Some(Bar(prev.value.open, candle));
      }
    }

    /** The watch loop over the answers of the feed. */
    method WatchFeed(answers: seq<seq<Candle>>) returns (prev: Option<Bar>)
      requires Faithful(rest)
      modifies this
      ensures Watch(stream, prev) == Run(Started(old(stream)), Candles(answers), rest)
      ensures forming == Latest(Candles(answers), old(forming))
    {
      hide Step;
      prev := None;
      for i := 0 to |answers|
        invariant Watch(stream, prev) == Run(Started(old(stream)), Candles(answers[..i]), rest)
        invariant forming == Latest(Candles(answers[..i]), old(forming))
      {
        assert answers[..i + 1][..i] == answers[..i];
        ghost var before := Candles(answers[..i]);
        if answers[i] == [] {
          assert before + [] == before;
        } else {
          var candle := answers[i][|answers[i]| - 1];
          assert (before + [candle])[..|before|] == before;
          prev := Observe(prev, candle);
        }
      }
      assert answers[..|answers|] == answers;
    }
  }

  function Latest(feed: seq<Candle>, default: Option<Candle>): Option<Candle> {
    if feed == [] then default else Some(feed[|feed| - 1])
  }

  function Smaller(a: int, b: int): int {
    if a <= b then a else b
  }
}
