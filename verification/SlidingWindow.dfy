/** Bounded queues of arrival times with lazy expiry, and the history they stand for. */
module SlidingWindow {
  import opened Numbers

  // The times at or after the cutoff, in order.
  function Since(s: seq<int>, cutoff: int): seq<int> {
    if s == [] then []
    else Since(s[..|s| - 1], cutoff) + (if s[|s| - 1] >= cutoff then [s[|s| - 1]] else [])
  }

  function LastN(s: seq<int>, n: nat): seq<int> {
    if |s| <= n then s else s[|s| - n..]
  }

  // append on a deque with a maximum length: the oldest entry gives way.
  function Push(w: seq<int>, t: int, max: nat): seq<int> {
    LastN(w + [t], max)
  }

  function Expire(w: seq<int>, cutoff: int): seq<int> {
    if w == [] || w[0] >= cutoff then w else Expire(w[1..], cutoff)
  }

  /** The window w stands for the history h: from any cutoff at or after `from`, it shows
      exactly the last `max` times of the history. */
  ghost predicate Tracks(w: seq<int>, h: seq<int>, from: int, max: nat) {
    && Ascending(w) && |w| <= max
    && forall c | c >= from :: Since(w, c) == LastN(Since(h, c), max)
  }

  predicate CutAt(w: seq<int>, c: int, i: nat) {
    i <= |w| && (forall j | 0 <= j < i :: w[j] < c) && (forall j | i <= j < |w| :: w[j] >= c)
  }

  lemma {:induction false} SinceAt(w: seq<int>, c: int, i: nat)
    requires CutAt(w, c, i)
    ensures Since(w, c) == w[i..]
  {
    if w == [] {
    } else if i == |w| {
      SinceAt(w[..|w| - 1], c, i - 1);
    } else {
      SinceAt(w[..|w| - 1], c, i);
      assert w[i..] == w[..|w| - 1][i..] + [w[|w| - 1]];
    }
  }

  lemma {:induction false} SinceIsSuffix(w: seq<int>, c: int) returns (i: nat)
    requires Ascending(w)
    ensures i <= |w| && CutAt(w, c, i) && Since(w, c) == w[i..]
  {
    if w == [] || w[|w| - 1] < c {
      i := |w|;
    } else {
      i := SinceIsSuffix(w[..|w| - 1], c);
    }
    SinceAt(w, c, i);
  }

  lemma SinceAppend(s: seq<int>, t: int, c: int)
    ensures Since(s + [t], c) == Since(s, c) + (if t >= c then [t] else [])
  {
    assert (s + [t])[..|s|] == s;
  }

  lemma {:induction false} ExpireIsSince(w: seq<int>, c: int)
    requires Ascending(w)
    ensures Expire(w, c) == Since(w, c)
  {
    var i := SinceIsSuffix(w, c);
    if w == [] || w[0] >= c {
    } else {
      ExpireIsSince(w[1..], c);
      SinceAt(w[1..], c, i - 1);
    }
  }

  lemma CutOfSuffix(w: seq<int>, c: int, i: nat, cut: nat)
    requires CutAt(w, c, i) && cut <= |w|
    ensures Since(w[cut..], c) == if i <= cut then w[cut..] else w[i..]
  {
    var s := w[cut..];
    if i <= cut {
      SinceAt(s, c, 0);
    } else {
      assert forall j | 0 <= j < |s| :: s[j] == w[cut + j];
      SinceAt(s, c, i - cut);
    }
  }

  lemma LastNOfDrop(w: seq<int>, n: nat, i: nat)
    requires i <= |w| && n < |w|
    ensures LastN(w[i..], n) == if i <= |w| - n then w[|w| - n..] else w[i..]
  {
  }

  lemma SinceOfSuffix(w: seq<int>, n: nat, c: int)
    requires Ascending(w)
    ensures Since(LastN(w, n), c) == LastN(Since(w, c), n)
  {
    hide Since, CutAt;
    var i := SinceIsSuffix(w, c);
    if n < |w| {
      CutOfSuffix(w, c, i, |w| - n);
      LastNOfDrop(w, n, i);
    }
  }

  lemma SinceOfSince(w: seq<int>, c: int, d: int)
    requires Ascending(w) && c <= d
    ensures Since(Since(w, c), d) == Since(w, d)
  {
    var i := SinceIsSuffix(w, c);
    var j := SinceIsSuffix(w, d);
    assert j < |w| ==> w[j] >= d;
    CutOfSuffix(w, d, j, i);
  }

  lemma LastNAppend(s: seq<int>, tail: seq<int>, n: nat)
    ensures LastN(LastN(s, n) + tail, n) == LastN(s + tail, n)
  {
  }

  // Right after an arrival, before expiry, nothing that still counts has been lost.
  lemma PushKeepsTracks(w: seq<int>, h: seq<int>, from: int, max: nat, t: int)
    requires Tracks(w, h, from, max)
    requires Bounded(w, t)
    ensures Tracks(Push(w, t, max), h + [t], from, max)
  {
    forall c | c >= from
      ensures Since(Push(w, t, max), c) == LastN(Since(h + [t], c), max)
    {
      SinceAppend(h, t, c);
      SinceAppend(w, t, c);
      SinceOfSuffix(w + [t], max, c);
      assert Since(w, c) == LastN(Since(h, c), max);
      LastNAppend(Since(h, c), if t >= c then [t] else [], max);
    }
  }

  /** One arrival: append, then expire. The window keeps standing for the history, and
      right after the arrival it is the last `max` times since the cutoff. */
  lemma ArrivalKeepsTracks(w: seq<int>, h: seq<int>, from: int, max: nat, t: int, cutoff: int)
    requires Tracks(w, h, from, max) && max > 0 && from <= cutoff <= t
    requires Bounded(w, t)
    ensures var w' := Expire(Push(w, t, max), cutoff);
            && Tracks(w', h + [t], cutoff, max)
            && w' == LastN(Since(h + [t], cutoff), max)
            && w' != [] && w'[|w'| - 1] == t
  {
    var p := Push(w, t, max);
    var w' := Expire(p, cutoff);
    PushKeepsTracks(w, h, from, max, t);
    ExpireIsSince(p, cutoff);
    var i := SinceIsSuffix(p, cutoff);
    assert w' == p[i..] && p[|p| - 1] == t;
    SuffixKeepsTracks(p, h + [t], from, max, cutoff);
  }

  lemma SuffixKeepsTracks(p: seq<int>, h: seq<int>, from: int, max: nat, cutoff: int)
    requires Tracks(p, h, from, max) && from <= cutoff
    ensures Tracks(Since(p, cutoff), h, cutoff, max)
  {
    var i := SinceIsSuffix(p, cutoff);
    forall c | c >= cutoff
      ensures Since(p[i..], c) == LastN(Since(h, c), max)
    {
      SinceOfSince(p, cutoff, c);
      assert Since(p, c) == LastN(Since(h, c), max);
    }
  }

  /** A window as it stands at `clock`, keeping the last `max` times of the past `span`. */
  ghost predicate Window(w: seq<int>, h: seq<int>, clock: int, span: nat, max: nat) {
    Tracks(w, h, clock - span, max) && Bounded(w, clock)
  }

  predicate Bounded(w: seq<int>, clock: int) {
    forall i | 0 <= i < |w| :: w[i] <= clock
  }

  lemma WindowArrival(w: seq<int>, h: seq<int>, clock: int, span: nat, max: nat, t: int)
    requires Window(w, h, clock, span, max) && max > 0 && clock <= t
    ensures var w' := Expire(Push(w, t, max), t - span);
            && Window(w', h + [t], t, span, max)
            && w' == LastN(Since(h + [t], t - span), max)
            && w' != [] && w'[|w'| - 1] == t
  {
    ArrivalKeepsTracks(w, h, clock - span, max, t, t - span);
  }

  lemma WindowAscends(w: seq<int>, h: seq<int>, clock: int, span: nat, max: nat)
    requires Window(w, h, clock, span, max)
    ensures Bounded(w, clock) && (w != [] ==> Bounded(w, w[|w| - 1]))
  {
  }

  lemma WindowLater(w: seq<int>, h: seq<int>, clock: int, later: int, span: nat, max: nat)
    requires Window(w, h, clock, span, max) && clock <= later
    ensures Window(w, h, later, span, max)
  {
  }

  /** A window whose entries have all left the span may be dropped unnoticed. */
  lemma WindowDrop(w: seq<int>, h: seq<int>, clock: int, later: int, span: nat, max: nat)
    requires Window(w, h, clock, span, max) && clock <= later
    requires forall i | 0 <= i < |w| :: w[i] < later - span
    ensures Window([], h, later, span, max)
  {
    forall c | c >= later - span
      ensures Since([], c) == LastN(Since(h, c), max)
    {
      SinceAt(w, c, |w|);
      assert Since(w, c) == LastN(Since(h, c), max);
    }
  }
}
