/** The upper median both metric functions report: the middle element of the sorted values. */
module Median {
  import opened Numbers

  function Insert(x: int, s: seq<int>): seq<int> {
    if s == [] || x <= s[0] then [x] + s else [s[0]] + Insert(x, s[1..])
  }

  function Sorted(s: seq<int>): seq<int> {
    if s == [] then [] else Insert(s[0], Sorted(s[1..]))
  }

  function Upper(s: seq<int>): int {
    if s == [] then 0 else SortedKeeps(s); Sorted(s)[|s| / 2]
  }

  function AtMost(s: seq<int>, p: int): nat {
    if s == [] then 0 else (if s[0] <= p then 1 else 0) + AtMost(s[1..], p)
  }

  function AtLeast(s: seq<int>, p: int): nat {
    if s == [] then 0 else (if s[0] >= p then 1 else 0) + AtLeast(s[1..], p)
  }

  lemma {:induction false} InsertKeeps(x: int, s: seq<int>)
    ensures multiset(Insert(x, s)) == multiset(s) + multiset{x} && |Insert(x, s)| == |s| + 1
  {
    if s == [] || x <= s[0] {
      assert multiset([x] + s) == multiset{x} + multiset(s);
    } else {
      InsertKeeps(x, s[1..]);
      assert s == [s[0]] + s[1..];
    }
  }

  lemma {:induction false} InsertAscends(x: int, s: seq<int>)
    requires Ascending(s)
    ensures Ascending(Insert(x, s)) && Insert(x, s)[0] == if s == [] || x <= s[0] then x else s[0]
  {
    if s == [] || x <= s[0] {
    } else {
      InsertAscends(x, s[1..]);
      Prepend(s[0], Insert(x, s[1..]));
    }
  }

  lemma Prepend(a: int, t: seq<int>)
    requires Ascending(t) && (t == [] || a <= t[0])
    ensures Ascending([a] + t)
  {
  }

  lemma {:induction false} InsertCounts(x: int, s: seq<int>, p: int)
    ensures AtMost(Insert(x, s), p) == (if x <= p then 1 else 0) + AtMost(s, p)
    ensures AtLeast(Insert(x, s), p) == (if x >= p then 1 else 0) + AtLeast(s, p)
  {
    if s == [] || x <= s[0] {
      assert ([x] + s)[1..] == s;
    } else {
      InsertCounts(x, s[1..], p);
      assert ([s[0]] + Insert(x, s[1..]))[1..] == Insert(x, s[1..]);
    }
  }

  lemma {:induction false} SortedKeeps(s: seq<int>)
    ensures Ascending(Sorted(s)) && multiset(Sorted(s)) == multiset(s) && |Sorted(s)| == |s|
  {
    if s == [] {
    } else {
      SortedKeeps(s[1..]);
      InsertKeeps(s[0], Sorted(s[1..]));
      InsertAscends(s[0], Sorted(s[1..]));
      assert s == [s[0]] + s[1..];
    }
  }

  lemma {:induction false} SortedCounts(s: seq<int>, p: int)
    ensures AtMost(Sorted(s), p) == AtMost(s, p) && AtLeast(Sorted(s), p) == AtLeast(s, p)
  {
    if s == [] {
    } else {
      SortedCounts(s[1..], p);
      InsertCounts(s[0], Sorted(s[1..]), p);
    }
  }

  lemma {:induction false} PositionCounts(t: seq<int>, m: nat)
    requires Ascending(t) && m < |t|
    ensures AtMost(t, t[m]) >= m + 1 && AtLeast(t, t[m]) >= |t| - m
  {
    if m == 0 {
      AllAtLeast(t, t[0]);
    } else {
      PositionCounts(t[1..], m - 1);
      assert t[0] <= t[m];
    }
  }

  lemma {:induction false} AllAtLeast(t: seq<int>, p: int)
    requires forall i | 0 <= i < |t| :: t[i] >= p
    ensures AtLeast(t, p) == |t|
  {
    if t == [] {
    } else {
      AllAtLeast(t[1..], p);
    }
  }

  /** At least half of the values lie on each side of the reported median, which is one of them. */
  lemma UpperSplitsInHalf(s: seq<int>)
    requires s != []
    ensures Upper(s) in s && 2 * AtMost(s, Upper(s)) > |s| && 2 * AtLeast(s, Upper(s)) >= |s|
  {
    SortedKeeps(s);
    SortedCounts(s, Upper(s));
    PositionCounts(Sorted(s), |s| / 2);
    assert Sorted(s)[|s| / 2] in multiset(Sorted(s));
  }
}
