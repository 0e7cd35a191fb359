/** String operations the sources take from their standard libraries. */
module Text {

  predicate OccursAt(s: string, sub: string, i: nat) {
    i + |sub| <= |s| && s[i..i + |sub|] == sub
  }

  predicate Contains(s: string, sub: string) {
    exists i | 0 <= i <= |s| :: OccursAt(s, sub, i)
  }

  lemma Associative<T>(a: seq<T>, b: seq<T>, c: seq<T>)
    ensures a + (b + c) == a + b + c
  {
  }

  // A nonempty list in front of another, taken apart at its head.
  lemma HeadOfConcat<T>(a: seq<T>, b: seq<T>)
    requires a != []
    ensures a == [a[0]] + a[1..] && a + b == [a[0]] + (a[1..] + b)
  {
  }

  // A list before a nonempty one, taken apart at its end.
  lemma LastOfConcat<T>(a: seq<T>, b: seq<T>)
    requires b != []
    ensures a + b == (a + b[..|b| - 1]) + [b[|b| - 1]]
  {
  }

  lemma NothingAppended<T>(a: seq<T>)
    ensures a + [] == a
  {
  }

  // ---- whitespace ----

  predicate IsSpace(c: char) {
    c == ' ' || ('\t' <= c <= '\r')
  }

  lemma SpaceIs(c: char)
    ensures IsSpace(c) <==> c as int in {9, 10, 11, 12, 13, 32}
  {
  }

  predicate AllSpace(s: string) {
    forall i | 0 <= i < |s| :: IsSpace(s[i])
  }

  function StripRight(s: string): string {
    if s != "" && IsSpace(s[|s| - 1]) then StripRight(s[..|s| - 1]) else s
  }

  function StripLeft(s: string): string {
    if s != "" && IsSpace(s[0]) then StripLeft(s[1..]) else s
  }

  function Strip(s: string): string {
    StripRight(StripLeft(s))
  }

  // ---- stripping ----

  lemma {:induction false} StripLeftKeeps(blank: string, s: string)
    requires AllSpace(blank) && (s != "" ==> !IsSpace(s[0]))
    ensures StripLeft(blank + s) == s
  {
    if blank == "" {
      assert blank + s == s;
    } else {
      assert (blank + s)[1..] == blank[1..] + s;
      StripLeftKeeps(blank[1..], s);
    }
  }

  lemma {:induction false} StripRightKeeps(s: string, t: string)
    requires s != "" && !IsSpace(s[|s| - 1])
    ensures StripRight(s + t) == s + StripRight(t)
  {
    if t != "" && IsSpace(t[|t| - 1]) {
      assert (s + t)[..|s + t| - 1] == s + t[..|t| - 1];
      StripRightKeeps(s, t[..|t| - 1]);
    } else if t == "" {
      assert s + t == s;
    }
  }

  lemma {:induction false} AllBlank(t: string)
    requires AllSpace(t)
    ensures StripRight(t) == ""
  {
    if t != "" {
      AllBlank(t[..|t| - 1]);
    }
  }

  lemma {:induction false} StripRightIsPrefix(t: string)
    ensures StripRight(t) <= t
  {
    if t != "" && IsSpace(t[|t| - 1]) {
      StripRightIsPrefix(t[..|t| - 1]);
    }
  }

  lemma StripBlank(s: string)
    requires AllSpace(s)
    ensures Strip(s) == ""
  {
    StripLeftKeeps(s, "");
    assert s + "" == s;
  }

  lemma {:induction false} StripLeftOfBlank(blank: string, s: string)
    requires AllSpace(blank)
    ensures StripLeft(blank + s) == StripLeft(s)
  {
    if blank == "" {
      assert blank + s == s;
    } else {
      assert (blank + s)[1..] == blank[1..] + s;
      StripLeftOfBlank(blank[1..], s);
    }
  }

  lemma {:induction false} StripRightOfBlank(s: string, blank: string)
    requires AllSpace(blank)
    ensures StripRight(s + blank) == StripRight(s)
  {
    if blank == "" {
      assert s + blank == s;
    } else {
      assert (s + blank)[..|s + blank| - 1] == s + blank[..|blank| - 1];
      StripRightOfBlank(s, blank[..|blank| - 1]);
    }
  }

  lemma {:induction false} StripLeftOfPrint(s: string, t: string)
    requires !AllSpace(s)
    ensures StripLeft(s + t) == StripLeft(s) + t
  {
    if IsSpace(s[0]) {
      assert (s + t)[1..] == s[1..] + t;
      assert !AllSpace(s[1..]) by {
        var i :| 0 <= i < |s| && !IsSpace(s[i]);
        assert s[1..][i - 1] == s[i];
      }
      StripLeftOfPrint(s[1..], t);
    }
  }

  // Blanks on either side do not show.
  lemma StripOfBlank(s: string, t: string)
    ensures AllSpace(s) ==> Strip(s) == "" && Strip(s + t) == Strip(t)
    ensures AllSpace(t) ==> Strip(t) == "" && Strip(s + t) == Strip(s)
  {
    if AllSpace(s) {
      StripBlank(s);
      StripLeftOfBlank(s, t);
    }
    if AllSpace(t) {
      StripBlank(t);
      if AllSpace(s) {
        StripBlank(s);
      } else {
        StripLeftOfPrint(s, t);
        StripRightOfBlank(StripLeft(s), t);
      }
    }
  }

  // ---- finding one character ----

  function Find(s: string, c: char): (i: int)
    ensures -1 <= i < |s|
    ensures if i == -1 then c !in s else s[i] == c && c !in s[..i]
  {
    if s == "" then -1
    else if s[0] == c then 0
    else
      var i := Find(s[1..], c);
      assert i >= 0 ==> s[..i + 1] == [s[0]] + s[1..][..i];
      if i == -1 then -1 else i + 1
  }

  function FindLast(s: string, c: char): (i: int)
    ensures -1 <= i < |s|
    ensures if i == -1 then c !in s else s[i] == c && c !in s[i + 1..]
  {
    if s == "" then -1
    else if s[|s| - 1] == c then |s| - 1
    else
      var i := FindLast(s[..|s| - 1], c);
      assert s == s[..|s| - 1] + [s[|s| - 1]];
      assert i >= 0 ==> s[i + 1..] == s[..|s| - 1][i + 1..] + [s[|s| - 1]];
      i
  }

  function UpTo(s: string, c: char): string {
    var i := Find(s, c);
    if i == -1 then s else s[..i]
  }

  lemma FindAt(p: string, c: char, t: string)
    requires c !in p
    ensures Find(p + [c] + t, c) == |p| && UpTo(p + [c] + t, c) == p
  {
    var s := p + [c] + t;
    assert s[|p|] == c;
    var i := Find(s, c);
    assert i >= |p| by {
      assert s[..|p|] == p;
    }
    assert forall k | 0 <= k < i :: s[..i][k] == s[k] != c;
  }

  // A cut never leaves the character, and never adds one.
  lemma UpToShrinks(s: string, c: char)
    ensures UpTo(s, c) <= s && c !in UpTo(s, c)
  {
  }
}
