/** Tailing and backfill of backend/core/log_watcher.py: a byte cursor over a log file that
    grows, and now and then is replaced by a new one.

    A file is a string of bytes; newline is the only line separator. */
module LogWatcher {
  import opened Text
  import opened Wrappers

  // ---- lines ----

  // The index of the first newline, or the length if there is none.
  function LineEnd(s: string): (i: nat)
    ensures i <= |s| && (i < |s| ==> s[i] == '\n') && forall j | 0 <= j < i :: s[j] != '\n'
  {
    if s == "" || s[0] == '\n' then 0 else 1 + LineEnd(s[1..])
  }

  function SplitLines(s: string): seq<string>
    decreases |s|
  {
    if s == "" then []
    else
      var i := LineEnd(s);
      if i == |s| then [s] else [s[..i]] + SplitLines(s[i + 1..])
  }

  // The lines stripped on both sides, blank ones dropped: what the tailing loop ingests.
  function Clean(lines: seq<string>): seq<string> {
    if lines == [] then []
    else (if Strip(lines[0]) == "" then [] else [Strip(lines[0])]) + Clean(lines[1..])
  }

  // The lines stripped on the right, blank ones dropped: what the backfill loop looks at.
  function CleanRight(lines: seq<string>): seq<string> {
    if lines == [] then []
    else (if StripRight(lines[0]) == "" then [] else [StripRight(lines[0])]) + CleanRight(lines[1..])
  }

  function Lines(s: string): seq<string> {
    Clean(SplitLines(s))
  }

  predicate Aligned(s: string) {
    s == "" || s[|s| - 1] == '\n'
  }

  lemma {:induction false} CleanAppend(a: seq<string>, b: seq<string>)
    ensures Clean(a + b) == Clean(a) + Clean(b)
  {
    if a == [] {
      assert a + b == b;
    } else {
      hide *;
      CleanAppend(a[1..], b);
      HeadOfConcat(a, b);
      CleanCons(a[0], a[1..]);
      CleanCons(a[0], a[1..] + b);
      Associative(CleanOf(a[0]), Clean(a[1..]), Clean(b));
    }
  }

  function CleanOf(line: string): seq<string> {
    if Strip(line) == "" then [] else [Strip(line)]
  }

  lemma CleanCons(line: string, rest: seq<string>)
    ensures Clean([line] + rest) == CleanOf(line) + Clean(rest)
  {
    hide Strip;
    assert ([line] + rest)[1..] == rest;
  }

  lemma CleanOne(line: string)
    ensures Clean([line]) == if Strip(line) == "" then [] else [Strip(line)]
  {
    hide Strip;
    assert [line][1..] == [];
  }

  lemma CleanStep(lines: seq<string>, k: nat)
    requires k < |lines|
    ensures Clean(lines[..k + 1]) == Clean(lines[..k]) + (if Strip(lines[k]) == "" then [] else [Strip(lines[k])])
  {
    hide Strip, Clean;
    CleanAppend(lines[..k], [lines[k]]);
    CleanOne(lines[k]);
    assert lines[..k + 1] == lines[..k] + [lines[k]];
  }

  lemma LineEndIs(s: string, i: nat)
    requires i <= |s| && (i < |s| ==> s[i] == '\n') && forall j | 0 <= j < i :: s[j] != '\n'
    ensures LineEnd(s) == i
  {
  }

  lemma SplitFirst(s: string, i: nat)
    requires i < |s| && s[i] == '\n' && forall j | 0 <= j < i :: s[j] != '\n'
    ensures SplitLines(s) == [s[..i]] + SplitLines(s[i + 1..])
  {
    LineEndIs(s, i);
  }

  lemma {:induction false} SplitAppend(a: string, b: string)
    requires Aligned(a)
    ensures SplitLines(a + b) == SplitLines(a) + SplitLines(b)
    decreases |a|
  {
    hide SplitLines;
    if a == "" {
      assert a + b == b;
      EmptySplit();
    } else {
      var i := LineEnd(a);
      SplitFirst(a, i);
      SplitFirst(a + b, i);
      SplitAppend(a[i + 1..], b);
      assert (a + b)[..i] == a[..i];
      assert (a + b)[i + 1..] == a[i + 1..] + b;
    }
  }

  lemma EmptySplit()
    ensures SplitLines("") == []
  {
  }

  /** Cutting a text right after a newline cuts no line. */
  lemma LinesAppend(a: string, b: string)
    requires Aligned(a)
    ensures Lines(a + b) == Lines(a) + Lines(b)
  {
    SplitAppend(a, b);
    CleanAppend(SplitLines(a), SplitLines(b));
  }

  // ---- how much text a list of lines carries ----

  function Ink(s: string): nat {
    if s == "" then 0 else (if IsSpace(s[0]) then 0 else 1) + Ink(s[1..])
  }

  function TotalInk(lines: seq<string>): nat {
    if lines == [] then 0 else Ink(lines[0]) + TotalInk(lines[1..])
  }

  lemma {:induction false} InkAppend(a: string, b: string)
    ensures Ink(a + b) == Ink(a) + Ink(b)
  {
    if a == "" {
      assert a + b == b;
    } else {
      InkAppend(a[1..], b);
      assert (a + b)[1..] == a[1..] + b;
    }
  }

  lemma {:induction false} TotalInkAppend(a: seq<string>, b: seq<string>)
    ensures TotalInk(a + b) == TotalInk(a) + TotalInk(b)
  {
    if a == [] {
      assert a + b == b;
    } else {
      TotalInkAppend(a[1..], b);
      assert (a + b)[1..] == a[1..] + b;
    }
  }

  lemma {:induction false} StripRightKeepsInk(s: string)
    ensures Ink(StripRight(s)) == Ink(s)
  {
    if s != "" && IsSpace(s[|s| - 1]) {
      StripRightKeepsInk(s[..|s| - 1]);
      InkAppend(s[..|s| - 1], [s[|s| - 1]]);
      assert s == s[..|s| - 1] + [s[|s| - 1]];
    }
  }

  lemma {:induction false} StripLeftKeepsInk(s: string)
    ensures Ink(StripLeft(s)) == Ink(s)
  {
    if s != "" && IsSpace(s[0]) {
      StripLeftKeepsInk(s[1..]);
    }
  }

  lemma StripKeepsInk(s: string)
    ensures Ink(Strip(s)) == Ink(s)
  {
    StripLeftKeepsInk(s);
    StripRightKeepsInk(StripLeft(s));
  }

  lemma TotalInkOfFirst(s: string)
    requires s != ""
    ensures var i := LineEnd(s);
            TotalInk(Lines(s)) == Ink(s[..i]) + (if i < |s| then TotalInk(Lines(s[i + 1..])) else 0)
  {
    hide Lines, Strip, LineEnd, Ink;
    var i := LineEnd(s);
    var first := s[..i];
    FirstLine(s);
    StripKeepsInk(first);
    EmptyHasNoInk();
    var head := if Strip(first) == "" then [] else [Strip(first)];
    if i == |s| {
      assert head + [] == head;
    } else {
      TotalInkAppend(head, Lines(s[i + 1..]));
    }
  }

  lemma EmptyHasNoInk()
    ensures Ink("") == 0
  {
  }

  lemma NothingHasNoInk()
    ensures TotalInk(Lines("")) == Ink("")
  {
  }

  lemma InkOfFirst(s: string)
    requires s != ""
    ensures var i := LineEnd(s);
            Ink(s) == Ink(s[..i]) + (if i < |s| then Ink(s[i + 1..]) else 0)
  {
    hide *;
    var i := LineEnd(s);
    if i == |s| {
      assert s[..i] == s;
    } else {
      var rest := s[i + 1..];
      InkAppend(s[..i], "\n" + rest);
      NewlineHasNoInk(rest);
      CutOutOne(s, i);
    }
  }

  lemma CutOutOne(s: string, i: nat)
    requires i < |s| && s[i] == '\n'
    ensures s == s[..i] + ("\n" + s[i + 1..])
  {
  }

  lemma NewlineHasNoInk(s: string)
    ensures Ink("\n" + s) == Ink(s)
  {
    assert ("\n" + s)[1..] == s;
  }

  /** Stripping, splitting and dropping blank lines lose no printable character. */
  lemma {:induction false} LinesKeepInk(s: string)
    ensures TotalInk(Lines(s)) == Ink(s)
    decreases |s|
  {
    NothingHasNoInk();
    hide *;
    if s == "" {
    } else {
      var i := LineEnd(s);
      TotalInkOfFirst(s);
      InkOfFirst(s);
      if i < |s| {
        LinesKeepInk(s[i + 1..]);
      }
    }
  }

  lemma FirstLine(s: string)
    requires s != ""
    ensures var i := LineEnd(s);
            Lines(s) == (if Strip(s[..i]) == "" then [] else [Strip(s[..i])]) + (if i < |s| then Lines(s[i + 1..]) else [])
  {
    hide Strip, LineEnd;
    var i := LineEnd(s);
    CleanOne(s[..i]);
    if i == |s| {
      assert s[..i] == s && SplitLines(s) == [s];
    } else {
      CleanAppend([s[..i]], SplitLines(s[i + 1..]));
    }
  }

  lemma {:induction false} NoInkIsSpace(s: string)
    ensures Ink(s) == 0 <==> AllSpace(s)
  {
    if s == "" {
    } else {
      NoInkIsSpace(s[1..]);
      assert AllSpace(s) <==> IsSpace(s[0]) && AllSpace(s[1..]) by {
        assert forall i | 1 <= i < |s| :: s[i] == s[1..][i - 1];
      }
    }
  }

  lemma OneSpaceIsNothing(c: char, s: string)
    requires IsSpace(c)
    ensures Lines([c] + s) == Lines(s)
  {
    var t := [c] + s;
    assert t[1..] == s;
    FirstLine(t);
    if c == '\n' {
      LineEndIs(t, 0);
      assert Strip(t[..0]) == "";
    } else {
      var i := LineEnd(s);
      LineEndIs(t, i + 1);
      assert t[..i + 1][1..] == s[..i];
      assert Strip(t[..i + 1]) == Strip(s[..i]);
      if s == "" {
        assert Strip(s[..i]) == "";
      } else {
        FirstLine(s);
        assert i < |s| ==> t[i + 2..] == s[i + 1..];
      }
    }
  }

  lemma {:induction false} SpaceIsNothing(a: string, b: string)
    requires AllSpace(a)
    ensures Lines(a + b) == Lines(b)
  {
    if a == "" {
      assert a + b == b;
    } else {
      SpaceIsNothing(a[1..], b);
      OneSpaceIsNothing(a[0], a[1..] + b);
      assert [a[0]] + (a[1..] + b) == a + b;
    }
  }

  /** Reading from an offset instead of from the start ingests the same lines if and only if
      everything before the offset is blank. */
  lemma SkippingLosesNothingIff(s: string, offset: nat)
    requires offset <= |s|
    ensures Lines(s[offset..]) == Lines(s) <==> AllSpace(s[..offset])
  {
    assert s == s[..offset] + s[offset..];
    InkAppend(s[..offset], s[offset..]);
    LinesKeepInk(s);
    LinesKeepInk(s[offset..]);
    NoInkIsSpace(s[..offset]);
    if AllSpace(s[..offset]) {
      SpaceIsNothing(s[..offset], s[offset..]);
    }
  }

  // ---- cutting a text anywhere ----

  // What follows the last newline, and what precedes the first.
  function LastPiece(s: string): string {
    if s == "" || s[|s| - 1] == '\n' then "" else LastPiece(s[..|s| - 1]) + [s[|s| - 1]]
  }

  function FirstPiece(s: string): string {
    s[..LineEnd(s)]
  }

  lemma {:induction false} LastPieceIsTail(s: string) returns (head: string)
    ensures s == head + LastPiece(s) && Aligned(head) && '\n' !in LastPiece(s)
  {
    if s == "" || s[|s| - 1] == '\n' {
      head := s;
    } else {
      head := LastPieceIsTail(s[..|s| - 1]);
      assert s == s[..|s| - 1] + [s[|s| - 1]];
    }
  }

  // The lines beyond the first piece.
  function Beyond(s: string): seq<string> {
    if LineEnd(s) < |s| then Lines(s[LineEnd(s) + 1..]) else []
  }

  lemma FirstPieceThenRest(s: string)
    ensures Lines(s) == CleanOf(FirstPiece(s)) + Beyond(s)
  {
    hide Lines, Strip;
    if s == "" {
      NoLines();
      StripBlank("");
    } else {
      FirstLine(s);
    }
  }

  lemma PieceInFront(x: string, s: string)
    requires '\n' !in x
    ensures Lines(x + s) == CleanOf(x + FirstPiece(s)) + Beyond(s)
  {
    hide Lines, CleanOf;
    var i := LineEnd(s);
    LineEndIs(x + s, |x| + i);
    FirstPieceThenRest(x + s);
    assert (x + s)[..|x| + i] == x + s[..i];
    assert i < |s| ==> (x + s)[|x| + i + 1..] == s[i + 1..];
  }

  lemma PieceAlone(x: string)
    requires '\n' !in x
    ensures Lines(x) == CleanOf(x)
  {
    hide Lines, CleanOf;
    LineEndIs(x, |x|);
    FirstPieceThenRest(x);
    assert x[..|x|] == x;
  }

  predicate CleanCut(a: string, b: string) {
    AllSpace(LastPiece(a)) || AllSpace(FirstPiece(b))
  }

  lemma PrintStays(s: string)
    ensures Strip(s) == "" <==> AllSpace(s)
  {
    StripKeepsInk(s);
    NoInkIsSpace(s);
    NoInkIsSpace(Strip(s));
    if AllSpace(s) {
      StripBlank(s);
    }
  }

  lemma PiecesJoin(x: string, y: string)
    ensures |CleanOf(x)| + |CleanOf(y)| == |CleanOf(x + y)| + (if AllSpace(x) || AllSpace(y) then 0 else 1)
    ensures AllSpace(x) || AllSpace(y) ==> CleanOf(x + y) == CleanOf(x) + CleanOf(y)
  {
    hide Strip;
    PrintStays(x);
    PrintStays(y);
    PrintStays(x + y);
    StripOfBlank(x, y);
    assert AllSpace(x + y) ==> AllSpace(x) by {
      assert forall i | 0 <= i < |x| :: (x + y)[i] == x[i];
    }
  }

  lemma PiecesAddUp(a: seq<string>, xy: seq<string>, x: seq<string>, y: seq<string>, b: seq<string>)
    requires |x| + |y| == |xy| || |x| + |y| == |xy| + 1
    ensures (a + x) + (y + b) == a + (xy + b) <==> x + y == xy
    ensures |x| + |y| == |xy| + 1 ==> (a + x) + (y + b) != a + (xy + b)
  {
    if x + y == xy {
      assert (a + x) + (y + b) == a + ((x + y) + b);
    } else if |x| + |y| == |xy| {
      if k :| 0 <= k < |xy| && (x + y)[k] != xy[k] {
        assert ((a + x) + (y + b))[|a| + k] == (x + y)[k];
        assert (a + (xy + b))[|a| + k] == xy[k];
      }
    } else {
      assert |(a + x) + (y + b)| == |a + (xy + b)| + 1;
    }
  }

  /** Cutting a text anywhere cuts no line if and only if one side of the cut is blank up to its
      newline; otherwise it makes exactly one line too many. */
  lemma LinesAppendIff(a: string, b: string)
    ensures Lines(a + b) == Lines(a) + Lines(b) <==> CleanCut(a, b)
    ensures |Lines(a)| + |Lines(b)| == |Lines(a + b)| + (if CleanCut(a, b) then 0 else 1)
  {
    hide Lines, CleanOf, LastPiece, FirstPiece, Beyond, AllSpace, Aligned;
    var x, y := LastPiece(a), FirstPiece(b);
    var head := LastPieceIsTail(a);
    LinesAppend(head, x);
    LinesAppend(head, x + b);
    assert a + b == head + (x + b);
    PieceAlone(x);
    PieceInFront(x, b);
    FirstPieceThenRest(b);
    PiecesJoin(x, y);
    PiecesAddUp(Lines(head), CleanOf(x + y), CleanOf(x), CleanOf(y), Beyond(b));
  }

  // ---- the file and the reader ----

  datatype Event = Write(chunk: string) | Rotate(start: string) | Notify

  datatype Reader = Reader(pos: nat, ingested: seq<string>)

  function AfterRead(r: Reader, content: string): Reader {
    var pos := if |content| < r.pos then 0 else r.pos;
    Reader(|content|, r.ingested + Lines(content[pos..]))
  }

  // What the file holds after the events.
  function File(initial: string, trace: seq<Event>): string {
    if trace == [] then initial
    else match trace[|trace| - 1]
      case Write(chunk) => File(initial, trace[..|trace| - 1]) + chunk
      case Rotate(start) => start
      case Notify => File(initial, trace[..|trace| - 1])
  }

  // The reader starts at the end of the file, as the constructor and a backfill leave it.
  function Run(initial: string, trace: seq<Event>): Reader {
    if trace == [] then Reader(|initial|, [])
    else
      var before := Run(initial, trace[..|trace| - 1]);
      if trace[|trace| - 1].Notify? then AfterRead(before, File(initial, trace[..|trace| - 1])) else before
  }

  // ---- the reference: a pipe, which needs no offset and knows of every rotation ----

  // Bytes written to the file now in place and not yet read.
  function Unread(trace: seq<Event>): string {
    if trace == [] then ""
    else match trace[|trace| - 1]
      case Write(chunk) => Unread(trace[..|trace| - 1]) + chunk
      case Rotate(start) => start
      case Notify => ""
  }

  // All bytes read so far, in order, each once.
  function Delivered(trace: seq<Event>): string {
    if trace == [] then ""
    else if trace[|trace| - 1].Notify?
    then Delivered(trace[..|trace| - 1]) + Unread(trace[..|trace| - 1])
    else Delivered(trace[..|trace| - 1])
  }

  function Piped(trace: seq<Event>): seq<string> {
    if trace == [] then []
    else if trace[|trace| - 1].Notify?
    then Piped(trace[..|trace| - 1]) + Lines(Unread(trace[..|trace| - 1]))
    else Piped(trace[..|trace| - 1])
  }

  // A rotation has happened since the last read.
  predicate Rotated(trace: seq<Event>) {
    trace != [] && !trace[|trace| - 1].Notify? && (trace[|trace| - 1].Rotate? || Rotated(trace[..|trace| - 1]))
  }

  // The first read after a rotation sees a file shorter than the old offset, or one with
  // nothing but blanks before it.
  predicate SafeRead(initial: string, trace: seq<Event>) {
    var content, pos := File(initial, trace), Run(initial, trace).pos;
    Rotated(trace) ==> |content| < pos || AllSpace(content[..pos])
  }

  predicate Observed(initial: string, trace: seq<Event>) {
    trace == [] ||
    (Observed(initial, trace[..|trace| - 1]) &&
     (trace[|trace| - 1].Notify? ==> SafeRead(initial, trace[..|trace| - 1])))
  }

  // Every read sees a file that ends on a newline.
  predicate AlignedReads(trace: seq<Event>) {
    trace == [] ||
    (AlignedReads(trace[..|trace| - 1]) && (trace[|trace| - 1].Notify? ==> Aligned(Unread(trace[..|trace| - 1]))))
  }

  lemma {:induction false} CursorMarksUnread(initial: string, trace: seq<Event>)
    ensures var content, pos := File(initial, trace), Run(initial, trace).pos;
            if Rotated(trace) then Unread(trace) == content
            else pos <= |content| && content[pos..] == Unread(trace)
  {
    if trace == [] {
    } else {
      var init := trace[..|trace| - 1];
      CursorMarksUnread(initial, init);
      var content, pos := File(initial, init), Run(initial, init).pos;
      if trace[|trace| - 1].Write? && !Rotated(init) {
        assert (content + trace[|trace| - 1].chunk)[pos..] == content[pos..] + trace[|trace| - 1].chunk;
      }
    }
  }

  // One read against one pipe read.
  lemma ReadStep(initial: string, trace: seq<Event>)
    ensures var r := Run(initial, trace);
            var now := AfterRead(r, File(initial, trace)).ingested;
            exists lines :: now == r.ingested + lines && TotalInk(lines) <= TotalInk(Lines(Unread(trace))) &&
              (SafeRead(initial, trace) ==> lines == Lines(Unread(trace))) &&
              (!SafeRead(initial, trace) ==> TotalInk(lines) < TotalInk(Lines(Unread(trace))))
  {
    hide Lines, Ink, TotalInk;
    CursorMarksUnread(initial, trace);
    var r, content := Run(initial, trace), File(initial, trace);
    var pos := if |content| < r.pos then 0 else r.pos;
    var lines := Lines(content[pos..]);
    assert AfterRead(r, content).ingested == r.ingested + lines;
    if Rotated(trace) && r.pos <= |content| {
      SkippingLosesNothingIff(content, pos);
      LinesKeepInk(content);
      LinesKeepInk(content[pos..]);
      InkAppend(content[..pos], content[pos..]);
      NoInkIsSpace(content[..pos]);
      assert content == content[..pos] + content[pos..];
    } else if Rotated(trace) {
      assert content[0..] == content;
    }
  }

  /** Whatever notifications are missed, repeated or delayed, the tailer ingests exactly what
      the pipe does if and only if every first read after a rotation was safe. */
  lemma {:induction false} TailMatchesPipeIff(initial: string, trace: seq<Event>)
    ensures Run(initial, trace).ingested == Piped(trace) <==> Observed(initial, trace)
    ensures TotalInk(Run(initial, trace).ingested) <= TotalInk(Piped(trace))
    ensures !Observed(initial, trace) ==> TotalInk(Run(initial, trace).ingested) < TotalInk(Piped(trace))
  {
    if trace == [] {
    } else {
      var init := trace[..|trace| - 1];
      TailMatchesPipeIff(initial, init);
      if trace[|trace| - 1].Notify? {
        ReadStep(initial, init);
        var before, now := Run(initial, init).ingested, Run(initial, trace).ingested;
        var lines :| now == before + lines && TotalInk(lines) <= TotalInk(Lines(Unread(init))) &&
          (SafeRead(initial, init) ==> lines == Lines(Unread(init))) &&
          (!SafeRead(initial, init) ==> TotalInk(lines) < TotalInk(Lines(Unread(init))));
        TotalInkAppend(before, lines);
        TotalInkAppend(Piped(init), Lines(Unread(init)));
      }
    }
  }

  /** A file replaced by a longer one before the next read: what the new file holds before the old
      offset is never ingested. */
  lemma LongRotationLoses(initial: string, start: string)
    requires |initial| <= |start| && !AllSpace(start[..|initial|])
    ensures var trace := [Rotate(start), Notify];
            Run(initial, trace).ingested != Piped(trace) &&
            TotalInk(Run(initial, trace).ingested) < TotalInk(Piped(trace))
  {
    var trace := [Rotate(start), Notify];
    assert trace[..1] == [Rotate(start)];
    assert Rotated([Rotate(start)]) && File(initial, [Rotate(start)]) == start;
    assert Run(initial, [Rotate(start)]).pos == |initial| by {
      assert [Rotate(start)][..0] == [];
    }
    assert !SafeRead(initial, [Rotate(start)]);
    assert !Observed(initial, trace);
    hide *;
    TailMatchesPipeIff(initial, trace);
  }

  lemma LongRotationExample()
    ensures var trace := [Rotate("bb\n"), Notify]; Run("a\n", trace).ingested != Piped(trace)
  {
    assert "bb\n"[..2][0] == 'b';
    hide Run, Piped, TotalInk;
    LongRotationLoses("a\n", "bb\n");
  }

  lemma NoLines()
    ensures Lines("") == []
  {
  }

  lemma {:induction false} PipedIsDelivered(trace: seq<Event>)
    requires AlignedReads(trace)
    ensures Piped(trace) == Lines(Delivered(trace)) && Aligned(Delivered(trace))
  {
    hide Lines, Unread;
    if trace == [] {
      NoLines();
    } else {
      var init := trace[..|trace| - 1];
      PipedIsDelivered(init);
      if trace[|trace| - 1].Notify? {
        LinesAppend(Delivered(init), Unread(init));
      }
    }
  }

  // Every read boundary falls between lines.
  predicate WholeLines(trace: seq<Event>) {
    trace == [] ||
    var init := trace[..|trace| - 1];
    WholeLines(init) && (trace[|trace| - 1].Notify? ==> CleanCut(Delivered(init), Unread(init)))
  }

  lemma {:induction false} AlignedIsWhole(trace: seq<Event>)
    requires AlignedReads(trace)
    ensures WholeLines(trace)
  {
    if trace == [] {
    } else {
      hide Unread;
      var init := trace[..|trace| - 1];
      AlignedIsWhole(init);
      PipedIsDelivered(init);
      assert LastPiece(Delivered(init)) == "";
    }
  }

  lemma {:induction false} PipedIsDeliveredIff(trace: seq<Event>)
    ensures Piped(trace) == Lines(Delivered(trace)) <==> WholeLines(trace)
    ensures |Lines(Delivered(trace))| <= |Piped(trace)|
    ensures !WholeLines(trace) ==> |Lines(Delivered(trace))| < |Piped(trace)|
    ensures TotalInk(Piped(trace)) == Ink(Delivered(trace))
  {
    hide Lines, Unread, CleanCut, Ink, TotalInk;
    if trace == [] {
      NoLines();
      NothingHasNoInk();
    } else {
      var init := trace[..|trace| - 1];
      PipedIsDeliveredIff(init);
      if trace[|trace| - 1].Notify? {
        LinesAppendIff(Delivered(init), Unread(init));
        TotalInkAppend(Piped(init), Lines(Unread(init)));
        InkAppend(Delivered(init), Unread(init));
        LinesKeepInk(Unread(init));
      }
    }
  }

  /** Exactly once: the lines ingested are the non-blank lines of the bytes delivered, in order, if
      and only if every rotation was observed in time and no read ended inside a line. */
  lemma ExactlyOnceIff(initial: string, trace: seq<Event>)
    ensures Run(initial, trace).ingested == Lines(Delivered(trace)) <==> Observed(initial, trace) && WholeLines(trace)
  {
    hide *;
    TailMatchesPipeIff(initial, trace);
    PipedIsDeliveredIff(trace);
    LinesKeepInk(Delivered(trace));
  }

  lemma TraceStep(initial: string, trace: seq<Event>, e: Event)
    ensures Delivered(trace + [e]) == if e.Notify? then Delivered(trace) + Unread(trace) else Delivered(trace)
    ensures e.Write? ==> Unread(trace + [e]) == Unread(trace) + e.chunk
    ensures e.Notify? ==> Unread(trace + [e]) == ""
    ensures !e.Rotate? ==>
              File(initial, trace + [e]) == if e.Write? then File(initial, trace) + e.chunk else File(initial, trace)
    ensures Run(initial, trace + [e]) ==
            if e.Notify? then AfterRead(Run(initial, trace), File(initial, trace)) else Run(initial, trace)
  {
    hide AfterRead;
    assert (trace + [e])[..|trace|] == trace;
  }

  // A read of all there is, then a write and a read.
  lemma WriteThenRead(initial: string, trace: seq<Event>, chunk: string)
    requires Unread(trace) == "" && Run(initial, trace).pos == |File(initial, trace)|
    ensures var later := trace + [Write(chunk)] + [Notify];
            && Unread(later) == "" && Run(initial, later).pos == |File(initial, later)|
            && Delivered(later) == Delivered(trace) + chunk
            && Run(initial, later).ingested == Run(initial, trace).ingested + Lines(chunk)
  {
    hide Lines, Run, File, Delivered, Unread;
    TraceStep(initial, trace, Write(chunk));
    TraceStep(initial, trace + [Write(chunk)], Notify);
    var content := File(initial, trace);
    assert (content + chunk)[|content|..] == chunk && "" + chunk == chunk;
  }

  function TwoHalves(x: string, y: string): seq<Event> {
    [] + [Write(x)] + [Notify] + [Write(y)] + [Notify]
  }

  lemma TwoWrites(x: string, y: string)
    ensures Delivered(TwoHalves(x, y)) == x + y && Run("", TwoHalves(x, y)).ingested == Lines(x) + Lines(y)
  {
    hide Lines, Run, File, Delivered, Unread;
    NothingYet();
    WriteThenRead("", [], x);
    WriteThenRead("", [] + [Write(x)] + [Notify], y);
    assert "" + x == x && [] + Lines(x) == Lines(x);
  }

  lemma NothingYet()
    ensures Delivered([]) == "" && Unread([]) == "" && File("", []) == "" && Run("", []) == Reader(0, [])
  {
  }

  /** A line written in two halves with a read between them comes out as two. */
  lemma HalfLinesComeApart(x: string, y: string)
    requires '\n' !in x && '\n' !in y && !AllSpace(x) && !AllSpace(y)
    ensures Delivered(TwoHalves(x, y)) == x + y && Run("", TwoHalves(x, y)).ingested == Lines(x) + Lines(y) != Lines(x + y)
  {
    LineEndIs(y, |y|);
    assert y[..|y|] == y;
    WholeIsLastPiece(x);
    hide Lines, Run, Delivered, AllSpace, LastPiece, TwoHalves;
    TwoWrites(x, y);
    LinesAppendIff(x, y);
  }

  lemma {:induction false} WholeIsLastPiece(x: string)
    requires '\n' !in x
    ensures LastPiece(x) == x
  {
    if x != "" {
      WholeIsLastPiece(x[..|x| - 1]);
    }
  }

  /** Without rotations nothing is assumed of the notifications at all: the bytes delivered are those
      between the starting and the current offset, and their lines are ingested, each once, if and
      only if no read ended inside a line. */
  lemma {:induction false} GrowingFileExactlyOnceIff(initial: string, trace: seq<Event>)
    requires forall k | 0 <= k < |trace| :: !trace[k].Rotate?
    ensures var r, content := Run(initial, trace), File(initial, trace);
            && |initial| <= r.pos <= |content| && initial <= content
            && Delivered(trace) == content[|initial|..r.pos]
            && (r.ingested == Lines(content[|initial|..r.pos]) <==> WholeLines(trace))
  {
    NeverRotated(initial, trace);
    ExactlyOnceIff(initial, trace);
    DeliveredIsSlice(initial, trace);
  }

  lemma {:induction false} NeverRotated(initial: string, trace: seq<Event>)
    requires forall k | 0 <= k < |trace| :: !trace[k].Rotate?
    ensures !Rotated(trace) && Observed(initial, trace)
  {
    if trace == [] {
    } else {
      NeverRotated(initial, trace[..|trace| - 1]);
    }
  }

  lemma {:induction false} DeliveredIsSlice(initial: string, trace: seq<Event>)
    requires forall k | 0 <= k < |trace| :: !trace[k].Rotate?
    ensures var r, content := Run(initial, trace), File(initial, trace);
            |initial| <= r.pos <= |content| && initial <= content && Delivered(trace) == content[|initial|..r.pos]
  {
    if trace == [] {
    } else {
      var init, e := trace[..|trace| - 1], trace[|trace| - 1];
      DeliveredIsSlice(initial, init);
      NeverRotated(initial, init);
      CursorMarksUnread(initial, init);
      var r, content := Run(initial, init), File(initial, init);
      if e.Notify? {
        assert content[|initial|..] == content[|initial|..r.pos] + content[r.pos..];
        assert content[|initial|..|content|] == content[|initial|..];
      } else {
        assert (content + e.chunk)[|initial|..r.pos] == content[|initial|..r.pos];
      }
    }
  }

  // ---- backfill ----

  // What backfill sees of the file: each line stripped on the right, blank ones dropped.
  function RawLines(s: string): seq<string> {
    CleanRight(SplitLines(s))
  }

  function Keep(lines: seq<string>, p: string -> bool): seq<string> {
    if lines == [] then [] else Keep(lines[..|lines| - 1], p) + (if p(lines[|lines| - 1]) then [lines[|lines| - 1]] else [])
  }

  // `ts` is the timestamp the fast pattern finds in a line, if any.
  predicate InWindow(line: string, ts: string -> Option<int>, cutoff: int) {
    ts(line).Some? && ts(line).value >= cutoff
  }

  predicate IsNewer(line: string, ts: string -> Option<int>, last: Option<int>) {
    last.Some? && ts(line).Some? ==> ts(line).value > last.value
  }

  function Within(ts: string -> Option<int>, cutoff: int): string -> bool {
    line => InWindow(line, ts, cutoff)
  }

  function WithinAndNewer(ts: string -> Option<int>, cutoff: int, last: Option<int>): string -> bool {
    line => InWindow(line, ts, cutoff) && IsNewer(line, ts, last)
  }

  function Dated(ts: string -> Option<int>): string -> bool {
    line => ts(line).Some?
  }

  function Backfilled(lines: seq<string>, ts: string -> Option<int>, cutoff: int, last: Option<int>): seq<string> {
    Keep(lines, WithinAndNewer(ts, cutoff, last))
  }

  lemma KeepStep(lines: seq<string>, k: nat, p: string -> bool)
    requires k < |lines|
    ensures Keep(lines[..k + 1], p) == Keep(lines[..k], p) + (if p(lines[k]) then [lines[k]] else [])
  {
    assert lines[..k + 1][..k] == lines[..k];
  }

  lemma {:induction false} KeepAppend(a: seq<string>, b: seq<string>, p: string -> bool)
    ensures Keep(a + b, p) == Keep(a, p) + Keep(b, p)
  {
    if b == [] {
      assert a + b == a;
    } else {
      KeepAppend(a, b[..|b| - 1], p);
      assert (a + b)[..|a + b| - 1] == a + b[..|b| - 1];
    }
  }

  /** The backfill line by line: a line without a timestamp, older than the cutoff, or no newer than the
      last stored one is passed over; every other is ingested. */
  lemma BackfilledByLine(lines: seq<string>, line: string, ts: string -> Option<int>, cutoff: int, last: Option<int>)
    ensures Backfilled([], ts, cutoff, last) == []
    ensures var skipped := ts(line).None? || ts(line).value < cutoff || (last.Some? && ts(line).value <= last.value);
            Backfilled(lines + [line], ts, cutoff, last) == Backfilled(lines, ts, cutoff, last) + (if skipped then [] else [line])
  {
    assert (lines + [line])[..|lines|] == lines;
  }

  lemma {:induction false} KeepNone(lines: seq<string>, p: string -> bool)
    ensures Keep(lines, p) == [] <==> forall k | 0 <= k < |lines| :: !p(lines[k])
  {
    if lines == [] {
    } else {
      KeepNone(lines[..|lines| - 1], p);
    }
  }

  // A stronger test keeps fewer lines, and equally many only if it rejects nothing the weaker keeps.
  lemma {:induction false} KeepFewer(lines: seq<string>, p: string -> bool, q: string -> bool)
    requires forall line | p(line) :: q(line)
    ensures |Keep(lines, p)| <= |Keep(lines, q)|
    ensures Keep(lines, p) == Keep(lines, q) <==> forall k | 0 <= k < |lines| && q(lines[k]) :: p(lines[k])
    ensures Keep(lines, p) != Keep(lines, q) ==> |Keep(lines, p)| < |Keep(lines, q)|
  {
    if lines == [] {
    } else {
      KeepFewer(lines[..|lines| - 1], p, q);
    }
  }

  // What one run of the program ingests: a backfill of the file it finds, then the tail.
  function Session(content: string, trace: seq<Event>, ts: string -> Option<int>, cutoff: int, last: Option<int>): seq<string> {
    Backfilled(RawLines(content), ts, cutoff, last) + Run(content, trace).ingested
  }

  /** Backfill, then tail: the kept lines of the file as the backfill saw it, then each line
      delivered since, once, if and only if every rotation was observed in time and no read ended
      inside a line. */
  lemma BackfillThenTailIff(content: string, trace: seq<Event>, ts: string -> Option<int>, cutoff: int, last: Option<int>)
    ensures Session(content, trace, ts, cutoff, last) ==
            Backfilled(RawLines(content), ts, cutoff, last) + Lines(Delivered(trace)) <==>
            Observed(content, trace) && WholeLines(trace)
  {
    hide Backfilled, RawLines, Run, Lines, Delivered, Observed, WholeLines;
    ExactlyOnceIff(content, trace);
    SameFront(Backfilled(RawLines(content), ts, cutoff, last), Run(content, trace).ingested, Lines(Delivered(trace)));
  }

  lemma SameFront(a: seq<string>, b: seq<string>, c: seq<string>)
    ensures a + b == a + c <==> b == c
  {
    assert (a + b)[|a|..] == b && (a + c)[|a|..] == c;
  }

  // ---- restart ----

  // The newest timestamp among the stored lines, as the query over the stored rows returns it.
  function Newest(lines: seq<string>, ts: string -> Option<int>): Option<int> {
    if lines == [] then None
    else
      var before, t := Newest(lines[..|lines| - 1], ts), ts(lines[|lines| - 1]);
      if t.None? then before else if before.Some? && before.value >= t.value then before else t
  }

  lemma {:induction false} NewestBounds(lines: seq<string>, ts: string -> Option<int>)
    ensures forall k | 0 <= k < |lines| && ts(lines[k]).Some? ::
              Newest(lines, ts).Some? && ts(lines[k]).value <= Newest(lines, ts).value
    ensures Newest(lines, ts).Some? ==> exists k :: 0 <= k < |lines| && ts(lines[k]) == Newest(lines, ts)
  {
    if lines == [] {
    } else {
      NewestBounds(lines[..|lines| - 1], ts);
      var k := |lines| - 1;
      if ts(lines[k]).Some? && ts(lines[k]) == Newest(lines, ts) {
      } else if Newest(lines, ts).Some? {
        var j :| 0 <= j < k && ts(lines[..k][j]) == Newest(lines[..k], ts);
        assert lines[j] == lines[..k][j];
      }
    }
  }

  // Every stored line is at hand in Keep: what the first `done` lines put into the window.
  lemma {:induction false} KeepHas(lines: seq<string>, p: string -> bool, k: nat)
    requires k < |lines| && p(lines[k])
    ensures lines[k] in Keep(lines, p)
  {
    if k < |lines| - 1 {
      KeepHas(lines[..|lines| - 1], p, k);
    }
  }

  /** Restart: with the first `done` lines processed and their in-window lines stored, a backfill
      under a later cutoff ingests exactly the missing in-window suffix, and nothing stored, if
      and only if each in-window line of the suffix is newer than everything stored. */
  lemma RestartExactIff(lines: seq<string>, done: nat, ts: string -> Option<int>, cutoff: int, later: int)
    requires done <= |lines| && cutoff <= later
    ensures var stored := Keep(lines[..done], Within(ts, cutoff));
            var last := Newest(stored, ts);
            Backfilled(lines, ts, later, last) == Keep(lines[done..], Within(ts, later)) <==>
            forall k | done <= k < |lines| && InWindow(lines[k], ts, later) :: IsNewer(lines[k], ts, last)
  {
    var within := Within(ts, cutoff);
    var stored := Keep(lines[..done], within);
    var last := Newest(stored, ts);
    var newer := WithinAndNewer(ts, later, last);
    assert lines == lines[..done] + lines[done..];
    KeepAppend(lines[..done], lines[done..], newer);
    NewestBounds(stored, ts);
    forall k | 0 <= k < done
      ensures !newer(lines[..done][k])
    {
      if InWindow(lines[k], ts, later) {
        KeepHas(lines[..done], within, k);
        var j :| 0 <= j < |stored| && stored[j] == lines[k];
      }
    }
    KeepNone(lines[..done], newer);
    KeepFewer(lines[done..], newer, Within(ts, later));
    assert forall k | done <= k < |lines| :: lines[k] == lines[done..][k - done];
  }

  /** Strictly increasing timestamps meet that condition. */
  lemma IncreasingRestartExact(lines: seq<string>, done: nat, ts: string -> Option<int>, cutoff: int, later: int)
    requires done <= |lines| && cutoff <= later
    requires forall i, j | 0 <= i < j < |lines| && ts(lines[i]).Some? && ts(lines[j]).Some? ::
               ts(lines[i]).value < ts(lines[j]).value
    ensures var stored := Keep(lines[..done], Within(ts, cutoff));
            Backfilled(lines, ts, later, Newest(stored, ts)) == Keep(lines[done..], Within(ts, later))
  {
    var within := Within(ts, cutoff);
    var stored := Keep(lines[..done], within);
    RestartExactIff(lines, done, ts, cutoff, later);
    NewestBounds(stored, ts);
    if Newest(stored, ts).Some? {
      var j :| 0 <= j < |stored| && ts(stored[j]) == Newest(stored, ts);
      var i := KeepFrom(lines[..done], within, j);
      assert lines[i] == stored[j];
    }
  }

  /** A missing in-window line no newer than one stored is lost at the restart. */
  lemma SameInstantIsLost(lines: seq<string>, done: nat, ts: string -> Option<int>, cutoff: int, later: int, j: nat, k: nat)
    requires j < done <= k < |lines| && cutoff <= later
    requires InWindow(lines[j], ts, cutoff) && InWindow(lines[k], ts, later) && ts(lines[k]).value <= ts(lines[j]).value
    ensures var stored := Keep(lines[..done], Within(ts, cutoff));
            Backfilled(lines, ts, later, Newest(stored, ts)) != Keep(lines[done..], Within(ts, later))
  {
    var stored := Keep(lines[..done], Within(ts, cutoff));
    RestartExactIff(lines, done, ts, cutoff, later);
    assert lines[..done][j] == lines[j];
    KeepHas(lines[..done], Within(ts, cutoff), j);
    NewestBounds(stored, ts);
    hide Keep, Newest, Backfilled;
    var i :| 0 <= i < |stored| && stored[i] == lines[j];
    assert !IsNewer(lines[k], ts, Newest(stored, ts));
  }

  function AlwaysFive(): string -> Option<int> {
    line => Some(5)
  }

  /** Such as the second of two lines written in one instant, with the restart between them. */
  lemma SameInstantExample()
    ensures var lines, ts := ["a", "b"], AlwaysFive();
            Backfilled(lines, ts, 0, Newest(Keep(lines[..1], Within(ts, 0)), ts)) != Keep(lines[1..], Within(ts, 0))
  {
    hide Keep, Newest, Backfilled;
    SameInstantIsLost(["a", "b"], 1, AlwaysFive(), 0, 0, 0, 1);
  }

  lemma {:induction false} KeepFrom(lines: seq<string>, p: string -> bool, j: nat) returns (i: nat)
    requires j < |Keep(lines, p)|
    ensures i < |lines| && lines[i] == Keep(lines, p)[j]
  {
    if j < |Keep(lines[..|lines| - 1], p)| {
      i := KeepFrom(lines[..|lines| - 1], p, j);
    } else {
      i := |lines| - 1;
    }
  }

  // ---- the handler ----

  class LogFileHandler {
    var pos: nat
    // the lines handed to the ingestion pipeline, in order
    var scheduled: seq<string>

    constructor (content: string)
      ensures pos == |content| && scheduled == []
    {
      pos, scheduled := |content|, [];
    }

    method ReadNewLines(content: string)
      modifies this
      ensures Reader(pos, scheduled) == AfterRead(old(Reader(pos, scheduled)), content)
    {
      if |content| < pos {
        pos := 0;
      }
      var lines := SplitLines(content[pos..]);
      pos := |content|;
      ghost var before := scheduled;
      for k := 0 to |lines|
        invariant scheduled == before + Clean(lines[..k])
        invariant pos == |content|
      {
        hide Strip, Clean, SplitLines;
        CleanStep(lines, k);
        var line := Strip(lines[k]);
        if line != "" {
          scheduled := scheduled + [line];
        }
      }
      assert lines[..|lines|] == lines;
    }

    method Backfill(content: string, ts: string -> Option<int>, cutoff: int, last: Option<int>)
      returns (ingested: nat, skippedOld: nat, skippedDup: nat)
      modifies this
      ensures pos == |content| && scheduled == old(scheduled) + Backfilled(RawLines(content), ts, cutoff, last)
      ensures ingested == |Backfilled(RawLines(content), ts, cutoff, last)|
      ensures ingested + skippedDup == |Keep(RawLines(content), Within(ts, cutoff))|
      ensures ingested + skippedDup + skippedOld == |Keep(RawLines(content), Dated(ts))|
    {
      ingested, skippedOld, skippedDup := 0, 0, 0;
      var lines := RawLines(content);
      ghost var before := scheduled;
      for k := 0 to |lines|
        invariant scheduled == before + Keep(lines[..k], WithinAndNewer(ts, cutoff, last))
        invariant ingested == |Keep(lines[..k], WithinAndNewer(ts, cutoff, last))|
        invariant ingested + skippedDup == |Keep(lines[..k], Within(ts, cutoff))|
        invariant ingested + skippedDup + skippedOld == |Keep(lines[..k], Dated(ts))|
      {
        KeepStep(lines, k, WithinAndNewer(ts, cutoff, last));
        KeepStep(lines, k, Within(ts, cutoff));
        KeepStep(lines, k, Dated(ts));
        hide Keep;
        var t := ts(lines[k]);
        if t.None? {
        } else if t.value < cutoff {
          skippedOld := skippedOld + 1;
        } else if last.Some? && t.value <= last.value {
          skippedDup := skippedDup + 1;
        } else {
          scheduled := scheduled + [lines[k]];
          ingested := ingested + 1;
        }
      }
      assert lines[..|lines|] == lines;
      pos := |content|;
    }
  }
}
