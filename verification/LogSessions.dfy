/** Restarts of the log tailer: each start of backend/main.py backfills from the newest stored
    timestamp and then tails, and the file may grow or be replaced while the program is down. */
module LogSessions {
  import opened LogWatcher
  import opened Text
  import opened Wrappers

  // One run of the program: what happened to the file while it was down, what happened while it
  // was up, and the oldest timestamp its backfill accepts.
  datatype Uptime = Uptime(down: seq<Event>, trace: seq<Event>, cutoff: int)

  // The file as the last run found it, and as it left it.
  function Found(runs: seq<Uptime>): string
    requires runs != []
    decreases |runs|, 0
  {
    File(Disk(runs[..|runs| - 1]), runs[|runs| - 1].down)
  }

  function Disk(runs: seq<Uptime>): string
    decreases |runs|, 1
  {
    if runs == [] then "" else File(Found(runs), runs[|runs| - 1].trace)
  }

  // All lines ingested, each backfill knowing only the newest timestamp stored before.
  function Stored(runs: seq<Uptime>, ts: string -> Option<int>): seq<string> {
    if runs == [] then []
    else
      var before, run := Stored(runs[..|runs| - 1], ts), runs[|runs| - 1];
      before + Session(Found(runs), run.trace, ts, run.cutoff, Newest(before, ts))
  }

  // ---- the reference: a program that remembers what it has read, and knows of every rotation ----

  // The last run's events, and the file it had found.
  function LastTrace(runs: seq<Uptime>): seq<Event> {
    if runs == [] then [] else runs[|runs| - 1].trace
  }

  function LastFound(runs: seq<Uptime>): string {
    if runs == [] then "" else Found(runs)
  }

  // The bytes of the file as found that no earlier run has read.
  function Rest(runs: seq<Uptime>): string
    requires runs != []
  {
    Unread(LastTrace(runs[..|runs| - 1]) + runs[|runs| - 1].down)
  }

  // All bytes read, in order, each once.
  function Read(runs: seq<Uptime>): string {
    if runs == [] then "" else Read(runs[..|runs| - 1]) + Rest(runs) + Delivered(runs[|runs| - 1].trace)
  }

  // Each backfill keeps the in-window lines not read before, each tail every line.
  function Resumed(runs: seq<Uptime>, ts: string -> Option<int>): seq<string> {
    if runs == [] then []
    else
      var run := runs[|runs| - 1];
      Resumed(runs[..|runs| - 1], ts) + Keep(RawLines(Rest(runs)), Within(ts, run.cutoff)) + Lines(Delivered(run.trace))
  }

  // ---- what is assumed of the file ----

  ghost predicate IgnoresIndent(ts: string -> Option<int>) {
    forall line :: ts(Strip(line)) == ts(StripRight(line))
  }

  predicate Increasing(lines: seq<string>, ts: string -> Option<int>) {
    forall i, j | 0 <= i < j < |lines| && ts(lines[i]).Some? && ts(lines[j]).Some? :: ts(lines[i]).value < ts(lines[j]).value
  }

  // Reads see whole lines, rotations while the program is up are observed in time, the lines read
  // carry strictly increasing timestamps, and the retention window only moves forward. While the
  // program is down the file may be written and replaced at will.
  predicate WellKept(runs: seq<Uptime>, ts: string -> Option<int>) {
    runs == [] ||
    var init, run := runs[..|runs| - 1], runs[|runs| - 1];
    && WellKept(init, ts)
    && (forall k | 0 <= k < |run.down| :: !run.down[k].Notify?)
    && Aligned(Rest(runs)) && AlignedReads(run.trace) && Observed(Found(runs), run.trace)
    && Increasing(RawLines(Read(runs)), ts)
    && (init != [] ==> init[|init| - 1].cutoff <= run.cutoff)
  }

  // ---- timestamps of a list of lines ----

  function Stamps(lines: seq<string>, ts: string -> Option<int>): set<int> {
    set i | 0 <= i < |lines| && ts(lines[i]).Some? :: ts(lines[i]).value
  }

  lemma StampsAppend(a: seq<string>, b: seq<string>, ts: string -> Option<int>)
    ensures Stamps(a + b, ts) == Stamps(a, ts) + Stamps(b, ts)
  {
    var all := a + b;
    assert forall i | 0 <= i < |a| :: all[i] == a[i];
    assert forall i | 0 <= i < |b| :: all[|a| + i] == b[i];
    forall t
      ensures t in Stamps(all, ts) <==> t in Stamps(a, ts) + Stamps(b, ts)
    {
      if i :| 0 <= i < |a| && ts(a[i]) == Some(t) {
        assert ts(all[i]) == Some(t);
      }
      if i :| 0 <= i < |b| && ts(b[i]) == Some(t) {
        assert ts(all[|a| + i]) == Some(t);
      }
    }
  }

  lemma StampsOne(line: string, ts: string -> Option<int>)
    ensures Stamps([line], ts) == if ts(line).Some? then {ts(line).value} else {}
  {
    assert [line][0] == line;
  }

  lemma {:induction false} StampsKept(lines: seq<string>, ts: string -> Option<int>, cutoff: int)
    ensures Stamps(Keep(lines, Within(ts, cutoff)), ts) == set t | t in Stamps(lines, ts) && t >= cutoff
  {
    if lines == [] {
    } else {
      var init, last := lines[..|lines| - 1], lines[|lines| - 1];
      hide Stamps;
      StampsKept(init, ts, cutoff);
      assert lines == init + [last];
      StampsAppend(init, [last], ts);
      StampsAppend(Keep(init, Within(ts, cutoff)), [last], ts);
      StampsOne(last, ts);
      assert Keep(init, Within(ts, cutoff)) + [] == Keep(init, Within(ts, cutoff));
    }
  }

  // Two lists that agree on timestamps position by position.
  predicate Parallel(a: seq<string>, b: seq<string>, ts: string -> Option<int>) {
    |a| == |b| && forall i | 0 <= i < |a| :: ts(a[i]) == ts(b[i])
  }

  lemma ParallelStamps(a: seq<string>, b: seq<string>, ts: string -> Option<int>)
    requires Parallel(a, b, ts)
    ensures Stamps(a, ts) == Stamps(b, ts) && (Increasing(a, ts) ==> Increasing(b, ts))
  {
  }

  lemma {:induction false} StrippedEnds(s: string)
    ensures StripRight(s) != "" ==> !IsSpace(StripRight(s)[|StripRight(s)| - 1])
  {
    if s != "" && IsSpace(s[|s| - 1]) {
      StrippedEnds(s[..|s| - 1]);
    }
  }

  lemma BlankEitherWay(line: string)
    ensures Strip(line) == "" <==> StripRight(line) == ""
  {
    StripKeepsInk(line);
    StripRightKeepsInk(line);
    NoInkIsSpace(Strip(line));
    NoInkIsSpace(StripRight(line));
    StrippedEnds(line);
    StrippedEnds(StripLeft(line));
  }

  lemma {:induction false} CleanIsParallel(lines: seq<string>, ts: string -> Option<int>)
    requires IgnoresIndent(ts)
    ensures Parallel(CleanRight(lines), Clean(lines), ts)
  {
    if lines == [] {
    } else {
      hide Strip, StripRight;
      CleanIsParallel(lines[1..], ts);
      BlankEitherWay(lines[0]);
      assert ts(Strip(lines[0])) == ts(StripRight(lines[0]));
    }
  }

  lemma {:induction false} CleanRightAppend(a: seq<string>, b: seq<string>)
    ensures CleanRight(a + b) == CleanRight(a) + CleanRight(b)
  {
    if a == [] {
      assert a + b == b;
    } else {
      hide *;
      CleanRightAppend(a[1..], b);
      HeadOfConcat(a, b);
      CleanRightCons(a[0], a[1..]);
      CleanRightCons(a[0], a[1..] + b);
      Associative(CleanRightOf(a[0]), CleanRight(a[1..]), CleanRight(b));
    }
  }

  function CleanRightOf(line: string): seq<string> {
    if StripRight(line) == "" then [] else [StripRight(line)]
  }

  lemma CleanRightCons(line: string, rest: seq<string>)
    ensures CleanRight([line] + rest) == CleanRightOf(line) + CleanRight(rest)
  {
    hide StripRight;
    assert ([line] + rest)[1..] == rest;
  }

  lemma RawLinesAppend(a: string, b: string)
    requires Aligned(a)
    ensures RawLines(a + b) == RawLines(a) + RawLines(b)
  {
    SplitAppend(a, b);
    CleanRightAppend(SplitLines(a), SplitLines(b));
  }

  // ---- increasing timestamps ----

  lemma IncreasingSplits(a: seq<string>, b: seq<string>, ts: string -> Option<int>)
    ensures Increasing(a + b, ts) <==>
            Increasing(a, ts) && Increasing(b, ts) && forall t, u | t in Stamps(a, ts) && u in Stamps(b, ts) :: t < u
  {
    var all := a + b;
    assert forall i | 0 <= i < |a| :: all[i] == a[i];
    assert forall i | 0 <= i < |b| :: all[|a| + i] == b[i];
    if Increasing(all, ts) {
      forall i, j | 0 <= i < j < |b| && ts(b[i]).Some? && ts(b[j]).Some?
        ensures ts(b[i]).value < ts(b[j]).value
      {
        assert all[|a| + i] == b[i] && all[|a| + j] == b[j];
      }
      forall t, u | t in Stamps(a, ts) && u in Stamps(b, ts)
        ensures t < u
      {
        var i :| 0 <= i < |a| && ts(a[i]) == Some(t);
        var j :| 0 <= j < |b| && ts(b[j]) == Some(u);
        assert all[i] == a[i] && all[|a| + j] == b[j];
      }
    }
    if Increasing(a, ts) && Increasing(b, ts) && forall t, u | t in Stamps(a, ts) && u in Stamps(b, ts) :: t < u {
      forall i, j | 0 <= i < j < |all| && ts(all[i]).Some? && ts(all[j]).Some?
        ensures ts(all[i]).value < ts(all[j]).value
      {
        if i < |a| <= j {
          assert ts(a[i]).value in Stamps(a, ts) && ts(b[j - |a|]).value in Stamps(b, ts);
        } else if |a| <= i {
          assert all[i] == b[i - |a|] && all[j] == b[j - |a|];
        }
      }
    }
  }

  lemma {:induction false} KeptIncreases(lines: seq<string>, ts: string -> Option<int>, cutoff: int)
    requires Increasing(lines, ts)
    ensures Increasing(Keep(lines, Within(ts, cutoff)), ts)
  {
    if lines == [] {
    } else {
      var init, last := lines[..|lines| - 1], lines[|lines| - 1];
      hide Increasing, Stamps;
      assert lines == init + [last];
      IncreasingSplits(init, [last], ts);
      KeptIncreases(init, ts, cutoff);
      StampsKept(init, ts, cutoff);
      IncreasingSplits(Keep(init, Within(ts, cutoff)), [last], ts);
      assert Keep(init, Within(ts, cutoff)) + [] == Keep(init, Within(ts, cutoff));
    }
  }

  // ---- one restart ----

  lemma {:induction false} NewestIsStamp(lines: seq<string>, ts: string -> Option<int>)
    ensures Newest(lines, ts).Some? ==> Newest(lines, ts).value in Stamps(lines, ts)
    ensures forall t | t in Stamps(lines, ts) :: Newest(lines, ts).Some? && t <= Newest(lines, ts).value
  {
    NewestBounds(lines, ts);
  }

  // A backfill over lines seen before and lines beyond them keeps the in-window ones beyond.
  lemma ResumeExact(seen: seq<string>, rest: seq<string>, ts: string -> Option<int>, cutoff: int, last: Option<int>)
    requires forall t | t in Stamps(seen, ts) && t >= cutoff :: last.Some? && t <= last.value
    requires last.Some? ==> forall t | t in Stamps(rest, ts) :: t > last.value
    ensures Backfilled(seen + rest, ts, cutoff, last) == Keep(rest, Within(ts, cutoff))
  {
    var newer := WithinAndNewer(ts, cutoff, last);
    KeepAppend(seen, rest, newer);
    forall k | 0 <= k < |seen|
      ensures !newer(seen[k])
    {
      assert ts(seen[k]).Some? ==> ts(seen[k]).value in Stamps(seen, ts);
    }
    KeepNone(seen, newer);
    forall k | 0 <= k < |rest| && Within(ts, cutoff)(rest[k])
      ensures newer(rest[k])
    {
      assert ts(rest[k]).value in Stamps(rest, ts);
    }
    KeepFewer(rest, newer, Within(ts, cutoff));
  }

  // What has been read, what is stored of it, and under which cutoff.
  ghost predicate Complete(seen: seq<string>, stored: seq<string>, ts: string -> Option<int>, cutoff: int) {
    && Increasing(stored, ts)
    && Stamps(stored, ts) <= Stamps(seen, ts)
    && forall t | t in Stamps(seen, ts) && t >= cutoff :: t in Stamps(stored, ts)
  }

  // The backfill sees some of the lines read before, and lines beyond all of them.
  lemma ResumeStep(seen: seq<string>, some: seq<string>, stored: seq<string>, rest: seq<string>, ts: string -> Option<int>,
                   cutoff: int, later: int)
    requires Complete(seen, stored, ts, cutoff) && cutoff <= later && Increasing(seen + rest, ts)
    requires Stamps(some, ts) <= Stamps(seen, ts)
    ensures Backfilled(some + rest, ts, later, Newest(stored, ts)) == Keep(rest, Within(ts, later))
    ensures Complete(seen + rest, stored + Keep(rest, Within(ts, later)), ts, later)
  {
    hide Increasing, Stamps, Newest;
    NewestIsStamp(stored, ts);
    IncreasingSplits(seen, rest, ts);
    ResumeExact(some, rest, ts, later, Newest(stored, ts));
    StampsKept(rest, ts, later);
    KeptIncreases(rest, ts, later);
    StampsAppend(seen, rest, ts);
    StampsAppend(stored, Keep(rest, Within(ts, later)), ts);
    IncreasingSplits(stored, Keep(rest, Within(ts, later)), ts);
  }

  lemma TailStep(seen: seq<string>, stored: seq<string>, raw: seq<string>, lines: seq<string>, ts: string -> Option<int>, cutoff: int)
    requires Complete(seen, stored, ts, cutoff) && Parallel(raw, lines, ts) && Increasing(seen + raw, ts)
    ensures Complete(seen + raw, stored + lines, ts, cutoff)
  {
    hide Increasing, Stamps, Parallel;
    ParallelStamps(raw, lines, ts);
    IncreasingSplits(seen, raw, ts);
    StampsAppend(seen, raw, ts);
    StampsAppend(stored, lines, ts);
    IncreasingSplits(stored, lines, ts);
  }

  // ---- what has been read, and what the file still holds of it ----

  lemma AlignedAppend(a: string, b: string)
    requires Aligned(a)
    ensures Aligned(a + b) <==> Aligned(b)
  {
  }

  // The read part of the file is the end of all that has been read.
  ghost predicate EndsWithFile(read: string, file: string, pos: nat) {
    pos <= |file| && exists earlier :: Aligned(earlier) && read == earlier + file[..pos]
  }

  lemma {:induction false} ReadEndsWithFile(initial: string, trace: seq<Event>)
    requires Aligned(initial) && AlignedReads(trace)
    ensures !Rotated(trace) ==>
              EndsWithFile(initial + Delivered(trace), File(initial, trace), Run(initial, trace).pos)
  {
    if trace == [] {
      assert initial + "" == "" + initial[..|initial|];
    } else if !Rotated(trace) {
      var init, e := trace[..|trace| - 1], trace[|trace| - 1];
      hide Unread, Aligned;
      ReadEndsWithFile(initial, init);
      var content, pos, read := File(initial, init), Run(initial, init).pos, initial + Delivered(init);
      if e.Notify? {
        CursorMarksUnread(initial, init);
        NotifyEndsWithFile(initial, init, read, content, pos);
      } else {
        assert (content + e.chunk)[..pos] == content[..pos];
      }
    }
  }

  lemma NotifyEndsWithFile(initial: string, init: seq<Event>, read: string, content: string, pos: nat)
    requires Aligned(initial) && AlignedReads(init) && read == initial + Delivered(init)
    requires if Rotated(init) then Unread(init) == content
             else pos <= |content| && content[pos..] == Unread(init) && EndsWithFile(read, content, pos)
    ensures EndsWithFile(initial + (Delivered(init) + Unread(init)), content, |content|)
  {
    PipedIsDelivered(init);
    AlignedAppend(initial, Delivered(init));
    hide Unread, Delivered, Aligned, Rotated;
    assert content[..|content|] == content;
    Associative(initial, Delivered(init), Unread(init));
    if !Rotated(init) {
      var earlier :| Aligned(earlier) && read == earlier + content[..pos];
      assert content == content[..pos] + content[pos..];
      Associative(earlier, content[..pos], content[pos..]);
    }
  }

  // While the program is down the cursor stays, and without a rotation so does what is before it.
  lemma {:induction false} DownKeepsCursor(initial: string, trace: seq<Event>, down: seq<Event>)
    requires forall k | 0 <= k < |down| :: !down[k].Notify?
    ensures File(initial, trace + down) == File(File(initial, trace), down)
    ensures Run(initial, trace + down).pos == Run(initial, trace).pos
    ensures !Rotated(trace + down) ==> !Rotated(trace) && File(initial, trace) <= File(initial, trace + down)
  {
    if down == [] {
      assert trace + down == trace;
    } else {
      DownKeepsCursor(initial, trace, down[..|down| - 1]);
      assert (trace + down)[..|trace + down| - 1] == trace + down[..|down| - 1];
    }
  }

  // The file as found is a part read before, whose lines are among those read, and the rest.
  lemma FoundSplits(read: string, initial: string, trace: seq<Event>, down: seq<Event>) returns (head: string)
    requires forall k | 0 <= k < |down| :: !down[k].Notify?
    requires Aligned(read)
    requires !Rotated(trace) ==> EndsWithFile(read, File(initial, trace), Run(initial, trace).pos)
    ensures File(initial, trace + down) == head + Unread(trace + down)
    ensures exists earlier :: Aligned(earlier) && Aligned(head) && read == earlier + head
  {
    CursorMarksUnread(initial, trace + down);
    DownKeepsCursor(initial, trace, down);
    hide Unread, Aligned, Rotated, File, Run;
    var found, pos := File(initial, trace + down), Run(initial, trace).pos;
    if Rotated(trace + down) {
      head := "";
      assert found == "" + found && read == read + "";
      NothingAligned();
    } else {
      head := found[..pos];
      assert found == found[..pos] + found[pos..];
      assert File(initial, trace)[..pos] == head;
      var earlier :| Aligned(earlier) && read == earlier + File(initial, trace)[..pos];
      AlignedAppend(earlier, head);
    }
  }

  lemma NothingAligned()
    ensures Aligned("")
  {
  }

  // ---- one run ----

  lemma BackfillHalf(read: string, head: string, rest: string, stored: seq<string>, ts: string -> Option<int>, cutoff: int, later: int)
    requires exists earlier :: Aligned(earlier) && Aligned(head) && read == earlier + head
    requires Aligned(read) && cutoff <= later
    requires Complete(RawLines(read), stored, ts, cutoff) && Increasing(RawLines(read + rest), ts)
    ensures var kept := Keep(RawLines(rest), Within(ts, later));
            && Backfilled(RawLines(head + rest), ts, later, Newest(stored, ts)) == kept
            && Complete(RawLines(read + rest), stored + kept, ts, later)
  {
    hide Increasing, RawLines, Keep, Backfilled, Newest, Aligned, Stamps;
    var earlier :| Aligned(earlier) && Aligned(head) && read == earlier + head;
    RawLinesAppend(earlier, head);
    RawLinesAppend(head, rest);
    RawLinesAppend(read, rest);
    StampsAppend(RawLines(earlier), RawLines(head), ts);
    ResumeStep(RawLines(read), RawLines(head), stored, RawLines(rest), ts, cutoff, later);
  }

  lemma TailHalf(read: string, found: string, trace: seq<Event>, stored: seq<string>, ts: string -> Option<int>, cutoff: int)
    requires Aligned(read) && AlignedReads(trace) && Observed(found, trace) && IgnoresIndent(ts)
    requires Complete(RawLines(read), stored, ts, cutoff) && Increasing(RawLines(read + Delivered(trace)), ts)
    ensures Run(found, trace).ingested == Lines(Delivered(trace)) && Aligned(Delivered(trace))
    ensures Complete(RawLines(read + Delivered(trace)), stored + Lines(Delivered(trace)), ts, cutoff)
  {
    hide Complete, Increasing, RawLines, Lines, Run, AlignedReads, Observed, Delivered, IgnoresIndent, Aligned;
    AlignedIsWhole(trace);
    ExactlyOnceIff(found, trace);
    PipedIsDelivered(trace);
    RawLinesAppend(read, Delivered(trace));
    LinesAreParallel(Delivered(trace), ts);
    TailStep(RawLines(read), stored, RawLines(Delivered(trace)), Lines(Delivered(trace)), ts, cutoff);
  }

  lemma LinesAreParallel(s: string, ts: string -> Option<int>)
    requires IgnoresIndent(ts)
    ensures Parallel(RawLines(s), Lines(s), ts)
  {
    CleanIsParallel(SplitLines(s), ts);
  }

  lemma LongerIncreases(a: string, b: string, ts: string -> Option<int>)
    requires Aligned(a) && Increasing(RawLines(a + b), ts)
    ensures Increasing(RawLines(a), ts)
  {
    hide Increasing, RawLines, Stamps;
    RawLinesAppend(a, b);
    IncreasingSplits(RawLines(a), RawLines(b), ts);
  }

  // ---- over all runs ----

  // Everything a run adds, said of the last one.
  lemma LastRun(runs: seq<Uptime>, ts: string -> Option<int>)
    requires runs != []
    ensures var init, run := runs[..|runs| - 1], runs[|runs| - 1];
            && Found(runs) == File(Disk(init), run.down) && Disk(init) == File(LastFound(init), LastTrace(init))
            && LastFound(runs) == Found(runs) && LastTrace(runs) == run.trace && Disk(runs) == File(Found(runs), run.trace)
            && Rest(runs) == Unread(LastTrace(init) + run.down)
            && Read(runs) == Read(init) + Rest(runs) + Delivered(run.trace)
            && Stored(runs, ts) ==
               Stored(init, ts) + (Backfilled(RawLines(Found(runs)), ts, run.cutoff, Newest(Stored(init, ts), ts)) +
                                   Run(Found(runs), run.trace).ingested)
            && Resumed(runs, ts) ==
               Resumed(init, ts) + Keep(RawLines(Rest(runs)), Within(ts, run.cutoff)) + Lines(Delivered(run.trace))
  {
    hide Run, Unread, Delivered, Backfilled, RawLines, Newest, Keep, Lines;
  }

  lemma LastKept(runs: seq<Uptime>, ts: string -> Option<int>)
    requires runs != [] && WellKept(runs, ts)
    ensures var init, run := runs[..|runs| - 1], runs[|runs| - 1];
            && WellKept(init, ts)
            && (forall k | 0 <= k < |run.down| :: !run.down[k].Notify?)
            && Aligned(Rest(runs)) && AlignedReads(run.trace) && Observed(Found(runs), run.trace)
            && Increasing(RawLines(Read(runs)), ts)
            && (init != [] ==> init[|init| - 1].cutoff <= run.cutoff)
  {
    hide Found, Rest, Read, RawLines, Increasing, Aligned, AlignedReads, Observed;
  }

  lemma EndsAfterRun(read: string, head: string, rest: string, found: string, trace: seq<Event>)
    requires exists earlier :: Aligned(earlier) && Aligned(head) && read == earlier + head
    requires found == head + rest && Aligned(rest) && AlignedReads(trace)
    ensures !Rotated(trace) ==>
              EndsWithFile(read + rest + Delivered(trace), File(found, trace), Run(found, trace).pos)
  {
    hide Delivered, File, Run, AlignedReads, Rotated, Aligned;
    AlignedAppend(head, rest);
    ReadEndsWithFile(found, trace);
    if !Rotated(trace) {
      var earlier :| Aligned(earlier) && Aligned(head) && read == earlier + head;
      var file, pos := File(found, trace), Run(found, trace).pos;
      var earlier' :| Aligned(earlier') && found + Delivered(trace) == earlier' + file[..pos];
      AlignedAppend(earlier, earlier');
      assert read + rest + Delivered(trace) == earlier + (found + Delivered(trace));
      assert earlier + (earlier' + file[..pos]) == (earlier + earlier') + file[..pos];
    }
  }

  // What every run keeps.
  lemma {:induction false} KeptOverRuns(runs: seq<Uptime>, ts: string -> Option<int>)
    requires WellKept(runs, ts) && IgnoresIndent(ts)
    ensures Stored(runs, ts) == Resumed(runs, ts) && Aligned(Read(runs))
    ensures !Rotated(LastTrace(runs)) ==>
              EndsWithFile(Read(runs), Disk(runs), Run(LastFound(runs), LastTrace(runs)).pos)
    ensures runs != [] ==> Complete(RawLines(Read(runs)), Stored(runs, ts), ts, runs[|runs| - 1].cutoff)
  {
    if runs == [] {
      assert "" == "" + ""[..0];
    } else {
      hide *;
      var init, run := runs[..|runs| - 1], runs[|runs| - 1];
      LastKept(runs, ts);
      KeptOverRuns(init, ts);
      LastRun(runs, ts);
      NothingIsComplete(ts, run.cutoff);
      var before := if init == [] then run.cutoff else init[|init| - 1].cutoff;
      var read, rest, stored := Read(init), Rest(runs), Stored(init, ts);
      DownKeepsCursor(LastFound(init), LastTrace(init), run.down);
      var head := FoundSplits(read, LastFound(init), LastTrace(init), run.down);
      AlignedAppend(read, rest);
      LongerIncreases(read + rest, Delivered(run.trace), ts);
      BackfillHalf(read, head, rest, stored, ts, before, run.cutoff);
      var kept := Keep(RawLines(rest), Within(ts, run.cutoff));
      TailHalf(read + rest, Found(runs), run.trace, stored + kept, ts, run.cutoff);
      AlignedAppend(read + rest, Delivered(run.trace));
      Associative(stored, kept, Lines(Delivered(run.trace)));
      EndsAfterRun(read, head, rest, Found(runs), run.trace);
    }
  }

  /** Exactly once across any number of restarts: knowing only the newest stored timestamp, the
      program ingests what one that remembers all it has read would, whatever was written or
      rotated while it was down. No timestamp is stored twice, all stored ones are of lines read,
      and every line read that is still in the window is stored. */
  lemma SessionsExactlyOnce(runs: seq<Uptime>, ts: string -> Option<int>)
    requires WellKept(runs, ts) && IgnoresIndent(ts)
    ensures Stored(runs, ts) == Resumed(runs, ts)
    ensures runs != [] ==> Complete(RawLines(Read(runs)), Stored(runs, ts), ts, runs[|runs| - 1].cutoff)
  {
    KeptOverRuns(runs, ts);
  }

  lemma NothingIsComplete(ts: string -> Option<int>, cutoff: int)
    ensures Complete(RawLines(Read([])), Stored([], ts), ts, cutoff)
  {
    assert RawLines("") == [];
  }
}
