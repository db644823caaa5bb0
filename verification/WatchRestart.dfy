/**
 What a restart of the watch command can do to a reader that stands inside an overlong line: for
 every file, exactly when something that is no line of the file is reported, and projected.
 */
module WatchRestart {
  import opened Common
  import opened Lines
  import opened Rollout
  import opened RolloutDrain
  import opened WatchLoop
  import opened WatchRuns

  /** A drained reader of a file that ends inside an overlong line has read all of it. */
  lemma DrainedAtEnd(file: Bytes, cur: Cursor, w: nat)
    requires w >= 1 && Anchored(file, cur, w) && Drained(file, cur, w) && Tail(file) >= w
    ensures cur.offset == |file|
  {
    if cur.offset < |file| {
      var done, rest := file[..cur.offset], file[cur.offset..];
      assert file == done + rest;
      TailAfterLineStart(done, rest);
      TailOfUnfinished(rest);
    }
  }

  /** A run that reads a clean file which ends inside an overlong line, and then crashes. */
  lemma ReachesTail<E, K>(p: Bytes, setup: Setup<E, K>) returns (steps: seq<Step>)
    requires setup.w >= 1 && NoCR(p) && Tail(p) >= setup.w && !Poisoned(p, 0, setup.w, setup.decode)
    ensures var t := Exec(Initial([]), steps, setup);
      && t.file == p && t.persisted == |p| && t.process.Stopped?
      && Projected(t, Expected(p, setup.w, setup.decode), setup)
  {
    hide PollOnce, Tail, Expected, Poisoned, Exec, Dedup, Keys, Handed, Stray, TailPoison;
    var start: Cursor := Cursor(0, false);
    var s: Watch<E, K> := Watch(p, 0, {}, [], Running(start, Idle));
    StartRun(p, setup);
    AnchoredIsResumable(p, start, setup.w);
    AnchoredTail(p, start, setup.w, setup.decode);
    var n := Enough(|p|, setup.w);
    var rounds := RoundsRun(s, n, setup);
    var d := Polls(p, start, n, setup.w, setup.decode);
    CatchUpExactly(p, start, n, setup.w, setup.decode);
    PollsKeepLog(p, start, n, setup.w, setup.decode);
    DrainedAtEnd(p, d.cur, setup.w);
    assert p[..|p|] == p && p[..0] == [];
    NothingOwed(setup);
    var nothing: seq<E> := [];
    assert nothing + d.events == d.events;
    HandedProjects(s, nothing, d.events, setup);
    var read := Caught(s, n, setup);
    ExecAppend(Initial([]), [Append(p), Start], rounds, setup);
    ExecAppend(Initial([]), [Append(p), Start] + rounds, [Crash], setup);
    ExecOne(read, Crash, setup);
    steps := [Append(p), Start] + rounds + [Crash];
  }

  lemma StartRun<E, K>(p: Bytes, setup: Setup<E, K>)
    ensures Exec(Initial([]), [Append(p), Start], setup) == Watch(p, 0, {}, [], Running(Cursor(0, false), Idle))
  {
    var s0: Watch<E, K> := Initial([]);
    assert [] + p == p;
    ExecStep(s0, Append(p), Initial(p), [Start], setup);
    ExecOne(Initial(p), Start, setup);
    assert [Append(p)] + [Start] == [Append(p), Start];
  }

  lemma NothingOwed<E, K>(setup: Setup<E, K>)
    ensures Expected([], setup.w, setup.decode) == []
    ensures var s: Watch<E, K> := Initial([]); Projected(s, [], setup)
  {
    var nothing: seq<E> := [];
    assert Dedup(nothing, setup.key) == [] && Keys(nothing, setup.key) == {};
  }

  /** A poll that begins inside an overlong line takes the rest of it for a line. */
  lemma TailReadsAsLine<E>(p: Bytes, line: Bytes, w: nat, decode: Bytes -> Decoded<E>)
    requires w >= 1 && OneLineOf(line) && line[|line| - 1] == LF && |line| <= w && decode(line).Message?
    requires NoCR(p) && Tail(p) >= w
    ensures PollOnce(p + line, Cursor(|p|, false), w, decode) == (Cursor(|p + line|, false), Polled([decode(line).event]))
    ensures Expected(p + line, w, decode) == Expected(p, w, decode)
  {
    hide Tail, Expected;
    LastLineIsPolled(p, line, w, decode);
    ExpectedOverlong(p, line, w, decode);
  }

  /** The run restarted there takes the rest of the line for a line of the file. */
  lemma LeaksAfterRestart<E, K>(s: Watch<E, K>, line: Bytes, setup: Setup<E, K>)
    requires setup.w >= 1 && OneLineOf(line) && line[|line| - 1] == LF && |line| <= setup.w && setup.decode(line).Message?
    requires NoCR(s.file) && Tail(s.file) >= setup.w && s.persisted == |s.file| && s.process.Stopped?
    requires Projected(s, Expected(s.file, setup.w, setup.decode), setup)
    ensures var polling := Exec(s, [Append(line), Start], setup);
      && polling.file == s.file + line && polling.process == Running(Cursor(|s.file|, false), Idle)
    ensures var t := Exec(s, [Append(line), Start, Poll, Project], setup);
      && t.file == s.file + line
      && Projected(t, Expected(s.file, setup.w, setup.decode) + [setup.decode(line).event], setup)
  {
    hide PollOnce, Expected, Tail, Exec, Projected;
    var event := setup.decode(line).event;
    TailReadsAsLine(s.file, line, setup.w, setup.decode);
    var s1 := s.(file := s.file + line);
    var s2 := s1.(process := Running(Cursor(|s.file|, false), Idle));
    var s3 := s1.(process := Running(Cursor(|s1.file|, false), Handling([event])));
    var s4 := Apply(s3, Project, setup);
    assert [event][1..] == [];
    SameProjected(s, s3, Expected(s.file, setup.w, setup.decode), setup);
    ProjectOne(s3, Expected(s.file, setup.w, setup.decode), event, setup);
    SameProjected(ProjectEvent(s3, event, setup), s4, Expected(s.file, setup.w, setup.decode) + [event], setup);
    ExecStep(s3, Project, s4, [], setup);
    ExecStep(s2, Poll, s3, [Project], setup);
    ExecStep(s1, Start, s2, [Poll, Project], setup);
    ExecStep(s, Append(line), s1, [Start, Poll, Project], setup);
    ExecStep(s1, Start, s2, [], setup);
    ExecStep(s, Append(line), s1, [Start], setup);
    ExecNone(s2, setup);
    ExecNone(s4, setup);
    assert [Project] + [] == [Project] && [Poll] + [Project] == [Poll, Project] && [Start] + [] == [Start];
    assert [Start] + [Poll, Project] == [Start, Poll, Project] && [Append(line)] + [Start] == [Append(line), Start];
    assert [Append(line)] + [Start, Poll, Project] == [Append(line), Start, Poll, Project];
  }

  // ---------------------------------------------------------------- exactly when a restart misleads the reader

  /** For every file that ends inside an overlong line, with nothing in it that makes polls fail,
      and every rest of that line which reads as a message: some run projects, behind everything
      the file owes, the event of that rest, which it does not owe. */
  lemma OverlongTailLeaks<E, K>(p: Bytes, line: Bytes, setup: Setup<E, K>) returns (steps: seq<Step>)
    requires setup.w >= 1 && NoCR(p) && Tail(p) >= setup.w && !Poisoned(p, 0, setup.w, setup.decode)
    requires OneLineOf(line) && line[|line| - 1] == LF && |line| <= setup.w && setup.decode(line).Message?
    ensures var s := Exec(Initial([]), steps, setup);
      var report := Expected(p, setup.w, setup.decode);
      && s.file == p + line
      && s.projected == Dedup(report + [setup.decode(line).event], setup.key)
      && Expected(s.file, setup.w, setup.decode) == report
  {
    hide PollOnce, Tail, Expected, Poisoned, Exec, Dedup, Keys;
    var reach := ReachesTail(p, setup);
    var s := Exec(Initial([]), reach, setup);
    LeaksAfterRestart(s, line, setup);
    TailReadsAsLine(p, line, setup.w, setup.decode);
    steps := reach + [Append(line), Start, Poll, Project];
    ExecAppend(Initial([]), reach, [Append(line), Start, Poll, Project], setup);
  }

  /** The next poll would report something else than the part of the file it reads owes. */
  ghost predicate Misreports<E, K>(s: Watch<E, K>, setup: Setup<E, K>) {
    && s.process.Running? && s.process.phase.Idle? && s.process.cur.offset <= |s.file|
    && var (next, out) := PollOnce(s.file, s.process.cur, setup.w, setup.decode);
    && next.offset <= |s.file|
    && Expected(s.file[..next.offset], setup.w, setup.decode)
         != OwedUpTo(s, s.process.cur.offset, setup) + out.Events()
  }

  ghost predicate MisreportsOn<E, K>(start: Bytes, steps: seq<Step>, file: Bytes, setup: Setup<E, K>) {
    var s := Exec(Initial(start), steps, setup);
    s.file <= file && Misreports(s, setup)
  }

  lemma MisreportNeedsTail<E, K>(start: Bytes, steps: seq<Step>, file: Bytes, setup: Setup<E, K>) returns (k: nat, e: nat)
    requires setup.w >= 1 && NoCR(file) && MisreportsOn(start, steps, file, setup)
    ensures TailReads(file, k, e, setup.w, setup.decode)
  {
    hide PollOnce, Tail, Expected, Stray, TailReads, Poisoned, Exec;
    var s: Watch<E, K> := Exec(Initial(start), steps, setup);
    NoCRPrefix(s.file, file);
    InitialPlaced(start, setup);
    RunPlaced(Initial(start), steps, setup);
    PollKeepsLog(s.file, s.process.cur, setup.w, setup.decode);
    k := s.process.cur.offset;
    e := StrayIsTail(s.file, s.process.cur, setup.w, setup.decode);
    assert file[..|s.file|] == s.file;
    TailReadsOfPart(file, |s.file|, k, e, setup.w, setup.decode);
  }

  /** The two parts of a tail that reads as a message. */
  lemma TailParts<E>(file: Bytes, k: nat, e: nat, w: nat, decode: Bytes -> Decoded<E>)
    requires NoCR(file) && TailReads(file, k, e, w, decode)
    ensures var p, line := file[..k], file[k..e];
      && NoCR(p) && Tail(p) >= w && !Poisoned(p, 0, w, decode)
      && OneLineOf(line) && line[|line| - 1] == LF && |line| <= w && decode(line).Message?
      && p + line == file[..e] && p + line + file[e..] == file
  {
    var line := file[k..e];
    assert line[..|line| - 1] == file[k..e - 1];
  }

  lemma TailMisreports<E, K>(file: Bytes, k: nat, e: nat, setup: Setup<E, K>) returns (steps: seq<Step>)
    requires setup.w >= 1 && NoCR(file) && TailReads(file, k, e, setup.w, setup.decode)
    ensures MisreportsOn([], steps, file, setup)
  {
    hide PollOnce, Tail, Expected, TailReads, Poisoned, Exec, Projected;
    TailInside(file, k, e, setup.w, setup.decode);
    var p, line := file[..k], file[k..e];
    TailParts(file, k, e, setup.w, setup.decode);
    var reach := ReachesTail(p, setup);
    var s := Exec(Initial([]), reach, setup);
    LeaksAfterRestart(s, line, setup);
    TailReadsAsLine(p, line, setup.w, setup.decode);
    steps := reach + [Append(line), Start];
    ExecAppend(Initial([]), reach, [Append(line), Start], setup);
    assert (p + line)[..k] == p && (p + line)[..|p + line|] == p + line;
    var event := setup.decode(line).event;
    assert |Expected(p, setup.w, setup.decode) + [event]| != |Expected(p + line, setup.w, setup.decode)|;
  }

  /** For every file: some run over a part of it, from any beginning, comes to a poll that reports
      what the file does not owe, if and only if the rest of an overlong line, with nothing in
      front that makes polls fail, fits the window and reads as a message. */
  lemma MisreportsExactly<E, K>(file: Bytes, setup: Setup<E, K>)
    requires setup.w >= 1 && NoCR(file)
    ensures (exists start, steps :: MisreportsOn(start, steps, file, setup))
      <==> !NoTailReads(file, setup.w, setup.decode)
  {
    hide MisreportsOn, TailReads;
    if start, steps :| MisreportsOn(start, steps, file, setup) {
      var k, e := MisreportNeedsTail(start, steps, file, setup);
    }
    if k: nat, e: nat :| TailReads(file, k, e, setup.w, setup.decode) {
      var steps := TailMisreports(file, k, e, setup);
    }
  }

  // ---------------------------------------------------------------- exactly when the projector is misled

  /** The event stands in the file, or is read from such a tail. */
  ghost predicate Explained<E, K>(event: E, file: Bytes, setup: Setup<E, K>) {
    || event in Expected(file, setup.w, setup.decode)
    || exists k: nat, e: nat :: TailReads(file, k, e, setup.w, setup.decode) && event == setup.decode(file[k..e]).event
  }

  ghost predicate AllExplained<E, K>(s: Watch<E, K>, file: Bytes, setup: Setup<E, K>) {
    && (forall event | event in s.projected :: Explained(event, file, setup))
    && (s.process.Running? && s.process.phase.Handling? ==>
          forall event | event in s.process.phase.pending :: Explained(event, file, setup))
  }

  lemma PollExplained<E, K>(s: Watch<E, K>, file: Bytes, setup: Setup<E, K>)
    requires setup.w >= 1 && NoCR(file) && s.file <= file && s.process.Running?
    requires Placed(s.file, s.process.cur, setup.w, setup.decode)
    ensures forall event | event in PollOnce(s.file, s.process.cur, setup.w, setup.decode).1.Events() :: Explained(event, file, setup)
  {
    hide PollOnce, Tail, Expected, Stray, TailReads, Poisoned;
    var w, decode, cur := setup.w, setup.decode, s.process.cur;
    var (next, out) := PollOnce(s.file, cur, w, decode);
    var stray := Stray(s.file, cur, w, decode);
    NoCRPrefix(s.file, file);
    PollKeepsLog(s.file, cur, w, decode);
    assert s.file[..next.offset] == file[..next.offset];
    ReportIsPrefix(file, next.offset, w, decode);
    var owed := out.Events()[|stray|..];
    assert out.Events() == stray + owed;
    forall event | event in out.Events()
      ensures Explained(event, file, setup)
    {
      if event in owed {
        assert event in Expected(file[..next.offset], w, decode);
      } else {
        var e := StrayIsTail(s.file, cur, w, decode);
        assert file[..|s.file|] == s.file;
        TailReadsOfPart(file, |s.file|, cur.offset, e, w, decode);
        TailInside(s.file, cur.offset, e, w, decode);
        assert file[cur.offset..e] == s.file[cur.offset..e];
      }
    }
  }

  lemma TailInside<E>(file: Bytes, k: nat, e: nat, w: nat, decode: Bytes -> Decoded<E>)
    requires TailReads(file, k, e, w, decode)
    ensures k < e <= |file|
  {
  }

  lemma StepExplained<E, K>(s: Watch<E, K>, step: Step, file: Bytes, setup: Setup<E, K>)
    requires setup.w >= 1 && NoCR(file) && Apply(s, step, setup).file <= file
    requires AllPlaced(s, setup) && AllExplained(s, file, setup)
    ensures AllExplained(Apply(s, step, setup), file, setup)
  {
    hide PollOnce, Explained, Placed;
    if step.Poll? && s.process.Running? && s.process.phase.Idle? {
      PollExplained(s, file, setup);
    }
  }

  lemma {:induction false} RunExplained<E, K>(s: Watch<E, K>, steps: seq<Step>, file: Bytes, setup: Setup<E, K>)
    requires setup.w >= 1 && NoCR(file) && Exec(s, steps, setup).file <= file
    requires AllPlaced(s, setup) && AllExplained(s, file, setup)
    ensures AllExplained(Exec(s, steps, setup), file, setup)
    decreases steps
  {
    hide AllPlaced, AllExplained, Apply;
    if steps != [] {
      var next := Apply(s, steps[0], setup);
      FileGrows(next, steps[1..], setup);
      NoCRPrefix(next.file, file);
      StepPlaced(s, steps[0], setup);
      StepExplained(s, steps[0], file, setup);
      RunExplained(next, steps[1..], file, setup);
    }
  }

  /** A run over the whole file projects a key that no event of the file has. */
  ghost predicate ForeignOn<E, K>(start: Bytes, steps: seq<Step>, file: Bytes, setup: Setup<E, K>) {
    var s := Exec(Initial(start), steps, setup);
    s.file == file && !(Keys(s.projected, setup.key) <= Keys(Expected(file, setup.w, setup.decode), setup.key))
  }

  /** A tail that reads as a message whose key no event of the file has. */
  ghost predicate ForeignTail<E, K>(file: Bytes, k: nat, e: nat, setup: Setup<E, K>) {
    && TailReads(file, k, e, setup.w, setup.decode)
    && setup.key(setup.decode(file[k..e]).event) !in Keys(Expected(file, setup.w, setup.decode), setup.key)
  }

  lemma ForeignNeedsTail<E, K>(start: Bytes, steps: seq<Step>, file: Bytes, setup: Setup<E, K>)
    requires setup.w >= 1 && NoCR(file) && ForeignOn(start, steps, file, setup)
    ensures exists k: nat, e: nat :: ForeignTail(file, k, e, setup)
  {
    hide Expected, Tail, Poisoned, Exec, AllPlaced;
    var s: Watch<E, K> := Exec(Initial(start), steps, setup);
    InitialPlaced(start, setup);
    RunExplained(Initial(start), steps, file, setup);
    var known := Keys(Expected(file, setup.w, setup.decode), setup.key);
    var event :| event in s.projected && setup.key(event) !in known;
    assert Explained(event, file, setup);
    var k: nat, e: nat :| TailReads(file, k, e, setup.w, setup.decode) && event == setup.decode(file[k..e]).event;
    assert ForeignTail(file, k, e, setup);
  }

  lemma {:induction false} DedupKeys<E, K>(events: seq<E>, key: E -> K)
    ensures Keys(Dedup(events, key), key) == Keys(events, key)
  {
    if events != [] {
      var init, last := events[..|events| - 1], events[|events| - 1];
      DedupKeys(init, key);
      assert events == init + [last];
      KeysAppend(init, [last], key);
      KeysAppend(Dedup(init, key), [last], key);
    }
  }

  lemma TailIsForeign<E, K>(file: Bytes, k: nat, e: nat, setup: Setup<E, K>) returns (steps: seq<Step>)
    requires setup.w >= 1 && NoCR(file) && ForeignTail(file, k, e, setup)
    ensures ForeignOn([], steps, file, setup)
  {
    hide PollOnce, Tail, Expected, TailReads, Poisoned, Exec, Dedup;
    TailInside(file, k, e, setup.w, setup.decode);
    var p, line := file[..k], file[k..e];
    TailParts(file, k, e, setup.w, setup.decode);
    var leak := OverlongTailLeaks(p, line, setup);
    var s: Watch<E, K> := Exec(Initial([]), leak, setup);
    var report, event := Expected(p, setup.w, setup.decode), setup.decode(line).event;
    DedupKeys(report + [event], setup.key);
    assert event in report + [event] by { assert (report + [event])[|report|] == event; }
    assert setup.key(event) in Keys(s.projected, setup.key);
    steps := leak + [Append(file[e..])];
    ExecAppend(Initial([]), leak, [Append(file[e..])], setup);
    ExecOne(s, Append(file[e..]), setup);
  }

  /** For every file and every key function: some run over it, with crashes and restarts, projects
      a key that no event of the file has, if and only if such a tail reads as a message with a key
      that no event of the file has. */
  lemma ForeignExactly<E, K>(file: Bytes, setup: Setup<E, K>)
    requires setup.w >= 1 && NoCR(file)
    ensures (exists start, steps :: ForeignOn(start, steps, file, setup))
      <==> exists k: nat, e: nat :: ForeignTail(file, k, e, setup)
  {
    hide ForeignOn, ForeignTail;
    if start, steps :| ForeignOn(start, steps, file, setup) {
      ForeignNeedsTail(start, steps, file, setup);
    }
    if k: nat, e: nat :| ForeignTail(file, k, e, setup) {
      var steps := TailIsForeign(file, k, e, setup);
    }
  }
}
