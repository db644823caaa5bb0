/**
 What a restart of the watch command makes up for: after any crash the command catches up and
 projects everything the file owes, exactly if nothing ahead of the persisted cursor makes its
 polls fail.
 */
module WatchRecover {
  import opened Common
  import opened Lines
  import opened Rollout
  import opened RolloutDrain
  import opened WatchLoop
  import opened WatchRuns
  import opened WatchRestart

  /** The cursor of a process that starts now. */
  function Restarted<E, K>(s: Watch<E, K>): Cursor {
    Cursor(s.persisted, false)
  }

  lemma CrashAndStart<E, K>(s: Watch<E, K>, setup: Setup<E, K>)
    ensures Exec(s, [Crash, Start], setup) == s.(process := Running(Restarted(s), Idle))
  {
    var stopped := s.(process := Stopped);
    ExecStep(s, Crash, stopped, [Start], setup);
    ExecOne(stopped, Start, setup);
    assert [Crash] + [Start] == [Crash, Start];
  }

  /** Restarted, the command reads to the end of a file in which nothing ahead makes polls fail. */
  lemma Recovers<E, K>(s: Watch<E, K>, setup: Setup<E, K>) returns (more: seq<Step>)
    requires setup.w >= 1 && NoCR(s.file) && AllPlaced(s, setup)
    requires !Blocked(s.file, Restarted(s), setup.w, setup.decode)
    ensures var t := Exec(s, [Crash, Start] + more, setup);
      && t.file == s.file && t.process.Running? && t.process.phase == Idle && t.persisted == t.process.cur.offset
      && Drained(t.file, t.process.cur, setup.w)
  {
    hide PollOnce, Tail, Exec, Blocked, Expected, Handed, Stray, TailPoison, Poisoned;
    var r := s.(process := Running(Restarted(s), Idle));
    CrashAndStart(s, setup);
    var n := Enough(|s.file| - s.persisted, setup.w);
    more := RoundsRun(r, n, setup);
    DrainsWhenClean(s.file, Restarted(s), n, setup.w, setup.decode);
    ExecAppend(s, [Crash, Start], more, setup);
  }

  /** Exactly once, completely. Whatever happened before, if no tail of the file reads as a message
      and nothing ahead of the persisted cursor makes polls fail, then a restart followed by
      undisturbed rounds leaves exactly the file's report projected, without repeated keys and in
      file order. */
  lemma CompleteAfterCrash<E, K>(file: Bytes, steps: seq<Step>, setup: Setup<E, K>) returns (more: seq<Step>)
    requires setup.w >= 1
    requires var s := Exec(Initial(file), steps, setup);
      && NoCR(s.file) && NoTailReads(s.file, setup.w, setup.decode)
      && !Poisoned(s.file, s.persisted, setup.w, setup.decode)
      && !TailPoison(s.file, Restarted(s), setup.w, setup.decode)
    ensures var s, t := Exec(Initial(file), steps, setup), Exec(Initial(file), steps + ([Crash, Start] + more), setup);
      && t.file == s.file
      && t.projected == Dedup(Expected(s.file, setup.w, setup.decode), setup.key)
  {
    hide PollOnce, Tail, Exec, Expected, Dedup, NoTailReads, TailPoison, Poisoned, Drained;
    var s: Watch<E, K> := Exec(Initial(file), steps, setup);
    InitialPlaced(file, setup);
    RunPlaced(Initial(file), steps, setup);
    more := Recovers(s, setup);
    var all := steps + ([Crash, Start] + more);
    ExecAppend(Initial(file), steps, [Crash, Start] + more, setup);
    var t := Exec(Initial(file), all, setup);
    var report := Expected(s.file, setup.w, setup.decode);
    RunPlaced(Initial(file), all, setup);
    PlacedInside(t.file, t.process.cur, setup.w, setup.decode);
    DrainedIsComplete(t.file, t.process.cur, setup.w, setup.decode);
    ExactlyOnceAcrossCrashes(file, all, setup);
    var m: nat :| |OwedUpTo(t, t.persisted, setup)| <= m <= |report| && t.projected == Dedup(report[..m], setup.key);
    assert report[..m] == report;
  }

  // ---------------------------------------------------------------- a line that makes polls fail

  /** Neither the persisted cursor nor that of the process has passed the line at `k`. */
  predicate Before<E, K>(s: Watch<E, K>, k: nat) {
    s.persisted <= k && (s.process.Running? ==> s.process.cur.offset <= k)
  }

  lemma StepBefore<E, K>(s: Watch<E, K>, step: Step, k: nat, e: nat, setup: Setup<E, K>)
    requires setup.w >= 1 && NoCR(s.file) && AllPlaced(s, setup) && Before(s, k)
    requires Poison(s.file, k, e, setup.w, setup.decode)
    ensures Before(Apply(s, step, setup), k)
  {
    hide PollOnce, Tail, Poison, Poisoned;
    if step.Poll? && s.process.Running? && s.process.phase.Idle? {
      NeverPassesPoison(s.file, s.process.cur, setup.w, setup.decode, k, e);
    }
  }

  lemma {:induction false} RunBefore<E, K>(s: Watch<E, K>, steps: seq<Step>, k: nat, e: nat, setup: Setup<E, K>)
    requires setup.w >= 1 && NoCR(s.file) && AllPlaced(s, setup) && Before(s, k)
    requires Poison(s.file, k, e, setup.w, setup.decode) && Exec(s, steps, setup).file == s.file
    ensures Before(Exec(s, steps, setup), k)
    decreases steps
  {
    hide AllPlaced, Apply, Before, Poison;
    if steps != [] {
      var next := Apply(s, steps[0], setup);
      FileGrows(next, steps[1..], setup);
      FileGrows(s, [steps[0]], setup);
      ExecOne(s, steps[0], setup);
      SameFile(s.file, next.file);
      StepPlaced(s, steps[0], setup);
      StepBefore(s, steps[0], k, e, setup);
      RunBefore(next, steps[1..], k, e, setup);
    }
  }

  lemma SameFile(a: Bytes, b: Bytes)
    requires a <= b && b <= a
    ensures a == b
  {
  }

  // ---------------------------------------------------------------- a rest of a line that makes polls fail

  /** The command has not got past the rest of the line at `k`, nor projected anything. */
  ghost predicate Stuck<E, K>(s: Watch<E, K>, k: nat, seen: set<K>, projected: seq<E>, setup: Setup<E, K>) {
    && s.persisted == k && s.seen == seen && s.projected == projected
    && TailPoison(s.file, Cursor(k, false), setup.w, setup.decode)
    && (s.process.Running? ==> s.process == Running(Cursor(k, false), Idle))
  }

  lemma StepStuck<E, K>(s: Watch<E, K>, step: Step, k: nat, seen: set<K>, projected: seq<E>, setup: Setup<E, K>)
    requires setup.w >= 1 && NoCR(Apply(s, step, setup).file) && Stuck(s, k, seen, projected, setup)
    ensures Stuck(Apply(s, step, setup), k, seen, projected, setup)
  {
    hide PollOnce, TailPoison;
    if step.Append? {
      TailPoisonGrows(s.file, step.data, Cursor(k, false), setup.w, setup.decode);
    } else if step.Poll? {
      TailPoisonFails(s.file, Cursor(k, false), setup.w, setup.decode);
    }
  }

  lemma {:induction false} RunStuck<E, K>(s: Watch<E, K>, steps: seq<Step>, k: nat, seen: set<K>, projected: seq<E>,
                                          setup: Setup<E, K>)
    requires setup.w >= 1 && NoCR(Exec(s, steps, setup).file) && Stuck(s, k, seen, projected, setup)
    ensures Stuck(Exec(s, steps, setup), k, seen, projected, setup)
    decreases steps
  {
    hide Apply, Stuck;
    if steps != [] {
      var next := Apply(s, steps[0], setup);
      FileGrows(next, steps[1..], setup);
      NoCRPrefix(next.file, Exec(s, steps, setup).file);
      StepStuck(s, steps[0], k, seen, projected, setup);
      RunStuck(next, steps[1..], k, seen, projected, setup);
    }
  }

  /** For every file that ends inside an overlong line, with nothing in it that makes polls fail,
      every rest of that line that makes polls fail, and everything appended behind it: some run
      comes to a crash at the rest of the line, and from there no run at all, with whatever is
      appended, moves the persisted cursor or projects anything, although the file owes what was
      appended. */
  lemma TailBlocksForGood<E, K>(p: Bytes, line: Bytes, more: Bytes, setup: Setup<E, K>) returns (steps: seq<Step>)
    requires setup.w >= 1 && NoCR(p + line + more) && Tail(p) >= setup.w && !Poisoned(p, 0, setup.w, setup.decode)
    requires OneLineOf(line) && line[|line| - 1] == LF && |line| <= setup.w && setup.decode(line).Malformed?
    ensures var s := Exec(Initial([]), steps, setup);
      && s.file == p + line + more && s.persisted == |p|
      && s.projected == Dedup(Expected(p, setup.w, setup.decode), setup.key)
      && Expected(s.file, setup.w, setup.decode)
           == Expected(p, setup.w, setup.decode) + Expected(more, setup.w, setup.decode)
      && forall later | NoCR(Exec(s, later, setup).file) ::
           Exec(s, later, setup).persisted == |p| && Exec(s, later, setup).projected == s.projected
  {
    hide PollOnce, Tail, Exec, Expected, Dedup, Keys, Poisoned, TailPoison;
    assert p + line + more == p + (line + more);
    NoCRParts(p, line + more);
    var reach := ReachesTail(p, setup);
    var s0: Watch<E, K> := Exec(Initial([]), reach, setup);
    ExecAppend(Initial([]), reach, [Append(line + more)], setup);
    ExecOne(s0, Append(line + more), setup);
    steps := reach + [Append(line + more)];
    var s: Watch<E, K> := Exec(Initial([]), steps, setup);
    FitsInWindow(p, line, more, setup.w, setup.decode);
    OwedBehindTail(p, line, more, setup.w, setup.decode);
    forall later | NoCR(Exec(s, later, setup).file)
      ensures Exec(s, later, setup).persisted == |p| && Exec(s, later, setup).projected == s.projected
    {
      RunStuck(s, later, |p|, s.seen, s.projected, setup);
    }
  }

  lemma FitsInWindow<E>(p: Bytes, line: Bytes, more: Bytes, w: nat, decode: Bytes -> Decoded<E>)
    requires w >= 1 && Tail(p) >= w && OneLineOf(line) && line[|line| - 1] == LF && |line| <= w && decode(line).Malformed?
    ensures TailPoison(p + (line + more), Cursor(|p|, false), w, decode)
  {
    hide FirstLF, PollOnce;
    var file := p + (line + more);
    var data := Window(file, |p|, w);
    assert file[..|p|] == p;
    assert file[|p|..] == line + more;
    FirstOfLine(line, data);
  }

  lemma FirstOfLine(line: Bytes, data: Bytes)
    requires OneLineOf(line) && line[|line| - 1] == LF && line <= data
    ensures FirstLF(data) == |line| - 1 && data[..|line|] == line
  {
    assert forall j | 0 <= j < |line| - 1 :: data[j] == line[..|line| - 1][j];
  }

  lemma OwedBehindTail<E>(p: Bytes, line: Bytes, more: Bytes, w: nat, decode: Bytes -> Decoded<E>)
    requires NoCR(p) && Tail(p) >= w && OneLineOf(line) && line[|line| - 1] == LF
    ensures Expected(p + (line + more), w, decode) == Expected(p, w, decode) + Expected(more, w, decode)
  {
    hide Expected, Tail;
    ExpectedOverlong(p, line, w, decode);
    assert p + (line + more) == (p + line) + more;
    ExpectedAppend(p + line, more, w, decode);
  }

  // ---------------------------------------------------------------- exactly when a restart catches up

  /** A restart followed by the steps reads the file, which does not grow, to its end. */
  ghost predicate CatchesUp<E, K>(s: Watch<E, K>, more: seq<Step>, setup: Setup<E, K>) {
    var t := Exec(s, [Crash, Start] + more, setup);
    t.file == s.file && Drained(t.file, Restarted(t), setup.w)
  }

  lemma BlockedStays<E, K>(s: Watch<E, K>, more: seq<Step>, setup: Setup<E, K>)
    requires setup.w >= 1 && NoCR(s.file) && AllPlaced(s, setup)
    requires Blocked(s.file, Restarted(s), setup.w, setup.decode)
    ensures !CatchesUp(s, more, setup)
  {
    hide PollOnce, Tail, Exec, Poison, TailPoison, Drained;
    var r := s.(process := Running(Restarted(s), Idle));
    CrashAndStart(s, setup);
    ExecAppend(s, [Crash, Start], more, setup);
    var t := Exec(r, more, setup);
    if t.file == s.file {
      if TailPoison(s.file, Restarted(s), setup.w, setup.decode) {
        RunStuck(r, more, s.persisted, s.seen, s.projected, setup);
        TailIsAhead(t.file, Restarted(t), setup.w, setup.decode);
      } else {
        var k: nat, e: nat :| s.persisted <= k && Poison(s.file, k, e, setup.w, setup.decode);
        RunBefore(r, more, k, e, setup);
        PoisonIsAhead(t.file, Restarted(t), setup.w, setup.decode, k, e);
      }
    }
  }

  /** For every state the command can be in: some continuation behind a restart reads the file to
      its end if and only if neither a line ahead of the persisted cursor nor the rest of the line
      it stands in makes polls fail. */
  lemma RecoversExactly<E, K>(file: Bytes, steps: seq<Step>, setup: Setup<E, K>)
    requires setup.w >= 1 && NoCR(Exec(Initial(file), steps, setup).file)
    ensures var s := Exec(Initial(file), steps, setup);
      (exists more :: CatchesUp(s, more, setup))
        <==> !Poisoned(s.file, s.persisted, setup.w, setup.decode)
             && !TailPoison(s.file, Restarted(s), setup.w, setup.decode)
  {
    hide PollOnce, Tail, Exec, CatchesUp, TailPoison, Poisoned;
    var s: Watch<E, K> := Exec(Initial(file), steps, setup);
    InitialPlaced(file, setup);
    RunPlaced(Initial(file), steps, setup);
    if Blocked(s.file, Restarted(s), setup.w, setup.decode) {
      forall more
        ensures !CatchesUp(s, more, setup)
      {
        BlockedStays(s, more, setup);
      }
    } else {
      var more := Recovers(s, setup);
      CaughtUp(s, more, setup);
    }
  }

  lemma CaughtUp<E, K>(s: Watch<E, K>, more: seq<Step>, setup: Setup<E, K>)
    requires var t := Exec(s, [Crash, Start] + more, setup);
      && t.file == s.file && t.process.Running? && t.persisted == t.process.cur.offset
      && Drained(t.file, t.process.cur, setup.w)
    ensures CatchesUp(s, more, setup)
  {
    hide Exec;
  }
}
