/**
 Interrupts of the watch command: the handler persists the cursor, which a poll has already moved
 past events that are still to be handed to the projector.
 */
module WatchInterrupt {
  import opened Common
  import opened Lines
  import opened Rollout
  import opened RolloutDrain
  import opened WatchLoop
  import opened WatchRestart
  import opened WatchRuns

  /** Interrupting the command in the middle of a round persists the advanced cursor. */
  function Interrupt<E, K>(s: Watch<E, K>): Watch<E, K> {
    if s.process.Running? then s.(persisted := s.process.cur.offset, process := Stopped) else s
  }

  /** What can happen to a command that may also be interrupted. */
  datatype Act = Take(step: Step) | Break

  function Enact<E, K>(s: Watch<E, K>, act: Act, setup: Setup<E, K>): Watch<E, K> {
    if act.Break? then Interrupt(s) else Apply(s, act.step, setup)
  }

  function Follow<E, K>(s: Watch<E, K>, acts: seq<Act>, setup: Setup<E, K>): Watch<E, K>
    decreases acts
  {
    if acts == [] then s else Follow(Enact(s, acts[0], setup), acts[1..], setup)
  }

  lemma {:induction false} FollowGrows<E, K>(s: Watch<E, K>, acts: seq<Act>, setup: Setup<E, K>)
    ensures s.file <= Follow(s, acts, setup).file
    decreases acts
  {
    hide PollOnce;
    if acts != [] {
      FollowGrows(Enact(s, acts[0], setup), acts[1..], setup);
    }
  }

  /** Interrupts do not make a key be projected twice either. */
  lemma {:induction false} NoKeyTwiceWithInterrupts<E, K>(s: Watch<E, K>, acts: seq<Act>, setup: Setup<E, K>)
    requires OncePerKey(s, setup)
    ensures OncePerKey(Follow(s, acts, setup), setup)
    decreases acts
  {
    hide Apply, DistinctKeys, Keys;
    if acts != [] {
      var next := Enact(s, acts[0], setup);
      if acts[0].Take? {
        NoKeyTwice(s, [acts[0].step], setup);
        ExecOne(s, acts[0].step, setup);
      }
      NoKeyTwiceWithInterrupts(next, acts[1..], setup);
    }
  }

  /** An interrupt is harmless exactly when every event still pending has a key already seen. */
  lemma InterruptHarmlessExactly<E, K>(s: Watch<E, K>, m: nat, setup: Setup<E, K>)
    requires Sound(s, m, setup) && NoCR(s.file) && s.process.Running? && s.process.phase.Handling?
    ensures var t := Interrupt(s);
      (forall e | e in OwedUpTo(t, t.persisted, setup) :: setup.key(e) in t.seen)
        <==> (forall e | e in s.process.phase.pending :: setup.key(e) in s.seen)
  {
    hide Expected, Tail, Dedup;
    var all := Expected(s.file, setup.w, setup.decode);
    var reported := OwedUpTo(s, s.process.cur.offset, setup);
    var pending := s.process.phase.pending;
    var j := |reported| - |pending|;
    ReportIsPrefix(s.file, s.process.cur.offset, setup.w, setup.decode);
    assert reported == reported[..j] + pending;
    forall e | e in reported[..j]
      ensures setup.key(e) in s.seen
    {
      var i :| 0 <= i < j && reported[..j][i] == e;
      assert e == all[..m][i];
    }
  }

  // ---------------------------------------------------------------- what is lost

  /** What the file owes behind the offset. */
  function Later<E, K>(file: Bytes, at: nat, setup: Setup<E, K>): seq<E>
    requires at <= |file|
  {
    var all, before := Expected(file, setup.w, setup.decode), Expected(file[..at], setup.w, setup.decode);
    if |before| <= |all| then all[|before|..] else []
  }

  /** Since the cursor stood at `at` only events behind it have been handed over. */
  ghost predicate Beyond<E, K>(s: Watch<E, K>, at: nat, known: set<K>, setup: Setup<E, K>) {
    && AllPlaced(s, setup) && at <= s.persisted <= |s.file|
    && s.seen <= known + Keys(Later(s.file, at, setup), setup.key)
    && (s.process.Running? ==>
          && at <= s.process.cur.offset
          && (s.process.phase.Handling? ==> forall event | event in s.process.phase.pending :: event in Later(s.file, at, setup)))
  }

  /** What a file owes behind an offset it owes still when it has grown. */
  lemma LaterGrows<E, K>(file: Bytes, data: Bytes, at: nat, setup: Setup<E, K>)
    requires at <= |file| && NoCR(file + data)
    ensures Later(file, at, setup) <= Later(file + data, at, setup)
  {
    hide Expected;
    var grown := file + data;
    assert grown[..at] == file[..at] && grown[..|file|] == file;
    NoCRParts(file, data);
    ReportIsPrefix(file, at, setup.w, setup.decode);
    ReportIsPrefix(grown, |file|, setup.w, setup.decode);
  }

  /** What a poll from behind an offset reports is owed behind the offset. */
  lemma PollIsLater<E, K>(file: Bytes, cur: Cursor, at: nat, setup: Setup<E, K>)
    requires setup.w >= 1 && NoCR(file) && Placed(file, cur, setup.w, setup.decode) && at <= cur.offset
    requires NoTailReads(file, setup.w, setup.decode)
    ensures at <= |file|
    ensures forall event | event in PollOnce(file, cur, setup.w, setup.decode).1.Events() :: event in Later(file, at, setup)
    ensures PollOnce(file, cur, setup.w, setup.decode).0.offset >= at
  {
    hide Expected, PollOnce, Tail, NoTailReads, Poisoned;
    var w, decode := setup.w, setup.decode;
    NothingStray(file, cur, w, decode);
    var (next, out) := PollOnce(file, cur, w, decode);
    var all, now, before, first :=
      Expected(file, w, decode), Expected(file[..next.offset], w, decode), Expected(file[..cur.offset], w, decode),
      Expected(file[..at], w, decode);
    ReportIsPrefix(file, next.offset, w, decode);
    assert file[..cur.offset][..at] == file[..at];
    ReportIsPrefix(file[..cur.offset], at, w, decode);
    assert now == before + out.Events() && first <= before && now <= all;
    forall event | event in out.Events()
      ensures event in all[|first|..]
    {
      var i :| 0 <= i < |out.Events()| && out.Events()[i] == event;
      assert all[|first|..][|before| + i - |first|] == now[|before| + i] == event;
    }
  }

  lemma StepBeyond<E, K>(s: Watch<E, K>, step: Step, at: nat, known: set<K>, setup: Setup<E, K>)
    requires setup.w >= 1 && Beyond(s, at, known, setup)
    requires NoCR(Apply(s, step, setup).file) && NoTailReads(Apply(s, step, setup).file, setup.w, setup.decode)
    ensures Beyond(Apply(s, step, setup), at, known, setup)
  {
    StepPlaced(s, step, setup);
    hide PollOnce, NoTailReads, Placed, Later;
    match step {
      case Append(data) => LaterGrows(s.file, data, at, setup);
      case Poll =>
        if s.process.Running? && s.process.phase.Idle? {
          PollIsLater(s.file, s.process.cur, at, setup);
        }
      case Start =>
      case Project =>
      case Persist =>
      case Crash =>
    }
  }

  lemma InterruptBeyond<E, K>(s: Watch<E, K>, at: nat, known: set<K>, setup: Setup<E, K>)
    requires setup.w >= 1 && Beyond(s, at, known, setup)
    ensures Beyond(Interrupt(s), at, known, setup)
  {
    hide Poisoned, Later, Tail;
  }

  lemma {:induction false} RunBeyond<E, K>(s: Watch<E, K>, acts: seq<Act>, at: nat, known: set<K>, setup: Setup<E, K>)
    requires setup.w >= 1 && Beyond(s, at, known, setup)
    requires NoCR(Follow(s, acts, setup).file) && NoTailReads(Follow(s, acts, setup).file, setup.w, setup.decode)
    ensures Beyond(Follow(s, acts, setup), at, known, setup)
    decreases acts
  {
    hide Beyond, Apply, NoTailReads, Interrupt;
    if acts != [] {
      var next := Enact(s, acts[0], setup);
      var last := Follow(s, acts, setup).file;
      FollowGrows(next, acts[1..], setup);
      assert last[..|next.file|] == next.file;
      NoTailReadsInPart(last, |next.file|, setup.w, setup.decode);
      if acts[0].Break? {
        InterruptBeyond(s, at, known, setup);
      } else {
        StepBeyond(s, acts[0].step, at, known, setup);
      }
      RunBeyond(next, acts[1..], at, known, setup);
    }
  }

  /** An event that is pending at an interrupt, and whose key was not seen, is lost: it is owed in
      front of the cursor from which every later process goes on, and whatever follows, further
      interrupts included, its key is never projected unless an event behind that cursor carries
      it. */
  lemma InterruptLoses<E, K>(s: Watch<E, K>, m: nat, event: E, acts: seq<Act>, setup: Setup<E, K>)
    requires Sound(s, m, setup) && setup.w >= 1 && s.process.Running? && s.process.phase.Handling?
    requires event in s.process.phase.pending && setup.key(event) !in s.seen
    requires var file := Follow(Interrupt(s), acts, setup).file;
      NoCR(file) && NoTailReads(file, setup.w, setup.decode)
    ensures var t, at := Follow(Interrupt(s), acts, setup), s.process.cur.offset;
      && at <= t.persisted <= |t.file|
      && event in Expected(t.file[..at], setup.w, setup.decode)
      && (setup.key(event) in Keys(t.projected, setup.key) ==>
            setup.key(event) in Keys(Later(t.file, at, setup), setup.key))
  {
    hide Expected, Tail, Dedup, Poisoned, NoTailReads, Follow;
    var t, at := Follow(Interrupt(s), acts, setup), s.process.cur.offset;
    FollowGrows(Interrupt(s), acts, setup);
    RunBeyond(Interrupt(s), acts, at, s.seen, setup);
    assert t.file[..at] == s.file[..at];
    KeysAreProjected(s, m, setup);
    NoKeyTwiceWithInterrupts(Interrupt(s), acts, setup);
  }

  lemma KeysAreProjected<E, K>(s: Watch<E, K>, m: nat, setup: Setup<E, K>)
    requires Sound(s, m, setup)
    ensures OncePerKey(s, setup)
  {
    hide Expected, Tail, Poisoned;
    var all := Expected(s.file, setup.w, setup.decode);
    DedupKeys(all[..m], setup.key);
    DedupDistinct(all[..m], setup.key);
  }

  lemma {:induction false} DedupDistinct<E, K>(events: seq<E>, key: E -> K)
    ensures DistinctKeys(Dedup(events, key), key)
  {
    if events != [] {
      var init := events[..|events| - 1];
      DedupDistinct(init, key);
      DedupKeys(init, key);
      assert forall e | e in Dedup(init, key) :: key(e) in Keys(init, key);
    }
  }

  /** A run from the beginning, for every line that reads as a message: the interrupt comes after
      the poll, and whatever follows, further interrupts included, the event of the line is owed,
      is never projected unless a later event of the file carries its key, and no later process
      reads the line again. */
  lemma InterruptedRun<E, K>(line: Bytes, acts: seq<Act>, setup: Setup<E, K>)
    requires setup.w >= 1 && OneLineOf(line) && line[|line| - 1] == LF && |line| <= setup.w && setup.decode(line).Message?
    requires var file := Follow(Interrupt(Exec(Initial([]), [Append(line), Start, Poll], setup)), acts, setup).file;
      NoCR(file) && NoTailReads(file, setup.w, setup.decode)
    ensures var t := Follow(Interrupt(Exec(Initial([]), [Append(line), Start, Poll], setup)), acts, setup);
      var event, report := setup.decode(line).event, Expected(t.file, setup.w, setup.decode);
      && |line| <= t.persisted <= |t.file|
      && report != [] && report[0] == event
      && (setup.key(event) in Keys(t.projected, setup.key) ==> setup.key(event) in Keys(report[1..], setup.key))
  {
    hide Expected, Tail, Dedup, Poisoned, NoTailReads, Exec, Follow, PollOnce;
    var event := setup.decode(line).event;
    var s: Watch<E, K> := Watch(line, 0, {}, [], Running(Cursor(|line|, false), Handling([event])));
    LineIsPending(line, setup);
    PendingIsSound(line, setup);
    InterruptLoses(s, 0, event, acts, setup);
    var t := Follow(Interrupt(s), acts, setup);
    FollowGrows(Interrupt(s), acts, setup);
    assert t.file[..|line|] == line;
    ReportIsPrefix(t.file, |line|, setup.w, setup.decode);
    ExpectedOneLine(line, setup.w, setup.decode);
  }

  lemma LineIsPending<E, K>(line: Bytes, setup: Setup<E, K>)
    requires OneLineOf(line) && line[|line| - 1] == LF && |line| <= setup.w && setup.decode(line).Message?
    ensures Exec(Initial([]), [Append(line), Start, Poll], setup)
      == Watch(line, 0, {}, [], Running(Cursor(|line|, false), Handling([setup.decode(line).event])))
  {
    hide PollOnce, Exec;
    var s0: Watch<E, K> := Initial([]);
    var s1: Watch<E, K> := Initial(line);
    var s2 := s1.(process := Running(Cursor(0, false), Idle));
    assert [] + line == line;
    LastLineIsPolled([], line, setup.w, setup.decode);
    ExecOne(s2, Poll, setup);
    ExecStep(s1, Start, s2, [Poll], setup);
    ExecStep(s0, Append(line), s1, [Start, Poll], setup);
    assert [Start] + [Poll] == [Start, Poll] && [Append(line)] + [Start, Poll] == [Append(line), Start, Poll];
  }

  lemma PendingIsSound<E, K>(line: Bytes, setup: Setup<E, K>)
    requires setup.w >= 1 && OneLineOf(line) && line[|line| - 1] == LF && |line| <= setup.w && setup.decode(line).Message?
    ensures Sound(Watch(line, 0, {}, [], Running(Cursor(|line|, false), Handling([setup.decode(line).event]))), 0, setup)
  {
    hide SplitLines, LineLength, Expected, Tail, PollOnce;
    var w, decode := setup.w, setup.decode;
    ExpectedOneLine(line, w, decode);
    LastLineIsPolled([], line, w, decode);
    assert [] + line == line && line[..0] == [] && line[..|line|] == line;
    InitialPlaced(line, setup);
    PollStaysPlaced(line, Cursor(0, false), w, decode);
    assert Expected([], w, decode) == [] by { NothingExpected(w, decode); }
    var nothing: seq<E> := [];
    assert Dedup(nothing, setup.key) == [] && Keys(nothing, setup.key) == {};
    assert Expected(line, w, decode)[..0] == nothing;
  }

  lemma NothingExpected<E>(w: nat, decode: Bytes -> Decoded<E>)
    ensures Expected([], w, decode) == []
  {
  }
}
