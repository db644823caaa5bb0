/**
 The watch command: poll, project each event once, persist the cursor; across crashes and
 restarts from the persisted cursor.
 */
module WatchLoop {
  import opened Common
  import opened Lines
  import opened Rollout
  import opened RolloutDrain

  /** A running command is between two rounds, or handing on the events of its last poll. */
  datatype Phase<+E> = Idle | Handling(pending: seq<E>)

  datatype Process<+E> = Stopped | Running(cur: Cursor, phase: Phase<E>)

  /** `persisted` and `seen` are in the store and survive the process; `projected` lists what the
      projector let through, in order. */
  datatype Watch<E, K(==)> = Watch(file: Bytes, persisted: nat, seen: set<K>, projected: seq<E>, process: Process<E>)

  datatype Step = Append(data: Bytes) | Start | Poll | Project | Persist | Crash

  datatype Setup<!E, !K> = Setup(w: nat, decode: Bytes -> Decoded<E>, key: E -> K)

  /** The projector: a test-and-set on the key decides whether the event goes on. */
  function ProjectEvent<E, K>(s: Watch<E, K>, event: E, setup: Setup<E, K>): Watch<E, K> {
    if setup.key(event) in s.seen then s
    else s.(seen := s.seen + {setup.key(event)}, projected := s.projected + [event])
  }

  /** One step; a step the command cannot take now changes nothing. */
  function Apply<E, K>(s: Watch<E, K>, step: Step, setup: Setup<E, K>): Watch<E, K> {
    match step
    case Append(data) => s.(file := s.file + data)
    case Start =>
      if s.process.Stopped? then s.(process := Running(Cursor(s.persisted, false), Idle)) else s
    case Poll =>
      if s.process.Running? && s.process.phase.Idle? then
        var (cur, out) := PollOnce(s.file, s.process.cur, setup.w, setup.decode);
        s.(process := if out.Failed? then Stopped else Running(cur, Handling(out.events)))
      else s
    case Project =>
      if s.process.Running? && s.process.phase.Handling? && s.process.phase.pending != [] then
        var pending := s.process.phase.pending;
        ProjectEvent(s, pending[0], setup).(process := s.process.(phase := Handling(pending[1..])))
      else s
    case Persist =>
      if s.process.Running? && s.process.phase == Handling([]) then
        s.(persisted := s.process.cur.offset, process := s.process.(phase := Idle))
      else s
    case Crash => s.(process := Stopped)
  }

  function Exec<E, K>(s: Watch<E, K>, steps: seq<Step>, setup: Setup<E, K>): Watch<E, K>
    decreases steps
  {
    if steps == [] then s else Exec(Apply(s, steps[0], setup), steps[1..], setup)
  }

  function Initial<E, K>(file: Bytes): Watch<E, K> {
    Watch(file, 0, {}, [], Stopped)
  }

  // ---------------------------------------------------------------- specification

  ghost function Keys<E, K>(events: seq<E>, key: E -> K): set<K> {
    set e | e in events :: key(e)
  }

  /** The events without those whose key came before. */
  ghost function Dedup<E, K>(events: seq<E>, key: E -> K): seq<E> {
    if events == [] then [] else
      var init, last := events[..|events| - 1], events[|events| - 1];
      Dedup(init, key) + if key(last) in Keys(init, key) then [] else [last]
  }

  ghost predicate DistinctKeys<E, K>(events: seq<E>, key: E -> K) {
    forall i, j | 0 <= i < j < |events| :: key(events[i]) != key(events[j])
  }

  /** What the first `n` bytes of the file owe. */
  function OwedUpTo<E, K>(s: Watch<E, K>, n: nat, setup: Setup<E, K>): seq<E>
    requires n <= |s.file|
  {
    Expected(s.file[..n], setup.w, setup.decode)
  }

  // ---------------------------------------------------------------- at most once, always

  ghost predicate OncePerKey<E, K>(s: Watch<E, K>, setup: Setup<E, K>) {
    DistinctKeys(s.projected, setup.key) && s.seen == Keys(s.projected, setup.key)
  }

  lemma KeysAppend<E, K>(a: seq<E>, b: seq<E>, key: E -> K)
    ensures Keys(a + b, key) == Keys(a, key) + Keys(b, key)
  {
  }

  /** No event key is projected twice, whatever the file, the decoder and the crashes. */
  lemma {:induction false} NoKeyTwice<E, K>(s: Watch<E, K>, steps: seq<Step>, setup: Setup<E, K>)
    requires OncePerKey(s, setup)
    ensures OncePerKey(Exec(s, steps, setup), setup)
    decreases steps
  {
    if steps != [] {
      var next := Apply(s, steps[0], setup);
      assert OncePerKey(next, setup) by {
        if next.projected != s.projected {
          var event := next.projected[|s.projected|];
          KeysAppend(s.projected, [event], setup.key);
          assert forall i | 0 <= i < |s.projected| :: setup.key(s.projected[i]) in s.seen;
        }
      }
      NoKeyTwice(next, steps[1..], setup);
    }
  }

  // ---------------------------------------------------------------- where a watcher can be

  /** Where a watcher can come to stand: at a line start or inside an overlong line, with no line
      behind it that makes a poll fail. */
  ghost predicate Placed<E>(file: Bytes, cur: Cursor, w: nat, decode: Bytes -> Decoded<E>) {
    Resumable(file, cur, w) && !Poisoned(file[..cur.offset], 0, w, decode)
  }

  ghost predicate AllPlaced<E, K>(s: Watch<E, K>, setup: Setup<E, K>) {
    && Placed(s.file, Cursor(s.persisted, false), setup.w, setup.decode)
    && (s.process.Running? ==> Placed(s.file, s.process.cur, setup.w, setup.decode))
  }

  /** A restart at `k` can take the rest of an overlong line, up to `e`, for a line that reads as a
      message. */
  ghost predicate TailReads<E>(file: Bytes, k: nat, e: nat, w: nat, decode: Bytes -> Decoded<E>) {
    && k < e <= |file| && e - k <= w && Tail(file[..k]) >= w
    && file[e - 1] == LF && NoLF(file[k..e - 1])
    && decode(file[k..e]).Message?
    && !Poisoned(file[..k], 0, w, decode)
  }

  ghost predicate NoTailReads<E>(file: Bytes, w: nat, decode: Bytes -> Decoded<E>) {
    forall k: nat, e: nat :: !TailReads(file, k, e, w, decode)
  }

  lemma TailReadsOfPart<E>(file: Bytes, n: nat, k: nat, e: nat, w: nat, decode: Bytes -> Decoded<E>)
    requires n <= |file| && TailReads(file[..n], k, e, w, decode)
    ensures TailReads(file, k, e, w, decode)
  {
    hide Tail, Poisoned;
    assert file[0..n] == file[..n] && file[..n][..k] == file[..k];
    SliceOfSlice(file, 0, n, k, e);
    SliceOfSlice(file, 0, n, k, e - 1);
  }

  lemma NoTailReadsInPart<E>(file: Bytes, n: nat, w: nat, decode: Bytes -> Decoded<E>)
    requires n <= |file| && NoTailReads(file, w, decode)
    ensures NoTailReads(file[..n], w, decode)
  {
    hide TailReads;
    forall k: nat, e: nat | TailReads(file[..n], k, e, w, decode)
      ensures TailReads(file, k, e, w, decode)
    {
      TailReadsOfPart(file, n, k, e, w, decode);
    }
  }

  /** Nothing stray is reported but where a tail reads as a message. */
  lemma StrayIsTail<E>(file: Bytes, cur: Cursor, w: nat, decode: Bytes -> Decoded<E>) returns (e: nat)
    requires w >= 1 && Placed(file, cur, w, decode) && Stray(file, cur, w, decode) != []
    ensures TailReads(file, cur.offset, e, w, decode)
    ensures Stray(file, cur, w, decode) == [decode(file[cur.offset..e]).event]
  {
    hide Tail, Poisoned, PollOnce;
    var data := Window(file, cur.offset, w);
    var i := FirstLF(data);
    e := cur.offset + i + 1;
    assert file[cur.offset..e] == data[..i + 1] && file[cur.offset..e - 1] == data[..i];
  }

  /** No line that makes polls fail lies behind a place. */
  lemma PoisonNotBehind<E>(file: Bytes, was: Cursor, w: nat, decode: Bytes -> Decoded<E>, k: nat, e: nat)
    requires Placed(file, was, w, decode) && Poison(file, k, e, w, decode)
    ensures was.offset <= k
  {
    hide Tail;
    assert file[0..was.offset] == file[..was.offset];
    if k < was.offset && e <= was.offset {
      PoisonInPart(file, 0, was.offset, k, e, w, decode);
    } else if k < was.offset {
      InsideFittingLine(file, was, w, decode, k, e);
    }
  }

  lemma InsideFittingLine<E>(file: Bytes, was: Cursor, w: nat, decode: Bytes -> Decoded<E>, k: nat, e: nat)
    requires Poison(file, k, e, w, decode) && k < was.offset < e
    ensures !Resumable(file, was, w)
  {
    var front, part := file[..k], file[k..was.offset];
    assert file[..was.offset] == front + part;
    assert forall j | 0 <= j < |part| :: part[j] == file[k..e - 1][j];
    TailAppend(front, part);
  }

  lemma PollStaysPlaced<E>(file: Bytes, was: Cursor, w: nat, decode: Bytes -> Decoded<E>)
    requires w >= 1 && NoCR(file) && Placed(file, was, w, decode)
    ensures Placed(file, PollOnce(file, was, w, decode).0, w, decode)
  {
    hide Tail, PollOnce, Poison, Expected;
    PollKeepsLog(file, was, w, decode);
    var next := PollOnce(file, was, w, decode).0;
    var done := file[..next.offset];
    if Poisoned(done, 0, w, decode) {
      var k: nat, e: nat :| Poison(done, k, e, w, decode);
      assert file[0..next.offset] == done && LineStart(file[..0]);
      PoisonAtLineStart(done, k, e, w, decode);
      PoisonOfPart(file, 0, next.offset, k, e, w, w, decode);
      PoisonNotBehind(file, was, w, decode, k, e);
      NeverPassesPoison(file, was, w, decode, k, e);
    }
  }

  // ---------------------------------------------------------------- exactly once, in order

  /** The invariant: `m` events of the report have been through the projector. */
  ghost predicate Sound<E, K>(s: Watch<E, K>, m: nat, setup: Setup<E, K>) {
    var all := Expected(s.file, setup.w, setup.decode);
    && m <= |all|
    && s.projected == Dedup(all[..m], setup.key)
    && s.seen == Keys(all[..m], setup.key)
    && AllPlaced(s, setup)
    && |OwedUpTo(s, s.persisted, setup)| <= m
    && (s.process.Running? ==> ProcessSound(s.process.phase, OwedUpTo(s, s.process.cur.offset, setup), m))
  }

  ghost predicate ProcessSound<E>(phase: Phase<E>, reported: seq<E>, m: nat) {
    match phase
    case Idle => |reported| <= m
    case Handling(pending) =>
      |pending| <= |reported| && pending == reported[|reported| - |pending|..] && |reported| - |pending| <= m
  }

  /** What has been reported of a part of the file stays reported, in the same places. */
  lemma ReportIsPrefix<E>(file: Bytes, n: nat, w: nat, decode: Bytes -> Decoded<E>)
    requires n <= |file| && NoCR(file)
    ensures Expected(file[..n], w, decode) <= Expected(file, w, decode)
  {
    hide Expected, Tail;
    var part := file[..n];
    HeadAndRest(part);
    ExpectedHead(part, w, decode);
    var rest := file[|Head(part)|..];
    assert file == Head(part) + rest;
    ExpectedAppend(Head(part), rest, w, decode);
  }

  lemma AppendSound<E, K>(s: Watch<E, K>, data: Bytes, m: nat, setup: Setup<E, K>)
    requires Sound(s, m, setup) && NoCR(s.file + data)
    ensures Sound(Apply(s, Append(data), setup), m, setup)
  {
    hide Expected, Tail, Dedup, Keys;
    var t := Apply(s, Append(data), setup);
    assert t.file[..|s.file|] == s.file;
    ReportIsPrefix(t.file, |s.file|, setup.w, setup.decode);
    var all, more := Expected(s.file, setup.w, setup.decode), Expected(t.file, setup.w, setup.decode);
    assert all[..m] == more[..m];
    assert forall n | 0 <= n <= |s.file| :: t.file[..n] == s.file[..n];
  }

  /** Where no tail reads as a message a placed watcher reports nothing stray. */
  lemma NothingStray<E>(file: Bytes, cur: Cursor, w: nat, decode: Bytes -> Decoded<E>)
    requires w >= 1 && NoCR(file) && Placed(file, cur, w, decode) && NoTailReads(file, w, decode)
    ensures LogKept(file, cur, w, decode) && Placed(file, PollOnce(file, cur, w, decode).0, w, decode)
  {
    hide Tail, PollOnce, TailReads, Poisoned, Expected, Stray, LogKept, LogKeptBut;
    PollKeepsLog(file, cur, w, decode);
    PollStaysPlaced(file, cur, w, decode);
    if Stray(file, cur, w, decode) != [] {
      var e := StrayIsTail(file, cur, w, decode);
    }
  }

  lemma PollSound<E, K>(s: Watch<E, K>, m: nat, setup: Setup<E, K>)
    requires Sound(s, m, setup) && setup.w >= 1 && NoCR(s.file) && NoTailReads(s.file, setup.w, setup.decode)
    ensures Sound(Apply(s, Poll, setup), m, setup)
  {
    hide Expected, Tail, Dedup, Keys, PollOnce, NoTailReads, Placed;
    if s.process.Running? && s.process.phase.Idle? {
      var (cur, out) := PollOnce(s.file, s.process.cur, setup.w, setup.decode);
      NothingStray(s.file, s.process.cur, setup.w, setup.decode);
      PlacedInside(s.file, s.process.cur, setup.w, setup.decode);
      var before, now := OwedUpTo(s, s.process.cur.offset, setup), OwedUpTo(s, cur.offset, setup);
      assert now == before + out.Events();
      assert now[|before|..] == out.Events();
    }
  }

  lemma PlacedInside<E>(file: Bytes, cur: Cursor, w: nat, decode: Bytes -> Decoded<E>)
    requires Placed(file, cur, w, decode)
    ensures cur.offset <= |file|
  {
  }

  lemma DedupAppend<E, K>(a: seq<E>, e: E, key: E -> K)
    ensures Dedup(a + [e], key) == Dedup(a, key) + if key(e) in Keys(a, key) then [] else [e]
    ensures Keys(a + [e], key) == Keys(a, key) + {key(e)}
  {
    assert (a + [e])[..|a|] == a;
    KeysAppend(a, [e], key);
  }

  lemma ProjectSound<E, K>(s: Watch<E, K>, m: nat, setup: Setup<E, K>) returns (m': nat)
    requires Sound(s, m, setup) && NoCR(s.file)
    requires s.process.Running? && s.process.phase.Handling? && s.process.phase.pending != []
    ensures Sound(Apply(s, Project, setup), m', setup)
  {
    hide Expected, Tail, Dedup, Keys;
    var all := Expected(s.file, setup.w, setup.decode);
    var reported := OwedUpTo(s, s.process.cur.offset, setup);
    ReportIsPrefix(s.file, s.process.cur.offset, setup.w, setup.decode);
    var pending := s.process.phase.pending;
    var j := |reported| - |pending|;
    assert pending[0] == all[j];
    assert pending[1..] == reported[j + 1..];
    if j == m {
      assert all[..m + 1] == all[..m] + [all[m]];
      DedupAppend(all[..m], all[m], setup.key);
      m' := m + 1;
      KnownKey(s.seen, setup.key(all[m]));
    } else {
      KeyIn(all[..m], j, setup.key);
      m' := m;
    }
  }

  lemma KeyIn<E, K>(events: seq<E>, j: nat, key: E -> K)
    requires j < |events|
    ensures key(events[j]) in Keys(events, key)
  {
  }

  lemma StepSound<E, K>(s: Watch<E, K>, step: Step, m: nat, setup: Setup<E, K>) returns (m': nat)
    requires Sound(s, m, setup) && setup.w >= 1
    requires NoCR(Apply(s, step, setup).file) && NoTailReads(Apply(s, step, setup).file, setup.w, setup.decode)
    ensures Sound(Apply(s, step, setup), m', setup)
  {
    hide Expected, Tail, Dedup, Keys, PollOnce, NoTailReads;
    m' := m;
    match step {
      case Append(data) => AppendSound(s, data, m, setup);
      case Poll => PollSound(s, m, setup);
      case Project =>
        if s.process.Running? && s.process.phase.Handling? && s.process.phase.pending != [] {
          m' := ProjectSound(s, m, setup);
        }
      case Start =>
      case Persist =>
      case Crash =>
    }
  }

  lemma {:induction false} FileGrows<E, K>(s: Watch<E, K>, steps: seq<Step>, setup: Setup<E, K>)
    ensures s.file <= Exec(s, steps, setup).file
    decreases steps
  {
    hide PollOnce;
    if steps != [] {
      FileGrows(Apply(s, steps[0], setup), steps[1..], setup);
    }
  }

  lemma {:induction false} RunSound<E, K>(s: Watch<E, K>, steps: seq<Step>, m: nat, setup: Setup<E, K>)
    returns (m': nat)
    requires Sound(s, m, setup) && setup.w >= 1
    requires NoCR(Exec(s, steps, setup).file) && NoTailReads(Exec(s, steps, setup).file, setup.w, setup.decode)
    ensures Sound(Exec(s, steps, setup), m', setup)
    decreases steps
  {
    hide Sound, Apply, NoTailReads;
    if steps == [] {
      m' := m;
    } else {
      var next := Apply(s, steps[0], setup);
      var last := Exec(s, steps, setup).file;
      FileGrows(next, steps[1..], setup);
      assert last[..|next.file|] == next.file;
      NoTailReadsInPart(last, |next.file|, setup.w, setup.decode);
      var m1 := StepSound(s, steps[0], m, setup);
      m' := RunSound(next, steps[1..], m1, setup);
    }
  }

  /** Exactly once across crashes. Whatever the interleaving of appends, polls, projections,
      crashes and restarts, what was projected is the file's report up to some event, without
      repeated keys and in file order; and that event lies at or behind the persisted cursor, so
      the cursor never passes a line whose event was not handed to the projector. */
  lemma ExactlyOnceAcrossCrashes<E, K>(file: Bytes, steps: seq<Step>, setup: Setup<E, K>)
    requires setup.w >= 1
    requires NoCR(Exec(Initial(file), steps, setup).file)
    requires NoTailReads(Exec(Initial(file), steps, setup).file, setup.w, setup.decode)
    ensures var s := Exec(Initial(file), steps, setup);
      var report := Expected(s.file, setup.w, setup.decode);
      && s.persisted <= |s.file|
      && DistinctKeys(s.projected, setup.key)
      && exists m: nat :: |OwedUpTo(s, s.persisted, setup)| <= m <= |report| && s.projected == Dedup(report[..m], setup.key)
  {
    hide Dedup, Tail, PollOnce, NoTailReads;
    var start: Watch<E, K> := Initial(file);
    assert file[..0] == [] && Expected([], setup.w, setup.decode) == [];
    var all := Expected(file, setup.w, setup.decode);
    assert all[..0] == [];
    assert Dedup([], setup.key) == [] by { DedupEmpty(setup.key); }
    assert Keys([], setup.key) == {};
    assert Sound(start, 0, setup);
    var m := RunSound(start, steps, 0, setup);
    NoKeyTwice(start, steps, setup);
  }

  lemma DedupEmpty<E, K>(key: E -> K)
    ensures Dedup([], key) == []
  {
  }

  /** A poll that begins at the last line of the file and finds it a message reports it. */
  lemma LastLineIsPolled<E>(p: Bytes, line: Bytes, w: nat, decode: Bytes -> Decoded<E>)
    requires OneLineOf(line) && line[|line| - 1] == LF && |line| <= w && decode(line).Message?
    ensures PollOnce(p + line, Cursor(|p|, false), w, decode) == (Cursor(|p + line|, false), Polled([decode(line).event]))
  {
    hide SplitLines, LineLength;
    assert Window(p + line, |p|, w) == line;
    OneLine(line);
    assert FirstLF(line) < |line| by { assert line[|line| - 1] == LF; }
    assert ScanLines([line], decode) == Scan(|line|, [decode(line).event], false) by {
      assert [line][1..] == [] && [decode(line).event] + [] == [decode(line).event];
    }
  }

  // ---------------------------------------------------------------- the command itself

  lemma {:induction false} ExecAppend<E, K>(s: Watch<E, K>, a: seq<Step>, b: seq<Step>, setup: Setup<E, K>)
    ensures Exec(s, a + b, setup) == Exec(Exec(s, a, setup), b, setup)
    decreases a
  {
    hide Apply;
    if a == [] {
      assert a + b == b;
    } else {
      assert (a + b)[1..] == a[1..] + b;
      ExecAppend(Apply(s, a[0], setup), a[1..], b, setup);
    }
  }

  lemma ExecOne<E, K>(s: Watch<E, K>, step: Step, setup: Setup<E, K>)
    ensures Exec(s, [step], setup) == Apply(s, step, setup)
  {
    assert [step][1..] == [];
  }

  lemma ExecStep<E, K>(s: Watch<E, K>, step: Step, next: Watch<E, K>, rest: seq<Step>, setup: Setup<E, K>)
    requires Apply(s, step, setup) == next
    ensures Exec(s, [step] + rest, setup) == Exec(next, rest, setup)
  {
    assert ([step] + rest)[1..] == rest;
  }

  /** The steps of one round that polls `n` events. */
  function Round(n: nat): seq<Step> {
    [Poll] + seq(n, _ => Project) + [Persist]
  }

  class WatchCommand<E, K(==)> {
    const watcher: RolloutWatcher<E>
    const key: E -> K
    var seen: set<K>
    var persistedOffset: nat
    var projected: seq<E>

    constructor (watcher: RolloutWatcher<E>, key: E -> K, seen: set<K>, persistedOffset: nat, projected: seq<E>)
      ensures this.watcher == watcher && this.key == key
      ensures this.seen == seen && this.persistedOffset == persistedOffset && this.projected == projected
    {
      this.watcher, this.key := watcher, key;
      this.seen, this.persistedOffset, this.projected := seen, persistedOffset, projected;
    }

    ghost function View(file: Bytes, phase: Phase<E>): Watch<E, K>
      reads this, watcher
    {
      Watch(file, persistedOffset, seen, projected, Running(watcher.State(), phase))
    }

    ghost function TheSetup(): Setup<E, K> {
      Setup(watcher.maxPollBytes, watcher.decode, key)
    }

    /** The projector with the store's test-and-set: a known key gives nothing. */
    method ProjectEvent(event: E) returns (projection: Option<E>)
      modifies this`seen, this`projected
      ensures projection == if key(event) in old(seen) then None else Some(event)
      ensures seen == old(seen) + {key(event)}
      ensures projected == old(projected) + if projection.Some? then [event] else []
    {
      if key(event) in seen {
        return None;
      }
      seen := seen + {key(event)};
      projected := projected + [event];
      return Some(event);
    }

    /** One round of the loop, undisturbed: a poll, one projection per event, then the cursor is
        persisted. If the poll raises, nothing of that happens. */
    method WatchRound(file: Bytes) returns (events: Outcome<E>)
      modifies this, watcher
      ensures events == PollOnce(file, old(watcher.State()), watcher.maxPollBytes, watcher.decode).1
      ensures events.Failed? ==> (seen, persistedOffset, projected) == old((seen, persistedOffset, projected))
      ensures events.Polled? ==>
        View(file, Idle) == Exec(old(View(file, Idle)), Round(|events.events|), TheSetup())
    {
      hide PollOnce;
      ghost var start := View(file, Idle);
      events := watcher.Poll(Some(file));
      if events.Failed? {
        return;
      }
      ghost var polled, setup := View(file, Handling(events.events)), TheSetup();
      assert Apply(start, Poll, setup) == polled;
      var i := 0;
      assert events.events[0..] == events.events;
      while i < |events.events|
        invariant 0 <= i <= |events.events|
        invariant watcher.State() == polled.process.cur && persistedOffset == start.persisted
        invariant Exec(polled, seq(i, _ => Project), setup) == View(file, Handling(events.events[i..]))
      {
        ghost var before := View(file, Handling(events.events[i..]));
        var projection := ProjectEvent(events.events[i]);
        KnownKey(before.seen, key(events.events[i]));
        assert events.events[i..][1..] == events.events[i + 1..];
        assert Apply(before, Project, setup) == View(file, Handling(events.events[i + 1..]));
        ExecAppend(polled, seq(i, _ => Project), [Project], setup);
        ExecOne(before, Project, setup);
        assert seq(i, _ => Project) + [Project] == seq(i + 1, _ => Project);
        i := i + 1;
      }
      ghost var handled := View(file, Handling([]));
      persistedOffset := watcher.byteOffset;
      ghost var n := |events.events|;
      assert events.events[n..] == [];
      assert Apply(handled, Persist, setup) == View(file, Idle);
      ExecOne(start, Poll, setup);
      ExecOne(handled, Persist, setup);
      ExecAppend(start, [Poll], seq(n, _ => Project), setup);
      ExecAppend(start, [Poll] + seq(n, _ => Project), [Persist], setup);
    }
  }

  lemma KnownKey<K>(seen: set<K>, k: K)
    ensures k in seen ==> seen + {k} == seen
  {
  }
}
