/** Runs of the watch command: what every run keeps, and runs of undisturbed rounds. */
module WatchRuns {
  import opened Common
  import opened Lines
  import opened Rollout
  import opened RolloutDrain
  import opened WatchLoop

  // ---------------------------------------------------------------- every run stays placed

  lemma StepPlaced<E, K>(s: Watch<E, K>, step: Step, setup: Setup<E, K>)
    requires setup.w >= 1 && AllPlaced(s, setup) && NoCR(Apply(s, step, setup).file)
    ensures AllPlaced(Apply(s, step, setup), setup)
  {
    hide Tail, PollOnce, Poisoned;
    match step {
      case Append(data) =>
        assert forall n | 0 <= n <= |s.file| :: (s.file + data)[..n] == s.file[..n];
      case Poll =>
        if s.process.Running? && s.process.phase.Idle? {
          PollStaysPlaced(s.file, s.process.cur, setup.w, setup.decode);
        }
      case Start =>
      case Project =>
      case Persist =>
      case Crash =>
    }
  }

  lemma InitialPlaced<E, K>(file: Bytes, setup: Setup<E, K>)
    ensures AllPlaced(Initial(file), setup)
  {
    assert file[..0] == [];
  }

  lemma {:induction false} RunPlaced<E, K>(s: Watch<E, K>, steps: seq<Step>, setup: Setup<E, K>)
    requires setup.w >= 1 && AllPlaced(s, setup) && NoCR(Exec(s, steps, setup).file)
    ensures AllPlaced(Exec(s, steps, setup), setup)
    decreases steps
  {
    hide AllPlaced, Apply;
    if steps != [] {
      FileGrows(Apply(s, steps[0], setup), steps[1..], setup);
      NoCRPrefix(Apply(s, steps[0], setup).file, Exec(s, steps, setup).file);
      StepPlaced(s, steps[0], setup);
      RunPlaced(Apply(s, steps[0], setup), steps[1..], setup);
    }
  }

  lemma NoCRPrefix(part: Bytes, file: Bytes)
    requires part <= file && NoCR(file)
    ensures NoCR(part)
  {
  }

  // ---------------------------------------------------------------- undisturbed rounds

  /** What the store holds when the events have been handed to the projector. */
  function Handed<E, K>(seen: set<K>, projected: seq<E>, events: seq<E>, key: E -> K): (set<K>, seq<E>)
    decreases |events|
  {
    if events == [] then (seen, projected)
    else if key(events[0]) in seen then Handed(seen, projected, events[1..], key)
    else Handed(seen + {key(events[0])}, projected + [events[0]], events[1..], key)
  }

  lemma {:induction false} HandedAppend<E, K>(seen: set<K>, projected: seq<E>, a: seq<E>, b: seq<E>, key: E -> K)
    ensures var (s, p) := Handed(seen, projected, a, key);
      Handed(seen, projected, a + b, key) == Handed(s, p, b, key)
    decreases |a|
  {
    if a == [] {
      assert a + b == b;
    } else {
      assert (a + b)[1..] == a[1..] + b && (a + b)[0] == a[0];
      if key(a[0]) in seen {
        HandedAppend(seen, projected, a[1..], b, key);
      } else {
        HandedAppend(seen + {key(a[0])}, projected + [a[0]], a[1..], b, key);
      }
    }
  }

  function AllHanded<E, K>(s: Watch<E, K>, events: seq<E>, setup: Setup<E, K>): Watch<E, K> {
    var (seen, projected) := Handed(s.seen, s.projected, events, setup.key);
    s.(seen := seen, projected := projected)
  }

  /** All pending events are handed over. */
  lemma {:induction false} ProjectPending<E, K>(s: Watch<E, K>, pending: seq<E>, setup: Setup<E, K>)
    requires s.process.Running? && s.process.phase == Handling(pending)
    ensures Exec(s, seq(|pending|, _ => Project), setup)
      == AllHanded(s, pending, setup).(process := Running(s.process.cur, Handling([])))
    decreases |pending|
  {
    hide PollOnce;
    var steps := seq(|pending|, _ => Project);
    if pending != [] {
      var t := Apply(s, Project, setup);
      assert steps[1..] == seq(|pending[1..]|, _ => Project);
      ProjectPending(t, pending[1..], setup);
    }
  }

  /** One undisturbed round whose poll succeeds. */
  lemma RoundRun<E, K>(s: Watch<E, K>, setup: Setup<E, K>)
    requires s.process.Running? && s.process.phase.Idle?
    requires PollOnce(s.file, s.process.cur, setup.w, setup.decode).1.Polled?
    ensures var (cur, out) := PollOnce(s.file, s.process.cur, setup.w, setup.decode);
      Exec(s, Round(|out.events|), setup)
        == AllHanded(s, out.events, setup).(persisted := cur.offset, process := Running(cur, Idle))
  {
    hide PollOnce, Exec, Handed;
    var (cur, out) := PollOnce(s.file, s.process.cur, setup.w, setup.decode);
    var polled := Apply(s, Poll, setup);
    ProjectPending(polled, out.events, setup);
    var handling := seq(|out.events|, _ => Project);
    var handled := Exec(polled, handling, setup);
    ExecOne(s, Poll, setup);
    ExecOne(handled, Persist, setup);
    ExecAppend(s, [Poll], handling, setup);
    ExecAppend(s, [Poll] + handling, [Persist], setup);
  }

  /** The command behind `n` undisturbed rounds. */
  function Caught<E, K>(s: Watch<E, K>, n: nat, setup: Setup<E, K>): Watch<E, K>
    requires s.process.Running?
  {
    var d := Polls(s.file, s.process.cur, n, setup.w, setup.decode);
    AllHanded(s, d.events, setup).(persisted := d.cur.offset, process := Running(d.cur, Idle))
  }

  /** On a file in which nothing ahead makes polls fail, rounds can follow each other. */
  lemma {:induction false} RoundsRun<E, K>(s: Watch<E, K>, n: nat, setup: Setup<E, K>) returns (steps: seq<Step>)
    requires setup.w >= 1 && NoCR(s.file) && s.process.Running? && s.process.phase.Idle?
    requires Resumable(s.file, s.process.cur, setup.w) && s.persisted == s.process.cur.offset
    requires !Blocked(s.file, s.process.cur, setup.w, setup.decode)
    ensures Exec(s, steps, setup) == Caught(s, n, setup)
    decreases n
  {
    hide PollOnce, Apply, Blocked, Resumable, Handed;
    steps := [];
    if n == 0 {
      var nothing: seq<E> := [];
      HandedNone(s.seen, s.projected, setup.key);
      ExecNone(s, setup);
    } else {
      PollWhenClean(s.file, s.process.cur, setup.w, setup.decode);
      RoundRun(s, setup);
      var (cur, out) := PollOnce(s.file, s.process.cur, setup.w, setup.decode);
      var t := AllHanded(s, out.events, setup).(persisted := cur.offset, process := Running(cur, Idle));
      var rest := RoundsRun(t, n - 1, setup);
      HandedAppend(s.seen, s.projected, out.events, Polls(s.file, cur, n - 1, setup.w, setup.decode).events, setup.key);
      ExecAppend(s, Round(|out.events|), rest, setup);
      steps := Round(|out.events|) + rest;
    }
  }

  lemma HandedNone<E, K>(seen: set<K>, projected: seq<E>, key: E -> K)
    ensures Handed(seen, projected, [], key) == (seen, projected)
  {
  }

  lemma ExecNone<E, K>(s: Watch<E, K>, setup: Setup<E, K>)
    ensures Exec(s, [], setup) == s
  {
  }

  // ---------------------------------------------------------------- what has been projected

  /** The events have been handed to the projector, and nothing else. */
  ghost predicate Projected<E, K>(s: Watch<E, K>, events: seq<E>, setup: Setup<E, K>) {
    s.projected == Dedup(events, setup.key) && s.seen == Keys(events, setup.key)
  }

  lemma SameProjected<E, K>(s: Watch<E, K>, t: Watch<E, K>, events: seq<E>, setup: Setup<E, K>)
    requires Projected(s, events, setup) && t.projected == s.projected && t.seen == s.seen
    ensures Projected(t, events, setup)
  {
  }

  lemma ProjectOne<E, K>(s: Watch<E, K>, events: seq<E>, event: E, setup: Setup<E, K>)
    requires Projected(s, events, setup)
    ensures Projected(ProjectEvent(s, event, setup), events + [event], setup)
  {
    hide Dedup, Keys;
    DedupAppend(events, event, setup.key);
    KnownKey(s.seen, setup.key(event));
  }

  lemma {:induction false} HandedProjects<E, K>(s: Watch<E, K>, before: seq<E>, events: seq<E>, setup: Setup<E, K>)
    requires Projected(s, before, setup)
    ensures Projected(AllHanded(s, events, setup), before + events, setup)
    decreases |events|
  {
    hide Projected;
    if events == [] {
      assert before + events == before;
      SameProjected(s, AllHanded(s, events, setup), before, setup);
    } else {
      var t := ProjectEvent(s, events[0], setup);
      ProjectOne(s, before, events[0], setup);
      HandedProjects(t, before + [events[0]], events[1..], setup);
      assert before + [events[0]] + events[1..] == before + events;
      SameProjected(AllHanded(t, events[1..], setup), AllHanded(s, events, setup), before + events, setup);
    }
  }
}
