/**
 Concurrent `send_message` and `update_thread_settings` calls on one thread: who writes it.
 A step is one lease, store or app-server operation of one call; the steps of all calls, the
 clock and the heartbeats interleave, and an exception can strike in any step that can fail.
 */
module Ownership {
  import opened Common
  import opened Lease

  /** Where a call is. `Begin` to `Enter` lead to the in-process acquisition, `Storing` to `Turn`
      are the guarded body, and `Leaving` to `Releasing` are its clean-up. `Leaked` is an update
      refused by the in-process lease, which leaves without releasing the durable one. */
  datatype Place =
    | Begin | Acquiring | Heartbeat | Reading | Enter
    | Storing | Body | Rejected | Resumed | Turn
    | Leaving | Closing(seen: LeaseState) | Cleared(seen: LeaseState) | Releasing
    | Done | Leaked

  datatype Call = Call(kind: Kind, place: Place, lease: Option<nat>)

  /** `storeOk` and `releaseOk`: no store write, and no durable release, has failed so far. */
  datatype State = State(
    inproc: LeaseState,
    stored: LeaseState,
    durable: Durable,
    clock: int,
    calls: seq<Call>,
    storeOk: bool,
    releaseOk: bool)

  datatype Step =
    | New(kind: Kind)
    | Check(c: nat)
    | AcquireDurable(c: nat, works: bool)
    | StartHeartbeat(c: nat, works: bool)
    | ReadState(c: nat)
    | AcquireInProcess(c: nat)
    | StoreActive(c: nat, works: bool)
    | Reject(c: nat)
    | StoreExternal(c: nat, works: bool)
    | Resume(c: nat)
    | Recover(c: nat)
    | Progress(c: nat, works: bool)
    | Leave(c: nat)
    | ReadFinal(c: nat)
    | Clear(c: nat, works: bool)
    | ReleaseInProcess(c: nat)
    | ReleaseDurable(c: nat, works: bool)
    | Beat(c: nat)
    | Tick(n: nat)

  predicate At(s: State, c: nat, place: Place) {
    c < |s.calls| && s.calls[c].place == place
  }

  function Move(s: State, c: nat, place: Place): State
    requires c < |s.calls|
  {
    s.(calls := s.calls[c := s.calls[c].(place := place)])
  }

  function Store(s: State, works: bool, state: LeaseState): State {
    if works then s.(stored := state) else s.(storeOk := false)
  }

  /** What the clean-up writes: a thread this call had active becomes idle. */
  function AfterClear(seen: LeaseState): LeaseState {
    if seen == CfrActive then Idle else seen
  }

  function Apply(s: State, step: Step): State {
    match step
    case New(kind) => s.(calls := s.calls + [Call(kind, Begin, None)])
    case Check(c) =>
      if At(s, c, Begin) then
        Move(s, c, if s.calls[c].kind.Update? && s.inproc == ExternalActive then Done else Acquiring)
      else s
    case AcquireDurable(c, works) =>
      if At(s, c, Acquiring) then
        if works && s.durable.Free(s.clock, true) then
          var granted := s.durable.Grant(s.clock, TTL);
          s.(durable := granted,
             calls := s.calls[c := s.calls[c].(place := Heartbeat, lease := Some(granted.generation))])
        else Move(s, c, Done)
      else s
    case StartHeartbeat(c, works) =>
      if At(s, c, Heartbeat) then
        Move(s, c, if !works then Releasing else if s.calls[c].kind.Send? then Reading else Enter)
      else s
    case ReadState(c) =>
      if At(s, c, Reading) then Move(s, c, if s.inproc == ExternalActive then Storing else Enter) else s
    case AcquireInProcess(c) =>
      if At(s, c, Enter) then
        if s.inproc == Idle then Move(s.(inproc := CfrActive), c, Storing)
        else Move(s, c, if s.calls[c].kind.Send? then Releasing else Leaked)
      else s
    case StoreActive(c, works) =>
      if At(s, c, Storing) then Move(Store(s, works, CfrActive), c, Body) else s
    case Reject(c) =>
      if At(s, c, Body) then Move(s.(inproc := ExternalActive), c, Rejected) else s
    case StoreExternal(c, works) =>
      if At(s, c, Rejected) then Move(Store(s, works, ExternalActive), c, Leaving) else s
    case Resume(c) =>
      if At(s, c, Body) then Move(s, c, Resumed) else s
    case Recover(c) =>
      if At(s, c, Resumed) then
        Move(if s.inproc == ExternalActive then s.(inproc := CfrActive) else s, c, Turn)
      else s
    case Progress(c, works) =>
      if At(s, c, Turn) then Store(s, works, CfrActive) else s
    case Leave(c) =>
      if At(s, c, Body) || At(s, c, Resumed) || At(s, c, Turn) then Move(s, c, Leaving) else s
    case ReadFinal(c) =>
      if At(s, c, Leaving) then Move(s, c, Closing(s.inproc)) else s
    case Clear(c, works) =>
      if c < |s.calls| && s.calls[c].place.Closing? then
        var seen := s.calls[c].place.seen;
        Move(Store(s, works, AfterClear(seen)), c, Cleared(seen))
      else s
    case ReleaseInProcess(c) =>
      if c < |s.calls| && s.calls[c].place.Cleared? then
        Move(if s.calls[c].place.seen == CfrActive then s.(inproc := Idle) else s, c, Releasing)
      else s
    case ReleaseDurable(c, works) =>
      if At(s, c, Releasing) then
        var released := works && s.calls[c].lease.Some? && s.durable.Holds(s.calls[c].lease.value);
        Move(if released then s.(durable := s.durable.(row := None)) else s.(releaseOk := false), c, Done)
      else s
    case Beat(c) =>
      if c < |s.calls| && s.calls[c].lease.Some? && s.durable.Holds(s.calls[c].lease.value) then
        s.(durable := s.durable.Beat(s.clock, TTL))
      else s
    case Tick(n) => s.(clock := s.clock + n)
  }

  function Exec(s: State, steps: seq<Step>): State
    decreases steps
  {
    if steps == [] then s else Exec(Apply(s, steps[0]), steps[1..])
  }

  const INITIAL := State(Idle, Idle, Durable(None, 0), 0, [], true, true)

  // ---------------------------------------------------------------- hypothesis: exclusive while held

  /** The call has been granted the durable lease and has not tried to release it. */
  predicate Holding(call: Call) {
    !call.place.Begin? && !call.place.Acquiring? && !call.place.Done? && !call.place.Leaked?
  }

  /** Between the in-process acquisition (or its by-pass) and the in-process release. */
  predicate Inside(call: Call) {
    Holding(call) && !call.place.Heartbeat? && !call.place.Reading? && !call.place.Enter? && !call.place.Releasing?
  }

  /** The lease of every call that holds one is in the row and unexpired. */
  predicate HeldIsLive(s: State) {
    forall c | 0 <= c < |s.calls| && Holding(s.calls[c]) && s.durable.row.Some? :: s.clock < s.durable.row.value.expires
  }

  /** The step grants the durable lease. */
  predicate Grants(s: State, step: Step) {
    step.AcquireDurable? && step.works && At(s, step.c, Acquiring) && s.durable.Free(s.clock, true)
  }

  /** The heartbeats of running calls are in time whenever somebody is granted the lease. */
  ghost predicate Timely(s: State, steps: seq<Step>)
    decreases steps
  {
    steps != [] ==> (Grants(s, steps[0]) ==> HeldIsLive(s)) && Timely(Apply(s, steps[0]), steps[1..])
  }

  // ---------------------------------------------------------------- invariant

  predicate Resting(inproc: LeaseState) {
    inproc == Idle || inproc == ExternalActive
  }

  /** What holds of the shared state while a call stands at its place with the lease. */
  predicate PlaceFits(s: State, call: Call) {
    match call.place
    case Heartbeat => Resting(s.inproc) && (s.storeOk ==> s.stored == s.inproc)
    case Reading => call.kind.Send? && Resting(s.inproc) && (s.storeOk ==> s.stored == s.inproc)
    case Enter => Resting(s.inproc) && (s.storeOk ==> s.stored == s.inproc) && (call.kind.Send? ==> s.inproc == Idle)
    case Storing => Taken(s.inproc) && (call.kind.Update? ==> s.inproc == CfrActive)
    case Body => Taken(s.inproc) && (call.kind.Update? ==> s.inproc == CfrActive) && (s.storeOk ==> s.stored == CfrActive)
    case Resumed => Taken(s.inproc) && (call.kind.Update? ==> s.inproc == CfrActive) && (s.storeOk ==> s.stored == CfrActive)
    case Rejected => s.inproc == ExternalActive && (s.storeOk ==> s.stored == CfrActive)
    case Turn => s.inproc == CfrActive && (s.storeOk ==> s.stored == CfrActive)
    case Leaving => Taken(s.inproc)
    case Closing(seen) => Taken(s.inproc) && seen == s.inproc
    case Cleared(seen) => Taken(s.inproc) && seen == s.inproc && (s.storeOk ==> s.stored == AfterClear(seen))
    case Releasing => Resting(s.inproc) && (s.storeOk ==> s.stored == s.inproc)
    case _ => true
  }

  predicate HolderFits(s: State, call: Call) {
    Holding(call) ==> call.lease.Some? && s.durable.Holds(call.lease.value) && PlaceFits(s, call)
  }

  predicate LeasesDistinct(s: State) {
    && (forall c | 0 <= c < |s.calls| && s.calls[c].lease.Some? :: s.calls[c].lease.value <= s.durable.generation)
    && (forall c, d | 0 <= c < d < |s.calls| && s.calls[c].lease.Some? && s.calls[d].lease.Some? ::
          s.calls[c].lease != s.calls[d].lease)
    && (s.durable.row.Some? ==> s.durable.row.value.generation <= s.durable.generation)
  }

  predicate RowExplained(s: State) {
    s.releaseOk && s.durable.row.Some? ==>
      exists c :: 0 <= c < |s.calls| && (Holding(s.calls[c]) || s.calls[c].place.Leaked?)
               && s.calls[c].lease == Some(s.durable.row.value.generation)
  }

  predicate Quiet(s: State) {
    forall c | 0 <= c < |s.calls| :: !Holding(s.calls[c])
  }

  predicate Owned(s: State) {
    && (forall c | 0 <= c < |s.calls| :: HolderFits(s, s.calls[c]))
    && LeasesDistinct(s)
    && RowExplained(s)
    && (Quiet(s) ==> Resting(s.inproc) && (s.storeOk ==> s.stored == s.inproc))
  }

  /** At most one call holds the lease. */
  lemma OneHolder(s: State, c: nat, d: nat)
    requires Owned(s) && c < |s.calls| && d < |s.calls| && Holding(s.calls[c]) && Holding(s.calls[d])
    ensures c == d
  {
    assert HolderFits(s, s.calls[c]) && HolderFits(s, s.calls[d]);
  }

  // ---------------------------------------------------------------- every step

  /** The holder moves on within its section; the row keeps its generation. */
  lemma HolderMoves(s: State, r: State, c: nat)
    requires Owned(s) && c < |s.calls| && Holding(s.calls[c])
    requires |r.calls| == |s.calls| && r.calls == s.calls[c := r.calls[c]] && r.calls[c].lease == s.calls[c].lease
    requires r.durable == s.durable && (r.releaseOk ==> s.releaseOk)
    requires Holding(r.calls[c]) && PlaceFits(r, r.calls[c])
    ensures Owned(r)
  {
    forall d | 0 <= d < |r.calls|
      ensures HolderFits(r, r.calls[d])
    {
      assert HolderFits(s, s.calls[d]);
      if d != c && Holding(s.calls[d]) {
        OneHolder(s, c, d);
      }
    }
    if r.releaseOk && r.durable.row.Some? {
      assert HolderFits(s, s.calls[c]);
      assert r.calls[c].lease == Some(r.durable.row.value.generation);
    }
    assert LeasesDistinct(r);
  }

  /** The holder finishes: it released the lease, failed to, or leaked it. */
  lemma HolderLeaves(s: State, r: State, c: nat)
    requires Owned(s) && c < |s.calls| && Holding(s.calls[c])
    requires |r.calls| == |s.calls| && r.calls == s.calls[c := r.calls[c]] && r.calls[c].lease == s.calls[c].lease
    requires r.durable.generation == s.durable.generation && !Holding(r.calls[c])
    requires r.durable == s.durable || r.durable.row.None?
    requires r.releaseOk && r.durable.row.Some? ==> r.calls[c].place.Leaked?
    requires Resting(r.inproc) && (r.storeOk ==> r.stored == r.inproc)
    ensures Owned(r)
  {
    forall d | 0 <= d < |r.calls|
      ensures HolderFits(r, r.calls[d])
    {
      assert HolderFits(s, s.calls[d]);
      if d != c && Holding(s.calls[d]) {
        OneHolder(s, c, d);
      }
    }
    assert HolderFits(s, s.calls[c]);
    assert LeasesDistinct(r);
  }

  /** A call without the lease moves on without it, or the row is refreshed. */
  lemma OthersMove(s: State, r: State)
    requires Owned(s)
    requires r.inproc == s.inproc && r.stored == s.stored && r.storeOk == s.storeOk && r.releaseOk == s.releaseOk
    requires r.durable.generation == s.durable.generation && r.durable.row.Some? == s.durable.row.Some?
    requires r.durable.row.Some? ==> r.durable.row.value.generation == s.durable.row.value.generation
    requires |s.calls| <= |r.calls|
    requires forall c | 0 <= c < |r.calls| ::
      if c < |s.calls| && (Holding(s.calls[c]) || s.calls[c].lease.Some?) then r.calls[c] == s.calls[c]
      else !Holding(r.calls[c]) && r.calls[c].lease.None?
    ensures Owned(r)
  {
    forall c | 0 <= c < |r.calls|
      ensures HolderFits(r, r.calls[c])
    {
      assert c < |s.calls| ==> HolderFits(s, s.calls[c]);
    }
    if Quiet(r) {
      forall c | 0 <= c < |s.calls|
        ensures !Holding(s.calls[c])
      {
        assert !Holding(r.calls[c]);
      }
    }
    if r.releaseOk && r.durable.row.Some? {
      var c :| 0 <= c < |s.calls| && (Holding(s.calls[c]) || s.calls[c].place.Leaked?)
        && s.calls[c].lease == Some(s.durable.row.value.generation);
      assert r.calls[c] == s.calls[c];
    }
    assert LeasesDistinct(r);
  }

  lemma GrantOwned(s: State, c: nat)
    requires Owned(s) && HeldIsLive(s) && At(s, c, Acquiring) && s.durable.Free(s.clock, true)
    requires s.calls[c].lease.None?
    ensures Owned(Apply(s, AcquireDurable(c, true)))
  {
    var r := Apply(s, AcquireDurable(c, true));
    forall d | 0 <= d < |s.calls|
      ensures !Holding(s.calls[d])
    {
      assert HolderFits(s, s.calls[d]);
    }
    assert Quiet(s);
    forall d | 0 <= d < |r.calls|
      ensures HolderFits(r, r.calls[d])
    {
    }
    assert r.calls[c].lease == Some(r.durable.row.value.generation) && Holding(r.calls[c]);
    assert LeasesDistinct(r);
  }

  /** Calls that have not reached the durable lease have none. */
  predicate NoneYet(s: State) {
    forall c | 0 <= c < |s.calls| && (s.calls[c].place.Begin? || s.calls[c].place.Acquiring?) :: s.calls[c].lease.None?
  }

  /** How a step can move a call: it keeps its kind, no call goes back to the beginning, and only
      an update leaks its lease, and is over then. */
  predicate Advances(a: Call, b: Call) {
    && b.kind == a.kind
    && (b.place.Begin? || b.place.Acquiring? ==> b == a || (a.place.Begin? && b.lease == a.lease))
    && (b.place.Leaked? ==> b == a || b.kind.Update?)
    && (a.place.Leaked? ==> b == a)
  }

  predicate Touches(s: State, r: State, c: nat) {
    c < |s.calls| == |r.calls| && r.calls == s.calls[c := r.calls[c]] && Advances(s.calls[c], r.calls[c])
  }

  /** The call a step belongs to. */
  function Actor(step: Step): nat {
    if step.New? || step.Tick? then 0 else step.c
  }

  predicate IsEarly(step: Step) {
    step.Check? || step.AcquireDurable? || step.StartHeartbeat? || step.ReadState? || step.AcquireInProcess?
  }

  predicate IsLate(step: Step) {
    step.ReadFinal? || step.Clear? || step.ReleaseInProcess? || step.ReleaseDurable?
  }

  lemma EarlyTouches(s: State, step: Step)
    requires IsEarly(step)
    ensures Apply(s, step).calls == s.calls || Touches(s, Apply(s, step), Actor(step))
  {
  }

  lemma LateTouches(s: State, step: Step)
    requires IsLate(step)
    ensures Apply(s, step).calls == s.calls || Touches(s, Apply(s, step), Actor(step))
  {
    hide AfterClear;
  }

  predicate IsWriting(step: Step) {
    step.StoreActive? || step.StoreExternal? || step.Progress?
  }

  lemma WritingTouches(s: State, step: Step)
    requires IsWriting(step)
    ensures Apply(s, step).calls == s.calls || Touches(s, Apply(s, step), Actor(step))
  {
  }

  lemma InnerTouches(s: State, step: Step)
    requires !step.New? && !IsEarly(step) && !IsLate(step) && !IsWriting(step)
    ensures Apply(s, step).calls == s.calls || Touches(s, Apply(s, step), Actor(step))
  {
    hide Store, AfterClear;
  }

  /** A step moves no call but its own. */
  lemma StepTouches(s: State, step: Step)
    requires !step.New?
    ensures Apply(s, step).calls == s.calls || Touches(s, Apply(s, step), Actor(step))
  {
    hide Apply, Touches;
    if IsEarly(step) {
      EarlyTouches(s, step);
    } else if IsLate(step) {
      LateTouches(s, step);
    } else if IsWriting(step) {
      WritingTouches(s, step);
    } else {
      InnerTouches(s, step);
    }
  }

  lemma StepNoneYet(s: State, step: Step)
    requires NoneYet(s)
    ensures NoneYet(Apply(s, step))
  {
    if !step.New? {
      hide Apply;
      StepTouches(s, step);
    }
  }

  /** A step of the call at `c` that only that call and the shared state take part in. */
  predicate StepOf(s: State, step: Step, c: nat) {
    c < |s.calls| && Holding(s.calls[c])
      && match step
         case StartHeartbeat(d, _) => c == d && At(s, c, Heartbeat)
         case ReadState(d) => c == d && At(s, c, Reading)
         case AcquireInProcess(d) => c == d && At(s, c, Enter) && (s.inproc == Idle || s.calls[c].kind.Send?)
         case StoreActive(d, _) => c == d && At(s, c, Storing)
         case Reject(d) => c == d && At(s, c, Body)
         case StoreExternal(d, _) => c == d && At(s, c, Rejected)
         case Resume(d) => c == d && At(s, c, Body)
         case Recover(d) => c == d && At(s, c, Resumed)
         case Progress(d, _) => c == d && At(s, c, Turn)
         case Leave(d) => c == d && (At(s, c, Body) || At(s, c, Resumed) || At(s, c, Turn))
         case ReadFinal(d) => c == d && At(s, c, Leaving)
         case Clear(d, _) => c == d && s.calls[c].place.Closing?
         case ReleaseInProcess(d) => c == d && s.calls[c].place.Cleared?
         case _ => false
  }

  /** The step leaves the call the holder, at a place that fits. */
  predicate StaysHolder(s: State, r: State, c: nat) {
    && c < |s.calls| == |r.calls| && r.calls == s.calls[c := r.calls[c]] && r.calls[c].lease == s.calls[c].lease
    && r.durable == s.durable && r.releaseOk == s.releaseOk
    && Holding(r.calls[c]) && PlaceFits(r, r.calls[c])
  }

  lemma EntryStepFits(s: State, step: Step, c: nat)
    requires StepOf(s, step, c) && PlaceFits(s, s.calls[c])
    requires step.StartHeartbeat? || step.ReadState? || step.AcquireInProcess? || step.StoreActive? || step.Reject?
    ensures StaysHolder(s, Apply(s, step), c)
  {
  }

  lemma BodyStepFits(s: State, step: Step, c: nat)
    requires StepOf(s, step, c) && PlaceFits(s, s.calls[c])
    requires step.StoreExternal? || step.Resume? || step.Recover? || step.Progress? || step.Leave?
    ensures StaysHolder(s, Apply(s, step), c)
  {
    assert s.calls == s.calls[c := s.calls[c]];
  }

  lemma CleanUpStepFits(s: State, step: Step, c: nat)
    requires StepOf(s, step, c) && PlaceFits(s, s.calls[c])
    requires step.ReadFinal? || step.Clear? || step.ReleaseInProcess?
    ensures StaysHolder(s, Apply(s, step), c)
  {
  }

  lemma HolderStepFits(s: State, step: Step, c: nat)
    requires StepOf(s, step, c) && PlaceFits(s, s.calls[c])
    ensures StaysHolder(s, Apply(s, step), c)
  {
    hide StaysHolder, PlaceFits, Apply;
    if step.StartHeartbeat? || step.ReadState? || step.AcquireInProcess? || step.StoreActive? || step.Reject? {
      EntryStepFits(s, step, c);
    } else if step.StoreExternal? || step.Resume? || step.Recover? || step.Progress? || step.Leave? {
      BodyStepFits(s, step, c);
    } else {
      CleanUpStepFits(s, step, c);
    }
  }

  /** A step of a call without the lease, or one that only touches the clock or the row. */
  lemma OuterStepOwned(s: State, step: Step)
    requires Owned(s) && NoneYet(s)
    requires step.New? || step.Tick? || step.Beat? || step.Check?
      || (step.AcquireDurable? && !(step.works && s.durable.Free(s.clock, true)))
    ensures Owned(Apply(s, step))
  {
    hide Owned;
    OthersMove(s, Apply(s, step));
  }

  lemma LastStepOwned(s: State, step: Step, c: nat)
    requires Owned(s) && c < |s.calls|
    requires || (step.ReleaseDurable? && step.c == c && At(s, c, Releasing))
             || (step == AcquireInProcess(c) && At(s, c, Enter) && s.inproc != Idle && s.calls[c].kind.Update?)
    ensures Owned(Apply(s, step))
  {
    assert HolderFits(s, s.calls[c]);
    hide Owned;
    HolderLeaves(s, Apply(s, step), c);
  }

  lemma StepOwned(s: State, step: Step)
    requires Owned(s) && NoneYet(s) && (Grants(s, step) ==> HeldIsLive(s))
    ensures Owned(Apply(s, step))
  {
    var c := Actor(step);
    if StepOf(s, step, c) {
      assert HolderFits(s, s.calls[c]);
      hide Owned;
      HolderStepFits(s, step, c);
      HolderMoves(s, Apply(s, step), c);
    } else {
      hide Owned;
      if step.New? || step.Tick? || step.Beat? || step.Check? {
        OuterStepOwned(s, step);
      } else if step.AcquireDurable? {
        if step.works && s.durable.Free(s.clock, true) && At(s, c, Acquiring) {
          GrantOwned(s, c);
        } else if step.works && s.durable.Free(s.clock, true) {
          assert Apply(s, step) == s;
        } else {
          OuterStepOwned(s, step);
        }
      } else if (step.ReleaseDurable? && At(s, c, Releasing))
        || (step.AcquireInProcess? && At(s, c, Enter) && s.inproc != Idle && s.calls[c].kind.Update?) {
        LastStepOwned(s, step, c);
      } else {
        assert Apply(s, step) == s;
      }
    }
  }

  lemma {:induction false} RunOwned(s: State, steps: seq<Step>)
    requires Owned(s) && NoneYet(s) && Timely(s, steps)
    ensures Owned(Exec(s, steps)) && NoneYet(Exec(s, steps))
    decreases steps
  {
    hide Owned, NoneYet, Apply;
    if steps != [] {
      StepOwned(s, steps[0]);
      StepNoneYet(s, steps[0]);
      RunOwned(Apply(s, steps[0]), steps[1..]);
    }
  }

  /** Single writer. While heartbeats are in time, in every reachable state at most one call is
      between acquisition and release; idle means that none is; active means that exactly one is.
      If the store accepted its writes, it says active while a turn is run, and the in-process state
      when every call has finished. */
  lemma SingleWriter(steps: seq<Step>)
    requires Timely(INITIAL, steps)
    ensures var s := Exec(INITIAL, steps);
      && (forall c, d | 0 <= c < d < |s.calls| :: !(Holding(s.calls[c]) && Holding(s.calls[d])))
      && (s.inproc == Idle ==> forall c | 0 <= c < |s.calls| :: !Inside(s.calls[c]))
      && (s.inproc == CfrActive ==> exists c :: 0 <= c < |s.calls| && Inside(s.calls[c]))
      && s.inproc != Unknown
      && (forall c | 0 <= c < |s.calls| && s.calls[c].place.Turn? ::
            s.inproc == CfrActive && (s.storeOk ==> s.stored == CfrActive))
      && (Quiet(s) && s.storeOk ==> s.stored == s.inproc)
  {
    RunOwned(INITIAL, steps);
    var s := Exec(INITIAL, steps);
    forall c: nat, d: nat | c < d < |s.calls| && Holding(s.calls[c]) && Holding(s.calls[d])
      ensures false
    {
      OneHolder(s, c, d);
    }
    forall c | 0 <= c < |s.calls|
      ensures HolderFits(s, s.calls[c])
    {
    }
    if !Quiet(s) {
      var c :| 0 <= c < |s.calls| && Holding(s.calls[c]);
      assert HolderFits(s, s.calls[c]);
      assert Inside(s.calls[c]) || Resting(s.inproc);
    }
  }

  /** When every call has finished and no release failed, a durable row that is left belongs to an
      update that the in-process lease refused. */
  lemma OnlyRefusedUpdatesKeepTheLease(steps: seq<Step>)
    requires Timely(INITIAL, steps)
    ensures var s := Exec(INITIAL, steps);
      Quiet(s) && s.releaseOk && s.durable.row.Some? ==>
        exists c :: 0 <= c < |s.calls| && s.calls[c].place.Leaked? && s.calls[c].kind.Update?
                 && s.calls[c].lease == Some(s.durable.row.value.generation)
  {
    RunOwned(INITIAL, steps);
    OnlyUpdatesLeak(INITIAL, steps);
  }

  predicate LeakedByUpdates(s: State) {
    forall c | 0 <= c < |s.calls| && s.calls[c].place.Leaked? :: s.calls[c].kind.Update?
  }

  lemma StepLeakedByUpdates(s: State, step: Step)
    requires LeakedByUpdates(s)
    ensures LeakedByUpdates(Apply(s, step))
  {
    if !step.New? {
      hide Apply;
      StepTouches(s, step);
    }
  }

  lemma {:induction false} OnlyUpdatesLeak(s: State, steps: seq<Step>)
    requires LeakedByUpdates(s)
    ensures LeakedByUpdates(Exec(s, steps))
    decreases steps
  {
    hide Apply, LeakedByUpdates;
    if steps != [] {
      StepLeakedByUpdates(s, steps[0]);
      OnlyUpdatesLeak(Apply(s, steps[0]), steps[1..]);
    }
  }

  // ---------------------------------------------------------------- exactly when there is one holder

  predicate OneHolding(s: State) {
    forall c, d | 0 <= c < d < |s.calls| :: !(Holding(s.calls[c]) && Holding(s.calls[d]))
  }

  lemma OwnedHasOne(s: State)
    requires Owned(s)
    ensures OneHolding(s)
  {
    forall c, d | 0 <= c < d < |s.calls| && Holding(s.calls[c]) && Holding(s.calls[d])
      ensures false
    {
      OneHolder(s, c, d);
    }
  }

  /** A lease that is granted while that of a running call has run out makes a second holder. */
  lemma LateGrantAdmitsTwo(s: State, step: Step)
    requires Grants(s, step) && !HeldIsLive(s)
    ensures !OneHolding(Apply(s, step))
  {
    var c :| 0 <= c < |s.calls| && Holding(s.calls[c]) && s.durable.row.Some? && s.clock >= s.durable.row.value.expires;
    var r := Apply(s, step);
    assert r.calls[c] == s.calls[c] && Holding(r.calls[step.c]) && c != step.c;
  }

  ghost predicate AlwaysOne(s: State, steps: seq<Step>) {
    forall n | 0 <= n <= |steps| :: OneHolding(Exec(s, steps[..n]))
  }

  lemma AlwaysOneNext(s: State, steps: seq<Step>)
    requires steps != []
    ensures AlwaysOne(s, steps) <==> OneHolding(s) && AlwaysOne(Apply(s, steps[0]), steps[1..])
  {
    hide OneHolding, Apply;
    var next, rest := Apply(s, steps[0]), steps[1..];
    assert steps[..0] == [] && Exec(s, []) == s;
    assert forall n | 0 < n <= |steps| :: steps[..n] == [steps[0]] + rest[..n - 1];
    forall n | 0 <= n <= |rest|
      ensures Exec(s, steps[..n + 1]) == Exec(next, rest[..n])
    {
      assert steps[..n + 1][1..] == rest[..n];
    }
    if AlwaysOne(s, steps) {
      forall n | 0 <= n <= |rest|
        ensures OneHolding(Exec(next, rest[..n]))
      {
        assert OneHolding(Exec(s, steps[..n + 1]));
      }
    }
    if OneHolding(s) && AlwaysOne(next, rest) {
      forall n | 0 <= n <= |steps|
        ensures OneHolding(Exec(s, steps[..n]))
      {
        if n > 0 {
          assert OneHolding(Exec(next, rest[..n - 1]));
        }
      }
    }
  }

  lemma {:induction false} OneHolderFrom(s: State, steps: seq<Step>)
    requires Owned(s) && NoneYet(s)
    ensures AlwaysOne(s, steps) <==> Timely(s, steps)
    decreases steps
  {
    hide Owned, NoneYet, Apply, HeldIsLive, OneHolding, AlwaysOne, Grants;
    OwnedHasOne(s);
    if steps == [] {
      NoStepsOne(s);
    } else {
      AlwaysOneNext(s, steps);
      if Grants(s, steps[0]) && !HeldIsLive(s) {
        LateGrantAdmitsTwo(s, steps[0]);
        if AlwaysOne(Apply(s, steps[0]), steps[1..]) {
          OneAtFirst(Apply(s, steps[0]), steps[1..]);
        }
      } else {
        StepOwned(s, steps[0]);
        StepNoneYet(s, steps[0]);
        OneHolderFrom(Apply(s, steps[0]), steps[1..]);
      }
    }
  }

  lemma NoStepsOne(s: State)
    requires OneHolding(s)
    ensures AlwaysOne(s, [])
  {
    var none: seq<Step> := [];
    assert forall n | 0 <= n <= |none| :: none[..n] == none;
  }

  lemma OneAtFirst(s: State, steps: seq<Step>)
    requires AlwaysOne(s, steps)
    ensures OneHolding(s)
  {
    assert steps[..0] == [] && Exec(s, []) == s;
    assert OneHolding(Exec(s, steps[..0]));
  }

  /** In every run there is at most one holder at all times if and only if the heartbeats of
      running calls are in time whenever somebody is granted the lease. */
  lemma OneHolderExactly(steps: seq<Step>)
    ensures AlwaysOne(INITIAL, steps) <==> Timely(INITIAL, steps)
  {
    OneHolderFrom(INITIAL, steps);
  }

  // ---------------------------------------------------------------- a bound on the heartbeats

  /** How long ago the row was granted or last beaten, after the step. */
  function Aged(s: State, step: Step, age: nat): nat {
    if Grants(s, step) then 0
    else if step.Beat? && step.c < |s.calls| && s.calls[step.c].lease.Some? && s.durable.Holds(s.calls[step.c].lease.value) then 0
    else if step.Tick? then age + step.n
    else age
  }

  /** While any call runs, its last heartbeat, or the grant, is less than the lifetime ago. */
  ghost predicate Regular(s: State, steps: seq<Step>, age: nat)
    decreases steps
  {
    && (!Quiet(s) ==> age < TTL)
    && (steps != [] ==> Regular(Apply(s, steps[0]), steps[1..], Aged(s, steps[0], age)))
  }

  predicate RowIsOf(s: State, age: nat) {
    s.durable.row.Some? ==> s.durable.row.value.expires + age == s.clock + TTL
  }

  lemma StepRowIsOf(s: State, step: Step, age: nat)
    requires RowIsOf(s, age)
    ensures RowIsOf(Apply(s, step), Aged(s, step, age))
  {
    hide AfterClear;
  }

  lemma {:induction false} RegularIsTimely(s: State, steps: seq<Step>, age: nat)
    requires RowIsOf(s, age) && Regular(s, steps, age)
    ensures Timely(s, steps)
    decreases steps
  {
    hide Apply, Aged, Grants;
    if steps != [] {
      assert HeldIsLive(s);
      StepRowIsOf(s, steps[0], age);
      RegularIsTimely(Apply(s, steps[0]), steps[1..], Aged(s, steps[0], age));
    }
  }

  /** Heartbeats less than the lifetime of the lease apart are enough for one holder at all times. */
  lemma RegularBeatsSuffice(steps: seq<Step>)
    requires Regular(INITIAL, steps, 0)
    ensures Timely(INITIAL, steps) && AlwaysOne(INITIAL, steps)
  {
    RegularIsTimely(INITIAL, steps, 0);
    OneHolderExactly(steps);
  }

  // ---------------------------------------------------------------- a lease that was kept

  /** The call was refused, and the row is still its own. */
  predicate KeepsRow(s: State, c: nat) {
    At(s, c, Leaked) && s.calls[c].lease.Some? && s.durable.Holds(s.calls[c].lease.value)
  }

  /** The step asks for the durable lease. */
  predicate Asks(s: State, step: Step) {
    step.AcquireDurable? && step.works && At(s, step.c, Acquiring)
  }

  /** The row is kept alive by heartbeats whenever somebody asks for the lease. */
  ghost predicate KeptAlive(s: State, steps: seq<Step>)
    decreases steps
  {
    steps != [] ==>
      && (Asks(s, steps[0]) && s.durable.row.Some? ==> s.clock < s.durable.row.value.expires)
      && KeptAlive(Apply(s, steps[0]), steps[1..])
  }

  lemma NobodyHolds(s: State, c: nat)
    requires Owned(s) && KeepsRow(s, c)
    ensures Quiet(s)
  {
    forall d | 0 <= d < |s.calls|
      ensures !Holding(s.calls[d])
    {
      assert HolderFits(s, s.calls[d]);
      assert d != c ==> s.calls[d].lease.None? || s.calls[d].lease != s.calls[c].lease;
    }
  }

  /** Without a holder only a grant changes whose row it is. */
  lemma RowStays(s: State, step: Step)
    requires Quiet(s) && !Grants(s, step) && s.durable.row.Some?
    ensures var r := Apply(s, step).durable;
      r.row.Some? && r.row.value.generation == s.durable.row.value.generation
  {
    hide Store, AfterClear;
    assert forall c | 0 <= c < |s.calls| :: !s.calls[c].place.Releasing?;
  }

  lemma StepKeepsRow(s: State, step: Step, c: nat)
    requires Owned(s) && KeepsRow(s, c) && !Grants(s, step)
    ensures KeepsRow(Apply(s, step), c) && Apply(s, step).calls[c] == s.calls[c]
  {
    NobodyHolds(s, c);
    RowStays(s, step);
    if step.New? {
      assert (s.calls + [Call(step.kind, Begin, None)])[c] == s.calls[c];
    } else {
      hide Apply, Owned, Quiet;
      StepTouches(s, step);
    }
  }

  /** As long as the row of a refused update is kept alive, no call gets the lease, however many
      are made and whatever else happens. */
  lemma {:induction false} KeptLeaseShutsOut(s: State, steps: seq<Step>, c: nat)
    requires Owned(s) && NoneYet(s) && KeepsRow(s, c) && KeptAlive(s, steps)
    ensures var t := Exec(s, steps);
      KeepsRow(t, c) && t.calls[c].lease == s.calls[c].lease && Quiet(t)
    decreases steps
  {
    hide Owned, NoneYet, Apply, Quiet;
    NobodyHolds(s, c);
    if steps != [] {
      var next := Apply(s, steps[0]);
      NotGranted(s, steps[0], c);
      StepOwned(s, steps[0]);
      StepNoneYet(s, steps[0]);
      StepKeepsRow(s, steps[0], c);
      KeptLeaseShutsOut(next, steps[1..], c);
    }
  }

  lemma NotGranted(s: State, step: Step, c: nat)
    requires KeepsRow(s, c) && (Asks(s, step) ==> s.clock < s.durable.row.value.expires)
    ensures !Grants(s, step)
  {
  }

  // ---------------------------------------------------------------- an external writer stays

  /** The step recovers an external thread. */
  predicate Recovers(s: State, step: Step) {
    step.Recover? && At(s, step.c, Resumed) && s.inproc == ExternalActive
  }

  ghost predicate NoRecovery(s: State, steps: seq<Step>)
    decreases steps
  {
    steps != [] ==> !Recovers(s, steps[0]) && NoRecovery(Apply(s, steps[0]), steps[1..])
  }

  /** The holder leaves an external thread external unless it recovers it. */
  lemma HolderStepSticky(s: State, step: Step, c: nat)
    requires StepOf(s, step, c) && PlaceFits(s, s.calls[c]) && s.inproc == ExternalActive && !Recovers(s, step)
    ensures Apply(s, step).inproc == ExternalActive
  {
  }

  /** A holder that is an update enters only a thread that is idle. */
  lemma HolderStepOutside(s: State, step: Step, c: nat)
    requires StepOf(s, step, c) && PlaceFits(s, s.calls[c]) && s.inproc == ExternalActive
    requires s.calls[c].kind.Update? && !Inside(s.calls[c])
    ensures Apply(s, step).calls == s.calls[c := Apply(s, step).calls[c]] && !Inside(Apply(s, step).calls[c])
  {
    hide Store, AfterClear;
  }

  lemma EarlyStepSticky(s: State, step: Step)
    requires IsEarly(step) && !StepOf(s, step, Actor(step)) && s.inproc == ExternalActive
    ensures var r, c := Apply(s, step), Actor(step);
      r.inproc == ExternalActive && (r.calls == s.calls || (c < |r.calls| && !Inside(r.calls[c])))
  {
  }

  lemma LateStepSticky(s: State, step: Step)
    requires !IsEarly(step) && !step.New? && !StepOf(s, step, Actor(step)) && s.inproc == ExternalActive
    ensures var r, c := Apply(s, step), Actor(step);
      r.inproc == ExternalActive && (r.calls == s.calls || (c < |r.calls| && !Inside(r.calls[c])))
  {
    hide Store, AfterClear;
  }

  /** A step that is not the holder's keeps the state and lets nobody inside. */
  lemma OtherStepSticky(s: State, step: Step)
    requires !StepOf(s, step, Actor(step)) && s.inproc == ExternalActive
    ensures var r := Apply(s, step);
      && r.inproc == ExternalActive && |s.calls| <= |r.calls|
      && forall c | 0 <= c < |r.calls| && r.calls[c].kind.Update? && Inside(r.calls[c]) ::
           c < |s.calls| && s.calls[c] == r.calls[c]
  {
    if !step.New? {
      hide Apply, StepOf;
      StepTouches(s, step);
      if IsEarly(step) {
        EarlyStepSticky(s, step);
      } else {
        LateStepSticky(s, step);
      }
    }
  }

  lemma StepSticky(s: State, step: Step)
    requires Owned(s) && s.inproc == ExternalActive && !Recovers(s, step)
    ensures var r := Apply(s, step);
      && r.inproc == ExternalActive
      && |s.calls| <= |r.calls|
      && forall c | 0 <= c < |r.calls| && r.calls[c].kind.Update? && Inside(r.calls[c]) ::
           c < |s.calls| && s.calls[c].kind.Update? && Inside(s.calls[c])
  {
    var c := Actor(step);
    if StepOf(s, step, c) {
      assert HolderFits(s, s.calls[c]);
      hide Owned, PlaceFits, Apply;
      HolderStepSticky(s, step, c);
      HolderStepFits(s, step, c);
      StepTouches(s, step);
      if s.calls[c].kind.Update? && !Inside(s.calls[c]) {
        HolderStepOutside(s, step, c);
      }
    } else {
      hide Owned, PlaceFits, Apply;
      OtherStepSticky(s, step);
    }
  }

  /** Once a call was rejected because of another writer, the thread stays external until a later
      resume recovers it, and until then no update gets inside that was not inside already. */
  lemma {:induction false} ExternalSticks(s: State, steps: seq<Step>)
    requires Owned(s) && NoneYet(s) && Timely(s, steps) && s.inproc == ExternalActive && NoRecovery(s, steps)
    ensures var t := Exec(s, steps);
      && t.inproc == ExternalActive
      && |s.calls| <= |t.calls|
      && forall c | 0 <= c < |t.calls| && t.calls[c].kind.Update? && Inside(t.calls[c]) ::
           c < |s.calls| && s.calls[c].kind.Update? && Inside(s.calls[c])
    decreases steps
  {
    hide Owned, NoneYet, Apply;
    if steps != [] {
      StepOwned(s, steps[0]);
      StepNoneYet(s, steps[0]);
      StepSticky(s, steps[0]);
      ExternalSticks(Apply(s, steps[0]), steps[1..]);
    }
  }

  /** Only a send can recover the thread: the update that could is never resumed while external. */
  lemma OnlySendsRecover(s: State, c: nat)
    requires Owned(s) && At(s, c, Resumed) && s.inproc == ExternalActive
    ensures s.calls[c].kind.Send? && Apply(s, Recover(c)).inproc == CfrActive
  {
    assert HolderFits(s, s.calls[c]);
  }

  // ---------------------------------------------------------------- what goes wrong without the hypotheses

  lemma Next(s: State, step: Step, next: State, rest: seq<Step>)
    requires Apply(s, step) == next
    ensures Exec(s, [step] + rest) == Exec(next, rest)
    ensures Timely(s, [step] + rest) <==> (Grants(s, step) ==> HeldIsLive(s)) && Timely(next, rest)
  {
    assert ([step] + rest)[1..] == rest;
  }

  /** A rejected send, an update that had passed its check before, and two sends about to ask. */
  const REJECTED := State(
    ExternalActive, ExternalActive, Durable(None, 1), 0,
    [Call(Send, Done, Some(1)), Call(Update, Acquiring, None), Call(Send, Acquiring, None), Call(Send, Acquiring, None)],
    true, true)

  const FOUR_CALLS := [New(Send), New(Update), New(Send), New(Send), Check(0), Check(1), Check(2), Check(3)]

  const REJECTION := [
    AcquireDurable(0, true), StartHeartbeat(0, true), ReadState(0), AcquireInProcess(0), StoreActive(0, true),
    Reject(0), StoreExternal(0, true), ReadFinal(0), Clear(0, true), ReleaseInProcess(0), ReleaseDurable(0, true)]

  function Four(first: Call): seq<Call> {
    [first, Call(Update, Acquiring, None), Call(Send, Acquiring, None), Call(Send, Acquiring, None)]
  }

  lemma FirstMoves(a: Call, b: Call)
    ensures |Four(a)| == 4 && Four(a)[0] == a && Four(a)[0 := b] == Four(b)
  {
  }

  const BEGUN := INITIAL.(
    calls := [Call(Send, Begin, None), Call(Update, Begin, None), Call(Send, Begin, None), Call(Send, Begin, None)])

  lemma FourBegun(rest: seq<Step>)
    ensures Exec(INITIAL, [New(Send), New(Update), New(Send), New(Send)] + rest) == Exec(BEGUN, rest)
    ensures Timely(INITIAL, [New(Send), New(Update), New(Send), New(Send)] + rest) <==> Timely(BEGUN, rest)
  {
    hide Exec, Timely;
    var b, u := Call(Send, Begin, None), Call(Update, Begin, None);
    var s1 := INITIAL.(calls := [b]);
    var s2 := INITIAL.(calls := [b, u]);
    var s3 := INITIAL.(calls := [b, u, b]);
    var r3 := [New(Send)] + rest;
    var r2 := [New(Send)] + r3;
    var r1 := [New(Update)] + r2;
    Next(s3, New(Send), BEGUN, rest);
    Next(s2, New(Send), s3, r3);
    Next(s1, New(Update), s2, r2);
    Next(INITIAL, New(Send), s1, r1);
    assert [New(Send), New(Update), New(Send), New(Send)] + rest == [New(Send)] + r1;
  }

  lemma FourChecked(rest: seq<Step>)
    ensures var s := INITIAL.(calls := Four(Call(Send, Acquiring, None)));
      && Exec(BEGUN, [Check(0), Check(1), Check(2), Check(3)] + rest) == Exec(s, rest)
      && (Timely(BEGUN, [Check(0), Check(1), Check(2), Check(3)] + rest) <==> Timely(s, rest))
  {
    hide Exec, Timely;
    var b, u := Call(Send, Begin, None), Call(Update, Begin, None);
    var a, v := Call(Send, Acquiring, None), Call(Update, Acquiring, None);
    var s5 := INITIAL.(calls := [a, u, b, b]);
    var s6 := INITIAL.(calls := [a, v, b, b]);
    var s7 := INITIAL.(calls := [a, v, a, b]);
    var s8 := INITIAL.(calls := [a, v, a, a]);
    var r7 := [Check(3)] + rest;
    var r6 := [Check(2)] + r7;
    var r5 := [Check(1)] + r6;
    Next(s7, Check(3), s8, rest);
    Next(s6, Check(2), s7, r7);
    Next(s5, Check(1), s6, r6);
    Next(BEGUN, Check(0), s5, r5);
    assert [Check(0), Check(1), Check(2), Check(3)] + rest == [Check(0)] + r5;
  }

  lemma FourCalls(rest: seq<Step>)
    ensures var s := INITIAL.(calls := Four(Call(Send, Acquiring, None)));
      Exec(INITIAL, FOUR_CALLS + rest) == Exec(s, rest) && (Timely(INITIAL, FOUR_CALLS + rest) <==> Timely(s, rest))
  {
    hide Exec, Timely, Four;
    var checks := [Check(0), Check(1), Check(2), Check(3)] + rest;
    FourBegun(checks);
    FourChecked(rest);
    assert FOUR_CALLS + rest == [New(Send), New(Update), New(Send), New(Send)] + checks;
  }

  const TO_REJECTION := [
    AcquireDurable(0, true), StartHeartbeat(0, true), ReadState(0), AcquireInProcess(0), StoreActive(0, true)]

  const FROM_REJECTION := [
    Reject(0), StoreExternal(0, true), ReadFinal(0), Clear(0, true), ReleaseInProcess(0), ReleaseDurable(0, true)]

  const ACTIVE := State(
    CfrActive, CfrActive, Durable(Some(Row(1, TTL)), 1), 0, Four(Call(Send, Body, Some(1))), true, true)

  lemma ActiveRun(rest: seq<Step>)
    ensures var s := INITIAL.(calls := Four(Call(Send, Acquiring, None)));
      Exec(s, TO_REJECTION + rest) == Exec(ACTIVE, rest) && (Timely(s, TO_REJECTION + rest) <==> Timely(ACTIVE, rest))
  {
    hide Exec, Timely, Four;
    var s := INITIAL.(calls := Four(Call(Send, Acquiring, None)));
    var s1 := State(Idle, Idle, ACTIVE.durable, 0, Four(Call(Send, Heartbeat, Some(1))), true, true);
    var s2 := s1.(calls := Four(Call(Send, Reading, Some(1))));
    var s3 := s1.(calls := Four(Call(Send, Enter, Some(1))));
    var s4 := s1.(inproc := CfrActive, calls := Four(Call(Send, Storing, Some(1))));
    var r4 := [StoreActive(0, true)] + rest;
    var r3 := [AcquireInProcess(0)] + r4;
    var r2 := [ReadState(0)] + r3;
    var r1 := [StartHeartbeat(0, true)] + r2;
    FirstMoves(Call(Send, Storing, Some(1)), Call(Send, Body, Some(1)));
    FirstMoves(Call(Send, Enter, Some(1)), Call(Send, Storing, Some(1)));
    FirstMoves(Call(Send, Reading, Some(1)), Call(Send, Enter, Some(1)));
    FirstMoves(Call(Send, Heartbeat, Some(1)), Call(Send, Reading, Some(1)));
    FirstMoves(Call(Send, Acquiring, None), Call(Send, Heartbeat, Some(1)));
    Next(s4, StoreActive(0, true), ACTIVE, rest);
    Next(s3, AcquireInProcess(0), s4, r4);
    Next(s2, ReadState(0), s3, r3);
    Next(s1, StartHeartbeat(0, true), s2, r2);
    Next(s, AcquireDurable(0, true), s1, r1);
    assert TO_REJECTION + rest == [AcquireDurable(0, true)] + r1;
  }

  lemma RejectedRun(rest: seq<Step>)
    ensures Exec(ACTIVE, FROM_REJECTION + rest) == Exec(REJECTED, rest)
    ensures Timely(ACTIVE, FROM_REJECTION + rest) <==> Timely(REJECTED, rest)
  {
    hide Exec, Timely;
    var s6 := ACTIVE.(inproc := ExternalActive, calls := Four(Call(Send, Rejected, Some(1))));
    var s7 := s6.(stored := ExternalActive, calls := Four(Call(Send, Leaving, Some(1))));
    var s8 := s7.(calls := Four(Call(Send, Closing(ExternalActive), Some(1))));
    var s9 := s7.(calls := Four(Call(Send, Cleared(ExternalActive), Some(1))));
    var s10 := s7.(calls := Four(Call(Send, Releasing, Some(1))));
    var r10 := [ReleaseDurable(0, true)] + rest;
    var r9 := [ReleaseInProcess(0)] + r10;
    var r8 := [Clear(0, true)] + r9;
    var r7 := [ReadFinal(0)] + r8;
    var r6 := [StoreExternal(0, true)] + r7;
    Next(s10, ReleaseDurable(0, true), REJECTED, rest);
    Next(s9, ReleaseInProcess(0), s10, r10);
    Next(s8, Clear(0, true), s9, r9);
    Next(s7, ReadFinal(0), s8, r8);
    Next(s6, StoreExternal(0, true), s7, r7);
    Next(ACTIVE, Reject(0), s6, r6);
    assert FROM_REJECTION + rest == [Reject(0)] + r6;
  }

  /** From four fresh calls to the first of them rejected. */
  lemma RejectionRun(rest: seq<Step>)
    ensures Exec(INITIAL, FOUR_CALLS + (REJECTION + rest)) == Exec(REJECTED, rest)
    ensures Timely(INITIAL, FOUR_CALLS + (REJECTION + rest)) <==> Timely(REJECTED, rest)
  {
    hide Exec, Timely;
    FourCalls(REJECTION + rest);
    ActiveRun(FROM_REJECTION + rest);
    RejectedRun(rest);
    assert REJECTION == TO_REJECTION + FROM_REJECTION;
    assert REJECTION + rest == TO_REJECTION + (FROM_REJECTION + rest);
  }

  /** An update that passes its check just before a send is rejected keeps the durable lease when
      the in-process lease refuses it: heartbeats in time, nothing failed, no call left, and yet
      the next send cannot acquire. */
  lemma RefusedUpdateKeepsTheLease()
    ensures var steps := FOUR_CALLS + (REJECTION + [AcquireDurable(1, true), StartHeartbeat(1, true), AcquireInProcess(1)]);
      var s := Exec(INITIAL, steps);
      && Timely(INITIAL, steps) && s.storeOk && s.releaseOk && At(s, 1, Leaked)
      && s.durable.row.Some? && s.calls[1].lease == Some(s.durable.row.value.generation)
      && At(Apply(s, AcquireDurable(2, true)), 2, Done)
      && At(Apply(Apply(s, Beat(1)), AcquireDurable(2, true)), 2, Done)
  {
    hide Exec, Timely;
    var rest := [AcquireDurable(1, true), StartHeartbeat(1, true), AcquireInProcess(1)];
    RejectionRun(rest);
    var s1 := REJECTED.(durable := Durable(Some(Row(2, TTL)), 2), calls := REJECTED.calls[1 := Call(Update, Heartbeat, Some(2))]);
    var s2 := s1.(calls := REJECTED.calls[1 := Call(Update, Enter, Some(2))]);
    var s3 := s1.(calls := REJECTED.calls[1 := Call(Update, Leaked, Some(2))]);
    Next(s2, AcquireInProcess(1), s3, []);
    Next(s1, StartHeartbeat(1, true), s2, [AcquireInProcess(1)]);
    Next(REJECTED, AcquireDurable(1, true), s1, [StartHeartbeat(1, true), AcquireInProcess(1)]);
    assert [AcquireInProcess(1)] + [] == [AcquireInProcess(1)];
    assert [StartHeartbeat(1, true)] + [AcquireInProcess(1)] == [StartHeartbeat(1, true), AcquireInProcess(1)];
    assert [AcquireDurable(1, true)] + [StartHeartbeat(1, true), AcquireInProcess(1)] == rest;
    Stop(s3);
  }

  lemma Stop(s: State)
    ensures Exec(s, []) == s && Timely(s, [])
  {
  }

  /** On the external thread the second send is inside, and then its lease runs out. */
  const EXPIRED := REJECTED.(
    durable := Durable(Some(Row(2, TTL)), 2), clock := TTL, calls := REJECTED.calls[2 := Call(Send, Storing, Some(2))])

  lemma ExpiredRun(rest: seq<Step>)
    ensures Exec(REJECTED, [AcquireDurable(2, true), StartHeartbeat(2, true), ReadState(2), Tick(TTL)] + rest) == Exec(EXPIRED, rest)
    ensures Timely(REJECTED, [AcquireDurable(2, true), StartHeartbeat(2, true), ReadState(2), Tick(TTL)] + rest) <==> Timely(EXPIRED, rest)
  {
    hide Exec, Timely;
    var s1 := EXPIRED.(clock := 0, calls := REJECTED.calls[2 := Call(Send, Heartbeat, Some(2))]);
    var s2 := s1.(calls := REJECTED.calls[2 := Call(Send, Reading, Some(2))]);
    var s3 := EXPIRED.(clock := 0);
    var r3 := [Tick(TTL)] + rest;
    var r2 := [ReadState(2)] + r3;
    var r1 := [StartHeartbeat(2, true)] + r2;
    Next(s3, Tick(TTL), EXPIRED, rest);
    Next(s2, ReadState(2), s3, r3);
    Next(s1, StartHeartbeat(2, true), s2, r2);
    Next(REJECTED, AcquireDurable(2, true), s1, r1);
    assert [AcquireDurable(2, true), StartHeartbeat(2, true), ReadState(2), Tick(TTL)] + rest == [AcquireDurable(2, true)] + r1;
  }

  lemma IntruderRun()
    ensures var steps := [AcquireDurable(3, true), StartHeartbeat(3, true), ReadState(3)];
      var s := Exec(EXPIRED, steps);
      !Timely(EXPIRED, steps) && |s.calls| == 4 && Inside(s.calls[2]) && Inside(s.calls[3])
  {
    hide Exec, Timely;
    var s5 := EXPIRED.(durable := Durable(Some(Row(3, TTL + TTL)), 3), calls := EXPIRED.calls[3 := Call(Send, Heartbeat, Some(3))]);
    var s6 := s5.(calls := EXPIRED.calls[3 := Call(Send, Reading, Some(3))]);
    var s7 := s5.(calls := EXPIRED.calls[3 := Call(Send, Storing, Some(3))]);
    var r6 := [ReadState(3)] + [];
    var r5 := [StartHeartbeat(3, true)] + r6;
    Next(s6, ReadState(3), s7, []);
    Next(s5, StartHeartbeat(3, true), s6, r6);
    Next(EXPIRED, AcquireDurable(3, true), s5, r5);
    assert [AcquireDurable(3, true), StartHeartbeat(3, true), ReadState(3)] == [AcquireDurable(3, true)] + r5;
    assert Holding(EXPIRED.calls[2]);
    Stop(s7);
  }

  /** Without timely heartbeats the in-process lease does not help on an external thread: two
      sends by-pass it, and both are inside. */
  lemma LateHeartbeatsAdmitTwoWriters()
    ensures var steps := FOUR_CALLS + (REJECTION + ([AcquireDurable(2, true), StartHeartbeat(2, true), ReadState(2), Tick(TTL)]
                           + [AcquireDurable(3, true), StartHeartbeat(3, true), ReadState(3)]));
      var s := Exec(INITIAL, steps);
      !Timely(INITIAL, steps) && |s.calls| == 4 && Inside(s.calls[2]) && Inside(s.calls[3])
  {
    hide Exec, Timely, Inside;
    var intrusion := [AcquireDurable(3, true), StartHeartbeat(3, true), ReadState(3)];
    RejectionRun([AcquireDurable(2, true), StartHeartbeat(2, true), ReadState(2), Tick(TTL)] + intrusion);
    ExpiredRun(intrusion);
    IntruderRun();
  }

  // ---------------------------------------------------------------- calls that are refused at once

  lemma {:induction false} DoneStays(s: State, steps: seq<Step>, c: nat)
    requires At(s, c, Done) && s.calls[c].lease.None?
    ensures var t := Exec(s, steps); At(t, c, Done) && t.calls[c] == s.calls[c]
    decreases steps
  {
    if steps != [] {
      DoneStep(s, steps[0], c);
      hide Apply;
      DoneStays(Apply(s, steps[0]), steps[1..], c);
    }
  }

  lemma DoneStep(s: State, step: Step, c: nat)
    requires At(s, c, Done) && s.calls[c].lease.None?
    ensures var t := Apply(s, step); At(t, c, Done) && t.calls[c] == s.calls[c]
  {
    if !step.New? {
      StepTouches(s, step);
      if Actor(step) != c {
        hide Apply;
      }
    }
  }

  /** An update whose check finds an external writer is over: in no later run does it take a lease,
      durable or in the process. A send goes on, whatever the check finds. */
  lemma ExternalUpdateTakesNothing(s: State, c: nat, later: seq<Step>)
    requires At(s, c, Begin) && s.calls[c].lease.None?
    ensures var t := Exec(Apply(s, Check(c)), later);
      s.calls[c].kind.Update? && s.inproc == ExternalActive ==> At(t, c, Done) && t.calls[c].lease.None?
    ensures s.calls[c].kind.Send? || s.inproc != ExternalActive ==> At(Apply(s, Check(c)), c, Acquiring)
  {
    if s.calls[c].kind.Update? && s.inproc == ExternalActive {
      DoneStays(Apply(s, Check(c)), later, c);
    }
  }
}
