/**
 What a call of `send_message` or `update_thread_settings` leaves behind, whichever operations
 fail: no thread stays active, every client is closed, every lease is given back, and the error
 that is raised is the one that came first.
 */
module BindingLaws {
  import opened Common
  import opened Lease
  import opened Binding

  predicate OfCleanUp(op: Operation) {
    op.Close? || op.Snapshot? || op.ClearTurn? || op.ReleaseInProcess? || op.ReleaseDurable?
  }

  predicate OfBody(op: Operation) {
    !OfEntry(op) && !OfCleanUp(op)
  }

  predicate AllOfBody(script: Script) {
    script.Then? ==> OfBody(script.first) && AllOfBody(script.rest)
  }

  lemma SendingIsOfBody()
    ensures AllOfBody(Sending())
  {
    assert AllOfBody(Turning());
  }

  lemma FinishingIsOfBody()
    ensures AllOfBody(Finishing())
  {
  }

  lemma UpdatingIsOfBody()
    ensures AllOfBody(Updating())
  {
    FinishingIsOfBody();
    hide Finishing;
    assert AllOfBody(Confirming());
    assert AllOfBody(Requesting());
  }

  lemma CheckingIsOfBody(rest: Script)
    requires AllOfBody(rest)
    ensures AllOfBody(Checking(rest))
  {
    assert AllOfBody(Then(ReadResumed, Then(CheckId, rest)));
  }

  lemma ResumingIsOfBody(rest: Script)
    requires AllOfBody(rest)
    ensures AllOfBody(Resuming(rest))
  {
    assert AllOfBody(Then(ResumeAgain, rest));
  }

  lemma ConnectingIsOfBody(rest: Script)
    requires AllOfBody(rest)
    ensures AllOfBody(Connecting(rest))
  {
    hide Checking, Resuming;
    CheckingIsOfBody(rest);
    ResumingIsOfBody(Checking(rest));
    assert AllOfBody(Then(StartClient, Resuming(Checking(rest))));
  }

  lemma BodyIsOfBody(kind: Kind)
    ensures AllOfBody(Body(kind))
  {
    hide AllOfBody, Connecting, Sending, Updating;
    SendingIsOfBody();
    UpdatingIsOfBody();
    ConnectingIsOfBody(if kind.Send? then Sending() else Updating());
  }

  lemma {:induction false} TriedOfBody(b: Thread, p: Plan, script: Script)
    requires AllOfBody(script)
    ensures forall op | op in Tried(b, p, script) :: OfBody(op)
    ensures Failing(b, p, script).Some? ==> OfBody(Failing(b, p, script).value)
  {
    hide Fault, Occurs;
    if script.Then? {
      TriedOfBody(b, p, script.rest);
    }
  }

  // ---------------------------------------------------------------- a call that gets into its body

  function Granting(b: Thread): seq<Operation> {
    if b.durable.Some? then [AcquireDurable, StartHeartbeat] else []
  }

  function Taking(b: Thread): seq<Operation> {
    if b.inproc == ExternalActive then [] else [AcquireInProcess]
  }

  /** What the entry of a call performs when nothing in it fails. */
  function EntryOps(kind: Kind, b: Thread): seq<Operation> {
    Checks(kind) + Granting(b) + Taking(b)
  }

  /** The durable lease can be had, where such leases are kept. */
  predicate Lendable(b: Thread, p: Plan) {
    b.durable.Some? ==>
      b.durable.value.Free(p.now, p.ownerAlive) && AcquireDurable !in p.raises && StartHeartbeat !in p.raises
  }

  predicate Admitted(kind: Kind, b: Thread, p: Plan) {
    && p.hasStore && p.bound && GetBinding !in p.raises && Lendable(b, p)
    && (b.inproc == Idle || (kind.Send? && b.inproc == ExternalActive))
  }

  /** The check or acquisition that a call which is not admitted fails at. */
  function Refusal(kind: Kind, b: Thread, p: Plan): Operation
    requires !Admitted(kind, b, p)
  {
    if !p.hasStore then NeedStore
    else if GetBinding in p.raises || !p.bound then GetBinding
    else if kind.Update? && b.inproc == ExternalActive then CheckWriter
    else if b.durable.Some? && (AcquireDurable in p.raises || !b.durable.value.Free(p.now, p.ownerAlive)) then AcquireDurable
    else if b.durable.Some? && StartHeartbeat in p.raises then StartHeartbeat
    else AcquireInProcess
  }

  /** What was performed before it. */
  function Passed(kind: Kind, b: Thread, op: Operation): seq<Operation> {
    match op
    case NeedStore => []
    case GetBinding => [NeedStore]
    case CheckWriter => [NeedStore, GetBinding]
    case AcquireDurable => Checks(kind)
    case StartHeartbeat => Checks(kind) + [AcquireDurable]
    case _ => Checks(kind) + Granting(b)
  }

  predicate StopsAtRefusal(kind: Kind, b: Thread, p: Plan)
    requires !Admitted(kind, b, p)
  {
    var op := Refusal(kind, b, p);
    Tried(b, p, Whole(kind)) == Passed(kind, b, op) + [op] && Failing(b, p, Whole(kind)) == Some(op)
  }

  lemma LeasingPassed(kind: Kind, b: Thread, p: Plan, done: seq<Operation>)
    requires Checked(kind, b, p) && done == Checks(kind) && At(b, p, Whole(kind), done, Leasing(Body(kind)))
    ensures Lendable(b, p) ==> At(b, p, Whole(kind), done + Granting(b), Then(AcquireInProcess, Body(kind)))
    ensures !Lendable(b, p) ==> StopsAtRefusal(kind, b, p)
  {
    hide Tried, Failing, At, Whole, Body;
    Next(b, p, Whole(kind), done, Leasing(Body(kind)));
    if b.durable.None? {
      Next(b, p, Whole(kind), done, Leasing(Body(kind)).rest);
      assert done + Granting(b) == done;
    } else if Fault(b, p, AcquireDurable).None? {
      Next(b, p, Whole(kind), done + [AcquireDurable], Leasing(Body(kind)).rest);
      assert done + Granting(b) == (done + [AcquireDurable]) + [StartHeartbeat];
    }
  }

  /** The checks in front of the leases. */
  function Checks(kind: Kind): seq<Operation> {
    [NeedStore, GetBinding] + if kind.Send? then [] else [CheckWriter]
  }

  predicate Checked(kind: Kind, b: Thread, p: Plan) {
    p.hasStore && p.bound && GetBinding !in p.raises && (kind.Update? ==> b.inproc != ExternalActive)
  }

  lemma ChecksPassed(kind: Kind, b: Thread, p: Plan)
    ensures Checked(kind, b, p) ==> At(b, p, Whole(kind), Checks(kind), Leasing(Body(kind)))
    ensures !Checked(kind, b, p) ==> StopsAtRefusal(kind, b, p)
  {
    hide Tried, Failing, At, Body;
    AtStart(b, p, Whole(kind));
    Next(b, p, Whole(kind), [], Whole(kind));
    assert [] + [NeedStore] == [NeedStore];
    if p.hasStore {
      Next(b, p, Whole(kind), [NeedStore], Whole(kind).rest);
      assert [NeedStore] + [GetBinding] == [NeedStore, GetBinding];
      if Fault(b, p, GetBinding).None? {
        assert kind.Send? ==> [NeedStore, GetBinding] == Checks(kind);
        if kind.Update? {
          Next(b, p, Whole(kind), [NeedStore, GetBinding], Whole(kind).rest.rest);
        }
      }
    }
  }

  /** A call gets into its body exactly when every check and acquisition succeeds. */
  lemma EnteredExactly(kind: Kind, b: Thread, p: Plan)
    ensures Refused(kind, b, p) <==> !Admitted(kind, b, p)
    ensures !Admitted(kind, b, p) ==> StopsAtRefusal(kind, b, p)
    ensures Admitted(kind, b, p) ==> At(b, p, Whole(kind), EntryOps(kind, b), Body(kind))
  {
    hide Tried, Failing, At, Whole, Body;
    ChecksPassed(kind, b, p);
    if Checked(kind, b, p) {
      LeasingPassed(kind, b, p, Checks(kind));
      if Lendable(b, p) {
        var done := Checks(kind) + Granting(b);
        Next(b, p, Whole(kind), done, Then(AcquireInProcess, Body(kind)));
        if Admitted(kind, b, p) {
          assert EntryOps(kind, b) == if b.inproc == ExternalActive then done else done + [AcquireInProcess];
          BodyIsOfBody(kind);
          TriedOfBody(b, p, Body(kind));
          SameFailing(kind, b, p, EntryOps(kind, b));
        }
      }
    }
  }

  lemma SameFailing(kind: Kind, b: Thread, p: Plan, done: seq<Operation>)
    requires At(b, p, Whole(kind), done, Body(kind))
    ensures Failing(b, p, Whole(kind)) == Failing(b, p, Body(kind))
    ensures Tried(b, p, Whole(kind)) == done + Tried(b, p, Body(kind))
  {
    hide Tried, Failing, Whole, Body;
  }

  // ---------------------------------------------------------------- what the body leaves

  /** Operations of the body leave the durable lease alone, and a taken thread taken. */
  lemma {:induction false} BodyKeeps(b: Thread, p: Plan, done: seq<Operation>, ops: seq<Operation>)
    requires forall op | op in ops :: OfBody(op)
    ensures Performed(b, p, done + ops).durable == Performed(b, p, done).durable
    ensures Taken(Performed(b, p, done).inproc) ==> Taken(Performed(b, p, done + ops).inproc)
  {
    hide Performed;
    if ops == [] {
      assert done + ops == done;
    } else {
      var last := |ops| - 1;
      BodyKeeps(b, p, done, ops[..last]);
      assert done + ops == (done + ops[..last]) + [ops[last]];
      assert ops[last] in ops;
      PerformedLast(b, p, done + ops[..last], ops[last]);
    }
  }

  /** The entry takes the durable lease, and an idle thread; a by-passed external one stays. */
  lemma EntryTakes(kind: Kind, b: Thread, p: Plan)
    requires Admitted(kind, b, p)
    ensures var t := Performed(b, p, EntryOps(kind, b));
      && t.inproc == (if b.inproc == ExternalActive then ExternalActive else CfrActive) && t.stored == b.stored
      && t.durable == if b.durable.Some? then Some(b.durable.value.Grant(p.now, TTL)) else None
  {
    hide Performed;
    NothingPerformed(b, p);
    SilentKeeps(b, p, [], Checks(kind));
    assert [] + Checks(kind) == Checks(kind);
    var done := Checks(kind) + Granting(b);
    if b.durable.Some? {
      PerformedLast(b, p, Checks(kind), AcquireDurable);
      PerformedLast(b, p, Checks(kind) + [AcquireDurable], StartHeartbeat);
      assert done == (Checks(kind) + [AcquireDurable]) + [StartHeartbeat];
    } else {
      assert done == Checks(kind);
    }
    if b.inproc == ExternalActive {
      assert EntryOps(kind, b) == done;
    } else {
      PerformedLast(b, p, done, AcquireInProcess);
    }
  }

  lemma {:induction false} SilentKeeps(b: Thread, p: Plan, done: seq<Operation>, ops: seq<Operation>)
    requires forall op | op in ops :: Silent(op)
    ensures Performed(b, p, done + ops) == Performed(b, p, done)
  {
    hide Performed;
    if ops == [] {
      assert done + ops == done;
    } else {
      var last := |ops| - 1;
      SilentKeeps(b, p, done, ops[..last]);
      assert done + ops == (done + ops[..last]) + [ops[last]];
      assert ops[last] in ops;
      PerformedLast(b, p, done + ops[..last], ops[last]);
    }
  }

  /** The state in front of the clean-up. */
  lemma BodyLeaves(kind: Kind, b: Thread, p: Plan)
    requires Admitted(kind, b, p)
    ensures var t := Performed(b, p, Tried(b, p, Whole(kind)));
      && Taken(t.inproc)
      && t.durable == if b.durable.Some? then Some(b.durable.value.Grant(p.now, TTL)) else None
  {
    hide Tried, Failing, Performed, Whole, Body, Admitted, Perform;
    EnteredExactly(kind, b, p);
    SameFailing(kind, b, p, EntryOps(kind, b));
    BodyIsOfBody(kind);
    TriedOfBody(b, p, Body(kind));
    EntryTakes(kind, b, p);
    BodyKeeps(b, p, EntryOps(kind, b), Tried(b, p, Body(kind)));
  }

  /** What the clean-up makes of the state that the body left. */
  lemma CleanedUp(b: Thread, p: Plan, ops: seq<Operation>)
    ensures var t := Performed(b, p, ops);
      var r := Performed(b, p, ops + CleanUp(b, p, t.inproc));
      && r.inproc == Left(t.inproc)
      && r.stored == (if ClearTurn in p.raises then t.stored else Stored(Left(t.inproc), false))
      && r.durable == if b.durable.Some? then Perform(b, p, t, ReleaseDurable).durable else t.durable
  {
    hide Performed, LettingGo, Perform;
    SilentKeeps(b, p, ops, Closing(p));
    LetGoOf(b, p, ops + Closing(p));
    assert ops + CleanUp(b, p, Performed(b, p, ops).inproc) == (ops + Closing(p)) + LettingGo(b, Performed(b, p, ops).inproc);
  }

  /** The end of the clean-up, one part after the other. */
  lemma LetGoOf(b: Thread, p: Plan, ops: seq<Operation>)
    ensures var t := Performed(b, p, ops);
      var r := Performed(b, p, ops + LettingGo(b, t.inproc));
      && r.inproc == Left(t.inproc)
      && r.stored == (if ClearTurn in p.raises then t.stored else Stored(Left(t.inproc), false))
      && r.durable == if b.durable.Some? then Perform(b, p, t, ReleaseDurable).durable else t.durable
  {
    hide Performed, Perform, Releasing, Left;
    var t := Performed(b, p, ops);
    var writer := if t.inproc == CfrActive then [ReleaseInProcess] else [];
    Cleared(b, p, ops);
    WriterReleased(b, p, ops + [ClearTurn]);
    LeaseReleased(b, p, ops + [ClearTurn] + writer);
    ReleaseReadsLease(b, p, t, Performed(b, p, ops + [ClearTurn] + writer));
    assert ops + LettingGo(b, t.inproc) == ops + [ClearTurn] + writer + Releasing(b);
  }

  lemma Cleared(b: Thread, p: Plan, ops: seq<Operation>)
    ensures var t := Performed(b, p, ops);
      Performed(b, p, ops + [ClearTurn]) == if ClearTurn in p.raises then t else t.(stored := Stored(Left(t.inproc), false))
  {
    hide Performed, Left;
    PerformedLast(b, p, ops, ClearTurn);
  }

  lemma WriterReleased(b: Thread, p: Plan, ops: seq<Operation>)
    ensures var t := Performed(b, p, ops);
      Performed(b, p, ops + if t.inproc == CfrActive then [ReleaseInProcess] else []) == t.(inproc := Left(t.inproc))
  {
    hide Performed;
    PerformedLast(b, p, ops, ReleaseInProcess);
    assert ops + [] == ops;
  }

  lemma LeaseReleased(b: Thread, p: Plan, ops: seq<Operation>)
    ensures var t := Performed(b, p, ops);
      Performed(b, p, ops + Releasing(b)) == t.(durable := if b.durable.Some? then Perform(b, p, t, ReleaseDurable).durable else t.durable)
  {
    hide Performed;
    PerformedLast(b, p, ops, ReleaseDurable);
    assert ops + [] == ops;
  }

  lemma ReleaseReadsLease(b: Thread, p: Plan, t: Thread, u: Thread)
    requires t.durable == u.durable
    ensures Perform(b, p, t, ReleaseDurable).durable == Perform(b, p, u, ReleaseDurable).durable
  {
  }

  /** A call that is not admitted: only the durable lease can have changed, by being granted and
      given back, or granted and kept. */
  lemma RefusedLeaves(kind: Kind, b: Thread, p: Plan)
    requires !Admitted(kind, b, p)
    ensures var r, op := After(kind, b, p), Refusal(kind, b, p);
      var granted := if b.durable.Some? then Some(b.durable.value.Grant(p.now, TTL)) else None;
      && Calls(kind, b, p) == Passed(kind, b, op) + [op] + GivesBack(kind, b, op)
      && r.inproc == b.inproc && r.stored == b.stored
      && r.durable ==
           if op.AcquireInProcess? && kind.Update? then granted
           else if GivesBack(kind, b, op) != [] then Perform(b, p, b.(durable := granted), ReleaseDurable).durable
           else b.durable
  {
    var op := Refusal(kind, b, p);
    EnteredExactly(kind, b, p);
    ChecksKeep(kind, b, p, op);
    NotTaken(kind, b, p);
    hide Tried, Failing, Performed, Whole, Admitted, Checks, Perform, Passed, Refusal;
    var passed := Passed(kind, b, op);
    PerformedLast(b, p, passed, op);
    if GivesBack(kind, b, op) == [] {
      assert Calls(kind, b, p) == passed + [op];
    } else {
      assert Calls(kind, b, p) == (passed + [op]) + [ReleaseDurable];
      PerformedLast(b, p, passed + [op], ReleaseDurable);
      ReleaseOnlyLease(b, p, Performed(b, p, passed + [op]));
    }
  }

  lemma ReleaseOnlyLease(b: Thread, p: Plan, t: Thread)
    ensures Perform(b, p, t, ReleaseDurable) == t.(durable := Perform(b, p, t, ReleaseDurable).durable)
  {
  }

  /** The operation that refuses a call changes nothing. */
  lemma NotTaken(kind: Kind, b: Thread, p: Plan)
    requires !Admitted(kind, b, p)
    ensures var op := Refusal(kind, b, p);
      Perform(b, p, Performed(b, p, Passed(kind, b, op)), op) == Performed(b, p, Passed(kind, b, op))
  {
    var op := Refusal(kind, b, p);
    ChecksKeep(kind, b, p, op);
    hide Performed, Passed;
  }

  lemma ChecksKeep(kind: Kind, b: Thread, p: Plan, op: Operation)
    requires !Admitted(kind, b, p) && op == Refusal(kind, b, p)
    ensures Performed(b, p, Passed(kind, b, op)) ==
      if (op.StartHeartbeat? || op.AcquireInProcess?) && b.durable.Some? then b.(durable := Some(b.durable.value.Grant(p.now, TTL))) else b
  {
    hide Performed;
    NothingPerformed(b, p);
    var checks := if op.AcquireDurable? || op.StartHeartbeat? || op.AcquireInProcess? then Checks(kind) else Passed(kind, b, op);
    SilentKeeps(b, p, [], checks);
    assert [] + checks == checks;
    PerformedLast(b, p, checks, AcquireDurable);
    PerformedLast(b, p, checks + [AcquireDurable], StartHeartbeat);
    assert (checks + [AcquireDurable]) + [StartHeartbeat] == checks + [AcquireDurable, StartHeartbeat];
    assert checks + [] == checks;
  }

  // ---------------------------------------------------------------- main results

  /** No call leaves the thread active, whatever fails in it. A call that is not admitted leaves
      state and store as they were; after every other the thread is idle or external, and if the
      store takes the last write, it says the same and knows of no turn. */
  lemma NeverLeftActive(kind: Kind, b: Thread, p: Plan)
    ensures var r := After(kind, b, p);
      if Admitted(kind, b, p) then
        && (r.inproc == Idle || r.inproc == ExternalActive)
        && (ClearTurn !in p.raises ==> r.stored == Stored(r.inproc, false))
      else r.inproc == b.inproc && r.stored == b.stored
  {
    hide Tried, Failing, Performed, Whole, Admitted, Perform, CleanUp;
    EnteredExactly(kind, b, p);
    if Admitted(kind, b, p) {
      BodyLeaves(kind, b, p);
      CleanedUp(b, p, Tried(b, p, Whole(kind)));
    } else {
      RefusedLeaves(kind, b, p);
    }
  }

  /** The calls of an admitted call, in three parts. */
  lemma Parts(kind: Kind, b: Thread, p: Plan)
    requires Admitted(kind, b, p)
    ensures var body := Tried(b, p, Body(kind));
      var t := Performed(b, p, Tried(b, p, Whole(kind)));
      && Calls(kind, b, p) == EntryOps(kind, b) + body + CleanUp(b, p, t.inproc)
      && (forall op | op in body :: OfBody(op))
      && CreateClient in body
  {
    EnteredExactly(kind, b, p);
    BodyIsOfBody(kind);
    TriedOfBody(b, p, Body(kind));
    hide Failing, Performed, Whole, Admitted, Perform, CleanUp, Sending, Updating, Resuming, Checking, OfBody, EntryOps;
    assert CreateClient in Tried(b, p, Body(kind).rest);
    assert CreateClient in Tried(b, p, Body(kind));
    hide Tried, Body;
    SameFailing(kind, b, p, EntryOps(kind, b));
  }

  lemma CleanUpOps(b: Thread, p: Plan, inproc: LeaseState)
    ensures var ops := CleanUp(b, p, inproc);
      && (forall op | op in ops :: OfCleanUp(op))
      && (Close in ops <==> CreateClient !in p.raises) && (Snapshot in ops <==> Close in ops)
  {
  }

  /** What is performed before the clean-up is of the entry or of the body. */
  lemma FrontOps(kind: Kind, b: Thread, p: Plan)
    requires Admitted(kind, b, p)
    ensures var front := Tried(b, p, Whole(kind));
      && Calls(kind, b, p) == front + CleanUp(b, p, Performed(b, p, front).inproc)
      && (forall op | op in front :: !OfCleanUp(op))
      && CreateClient in front && (AcquireDurable in front <==> b.durable.Some?)
  {
    hide Failing, Performed, Perform, CleanUp, OfBody, OfCleanUp, Admitted, Fault, Occurs;
    EnteredExactly(kind, b, p);
    SameFailing(kind, b, p, EntryOps(kind, b));
    Parts(kind, b, p);
    hide Tried, Whole, Body;
    BodyIsNoEntry(Tried(b, p, Body(kind)));
    EntryIsNoCleanUp(kind, b);
  }

  lemma BodyIsNoEntry(ops: seq<Operation>)
    requires forall op | op in ops :: OfBody(op)
    ensures forall op | op in ops :: !OfCleanUp(op)
    ensures AcquireDurable !in ops
  {
  }

  lemma EntryIsNoCleanUp(kind: Kind, b: Thread)
    ensures forall op | op in EntryOps(kind, b) :: !OfCleanUp(op)
    ensures AcquireDurable in EntryOps(kind, b) <==> b.durable.Some?
  {
    if b.durable.Some? {
      assert Granting(b)[0] == AcquireDurable;
      assert EntryOps(kind, b)[|Checks(kind)|] == AcquireDurable;
    }
  }

  /** A client is closed, and its life cycle read, exactly when one was created. */
  lemma EveryClientClosed(kind: Kind, b: Thread, p: Plan)
    ensures var calls := Calls(kind, b, p);
      && (Close in calls <==> CreateClient in calls && CreateClient !in p.raises)
      && (Snapshot in calls <==> Close in calls)
  {
    hide Calls, After, Tried, Failing, Performed, Whole, Perform, Body, CleanUp;
    if Admitted(kind, b, p) {
      FrontOps(kind, b, p);
      CleanUpOps(b, p, Performed(b, p, Tried(b, p, Whole(kind))).inproc);
    } else {
      RefusedLeaves(kind, b, p);
      RefusedOps(kind, b, p);
    }
  }

  lemma RefusedOps(kind: Kind, b: Thread, p: Plan)
    requires !Admitted(kind, b, p)
    ensures var op := Refusal(kind, b, p);
      forall o | o in Passed(kind, b, op) + [op] + GivesBack(kind, b, op) :: OfEntry(o) || o.ReleaseDurable?
  {
    var op := Refusal(kind, b, p);
    hide Admitted, Refusal;
    assert forall o | o in Passed(kind, b, op) :: OfEntry(o);
  }

  /** The call was granted the durable lease. */
  ghost predicate Granted(kind: Kind, b: Thread, p: Plan) {
    AcquireDurable in Calls(kind, b, p) && Fault(b, p, AcquireDurable).None?
  }

  /** An update whose in-process acquisition is refused after the durable one succeeded. */
  predicate LeavesLease(kind: Kind, b: Thread, p: Plan) {
    && kind.Update? && Checked(kind, b, p) && Lendable(b, p) && b.durable.Some?
    && b.inproc != Idle && b.inproc != ExternalActive
  }

  ghost predicate GivenBack(calls: seq<Operation>) {
    |calls| > 0 && calls[|calls| - 1] == ReleaseDurable && ReleaseDurable !in calls[..|calls| - 1]
  }

  /** A durable lease that was granted is released once, as the last thing a call does, whatever
      else fails; only an update that the in-process lease refuses keeps it. */
  lemma EveryLeaseReleased(kind: Kind, b: Thread, p: Plan)
    ensures var calls := Calls(kind, b, p);
      && (Granted(kind, b, p) && !LeavesLease(kind, b, p) ==> GivenBack(calls))
      && (!Granted(kind, b, p) || LeavesLease(kind, b, p) ==> ReleaseDurable !in calls)
  {
    hide Calls, After, Tried, Failing, Performed, Whole, Perform, Body, CleanUp, GivenBack;
    if Admitted(kind, b, p) {
      FrontOps(kind, b, p);
      var front := Tried(b, p, Whole(kind));
      var inproc := Performed(b, p, front).inproc;
      CleanUpOps(b, p, inproc);
      CleanUpReleasesLast(b, p, front, inproc);
    } else {
      RefusedReleases(kind, b, p);
    }
  }

  lemma CleanUpReleasesLast(b: Thread, p: Plan, front: seq<Operation>, inproc: LeaseState)
    requires ReleaseDurable !in front
    ensures var calls := front + CleanUp(b, p, inproc);
      if b.durable.Some? then GivenBack(calls) else ReleaseDurable !in calls
  {
    var before := front + Closing(p) + ([ClearTurn] + if inproc == CfrActive then [ReleaseInProcess] else []);
    assert ReleaseDurable !in before;
    if b.durable.Some? {
      assert front + CleanUp(b, p, inproc) == before + [ReleaseDurable];
      assert (before + [ReleaseDurable])[..|before|] == before;
    } else {
      assert front + CleanUp(b, p, inproc) == before;
    }
  }

  lemma RefusedReleases(kind: Kind, b: Thread, p: Plan)
    requires !Admitted(kind, b, p)
    ensures var calls := Calls(kind, b, p);
      && (Granted(kind, b, p) && !LeavesLease(kind, b, p) ==> GivenBack(calls))
      && (!Granted(kind, b, p) || LeavesLease(kind, b, p) ==> ReleaseDurable !in calls)
  {
    hide Calls, After, Performed, Perform, Fault, Passed;
    RefusedLeaves(kind, b, p);
    var op := Refusal(kind, b, p);
    var front := Passed(kind, b, op) + [op];
    PassedOps(kind, b, op);
    if b.durable.Some? {
      GrantFaults(b, p);
    }
    if GivesBack(kind, b, op) == [ReleaseDurable] {
      assert (front + [ReleaseDurable])[..|front|] == front;
    } else {
      assert Calls(kind, b, p) == front;
    }
  }

  lemma PassedOps(kind: Kind, b: Thread, op: Operation)
    ensures ReleaseDurable !in Passed(kind, b, op)
    ensures AcquireDurable in Passed(kind, b, op) <==>
      op.StartHeartbeat? || (b.durable.Some? && !op.NeedStore? && !op.GetBinding? && !op.CheckWriter? && !op.AcquireDurable?)
  {
    assert b.durable.Some? ==> Granting(b)[0] == AcquireDurable;
    assert b.durable.Some? ==> (Checks(kind) + Granting(b))[|Checks(kind)|] == AcquireDurable;
    assert (Checks(kind) + [AcquireDurable])[|Checks(kind)|] == AcquireDurable;
  }

  // ---------------------------------------------------------------- which error is raised

  lemma {:induction false} FirstFaultTried(b: Thread, p: Plan, script: Script)
    ensures FirstFault(b, p, Tried(b, p, script)) ==
      if Failing(b, p, script).Some? then Fault(b, p, Failing(b, p, script).value) else None
  {
    hide Fault, Occurs;
    if script.Then? {
      FirstFaultTried(b, p, script.rest);
      if Occurs(b, p, script.first) {
        FaultOfOne(b, p, script.first);
        FaultJoin(b, p, [script.first], Tried(b, p, script.rest));
      }
    }
  }

  /** The error of an admitted call is that of the first operation, in the order performed, that
      failed: no clean-up error hides one of the body, nor an earlier one of the clean-up, and a
      call without an error performed nothing that failed. A call that is not admitted raises the
      error it was refused with, unless the lease it has to give back cannot be released. */
  lemma FirstErrorRaised(kind: Kind, b: Thread, p: Plan)
    ensures Admitted(kind, b, p) ==> Result(kind, b, p) == FirstFault(b, p, Calls(kind, b, p))
    ensures !Admitted(kind, b, p) ==>
      var release := Fault(b, p, ReleaseDurable);
      Result(kind, b, p) == if ReleaseDurable in Calls(kind, b, p) && release.Some? then release
                            else Fault(b, p, Refusal(kind, b, p))
  {
    EnteredExactly(kind, b, p);
    if Admitted(kind, b, p) {
      hide Tried, Failing, Performed, Whole, CleanUp, Fault, FirstFault, Admitted;
      FirstFaultTried(b, p, Whole(kind));
      FaultJoin(b, p, Tried(b, p, Whole(kind)), Ending(kind, b, p));
      BodyFaultIsSome(b, p, Whole(kind));
    } else {
      RefusedResult(kind, b, p);
    }
  }

  lemma {:induction false} BodyFaultIsSome(b: Thread, p: Plan, script: Script)
    ensures Failing(b, p, script).Some? ==> Fault(b, p, Failing(b, p, script).value).Some?
  {
    hide Fault, Occurs;
    if script.Then? {
      BodyFaultIsSome(b, p, script.rest);
    }
  }

  lemma RefusedResult(kind: Kind, b: Thread, p: Plan)
    requires !Admitted(kind, b, p) && Refused(kind, b, p) && StopsAtRefusal(kind, b, p)
    ensures var release := Fault(b, p, ReleaseDurable);
      Result(kind, b, p) == if ReleaseDurable in Calls(kind, b, p) && release.Some? then release
                            else Fault(b, p, Refusal(kind, b, p))
  {
    hide Tried, Failing, Performed, Whole, CleanUp, Fault, FirstFault, Admitted, Refusal, Passed;
    var op := Refusal(kind, b, p);
    FaultOfOne(b, p, ReleaseDurable);
    PassedOps(kind, b, op);
    RefusalIsOfEntry(kind, b, p);
    assert Ending(kind, b, p) == [ReleaseDurable] || Ending(kind, b, p) == [];
  }

  lemma RefusalIsOfEntry(kind: Kind, b: Thread, p: Plan)
    requires !Admitted(kind, b, p)
    ensures OfEntry(Refusal(kind, b, p))
  {
  }

  // ---------------------------------------------------------------- the durable lease afterwards

  /** Where durable leases are kept: a lease that was not granted, or that a refused update keeps,
      stays as it is; any other is out of the row unless the release raised or the store failed at
      every attempt, and a row that others took over meanwhile is left to them. */
  lemma LeaseAfter(kind: Kind, b: Thread, p: Plan)
    requires b.durable.Some?
    ensures var row, r := b.durable.value.Grant(p.now, TTL), After(kind, b, p).durable;
      if !Granted(kind, b, p) then r == b.durable
      else if LeavesLease(kind, b, p) then r == Some(row)
      else if p.meanwhile.None? then
        r == Some(if ReleaseDurable in p.raises || p.releaseErrors >= ATTEMPTS then row else row.(row := None))
      else
        r == Some(if ReleaseDurable in p.raises || p.releaseErrors >= ATTEMPTS || !p.meanwhile.value.Holds(row.generation) then
                    p.meanwhile.value
                  else p.meanwhile.value.(row := None))
  {
    hide Calls, After, Perform, Fault;
    if Admitted(kind, b, p) {
      AdmittedLeaseAfter(kind, b, p);
    } else {
      RefusedLeaves(kind, b, p);
      PassedOps(kind, b, Refusal(kind, b, p));
    }
    Released(b, p, b.(durable := Some(b.durable.value.Grant(p.now, TTL))));
    GrantFaults(b, p);
  }

  lemma GrantFaults(b: Thread, p: Plan)
    requires b.durable.Some?
    ensures Fault(b, p, AcquireDurable).None? <==> AcquireDurable !in p.raises && b.durable.value.Free(p.now, p.ownerAlive)
  {
  }

  lemma AdmittedLeaseAfter(kind: Kind, b: Thread, p: Plan)
    requires b.durable.Some? && Admitted(kind, b, p)
    ensures var t := b.(durable := Some(b.durable.value.Grant(p.now, TTL)));
      After(kind, b, p).durable == Perform(b, p, t, ReleaseDurable).durable && AcquireDurable in Calls(kind, b, p)
  {
    hide Calls, Tried, Failing, Performed, Whole, Body, CleanUp, Admitted, Perform;
    FrontOps(kind, b, p);
    BodyLeaves(kind, b, p);
    var front := Tried(b, p, Whole(kind));
    CleanedUp(b, p, front);
    ReleaseReadsLease(b, p, Performed(b, p, front), b.(durable := Some(b.durable.value.Grant(p.now, TTL))));
  }

  /** What the release makes of the row. */
  lemma Released(b: Thread, p: Plan, t: Thread)
    requires b.durable.Some? && t.durable == Some(b.durable.value.Grant(p.now, TTL))
    ensures var row := t.durable.value;
      var meanwhile := if p.meanwhile.Some? then p.meanwhile.value else row;
      Perform(b, p, t, ReleaseDurable).durable ==
        Some(if ReleaseDurable in p.raises || p.releaseErrors >= ATTEMPTS || !meanwhile.Holds(row.generation) then meanwhile
             else meanwhile.(row := None))
  {
  }

  // ---------------------------------------------------------------- an external writer

  lemma {:induction false} TriedOccurs(b: Thread, p: Plan, script: Script)
    ensures forall op | op in Tried(b, p, script) :: Occurs(b, p, op)
  {
    hide Fault, Occurs;
    if script.Then? {
      TriedOccurs(b, p, script.rest);
    }
  }

  /** A rejected call does not go on to recover the thread. */
  lemma RejectedStops(b: Thread, p: Plan, rest: Script)
    requires Rejected(p)
    ensures Recover !in Tried(b, p, Connecting(rest))
  {
    assert Tried(b, p, Checking(rest)) == [MarkExternal] + Tried(b, p, Checking(rest).rest);
    assert Recover !in Tried(b, p, Checking(rest));
    hide Checking, Rejected;
    assert Recover !in Tried(b, p, Resuming(Checking(rest)).rest.rest);
    assert Recover !in Tried(b, p, Resuming(Checking(rest)));
    hide Resuming;
    assert Recover !in Tried(b, p, Connecting(rest).rest.rest);
    assert Recover !in Tried(b, p, Connecting(rest).rest);
  }

  lemma {:induction false} ExternalAfter(b: Thread, p: Plan, done: seq<Operation>, ops: seq<Operation>)
    requires Taken(Performed(b, p, done).inproc) && forall op | op in ops :: OfBody(op)
    requires MarkExternal !in ops || Recover !in ops
    ensures Performed(b, p, done + ops).inproc == ExternalActive <==>
      MarkExternal in ops || (Performed(b, p, done).inproc == ExternalActive && Recover !in ops)
  {
    hide Performed;
    if ops == [] {
      assert done + ops == done;
    } else {
      var last := |ops| - 1;
      assert ops == ops[..last] + [ops[last]] && ops[last] in ops;
      ExternalAfter(b, p, done, ops[..last]);
      BodyKeeps(b, p, done, ops[..last]);
      assert done + ops == (done + ops[..last]) + [ops[last]];
      PerformedLast(b, p, done + ops[..last], ops[last]);
    }
  }

  lemma RejectedOrRecovered(kind: Kind, b: Thread, p: Plan)
    ensures MarkExternal !in Tried(b, p, Body(kind)) || Recover !in Tried(b, p, Body(kind))
  {
    hide Tried, Connecting, Sending, Updating, Rejected;
    TriedOccurs(b, p, Body(kind));
    if Rejected(p) {
      RejectedStops(b, p, if kind.Send? then Sending() else Updating());
    }
  }

  /** After a call that got into its body the thread is external exactly if the app server
      rejected it in this call, or the thread was external before and the call did not get as far
      as recovering it. */
  lemma ExternalExactly(kind: Kind, b: Thread, p: Plan)
    requires Admitted(kind, b, p)
    ensures var calls := Calls(kind, b, p);
      After(kind, b, p).inproc == ExternalActive <==>
        MarkExternal in calls || (b.inproc == ExternalActive && Recover !in calls)
  {
    hide Calls, Tried, Failing, Performed, Whole, Body, CleanUp, Admitted, Perform, EntryOps, At;
    var front, body := Tried(b, p, Whole(kind)), Tried(b, p, Body(kind));
    BodyIsOfBody(kind);
    TriedOfBody(b, p, Body(kind));
    RejectedOrRecovered(kind, b, p);
    FrontOps(kind, b, p);
    EnteredExactly(kind, b, p);
    SameFailing(kind, b, p, EntryOps(kind, b));
    EntryTakes(kind, b, p);
    ExternalAfter(b, p, EntryOps(kind, b), body);
    BodyLeaves(kind, b, p);
    CleanedUp(b, p, front);
    InCalls(kind, b, p, body);
  }

  lemma InCalls(kind: Kind, b: Thread, p: Plan, body: seq<Operation>)
    requires Tried(b, p, Whole(kind)) == EntryOps(kind, b) + body
    requires Calls(kind, b, p) == Tried(b, p, Whole(kind)) + CleanUp(b, p, Performed(b, p, Tried(b, p, Whole(kind))).inproc)
    ensures forall op | OfBody(op) :: op in Calls(kind, b, p) <==> op in body
  {
    hide Calls, Tried, Performed, Whole, CleanUp;
    CleanUpOps(b, p, Performed(b, p, Tried(b, p, Whole(kind))).inproc);
    assert forall op | op in EntryOps(kind, b) :: OfEntry(op);
  }

  /** An update on an external thread is refused before it takes anything: nothing changes, and
      the caller is told why unless the binding cannot be read. */
  lemma UpdateRefusedWhileExternal(b: Thread, p: Plan)
    requires b.inproc == ExternalActive
    ensures After(Update, b, p) == b && AcquireDurable !in Calls(Update, b, p)
    ensures Result(Update, b, p).Some?
    ensures p.hasStore && p.bound && GetBinding !in p.raises ==> Result(Update, b, p) == Some(ExternalWriterActive)
  {
    hide Calls, After, Result, Tried, Failing, Performed, Whole, Body, CleanUp;
    RefusedLeaves(Update, b, p);
    FirstErrorRaised(Update, b, p);
    AfterKeepsId(Update, b, p);
  }

  lemma {:induction false} PerformedKeepsId(b: Thread, p: Plan, ops: seq<Operation>)
    ensures Performed(b, p, ops).id == b.id
  {
    hide Perform;
    if ops != [] {
      PerformedKeepsId(b, p, ops[..|ops| - 1]);
      PerformKeepsId(b, p, Performed(b, p, ops[..|ops| - 1]), ops[|ops| - 1]);
    }
  }

  lemma PerformKeepsId(b: Thread, p: Plan, t: Thread, op: Operation)
    ensures Perform(b, p, t, op).id == t.id
  {
  }

  lemma AfterKeepsId(kind: Kind, b: Thread, p: Plan)
    ensures After(kind, b, p).id == b.id
  {
    PerformedKeepsId(b, p, Calls(kind, b, p));
  }

  /** However a call fails, it does not lock the next one out: after a call that got into its body,
      with the release accepted and nobody else at the lease, a send whose own acquisitions work is
      admitted; and so is an update, unless the thread was found to have an external writer. */
  lemma NextCallIsAdmitted(kind: Kind, b: Thread, p: Plan, next: Kind, q: Plan)
    requires Admitted(kind, b, p) && Fault(b, p, ReleaseDurable).None? && p.meanwhile.None?
    requires q.hasStore && q.bound && GetBinding !in q.raises && AcquireDurable !in q.raises && StartHeartbeat !in q.raises
    ensures Admitted(next, After(kind, b, p), q) <==> next.Send? || After(kind, b, p).inproc == Idle
  {
    hide Calls, After, Performed, Whole;
    NeverLeftActive(kind, b, p);
    if b.durable.Some? {
      LeaseAfter(kind, b, p);
      FrontOps(kind, b, p);
    } else {
      NoLeaseAfter(kind, b, p);
    }
  }

  lemma NoLeaseAfter(kind: Kind, b: Thread, p: Plan)
    requires Admitted(kind, b, p) && b.durable.None?
    ensures After(kind, b, p).durable.None?
  {
    hide Calls, Tried, Failing, Performed, Whole, Body, CleanUp, Admitted;
    FrontOps(kind, b, p);
    BodyLeaves(kind, b, p);
    CleanedUp(b, p, Tried(b, p, Whole(kind)));
  }
}
