/**
 What a call of `update_thread_settings` does for its caller: it asks for the change once, has it
 confirmed before it is noted, and succeeds under exactly stated conditions.
 */
module BindingUpdate {
  import opened Common
  import opened Lease
  import opened Binding
  import opened BindingLaws
  import opened BindingWork

  /** Nothing has told the settings by the time the notification is waited for. */
  predicate Untold(p: Plan) {
    !p.resultMissing && !p.notice.Telling?
  }

  /** What the answer, the notification or the second resume says about the settings. */
  predicate Told(p: Plan) {
    if Untold(p) then p.confirmedSettings
    else match p.notice
      case NoNotice => p.resumedSettings
      case Bare => false
      case Telling(settings) => settings
  }

  function Asking(p: Plan): seq<Operation> {
    if p.changes then [Subscribe, RequestUpdate] + [AwaitNotice] else []
  }

  function Reconfirming(p: Plan): seq<Operation> {
    if p.changes && Untold(p) then [ResumeToConfirm, ReadConfirmed, CheckConfirmedId] else []
  }

  function Syncing(p: Plan): seq<Operation> {
    if p.changes && !p.resultMissing then [StoreUpdateSync] else []
  }

  /** The settings are known in the end: as resumed, when there was nothing to change. */
  predicate Known(p: Plan) {
    if p.changes then Told(p) else p.resumedSettings
  }

  lemma AskingPassed(b: Thread, p: Plan)
    ensures if p.changes && Subscribe in p.raises then
              Tried(b, p, Requesting()) == [Subscribe] && Failing(b, p, Requesting()) == Some(Subscribe)
            else if p.changes && RequestUpdate in p.raises then
              Tried(b, p, Requesting()) == [Subscribe, RequestUpdate] && Failing(b, p, Requesting()) == Some(RequestUpdate)
            else At(b, p, Requesting(), Asking(p), Confirming())
    ensures p.changes ==> Fault(b, p, Subscribe) == if Subscribe in p.raises then Some(Raised(Subscribe)) else None
    ensures p.changes ==> Fault(b, p, RequestUpdate) == if RequestUpdate in p.raises then Some(Raised(RequestUpdate)) else None
  {
    RequestOps(b, p);
    hide Tried, Failing, At, Occurs, Fault, Confirming;
    var script := Requesting();
    AtStart(b, p, script);
    Next(b, p, script, [], script);
    if !p.changes {
      Next(b, p, script, [], script.rest);
      Next(b, p, script, [], script.rest.rest);
    } else {
      assert [] + [Subscribe] == [Subscribe];
      if Subscribe !in p.raises {
        Next(b, p, script, [Subscribe], script.rest);
        assert [Subscribe] + [RequestUpdate] == [Subscribe, RequestUpdate];
        if RequestUpdate !in p.raises {
          Next(b, p, script, [Subscribe, RequestUpdate], script.rest.rest);
        }
      }
    }
  }

  const CONFIRMING: set<Operation> :=
    {ResumeToConfirm, ReadConfirmed, CheckConfirmedId, StoreConfirmed, NeedSettings, CheckLeaseAfterUpdate, StoreUpdateSync, Project}

  /** The error of a second resume. */
  function ReconfirmError(b: Thread, p: Plan): Option<Error> {
    if !(p.changes && Untold(p)) then None
    else if ResumeToConfirm in p.raises then Some(Raised(ResumeToConfirm))
    else if ReadConfirmed in p.raises then Some(Raised(ReadConfirmed))
    else if p.confirmedId != b.id then Some(ThreadIdMismatch)
    else None
  }

  lemma ReconfirmingPassed(b: Thread, p: Plan)
    ensures if ReconfirmError(b, p).Some? then
              FailsWithin(b, p, Confirming(), CONFIRMING, ReconfirmError(b, p).value)
            else At(b, p, Confirming(), Reconfirming(p), Finishing())
  {
    ConfirmOps(b, p);
    assert MustConfirm(p) == (p.changes && Untold(p));
    hide Tried, Failing, At, Occurs, Fault, Finishing, MustConfirm;
    var script := Confirming();
    AtStart(b, p, script);
    Next(b, p, script, [], script);
    if !(p.changes && Untold(p)) {
      Next(b, p, script, [], script.rest);
      Next(b, p, script, [], script.rest.rest);
    } else {
      assert [] + [ResumeToConfirm] == [ResumeToConfirm];
      if ResumeToConfirm !in p.raises {
        Next(b, p, script, [ResumeToConfirm], script.rest);
        assert [ResumeToConfirm] + [ReadConfirmed] == [ResumeToConfirm, ReadConfirmed];
        if ReadConfirmed !in p.raises {
          Next(b, p, script, [ResumeToConfirm, ReadConfirmed], script.rest.rest);
          assert [ResumeToConfirm, ReadConfirmed] + [CheckConfirmedId] == [ResumeToConfirm, ReadConfirmed, CheckConfirmedId];
        }
      }
    }
  }

  /** The error behind the confirmation. */
  function FinishError(b: Thread, p: Plan): Option<Error> {
    if !Known(p) then Some(ConfirmationUnavailable)
    else if StoreConfirmed in p.raises then Some(Raised(StoreConfirmed))
    else if b.durable.Some? && p.lostAfter then Some(LeaseLost)
    else if p.changes && !p.resultMissing && StoreUpdateSync in p.raises then Some(Raised(StoreUpdateSync))
    else if Project in p.raises then Some(Raised(Project))
    else None
  }

  /** What an update performs behind a confirmation that nothing is wrong with. */
  function Finished(b: Thread, p: Plan): seq<Operation> {
    [StoreConfirmed, NeedSettings] + Looking(b, CheckLeaseAfterUpdate) + Syncing(p) + [Project]
  }

  lemma FinishingPassed(b: Thread, p: Plan)
    ensures if FinishError(b, p).Some? then
              FailsWithin(b, p, Finishing(), CONFIRMING, FinishError(b, p).value)
            else Tried(b, p, Finishing()) == Finished(b, p) && Failing(b, p, Finishing()).None?
  {
    FinishOps(b, p);
    KnownIsConfirmed(p);
    hide Tried, Failing, At, Occurs, Fault, Confirmed, Known;
    var script := Finishing();
    AtStart(b, p, script);
    Next(b, p, script, [], script);
    if !Known(p) {
      Next(b, p, script, [], script.rest);
      assert [] + [NeedSettings] == [NeedSettings];
    } else {
      assert [] + [StoreConfirmed] == [StoreConfirmed];
      if StoreConfirmed !in p.raises {
        Next(b, p, script, [StoreConfirmed], script.rest);
        assert [StoreConfirmed] + [NeedSettings] == [StoreConfirmed, NeedSettings];
        EndingPassed(b, p, script, [StoreConfirmed, NeedSettings], script.rest.rest);
      }
    }
  }

  lemma KnownIsConfirmed(p: Plan)
    ensures Known(p) == Confirmed(p)
  {
  }

  lemma EndingPassed(b: Thread, p: Plan, script: Script, done: seq<Operation>, rest: Script)
    requires At(b, p, script, done, rest) && rest == Then(CheckLeaseAfterUpdate, Then(StoreUpdateSync, Then(Project, End)))
    requires Known(p) && StoreConfirmed !in p.raises && done == [StoreConfirmed, NeedSettings]
    ensures if FinishError(b, p).Some? then FailsWithin(b, p, script, CONFIRMING, FinishError(b, p).value)
            else Tried(b, p, script) == Finished(b, p) && Failing(b, p, script).None?
  {
    EndOps(b, p);
    SyncOps(b, p);
    hide Tried, Failing, At, Occurs, Fault, Known;
    Next(b, p, script, done, rest);
    if b.durable.Some? ==> !p.lostAfter {
      var looked := done + Looking(b, CheckLeaseAfterUpdate);
      assert b.durable.None? ==> looked == done;
      Next(b, p, script, looked, rest.rest);
      var synced := looked + Syncing(p);
      assert Syncing(p) == [] ==> synced == looked;
      if p.changes && !p.resultMissing ==> StoreUpdateSync !in p.raises {
        Next(b, p, script, synced, rest.rest.rest);
        if Project !in p.raises {
          Next(b, p, script, Finished(b, p), End);
        }
      }
    }
  }

  /** The error of an update behind the checks, in front of the clean-up. */
  function UpdateError(b: Thread, p: Plan): Option<Error> {
    if p.changes && Subscribe in p.raises then Some(Raised(Subscribe))
    else if p.changes && RequestUpdate in p.raises then Some(Raised(RequestUpdate))
    else if ReconfirmError(b, p).Some? then ReconfirmError(b, p)
    else FinishError(b, p)
  }

  /** All that an update performs behind the checks when nothing fails. */
  function Updated(b: Thread, p: Plan): seq<Operation> {
    Asking(p) + (Reconfirming(p) + Finished(b, p))
  }

  /** The update is requested first, and only once. */
  predicate AsksFirst(p: Plan, ops: seq<Operation>) {
    if p.changes && Subscribe !in p.raises then
      |ops| >= 2 && ops[0] == Subscribe && ops[1] == RequestUpdate && RequestUpdate !in ops[2..]
    else RequestUpdate !in ops
  }

  lemma RequestingPassed(b: Thread, p: Plan)
    ensures var failing := Failing(b, p, Requesting());
      && (failing.Some? <==> UpdateError(b, p).Some?)
      && UpdateError(b, p) == (if failing.Some? then Fault(b, p, failing.value) else None)
      && AsksFirst(p, Tried(b, p, Requesting()))
      && (failing.None? ==> Tried(b, p, Requesting()) == Updated(b, p))
  {
    hide Tried, Failing, Occurs, Fault, Confirming, Finishing, Finished, FinishError, ReconfirmError, Requesting;
    AskingPassed(b, p);
    var ops := Tried(b, p, Requesting());
    if p.changes && (Subscribe in p.raises || RequestUpdate in p.raises) {
    } else {
      ReconfirmingPassed(b, p);
      FinishingPassed(b, p);
      if ReconfirmError(b, p).Some? {
        LaterOps(b, p, Tried(b, p, Confirming()));
      } else {
        Onward(b, p, Requesting(), Asking(p), Confirming(), Reconfirming(p), Finishing());
        assert Asking(p) + Reconfirming(p) + Tried(b, p, Finishing()) == Asking(p) + (Reconfirming(p) + Tried(b, p, Finishing()));
        FinishedOps(b, p);
        LaterOps(b, p, Reconfirming(p) + Tried(b, p, Finishing()));
      }
    }
  }

  lemma FinishedOps(b: Thread, p: Plan)
    ensures forall op | op in Finished(b, p) :: op in CONFIRMING
  {
  }

  lemma LaterOps(b: Thread, p: Plan, more: seq<Operation>)
    requires forall op | op in more :: op in CONFIRMING
    requires p.changes ==> Subscribe !in p.raises
    ensures AsksFirst(p, Asking(p) + more)
  {
    assert p.changes ==> (Asking(p) + more)[2..] == [AwaitNotice] + more;
  }

  /** An update that gets to its work, in parts; the last is the clean-up. */
  lemma UpdateParts(b: Thread, p: Plan) returns (back: seq<Operation>)
    requires Admitted(Update, b, p) && Resumed(b, p) && Ready(Update, b, p)
    ensures Calls(Update, b, p) == EntryOps(Update, b) + Prepared(Update, b, p) + Tried(b, p, Requesting()) + back
    ensures forall op | op in back :: !OfBody(op)
    ensures Result(Update, b, p) == if UpdateError(b, p).Some? then UpdateError(b, p) else CleanUpError(b, p)
  {
    hide Tried, Failing, Performed, Body, Admitted, Perform, CleanUp, EntryOps, Fault, FirstFault, Calls, Result, Prepared,
      Requesting, UpdateError;
    AdmittedCall(Update, b, p);
    GetsToWork(Update, b, p);
    RequestingPassed(b, p);
    var front := EntryOps(Update, b) + Tried(b, p, Body(Update));
    back := CleanUp(b, p, Performed(b, p, front).inproc);
    OutsideBody(Update, b, p, Performed(b, p, front).inproc);
    CleanUpFaults(b, p, Performed(b, p, front).inproc);
    assert EntryOps(Update, b) + (Prepared(Update, b, p) + Tried(b, p, Requesting()))
      == EntryOps(Update, b) + Prepared(Update, b, p) + Tried(b, p, Requesting());
  }

  /** An update asks the app server for the change exactly when it is admitted, the thread is
      resumed, what was resumed could be stored, and there is something to change and a way to hear
      of it. It asks once, behind the check that it is the right thread, the recovery, the look at
      the lease and the subscription. */
  lemma UpdateAsksOnce(b: Thread, p: Plan)
    ensures RequestUpdate in Calls(Update, b, p) <==>
      Admitted(Update, b, p) && Resumed(b, p) && Ready(Update, b, p) && p.changes && Subscribe !in p.raises
    ensures RequestUpdate in Calls(Update, b, p) ==>
      OnceBetween(Calls(Update, b, p), {CheckId, Recover, Subscribe} + LeaseLook(b, CheckLease), RequestUpdate, {})
  {
    hide Tried, Failing, Performed, Body, Admitted, Perform, CleanUp, EntryOps, Fault, FirstFault, Calls, Result, Prepared,
      Requesting, UpdateError;
    if !Admitted(Update, b, p) {
      NotAdmittedDoesNothing(Update, b, p);
    } else {
      GetsToWork(Update, b, p);
      if Resumed(b, p) && Ready(Update, b, p) {
        var back := UpdateParts(b, p);
        RequestingPassed(b, p);
        PreparedOps(Update, b, p);
        OutsideBody(Update, b, p, Idle);
        RequestStands(b, p, EntryOps(Update, b) + Prepared(Update, b, p), Tried(b, p, Requesting()), back);
      }
    }
  }

  lemma RequestStands(b: Thread, p: Plan, front: seq<Operation>, work: seq<Operation>, back: seq<Operation>)
    requires AsksFirst(p, work) && RequestUpdate !in front && RequestUpdate !in back
    requires CheckId in front && Recover in front && (b.durable.Some? ==> CheckLease in front)
    ensures var calls := front + work + back;
      && (RequestUpdate in calls <==> p.changes && Subscribe !in p.raises)
      && (RequestUpdate in calls ==>
            OnceBetween(calls, {CheckId, Recover, Subscribe} + LeaseLook(b, CheckLease), RequestUpdate, {}))
  {
    hide OnceBetween;
    if p.changes && Subscribe !in p.raises {
      var before, after := front + [Subscribe], work[2..] + back;
      assert front + work + back == before + [RequestUpdate] + after;
      assert before[|front|] == Subscribe && (before + [RequestUpdate] + after)[|before|] == RequestUpdate;
      Standing(before, RequestUpdate, after, {CheckId, Recover, Subscribe} + LeaseLook(b, CheckLease), {});
    }
  }

  /** What an admitted update raises. Without a notification that tells the settings the thread is
      resumed once more, and what comes back is told; without a change the thread as resumed tells
      the settings. */
  lemma UpdateRaises(b: Thread, p: Plan)
    requires Admitted(Update, b, p)
    ensures var again := p.changes && !p.resultMissing && !p.notice.Telling?;
      var told := if again then p.confirmedSettings
                  else if !p.changes || p.notice.NoNotice? then p.resumedSettings
                  else p.notice.Telling? && p.notice.settings;
      Result(Update, b, p) ==
        if FrontError(Update, b, p).Some? then FrontError(Update, b, p)
        else if p.changes && Subscribe in p.raises then Some(Raised(Subscribe))
        else if p.changes && RequestUpdate in p.raises then Some(Raised(RequestUpdate))
        else if again && ResumeToConfirm in p.raises then Some(Raised(ResumeToConfirm))
        else if again && ReadConfirmed in p.raises then Some(Raised(ReadConfirmed))
        else if again && p.confirmedId != b.id then Some(ThreadIdMismatch)
        else if !told then Some(ConfirmationUnavailable)
        else if StoreConfirmed in p.raises then Some(Raised(StoreConfirmed))
        else if b.durable.Some? && p.lostAfter then Some(LeaseLost)
        else if p.changes && !p.resultMissing && StoreUpdateSync in p.raises then Some(Raised(StoreUpdateSync))
        else if Project in p.raises then Some(Raised(Project))
        else CleanUpError(b, p)
  {
    hide Calls, Result, Tried, Admitted, FrontError, CleanUpError, Resumed, Ready, At;
    NoFrontError(Update, b, p);
    GetsToWork(Update, b, p);
    if FrontError(Update, b, p).None? {
      var back := UpdateParts(b, p);
    }
  }

  /** The change is made, where there is one, and the settings are known and stored. */
  predicate Confirms(b: Thread, p: Plan) {
    && (p.changes ==>
          && Subscribe !in p.raises && RequestUpdate !in p.raises && (!p.resultMissing ==> StoreUpdateSync !in p.raises)
          && (Untold(p) ==> ResumeToConfirm !in p.raises && ReadConfirmed !in p.raises && p.confirmedId == b.id))
    && Known(p) && StoreConfirmed !in p.raises && (b.durable.Some? ==> !p.lostAfter) && Project !in p.raises
  }

  lemma NoUpdateError(b: Thread, p: Plan)
    ensures UpdateError(b, p).None? <==> Confirms(b, p)
  {
  }

  /** An update succeeds exactly when nothing it performs fails and the settings are known in the
      end. */
  lemma UpdateSucceeds(b: Thread, p: Plan)
    ensures Result(Update, b, p).None? <==>
      Admitted(Update, b, p) && Resumed(b, p) && Ready(Update, b, p) && Confirms(b, p) && CleansUp(b, p)
  {
    NoUpdateError(b, p);
    hide Calls, Result, Tried, CleanUpError, Admitted, UpdateError, CleansUp, At, Confirms;
    if !Admitted(Update, b, p) {
      NotAdmittedDoesNothing(Update, b, p);
    } else {
      GetsToWork(Update, b, p);
      if Resumed(b, p) && Ready(Update, b, p) {
        var back := UpdateParts(b, p);
        CleanUpFaults(b, p, Idle);
      }
    }
  }

  function Sync(p: Plan): set<Operation> {
    if p.resultMissing then {} else {StoreUpdateSync}
  }

  function Again(p: Plan): set<Operation> {
    if Untold(p) then {ResumeToConfirm, CheckConfirmedId} else {}
  }

  /** An update that raises nothing was confirmed: it asked once for the change, resumed the thread
      again behind that where nothing else told the settings, stored what it was told behind both,
      and noted the change only behind the look at the lease. Without a change it asks for nothing
      and notes nothing. */
  lemma UpdateIsConfirmed(b: Thread, p: Plan)
    requires Result(Update, b, p).None?
    ensures var calls := Calls(Update, b, p);
      if p.changes then
        && OnceBetween(calls, {CheckId, Recover, Subscribe} + LeaseLook(b, CheckLease), RequestUpdate, {})
        && OnceBetween(calls, {RequestUpdate} + Again(p), StoreConfirmed, LeaseLook(b, CheckLeaseAfterUpdate) + Sync(p))
        && (!p.resultMissing ==> OnceBetween(calls, {StoreConfirmed} + LeaseLook(b, CheckLeaseAfterUpdate), StoreUpdateSync, {}))
      else RequestUpdate !in calls && StoreUpdateSync !in calls
  {
    hide Tried, Failing, Performed, Body, Admitted, Perform, CleanUp, EntryOps, Fault, FirstFault, Calls, Result, Prepared,
      Requesting, UpdateError, Updated, OnceBetween, CleansUp, Confirms;
    NoUpdateError(b, p);
    UpdateSucceeds(b, p);
    UpdateAsksOnce(b, p);
    var back := UpdateParts(b, p);
    RequestingPassed(b, p);
    PreparedOps(Update, b, p);
    OutsideBody(Update, b, p, Idle);
    var front := EntryOps(Update, b) + Prepared(Update, b, p);
    assert Apart(front, back);
    hide Apart, LeaseLook, Again, Sync;
    if p.changes {
      UpdateErrorNone(b, p);
      ConfirmedStands(b, p, front, back);
      if !p.resultMissing {
        SyncStands(b, p, front, back);
      }
    } else {
      NothingAsked(b, p, front, back);
    }
  }

  /** Nothing of the work of an update is in front of it or in the clean-up. */
  predicate Apart(front: seq<Operation>, back: seq<Operation>) {
    forall op | op in {StoreConfirmed, CheckLeaseAfterUpdate, StoreUpdateSync, RequestUpdate} :: op !in front && op !in back
  }

  lemma UpdateErrorNone(b: Thread, p: Plan)
    requires UpdateError(b, p).None? && p.changes
    ensures Subscribe !in p.raises
  {
  }

  lemma ConfirmedStands(b: Thread, p: Plan, front: seq<Operation>, back: seq<Operation>)
    requires Apart(front, back) && p.changes
    ensures OnceBetween(front + Updated(b, p) + back, {RequestUpdate} + Again(p), StoreConfirmed,
                        LeaseLook(b, CheckLeaseAfterUpdate) + Sync(p))
  {
    var asked := Asking(p) + Reconfirming(p);
    var noted := [NeedSettings] + Looking(b, CheckLeaseAfterUpdate) + Syncing(p) + [Project];
    assert Updated(b, p) == asked + [StoreConfirmed] + noted;
    var before, after := front + asked, noted + back;
    assert front + Updated(b, p) + back == before + [StoreConfirmed] + after;
    RequestedOps(p);
    NotedOps(b, p);
    hide OnceBetween, Updated, Asking, Reconfirming, Looking, Syncing, LeaseLook, Again, Sync;
    Standing(before, StoreConfirmed, after, {RequestUpdate} + Again(p), LeaseLook(b, CheckLeaseAfterUpdate) + Sync(p));
  }

  lemma RequestedOps(p: Plan)
    requires p.changes
    ensures var asked := Asking(p) + Reconfirming(p);
      && RequestUpdate in asked && (forall x | x in Again(p) :: x in asked)
      && StoreConfirmed !in asked && CheckLeaseAfterUpdate !in asked && StoreUpdateSync !in asked
  {
    var asked := Asking(p) + Reconfirming(p);
    assert asked[1] == RequestUpdate;
    assert Untold(p) ==> asked[3] == ResumeToConfirm && asked[5] == CheckConfirmedId;
  }

  lemma NotedOps(b: Thread, p: Plan)
    requires p.changes
    ensures var noted := [NeedSettings] + Looking(b, CheckLeaseAfterUpdate) + Syncing(p) + [Project];
      && StoreConfirmed !in noted
      && (forall x | x in LeaseLook(b, CheckLeaseAfterUpdate) + Sync(p) :: x in noted)
      && (forall x | x in LeaseLook(b, CheckLeaseAfterUpdate) + Sync(p) :: x == CheckLeaseAfterUpdate || x == StoreUpdateSync)
  {
    var looks := Looking(b, CheckLeaseAfterUpdate);
    var noted := [NeedSettings] + looks + Syncing(p) + [Project];
    assert b.durable.Some? ==> noted[1] == CheckLeaseAfterUpdate;
    assert !p.resultMissing ==> noted[1 + |looks|] == StoreUpdateSync;
  }

  lemma SyncStands(b: Thread, p: Plan, front: seq<Operation>, back: seq<Operation>)
    requires Apart(front, back) && p.changes && !p.resultMissing
    ensures OnceBetween(front + Updated(b, p) + back, {StoreConfirmed} + LeaseLook(b, CheckLeaseAfterUpdate), StoreUpdateSync, {})
  {
    hide OnceBetween;
    var asked := Asking(p) + Reconfirming(p);
    var before, after := front + asked + ([StoreConfirmed, NeedSettings] + Looking(b, CheckLeaseAfterUpdate)), [Project] + back;
    assert front + Updated(b, p) + back == before + [StoreUpdateSync] + after;
    assert before[|front| + |asked|] == StoreConfirmed;
    assert b.durable.Some? ==> before[|front| + |asked| + 2] == CheckLeaseAfterUpdate;
    Standing(before, StoreUpdateSync, after, {StoreConfirmed} + LeaseLook(b, CheckLeaseAfterUpdate), {});
  }

  lemma NothingAsked(b: Thread, p: Plan, front: seq<Operation>, back: seq<Operation>)
    requires Apart(front, back) && !p.changes
    ensures RequestUpdate !in front + Updated(b, p) + back && StoreUpdateSync !in front + Updated(b, p) + back
  {
    assert forall op | op in Updated(b, p) :: op != RequestUpdate && op != StoreUpdateSync;
  }
}
