/**
 What a call of `send_message` does for its caller: it runs its turn once, between the checks that
 must come first and the writes that must come after, and it succeeds under exactly stated
 conditions. The front of a call, which an update shares, is here too.
 */
module BindingWork {
  import opened Common
  import opened Lease
  import opened Binding
  import opened BindingLaws

  /** `op` is performed exactly once, behind all of `before` and in front of all of `after`. */
  ghost predicate OnceBetween(calls: seq<Operation>, before: set<Operation>, op: Operation, after: set<Operation>) {
    exists i :: 0 <= i < |calls| && calls[i] == op && StandsAt(calls, i, before, op, after)
  }

  predicate StandsAt(calls: seq<Operation>, i: nat, before: set<Operation>, op: Operation, after: set<Operation>)
    requires i < |calls|
  {
    && op !in calls[..i] && op !in calls[i + 1..]
    && (forall x | x in before :: x in calls[..i])
    && (forall x | x in after :: x !in calls[..i] && x in calls[i + 1..])
  }

  // ---------------------------------------------------------------- the conditions

  /** The last request for the thread: an archived thread is restored, and then asked for again. */
  function LastAsked(p: Plan): Operation {
    if !p.resume.IsArchived? then Resume else if p.unarchive.Answered? then ResumeAgain else Unarchive
  }

  /** The answer to it decides. */
  function LastAnswer(p: Plan): Answer {
    if !p.resume.IsArchived? then p.resume else if p.unarchive.Answered? then p.resumeAgain else p.unarchive
  }

  /** A client starts and resumes the thread that was asked for. */
  predicate Resumed(b: Thread, p: Plan) {
    && CreateClient !in p.raises && StartClient !in p.raises && LastAnswer(p).Answered?
    && ReadResumed !in p.raises && p.resumedId == b.id
  }

  /** What was resumed could be stored, and the lease was kept until then. */
  predicate Ready(kind: Kind, b: Thread, p: Plan) {
    && (kind.Send? && p.hasRollout ==> StoreRollout !in p.raises)
    && (p.resumedSettings ==> StoreSettings !in p.raises)
    && (b.durable.Some? ==> !p.lostBefore)
  }

  /** The lease a call was granted is given back. */
  predicate LeaseReturned(b: Thread, p: Plan) {
    b.durable.Some? ==>
      && ReleaseDurable !in p.raises && p.releaseErrors < ATTEMPTS
      && (p.meanwhile.Some? ==> p.meanwhile.value.Holds(b.durable.value.generation + 1))
  }

  /** Nothing fails in the clean-up of a call that had a client. */
  predicate CleansUp(b: Thread, p: Plan) {
    Close !in p.raises && Snapshot !in p.raises && ClearTurn !in p.raises && LeaseReturned(b, p)
  }

  // ---------------------------------------------------------------- walking through a script

  lemma Onward(b: Thread, p: Plan, script: Script, done: seq<Operation>, mid: Script, more: seq<Operation>, rest: Script)
    requires At(b, p, script, done, mid) && At(b, p, mid, more, rest)
    ensures At(b, p, script, done + more, rest)
  {
    hide Tried, Failing;
    assert done + (more + Tried(b, p, rest)) == done + more + Tried(b, p, rest);
  }

  /** The script fails with this error, and has performed nothing but `ops`. */
  predicate FailsWithin(b: Thread, p: Plan, script: Script, ops: set<Operation>, error: Error) {
    && Failing(b, p, script).Some? && Fault(b, p, Failing(b, p, script).value) == Some(error)
    && forall op | op in Tried(b, p, script) :: op in ops
  }

  lemma FailsOnward(b: Thread, p: Plan, script: Script, done: seq<Operation>, mid: Script, ops: set<Operation>,
                    all: set<Operation>, error: Error)
    requires At(b, p, script, done, mid) && FailsWithin(b, p, mid, ops, error)
    requires ops <= all && forall op | op in done :: op in all
    ensures FailsWithin(b, p, script, all, error)
  {
    hide Tried, Failing, Fault;
  }

  /** The requests for the thread that are made. */
  function Asked(p: Plan): seq<Operation> {
    [Resume] + if !p.resume.IsArchived? then [] else [Unarchive] + if p.unarchive.Answered? then [ResumeAgain] else []
  }

  const ASKING: set<Operation> := {Resume, Unarchive, ResumeAgain}

  const STARTING: set<Operation> := {StoreActive, CreateClient, StartClient}

  const CONNECTING: set<Operation> :=
    {StoreActive, CreateClient, StartClient, Resume, Unarchive, ResumeAgain, MarkExternal, StoreExternal, ReadResumed, CheckId}

  /** The request for the thread fails for a reason other than its writer. */
  predicate AskFails(p: Plan) {
    LastAnswer(p).OtherError? || LastAnswer(p).IsArchived?
  }

  lemma ResumingPassed(b: Thread, p: Plan, rest: Script)
    ensures if AskFails(p) then FailsWithin(b, p, Resuming(rest), ASKING, Raised(LastAsked(p)))
            else At(b, p, Resuming(rest), Asked(p), rest)
    ensures Rejected(p) <==> LastAnswer(p).HasActiveWriter?
  {
    ResumeOps(b, p);
    hide Tried, Failing, At, Occurs, Fault;
    var script := Resuming(rest);
    AtStart(b, p, script);
    Next(b, p, script, [], script);
    assert [] + [Resume] == [Resume];
    if !p.resume.OtherError? {
      Next(b, p, script, [Resume], script.rest);
      if !p.resume.IsArchived? {
        Next(b, p, script, [Resume], script.rest.rest);
        assert Asked(p) == [Resume];
      } else if Fault(b, p, Unarchive).None? {
        Next(b, p, script, [Resume] + [Unarchive], script.rest.rest);
        assert Asked(p) == if p.unarchive.Answered? then [Resume] + [Unarchive] + [ResumeAgain] else [Resume] + [Unarchive];
      }
    }
  }

  /** What is wrong with the answer, once there is one. */
  function AnswerError(b: Thread, p: Plan): Option<Error> {
    if LastAnswer(p).HasActiveWriter? then
      Some(if StoreExternal in p.raises then Raised(StoreExternal) else ExternalWriterActive)
    else if ReadResumed in p.raises then Some(Raised(ReadResumed))
    else if p.resumedId != b.id then Some(ThreadIdMismatch)
    else None
  }

  lemma CheckingPassed(b: Thread, p: Plan, rest: Script)
    requires Rejected(p) <==> LastAnswer(p).HasActiveWriter?
    ensures if AnswerError(b, p).None? then At(b, p, Checking(rest), [ReadResumed, CheckId], rest)
            else FailsWithin(b, p, Checking(rest), CONNECTING, AnswerError(b, p).value)
    ensures Rejected(p) ==> MarkExternal in Tried(b, p, Checking(rest))
  {
    CheckOps(b, p);
    hide Tried, Failing, At, Occurs, Fault, Rejected;
    var script := Checking(rest);
    AtStart(b, p, script);
    Next(b, p, script, [], script);
    assert [] + [MarkExternal] == [MarkExternal];
    if Rejected(p) {
      Next(b, p, script, [MarkExternal], script.rest);
      assert ([MarkExternal] + [StoreExternal])[0] == MarkExternal;
    } else {
      Next(b, p, script, [], script.rest);
      Next(b, p, script, [], script.rest.rest);
      assert [] + [ReadResumed] == [ReadResumed];
      if ReadResumed !in p.raises {
        Next(b, p, script, [ReadResumed], script.rest.rest.rest);
        assert [ReadResumed] + [CheckId] == [ReadResumed, CheckId];
      }
    }
  }

  /** What is performed between the start of the body and the resumed thread. */
  function Connected(p: Plan): seq<Operation> {
    [StoreActive] + ([CreateClient, StartClient] + Asked(p) + [ReadResumed, CheckId])
  }

  /** The error of a call that does not get the thread it asks for. */
  function ConnectError(b: Thread, p: Plan): Option<Error> {
    if CreateClient in p.raises then Some(Raised(CreateClient))
    else if StartClient in p.raises then Some(Raised(StartClient))
    else if AskFails(p) then Some(Raised(LastAsked(p)))
    else AnswerError(b, p)
  }

  /** The client is there and the app server names another writer. */
  predicate WriterFound(p: Plan) {
    CreateClient !in p.raises && StartClient !in p.raises && LastAnswer(p).HasActiveWriter?
  }

  lemma ConnectingPassed(b: Thread, p: Plan, rest: Script)
    ensures if ConnectError(b, p).None? then At(b, p, Connecting(rest), Connected(p), rest)
            else FailsWithin(b, p, Connecting(rest), CONNECTING, ConnectError(b, p).value)
    ensures WriterFound(p) ==> MarkExternal in Tried(b, p, Connecting(rest))
  {
    ResumingPassed(b, p, Checking(rest));
    CheckingPassed(b, p, rest);
    ClientStarts(b, p, rest);
    hide Tried, Failing, Occurs, Fault, Rejected, Resuming, Checking, FailsWithin, AnswerError, Asked;
    var script := Connecting(rest);
    var started := [StoreActive, CreateClient, StartClient];
    if CreateClient in p.raises || StartClient in p.raises {
      FailsWidens(b, p, script, STARTING, CONNECTING, ConnectError(b, p).value);
    } else {
      if AskFails(p) {
        FailsOnward(b, p, script, started, Resuming(Checking(rest)), ASKING, CONNECTING, Raised(LastAsked(p)));
      } else {
        Onward(b, p, script, started, Resuming(Checking(rest)), Asked(p), Checking(rest));
        AskedOps(p);
        if AnswerError(b, p).None? {
          Onward(b, p, script, started + Asked(p), Checking(rest), [ReadResumed, CheckId], rest);
          assert started + Asked(p) + [ReadResumed, CheckId] == Connected(p);
        } else {
          FailsOnward(b, p, script, started + Asked(p), Checking(rest), CONNECTING, CONNECTING, AnswerError(b, p).value);
        }
      }
    }
  }

  lemma AskedOps(p: Plan)
    ensures forall op | op in Asked(p) :: op in ASKING
  {
  }

  lemma ClientStarts(b: Thread, p: Plan, rest: Script)
    ensures if CreateClient in p.raises then FailsWithin(b, p, Connecting(rest), STARTING, Raised(CreateClient))
            else if StartClient in p.raises then FailsWithin(b, p, Connecting(rest), STARTING, Raised(StartClient))
            else At(b, p, Connecting(rest), [StoreActive, CreateClient, StartClient], Resuming(Checking(rest)))
  {
    ConnectOps(b, p);
    hide Tried, Failing, At, Occurs, Fault, Resuming, Checking;
    var script := Connecting(rest);
    AtStart(b, p, script);
    Next(b, p, script, [], script);
    assert [] + [StoreActive] == [StoreActive];
    Next(b, p, script, [StoreActive], script.rest);
    assert [StoreActive] + [CreateClient] == [StoreActive, CreateClient];
    if CreateClient !in p.raises {
      Next(b, p, script, [StoreActive, CreateClient], script.rest.rest);
      assert [StoreActive, CreateClient] + [StartClient] == [StoreActive, CreateClient, StartClient];
    }
  }

  function Storing(kind: Kind, p: Plan): seq<Operation> {
    (if kind.Send? && p.hasRollout then [StoreRollout] else []) + if p.resumedSettings then [StoreSettings] else []
  }

  function Looking(b: Thread, op: Operation): seq<Operation> {
    if b.durable.Some? then [op] else []
  }

  /** The work of the call, behind the checks. */
  function Work(kind: Kind): Script {
    if kind.Send? then Turning() else Requesting()
  }

  function Preparing(kind: Kind): Script {
    if kind.Send? then Sending() else Updating()
  }

  const PREPARING: set<Operation> := {StoreRollout, StoreSettings, Recover, CheckLease}

  /** The error of a call that has its thread and does not get to its work. */
  function PrepareError(kind: Kind, b: Thread, p: Plan): Option<Error> {
    if kind.Send? && p.hasRollout && StoreRollout in p.raises then Some(Raised(StoreRollout))
    else if p.resumedSettings && StoreSettings in p.raises then Some(Raised(StoreSettings))
    else if b.durable.Some? && p.lostBefore then Some(LeaseLost)
    else None
  }

  lemma PreparingPassed(kind: Kind, b: Thread, p: Plan)
    ensures if PrepareError(kind, b, p).None? then
              At(b, p, Preparing(kind), Storing(kind, p) + [Recover] + Looking(b, CheckLease), Work(kind))
            else FailsWithin(b, p, Preparing(kind), PREPARING, PrepareError(kind, b, p).value)
  {
    RecoverOps(b, p);
    RolloutOps(b, p);
    hide Tried, Failing, At, Occurs, Fault, Turning, Requesting;
    var script := Preparing(kind);
    AtStart(b, p, script);
    var behind := if kind.Send? then script.rest else script;
    var done: seq<Operation> := if kind.Send? && p.hasRollout then [StoreRollout] else [];
    if kind.Send? {
      Next(b, p, script, [], script);
      assert [] + [StoreRollout] == [StoreRollout];
    }
    if kind.Send? && p.hasRollout ==> StoreRollout !in p.raises {
      Next(b, p, script, done, behind);
      var stored := Storing(kind, p);
      assert stored == if p.resumedSettings then done + [StoreSettings] else done;
      if p.resumedSettings ==> StoreSettings !in p.raises {
        Next(b, p, script, stored, behind.rest);
        Next(b, p, script, stored + [Recover], behind.rest.rest);
        assert b.durable.None? ==> stored + [Recover] + Looking(b, CheckLease) == stored + [Recover];
      }
    }
  }

  lemma RolloutOps(b: Thread, p: Plan)
    ensures p.hasRollout ==> Plain(b, p, StoreRollout)
    ensures !p.hasRollout ==> !Occurs(b, p, StoreRollout)
  {
  }

  /** The operations of a body in front of its work. */
  function Prepared(kind: Kind, b: Thread, p: Plan): seq<Operation> {
    Connected(p) + (Storing(kind, p) + [Recover] + Looking(b, CheckLease))
  }

  const FRONT: set<Operation> := CONNECTING + PREPARING

  /** The error of a call that does not get to its work. */
  function FrontError(kind: Kind, b: Thread, p: Plan): Option<Error> {
    if ConnectError(b, p).Some? then ConnectError(b, p) else PrepareError(kind, b, p)
  }

  lemma NoFrontError(kind: Kind, b: Thread, p: Plan)
    ensures ConnectError(b, p).None? <==> Resumed(b, p)
    ensures FrontError(kind, b, p).None? <==> Resumed(b, p) && Ready(kind, b, p)
  {
  }

  lemma BodyPassed(kind: Kind, b: Thread, p: Plan)
    ensures if FrontError(kind, b, p).None? then At(b, p, Body(kind), Prepared(kind, b, p), Work(kind))
            else FailsWithin(b, p, Body(kind), FRONT, FrontError(kind, b, p).value)
    ensures WriterFound(p) ==> MarkExternal in Tried(b, p, Body(kind))
  {
    hide Tried, Failing, At, Connecting, Preparing, Work, FailsWithin, ConnectError, PrepareError, WriterFound;
    assert Body(kind) == Connecting(Preparing(kind)) by { PreparingIs(kind); }
    ConnectingPassed(b, p, Preparing(kind));
    if ConnectError(b, p).None? {
      PreparingPassed(kind, b, p);
      if PrepareError(kind, b, p).None? {
        Onward(b, p, Body(kind), Connected(p), Preparing(kind), Storing(kind, p) + [Recover] + Looking(b, CheckLease), Work(kind));
      } else {
        ConnectedOps(p);
        FailsOnward(b, p, Body(kind), Connected(p), Preparing(kind), PREPARING, FRONT, PrepareError(kind, b, p).value);
      }
    } else {
      FailsWidens(b, p, Body(kind), CONNECTING, FRONT, ConnectError(b, p).value);
    }
  }

  lemma PreparingIs(kind: Kind)
    ensures Body(kind) == Connecting(Preparing(kind))
  {
  }

  lemma FailsWidens(b: Thread, p: Plan, script: Script, ops: set<Operation>, all: set<Operation>, error: Error)
    requires FailsWithin(b, p, script, ops, error) && ops <= all
    ensures FailsWithin(b, p, script, all, error)
  {
    hide Tried, Failing;
  }

  lemma ConnectedOps(p: Plan)
    ensures forall op | op in Connected(p) :: op in CONNECTING
    ensures CheckId in Connected(p)
  {
    assert Connected(p)[|Connected(p)| - 1] == CheckId;
  }

  // ---------------------------------------------------------------- an admitted call as a whole

  lemma NotAdmittedDoesNothing(kind: Kind, b: Thread, p: Plan)
    requires !Admitted(kind, b, p)
    ensures forall op | OfBody(op) :: op !in Calls(kind, b, p)
    ensures Result(kind, b, p).Some?
  {
    hide Calls, Result, Tried, Failing, Performed, Whole, After, Perform, Passed, GivesBack;
    RefusedLeaves(kind, b, p);
    RefusedOps(kind, b, p);
    FirstErrorRaised(kind, b, p);
    RefusalFails(kind, b, p);
  }

  lemma RefusalFails(kind: Kind, b: Thread, p: Plan)
    requires !Admitted(kind, b, p)
    ensures Fault(b, p, Refusal(kind, b, p)).Some?
  {
    hide Tried, Failing, Whole;
    EnteredExactly(kind, b, p);
    BodyFaultIsSome(b, p, Whole(kind));
  }

  /** The first error of the clean-up. */
  function CleanUpError(b: Thread, p: Plan): Option<Error> {
    if Close in p.raises then Some(Raised(Close))
    else if Snapshot in p.raises then Some(Raised(Snapshot))
    else if ClearTurn in p.raises then Some(Raised(ClearTurn))
    else if b.durable.Some? && ReleaseDurable in p.raises then Some(Raised(ReleaseDurable))
    else if LeaseReturned(b, p) then None
    else Some(LeaseReleaseFailed)
  }

  lemma CleanUpFaults(b: Thread, p: Plan, inproc: LeaseState)
    requires CreateClient !in p.raises
    ensures FirstFault(b, p, CleanUp(b, p, inproc)) == CleanUpError(b, p)
    ensures CleanUpError(b, p).None? <==> CleansUp(b, p)
  {
    CleanUpOneByOne(b, p);
    hide Fault, FirstFault;
    var writer := if inproc == CfrActive then [ReleaseInProcess] else [];
    FaultOfOne(b, p, Close);
    FaultJoin(b, p, [Close], [Snapshot]);
    FaultOfOne(b, p, Snapshot);
    assert Closing(p) == [Close] + [Snapshot];
    FaultJoin(b, p, Closing(p), [ClearTurn]);
    FaultOfOne(b, p, ClearTurn);
    FaultJoin(b, p, Closing(p) + [ClearTurn], writer);
    FaultOfOne(b, p, ReleaseInProcess);
    FaultJoin(b, p, Closing(p) + [ClearTurn] + writer, Releasing(b));
    FaultOfOne(b, p, ReleaseDurable);
    assert CleanUp(b, p, inproc) == Closing(p) + [ClearTurn] + writer + Releasing(b);
  }

  lemma CleanUpOneByOne(b: Thread, p: Plan)
    ensures forall op | op in {Close, Snapshot, ClearTurn} ::
      Fault(b, p, op) == if op in p.raises then Some(Raised(op)) else None
    ensures Fault(b, p, ReleaseInProcess).None?
    ensures b.durable.Some? ==>
      Fault(b, p, ReleaseDurable) == if ReleaseDurable in p.raises then Some(Raised(ReleaseDurable))
                                     else if LeaseReturned(b, p) then None else Some(LeaseReleaseFailed)
  {
  }

  /** What an admitted call performs and raises, seen from its body. */
  lemma AdmittedCall(kind: Kind, b: Thread, p: Plan)
    requires Admitted(kind, b, p)
    ensures var body := Tried(b, p, Body(kind));
      && Calls(kind, b, p) == EntryOps(kind, b) + body + CleanUp(b, p, Performed(b, p, EntryOps(kind, b) + body).inproc)
      && (Failing(b, p, Body(kind)).Some? ==> Fault(b, p, Failing(b, p, Body(kind)).value).Some?)
      && Result(kind, b, p) ==
           if Failing(b, p, Body(kind)).Some? then Fault(b, p, Failing(b, p, Body(kind)).value)
           else FirstFault(b, p, CleanUp(b, p, Performed(b, p, EntryOps(kind, b) + body).inproc))
  {
    hide Tried, Failing, Performed, Whole, Body, Admitted, Perform, CleanUp, EntryOps, Fault, FirstFault;
    EnteredExactly(kind, b, p);
    SameFailing(kind, b, p, EntryOps(kind, b));
    Parts(kind, b, p);
    BodyFaultIsSome(b, p, Body(kind));
  }

  /** What an admitted call performs besides its body. */
  lemma OutsideBody(kind: Kind, b: Thread, p: Plan, inproc: LeaseState)
    ensures forall op | op in EntryOps(kind, b) :: !OfBody(op)
    ensures forall op | op in CleanUp(b, p, inproc) :: !OfBody(op)
  {
    hide CleanUp, EntryOps;
    CleanUpOps(b, p, inproc);
    assert forall op | op in EntryOps(kind, b) :: OfEntry(op) by { EntryIsOfEntry(kind, b); }
  }

  lemma EntryIsOfEntry(kind: Kind, b: Thread)
    ensures forall op | op in EntryOps(kind, b) :: OfEntry(op)
  {
  }

  lemma PreparedOps(kind: Kind, b: Thread, p: Plan)
    ensures forall op | op in Prepared(kind, b, p) :: op in FRONT
    ensures CheckId in Prepared(kind, b, p) && Recover in Prepared(kind, b, p)
    ensures b.durable.Some? ==> CheckLease in Prepared(kind, b, p)
  {
    hide Connected;
    ConnectedOps(p);
    var done := Storing(kind, p) + [Recover];
    assert done[|done| - 1] == Recover;
    assert b.durable.Some? ==> (done + Looking(b, CheckLease))[|done|] == CheckLease;
  }

  /** An admitted call gets to its work, or ends with none of it performed and an error. */
  lemma GetsToWork(kind: Kind, b: Thread, p: Plan)
    requires Admitted(kind, b, p)
    ensures if Resumed(b, p) && Ready(kind, b, p) then At(b, p, Body(kind), Prepared(kind, b, p), Work(kind))
            else
              && Result(kind, b, p) == FrontError(kind, b, p)
              && forall op | OfBody(op) && op !in FRONT :: op !in Calls(kind, b, p)
    ensures WriterFound(p) ==> MarkExternal in Calls(kind, b, p)
  {
    hide Tried, Failing, Performed, Body, Admitted, Perform, CleanUp, EntryOps, Fault, FirstFault, Calls, Result, At, Prepared;
    AdmittedCall(kind, b, p);
    BodyPassed(kind, b, p);
    NoFrontError(kind, b, p);
    hide FrontError, Resumed, Ready, WriterFound;
    OutsideBody(kind, b, p, Performed(b, p, EntryOps(kind, b) + Tried(b, p, Body(kind))).inproc);
  }

  // ---------------------------------------------------------------- a send and its turn

  /** What a turn performs, and the error it ends with. */
  function TurnError(b: Thread, p: Plan): Option<Error> {
    if RunTurn in p.raises then Some(Raised(RunTurn))
    else if b.durable.Some? && p.lostAfter then Some(LeaseLost)
    else if StoreLastSeen in p.raises then Some(Raised(StoreLastSeen))
    else if StoreTurnSync in p.raises then Some(Raised(StoreTurnSync))
    else None
  }

  function Kept(b: Thread): seq<Operation> {
    [RunTurn] + Looking(b, CheckLeaseAfterTurn) + [StoreLastSeen] + [StoreTurnSync]
  }

  lemma TurnPassed(b: Thread, p: Plan)
    ensures var failing := Failing(b, p, Turning());
      && TurnError(b, p) == (if failing.Some? then Fault(b, p, failing.value) else None)
      && (failing.Some? <==> TurnError(b, p).Some?)
      && Tried(b, p, Turning()) != [] && Tried(b, p, Turning()) <= Kept(b)
      && (failing.None? ==> Tried(b, p, Turning()) == Kept(b))
  {
    TurnOps(b, p);
    hide Tried, Failing, At, Occurs, Fault;
    var script := Turning();
    AtStart(b, p, script);
    Next(b, p, script, [], script);
    assert [] + [RunTurn] == [RunTurn];
    if RunTurn !in p.raises {
      Next(b, p, script, [RunTurn], script.rest);
      var looked := [RunTurn] + Looking(b, CheckLeaseAfterTurn);
      assert b.durable.None? ==> looked == [RunTurn];
      if b.durable.Some? ==> !p.lostAfter {
        Next(b, p, script, looked, script.rest.rest);
        if StoreLastSeen !in p.raises {
          Next(b, p, script, looked + [StoreLastSeen], script.rest.rest.rest);
          if StoreTurnSync !in p.raises {
            Next(b, p, script, Kept(b), End);
          }
        }
      }
    }
  }

  /** A send gets as far as its turn exactly when it is admitted, the thread is resumed and what
      was resumed could be stored. The turn is run once, behind the check that it is the right
      thread, the recovery, and the look at the lease. */
  lemma SendRunsItsTurn(b: Thread, p: Plan)
    ensures RunTurn in Calls(Send, b, p) <==> Admitted(Send, b, p) && Resumed(b, p) && Ready(Send, b, p)
    ensures RunTurn in Calls(Send, b, p) ==>
      OnceBetween(Calls(Send, b, p), {CheckId, Recover} + LeaseLook(b, CheckLease), RunTurn, {})
  {
    hide Tried, Failing, Performed, Body, Admitted, Perform, CleanUp, EntryOps, Fault, FirstFault, Calls, Result, Prepared, Turning;
    if !Admitted(Send, b, p) {
      NotAdmittedDoesNothing(Send, b, p);
    } else {
      GetsToWork(Send, b, p);
      if Resumed(b, p) && Ready(Send, b, p) {
        var back := SendParts(b, p);
        var before := EntryOps(Send, b) + Prepared(Send, b, p);
        TurnPassed(b, p);
        PreparedOps(Send, b, p);
        OutsideBody(Send, b, p, Idle);
        var turn := Tried(b, p, Turning());
        assert turn == [RunTurn] + turn[1..];
        var after := turn[1..] + back;
        assert Calls(Send, b, p) == before + [RunTurn] + after;
        Standing(before, RunTurn, after, {CheckId, Recover} + LeaseLook(b, CheckLease), {});
      }
    }
  }

  function LeaseLook(b: Thread, op: Operation): set<Operation> {
    if b.durable.Some? then {op} else {}
  }

  lemma Standing(front: seq<Operation>, op: Operation, back: seq<Operation>, before: set<Operation>, after: set<Operation>)
    requires op !in front && op !in back
    requires (forall x | x in before :: x in front) && (forall x | x in after :: x !in front && x in back)
    ensures OnceBetween(front + [op] + back, before, op, after)
  {
    var calls := front + [op] + back;
    assert calls[|front|] == op && calls[..|front|] == front && calls[|front| + 1..] == back;
    assert StandsAt(calls, |front|, before, op, after);
  }

  /** A send that gets to its turn, in parts; the last is the clean-up. */
  lemma SendParts(b: Thread, p: Plan) returns (back: seq<Operation>)
    requires Admitted(Send, b, p) && Resumed(b, p) && Ready(Send, b, p)
    ensures Calls(Send, b, p) == EntryOps(Send, b) + Prepared(Send, b, p) + Tried(b, p, Turning()) + back
    ensures forall op | op in back :: !OfBody(op)
    ensures Result(Send, b, p) == if TurnError(b, p).Some? then TurnError(b, p) else CleanUpError(b, p)
  {
    hide Tried, Failing, Performed, Body, Admitted, Perform, CleanUp, EntryOps, Fault, FirstFault, Calls, Result, Prepared, Turning;
    AdmittedCall(Send, b, p);
    GetsToWork(Send, b, p);
    TurnPassed(b, p);
    var front := EntryOps(Send, b) + Tried(b, p, Body(Send));
    back := CleanUp(b, p, Performed(b, p, front).inproc);
    OutsideBody(Send, b, p, Performed(b, p, front).inproc);
    CleanUpFaults(b, p, Performed(b, p, front).inproc);
    assert EntryOps(Send, b) + (Prepared(Send, b, p) + Tried(b, p, Turning()))
      == EntryOps(Send, b) + Prepared(Send, b, p) + Tried(b, p, Turning());
  }

  /** What an admitted send raises. One that gets to its turn raises what the turn raised, or says
      that the lease was lost during the turn, or that the turn could not be stored, or what went
      wrong in the clean-up. */
  lemma SendRaises(b: Thread, p: Plan)
    requires Admitted(Send, b, p)
    ensures Result(Send, b, p) ==
      if FrontError(Send, b, p).Some? then FrontError(Send, b, p)
      else if RunTurn in p.raises then Some(Raised(RunTurn))
      else if b.durable.Some? && p.lostAfter then Some(LeaseLost)
      else if StoreLastSeen in p.raises then Some(Raised(StoreLastSeen))
      else if StoreTurnSync in p.raises then Some(Raised(StoreTurnSync))
      else CleanUpError(b, p)
  {
    hide Calls, Result, Tried, Admitted, FrontError, CleanUpError, Resumed, Ready, At;
    NoFrontError(Send, b, p);
    GetsToWork(Send, b, p);
    if FrontError(Send, b, p).None? {
      var back := SendParts(b, p);
    }
  }

  /** What a call raises that is not admitted, unless the lease it gives back cannot be released. */
  function RefusalError(kind: Kind, b: Thread, p: Plan): Error
    requires !Admitted(kind, b, p)
  {
    if !p.hasStore then BindingStoreRequired
    else if GetBinding in p.raises then Raised(GetBinding)
    else if !p.bound then BindingNotFound
    else if kind.Update? && b.inproc == ExternalActive then ExternalWriterActive
    else if b.durable.Some? && AcquireDurable in p.raises then Raised(AcquireDurable)
    else if b.durable.Some? && !b.durable.value.Free(p.now, p.ownerAlive) then LeaseUnavailable
    else if b.durable.Some? && StartHeartbeat in p.raises then Raised(StartHeartbeat)
    else WriterActive
  }

  /** A call gives the durable lease back before its body when the heartbeat does not start, or
      when a send is refused in the process. */
  predicate ReturnsEarly(kind: Kind, b: Thread, p: Plan)
    requires !Admitted(kind, b, p)
  {
    var error := RefusalError(kind, b, p);
    b.durable.Some? && (error == Raised(StartHeartbeat) || (kind.Send? && error == WriterActive))
  }

  lemma RefusedRaises(kind: Kind, b: Thread, p: Plan)
    requires !Admitted(kind, b, p)
    ensures ReleaseDurable in Calls(kind, b, p) <==> ReturnsEarly(kind, b, p)
    ensures Result(kind, b, p) ==
      if !ReturnsEarly(kind, b, p) || LeaseReturned(b, p) then Some(RefusalError(kind, b, p))
      else Some(if ReleaseDurable in p.raises then Raised(ReleaseDurable) else LeaseReleaseFailed)
  {
    RefusalIs(kind, b, p);
    CleanUpOneByOne(b, p);
    hide Calls, Result, Tried, Failing, Performed, Whole, After, Perform, Passed, Admitted, Fault, Refusal, RefusalError, LeaseReturned;
    RefusedLeaves(kind, b, p);
    FirstErrorRaised(kind, b, p);
    PassedOps(kind, b, Refusal(kind, b, p));
    var op := Refusal(kind, b, p);
    assert (Passed(kind, b, op) + [op] + [ReleaseDurable])[|Passed(kind, b, op)| + 1] == ReleaseDurable;
  }

  lemma RefusalIs(kind: Kind, b: Thread, p: Plan)
    requires !Admitted(kind, b, p)
    ensures var op := Refusal(kind, b, p);
      && Fault(b, p, op) == Some(RefusalError(kind, b, p)) && op != ReleaseDurable
      && (GivesBack(kind, b, op) == if ReturnsEarly(kind, b, p) then [ReleaseDurable] else [])
  {
  }

  /** A thread is found to have an external writer exactly when an admitted call has a client and the
      last request for the thread is answered so. The thread is external then, and the caller is
      told, unless the store fails to take it. */
  lemma ExternalWriterFound(kind: Kind, b: Thread, p: Plan)
    ensures MarkExternal in Calls(kind, b, p) <==> Admitted(kind, b, p) && WriterFound(p)
    ensures Admitted(kind, b, p) && WriterFound(p) ==>
      && After(kind, b, p).inproc == ExternalActive
      && Result(kind, b, p) == Some(if StoreExternal in p.raises then Raised(StoreExternal) else ExternalWriterActive)
  {
    hide Calls, Result, Tried, Failing, Performed, Whole, After, Admitted, Body, CleanUp, EntryOps, WriterFound;
    if !Admitted(kind, b, p) {
      NotAdmittedDoesNothing(kind, b, p);
    } else {
      GetsToWork(kind, b, p);
      ExternalExactly(kind, b, p);
      AdmittedCall(kind, b, p);
      OutsideBody(kind, b, p, Performed(b, p, EntryOps(kind, b) + Tried(b, p, Body(kind))).inproc);
      WriterInBody(kind, b, p);
    }
  }

  lemma WriterInBody(kind: Kind, b: Thread, p: Plan)
    ensures MarkExternal in Tried(b, p, Body(kind)) ==> WriterFound(p)
    ensures WriterFound(p) ==>
      && FrontError(kind, b, p) == Some(if StoreExternal in p.raises then Raised(StoreExternal) else ExternalWriterActive)
      && !Resumed(b, p)
  {
    ResumingPassed(b, p, Checking(Preparing(kind)));
    hide Tried, Failing, Preparing, Fault, Connecting, Resuming, Checking;
    TriedOccurs(b, p, Body(kind));
    ClientStarts(b, p, Preparing(kind));
    PreparingIs(kind);
  }

  /** A send that raises nothing has run its turn once, and stored it behind the turn and behind
      the look at the lease; and that is exactly when nothing it performs fails. */
  lemma SendSucceeds(b: Thread, p: Plan)
    ensures Result(Send, b, p).None? <==>
      && Admitted(Send, b, p) && Resumed(b, p) && Ready(Send, b, p)
      && RunTurn !in p.raises && (b.durable.Some? ==> !p.lostAfter)
      && StoreLastSeen !in p.raises && StoreTurnSync !in p.raises && CleansUp(b, p)
    ensures Result(Send, b, p).None? ==> var calls := Calls(Send, b, p);
      && OnceBetween(calls, {CheckId, Recover} + LeaseLook(b, CheckLease), RunTurn,
                     LeaseLook(b, CheckLeaseAfterTurn) + {StoreLastSeen, StoreTurnSync})
      && OnceBetween(calls, {RunTurn} + LeaseLook(b, CheckLeaseAfterTurn), StoreLastSeen, {StoreTurnSync})
  {
    hide Tried, Failing, Performed, Body, Admitted, Perform, CleanUp, EntryOps, Fault, FirstFault, Calls, Result, Prepared, Turning;
    if !Admitted(Send, b, p) {
      NotAdmittedDoesNothing(Send, b, p);
    } else {
      GetsToWork(Send, b, p);
      if Resumed(b, p) && Ready(Send, b, p) {
        var back := SendParts(b, p);
        CleanUpFaults(b, p, Idle);
        TurnPassed(b, p);
        if Result(Send, b, p).None? {
          TurnIsStored(b, p, EntryOps(Send, b) + Prepared(Send, b, p), back);
        }
      }
    }
  }

  /** The parts of a send around its turn: the turn and what follows it is not in front of it, and
      not in the clean-up. */
  predicate Around(b: Thread, front: seq<Operation>, back: seq<Operation>) {
    && CheckId in front && Recover in front && (b.durable.Some? ==> CheckLease in front)
    && (forall op | op in {RunTurn, CheckLeaseAfterTurn, StoreLastSeen, StoreTurnSync} :: op !in front && op !in back)
  }

  lemma TurnIsStored(b: Thread, p: Plan, front: seq<Operation>, back: seq<Operation>)
    requires front == EntryOps(Send, b) + Prepared(Send, b, p) && forall op | op in back :: !OfBody(op)
    ensures var calls := front + Kept(b) + back;
      && OnceBetween(calls, {CheckId, Recover} + LeaseLook(b, CheckLease), RunTurn,
                     LeaseLook(b, CheckLeaseAfterTurn) + {StoreLastSeen, StoreTurnSync})
      && OnceBetween(calls, {RunTurn} + LeaseLook(b, CheckLeaseAfterTurn), StoreLastSeen, {StoreTurnSync})
  {
    hide EntryOps, Prepared, OnceBetween;
    PreparedOps(Send, b, p);
    OutsideBody(Send, b, p, Idle);
    assert Around(b, front, back);
    hide Kept, Looking, LeaseLook, Around;
    TurnStands(b, front, back);
    StoreStands(b, front, back);
  }

  lemma TurnStands(b: Thread, front: seq<Operation>, back: seq<Operation>)
    requires Around(b, front, back)
    ensures OnceBetween(front + Kept(b) + back, {CheckId, Recover} + LeaseLook(b, CheckLease), RunTurn,
                        LeaseLook(b, CheckLeaseAfterTurn) + {StoreLastSeen, StoreTurnSync})
  {
    hide OnceBetween;
    var looks := Looking(b, CheckLeaseAfterTurn);
    var rest := looks + ([StoreLastSeen, StoreTurnSync] + back);
    assert front + Kept(b) + back == front + [RunTurn] + rest;
    assert rest[|looks|] == StoreLastSeen && rest[|looks| + 1] == StoreTurnSync;
    assert b.durable.Some? ==> rest[0] == CheckLeaseAfterTurn;
    Standing(front, RunTurn, rest, {CheckId, Recover} + LeaseLook(b, CheckLease),
             LeaseLook(b, CheckLeaseAfterTurn) + {StoreLastSeen, StoreTurnSync});
  }

  lemma StoreStands(b: Thread, front: seq<Operation>, back: seq<Operation>)
    requires Around(b, front, back)
    ensures OnceBetween(front + Kept(b) + back, {RunTurn} + LeaseLook(b, CheckLeaseAfterTurn), StoreLastSeen, {StoreTurnSync})
  {
    hide OnceBetween;
    var turned, rest := front + ([RunTurn] + Looking(b, CheckLeaseAfterTurn)), [StoreTurnSync] + back;
    assert front + Kept(b) + back == turned + [StoreLastSeen] + rest;
    assert turned[|front|] == RunTurn && rest[0] == StoreTurnSync;
    assert b.durable.Some? ==> turned[|front| + 1] == CheckLeaseAfterTurn;
    Standing(turned, StoreLastSeen, rest, {RunTurn} + LeaseLook(b, CheckLeaseAfterTurn), {StoreTurnSync});
  }

  // ---------------------------------------------------------------- the thread while the work is done

  /** What is performed between the write of the active state and the recovery. */
  function Unchanging(kind: Kind, p: Plan): seq<Operation> {
    [CreateClient, StartClient] + Asked(p) + [ReadResumed, CheckId] + Storing(kind, p)
  }

  lemma UnchangingIsSilent(kind: Kind, p: Plan)
    ensures forall op | op in Unchanging(kind, p) :: Silent(op)
  {
  }

  lemma PreparedParts(kind: Kind, b: Thread, p: Plan)
    ensures Prepared(kind, b, p) == [StoreActive] + Unchanging(kind, p) + [Recover] + Looking(b, CheckLease)
  {
    hide Asked, Storing;
  }

  /** When the work begins the thread is active in the process, it says so in the store unless that
      could not be written, and the durable lease is held. */
  lemma ReadyThread(kind: Kind, b: Thread, p: Plan)
    requires Admitted(kind, b, p)
    ensures var t := Performed(b, p, EntryOps(kind, b) + Prepared(kind, b, p));
      && t.inproc == CfrActive
      && t.stored == (if StoreActive in p.raises then b.stored else b.stored.(writer := CfrActive))
      && t.durable == if b.durable.Some? then Some(b.durable.value.Grant(p.now, TTL)) else None
  {
    PreparedParts(kind, b, p);
    EntryTakes(kind, b, p);
    Preparation(b, p, EntryOps(kind, b), kind);
    hide Performed, Perform, Unchanging, EntryOps, Admitted, Looking, Prepared;
    InFront(EntryOps(kind, b), [StoreActive], Unchanging(kind, p), [Recover], Looking(b, CheckLease));
  }

  lemma InFront(front: seq<Operation>, s: seq<Operation>, t: seq<Operation>, u: seq<Operation>, v: seq<Operation>)
    ensures front + (s + t + u + v) == front + s + t + u + v
  {
  }

  lemma Preparation(b: Thread, p: Plan, entry: seq<Operation>, kind: Kind)
    ensures var t := Performed(b, p, entry);
      Performed(b, p, entry + [StoreActive] + Unchanging(kind, p) + [Recover] + Looking(b, CheckLease)) ==
        t.(stored := if StoreActive in p.raises then t.stored else t.stored.(writer := CfrActive),
           inproc := if t.inproc == ExternalActive then CfrActive else t.inproc)
  {
    UnchangingIsSilent(kind, p);
    hide Performed, Unchanging;
    PerformedLast(b, p, entry, StoreActive);
    var stored := entry + [StoreActive];
    SilentKeeps(b, p, stored, Unchanging(kind, p));
    PerformedLast(b, p, stored + Unchanging(kind, p), Recover);
    SilentKeeps(b, p, stored + Unchanging(kind, p) + [Recover], Looking(b, CheckLease));
  }

  lemma OnceAt(front: seq<Operation>, work: seq<Operation>, back: seq<Operation>, op: Operation, i: nat)
    requires work != [] && work[0] == op && op !in front && op !in work[1..] && op !in back
    requires i < |front + work + back| && (front + work + back)[i] == op
    ensures i == |front| && (front + work + back)[..i] == front
  {
    var calls, rest := front + work + back, work[1..] + back;
    assert forall j | 0 <= j < |front| :: calls[j] == front[j];
    assert forall j | |front| < j < |calls| :: calls[j] == rest[j - |front| - 1];
  }

  /** No turn is run but by a thread that is active, with the lease held, and stored as active. */
  lemma ActiveDuringTurn(b: Thread, p: Plan, i: nat)
    requires i < |Calls(Send, b, p)| && Calls(Send, b, p)[i] == RunTurn
    ensures var t := Performed(b, p, Calls(Send, b, p)[..i]);
      && t.inproc == CfrActive
      && (StoreActive !in p.raises ==> t.stored.writer == CfrActive)
      && t.durable == if b.durable.Some? then Some(b.durable.value.Grant(p.now, TTL)) else None
  {
    hide Calls, Tried, Performed, EntryOps, Prepared, Admitted, Turning, Resumed, Ready, OnceBetween, TurnError, CleanUpError,
      LeaseLook;
    assert RunTurn in Calls(Send, b, p);
    SendRunsItsTurn(b, p);
    var back := SendParts(b, p);
    var front, turn := EntryOps(Send, b) + Prepared(Send, b, p), Tried(b, p, Turning());
    TurnPassed(b, p);
    assert RunTurn !in front by {
      PreparedOps(Send, b, p);
      OutsideBody(Send, b, p, Idle);
    }
    assert turn[0] == RunTurn && RunTurn !in turn[1..];
    OnceAt(front, turn, back, RunTurn, i);
    hide Kept;
    ReadyThread(Send, b, p);
  }

  lemma TurnInScript(b: Thread, p: Plan) returns (rest: seq<Operation>)
    requires Admitted(Send, b, p) && At(b, p, Body(Send), Prepared(Send, b, p), Turning())
    ensures Tried(b, p, Whole(Send)) == EntryOps(Send, b) + Prepared(Send, b, p) + [RunTurn] + rest
    ensures forall op | op in rest :: Silent(op)
  {
    hide Tried, Failing, EntryOps, Prepared, Admitted, Turning, Whole, Body, TurnError;
    EnteredExactly(Send, b, p);
    SameFailing(Send, b, p, EntryOps(Send, b));
    TurnPassed(b, p);
    var front, turn := EntryOps(Send, b) + Prepared(Send, b, p), Tried(b, p, Turning());
    rest := turn[1..];
    assert turn == [RunTurn] + rest;
    assert EntryOps(Send, b) + (Prepared(Send, b, p) + turn) == front + [RunTurn] + rest;
  }

  /** A turn that made progress stays in the store if it cannot be cleared there in the end. */
  lemma UnclearedTurnStays(b: Thread, p: Plan)
    requires RunTurn in Calls(Send, b, p) && ClearTurn in p.raises && p.progressed
    ensures After(Send, b, p).stored == Stored(CfrActive, true)
  {
    SendRunsItsTurn(b, p);
    hide Calls, Tried, Performed, EntryOps, Prepared, Admitted, Turning, Whole, Body, CleanUp, Resumed, Ready, OnceBetween,
      LeaseLook, FrontError, WriterFound;
    GetsToWork(Send, b, p);
    var front := EntryOps(Send, b) + Prepared(Send, b, p);
    var rest := TurnInScript(b, p);
    PerformedLast(b, p, front, RunTurn);
    SilentKeeps(b, p, front + [RunTurn], rest);
    CleanedUp(b, p, Tried(b, p, Whole(Send)));
    CallsOfAdmitted(Send, b, p);
  }

  lemma CallsOfAdmitted(kind: Kind, b: Thread, p: Plan)
    requires Admitted(kind, b, p)
    ensures Calls(kind, b, p) ==
      Tried(b, p, Whole(kind)) + CleanUp(b, p, Performed(b, p, Tried(b, p, Whole(kind))).inproc)
  {
    hide Tried, Failing, Performed, Whole, CleanUp, Admitted;
    EnteredExactly(kind, b, p);
  }

  /** So does a rejection that the store took. */
  lemma UnclearedRejectionStays(kind: Kind, b: Thread, p: Plan)
    requires Admitted(kind, b, p) && WriterFound(p) && StoreExternal !in p.raises && ClearTurn in p.raises
    ensures After(kind, b, p).stored.writer == ExternalActive
  {
    hide Calls, Tried, Failing, Performed, EntryOps, Admitted, Whole, Body, CleanUp, WriterFound;
    EnteredExactly(kind, b, p);
    SameFailing(kind, b, p, EntryOps(kind, b));
    var front := RejectedInBody(kind, b, p);
    var entry := EntryOps(kind, b);
    PerformedLast(b, p, entry + front, StoreExternal);
    assert entry + (front + [StoreExternal]) == entry + front + [StoreExternal];
    CleanedUp(b, p, Tried(b, p, Whole(kind)));
    CallsOfAdmitted(kind, b, p);
  }

  /** The body of a rejected call ends with the write of the rejection. */
  lemma RejectedInBody(kind: Kind, b: Thread, p: Plan) returns (front: seq<Operation>)
    requires WriterFound(p)
    ensures Tried(b, p, Body(kind)) == front + [StoreExternal]
  {
    ResumingPassed(b, p, Checking(Preparing(kind)));
    ClientStarts(b, p, Preparing(kind));
    CheckOps(b, p);
    PreparingIs(kind);
    hide Tried, Failing, Preparing, Fault, Resuming, Asked, Occurs, Rejected;
    var script, rest := Connecting(Preparing(kind)), Checking(Preparing(kind));
    var done := [StoreActive, CreateClient, StartClient] + Asked(p);
    Onward(b, p, script, [StoreActive, CreateClient, StartClient], Resuming(rest), Asked(p), rest);
    Next(b, p, script, done, rest);
    Next(b, p, script, done + [MarkExternal], rest.rest);
    front := done + [MarkExternal];
  }
}
