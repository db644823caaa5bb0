/**
 One call of `send_message` or `update_thread_settings`, from its first check to the end of its
 clean-up. Every operation that the call performs on the store, the leases or the app server can
 fail; which of them do, and what the others answer, is the `Plan`. The operations of a call stand
 in a `Script`: a failure ends the script, and the clean-up is a list that no failure cuts short.
 */
module Binding {
  import opened Common
  import opened Lease

  datatype Operation =
    // before the guarded body
    | NeedStore | GetBinding | CheckWriter | AcquireDurable | StartHeartbeat | AcquireInProcess
    // up to the resumed thread
    | StoreActive | CreateClient | StartClient | Resume | Unarchive | ResumeAgain | MarkExternal | StoreExternal
    | ReadResumed | CheckId | StoreSettings | Recover | CheckLease
    // a turn
    | StoreRollout | RunTurn | CheckLeaseAfterTurn | StoreLastSeen | StoreTurnSync
    // a settings update
    | Subscribe | RequestUpdate | AwaitNotice | ResumeToConfirm | ReadConfirmed | CheckConfirmedId
    | StoreConfirmed | NeedSettings | CheckLeaseAfterUpdate | StoreUpdateSync | Project
    // clean-up
    | Close | Snapshot | ClearTurn | ReleaseInProcess | ReleaseDurable

  datatype Error =
    | Raised(operation: Operation)
    | BindingStoreRequired | BindingNotFound | LeaseUnavailable | WriterActive | ExternalWriterActive
    | ThreadIdMismatch | LeaseLost | ConfirmationUnavailable | LeaseReleaseFailed

  /** How the app server answers a request to resume or restore a thread. */
  datatype Answer = Answered | HasActiveWriter | IsArchived | OtherError

  /** The notification that an update waits for: none in time, one without parameters, or one with. */
  datatype Notice = NoNotice | Bare | Telling(settings: bool)

  /** What the call meets. An operation in `raises` raises an exception when it is performed.
      `meanwhile` is what others have made of the durable lease by the time it is released, and
      `releaseErrors` how often in a row the store then fails. */
  datatype Plan = Plan(
    raises: set<Operation>,
    hasStore: bool, bound: bool,
    now: int, ownerAlive: bool, meanwhile: Option<Durable>, releaseErrors: nat,
    resume: Answer, unarchive: Answer, resumeAgain: Answer,
    resumedId: ThreadId, hasRollout: bool, resumedSettings: bool,
    lostBefore: bool, lostAfter: bool, progressed: bool,
    changes: bool, resultMissing: bool, notice: Notice, confirmedId: ThreadId, confirmedSettings: bool)

  datatype Stored = Stored(writer: LeaseState, turn: bool)

  /** A thread as the call finds and leaves it; `durable` is absent when no durable leases are kept. */
  datatype Thread = Thread(id: ThreadId, inproc: LeaseState, stored: Stored, durable: Option<Durable>)

  // ---------------------------------------------------------------- scripts

  datatype Script = End | Then(first: Operation, rest: Script)

  function Leasing(rest: Script): Script {
    Then(AcquireDurable, Then(StartHeartbeat, Then(AcquireInProcess, rest)))
  }

  function Entering(kind: Kind, rest: Script): Script {
    Then(NeedStore, Then(GetBinding, if kind.Send? then Leasing(rest) else Then(CheckWriter, Leasing(rest))))
  }

  function Connecting(rest: Script): Script {
    Then(StoreActive, Then(CreateClient, Then(StartClient, Resuming(Checking(rest)))))
  }

  function Resuming(rest: Script): Script {
    Then(Resume, Then(Unarchive, Then(ResumeAgain, rest)))
  }

  function Checking(rest: Script): Script {
    Then(MarkExternal, Then(StoreExternal, Then(ReadResumed, Then(CheckId, rest))))
  }

  function Sending(): Script {
    Then(StoreRollout, Then(StoreSettings, Then(Recover, Then(CheckLease, Turning()))))
  }

  function Turning(): Script {
    Then(RunTurn, Then(CheckLeaseAfterTurn, Then(StoreLastSeen, Then(StoreTurnSync, End))))
  }

  function Updating(): Script {
    Then(StoreSettings, Then(Recover, Then(CheckLease, Requesting())))
  }

  function Requesting(): Script {
    Then(Subscribe, Then(RequestUpdate, Then(AwaitNotice, Confirming())))
  }

  function Confirming(): Script {
    Then(ResumeToConfirm, Then(ReadConfirmed, Then(CheckConfirmedId, Finishing())))
  }

  function Finishing(): Script {
    Then(StoreConfirmed, Then(NeedSettings, Then(CheckLeaseAfterUpdate, Then(StoreUpdateSync, Then(Project, End)))))
  }

  function Body(kind: Kind): Script {
    Connecting(if kind.Send? then Sending() else Updating())
  }

  function Whole(kind: Kind): Script {
    Entering(kind, Body(kind))
  }

  /** Operations in front of the guarded body. */
  predicate OfEntry(op: Operation) {
    op.NeedStore? || op.GetBinding? || op.CheckWriter? || op.AcquireDurable? || op.StartHeartbeat? || op.AcquireInProcess?
  }

  /** The app server refuses the thread because another process writes it. */
  predicate Rejected(p: Plan) {
    || p.resume.HasActiveWriter?
    || (p.resume.IsArchived? && (p.unarchive.HasActiveWriter? || (p.unarchive.Answered? && p.resumeAgain.HasActiveWriter?)))
  }

  /** The answers so far confirm nothing, so the thread is resumed once more. */
  predicate MustConfirm(p: Plan) {
    p.changes && !p.resultMissing && !p.notice.Telling?
  }

  /** The confirmation that was obtained last tells some settings. */
  predicate Confirmed(p: Plan) {
    if MustConfirm(p) then p.confirmedSettings
    else if p.changes && !p.notice.NoNotice? then p.notice.Telling? && p.notice.settings
    else p.resumedSettings
  }

  /** Whether the operation is performed when it is its turn. */
  predicate Occurs(b: Thread, p: Plan, op: Operation) {
    match op
    case AcquireDurable => b.durable.Some?
    case StartHeartbeat => b.durable.Some?
    case AcquireInProcess => b.inproc != ExternalActive
    case Unarchive => p.resume.IsArchived?
    case ResumeAgain => p.resume.IsArchived? && p.unarchive.Answered?
    case MarkExternal => Rejected(p)
    case StoreExternal => Rejected(p)
    case StoreRollout => p.hasRollout
    case StoreSettings => p.resumedSettings
    case CheckLease => b.durable.Some?
    case CheckLeaseAfterTurn => b.durable.Some?
    case CheckLeaseAfterUpdate => b.durable.Some?
    case Subscribe => p.changes
    case RequestUpdate => p.changes
    case AwaitNotice => p.changes
    case ResumeToConfirm => MustConfirm(p)
    case ReadConfirmed => MustConfirm(p)
    case CheckConfirmedId => MustConfirm(p)
    case StoreConfirmed => Confirmed(p)
    case StoreUpdateSync => p.changes && !p.resultMissing
    case _ => true
  }

  /** The error the operation ends the script with when it is performed, if it does. */
  function Fault(b: Thread, p: Plan, op: Operation): Option<Error> {
    var raised := if op in p.raises then Some(Raised(op)) else None;
    match op
    case NeedStore => if p.hasStore then None else Some(BindingStoreRequired)
    case GetBinding => if raised.Some? then raised else if p.bound then None else Some(BindingNotFound)
    case CheckWriter => if b.inproc == ExternalActive then Some(ExternalWriterActive) else None
    case AcquireDurable =>
      if raised.Some? then raised
      else if b.durable.Some? && !b.durable.value.Free(p.now, p.ownerAlive) then Some(LeaseUnavailable)
      else None
    case AcquireInProcess => if b.inproc == Idle then None else Some(WriterActive)
    // a failure to project the writer state is only logged
    case StoreActive => None
    case Resume => if p.resume.OtherError? then Some(Raised(op)) else None
    case Unarchive => if p.unarchive.OtherError? || p.unarchive.IsArchived? then Some(Raised(op)) else None
    case ResumeAgain => if p.resumeAgain.OtherError? || p.resumeAgain.IsArchived? then Some(Raised(op)) else None
    case MarkExternal => None
    case StoreExternal => if raised.Some? then raised else Some(ExternalWriterActive)
    case CheckId => if p.resumedId == b.id then None else Some(ThreadIdMismatch)
    case Recover => None
    case CheckLease => if p.lostBefore then Some(LeaseLost) else None
    case CheckLeaseAfterTurn => if p.lostAfter then Some(LeaseLost) else None
    case CheckLeaseAfterUpdate => if p.lostAfter then Some(LeaseLost) else None
    case AwaitNotice => None
    case CheckConfirmedId => if p.confirmedId == b.id then None else Some(ThreadIdMismatch)
    case NeedSettings => if Confirmed(p) then None else Some(ConfirmationUnavailable)
    case ReleaseInProcess => None
    case ReleaseDurable =>
      if raised.Some? then raised
      else if p.releaseErrors >= ATTEMPTS || (p.meanwhile.Some? && !p.meanwhile.value.Holds(Generation(b))) then
        Some(LeaseReleaseFailed)
      else None
    case _ => raised
  }

  /** The generation of the durable lease that the call is granted. */
  function Generation(b: Thread): nat {
    if b.durable.Some? then b.durable.value.generation + 1 else 0
  }

  /** The operations a script performs: those that occur, up to the first that fails. */
  function Tried(b: Thread, p: Plan, script: Script): seq<Operation> {
    if script.End? then []
    else if !Occurs(b, p, script.first) then Tried(b, p, script.rest)
    else if Fault(b, p, script.first).Some? then [script.first]
    else [script.first] + Tried(b, p, script.rest)
  }

  /** The first operation of the script that fails. */
  function Failing(b: Thread, p: Plan, script: Script): Option<Operation> {
    if script.End? then None
    else if Occurs(b, p, script.first) && Fault(b, p, script.first).Some? then Some(script.first)
    else Failing(b, p, script.rest)
  }

  // ---------------------------------------------------------------- what an operation does to the thread

  /** What a call writes back for the state it leaves: a thread it had active becomes idle. */
  function Left(inproc: LeaseState): LeaseState {
    if inproc == CfrActive then Idle else inproc
  }

  function Perform(b: Thread, p: Plan, t: Thread, op: Operation): Thread {
    match op
    case AcquireDurable =>
      if Fault(b, p, op).None? && t.durable.Some? then t.(durable := Some(t.durable.value.Grant(p.now, TTL))) else t
    case AcquireInProcess => if t.inproc == Idle then t.(inproc := CfrActive) else t
    case StoreActive => if op in p.raises then t else t.(stored := t.stored.(writer := CfrActive))
    case MarkExternal => t.(inproc := ExternalActive)
    case StoreExternal => if op in p.raises then t else t.(stored := t.stored.(writer := ExternalActive))
    case Recover => if t.inproc == ExternalActive then t.(inproc := CfrActive) else t
    case RunTurn => if p.progressed then t.(stored := Stored(CfrActive, true)) else t
    case ClearTurn => if op in p.raises then t else t.(stored := Stored(Left(t.inproc), false))
    case ReleaseInProcess => t.(inproc := Idle)
    case ReleaseDurable =>
      if t.durable.None? then t else
      var row := if p.meanwhile.Some? then p.meanwhile.value else t.durable.value;
      var released := op !in p.raises && p.releaseErrors < ATTEMPTS && row.Holds(Generation(b));
      t.(durable := Some(if released then row.(row := None) else row))
    case _ => t
  }

  /** Operations that change nothing the model keeps about the thread. */
  predicate Silent(op: Operation) {
    && !op.AcquireDurable? && !op.AcquireInProcess? && !op.StoreActive? && !op.MarkExternal? && !op.StoreExternal?
    && !op.Recover? && !op.RunTurn? && !op.ClearTurn? && !op.ReleaseInProcess? && !op.ReleaseDurable?
  }

  function Performed(b: Thread, p: Plan, ops: seq<Operation>): Thread {
    if ops == [] then b else Perform(b, p, Performed(b, p, ops[..|ops| - 1]), ops[|ops| - 1])
  }

  // ---------------------------------------------------------------- a whole call

  /** A client was created, so it is closed and its life cycle read. */
  function Closing(p: Plan): seq<Operation> {
    if CreateClient in p.raises then [] else [Close, Snapshot]
  }

  function Releasing(b: Thread): seq<Operation> {
    if b.durable.Some? then [ReleaseDurable] else []
  }

  function LettingGo(b: Thread, inproc: LeaseState): seq<Operation> {
    [ClearTurn] + (if inproc == CfrActive then [ReleaseInProcess] else []) + Releasing(b)
  }

  /** The clean-up after a body that left the in-process state at `inproc`. */
  function CleanUp(b: Thread, p: Plan, inproc: LeaseState): seq<Operation> {
    Closing(p) + LettingGo(b, inproc)
  }

  /** An entry that fails after the durable lease was granted gives it back; an update that the
      in-process lease refuses does not. */
  function GivesBack(kind: Kind, b: Thread, op: Operation): seq<Operation> {
    if op.StartHeartbeat? || (op.AcquireInProcess? && kind.Send?) then Releasing(b) else []
  }

  /** The call fails before it gets into the guarded body. */
  predicate Refused(kind: Kind, b: Thread, p: Plan) {
    Failing(b, p, Whole(kind)).Some? && OfEntry(Failing(b, p, Whole(kind)).value)
  }

  /** What follows the operations of the script. */
  function Ending(kind: Kind, b: Thread, p: Plan): seq<Operation> {
    if Refused(kind, b, p) then GivesBack(kind, b, Failing(b, p, Whole(kind)).value)
    else CleanUp(b, p, Performed(b, p, Tried(b, p, Whole(kind))).inproc)
  }

  /** Everything a call performs, in order. */
  function Calls(kind: Kind, b: Thread, p: Plan): seq<Operation> {
    Tried(b, p, Whole(kind)) + Ending(kind, b, p)
  }

  /** The first error among operations all of which are performed. */
  function FirstFault(b: Thread, p: Plan, ops: seq<Operation>): Option<Error> {
    if ops == [] then None
    else if Fault(b, p, ops[0]).Some? then Fault(b, p, ops[0])
    else FirstFault(b, p, ops[1..])
  }

  /** What a call raises. A failing release replaces the error of an entry that gives the lease
      back; a clean-up error replaces nothing. */
  function Result(kind: Kind, b: Thread, p: Plan): Option<Error> {
    var failing, ending := Failing(b, p, Whole(kind)), FirstFault(b, p, Ending(kind, b, p));
    if failing.None? || (Refused(kind, b, p) && ending.Some?) then ending else Fault(b, p, failing.value)
  }

  function After(kind: Kind, b: Thread, p: Plan): Thread {
    Performed(b, p, Calls(kind, b, p))
  }

  /** The operation is performed, and fails just when it raises. */
  predicate Plain(b: Thread, p: Plan, op: Operation) {
    && Silent(op) && !OfEntry(op) && Occurs(b, p, op)
    && Fault(b, p, op) == if op in p.raises then Some(Raised(op)) else None
  }

  /** The operation is performed, and tests something that is at fault or not. */
  predicate Tests(b: Thread, p: Plan, op: Operation, fault: Option<Error>) {
    Silent(op) && !OfEntry(op) && Occurs(b, p, op) && Fault(b, p, op) == fault
  }

  /** The operation is a look at the durable lease. */
  predicate Looks(b: Thread, p: Plan, op: Operation, lost: bool) {
    && Silent(op) && !OfEntry(op) && Occurs(b, p, op) == b.durable.Some?
    && Fault(b, p, op) == if lost then Some(LeaseLost) else None
  }

  lemma TurnOps(b: Thread, p: Plan)
    ensures Occurs(b, p, RunTurn) && !OfEntry(RunTurn)
    ensures Fault(b, p, RunTurn) == if RunTurn in p.raises then Some(Raised(RunTurn)) else None
    ensures Looks(b, p, CheckLeaseAfterTurn, p.lostAfter) && Plain(b, p, StoreLastSeen) && Plain(b, p, StoreTurnSync)
  {
  }

  lemma RecoverOps(b: Thread, p: Plan)
    ensures p.resumedSettings ==> Plain(b, p, StoreSettings)
    ensures !p.resumedSettings ==> !Occurs(b, p, StoreSettings)
    ensures Occurs(b, p, Recover) && Fault(b, p, Recover).None? && Looks(b, p, CheckLease, p.lostBefore)
  {
  }

  lemma RequestOps(b: Thread, p: Plan)
    ensures p.changes ==>
      Plain(b, p, Subscribe) && Plain(b, p, RequestUpdate) && Occurs(b, p, AwaitNotice) && Fault(b, p, AwaitNotice).None?
    ensures !p.changes ==> !Occurs(b, p, Subscribe) && !Occurs(b, p, RequestUpdate) && !Occurs(b, p, AwaitNotice)
  {
  }

  lemma ConfirmOps(b: Thread, p: Plan)
    ensures MustConfirm(p) ==>
      Plain(b, p, ResumeToConfirm) && Plain(b, p, ReadConfirmed)
      && Tests(b, p, CheckConfirmedId, if p.confirmedId == b.id then None else Some(ThreadIdMismatch))
    ensures !MustConfirm(p) ==>
      !Occurs(b, p, ResumeToConfirm) && !Occurs(b, p, ReadConfirmed) && !Occurs(b, p, CheckConfirmedId)
  {
  }

  lemma ConfirmedExactly(p: Plan)
    ensures MustConfirm(p) <==> p.changes && !p.resultMissing && !p.notice.Telling?
    ensures Confirmed(p) <==>
      if MustConfirm(p) then p.confirmedSettings
      else if p.changes && !p.notice.NoNotice? then p.notice.Telling? && p.notice.settings
      else p.resumedSettings
  {
  }

  lemma FinishOps(b: Thread, p: Plan)
    ensures Confirmed(p) ==> Plain(b, p, StoreConfirmed)
    ensures !Confirmed(p) ==> !Occurs(b, p, StoreConfirmed)
    ensures Tests(b, p, NeedSettings, if Confirmed(p) then None else Some(ConfirmationUnavailable))
  {
  }

  lemma EndOps(b: Thread, p: Plan)
    ensures Looks(b, p, CheckLeaseAfterUpdate, p.lostAfter) && Plain(b, p, Project)
  {
  }

  lemma SyncOps(b: Thread, p: Plan)
    ensures p.changes && !p.resultMissing ==> Plain(b, p, StoreUpdateSync)
    ensures !(p.changes && !p.resultMissing) ==> !Occurs(b, p, StoreUpdateSync)
  {
  }

  lemma ConnectOps(b: Thread, p: Plan)
    ensures Occurs(b, p, StoreActive) && Fault(b, p, StoreActive).None? && Plain(b, p, CreateClient) && Plain(b, p, StartClient)
  {
  }

  lemma ResumeOps(b: Thread, p: Plan)
    ensures Occurs(b, p, Resume) && !OfEntry(Resume) && !OfEntry(Unarchive) && !OfEntry(ResumeAgain)
    ensures Fault(b, p, Resume) == if p.resume.OtherError? then Some(Raised(Resume)) else None
    ensures Occurs(b, p, Unarchive) <==> p.resume.IsArchived?
    ensures Fault(b, p, Unarchive) == if p.unarchive.OtherError? || p.unarchive.IsArchived? then Some(Raised(Unarchive)) else None
    ensures Occurs(b, p, ResumeAgain) <==> p.resume.IsArchived? && p.unarchive.Answered?
    ensures Fault(b, p, ResumeAgain) == if p.resumeAgain.OtherError? || p.resumeAgain.IsArchived? then Some(Raised(ResumeAgain)) else None
  {
  }

  lemma CheckOps(b: Thread, p: Plan)
    ensures Occurs(b, p, MarkExternal) <==> Rejected(p)
    ensures Occurs(b, p, StoreExternal) <==> Rejected(p)
    ensures Fault(b, p, MarkExternal).None? && !OfEntry(StoreExternal)
    ensures Fault(b, p, StoreExternal) == Some(if StoreExternal in p.raises then Raised(StoreExternal) else ExternalWriterActive)
    ensures Plain(b, p, ReadResumed) && Tests(b, p, CheckId, if p.resumedId == b.id then None else Some(ThreadIdMismatch))
  {
  }

  lemma PerformedLast(b: Thread, p: Plan, ops: seq<Operation>, op: Operation)
    ensures Performed(b, p, ops + [op]) == Perform(b, p, Performed(b, p, ops), op)
  {
    hide Perform;
    assert (ops + [op])[..|ops|] == ops;
  }

  lemma FaultOfOne(b: Thread, p: Plan, op: Operation)
    ensures FirstFault(b, p, [op]) == Fault(b, p, op) && FirstFault(b, p, []).None?
  {
    hide Fault;
    assert FirstFault(b, p, [op][1..]).None?;
  }

  /** The first error of two lists in a row. */
  lemma {:induction false} FaultJoin(b: Thread, p: Plan, ops: seq<Operation>, more: seq<Operation>)
    ensures FirstFault(b, p, ops + more) ==
      if FirstFault(b, p, ops).Some? then FirstFault(b, p, ops) else FirstFault(b, p, more)
  {
    hide Fault;
    if ops == [] {
      assert ops + more == more;
    } else {
      FaultJoin(b, p, ops[1..], more);
      assert (ops + more)[1..] == ops[1..] + more;
    }
  }

  lemma FaultAdded(b: Thread, p: Plan, ops: seq<Operation>, op: Operation)
    ensures FirstFault(b, p, ops + [op]) == if FirstFault(b, p, ops).Some? then FirstFault(b, p, ops) else Fault(b, p, op)
  {
    hide Fault, FirstFault;
    FaultOfOne(b, p, op);
    FaultJoin(b, p, ops, [op]);
  }

  lemma NothingPerformed(b: Thread, p: Plan)
    ensures Performed(b, p, []) == b
  {
  }

  /** A call that has performed `done` of a script has `rest` of it before it. */
  ghost predicate At(b: Thread, p: Plan, script: Script, done: seq<Operation>, rest: Script) {
    Tried(b, p, script) == done + Tried(b, p, rest) && Failing(b, p, script) == Failing(b, p, rest)
  }

  lemma AtStart(b: Thread, p: Plan, script: Script)
    ensures At(b, p, script, [], script)
  {
    hide Tried, Failing;
    assert [] + Tried(b, p, script) == Tried(b, p, script);
  }

  lemma Next(b: Thread, p: Plan, script: Script, done: seq<Operation>, rest: Script)
    requires At(b, p, script, done, rest)
    ensures rest.End? ==> Tried(b, p, script) == done && Failing(b, p, script).None?
    ensures rest.Then? && !Occurs(b, p, rest.first) ==> At(b, p, script, done, rest.rest)
    ensures rest.Then? && Occurs(b, p, rest.first) ==>
      if Fault(b, p, rest.first).None? then At(b, p, script, done + [rest.first], rest.rest)
      else Tried(b, p, script) == done + [rest.first] && Failing(b, p, script) == Some(rest.first)
  {
    hide Occurs, Fault;
    if rest.Then? {
      assert (done + [rest.first]) + Tried(b, p, rest.rest) == done + ([rest.first] + Tried(b, p, rest.rest));
    }
  }

  // ---------------------------------------------------------------- the adapter

  /** The adapter as seen from one thread. `before` and `calls` record the state the latest call
      began in and what it has performed since. */
  class CodexAdapter {
    const id: ThreadId
    const leases: WriterLeaseManager
    const runtimeLeases: RuntimeLeases?
    var stored: Stored
    ghost var before: Thread
    ghost var calls: seq<Operation>

    constructor (id: ThreadId, leases: WriterLeaseManager, runtimeLeases: RuntimeLeases?, stored: Stored)
      ensures this.id == id && this.leases == leases && this.runtimeLeases == runtimeLeases && this.stored == stored
    {
      this.id := id;
      this.leases := leases;
      this.runtimeLeases := runtimeLeases;
      this.stored := stored;
    }

    ghost predicate Valid()
      reads this, runtimeLeases
    {
      runtimeLeases != null ==> runtimeLeases.ttl == TTL
    }

    ghost function Seen(): Thread
      reads this, leases, runtimeLeases
    {
      Thread(id, leases.StateFor(id), stored, if runtimeLeases == null then None else Some(runtimeLeases.durable))
    }

    ghost predicate Tracks(p: Plan)
      reads this, leases, runtimeLeases
    {
      && Valid() && before.id == id && before.durable.Some? == (runtimeLeases != null)
      && Seen() == Performed(before, p, calls)
    }

    /** The call holds the durable lease, where such leases are kept. */
    ghost predicate Leased(lease: Option<nat>, p: Plan)
      reads this`before, runtimeLeases
    {
      && (lease.Some? <==> runtimeLeases != null) && (lease.Some? <==> before.durable.Some?)
      && (lease.Some? ==> lease.value == Generation(before) && runtimeLeases.durable.Holds(lease.value))
    }

    /** The call is over: it has performed what it had to, and raises what it has to. */
    ghost predicate Ended(kind: Kind, error: Option<Error>, p: Plan)
      reads this
    {
      calls == Calls(kind, before, p) && error == Result(kind, before, p)
    }

    /** The script has failed. */
    ghost predicate FailedWith(kind: Kind, error: Option<Error>, p: Plan)
      reads this
    {
      && calls == Tried(before, p, Whole(kind)) && Failing(before, p, Whole(kind)).Some?
      && error == Fault(before, p, Failing(before, p, Whole(kind)).value) && !Refused(kind, before, p)
    }

    /** An operation that changes nothing the model keeps about the thread. */
    method Do(op: Operation, p: Plan) returns (raised: bool)
      requires Tracks(p) && Silent(op)
      modifies this`calls
      ensures Tracks(p) && calls == old(calls) + [op] && raised == (op in p.raises)
    {
      hide Performed;
      PerformedLast(before, p, calls, op);
      calls := calls + [op];
      return op in p.raises;
    }

    /** A look at an answer, which ends the guarded body when there is a fault in it. */
    method Check(ghost kind: Kind, op: Operation, ghost fault: Option<Error>, ghost rest: Script, p: Plan)
      requires Tracks(p) && Tests(before, p, op, fault)
      requires At(before, p, Whole(kind), calls, Then(op, rest))
      modifies this`calls
      ensures Tracks(p)
      ensures fault.None? ==> At(before, p, Whole(kind), calls, rest)
      ensures fault.Some? ==> FailedWith(kind, fault, p)
    {
      hide Performed, Perform, Tried, Failing, At, Whole, Occurs, Fault;
      Next(before, p, Whole(kind), calls, Then(op, rest));
      var _ := Do(op, p);
    }

    /** An operation of the guarded body that ends it when it raises. */
    method Attempt(ghost kind: Kind, op: Operation, ghost rest: Script, p: Plan) returns (error: Option<Error>)
      requires Tracks(p) && Plain(before, p, op)
      requires At(before, p, Whole(kind), calls, Then(op, rest))
      modifies this`calls
      ensures Tracks(p)
      ensures error.None? ==> At(before, p, Whole(kind), calls, rest)
      ensures error.Some? ==> FailedWith(kind, error, p)
    {
      hide Performed, Perform, Tried, Failing, At, Whole, Occurs, Fault;
      error := if op in p.raises then Some(Raised(op)) else None;
      Check(kind, op, error, rest, p);
    }

    /** A look at the durable lease, where such leases are kept. */
    method NotLost(ghost kind: Kind, op: Operation, lost: bool, lease: Option<nat>, ghost rest: Script, p: Plan)
      returns (error: Option<Error>)
      requires Tracks(p) && Leased(lease, p) && Looks(before, p, op, lost)
      requires At(before, p, Whole(kind), calls, Then(op, rest))
      modifies this`calls
      ensures Tracks(p)
      ensures error.None? ==> At(before, p, Whole(kind), calls, rest)
      ensures error.Some? ==> FailedWith(kind, error, p)
    {
      hide Performed, Perform, Tried, Failing, At, Whole, Occurs, Fault;
      error := if lease.Some? && lost then Some(LeaseLost) else None;
      if lease.Some? {
        Check(kind, op, error, rest, p);
      } else {
        Next(before, p, Whole(kind), calls, Then(op, rest));
      }
    }

    method Store(op: Operation, state: LeaseState, p: Plan) returns (raised: bool)
      requires Tracks(p) && ((op.StoreActive? && state == CfrActive) || (op.StoreExternal? && state == ExternalActive))
      modifies this`calls, this`stored
      ensures Tracks(p) && calls == old(calls) + [op] && raised == (op in p.raises)
    {
      hide Performed;
      PerformedLast(before, p, calls, op);
      raised := op in p.raises;
      if !raised {
        stored := stored.(writer := state);
      }
      calls := calls + [op];
    }

    method Grant(p: Plan) returns (error: Option<Error>, lease: Option<nat>)
      requires Tracks(p) && runtimeLeases != null && runtimeLeases.durable == before.durable.value
      modifies this`calls, runtimeLeases
      ensures Tracks(p) && calls == old(calls) + [AcquireDurable] && error == Fault(before, p, AcquireDurable)
      ensures error.None? ==> lease == Some(Generation(before)) && runtimeLeases.durable.Holds(Generation(before))
    {
      hide Performed;
      PerformedLast(before, p, calls, AcquireDurable);
      calls := calls + [AcquireDurable];
      var outcome := runtimeLeases.Acquire(p.now, p.ownerAlive, AcquireDurable in p.raises);
      match outcome {
        case Busy => return Some(Raised(AcquireDurable)), None;
        case Unexpired => return Some(LeaseUnavailable), None;
        case Granted(generation) => return None, Some(generation);
      }
    }

    method Take(p: Plan) returns (error: Option<Error>)
      requires Tracks(p) && Seen().inproc == before.inproc
      modifies this`calls, leases
      ensures Tracks(p) && calls == old(calls) + [AcquireInProcess] && error == Fault(before, p, AcquireInProcess)
      ensures leases.OnlyChanged(id)
    {
      hide Performed;
      PerformedLast(before, p, calls, AcquireInProcess);
      calls := calls + [AcquireInProcess];
      var acquired := leases.Acquire(id);
      return if acquired then None else Some(WriterActive);
    }

    /** A release that finds another lease in the row is an error; others may have changed the row. */
    method ReleaseRuntimeLease(lease: nat, p: Plan) returns (error: Option<Error>)
      requires Tracks(p) && runtimeLeases != null && lease == Generation(before)
      requires p.meanwhile.None? ==> runtimeLeases.durable.Holds(Generation(before))
      modifies this`calls, runtimeLeases
      ensures Tracks(p) && calls == old(calls) + [ReleaseDurable] && error == Fault(before, p, ReleaseDurable)
    {
      hide Performed;
      PerformedLast(before, p, calls, ReleaseDurable);
      calls := calls + [ReleaseDurable];
      if p.meanwhile.Some? {
        runtimeLeases.durable := p.meanwhile.value;
      }
      if ReleaseDurable in p.raises {
        return Some(Raised(ReleaseDurable));
      }
      var released := runtimeLeases.Release(lease, p.releaseErrors);
      return if released then None else Some(LeaseReleaseFailed);
    }

    /** The durable lease, where such leases are kept. */
    method HoldDurable(ghost kind: Kind, p: Plan) returns (error: Option<Error>, lease: Option<nat>)
      requires Tracks(p) && Seen().durable == before.durable && At(before, p, Whole(kind), calls, Leasing(Body(kind)))
      modifies this`calls, runtimeLeases
      ensures Tracks(p)
      ensures error.None? ==> Leased(lease, p) && At(before, p, Whole(kind), calls, Then(AcquireInProcess, Body(kind)))
      ensures error.Some? ==> Refused(kind, before, p) && Ended(kind, error, p)
    {
      hide Performed, Perform, Tried, Failing, At, Body, FirstFault;
      FaultOfOne(before, p, ReleaseDurable);
      Next(before, p, Whole(kind), calls, Leasing(Body(kind)));
      if runtimeLeases == null {
        Next(before, p, Whole(kind), calls, Leasing(Body(kind)).rest);
        return None, None;
      }
      error, lease := Grant(p);
      if error.Some? {
        return;
      }
      Next(before, p, Whole(kind), calls, Leasing(Body(kind)).rest);
      var raised := Do(StartHeartbeat, p);
      if raised {
        error := ReleaseRuntimeLease(lease.value, p);
        return if error.Some? then error else Some(Raised(StartHeartbeat)), lease;
      }
      return None, lease;
    }

    /** The store and the binding are there. */
    method Bind(ghost kind: Kind, p: Plan) returns (error: Option<Error>)
      requires Tracks(p) && calls == []
      modifies this`calls
      ensures Tracks(p)
      ensures error.None? ==> At(before, p, Whole(kind), calls, Whole(kind).rest.rest)
      ensures error.Some? ==> Refused(kind, before, p) && Ended(kind, error, p)
    {
      hide Performed, Perform, Tried, Failing, At, Body, FirstFault;
      FaultOfOne(before, p, ReleaseDurable);
      AtStart(before, p, Whole(kind));
      Next(before, p, Whole(kind), calls, Whole(kind));
      var raised := Do(NeedStore, p);
      if !p.hasStore {
        return Some(BindingStoreRequired);
      }
      Next(before, p, Whole(kind), calls, Whole(kind).rest);
      raised := Do(GetBinding, p);
      if raised {
        return Some(Raised(GetBinding));
      }
      return if p.bound then None else Some(BindingNotFound);
    }

    /** The checks and acquisitions of a send. */
    method EnterSend(p: Plan) returns (error: Option<Error>, lease: Option<nat>)
      requires Tracks(p) && calls == [] && Seen() == before
      modifies this`calls, leases, runtimeLeases
      ensures Tracks(p) && leases.OnlyChanged(id)
      ensures error.Some? ==> Refused(Send, before, p) && Ended(Send, error, p)
      ensures error.None? ==> Leased(lease, p) && At(before, p, Whole(Send), calls, Body(Send))
    {
      hide Performed, Perform, Tried, Failing, At, Body, FirstFault;
      FaultOfOne(before, p, ReleaseDurable);
      error := Bind(Send, p);
      if error.Some? {
        return error, None;
      }
      error, lease := HoldDurable(Send, p);
      if error.Some? {
        return;
      }
      Next(before, p, Whole(Send), calls, Then(AcquireInProcess, Body(Send)));
      if leases.StateFor(id) != ExternalActive {
        error := Take(p);
        if error.Some? {
          if lease.Some? {
            var release := ReleaseRuntimeLease(lease.value, p);
            return if release.Some? then release else error, lease;
          }
          return;
        }
      }
    }

    /** The checks and acquisitions of an update. A refusal by the in-process lease is not guarded. */
    method EnterUpdate(p: Plan) returns (error: Option<Error>, lease: Option<nat>)
      requires Tracks(p) && calls == [] && Seen() == before
      modifies this`calls, leases, runtimeLeases
      ensures Tracks(p) && leases.OnlyChanged(id)
      ensures error.Some? ==> Refused(Update, before, p) && Ended(Update, error, p)
      ensures error.None? ==> Leased(lease, p) && At(before, p, Whole(Update), calls, Body(Update))
    {
      hide Performed, Perform, Tried, Failing, At, Body, FirstFault;
      FaultOfOne(before, p, ReleaseDurable);
      error := Bind(Update, p);
      if error.Some? {
        return error, None;
      }
      Next(before, p, Whole(Update), calls, Then(CheckWriter, Leasing(Body(Update))));
      var _ := Do(CheckWriter, p);
      if leases.StateFor(id) == ExternalActive {
        return Some(ExternalWriterActive), None;
      }
      error, lease := HoldDurable(Update, p);
      if error.Some? {
        return;
      }
      Next(before, p, Whole(Update), calls, Then(AcquireInProcess, Body(Update)));
      error := Take(p);
    }

    method MarkExternal(p: Plan)
      requires Tracks(p)
      modifies this`calls, leases
      ensures Tracks(p) && calls == old(calls) + [Operation.MarkExternal] && leases.OnlyChanged(id)
    {
      hide Performed;
      PerformedLast(before, p, calls, Operation.MarkExternal);
      calls := calls + [Operation.MarkExternal];
      leases.MarkExternal(id);
    }

    method Recover(p: Plan)
      requires Tracks(p)
      modifies this`calls, leases
      ensures Tracks(p) && calls == old(calls) + [Operation.Recover] && leases.OnlyChanged(id)
    {
      hide Performed;
      PerformedLast(before, p, calls, Operation.Recover);
      calls := calls + [Operation.Recover];
      leases.Recover(id);
    }

    /** Resumes the thread, restoring it first if it is archived. `last` is the request that was
        answered last. */
    method ResumeArchived(ghost kind: Kind, ghost rest: Script, p: Plan) returns (answer: Answer, last: Operation)
      requires Tracks(p) && At(before, p, Whole(kind), calls, Resuming(rest))
      modifies this`calls
      ensures Tracks(p)
      ensures answer.HasActiveWriter? <==> Rejected(p)
      ensures answer.Answered? || answer.HasActiveWriter? ==> At(before, p, Whole(kind), calls, rest)
      ensures answer.OtherError? || answer.IsArchived? ==> FailedWith(kind, Some(Raised(last)), p)
    {
      hide Performed, Perform, Tried, Failing, At, Whole, Tracks, Leased, Occurs, Fault, OfEntry;
      ResumeOps(before, p);
      ghost var script := Resuming(rest);
      Next(before, p, Whole(kind), calls, script);
      var _ := Do(Resume, p);
      if !p.resume.IsArchived? {
        if !p.resume.OtherError? {
          Next(before, p, Whole(kind), calls, script.rest);
          Next(before, p, Whole(kind), calls, script.rest.rest);
        }
        return p.resume, Resume;
      }
      Next(before, p, Whole(kind), calls, script.rest);
      var _ := Do(Unarchive, p);
      if !p.unarchive.Answered? {
        if p.unarchive.HasActiveWriter? {
          Next(before, p, Whole(kind), calls, script.rest.rest);
        }
        return p.unarchive, Unarchive;
      }
      Next(before, p, Whole(kind), calls, script.rest.rest);
      var _ := Do(ResumeAgain, p);
      return p.resumeAgain, ResumeAgain;
    }

    /** From the acquisitions to a resumed thread with the right id; `client` tells whether there
        is a client to close. */
    method Connect(ghost kind: Kind, ghost rest: Script, p: Plan) returns (error: Option<Error>, client: bool)
      requires Tracks(p) && At(before, p, Whole(kind), calls, Connecting(rest))
      modifies this`calls, this`stored, leases
      ensures Tracks(p) && leases.OnlyChanged(id) && client == (CreateClient !in p.raises)
      ensures error.None? ==> client && At(before, p, Whole(kind), calls, rest)
      ensures error.Some? ==> FailedWith(kind, error, p)
    {
      hide Performed, Perform, Tried, Failing, At, Whole, Tracks, Leased, Occurs, Fault, Looks, Plain, OfEntry;
      ConnectOps(before, p);
      ghost var script := Connecting(rest);
      Next(before, p, Whole(kind), calls, script);
      var raised := Store(StoreActive, CfrActive, p);
      Next(before, p, Whole(kind), calls, script.rest);
      raised := Do(CreateClient, p);
      if raised {
        return Some(Raised(CreateClient)), false;
      }
      client := true;
      error := Attempt(kind, StartClient, Resuming(Checking(rest)), p);
      if error.Some? {
        return;
      }
      var answer, last := ResumeArchived(kind, Checking(rest), p);
      error := CheckResumed(kind, rest, answer, last, p);
    }

    /** A rejection marks the thread, and any other thread than the one asked for is an error. */
    method CheckResumed(ghost kind: Kind, ghost rest: Script, answer: Answer, last: Operation, p: Plan)
      returns (error: Option<Error>)
      requires Tracks(p) && (answer.HasActiveWriter? <==> Rejected(p))
      requires answer.Answered? || answer.HasActiveWriter? ==> At(before, p, Whole(kind), calls, Checking(rest))
      requires answer.OtherError? || answer.IsArchived? ==> FailedWith(kind, Some(Raised(last)), p)
      modifies this`calls, this`stored, leases
      ensures Tracks(p) && leases.OnlyChanged(id)
      ensures error.None? ==> At(before, p, Whole(kind), calls, rest)
      ensures error.Some? ==> FailedWith(kind, error, p)
    {
      hide Performed, Perform, Tried, Failing, At, Whole, Leased, Occurs, Fault, Looks, Plain, OfEntry;
      CheckOps(before, p);
      ghost var script := Checking(rest);
      if answer.OtherError? || answer.IsArchived? {
        return Some(Raised(last));
      }
      Next(before, p, Whole(kind), calls, script);
      if answer.HasActiveWriter? {
        MarkExternal(p);
        Next(before, p, Whole(kind), calls, script.rest);
        var raised := Store(StoreExternal, ExternalActive, p);
        return Some(if raised then Raised(StoreExternal) else ExternalWriterActive);
      }
      Next(before, p, Whole(kind), calls, script.rest);
      error := Attempt(kind, ReadResumed, script.rest.rest.rest, p);
      if error.None? {
        error := if p.resumedId == id then None else Some(ThreadIdMismatch);
        Check(kind, CheckId, error, rest, p);
      }
    }

    method RunTurn(p: Plan) returns (raised: bool)
      requires Tracks(p)
      modifies this`calls, this`stored
      ensures Tracks(p) && calls == old(calls) + [Operation.RunTurn] && raised == (Operation.RunTurn in p.raises)
    {
      hide Performed;
      PerformedLast(before, p, calls, Operation.RunTurn);
      calls := calls + [Operation.RunTurn];
      if p.progressed {
        stored := Stored(CfrActive, true);
      }
      return Operation.RunTurn in p.raises;
    }

    /** The settings the app server told, if any, are stored; then the resumed thread is this
        call's, unless the durable lease was lost meanwhile. */
    method Recovered(ghost kind: Kind, ghost rest: Script, lease: Option<nat>, p: Plan) returns (error: Option<Error>)
      requires Tracks(p) && Leased(lease, p)
      requires At(before, p, Whole(kind), calls, Then(StoreSettings, Then(Operation.Recover, Then(CheckLease, rest))))
      modifies this`calls, leases
      ensures Tracks(p) && leases.OnlyChanged(id)
      ensures error.None? ==> At(before, p, Whole(kind), calls, rest)
      ensures error.Some? ==> FailedWith(kind, error, p)
    {
      hide Performed, Perform, Tried, Failing, At, Whole, Tracks, Leased, Occurs, Fault, Looks, Plain, OfEntry;
      RecoverOps(before, p);
      ghost var script := Then(StoreSettings, Then(Operation.Recover, Then(CheckLease, rest)));
      if p.resumedSettings {
        error := Attempt(kind, StoreSettings, script.rest, p);
        if error.Some? {
          return;
        }
      } else {
        Next(before, p, Whole(kind), calls, script);
      }
      Next(before, p, Whole(kind), calls, script.rest);
      Recover(p);
      error := NotLost(kind, CheckLease, p.lostBefore, lease, rest, p);
    }

    /** The turn, and what is stored about it. */
    method Turn(lease: Option<nat>, p: Plan) returns (error: Option<Error>)
      requires Tracks(p) && Leased(lease, p) && At(before, p, Whole(Send), calls, Turning())
      modifies this`calls, this`stored
      ensures Tracks(p)
      ensures error.None? ==> calls == Tried(before, p, Whole(Send)) && Failing(before, p, Whole(Send)).None?
      ensures error.Some? ==> FailedWith(Send, error, p)
    {
      hide Performed, Perform, Tried, Failing, At, Whole, Tracks, Leased, Occurs, Fault, Looks, Plain, OfEntry;
      TurnOps(before, p);
      Next(before, p, Whole(Send), calls, Turning());
      var raised := RunTurn(p);
      if raised {
        return Some(Raised(Operation.RunTurn));
      }
      error := NotLost(Send, CheckLeaseAfterTurn, p.lostAfter, lease, Then(StoreLastSeen, Then(StoreTurnSync, End)), p);
      if error.Some? {
        return;
      }
      error := Attempt(Send, StoreLastSeen, Then(StoreTurnSync, End), p);
      if error.Some? {
        return;
      }
      error := Attempt(Send, StoreTurnSync, End, p);
      if error.None? {
        Next(before, p, Whole(Send), calls, End);
      }
    }

    /** The guarded body of a send. */
    method SendBody(lease: Option<nat>, p: Plan) returns (error: Option<Error>, client: bool)
      requires Tracks(p) && Leased(lease, p) && At(before, p, Whole(Send), calls, Body(Send))
      modifies this`calls, this`stored, leases
      ensures Tracks(p) && leases.OnlyChanged(id) && client == (CreateClient !in p.raises)
      ensures error.None? ==> calls == Tried(before, p, Whole(Send)) && Failing(before, p, Whole(Send)).None?
      ensures error.Some? ==> FailedWith(Send, error, p)
    {
      hide Performed, Perform, Tried, Failing, At, Whole, Connecting;
      error, client := Connect(Send, Sending(), p);
      if error.Some? {
        return;
      }
      if p.hasRollout {
        error := Attempt(Send, StoreRollout, Sending().rest, p);
        if error.Some? {
          return;
        }
      } else {
        Next(before, p, Whole(Send), calls, Sending());
      }
      error := Recovered(Send, Turning(), lease, p);
      if error.None? {
        error := Turn(lease, p);
      }
    }

    /** The request, and the notification it is waited for. */
    method Request(p: Plan) returns (error: Option<Error>)
      requires Tracks(p) && At(before, p, Whole(Update), calls, Requesting())
      modifies this`calls
      ensures Tracks(p)
      ensures error.None? ==> At(before, p, Whole(Update), calls, Confirming())
      ensures error.Some? ==> FailedWith(Update, error, p)
    {
      hide Performed, Perform, Tried, Failing, At, Whole, Tracks, Leased, Occurs, Fault, Looks, Plain, OfEntry, Confirming;
      RequestOps(before, p);
      if p.changes {
        error := Attempt(Update, Subscribe, Then(RequestUpdate, Then(AwaitNotice, Confirming())), p);
        if error.Some? {
          return;
        }
        error := Attempt(Update, RequestUpdate, Then(AwaitNotice, Confirming()), p);
        if error.Some? {
          return;
        }
        Next(before, p, Whole(Update), calls, Then(AwaitNotice, Confirming()));
        var _ := Do(AwaitNotice, p);
      } else {
        Next(before, p, Whole(Update), calls, Requesting());
        Next(before, p, Whole(Update), calls, Then(RequestUpdate, Then(AwaitNotice, Confirming())));
        Next(before, p, Whole(Update), calls, Then(AwaitNotice, Confirming()));
        error := None;
      }
    }

    /** Without a confirmation so far, the thread is resumed for one. `told` is whether the last
        confirmation tells any settings. */
    method Confirm(p: Plan) returns (error: Option<Error>, told: bool)
      requires Tracks(p) && At(before, p, Whole(Update), calls, Confirming())
      modifies this`calls
      ensures Tracks(p)
      ensures error.None? ==> told == Confirmed(p) && At(before, p, Whole(Update), calls, Finishing())
      ensures error.Some? ==> FailedWith(Update, error, p)
    {
      hide Performed, Perform, Tried, Failing, At, Whole, Leased, Occurs, Fault, Looks, Plain, OfEntry, Finishing, Confirmed, MustConfirm;
      ConfirmOps(before, p);
      ConfirmedExactly(p);
      var hasResult := p.changes && !p.resultMissing;
      var confirmation := if hasResult then None else Some(p.resumedSettings);
      if p.changes && !p.notice.NoNotice? {
        confirmation := if p.notice.Bare? then None else Some(p.notice.settings);
      }
      told := confirmation == Some(true);
      if hasResult && confirmation.None? {
        error := Attempt(Update, ResumeToConfirm, Then(ReadConfirmed, Then(CheckConfirmedId, Finishing())), p);
        if error.Some? {
          return;
        }
        error := Attempt(Update, ReadConfirmed, Then(CheckConfirmedId, Finishing()), p);
        if error.Some? {
          return;
        }
        told := p.confirmedSettings;
        error := if p.confirmedId == id then None else Some(ThreadIdMismatch);
        Check(Update, CheckConfirmedId, error, Finishing(), p);
      } else {
        Next(before, p, Whole(Update), calls, Confirming());
        Next(before, p, Whole(Update), calls, Then(ReadConfirmed, Then(CheckConfirmedId, Finishing())));
        Next(before, p, Whole(Update), calls, Then(CheckConfirmedId, Finishing()));
        error := None;
      }
    }

    /** The confirmed settings are stored, and an update that nothing confirms is an error. */
    method Finish(lease: Option<nat>, told: bool, p: Plan) returns (error: Option<Error>)
      requires Tracks(p) && Leased(lease, p) && told == Confirmed(p) && At(before, p, Whole(Update), calls, Finishing())
      modifies this`calls
      ensures Tracks(p)
      ensures error.None? ==> calls == Tried(before, p, Whole(Update)) && Failing(before, p, Whole(Update)).None?
      ensures error.Some? ==> FailedWith(Update, error, p)
    {
      hide Performed, Perform, Tried, Failing, At, Whole, Tracks, Leased, Occurs, Fault, Looks, Plain, OfEntry, Confirmed;
      FinishOps(before, p);
      if told {
        error := Attempt(Update, StoreConfirmed, Finishing().rest, p);
        if error.Some? {
          return;
        }
      } else {
        Next(before, p, Whole(Update), calls, Finishing());
      }
      error := if told then None else Some(ConfirmationUnavailable);
      Check(Update, NeedSettings, error, Then(CheckLeaseAfterUpdate, Then(StoreUpdateSync, Then(Project, End))), p);
      if error.None? {
        error := FinishStored(lease, p);
      }
    }

    method FinishStored(lease: Option<nat>, p: Plan) returns (error: Option<Error>)
      requires Tracks(p) && Leased(lease, p)
      requires At(before, p, Whole(Update), calls, Then(CheckLeaseAfterUpdate, Then(StoreUpdateSync, Then(Project, End))))
      modifies this`calls
      ensures Tracks(p)
      ensures error.None? ==> calls == Tried(before, p, Whole(Update)) && Failing(before, p, Whole(Update)).None?
      ensures error.Some? ==> FailedWith(Update, error, p)
    {
      hide Performed, Perform, Tried, Failing, At, Whole, Tracks, Leased, Occurs, Fault, Looks, Plain, OfEntry;
      EndOps(before, p);
      SyncOps(before, p);
      error := NotLost(Update, CheckLeaseAfterUpdate, p.lostAfter, lease, Then(StoreUpdateSync, Then(Project, End)), p);
      if error.Some? {
        return;
      }
      if p.changes && !p.resultMissing {
        error := Attempt(Update, StoreUpdateSync, Then(Project, End), p);
        if error.Some? {
          return;
        }
      } else {
        Next(before, p, Whole(Update), calls, Then(StoreUpdateSync, Then(Project, End)));
      }
      error := Attempt(Update, Project, End, p);
      if error.None? {
        Next(before, p, Whole(Update), calls, End);
      }
    }

    /** The guarded body of an update. */
    method UpdateBody(lease: Option<nat>, p: Plan) returns (error: Option<Error>, client: bool)
      requires Tracks(p) && Leased(lease, p) && At(before, p, Whole(Update), calls, Body(Update))
      modifies this`calls, this`stored, leases
      ensures Tracks(p) && leases.OnlyChanged(id) && client == (CreateClient !in p.raises)
      ensures error.None? ==> calls == Tried(before, p, Whole(Update)) && Failing(before, p, Whole(Update)).None?
      ensures error.Some? ==> FailedWith(Update, error, p)
    {
      hide Performed, Perform, Tried, Failing, At, Whole, Connecting, Confirming, Finishing;
      error, client := Connect(Update, Updating(), p);
      if error.Some? {
        return;
      }
      error := Recovered(Update, Requesting(), lease, p);
      if error.Some? {
        return;
      }
      error := Request(p);
      if error.Some? {
        return;
      }
      var told;
      error, told := Confirm(p);
      if error.None? {
        error := Finish(lease, told, p);
      }
    }

    /** The client is closed, and its life cycle read whether or not it could be. */
    method CloseClient(client: bool, p: Plan) returns (error: Option<Error>)
      requires Tracks(p) && client == (CreateClient !in p.raises)
      modifies this`calls
      ensures Tracks(p) && calls == old(calls) + Closing(p) && error == FirstFault(before, p, Closing(p))
    {
      hide Performed, Perform, FirstFault;
      FaultOfOne(before, p, Close);
      if !client {
        return None;
      }
      var raised := Do(Close, p);
      error := if raised then Some(Raised(Close)) else None;
      FaultAdded(before, p, [Close], Snapshot);
      raised := Do(Snapshot, p);
      if raised && error.None? {
        error := Some(Raised(Snapshot));
      }
      assert [Close] + [Snapshot] == Closing(p);
    }

    method ReleaseLease(lease: Option<nat>, p: Plan) returns (error: Option<Error>)
      requires Tracks(p) && Leased(lease, p)
      modifies this`calls, runtimeLeases
      ensures Tracks(p) && calls == old(calls) + Releasing(before) && error == FirstFault(before, p, Releasing(before))
    {
      hide Performed, Perform, FirstFault, Fault;
      FaultOfOne(before, p, ReleaseDurable);
      if lease.None? {
        return None;
      }
      error := ReleaseRuntimeLease(lease.value, p);
    }

    /** The thread is written back, and then both leases are released. */
    method LetGo(lease: Option<nat>, p: Plan) returns (error: Option<Error>)
      requires Tracks(p) && Leased(lease, p)
      modifies this`calls, this`stored, leases, runtimeLeases
      ensures Tracks(p) && leases.OnlyChanged(id)
      ensures calls == old(calls) + LettingGo(before, old(leases.StateFor(id)))
      ensures error == FirstFault(before, p, LettingGo(before, old(leases.StateFor(id))))
    {
      hide Performed, Perform, FirstFault, Fault, Releasing;
      var state := leases.StateFor(id);
      FaultOfOne(before, p, ClearTurn);
      var raised := Clear(state, p);
      error := if raised then Some(Raised(ClearTurn)) else None;
      ghost var done := [ClearTurn];
      if state == CfrActive {
        FaultAdded(before, p, done, ReleaseInProcess);
        ReleaseWriter(p);
        done := done + [ReleaseInProcess];
      }
      FaultJoin(before, p, done, Releasing(before));
      var release := ReleaseLease(lease, p);
      error := if error.Some? then error else release;
      assert done + Releasing(before) == LettingGo(before, state);
    }

    /** The clean-up: every step is attempted, and the first error among them is kept. */
    method CleanUpAfter(client: bool, lease: Option<nat>, p: Plan) returns (error: Option<Error>)
      requires Tracks(p) && Leased(lease, p) && client == (CreateClient !in p.raises)
      modifies this`calls, this`stored, leases, runtimeLeases
      ensures Tracks(p) && leases.OnlyChanged(id)
      ensures calls == old(calls) + CleanUp(before, p, old(leases.StateFor(id)))
      ensures error == FirstFault(before, p, CleanUp(before, p, old(leases.StateFor(id))))
    {
      hide Performed, Perform, FirstFault, Closing, LettingGo;
      FaultJoin(before, p, Closing(p), LettingGo(before, leases.StateFor(id)));
      var error0 := CloseClient(client, p);
      error := LetGo(lease, p);
      error := if error0.Some? then error0 else error;
    }

    method Clear(state: LeaseState, p: Plan) returns (raised: bool)
      requires Tracks(p) && state == Seen().inproc
      modifies this`calls, this`stored
      ensures Tracks(p) && calls == old(calls) + [ClearTurn]
      ensures Fault(before, p, ClearTurn) == if raised then Some(Raised(ClearTurn)) else None
    {
      hide Performed;
      PerformedLast(before, p, calls, ClearTurn);
      raised := ClearTurn in p.raises;
      if !raised {
        stored := Stored(if state == CfrActive then Idle else state, false);
      }
      calls := calls + [ClearTurn];
    }

    method ReleaseWriter(p: Plan)
      requires Tracks(p)
      modifies this`calls, leases
      ensures Tracks(p) && calls == old(calls) + [ReleaseInProcess] && leases.OnlyChanged(id)
      ensures Fault(before, p, ReleaseInProcess).None?
    {
      hide Performed;
      PerformedLast(before, p, calls, ReleaseInProcess);
      calls := calls + [ReleaseInProcess];
      leases.Release(id);
    }

    /** Sends a message. An error of the body wins over every error of the clean-up. */
    method SendMessage(p: Plan) returns (error: Option<Error>)
      requires Valid()
      modifies this`calls, this`before, this`stored, leases, runtimeLeases
      ensures Valid() && before == old(Seen()) && leases.OnlyChanged(id)
      ensures calls == Calls(Send, before, p) && error == Result(Send, before, p) && Seen() == After(Send, before, p)
    {
      hide Performed, Perform, Tried, Failing, At, Whole, Body, CleanUp, FirstFault;
      before, calls := Seen(), [];
      NothingPerformed(before, p);
      var lease;
      error, lease := EnterSend(p);
      if error.Some? {
        return;
      }
      var client;
      error, client := SendBody(lease, p);
      var cleanUpError := CleanUpAfter(client, lease, p);
      return if error.Some? then error else cleanUpError;
    }

    /** Updates the native settings of the thread. */
    method UpdateThreadSettings(p: Plan) returns (error: Option<Error>)
      requires Valid()
      modifies this`calls, this`before, this`stored, leases, runtimeLeases
      ensures Valid() && before == old(Seen()) && leases.OnlyChanged(id)
      ensures calls == Calls(Update, before, p) && error == Result(Update, before, p) && Seen() == After(Update, before, p)
    {
      hide Performed, Perform, Tried, Failing, At, Whole, Body, CleanUp, FirstFault;
      before, calls := Seen(), [];
      NothingPerformed(before, p);
      var lease;
      error, lease := EnterUpdate(p);
      if error.Some? {
        return;
      }
      var client;
      error, client := UpdateBody(lease, p);
      var cleanUpError := CleanUpAfter(client, lease, p);
      return if error.Some? then error else cleanUpError;
    }
  }
}
