/**
 Answering the requests of the app server: handler threads in a bounded number of slots, and
 the two-phase guard that lets one response per request id onto the wire. A step is what one
 thread does under the lock, or one write to the pipe; steps of all threads interleave freely.
 */
module ServerRequests {
  import opened Common

  /** JSON values are opaque here; request ids are numbers or strings. */
  type Json = string

  datatype Id = Number(n: int) | Text(s: string)

  datatype Reply = Result(result: Json) | Error(error: Json)

  const NULL: Json := "null"
  const OVERLOADED: Reply := Error("-32001 CODEX_SERVER_REQUEST_OVERLOADED")
  const HANDLER_FAILED: Reply := Error("-32000 CODEX_SERVER_REQUEST_HANDLER_FAILED")

  /** What a handler did: it raised, or returned a resolution, a lone error, or any other value. */
  datatype Outcome =
    | HandlerRaised
    | Resolution(result: Json, error: Option<Json>)
    | ErrorOnly(error: Option<Json>)
    | Value(result: Json)

  function ReplyOf(result: Json, error: Option<Json>): Reply {
    if error.Some? then Error(error.value) else Result(result)
  }

  function Normalise(outcome: Outcome): Reply {
    match outcome
    case HandlerRaised => HANDLER_FAILED
    case Resolution(result, error) => ReplyOf(result, error)
    case ErrorOnly(error) => ReplyOf(NULL, error)
    case Value(result) => ReplyOf(result, None)
  }

  // ---------------------------------------------------------------- the guard

  /** The ids answered, and the ids whose answer is being written. */
  datatype Guard = Guard(resolved: set<Id>, inflight: set<Id>) {
    predicate Taken(id: Id) { id in resolved || id in inflight }

    function Begin(id: Id): Guard { this.(inflight := inflight + {id}) }

    function Commit(id: Id): Guard { Guard(resolved + {id}, inflight - {id}) }

    function Abort(id: Id): Guard { this.(inflight := inflight - {id}) }
  }

  /** The guard as the client keeps it; one method per section under the response lock. */
  class ResponseGuard {
    var resolved: set<Id>
    var inflight: set<Id>

    constructor ()
      ensures View() == Guard({}, {})
    {
      resolved, inflight := {}, {};
    }

    function View(): Guard
      reads this
    {
      Guard(resolved, inflight)
    }

    method Begin(id: Id, running: bool) returns (admitted: bool)
      modifies this
      ensures admitted <==> running && !old(View()).Taken(id)
      ensures View() == if admitted then old(View()).Begin(id) else old(View())
    {
      if id in resolved || id in inflight {
        return false;
      }
      if !running {
        return false;
      }
      inflight := inflight + {id};
      return true;
    }

    method Commit(id: Id)
      modifies this
      ensures View() == old(View()).Commit(id)
    {
      inflight := inflight - {id};
      resolved := resolved + {id};
    }

    method Abort(id: Id)
      modifies this
      ensures View() == old(View()).Abort(id)
    {
      inflight := inflight - {id};
    }

    /** A whole response, undisturbed: answered exactly when the id was free, the process was
        running and the write went through; an id that is not answered is left as it was. */
    method Respond(id: Id, running: bool, writes: bool) returns (answered: bool)
      requires View().resolved !! View().inflight
      modifies this
      ensures answered <==> running && writes && !old(View()).Taken(id)
      ensures View() == if answered then old(View()).(resolved := old(resolved) + {id}) else old(View())
    {
      var admitted := Begin(id, running);
      if !admitted {
        return false;
      }
      if !writes {
        Abort(id);
        return false;
      }
      Commit(id);
      return true;
    }
  }

  // ---------------------------------------------------------------- threads and steps

  datatype Owner = SlotHandler | Overload | Direct

  /** Where a thread is: in its handler, about to respond, writing, behind the write, returned from
      the respond call, and (a handler thread) through with its slot. */
  datatype Place = Handling | Entering | Writing | Written | Unwritten | Returned(ok: bool) | Ended(ok: bool)

  datatype Call = Call(id: Id, owner: Owner, place: Place, reply: Reply)

  /** `wire` is what reached the pipe; `inbound` and `responds` record the requests that came in
      and the threads that called respond. */
  datatype State = State(
    guard: Guard,
    up: bool,
    slots: nat,
    calls: seq<Call>,
    wire: seq<(Id, Reply)>,
    inbound: seq<Id>,
    responds: seq<nat>)

  datatype Step =
    | Inbound(id: Id)
    | Invoke(id: Id, reply: Reply)
    | Handled(t: nat, outcome: Outcome)
    | Enter(t: nat)
    | Write(t: nat, works: bool)
    | Settle(t: nat)
    | Release(t: nat)
    | Close

  predicate At(s: State, t: nat, place: Place) {
    t < |s.calls| && s.calls[t].place == place
  }

  function Move(s: State, t: nat, place: Place): State
    requires t < |s.calls|
  {
    s.(calls := s.calls[t := s.calls[t].(place := place)])
  }

  function Apply(s: State, step: Step): State {
    match step
    case Inbound(id) =>
      var arrived := s.(inbound := s.inbound + [id]);
      if s.slots > 0 then
        arrived.(slots := s.slots - 1, calls := s.calls + [Call(id, SlotHandler, Handling, HANDLER_FAILED)])
      else
        arrived.(calls := s.calls + [Call(id, Overload, Entering, OVERLOADED)])
    case Invoke(id, reply) => s.(calls := s.calls + [Call(id, Direct, Entering, reply)])
    case Handled(t, outcome) =>
      if At(s, t, Handling) then
        s.(calls := s.calls[t := s.calls[t].(place := Entering, reply := Normalise(outcome))])
      else s
    case Enter(t) =>
      if At(s, t, Entering) then
        var called := s.(responds := s.responds + [t]);
        if s.guard.Taken(s.calls[t].id) || !s.up then Move(called, t, Returned(false))
        else Move(called.(guard := s.guard.Begin(s.calls[t].id)), t, Writing)
      else s
    case Write(t, works) =>
      if At(s, t, Writing) then
        if works then Move(s.(wire := s.wire + [(s.calls[t].id, s.calls[t].reply)]), t, Written)
        else Move(s, t, Unwritten)
      else s
    case Settle(t) =>
      if At(s, t, Written) then Move(s.(guard := s.guard.Commit(s.calls[t].id)), t, Returned(true))
      else if At(s, t, Unwritten) then Move(s.(guard := s.guard.Abort(s.calls[t].id)), t, Returned(false))
      else s
    case Release(t) =>
      if t < |s.calls| && s.calls[t].owner.SlotHandler? && s.calls[t].place.Returned? then
        Move(s.(slots := s.slots + 1), t, Ended(s.calls[t].place.ok))
      else s
    case Close => s.(up := false)
  }

  function Exec(s: State, steps: seq<Step>): State
    decreases steps
  {
    if steps == [] then s else Exec(Apply(s, steps[0]), steps[1..])
  }

  function Initial(limit: nat): State {
    State(Guard({}, {}), true, limit, [], [], [], [])
  }

  // ---------------------------------------------------------------- exactly one response

  predicate Busy(place: Place) {
    place.Writing? || place.Written? || place.Unwritten?
  }

  predicate Won(place: Place) {
    (place.Returned? || place.Ended?) && place.ok
  }

  predicate OnWire(place: Place) {
    place.Written? || Won(place)
  }

  /** The ids in flight are those of the threads between the two locked sections. */
  predicate InflightExact(s: State) {
    && (forall t | 0 <= t < |s.calls| && Busy(s.calls[t].place) :: s.calls[t].id in s.guard.inflight)
    && (forall id | id in s.guard.inflight :: exists t :: 0 <= t < |s.calls| && Busy(s.calls[t].place) && s.calls[t].id == id)
  }

  /** The resolved ids are those whose respond call returned true. */
  predicate ResolvedExact(s: State) {
    && (forall t | 0 <= t < |s.calls| && Won(s.calls[t].place) :: s.calls[t].id in s.guard.resolved)
    && (forall id | id in s.guard.resolved :: exists t :: 0 <= t < |s.calls| && Won(s.calls[t].place) && s.calls[t].id == id)
  }

  /** No two threads hold, or have won, the same id. */
  predicate Exclusive(s: State) {
    forall t, u | 0 <= t < u < |s.calls| && s.calls[t].id == s.calls[u].id ::
      !((Busy(s.calls[t].place) || Won(s.calls[t].place)) && (Busy(s.calls[u].place) || Won(s.calls[u].place)))
  }

  /** The wire carries the reply of every thread behind its write, and nothing else. */
  predicate WireExact(s: State) {
    && (forall t | 0 <= t < |s.calls| && OnWire(s.calls[t].place) :: (s.calls[t].id, s.calls[t].reply) in s.wire)
    && (forall i | 0 <= i < |s.wire| :: exists t :: 0 <= t < |s.calls| && OnWire(s.calls[t].place)
                                          && s.wire[i] == (s.calls[t].id, s.calls[t].reply))
    && (forall i, j | 0 <= i < j < |s.wire| :: s.wire[i].0 != s.wire[j].0)
  }

  predicate Guarded(s: State) {
    && s.guard.resolved !! s.guard.inflight
    && InflightExact(s) && ResolvedExact(s) && Exclusive(s) && WireExact(s)
  }

  lemma PassiveWire(s: State, r: State)
    requires WireExact(s) && r.wire == s.wire && |s.calls| <= |r.calls|
    requires forall t | 0 <= t < |r.calls| && OnWire(r.calls[t].place) ::
      t < |s.calls| && OnWire(s.calls[t].place) && r.calls[t].id == s.calls[t].id && r.calls[t].reply == s.calls[t].reply
    requires forall t | 0 <= t < |s.calls| && OnWire(s.calls[t].place) ::
      OnWire(r.calls[t].place) && r.calls[t].id == s.calls[t].id && r.calls[t].reply == s.calls[t].reply
    ensures WireExact(r)
  {
    forall i | 0 <= i < |r.wire|
      ensures exists t :: 0 <= t < |r.calls| && OnWire(r.calls[t].place) && r.wire[i] == (r.calls[t].id, r.calls[t].reply)
    {
      var entry := s.wire[i];
      var t := Writer(s, i);
      assert OnWire(r.calls[t].place) && r.wire[i] == (r.calls[t].id, r.calls[t].reply);
    }
  }

  /** The thread whose reply stands at `i` on the wire. */
  ghost function Writer(s: State, i: nat): (t: nat)
    requires WireExact(s) && i < |s.wire|
    ensures t < |s.calls| && OnWire(s.calls[t].place) && s.wire[i] == (s.calls[t].id, s.calls[t].reply)
  {
    var t :| 0 <= t < |s.calls| && OnWire(s.calls[t].place) && s.wire[i] == (s.calls[t].id, s.calls[t].reply);
    t
  }

  /** Threads that are not between the locked sections and have not won play no part. */
  lemma PassivePlaces(s: State, r: State)
    requires Guarded(s) && r.guard == s.guard && r.wire == s.wire && |s.calls| <= |r.calls|
    requires forall t | 0 <= t < |r.calls| ::
      if t < |s.calls| && (Busy(s.calls[t].place) || Won(s.calls[t].place)) then
        && r.calls[t].id == s.calls[t].id && r.calls[t].reply == s.calls[t].reply
        && Busy(r.calls[t].place) == Busy(s.calls[t].place) && Won(r.calls[t].place) == Won(s.calls[t].place)
        && OnWire(r.calls[t].place) == OnWire(s.calls[t].place)
      else !Busy(r.calls[t].place) && !Won(r.calls[t].place)
    ensures Guarded(r)
  {
    forall id | id in r.guard.inflight
      ensures exists t :: 0 <= t < |r.calls| && Busy(r.calls[t].place) && r.calls[t].id == id
    {
      var t :| 0 <= t < |s.calls| && Busy(s.calls[t].place) && s.calls[t].id == id;
      assert Busy(r.calls[t].place) && r.calls[t].id == id;
    }
    forall id | id in r.guard.resolved
      ensures exists t :: 0 <= t < |r.calls| && Won(r.calls[t].place) && r.calls[t].id == id
    {
      var t :| 0 <= t < |s.calls| && Won(s.calls[t].place) && s.calls[t].id == id;
      assert Won(r.calls[t].place) && r.calls[t].id == id;
    }
    PassiveWire(s, r);
  }

  /** A thread whose id nobody holds or has won takes it. */
  lemma TakesId(s: State, r: State, t: nat)
    requires Guarded(s) && t < |s.calls| == |r.calls|
    requires forall u | 0 <= u < |s.calls| && u != t :: r.calls[u] == s.calls[u]
    requires !Busy(s.calls[t].place) && Busy(r.calls[t].place) && r.calls[t].id == s.calls[t].id
    requires r.guard.inflight == s.guard.inflight + {s.calls[t].id}
    ensures InflightExact(r)
  {
    forall other | other in r.guard.inflight
      ensures exists u :: 0 <= u < |r.calls| && Busy(r.calls[u].place) && r.calls[u].id == other
    {
      if other == s.calls[t].id {
        assert Busy(r.calls[t].place) && r.calls[t].id == other;
      } else {
        var u :| 0 <= u < |s.calls| && Busy(s.calls[u].place) && s.calls[u].id == other;
        assert u != t && Busy(r.calls[u].place) && r.calls[u].id == other;
      }
    }
  }

  lemma TakesAlone(s: State, r: State, t: nat)
    requires Guarded(s) && t < |s.calls| == |r.calls| && !s.guard.Taken(s.calls[t].id)
    requires forall u | 0 <= u < |s.calls| && u != t :: r.calls[u] == s.calls[u]
    requires r.calls[t].id == s.calls[t].id
    ensures Exclusive(r)
  {
    forall u | 0 <= u < |s.calls| && u != t && s.calls[u].id == s.calls[t].id
      ensures !Busy(s.calls[u].place) && !Won(s.calls[u].place)
    {
    }
  }

  lemma EnterGuarded(s: State, t: nat)
    requires Guarded(s) && At(s, t, Entering)
    ensures Guarded(Apply(s, Enter(t)))
  {
    var r := Apply(s, Enter(t));
    if s.guard.Taken(s.calls[t].id) || !s.up {
      hide Guarded;
      PassivePlaces(s, r);
    } else {
      hide InflightExact, ResolvedExact, Exclusive, WireExact;
      RestUnmoved(s, r, t);
      TakesId(s, r, t);
      TakesAlone(s, r, t);
    }
  }

  /** A thread that neither wins nor reaches the wire leaves the winners and the wire exact. */
  lemma RestUnmoved(s: State, r: State, t: nat)
    requires Guarded(s) && r.wire == s.wire && r.guard.resolved == s.guard.resolved
    requires t < |s.calls| == |r.calls| && (forall u | 0 <= u < |s.calls| && u != t :: r.calls[u] == s.calls[u])
    requires !OnWire(s.calls[t].place) && !OnWire(r.calls[t].place)
    ensures ResolvedExact(r) && WireExact(r)
  {
    forall id | id in r.guard.resolved
      ensures exists u :: 0 <= u < |r.calls| && Won(r.calls[u].place) && r.calls[u].id == id
    {
      var u :| 0 <= u < |s.calls| && Won(s.calls[u].place) && s.calls[u].id == id;
      assert r.calls[u] == s.calls[u];
    }
    forall i | 0 <= i < |r.wire|
      ensures exists u :: 0 <= u < |r.calls| && OnWire(r.calls[u].place) && r.wire[i] == (r.calls[u].id, r.calls[u].reply)
    {
      var u := Writer(s, i);
      assert r.calls[u] == s.calls[u];
    }
  }

  lemma BusyStays(s: State, r: State, t: nat)
    requires Guarded(s) && r.guard.inflight == s.guard.inflight
    requires t < |s.calls| == |r.calls| && (forall u | 0 <= u < |s.calls| && u != t :: r.calls[u] == s.calls[u])
    requires Busy(s.calls[t].place) && Busy(r.calls[t].place) && r.calls[t].id == s.calls[t].id
    ensures InflightExact(r)
  {
    forall id | id in r.guard.inflight
      ensures exists u :: 0 <= u < |r.calls| && Busy(r.calls[u].place) && r.calls[u].id == id
    {
      var u :| 0 <= u < |s.calls| && Busy(s.calls[u].place) && s.calls[u].id == id;
      assert Busy(r.calls[u].place) && r.calls[u].id == id;
    }
  }

  lemma WriteGuarded(s: State, t: nat, works: bool)
    requires Guarded(s) && At(s, t, Writing)
    ensures Guarded(Apply(s, Write(t, works)))
  {
    var r := Apply(s, Write(t, works));
    hide InflightExact, ResolvedExact, WireExact;
    assert Exclusive(r);
    BusyStays(s, r, t);
    if works {
      WroteResolved(s, r, t);
      WroteWire(s, r, t);
    } else {
      RestUnmoved(s, r, t);
    }
  }

  predicate Wrote(s: State, r: State, t: nat) {
    && At(s, t, Writing) && |r.calls| == |s.calls| && r.guard == s.guard
    && (forall u | 0 <= u < |s.calls| && u != t :: r.calls[u] == s.calls[u])
    && r.calls[t] == s.calls[t].(place := Written)
    && r.wire == s.wire + [(s.calls[t].id, s.calls[t].reply)]
  }

  lemma WroteResolved(s: State, r: State, t: nat)
    requires Guarded(s) && Wrote(s, r, t)
    ensures ResolvedExact(r)
  {
    forall id | id in r.guard.resolved
      ensures exists u :: 0 <= u < |r.calls| && Won(r.calls[u].place) && r.calls[u].id == id
    {
      var u :| 0 <= u < |s.calls| && Won(s.calls[u].place) && s.calls[u].id == id;
      assert u != t;
    }
  }

  lemma WroteWire(s: State, r: State, t: nat)
    requires Guarded(s) && Wrote(s, r, t)
    ensures WireExact(r)
  {
    hide InflightExact, ResolvedExact;
    var entry := (s.calls[t].id, s.calls[t].reply);
    assert OnWire(r.calls[t].place) && entry == (r.calls[t].id, r.calls[t].reply);
    forall i | 0 <= i < |s.wire|
      ensures s.wire[i].0 != entry.0
      ensures exists u :: 0 <= u < |r.calls| && OnWire(r.calls[u].place) && s.wire[i] == (r.calls[u].id, r.calls[u].reply)
    {
      var here := s.wire[i];
      var u := Writer(s, i);
      assert u != t;
    }
  }

  lemma SettleGuarded(s: State, t: nat)
    requires Guarded(s) && (At(s, t, Written) || At(s, t, Unwritten))
    ensures Guarded(Apply(s, Settle(t)))
  {
    var r := Apply(s, Settle(t));
    var id := s.calls[t].id;
    assert forall u | 0 <= u < |s.calls| && u != t :: r.calls[u] == s.calls[u];
    assert InflightExact(r) by {
      forall other | other in r.guard.inflight
        ensures exists u :: 0 <= u < |r.calls| && Busy(r.calls[u].place) && r.calls[u].id == other
      {
        var u :| 0 <= u < |s.calls| && Busy(s.calls[u].place) && s.calls[u].id == other;
        assert u != t;
      }
    }
    if At(s, t, Unwritten) {
      RestUnmoved(s, r, t);
    } else {
      WonExact(s, r, t);
    }
  }

  lemma WonExact(s: State, r: State, t: nat)
    requires Guarded(s) && At(s, t, Written) && r == Apply(s, Settle(t))
    ensures ResolvedExact(r) && WireExact(r)
  {
    assert forall u | 0 <= u < |s.calls| && u != t :: r.calls[u] == s.calls[u];
    assert Won(r.calls[t].place) && r.calls[t].id == s.calls[t].id;
    forall other | other in r.guard.resolved
      ensures exists u :: 0 <= u < |r.calls| && Won(r.calls[u].place) && r.calls[u].id == other
    {
      if other in s.guard.resolved {
        var u :| 0 <= u < |s.calls| && Won(s.calls[u].place) && s.calls[u].id == other;
        assert u != t;
      }
    }
    forall i | 0 <= i < |r.wire|
      ensures exists u :: 0 <= u < |r.calls| && OnWire(r.calls[u].place) && r.wire[i] == (r.calls[u].id, r.calls[u].reply)
    {
      var u := Writer(s, i);
      assert OnWire(r.calls[u].place) && r.calls[u].id == s.calls[u].id && r.calls[u].reply == s.calls[u].reply;
    }
  }

  lemma StepGuarded(s: State, step: Step)
    requires Guarded(s)
    ensures Guarded(Apply(s, step))
  {
    hide Guarded;
    var r := Apply(s, step);
    match step {
      case Inbound(id) => PassivePlaces(s, r);
      case Invoke(id, reply) => PassivePlaces(s, r);
      case Handled(t, outcome) => PassivePlaces(s, r);
      case Enter(t) => if At(s, t, Entering) { EnterGuarded(s, t); }
      case Write(t, works) => if At(s, t, Writing) { WriteGuarded(s, t, works); }
      case Settle(t) => if At(s, t, Written) || At(s, t, Unwritten) { SettleGuarded(s, t); }
      case Release(t) => PassivePlaces(s, r);
      case Close => PassivePlaces(s, r);
    }
  }

  lemma {:induction false} RunGuarded(s: State, steps: seq<Step>)
    requires Guarded(s)
    ensures Guarded(Exec(s, steps))
    decreases steps
  {
    hide Guarded, Apply;
    if steps != [] {
      StepGuarded(s, steps[0]);
      RunGuarded(Apply(s, steps[0]), steps[1..]);
    }
  }

  /** Exactly once. Under every interleaving of handlers, overload answers, direct calls, failing
      writes and the closing of the client: an id is never both resolved and in flight; it is
      resolved exactly when a call that answered it returned true; no two calls for an id return
      true; and the wire carries at most one response per id, that of the call returning true. */
  lemma ExactlyOneResponse(limit: nat, steps: seq<Step>)
    ensures var s := Exec(Initial(limit), steps);
      && s.guard.resolved !! s.guard.inflight
      && (forall id :: id in s.guard.resolved <==> exists t :: 0 <= t < |s.calls| && Won(s.calls[t].place) && s.calls[t].id == id)
      && (forall t, u | 0 <= t < u < |s.calls| && Won(s.calls[t].place) && Won(s.calls[u].place) :: s.calls[t].id != s.calls[u].id)
      && (forall i, j | 0 <= i < j < |s.wire| :: s.wire[i].0 != s.wire[j].0)
      && (forall t | 0 <= t < |s.calls| && Won(s.calls[t].place) :: (s.calls[t].id, s.calls[t].reply) in s.wire)
      && (forall i | 0 <= i < |s.wire| :: s.wire[i].0 in s.guard.resolved + s.guard.inflight)
  {
    RunGuarded(Initial(limit), steps);
  }

  /** A failed write leaves the id answerable: the next call for it, from whatever thread, is
      admitted as long as the process is up. */
  lemma FailedWriteAnswerable(limit: nat, steps: seq<Step>, t: nat, u: nat)
    requires var s := Exec(Initial(limit), steps);
      s.up && At(s, t, Unwritten) && At(s, u, Entering) && s.calls[u].id == s.calls[t].id
    ensures var s := Apply(Exec(Initial(limit), steps), Settle(t));
      At(s, t, Returned(false)) && !s.guard.Taken(s.calls[t].id) && At(Apply(s, Enter(u)), u, Writing)
  {
    RunGuarded(Initial(limit), steps);
  }

  // ---------------------------------------------------------------- slots and respond calls

  predicate HoldsSlot(call: Call) {
    call.owner.SlotHandler? && !call.place.Ended?
  }

  function Live(calls: seq<Call>): nat {
    if calls == [] then 0 else
      Live(calls[..|calls| - 1]) + if HoldsSlot(calls[|calls| - 1]) then 1 else 0
  }

  /** The ids of the calls that serve inbound requests, in order of arrival. */
  function Served(calls: seq<Call>): seq<Id> {
    if calls == [] then [] else
      var last := calls[|calls| - 1];
      Served(calls[..|calls| - 1]) + if last.owner.Direct? then [] else [last.id]
  }

  predicate HasCalled(place: Place) {
    !place.Handling? && !place.Entering?
  }

  predicate Accounted(s: State, limit: nat) {
    && s.slots + Live(s.calls) == limit
    && Served(s.calls) == s.inbound
    && (forall t | t in s.responds :: t < |s.calls|)
    && (forall t | 0 <= t < |s.calls| :: multiset(s.responds)[t] == if HasCalled(s.calls[t].place) then 1 else 0)
  }

  lemma Spawned(calls: seq<Call>, call: Call)
    ensures Live(calls + [call]) == Live(calls) + if HoldsSlot(call) then 1 else 0
    ensures Served(calls + [call]) == Served(calls) + if call.owner.Direct? then [] else [call.id]
  {
    assert (calls + [call])[..|calls|] == calls;
  }

  lemma {:induction false} Replaced(calls: seq<Call>, t: nat, call: Call)
    requires t < |calls| && call.id == calls[t].id && call.owner == calls[t].owner
    ensures Live(calls[t := call]) + (if HoldsSlot(calls[t]) then 1 else 0) == Live(calls) + if HoldsSlot(call) then 1 else 0
    ensures Served(calls[t := call]) == Served(calls)
  {
    var init := calls[..|calls| - 1];
    if t == |calls| - 1 {
      assert calls[t := call][..|calls| - 1] == init;
    } else {
      assert calls[t := call][..|calls| - 1] == init[t := call];
      Replaced(init, t, call);
    }
  }

  lemma SpawnAccounted(s: State, r: State, call: Call, limit: nat)
    requires Accounted(s, limit) && r.calls == s.calls + [call] && !HasCalled(call.place) && r.responds == s.responds
    requires r.inbound == s.inbound + if call.owner.Direct? then [] else [call.id]
    requires r.slots + (if HoldsSlot(call) then 1 else 0) == s.slots
    ensures Accounted(r, limit)
  {
    hide Live, Served;
    Spawned(s.calls, call);
    assert multiset(s.responds)[|s.calls|] == 0 by { assert |s.calls| !in s.responds; }
  }

  lemma MoveAccounted(s: State, r: State, t: nat, call: Call, limit: nat)
    requires Accounted(s, limit) && r.inbound == s.inbound
    requires t < |s.calls| && r.calls == s.calls[t := call] && call.id == s.calls[t].id && call.owner == s.calls[t].owner
    requires r.slots + (if HoldsSlot(call) then 1 else 0) == s.slots + if HoldsSlot(s.calls[t]) then 1 else 0
    requires if HasCalled(call.place) && !HasCalled(s.calls[t].place) then r.responds == s.responds + [t]
             else r.responds == s.responds && HasCalled(call.place) == HasCalled(s.calls[t].place)
    ensures Accounted(r, limit)
  {
    hide Live, Served;
    Replaced(s.calls, t, call);
    forall u | 0 <= u < |r.calls|
      ensures multiset(r.responds)[u] == if HasCalled(r.calls[u].place) then 1 else 0
    {
      assert multiset(s.responds)[u] == if HasCalled(s.calls[u].place) then 1 else 0;
      assert multiset(s.responds + [t]) == multiset(s.responds) + multiset{t};
    }
  }

  lemma StepAccounted(s: State, step: Step, limit: nat)
    requires Accounted(s, limit)
    ensures Accounted(Apply(s, step), limit)
  {
    hide Accounted;
    var r := Apply(s, step);
    match step {
      case Inbound(id) => SpawnAccounted(s, r, r.calls[|s.calls|], limit);
      case Invoke(id, reply) => SpawnAccounted(s, r, r.calls[|s.calls|], limit);
      case Handled(t, outcome) => if At(s, t, Handling) { MoveAccounted(s, r, t, r.calls[t], limit); }
      case Enter(t) => if At(s, t, Entering) { MoveAccounted(s, r, t, r.calls[t], limit); }
      case Write(t, works) => if At(s, t, Writing) { MoveAccounted(s, r, t, r.calls[t], limit); }
      case Settle(t) => if At(s, t, Written) || At(s, t, Unwritten) { MoveAccounted(s, r, t, r.calls[t], limit); }
      case Release(t) =>
        if t < |s.calls| && s.calls[t].owner.SlotHandler? && s.calls[t].place.Returned? {
          MoveAccounted(s, r, t, r.calls[t], limit);
        }
      case Close => CloseAccounted(s, limit);
    }
  }

  lemma CloseAccounted(s: State, limit: nat)
    requires Accounted(s, limit)
    ensures Accounted(s.(up := false), limit)
  {
  }

  lemma {:induction false} RunAccounted(s: State, steps: seq<Step>, limit: nat)
    requires Accounted(s, limit)
    ensures Accounted(Exec(s, steps), limit)
    decreases steps
  {
    hide Accounted, Apply;
    if steps != [] {
      StepAccounted(s, steps[0], limit);
      RunAccounted(Apply(s, steps[0]), steps[1..], limit);
    }
  }

  /** Slots are conserved: free slots and live handlers add up to the limit. Every inbound request
      is served by one thread, and a thread behind its respond call has made exactly one. */
  lemma SlotsConserved(limit: nat, steps: seq<Step>)
    ensures var s := Exec(Initial(limit), steps);
      && s.slots + Live(s.calls) == limit
      && Served(s.calls) == s.inbound
      && (forall t | 0 <= t < |s.calls| && (s.calls[t].place.Returned? || s.calls[t].place.Ended?) ::
            multiset(s.responds)[t] == 1)
      && (forall t | 0 <= t < |s.calls| :: multiset(s.responds)[t] <= 1)
  {
    RunAccounted(Initial(limit), steps, limit);
  }

  // ---------------------------------------------------------------- what is responded

  /** The state in front of step `i` of a run. */
  function Before(limit: nat, steps: seq<Step>, i: nat): State
    requires i <= |steps|
  {
    Exec(Initial(limit), steps[..i])
  }

  /** The step hands thread `t` the outcome of its handler. */
  ghost predicate HandedAt(limit: nat, steps: seq<Step>, i: nat, t: nat, outcome: Outcome) {
    i < |steps| && steps[i] == Handled(t, outcome) && At(Before(limit, steps, i), t, Handling)
  }

  /** What the server is to be told of an outcome. */
  predicate Tells(reply: Reply, outcome: Outcome) {
    && (outcome.HandlerRaised? ==> reply.Error? && reply == HANDLER_FAILED)
    && (outcome.Resolution? && outcome.error.Some? ==> reply == Error(outcome.error.value))
    && (outcome.Resolution? && outcome.error.None? ==> reply == Result(outcome.result))
    && (outcome.ErrorOnly? && outcome.error.Some? ==> reply == Error(outcome.error.value))
    && (outcome.ErrorOnly? && outcome.error.None? ==> reply == Result(NULL))
    && (outcome.Value? ==> reply == Result(outcome.result))
  }

  ghost predicate HandledAt(limit: nat, steps: seq<Step>, i: nat, t: nat, reply: Reply) {
    i < |steps| && steps[i].Handled? && HandedAt(limit, steps, i, t, steps[i].outcome) && Tells(reply, steps[i].outcome)
  }

  /** The step is the direct call that thread `t` makes. */
  ghost predicate InvokedAt(limit: nat, steps: seq<Step>, i: nat, t: nat, call: Call) {
    i < |steps| && steps[i] == Invoke(call.id, call.reply) && |Before(limit, steps, i).calls| == t
  }

  /** A handler thread responds with what its own handler did, an overload answer is the overload
      error, and a direct call responds with what it was called with. */
  ghost predicate Own(limit: nat, steps: seq<Step>, t: nat, call: Call) {
    match call.owner
    case Overload => !call.place.Handling? && call.reply == OVERLOADED && call.reply.Error?
    case Direct => !call.place.Handling? && exists i: nat :: InvokedAt(limit, steps, i, t, call)
    case SlotHandler => call.place.Handling? || exists i: nat :: HandledAt(limit, steps, i, t, call.reply)
  }

  lemma {:induction false} ExecLast(s: State, steps: seq<Step>, last: Step)
    ensures Exec(s, steps + [last]) == Apply(Exec(s, steps), last)
    decreases steps
  {
    hide Apply;
    if steps == [] {
      assert steps + [last] == [last] && [last][1..] == [];
    } else {
      assert (steps + [last])[1..] == steps[1..] + [last];
      ExecLast(Apply(s, steps[0]), steps[1..], last);
    }
  }

  lemma OwnStays(limit: nat, steps: seq<Step>, last: Step, t: nat, a: Call, b: Call)
    requires Own(limit, steps, t, a) && b.id == a.id && b.owner == a.owner && b.reply == a.reply
    requires b.place.Handling? <==> a.place.Handling?
    ensures Own(limit, steps + [last], t, b)
  {
    hide Exec, Normalise;
    assert forall i | 0 <= i <= |steps| :: (steps + [last])[..i] == steps[..i];
    if a.owner.Direct? {
      var i: nat :| InvokedAt(limit, steps, i, t, a);
      assert InvokedAt(limit, steps + [last], i, t, b);
    } else if a.owner.SlotHandler? && !a.place.Handling? {
      var i: nat :| HandledAt(limit, steps, i, t, a.reply);
      assert HandledAt(limit, steps + [last], i, t, b.reply);
    }
  }

  /** How a step can change a call: its reply only by the outcome of its handler, or not at all. */
  predicate Follows(s: State, step: Step, t: nat, b: Call)
    requires t < |s.calls|
  {
    var a := s.calls[t];
    && b.id == a.id && b.owner == a.owner
    && if step.Handled? && step.t == t && a.place.Handling? then !b.place.Handling? && Tells(b.reply, step.outcome)
       else b.reply == a.reply && (b.place.Handling? <==> a.place.Handling?)
  }

  lemma CallFollows(s: State, step: Step, t: nat)
    requires t < |s.calls|
    ensures t < |Apply(s, step).calls| && Follows(s, step, t, Apply(s, step).calls[t])
  {
    if step.Handled? {
      NormalisedTells(step.outcome);
    }
    hide Normalise, Tells;
  }

  lemma NormalisedTells(outcome: Outcome)
    ensures Tells(Normalise(outcome), outcome)
  {
  }

  lemma NewCall(s: State, step: Step, t: nat)
    requires |s.calls| <= t < |Apply(s, step).calls|
    ensures t == |s.calls| && (step.Inbound? || step.Invoke?)
    ensures var b := Apply(s, step).calls[t];
      if step.Invoke? then b == Call(step.id, Direct, Entering, step.reply)
      else (b.owner.SlotHandler? && b.place.Handling?) || (b.owner.Overload? && !b.place.Handling? && b.reply == OVERLOADED)
  {
  }

  lemma LastOwn(limit: nat, steps: seq<Step>, last: Step, t: nat)
    requires var s := Exec(Initial(limit), steps); t < |s.calls| ==> Own(limit, steps, t, s.calls[t])
    requires t < |Exec(Initial(limit), steps + [last]).calls|
    ensures Own(limit, steps + [last], t, Exec(Initial(limit), steps + [last]).calls[t])
  {
    hide Exec, Apply, Own, Normalise;
    var s, all := Exec(Initial(limit), steps), steps + [last];
    ExecLast(Initial(limit), steps, last);
    assert all[..|steps|] == steps && all[|steps|] == last;
    var b := Apply(s, last).calls[t];
    if t < |s.calls| {
      CallFollows(s, last, t);
      if last.Handled? && last.t == t && s.calls[t].place.Handling? {
        assert HandledAt(limit, all, |steps|, t, b.reply);
        HandlerReplies(limit, steps, last, t, b);
      } else {
        OwnStays(limit, steps, last, t, s.calls[t], b);
      }
    } else {
      NewCall(s, last, t);
      if last.Invoke? {
        assert InvokedAt(limit, all, |steps|, t, b);
      }
      NewOwn(limit, all, t, b);
    }
  }

  lemma HandlerReplies(limit: nat, steps: seq<Step>, last: Step, t: nat, b: Call)
    requires var s := Exec(Initial(limit), steps);
      t < |s.calls| && s.calls[t].place.Handling? && b.owner == s.calls[t].owner && Own(limit, steps, t, s.calls[t])
    requires HandledAt(limit, steps + [last], |steps|, t, b.reply) && Follows(Exec(Initial(limit), steps), last, t, b)
    ensures Own(limit, steps + [last], t, b)
  {
  }

  lemma NewOwn(limit: nat, steps: seq<Step>, t: nat, b: Call)
    requires b.owner.SlotHandler? <==> b.place.Handling?
    requires b.owner.Overload? ==> b.reply == OVERLOADED
    requires b.owner.Direct? ==> exists i: nat :: InvokedAt(limit, steps, i, t, b)
    ensures Own(limit, steps, t, b)
  {
  }

  /** In every run, every thread behind its handler responds with its own answer. */
  lemma {:induction false} RepliesAreOwn(limit: nat, steps: seq<Step>, t: nat)
    requires t < |Exec(Initial(limit), steps).calls|
    ensures Own(limit, steps, t, Exec(Initial(limit), steps).calls[t])
    decreases |steps|
  {
    if steps != [] {
      var init, last := steps[..|steps| - 1], steps[|steps| - 1];
      assert steps == init + [last];
      hide Exec, Own;
      if t < |Exec(Initial(limit), init).calls| {
        RepliesAreOwn(limit, init, t);
      }
      LastOwn(limit, init, last, t);
    }
  }

  /** Over every run, whatever interleaves: once its handler has come back, a handler thread answers
      with what that handler did. A handler that raised is answered with the handler failure. */
  lemma {:induction false} HandlersAnswer(limit: nat, steps: seq<Step>, i: nat, t: nat, outcome: Outcome)
    requires HandedAt(limit, steps, i, t, outcome)
    ensures var s := Exec(Initial(limit), steps);
      && t < |s.calls| && !s.calls[t].place.Handling?
      && match outcome
         case HandlerRaised => s.calls[t].reply.Error? && s.calls[t].reply == HANDLER_FAILED
         case Resolution(result, None) => s.calls[t].reply == Result(result)
         case Resolution(_, Some(error)) => s.calls[t].reply == Error(error)
         case ErrorOnly(None) => s.calls[t].reply == Result(NULL)
         case ErrorOnly(Some(error)) => s.calls[t].reply == Error(error)
         case Value(result) => s.calls[t].reply == Result(result)
    decreases |steps|
  {
    var init, last := steps[..|steps| - 1], steps[|steps| - 1];
    assert steps == init + [last] && (i < |init| ==> steps[..i] == init[..i]);
    hide Exec, Apply, Normalise;
    ExecLast(Initial(limit), init, last);
    if i < |init| {
      HandlersAnswer(limit, init, i, t, outcome);
    } else {
      assert steps[..i] == init;
    }
    CallFollows(Exec(Initial(limit), init), last, t);
  }

  /** And so on the wire: the entry of a thread that got its answer out is what its handler did, so
      a handler that raised never stands there as a result. */
  lemma HandlersOnWire(limit: nat, steps: seq<Step>, i: nat, t: nat, outcome: Outcome, k: nat)
    requires HandedAt(limit, steps, i, t, outcome)
    requires var s := Exec(Initial(limit), steps);
      t < |s.calls| && OnWire(s.calls[t].place) && k < |s.wire| && s.wire[k].0 == s.calls[t].id
    ensures var reply := Exec(Initial(limit), steps).wire[k].1;
      && (outcome.HandlerRaised? ==> !reply.Result? && reply == HANDLER_FAILED)
      && ((outcome.Resolution? || outcome.ErrorOnly?) && outcome.error.Some? ==> reply == Error(outcome.error.value))
      && (outcome.Resolution? && outcome.error.None? ==> reply == Result(outcome.result))
      && (outcome.ErrorOnly? && outcome.error.None? ==> reply == Result(NULL))
      && (outcome.Value? ==> reply == Result(outcome.result))
  {
    HandlersAnswer(limit, steps, i, t, outcome);
    RunGuarded(Initial(limit), steps);
    hide Exec, InflightExact, ResolvedExact, Exclusive;
    var s := Exec(Initial(limit), steps);
    var j :| 0 <= j < |s.wire| && s.wire[j] == (s.calls[t].id, s.calls[t].reply);
    assert j == k;
  }

  /** Once the client is closed no response is begun: whatever is being written, or has been, later
      was being written, or had been, when it closed. */
  lemma {:induction false} ClosedBeginsNothing(s: State, steps: seq<Step>, t: nat)
    requires !s.up && t < |Exec(s, steps).calls|
    ensures var place := Exec(s, steps).calls[t].place;
      Busy(place) || OnWire(place) ==> t < |s.calls| && (Busy(s.calls[t].place) || OnWire(s.calls[t].place))
    decreases steps
  {
    if steps != [] {
      var next := Apply(s, steps[0]);
      ClosedStep(s, steps[0], t);
      ClosedBeginsNothing(next, steps[1..], t);
    }
  }

  lemma ClosedStep(s: State, step: Step, t: nat)
    requires !s.up
    ensures var next := Apply(s, step);
      && !next.up
      && (t < |next.calls| && (Busy(next.calls[t].place) || OnWire(next.calls[t].place)) ==>
            t < |s.calls| && (Busy(s.calls[t].place) || OnWire(s.calls[t].place)))
  {
    hide Normalise;
  }
}
