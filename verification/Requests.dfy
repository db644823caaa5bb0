/**
 Requests to the app server and their answers. Callers number, register, send, wait and
 unregister; one reader thread hands responses to waiters; at the end of the stream, and when the
 client is closed, every pending waiter is failed. All of these interleave.
 */
module Requests {
  import opened Common

  type Json = string

  /** What a waiter can be given: the response of the server, or the failure of the connection. */
  datatype Delivery = Response(id: int, error: Option<Json>, result: Json) | ConnectionFailed

  /** How a request ends for its caller. */
  datatype Ending = Completed(delivery: Delivery) | TimedOut | NotWritten

  datatype Place = Numbered | Registered | Waiting | Ending(ending: Ending) | Done(ending: Ending)

  datatype Request = Request(id: int, place: Place)

  /** The reader thread: idle, or holding the waiter it found for a response. */
  datatype Reader = Idle | Holding(id: int, delivery: Delivery)

  /** `waiters` are the one-element queues; `failing` are the waiters that the failing threads have
      still to reach; `attempts` records every put, whether or not it found the queue full. */
  datatype State = State(
    lastId: int,
    up: bool,
    requests: seq<Request>,
    pending: set<int>,
    waiters: map<int, Option<Delivery>>,
    reader: Reader,
    failing: seq<set<int>>,
    attempts: seq<(int, Delivery)>)

  datatype Step =
    | Number
    | Register(r: nat)
    | Send(r: nat, works: bool)
    | Receive(id: int, error: Option<Json>, result: Json)
    | HandOver
    | FailPending
    | FailOne(f: nat, id: int)
    | Take(r: nat)
    | TimeOut(r: nat)
    | Unregister(r: nat)
    | Close

  predicate At(s: State, r: nat, place: Place) {
    r < |s.requests| && s.requests[r].place == place
  }

  function Move(s: State, r: nat, place: Place): State
    requires r < |s.requests|
  {
    s.(requests := s.requests[r := s.requests[r].(place := place)])
  }

  /** `put_nowait` on a waiter: it stays if the queue was empty, and is dropped if it was full. */
  function Put(s: State, id: int, delivery: Delivery): State {
    var tried := s.(attempts := s.attempts + [(id, delivery)]);
    if id in s.waiters && s.waiters[id].None? then tried.(waiters := s.waiters[id := Some(delivery)]) else tried
  }

  function Apply(s: State, step: Step): State {
    match step
    case Number =>
      if s.up then s.(lastId := s.lastId + 1, requests := s.requests + [Request(s.lastId + 1, Numbered)]) else s
    case Register(r) =>
      if At(s, r, Numbered) then
        var id := s.requests[r].id;
        Move(s.(pending := s.pending + {id}, waiters := s.waiters[id := None]), r, Registered)
      else s
    case Send(r, works) =>
      if At(s, r, Registered) then Move(s, r, if works then Waiting else Ending(NotWritten)) else s
    case Receive(id, error, result) =>
      if s.reader.Idle? && id in s.pending then s.(reader := Holding(id, Response(id, error, result))) else s
    case HandOver =>
      if s.reader.Holding? then Put(s, s.reader.id, s.reader.delivery).(reader := Idle) else s
    case FailPending => s.(failing := s.failing + [s.pending])
    case FailOne(f, id) =>
      if f < |s.failing| && id in s.failing[f] then
        Put(s, id, ConnectionFailed).(failing := s.failing[f := s.failing[f] - {id}])
      else s
    case Take(r) =>
      if At(s, r, Waiting) && s.requests[r].id in s.waiters && s.waiters[s.requests[r].id].Some? then
        var id := s.requests[r].id;
        Move(s.(waiters := s.waiters[id := None]), r, Ending(Completed(s.waiters[id].value)))
      else s
    case TimeOut(r) =>
      if At(s, r, Waiting) && s.requests[r].id in s.waiters && s.waiters[s.requests[r].id].None? then
        Move(s, r, Ending(TimedOut))
      else s
    case Unregister(r) =>
      if r < |s.requests| && s.requests[r].place.Ending? then
        Move(s.(pending := s.pending - {s.requests[r].id}), r, Done(s.requests[r].place.ending))
      else s
    case Close => s.(up := false)
  }

  function Exec(s: State, steps: seq<Step>): State
    decreases steps
  {
    if steps == [] then s else Exec(Apply(s, steps[0]), steps[1..])
  }

  const INITIAL := State(0, true, [], {}, map[], Idle, [], [])

  // ---------------------------------------------------------------- specification

  /** The first delivery attempted for an id. */
  function First(attempts: seq<(int, Delivery)>, id: int): Option<Delivery> {
    if attempts == [] then None
    else if attempts[0].0 == id then Some(attempts[0].1)
    else First(attempts[1..], id)
  }

  lemma {:induction false} FirstSnoc(attempts: seq<(int, Delivery)>, entry: (int, Delivery), id: int)
    ensures First(attempts + [entry], id)
      == if First(attempts, id).Some? then First(attempts, id)
         else if entry.0 == id then Some(entry.1) else None
  {
    if attempts != [] {
      assert (attempts + [entry])[1..] == attempts[1..] + [entry];
      FirstSnoc(attempts[1..], entry, id);
    }
  }

  predicate Enrolled(place: Place) {
    place.Registered? || place.Waiting? || place.Ending?
  }

  /** Ids count up from one, so none is used twice. */
  predicate Numbering(s: State) {
    && s.lastId == |s.requests|
    && forall r | 0 <= r < |s.requests| :: s.requests[r].id == r + 1
  }

  /** Exactly the requests that were registered and have not returned are pending. */
  ghost predicate PendingExact(s: State) {
    forall id :: id in s.pending <==> 1 <= id <= |s.requests| && Enrolled(s.requests[id - 1].place)
  }

  ghost predicate WaitersExact(s: State) {
    forall id :: id in s.waiters <==> 1 <= id <= |s.requests| && !s.requests[id - 1].place.Numbered?
  }

  /** Deliveries go to registered ids, and a response only to the id it bears. */
  predicate Addressed(s: State) {
    && (forall i | 0 <= i < |s.attempts| ::
          s.attempts[i].0 in s.waiters && (s.attempts[i].1.Response? ==> s.attempts[i].1.id == s.attempts[i].0))
    && (s.reader.Holding? ==> s.reader.id in s.waiters && s.reader.delivery.Response? && s.reader.delivery.id == s.reader.id)
    && (forall f, id | 0 <= f < |s.failing| && id in s.failing[f] :: id in s.waiters)
  }

  /** A waiter that was not emptied holds the first delivery; what was taken is the first delivery. */
  predicate Settled(s: State, request: Request) {
    match request.place
    case Numbered => First(s.attempts, request.id) == None
    case Registered => request.id in s.waiters && s.waiters[request.id] == First(s.attempts, request.id)
    case Waiting => request.id in s.waiters && s.waiters[request.id] == First(s.attempts, request.id)
    case Ending(ending) => ending.Completed? ==> First(s.attempts, request.id) == Some(ending.delivery)
    case Done(ending) => ending.Completed? ==> First(s.attempts, request.id) == Some(ending.delivery)
  }

  ghost predicate Correlated(s: State) {
    && Numbering(s) && PendingExact(s) && WaitersExact(s) && Addressed(s)
    && forall r | 0 <= r < |s.requests| :: Settled(s, s.requests[r])
  }

  // ---------------------------------------------------------------- every step

  lemma {:induction false} FirstAddressed(attempts: seq<(int, Delivery)>, id: int)
    ensures First(attempts, id).Some? ==> exists i :: 0 <= i < |attempts| && attempts[i] == (id, First(attempts, id).value)
  {
    if attempts != [] {
      if attempts[0].0 == id {
        assert attempts[0] == (id, First(attempts, id).value);
      } else {
        FirstAddressed(attempts[1..], id);
        if First(attempts[1..], id).Some? {
          var i :| 0 <= i < |attempts[1..]| && attempts[1..][i] == (id, First(attempts[1..], id).value);
          assert attempts[i + 1] == attempts[1..][i];
        }
      }
    }
  }

  lemma PutCorrelated(s: State, id: int, delivery: Delivery)
    requires Correlated(s) && id in s.waiters && (delivery.Response? ==> delivery.id == id)
    ensures Correlated(Put(s, id, delivery))
  {
    hide First;
    var t := Put(s, id, delivery);
    forall r | 0 <= r < |t.requests|
      ensures Settled(t, t.requests[r])
    {
      FirstSnoc(s.attempts, (id, delivery), s.requests[r].id);
      assert Settled(s, s.requests[r]);
    }
  }

  lemma NumberCorrelated(s: State)
    requires Correlated(s)
    ensures Correlated(Apply(s, Number))
  {
    hide First;
    var t := Apply(s, Number);
    if s.up {
      FirstAddressed(s.attempts, s.lastId + 1);
      forall r | 0 <= r < |t.requests|
        ensures Settled(t, t.requests[r])
      {
        assert r < |s.requests| ==> Settled(s, s.requests[r]);
      }
    }
  }

  lemma RegisterCorrelated(s: State, r: nat)
    requires Correlated(s) && At(s, r, Numbered)
    ensures Correlated(Apply(s, Register(r)))
  {
    hide First;
    var t := Apply(s, Register(r));
    forall q | 0 <= q < |t.requests|
      ensures Settled(t, t.requests[q])
    {
      assert Settled(s, s.requests[q]);
    }
  }

  /** A registered request moves on; at most its own waiter and its own entry change. */
  lemma OneMoves(s: State, t: State, r: nat)
    requires Correlated(s) && r < |s.requests| == |t.requests| && t.requests == s.requests[r := t.requests[r]]
    requires t.lastId == s.lastId && t.attempts == s.attempts && t.reader == s.reader && t.failing == s.failing
    requires t.requests[r].id == s.requests[r].id && Enrolled(s.requests[r].place) && !t.requests[r].place.Numbered?
    requires t.pending == if Enrolled(t.requests[r].place) then s.pending else s.pending - {s.requests[r].id}
    requires t.waiters.Keys == s.waiters.Keys
    requires forall id | id in s.waiters && id != s.requests[r].id :: t.waiters[id] == s.waiters[id]
    requires Settled(t, t.requests[r])
    ensures Correlated(t)
  {
    hide First;
    assert forall q | 0 <= q < |s.requests| && q != r :: t.requests[q] == s.requests[q];
    assert Numbering(t) && PendingExact(t) && WaitersExact(t) && Addressed(t);
    forall q | 0 <= q < |t.requests|
      ensures Settled(t, t.requests[q])
    {
      assert Settled(s, s.requests[q]);
    }
  }

  lemma MoveCorrelated(s: State, step: Step)
    requires Correlated(s)
    requires step.Send? || step.Take? || step.TimeOut? || step.Unregister?
    ensures Correlated(Apply(s, step))
  {
    var r, t := step.r, Apply(s, step);
    if t != s {
      assert Settled(s, s.requests[r]);
      hide First, Correlated;
      OneMoves(s, t, r);
    }
  }

  lemma QuietCorrelated(s: State, t: State)
    requires Correlated(s)
    requires t.lastId == s.lastId && t.requests == s.requests && t.pending == s.pending && t.waiters == s.waiters
    requires t.attempts == s.attempts && Addressed(t)
    ensures Correlated(t)
  {
    hide First;
    forall q | 0 <= q < |t.requests|
      ensures Settled(t, t.requests[q])
    {
      assert Settled(s, s.requests[q]);
    }
  }

  lemma StepCorrelated(s: State, step: Step)
    requires Correlated(s)
    ensures Correlated(Apply(s, step))
  {
    hide First, Settled;
    var t := Apply(s, step);
    match step {
      case Number => NumberCorrelated(s);
      case Register(r) => if At(s, r, Numbered) { RegisterCorrelated(s, r); }
      case Receive(id, error, result) => QuietCorrelated(s, t);
      case HandOver =>
        if s.reader.Holding? {
          PutCorrelated(s, s.reader.id, s.reader.delivery);
          QuietCorrelated(Put(s, s.reader.id, s.reader.delivery), t);
        }
      case FailPending => QuietCorrelated(s, t);
      case FailOne(f, id) =>
        if f < |s.failing| && id in s.failing[f] {
          PutCorrelated(s, id, ConnectionFailed);
          QuietCorrelated(Put(s, id, ConnectionFailed), t);
        }
      case Close => QuietCorrelated(s, t);
      case _ => MoveCorrelated(s, step);
    }
  }

  lemma {:induction false} RunCorrelated(s: State, steps: seq<Step>)
    requires Correlated(s)
    ensures Correlated(Exec(s, steps))
    decreases steps
  {
    hide Correlated, Apply;
    if steps != [] {
      StepCorrelated(s, steps[0]);
      RunCorrelated(Apply(s, steps[0]), steps[1..]);
    }
  }

  /** Request correlation, over every run: ids are never reused; the pending ids are those of the
      registered requests that have not returned; and a request that completes does so with the
      first delivery made to it, which is a response bearing its own id or the failure of the
      connection. Duplicate, late and unknown responses reach nobody else. */
  lemma RequestsCorrelated(steps: seq<Step>)
    ensures var s := Exec(INITIAL, steps);
      && (forall q, r | 0 <= q < r < |s.requests| :: s.requests[q].id < s.requests[r].id)
      && (forall id :: id in s.pending <==> exists r :: 0 <= r < |s.requests| && s.requests[r].id == id && Enrolled(s.requests[r].place))
      && (forall r | 0 <= r < |s.requests| && s.requests[r].place.Done? && s.requests[r].place.ending.Completed? ::
            var delivery := s.requests[r].place.ending.delivery;
            && First(s.attempts, s.requests[r].id) == Some(delivery)
            && (delivery.Response? ==> delivery.id == s.requests[r].id))
  {
    var s := Exec(INITIAL, steps);
    RunCorrelated(INITIAL, steps);
    hide First;
    forall id
      ensures id in s.pending <==> exists r :: 0 <= r < |s.requests| && s.requests[r].id == id && Enrolled(s.requests[r].place)
    {
      if id in s.pending {
        assert s.requests[id - 1].id == id;
      }
    }
    forall r | 0 <= r < |s.requests| && s.requests[r].place.Done? && s.requests[r].place.ending.Completed?
      ensures var delivery := s.requests[r].place.ending.delivery;
        && First(s.attempts, s.requests[r].id) == Some(delivery)
        && (delivery.Response? ==> delivery.id == s.requests[r].id)
    {
      assert Settled(s, s.requests[r]);
      FirstAddressed(s.attempts, s.requests[r].id);
    }
  }

  /** A request that has returned keeps its ending, whatever arrives later. */
  lemma {:induction false} EndingIsFinal(s: State, steps: seq<Step>, r: nat)
    requires r < |s.requests| && s.requests[r].place.Done?
    ensures var t := Exec(s, steps);
      r < |t.requests| && t.requests[r] == s.requests[r]
    decreases steps
  {
    if steps != [] {
      EndingIsFinal(Apply(s, steps[0]), steps[1..], r);
    }
  }

  /** The caller waits with something in its queue, or has completed with what it was given. */
  predicate Given(s: State, r: nat) {
    && r < |s.requests|
    && match s.requests[r].place
       case Waiting => s.requests[r].id in s.waiters && s.waiters[s.requests[r].id].Some?
       case Ending(ending) => ending.Completed?
       case Done(ending) => ending.Completed?
       case _ => false
  }

  /** A put keeps what a queue holds. */
  lemma PutGiven(s: State, id: int, delivery: Delivery, r: nat)
    requires Given(s, r)
    ensures Given(Put(s, id, delivery), r)
  {
  }

  /** Steps of other requests leave the queue alone, since no two have the same id. */
  lemma OthersGiven(s: State, step: Step, r: nat)
    requires Numbering(s) && Given(s, r)
    requires step.Register? || step.Send? || step.Take? || step.TimeOut? || step.Unregister?
    ensures Given(Apply(s, step), r)
  {
    var q := step.r;
    if q != r && q < |s.requests| {
      assert s.requests[q].id != s.requests[r].id;
    }
  }

  lemma StepGiven(s: State, step: Step, r: nat)
    requires Numbering(s) && Given(s, r)
    ensures Given(Apply(s, step), r)
  {
    if step.Register? || step.Send? || step.Take? || step.TimeOut? || step.Unregister? {
      hide Apply, Given;
      OthersGiven(s, step, r);
    } else if step.HandOver? && s.reader.Holding? {
      PutGiven(s, s.reader.id, s.reader.delivery, r);
    } else if step.FailOne? {
      PutGiven(s, step.id, ConnectionFailed, r);
    }
  }

  lemma {:induction false} RunGiven(s: State, steps: seq<Step>, r: nat)
    requires Correlated(s) && Given(s, r)
    ensures Given(Exec(s, steps), r)
    decreases steps
  {
    hide Given, Apply, Numbering, PendingExact, WaitersExact, Addressed, Settled;
    if steps != [] {
      StepGiven(s, steps[0], r);
      StepCorrelated(s, steps[0]);
      RunGiven(Apply(s, steps[0]), steps[1..], r);
    }
  }

  lemma FailedIsGiven(s: State, f: nat, r: nat)
    requires Correlated(s) && At(s, r, Waiting) && f < |s.failing| && s.requests[r].id in s.failing[f]
    ensures Given(Apply(s, FailOne(f, s.requests[r].id)), r)
  {
    hide First;
    assert Settled(s, s.requests[r]);
  }

  /** Once the failing thread has reached a waiting caller, the caller never times out: in every
      later run it waits with a full queue, or has completed with the delivery made to it first. */
  lemma FailedCallerDoesNotTimeOut(steps: seq<Step>, f: nat, r: nat, later: seq<Step>)
    requires var s := Exec(INITIAL, steps);
      At(s, r, Waiting) && f < |s.failing| && s.requests[r].id in s.failing[f]
    ensures var s := Exec(INITIAL, steps);
      var t := Exec(Apply(s, FailOne(f, s.requests[r].id)), later);
      && Given(t, r)
      && (At(t, r, Waiting) ==> Apply(t, TimeOut(r)) == t && Apply(t, Take(r)) != t)
  {
    hide Exec, First;
    var s := Exec(INITIAL, steps);
    RunCorrelated(INITIAL, steps);
    FailedIsGiven(s, f, r);
    StepCorrelated(s, FailOne(f, s.requests[r].id));
    RunGiven(Apply(s, FailOne(f, s.requests[r].id)), later, r);
    var t := Exec(Apply(s, FailOne(f, s.requests[r].id)), later);
    if At(t, r, Waiting) {
      TakenOnce(t, r);
    }
  }

  lemma TakenOnce(t: State, r: nat)
    requires At(t, r, Waiting) && Given(t, r)
    ensures Apply(t, TimeOut(r)) == t && Apply(t, Take(r)).requests[r].place.Ending?
  {
  }

  // ---------------------------------------------------------------- where an ending comes from

  /** The state in which step `i` of a run is taken. */
  function Before(steps: seq<Step>, i: nat): State
    requires i <= |steps|
  {
    Exec(INITIAL, steps[..i])
  }

  /** The server sent this response, for an id that was pending, and the reader was there for it. */
  ghost predicate ReceivedAt(steps: seq<Step>, i: nat, id: int, error: Option<Json>, result: Json) {
    && i < |steps| && steps[i] == Receive(id, error, result)
    && Before(steps, i).reader.Idle? && id in Before(steps, i).pending
  }

  /** The connection failed while the id was pending. */
  ghost predicate FailedAt(steps: seq<Step>, i: nat, id: int) {
    i < |steps| && steps[i] == FailPending && id in Before(steps, i).pending
  }

  ghost predicate SentAt(steps: seq<Step>, i: nat, r: nat, works: bool) {
    i < |steps| && steps[i] == Send(r, works) && At(Before(steps, i), r, Registered)
  }

  /** The caller gave up while nothing had been put in its queue. */
  ghost predicate GaveUpAt(steps: seq<Step>, i: nat, r: nat) {
    && i < |steps| && steps[i] == TimeOut(r) && At(Before(steps, i), r, Waiting)
    && First(Before(steps, i).attempts, Before(steps, i).requests[r].id).None?
  }

  /** What is delivered to an id is what the server sent for it, or the failure of the connection. */
  ghost predicate Sourced(steps: seq<Step>, id: int, delivery: Delivery) {
    match delivery
    case Response(own, error, result) => own == id && exists i: nat :: ReceivedAt(steps, i, id, error, result)
    case ConnectionFailed => exists i: nat :: FailedAt(steps, i, id)
  }

  ghost predicate Written(steps: seq<Step>, r: nat, works: bool) {
    exists i: nat :: SentAt(steps, i, r, works)
  }

  ghost predicate GaveUp(steps: seq<Step>, r: nat) {
    exists i: nat :: GaveUpAt(steps, i, r)
  }

  ghost predicate EndsFor(steps: seq<Step>, r: nat, ending: Ending) {
    match ending
    case NotWritten => Written(steps, r, false)
    case TimedOut => Written(steps, r, true) && GaveUp(steps, r)
    case Completed(_) => Written(steps, r, true)
  }

  /** Where a request stands has its reason in the run. */
  ghost predicate Reasoned(steps: seq<Step>, r: nat, place: Place) {
    match place
    case Waiting => Written(steps, r, true)
    case Ending(ending) => EndsFor(steps, r, ending)
    case Done(ending) => EndsFor(steps, r, ending)
    case _ => true
  }

  /** Everything that is on its way to a caller has a source in the run, and every request stands
      where it does for a reason. */
  ghost predicate Traced(steps: seq<Step>, s: State) {
    && (forall k | 0 <= k < |s.attempts| :: Sourced(steps, s.attempts[k].0, s.attempts[k].1))
    && (s.reader.Holding? ==> Sourced(steps, s.reader.id, s.reader.delivery))
    && (forall f, id | 0 <= f < |s.failing| && id in s.failing[f] :: Sourced(steps, id, ConnectionFailed))
    && (forall r | 0 <= r < |s.requests| :: Reasoned(steps, r, s.requests[r].place))
  }

  lemma {:induction false} ExecLast(s: State, steps: seq<Step>, last: Step)
    ensures Exec(s, steps + [last]) == Apply(Exec(s, steps), last)
    decreases steps
  {
    hide Apply;
    if steps == [] {
      assert [] + [last] == [last];
      assert [last][1..] == [];
    } else {
      assert (steps + [last])[1..] == steps[1..] + [last];
      ExecLast(Apply(s, steps[0]), steps[1..], last);
    }
  }

  lemma SourcedStays(steps: seq<Step>, last: Step, id: int, delivery: Delivery)
    requires Sourced(steps, id, delivery)
    ensures Sourced(steps + [last], id, delivery)
  {
    hide Exec;
    var all := steps + [last];
    assert forall i | 0 <= i < |steps| :: all[i] == steps[i] && all[..i] == steps[..i];
    match delivery {
      case Response(_, error, result) =>
        var i: nat :| ReceivedAt(steps, i, id, error, result);
        assert ReceivedAt(all, i, id, error, result);
      case ConnectionFailed =>
        var i: nat :| FailedAt(steps, i, id);
        assert FailedAt(all, i, id);
    }
  }

  lemma ReasonedStays(steps: seq<Step>, last: Step, r: nat, place: Place)
    requires Reasoned(steps, r, place)
    ensures Reasoned(steps + [last], r, place)
  {
    hide Exec, SentAt, GaveUpAt;
    forall works | Written(steps, r, works)
      ensures Written(steps + [last], r, works)
    {
      var i: nat :| SentAt(steps, i, r, works);
      StepStays(steps, last, i, r, works);
    }
    if GaveUp(steps, r) {
      var i: nat :| GaveUpAt(steps, i, r);
      StepStays(steps, last, i, r, true);
    }
  }

  lemma StepStays(steps: seq<Step>, last: Step, i: nat, r: nat, works: bool)
    ensures SentAt(steps, i, r, works) ==> SentAt(steps + [last], i, r, works)
    ensures GaveUpAt(steps, i, r) ==> GaveUpAt(steps + [last], i, r)
  {
    hide Exec, First;
    if i < |steps| {
      assert (steps + [last])[i] == steps[i] && (steps + [last])[..i] == steps[..i];
    }
  }

  lemma LastBefore(steps: seq<Step>, last: Step)
    ensures var all := steps + [last];
      all[|steps|] == last && Before(all, |steps|) == Exec(INITIAL, steps)
  {
    hide Exec;
    assert (steps + [last])[..|steps|] == steps;
  }

  /** The last step gives what it moves a source of its own. */
  lemma LastSourced(steps: seq<Step>, last: Step, s: State, t: State)
    requires s == Exec(INITIAL, steps) && t == Apply(s, last) && Traced(steps, s)
    ensures forall k | 0 <= k < |t.attempts| :: Sourced(steps + [last], t.attempts[k].0, t.attempts[k].1)
    ensures t.reader.Holding? ==> Sourced(steps + [last], t.reader.id, t.reader.delivery)
    ensures forall f, id | 0 <= f < |t.failing| && id in t.failing[f] :: Sourced(steps + [last], id, ConnectionFailed)
  {
    hide Exec, Sourced, Reasoned;
    var all := steps + [last];
    LastBefore(steps, last);
    forall id, delivery | Sourced(steps, id, delivery)
      ensures Sourced(all, id, delivery)
    {
      SourcedStays(steps, last, id, delivery);
    }
    if last.Receive? && s.reader.Idle? && last.id in s.pending {
      ReceivedNow(steps, last);
    } else if last.FailPending? {
      forall id | id in s.pending
        ensures Sourced(all, id, ConnectionFailed)
      {
        FailedNow(steps, id);
      }
    }
  }

  lemma ReceivedNow(steps: seq<Step>, last: Step)
    requires last.Receive? && Exec(INITIAL, steps).reader.Idle? && last.id in Exec(INITIAL, steps).pending
    ensures Sourced(steps + [last], last.id, Response(last.id, last.error, last.result))
  {
    hide Exec;
    LastBefore(steps, last);
    assert ReceivedAt(steps + [last], |steps|, last.id, last.error, last.result);
  }

  lemma FailedNow(steps: seq<Step>, id: int)
    requires id in Exec(INITIAL, steps).pending
    ensures Sourced(steps + [FailPending], id, ConnectionFailed)
  {
    hide Exec;
    LastBefore(steps, FailPending);
    assert FailedAt(steps + [FailPending], |steps|, id);
  }

  lemma LastReasoned(steps: seq<Step>, last: Step, s: State, t: State, r: nat)
    requires s == Exec(INITIAL, steps) && t == Apply(s, last) && Correlated(s)
    requires forall q | 0 <= q < |s.requests| :: Reasoned(steps, q, s.requests[q].place)
    requires r < |t.requests|
    ensures Reasoned(steps + [last], r, t.requests[r].place)
  {
    hide Exec, First, Written, GaveUp, PendingExact, WaitersExact, Addressed, Numbering;
    if r < |s.requests| {
      ReasonedStays(steps, last, r, s.requests[r].place);
      assert Settled(s, s.requests[r]);
      if last.Send? && last.r == r && At(s, r, Registered) {
        SentNow(steps, r, last.works);
      } else if last.TimeOut? && last.r == r && t != s {
        GaveUpNow(steps, r);
      }
    }
  }

  lemma SentNow(steps: seq<Step>, r: nat, works: bool)
    requires At(Exec(INITIAL, steps), r, Registered)
    ensures Written(steps + [Send(r, works)], r, works)
  {
    hide Exec;
    LastBefore(steps, Send(r, works));
    assert SentAt(steps + [Send(r, works)], |steps|, r, works);
  }

  lemma GaveUpNow(steps: seq<Step>, r: nat)
    requires var s := Exec(INITIAL, steps); At(s, r, Waiting) && First(s.attempts, s.requests[r].id).None?
    ensures GaveUp(steps + [TimeOut(r)], r)
  {
    hide Exec, First;
    LastBefore(steps, TimeOut(r));
    assert GaveUpAt(steps + [TimeOut(r)], |steps|, r);
  }

  lemma {:induction false} RunTraced(steps: seq<Step>)
    ensures Traced(steps, Exec(INITIAL, steps))
    decreases |steps|
  {
    if steps != [] {
      var init, last := steps[..|steps| - 1], steps[|steps| - 1];
      assert steps == init + [last];
      hide Exec, Apply, Sourced, Reasoned, Correlated;
      RunTraced(init);
      RunCorrelated(INITIAL, init);
      assert Correlated(INITIAL) by { NothingYet(); }
      ExecLast(INITIAL, init, last);
      var s, t := Exec(INITIAL, init), Exec(INITIAL, steps);
      LastSourced(init, last, s, t);
      forall r | 0 <= r < |t.requests|
        ensures Reasoned(steps, r, t.requests[r].place)
      {
        LastReasoned(init, last, s, t, r);
      }
    }
  }

  lemma NothingYet()
    ensures Correlated(INITIAL)
  {
  }

  /** Where the ending of a request comes from, in every run. A response is one the server sent in
      that run for this id while it was pending, with that error and that result, and the caller
      had written its request; a connection failure struck while the id was pending; a request that
      timed out was written and nothing had been put in its queue; and one that was not written had
      a write that failed. */
  lemma EndingsHaveReasons(steps: seq<Step>, r: nat)
    requires var s := Exec(INITIAL, steps); r < |s.requests| && s.requests[r].place.Done?
    ensures var request := Exec(INITIAL, steps).requests[r];
      match request.place.ending
      case Completed(Response(id, error, result)) =>
        && id == request.id && (exists i: nat :: ReceivedAt(steps, i, id, error, result))
        && (exists i: nat :: SentAt(steps, i, r, true))
      case Completed(ConnectionFailed) =>
        (exists i: nat :: FailedAt(steps, i, request.id)) && (exists i: nat :: SentAt(steps, i, r, true))
      case TimedOut => (exists i: nat :: GaveUpAt(steps, i, r)) && (exists i: nat :: SentAt(steps, i, r, true))
      case NotWritten => exists i: nat :: SentAt(steps, i, r, false)
  {
    var s := Exec(INITIAL, steps);
    RunTraced(steps);
    NothingYet();
    RunCorrelated(INITIAL, steps);
    hide Exec, First, ReceivedAt, FailedAt, SentAt, GaveUpAt;
    assert Settled(s, s.requests[r]) && Reasoned(steps, r, s.requests[r].place);
    FirstAddressed(s.attempts, s.requests[r].id);
  }

  // ---------------------------------------------------------------- an answer arrives

  lemma {:induction false} FirstKept(s: State, steps: seq<Step>, id: int)
    requires First(s.attempts, id).Some?
    ensures First(Exec(s, steps).attempts, id) == First(s.attempts, id)
    decreases steps
  {
    hide First;
    if steps != [] {
      var t := Apply(s, steps[0]);
      FirstStays(s, steps[0], id);
      hide Apply;
      FirstKept(t, steps[1..], id);
    }
  }

  lemma FirstStays(s: State, step: Step, id: int)
    requires First(s.attempts, id).Some?
    ensures First(Apply(s, step).attempts, id) == First(s.attempts, id)
  {
    hide First;
    if step.HandOver? && s.reader.Holding? {
      FirstSnoc(s.attempts, (s.reader.id, s.reader.delivery), id);
    } else if step.FailOne? {
      FirstSnoc(s.attempts, (step.id, ConnectionFailed), id);
    }
  }

  lemma HandedOver(s: State, r: nat, error: Option<Json>, result: Json)
    requires Correlated(s) && At(s, r, Waiting) && s.reader.Idle? && First(s.attempts, s.requests[r].id).None?
    ensures var id := s.requests[r].id;
      var t := Apply(Apply(s, Receive(id, error, result)), HandOver);
      && Correlated(t) && Given(t, r) && r < |t.requests| && t.requests[r] == s.requests[r]
      && First(t.attempts, id) == Some(Response(id, error, result))
  {
    var id := s.requests[r].id;
    assert Settled(s, s.requests[r]) && id in s.pending;
    FirstSnoc(s.attempts, (id, Response(id, error, result)), id);
    StepCorrelated(s, Receive(id, error, result));
    StepCorrelated(Apply(s, Receive(id, error, result)), HandOver);
    hide First, Correlated;
  }

  /** An answer reaches its caller. When the server answers a waiting caller with an empty queue and
      the reader hands the answer over, then in every later run the caller does not time out: it
      waits with that answer in its queue, or has completed with that error and that result. */
  lemma AnswerArrives(steps: seq<Step>, r: nat, error: Option<Json>, result: Json, later: seq<Step>)
    requires var s := Exec(INITIAL, steps);
      && At(s, r, Waiting) && s.reader.Idle?
      && s.requests[r].id in s.waiters && s.waiters[s.requests[r].id].None?
    ensures var s := Exec(INITIAL, steps);
      var id := s.requests[r].id;
      var answer := Response(id, error, result);
      var t := Exec(Apply(Apply(s, Receive(id, error, result)), HandOver), later);
      && r < |t.requests| && t.requests[r].id == id
      && match t.requests[r].place
         case Waiting => id in t.waiters && t.waiters[id] == Some(answer)
         case Ending(ending) => ending == Completed(answer)
         case Done(ending) => ending == Completed(answer)
         case _ => false
  {
    var s := Exec(INITIAL, steps);
    NothingYet();
    RunCorrelated(INITIAL, steps);
    hide Exec, First, Apply;
    var id := s.requests[r].id;
    assert Settled(s, s.requests[r]);
    HandedOver(s, r, error, result);
    var t := Apply(Apply(s, Receive(id, error, result)), HandOver);
    RunCorrelated(t, later);
    RunGiven(t, later, r);
    FirstKept(t, later, id);
    var u := Exec(t, later);
    assert Settled(u, u.requests[r]);
    assert u.requests[r].id == r + 1 == t.requests[r].id;
  }

  /** And the caller that takes it then completes with it. */
  lemma AnswerIsTaken(steps: seq<Step>, r: nat, error: Option<Json>, result: Json)
    requires var s := Exec(INITIAL, steps);
      && At(s, r, Waiting) && s.reader.Idle?
      && s.requests[r].id in s.waiters && s.waiters[s.requests[r].id].None?
    ensures var s := Exec(INITIAL, steps);
      var id := s.requests[r].id;
      var t := Apply(Apply(s, Receive(id, error, result)), HandOver);
      At(Apply(t, Take(r)), r, Ending(Completed(Response(id, error, result))))
  {
    var s := Exec(INITIAL, steps);
    var t := Apply(Apply(s, Receive(s.requests[r].id, error, result)), HandOver);
    AnswerArrives(steps, r, error, result, []);
    assert Exec(t, []) == t;
    hide Exec;
    assert s.requests[r].id in s.pending by {
      NothingYet();
      RunCorrelated(INITIAL, steps);
      hide First;
    }
  }

  /** The failure of the connection reaches every waiting caller: once it has struck and the failing
      thread has come to the caller, the caller, in every later run, waits with a full queue or has
      completed with the delivery made to it first, which is the failure if there was none. */
  lemma FailureArrives(steps: seq<Step>, r: nat, later: seq<Step>)
    requires At(Exec(INITIAL, steps), r, Waiting)
    ensures var s := Exec(INITIAL, steps);
      var id := s.requests[r].id;
      var t := Exec(Apply(Apply(s, FailPending), FailOne(|s.failing|, id)), later);
      && Given(t, r) && t.requests[r].id == id
      && (t.requests[r].place.Done? ==>
            t.requests[r].place.ending == Completed(if First(s.attempts, id).Some? then First(s.attempts, id).value else ConnectionFailed))
  {
    var s := Exec(INITIAL, steps);
    NothingYet();
    RunCorrelated(INITIAL, steps);
    hide Exec, First;
    var id := s.requests[r].id;
    assert Settled(s, s.requests[r]) && id in s.pending;
    var failing := Apply(s, FailPending);
    StepCorrelated(s, FailPending);
    FailedIsGiven(failing, |s.failing|, r);
    StepCorrelated(failing, FailOne(|s.failing|, id));
    FirstSnoc(s.attempts, (id, ConnectionFailed), id);
    var t := Apply(failing, FailOne(|s.failing|, id));
    assert First(t.attempts, id) == if First(s.attempts, id).Some? then First(s.attempts, id) else Some(ConnectionFailed);
    hide Apply;
    RunCorrelated(t, later);
    RunGiven(t, later, r);
    FirstKept(t, later, id);
    var u := Exec(t, later);
    assert Settled(u, u.requests[r]);
    assert u.requests[r].id == r + 1;
  }

  /** Once the client is closed no request is numbered. */
  lemma {:induction false} ClosedNumbersNothing(s: State, steps: seq<Step>)
    requires !s.up
    ensures |Exec(s, steps).requests| == |s.requests| && Exec(s, steps).lastId == s.lastId
    decreases steps
  {
    if steps != [] {
      ClosedNumbersNothing(Apply(s, steps[0]), steps[1..]);
    }
  }
}
