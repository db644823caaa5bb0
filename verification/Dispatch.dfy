/** The fan-out of notifications: one publisher, any number of subscribers with their own queues. */
module Dispatch {
  import opened Common

  /** What a subscriber's predicate does with a message. A subscriber without one accepts all. */
  datatype Verdict = Accepts | Rejects | Raises

  datatype Subscriber<!M> = Subscriber(filter: Option<M -> Verdict>, queue: seq<M>, received: seq<M>) {
    predicate Wants(m: M) {
      filter.None? || filter.value(m).Accepts?
    }
  }

  /** A publication: the message and the subscriptions in place when it was published. */
  datatype Publication<+M> = Publication(message: M, snapshot: seq<int>)

  datatype Publisher<+M> = Idle | Delivering(message: M, left: seq<int>)

  /** `active` are the current subscriptions in order; subscribers keep their queue afterwards. */
  datatype State<!M> = State(
    lastId: int,
    active: seq<int>,
    subscribers: map<int, Subscriber<M>>,
    publisher: Publisher<M>,
    log: seq<Publication<M>>)

  datatype Step<!M> =
    | Subscribe(filter: Option<M -> Verdict>)
    | Unsubscribe(id: int)
    | Publish(message: M)
    | Deliver
    | Get(id: int)

  function Without(ids: seq<int>, id: int): seq<int> {
    if ids == [] then [] else (if ids[0] == id then [] else [ids[0]]) + Without(ids[1..], id)
  }

  function Apply<M>(s: State<M>, step: Step<M>): State<M> {
    match step
    case Subscribe(p) =>
      var id := s.lastId + 1;
      s.(lastId := id, active := s.active + [id], subscribers := s.subscribers[id := Subscriber(p, [], [])])
    case Unsubscribe(id) => s.(active := Without(s.active, id))
    case Publish(m) =>
      if s.publisher.Idle? then s.(publisher := Delivering(m, s.active), log := s.log + [Publication(m, s.active)]) else s
    case Deliver =>
      if s.publisher.Idle? then s
      else if s.publisher.left == [] then s.(publisher := Idle)
      else
        var id, m := s.publisher.left[0], s.publisher.message;
        var next := s.(publisher := Delivering(m, s.publisher.left[1..]));
        if id in s.subscribers && s.subscribers[id].Wants(m) then
          var sub := s.subscribers[id];
          next.(subscribers := s.subscribers[id := sub.(queue := sub.queue + [m])])
        else next
    case Get(id) =>
      if id in s.subscribers && s.subscribers[id].queue != [] then
        var sub := s.subscribers[id];
        s.(subscribers := s.subscribers[id := sub.(queue := sub.queue[1..], received := sub.received + [sub.queue[0]])])
      else s
  }

  function Exec<M>(s: State<M>, steps: seq<Step<M>>): State<M>
    decreases |steps|
  {
    if steps == [] then s else Exec(Apply(s, steps[0]), steps[1..])
  }

  function Initial<M>(): State<M> {
    State(0, [], map[], Idle, [])
  }

  // ---------------------------------------------------------------- specification

  /** The predicate returns true; a predicate that raises does not, and a missing one accepts all. */
  predicate Accepted<M>(filter: Option<M -> Verdict>, m: M) {
    match filter
    case None => true
    case Some(f) => f(m) != Rejects && f(m) != Raises
  }

  /** The messages published while `id` was subscribed that its predicate accepts, in order. */
  function Owed<M>(log: seq<Publication<M>>, id: int, sub: Subscriber<M>): seq<M> {
    if log == [] then [] else
      var last := log[|log| - 1];
      Owed(log[..|log| - 1], id, sub)
        + if id in last.snapshot && Accepted(sub.filter, last.message) then [last.message] else []
  }

  /** What the delivery under way still has to bring to `id`. */
  function Coming<M>(publisher: Publisher<M>, id: int, sub: Subscriber<M>): seq<M> {
    if publisher.Delivering? && id in publisher.left && Accepted(sub.filter, publisher.message) then [publisher.message] else []
  }

  predicate Distinct(ids: seq<int>) {
    forall i, j | 0 <= i < j < |ids| :: ids[i] != ids[j]
  }

  ghost predicate Delivered<M>(s: State<M>, id: int) {
    id in s.subscribers ==>
      var sub := s.subscribers[id];
      sub.received + sub.queue + Coming(s.publisher, id, sub) == Owed(s.log, id, sub)
  }

  predicate Known<M(!new)>(s: State<M>, ids: seq<int>) {
    forall i | 0 <= i < |ids| :: ids[i] in s.subscribers
  }

  ghost predicate Sound<M(!new)>(s: State<M>) {
    && s.lastId >= 0 && (forall id | id in s.subscribers :: 1 <= id <= s.lastId)
    && Known(s, s.active) && Distinct(s.active)
    && (forall k | 0 <= k < |s.log| :: Known(s, s.log[k].snapshot))
    && (s.publisher.Delivering? ==> Distinct(s.publisher.left) && Known(s, s.publisher.left))
    && forall id :: Delivered(s, id)
  }

  // ---------------------------------------------------------------- every step

  lemma {:induction false} WithoutElements(ids: seq<int>, id: int)
    ensures forall x :: x in Without(ids, id) <==> x in ids && x != id
    ensures Distinct(ids) ==> Distinct(Without(ids, id))
  {
    if ids != [] {
      WithoutElements(ids[1..], id);
      var rest := Without(ids[1..], id);
      if Distinct(ids) {
        assert Distinct(ids[1..]);
        forall k | 0 <= k < |rest|
          ensures rest[k] != ids[0]
        {
          assert rest[k] in rest;
        }
      }
    }
  }

  lemma {:induction false} OwedIgnoresQueue<M>(log: seq<Publication<M>>, id: int, a: Subscriber<M>, b: Subscriber<M>)
    requires a.filter == b.filter
    ensures Owed(log, id, a) == Owed(log, id, b)
  {
    if log != [] {
      OwedIgnoresQueue(log[..|log| - 1], id, a, b);
    }
  }

  lemma {:induction false} OwedNothing<M>(log: seq<Publication<M>>, id: int, sub: Subscriber<M>)
    requires forall k | 0 <= k < |log| :: id !in log[k].snapshot
    ensures Owed(log, id, sub) == []
  {
    if log != [] {
      OwedNothing(log[..|log| - 1], id, sub);
    }
  }

  lemma SubscribeSound<M(!new)>(s: State<M>, p: Option<M -> Verdict>)
    requires Sound(s)
    ensures Sound(Apply(s, Subscribe(p)))
  {
    hide Owed;
    var t := Apply(s, Subscribe(p));
    var added := s.lastId + 1;
    forall k | 0 <= k < |s.log|
      ensures Known(t, s.log[k].snapshot) && added !in s.log[k].snapshot
    {
      assert Known(s, s.log[k].snapshot);
    }
    OwedNothing(s.log, added, t.subscribers[added]);
    forall id
      ensures Delivered(t, id)
    {
      assert Delivered(s, id);
      if id == added {
        assert s.publisher.Delivering? ==> added !in s.publisher.left;
        assert Coming(t.publisher, id, t.subscribers[id]) == [];
      }
    }
    assert Known(t, t.active) && Distinct(t.active);
  }

  lemma UnsubscribeSound<M(!new)>(s: State<M>, id: int)
    requires Sound(s)
    ensures Sound(Apply(s, Unsubscribe(id)))
  {
    hide Owed;
    var t := Apply(s, Unsubscribe(id));
    WithoutElements(s.active, id);
    forall k | 0 <= k < |t.active|
      ensures t.active[k] in t.subscribers
    {
      assert t.active[k] in t.active;
      var j :| 0 <= j < |s.active| && s.active[j] == t.active[k];
    }
    forall x
      ensures Delivered(t, x)
    {
      assert Delivered(s, x);
    }
  }

  lemma PublishSound<M(!new)>(s: State<M>, m: M)
    requires Sound(s) && s.publisher.Idle?
    ensures Sound(Apply(s, Publish(m)))
  {
    var t := Apply(s, Publish(m));
    assert t.log[..|s.log|] == s.log;
    forall id
      ensures Delivered(t, id)
    {
      assert Delivered(s, id);
    }
  }

  lemma DeliverSound<M(!new)>(s: State<M>)
    requires Sound(s) && s.publisher.Delivering? && s.publisher.left != []
    ensures Sound(Apply(s, Deliver))
  {
    hide Owed;
    var t := Apply(s, Deliver);
    var left := s.publisher.left;
    forall id
      ensures Delivered(t, id)
    {
      assert Delivered(s, id);
      if id in s.subscribers {
        OwedIgnoresQueue(s.log, id, s.subscribers[id], t.subscribers[id]);
        assert id in left <==> id == left[0] || id in left[1..];
        if id == left[0] {
          assert id !in left[1..];
          var sub := s.subscribers[id];
          assert sub.received + (sub.queue + [s.publisher.message]) == sub.received + sub.queue + [s.publisher.message];
        }
      }
    }
  }

  lemma GetSound<M(!new)>(s: State<M>, id: int)
    requires Sound(s)
    ensures Sound(Apply(s, Get(id)))
  {
    hide Owed;
    var t := Apply(s, Get(id));
    forall x
      ensures Delivered(t, x)
    {
      assert Delivered(s, x);
      if x in s.subscribers {
        OwedIgnoresQueue(s.log, x, s.subscribers[x], t.subscribers[x]);
        var sub, now := s.subscribers[x], t.subscribers[x];
        assert now.received + now.queue == sub.received + sub.queue;
      }
    }
  }

  lemma StepSound<M(!new)>(s: State<M>, step: Step<M>)
    requires Sound(s)
    ensures Sound(Apply(s, step))
  {
    match step {
      case Subscribe(p) => SubscribeSound(s, p);
      case Unsubscribe(id) => UnsubscribeSound(s, id);
      case Publish(m) => if s.publisher.Idle? { PublishSound(s, m); }
      case Deliver =>
        if s.publisher.Delivering? && s.publisher.left != [] {
          DeliverSound(s);
        } else {
          hide Owed;
          forall id
            ensures Delivered(Apply(s, step), id)
          {
            assert Delivered(s, id);
          }
        }
      case Get(id) => GetSound(s, id);
    }
  }

  lemma {:induction false} RunSound<M(!new)>(s: State<M>, steps: seq<Step<M>>)
    requires Sound(s)
    ensures Sound(Exec(s, steps))
    decreases |steps|
  {
    hide Sound, Apply;
    if steps != [] {
      StepSound(s, steps[0]);
      RunSound(Apply(s, steps[0]), steps[1..]);
    }
  }

  /** Independent fan-out. Over every run, what a subscriber received followed by its queue is the
      sequence of the messages published while it was subscribed that its own predicate accepts,
      short of the message being delivered if its turn has not come. What other subscribers read,
      drop, or raise plays no part. */
  lemma IndependentFanOut<M(!new)>(steps: seq<Step<M>>, id: int)
    ensures var s := Exec(Initial(), steps);
      id in s.subscribers ==>
        var sub := s.subscribers[id];
        sub.received + sub.queue + Coming(s.publisher, id, sub) == Owed(s.log, id, sub)
  {
    RunSound(Initial<M>(), steps);
    assert Delivered(Exec(Initial<M>(), steps), id);
  }

  /** What a subscriber gets in all: what it read, what waits for it and what is under way. */
  function Gets<M>(s: State<M>, id: int): seq<M>
    requires id in s.subscribers
  {
    var sub := s.subscribers[id];
    sub.received + sub.queue + Coming(s.publisher, id, sub)
  }

  lemma {:induction false} OwedAccepted<M>(log: seq<Publication<M>>, id: int, sub: Subscriber<M>)
    ensures forall k | 0 <= k < |Owed(log, id, sub)| :: Accepted(sub.filter, Owed(log, id, sub)[k])
  {
    if log != [] {
      OwedAccepted(log[..|log| - 1], id, sub);
    }
  }

  /** A message that a subscriber's predicate rejects, or raises on, never reaches that subscriber. */
  lemma OnlyAccepted<M(!new)>(steps: seq<Step<M>>, id: int)
    requires id in Exec(Initial<M>(), steps).subscribers
    ensures var s := Exec(Initial<M>(), steps);
      var filter := s.subscribers[id].filter;
      forall k | 0 <= k < |Gets(s, id)| :: filter.Some? ==> filter.value(Gets(s, id)[k]) == Accepts
  {
    var s := Exec(Initial<M>(), steps);
    IndependentFanOut(steps, id);
    OwedAccepted(s.log, id, s.subscribers[id]);
    hide Exec, Owed;
    forall k | 0 <= k < |Gets(s, id)| && s.subscribers[id].filter.Some?
      ensures s.subscribers[id].filter.value(Gets(s, id)[k]) == Accepts
    {
      assert Accepted(s.subscribers[id].filter, Owed(s.log, id, s.subscribers[id])[k]);
    }
  }

  predicate Unsubscribes<M(!new)>(steps: seq<Step<M>>, id: int) {
    exists i :: 0 <= i < |steps| && steps[i].Unsubscribe? && steps[i].id == id
  }

  /** One step of a run: the log keeps its publications and a new one has the subscriptions of the
      moment; a subscription ends when it is given up, and an old one does not come back. */
  lemma StepSnapshots<M(!new)>(s: State<M>, step: Step<M>, id: int)
    requires Sound(s) && 1 <= id <= s.lastId
    ensures var t := Apply(s, step);
      && s.lastId <= t.lastId && s.log <= t.log
      && (forall k | |s.log| <= k < |t.log| :: t.log[k].snapshot == s.active)
      && (id in t.active <==> id in s.active && !(step.Unsubscribe? && step.id == id))
      && (id in s.subscribers ==> id in t.subscribers && t.subscribers[id].filter == s.subscribers[id].filter)
  {
    hide Owed, Delivered;
    if step.Unsubscribe? {
      WithoutElements(s.active, step.id);
    }
  }

  /** A publication goes to exactly those who subscribed before it and have not given up since. */
  lemma {:induction false} SnapshotsExactly<M(!new)>(s: State<M>, steps: seq<Step<M>>, id: int)
    requires Sound(s) && 1 <= id <= s.lastId
    ensures var t := Exec(s, steps);
      && s.log <= t.log && s.lastId <= t.lastId
      && (id !in s.active ==> id !in t.active && forall k | |s.log| <= k < |t.log| :: id !in t.log[k].snapshot)
      && (id in s.active && !Unsubscribes(steps, id) ==>
            id in t.active && forall k | |s.log| <= k < |t.log| :: id in t.log[k].snapshot)
      && (id in s.subscribers ==> id in t.subscribers && t.subscribers[id].filter == s.subscribers[id].filter)
    decreases |steps|
  {
    hide Sound, Apply;
    if steps != [] {
      var next := Apply(s, steps[0]);
      StepSnapshots(s, steps[0], id);
      StepSound(s, steps[0]);
      if Unsubscribes(steps[1..], id) {
        var i :| 0 <= i < |steps[1..]| && steps[1..][i].Unsubscribe? && steps[1..][i].id == id;
        assert steps[i + 1] == steps[1..][i];
      }
      SnapshotsExactly(next, steps[1..], id);
      var t := Exec(next, steps[1..]);
      assert forall k | |s.log| <= k < |next.log| :: t.log[k] == next.log[k];
    }
  }

  lemma {:induction false} OwedPrefix<M>(log: seq<Publication<M>>, more: seq<Publication<M>>, id: int, sub: Subscriber<M>)
    requires forall k | 0 <= k < |more| :: id !in more[k].snapshot
    ensures Owed(log + more, id, sub) == Owed(log, id, sub)
  {
    if more == [] {
      assert log + more == log;
    } else {
      var init := more[..|more| - 1];
      assert (log + more)[..|log + more| - 1] == log + init;
      OwedPrefix(log, init, id, sub);
    }
  }

  /** Once a subscription is given up, what it gets in all is settled, whatever is published later
      and in whatever run. */
  lemma UnsubscribedGetsNoMore<M(!new)>(steps: seq<Step<M>>, id: int, later: seq<Step<M>>)
    requires id in Exec(Initial<M>(), steps).subscribers
    ensures var s := Apply(Exec(Initial<M>(), steps), Unsubscribe(id));
      var t := Exec(s, later);
      id in s.subscribers && id in t.subscribers && Gets(t, id) == Gets(s, id)
  {
    hide Exec, Owed, Coming;
    RunSound(Initial<M>(), steps);
    InitialSound<M>();
    var was := Exec(Initial<M>(), steps);
    StepSnapshots(was, Unsubscribe(id), id);
    StepSound(was, Unsubscribe(id));
    hide Apply;
    var s := Apply(was, Unsubscribe(id));
    RunSound(s, later);
    SnapshotsExactly(s, later, id);
    var t := Exec(s, later);
    assert Delivered(s, id) && Delivered(t, id);
    OwedIgnoresQueue(s.log, id, s.subscribers[id], t.subscribers[id]);
    assert t.log == s.log + t.log[|s.log|..];
    OwedPrefix(s.log, t.log[|s.log|..], id, t.subscribers[id]);
  }

  lemma InitialSound<M(!new)>()
    ensures Sound(Initial<M>())
  {
  }

  // ---------------------------------------------------------------- the dispatcher

  class NotificationDispatcher<M(!new)> {
    var lastId: int
    var active: seq<int>
    var subscribers: map<int, Subscriber<M>>

    constructor ()
      ensures lastId == 0 && active == [] && subscribers == map[]
    {
      lastId, active, subscribers := 0, [], map[];
    }

    ghost function View(publisher: Publisher<M>, log: seq<Publication<M>>): State<M>
      reads this
    {
      State(lastId, active, subscribers, publisher, log)
    }

    method Subscribe(p: Option<M -> Verdict>, ghost publisher: Publisher<M>, ghost log: seq<Publication<M>>)
      returns (id: int)
      modifies this
      ensures View(publisher, log) == Apply(old(View(publisher, log)), Step.Subscribe(p))
      ensures id == lastId == old(lastId) + 1
    {
      lastId := lastId + 1;
      active := active + [lastId];
      subscribers := subscribers[lastId := Subscriber(p, [], [])];
      return lastId;
    }

    method Unsubscribe(id: int, ghost publisher: Publisher<M>, ghost log: seq<Publication<M>>)
      modifies this`active
      ensures View(publisher, log) == Apply(old(View(publisher, log)), Step.Unsubscribe(id))
    {
      active := Without(active, id);
    }

    /** A whole publication, undisturbed, is its steps in a row. */
    method Publish(m: M, ghost log: seq<Publication<M>>)
      modifies this`subscribers
      ensures View(Idle, log + [Publication(m, active)])
        == Exec(Apply(old(View(Idle, log)), Step.Publish(m)), seq(|active| + 1, _ => Deliver))
    {
      hide Apply;
      ghost var published := log + [Publication(m, active)];
      ghost var start := View(Delivering(m, active), published);
      assert start == Apply(View(Idle, log), Step.Publish(m)) by { PublishStarts(View(Idle, log), m); }
      var i := 0;
      assert active[0..] == active;
      while i < |active|
        invariant 0 <= i <= |active|
        invariant Exec(start, seq(i, _ => Deliver)) == View(Delivering(m, active[i..]), published)
      {
        ghost var was := View(Delivering(m, active[i..]), published);
        var id := active[i];
        if id in subscribers && subscribers[id].Wants(m) {
          var sub := subscribers[id];
          subscribers := subscribers[id := sub.(queue := sub.queue + [m])];
        }
        assert active[i..][1..] == active[i + 1..];
        assert Apply(was, Deliver) == View(Delivering(m, active[i + 1..]), published) by { DeliverOne(was); }
        ExecDelivers(start, i);
        i := i + 1;
      }
      ghost var was := View(Delivering(m, []), published);
      assert active[i..] == [];
      assert Apply(was, Deliver) == View(Idle, published) by { DeliverDone(was); }
      ExecDelivers(start, |active|);
    }
  }

  lemma PublishStarts<M(!new)>(s: State<M>, m: M)
    requires s.publisher.Idle?
    ensures Apply(s, Publish(m)) == s.(publisher := Delivering(m, s.active), log := s.log + [Publication(m, s.active)])
  {
  }

  lemma DeliverOne<M(!new)>(s: State<M>)
    requires s.publisher.Delivering? && s.publisher.left != []
    ensures var id, m := s.publisher.left[0], s.publisher.message;
      Apply(s, Deliver) == s.(
        publisher := Delivering(m, s.publisher.left[1..]),
        subscribers := if id in s.subscribers && s.subscribers[id].Wants(m)
                       then s.subscribers[id := s.subscribers[id].(queue := s.subscribers[id].queue + [m])]
                       else s.subscribers)
  {
  }

  lemma DeliverDone<M(!new)>(s: State<M>)
    requires s.publisher.Delivering? && s.publisher.left == []
    ensures Apply(s, Deliver) == s.(publisher := Idle)
  {
  }

  lemma {:induction false} ExecDelivers<M(!new)>(s: State<M>, n: nat)
    ensures Exec(s, seq(n + 1, _ => Deliver)) == Apply(Exec(s, seq(n, _ => Deliver)), Deliver)
    decreases n
  {
    hide Apply;
    var more: seq<Step<M>> := seq(n + 1, _ => Deliver);
    assert more[1..] == seq(n, _ => Deliver);
    if n > 0 {
      var same: seq<Step<M>> := seq(n, _ => Deliver);
      assert same[1..] == seq(n - 1, _ => Deliver);
      ExecDelivers(Apply(s, Deliver), n - 1);
    }
  }
}
