/** The two leases on a thread: the in-process writer state, and the durable lease in the store. */
module Lease {
  import opened Common

  datatype LeaseState = Idle | CfrActive | ExternalActive | Unknown

  type ThreadId = string

  /** The calls that write a thread. */
  datatype Kind = Send | Update

  /** How long a durable lease lives without a heartbeat, in seconds. */
  const TTL: nat := 60

  /** A call of this process, or another process, writes the thread. */
  predicate Taken(state: LeaseState) {
    state == CfrActive || state == ExternalActive
  }

  // ---------------------------------------------------------------- in-process writer state

  /** A thread without an entry is idle. */
  function StateOf(states: map<ThreadId, LeaseState>, id: ThreadId): LeaseState {
    if id in states then states[id] else Idle
  }

  class WriterLeaseManager {
    var states: map<ThreadId, LeaseState>

    constructor ()
      ensures forall id :: StateFor(id) == Idle
    {
      states := map[];
    }

    function StateFor(id: ThreadId): LeaseState
      reads this
    {
      StateOf(states, id)
    }

    /** No other thread's state is touched. */
    twostate predicate OnlyChanged(id: ThreadId)
      reads this
    {
      forall other :: other != id ==> StateFor(other) == old(StateFor(other))
    }

    /** Takes an idle thread, and refuses any other. */
    method Acquire(id: ThreadId) returns (acquired: bool)
      modifies this
      ensures acquired <==> old(StateFor(id)) == Idle
      ensures StateFor(id) == if acquired then CfrActive else old(StateFor(id))
      ensures OnlyChanged(id)
    {
      var state := StateOf(states, id);
      if state != Idle {
        return false;
      }
      states := states[id := CfrActive];
      return true;
    }

    method MarkExternal(id: ThreadId)
      modifies this
      ensures StateFor(id) == ExternalActive && OnlyChanged(id)
    {
      states := states[id := ExternalActive];
    }

    method Recover(id: ThreadId)
      modifies this
      ensures StateFor(id) == if old(StateFor(id)) == ExternalActive then CfrActive else old(StateFor(id))
      ensures OnlyChanged(id)
    {
      if id in states && states[id] == ExternalActive {
        states := states[id := CfrActive];
      }
    }

    method Release(id: ThreadId)
      modifies this
      ensures StateFor(id) == Idle && OnlyChanged(id)
    {
      states := states - {id};
    }

    method BusyThreads() returns (ids: set<ThreadId>)
      ensures forall id :: id in ids <==> StateFor(id) != Idle
    {
      ids := set id | id in states && states[id] != Idle;
    }
  }

  // ---------------------------------------------------------------- durable lease

  /** The row of a thread names the live lease by its generation and says when it expires; the
      generation counter outlives the row. */
  datatype Row = Row(generation: nat, expires: int)

  datatype Durable = Durable(row: Option<Row>, generation: nat) {
    /** A live row of a living owner excludes everybody else. */
    predicate Free(now: int, ownerAlive: bool) {
      row.None? || now >= row.value.expires || !ownerAlive
    }

    predicate Holds(generation: nat) {
      row.Some? && row.value.generation == generation
    }

    function Grant(now: int, ttl: nat): Durable {
      Durable(Some(Row(generation + 1, now + ttl)), generation + 1)
    }

    function Beat(now: int, ttl: nat): Durable
      requires row.Some?
    {
      this.(row := Some(Row(row.value.generation, now + ttl)))
    }
  }

  /** A lease in the hands of its holder: the expiry that was last confirmed, and whether it is
      known to be lost. */
  class RuntimeLease {
    const generation: nat
    var expires: int
    var lost: bool

    constructor (generation: nat, expires: int)
      ensures this.generation == generation && this.expires == expires && !lost
    {
      this.generation, this.expires, this.lost := generation, expires, false;
    }
  }

  datatype Acquisition = Granted(generation: nat) | Unexpired | Busy

  /** How often a release is attempted when the store fails. */
  const ATTEMPTS: nat := 3

  /** The lease manager on one thread's row; each method is one transaction. */
  class RuntimeLeases {
    var durable: Durable
    const ttl: nat

    constructor (ttl: nat)
      ensures durable == Durable(None, 0) && this.ttl == ttl
    {
      durable := Durable(None, 0);
      this.ttl := ttl;
    }

    /** While the lease is in the row, its holder knows when it expires. */
    ghost predicate Synced(lease: RuntimeLease)
      reads this, lease
    {
      durable.Holds(lease.generation) ==> durable.row.value.expires == lease.expires
    }

    /** The lease granted carries the next generation; only a live lease of a living owner is not
        taken over, and a busy store grants nothing. */
    method Acquire(now: int, ownerAlive: bool, busy: bool) returns (outcome: Acquisition)
      modifies this`durable
      ensures outcome.Busy? <==> busy
      ensures outcome.Granted? <==> !busy && old(durable).Free(now, ownerAlive)
      ensures outcome.Unexpired? <==> !busy && old(durable).row.Some? && now < old(durable).row.value.expires && ownerAlive
      ensures outcome.Granted? ==> outcome.generation == old(durable).generation + 1 && durable.Holds(outcome.generation)
      ensures durable == if outcome.Granted? then old(durable).Grant(now, ttl) else old(durable)
    {
      if busy {
        return Busy;
      }
      if durable.row.Some? && now < durable.row.value.expires && ownerAlive {
        return Unexpired;
      }
      durable := Durable(Some(Row(durable.generation + 1, now + ttl)), durable.generation + 1);
      return Granted(durable.generation);
    }

    /** A lease that is no longer in the row is lost, and stays lost. When the store fails the
        heartbeat is deferred until the last confirmed expiry, which `later` is compared with, so
        a deferred lease is one that nobody else could have taken over from a living owner. */
    method Heartbeat(lease: RuntimeLease, now: int, failing: bool, later: int) returns (kept: bool)
      modifies this`durable, lease
      ensures kept <==>
        !old(lease.lost) && if failing then later < old(lease.expires) else old(durable).Holds(lease.generation)
      ensures lease.lost <==> !kept
      ensures durable == if kept && !failing then old(durable).Beat(now, ttl) else old(durable)
      ensures old(Synced(lease)) ==> Synced(lease)
      ensures old(Synced(lease)) && kept && failing && durable.Holds(lease.generation) ==> !durable.Free(later, true)
    {
      if lease.lost {
        return false;
      }
      if failing {
        lease.lost := later >= lease.expires;
        return !lease.lost;
      }
      if durable.row.None? || durable.row.value.generation != lease.generation {
        lease.lost := true;
        return false;
      }
      durable := durable.(row := Some(Row(lease.generation, now + ttl)));
      lease.expires := now + ttl;
      return true;
    }

    /** A stale lease releases nothing. `failures` is how often in a row the store fails. */
    method Release(generation: nat, failures: nat) returns (released: bool)
      modifies this`durable
      ensures released <==> failures < ATTEMPTS && old(durable).Holds(generation)
      ensures durable == if released then old(durable).(row := None) else old(durable)
    {
      for attempt := 0 to ATTEMPTS
        invariant durable == old(durable) && attempt <= failures
      {
        if attempt == failures {
          if durable.row.None? || durable.row.value.generation != generation {
            return false;
          }
          durable := durable.(row := None);
          return true;
        }
      }
      return false;
    }
  }
}
