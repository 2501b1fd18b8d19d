/**
 The leased master slot of the cluster (internal/cluster/preemptive.go and the
 master ticker of internal/cluster/cluster_lifetime.go). Times are in milliseconds.
 */
module MasterLease {
  import opened Wrappers

  const MASTER_LOCK_EXPIRED_TIME := 2000
  const LOCK_ATTEMPTS := 3

  type NodeId = string

  /** The preemption lock key: present until it expires. */
  datatype Lock = Lock(owner: NodeId, expiresAt: int)

  predicate Held(lock: Option<Lock>, now: int) {
    lock.Some? && now < lock.value.expiresAt
  }

  // ------------------------------------------------------------- the shared cache and one node

  class Cache {
    var now: int
    var lock: Option<Lock>

    constructor (now: int)
      ensures this.now == now && lock == None
    {
      this.now := now;
      lock := None;
    }

    method SetNX(owner: NodeId, expire: int, fails: bool) returns (r: Result<bool, ()>)
      modifies this`lock
      ensures fails ==> r.Err? && lock == old(lock)
      ensures !fails ==> r == Ok(!Held(old(lock), now))
      ensures !fails ==> lock == if Held(old(lock), now) then old(lock) else Some(Lock(owner, now + expire))
    {
      if fails {
        return Err(());
      }
      if Held(lock, now) {
        return Ok(false);
      }
      lock := Some(Lock(owner, now + expire));
      return Ok(true);
    }

    method Expire(expire: int, fails: bool) returns (r: Result<bool, ()>)
      modifies this`lock
      ensures fails ==> r.Err? && lock == old(lock)
      ensures !fails ==> r == Ok(Held(old(lock), now))
      ensures !fails ==> lock == if Held(old(lock), now) then Some(old(lock).value.(expiresAt := now + expire)) else old(lock)
    {
      if fails {
        return Err(());
      }
      if !Held(lock, now) {
        return Ok(false);
      }
      lock := Some(lock.value.(expiresAt := now + expire));
      return Ok(true);
    }
  }

  /** What a node remembers: its master flag, and when its last call on the lock succeeded. */
  datatype NodeState = NodeState(iAmMaster: bool, lastRefresh: int)

  /** One firing of the master ticker: fails(i) tells whether the i-th cache call of this firing fails. */
  function TickNode(lock: Option<Lock>, now: int, id: NodeId, node: NodeState, fails: nat -> bool)
    : (Option<Lock>, NodeState)
  {
    if node.iAmMaster then
      if fails(0) then (lock, node)
      else (if Held(lock, now) then Some(lock.value.(expiresAt := now + MASTER_LOCK_EXPIRED_TIME)) else lock,
            node.(lastRefresh := now))
    else if Held(lock, now) || (fails(0) && fails(1) && fails(2)) then (lock, node)
    else (Some(Lock(id, now + MASTER_LOCK_EXPIRED_TIME)), NodeState(true, now))
  }

  class Node {
    const id: NodeId
    var iAmMaster: bool
    ghost var lastRefresh: int

    ghost function State(): NodeState
      reads this
    {
      NodeState(iAmMaster, lastRefresh)
    }

    constructor (id: NodeId)
      ensures this.id == id && !iAmMaster
    {
      this.id := id;
      iAmMaster := false;
      lastRefresh := 0;
    }

    method LockMaster(cache: Cache, fails: nat -> bool) returns (r: Result<bool, ()>)
      modifies cache`lock
      ensures fails(0) && fails(1) && fails(2) ==> r.Err? && cache.lock == old(cache.lock)
      ensures !(fails(0) && fails(1) && fails(2)) ==>
        && r == Ok(!Held(old(cache.lock), cache.now))
        && cache.lock == if Held(old(cache.lock), cache.now) then old(cache.lock)
                         else Some(Lock(id, cache.now + MASTER_LOCK_EXPIRED_TIME))
    {
      for i := 0 to LOCK_ATTEMPTS
        invariant forall j :: 0 <= j < i ==> fails(j)
        invariant cache.lock == old(cache.lock)
      {
        r := cache.SetNX(id, MASTER_LOCK_EXPIRED_TIME, fails(i));
        if r.Ok? {
          return;
        }
      }
      assert fails(0) && fails(1) && fails(2);
      return Err(());
    }

    method UpdateMaster(cache: Cache, fails: bool) returns (r: Result<(), ()>)
      modifies cache`lock
      ensures r.Err? <==> fails
      ensures cache.lock == if !fails && Held(old(cache.lock), cache.now)
                            then Some(old(cache.lock).value.(expiresAt := cache.now + MASTER_LOCK_EXPIRED_TIME))
                            else old(cache.lock)
    {
      // the answer is dropped: a master does not notice that the key is gone or is another node's
      var extended := cache.Expire(MASTER_LOCK_EXPIRED_TIME, fails);
      return if extended.Err? then Err(()) else Ok(());
    }

    method MasterTick(cache: Cache, fails: nat -> bool)
      modifies this, cache`lock
      ensures (cache.lock, State()) == TickNode(old(cache.lock), cache.now, id, old(State()), fails)
      ensures iAmMaster <==> old(iAmMaster) || (!Held(old(cache.lock), cache.now) && !(fails(0) && fails(1) && fails(2)))
      ensures iAmMaster && !old(iAmMaster) ==> cache.lock == Some(Lock(id, cache.now + 2000))
      ensures old(iAmMaster) && !fails(0) && Held(old(cache.lock), cache.now) ==>
        cache.lock == Some(Lock(old(cache.lock).value.owner, cache.now + 2000))
      ensures old(iAmMaster) && (fails(0) || !Held(old(cache.lock), cache.now)) ==> cache.lock == old(cache.lock)
      ensures !iAmMaster ==> cache.lock == old(cache.lock)
    {
      if !iAmMaster {
        var success := LockMaster(cache, fails);
        if success == Ok(true) {
          iAmMaster := true;
          lastRefresh := cache.now;
        }
      } else {
        var updated := UpdateMaster(cache, fails(0));
        if updated.Ok? {
          lastRefresh := cache.now;
        }
      }
    }
  }

  // ------------------------------------------------------------- runs of the cluster

  datatype World = World(now: int, lock: Option<Lock>, nodes: map<NodeId, NodeState>)

  datatype Event =
    | Advance(d: nat)
    | Join(id: NodeId)
    | Stop(id: NodeId)
    | Tick(id: NodeId, fails: nat -> bool)

  ghost function Step(w: World, e: Event): World {
    match e
    case Advance(d) => w.(now := w.now + d)
    case Join(id) => if id in w.nodes then w else w.(nodes := w.nodes[id := NodeState(false, w.now)])
    case Stop(id) => w.(nodes := w.nodes - {id})
    case Tick(id, fails) =>
      if id !in w.nodes then w
      else
        var (lock, node) := TickNode(w.lock, w.now, id, w.nodes[id], fails);
        w.(lock := lock, nodes := w.nodes[id := node])
  }

  ghost function Run(w: World, events: seq<Event>): World {
    if events == [] then w else Step(Run(w, events[..|events| - 1]), events[|events| - 1])
  }

  ghost predicate IsMaster(w: World, n: NodeId) {
    n in w.nodes && w.nodes[n].iAmMaster
  }

  ghost predicate Owns(w: World, n: NodeId) {
    Held(w.lock, w.now) && w.lock.value.owner == n
  }

  /** Every running master owns the unexpired lock. */
  ghost predicate Safe(w: World) {
    forall n :: IsMaster(w, n) ==> Owns(w, n)
  }

  /** Every running master has refreshed the lock within its lifetime. */
  ghost predicate Timely(w: World) {
    forall n :: IsMaster(w, n) ==> w.now < w.nodes[n].lastRefresh + MASTER_LOCK_EXPIRED_TIME
  }

  /** What timely refreshes keep true: a master's lock expires exactly one lifetime after its last refresh. */
  ghost predicate LeaseRecorded(w: World) {
    forall n :: IsMaster(w, n) ==>
      && w.lock.Some? && w.lock.value.owner == n
      && w.lock.value.expiresAt == w.nodes[n].lastRefresh + MASTER_LOCK_EXPIRED_TIME
  }

  lemma LeaseStep(w: World, e: Event)
    requires LeaseRecorded(w) && Timely(w)
    ensures LeaseRecorded(Step(w, e))
  {
    var w' := Step(w, e);
    forall n | IsMaster(w', n)
      ensures w'.lock.Some? && w'.lock.value.owner == n
           && w'.lock.value.expiresAt == w'.nodes[n].lastRefresh + MASTER_LOCK_EXPIRED_TIME
    {
      if e.Tick? && e.id in w.nodes {
        assert e.id != n ==> IsMaster(w, n);
        assert e.id != n ==> !IsMaster(w, e.id);
      } else {
        assert IsMaster(w, n);
      }
    }
  }

  lemma {:induction false} LeaseRun(w: World, events: seq<Event>)
    requires w.nodes == map[]
    requires forall k :: 0 <= k < |events| ==> Timely(Run(w, events[..k]))
    ensures LeaseRecorded(Run(w, events))
  {
    if events != [] {
      var before := events[..|events| - 1];
      forall k | 0 <= k < |before| ensures Timely(Run(w, before[..k])) {
        assert before[..k] == events[..k];
      }
      LeaseRun(w, before);
      LeaseStep(Run(w, before), events[|events| - 1]);
    }
  }

  lemma RecordedLeaseIsSafeIffTimely(w: World)
    requires LeaseRecorded(w)
    ensures Safe(w) <==> Timely(w)
  {
    if Safe(w) {
      forall n | IsMaster(w, n) ensures w.now < w.nodes[n].lastRefresh + MASTER_LOCK_EXPIRED_TIME {
        assert Owns(w, n);
      }
    }
  }

  /**
   Mutual exclusion, with its exact condition: throughout a run every running master owns the
   unexpired lock if and only if throughout the run every running master refreshes in time.
   */
  lemma {:induction false} SafeExactlyWhenTimely(w: World, events: seq<Event>)
    requires w.nodes == map[]
    ensures (forall k :: 0 <= k <= |events| ==> Safe(Run(w, events[..k])))
       <==> (forall k :: 0 <= k <= |events| ==> Timely(Run(w, events[..k])))
  {
    if events == [] {
      assert !exists n :: IsMaster(Run(w, []), n);
    } else {
      var before := events[..|events| - 1];
      assert forall k :: 0 <= k <= |before| ==> before[..k] == events[..k];
      assert events[..|events|] == events;
      SafeExactlyWhenTimely(w, before);
      if forall k :: 0 <= k <= |before| ==> Timely(Run(w, events[..k])) {
        LeaseRun(w, events);
        RecordedLeaseIsSafeIffTimely(Run(w, events));
      }
    }
  }

  lemma SafeMeansAtMostOneMaster(w: World, a: NodeId, b: NodeId)
    requires Safe(w) && IsMaster(w, a) && IsMaster(w, b)
    ensures a == b
  {
    assert Owns(w, a) && Owns(w, b);
  }

  /** At most one running master in every state of a run with timely refreshes, and it owns the unexpired lock. */
  lemma MutualExclusion(w: World, events: seq<Event>, k: nat, a: NodeId, b: NodeId)
    requires w.nodes == map[] && k <= |events|
    requires forall j :: 0 <= j <= |events| ==> Timely(Run(w, events[..j]))
    ensures IsMaster(Run(w, events[..k]), a) ==> Owns(Run(w, events[..k]), a)
    ensures IsMaster(Run(w, events[..k]), a) && IsMaster(Run(w, events[..k]), b) ==> a == b
  {
    SafeExactlyWhenTimely(w, events);
    var s := Run(w, events[..k]);
    assert Safe(s);
    if IsMaster(s, a) && IsMaster(s, b) {
      SafeMeansAtMostOneMaster(s, a, b);
    }
  }

  /** The flag is only ever set: a running master stays one whatever happens to the lock. */
  lemma {:induction false} MasterNeverResigns(w: World, events: seq<Event>, n: NodeId)
    requires IsMaster(w, n)
    requires Stop(n) !in events
    ensures IsMaster(Run(w, events), n)
  {
    if events != [] {
      MasterNeverResigns(w, events[..|events| - 1], n);
      assert events[|events| - 1] in events;
    }
  }

  // ------------------------------------------------------------- the slot is taken over

  /** A node that finds no unexpired lock becomes master and owner, unless all of its three calls fail. */
  lemma TakesTheSlotExactlyWhen(w: World, id: NodeId, fails: nat -> bool)
    requires id in w.nodes && !IsMaster(w, id)
    ensures var t := Step(w, Tick(id, fails));
            && (IsMaster(t, id) <==> !Held(w.lock, w.now) && !(fails(0) && fails(1) && fails(2)))
            && (IsMaster(t, id) ==> t.lock == Some(Lock(id, w.now + 2000)))
            && (!IsMaster(t, id) ==> t.lock == w.lock)
  {
  }

  /** Where the slot stands after its master has stopped: untouched and without a master, or another node's. */
  ghost predicate LeftBy(w: World, s: World, m: NodeId) {
    && m !in s.nodes && w.now <= s.now
    && ((s.lock == w.lock && forall n :: !IsMaster(s, n)) || (s.lock.Some? && s.lock.value.owner != m))
  }

  lemma LeftByStep(w: World, s: World, e: Event, m: NodeId)
    requires LeftBy(w, s, m) && e != Join(m)
    ensures LeftBy(w, Step(s, e), m)
  {
    if s.lock == w.lock && forall n :: !IsMaster(s, n) {
      var t := Step(s, e);
      if !(e.Tick? && e.id in s.nodes) || t.lock == s.lock {
        forall n ensures !IsMaster(t, n) {
          assert !IsMaster(s, n);
          if e.Tick? {
            assert !IsMaster(s, e.id);
          }
        }
      } else {
        assert !IsMaster(s, e.id);
      }
    }
  }

  /**
   Two seconds after a master has stopped, the lock is not its own any more, unless it joined again: it has expired, and the
   next node to look becomes master, or another one has taken it already.
   */
  lemma {:induction false} StoppedMasterLosesTheSlot(w: World, events: seq<Event>, m: NodeId)
    requires LeaseRecorded(w) && IsMaster(w, m) && w.nodes[m].lastRefresh <= w.now && Join(m) !in events
    ensures LeftBy(w, Run(Step(w, Stop(m)), events), m)
    ensures var s := Run(Step(w, Stop(m)), events); s.now >= w.now + 2000 ==> !Owns(s, m)
  {
    if events != [] {
      hide Step;
      StoppedMasterLosesTheSlot(w, events[..|events| - 1], m);
      LeftByStep(w, Run(Step(w, Stop(m)), events[..|events| - 1]), events[|events| - 1], m);
      assert w.lock.value.expiresAt <= w.now + 2000;
    } else {
      assert forall n :: IsMaster(w, n) ==> n == m;
    }
  }

  const WORKING: nat -> bool := i => false

  /** Node "a" becomes master, misses its refreshes for one lock lifetime, and "b" takes the slot. */
  const LATE_REFRESH := [
    Join("a"), Join("b"), Tick("a", WORKING), Advance(MASTER_LOCK_EXPIRED_TIME), Tick("b", WORKING)]

  lemma RunFive(w: World, e: seq<Event>)
    requires |e| == 5
    ensures Run(w, e) == Step(Step(Step(Step(Step(w, e[0]), e[1]), e[2]), e[3]), e[4])
  {
    assert e[..4][..3] == e[..3] && e[..3][..2] == e[..2] && e[..2][..1] == e[..1] && e[..1][..0] == [];
    assert Run(w, e[..1]) == Step(w, e[0]);
    assert Run(w, e[..2]) == Step(Run(w, e[..1]), e[1]);
    assert Run(w, e[..3]) == Step(Run(w, e[..2]), e[2]);
    assert Run(w, e[..4]) == Step(Run(w, e[..3]), e[3]);
  }

  /** Without timely refreshes exclusion fails, and for good: two nodes are masters until one of them stops. */
  lemma LateRefreshMakesTwoMasters(events: seq<Event>)
    requires Stop("a") !in events && Stop("b") !in events
    ensures var s := Run(Run(World(0, None, map[]), LATE_REFRESH), events);
            IsMaster(s, "a") && IsMaster(s, "b")
  {
    var w := World(0, None, map[]);
    RunFive(w, LATE_REFRESH);
    MasterNeverResigns(Run(w, LATE_REFRESH), events, "a");
    MasterNeverResigns(Run(w, LATE_REFRESH), events, "b");
  }
}
