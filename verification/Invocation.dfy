/**
 The life of one plugin invocation: close callbacks of a broadcast
 (pkg/entities/listener.go), session bookkeeping of the local runtime
 (internal/core/local_runtime/io.go) and the attempt loop of invokePluginOnce
 (internal/core/io_tunnel/generic.go). Times are in milliseconds.
 */
module Broadcasting {
  // ------------------------------------------------------------- any interleaving of callers

  /**
   The steps concurrent callers take: the part of OnClose and Close that holds the lock, and running one
   callback that was taken out of the list (or handed in too late) outside of it.
   */
  datatype Step<Callback> = Register(f: Callback) | CloseLocked | RunPending(f: Callback)

  datatype State<Callback(==)> = State(
    closed: bool, onClose: multiset<Callback>, pending: multiset<Callback>, ran: multiset<Callback>)

  function After<Callback(==)>(s: State<Callback>, step: Step<Callback>): State<Callback> {
    match step
    case Register(f) =>
      if s.closed then s.(pending := s.pending + multiset{f}) else s.(onClose := s.onClose + multiset{f})
    case CloseLocked =>
      if s.closed then s
      else s.(closed := true, pending := s.pending + s.onClose, onClose := multiset{})
    case RunPending(f) =>
      if f in s.pending then s.(pending := s.pending - multiset{f}, ran := s.ran + multiset{f}) else s
  }

  function Run<Callback(==)>(steps: seq<Step<Callback>>): State<Callback> {
    if steps == [] then State(false, multiset{}, multiset{}, multiset{})
    else After(Run(steps[..|steps| - 1]), steps[|steps| - 1])
  }

  function Registered<Callback(==)>(steps: seq<Step<Callback>>): multiset<Callback> {
    if steps == [] then multiset{}
    else Registered(steps[..|steps| - 1]) + Handed(steps[|steps| - 1])
  }

  function Handed<Callback(==)>(step: Step<Callback>): multiset<Callback> {
    if step.Register? then multiset{step.f} else multiset{}
  }

  /** Every step moves callbacks on without losing or copying one. */
  lemma StepConserves<Callback>(s: State<Callback>, step: Step<Callback>)
    ensures var t := After(s, step);
            t.onClose + t.pending + t.ran == s.onClose + s.pending + s.ran + Handed(step)
  {
    match step
    case Register(f) =>
    case CloseLocked =>
    case RunPending(f) =>
      if f in s.pending {
        assert s.pending - multiset{f} + multiset{f} == s.pending;
      }
  }

  lemma {:induction false} ClosedExactlyByClose<Callback>(steps: seq<Step<Callback>>)
    ensures Run(steps).closed <==> CloseLocked in steps
  {
    if steps != [] {
      var before, last := steps[..|steps| - 1], steps[|steps| - 1];
      ClosedExactlyByClose(before);
      assert forall x :: x in steps <==> x in before || x == last;
    }
  }

  /** A closed broadcast has handed all its callbacks on; one that is not has handed on none. */
  predicate Settled<Callback(==)>(s: State<Callback>) {
    if s.closed then s.onClose == multiset{} else s.pending == multiset{} && s.ran == multiset{}
  }

  lemma StepSettles<Callback>(s: State<Callback>, step: Step<Callback>)
    requires Settled(s)
    ensures Settled(After(s, step))
  {
  }

  /** However callers interleave, no callback is lost or run twice, and none runs before a Close. */
  lemma {:induction false} CallbacksAreConserved<Callback>(steps: seq<Step<Callback>>)
    ensures var s := Run(steps);
            s.onClose + s.pending + s.ran == Registered(steps) && Settled(s)
  {
    if steps != [] {
      hide After, Handed, Settled;
      CallbacksAreConserved(steps[..|steps| - 1]);
      StepConserves(Run(steps[..|steps| - 1]), steps[|steps| - 1]);
      StepSettles(Run(steps[..|steps| - 1]), steps[|steps| - 1]);
    }
  }

  /** Once Close was called and the callbacks in flight are done, each registered callback has run exactly once. */
  lemma ExactlyOnceAfterClose<Callback>(steps: seq<Step<Callback>>)
    requires CloseLocked in steps && Run(steps).pending == multiset{}
    ensures Run(steps).ran == Registered(steps)
  {
    ClosedExactlyByClose(steps);
    CallbacksAreConserved(steps);
  }

  /** Callbacks in flight are run one after the other. */
  function Drained<Callback(==)>(s: State<Callback>, callbacks: seq<Callback>): State<Callback>
    decreases |callbacks|
  {
    if callbacks == [] then s else Drained(After(s, RunPending(callbacks[0])), callbacks[1..])
  }

  lemma {:induction false} DrainedRunsAll<Callback>(s: State<Callback>, callbacks: seq<Callback>)
    requires multiset(callbacks) <= s.pending
    ensures Drained(s, callbacks)
         == s.(pending := s.pending - multiset(callbacks), ran := s.ran + multiset(callbacks))
    decreases |callbacks|
  {
    if callbacks != [] {
      var first, rest := callbacks[0], callbacks[1..];
      assert callbacks == [first] + rest;
      assert first in s.pending;
      var t := After(s, RunPending(first));
      DrainedRunsAll(t, rest);
      MovedOn(s.pending, s.ran, first, multiset(rest));
    }
  }

  lemma MovedOn<Callback>(pending: multiset<Callback>, ran: multiset<Callback>, f: Callback, rest: multiset<Callback>)
    ensures pending - multiset{f} - rest == pending - (multiset{f} + rest)
    ensures ran + multiset{f} + rest == ran + (multiset{f} + rest)
  {
  }

  // ------------------------------------------------------------- one caller at a time

  /**
   A broadcast seen from one caller at a time; ran logs the close callbacks in the order they run. What a callback
   does to others is left to the caller, who is told which ones run. A stream keeps its close callbacks alike.
   */
  class Broadcast<Callback(==)> {
    var closed: bool
    var onClose: seq<Callback>
    var ran: seq<Callback>
    ghost var registered: seq<Callback>
    ghost var closeCalls: nat

    /** Nothing has run before Close; afterwards everything registered so far has, once and in order. */
    ghost predicate Valid()
      reads this
    {
      && (if closed then onClose == [] && ran == registered else onClose == registered && ran == [])
      && (closed <==> closeCalls > 0)
    }

    /** The broadcast as the concurrent callers' steps see it, with no callback in flight. */
    ghost function View(): State<Callback>
      reads this
    {
      State(closed, multiset(onClose), multiset{}, multiset(ran))
    }

    constructor ()
      ensures Valid() && !closed && registered == [] && closeCalls == 0
      ensures View() == Run([])
    {
      closed, onClose, ran, registered, closeCalls := false, [], [], [], 0;
    }

    /** Registers a callback, or says that it runs at once. */
    method OnClose(f: Callback) returns (runs: bool)
      requires Valid()
      modifies this
      ensures Valid() && closed == old(closed) == runs && registered == old(registered) + [f]
      ensures closeCalls == old(closeCalls)
      ensures View() == if runs then After(After(old(View()), Register(f)), RunPending(f)) else After(old(View()), Register(f))
    {
      registered := registered + [f];
      if closed {
        ran := ran + [f];
        return true;
      }
      onClose := onClose + [f];
      return false;
    }

    /** The first Close takes the callbacks out of the list and runs them; a second one does nothing. */
    method Close() returns (callbacks: seq<Callback>)
      requires Valid()
      modifies this
      ensures Valid() && closed && registered == old(registered) && closeCalls == old(closeCalls) + 1
      ensures callbacks == if old(closed) then [] else registered
      ensures View() == Drained(After(old(View()), CloseLocked), callbacks)
    {
      ghost var locked := After(View(), CloseLocked);
      closeCalls := closeCalls + 1;
      if closed {
        return [];
      }
      closed := true;
      callbacks := onClose;
      onClose := [];
      for i := 0 to |callbacks|
        invariant closed && onClose == [] && callbacks == registered == old(registered)
        invariant closeCalls == old(closeCalls) + 1
        invariant ran == callbacks[..i]
      {
        ran := ran + [callbacks[i]];
      }
      DrainedRunsAll(locked, callbacks);
    }
  }
}

module Invocation {
  import opened Broadcasting
  import opened Wrappers

  const WRITE_RETRY_BUDGET := 6000
  const WRITE_RETRY_INTERVAL := 300

  type SessionId = string
  type InstanceId = nat

  datatype Error = NoProperInstance | InstanceDead | SessionNotFound | OtherError

  predicate IsRecoverableWriteErr(e: Error) {
    e == NoProperInstance || e == InstanceDead
  }

  /** What closing a listener does: its instance forgets the handler, the runtime forgets the session. */
  datatype Cleanup = Forget(instance: InstanceId, sid: SessionId)

  type Listener = Broadcast<Cleanup>

  // ------------------------------------------------------------- the local runtime

  /** The instances of a runtime, those that were stopped, and the requests written to instances, in order. */
  datatype Fleet = Fleet(
    instances: seq<InstanceId>, stopped: set<InstanceId>, restarting: bool, written: seq<(InstanceId, SessionId)>)

  /** A write for a session to an instance. One that finds it dead stops and evicts it, so it is not picked again. */
  function AfterWrite(f: Fleet, instance: InstanceId, sid: SessionId, dead: bool): Fleet {
    if !dead then f.(written := f.written + [(instance, sid)])
    else
      var left := Without(f.instances, instance);
      Fleet(left, f.stopped + {instance}, f.restarting || left == [], f.written + [(instance, sid)])
  }

  /** The sessions a local runtime serves, and the listeners its instances hand a session's output to. */
  class LocalRuntime {
    var instances: seq<InstanceId>
    var stopped: set<InstanceId>
    var restarting: bool
    ghost var written: seq<(InstanceId, SessionId)>
    var sessionToInstance: map<SessionId, InstanceId>
    var stdio: map<(InstanceId, SessionId), Listener>

    constructor (instances: seq<InstanceId>)
      ensures this.instances == instances && stopped == {} && !restarting
      ensures sessionToInstance == map[] && stdio == map[] && written == []
    {
      this.instances, stopped, restarting, written := instances, {}, false, [];
      sessionToInstance, stdio := map[], map[];
    }

    ghost function View(): Fleet
      reads this
    {
      Fleet(instances, stopped, restarting, written)
    }

    /** The runtime holds nothing for a session. */
    ghost predicate Idle(sid: SessionId)
      reads this
    {
      sid !in sessionToInstance && forall i :: (i, sid) !in stdio
    }

    /** pick is what the load balancer hands out. */
    method Listen(sid: SessionId, pick: Option<InstanceId>) returns (r: Result<Listener, Error>)
      modifies this`sessionToInstance, this`stdio
      ensures pick == None ==> r == Err(NoProperInstance) && sessionToInstance == old(sessionToInstance) && stdio == old(stdio)
      ensures pick.Some? ==>
        && r.Ok? && fresh(r.value) && r.value.Valid() && !r.value.closed
        && r.value.registered == [Forget(pick.value, sid)] && r.value.closeCalls == 0
        && sessionToInstance == old(sessionToInstance)[sid := pick.value]
        && stdio == old(stdio)[(pick.value, sid) := r.value]
    {
      if pick == None {
        return Err(NoProperInstance);
      }
      sessionToInstance := sessionToInstance[sid := pick.value];
      var listener := new Broadcast<Cleanup>();
      var _ := listener.OnClose(Forget(pick.value, sid));
      stdio := stdio[(pick.value, sid) := listener];
      return Ok(listener);
    }

    /** Closing a listener runs its clean-up, the first time. */
    method CloseListener(listener: Listener, ghost cleanup: Cleanup)
      requires listener.Valid() && listener.registered == [cleanup]
      modifies this`sessionToInstance, this`stdio, listener
      ensures listener.Valid() && listener.closed && listener.registered == [cleanup]
      ensures listener.closeCalls == old(listener.closeCalls) + 1
      ensures sessionToInstance == if old(listener.closed) then old(sessionToInstance) else old(sessionToInstance) - {cleanup.sid}
      ensures stdio == if old(listener.closed) then old(stdio) else old(stdio) - {(cleanup.instance, cleanup.sid)}
    {
      var callbacks := listener.Close();
      if |callbacks| > 0 {
        assert callbacks == [cleanup];
      }
      for i := 0 to |callbacks|
        invariant listener.Valid() && listener.closed && listener.registered == [cleanup]
        invariant listener.closeCalls == old(listener.closeCalls) + 1
        invariant |callbacks| <= 1 && (i == 0 ==> sessionToInstance == old(sessionToInstance) && stdio == old(stdio))
        invariant i == 1 ==> sessionToInstance == old(sessionToInstance) - {cleanup.sid}
                             && stdio == old(stdio) - {(cleanup.instance, cleanup.sid)}
      {
        var f := callbacks[i];
        stdio := stdio - {(f.instance, f.sid)};
        sessionToInstance := sessionToInstance - {f.sid};
      }
    }

    /** Writes to the instance of a session; a dead one is evicted and the session forgotten. */
    method Write(sid: SessionId, outcome: Result<(), Error>) returns (r: Result<(), Error>)
      modifies this`instances, this`stopped, this`restarting, this`sessionToInstance, this`written
      ensures r == if sid in old(sessionToInstance) then outcome else Err(SessionNotFound)
      ensures var known, dead := sid in old(sessionToInstance), outcome == Err(InstanceDead);
              && View() == (if known then AfterWrite(old(View()), old(sessionToInstance)[sid], sid, dead) else old(View()))
              && sessionToInstance == (if known && dead then old(sessionToInstance) - {sid} else old(sessionToInstance))
    {
      if sid !in sessionToInstance {
        return Err(SessionNotFound);
      }
      var instance := sessionToInstance[sid];
      written := written + [(instance, sid)];
      if outcome == Err(InstanceDead) {
        stopped := stopped + {instance};
        instances := Without(instances, instance);
        if |instances| == 0 {
          restarting := true;
        }
        sessionToInstance := sessionToInstance - {sid};
      }
      return outcome;
    }
  }

  /** An entry that was added and taken out again. */
  lemma AddedAndRemoved<K, V>(m: map<K, V>, k: K, v: V)
    requires k !in m
    ensures m[k := v] - {k} == m && m - {k} == m
  {
  }

  function Without(instances: seq<InstanceId>, dead: InstanceId): (r: seq<InstanceId>)
    ensures dead !in r
    ensures forall i :: i in r <==> i in instances && i != dead
  {
    if instances == [] then []
    else (if instances[0] == dead then [] else [instances[0]]) + Without(instances[1..], dead)
  }

  // ------------------------------------------------------------- attempts

  /**
   What happens during one attempt: the instance picked, whether the context is done once the listener is
   open, how the write ends, whether the stream is closed before the write returns, how long all this takes,
   and whether the context is done while waiting for the next attempt.
   */
  datatype Try = Try(
    pick: Option<InstanceId>, doneOnListen: bool, write: Result<(), Error>, closedEarly: bool,
    duration: nat, doneWhileWaiting: bool)

  predicate Accepted(t: Try) {
    t.pick.Some? && !t.doneOnListen && t.write.Ok?
  }

  predicate Fails(t: Try) {
    t.pick == None || (!t.doneOnListen && t.write.Err?)
  }

  /** The request is written to the instance picked. */
  predicate Writes(t: Try) {
    t.pick.Some? && !t.doneOnListen
  }

  predicate FindsDead(t: Try) {
    Writes(t) && t.write == Err(InstanceDead)
  }

  /** What an attempt does to the instances. */
  function AfterTry(f: Fleet, sid: SessionId, t: Try): Fleet {
    if Writes(t) then AfterWrite(f, t.pick.value, sid, FindsDead(t)) else f
  }

  /** The instances after the first n attempts. */
  function FleetAfter(f: Fleet, sid: SessionId, tries: nat -> Try, n: nat): Fleet {
    if n == 0 then f else AfterTry(FleetAfter(f, sid, tries, n - 1), sid, tries(n - 1))
  }

  function CauseOf(t: Try): Error
    requires Fails(t)
  {
    if t.pick == None then NoProperInstance else t.write.error
  }

  datatype Failure = ContextDone | RuntimeNotFound | WriteFailed(cause: Error)

  /** When attempt n starts. */
  function StartOf(tries: nat -> Try, n: nat): nat {
    if n == 0 then 0 else StartOf(tries, n - 1) + tries(n - 1).duration + WRITE_RETRY_INTERVAL
  }

  /** A failure is final on any other than a local runtime, if no other instance can cure it, or when time is up. */
  predicate Final(tries: nat -> Try, isLocal: bool, n: nat)
    requires Fails(tries(n))
  {
    !isLocal || !IsRecoverableWriteErr(CauseOf(tries(n))) || StartOf(tries, n) + tries(n).duration > WRITE_RETRY_BUDGET
  }

  predicate Retried(tries: nat -> Try, isLocal: bool, n: nat) {
    Fails(tries(n)) && !Final(tries, isLocal, n) && !tries(n).doneWhileWaiting
  }

  /** What the invocation returns when attempt n is its last. */
  function Returned(tries: nat -> Try, isLocal: bool, n: nat): Result<(), Failure>
    requires !Retried(tries, isLocal, n)
  {
    var t := tries(n);
    if Accepted(t) then Ok(())
    else if Fails(t) && Final(tries, isLocal, n) then Err(WriteFailed(CauseOf(t)))
    else Err(ContextDone)
  }

  /** How long the first n attempts took. */
  function Took(tries: nat -> Try, n: nat): nat {
    if n == 0 then 0 else Took(tries, n - 1) + tries(n - 1).duration
  }

  /** Attempts follow one another 300 ms apart. */
  lemma {:induction false} StartsInClosedForm(tries: nat -> Try, n: nat)
    ensures StartOf(tries, n) == Took(tries, n) + 300 * n
  {
    if n > 0 {
      StartsInClosedForm(tries, n - 1);
    }
  }

  /**
   An attempt is followed up exactly on a local runtime, if there was no instance to pick or the one that was is dead or
   has gone, no more than six seconds have passed and the context is not done while waiting.
   */
  lemma FollowedUpExactlyWhen(tries: nat -> Try, isLocal: bool, n: nat)
    ensures var t := tries(n);
            Retried(tries, isLocal, n) <==>
            && isLocal && !t.doneWhileWaiting && Took(tries, n + 1) + 300 * n <= 6000
            && (t.pick == None || (!t.doneOnListen && (t.write == Err(InstanceDead) || t.write == Err(NoProperInstance))))
  {
    StartsInClosedForm(tries, n);
  }

  /**
   The last attempt succeeds exactly if it was made on an instance that takes the request; an invocation whose context
   is done on listening, or while it waits to follow up, ends with that; and any other reports why it failed.
   */
  lemma ReturnsExactly(tries: nat -> Try, isLocal: bool, n: nat)
    requires !Retried(tries, isLocal, n)
    ensures var t, r := tries(n), Returned(tries, isLocal, n);
            && (r == Ok(()) <==> t.pick.Some? && !t.doneOnListen && t.write.Ok?)
            && (r == Err(ContextDone) <==>
                  || (t.pick.Some? && t.doneOnListen)
                  || (isLocal && Took(tries, n + 1) + 300 * n <= 6000
                      && (t.pick == None || t.write == Err(InstanceDead) || t.write == Err(NoProperInstance))))
            && (r.Err? && r.error != ContextDone ==>
                  r == Err(WriteFailed(if t.pick == None then NoProperInstance else t.write.error)))
  {
    StartsInClosedForm(tries, n);
  }

  /** The attempts before attempt n find their instances dead, in time and while the context lives; attempt n succeeds. */
  ghost predicate DeadThenAccepted(tries: nat -> Try, n: nat) {
    && (forall k :: 0 <= k < n ==>
          && tries(k).pick.Some? && !tries(k).doneOnListen && tries(k).write == Err(InstanceDead)
          && !tries(k).doneWhileWaiting && Took(tries, k + 1) + 300 * k <= 6000)
    && tries(n).pick.Some? && !tries(n).doneOnListen && tries(n).write.Ok?
  }

  /** As long as time lasts, dead instances do not keep a local runtime from an instance that is alive. */
  lemma DeadAreOutlived(tries: nat -> Try, n: nat)
    requires DeadThenAccepted(tries, n)
    ensures forall k :: 0 <= k < n ==> Retried(tries, true, k)
    ensures !Retried(tries, true, n) && Returned(tries, true, n) == Ok(())
  {
    forall k | 0 <= k < n ensures Retried(tries, true, k) {
      FollowedUpExactlyWhen(tries, true, k);
    }
    FollowedUpExactlyWhen(tries, true, n);
    ReturnsExactly(tries, true, n);
  }

  datatype OnResponseClose = StopCloseOnCancel | CloseListener | RecordOutcome

  lemma InMore<T>(s: seq<T>, i: nat, x: T)
    requires i < |s|
    ensures x in s[..i + 1] <==> x in s[..i] || s[i] == x
    ensures s[i] == x ==> x in s
  {
    assert s[..i + 1] == s[..i] + [s[i]];
  }

  /** The response stream and the listener of one attempt; closedOnce is the guard of closing the listener. */
  class Attempt {
    const sid: SessionId
    const response: Broadcast<OnResponseClose>
    const pick: Option<InstanceId>
    var listener: Option<Listener>
    var closedOnce: bool

    constructor (sid: SessionId, pick: Option<InstanceId>)
      ensures fresh(response) && this.sid == sid && this.pick == pick && listener == None && !closedOnce && Valid()
      ensures !response.closed && response.registered == [StopCloseOnCancel] && response.closeCalls == 0
    {
      this.sid, this.pick, listener, closedOnce := sid, pick, None, false;
      response := new Broadcast<OnResponseClose>();
      new;
      var _ := response.OnClose(StopCloseOnCancel);
    }

    /** The listener is of the instance picked, and is closed at most once: when the guard says so. */
    ghost predicate Valid()
      reads this, response, if listener.Some? then {listener.value} else {}
    {
      && response.Valid()
      && (CloseListener in response.registered ==> listener.Some?)
      && (listener.Some? ==>
            && pick.Some? && listener.value.Valid() && listener.value.registered == [Forget(pick.value, sid)]
            && listener.value.closeCalls == (if closedOnce then 1 else 0))
    }

    /** The stream is closed, and a listener, if one was opened, was closed exactly once and has run its clean-up once. */
    ghost predicate Discarded()
      reads this, response, if listener.Some? then {listener.value} else {}
    {
      && Valid() && response.closed
      && (listener.Some? ==> listener.value.closeCalls == 1 && listener.value.ran == [Forget(pick.value, sid)])
    }

    /** The stream is open, and so is the listener; closing the stream will close it and record the outcome, once each. */
    ghost predicate Open()
      reads this, response, if listener.Some? then {listener.value} else {}
    {
      && Valid() && !response.closed && response.closeCalls == 0
      && response.registered == [StopCloseOnCancel, CloseListener, RecordOutcome]
      && listener.Some? && listener.value.closeCalls == 0 && listener.value.ran == []
    }

    /** The guarded closing of the listener: the first call closes it, later ones do nothing. */
    method CloseListenerOnce(rt: LocalRuntime)
      requires Valid() && listener.Some?
      modifies this`closedOnce, rt`sessionToInstance, rt`stdio, listener.value
      ensures Valid() && closedOnce && listener == old(listener)
      ensures rt.sessionToInstance == if old(closedOnce) then old(rt.sessionToInstance) else old(rt.sessionToInstance) - {sid}
      ensures rt.stdio == if old(closedOnce) then old(rt.stdio) else old(rt.stdio) - {(pick.value, sid)}
    {
      if !closedOnce {
        closedOnce := true;
        rt.CloseListener(listener.value, Forget(pick.value, sid));
      }
    }

    /** A close callback of the stream. */
    method RunCallback(rt: LocalRuntime, callback: OnResponseClose)
      requires Valid() && (callback == CloseListener ==> listener.Some?)
      modifies this`closedOnce, rt`sessionToInstance, rt`stdio, if listener.Some? then {listener.value} else {}
      ensures Valid() && listener == old(listener)
      ensures closedOnce == (old(closedOnce) || callback == CloseListener)
      ensures var closes := callback == CloseListener && !old(closedOnce);
              && rt.sessionToInstance == (if closes then old(rt.sessionToInstance) - {sid} else old(rt.sessionToInstance))
              && rt.stdio == (if closes then old(rt.stdio) - {(pick.value, sid)} else old(rt.stdio))
    {
      if callback == CloseListener {
        CloseListenerOnce(rt);
      }
    }

    /** Adds a close callback to the stream; a closed one runs it at once. */
    method OnClose(rt: LocalRuntime, callback: OnResponseClose)
      requires Valid() && (callback == CloseListener ==> listener.Some?)
      modifies this`closedOnce, response, rt`sessionToInstance, rt`stdio, if listener.Some? then {listener.value} else {}
      ensures Valid() && listener == old(listener)
      ensures response.closed == old(response.closed) && response.closeCalls == old(response.closeCalls)
      ensures response.registered == old(response.registered) + [callback]
      ensures closedOnce == (old(closedOnce) || (response.closed && callback == CloseListener))
      ensures var closes := response.closed && callback == CloseListener && !old(closedOnce);
              && rt.sessionToInstance == (if closes then old(rt.sessionToInstance) - {sid} else old(rt.sessionToInstance))
              && rt.stdio == (if closes then old(rt.stdio) - {(pick.value, sid)} else old(rt.stdio))
    {
      hide Broadcast.View, After;
      var runs := response.OnClose(callback);
      if runs {
        RunCallback(rt, callback);
      }
    }

    /** Closing the stream runs its callbacks the first time. */
    method CloseResponse(rt: LocalRuntime)
      requires Valid()
      modifies this`closedOnce, response, rt`sessionToInstance, rt`stdio, if listener.Some? then {listener.value} else {}
      ensures Valid() && response.closed && listener == old(listener)
      ensures response.registered == old(response.registered)
      ensures var runs := !old(response.closed) && CloseListener in old(response.registered);
              && closedOnce == (old(closedOnce) || runs)
              && rt.sessionToInstance == (if runs && !old(closedOnce) then old(rt.sessionToInstance) - {sid}
                                          else old(rt.sessionToInstance))
              && rt.stdio == (if runs && !old(closedOnce) then old(rt.stdio) - {(pick.value, sid)} else old(rt.stdio))
    {
      var callbacks := response.Close();
      RunCallbacks(rt, callbacks);
    }

    method RunCallbacks(rt: LocalRuntime, callbacks: seq<OnResponseClose>)
      requires Valid() && (CloseListener in callbacks ==> listener.Some?)
      modifies this`closedOnce, rt`sessionToInstance, rt`stdio, if listener.Some? then {listener.value} else {}
      ensures Valid() && listener == old(listener)
      ensures closedOnce == (old(closedOnce) || CloseListener in callbacks)
      ensures var closes := CloseListener in callbacks && !old(closedOnce);
              && rt.sessionToInstance == (if closes then old(rt.sessionToInstance) - {sid} else old(rt.sessionToInstance))
              && rt.stdio == (if closes then old(rt.stdio) - {(pick.value, sid)} else old(rt.stdio))
    {
      ghost var l, once, sessions, stdio := listener, closedOnce, rt.sessionToInstance, rt.stdio;
      for i := 0 to |callbacks|
        invariant Valid() && listener == l
        invariant closedOnce == (once || CloseListener in callbacks[..i])
        invariant rt.sessionToInstance == if closedOnce && !once then sessions - {sid} else sessions
        invariant rt.stdio == if closedOnce && !once then stdio - {(pick.value, sid)} else stdio
      {
        InMore(callbacks, i, CloseListener);
        RunCallback(rt, callbacks[i]);
      }
      assert callbacks[..|callbacks|] == callbacks;
    }
  }

  /**
   What an attempt leaves in the runtime that held these sessions and handlers, and none for its own: exactly its own
   listener while its stream is open, and else nothing.
   */
  ghost predicate Left(rt: LocalRuntime, a: Attempt, sessions: map<SessionId, InstanceId>,
                       stdio: map<(InstanceId, SessionId), Listener>)
    reads rt, a, a.response, if a.listener.Some? then {a.listener.value} else {}
  {
    if a.response.closed then a.Discarded() && rt.sessionToInstance == sessions && rt.stdio == stdio
    else
      && a.Open()
      && rt.sessionToInstance == sessions[a.sid := a.pick.value]
      && rt.stdio == stdio[(a.pick.value, a.sid) := a.listener.value]
  }

  /** The ways an attempt can end. */
  datatype Ending = Succeeded | ContextEnded | Failed(cause: Error)

  /** One attempt. It starts with nothing registered for the session, so at most one listener ever is. */
  method MakeAttempt(rt: LocalRuntime, sid: SessionId, t: Try) returns (ending: Ending, a: Attempt)
    requires rt.Idle(sid)
    modifies rt
    ensures fresh(a) && fresh(a.response) && (a.listener.Some? ==> fresh(a.listener.value))
    ensures a.sid == sid && a.pick == t.pick
    ensures rt.View() == AfterTry(old(rt.View()), sid, t)
    ensures Left(rt, a, old(rt.sessionToInstance), old(rt.stdio))
    ensures a.response.closed <==> !Accepted(t) || t.closedEarly
    ensures a.listener.Some? <==> t.pick.Some?
    ensures ending == if Accepted(t) then Succeeded else if Fails(t) then Failed(CauseOf(t)) else ContextEnded
  {
    a := new Attempt(sid, t.pick);
    var listening := rt.Listen(sid, t.pick);
    if listening.Err? {
      a.CloseResponse(rt);
      return Failed(listening.error), a;
    }
    a.listener := Some(listening.value);
    AddedAndRemoved(old(rt.sessionToInstance), sid, t.pick.value);
    AddedAndRemoved(old(rt.stdio), (t.pick.value, sid), listening.value);
    if t.doneOnListen {
      a.CloseListenerOnce(rt);
      a.CloseResponse(rt);
      return ContextEnded, a;
    }
    ending := SendRequest(rt, a, t, old(rt.sessionToInstance), old(rt.stdio));
  }

  /** The second half of an attempt: the request is written to the instance that was picked and is being listened to. */
  method SendRequest(rt: LocalRuntime, a: Attempt, t: Try, ghost sessions: map<SessionId, InstanceId>,
                     ghost stdio: map<(InstanceId, SessionId), Listener>)
    returns (ending: Ending)
    requires Writes(t) && a.pick == t.pick && a.Valid() && a.listener.Some? && !a.closedOnce
    requires !a.response.closed && a.response.registered == [StopCloseOnCancel]
    requires a.sid !in sessions && (t.pick.value, a.sid) !in stdio
    requires rt.sessionToInstance == sessions[a.sid := t.pick.value]
    requires rt.stdio == stdio[(t.pick.value, a.sid) := a.listener.value]
    modifies rt, a`closedOnce, a.response, a.listener.value
    ensures a.listener == old(a.listener) && Left(rt, a, sessions, stdio)
    ensures a.response.closed <==> t.write.Err? || t.closedEarly
    ensures ending == if t.write.Ok? then Succeeded else Failed(t.write.error)
    ensures rt.View() == AfterTry(old(rt.View()), a.sid, t)
  {
    hide AfterWrite, Without;
    AddedAndRemoved(sessions, a.sid, t.pick.value);
    AddedAndRemoved(stdio, (t.pick.value, a.sid), a.listener.value);
    var written := rt.Write(a.sid, t.write);
    if t.closedEarly {
      a.CloseResponse(rt);
    }
    if written.Ok? {
      a.OnClose(rt, CloseListener);
      a.OnClose(rt, RecordOutcome);
      return Succeeded;
    }
    a.CloseListenerOnce(rt);
    a.CloseResponse(rt);
    return Failed(written.error);
  }

  // ------------------------------------------------------------- the attempt loop

  /** One turn of the loop: an attempt, and whether it is followed up; if not, what the invocation returns. */
  method TryOnce(rt: LocalRuntime, sid: SessionId, isLocal: bool, deadline: nat, start: nat, ghost tries: nat -> Try, n: nat, t: Try)
    returns (decided: Option<Result<(), Failure>>, a: Attempt, clock: nat)
    requires rt.Idle(sid) && t == tries(n) && start == StartOf(tries, n) && deadline == WRITE_RETRY_BUDGET
    modifies rt
    ensures fresh(a) && fresh(a.response) && (a.listener.Some? ==> fresh(a.listener.value))
    ensures a.sid == sid && a.pick == t.pick && rt.View() == AfterTry(old(rt.View()), sid, t)
    ensures Left(rt, a, old(rt.sessionToInstance), old(rt.stdio))
    ensures a.response.closed <==> !Accepted(t) || t.closedEarly
    ensures decided == if Retried(tries, isLocal, n) then None else Some(Returned(tries, isLocal, n))
    ensures if decided == Some(Ok(())) then Accepted(t)
            else a.Discarded() && rt.sessionToInstance == old(rt.sessionToInstance) && rt.stdio == old(rt.stdio)
    ensures decided == None ==> clock == StartOf(tries, n + 1) && start < clock <= deadline + WRITE_RETRY_INTERVAL
  {
    hide AfterTry, LocalRuntime.View;
    var ending;
    ending, a := MakeAttempt(rt, sid, t);
    clock := start;
    match ending {
      case Succeeded =>
        decided := Some(Ok(()));
      case ContextEnded =>
        decided := Some(Err(ContextDone));
      case Failed(cause) =>
        clock := clock + t.duration;
        if !isLocal || !IsRecoverableWriteErr(cause) || clock > deadline {
          return Some(Err(WriteFailed(cause))), a, clock;
        }
        if t.doneWhileWaiting {
          return Some(Err(ContextDone)), a, clock;
        }
        clock := clock + WRITE_RETRY_INTERVAL;
        decided := None;
    }
  }

  /** The first n attempts were for this session, each with the instance picked for it. */
  ghost predicate Picked(attempts: seq<Attempt>, sid: SessionId, tries: nat -> Try) {
    forall k :: 0 <= k < |attempts| ==> attempts[k].sid == sid && attempts[k].pick == tries(k).pick
  }

  /** Every attempt before attempt n was one to follow up. */
  ghost predicate RetriedBefore(tries: nat -> Try, isLocal: bool, n: nat) {
    forall k :: 0 <= k < n ==> Retried(tries, isLocal, k)
  }

  /** Where the loop stands: these attempts were made, all to be followed up, and left these instances at this time. */
  ghost predicate Followed(f: Fleet, now: Fleet, sid: SessionId, tries: nat -> Try, isLocal: bool, attempts: seq<Attempt>, clock: nat) {
    && Picked(attempts, sid, tries) && now == FleetAfter(f, sid, tries, |attempts|)
    && RetriedBefore(tries, isLocal, |attempts|) && clock == StartOf(tries, |attempts|)
  }

  lemma FollowedNone(f: Fleet, sid: SessionId, tries: nat -> Try, isLocal: bool)
    ensures Followed(f, f, sid, tries, isLocal, [], 0)
  {
  }

  /** The attempts before the last one were all followed up, and the last one is not. */
  ghost predicate Concluded(f: Fleet, now: Fleet, sid: SessionId, tries: nat -> Try, isLocal: bool, attempts: seq<Attempt>,
                            r: Result<(), Failure>) {
    && attempts != [] && Picked(attempts, sid, tries) && now == FleetAfter(f, sid, tries, |attempts|)
    && var last := |attempts| - 1;
    && RetriedBefore(tries, isLocal, last) && !Retried(tries, isLocal, last) && r == Returned(tries, isLocal, last)
  }

  lemma FollowedMore(f: Fleet, now: Fleet, sid: SessionId, tries: nat -> Try, isLocal: bool, attempts: seq<Attempt>, clock: nat, a: Attempt)
    requires Followed(f, now, sid, tries, isLocal, attempts, clock)
    requires a.sid == sid && a.pick == tries(|attempts|).pick
    ensures var n, next := |attempts| + 1, AfterTry(now, sid, tries(|attempts|));
            if Retried(tries, isLocal, n - 1) then Followed(f, next, sid, tries, isLocal, attempts + [a], StartOf(tries, n))
            else Concluded(f, next, sid, tries, isLocal, attempts + [a], Returned(tries, isLocal, n - 1))
  {
    hide Retried, Returned, AfterTry;
    assert (attempts + [a])[|attempts|] == a;
  }

  /** What the last attempt leaves: a success is open, unless it was closed early, and anything else leaves nothing. */
  ghost predicate Ended(rt: LocalRuntime, a: Attempt, t: Try, r: Result<(), Failure>, sessions: map<SessionId, InstanceId>,
                        stdio: map<(InstanceId, SessionId), Listener>)
    reads rt, a, a.response, if a.listener.Some? then {a.listener.value} else {}
  {
    if r.Ok? then Left(rt, a, sessions, stdio) && (a.response.closed <==> t.closedEarly)
    else a.Discarded() && rt.sessionToInstance == sessions && rt.stdio == stdio
  }

  /** The loop over the attempts. */
  method MakeAttempts(rt: LocalRuntime, sid: SessionId, isLocal: bool, tries: nat -> Try)
    returns (r: Result<(), Failure>, before: seq<Attempt>, last: Attempt)
    requires rt.Idle(sid)
    modifies rt
    ensures Concluded(old(rt.View()), rt.View(), sid, tries, isLocal, before + [last], r)
    ensures forall k :: 0 <= k < |before| ==> before[k].Discarded()
    ensures Ended(rt, last, tries(|before|), r, old(rt.sessionToInstance), old(rt.stdio))
  {
    var clock := 0;
    var deadline := WRITE_RETRY_BUDGET;
    before := [];
    ghost var f := rt.View();
    FollowedNone(f, sid, tries, isLocal);
    hide Picked, FleetAfter, RetriedBefore, Retried, Returned, StartOf, AfterTry, Left, LocalRuntime.View;
    hide Attempt.Open, Attempt.Discarded, Attempt.Valid, Accepted, Concluded;
    while true
      invariant Followed(f, rt.View(), sid, tries, isLocal, before, clock) && clock <= deadline + WRITE_RETRY_INTERVAL
      invariant rt.sessionToInstance == old(rt.sessionToInstance) && rt.stdio == old(rt.stdio)
      invariant forall k :: 0 <= k < |before| ==> before[k].Discarded()
      decreases deadline + WRITE_RETRY_INTERVAL - clock
    {
      ghost var now, start := rt.View(), clock;
      var decided;
      decided, last, clock := TryOnce(rt, sid, isLocal, deadline, clock, tries, |before|, tries(|before|));
      FollowedMore(f, now, sid, tries, isLocal, before, start, last);
      if decided.Some? {
        return decided.value, before, last;
      }
      before := before + [last];
    }
  }

  /**
   The attempts of an invocation. It makes exactly those up to the first that is not to be followed up, and returns
   what that one comes to. Over any number of retries at most one listener is registered for the session. On failure
   every opened listener was closed exactly once, every stream is closed, and sessions and handlers are what they were;
   on success the same goes for all attempts but the last, whose listener lives as long as its stream. The instances
   lose exactly those that attempts found dead.
   */
  method InvokePluginOnce(rt: LocalRuntime, sid: SessionId, hasRuntime: bool, isLocal: bool, done: bool, tries: nat -> Try)
    returns (r: Result<(), Failure>, attempts: seq<Attempt>)
    requires rt.Idle(sid)
    modifies rt
    ensures attempts == [] <==> done || !hasRuntime
    ensures done ==> r == Err(ContextDone)
    ensures !done && !hasRuntime ==> r == Err(RuntimeNotFound)
    ensures Picked(attempts, sid, tries) && rt.View() == FleetAfter(old(rt.View()), sid, tries, |attempts|)
    ensures attempts != [] ==>
      var last := |attempts| - 1;
      RetriedBefore(tries, isLocal, last) && !Retried(tries, isLocal, last) && r == Returned(tries, isLocal, last)
    ensures forall k :: 0 <= k < (if r.Ok? then |attempts| - 1 else |attempts|) ==> attempts[k].Discarded()
    ensures r.Err? ==> rt.sessionToInstance == old(rt.sessionToInstance) && rt.stdio == old(rt.stdio)
    ensures r.Ok? ==>
      && attempts != []
      && var a := attempts[|attempts| - 1];
      && Left(rt, a, old(rt.sessionToInstance), old(rt.stdio)) && (a.response.closed <==> tries(|attempts| - 1).closedEarly)
    ensures forall n: nat :: !done && hasRuntime && isLocal && DeadThenAccepted(tries, n) ==> r == Ok(()) && |attempts| == n + 1
  {
    attempts := [];
    if done {
      return Err(ContextDone), attempts;
    }
    if !hasRuntime {
      return Err(RuntimeNotFound), attempts;
    }
    hide Picked, RetriedBefore, Retried, Returned, Left, FleetAfter, LocalRuntime.View, Attempt.Discarded;
    var before, last;
    r, before, last := MakeAttempts(rt, sid, isLocal, tries);
    attempts := before + [last];
    forall n: nat | isLocal && DeadThenAccepted(tries, n) ensures r == Ok(()) && |attempts| == n + 1 {
      AliveIsReached(tries, |before|, n);
    }
  }

  lemma AliveIsReached(tries: nat -> Try, last: nat, n: nat)
    requires DeadThenAccepted(tries, n) && RetriedBefore(tries, true, last) && !Retried(tries, true, last)
    ensures last == n && Returned(tries, true, last) == Ok(())
  {
    DeadAreOutlived(tries, n);
  }

  lemma {:induction false} StartsLater(tries: nat -> Try, n: nat)
    ensures StartOf(tries, n) >= n * WRITE_RETRY_INTERVAL
  {
    if n > 0 {
      StartsLater(tries, n - 1);
    }
  }

  /** However quick the attempts are, no more are followed up than the budget has room for. */
  lemma AttemptsAreBounded(tries: nat -> Try, isLocal: bool, n: nat)
    requires RetriedBefore(tries, isLocal, n)
    ensures n <= WRITE_RETRY_BUDGET / WRITE_RETRY_INTERVAL + 1
  {
    if n > 0 {
      StartsLater(tries, n - 1);
      assert Retried(tries, isLocal, n - 1);
    }
  }

  // ------------------------------------------------------------- which instances are lost

  /** The instances that the first n attempts found dead on writing to them. */
  ghost function Dead(tries: nat -> Try, n: nat): set<InstanceId> {
    set k | 0 <= k < n && tries(k).pick.Some? && !tries(k).doneOnListen && tries(k).write == Err(InstanceDead) ::
      tries(k).pick.value
  }

  /** The requests that the first n attempts write: one each, to the instance picked, unless the context is done by then. */
  function Requests(tries: nat -> Try, sid: SessionId, n: nat): seq<(InstanceId, SessionId)> {
    if n == 0 then []
    else
      var t := tries(n - 1);
      Requests(tries, sid, n - 1) + if t.pick.Some? && !t.doneOnListen then [(t.pick.value, sid)] else []
  }

  lemma {:induction false} WritesExactlyTheRequests(f: Fleet, sid: SessionId, tries: nat -> Try, n: nat)
    ensures FleetAfter(f, sid, tries, n).written == f.written + Requests(tries, sid, n)
  {
    if n > 0 {
      hide Without;
      WritesExactlyTheRequests(f, sid, tries, n - 1);
    }
  }

  /** An instance is stopped exactly if an attempt found it dead, and the others stay; the last one lost restarts the runtime. */
  lemma {:induction false} LosesExactlyTheDead(f: Fleet, sid: SessionId, tries: nat -> Try, n: nat)
    ensures var g := FleetAfter(f, sid, tries, n);
            && g.stopped == f.stopped + Dead(tries, n)
            && (forall i :: i in g.instances <==> i in f.instances && i !in Dead(tries, n))
            && g.restarting == (f.restarting || (Dead(tries, n) != {} && g.instances == []))
  {
    if n > 0 {
      LosesExactlyTheDead(f, sid, tries, n - 1);
      var t := tries(n - 1);
      assert Dead(tries, n) == Dead(tries, n - 1) + if FindsDead(t) then {t.pick.value} else {};
    }
  }

  /** The picks of the first n attempts are instances the runtime then has. */
  ghost predicate PicksFromFleet(f: Fleet, sid: SessionId, tries: nat -> Try, n: nat) {
    forall k :: 0 <= k < n && tries(k).pick.Some? ==> tries(k).pick.value in FleetAfter(f, sid, tries, k).instances
  }

  /** No attempt goes to an instance that an earlier one found dead. */
  lemma DeadIsNotPickedAgain(f: Fleet, sid: SessionId, tries: nat -> Try, n: nat, j: nat, k: nat)
    requires PicksFromFleet(f, sid, tries, n) && j < k < n && FindsDead(tries(j))
    ensures tries(k).pick != tries(j).pick
  {
    LosesExactlyTheDead(f, sid, tries, k);
    assert tries(j).pick.value in Dead(tries, k);
  }

  function DeadCount(tries: nat -> Try, n: nat): nat {
    if n == 0 then 0 else DeadCount(tries, n - 1) + if FindsDead(tries(n - 1)) then 1 else 0
  }

  /** An invocation finds at most as many instances dead as there are. */
  lemma {:induction false} DeadAreBounded(f: Fleet, sid: SessionId, tries: nat -> Try, n: nat)
    requires PicksFromFleet(f, sid, tries, n)
    ensures DeadCount(tries, n) + |FleetAfter(f, sid, tries, n).instances| <= |f.instances|
  {
    if n > 0 {
      DeadAreBounded(f, sid, tries, n - 1);
      if FindsDead(tries(n - 1)) {
        FewerWithout(FleetAfter(f, sid, tries, n - 1).instances, tries(n - 1).pick.value);
      }
    }
  }

  lemma {:induction false} FewerWithout(instances: seq<InstanceId>, dead: InstanceId)
    ensures |Without(instances, dead)| <= |instances|
    ensures dead in instances ==> |Without(instances, dead)| < |instances|
  {
    if instances != [] {
      FewerWithout(instances[1..], dead);
    }
  }

  /** Closing the stream of a successful invocation ends it: its listener is closed, once, and the runtime holds what it held before. */
  method FinishInvocation(rt: LocalRuntime, a: Attempt, ghost sessions: map<SessionId, InstanceId>,
                          ghost stdio: map<(InstanceId, SessionId), Listener>)
    requires Left(rt, a, sessions, stdio) && a.sid !in sessions && forall i :: (i, a.sid) !in stdio
    modifies a, a.response, rt, if a.listener.Some? then {a.listener.value} else {}
    ensures a.Discarded() && rt.sessionToInstance == sessions && rt.stdio == stdio
    ensures rt.View() == old(rt.View())
  {
    if !a.response.closed {
      AddedAndRemoved(sessions, a.sid, a.pick.value);
      AddedAndRemoved(stdio, (a.pick.value, a.sid), a.listener.value);
    }
    a.CloseResponse(rt);
  }
}
