/**
 The scheduler of one local plugin and its instances (internal/core/local_runtime/control.go, load_balancing.go,
 subprocess.go and instance.go). Processes, pipes and timers are left out: a started instance is one whose first
 heartbeat arrived in time, and a graceful stop ends in a stop whether the instance drained or ran out of time.
 */
module LocalScheduler {
  import opened Wrappers
  import opened RoundRobin

  const MAX_ERR_MSG_LEN := 1024

  /** The last bytes of a text, as many as the error buffer holds. */
  function Tail(text: seq<Byte>): seq<Byte> {
    if |text| > MAX_ERR_MSG_LEN then text[|text| - MAX_ERR_MSG_LEN..] else text
  }

  /** Cutting the message to the buffer and the buffer to the room the message leaves. */
  lemma TailWritten(buffer: seq<Byte>, text: seq<Byte>)
    requires |buffer| <= MAX_ERR_MSG_LEN
    ensures var msg := if |text| > MAX_ERR_MSG_LEN then text[|text| - MAX_ERR_MSG_LEN..] else text;
            var reduce := |msg| + |buffer| - MAX_ERR_MSG_LEN;
            reduce <= |buffer| && Tail(buffer + text) == (if reduce > 0 then buffer[reduce..] else buffer) + msg
  {
  }

  class PluginInstance {
    const instanceId: string
    var stopped: bool
    var errMessage: seq<Byte>

    constructor (instanceId: string)
      ensures this.instanceId == instanceId && !stopped && errMessage == []
    {
      this.instanceId, stopped, errMessage := instanceId, false, [];
    }

    method Stop()
      modifies this`stopped
      ensures stopped
    {
      stopped := true;
    }

    /** The buffer keeps the last bytes of everything written. */
    method WriteError(text: seq<Byte>)
      requires |errMessage| <= MAX_ERR_MSG_LEN
      modifies this`errMessage
      ensures errMessage == Tail(old(errMessage) + text) && |errMessage| <= MAX_ERR_MSG_LEN
    {
      TailWritten(errMessage, text);
      hide Tail;
      var msg := text;
      if |msg| > MAX_ERR_MSG_LEN {
        msg := msg[|msg| - MAX_ERR_MSG_LEN..];
      }
      var reduce := |msg| + |errMessage| - MAX_ERR_MSG_LEN;
      if reduce > 0 {
        if reduce > |errMessage| {
          // the source empties the buffer here, but the message was cut to the length of the buffer before
          assert false;
        } else {
          errMessage := errMessage[reduce..];
        }
      }
      errMessage := errMessage + msg;
    }
  }

  function Flatten(texts: seq<seq<Byte>>): seq<Byte> {
    if texts == [] then [] else Flatten(texts[..|texts| - 1]) + texts[|texts| - 1]
  }

  /** The buffer after one write after the other. */
  function Written(texts: seq<seq<Byte>>): seq<Byte> {
    if texts == [] then [] else Tail(Written(texts[..|texts| - 1]) + texts[|texts| - 1])
  }

  lemma TailOfTail(a: seq<Byte>, b: seq<Byte>)
    ensures Tail(Tail(a) + b) == Tail(a + b)
  {
  }

  /** However texts are written, the buffer holds the last 1024 bytes of all of them, or all of them if there are fewer. */
  lemma {:induction false} WrittenIsTheTail(texts: seq<seq<Byte>>)
    ensures Written(texts) == Tail(Flatten(texts))
    ensures var all := Flatten(texts); Written(texts) == if |all| <= 1024 then all else all[|all| - 1024..]
  {
    if texts != [] {
      WrittenIsTheTail(texts[..|texts| - 1]);
      TailOfTail(Flatten(texts[..|texts| - 1]), texts[|texts| - 1]);
    }
  }

  // ------------------------------------------------------------- live instances

  ghost function Live(s: seq<PluginInstance>): (live: seq<PluginInstance>)
    reads s
    ensures |live| <= |s|
  {
    if s == [] then []
    else
      var last := s[|s| - 1];
      Live(s[..|s| - 1]) + (if last.stopped then [] else [last])
  }

  ghost predicate DistinctIds(s: seq<PluginInstance>) {
    forall j, k :: 0 <= j < k < |s| ==> s[j].instanceId != s[k].instanceId
  }

  lemma LiveMore(s: seq<PluginInstance>, k: nat)
    requires k < |s|
    ensures Live(s[..k + 1]) == Live(s[..k]) + (if s[k].stopped then [] else [s[k]])
  {
    assert s[..k + 1][..k] == s[..k];
  }

  lemma {:induction false} LiveElements(s: seq<PluginInstance>)
    ensures forall k :: 0 <= k < |Live(s)| ==> Live(s)[k] in s && !Live(s)[k].stopped
  {
    if s != [] {
      LiveElements(s[..|s| - 1]);
    }
  }

  lemma {:induction false} LiveOfLive(s: seq<PluginInstance>)
    requires forall k :: 0 <= k < |s| ==> !s[k].stopped
    ensures Live(s) == s
  {
    if s != [] {
      LiveOfLive(s[..|s| - 1]);
    }
  }

  lemma {:induction false} LiveDistinct(s: seq<PluginInstance>)
    requires DistinctIds(s)
    ensures DistinctIds(Live(s))
  {
    if s != [] {
      LiveElements(s[..|s| - 1]);
      LiveDistinct(s[..|s| - 1]);
    }
  }

  lemma {:induction false} LiveConcat(s: seq<PluginInstance>, t: seq<PluginInstance>)
    ensures Live(s + t) == Live(s) + Live(t)
  {
    if t == [] {
      assert s + t == s;
    } else {
      LiveConcat(s, t[..|t| - 1]);
      assert (s + t)[..|s + t| - 1] == s + t[..|t| - 1];
    }
  }

  ghost function LiveFlags(s: seq<PluginInstance>): (flags: seq<bool>)
    reads s
    ensures |flags| == |s|
    ensures forall k :: 0 <= k < |s| ==> flags[k] == !s[k].stopped
  {
    seq(|s|, k requires 0 <= k < |s| reads s => !s[k].stopped)
  }

  function Without<I>(s: seq<I>, k: nat): seq<I>
    requires k < |s|
  {
    s[..k] + s[k + 1..]
  }

  lemma SplitAt<T>(s: seq<T>, k: nat)
    requires k <= |s|
    ensures s[..k] + s[k..] == s
  {
  }

  lemma LiveSplit(s: seq<PluginInstance>, k: nat)
    requires k < |s|
    ensures Live(s) == Live(s[..k]) + (if s[k].stopped then [] else [s[k]]) + Live(s[k + 1..])
  {
    hide Live;
    LiveMore(s, k);
    LiveConcat(s[..k + 1], s[k + 1..]);
    SplitAt(s, k + 1);
  }

  /** Leaving a stopped instance out loses no live one. */
  lemma LiveWithout(s: seq<PluginInstance>, k: nat)
    requires k < |s| && s[k].stopped
    ensures Live(Without(s, k)) == Live(s)
  {
    hide Live;
    LiveSplit(s, k);
    LiveConcat(s[..k], s[k + 1..]);
  }

  /** Only one of the instances is stopped. */
  lemma LiveAllBut(s: seq<PluginInstance>, k: nat)
    requires k < |s| && s[k].stopped
    requires forall j :: 0 <= j < |s| && j != k ==> !s[j].stopped
    ensures Live(s) == Without(s, k)
  {
    hide Live;
    LiveSplit(s, k);
    LiveOfLive(s[..k]);
    LiveOfLive(s[k + 1..]);
  }

  lemma {:induction false} LiveKeeps(s: seq<PluginInstance>)
    ensures forall k :: 0 <= k < |s| && !s[k].stopped ==> s[k] in Live(s)
  {
    if s != [] {
      LiveKeeps(s[..|s| - 1]);
      assert forall k :: 0 <= k < |s| - 1 ==> s[k] == s[..|s| - 1][k];
    }
  }

  // ------------------------------------------------------------- one turn of the scheduler, on the live instances

  /** What a turn makes of the live instances. */
  function NextLive<I>(live: seq<I>, target: int, b: nat, started: Option<I>): seq<I> {
    if |live| < target then (if started.Some? then live + [started.value] else live)
    else if |live| > target && |live| > 0 then
      var slot := Slot(b, 1, |live|);
      Without(live, slot)
    else live
  }

  function Started(starts: seq<Option<PluginInstance>>): set<PluginInstance> {
    set k | 0 <= k < |starts| && starts[k].Some? :: starts[k].value
  }

  /** Instances that are started later have ids of their own. */
  ghost predicate FreshIds(starts: seq<Option<PluginInstance>>, i: nat, instances: seq<PluginInstance>) {
    && (forall j, k :: i <= j < k < |starts| && starts[j].Some? && starts[k].Some? ==>
          starts[j].value.instanceId != starts[k].value.instanceId)
    && forall j, k :: i <= j < |starts| && starts[j].Some? && 0 <= k < |instances| ==>
         starts[j].value.instanceId != instances[k].instanceId
  }

  ghost predicate NotStopped(starts: seq<Option<PluginInstance>>, i: nat)
    reads Started(starts)
  {
    forall k :: i <= k < |starts| && starts[k].Some? ==> !starts[k].value.stopped
  }

  ghost predicate Among(instances: seq<PluginInstance>, had: seq<PluginInstance>, starts: seq<Option<PluginInstance>>) {
    forall k :: 0 <= k < |instances| ==> instances[k] in had || instances[k] in Started(starts)
  }

  lemma EmptyAmong(instances: seq<PluginInstance>, starts: seq<Option<PluginInstance>>)
    ensures Among(instances, instances, starts)
  {
  }

  lemma AmongAll(instances: seq<PluginInstance>, had: seq<PluginInstance>, starts: seq<Option<PluginInstance>>)
    requires Among(instances, had, starts)
    ensures forall x :: x in instances ==> x in had || x in Started(starts)
  {
  }

  lemma StartIsFresh(starts: seq<Option<PluginInstance>>, i: nat, instances: seq<PluginInstance>)
    requires i < |starts| && FreshIds(starts, i, instances) && NotStopped(starts, i)
    ensures starts[i].Some? ==>
      && !starts[i].value.stopped && starts[i].value in Started(starts)
      && forall k :: 0 <= k < |instances| ==> instances[k].instanceId != starts[i].value.instanceId
    ensures forall j :: i < j < |starts| && starts[j].Some? ==> starts[j].value !in instances
  {
    if starts[i].Some? {
      assert !starts[i].value.stopped;
    }
  }

  lemma FewerStarts(starts: seq<Option<PluginInstance>>, i: nat, before: seq<PluginInstance>, after: seq<PluginInstance>,
                    had: seq<PluginInstance>)
    requires i < |starts| && FreshIds(starts, i, before) && Among(before, had, starts)
    requires forall k :: 0 <= k < |after| ==> after[k] in before || starts[i] == Some(after[k])
    ensures FreshIds(starts, i + 1, after) && Among(after, had, starts)
  {
  }

  lemma NextLiveCases<I>(live: seq<I>, target: int, b: nat, started: Option<I>)
    ensures |live| < target && started.Some? ==> NextLive(live, target, b, started) == live + [started.value]
    ensures |live| < target && started.None? ==> NextLive(live, target, b, started) == live
    ensures |live| == target || (|live| > target && live == []) ==> NextLive(live, target, b, started) == live
    ensures |live| > target && live != [] ==> NextLive(live, target, b, started) == Without(live, Slot(b, 1, |live|))
  {
  }

  method DeleteStopped(instances: seq<PluginInstance>) returns (kept: seq<PluginInstance>)
    ensures kept == Live(instances)
  {
    kept := [];
    for i := 0 to |instances|
      invariant kept == Live(instances[..i])
    {
      LiveMore(instances, i);
      if !instances[i].stopped {
        kept := kept + [instances[i]];
      }
    }
    assert instances[..|instances|] == instances;
  }

  class LocalPluginRuntime {
    var instances: seq<PluginInstance>
    var instanceNums: int
    var roundRobinIndex: nat

    ghost predicate Valid()
      reads this
    {
      DistinctIds(instances) && roundRobinIndex < W
    }

    constructor (target: int)
      ensures Valid() && instances == [] && instanceNums == target && roundRobinIndex == 0
    {
      instances, instanceNums, roundRobinIndex := [], target, 0;
    }

    /** No stopped instance survives, and every other one does, in order. */
    method PruneStoppedInstances() returns (removed: nat)
      requires Valid()
      modifies this`instances
      ensures Valid() && instances == old(Live(instances))
      ensures forall k :: 0 <= k < |instances| ==> !instances[k].stopped
      ensures removed == old(|instances|) - |instances|
    {
      LiveDistinct(instances);
      LiveElements(instances);
      hide Live;
      var kept := DeleteStopped(instances);
      removed := |instances| - |kept|;
      instances := kept;
    }

    /** Round robin over the instances, skipping the stopped ones. */
    method PickLowestLoadInstance() returns (picked: Option<PluginInstance>)
      requires Valid()
      modifies this`roundRobinIndex
      ensures Valid()
      ensures instances == [] ==> picked == None && roundRobinIndex == old(roundRobinIndex)
      ensures instances != [] ==>
        var (slot, counter) := Probe(old(roundRobinIndex), old(LiveFlags(instances)), 1);
        && roundRobinIndex == counter
        && picked.Some? == slot.Some?
        && (slot.Some? ==> slot.value < |instances| && picked.value == instances[slot.value])
    {
      hide Slot, Probe, Counter, Advance, At, DistinctIds, LiveFlags;
      if |instances| == 0 {
        return None;
      }
      ghost var b, live := roundRobinIndex, LiveFlags(instances);
      var n := |instances|;
      ProbesUsedUp(b, live);
      CounterAtStart(b);
      for i := 0 to n
        invariant instances == old(instances)
        invariant roundRobinIndex == Counter(b, i)
        invariant Probe(b, live, 1) == Probe(b, live, i + 1)
      {
        ProbeStep(b, live, i + 1);
        roundRobinIndex := Advance(roundRobinIndex);
        var instance := instances[At(roundRobinIndex, n)];
        if !instance.stopped {
          return Some(instance);
        }
      }
      return None;
    }

    /** The first heartbeat of a new instance. */
    method OnInstanceReady(instance: PluginInstance)
      requires Valid() && forall k :: 0 <= k < |instances| ==> instances[k].instanceId != instance.instanceId
      modifies this`instances
      ensures Valid() && instances == old(instances) + [instance]
      ensures Live(instances) == old(Live(instances)) + (if instance.stopped then [] else [instance])
    {
      instances := instances + [instance];
    }

    /**
     The reader of an instance ended, which stops the instance first: it alone leaves the list, and no live one
     is lost.
     */
    method OnInstanceShutdown(instance: PluginInstance)
      requires Valid() && instance.stopped
      requires forall k :: 0 <= k < |instances| && instances[k].instanceId == instance.instanceId ==> instances[k] == instance
      modifies this`instances
      ensures Valid() && instance !in instances
      ensures forall x :: x in old(instances) && x != instance ==> x in instances
      ensures Live(instances) == old(Live(instances))
    {
      if k :| 0 <= k < |instances| && instances[k].instanceId == instance.instanceId {
        LiveWithout(instances, k);
        instances := Without(instances, k);
      }
    }

    /**
     Stops what round robin picks, with no stopped instance in the list; both ways out of waiting for its
     sessions stop it.
     */
    method GracefullyStopLowestLoadInstance() returns (picked: Option<PluginInstance>)
      requires Valid() && forall k :: 0 <= k < |instances| ==> !instances[k].stopped
      modifies this`roundRobinIndex, instances
      ensures Valid() && instances == old(instances)
      ensures instances == [] ==> picked == None && Live(instances) == []
      ensures instances != [] ==>
        var slot := Slot(old(roundRobinIndex), 1, |instances|);
        Live(instances) == Without(instances, slot) && instances[slot].stopped
    {
      picked := PickLowestLoadInstance();
      if picked.Some? {
        ghost var slot := Slot(old(roundRobinIndex), 1, |instances|);
        assert picked.value == instances[slot];
        picked.value.Stop();
        LiveAllBut(instances, slot);
      }
    }

    /** What a turn does once stopped instances are gone: starts one, or stops the next in turn, or neither. */
    method Scale(started: Option<PluginInstance>)
      requires Valid() && forall k :: 0 <= k < |instances| ==> !instances[k].stopped
      requires started.Some? ==>
        && !started.value.stopped
        && forall k :: 0 <= k < |instances| ==> instances[k].instanceId != started.value.instanceId
      modifies this`instances, this`roundRobinIndex, instances
      ensures Valid()
      ensures Live(instances) == NextLive(old(instances), instanceNums, old(roundRobinIndex), started)
      ensures instances == old(instances)
        + (if started.Some? && |old(instances)| < instanceNums then [started.value] else [])
    {
      hide *;
      LiveOfLive(instances);
      NextLiveCases(instances, instanceNums, roundRobinIndex, started);
      var currentInstanceNums := |instances|;
      if currentInstanceNums < instanceNums {
        if started.Some? {
          OnInstanceReady(started.value);
        }
      } else if currentInstanceNums > instanceNums {
        var _ := GracefullyStopLowestLoadInstance();
      }
    }

    /**
     One turn of the scheduler; `started` is the instance that a start brings up in time, if it does. Stopped
     instances are gone after it, but for the one it stops itself, and at most one instance comes or goes.
     */
    method ScheduleOnce(started: Option<PluginInstance>)
      requires Valid()
      requires started.Some? ==>
        && !started.value.stopped
        && forall k :: 0 <= k < |instances| ==> instances[k].instanceId != started.value.instanceId
      modifies this`instances, this`roundRobinIndex, instances
      ensures Valid()
      ensures Live(instances) == NextLive(old(Live(instances)), instanceNums, old(roundRobinIndex), started)
      ensures instances == old(Live(instances))
        + (if started.Some? && |old(Live(instances))| < instanceNums then [started.value] else [])
      ensures forall k :: 0 <= k < |instances| ==> instances[k] in old(instances) || started == Some(instances[k])
    {
      LiveElements(instances);
      hide Live, NextLive;
      var _ := PruneStoppedInstances();
      Scale(started);
    }

    /** A turn of the loop; the instances that are started later stay startable. */
    method ScheduleTurn(starts: seq<Option<PluginInstance>>, i: nat, ghost had: seq<PluginInstance>)
      requires Valid() && i < |starts|
      requires FreshIds(starts, i, instances) && NotStopped(starts, i) && Among(instances, had, starts)
      modifies this`instances, this`roundRobinIndex, instances
      ensures Valid()
      ensures FreshIds(starts, i + 1, instances) && NotStopped(starts, i + 1) && Among(instances, had, starts)
      ensures Live(instances) == NextLive(old(Live(instances)), instanceNums, old(roundRobinIndex), starts[i])
    {
      hide NextLive, Live;
      ghost var before := instances;
      StartIsFresh(starts, i, instances);
      ScheduleOnce(starts[i]);
      FewerStarts(starts, i, before, instances, had);
    }

    /**
     The scheduling loop, as often as it turns: starts[i] is the instance that a start in turn i brings up. It ends
     with as many live instances as that many turns make of those it began with.
     */
    method ScheduleLoop(starts: seq<Option<PluginInstance>>) returns (ghost turns: seq<Turn<PluginInstance>>)
      requires Valid() && FreshIds(starts, 0, instances) && NotStopped(starts, 0)
      modifies this`instances, this`roundRobinIndex, instances, Started(starts)
      ensures Valid()
      ensures |turns| == |starts| && forall k :: 0 <= k < |turns| ==> turns[k].started == starts[k]
      ensures Live(instances) == AfterTurns(old(Live(instances)), instanceNums, turns)
      ensures var had := |old(Live(instances))|;
              Distance(|Live(instances)|, instanceNums)
              == Reduced(Distance(had, instanceNums), if had < Goal(instanceNums) then Starts(turns) else |starts|)
    {
      ghost var had, live, target := instances, Live(instances), instanceNums;
      turns := [];
      assert AfterTurns(live, target, turns) == live;
      EmptyAmong(instances, starts);
      hide *;
      for i := 0 to |starts|
        invariant Valid() && instanceNums == target
        invariant Among(instances, had, starts)
        invariant FreshIds(starts, i, instances) && NotStopped(starts, i)
        invariant |turns| == i && forall k :: 0 <= k < i ==> turns[k].started == starts[k]
        invariant Live(instances) == AfterTurns(live, target, turns)
      {
        ghost var turn := Turn(roundRobinIndex, starts[i]);
        AmongAll(instances, had, starts);
        ScheduleTurn(starts, i, had);
        TurnMore(live, target, turns, turn);
        turns := turns + [turn];
      }
      Converges(live, target, turns);
    }

    /** Stops the first instance that is left until none is: the list ends empty and everything in it was stopped. */
    method ForcefullyShutdownAllInstances()
      requires Valid()
      modifies this`instances, instances
      ensures Valid() && instances == []
      ensures forall k :: 0 <= k < |old(instances)| ==> old(instances)[k].stopped
    {
      ghost var before := instances;
      hide Live;
      while true
        invariant Valid()
        invariant forall k :: 0 <= k < |instances| ==> instances[k] in before
        invariant forall k :: 0 <= k < |before| ==> before[k].stopped || before[k] in instances
        decreases |Live(instances)|
      {
        var more := StopFirst();
        if !more {
          break;
        }
      }
    }

    /** One turn of a forceful shutdown: the first instance that is left is stopped. */
    method StopFirst() returns (more: bool)
      requires Valid()
      modifies this`instances, instances
      ensures Valid()
      ensures if more then |Live(instances)| < |old(Live(instances))| else instances == []
      ensures forall k :: 0 <= k < |instances| ==> instances[k] in old(instances)
      ensures forall k :: 0 <= k < |old(instances)| ==> old(instances)[k].stopped || old(instances)[k] in instances
    {
      LiveElements(instances);
      LiveKeeps(instances);
      hide Live;
      var _ := PruneStoppedInstances();
      if |instances| == 0 {
        return false;
      }
      instances[0].Stop();
      LiveAllBut(instances, 0);
      return true;
    }
  }

  // ------------------------------------------------------------- runs of the scheduler

  /** A turn as the scheduler meets it: where the counter stands, and whether a start succeeds. */
  datatype Turn<I> = Turn(counter: nat, started: Option<I>)

  /**
   The live instances after the turns. Between turns the counter may be moved by picks and stopped instances may
   be taken off the list; neither changes which instances are live.
   */
  function AfterTurns<I>(live: seq<I>, target: int, turns: seq<Turn<I>>): seq<I> {
    if turns == [] then live
    else
      var last := turns[|turns| - 1];
      NextLive(AfterTurns(live, target, turns[..|turns| - 1]), target, last.counter, last.started)
  }

  lemma TurnMore<I>(live: seq<I>, target: int, turns: seq<Turn<I>>, turn: Turn<I>)
    ensures AfterTurns(live, target, turns + [turn])
         == NextLive(AfterTurns(live, target, turns), target, turn.counter, turn.started)
  {
    assert (turns + [turn])[..|turns|] == turns;
  }

  function Starts<I>(turns: seq<Turn<I>>): nat {
    if turns == [] then 0
    else Starts(turns[..|turns| - 1]) + (if turns[|turns| - 1].started.Some? then 1 else 0)
  }

  /** How many instances the scheduler can settle at: a target below zero acts as zero. */
  function Goal(target: int): nat {
    if target < 0 then 0 else target
  }

  function Distance(live: nat, target: int): nat {
    if live < Goal(target) then Goal(target) - live else live - Goal(target)
  }

  function Reduced(distance: nat, steps: nat): nat {
    if steps < distance then distance - steps else 0
  }

  /**
   With a fixed target the distance to it drops by one each turn, or each successful start when instances are
   missing, until it is zero, and stays there. Scaling up keeps every live instance.
   */
  lemma {:induction false} Converges<I>(live: seq<I>, target: int, turns: seq<Turn<I>>)
    ensures var after := AfterTurns(live, target, turns);
            && Distance(|after|, target)
               == Reduced(Distance(|live|, target), if |live| < Goal(target) then Starts(turns) else |turns|)
            && (|live| <= Goal(target) ==> live <= after && |after| <= Goal(target))
            && (|live| >= Goal(target) ==> |after| >= Goal(target))
  {
    if turns != [] {
      Converges(live, target, turns[..|turns| - 1]);
    }
  }

  /** Where every start succeeds, exactly as many turns as the distance are needed. */
  lemma SettlesInTime<I>(live: seq<I>, target: int, turns: seq<Turn<I>>)
    requires forall k :: 0 <= k < |turns| ==> turns[k].started.Some?
    ensures |AfterTurns(live, target, turns)| == Goal(target) <==> |turns| >= Distance(|live|, target)
  {
    Converges(live, target, turns);
    AllStart(turns);
  }

  lemma {:induction false} AllStart<I>(turns: seq<Turn<I>>)
    requires forall k :: 0 <= k < |turns| ==> turns[k].started.Some?
    ensures Starts(turns) == |turns|
  {
    if turns != [] {
      AllStart(turns[..|turns| - 1]);
    }
  }
}
