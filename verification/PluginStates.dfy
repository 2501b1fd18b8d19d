/**
 Plugin states shared by the cluster: how nodes refresh them, and how stale ones are
 collected (internal/cluster/plugin.go, internal/cluster/node.go). Times are in
 milliseconds; the clock readings inside one operation are taken to be equal.
 The hash of an identity (SHA-256 in hex) is a parameter.
 */
module PluginStates {
  import opened Wrappers
  import opened Splitting

  const PLUGIN_SCHEDULER_TICKER_INTERVAL := 3000
  const PLUGIN_SCHEDULER_INTERVAL := 10000
  const PLUGIN_DEACTIVATED_TIMEOUT := 30000
  const NODE_DISCONNECTED_TIMEOUT := 10000
  const UPDATE_NODE_STATUS_INTERVAL := 5000

  type NodeId = string
  type Identity = string

  datatype PluginState = PluginState(identity: Identity, scheduledAt: Option<int>)

  type States = map<string, PluginState>

  // ------------------------------------------------------------- keys

  function StateKey(node: NodeId, hashed: string): string {
    node + ":" + hashed
  }

  function SplitNodePluginJoin(key: string): Result<(string, string), ()> {
    var split := SplitOn(key, ':');
    if |split| != 2 then Err(()) else Ok((split[0], split[1]))
  }

  /** A joined key splits into its parts exactly when neither part holds a colon. */
  lemma KeyRoundTrip(node: NodeId, hashed: string)
    ensures SplitNodePluginJoin(StateKey(node, hashed)) == Ok((node, hashed)) <==> ':' !in node && ':' !in hashed
  {
    if ':' !in node && ':' !in hashed {
      SplitAtSeparator(node, ':', hashed);
      SplitFree(hashed, ':');
    }
    PiecesAreFree(StateKey(node, hashed), ':');
  }

  lemma SplitKeyJoins(key: string)
    requires SplitNodePluginJoin(key).Ok?
    ensures var (node, hashed) := SplitNodePluginJoin(key).value;
            key == StateKey(node, hashed) && ':' !in node && ':' !in hashed
  {
    var split := SplitOn(key, ':');
    JoinAfterSplit(key, ':');
    PiecesAreFree(key, ':');
    assert split[0] in split && split[1] in split;
    assert JoinWith(split[1..], ':') == split[1];
  }

  lemma KeysDiffer(n1: NodeId, h1: string, n2: NodeId, h2: string)
    requires ':' !in n1 && ':' !in h1 && ':' !in n2 && ':' !in h2
    requires StateKey(n1, h1) == StateKey(n2, h2)
    ensures n1 == n2 && h1 == h2
  {
    KeyRoundTrip(n1, h1);
    KeyRoundTrip(n2, h2);
  }

  /** Every key is a node id joined with the hash of the identity stored under it. */
  ghost predicate WellKeyed(states: States, hash: Identity -> string) {
    forall k :: k in states ==> KeyedBy(k, states[k], hash)
  }

  ghost predicate KeyedBy(key: string, state: PluginState, hash: Identity -> string) {
    var parts := SplitNodePluginJoin(key);
    parts.Ok? && parts.value.1 == hash(state.identity)
  }

  ghost predicate HexHash(hash: Identity -> string) {
    && (forall p: Identity :: ':' !in hash(p))
    && (forall p: Identity, q: Identity :: hash(p) == hash(q) ==> p == q)
  }

  // ------------------------------------------------------------- freshness

  predicate IsPluginActive(state: PluginState, now: int) {
    state.scheduledAt.Some? && now - state.scheduledAt.value <= PLUGIN_DEACTIVATED_TIMEOUT
  }

  /** The stricter test used when nodes are looked up: half the collector's timeout. */
  predicate IsPluginStateValid(state: PluginState, now: int) {
    state.scheduledAt.Some? && now - state.scheduledAt.value <= PLUGIN_DEACTIVATED_TIMEOUT / 2
  }

  /** A node's last ping is kept in whole seconds. */
  predicate IsNodeAvailable(lastPingAt: int, now: int) {
    now - lastPingAt * 1000 < NODE_DISCONNECTED_TIMEOUT
  }

  /**
   The three age tests: a state that was never scheduled fails both of the tests for states; else it is active for 30 s and
   valid for lookups for 15 s; a node is available for 10 s after the whole second of its last ping.
   */
  lemma AgesExactly(state: PluginState, lastPingAt: int, now: int)
    ensures IsPluginActive(state, now) <==> state.scheduledAt != None && now <= state.scheduledAt.value + 30000
    ensures IsPluginStateValid(state, now) <==> state.scheduledAt != None && now <= state.scheduledAt.value + 15000
    ensures IsNodeAvailable(lastPingAt, now) <==> now < 1000 * (lastPingAt + 10)
  {
  }

  predicate OfNode(key: string, node: NodeId) {
    |key| > |node| && key[..|node| + 1] == node + ":"
  }

  predicate OfPlugin(key: string, hashed: string) {
    |key| > |hashed| && key[|key| - |hashed| - 1..] == ":" + hashed
  }

  // What each collector leaves behind, when it gets to remove these keys.

  function AfterAutoGC(states: States, now: int, gone: set<string>): States {
    map k | k in states && !(k in gone && !IsPluginActive(states[k], now)) :: states[k]
  }

  function AfterLookup(states: States, hashed: string, now: int, gone: set<string>): States {
    map k | k in states
            && !(k in gone && OfPlugin(k, hashed) && !IsPluginStateValid(states[k], now) && SplitNodePluginJoin(k).Ok?)
      :: states[k]
  }

  function AfterNodeGC(states: States, node: NodeId, gone: set<string>): States {
    map k | k in states && !(k in gone && OfNode(k, node)) :: states[k]
  }

  lemma OwnKeyOnly(key: string, state: PluginState, hash: Identity -> string)
    requires KeyedBy(key, state, hash)
    ensures StateKey(SplitNodePluginJoin(key).value.0, hash(state.identity)) == key
  {
    SplitKeyJoins(key);
  }

  lemma OfNodeIsItsNode(key: string, node: NodeId)
    requires SplitNodePluginJoin(key).Ok? && ':' !in node
    ensures OfNode(key, node) <==> SplitNodePluginJoin(key).value.0 == node
  {
    SplitKeyJoins(key);
    var owner := SplitNodePluginJoin(key).value.0;
    if OfNode(key, node) {
      assert forall i :: 0 <= i < |owner| ==> key[i] == owner[i] && owner[i] in owner;
      assert forall i :: 0 <= i < |node| ==> key[i] == key[..|node| + 1][i] == node[i] && node[i] in node;
      assert key[|owner|] == ':' && key[..|node| + 1][|node|] == ':';
      assert |owner| == |node|;
    }
  }

  lemma NodeKey(key: string, state: PluginState, node: NodeId, hash: Identity -> string)
    requires KeyedBy(key, state, hash) && OfNode(key, node) && ':' !in node
    ensures StateKey(node, hash(state.identity)) == key
  {
    OwnKeyOnly(key, state, hash);
    OfNodeIsItsNode(key, node);
  }

  // ------------------------------------------------------------- the cluster cache and one node

  class Cache {
    var states: States
    var status: map<NodeId, int>

    constructor ()
      ensures states == map[] && status == map[]
    {
      states, status := map[], map[];
    }

    /** Deletes one field of the plugin state map; a failed call changes nothing. */
    method DelState(key: string, fails: bool) returns (ok: bool)
      modifies this`states
      ensures ok == !fails
      ensures states == if fails then old(states) else old(states) - {key}
    {
      if !fails {
        states := states - {key};
      }
      return !fails;
    }
  }

  predicate Due(lastScheduledAt: Option<int>, now: int) {
    lastScheduledAt == None || now - lastScheduledAt.value >= PLUGIN_SCHEDULER_INTERVAL
  }

  type Plugins = map<Identity, Option<int>>

  // What one call makes of the states and of the memory of the node that makes it.

  function AfterUpdate(states: States, plugins: Plugins, id: NodeId, hash: Identity -> string, p: Identity, now: int,
                       fails: bool): (States, Plugins) {
    if fails then (states, plugins)
    else if p in plugins then (states[StateKey(id, hash(p)) := PluginState(p, Some(now))], plugins[p := Some(now)])
    else (states - {StateKey(id, hash(p))}, plugins)
  }

  function AfterRegister(states: States, plugins: Plugins, id: NodeId, hash: Identity -> string, p: Identity, now: int,
                         fails: bool): (States, Plugins) {
    AfterUpdate(states, if p in plugins then plugins else plugins[p := None], id, hash, p, now, fails)
  }

  function AfterUnregister(states: States, plugins: Plugins, id: NodeId, hash: Identity -> string, p: Identity,
                           fails: bool): (States, Plugins) {
    if fails then (states, plugins) else (states - {StateKey(id, hash(p))}, plugins - {p})
  }

  function AfterVisit(states: States, plugins: Plugins, id: NodeId, hash: Identity -> string, p: Identity, now: int,
                      fails: bool): (States, Plugins) {
    if p in plugins && Due(plugins[p], now) then AfterUpdate(states, plugins, id, hash, p, now, fails)
    else (states, plugins)
  }

  function AfterPing(status: map<NodeId, int>, id: NodeId, now: int): map<NodeId, int> {
    status[id := now / 1000]
  }

  /** One visit after the other. */
  function AfterVisits(states: States, plugins: Plugins, id: NodeId, hash: Identity -> string, order: seq<Identity>,
                       now: int, fails: Identity -> bool): (States, Plugins) {
    if order == [] then (states, plugins)
    else
      var (s, m) := AfterVisits(states, plugins, id, hash, order[..|order| - 1], now, fails);
      AfterVisit(s, m, id, hash, order[|order| - 1], now, fails(order[|order| - 1]))
  }

  lemma VisitMore(states: States, plugins: Plugins, id: NodeId, hash: Identity -> string, order: seq<Identity>,
                  p: Identity, now: int, fails: Identity -> bool)
    ensures AfterVisits(states, plugins, id, hash, order + [p], now, fails)
         == var (s, m) := AfterVisits(states, plugins, id, hash, order, now, fails);
            AfterVisit(s, m, id, hash, p, now, fails(p))
  {
    assert (order + [p])[..|order|] == order;
  }

  /** A node's own state of a plugin is stored and inactive. */
  predicate OwnInactive(states: States, id: NodeId, hash: Identity -> string, p: Identity, now: int) {
    var key := StateKey(id, hash(p));
    key in states && states[key].identity == p && !IsPluginActive(states[key], now)
  }

  /** A collector forgets a plugin of its own only for its own inactive state. */
  function AfterForgetting(states: States, plugins: Plugins, id: NodeId, hash: Identity -> string, now: int,
                           forgot: set<Identity>): Plugins {
    map p | p in plugins && !(p in forgot && OwnInactive(states, id, hash, p, now)) :: plugins[p]
  }

  /** Collecting a node makes that node alone forget plugins, those with a stored state. */
  function AfterNodeForgetting(states: States, plugins: Plugins, id: NodeId, hash: Identity -> string, node: NodeId,
                               forgot: set<Identity>): Plugins {
    map p | p in plugins && !(id == node && p in forgot && StateKey(id, hash(p)) in states) :: plugins[p]
  }

  /** Each of these plugins is visited once. */
  ghost predicate Visits(order: seq<Identity>, plugins: set<Identity>) {
    && (forall p :: p in plugins <==> p in order)
    && forall i, j :: 0 <= i < j < |order| ==> order[i] != order[j]
  }

  /** A tick refreshes a plugin that is due, unless the write fails. */
  predicate Refreshes(lastScheduledAt: Option<int>, now: int, fails: bool) {
    Due(lastScheduledAt, now) && !fails
  }

  /** The plugins of a node after a tick that has still to look at some. */
  function Rescheduled(was: Plugins, now: int, fails: Identity -> bool, todo: set<Identity>): Plugins {
    map p | p in was :: if p !in todo && Refreshes(was[p], now, fails(p)) then Some(now) else was[p]
  }

  /**
   The states after a tick that has still to look at some: those of the plugins it has refreshed are fresh, the
   rest as before.
   */
  ghost predicate RefreshedBut(was: Plugins, now: int, fails: Identity -> bool, todo: set<Identity>,
                               before: States, after: States, id: NodeId, hash: Identity -> string) {
    && (forall p :: p in was && p !in todo && Refreshes(was[p], now, fails(p)) ==>
          StateKey(id, hash(p)) in after && after[StateKey(id, hash(p))] == PluginState(p, Some(now)))
    && forall k :: (forall p :: p in was && p !in todo && Refreshes(was[p], now, fails(p)) ==> k != StateKey(id, hash(p))) ==>
          (k in after <==> k in before) && (k in after ==> after[k] == before[k])
  }

  lemma RefreshNone(was: Plugins, now: int, fails: Identity -> bool, before: States, id: NodeId, hash: Identity -> string)
    ensures Rescheduled(was, now, fails, was.Keys) == was
    ensures RefreshedBut(was, now, fails, was.Keys, before, before, id, hash)
  {
  }

  lemma RescheduleOne(was: Plugins, now: int, fails: Identity -> bool, todo: set<Identity>, p: Identity)
    requires p in todo && p in was
    ensures var seen := Rescheduled(was, now, fails, todo);
            && p in seen && seen[p] == was[p]
            && Rescheduled(was, now, fails, todo - {p})
               == (if Refreshes(was[p], now, fails(p)) then seen[p := Some(now)] else seen)
  {
  }

  lemma NotRefreshed(was: Plugins, now: int, fails: Identity -> bool, todo: set<Identity>, p: Identity,
                     before: States, after: States, id: NodeId, hash: Identity -> string)
    requires p in todo && p in was && !Refreshes(was[p], now, fails(p))
    requires RefreshedBut(was, now, fails, todo, before, after, id, hash)
    ensures RefreshedBut(was, now, fails, todo - {p}, before, after, id, hash)
  {
  }

  lemma RefreshOne(was: Plugins, now: int, fails: Identity -> bool, todo: set<Identity>, p: Identity,
                   before: States, after: States, id: NodeId, hash: Identity -> string)
    requires HexHash(hash) && ':' !in id && p in todo && p in was && Refreshes(was[p], now, fails(p))
    requires RefreshedBut(was, now, fails, todo, before, after, id, hash)
    ensures RefreshedBut(was, now, fails, todo - {p}, before, after[StateKey(id, hash(p)) := PluginState(p, Some(now))], id, hash)
  {
    hide Refreshes;
    var key := StateKey(id, hash(p));
    var t := after[key := PluginState(p, Some(now))];
    forall q | q in was && StateKey(id, hash(q)) == key ensures q == p {
      KeysDiffer(id, hash(q), id, hash(p));
    }
    forall q | q in was && q !in todo - {p} && Refreshes(was[q], now, fails(q))
      ensures StateKey(id, hash(q)) in t && t[StateKey(id, hash(q))] == PluginState(q, Some(now))
    {
    }
    forall k | forall q :: q in was && q !in todo - {p} && Refreshes(was[q], now, fails(q)) ==> k != StateKey(id, hash(q))
      ensures (k in t <==> k in before) && (k in t ==> t[k] == before[k])
    {
      assert k != key;
      assert forall q :: q in was && q !in todo && Refreshes(was[q], now, fails(q)) ==> k != StateKey(id, hash(q));
    }
  }

  predicate Collectable(states: States, now: int, k: string) {
    k in states && !IsPluginActive(states[k], now)
  }

  // A collection that has still to look at some keys: what it looked at and found inactive is gone and forgotten.

  ghost predicate Cleared(states: States, now: int, todo: set<string>, gone: set<string>, fails: string -> bool,
                          failsAgain: string -> bool) {
    forall k :: k !in todo && Collectable(states, now, k) ==> k in gone && !fails(k) && !failsAgain(k)
  }

  ghost predicate Disowned(states: States, now: int, id: NodeId, hash: Identity -> string, todo: set<string>,
                           forgot: set<Identity>) {
    forall p :: OwnInactive(states, id, hash, p, now) && StateKey(id, hash(p)) !in todo ==> p in forgot
  }

  /** No call for an inactive state fails. */
  ghost predicate NoCollectionFails(states: States, now: int, fails: string -> bool, failsAgain: string -> bool) {
    forall k :: Collectable(states, now, k) ==> !fails(k) && !failsAgain(k)
  }

  lemma CollectNothing(states: States, plugins: Plugins, id: NodeId, hash: Identity -> string, now: int,
                       fails: string -> bool, failsAgain: string -> bool)
    ensures AfterAutoGC(states, now, {}) == states && AfterForgetting(states, plugins, id, hash, now, {}) == plugins
    ensures Cleared(states, now, states.Keys, {}, fails, failsAgain) && Disowned(states, now, id, hash, states.Keys, {})
  {
  }

  lemma Untouched(states: States, now: int, gone: set<string>, key: string)
    requires key in states && key !in gone
    ensures key in AfterAutoGC(states, now, gone) && AfterAutoGC(states, now, gone)[key] == states[key]
  {
  }

  /** Whatever keys a collection is set on, no state of the last 30 s is among those it takes. */
  lemma RecentStay(states: States, now: int, gone: set<string>)
    ensures forall k :: k in states && states[k].scheduledAt.Some? && now - states[k].scheduledAt.value <= 30000 ==>
      k in AfterAutoGC(states, now, gone) && AfterAutoGC(states, now, gone)[k] == states[k]
  {
  }

  lemma ActiveStays(states: States, now: int, todo: set<string>, gone: set<string>, fails: string -> bool,
                    failsAgain: string -> bool, id: NodeId, hash: Identity -> string, forgot: set<Identity>, key: string)
    requires key in states && IsPluginActive(states[key], now)
    requires Cleared(states, now, todo, gone, fails, failsAgain) && Disowned(states, now, id, hash, todo, forgot)
    ensures Cleared(states, now, todo - {key}, gone, fails, failsAgain)
    ensures Disowned(states, now, id, hash, todo - {key}, forgot)
  {
  }

  lemma ClearedOne(states: States, now: int, todo: set<string>, gone: set<string>, fails: string -> bool,
                   failsAgain: string -> bool, key: string)
    requires Cleared(states, now, todo, gone, fails, failsAgain) && !fails(key) && !failsAgain(key)
    ensures Cleared(states, now, todo - {key}, gone + {key}, fails, failsAgain)
  {
  }

  lemma NotAll(states: States, now: int, key: string, fails: string -> bool, failsAgain: string -> bool)
    requires Collectable(states, now, key) && (fails(key) || failsAgain(key))
    ensures !NoCollectionFails(states, now, fails, failsAgain)
  {
  }

  lemma AllCollected(states: States, plugins: Plugins, now: int, id: NodeId, hash: Identity -> string, gone: set<string>,
                     forgot: set<Identity>, fails: string -> bool, failsAgain: string -> bool)
    requires Cleared(states, now, {}, gone, fails, failsAgain) && Disowned(states, now, id, hash, {}, forgot)
    ensures NoCollectionFails(states, now, fails, failsAgain)
    ensures forall k :: k in AfterAutoGC(states, now, gone) ==>
      var state := AfterAutoGC(states, now, gone)[k]; state.scheduledAt.Some? && now - state.scheduledAt.value <= 30000
    ensures forall p :: p in AfterForgetting(states, plugins, id, hash, now, forgot) ==> !OwnInactive(states, id, hash, p, now)
  {
  }

  /** A stored key of a node's own splits into that node and the hash. */
  lemma OwnKeySplits(key: string, id: NodeId, hash: Identity -> string)
    requires SplitNodePluginJoin(key).Ok?
    ensures forall p :: StateKey(id, hash(p)) == key ==> SplitNodePluginJoin(key) == Ok((id, hash(p)))
  {
    SplitKeyJoins(key);
    forall p | StateKey(id, hash(p)) == key ensures SplitNodePluginJoin(key) == Ok((id, hash(p))) {
      OwnKeyIsPlain(id, hash(p));
    }
  }

  lemma OwnKeyIsPlain(node: NodeId, hashed: string)
    requires SplitNodePluginJoin(StateKey(node, hashed)).Ok?
    ensures SplitNodePluginJoin(StateKey(node, hashed)) == Ok((node, hashed))
  {
    var key := StateKey(node, hashed);
    SplitKeyJoins(key);
    var (n, h) := SplitNodePluginJoin(key).value;
    // the only colon of the key is the one both joins put there
    assert key[|node|] == ':';
    assert forall i :: 0 <= i < |n| ==> key[i] == n[i] && n[i] in n;
    assert forall i :: |n| < i < |key| ==> key[i] == h[i - |n| - 1] && h[i - |n| - 1] in h;
    assert |node| == |n|;
    assert node == key[..|node|] && n == key[..|n|];
    assert hashed == key[|node| + 1..] && h == key[|n| + 1..];
  }

  /** Collecting one inactive state: what its two deletions remove, and whose plugin it is. */
  lemma CollectOne(states: States, plugins: Plugins, now: int, id: NodeId, hash: Identity -> string, todo: set<string>,
                   gone: set<string>, forgot: set<Identity>, key: string)
    requires WellKeyed(states, hash) && key in states && !IsPluginActive(states[key], now)
    requires Disowned(states, now, id, hash, todo, forgot)
    ensures SplitNodePluginJoin(key).Ok?
    ensures StateKey(SplitNodePluginJoin(key).value.0, hash(states[key].identity)) == key
    ensures AfterAutoGC(states, now, gone + {key}) == AfterAutoGC(states, now, gone) - {key}
    ensures var p := states[key].identity;
            if SplitNodePluginJoin(key).value.0 == id then
              && AfterForgetting(states, plugins, id, hash, now, forgot + {p})
                 == AfterForgetting(states, plugins, id, hash, now, forgot) - {p}
              && Disowned(states, now, id, hash, todo - {key}, forgot + {p})
            else Disowned(states, now, id, hash, todo - {key}, forgot)
  {
    assert KeyedBy(key, states[key], hash);
    OwnKeyOnly(key, states[key], hash);
    OwnKeySplits(key, id, hash);
    var p := states[key].identity;
    if SplitNodePluginJoin(key).value.0 == id {
      ForgetOne(states, plugins, id, hash, now, forgot, p);
    }
  }

  lemma VisitsMore(order: seq<Identity>, plugins: set<Identity>, todo: set<Identity>, p: Identity)
    requires todo <= plugins && p in todo && Visits(order, plugins - todo)
    ensures Visits(order + [p], plugins - (todo - {p}))
  {
    assert forall i :: 0 <= i < |order| ==> order[i] in order;
  }

  /** The visit of one more plugin: what it writes is one more refreshed state, if it writes any. */
  lemma SeenOne(was: Plugins, now: int, fails: Identity -> bool, todo: set<Identity>, p: Identity,
                before: States, after: States, id: NodeId, hash: Identity -> string)
    requires HexHash(hash) && ':' !in id && p in todo && p in was
    requires RefreshedBut(was, now, fails, todo, before, after, id, hash)
    ensures var plugins := Rescheduled(was, now, fails, todo);
            var (s, m) := AfterVisit(after, plugins, id, hash, p, now, fails(p));
            && p in plugins && m == Rescheduled(was, now, fails, todo - {p})
            && RefreshedBut(was, now, fails, todo - {p}, before, s, id, hash)
  {
    RescheduleOne(was, now, fails, todo, p);
    if Refreshes(was[p], now, fails(p)) {
      RefreshOne(was, now, fails, todo, p, before, after, id, hash);
    } else {
      NotRefreshed(was, now, fails, todo, p, before, after, id, hash);
    }
    hide Rescheduled, RefreshedBut, HexHash, StateKey;
  }

  /** Forgetting one more plugin; nothing happens unless the node has it. */
  lemma ForgetOne(states: States, plugins: Plugins, id: NodeId, hash: Identity -> string, now: int,
                  forgot: set<Identity>, p: Identity)
    requires OwnInactive(states, id, hash, p, now)
    ensures AfterForgetting(states, plugins, id, hash, now, forgot + {p})
         == AfterForgetting(states, plugins, id, hash, now, forgot) - {p}
  {
  }

  lemma CollectNodeKey(states: States, node: NodeId, gone: set<string>, key: string)
    requires key in states && OfNode(key, node)
    ensures AfterNodeGC(states, node, gone + {key}) == AfterNodeGC(states, node, gone) - {key}
  {
  }

  predicate OwnState(states: States, id: NodeId, hash: Identity -> string, p: Identity) {
    StateKey(id, hash(p)) in states && states[StateKey(id, hash(p))].identity == p
  }

  lemma OwnStatesAreOfNode(states: States, id: NodeId, hash: Identity -> string)
    ensures forall p :: OwnState(states, id, hash, p) ==> OfNode(StateKey(id, hash(p)), id)
  {
    forall p | OwnState(states, id, hash, p) ensures OfNode(StateKey(id, hash(p)), id) {
      assert StateKey(id, hash(p))[..|id| + 1] == id + ":";
    }
  }

  /** No deletion of a node's states fails. */
  ghost predicate NodeGone(states: States, node: NodeId, stateFails: string -> bool) {
    forall k :: k in states && OfNode(k, node) ==> !stateFails(k)
  }

  /** Which calls of a pass over the nodes fail. */
  datatype NodeFaults = NodeFaults(state: string -> bool, lock: NodeId -> bool, del: NodeId -> bool)

  ghost predicate NoNodeCallFails(states: States, n: NodeId, faults: NodeFaults) {
    NodeGone(states, n, faults.state) && !faults.lock(n) && !faults.del(n)
  }

  /** A disconnected node none of whose calls fail. */
  ghost predicate Collected(states: States, status: map<NodeId, int>, now: int, n: NodeId, faults: NodeFaults) {
    n in status && !IsNodeAvailable(status[n], now) && NoNodeCallFails(states, n, faults)
  }

  /** The status map after a pass that has still to look at some nodes. */
  ghost function StatusBut(states: States, status: map<NodeId, int>, now: int, faults: NodeFaults, todo: set<NodeId>)
    : map<NodeId, int>
  {
    map n | n in status && (n in todo || !Collected(states, status, now, n, faults)) :: status[n]
  }

  /** What is left of the states: all but some of disconnected nodes. */
  ghost predicate Remaining(before: States, after: States, status: map<NodeId, int>, now: int) {
    && (forall k :: k in after ==> k in before && after[k] == before[k])
    && forall k :: k in before && k !in after ==>
         exists n :: n in status && !IsNodeAvailable(status[n], now) && OfNode(k, n)
  }

  ghost predicate Emptied(states: States, node: NodeId) {
    forall k :: k in states ==> !OfNode(k, node)
  }

  /** Nothing of these nodes was removed. */
  ghost predicate Intact(before: States, after: States, nodes: set<NodeId>) {
    forall n, k :: n in nodes && k in before && OfNode(k, n) ==> k in after
  }

  lemma IntactNode(before: States, after: States, node: NodeId, stateFails: string -> bool)
    requires (forall k :: k in after ==> k in before) && forall k :: k in before && OfNode(k, node) ==> k in after
    ensures NodeGone(after, node, stateFails) <==> NodeGone(before, node, stateFails)
  {
  }

  lemma OneNode(key: string, n: NodeId, m: NodeId)
    requires OfNode(key, n) && OfNode(key, m) && ':' !in n && ':' !in m
    ensures n == m
  {
    assert forall i :: 0 <= i < |n| ==> key[i] == key[..|n| + 1][i] == n[i] && n[i] in n;
    assert forall i :: 0 <= i < |m| ==> key[i] == key[..|m| + 1][i] == m[i] && m[i] in m;
    assert key[|n|] == key[..|n| + 1][|n|] == ':' && key[|m|] == key[..|m| + 1][|m|] == ':';
    assert n == key[..|n|] && m == key[..|m|];
  }

  lemma CollectKeeps(start: States, states: States, status: map<NodeId, int>, now: int, node: NodeId, gone: set<string>,
                     todo: set<NodeId>, hash: Identity -> string)
    requires node in status && !IsNodeAvailable(status[node], now) && ':' !in node && node !in todo
    requires forall n :: n in todo ==> ':' !in n
    requires WellKeyed(states, hash) && Remaining(start, states, status, now) && Intact(start, states, todo)
    ensures var after := AfterNodeGC(states, node, gone);
            WellKeyed(after, hash) && Remaining(start, after, status, now) && Intact(start, after, todo)
  {
    var after := AfterNodeGC(states, node, gone);
    forall n, k | n in todo && k in start && OfNode(k, n) ensures k in after {
      if OfNode(k, node) {
        OneNode(k, n, node);
      }
    }
    forall k | k in start && k !in after
      ensures exists n :: n in status && !IsNodeAvailable(status[n], now) && OfNode(k, n)
    {
      if k in states {
        assert OfNode(k, node);
      }
    }
  }

  /** A pass over the nodes that has still to look at some: ok says whether all it collected went through. */
  ghost predicate Passed(start: States, before: map<NodeId, int>, now: int, faults: NodeFaults, hash: Identity -> string,
                         todo: set<NodeId>, states: States, status: map<NodeId, int>, ok: bool) {
    && WellKeyed(states, hash) && Remaining(start, states, before, now) && Intact(start, states, todo)
    && status == StatusBut(start, before, now, faults, todo)
    && (ok <==> forall n :: n in before && n !in todo && !IsNodeAvailable(before[n], now) ==> NoNodeCallFails(start, n, faults))
    && forall n :: n !in todo && Collected(start, before, now, n, faults) ==> Emptied(states, n)
  }

  lemma PassSkips(start: States, before: map<NodeId, int>, now: int, faults: NodeFaults, hash: Identity -> string,
                  todo: set<NodeId>, states: States, status: map<NodeId, int>, ok: bool, n: NodeId)
    requires Passed(start, before, now, faults, hash, todo, states, status, ok)
    requires n in todo && n in before && IsNodeAvailable(before[n], now)
    ensures Passed(start, before, now, faults, hash, todo - {n}, states, status, ok)
  {
    hide NoNodeCallFails, Emptied, WellKeyed, Remaining;
  }

  lemma PassCollects(start: States, before: map<NodeId, int>, now: int, faults: NodeFaults, hash: Identity -> string,
                     todo: set<NodeId>, states: States, status: map<NodeId, int>, ok: bool, n: NodeId,
                     gone: set<string>, collected: bool)
    requires Passed(start, before, now, faults, hash, todo, states, status, ok)
    requires n in todo && n in before && !IsNodeAvailable(before[n], now)
    requires (forall m :: m in before ==> ':' !in m) && todo <= before.Keys
    requires collected <==> NoNodeCallFails(states, n, faults)
    requires collected ==> Emptied(AfterNodeGC(states, n, gone), n)
    ensures Passed(start, before, now, faults, hash, todo - {n}, AfterNodeGC(states, n, gone),
                   if collected then status - {n} else status, ok && collected)
  {
    IntactNode(start, states, n, faults.state);
    assert collected <==> NoNodeCallFails(start, n, faults);
    assert Intact(start, states, todo - {n});
    CollectKeeps(start, states, before, now, n, gone, todo - {n}, hash);
    var after := AfterNodeGC(states, n, gone);
    forall m | m !in todo - {n} && Collected(start, before, now, m, faults) ensures Emptied(after, m) {
    }
    hide NoNodeCallFails, Emptied, WellKeyed, Remaining, Intact;
    assert (if collected then status - {n} else status) == StatusBut(start, before, now, faults, todo - {n});
  }

  ghost predicate FewerPlugins(after: Plugins, before: Plugins) {
    after.Keys <= before.Keys && forall p :: p in after ==> after[p] == before[p]
  }

  lemma NoFewer(plugins: Plugins)
    ensures FewerPlugins(plugins, plugins)
  {
  }

  lemma ForgettingKeeps(states: States, plugins: Plugins, before: Plugins, id: NodeId, hash: Identity -> string,
                        node: NodeId, forgot: set<Identity>)
    requires FewerPlugins(plugins, before)
    ensures FewerPlugins(AfterNodeForgetting(states, plugins, id, hash, node, forgot), before)
    ensures id != node ==> AfterNodeForgetting(states, plugins, id, hash, node, forgot) == plugins
  {
  }

  lemma EmptiedNode(states: States, n: NodeId, collected: bool)
    requires collected ==> forall k :: k in states ==> !OfNode(k, n)
    ensures collected ==> Emptied(states, n)
  {
  }

  lemma StillPassed(start: States, before: map<NodeId, int>, now: int, faults: NodeFaults, hash: Identity -> string,
                    todo: set<NodeId>, states: States, status: map<NodeId, int>, ok: bool)
    requires Passed(start, before, now, faults, hash, todo, states, status, ok)
    ensures WellKeyed(states, hash)
  {
  }

  lemma PassEnds(start: States, before: map<NodeId, int>, now: int, faults: NodeFaults, hash: Identity -> string,
                 states: States, status: map<NodeId, int>, ok: bool)
    requires Passed(start, before, now, faults, hash, {}, states, status, ok)
    ensures status == map n | n in before && !Collected(start, before, now, n, faults) :: before[n]
    ensures ok <==> forall n :: n in status ==> IsNodeAvailable(status[n], now)
    ensures forall n :: Collected(start, before, now, n, faults) ==> Emptied(states, n)
    ensures Remaining(start, states, before, now)
  {
    hide NoNodeCallFails, Emptied, WellKeyed, Remaining, Intact;
    forall n | n in before && !IsNodeAvailable(before[n], now) ensures n in status <==> !NoNodeCallFails(start, n, faults) {
    }
  }

  /** A node's last ping tells whether it is available. */
  lemma PingAges(status: map<NodeId, int>, now: int)
    ensures forall n :: n in status ==> (IsNodeAvailable(status[n], now) <==> now - status[n] * 1000 < 10000)
  {
  }

  lemma NodeForgetOne(states: States, plugins: Plugins, id: NodeId, hash: Identity -> string, forgot: set<Identity>,
                      p: Identity)
    requires StateKey(id, hash(p)) in states
    ensures AfterNodeForgetting(states, plugins, id, hash, id, forgot + {p})
         == AfterNodeForgetting(states, plugins, id, hash, id, forgot) - {p}
  {
  }

  class Node {
    const id: NodeId
    const hash: Identity -> string
    /** When each registered plugin was last scheduled; None until its state is first written. */
    var plugins: map<Identity, Option<int>>
    var nodes: set<NodeId>

    constructor (id: NodeId, hash: Identity -> string)
      ensures this.id == id && this.hash == hash && plugins == map[] && nodes == {}
    {
      this.id, this.hash := id, hash;
      plugins, nodes := map[], {};
    }

    method RemovePluginState(cache: Cache, nodeId: NodeId, hashed: string, fails: bool) returns (ok: bool)
      modifies cache`states
      ensures ok == !fails
      ensures cache.states == if fails then old(cache.states) else old(cache.states) - {StateKey(nodeId, hashed)}
    {
      ok := cache.DelState(StateKey(nodeId, hashed), fails);
    }

    /** Writes a registered plugin's state with the current time, or removes the state of one that is gone. */
    method DoPluginStateUpdate(cache: Cache, identity: Identity, now: int, fails: bool) returns (ok: bool)
      modifies this`plugins, cache`states
      ensures ok == !fails
      ensures (cache.states, plugins) == AfterUpdate(old(cache.states), old(plugins), id, hash, identity, now, fails)
      ensures fails ==> cache.states == old(cache.states) && plugins == old(plugins)
      ensures !fails && identity in old(plugins) ==>
        && cache.states == old(cache.states)[StateKey(id, hash(identity)) := PluginState(identity, Some(now))]
        && plugins == old(plugins)[identity := Some(now)]
      ensures !fails && identity !in old(plugins) ==>
        cache.states == old(cache.states) - {StateKey(id, hash(identity))} && plugins == old(plugins)
    {
      if identity !in plugins {
        ok := RemovePluginState(cache, id, hash(identity), fails);
      } else {
        if fails {
          return false;
        }
        cache.states := cache.states[StateKey(id, hash(identity)) := PluginState(identity, Some(now))];
        plugins := plugins[identity := Some(now)];
        ok := true;
      }
    }

    /** Idempotent: registering again refreshes the state. A failed write leaves the plugin registered. */
    method RegisterPlugin(cache: Cache, identity: Identity, now: int, fails: bool) returns (ok: bool)
      modifies this`plugins, cache`states
      ensures ok == !fails
      ensures (cache.states, plugins) == AfterRegister(old(cache.states), old(plugins), id, hash, identity, now, fails)
      ensures !fails ==>
        && cache.states == old(cache.states)[StateKey(id, hash(identity)) := PluginState(identity, Some(now))]
        && plugins == old(plugins)[identity := Some(now)]
      ensures fails ==>
        && cache.states == old(cache.states)
        && plugins == if identity in old(plugins) then old(plugins) else old(plugins)[identity := None]
    {
      if identity !in plugins {
        plugins := plugins[identity := None];
      }
      ok := DoPluginStateUpdate(cache, identity, now, fails);
    }

    /** Three attempts; the plugin is forgotten only when its state is gone. */
    method UnregisterPlugin(cache: Cache, identity: Identity, fails: nat -> bool) returns (ok: bool)
      modifies this`plugins, cache`states
      ensures ok <==> !(fails(0) && fails(1) && fails(2))
      ensures (cache.states, plugins) == AfterUnregister(old(cache.states), old(plugins), id, hash, identity, !ok)
      ensures ok ==> plugins == old(plugins) - {identity}
                     && cache.states == old(cache.states) - {StateKey(id, hash(identity))}
      ensures !ok ==> plugins == old(plugins) && cache.states == old(cache.states)
    {
      ok := false;
      for i := 0 to 3
        invariant !ok && plugins == old(plugins) && cache.states == old(cache.states)
        invariant forall j :: 0 <= j < i ==> fails(j)
      {
        ok := RemovePluginState(cache, id, hash(identity), fails(i));
        if ok {
          break;
        }
      }
      if ok {
        plugins := plugins - {identity};
      } else {
        assert fails(0) && fails(1) && fails(2);
      }
    }

    /**
     One scheduler tick: refreshes exactly the plugins that are due and whose write succeeds; a failed write is
     skipped.
     */
    method SchedulePlugins(cache: Cache, now: int, fails: Identity -> bool) returns (ghost order: seq<Identity>)
      requires HexHash(hash) && ':' !in id
      modifies this`plugins, cache`states
      ensures Visits(order, old(plugins).Keys)
      ensures (cache.states, plugins) == AfterVisits(old(cache.states), old(plugins), id, hash, order, now, fails)
      ensures plugins == map p | p in old(plugins) ::
        if Due(old(plugins)[p], now) && !fails(p) then Some(now) else old(plugins)[p]
      ensures forall p :: p in old(plugins) && !fails(p) ==>
        plugins[p] == if old(plugins)[p].Some? && now - old(plugins)[p].value < 10000 then old(plugins)[p] else Some(now)
      ensures forall p :: p in old(plugins) && Due(old(plugins)[p], now) && !fails(p) ==>
        && StateKey(id, hash(p)) in cache.states
        && cache.states[StateKey(id, hash(p))] == PluginState(p, Some(now))
      ensures forall k ::
        (forall p :: p in old(plugins) && Due(old(plugins)[p], now) && !fails(p) ==> k != StateKey(id, hash(p))) ==>
        (k in cache.states <==> k in old(cache.states)) && (k in cache.states ==> cache.states[k] == old(cache.states)[k])
    {
      RefreshNone(plugins, now, fails, cache.states, id, hash);
      var todo := plugins.Keys;
      order := [];
      while todo != {}
        invariant todo <= plugins.Keys == old(plugins).Keys
        invariant Visits(order, old(plugins).Keys - todo)
        invariant (cache.states, plugins) == AfterVisits(old(cache.states), old(plugins), id, hash, order, now, fails)
        invariant plugins == Rescheduled(old(plugins), now, fails, todo)
        invariant RefreshedBut(old(plugins), now, fails, todo, old(cache.states), cache.states, id, hash)
        decreases todo
      {
        hide *;
        var p :| p in todo;
        VisitMore(old(cache.states), old(plugins), id, hash, order, p, now, fails);
        SeenOne(old(plugins), now, fails, todo, p, old(cache.states), cache.states, id, hash);
        VisitsMore(order, old(plugins).Keys, todo, p);
        order := order + [p];
        todo := todo - {p};
        VisitPlugin(cache, p, now, fails(p));
      }
    }

    /** One plugin in a scheduler tick. */
    method VisitPlugin(cache: Cache, p: Identity, now: int, fails: bool)
      requires p in plugins
      modifies this`plugins, cache`states
      ensures (cache.states, plugins) == AfterVisit(old(cache.states), old(plugins), id, hash, p, now, fails)
    {
      if !Due(plugins[p], now) {
        return;
      }
      var ok := DoPluginStateUpdate(cache, p, now, fails);
    }

    method ForceGCNodePlugin(cache: Cache, nodeId: NodeId, identity: Identity, fails: bool) returns (ok: bool)
      modifies this`plugins, cache`states
      ensures ok == !fails
      ensures plugins == if nodeId == id then old(plugins) - {identity} else old(plugins)
      ensures cache.states == if fails then old(cache.states) else old(cache.states) - {StateKey(nodeId, hash(identity))}
    {
      if nodeId == id {
        plugins := plugins - {identity};
      }
      ok := RemovePluginState(cache, nodeId, hash(identity), fails);
    }

    /** Collects one state under its own key, twice; its own node forgets the plugin, whatever fails. */
    method CollectState(cache: Cache, key: string, fails: bool, failsAgain: bool) returns (ok: bool, ghost removed: bool)
      requires key in cache.states && SplitNodePluginJoin(key).Ok?
      requires StateKey(SplitNodePluginJoin(key).value.0, hash(cache.states[key].identity)) == key
      modifies this`plugins, cache`states
      ensures ok <==> !fails && !failsAgain
      ensures removed == !fails
      ensures cache.states == if removed then old(cache.states) - {key} else old(cache.states)
      ensures plugins == if SplitNodePluginJoin(key).value.0 == id then old(plugins) - {old(cache.states)[key].identity}
                         else old(plugins)
    {
      var state := cache.states[key];
      var parts := SplitNodePluginJoin(key);
      ok := ForceGCNodePlugin(cache, parts.value.0, state.identity, fails);
      removed := ok;
      if ok {
        ok := cache.DelState(key, failsAgain);
      }
    }

    /**
     Collects inactive states: each is deleted under its own key twice, and a failing call stops the collection.
     It succeeds exactly when no call for an inactive state fails, and then precisely the inactive ones are gone.
     No active state is touched, and the node forgets a plugin of its own only for its own inactive state.
     */
    method AutoGCPlugins(cache: Cache, now: int, fails: string -> bool, failsAgain: string -> bool)
      returns (ok: bool, ghost gone: set<string>, ghost forgot: set<Identity>)
      requires WellKeyed(cache.states, hash)
      modifies this`plugins, cache`states
      ensures cache.states == AfterAutoGC(old(cache.states), now, gone)
      ensures plugins == AfterForgetting(old(cache.states), old(plugins), id, hash, now, forgot)
      ensures ok <==> NoCollectionFails(old(cache.states), now, fails, failsAgain)
      ensures ok ==> forall k :: k in cache.states ==>
        cache.states[k].scheduledAt.Some? && now - cache.states[k].scheduledAt.value <= 30000
      ensures forall k :: k in old(cache.states) && old(cache.states)[k].scheduledAt.Some?
                          && now - old(cache.states)[k].scheduledAt.value <= 30000 ==>
        k in cache.states && cache.states[k] == old(cache.states)[k]
      ensures ok ==> forall p :: p in plugins ==> !OwnInactive(old(cache.states), id, hash, p, now)
    {
      ghost var before, had := cache.states, plugins;
      var todo := cache.states.Keys;
      gone, forgot := {}, {};
      CollectNothing(before, had, id, hash, now, fails, failsAgain);
      hide WellKeyed, AfterAutoGC, AfterForgetting, Cleared, Disowned, StateKey, IsPluginActive;
      while todo != {}
        invariant todo <= before.Keys && gone !! todo
        invariant cache.states == AfterAutoGC(before, now, gone)
        invariant plugins == AfterForgetting(before, had, id, hash, now, forgot)
        invariant Cleared(before, now, todo, gone, fails, failsAgain)
        invariant Disowned(before, now, id, hash, todo, forgot)
        decreases todo
      {
        var key :| key in todo;
        Untouched(before, now, gone, key);
        var state := cache.states[key];
        if IsPluginActive(state, now) {
          ActiveStays(before, now, todo, gone, fails, failsAgain, id, hash, forgot, key);
          todo := todo - {key};
        } else {
          CollectOne(before, had, now, id, hash, todo, gone, forgot, key);
          ghost var removed;
          ok, removed := CollectState(cache, key, fails(key), failsAgain(key));
          if SplitNodePluginJoin(key).value.0 == id {
            forgot := forgot + {state.identity};
          }
          ghost var soFar := gone;
          if removed {
            gone := gone + {key};
          }
          if !ok {
            NotAll(before, now, key, fails, failsAgain);
            RecentStay(before, now, gone);
            return;
          }
          ClearedOne(before, now, todo, soFar, fails, failsAgain, key);
          todo := todo - {key};
        }
      }
      AllCollected(before, had, now, id, hash, gone, forgot, fails, failsAgain);
      RecentStay(before, now, gone);
      ok := true;
    }

    /**
     Removes a node's plugin states and then its status; no other node's entries are touched, whatever fails. It
     succeeds exactly when no call fails. Only a node that collects itself forgets plugins, those with a stored state.
     */
    method GcNode(cache: Cache, nodeId: NodeId, stateFails: string -> bool, lockFails: bool, delFails: bool)
      returns (ok: bool, ghost gone: set<string>, ghost forgot: set<Identity>)
      requires WellKeyed(cache.states, hash) && ':' !in nodeId
      modifies this, cache
      ensures cache.states == AfterNodeGC(old(cache.states), nodeId, gone)
      ensures plugins == AfterNodeForgetting(old(cache.states), old(plugins), id, hash, nodeId, forgot)
      ensures ok <==> NodeGone(old(cache.states), nodeId, stateFails) && !lockFails && !delFails
      ensures cache.status == if ok then old(cache.status) - {nodeId} else old(cache.status)
      ensures nodes == if NodeGone(old(cache.states), nodeId, stateFails) then old(nodes) - {nodeId} else old(nodes)
      ensures ok ==> forall k :: k in cache.states ==> !OfNode(k, nodeId)
      ensures ok && nodeId == id ==> forall p :: p in plugins ==> !OwnState(old(cache.states), id, hash, p)
    {
      var todo := set k | k in cache.states && OfNode(k, nodeId);
      gone, forgot := {}, {};
      while todo != {}
        invariant todo <= old(cache.states).Keys && gone !! todo
        invariant forall k :: k in todo ==> OfNode(k, nodeId)
        invariant cache.states == AfterNodeGC(old(cache.states), nodeId, gone)
        invariant plugins == AfterNodeForgetting(old(cache.states), old(plugins), id, hash, nodeId, forgot)
        invariant cache.status == old(cache.status) && nodes == old(nodes)
        invariant forall k :: k in old(cache.states) && OfNode(k, nodeId) && k !in todo ==> k in gone && !stateFails(k)
        invariant nodeId == id ==>
          forall p :: OwnState(old(cache.states), id, hash, p) && StateKey(id, hash(p)) !in todo ==> p in forgot
        decreases todo
      {
        var key :| key in todo;
        todo := todo - {key};
        var state := cache.states[key];
        NodeKey(key, state, nodeId, hash);
        if nodeId == id {
          NodeForgetOne(old(cache.states), old(plugins), id, hash, forgot, state.identity);
          forgot := forgot + {state.identity};
        }
        ok := ForceGCNodePlugin(cache, nodeId, state.identity, stateFails(key));
        if !ok {
          return;
        }
        CollectNodeKey(old(cache.states), nodeId, gone, key);
        gone := gone + {key};
      }
      OwnStatesAreOfNode(old(cache.states), id, hash);
      nodes := nodes - {nodeId};
      if lockFails || delFails {
        return false, gone, forgot;
      }
      cache.status := cache.status - {nodeId};
      ok := true;
    }

    /**
     The master's pass over the node map: exactly the disconnected nodes none of whose calls fail are gone, whatever
     happens to the others, and it succeeds exactly when those are all. A state is lost only with a disconnected
     node, and the node forgets plugins only when it is itself disconnected. A pass that cannot read the node map
     collects nothing and succeeds all the same.
     */
    method AutoGCNodes(cache: Cache, now: int, readFails: bool, faults: NodeFaults) returns (ok: bool)
      requires WellKeyed(cache.states, hash) && forall n :: n in cache.status ==> ':' !in n
      modifies this, cache
      ensures readFails ==>
        ok && cache.states == old(cache.states) && cache.status == old(cache.status) && nodes == old(nodes)
        && plugins == old(plugins)
      ensures !readFails ==>
        && cache.status == (map n | n in old(cache.status) && !Collected(old(cache.states), old(cache.status), now, n, faults)
                              :: old(cache.status)[n])
        && (ok <==> forall n :: n in cache.status ==> now - cache.status[n] * 1000 < 10000)
        && forall n :: Collected(old(cache.states), old(cache.status), now, n, faults) ==> Emptied(cache.states, n)
      ensures Remaining(old(cache.states), cache.states, old(cache.status), now)
      ensures FewerPlugins(plugins, old(plugins))
      ensures forall n :: n in old(cache.status) && now - old(cache.status)[n] * 1000 < 10000 ==>
        n in cache.status && cache.status[n] == old(cache.status)[n]
      ensures id !in old(cache.status) || now - old(cache.status)[id] * 1000 < 10000 ==> plugins == old(plugins)
    {
      hide IsNodeAvailable;
      PingAges(cache.status, now);
      if readFails {
        NoFewer(plugins);
        return true;
      }
      var nodeStatus := cache.status;
      ghost var start := cache.states;
      var todo := nodeStatus.Keys;
      ok := true;
      assert Passed(start, nodeStatus, now, faults, hash, todo, start, nodeStatus, ok);
      hide Collected, Passed, Emptied, Remaining, IsNodeAvailable, NodeGone, FewerPlugins, AfterNodeForgetting, AfterNodeGC, WellKeyed;
      ghost var had := plugins;
      NoFewer(had);
      while todo != {}
        invariant todo <= nodeStatus.Keys && WellKeyed(cache.states, hash)
        invariant Passed(start, nodeStatus, now, faults, hash, todo, cache.states, cache.status, ok)
        invariant FewerPlugins(plugins, old(plugins))
        invariant id !in nodeStatus || IsNodeAvailable(nodeStatus[id], now) ==> plugins == old(plugins)
        decreases todo
      {
        var n :| n in todo;
        ghost var states, status, left, soFar, has := cache.states, cache.status, todo, ok, plugins;
        todo := todo - {n};
        if IsNodeAvailable(nodeStatus[n], now) {
          PassSkips(start, nodeStatus, now, faults, hash, left, states, status, ok, n);
          continue;
        }
        var collected, gone, forgot := GcNode(cache, n, faults.state, faults.lock(n), faults.del(n));
        ok := ok && collected;
        ForgettingKeeps(states, has, had, id, hash, n, forgot);
        EmptiedNode(cache.states, n, collected);
        PassCollects(start, nodeStatus, now, faults, hash, left, states, status, soFar, n, gone, collected);
        StillPassed(start, nodeStatus, now, faults, hash, todo, cache.states, cache.status, ok);
      }
      PassEnds(start, nodeStatus, now, faults, hash, cache.states, cache.status, ok);
    }

    /** The map part of a node status update: the node's own ping, and the nodes it now considers available. */
    method UpdateNodeStatus(cache: Cache, now: int, lockFails: bool, getFails: bool, setFails: bool, listFails: bool)
      returns (ok: bool)
      requires now >= 0
      modifies this`nodes, cache`status
      ensures ok <==> !lockFails && !getFails && !setFails && !listFails
      ensures cache.status == if lockFails || getFails || setFails then old(cache.status) else AfterPing(old(cache.status), id, now)
      ensures !lockFails && !getFails && !setFails ==> id in cache.status && cache.status[id] == now / 1000
      ensures nodes == if ok then (set n | n in cache.status && now - cache.status[n] * 1000 < 10000) else old(nodes)
      ensures ok ==> id in nodes
    {
      if lockFails || getFails {
        return false;
      }
      if setFails {
        return false;
      }
      cache.status := cache.status[id := now / 1000];
      if listFails {
        return false;
      }
      nodes := set n | n in cache.status && IsNodeAvailable(cache.status[n], now);
      return true;
    }

    /**
     The nodes that can serve a plugin: those known to this node whose state for it is still valid.
     Expired states of the plugin met on the way are removed.
     */
    method FetchPluginAvailableNodesByHashedId(cache: Cache, hashed: string, now: int, fails: string -> bool)
      returns (found: seq<NodeId>)
      requires ':' !in hashed
      modifies cache`states
      ensures cache.states == AfterLookup(old(cache.states), hashed, now, set k | k in old(cache.states) && !fails(k))
      ensures forall n :: n in found <==>
        && n in nodes && ':' !in n
        && StateKey(n, hashed) in old(cache.states)
        && old(cache.states)[StateKey(n, hashed)].scheduledAt.Some?
        && now - old(cache.states)[StateKey(n, hashed)].scheduledAt.value <= 15000
      // only states of this plugin that are more than 15 s old go, and they do unless their removal fails
      ensures forall k :: k in old(cache.states) && k !in cache.states ==>
        && SplitNodePluginJoin(k).Ok? && SplitNodePluginJoin(k).value.1 == hashed && !fails(k)
        && (old(cache.states)[k].scheduledAt.None? || now - old(cache.states)[k].scheduledAt.value > 15000)
      ensures forall n :: StateKey(n, hashed) in cache.states && ':' !in n && !fails(StateKey(n, hashed)) ==>
        && cache.states[StateKey(n, hashed)].scheduledAt.Some?
        && now - cache.states[StateKey(n, hashed)].scheduledAt.value <= 15000
    {
      OnlyOwnStates(cache.states, hashed, now, fails);
      ghost var before := cache.states;
      found := [];
      var todo := set k | k in cache.states && OfPlugin(k, hashed);
      while todo != {}
        invariant todo <= before.Keys
        invariant forall k :: k in todo ==> k in cache.states && OfPlugin(k, hashed)
        invariant forall k :: k in cache.states ==> k in before && cache.states[k] == before[k]
        invariant forall k :: k in before && k !in cache.states <==>
          k in before && k !in todo && OfPlugin(k, hashed) && !IsPluginStateValid(before[k], now) && SplitNodePluginJoin(k).Ok? && !fails(k)
        invariant forall n :: n in found <==>
          && n in nodes && ':' !in n && StateKey(n, hashed) !in todo
          && StateKey(n, hashed) in before && IsPluginStateValid(before[StateKey(n, hashed)], now)
        decreases todo
      {
        var key :| key in todo;
        todo := todo - {key};
        var parts := SplitNodePluginJoin(key);
        forall n | StateKey(n, hashed) == key && ':' !in n
          ensures parts == Ok((n, hashed))
        {
          KeyRoundTrip(n, hashed);
        }
        if !IsPluginStateValid(cache.states[key], now) {
          if parts.Ok? {
            var ok := cache.DelState(key, fails(key));
          }
          continue;
        }
        if parts.Err? {
          continue;
        }
        SplitKeyJoins(key);
        PluginKeyEnds(key, hashed);
        if parts.value.0 in nodes {
          found := found + [parts.value.0];
        }
      }
    }
  }

  /** What a lookup takes: states of its plugin that are too old, under keys of nodes. */
  lemma OnlyOwnStates(states: States, hashed: string, now: int, fails: string -> bool)
    requires ':' !in hashed
    ensures var after := AfterLookup(states, hashed, now, set k | k in states && !fails(k));
            && (forall k :: k in states && k !in after ==>
                  && SplitNodePluginJoin(k).Ok? && SplitNodePluginJoin(k).value.1 == hashed && !fails(k)
                  && (states[k].scheduledAt.None? || now - states[k].scheduledAt.value > 15000))
            && forall n :: StateKey(n, hashed) in after && ':' !in n && !fails(StateKey(n, hashed)) ==>
                 && after[StateKey(n, hashed)].scheduledAt.Some?
                 && now - after[StateKey(n, hashed)].scheduledAt.value <= 15000
  {
    hide SplitNodePluginJoin;
    forall k | OfPlugin(k, hashed) && SplitNodePluginJoin(k).Ok? ensures SplitNodePluginJoin(k).value.1 == hashed {
      PluginKeyEnds(k, hashed);
    }
    forall n | ':' !in n ensures OfPlugin(StateKey(n, hashed), hashed) && SplitNodePluginJoin(StateKey(n, hashed)).Ok? {
      KeyRoundTrip(n, hashed);
    }
    hide OfPlugin, StateKey;
  }

  lemma PluginKeyEnds(key: string, hashed: string)
    requires OfPlugin(key, hashed) && SplitNodePluginJoin(key).Ok? && ':' !in hashed
    ensures SplitNodePluginJoin(key).value.1 == hashed
  {
    SplitKeyJoins(key);
    var (node, tail) := SplitNodePluginJoin(key).value;
    var at := |key| - |hashed| - 1;
    assert forall i :: 0 <= i < |node| ==> key[i] == node[i] && node[i] in node;
    assert forall i :: |node| < i < |key| ==> key[i] == tail[i - |node| - 1] && key[i] in tail;
    assert key[at] == key[at..][0] == ':';
    assert at == |node|;
    assert key[at..][1..] == hashed;
  }
}
