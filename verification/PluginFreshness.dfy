/**
 Runs of the cluster: a live node's plugins are never collected. The steps are those of the operations of a node
 (PluginStates); collections may stop half-way, and every collector also forgets plugins of its own.
 */
module PluginFreshness {
  import opened PluginStates
  import opened Wrappers

  /** The shared maps, what each running node remembers, and when it last looked at each plugin and pinged. */
  datatype World = World(
    now: nat,
    states: States,
    status: map<NodeId, int>,
    plugins: map<NodeId, Plugins>,
    visits: map<NodeId, map<Identity, int>>,
    lastPing: map<NodeId, int>)

  /** gone are the keys a collection gets to remove, forgot the plugins its node forgets; complete says that it ends well. */
  datatype Event =
    | Advance(d: nat)
    | Start(node: NodeId)
    | Crash(node: NodeId)
    | Leave(node: NodeId, gone: set<string>, complete: bool)
    | Ping(node: NodeId)
    | Register(node: NodeId, plugin: Identity, fails: bool)
    | Unregister(node: NodeId, plugin: Identity, fails: bool)
    | Visit(node: NodeId, plugin: Identity, fails: bool)
    | CollectPlugins(node: NodeId, gone: set<string>, forgot: set<Identity>)
    | CollectNode(node: NodeId, dead: NodeId, gone: set<string>, forgot: set<Identity>, complete: bool)
    | Lookup(hashed: string, gone: set<string>)

  ghost predicate Registered(w: World, n: NodeId, p: Identity) {
    n in w.plugins && p in w.plugins[n]
  }

  function Changed(w: World, n: NodeId, after: (States, Plugins)): World {
    w.(states := after.0, plugins := w.plugins[n := after.1])
  }

  function Visited(w: World, n: NodeId, p: Identity): World {
    var seen := if n in w.visits then w.visits[n] else map[];
    w.(visits := w.visits[n := seen[p := w.now]])
  }

  /** Events of nodes that are not running have no effect. */
  ghost function Step(w: World, e: Event, hash: Identity -> string): World {
    match e
    case Advance(d) => w.(now := w.now + d)
    case Start(n) =>
      if n in w.plugins || ':' in n then w
      else w.(plugins := w.plugins[n := map[]], status := AfterPing(w.status, n, w.now), lastPing := w.lastPing[n := w.now])
    case Crash(n) => w.(plugins := w.plugins - {n})
    case Leave(n, gone, complete) =>
      if n !in w.plugins then w
      else w.(plugins := w.plugins - {n}, states := AfterNodeGC(w.states, n, gone),
              status := if complete then w.status - {n} else w.status)
    case Ping(n) =>
      if n !in w.plugins then w
      else w.(status := AfterPing(w.status, n, w.now), lastPing := w.lastPing[n := w.now])
    case Register(n, p, fails) =>
      if n !in w.plugins then w
      else Visited(Changed(w, n, AfterRegister(w.states, w.plugins[n], n, hash, p, w.now, fails)), n, p)
    case Unregister(n, p, fails) =>
      if n !in w.plugins then w
      else Changed(w, n, AfterUnregister(w.states, w.plugins[n], n, hash, p, fails))
    case Visit(n, p, fails) =>
      if n !in w.plugins then w
      else Visited(Changed(w, n, AfterVisit(w.states, w.plugins[n], n, hash, p, w.now, fails)), n, p)
    case CollectPlugins(n, gone, forgot) =>
      if n !in w.plugins then w
      else Changed(w, n, (AfterAutoGC(w.states, w.now, gone),
                          AfterForgetting(w.states, w.plugins[n], n, hash, w.now, forgot)))
    case CollectNode(n, dead, gone, forgot, complete) =>
      if n !in w.plugins || dead !in w.status || IsNodeAvailable(w.status[dead], w.now) || ':' in dead then w
      else
        Changed(w, n, (AfterNodeGC(w.states, dead, gone),
                       AfterNodeForgetting(w.states, w.plugins[n], n, hash, dead, forgot)))
        .(status := if complete then w.status - {dead} else w.status)
    case Lookup(h, gone) => w.(states := AfterLookup(w.states, h, w.now, gone))
  }

  ghost function Run(w: World, events: seq<Event>, hash: Identity -> string): World {
    if events == [] then w else Step(Run(w, events[..|events| - 1], hash), events[|events| - 1], hash)
  }

  /** Every registered plugin is looked at every 3 s, and every running node pings every 5 s. */
  ghost predicate Prompt(w: World) {
    && (forall n, p :: Registered(w, n, p) && n in w.visits && p in w.visits[n] ==>
          w.now - w.visits[n][p] <= PLUGIN_SCHEDULER_TICKER_INTERVAL)
    && forall n :: n in w.plugins && n in w.lastPing ==> w.now - w.lastPing[n] <= UPDATE_NODE_STATUS_INTERVAL
  }

  /** The event writes the states it means to write. */
  predicate Writes(e: Event) {
    !((e.Register? || e.Visit?) && e.fails)
  }

  ghost predicate NodeAvailable(w: World, n: NodeId) {
    n in w.status && IsNodeAvailable(w.status[n], w.now)
  }

  ghost predicate PluginFresh(w: World, hash: Identity -> string, n: NodeId, p: Identity) {
    && StateKey(n, hash(p)) in w.states
    && var state := w.states[StateKey(n, hash(p))];
    && state.identity == p && state.scheduledAt.Some?
    && w.now - state.scheduledAt.value < PLUGIN_SCHEDULER_INTERVAL + PLUGIN_SCHEDULER_TICKER_INTERVAL
  }

  /** Every running node counts as available, and every registered plugin has a state less than 13 s old. */
  ghost predicate Fresh(w: World, hash: Identity -> string) {
    && (forall n :: n in w.plugins ==> NodeAvailable(w, n))
    && forall n, p :: Registered(w, n, p) ==> PluginFresh(w, hash, n, p)
  }

  ghost predicate NodeKept(w: World, n: NodeId) {
    && ':' !in n
    && n in w.lastPing && n in w.status
    && w.lastPing[n] <= w.now && w.status[n] == w.lastPing[n] / 1000
  }

  ghost predicate PluginKept(w: World, hash: Identity -> string, n: NodeId, p: Identity)
    requires Registered(w, n, p)
  {
    && n in w.visits && p in w.visits[n]
    && w.plugins[n][p].Some?
    && var (scheduled, visited) := (w.plugins[n][p].value, w.visits[n][p]);
    && scheduled <= visited <= w.now
    && visited - scheduled < PLUGIN_SCHEDULER_INTERVAL
    && StateKey(n, hash(p)) in w.states
    && w.states[StateKey(n, hash(p))] == PluginState(p, Some(scheduled))
  }

  ghost predicate Kept(w: World, hash: Identity -> string) {
    && WellKeyed(w.states, hash)
    && (forall n :: n in w.plugins ==> NodeKept(w, n))
    && forall n, p :: Registered(w, n, p) ==> PluginKept(w, hash, n, p)
  }

  lemma KeptAndPromptIsFresh(w: World, hash: Identity -> string)
    requires Kept(w, hash) && Prompt(w)
    ensures Fresh(w, hash)
  {
    forall n | n in w.plugins
      ensures NodeAvailable(w, n)
    {
      assert NodeKept(w, n);
    }
    forall n, p | Registered(w, n, p)
      ensures PluginFresh(w, hash, n, p)
    {
      assert PluginKept(w, hash, n, p);
    }
  }

  // ------------------------------------------------------------- what no collector does

  lemma OtherKey(hash: Identity -> string, n: NodeId, p: Identity, m: NodeId, q: Identity)
    requires HexHash(hash) && ':' !in n && ':' !in m && (n != m || p != q)
    ensures StateKey(n, hash(p)) != StateKey(m, hash(q))
  {
    if StateKey(n, hash(p)) == StateKey(m, hash(q)) {
      KeysDiffer(n, hash(p), m, hash(q));
    }
  }

  /** A fresh state passes both age tests, so no collector and no lookup takes it, whatever keys it is set on. */
  lemma FreshSurvives(w: World, hash: Identity -> string, n: NodeId, p: Identity, other: NodeId, hashed: string,
                      gone: set<string>)
    requires HexHash(hash) && PluginFresh(w, hash, n, p) && ':' !in n
    requires other != n && ':' !in other
    ensures var key := StateKey(n, hash(p));
            && IsPluginStateValid(w.states[key], w.now) && IsPluginActive(w.states[key], w.now)
            && key in AfterAutoGC(w.states, w.now, gone) && key in AfterLookup(w.states, hashed, w.now, gone)
            && key in AfterNodeGC(w.states, other, gone)
  {
    KeyRoundTrip(n, hash(p));
    OfNodeIsItsNode(StateKey(n, hash(p)), other);
  }

  /** With fresh states a collecting node forgets nothing, and a running node is never collected. */
  lemma NothingForgotten(w: World, hash: Identity -> string, n: NodeId, forgot: set<Identity>)
    requires Fresh(w, hash) && n in w.plugins
    ensures AfterForgetting(w.states, w.plugins[n], n, hash, w.now, forgot) == w.plugins[n]
  {
    forall p | p in w.plugins[n] ensures !OwnInactive(w.states, n, hash, p, w.now) {
      assert Registered(w, n, p) && PluginFresh(w, hash, n, p);
    }
  }

  /** The plugins that nodes remember change only by their own registering, unregistering, visits and leaving. */
  lemma CollectorsForgetNothing(w: World, e: Event, hash: Identity -> string)
    requires Fresh(w, hash) && (e.CollectPlugins? || e.CollectNode? || e.Lookup?)
    ensures Step(w, e, hash).plugins == w.plugins && Step(w, e, hash).visits == w.visits
  {
    if e.CollectPlugins? && e.node in w.plugins {
      NothingForgotten(w, hash, e.node, e.forgot);
      assert w.plugins[e.node := w.plugins[e.node]] == w.plugins;
    } else if e.CollectNode? && e.node in w.plugins {
      assert NodeAvailable(w, e.node);
      if e.dead != e.node {
        assert AfterNodeForgetting(w.states, w.plugins[e.node], e.node, hash, e.dead, e.forgot) == w.plugins[e.node];
        assert w.plugins[e.node := w.plugins[e.node]] == w.plugins;
      }
    }
  }

  lemma RegisteredIsKept(w: World, hash: Identity -> string, n: NodeId, p: Identity)
    requires Kept(w, hash) && Fresh(w, hash) && Registered(w, n, p)
    ensures ':' !in n && PluginFresh(w, hash, n, p) && PluginKept(w, hash, n, p) && NodeAvailable(w, n)
  {
    assert NodeKept(w, n);
  }

  // ------------------------------------------------------------- what every event keeps

  /** No event but its own node's touches the state of a registered plugin. */
  lemma StepKeepsState(w: World, e: Event, hash: Identity -> string, n: NodeId, p: Identity)
    requires Kept(w, hash) && Fresh(w, hash) && HexHash(hash) && Registered(w, n, p)
    requires !(e.Register? || e.Visit? || e.Unregister?) || e.node != n || e.plugin != p
    requires !((e.Leave? || e.Crash?) && e.node == n)
    ensures StateKey(n, hash(p)) in Step(w, e, hash).states
    ensures Step(w, e, hash).states[StateKey(n, hash(p))] == w.states[StateKey(n, hash(p))]
  {
    RegisteredIsKept(w, hash, n, p);
    if e.CollectPlugins? || e.CollectNode? || e.Lookup? {
      hide Step;
      CollectorKeepsState(w, e, hash, n, p);
    } else {
      hide Fresh, PluginKept;
      match e
      case Register(m, q, _) => OwnUpdate(w, hash, n, p, m, q);
      case Visit(m, q, _) => OwnUpdate(w, hash, n, p, m, q);
      case Unregister(m, q, _) => OwnUpdate(w, hash, n, p, m, q);
      case Leave(m, gone, _) => OtherNodeGC(w, hash, n, p, m, gone);
      case _ =>
      hide Kept, StateKey, OfNode, PluginFresh;
    }
  }

  lemma CollectorKeepsState(w: World, e: Event, hash: Identity -> string, n: NodeId, p: Identity)
    requires e.CollectPlugins? || e.CollectNode? || e.Lookup?
    requires HexHash(hash) && ':' !in n && PluginFresh(w, hash, n, p) && NodeAvailable(w, n)
    ensures StateKey(n, hash(p)) in Step(w, e, hash).states
    ensures Step(w, e, hash).states[StateKey(n, hash(p))] == w.states[StateKey(n, hash(p))]
  {
    match e
    case CollectNode(m, dead, gone, _, _) =>
      if ':' !in dead && dead != n {
        FreshSurvives(w, hash, n, p, dead, "", gone);
      }
    case CollectPlugins(m, gone, _) => FreshSurvives(w, hash, n, p, n + "'", "", gone);
    case Lookup(h, gone) => FreshSurvives(w, hash, n, p, n + "'", h, gone);
  }

  /** Keys of nodes whose ids hold no colon differ; ids of running nodes hold none. */
  lemma OwnUpdate(w: World, hash: Identity -> string, n: NodeId, p: Identity, m: NodeId, q: Identity)
    requires Kept(w, hash) && HexHash(hash) && ':' !in n && (n != m || p != q)
    ensures m in w.plugins ==> StateKey(n, hash(p)) != StateKey(m, hash(q))
  {
    if m in w.plugins {
      assert NodeKept(w, m);
      OtherKey(hash, n, p, m, q);
    }
  }

  lemma OtherNodeGC(w: World, hash: Identity -> string, n: NodeId, p: Identity, m: NodeId, gone: set<string>)
    requires Kept(w, hash) && HexHash(hash) && PluginFresh(w, hash, n, p) && ':' !in n && n != m
    ensures m in w.plugins ==> StateKey(n, hash(p)) in AfterNodeGC(w.states, m, gone)
  {
    if m in w.plugins {
      assert NodeKept(w, m);
      FreshSurvives(w, hash, n, p, m, "", gone);
    }
  }

  lemma FewerKeys(before: States, after: States, hash: Identity -> string)
    requires WellKeyed(before, hash) && forall k :: k in after ==> k in before && after[k] == before[k]
    ensures WellKeyed(after, hash)
  {
    hide KeyedBy;
  }

  lemma WrittenKey(w: World, hash: Identity -> string, n: NodeId, p: Identity)
    requires Kept(w, hash) && HexHash(hash) && n in w.plugins
    ensures WellKeyed(w.states[StateKey(n, hash(p)) := PluginState(p, Some(w.now))], hash)
  {
    assert NodeKept(w, n);
    KeyRoundTrip(n, hash(p));
  }

  lemma StepKeepsKeys(w: World, e: Event, hash: Identity -> string)
    requires Kept(w, hash) && HexHash(hash)
    ensures WellKeyed(Step(w, e, hash).states, hash)
  {
    if (e.Register? || e.Visit?) && e.node in w.plugins {
      WrittenKey(w, hash, e.node, e.plugin);
    }
    if !(e.Register? || e.Visit?) {
      FewerKeys(w.states, Step(w, e, hash).states, hash);
    }
    hide WellKeyed, StateKey;
  }

  lemma StepKeepsNode(w: World, e: Event, hash: Identity -> string, n: NodeId)
    requires Kept(w, hash) && Fresh(w, hash)
    requires n in Step(w, e, hash).plugins
    ensures NodeKept(Step(w, e, hash), n)
  {
    if n in w.plugins {
      assert NodeKept(w, n) && NodeAvailable(w, n);
      hide Kept, Fresh, Step, NodeKept, NodeAvailable;
      NodeStays(w, e, hash, n);
    } else {
      hide Kept, Fresh, AfterRegister, AfterUnregister, AfterVisit, AfterForgetting, AfterNodeForgetting;
    }
  }

  lemma NodeStays(w: World, e: Event, hash: Identity -> string, n: NodeId)
    requires n in w.plugins && NodeKept(w, n) && NodeAvailable(w, n) && n in Step(w, e, hash).plugins
    ensures NodeKept(Step(w, e, hash), n)
  {
    hide StateKey, AfterAutoGC, AfterNodeGC, AfterLookup, AfterForgetting, AfterNodeForgetting, AfterRegister,
      AfterUnregister, AfterVisit;
  }

  predicate Concerns(e: Event, n: NodeId, p: Identity) {
    (e.Register? || e.Visit? || e.Unregister?) && e.node == n && e.plugin == p
  }

  /** What is remembered of a plugin changes only with events that concern it. */
  lemma StepKeepsMemory(w: World, e: Event, hash: Identity -> string, n: NodeId, p: Identity)
    requires Fresh(w, hash) && !Concerns(e, n, p) && Registered(Step(w, e, hash), n, p)
    ensures var after := Step(w, e, hash);
            && Registered(w, n, p) && after.plugins[n][p] == w.plugins[n][p] && !((e.Leave? || e.Crash?) && e.node == n)
            && (n in w.visits && p in w.visits[n] ==> n in after.visits && p in after.visits[n]
                                                      && after.visits[n][p] == w.visits[n][p])
            && w.now <= after.now
  {
    if e.CollectPlugins? || e.CollectNode? || e.Lookup? {
      CollectorsForgetNothing(w, e, hash);
      CollectingTakesNoTime(w, e, hash);
      hide Fresh, Step;
    } else if e.Register? || e.Unregister? || e.Visit? {
      PluginEventKeepsMemory(w, e, hash, n, p);
      hide Fresh, Step;
    } else {
      hide Fresh, AfterNodeGC, AfterPing;
    }
  }

  lemma PluginEventKeepsMemory(w: World, e: Event, hash: Identity -> string, n: NodeId, p: Identity)
    requires e.Register? || e.Unregister? || e.Visit?
    requires !Concerns(e, n, p) && Registered(Step(w, e, hash), n, p)
    ensures var after := Step(w, e, hash);
            && Registered(w, n, p) && after.plugins[n][p] == w.plugins[n][p]
            && (n in w.visits && p in w.visits[n] ==> n in after.visits && p in after.visits[n]
                                                      && after.visits[n][p] == w.visits[n][p])
            && w.now <= after.now
  {
    hide StateKey;
  }

  lemma CollectingTakesNoTime(w: World, e: Event, hash: Identity -> string)
    requires e.CollectPlugins? || e.CollectNode? || e.Lookup?
    ensures Step(w, e, hash).now == w.now
  {
  }

  /** An event that concerns a plugin and leaves it registered writes its state, or finds it not due. */
  lemma StepWrites(w: World, e: Event, hash: Identity -> string, n: NodeId, p: Identity)
    requires Concerns(e, n, p) && Writes(e) && Registered(Step(w, e, hash), n, p)
    requires Registered(w, n, p) ==> PluginKept(w, hash, n, p)
    ensures PluginKept(Step(w, e, hash), hash, n, p) || (e.Unregister? && e.fails)
  {
  }

  lemma StepKeepsPlugin(w: World, e: Event, hash: Identity -> string, n: NodeId, p: Identity)
    requires Kept(w, hash) && Fresh(w, hash) && HexHash(hash) && Writes(e)
    requires Registered(Step(w, e, hash), n, p)
    ensures PluginKept(Step(w, e, hash), hash, n, p)
  {
    assert Registered(w, n, p) ==> PluginKept(w, hash, n, p);
    if !Concerns(e, n, p) {
      StepKeepsMemory(w, e, hash, n, p);
      StepKeepsState(w, e, hash, n, p);
      hide Kept, Fresh, Step;
    } else {
      hide Kept, Fresh;
      StepWrites(w, e, hash, n, p);
    }
  }

  lemma StepKept(w: World, e: Event, hash: Identity -> string)
    requires Kept(w, hash) && Fresh(w, hash) && HexHash(hash) && Writes(e)
    ensures Kept(Step(w, e, hash), hash)
  {
    hide Step;
    StepKeepsKeys(w, e, hash);
    forall n | n in Step(w, e, hash).plugins
      ensures NodeKept(Step(w, e, hash), n)
    {
      StepKeepsNode(w, e, hash, n);
    }
    forall n, p | Registered(Step(w, e, hash), n, p)
      ensures PluginKept(Step(w, e, hash), hash, n, p)
    {
      StepKeepsPlugin(w, e, hash, n, p);
    }
  }

  /** A registered plugin stays registered until its node unregisters it, crashes or leaves: no collector ends it. */
  lemma StepKeepsRegistered(w: World, e: Event, hash: Identity -> string, n: NodeId, p: Identity)
    requires Fresh(w, hash) && Registered(w, n, p)
    requires !(e.Unregister? && e.node == n && e.plugin == p) && !((e.Leave? || e.Crash?) && e.node == n)
    ensures Registered(Step(w, e, hash), n, p)
  {
    if e.CollectPlugins? || e.CollectNode? || e.Lookup? {
      CollectorsForgetNothing(w, e, hash);
    }
  }

  // ------------------------------------------------------------- runs

  /** Plugins are looked at every 3 s and nodes ping every 5 s, in every state of the run, and state writes succeed. */
  ghost predicate PromptRun(w: World, events: seq<Event>, hash: Identity -> string) {
    && (forall k :: 0 <= k <= |events| ==> Prompt(Run(w, events[..k], hash)))
    && forall k :: 0 <= k < |events| ==> Writes(events[k])
  }

  lemma ShorterRun(w: World, events: seq<Event>, hash: Identity -> string, i: nat)
    requires PromptRun(w, events, hash) && i <= |events|
    ensures PromptRun(w, events[..i], hash)
  {
    assert forall k :: 0 <= k <= i ==> events[..i][..k] == events[..k];
  }

  /**
   Live plugin state is never treated as stale: in every state of a prompt run, from a cluster without nodes, each
   registered plugin's state is stored and less than 13 s old.
   */
  lemma {:induction false} LiveStateStaysFresh(w: World, events: seq<Event>, hash: Identity -> string)
    requires HexHash(hash) && WellKeyed(w.states, hash) && w.plugins == map[]
    requires PromptRun(w, events, hash)
    ensures Kept(Run(w, events, hash), hash) && Fresh(Run(w, events, hash), hash)
  {
    hide Step;
    if events != [] {
      var before := events[..|events| - 1];
      ShorterRun(w, events, hash, |events| - 1);
      LiveStateStaysFresh(w, before, hash);
      StepKept(Run(w, before, hash), events[|events| - 1], hash);
    }
    assert events[..|events|] == events;
    KeptAndPromptIsFresh(Run(w, events, hash), hash);
  }

  /** In a prompt run a plugin that is registered stays so, with a fresh state, till its node gives it up. */
  lemma {:induction false} StaysRegistered(w: World, events: seq<Event>, hash: Identity -> string, i: nat, n: NodeId, p: Identity)
    requires HexHash(hash) && WellKeyed(w.states, hash) && w.plugins == map[]
    requires PromptRun(w, events, hash) && i <= |events| && Registered(Run(w, events[..i], hash), n, p)
    requires forall k :: i <= k < |events| ==>
      && !(events[k].Unregister? && events[k].node == n && events[k].plugin == p)
      && !((events[k].Leave? || events[k].Crash?) && events[k].node == n)
    ensures Registered(Run(w, events, hash), n, p) && PluginFresh(Run(w, events, hash), hash, n, p)
    decreases |events|
  {
    hide Step;
    LiveStateStaysFresh(w, events, hash);
    if i < |events| {
      var before := events[..|events| - 1];
      ShorterRun(w, events, hash, |events| - 1);
      assert before[..i] == events[..i];
      StaysRegistered(w, before, hash, i, n, p);
      LiveStateStaysFresh(w, before, hash);
      StepKeepsRegistered(Run(w, before, hash), events[|events| - 1], hash, n, p);
    } else {
      assert events[..i] == events;
    }
  }

  // ------------------------------------------------------------- what a crashed node leaves behind

  /** Nodes with a colon in their names do not start. */
  ghost predicate PlainNodes(w: World) {
    forall n :: n in w.plugins ==> ':' !in n
  }

  /** While a node does not start again, nobody writes its states or pings for it, and time does not run backwards. */
  ghost predicate Silent(w: World, after: World, hash: Identity -> string, n: NodeId) {
    && n !in after.plugins && PlainNodes(after) && w.now <= after.now
    && (forall p :: StateKey(n, hash(p)) in after.states ==>
          StateKey(n, hash(p)) in w.states && after.states[StateKey(n, hash(p))] == w.states[StateKey(n, hash(p))])
    && (n in after.status ==> n in w.status && after.status[n] == w.status[n])
  }

  lemma StaysSilent(w: World, now: World, e: Event, hash: Identity -> string, n: NodeId)
    requires HexHash(hash) && ':' !in n && Silent(w, now, hash, n) && e != Start(n)
    ensures Silent(w, Step(now, e, hash), hash, n)
  {
    hide StateKey;
    if (e.Register? || e.Visit? || e.Unregister?) && e.node in now.plugins {
      forall p ensures StateKey(n, hash(p)) != StateKey(e.node, hash(e.plugin)) {
        OtherKey(hash, n, p, e.node, e.plugin);
      }
    }
  }

  lemma {:induction false} CrashedIsSilent(w: World, events: seq<Event>, hash: Identity -> string, n: NodeId)
    requires HexHash(hash) && ':' !in n && n !in w.plugins && PlainNodes(w)
    requires Start(n) !in events
    ensures Silent(w, Run(w, events, hash), hash, n)
  {
    if events != [] {
      hide Step, Silent, HexHash;
      CrashedIsSilent(w, events[..|events| - 1], hash, n);
      StaysSilent(w, Run(w, events[..|events| - 1], hash), events[|events| - 1], hash, n);
    } else {
      assert Silent(w, w, hash, n);
    }
  }

  /** A collection that gets to a key takes its state exactly when that was never scheduled, or more than 30 s ago. */
  lemma CollectsExactlyWhen(w: World, hash: Identity -> string, m: NodeId, gone: set<string>, forgot: set<Identity>, key: string)
    requires m in w.plugins && key in w.states && key in gone
    ensures key !in Step(w, CollectPlugins(m, gone, forgot), hash).states <==>
      w.states[key].scheduledAt == None || w.now - w.states[key].scheduledAt.value > 30000
  {
  }

  /** A lookup takes a state of its plugin exactly when that is more than 15 s old, or was never scheduled. */
  lemma LookupTakesExactlyWhen(w: World, hash: Identity -> string, hashed: string, gone: set<string>, n: NodeId)
    requires ':' !in n && ':' !in hashed && StateKey(n, hashed) in w.states && StateKey(n, hashed) in gone
    ensures var key := StateKey(n, hashed);
            key !in Step(w, Lookup(hashed, gone), hash).states <==>
            w.states[key].scheduledAt == None || w.now - w.states[key].scheduledAt.value > 15000
  {
    KeyRoundTrip(n, hashed);
    assert OfPlugin(StateKey(n, hashed), hashed);
    hide OfPlugin, SplitNodePluginJoin, StateKey;
  }

  /**
   A state whose node has crashed is gone after any collection that gets to it more than 30 s later, unless the node
   started again, whatever else happens in between.
   */
  lemma CrashedStateIsCollected(w: World, events: seq<Event>, hash: Identity -> string, n: NodeId, p: Identity,
                                m: NodeId, gone: set<string>, forgot: set<Identity>)
    requires HexHash(hash) && ':' !in n && n !in w.plugins && PlainNodes(w) && Start(n) !in events
    requires var key := StateKey(n, hash(p));
             key in gone && (key in w.states && w.states[key].scheduledAt.Some? ==> w.states[key].scheduledAt.value <= w.now)
    requires m in Run(w, events, hash).plugins && Run(w, events, hash).now > w.now + 30000
    ensures StateKey(n, hash(p)) !in Step(Run(w, events, hash), CollectPlugins(m, gone, forgot), hash).states
  {
    CrashedIsSilent(w, events, hash, n);
    hide Run, HexHash, StateKey;
  }

  /** A node that has crashed is not available any more 10 s later, and can be collected, unless it started again. */
  lemma CrashedNodeIsUnavailable(w: World, events: seq<Event>, hash: Identity -> string, n: NodeId, m: NodeId)
    requires HexHash(hash) && ':' !in n && n !in w.plugins && PlainNodes(w) && Start(n) !in events
    requires n in w.status ==> w.status[n] * 1000 <= w.now
    requires Run(w, events, hash).now >= w.now + 10000
    ensures !NodeAvailable(Run(w, events, hash), n)
    ensures m in Run(w, events, hash).plugins ==>
      n !in Step(Run(w, events, hash), CollectNode(m, n, {}, {}, true), hash).status
  {
    CrashedIsSilent(w, events, hash, n);
    hide Run, HexHash, StateKey;
  }

  /** A node that leaves in good order takes its status and all its states with it. */
  lemma LeavesNothing(w: World, hash: Identity -> string, n: NodeId, gone: set<string>)
    requires n in w.plugins && w.states.Keys <= gone
    ensures var t := Step(w, Leave(n, gone, true), hash);
            && n !in t.plugins && n !in t.status
            && (forall p :: StateKey(n, hash(p)) !in t.states)
            && forall k :: k in w.states && !OfNode(k, n) ==> k in t.states && t.states[k] == w.states[k]
  {
    forall p ensures OfNode(StateKey(n, hash(p)), n) {
      assert StateKey(n, hash(p))[..|n| + 1] == n + ":";
    }
  }

  /** One that is stopped on the way keeps its status, so that it is collected later. */
  lemma LeavesItsStatus(w: World, hash: Identity -> string, n: NodeId, gone: set<string>)
    requires n in w.plugins
    ensures var t := Step(w, Leave(n, gone, false), hash); n !in t.plugins && t.status == w.status
  {
  }

  /** An unregistered plugin is gone from its node and from the states, unless the call failed. */
  lemma UnregisteredIsGone(w: World, hash: Identity -> string, n: NodeId, p: Identity, fails: bool)
    requires n in w.plugins && p in w.plugins[n]
    ensures var t := Step(w, Unregister(n, p, fails), hash);
            && (Registered(t, n, p) <==> fails)
            && (!fails ==> StateKey(n, hash(p)) !in t.states)
  {
  }

  // ------------------------------------------------------------- one run

  const NOBODY := World(0, map[], map[], map[], map[], map[])

  lemma RunMore(w: World, events: seq<Event>, hash: Identity -> string, i: nat)
    requires i < |events|
    ensures Run(w, events[..i + 1], hash) == Step(Run(w, events[..i], hash), events[i], hash)
  {
    assert events[..i + 1][..i] == events[..i];
  }

  /** Nodes "a" and "b", of which "a" may run, with the plugin it registered scheduled at some time, if its state is still there. */
  function Two(hash: Identity -> string, p: Identity, now: nat, stored: bool, at: int, ping: int, running: bool): World {
    World(now,
          if stored then map[StateKey("a", hash(p)) := PluginState(p, Some(at))] else map[],
          map["a" := ping / 1000, "b" := 0],
          if running then map["a" := map[p := Some(at)], "b" := map[]] else map["b" := map[]],
          map["a" := map[p := at]],
          map["a" := ping, "b" := 0])
  }

  lemma Beginning(hash: Identity -> string, p: Identity)
    ensures Step(Step(Step(NOBODY, Start("a"), hash), Start("b"), hash), Register("a", p, false), hash)
         == Two(hash, p, 0, true, 0, 0, true)
  {
    hide StateKey;
    var u1 := World(0, map[], map["a" := 0], map["a" := map[]], map[], map["a" := 0]);
    var u2 := World(0, map[], map["a" := 0, "b" := 0], map["a" := map[], "b" := map[]], map[], map["a" := 0, "b" := 0]);
    assert Step(NOBODY, Start("a"), hash) == u1;
    assert Step(u1, Start("b"), hash) == u2;
    var t := Step(u2, Register("a", p, false), hash);
    assert t.visits["a"] == map[p := 0];
    assert t.plugins["a"] == map[p := Some(0)];
  }

  lemma Waiting(hash: Identity -> string, p: Identity, now: nat, d: nat, at: int, ping: int, running: bool)
    ensures Step(Two(hash, p, now, true, at, ping, running), Advance(d), hash) == Two(hash, p, now + d, true, at, ping, running)
  {
  }

  lemma Pinging(hash: Identity -> string, p: Identity)
    ensures Step(Two(hash, p, 12000, true, 0, 0, true), Ping("a"), hash) == Two(hash, p, 12000, true, 0, 12000, true)
  {
    hide StateKey;
    var status, lastPing := map["a" := 0, "b" := 0], map["a" := 0, "b" := 0];
    assert status["a" := 12] == map["a" := 12, "b" := 0] && lastPing["a" := 12000] == map["a" := 12000, "b" := 0];
  }

  lemma Visiting(hash: Identity -> string, p: Identity)
    ensures Step(Two(hash, p, 12000, true, 0, 12000, true), Visit("a", p, false), hash)
         == Two(hash, p, 12000, true, 12000, 12000, true)
  {
    hide StateKey;
    var w := Two(hash, p, 12000, true, 0, 12000, true);
    var key := StateKey("a", hash(p));
    assert AfterVisit(w.states, w.plugins["a"], "a", hash, p, 12000, false)
        == (map[key := PluginState(p, Some(12000))], map[p := Some(12000)]) by {
      assert w.states[key := PluginState(p, Some(12000))] == map[key := PluginState(p, Some(12000))];
      assert w.plugins["a"][p := Some(12000)] == map[p := Some(12000)];
    }
    hide AfterVisit;
    assert w.visits["a"][p := 12000] == map[p := 12000];
    assert w.visits["a" := map[p := 12000]] == map["a" := map[p := 12000]];
    assert w.plugins["a" := map[p := Some(12000)]] == map["a" := map[p := Some(12000)], "b" := map[]];
  }

  lemma Crashing(hash: Identity -> string, p: Identity)
    ensures Step(Two(hash, p, 12000, true, 12000, 12000, true), Crash("a"), hash) == Two(hash, p, 12000, true, 12000, 12000, false)
  {
    var plugins: map<NodeId, Plugins> := map["a" := map[p := Some(12000)], "b" := map[]];
    assert plugins - {"a"} == map["b" := map[]];
  }

  /** Node "b" has no plugins that it could forget. */
  lemma CollectingAt(hash: Identity -> string, p: Identity, now: nat)
    requires 42000 <= now <= 42001
    ensures Step(Two(hash, p, now, true, 12000, 12000, false), CollectPlugins("b", {StateKey("a", hash(p))}, {}), hash)
         == Two(hash, p, now, now == 42000, 12000, 12000, false)
  {
    hide StateKey;
    var w, key := Two(hash, p, now, true, 12000, 12000, false), StateKey("a", hash(p));
    assert AfterAutoGC(w.states, now, {key}) == if now == 42000 then map[key := PluginState(p, Some(12000))] else map[];
    assert AfterForgetting(w.states, w.plugins["b"], "b", hash, now, {}) == map[];
    hide AfterAutoGC, AfterForgetting;
    assert w.plugins["b" := map[]] == w.plugins;
  }

  lemma CollectingNode(hash: Identity -> string, p: Identity)
    ensures Step(Two(hash, p, 42001, false, 12000, 12000, false), CollectNode("b", "a", {}, {}, true), hash).status
         == map["b" := 0]
  {
    hide AfterNodeGC, AfterNodeForgetting, StateKey;
    var status := map["a" := 12, "b" := 0];
    assert status - {"a"} == map["b" := 0];
  }

  lemma RunThree(w: World, events: seq<Event>, hash: Identity -> string, i: nat)
    requires i + 3 <= |events|
    ensures Run(w, events[..i + 3], hash)
         == Step(Step(Step(Run(w, events[..i], hash), events[i], hash), events[i + 1], hash), events[i + 2], hash)
  {
    hide Step, Run;
    RunMore(w, events, hash, i);
    RunMore(w, events, hash, i + 1);
    RunMore(w, events, hash, i + 2);
  }

  lemma RunFirst(w: World, events: seq<Event>, hash: Identity -> string)
    requires 3 <= |events|
    ensures Run(w, events[..3], hash) == Step(Step(Step(w, events[0], hash), events[1], hash), events[2], hash)
  {
    assert events[..0] == [] && Run(w, [], hash) == w;
    RunThree(w, events, hash, 0);
  }

  /** What happens to a plugin of node "a" that crashes, and to that node. */
  ghost predicate Story(hash: Identity -> string, p: Identity, e: seq<Event>) {
    && |e| == 12
    && e[0] == Start("a") && e[1] == Start("b") && e[2] == Register("a", p, false)
    && e[3] == Advance(12000) && e[4] == Ping("a") && e[5] == Visit("a", p, false)
    && e[6] == Crash("a") && e[7] == Advance(30000) && e[8] == CollectPlugins("b", {StateKey("a", hash(p))}, {})
    && e[9] == Advance(1) && e[10] == e[8] && e[11] == CollectNode("b", "a", {}, {}, true)
  }

  lemma StoryBegins(hash: Identity -> string, p: Identity, e: seq<Event>)
    requires Story(hash, p, e)
    ensures Run(NOBODY, e[..3], hash) == Two(hash, p, 0, true, 0, 0, true)
  {
    hide Run, Step, Two, StateKey;
    RunFirst(NOBODY, e, hash);
    Beginning(hash, p);
  }

  lemma StoryGoesOn(hash: Identity -> string, p: Identity, e: seq<Event>)
    requires Story(hash, p, e)
    ensures Run(NOBODY, e[..6], hash) == Two(hash, p, 12000, true, 12000, 12000, true)
  {
    hide Run, Step, Two, StateKey;
    StoryBegins(hash, p, e);
    RunThree(NOBODY, e, hash, 3);
    Waiting(hash, p, 0, 12000, 0, 0, true);
    Pinging(hash, p);
    Visiting(hash, p);
  }

  lemma StoryTurns(hash: Identity -> string, p: Identity, e: seq<Event>)
    requires Story(hash, p, e)
    ensures Run(NOBODY, e[..9], hash) == Two(hash, p, 42000, true, 12000, 12000, false)
  {
    hide Run, Step, Two, StateKey;
    StoryGoesOn(hash, p, e);
    RunThree(NOBODY, e, hash, 6);
    Crashing(hash, p);
    Waiting(hash, p, 12000, 30000, 12000, 12000, false);
    CollectingAt(hash, p, 42000);
  }

  /**
   Node "a" registers a plugin and refreshes it after 12 s. It crashes, and node "b" collects: 30 s after the refresh the
   state is still there, and 1 ms later it is gone, and so is the node.
   */
  lemma CrashAndCollection(hash: Identity -> string, p: Identity, e: seq<Event>)
    requires Story(hash, p, e)
    ensures Run(NOBODY, e[..9], hash).states == map[StateKey("a", hash(p)) := PluginState(p, Some(12000))]
    ensures Run(NOBODY, e[..11], hash).states == map[]
    ensures Run(NOBODY, e, hash).status == map["b" := 0]
  {
    StoryTurns(hash, p, e);
    assert e[..12] == e;
    hide Run, Step, StateKey;
    RunMore(NOBODY, e, hash, 9);
    Waiting(hash, p, 42000, 1, 12000, 12000, false);
    RunMore(NOBODY, e, hash, 10);
    CollectingAt(hash, p, 42001);
    RunMore(NOBODY, e, hash, 11);
    CollectingNode(hash, p);
  }

  // ------------------------------------------------------------- a scheduler tick in a run

  function VisitEvents(n: NodeId, order: seq<Identity>, fails: Identity -> bool): seq<Event> {
    seq(|order|, i requires 0 <= i < |order| => Visit(n, order[i], fails(order[i])))
  }

  /** What SchedulePlugins does to the states and to its node's memory is the run of its visits. */
  lemma {:induction false} TickIsVisits(w: World, hash: Identity -> string, n: NodeId, order: seq<Identity>, fails: Identity -> bool)
    requires n in w.plugins
    ensures var after := Run(w, VisitEvents(n, order, fails), hash);
            && after.now == w.now && n in after.plugins
            && (after.states, after.plugins[n]) == AfterVisits(w.states, w.plugins[n], n, hash, order, w.now, fails)
  {
    if order != [] {
      var init := order[..|order| - 1];
      TickIsVisits(w, hash, n, init, fails);
      assert VisitEvents(n, order, fails)[..|order| - 1] == VisitEvents(n, init, fails);
    }
  }
}
