/**
 The registration of a debugging plugin over its connection
 (internal/core/debugging_runtime/hooks.go, runtime_intialization_handlers.go).

 What a message means to the daemon and how files are stored are parameters (Env).
 Notifiers, timers and the bytes written back are left out.
 */
module Registration {
  import opened Wrappers
  import opened LineFramer
  import opened MapTotals
  import opened Declarations
  import opened Drafts
  import Base64

  type Message = seq<Byte>

  datatype Env = Env(parse: Message -> Payload, upload: Upload, maxConn: int)

  /** listed: the server still has the runtime in its map, that is, it has not handled the end of the connection. */
  datatype State = State(
    closed: bool, listed: bool, handshake: bool, handshakeFailed: bool, initialized: bool, tenantId: string,
    draft: Draft, response: seq<Message>)

  const OPENED := State(false, true, false, false, false, "", NO_DRAFT, [])

  function AfterMessage(env: Env, s: State, currentConn: int, message: Message): State {
    if s.handshakeFailed then s
    else if s.initialized then s.(response := s.response + [message])
    else match env.parse(message)
      case Malformed => s.(closed := true, handshakeFailed := true)
      case HandShake(lookup) =>
        if s.handshake || !lookup.Connection? then s.(handshakeFailed := true, closed := true)
        else s.(tenantId := lookup.tenantId, handshake := true)
      case payload =>
        if !s.handshake then s.(handshakeFailed := true, closed := true)
        else
          var h := Handle(env.upload, s.draft, payload, currentConn <= env.maxConn);
          s.(draft := h.draft, closed := s.closed || !h.ok, initialized := h.ok && payload.End?)
  }

  /** An END message counts a connection before anything is checked. */
  function ConnAfter(env: Env, s: State, currentConn: int, message: Message): int {
    if !s.handshakeFailed && !s.initialized && s.handshake && env.parse(message) == End then currentConn + 1
    else currentConn
  }

  // ------------------------------------------------------------- server and runtime objects

  type Fd = int

  class DifyServer {
    const env: Env
    var currentConn: int
    var plugins: map<Fd, RemotePluginRuntime>

    constructor (env: Env)
      ensures this.env == env && currentConn == 0 && plugins == map[]
    {
      this.env := env;
      currentConn, plugins := 0, map[];
    }

    /** Where the connection of a runtime stands, and the server's counter. */
    ghost function View(fd: Fd, runtime: RemotePluginRuntime): (State, int)
      reads this, runtime
    {
      (runtime.View(fd in plugins && plugins[fd] == runtime), currentConn)
    }

    method OnOpen(fd: Fd) returns (runtime: RemotePluginRuntime, codec: Codec)
      modifies this`plugins
      ensures fresh(runtime) && fresh(codec) && codec.Valid() && codec.buf == []
      ensures plugins == old(plugins)[fd := runtime] && View(fd, runtime) == (OPENED, currentConn)
    {
      codec := new Codec();
      runtime := new RemotePluginRuntime();
      plugins := plugins[fd := runtime];
    }

    /** The end of a connection: the server forgets the runtime and counts one connection less. */
    method OnClose(fd: Fd, ghost runtime: RemotePluginRuntime)
      requires fd in plugins ==> plugins[fd] == runtime
      modifies this, runtime`closed
      ensures plugins == old(plugins) - {fd}
      ensures currentConn == old(currentConn) - (if fd in old(plugins) then 1 else 0)
      ensures fd in old(plugins) ==> runtime.closed
      ensures View(fd, runtime) == Step(env, old(View(fd, runtime)), Disconnected)
    {
      if fd !in plugins {
        return;
      }
      var plugin := plugins[fd];
      plugins := plugins - {fd};
      plugin.CleanupResources();
      currentConn := currentConn - 1;
    }

    method OnMessage(runtime: RemotePluginRuntime, message: Message)
      modifies this`currentConn, runtime
      ensures currentConn == ConnAfter(env, old(runtime.View(true)), old(currentConn), message)
      ensures runtime.View(true) == AfterMessage(env, old(runtime.View(true)), currentConn, message)
    {
      hide AfterAsset, AfterEnd, AfterManifest, AfterProviders;
      if runtime.handshakeFailed {
        return;
      }
      if runtime.initialized {
        runtime.response := runtime.response + [message];
        return;
      }
      var payload := env.parse(message);
      if payload.Malformed? {
        runtime.closed := true;
        runtime.handshakeFailed := true;
        return;
      }
      if !runtime.handshake && !payload.HandShake? {
        runtime.handshakeFailed := true;
        runtime.closed := true;
        return;
      }
      var ok := true;
      match payload {
        case HandShake(lookup) =>
          var tenantId := runtime.HandleHandShake(lookup);
          if tenantId.None? {
            runtime.handshakeFailed := true;
            ok := false;
          } else {
            runtime.tenantId := tenantId.value;
            runtime.handshake := true;
          }
        case AssetChunk(chunk) =>
          ok := runtime.HandleAssetsTransfer(chunk);
        case End =>
          currentConn := currentConn + 1;
          if currentConn > env.maxConn {
            ok := false;
          } else {
            ok := runtime.HandleInitializationEndEvent(env.upload);
          }
        case Manifest(declaration) =>
          ok := runtime.HandleDeclarationRegister(declaration);
        case Providers(kind, declarations) =>
          ok := runtime.HandleProviderRegister(kind, declarations);
        case _ =>
      }
      if !ok {
        runtime.closed := true;
      }
    }

    /**
     One traffic event: the lines a chunk completes are handled in order, empty ones skipped, as long as the server has
     the runtime.
     */
    method OnTraffic(fd: Fd, codec: Codec, data: seq<Byte>, ghost runtime: RemotePluginRuntime)
      returns (ghost lines: seq<Message>)
      requires codec.Valid() && (fd in plugins ==> plugins[fd] == runtime)
      modifies this`currentConn, runtime, codec
      ensures codec.Valid() && Unbroken(lines) && Framed(lines) + codec.buf == old(codec.buf) + data
      ensures View(fd, runtime) == Run(env, old(View(fd, runtime)), Messages(NonEmpty(lines)))
    {
      hide AfterMessage, ConnAfter, Run, Framed;
      var messages := codec.GetLines(data);
      lines := messages;
      if fd !in plugins {
        DisconnectIsFinal(env, View(fd, runtime), Messages(NonEmpty(lines)));
        return;
      }
      var plugin := plugins[fd];
      RunNothing(env, View(fd, runtime));
      assert Messages([]) == [];
      for i := 0 to |messages|
        invariant View(fd, runtime) == Run(env, old(View(fd, runtime)), Messages(NonEmpty(messages[..i])))
        invariant codec.Valid() && Framed(lines) + codec.buf == old(codec.buf) + data
      {
        assert messages[..i + 1][..i] == messages[..i];
        ghost var handled := NonEmpty(messages[..i]);
        if |messages[i]| == 0 {
          assert NonEmpty(messages[..i + 1]) == handled;
          continue;
        }
        OnMessage(plugin, messages[i]);
        assert NonEmpty(messages[..i + 1]) == handled + [messages[i]];
        assert Messages(handled + [messages[i]]) == Messages(handled) + [Received(messages[i])];
        RunOne(env, old(View(fd, runtime)), Messages(handled), Received(messages[i]));
      }
      assert messages[..|messages|] == messages;
    }

    /**
     A whole connection: however the plugin's bytes are cut into traffic events, the runtime and the counter end up as
     if the complete, non-empty lines of the byte stream had been handled one by one, and then the end of the connection.
     */
    method Serve(fd: Fd, chunks: seq<seq<Byte>>) returns (runtime: RemotePluginRuntime)
      modifies this
      ensures fresh(runtime) && plugins == old(plugins) - {fd}
      ensures View(fd, runtime)
           == Run(env, (OPENED, old(currentConn)), Messages(NonEmpty(Reading(chunks).0)) + [Disconnected])
      ensures var messages := NonEmpty(Reading(chunks).0);
              currentConn == old(currentConn) - 1 + EndsCounted(env, (OPENED, old(currentConn)), Messages(messages) + [Disconnected])
    {
      var codec;
      runtime, codec := OnOpen(fd);
      ghost var start, lines := View(fd, runtime), [];
      RunNothing(env, start);
      assert Messages([]) == [] && chunks[..0] == [];
      assert Served(env, start, start, lines, codec.buf, Concat(chunks[..0]));
      hide *;
      for i := 0 to |chunks|
        invariant codec.Valid() && plugins == old(plugins)[fd := runtime]
        invariant Served(env, start, View(fd, runtime), lines, codec.buf, Concat(chunks[..i]))
      {
        ghost var mid, before := View(fd, runtime), codec.buf;
        ghost var more := OnTraffic(fd, codec, chunks[i], runtime);
        ServedMore(env, start, mid, View(fd, runtime), lines, more, before, codec.buf, Concat(chunks[..i]), chunks[i]);
        ConcatOneMore(chunks, i);
        lines := lines + more;
      }
      assert chunks[..|chunks|] == chunks;
      ServedExactly(env, start, View(fd, runtime), lines, codec.buf, chunks);
      OnClose(fd, runtime);
      RunOne(env, start, Messages(NonEmpty(Reading(chunks).0)), Disconnected);
      CounterOfWhole(env, start, NonEmpty(Reading(chunks).0));
    }
  }

  class RemotePluginRuntime {
    var closed: bool
    var handshake: bool
    var handshakeFailed: bool
    var initialized: bool
    var tenantId: string
    var registrationTransferred: bool
    var transferred: set<Kind>
    var assetsTransferred: bool
    var config: Declaration
    var assets: Assets
    var assetsBytes: int
    var response: seq<Message>

    ghost function Drafted(): Draft
      reads this
    {
      Draft(registrationTransferred, transferred, assetsTransferred, config, assets, assetsBytes)
    }

    /** The runtime, listed by the server or not. */
    ghost function View(listed: bool): State
      reads this
    {
      State(closed, listed, handshake, handshakeFailed, initialized, tenantId, Drafted(), response)
    }

    constructor ()
      ensures View(true) == OPENED
    {
      closed, handshake, handshakeFailed, initialized, tenantId := false, false, false, false, "";
      registrationTransferred, transferred, assetsTransferred := false, {}, false;
      config, assets, assetsBytes, response := NO_DECLARATION, map[], 0, [];
    }

    method CleanupResources()
      modifies this`closed
      ensures closed
    {
      closed := true;
    }

    method HandleHandShake(lookup: Lookup) returns (tenantId: Option<string>)
      ensures tenantId == if handshake || !lookup.Connection? then None else Some(lookup.tenantId)
    {
      if handshake {
        return None;
      }
      match lookup {
        case Connection(id) => return Some(id);
        case _ => return None;
      }
    }

    method HandleAssetsTransfer(chunk: Chunk) returns (ok: bool)
      modifies this`assets, this`assetsBytes
      ensures Handled(Drafted(), ok) == AfterAsset(old(Drafted()), chunk)
    {
      if chunk.BadChunk? {
        return false;
      }
      var filename, data := chunk.filename, chunk.data;
      if filename !in assets {
        assets := assets[filename := []];
      }
      OpenedChunk(old(assets), filename);
      if assetsBytes + |data| > MAX_ASSETS_BYTES {
        return false;
      }
      var decoded := Base64.Decode(data);
      if decoded.None? {
        return false;
      }
      assets := assets[filename := assets[filename] + decoded.value];
      assetsBytes := assetsBytes + |decoded.value|;
      AppendedChunk(old(assets), filename, decoded.value);
      return true;
    }

    method HandleInitializationEndEvent(upload: Upload) returns (ok: bool)
      modifies this`config, this`assetsTransferred, this`initialized
      ensures Handled(Drafted(), ok) == AfterEnd(upload, old(Drafted()))
      ensures initialized == (old(initialized) || ok)
    {
      hide Remap, ManifestValidate;
      if transferred == {} {
        return false;
      }
      var remapped := RemapAssets(upload, config, assets);
      config := remapped.result;
      if !remapped.ok {
        return false;
      }
      assetsTransferred := true;
      if !ManifestValidate(config) {
        return false;
      }
      initialized := true;
      return true;
    }

    method HandleDeclarationRegister(declaration: Option<Declaration>) returns (ok: bool)
      modifies this`config, this`registrationTransferred
      ensures Handled(Drafted(), ok) == AfterManifest(old(Drafted()), declaration)
    {
      if registrationTransferred || declaration.None? {
        return false;
      }
      config := declaration.value;
      registrationTransferred := true;
      return true;
    }

    /** The six provider declarations: each at most once; the first provider of the list is kept. */
    method HandleProviderRegister(kind: Kind, declarations: Option<seq<Provider>>) returns (ok: bool)
      modifies this`config, this`transferred
      ensures Handled(Drafted(), ok) == AfterProviders(old(Drafted()), kind, declarations)
    {
      if kind in transferred || declarations.None? {
        return false;
      }
      var list := declarations.value;
      transferred := transferred + {kind};
      if |list| > 0 {
        config := config.(providers := config.providers[kind := list[0]]);
      }
      return true;
    }
  }

  // ------------------------------------------------------------- runs

  /** A message on this connection, the end of the connection, or other connections changing the server's counter. */
  datatype Event = Received(message: Message) | Disconnected | Others(currentConn: int)

  function Messages(messages: seq<Message>): seq<Event> {
    seq(|messages|, i requires 0 <= i < |messages| => Received(messages[i]))
  }

  function Step(env: Env, s: (State, int), e: Event): (State, int) {
    match e
    case Others(conn) => (s.0, conn)
    case Disconnected => if s.0.listed then (s.0.(closed := true, listed := false), s.1 - 1) else s
    case Received(m) =>
      if !s.0.listed then s
      else
        var conn := ConnAfter(env, s.0, s.1, m);
        (AfterMessage(env, s.0, conn, m), conn)
  }

  function Run(env: Env, s: (State, int), events: seq<Event>): (State, int) {
    if events == [] then s else Step(env, Run(env, s, events[..|events| - 1]), events[|events| - 1])
  }

  lemma RunNothing(env: Env, s: (State, int))
    ensures Run(env, s, []) == s
  {
  }

  lemma RunOne(env: Env, s: (State, int), events: seq<Event>, e: Event)
    ensures Run(env, s, events + [e]) == Step(env, Run(env, s, events), e)
  {
    assert (events + [e])[..|events|] == events;
  }

  lemma {:induction false} RunAppend(env: Env, s: (State, int), a: seq<Event>, b: seq<Event>)
    ensures Run(env, s, a + b) == Run(env, Run(env, s, a), b)
    decreases |b|
  {
    if b == [] {
      assert a + b == a;
    } else {
      RunAppend(env, s, a, b[..|b| - 1]);
      assert (a + b)[..|a + b| - 1] == a + b[..|b| - 1];
    }
  }

  /** Handling the lines of two traffic events in turn is handling all of them. */
  lemma RunMore(env: Env, s: (State, int), lines: seq<Message>, more: seq<Message>)
    ensures Run(env, s, Messages(NonEmpty(lines + more)))
         == Run(env, Run(env, s, Messages(NonEmpty(lines))), Messages(NonEmpty(more)))
  {
    NonEmptyAppend(lines, more);
    assert Messages(NonEmpty(lines + more)) == Messages(NonEmpty(lines)) + Messages(NonEmpty(more));
    RunAppend(env, s, Messages(NonEmpty(lines)), Messages(NonEmpty(more)));
  }

  /** Where a connection stands: the complete lines of what was seen have been handled, the rest is buffered. */
  ghost predicate Served(
      env: Env, start: (State, int), now: (State, int), lines: seq<Message>, buf: seq<Byte>, seen: seq<Byte>)
  {
    && Unbroken(lines) && NEWLINE !in buf && Framed(lines) + buf == seen
    && now == Run(env, start, Messages(NonEmpty(lines)))
  }

  lemma ServedMore(
      env: Env, start: (State, int), mid: (State, int), now: (State, int), lines: seq<Message>, more: seq<Message>,
      before: seq<Byte>, buf: seq<Byte>, seen: seq<Byte>, chunk: seq<Byte>)
    requires Served(env, start, mid, lines, before, seen)
    requires Unbroken(more) && NEWLINE !in buf && Framed(more) + buf == before + chunk
    requires now == Run(env, mid, Messages(NonEmpty(more)))
    ensures Served(env, start, now, lines + more, buf, seen + chunk)
  {
    hide Run, NonEmpty, Messages;
    FramedAppend(lines, more);
    hide Framed;
    assert Framed(lines) + Framed(more) + buf == Framed(lines) + (Framed(more) + buf);
    assert Framed(lines) + (before + chunk) == seen + chunk;
    RunMore(env, start, lines, more);
  }

  /** The lines handled over a connection are the complete lines of its stream. */
  lemma ServedExactly(
      env: Env, start: (State, int), now: (State, int), lines: seq<Message>, buf: seq<Byte>, chunks: seq<seq<Byte>>)
    requires Served(env, start, now, lines, buf, Concat(chunks))
    ensures now == Run(env, start, Messages(NonEmpty(Reading(chunks).0)))
  {
    hide Run, NonEmpty, Reading;
    ReadingIsOfTheStream(chunks);
    OneReading(lines, buf, Reading(chunks).0, Reading(chunks).1);
  }

  ghost predicate Inv(s: State) {
    && (s.initialized ==> s.handshake && !s.handshakeFailed && s.draft.transferred != {} && s.draft.assetsTransferred)
    && (!s.handshake ==> s.draft == NO_DRAFT && s.tenantId == "")
    && (s.response != [] ==> s.initialized)
    && (s.closed ==> s.handshake || s.handshakeFailed || !s.listed)
    && (s.handshakeFailed ==> s.closed)
    && (!s.listed ==> s.closed)
    && DraftInv(s.draft)
  }

  lemma EndTransfers(upload: Upload, d: Draft, room: bool)
    requires Handle(upload, d, End, room).ok
    ensures var t := Handle(upload, d, End, room).draft; t.transferred != {} && t.assetsTransferred
  {
    hide Remap, ManifestValidate;
  }

  lemma StepKeepsInv(env: Env, s: (State, int), e: Event)
    requires Inv(s.0)
    ensures Inv(Step(env, s, e).0)
  {
    hide Handle, DraftInv;
    if e.Received? {
      var payload, room := env.parse(e.message), ConnAfter(env, s.0, s.1, e.message) <= env.maxConn;
      HandlersKeepInv(env.upload, s.0.draft, payload, room);
      if payload.End? && Handle(env.upload, s.0.draft, payload, room).ok {
        EndTransfers(env.upload, s.0.draft, room);
      }
    }
  }

  /** Every reachable state of a connection satisfies the registration invariants. */
  lemma {:induction false} ReachableInv(env: Env, conn: int, events: seq<Event>)
    ensures Inv(Run(env, (OPENED, conn), events).0)
  {
    if events == [] {
      assert Total(NO_DRAFT.assets) == 0;
    } else {
      ReachableInv(env, conn, events[..|events| - 1]);
      StepKeepsInv(env, Run(env, (OPENED, conn), events[..|events| - 1]), events[|events| - 1]);
    }
  }

  /** Two states that differ at most in what became of the connection. */
  predicate SameButConnection(s: State, t: State) {
    t == s.(closed := t.closed, listed := t.listed)
  }

  /** A failed handshake is final: no later message has any effect. */
  lemma {:induction false} FailureIsAbsorbing(env: Env, s: (State, int), events: seq<Event>)
    requires s.0.handshakeFailed
    ensures SameButConnection(s.0, Run(env, s, events).0)
  {
    if events != [] {
      FailureIsAbsorbing(env, s, events[..|events| - 1]);
    }
  }

  /** The end of the connection is final, too: whatever still arrives, neither the runtime nor the counter is touched. */
  lemma {:induction false} DisconnectIsFinal(env: Env, s: (State, int), events: seq<Event>)
    requires !s.0.listed
    ensures Run(env, s, events).0 == s.0
    ensures (forall e :: e in events ==> !e.Others?) ==> Run(env, s, events).1 == s.1
  {
    if events != [] {
      hide AfterMessage, ConnAfter;
      var before, last := events[..|events| - 1], events[|events| - 1];
      assert events == before + [last];
      DisconnectIsFinal(env, s, before);
    }
  }

  /** Once the manifest is taken, names and what was declared under each kind stand, whatever a plugin sends later. */
  lemma {:induction false} DeclarationStands(env: Env, s: (State, int), events: seq<Event>)
    requires s.0.draft.registrationTransferred
    ensures var d, t := s.0.draft, Run(env, s, events).0.draft;
            && t.registrationTransferred && t.config.author == d.config.author && t.config.name == d.config.name
            && d.transferred <= t.transferred
            && forall k :: k in d.transferred ==> NameOf(t, k) == NameOf(d, k)
  {
    if events != [] {
      hide NameOf, Handle;
      DeclarationStands(env, s, events[..|events| - 1]);
      var before, last := Run(env, s, events[..|events| - 1]), events[|events| - 1];
      if last.Received? {
        DeclaredStands(env.upload, before.0.draft, env.parse(last.message),
                       ConnAfter(env, before.0, before.1, last.message) <= env.maxConn);
      }
    }
  }

  // ------------------------------------------------------------- the server's counter

  /** This END is counted: its connection has made its handshake, and the registration neither failed nor was completed. */
  ghost predicate CountsEnd(env: Env, s: State, e: Event) {
    && e.Received? && env.parse(e.message) == End
    && s.listed && s.handshake && !s.handshakeFailed && !s.initialized
  }

  /** How many ENDs of a run are counted. */
  ghost function EndsCounted(env: Env, s: (State, int), events: seq<Event>): nat {
    if events == [] then 0
    else
      var before := events[..|events| - 1];
      EndsCounted(env, s, before) + if CountsEnd(env, Run(env, s, before).0, events[|events| - 1]) then 1 else 0
  }

  /**
   What a connection does to the counter: each END that is counted, accepted or not, adds one, and the end of the
   connection takes one away, whatever it had added.
   */
  lemma {:induction false} CounterLaw(env: Env, s: (State, int), events: seq<Event>)
    requires forall e :: e in events ==> !e.Others?
    ensures Run(env, s, events).1
         == s.1 + EndsCounted(env, s, events) - (if s.0.listed && Disconnected in events then 1 else 0)
    ensures Run(env, s, events).0.listed <==> s.0.listed && Disconnected !in events
  {
    if events != [] {
      hide AfterMessage;
      var before, last := events[..|events| - 1], events[|events| - 1];
      assert events == before + [last];
      CounterLaw(env, s, before);
      if last.Received? {
        var t := Run(env, s, before);
        MessageLeavesListed(env, t.0, ConnAfter(env, t.0, t.1, last.message), last.message);
      }
    }
  }

  lemma MessageLeavesListed(env: Env, s: State, conn: int, message: Message)
    ensures AfterMessage(env, s, conn, message).listed == s.listed
  {
    hide Handle;
  }

  lemma CounterOfWhole(env: Env, s: (State, int), messages: seq<Message>)
    requires s.0 == OPENED
    ensures var run := Messages(messages) + [Disconnected]; Run(env, s, run).1 == s.1 - 1 + EndsCounted(env, s, run)
  {
    CounterLaw(env, s, Messages(messages) + [Disconnected]);
  }

  /** A whole connection leaves the counter as it was exactly when one of its ENDs was counted; without any, it lowers it. */
  lemma CounterReturnsExactlyWhen(env: Env, conn: int, messages: seq<Message>)
    ensures var run := Messages(messages) + [Disconnected];
            Run(env, (OPENED, conn), run).1 == conn <==> EndsCounted(env, (OPENED, conn), run) == 1
    ensures (forall m :: m in messages ==> env.parse(m) != End) ==>
      Run(env, (OPENED, conn), Messages(messages) + [Disconnected]).1 == conn - 1
  {
    var run := Messages(messages) + [Disconnected];
    CounterLaw(env, (OPENED, conn), run);
    if forall m :: m in messages ==> env.parse(m) != End {
      NoEnds(env, (OPENED, conn), run);
    }
  }

  lemma {:induction false} NoEnds(env: Env, s: (State, int), events: seq<Event>)
    requires forall e :: e in events && e.Received? ==> env.parse(e.message) != End
    ensures EndsCounted(env, s, events) == 0
  {
    if events != [] {
      NoEnds(env, s, events[..|events| - 1]);
      assert events[|events| - 1] in events;
    }
  }

  lemma StepKeepsTenant(env: Env, s: (State, int), e: Event)
    requires s.0.handshake
    ensures Step(env, s, e).0.handshake && Step(env, s, e).0.tenantId == s.0.tenantId
  {
    hide Handle;
  }

  /** The tenant is fixed by the handshake. */
  lemma {:induction false} TenantIsFixed(env: Env, s: (State, int), events: seq<Event>)
    requires s.0.handshake
    ensures Run(env, s, events).0.handshake && Run(env, s, events).0.tenantId == s.0.tenantId
  {
    if events != [] {
      hide Step;
      TenantIsFixed(env, s, events[..|events| - 1]);
      StepKeepsTenant(env, Run(env, s, events[..|events| - 1]), events[|events| - 1]);
    }
  }

  /** The messages that arrive before the end of the connection, in order. */
  function Heard(events: seq<Event>): seq<Message> {
    if events == [] then []
    else
      var before, last := events[..|events| - 1], events[|events| - 1];
      Heard(before) + (if last.Received? && Disconnected !in before then [last.message] else [])
  }

  /**
   Once initialised, a runtime only passes messages on: each goes to the response stream, in order, until the
   connection ends.
   */
  lemma {:induction false} InitialisedOnlyDelivers(env: Env, s: (State, int), events: seq<Event>)
    requires s.0.initialized && !s.0.handshakeFailed && s.0.listed
    ensures var t := s.0.(response := s.0.response + Heard(events));
            Run(env, s, events).0 == if Disconnected in events then t.(closed := true, listed := false) else t
  {
    if events != [] {
      hide Step;
      var before, last := events[..|events| - 1], events[|events| - 1];
      InitialisedOnlyDelivers(env, s, before);
      DeliveryStep(env, Run(env, s, before), last);
      assert events == before + [last];
      assert s.0.response + Heard(before) + [] == s.0.response + Heard(before);
    }
  }

  lemma DeliveryStep(env: Env, s: (State, int), e: Event)
    requires s.0.initialized && !s.0.handshakeFailed
    ensures Step(env, s, e).0
         == if s.0.listed && e.Received? then s.0.(response := s.0.response + [e.message])
            else if s.0.listed && e.Disconnected? then s.0.(closed := true, listed := false)
            else s.0
  {
    hide Handle;
  }

  lemma NothingDeliveredEarlier(env: Env, s: (State, int), e: Event)
    requires Inv(s.0) && !s.0.initialized
    ensures Step(env, s, e).0.response == []
    ensures Step(env, s, e).0.initialized ==> Step(env, s, e).0.listed
  {
    hide Handle;
  }

  /**
   Exactly the messages after initialisation reach the response stream: if the runtime is initialised once
   the first i events are handled and not before, the stream holds the messages after them, as long as the connection
   lasts.
   */
  lemma OnlyLaterMessagesDelivered(env: Env, conn: int, events: seq<Event>, i: nat)
    requires 0 < i <= |events|
    requires Run(env, (OPENED, conn), events[..i]).0.initialized
    requires !Run(env, (OPENED, conn), events[..i - 1]).0.initialized
    ensures Run(env, (OPENED, conn), events).0.response == Heard(events[i..])
  {
    hide AfterMessage, ConnAfter;
    var s := Run(env, (OPENED, conn), events[..i]);
    ReachableInv(env, conn, events[..i]);
    ReachableInv(env, conn, events[..i - 1]);
    assert events[..i][..i - 1] == events[..i - 1];
    NothingDeliveredEarlier(env, Run(env, (OPENED, conn), events[..i - 1]), events[i - 1]);
    InitialisedOnlyDelivers(env, s, events[i..]);
    RunAppend(env, (OPENED, conn), events[..i], events[i..]);
    assert events[..i] + events[i..] == events;
  }

  // ------------------------------------------------------------- when a runtime is initialised

  /**
   A message initialises a runtime exactly by passing every guard of END: the server still has the runtime, the handshake
   was made and has not failed, there is room for the connection, some provider kind was declared, every asset the
   declaration names can be had and the declaration passes the manifest check. Whether the connection is closed is none
   of them.
   */
  lemma InitialisedExactlyBy(env: Env, s: (State, int), message: Message)
    requires !s.0.initialized
    ensures Step(env, s, Received(message)).0.initialized <==>
      && s.0.listed && !s.0.handshakeFailed && s.0.handshake
      && env.parse(message) == End && s.1 + 1 <= env.maxConn
      && s.0.draft.transferred != {}
      && AllSupplied(env.upload, s.0.draft.config, s.0.draft.assets) && ManifestValidate(s.0.draft.config)
  {
    hide AfterAsset, AfterEnd, AfterManifest, AfterProviders, ManifestValidate, AllSupplied;
    EndSucceedsExactlyWhen(env.upload, s.0.draft);
  }

  /** Two runtimes that differ at most in whether their connections are closed. */
  predicate SameButClosed(s: State, t: State) {
    t == s.(closed := t.closed)
  }

  lemma StepIgnoresClosing(env: Env, s: (State, int), t: (State, int), e: Event)
    requires SameButClosed(s.0, t.0) && s.1 == t.1
    ensures SameButClosed(Step(env, s, e).0, Step(env, t, e).0) && Step(env, s, e).1 == Step(env, t, e).1
  {
    hide Handle;
  }

  /**
   That a connection is closed makes no difference to registration: until the server handles the end of the connection,
   messages have the same effect as before.
   */
  lemma {:induction false} RunIgnoresClosing(env: Env, s: State, t: State, conn: int, events: seq<Event>)
    requires SameButClosed(s, t)
    ensures SameButClosed(Run(env, (s, conn), events).0, Run(env, (t, conn), events).0)
    ensures Run(env, (s, conn), events).1 == Run(env, (t, conn), events).1
  {
    if events != [] {
      hide SameButClosed, Step;
      RunIgnoresClosing(env, s, t, conn, events[..|events| - 1]);
      StepIgnoresClosing(env, Run(env, (s, conn), events[..|events| - 1]), Run(env, (t, conn), events[..|events| - 1]),
                         events[|events| - 1]);
    }
  }

  ghost predicate CanBeInitialised(env: Env, s: (State, int)) {
    exists events :: Run(env, s, events).0.initialized
  }

  lemma RunFirst(env: Env, s: (State, int), events: seq<Event>)
    requires events != []
    ensures Run(env, s, events) == Run(env, Step(env, s, events[0]), events[1..])
  {
    assert events == events[..1] + events[1..];
    RunAppend(env, s, events[..1], events[1..]);
    RunOne(env, s, [], events[0]);
    assert events[..1] == [] + [events[0]];
  }

  lemma InitialisedLater(env: Env, s: (State, int), e: Event)
    requires CanBeInitialised(env, Step(env, s, e))
    ensures CanBeInitialised(env, s)
  {
    var events :| Run(env, Step(env, s, e), events).0.initialized;
    RunFirst(env, s, [e] + events);
    assert ([e] + events)[1..] == events;
  }

  ghost predicate CanSend(env: Env, payload: Payload) {
    exists m :: env.parse(m) == payload
  }

  ghost predicate CanSendOne(env: Env, kind: Kind) {
    exists p :: CanSend(env, Providers(kind, Some([p])))
  }

  ghost predicate CanSendFile(env: Env, file: string) {
    exists data :: CanSend(env, AssetChunk(Chunk(file, data)))
  }

  /**
   What plugins can send: END, some manifest that passes the check, an empty list of providers of any kind, one provider of
   any kind, and a chunk of any file that has a name. Files can be stored.
   */
  ghost predicate Expressive(env: Env) {
    && env.maxConn >= 1 && (forall file, data :: env.upload(file, data).Some?)
    && CanSend(env, End)
    && (exists d :: ManifestValidate(d) && CanSend(env, Manifest(Some(d))))
    && (forall k :: CanSend(env, Providers(k, Some([]))))
    && (forall k :: CanSendOne(env, k))
    && (forall file :: file != "" ==> CanSendFile(env, file))
  }

  predicate Registering(s: State) {
    s.listed && s.handshake && !s.handshakeFailed && !s.initialized
  }

  lemma EndInitialises(env: Env, s: (State, int))
    requires CanSend(env, End) && env.maxConn >= 1 && Registering(s.0) && s.0.draft.transferred != {}
    requires ManifestValidate(s.0.draft.config) && AllSupplied(env.upload, s.0.draft.config, s.0.draft.assets)
    ensures CanBeInitialised(env, s)
  {
    hide ManifestValidate, AllSupplied;
    var end :| env.parse(end) == End;
    var quiet := Step(env, s, Others(0));
    InitialisedExactlyBy(env, quiet, end);
    hide Step;
    var done := Step(env, quiet, Received(end));
    assert Run(env, done, []).0.initialized;
    InitialisedLater(env, quiet, Received(end));
    InitialisedLater(env, s, Others(0));
  }

  lemma ChunkStep(env: Env, s: (State, int), m: Message, chunk: Chunk)
    requires Registering(s.0) && chunk.Chunk? && env.parse(m) == AssetChunk(chunk)
    ensures var t := Step(env, s, Received(m));
            && Registering(t.0) && t.1 == s.1
            && t.0.draft.assets.Keys == s.0.draft.assets.Keys + {chunk.filename}
            && t.0.draft == s.0.draft.(assets := t.0.draft.assets, assetsBytes := t.0.draft.assetsBytes)
  {
    ChunkIsKnown(s.0.draft, chunk);
    hide AfterAsset;
  }

  lemma ManifestStep(env: Env, s: (State, int), m: Message, d: Declaration)
    requires Registering(s.0) && !s.0.draft.registrationTransferred && env.parse(m) == Manifest(Some(d))
    ensures Step(env, s, Received(m))
         == (s.0.(draft := s.0.draft.(config := d, registrationTransferred := true)), s.1)
  {
  }

  lemma ProvidersStep(env: Env, s: (State, int), m: Message, k: Kind, list: seq<Provider>)
    requires Registering(s.0) && k !in s.0.draft.transferred && env.parse(m) == Providers(k, Some(list))
    ensures Step(env, s, Received(m))
         == (s.0.(draft := s.0.draft.(transferred := s.0.draft.transferred + {k},
                                      config := WithProvider(s.0.draft.config, k, list))), s.1)
  {
    hide WithProvider;
  }

  lemma {:induction false} AssetsInitialise(env: Env, s: (State, int))
    requires Expressive(env) && Registering(s.0) && s.0.draft.transferred != {} && ManifestValidate(s.0.draft.config)
    ensures CanBeInitialised(env, s)
    decreases NamedFiles(s.0.draft.config) - s.0.draft.assets.Keys
  {
    hide ManifestValidate, AllSupplied, NamedFiles;
    var missing := NamedFiles(s.0.draft.config) - s.0.draft.assets.Keys;
    if missing == {} {
      assert forall file :: file in NamedFiles(s.0.draft.config) ==> file in s.0.draft.assets.Keys by {
        assert forall file :: file in NamedFiles(s.0.draft.config) && file !in s.0.draft.assets.Keys ==> file in missing;
      }
      FilesSupplied(env.upload, s.0.draft.config, s.0.draft.assets);
      EndInitialises(env, s);
    } else {
      var file :| file in missing;
      FilesHaveNames(s.0.draft.config);
      assert CanSendFile(env, file);
      var data :| CanSend(env, AssetChunk(Chunk(file, data)));
      var m :| env.parse(m) == AssetChunk(Chunk(file, data));
      ChunkStep(env, s, m, Chunk(file, data));
      hide Step;
      AssetsInitialise(env, Step(env, s, Received(m)));
      InitialisedLater(env, s, Received(m));
    }
  }

  /** A declaration that passes the check needs no more than assets and END, after some list of providers. */
  lemma ValidInitialises(env: Env, s: (State, int))
    requires Expressive(env) && Registering(s.0) && ManifestValidate(s.0.draft.config)
    ensures CanBeInitialised(env, s)
  {
    hide ManifestValidate;
    if s.0.draft.transferred == {} {
      assert CanSend(env, Providers(Tool, Some([])));
      var m :| env.parse(m) == Providers(Tool, Some([]));
      ProvidersStep(env, s, m, Tool, []);
      hide Step;
      AssetsInitialise(env, Step(env, s, Received(m)));
      InitialisedLater(env, s, Received(m));
    } else {
      AssetsInitialise(env, s);
    }
  }

  lemma CompletableInitialises(env: Env, s: (State, int))
    requires Expressive(env) && Registering(s.0) && Completable(s.0.draft)
    ensures CanBeInitialised(env, s)
  {
    if !s.0.draft.registrationTransferred {
      var d :| ManifestValidate(d) && CanSend(env, Manifest(Some(d)));
      var m :| env.parse(m) == Manifest(Some(d));
      ManifestStep(env, s, m, d);
      hide Step, ManifestValidate, Expressive;
      ValidInitialises(env, Step(env, s, Received(m)));
      InitialisedLater(env, s, Received(m));
    } else if ValidKinds(s.0.draft.config.providers.Keys) {
      ValidInitialises(env, s);
    } else {
      var k: Kind :| k !in s.0.draft.transferred;
      assert CanSendOne(env, k);
      var p :| CanSend(env, Providers(k, Some([p])));
      var m :| env.parse(m) == Providers(k, Some([p]));
      ProvidersStep(env, s, m, k, [p]);
      hide Step, IsName, Expressive;
      assert Step(env, s, Received(m)).0.draft.config.providers.Keys == {k};
      ValidInitialises(env, Step(env, s, Received(m)));
      InitialisedLater(env, s, Received(m));
    }
  }

  lemma StepLeavesIncompletable(env: Env, s: (State, int), e: Event)
    requires !Completable(s.0.draft) && !s.0.initialized
    ensures !Completable(Step(env, s, e).0.draft) && !Step(env, s, e).0.initialized
  {
    hide Handle, Completable;
    if e.Received? {
      StaysIncompletable(env.upload, s.0.draft, env.parse(e.message), ConnAfter(env, s.0, s.1, e.message) <= env.maxConn);
    }
  }

  lemma {:induction false} NeverCompleted(env: Env, s: (State, int), events: seq<Event>)
    requires !Completable(s.0.draft) && !s.0.initialized
    ensures !Completable(Run(env, s, events).0.draft) && !Run(env, s, events).0.initialized
  {
    if events != [] {
      hide Step, Completable;
      NeverCompleted(env, s, events[..|events| - 1]);
      StepLeavesIncompletable(env, Run(env, s, events[..|events| - 1]), events[|events| - 1]);
    }
  }

  /**
   A closed connection can still be initialised by what follows exactly when the server has not handled its end, its
   handshake was made and has not failed, and a manifest that was taken can be completed.
   */
  lemma ClosedCanInitialiseExactlyWhen(env: Env, conn: int, before: seq<Event>)
    requires Expressive(env)
    requires var s := Run(env, (OPENED, conn), before).0; s.closed && !s.initialized
    ensures var s := Run(env, (OPENED, conn), before);
            CanBeInitialised(env, s) <==> s.0.listed && s.0.handshake && !s.0.handshakeFailed && Completable(s.0.draft)
  {
    ReachableInv(env, conn, before);
    hide Run, Step, Total, Expressive, Completable;
    var s := Run(env, (OPENED, conn), before);
    if s.0.listed && s.0.handshake && !s.0.handshakeFailed && Completable(s.0.draft) {
      CompletableInitialises(env, s);
    } else {
      forall events ensures !Run(env, s, events).0.initialized {
        if !s.0.listed {
          DisconnectIsFinal(env, s, events);
        } else if s.0.handshakeFailed {
          FailureIsAbsorbing(env, s, events);
        } else {
          NeverCompleted(env, s, events);
        }
      }
    }
  }

  // ------------------------------------------------------------- what a missing asset is worth

  function Repeated(message: Message, n: nat): seq<Event> {
    seq(n, i => Received(message))
  }

  lemma EndStep(env: Env, s: (State, int), end: Message)
    requires env.parse(end) == End && s.1 + 1 <= env.maxConn && Registering(s.0)
    ensures var h := AfterEnd(env.upload, s.0.draft);
            Step(env, s, Received(end))
            == (s.0.(draft := h.draft, closed := s.0.closed || !h.ok, initialized := h.ok), s.1 + 1)
  {
    hide AfterEnd;
  }

  /**
   Refusing END for assets that are missing only delays it: a declaration that names n assets is initialised by n + 1
   ENDs without any more assets, as long as there is room for the connections they count. If no asset was sent at all,
   n ENDs are not enough.
   */
  lemma {:induction false} RepeatedEndsInitialise(env: Env, s: (State, int), end: Message, n: nat)
    requires env.parse(end) == End && s.1 + n <= env.maxConn
    requires Registering(s.0) && s.0.draft.transferred != {} && ManifestValidate(s.0.draft.config) && AllBlankable(s.0.draft.config)
    ensures n > NamedAssets(s.0.draft.config) ==> Run(env, s, Repeated(end, n)).0.initialized
    ensures s.0.draft.assets == map[] ==> (Run(env, s, Repeated(end, n)).0.initialized <==> n > NamedAssets(s.0.draft.config))
    decreases n
  {
    if n > 0 {
      EndStep(env, s, end);
      RefusedEndForgets(env.upload, s.0.draft);
      RunFirst(env, s, Repeated(end, n));
      assert Repeated(end, n)[1..] == Repeated(end, n - 1);
      hide Run, Step, AfterEnd, ManifestValidate, AllBlankable, NamedAssets;
      var t := Step(env, s, Received(end));
      if t.0.initialized {
        InitialisedOnlyDelivers(env, t, Repeated(end, n - 1));
      } else {
        RepeatedEndsInitialise(env, t, end, n - 1);
      }
    }
  }

  // ------------------------------------------------------------- concrete connections

  const ICON := Icon("icon.svg", false)
  const MANIFEST := Declaration("author", "plugin", [ICON], map[])

  /**
   An END that is refused because nothing was declared closes the connection, and an icon, a manifest, an endpoint and END
   already on their way still initialise the runtime.
   */
  lemma ClosedCanStillInitialise(env: Env, hello: Message, end: Message, icon: Message, manifest: Message, endpoint: Message, p: Provider)
    requires env.parse(hello) == HandShake(Connection("t")) && env.parse(end) == End && env.maxConn >= 2
    requires env.parse(icon) == AssetChunk(Chunk("icon.svg", "QUJD"))
    requires env.parse(manifest) == Manifest(Some(MANIFEST)) && env.parse(endpoint) == Providers(Endpoint, Some([p]))
    requires forall data :: env.upload("icon.svg", data).Some?
    ensures Run(env, (OPENED, 0), Messages([hello, end])).0.closed
    ensures !Run(env, (OPENED, 0), Messages([hello, end])).0.initialized
    ensures Run(env, (OPENED, 0), Messages([hello, end, icon, manifest, endpoint, end])).0.initialized
  {
    hide Run, Step, ManifestValidate, AllSupplied, Messages;
    var m := [hello, end, icon, manifest, endpoint, end];
    assert m[..2] == [hello, end] && m[..6] == m;
    var s := Greeted(env, m);
    var u := Step(env, s, Received(icon));
    ChunkStep(env, s, icon, Chunk("icon.svg", "QUJD"));
    RunMessages(env, (OPENED, 0), m, 2);
    Declared(env, u, manifest, endpoint, p);
    RunMessages(env, (OPENED, 0), m, 3);
    RunMessages(env, (OPENED, 0), m, 4);
    var t := Step(env, Step(env, u, Received(manifest)), Received(endpoint));
    IconSupplied(env.upload, t.0.draft.config, t.0.draft.assets);
    InitialisedExactlyBy(env, t, end);
    RunMessages(env, (OPENED, 0), m, 5);
  }

  lemma IconSupplied(upload: Upload, d: Declaration, assets: Assets)
    requires d.icons == [ICON] && d.providers.Keys == {Endpoint}
    requires "icon.svg" in assets && forall data :: upload("icon.svg", data).Some?
    ensures AllSupplied(upload, d, assets)
  {
  }

  lemma Hello(env: Env, m: seq<Message>) returns (s: (State, int))
    requires |m| > 0 && env.parse(m[0]) == HandShake(Connection("t"))
    ensures s == Run(env, (OPENED, 0), Messages(m[..1])) == (OPENED.(handshake := true, tenantId := "t"), 0)
  {
    RunMessages(env, (OPENED, 0), m, 0);
    assert Messages(m[..0]) == [];
    RunNothing(env, (OPENED, 0));
    s := Step(env, (OPENED, 0), Received(m[0]));
  }

  /** A handshake, and an END before anything was declared. */
  lemma Greeted(env: Env, m: seq<Message>) returns (s: (State, int))
    requires |m| > 1 && env.parse(m[0]) == HandShake(Connection("t")) && env.parse(m[1]) == End && env.maxConn >= 1
    ensures s == Run(env, (OPENED, 0), Messages(m[..2]))
              == (OPENED.(handshake := true, tenantId := "t", closed := true), 1)
  {
    hide Run, Remap, ManifestValidate;
    var u := Hello(env, m);
    RunMessages(env, (OPENED, 0), m, 1);
    s := Step(env, u, Received(m[1]));
  }

  /** A manifest and an endpoint, received by a runtime to which nothing was declared yet. */
  lemma Declared(env: Env, s: (State, int), manifest: Message, endpoint: Message, p: Provider)
    requires Registering(s.0) && !s.0.draft.registrationTransferred && s.0.draft.transferred == {}
    requires env.parse(manifest) == Manifest(Some(MANIFEST)) && env.parse(endpoint) == Providers(Endpoint, Some([p]))
    ensures var d := MANIFEST.(providers := map[Endpoint := p]);
            && ManifestValidate(d)
            && Step(env, Step(env, s, Received(manifest)), Received(endpoint))
               == (s.0.(draft := s.0.draft.(registrationTransferred := true, transferred := {Endpoint}, config := d)), s.1)
  {
    var d := MANIFEST.(providers := map[Endpoint := p]);
    assert d.providers.Keys == {Endpoint};
    ManifestStep(env, s, manifest, MANIFEST);
    ProvidersStep(env, Step(env, s, Received(manifest)), endpoint, Endpoint, [p]);
    hide Step;
    assert s.0.draft.transferred + {Endpoint} == {Endpoint};
  }

  lemma RunMessages(env: Env, s: (State, int), messages: seq<Message>, i: nat)
    requires i < |messages|
    ensures Run(env, s, Messages(messages[..i + 1])) == Step(env, Run(env, s, Messages(messages[..i])), Received(messages[i]))
  {
    RunOne(env, s, Messages(messages[..i]), Received(messages[i]));
    assert Messages(messages[..i + 1]) == Messages(messages[..i]) + [Received(messages[i])];
  }

  /** The icon a manifest names is asked for once: an END without it is refused, and the next one initialises the runtime. */
  lemma MissingIconIsForgotten(env: Env, hello: Message, end: Message, manifest: Message, endpoint: Message, p: Provider)
    requires env.parse(hello) == HandShake(Connection("t")) && env.parse(end) == End && env.maxConn >= 2
    requires env.parse(manifest) == Manifest(Some(MANIFEST)) && env.parse(endpoint) == Providers(Endpoint, Some([p]))
    requires p.icons == []
    ensures var s := Run(env, (OPENED, 0), Messages([hello, manifest, endpoint, end])).0; s.closed && !s.initialized
    ensures Run(env, (OPENED, 0), Messages([hello, manifest, endpoint, end, end])).0.initialized
  {
    hide Run, Step, ManifestValidate, Remap, NamedAssets, AllBlankable;
    var m := [hello, manifest, endpoint, end, end];
    var u := Hello(env, m);
    Declared(env, u, manifest, endpoint, p);
    RunMessages(env, (OPENED, 0), m, 1);
    RunMessages(env, (OPENED, 0), m, 2);
    var s := Step(env, Step(env, u, Received(manifest)), Received(endpoint));
    OneIconNamed(s.0.draft.config, p);
    OneMissing(env, s, end);
    RunAppend(env, (OPENED, 0), Messages(m[..3]), Repeated(end, 1));
    RunAppend(env, (OPENED, 0), Messages(m[..3]), Repeated(end, 2));
    assert Messages([hello, manifest, endpoint, end]) == Messages(m[..3]) + Repeated(end, 1);
    assert Messages(m) == Messages(m[..3]) + Repeated(end, 2);
  }

  lemma OneIconNamed(d: Declaration, p: Provider)
    requires d == MANIFEST.(providers := map[Endpoint := p]) && p.icons == []
    ensures NamedAssets(d) == 1 && AllBlankable(d)
  {
    NoProviderNamed(d, REMAP_ORDER);
    hide NamedBy;
    assert d.icons[0] == ICON && d.icons[1..] == [];
    assert Named(d.icons[1..]) == 0;
    assert Named(d.icons) == 1;
  }

  lemma OneMissing(env: Env, s: (State, int), end: Message)
    requires env.parse(end) == End && s.1 + 2 <= env.maxConn && s.0.draft.assets == map[]
    requires Registering(s.0) && s.0.draft.transferred != {} && ManifestValidate(s.0.draft.config) && AllBlankable(s.0.draft.config)
    requires NamedAssets(s.0.draft.config) == 1
    ensures var t := Run(env, s, Repeated(end, 1)).0; t.closed && !t.initialized
    ensures Run(env, s, Repeated(end, 2)).0.initialized
  {
    RepeatedEndsInitialise(env, s, end, 1);
    RepeatedEndsInitialise(env, s, end, 2);
    RunFirst(env, s, Repeated(end, 1));
    assert Repeated(end, 1)[1..] == [];
    EndStep(env, s, end);
    hide ManifestValidate, NamedAssets, AllBlankable, AfterEnd, Repeated, Step;
    RunNothing(env, Step(env, s, Received(end)));
    hide Run;
  }
}
