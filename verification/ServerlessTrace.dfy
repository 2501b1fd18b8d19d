/**
 What a serverless invocation sends to its session (internal/core/serverless_runtime/io.go): retries, the messages
 read from the response, the one terminal message, and the listeners of the runtime. The HTTP client, activation
 and JSON are parameters: a response is a sequence of classified lines.
 */
module ServerlessTrace {
  import opened Wrappers

  type Data = seq<Byte>

  // ------------------------------------------------------------- requests and retries

  /** One request: no answer, possibly because the caller gave up, or an answer with a status. */
  datatype Attempt = TransportError(contextDone: bool) | Answered(status: int)

  datatype InvokeError = ContextDone | AllAttemptsFailed

  function MaxAttempts(maxRetryTimes: int): nat {
    if maxRetryTimes <= 0 then 1 else maxRetryTimes
  }

  predicate Retried(a: Attempt) {
    a == TransportError(false) || a == Answered(502)
  }

  /** Every request before request a was to be retried, and the waits up to request a were not cut short. */
  ghost predicate Reaches(attempts: nat -> Attempt, cancelled: nat -> bool, a: nat) {
    && (forall j :: 0 <= j < a ==> Retried(attempts(j)))
    && forall j :: 1 <= j <= a ==> !cancelled(j)
  }

  /**
   A request is made again after a transport error or a 502, never after anything else, at most so many times;
   cancelled(j) says that the caller gave up in the wait before request j.
   */
  method InvokeServerlessWithRetry(maxRetryTimes: int, attempts: nat -> Attempt, cancelled: nat -> bool)
    returns (response: Result<int, InvokeError>, requests: nat)
    ensures requests <= MaxAttempts(maxRetryTimes) && (requests <= 1 || requests <= maxRetryTimes)
    // what was repeated is a transport error of a caller who waits, or a 502
    ensures forall j :: 0 <= j < requests - 1 ==> attempts(j) == TransportError(false) || attempts(j) == Answered(502)
    ensures response.Ok? ==>
      && requests > 0 && Reaches(attempts, cancelled, requests - 1)
      && attempts(requests - 1) == Answered(response.value) && response.value != 502
    ensures response == Err(ContextDone) ==>
      && requests > 0
      && ((Reaches(attempts, cancelled, requests - 1) && attempts(requests - 1) == TransportError(true))
          || (requests < MaxAttempts(maxRetryTimes) && cancelled(requests)
              && Reaches(attempts, cancelled, requests - 1) && Retried(attempts(requests - 1))))
    ensures response == Err(AllAttemptsFailed) ==>
      && requests == MaxAttempts(maxRetryTimes) && (requests == 1 || requests == maxRetryTimes) && requests >= maxRetryTimes
      && (attempts(requests - 1) == TransportError(false) || attempts(requests - 1) == Answered(502))
      && Reaches(attempts, cancelled, requests - 1) && Retried(attempts(requests - 1))
  {
    var maxRetries := maxRetryTimes;
    if maxRetries <= 0 {
      maxRetries := 1;
    }
    for attempt := 0 to maxRetries
      invariant maxRetries == MaxAttempts(maxRetryTimes)
      invariant attempt > 0 ==> Reaches(attempts, cancelled, attempt - 1) && Retried(attempts(attempt - 1))
    {
      if attempt > 0 {
        if cancelled(attempt) {
          return Err(ContextDone), attempt;
        }
      }
      var outcome := attempts(attempt);
      if outcome.TransportError? {
        if outcome.contextDone {
          return Err(ContextDone), attempt + 1;
        }
        continue;
      }
      if 200 <= outcome.status < 300 {
        return Ok(outcome.status), attempt + 1;
      }
      if outcome.status == 502 {
        continue;
      }
      return Ok(outcome.status), attempt + 1;
    }
    return Err(AllAttemptsFailed), maxRetries;
  }

  // ------------------------------------------------------------- the messages of one invocation

  datatype MessageType = Stream | Invoke | PluginError | End

  /** A line of the response body, as the parsers see it. */
  datatype Line =
    | Empty
    | LambdaError
    | Session(kind: MessageType, data: Data)
    | InvalidSession
    | InvalidEvent
    | HeartbeatOrLog

  datatype Reason =
    | ActivationFailed | RequestFailed | BadStatus | ErrorHeader
    | ErrorPayload | InvalidMessage | ErrorEvent | BodyUnreadable | NoSessionResponse

  datatype Message = Forwarded(kind: MessageType, data: Data) | Ended(end: Option<Data>) | DaemonError(reason: Reason)

  /**
   What the invocation meets; each contextDone flag says whether the caller has given up when that failure is
   seen.
   */
  datatype World = World(
    activationFails: bool, activationContextDone: bool,
    response: Result<int, InvokeError>, requestContextDone: bool,
    errorHeader: bool, lines: seq<Line>, scanFails: bool, scanContextDone: bool)

  /** A line after which nothing more is read. */
  predicate Stops(l: Line) {
    l.LambdaError? || l.InvalidSession? || l.InvalidEvent? || (l.Session? && l.kind == End)
  }

  function StopAt(lines: seq<Line>): (s: nat)
    ensures s <= |lines| && (s < |lines| ==> Stops(lines[s]))
    ensures forall k :: 0 <= k < s ==> !Stops(lines[k])
  {
    if lines == [] || Stops(lines[0]) then 0 else 1 + StopAt(lines[1..])
  }

  /** The session messages among the lines, in order. */
  function MessagesOf(lines: seq<Line>): seq<Message> {
    if lines == [] then []
    else
      var last := lines[|lines| - 1];
      MessagesOf(lines[..|lines| - 1]) + (if last.Session? then [Forwarded(last.kind, last.data)] else [])
  }

  /** The body, once it is read: an END only for a body that was readable and told of one, or of any message at all. */
  function BodyTerminal(w: World): seq<Message> {
    var s := StopAt(w.lines);
    if s < |w.lines| && w.lines[s].LambdaError? then [DaemonError(ErrorPayload)]
    else if s < |w.lines| && w.lines[s].InvalidSession? then [DaemonError(InvalidMessage)]
    else if s < |w.lines| && w.lines[s].InvalidEvent? then [DaemonError(ErrorEvent)]
    else if w.scanFails then (if w.scanContextDone then [] else [DaemonError(BodyUnreadable)])
    else if s < |w.lines| then [Ended(Some(w.lines[s].data))]
    else if MessagesOf(w.lines) != [] then [Ended(None)]
    else [DaemonError(NoSessionResponse)]
  }

  /** The terminal message when no body is read. */
  function EarlyTerminal(w: World): Option<seq<Message>> {
    if w.activationFails then Some(if w.activationContextDone then [] else [DaemonError(ActivationFailed)])
    else if w.response.Err? then Some(if w.requestContextDone then [] else [DaemonError(RequestFailed)])
    else if w.response.value < 200 || w.response.value >= 300 then Some([DaemonError(BadStatus)])
    else if w.errorHeader then Some([DaemonError(ErrorHeader)])
    else None
  }

  function Trace(w: World): seq<Message> {
    match EarlyTerminal(w)
    case Some(terminal) => terminal
    case None => MessagesOf(w.lines[..StopAt(w.lines)]) + BodyTerminal(w)
  }

  /** The first line after which nothing more is read, written out. */
  ghost predicate FirstStop(lines: seq<Line>, s: nat) {
    && s <= |lines|
    && (s < |lines| ==> lines[s] in {LambdaError, InvalidSession, InvalidEvent} || (lines[s].Session? && lines[s].kind == End))
    && forall k :: 0 <= k < s ==> lines[k] in {Empty, HeartbeatOrLog} || (lines[k].Session? && lines[k].kind != End)
  }

  lemma StopsThere(lines: seq<Line>)
    ensures FirstStop(lines, StopAt(lines))
  {
  }

  /**
   Which error of the daemon's a session gets, for every one there is. Before the response is read: for an activation or a
   request that fails while the caller waits, a status outside 200 to 299, or the error header.
   */
  lemma EarlyErrorsExactly(w: World)
    ensures var sent, answered := Trace(w), !w.activationFails && w.response.Ok?;
            && (DaemonError(ActivationFailed) in sent <==> w.activationFails && !w.activationContextDone)
            && (DaemonError(RequestFailed) in sent <==> !w.activationFails && w.response.Err? && !w.requestContextDone)
            && (DaemonError(BadStatus) in sent <==> answered && !(200 <= w.response.value <= 299))
            && (DaemonError(ErrorHeader) in sent <==> answered && 200 <= w.response.value <= 299 && w.errorHeader)
            && (w.activationFails || w.response.Err? || !(200 <= w.response.value <= 299) || w.errorHeader ==>
                  |sent| == if (w.activationFails && w.activationContextDone)
                               || (!w.activationFails && w.response.Err? && w.requestContextDone) then 0 else 1)
  {
    ForwardedOnly(w.lines[..StopAt(w.lines)]);
  }

  /** A good answer: there is a body to be read. */
  predicate GoodAnswer(w: World) {
    !w.activationFails && w.response.Ok? && 200 <= w.response.value <= 299 && !w.errorHeader
  }

  /**
   And for a body: for the line that stops it, if that is no END; for a body that cannot be read to its end while the caller
   waits; or for one without a session message. An END carries the data of the session's own END, if there was one.
   */
  lemma BodyErrorsExactly(w: World)
    requires GoodAnswer(w)
    ensures var sent, s := Trace(w), StopAt(w.lines);
            var stopped := s < |w.lines|;
            var quiet := !stopped && forall k :: 0 <= k < |w.lines| ==> !w.lines[k].Session?;
            && (DaemonError(ErrorPayload) in sent <==> stopped && w.lines[s] == LambdaError)
            && (DaemonError(InvalidMessage) in sent <==> stopped && w.lines[s] == InvalidSession)
            && (DaemonError(ErrorEvent) in sent <==> stopped && w.lines[s] == InvalidEvent)
            && (DaemonError(BodyUnreadable) in sent <==>
                  w.scanFails && !w.scanContextDone && (!stopped || w.lines[s].Session?))
            && (DaemonError(NoSessionResponse) in sent <==> !w.scanFails && quiet)
            && (forall d :: Ended(d) in sent <==>
                  && !w.scanFails && !quiet && (stopped ==> w.lines[s].Session?)
                  && d == if stopped then Some(w.lines[s].data) else None)
  {
    ForwardedOnly(w.lines[..StopAt(w.lines)]);
    SomeMessage(w.lines);
    if BodyTerminal(w) != [] {
      assert BodyTerminal(w)[0] in Trace(w);
    }
  }

  /** Where the session messages stand among the lines. */
  function SessionsAt(lines: seq<Line>): seq<nat> {
    if lines == [] then []
    else SessionsAt(lines[..|lines| - 1]) + (if lines[|lines| - 1].Session? then [|lines| - 1] else [])
  }

  ghost predicate InOrder(at: seq<nat>, lines: seq<Line>) {
    && (forall k :: 0 <= k < |at| ==> at[k] < |lines| && lines[at[k]].Session?)
    && forall j, k :: 0 <= j < k < |at| ==> at[j] < at[k]
  }

  lemma {:induction false} SessionsInOrder(lines: seq<Line>)
    ensures InOrder(SessionsAt(lines), lines)
  {
    if lines != [] {
      var before := lines[..|lines| - 1];
      SessionsInOrder(before);
      var at := SessionsAt(before);
      assert forall k :: 0 <= k < |at| ==> lines[at[k]] == before[at[k]];
    }
  }

  lemma {:induction false} AllSessionsAt(lines: seq<Line>, i: nat)
    requires i < |lines| && lines[i].Session?
    ensures i in SessionsAt(lines)
  {
    if i < |lines| - 1 {
      AllSessionsAt(lines[..|lines| - 1], i);
    }
  }

  /** Every session message is forwarded as it is, one each and in order. */
  lemma {:induction false} ForwardedOneByOne(lines: seq<Line>)
    ensures |MessagesOf(lines)| == |SessionsAt(lines)| && InOrder(SessionsAt(lines), lines)
    ensures forall k :: 0 <= k < |SessionsAt(lines)| ==>
      var line := lines[SessionsAt(lines)[k]]; MessagesOf(lines)[k] == Forwarded(line.kind, line.data)
  {
    SessionsInOrder(lines);
    if lines != [] {
      var before := lines[..|lines| - 1];
      ForwardedOneByOne(before);
      var at := SessionsAt(before);
      assert forall k :: 0 <= k < |at| ==> lines[at[k]] == before[at[k]];
    }
  }

  /** What comes before the terminal message is what was forwarded of the lines up to the one that stops. */
  lemma ForwardedFirst(w: World)
    requires GoodAnswer(w)
    ensures var forwarded := MessagesOf(w.lines[..StopAt(w.lines)]);
            forwarded <= Trace(w) && |Trace(w)| <= |forwarded| + 1
  {
  }

  lemma MessagesMore(lines: seq<Line>, k: nat)
    requires k < |lines|
    ensures MessagesOf(lines[..k + 1])
         == MessagesOf(lines[..k]) + (if lines[k].Session? then [Forwarded(lines[k].kind, lines[k].data)] else [])
  {
    assert lines[..k + 1][..k] == lines[..k];
  }

  lemma {:induction false} StopsFirst(lines: seq<Line>, k: nat)
    requires k <= |lines| && (k < |lines| ==> Stops(lines[k])) && forall j :: 0 <= j < k ==> !Stops(lines[j])
    ensures StopAt(lines) == k
  {
    if k > 0 {
      StopsFirst(lines[1..], k - 1);
    }
  }

  /** The first k lines were read and none of them stopped the reading. */
  ghost predicate Reading(lines: seq<Line>, k: nat, sent: seq<Message>, endData: Option<Data>, hasSessionEvent: bool) {
    && k <= |lines| && (forall j :: 0 <= j < k ==> !Stops(lines[j]))
    && sent == MessagesOf(lines[..k]) && endData == None && hasSessionEvent == (sent != [])
  }

  /** Line k stopped the reading: by an error of the daemon's, or else by an END that is yet to be sent. */
  ghost predicate Stopped(lines: seq<Line>, k: nat, sent: seq<Message>, endData: Option<Data>, sendEnd: bool, hasSessionEvent: bool) {
    && k < |lines| && Stops(lines[k]) && (forall j :: 0 <= j < k ==> !Stops(lines[j]))
    && var forwarded := MessagesOf(lines[..k]);
    match lines[k]
    case LambdaError => !sendEnd && sent == forwarded + [DaemonError(ErrorPayload)]
    case InvalidSession => !sendEnd && sent == forwarded + [DaemonError(InvalidMessage)]
    case InvalidEvent => !sendEnd && sent == forwarded + [DaemonError(ErrorEvent)]
    case _ => sendEnd && hasSessionEvent && sent == forwarded && endData == Some(lines[k].data)
  }

  lemma ReadOne(lines: seq<Line>, k: nat, sent: seq<Message>, endData: Option<Data>, hasSessionEvent: bool)
    requires k < |lines| && Reading(lines, k, sent, endData, hasSessionEvent)
    ensures match lines[k]
            case LambdaError => Stopped(lines, k, sent + [DaemonError(ErrorPayload)], endData, false, hasSessionEvent)
            case InvalidSession => Stopped(lines, k, sent + [DaemonError(InvalidMessage)], endData, false, hasSessionEvent)
            case InvalidEvent => Stopped(lines, k, sent + [DaemonError(ErrorEvent)], endData, false, hasSessionEvent)
            case Session(kind, data) =>
              if kind == End then Stopped(lines, k, sent, Some(data), true, true)
              else Reading(lines, k + 1, sent + [Forwarded(kind, data)], endData, true)
            case _ => Reading(lines, k + 1, sent, endData, hasSessionEvent)
  {
    MessagesMore(lines, k);
  }

  /** The loop over the response lines; sendEnd says whether the terminal message is still to be sent. */
  method ReadLines(lines: seq<Line>)
    returns (sent: seq<Message>, sendEnd: bool, endData: Option<Data>, hasSessionEvent: bool)
    ensures var s := StopAt(lines);
            if s < |lines| then Stopped(lines, s, sent, endData, sendEnd, hasSessionEvent)
            else sendEnd && Reading(lines, s, sent, endData, hasSessionEvent)
  {
    sent, sendEnd, endData, hasSessionEvent := [], true, None, false;
    var scanned, receivedEnd := 0, false;
    assert Reading(lines, 0, sent, endData, hasSessionEvent);
    ghost var stopped := false;
    hide Reading, Stopped;
    while sendEnd && scanned < |lines|
      invariant 0 <= scanned <= |lines| && !receivedEnd && stopped == !sendEnd
      invariant !stopped ==> Reading(lines, scanned, sent, endData, hasSessionEvent)
      invariant stopped ==> scanned > 0 && Stopped(lines, scanned - 1, sent, endData, sendEnd, hasSessionEvent)
    {
      ReadOne(lines, scanned, sent, endData, hasSessionEvent);
      var line := lines[scanned];
      scanned := scanned + 1;
      match line {
        case Empty =>
        case HeartbeatOrLog =>
        case LambdaError =>
          sendEnd, stopped := false, true;
          sent := sent + [DaemonError(ErrorPayload)];
          break;
        case InvalidSession =>
          sendEnd, stopped := false, true;
          sent := sent + [DaemonError(InvalidMessage)];
        case InvalidEvent =>
          sendEnd, stopped := false, true;
          sent := sent + [DaemonError(ErrorEvent)];
        case Session(kind, data) =>
          hasSessionEvent := true;
          if kind == End {
            receivedEnd, stopped := true, true;
            endData := Some(data);
          } else {
            sent := sent + [Forwarded(kind, data)];
          }
      }
      if receivedEnd {
        break;
      }
    }
    if stopped {
      StoppedThere(lines, scanned - 1, sent, endData, sendEnd, hasSessionEvent);
    } else {
      ReadToTheEnd(lines, sent, endData, hasSessionEvent);
    }
  }

  lemma StoppedThere(lines: seq<Line>, k: nat, sent: seq<Message>, endData: Option<Data>, sendEnd: bool, hasSessionEvent: bool)
    requires Stopped(lines, k, sent, endData, sendEnd, hasSessionEvent)
    ensures StopAt(lines) == k < |lines|
  {
    StopsFirst(lines, k);
  }

  lemma ReadToTheEnd(lines: seq<Line>, sent: seq<Message>, endData: Option<Data>, hasSessionEvent: bool)
    requires Reading(lines, |lines|, sent, endData, hasSessionEvent)
    ensures StopAt(lines) == |lines|
  {
    StopsFirst(lines, |lines|);
  }

  /** The part of an invocation that reads a good response. */
  method ReadBody(w: World) returns (sent: seq<Message>, sendEnd: bool, endData: Option<Data>)
    ensures MessagesOf(w.lines[..StopAt(w.lines)]) + BodyTerminal(w) == sent + (if sendEnd then [Ended(endData)] else [])
  {
    hide MessagesOf;
    var hasSessionEvent;
    sent, sendEnd, endData, hasSessionEvent := ReadLines(w.lines);
    assert w.lines[..|w.lines|] == w.lines;
    if w.scanFails {
      if w.scanContextDone {
        sendEnd := false;
      } else if sendEnd {
        sendEnd := false;
        sent := sent + [DaemonError(BodyUnreadable)];
      }
      return;
    }
    if !hasSessionEvent && sendEnd {
      sendEnd := false;
      sent := sent + [DaemonError(NoSessionResponse)];
    }
  }

  /** The invocation without its deferred end: what was sent, and whether the end is to send END with what data. */
  method Exchange(w: World) returns (sent: seq<Message>, sendEnd: bool, endData: Option<Data>)
    ensures Trace(w) == sent + (if sendEnd then [Ended(endData)] else [])
  {
    if w.activationFails {
      if w.activationContextDone {
        return [], false, None;
      }
      return [DaemonError(ActivationFailed)], false, None;
    }
    if w.response.Err? {
      if w.requestContextDone {
        return [], false, None;
      }
      return [DaemonError(RequestFailed)], false, None;
    }
    if w.response.value < 200 || w.response.value >= 300 {
      return [DaemonError(BadStatus)], false, None;
    }
    if w.errorHeader {
      return [DaemonError(ErrorHeader)], false, None;
    }
    sent, sendEnd, endData := ReadBody(w);
  }

  /** The whole invocation, with its deferred end. The session's broadcast is closed after the last message. */
  method Respond(w: World) returns (sent: seq<Message>)
    ensures sent == Trace(w)
  {
    var sendEnd, endData;
    sent, sendEnd, endData := Exchange(w);
    if sendEnd {
      sent := sent + [Ended(endData)];
    }
  }

  // ------------------------------------------------------------- what the trace promises

  predicate Terminal(m: Message) {
    m.Ended? || m.DaemonError?
  }

  /** The caller gave up, and the failure that showed it was the first thing to go wrong. */
  predicate GaveUp(w: World) {
    if w.activationFails then w.activationContextDone
    else if w.response.Err? then w.requestContextDone
    else
      && EarlyTerminal(w) == None && w.scanFails && w.scanContextDone
      && (StopAt(w.lines) == |w.lines| || w.lines[StopAt(w.lines)].Session?)
  }

  lemma {:induction false} ForwardedOnly(lines: seq<Line>)
    requires forall k :: 0 <= k < |lines| ==> !Stops(lines[k])
    ensures forall k :: 0 <= k < |MessagesOf(lines)| ==>
      && MessagesOf(lines)[k].Forwarded? && MessagesOf(lines)[k].kind != End
  {
    if lines != [] {
      ForwardedOnly(lines[..|lines| - 1]);
    }
  }

  /** Exactly one END or error of the daemon's comes, as the last message; or none, exactly when the caller gave up. */
  lemma OneTerminalMessage(w: World)
    ensures var sent := Trace(w);
            && (forall k :: 0 <= k < |sent| && (k < |sent| - 1 || GaveUp(w)) ==> sent[k].Forwarded? && sent[k].kind != End)
            && (GaveUp(w) <==> forall k :: 0 <= k < |sent| ==> !Terminal(sent[k]))
            && (!GaveUp(w) ==> sent != [] && Terminal(sent[|sent| - 1]))
  {
    ForwardedOnly(w.lines[..StopAt(w.lines)]);
    if !GaveUp(w) {
      assert Terminal(Trace(w)[|Trace(w)| - 1]);
    }
  }

  /**
   An END is sent exactly for a good response, read in full up to an END or to its last line with a session
   message in it.
   */
  lemma EndExactlyWhen(w: World)
    ensures (exists m :: m in Trace(w) && m.Ended?) <==>
      && EarlyTerminal(w) == None && !w.scanFails
      && var s := StopAt(w.lines);
      if s < |w.lines| then w.lines[s].Session? else exists k :: 0 <= k < |w.lines| && w.lines[k].Session?
  {
    ForwardedOnly(w.lines[..StopAt(w.lines)]);
    SomeMessage(w.lines);
    if EarlyTerminal(w) == None && BodyTerminal(w) != [] {
      assert BodyTerminal(w)[0] in Trace(w);
    }
  }

  lemma {:induction false} SomeMessage(lines: seq<Line>)
    ensures MessagesOf(lines) != [] <==> exists k :: 0 <= k < |lines| && lines[k].Session?
  {
    if lines != [] {
      SomeMessage(lines[..|lines| - 1]);
      assert forall k :: 0 <= k < |lines| - 1 ==> lines[k] == lines[..|lines| - 1][k];
    }
  }

  // ------------------------------------------------------------- the listeners of the runtime

  /** A listener stands for the broadcast of one invocation; two listeners are the same when their numbers are. */
  type Listener = nat

  datatype WriteError = SessionNotFound | BadUrl | PayloadTooLarge(payloadBytes: nat, maxRequestBytes: nat)

  datatype ListenerStep = Listening(session: string, l: Listener) | CleanedUp(session: string, l: Listener)

  class ServerlessPluginRuntime {
    var listeners: map<string, Listener>
    const maxRequestBytes: nat

    method Listen(session: string, l: Listener)
      modifies this
      ensures listeners == AfterStep(old(listeners), Listening(session, l))
    {
      listeners := listeners[session := l];
    }

    /** Both the close callback of a listener and the clean-up of its invocation. */
    method DeleteListener(session: string, l: Listener)
      modifies this
      ensures listeners == AfterStep(old(listeners), CleanedUp(session, l))
    {
      if session in listeners && listeners[session] == l {
        listeners := listeners - {session};
      }
    }

    /**
     What happens before the invocation is handed to its own routine: it goes ahead with the session's listener
     or takes that away.
     */
    method WriteContext(session: string, urlIsBad: bool, payloadBytes: nat) returns (r: Result<Listener, WriteError>)
      modifies this
      ensures session !in old(listeners) ==> r == Err(SessionNotFound) && listeners == old(listeners)
      ensures session in old(listeners) ==>
        && (r.Ok? <==> !urlIsBad && payloadBytes <= maxRequestBytes)
        && (r.Ok? ==> r.value == old(listeners)[session] && listeners == old(listeners))
        && (r.Err? ==> session !in listeners && forall other :: other != session ==>
             (other in listeners <==> other in old(listeners))
             && (other in listeners ==> listeners[other] == old(listeners)[other]))
        && (r.Err? && !urlIsBad ==> r.error == PayloadTooLarge(payloadBytes, maxRequestBytes))
    {
      if session !in listeners {
        return Err(SessionNotFound);
      }
      var l := listeners[session];
      if urlIsBad {
        DeleteListener(session, l);
        return Err(BadUrl);
      }
      if payloadBytes > maxRequestBytes {
        DeleteListener(session, l);
        return Err(PayloadTooLarge(payloadBytes, maxRequestBytes));
      }
      return Ok(l);
    }
  }

  function AfterStep(listeners: map<string, Listener>, step: ListenerStep): map<string, Listener> {
    match step
    case Listening(session, l) => listeners[session := l]
    case CleanedUp(session, l) =>
      if session in listeners && listeners[session] == l then listeners - {session} else listeners
  }

  function AfterSteps(steps: seq<ListenerStep>): map<string, Listener> {
    if steps == [] then map[] else AfterStep(AfterSteps(steps[..|steps| - 1]), steps[|steps| - 1])
  }

  /** Step k stored l for the session, and since then nothing was stored for the session and l was not cleaned up. */
  ghost predicate StoredBy(steps: seq<ListenerStep>, session: string, l: Listener, k: nat) {
    && k < |steps| && steps[k] == Listening(session, l)
    && forall j :: k < j < |steps| ==>
      && !(steps[j].Listening? && steps[j].session == session) && steps[j] != CleanedUp(session, l)
  }

  ghost predicate Stored(steps: seq<ListenerStep>, session: string, l: Listener) {
    exists k :: StoredBy(steps, session, l, k)
  }

  lemma StoredByMore(steps: seq<ListenerStep>, session: string, l: Listener)
    requires steps != []
    ensures var last := steps[|steps| - 1];
            Stored(steps, session, l) <==>
            || last == Listening(session, l)
            || (!(last.Listening? && last.session == session) && last != CleanedUp(session, l)
                && Stored(steps[..|steps| - 1], session, l))
  {
    var before, last := steps[..|steps| - 1], steps[|steps| - 1];
    if last == Listening(session, l) {
      assert StoredBy(steps, session, l, |steps| - 1);
    } else if k :| StoredBy(steps, session, l, k) {
      assert StoredBy(before, session, l, k);
    } else if !(last.Listening? && last.session == session) && last != CleanedUp(session, l) {
      if k :| StoredBy(before, session, l, k) {
        assert StoredBy(steps, session, l, k);
      }
    }
  }

  /**
   However Listen and clean-ups of any invocations follow one another, a session has exactly the listener stored
   last, unless that one itself was cleaned up: the clean-up of an older one never takes it away.
   */
  lemma {:induction false} LatestListenerIsKept(steps: seq<ListenerStep>, session: string, l: Listener)
    ensures session in AfterSteps(steps) && AfterSteps(steps)[session] == l <==> Stored(steps, session, l)
  {
    if steps != [] {
      LatestListenerIsKept(steps[..|steps| - 1], session, l);
      StoredByMore(steps, session, l);
    }
  }
}
