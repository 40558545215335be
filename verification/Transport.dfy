/**
 * The transport state of lib/RedisRemoteSaiInterface.cpp: which channel is live, whether calls wait
 * for their answer, and whether they are buffered. Dereferencing the null channel counts as Thrown.
 */
module Transport {
  import opened Common
  import opened ReqChannel

  /** The three states of `zmq_enable` in context_config.json. */
  datatype ZmqEnable = Unspecified | Enabled | Disabled

  // `sai_redis_communication_mode_t`; a request may carry any other int32.
  const REDIS_ASYNC: int := 0
  const REDIS_SYNC: int := 1
  const ZMQ_SYNC: int := 2

  predicate IsMode(mode: int) { mode == REDIS_ASYNC || mode == REDIS_SYNC || mode == ZMQ_SYNC }

  const DEFAULT_TIMEOUT_MS: nat := 60000

  datatype Channel =
    | NoChannel
    | Redis(timeoutMs: nat, buffered: bool)
    | Zmq(timeoutMs: nat, awaitingReply: bool)
  {
    function WithTimeout(ms: nat): Channel
    {
      match this
      case NoChannel => NoChannel
      case Redis(_, buffered) => Redis(ms, buffered)
      case Zmq(_, awaitingReply) => Zmq(ms, awaitingReply)
    }

    /** `setBuffered` does nothing on a ZMQ channel. */
    function WithBuffered(on: bool): Channel {
      if Redis? then Redis(timeoutMs, on) else this
    }
  }

  datatype State = State(
    initialized: bool,
    mode: int,
    syncMode: bool,
    responseTimeoutMs: nat,
    channel: Channel)

  const CREATED := State(false, REDIS_ASYNC, false, 0, NoChannel)

  /** The attributes that touch the transport. `binds` says whether a new ZMQ channel can be opened. */
  datatype Attribute =
    | ResponseTimeout(ms: nat)
    | SyncMode(on: bool)
    | CommunicationMode(mode: int, binds: bool)
    | UsePipeline(on: bool)
    | Flush

  datatype After<+T> = After(result: Result<T>, state: State)

  /** `apiInitialize`. */
  function AfterInitialize(zmqEnable: ZmqEnable, s: State, binds: bool): After<Status> {
    if s.initialized then After(Returned(FAILURE), s)
    else if zmqEnable.Enabled? then
      if !binds then After(Thrown, s.(syncMode := false, mode := REDIS_ASYNC))
      else After(Returned(SUCCESS),
                 State(true, ZMQ_SYNC, true, DEFAULT_TIMEOUT_MS, Zmq(DEFAULT_TIMEOUT_MS, false)))
    else After(Returned(SUCCESS),
               State(true, REDIS_ASYNC, false, DEFAULT_TIMEOUT_MS, Redis(DEFAULT_TIMEOUT_MS, true)))
  }

  /** `apiUninitialize`. */
  function AfterUninitialize(s: State): After<Status> {
    if !s.initialized then After(Returned(FAILURE), s)
    else After(Returned(SUCCESS), s.(channel := NoChannel, initialized := false))
  }

  /** The communication mode attribute on a context whose transport is not locked by the file. */
  function AfterMode(zmqEnable: ZmqEnable, s: State, mode: int, binds: bool): After<Status> {
    var ms := s.responseTimeoutMs;
    if mode == REDIS_ASYNC then
      After(Returned(SUCCESS), s.(mode := mode, syncMode := false, channel := Redis(ms, true)))
    else if mode == REDIS_SYNC || (mode == ZMQ_SYNC && zmqEnable.Disabled?) then
      After(Returned(SUCCESS), s.(mode := REDIS_SYNC, syncMode := true, channel := Redis(ms, false)))
    else if mode == ZMQ_SYNC then
      if !binds then After(Thrown, s.(mode := mode, channel := NoChannel))
      else After(Returned(SUCCESS), s.(mode := mode, syncMode := true, channel := Zmq(ms, false)))
    else
      After(Returned(NOT_SUPPORTED), s.(mode := mode, channel := NoChannel))
  }

  /** `setRedisExtensionAttribute`. */
  function AfterAttribute(zmqEnable: ZmqEnable, s: State, a: Attribute): After<Status> {
    match a
    case ResponseTimeout(ms) =>
      After(if s.channel.NoChannel? then Thrown else Returned(SUCCESS),
            s.(responseTimeoutMs := ms, channel := s.channel.WithTimeout(ms)))
    case SyncMode(on) =>
      var sync := on || s.mode == ZMQ_SYNC;
      if !sync then After(Returned(SUCCESS), s.(syncMode := false))
      else After(if s.channel.NoChannel? then Thrown else Returned(SUCCESS),
                 s.(syncMode := true, channel := s.channel.WithBuffered(false)))
    case CommunicationMode(mode, binds) =>
      if zmqEnable.Enabled? then After(Returned(SUCCESS), s)
      else AfterMode(zmqEnable, s, mode, binds)
    case UsePipeline(on) =>
      if s.syncMode then After(Returned(NOT_SUPPORTED), s)
      else After(if s.channel.NoChannel? then Thrown else Returned(SUCCESS),
                 s.(channel := s.channel.WithBuffered(on)))
    case Flush =>
      After(if s.channel.NoChannel? then Thrown else Returned(SUCCESS), s)
  }

  /**
   * The two kinds of call that send. Create, remove, set, their bulk forms and the counter requests
   * wait only in sync mode; get, flush, the queries and notify always wait.
   */
  datatype Call = Mutating | Querying

  datatype ChannelOp = SendOp | WaitOp

  /** What a call did: its outcome, the state it leaves, and the channel operations it performed. */
  datatype CallEnd = CallEnd(result: Result<Status>, state: State, ops: seq<ChannelOp>)

  predicate Waits(s: State, call: Call) { call.Querying? || s.syncMode }

  /** One API call. `redisStatus` is what a Redis wait would return. */
  function AfterCall(s: State, call: Call, command: string, net: Network, redisStatus: Status): CallEnd {
    match s.channel
    case NoChannel => CallEnd(Thrown, s, [])
    case Redis(_, _) =>
      if Waits(s, call) then CallEnd(Returned(redisStatus), s, [SendOp, WaitOp])
      else CallEnd(Returned(SUCCESS), s, [SendOp])
    case Zmq(ms, awaitingReply) =>
      if awaitingReply || Retry(net.send, 0) != Some(Sent) then CallEnd(Thrown, s, [SendOp])
      else if !Waits(s, call) then CallEnd(Returned(SUCCESS), s.(channel := Zmq(ms, true)), [SendOp])
      else
        var end := WaitFor(command, net);
        CallEnd(end.result, s.(channel := Zmq(ms, end.awaitingReply)), [SendOp, WaitOp])
  }

  // Runs.

  datatype Event =
    | Initialize(binds: bool)
    | Uninitialize
    | Attr(attribute: Attribute)
    | Api(call: Call, command: string, net: Network, redisStatus: Status)

  function Step(zmqEnable: ZmqEnable, s: State, e: Event): After<Status> {
    match e
    case Initialize(binds) => AfterInitialize(zmqEnable, s, binds)
    case Uninitialize => AfterUninitialize(s)
    case Attr(a) => AfterAttribute(zmqEnable, s, a)
    case Api(call, command, net, redisStatus) =>
      var end := AfterCall(s, call, command, net, redisStatus);
      After(end.result, end.state)
  }

  /** A run ends at the first exception; None then. */
  function Run(zmqEnable: ZmqEnable, s: State, events: seq<Event>): Option<State>
    decreases |events|
  {
    if |events| == 0 then Some(s)
    else
      var after := Step(zmqEnable, s, events[0]);
      if after.result.Thrown? then None else Run(zmqEnable, after.state, events[1..])
  }

  /** What holds even after calls that threw. */
  predicate Firm(zmqEnable: ZmqEnable, s: State) {
    && (zmqEnable.Enabled? ==> if s.initialized then s.channel.Zmq? else s.channel.NoChannel?)
    && (zmqEnable.Disabled? ==> !s.channel.Zmq?)
    && (s.channel.Zmq? ==> s.mode == ZMQ_SYNC && s.syncMode)
    && (s.channel.Redis? ==> IsMode(s.mode) && s.mode != ZMQ_SYNC)
    && (s.channel.Redis? && s.syncMode ==> !s.channel.buffered)
    && (!s.channel.NoChannel? ==> s.channel.timeoutMs == s.responseTimeoutMs)
  }

  predicate Inv(zmqEnable: ZmqEnable, s: State) {
    && Firm(zmqEnable, s)
    && (s.initialized ==> (s.channel.NoChannel? <==> !IsMode(s.mode)))
    && (s.channel.Zmq? ==> !s.channel.awaitingReply)
  }

  lemma StepKeepsInv(zmqEnable: ZmqEnable, s: State, e: Event)
    ensures Firm(zmqEnable, s) ==> Firm(zmqEnable, Step(zmqEnable, s, e).state)
    ensures Inv(zmqEnable, s) && Step(zmqEnable, s, e).result.Returned? ==> Inv(zmqEnable, Step(zmqEnable, s, e).state)
  {}

  /**
   * Every run without an exception keeps the transport consistent: a context locked to ZMQ is on
   * ZMQ and in sync mode, one locked to Redis is never on ZMQ, sync mode means unbuffered, the live
   * channel has the configured timeout, a ZMQ socket is ready to send between calls, and the channel
   * is null exactly while the last requested mode is not a mode.
   */
  lemma {:induction false} RunKeepsInv(zmqEnable: ZmqEnable, s: State, events: seq<Event>)
    requires Inv(zmqEnable, s)
    ensures Run(zmqEnable, s, events).Some? ==> Inv(zmqEnable, Run(zmqEnable, s, events).value)
    decreases |events|
  {
    if |events| > 0 {
      var after := Step(zmqEnable, s, events[0]);
      StepKeepsInv(zmqEnable, s, events[0]);
      if after.result.Returned? {
        RunKeepsInv(zmqEnable, after.state, events[1..]);
      }
    }
  }

  // One session: from an initialization to the next.

  predicate InSession(events: seq<Event>) {
    forall k :: 0 <= k < |events| ==> events[k].Attr? || events[k].Api?
  }

  /** The last communication mode requested. */
  function LastMode(events: seq<Event>): Option<int>
    decreases |events|
  {
    if |events| == 0 then None
    else
      var last := events[|events| - 1];
      if last.Attr? && last.attribute.CommunicationMode? then Some(last.attribute.mode)
      else LastMode(events[..|events| - 1])
  }

  /** The last response timeout requested, or the default. */
  function LastTimeout(events: seq<Event>): nat
    decreases |events|
  {
    if |events| == 0 then 60000
    else
      var last := events[|events| - 1];
      if last.Attr? && last.attribute.ResponseTimeout? then last.attribute.ms
      else LastTimeout(events[..|events| - 1])
  }

  datatype Kind = NullChannel | OnRedis | OnZmq

  function KindOf(c: Channel): Kind {
    if c.Zmq? then OnZmq else if c.Redis? then OnRedis else NullChannel
  }

  /** The channel a session should be on: the file decides if it can, else the last request does. */
  function ResolvedKind(zmqEnable: ZmqEnable, lastMode: Option<int>): Kind {
    if zmqEnable.Enabled? then OnZmq
    else if lastMode == None then OnRedis
    else if !IsMode(lastMode.value) then NullChannel
    else if lastMode.value == ZMQ_SYNC && zmqEnable.Unspecified? then OnZmq
    else OnRedis
  }

  lemma {:induction false} RunLast(zmqEnable: ZmqEnable, s: State, events: seq<Event>)
    requires |events| > 0
    ensures var before := Run(zmqEnable, s, events[..|events| - 1]);
            Run(zmqEnable, s, events) ==
              if before == None then None
              else
                var after := Step(zmqEnable, before.value, events[|events| - 1]);
                if after.result.Thrown? then None else Some(after.state)
    decreases |events|
  {
    if |events| > 1 {
      var after := Step(zmqEnable, s, events[0]);
      if after.result.Returned? {
        RunLast(zmqEnable, after.state, events[1..]);
        assert events[1..][..|events| - 2] == events[..|events| - 1][1..];
      }
    }
  }

  /** Is the context in sync mode? The last request that concerns it decides; ZMQ is always in sync mode. */
  function LastSync(zmqEnable: ZmqEnable, events: seq<Event>): bool
    decreases |events|
  {
    if |events| == 0 then zmqEnable.Enabled?
    else
      var front, last := events[..|events| - 1], events[|events| - 1];
      if last.Attr? && last.attribute.SyncMode? then
        last.attribute.on || ResolvedKind(zmqEnable, LastMode(front)) == OnZmq
      else if last.Attr? && last.attribute.CommunicationMode? && !zmqEnable.Enabled? && IsMode(last.attribute.mode) then
        last.attribute.mode != REDIS_ASYNC
      else LastSync(zmqEnable, front)
  }

  /**
   * Is a Redis channel buffered? A mode request decides, sync mode switches it off, and pipelining
   * sets it outside sync mode.
   */
  function LastBuffered(zmqEnable: ZmqEnable, events: seq<Event>): bool
    decreases |events|
  {
    if |events| == 0 then true
    else
      var front, last := events[..|events| - 1], events[|events| - 1];
      if last.Attr? && last.attribute.CommunicationMode? && !zmqEnable.Enabled? then last.attribute.mode == REDIS_ASYNC
      else if last.Attr? && last.attribute.SyncMode? && last.attribute.on then false
      else if last.Attr? && last.attribute.UsePipeline? && !LastSync(zmqEnable, front) then last.attribute.on
      else LastBuffered(zmqEnable, front)
  }

  /** The live channel is the one that the file and the last requests of a session ask for. */
  predicate Follows(zmqEnable: ZmqEnable, s: State, events: seq<Event>) {
    && s.initialized
    && KindOf(s.channel) == ResolvedKind(zmqEnable, LastMode(events))
    && s.responseTimeoutMs == LastTimeout(events)
    && (!s.channel.NoChannel? ==> s.channel.timeoutMs == LastTimeout(events))
  }

  predicate FollowsSync(zmqEnable: ZmqEnable, s: State, events: seq<Event>) {
    && s.syncMode == LastSync(zmqEnable, events)
    && (s.channel.Redis? ==> s.channel.buffered == LastBuffered(zmqEnable, events))
  }

  lemma StepFollows(zmqEnable: ZmqEnable, s: State, events: seq<Event>)
    requires InSession(events) && |events| > 0
    requires Follows(zmqEnable, s, events[..|events| - 1]) && Inv(zmqEnable, s)
    ensures var after := Step(zmqEnable, s, events[|events| - 1]);
            after.result.Returned? ==> Follows(zmqEnable, after.state, events)
  {}

  lemma StepFollowsSync(zmqEnable: ZmqEnable, s: State, events: seq<Event>)
    requires InSession(events) && |events| > 0 && Inv(zmqEnable, s)
    requires Follows(zmqEnable, s, events[..|events| - 1]) && FollowsSync(zmqEnable, s, events[..|events| - 1])
    ensures var after := Step(zmqEnable, s, events[|events| - 1]);
            after.result.Returned? ==> FollowsSync(zmqEnable, after.state, events)
  {}

  /** The live channel's kind and timeout, sync mode and buffering are functions of the file and of the last requests. */
  lemma {:induction false} ChannelFollowsLastRequests(zmqEnable: ZmqEnable, binds: bool, events: seq<Event>)
    requires InSession(events)
    ensures var run := Run(zmqEnable, AfterInitialize(zmqEnable, CREATED, binds).state, events);
            AfterInitialize(zmqEnable, CREATED, binds).result.Returned? && run.Some? ==>
              Follows(zmqEnable, run.value, events) && FollowsSync(zmqEnable, run.value, events)
    decreases |events|
  {
    if AfterInitialize(zmqEnable, CREATED, binds).result.Returned? && |events| > 0 {
      var start := AfterInitialize(zmqEnable, CREATED, binds).state;
      var before := Run(zmqEnable, start, events[..|events| - 1]);
      RunLast(zmqEnable, start, events);
      ChannelFollowsLastRequests(zmqEnable, binds, events[..|events| - 1]);
      RunKeepsInv(zmqEnable, start, events[..|events| - 1]);
      if before.Some? {
        StepFollows(zmqEnable, before.value, events);
        StepFollowsSync(zmqEnable, before.value, events);
      }
    }
  }

  /** A state that a session without exceptions reaches. */
  ghost predicate SessionReaches(zmqEnable: ZmqEnable, binds: bool, events: seq<Event>, s: State) {
    && InSession(events) && AfterInitialize(zmqEnable, CREATED, binds).result.Returned?
    && Run(zmqEnable, AfterInitialize(zmqEnable, CREATED, binds).state, events) == Some(s)
  }

  lemma SessionIsInOrder(zmqEnable: ZmqEnable, binds: bool, events: seq<Event>, s: State)
    requires SessionReaches(zmqEnable, binds, events, s)
    ensures Follows(zmqEnable, s, events) && FollowsSync(zmqEnable, s, events) && Inv(zmqEnable, s)
  {
    ChannelFollowsLastRequests(zmqEnable, binds, events);
    RunKeepsInv(zmqEnable, AfterInitialize(zmqEnable, CREATED, binds).state, events);
  }

  lemma CallReturns(s: State, call: Call, command: string, net: Network, redisStatus: Status, status: Status)
    requires s.channel.Zmq? ==> s.syncMode && !s.channel.awaitingReply
    ensures AfterCall(s, call, command, net, redisStatus).result == Returned(status) <==>
              match s.channel
              case NoChannel => false
              case Redis(_, _) => status == if call.Querying? || s.syncMode then redisStatus else SUCCESS
              case Zmq(_, _) => (exists k :: EndsWith(net.send, k, Sent)) && Answers(net, command, status)
  {
    RetryExactly(net.send, Sent);
    WaitReturnsExactly(command, net, status);
  }

  /**
   * What a call returns, from the requests of the session alone: on Redis the status of the wait, or
   * success where it does not wait; on ZMQ the status of the reply, once the request has gone out.
   * In all other cases it throws.
   */
  lemma CallsReturnExactly(zmqEnable: ZmqEnable, binds: bool, events: seq<Event>, s: State,
                           call: Call, command: string, net: Network, redisStatus: Status, status: Status)
    requires SessionReaches(zmqEnable, binds, events, s)
    ensures AfterCall(s, call, command, net, redisStatus).result == Returned(status) <==>
              match ResolvedKind(zmqEnable, LastMode(events))
              case NullChannel => false
              case OnRedis => status == if call.Querying? || LastSync(zmqEnable, events) then redisStatus else SUCCESS
              case OnZmq => (exists k :: EndsWith(net.send, k, Sent)) && Answers(net, command, status)
  {
    SessionIsInOrder(zmqEnable, binds, events, s);
    CallReturns(s, call, command, net, redisStatus, status);
  }

  /** How a request ends, from the requests before it: it needs a channel, a mode that exists, or async mode. */
  lemma AttributesReturnExactly(zmqEnable: ZmqEnable, binds: bool, events: seq<Event>, s: State, a: Attribute)
    requires SessionReaches(zmqEnable, binds, events, s)
    ensures var lost := ResolvedKind(zmqEnable, LastMode(events)) == NullChannel;
            AfterAttribute(zmqEnable, s, a).result ==
              match a
              case ResponseTimeout(_) => if lost then Thrown else Returned(SUCCESS)
              case Flush => if lost then Thrown else Returned(SUCCESS)
              case SyncMode(on) => if on && lost then Thrown else Returned(SUCCESS)
              case UsePipeline(_) =>
                if LastSync(zmqEnable, events) then Returned(NOT_SUPPORTED)
                else if lost then Thrown else Returned(SUCCESS)
              case CommunicationMode(mode, opens) =>
                if zmqEnable.Enabled? then Returned(SUCCESS)
                else if !IsMode(mode) then Returned(NOT_SUPPORTED)
                else if mode == ZMQ_SYNC && zmqEnable.Unspecified? && !opens then Thrown
                else Returned(SUCCESS)
  {
    SessionIsInOrder(zmqEnable, binds, events, s);
  }

  /**
   * A session begins once, by the file alone, and ends once; after its end, and after a ZMQ channel
   * could not be opened, there is no channel and every call throws.
   */
  lemma SessionsBeginAndEnd(zmqEnable: ZmqEnable, s: State, binds: bool)
    ensures var begun := AfterInitialize(zmqEnable, s, binds);
            if s.initialized then begun == After(Returned(FAILURE), s)
            else if zmqEnable.Enabled? && !binds then begun.result.Thrown? && !begun.state.initialized
            else
              begun.result == Returned(SUCCESS)
              && Follows(zmqEnable, begun.state, []) && FollowsSync(zmqEnable, begun.state, [])
    ensures var ended := AfterUninitialize(s);
            if !s.initialized then ended == After(Returned(FAILURE), s)
            else ended.result == Returned(SUCCESS) && !ended.state.initialized && ended.state.channel.NoChannel?
    ensures !zmqEnable.Enabled? && AfterAttribute(zmqEnable, s, CommunicationMode(ZMQ_SYNC, false)).result.Thrown? ==>
              AfterAttribute(zmqEnable, s, CommunicationMode(ZMQ_SYNC, false)).state.channel.NoChannel?
  {}

  /**
   * In every reachable state on ZMQ, a call sends once and, unless that send fails on the network,
   * waits once; when it returns, by success, failure status or timeout, the socket can send again.
   */
  lemma ZmqCallsAlternate(zmqEnable: ZmqEnable, events: seq<Event>, call: Call, command: string, net: Network,
                          redisStatus: Status)
    requires Run(zmqEnable, CREATED, events).Some?
    requires Run(zmqEnable, CREATED, events).value.channel.Zmq?
    ensures var end := AfterCall(Run(zmqEnable, CREATED, events).value, call, command, net, redisStatus);
            && end.ops == (if Retry(net.send, 0) == Some(Sent) then [SendOp, WaitOp] else [SendOp])
            && end.state.channel.Zmq?
            && (end.result.Returned? ==> end.ops == [SendOp, WaitOp] && !end.state.channel.awaitingReply)
  {
    RunKeepsInv(zmqEnable, CREATED, events);
  }

  // Runs that go on after an exception, because the caller catches it.

  function RunOn(zmqEnable: ZmqEnable, events: seq<Event>): State {
    if |events| == 0 then CREATED
    else Step(zmqEnable, RunOn(zmqEnable, events[..|events| - 1]), events[|events| - 1]).state
  }

  lemma {:induction false} RunOnIsFirm(zmqEnable: ZmqEnable, events: seq<Event>)
    ensures Firm(zmqEnable, RunOn(zmqEnable, events))
    decreases |events|
  {
    if |events| > 0 {
      RunOnIsFirm(zmqEnable, events[..|events| - 1]);
      StepKeepsInv(zmqEnable, RunOn(zmqEnable, events[..|events| - 1]), events[|events| - 1]);
    }
  }

  /** A REQ socket that cannot send. */
  predicate Stuck(s: State) { s.channel.Zmq? && s.channel.awaitingReply }

  /** The request went out, and its reply was neither received nor given up on after a timeout. */
  predicate LosesReply(net: Network) {
    var polled, message := Retry(net.poll, 0), Retry(net.recv, 0);
    && Retry(net.send, 0) == Some(Sent)
    && (|| polled == None || polled == Some(PollFailed)
        || (polled == Some(Ready) && (message == None || message == Some(RecvFailed))))
  }

  /** A mode request that the file does not lock out, the end of the session, or the start of one. */
  predicate ReplacesChannel(zmqEnable: ZmqEnable, s: State, e: Event) {
    || (e.Attr? && e.attribute.CommunicationMode? && !zmqEnable.Enabled?)
    || (e.Uninitialize? && s.initialized)
    || (e.Initialize? && !s.initialized)
  }

  predicate ReplacesChannelAt(zmqEnable: ZmqEnable, events: seq<Event>, i: nat)
    requires i < |events|
  {
    ReplacesChannel(zmqEnable, RunOn(zmqEnable, events[..i]), events[i])
  }

  /** The `i`-th event is a call on ZMQ that loses its reply. */
  predicate LosesReplyAt(zmqEnable: ZmqEnable, events: seq<Event>, i: nat)
    requires i < |events|
  {
    events[i].Api? && LosesReply(events[i].net) && RunOn(zmqEnable, events[..i]).channel.Zmq?
  }

  /** A call on a stuck socket throws on its send and leaves everything as it is. */
  lemma StuckCallsThrow(s: State, call: Call, command: string, net: Network, redisStatus: Status)
    requires Stuck(s)
    ensures AfterCall(s, call, command, net, redisStatus) == CallEnd(Thrown, s, [SendOp])
  {}

  /** One step: what makes a socket stuck, and what frees it. */
  lemma StuckStep(zmqEnable: ZmqEnable, s: State, e: Event)
    requires Firm(zmqEnable, s)
    ensures Stuck(Step(zmqEnable, s, e).state) <==>
              || (Stuck(s) && !ReplacesChannel(zmqEnable, s, e))
              || (s.channel.Zmq? && e.Api? && LosesReply(e.net))
  {}

  /** A call on ZMQ lost its reply at `i`, and the channel has not been replaced since. */
  predicate StuckSince(zmqEnable: ZmqEnable, events: seq<Event>, i: nat) {
    && i < |events| && LosesReplyAt(zmqEnable, events, i)
    && forall j :: i < j < |events| ==> !ReplacesChannelAt(zmqEnable, events, j)
  }

  /** Some call of the history lost its reply, and the channel has not been replaced since. */
  predicate StuckByHistory(zmqEnable: ZmqEnable, events: seq<Event>) {
    exists i :: 0 <= i < |events| && StuckSince(zmqEnable, events, i)
  }

  lemma StuckSinceBefore(zmqEnable: ZmqEnable, events: seq<Event>, i: nat)
    requires i + 1 < |events|
    ensures var n := |events| - 1;
            StuckSince(zmqEnable, events, i) <==>
              StuckSince(zmqEnable, events[..n], i) && !ReplacesChannelAt(zmqEnable, events, n)
  {
    var n := |events| - 1;
    forall j: nat | j < n ensures events[..n][..j] == events[..j] && events[..n][j] == events[j] {
    }
    assert forall j: nat :: j < n ==>
      ReplacesChannelAt(zmqEnable, events[..n], j) == ReplacesChannelAt(zmqEnable, events, j);
  }

  lemma HistoryStep(zmqEnable: ZmqEnable, events: seq<Event>)
    requires |events| > 0
    ensures var n := |events| - 1;
            StuckByHistory(zmqEnable, events) <==>
              || (StuckByHistory(zmqEnable, events[..n]) && !ReplacesChannelAt(zmqEnable, events, n))
              || LosesReplyAt(zmqEnable, events, n)
  {
    var n := |events| - 1;
    forall i: nat | i < n
      ensures StuckSince(zmqEnable, events, i) <==>
                StuckSince(zmqEnable, events[..n], i) && !ReplacesChannelAt(zmqEnable, events, n)
    {
      StuckSinceBefore(zmqEnable, events, i);
    }
    assert StuckSince(zmqEnable, events, n) <==> LosesReplyAt(zmqEnable, events, n);
  }

  /**
   * At the start of a call the REQ socket cannot send exactly when, at some point of the history, a
   * call on ZMQ lost its reply and since then the channel has not been replaced by a mode request or
   * by ending or starting the session. Nothing else frees it: every further call throws on its send
   * and changes nothing.
   */
  lemma {:induction false} StuckHistories(zmqEnable: ZmqEnable, events: seq<Event>)
    ensures var s := RunOn(zmqEnable, events);
            && (Stuck(s) <==> StuckByHistory(zmqEnable, events))
            && (Stuck(s) ==> forall call, command, net, redisStatus ::
                  AfterCall(s, call, command, net, redisStatus) == CallEnd(Thrown, s, [SendOp]))
    decreases |events|
  {
    if |events| > 0 {
      var n := |events| - 1;
      StuckHistories(zmqEnable, events[..n]);
      RunOnIsFirm(zmqEnable, events[..n]);
      StuckStep(zmqEnable, RunOn(zmqEnable, events[..n]), events[n]);
      HistoryStep(zmqEnable, events);
    }
    var s := RunOn(zmqEnable, events);
    if Stuck(s) {
      forall call, command, net, redisStatus
        ensures AfterCall(s, call, command, net, redisStatus) == CallEnd(Thrown, s, [SendOp])
      {
        StuckCallsThrow(s, call, command, net, redisStatus);
      }
    }
  }

  /** Why ZMQ must imply sync mode: without it the second mutating call would find the socket busy. */
  lemma AsyncZmqWouldFail(s: State, command: string, net: Network, redisStatus: Status)
    requires s.channel.Zmq? && !s.syncMode
    ensures var end := AfterCall(s, Mutating, command, net, redisStatus);
            AfterCall(end.state, Mutating, command, net, redisStatus).result.Thrown?
  {}

  class RedisChannel {
    var responseTimeoutMs: nat
    var buffered: bool

    constructor ()
      ensures responseTimeoutMs == DEFAULT_TIMEOUT_MS && buffered
    {
      responseTimeoutMs, buffered := DEFAULT_TIMEOUT_MS, true;
    }
  }

  /** The interface object. The source's one channel pointer is a pair of which at most one is set. */
  class RedisRemoteSaiInterface {
    const zmqEnable: ZmqEnable
    var initialized: bool
    var redisCommunicationMode: int
    var syncMode: bool
    var responseTimeoutMs: nat
    var redisChannel: RedisChannel?
    var zmqChannel: ZeroMQChannel?

    ghost predicate Valid()
      reads this
    {
      redisChannel == null || zmqChannel == null
    }

    ghost function View(): State
      reads this, redisChannel, zmqChannel
    {
      State(initialized, redisCommunicationMode, syncMode, responseTimeoutMs,
            if zmqChannel != null then Zmq(zmqChannel.responseTimeoutMs, zmqChannel.awaitingReply)
            else if redisChannel != null then Redis(redisChannel.responseTimeoutMs, redisChannel.buffered)
            else NoChannel)
    }

    constructor (zmqEnable: ZmqEnable)
      ensures Valid() && View() == CREATED && this.zmqEnable == zmqEnable
    {
      this.zmqEnable := zmqEnable;
      initialized, redisCommunicationMode, syncMode, responseTimeoutMs := false, REDIS_ASYNC, false, 0;
      redisChannel, zmqChannel := null, null;
    }

    method UseRedisChannel(timeout: nat, buffered: bool)
      modifies this`redisChannel, this`zmqChannel
      ensures zmqChannel == null && redisChannel != null && fresh(redisChannel)
      ensures redisChannel.responseTimeoutMs == timeout && redisChannel.buffered == buffered
    {
      zmqChannel := null;
      redisChannel := new RedisChannel();
      redisChannel.responseTimeoutMs := timeout;
      redisChannel.buffered := buffered;
    }

    method UseZmqChannel(timeout: nat)
      modifies this`redisChannel, this`zmqChannel
      ensures redisChannel == null && zmqChannel != null && fresh(zmqChannel)
      ensures zmqChannel.responseTimeoutMs == timeout && !zmqChannel.awaitingReply
    {
      redisChannel := null;
      zmqChannel := new ZeroMQChannel();
      zmqChannel.SetResponseTimeout(timeout);
    }

    method ApiInitialize(binds: bool) returns (r: Result<Status>)
      requires Valid()
      modifies this
      ensures Valid()
      ensures After(r, View()) == AfterInitialize(zmqEnable, old(View()), binds)
    {
      if initialized {
        return Returned(FAILURE);
      }
      syncMode := false;
      redisCommunicationMode := REDIS_ASYNC;
      if zmqEnable.Enabled? {
        if !binds {
          return Thrown;
        }
        UseZmqChannel(DEFAULT_TIMEOUT_MS);
        redisCommunicationMode := ZMQ_SYNC;
        syncMode := true;
        responseTimeoutMs := zmqChannel.responseTimeoutMs;
      } else {
        UseRedisChannel(DEFAULT_TIMEOUT_MS, true);
        responseTimeoutMs := redisChannel.responseTimeoutMs;
      }
      initialized := true;
      return Returned(SUCCESS);
    }

    method ApiUninitialize() returns (r: Result<Status>)
      requires Valid()
      modifies this
      ensures Valid()
      ensures After(r, View()) == AfterUninitialize(old(View()))
    {
      if !initialized {
        return Returned(FAILURE);
      }
      redisChannel, zmqChannel := null, null;
      initialized := false;
      return Returned(SUCCESS);
    }

    /** `setBuffered` through the channel pointer. */
    method SetBuffered(on: bool) returns (r: Result<Status>)
      requires Valid()
      modifies redisChannel
      ensures Valid()
      ensures View() == old(View()).(channel := old(View()).channel.WithBuffered(on))
      ensures r == if View().channel.NoChannel? then Thrown else Returned(SUCCESS)
    {
      if redisChannel == null && zmqChannel == null {
        return Thrown;
      }
      if redisChannel != null {
        redisChannel.buffered := on;
      }
      return Returned(SUCCESS);
    }

    method SetCommunicationMode(mode: int, binds: bool) returns (r: Result<Status>)
      requires Valid()
      modifies this
      ensures Valid()
      ensures After(r, View()) == AfterAttribute(zmqEnable, old(View()), CommunicationMode(mode, binds))
    {
      if zmqEnable.Enabled? {
        return Returned(SUCCESS);
      }
      redisCommunicationMode := mode;
      redisChannel, zmqChannel := null, null;
      if mode == REDIS_ASYNC {
        syncMode := false;
        UseRedisChannel(responseTimeoutMs, true);
        return Returned(SUCCESS);
      } else if mode == REDIS_SYNC {
        syncMode := true;
        UseRedisChannel(responseTimeoutMs, false);
        return Returned(SUCCESS);
      } else if mode == ZMQ_SYNC {
        if zmqEnable.Disabled? {
          redisCommunicationMode := REDIS_SYNC;
          syncMode := true;
          UseRedisChannel(responseTimeoutMs, false);
          return Returned(SUCCESS);
        }
        if !binds {
          return Thrown;
        }
        UseZmqChannel(responseTimeoutMs);
        syncMode := true;
        return Returned(SUCCESS);
      }
      return Returned(NOT_SUPPORTED);
    }

    method SetRedisExtensionAttribute(attr: Attribute) returns (r: Result<Status>)
      requires Valid()
      modifies this, redisChannel, zmqChannel
      ensures Valid()
      ensures After(r, View()) == AfterAttribute(zmqEnable, old(View()), attr)
    {
      match attr {
        case ResponseTimeout(ms) =>
          responseTimeoutMs := ms;
          if zmqChannel != null {
            zmqChannel.SetResponseTimeout(ms);
          } else if redisChannel != null {
            redisChannel.responseTimeoutMs := ms;
          } else {
            return Thrown;
          }
          return Returned(SUCCESS);
        case SyncMode(on) =>
          syncMode := on;
          if redisCommunicationMode == ZMQ_SYNC {
            syncMode := true;
          }
          if syncMode {
            r := SetBuffered(false);
            return r;
          }
          return Returned(SUCCESS);
        case CommunicationMode(mode, binds) =>
          r := SetCommunicationMode(mode, binds);
        case UsePipeline(on) =>
          if syncMode {
            return Returned(NOT_SUPPORTED);
          }
          r := SetBuffered(on);
        case Flush =>
          return if redisChannel == null && zmqChannel == null then Thrown else Returned(SUCCESS);
      }
    }

    /** A call of either kind, with the channel operations it performed. */
    method Perform(call: Call, command: string, net: Network, redisStatus: Status)
      returns (r: Result<Status>, ops: seq<ChannelOp>)
      requires Valid()
      modifies zmqChannel
      ensures Valid()
      ensures CallEnd(r, View(), ops) == AfterCall(old(View()), call, command, net, redisStatus)
    {
      if redisChannel == null && zmqChannel == null {
        return Thrown, [];
      }
      ops := [SendOp];
      if zmqChannel != null {
        var sent := zmqChannel.Set(net);
        if sent.Thrown? {
          return Thrown, ops;
        }
      }
      if call.Querying? || syncMode {
        ops := ops + [WaitOp];
        if zmqChannel != null {
          r := zmqChannel.Wait(command, net);
        } else {
          r := Returned(redisStatus);
        }
      } else {
        r := Returned(SUCCESS);
      }
    }
  }
}
