/**
 * The REP socket that meta/ZeroMQSelectableChannel.cpp shares between its poll thread and the server
 * thread of lib/ServerSai.cpp, as an interleaving of atomic actions.
 *
 * The poll thread waits for input on the socket, raises an event and then spins on
 * `allowZmqPoll`. The server thread wakes on the event, receives, answers, and raises the flag.
 */
module PollChannel {
  import opened Sequences

  /** A request as `pop` hands it over: the first pair of the message, and the pairs after it. */
  datatype Request = Request(key: string, op: string, values: seq<(string, string)>)

  /** Where the poll thread is: the action it takes next. */
  datatype PollLocation = LoopTop | Polling | CheckingEvents | Notifying | Spinning | PollEnded

  /** Where the server thread is: `Selecting` and `Receiving` can block. */
  datatype ServeLocation =
    | Selecting | Receiving | Popping | Processing(request: Request) | Sending(request: Request)
    | RaisingFlag | TestingQueue | Dead

  datatype State = State(
    inbox: seq<Request>,          // delivered to the socket and not yet received
    awaitingReply: bool,          // REP state: received, and must send before it can receive again
    event: bool,                  // m_selectableEvent
    allowZmqPoll: bool,
    queue: seq<Request>,
    poll: PollLocation,
    serve: ServeLocation,
    received: seq<Request>,       // history of zmq_recv
    replied: seq<Request>)        // history of zmq_send: the requests answered

  const INIT := State([], false, false, false, [], LoopTop, Selecting, [], [])

  predicate Readable(s: State) { |s.inbox| > 0 && !s.awaitingReply }

  /** One action of `zmqPollThread`. */
  function PollStep(s: State): State {
    match s.poll
    case LoopTop => s.(allowZmqPoll := false, poll := Polling)
    case Polling => if Readable(s) then s.(poll := CheckingEvents) else s.(poll := LoopTop)
    case CheckingEvents => if Readable(s) then s.(poll := Notifying) else s.(poll := PollEnded)
    case Notifying => s.(event := true, poll := Spinning)
    case Spinning => if s.allowZmqPoll then s.(poll := LoopTop) else s
    case PollEnded => s
  }

  /**
   * One action of the server thread: `select`, the two halves of `readData`, `pop`,
   * `processSingleEvent`, the two halves of `set`, and the test that ends `processEvent`.
   */
  function ServeStep(s: State): State {
    match s.serve
    case Selecting => if s.event then s.(event := false, serve := Receiving) else s
    case Receiving =>
      if s.awaitingReply then s.(serve := Dead)
      else if |s.inbox| == 0 then s
      else s.(inbox := s.inbox[1..], awaitingReply := true, queue := s.queue + [s.inbox[0]],
              received := s.received + [s.inbox[0]], serve := Popping)
    case Popping =>
      if |s.queue| == 0 then s.(serve := Dead)
      else s.(queue := s.queue[1..], serve := Processing(s.queue[0]))
    case Processing(request) =>
      if |request.key| == 0 then s.(serve := TestingQueue) else s.(serve := Sending(request))
    case Sending(request) =>
      if !s.awaitingReply then s.(allowZmqPoll := true, serve := Dead)
      else s.(awaitingReply := false, replied := s.replied + [request], serve := RaisingFlag)
    case RaisingFlag => s.(allowZmqPoll := true, serve := TestingQueue)
    case TestingQueue => if |s.queue| > 0 then s.(serve := Popping) else s.(serve := Selecting)
    case Dead => s
  }

  datatype Event = Deliver(request: Request) | PollTurn | ServeTurn

  function Step(s: State, e: Event): State {
    match e
    case Deliver(request) => s.(inbox := s.inbox + [request])
    case PollTurn => PollStep(s)
    case ServeTurn => ServeStep(s)
  }

  function Run(s: State, events: seq<Event>): State
    decreases |events|
  {
    if |events| == 0 then s else Run(Step(s, events[0]), events[1..])
  }

  function Arrival(e: Event): seq<Request> { if e.Deliver? then [e.request] else [] }

  function Delivered(events: seq<Event>): seq<Request>
    decreases |events|
  {
    if |events| == 0 then []
    else Arrival(events[0]) + Delivered(events[1..])
  }

  predicate Serving(l: ServeLocation) {
    l.Receiving? || l.Popping? || l.Processing? || l.Sending? || l.RaisingFlag?
  }

  predicate PollUsesSocket(s: State) { s.poll.Polling? || s.poll.CheckingEvents? }

  predicate ServeUsesSocket(s: State) { s.serve.Receiving? || s.serve.Sending? }

  predicate AllKeyed(requests: seq<Request>) {
    forall r :: r in requests ==> |r.key| > 0
  }

  /** The request between its zmq_recv and its zmq_send. */
  function InHand(s: State): seq<Request> {
    match s.serve
    case Popping => s.queue
    case Processing(request) => [request]
    case Sending(request) => [request]
    case _ => []
  }

  /** The states in which every request so far was, or can still be, answered. */
  predicate Normal(s: State) {
    && !s.poll.PollEnded? && !s.serve.Dead?
    && (s.event ==> s.poll.Spinning? && !s.allowZmqPoll && |s.inbox| > 0 && !Serving(s.serve))
    && (Serving(s.serve) ==> s.poll.Spinning? && !s.allowZmqPoll)
    && (s.poll.Spinning? && !s.allowZmqPoll ==> s.event || Serving(s.serve))
    && (s.poll.CheckingEvents? || s.poll.Notifying? ==> |s.inbox| > 0)
    && (s.serve.Receiving? ==> |s.inbox| > 0)
    && (s.awaitingReply <==> |InHand(s)| > 0)
    && |InHand(s)| <= 1
    && (s.serve.Popping? ==> |s.queue| == 1) && (!s.serve.Popping? ==> s.queue == [])
    && (s.serve.Sending? ==> |s.serve.request.key| > 0)
    && (s.serve.Processing? ==> s.awaitingReply)
    && s.received == s.replied + InHand(s)
    && AllKeyed(s.replied)
    && (s.allowZmqPoll ==> s.poll.Spinning? || s.poll.LoopTop?)
  }

  /** The states after a request with an empty key: it was received and will never be answered. */
  predicate Wedged(s: State) {
    && s.poll.Spinning? && !s.allowZmqPoll && !s.event
    && (s.serve.TestingQueue? || s.serve.Selecting?)
    && s.awaitingReply && s.queue == []
    && |s.received| == |s.replied| + 1
    && s.received[..|s.replied|] == s.replied
    && |s.received[|s.replied|].key| == 0
    && AllKeyed(s.replied)
  }

  predicate Inv(s: State) { Normal(s) || Wedged(s) }

  lemma PollKeepsInv(s: State)
    requires Inv(s)
    ensures Inv(PollStep(s))
    ensures Wedged(s) ==> PollStep(s) == s
  {}

  lemma ServeKeepsInv(s: State)
    requires Inv(s)
    ensures Inv(ServeStep(s))
    ensures Wedged(s) ==> Wedged(ServeStep(s)) && ServeStep(s).replied == s.replied
  {}

  /** A turn of the server thread moves a request at most, and loses none. */
  lemma ServeKeepsRequests(s: State)
    ensures ServeStep(s).received + ServeStep(s).inbox == s.received + s.inbox
    ensures s.replied <= ServeStep(s).replied
  {
    if s.serve.Receiving? && |s.inbox| > 0 {
      assert s.received + s.inbox == s.received + [s.inbox[0]] + s.inbox[1..];
    }
  }

  lemma StepKeepsInv(s: State, e: Event)
    requires Inv(s)
    ensures Inv(Step(s, e))
    ensures Step(s, e).received + Step(s, e).inbox
         == s.received + s.inbox + Arrival(e)
    ensures s.replied <= Step(s, e).replied
  {
    match e
    case Deliver(request) =>
      assert s.received + (s.inbox + [request]) == s.received + s.inbox + [request];
    case PollTurn =>
      PollKeepsInv(s);
      assert s.received + s.inbox + [] == s.received + s.inbox;
    case ServeTurn =>
      ServeKeepsInv(s);
      ServeKeepsRequests(s);
      assert s.received + s.inbox + [] == s.received + s.inbox;
  }

  lemma ArrivalsAdd(before: seq<Request>, events: seq<Event>)
    requires |events| > 0
    ensures before + Arrival(events[0]) + Delivered(events[1..]) == before + Delivered(events)
  {
    AppendAssociates(before, Arrival(events[0]), Delivered(events[1..]));
  }

  lemma {:induction false} RunKeepsInv(s: State, events: seq<Event>)
    requires Inv(s)
    ensures Inv(Run(s, events))
    ensures Run(s, events).received + Run(s, events).inbox == s.received + s.inbox + Delivered(events)
    decreases |events|
  {
    if |events| == 0 {
      assert s.received + s.inbox + [] == s.received + s.inbox;
    } else {
      StepKeepsInv(s, events[0]);
      RunKeepsInv(Step(s, events[0]), events[1..]);
      ArrivalsAdd(s.received + s.inbox, events);
    }
  }

  // Safety over runs.

  /** The requests before the first one with an empty key: those the server can answer. */
  function Answerable(requests: seq<Request>): seq<Request> {
    if |requests| == 0 || |requests[0].key| == 0 then []
    else [requests[0]] + Answerable(requests[1..])
  }

  lemma {:induction false} KeyedPrefixIsAnswerable(keyed: seq<Request>, rest: seq<Request>)
    requires AllKeyed(keyed)
    ensures Answerable(keyed + rest) == keyed + Answerable(rest)
  {
    if |keyed| == 0 {
      assert keyed + rest == rest;
    } else {
      assert keyed[0] in keyed;
      KeyedPrefixIsAnswerable(keyed[1..], rest);
      assert (keyed + rest)[1..] == keyed[1..] + rest;
    }
  }

  lemma RepliedIsAnswerable(s: State)
    requires Inv(s)
    ensures s.replied <= Answerable(s.received + s.inbox)
    ensures Wedged(s) ==> s.replied == Answerable(s.received + s.inbox)
  {
    var rest := s.received[|s.replied|..] + s.inbox;
    Continues(s.received, s.replied, s.inbox);
    KeyedPrefixIsAnswerable(s.replied, rest);
    if Wedged(s) {
      assert rest[0] == s.received[|s.replied|];
    }
  }

  /**
   * In every interleaving: the threads never use the socket together, receive and reply alternate,
   * at most one message is queued, `pop` never finds the queue empty, no socket call fails, the poll
   * thread never ends, requests are received in order, and only answerable ones are answered.
   */
  lemma EveryInterleavingIsSafe(events: seq<Event>)
    ensures var s := Run(INIT, events);
            && !(PollUsesSocket(s) && ServeUsesSocket(s))
            && !s.serve.Dead? && !s.poll.PollEnded?
            && |s.queue| <= 1
            && s.received + s.inbox == Delivered(events)
            && s.replied <= s.received
            && |s.received| == |s.replied| + (if s.awaitingReply then 1 else 0)
            && s.replied <= Answerable(Delivered(events))
  {
    RunKeepsInv(INIT, events);
    RepliedIsAnswerable(Run(INIT, events));
  }

  /**
   * Raising `allowZmqPoll` is never lost: the server raises it only while the poll thread spins on a
   * lowered flag, and it then stays raised until the poll thread has left the spin.
   */
  lemma RaisedFlagIsSeen(events: seq<Event>, e: Event)
    ensures var s := Run(INIT, events);
            var next := Step(s, e);
            && (s.serve.RaisingFlag? ==> s.poll.Spinning? && !s.allowZmqPoll)
            && (s.poll.Spinning? && s.allowZmqPoll ==>
                  (next.poll.Spinning? && next.allowZmqPoll) || (e.PollTurn? && next.poll.LoopTop?))
  {
    RunKeepsInv(INIT, events);
    StepKeepsInv(Run(INIT, events), e);
  }

  // Progress.

  /** Upper bound on the useful turns left: no turn raises it, and while it is positive some turn lowers it. */
  function Rank(s: State): nat {
    if Wedged(s) then 0 else 60 * |s.inbox| + PollRank(s) + ServeRank(s) + if s.event then 2 else 0
  }

  function PollRank(s: State): nat {
    match s.poll
    case LoopTop => if |s.inbox| == 0 then 0 else 8
    case Polling => if |s.inbox| == 0 then 0 else 7
    case CheckingEvents => 6
    case Notifying => 5
    case Spinning => if s.allowZmqPoll then 9 else 1
    case PollEnded => 0
  }

  function ServeRank(s: State): nat {
    match s.serve
    case Selecting => 0
    case Receiving => 1
    case Popping => 24
    case Processing(_) => 23
    case Sending(_) => 22
    case RaisingFlag => 21
    case TestingQueue => 1
    case Dead => 0
  }

  lemma PollTurnNeverRaisesRank(s: State)
    requires Inv(s)
    ensures Rank(PollStep(s)) <= Rank(s)
  {
    PollKeepsInv(s);
  }

  lemma ServeTurnNeverRaisesRank(s: State)
    requires Inv(s)
    ensures Rank(ServeStep(s)) <= Rank(s)
  {
    ServeKeepsInv(s);
  }

  predicate PollReady(s: State) { Rank(PollStep(s)) < Rank(s) }

  predicate ServeReady(s: State) { Rank(ServeStep(s)) < Rank(s) }

  /** While something is left to do, a turn of one of the threads makes progress. */
  lemma SomeThreadIsReady(s: State)
    requires Inv(s) && Rank(s) > 0
    ensures PollReady(s) || ServeReady(s)
  {
    assert Normal(s);
    if s.poll.Spinning? && !s.allowZmqPoll {
      assert s.event || Serving(s.serve);
    }
  }

  /** A turn of the other thread makes progress itself or leaves a ready thread ready. */
  lemma ReadyThreadsStayReady(s: State)
    requires Inv(s)
    ensures PollReady(s) ==> ServeReady(s) || PollReady(ServeStep(s))
    ensures ServeReady(s) ==> PollReady(s) || ServeReady(PollStep(s))
  {
    ServeKeepsInv(s);
    PollKeepsInv(s);
  }

  /** All requests that have arrived, in order. */
  function Arrived(s: State): seq<Request> { s.received + s.inbox }

  /** The first `m` requests are answered, as far as they can be. */
  predicate Met(s: State, m: nat)
    requires m <= |Arrived(s)|
  {
    Answerable(Arrived(s)[..m]) <= s.replied
  }

  lemma {:induction false} KeyedIsAnswerable(keyed: seq<Request>)
    requires AllKeyed(keyed)
    ensures Answerable(keyed) == keyed
  {
    KeyedPrefixIsAnswerable(keyed, []);
    assert keyed + [] == keyed;
  }

  lemma OldGoalsAreMet(s: State, m: nat)
    requires Inv(s) && m <= |Arrived(s)|
    ensures m <= |s.replied| ==> Met(s, m)
  {
    var answered := s.replied[..if m <= |s.replied| then m else 0];
    KeyedIsAnswerable(answered);
    assert m <= |s.replied| ==> Arrived(s)[..m] == answered;
  }

  lemma WedgedIsMet(s: State, m: nat)
    requires Inv(s) && |s.replied| < m <= |Arrived(s)|
    ensures Wedged(s) ==> Met(s, m)
  {
    var rest := Arrived(s)[..m][|s.replied|..];
    assert Arrived(s)[..m] == s.replied + rest;
    KeyedPrefixIsAnswerable(s.replied, rest);
    assert Wedged(s) ==> rest[0] == s.received[|s.replied|];
  }

  /** As long as the first `m` requests are not answered, one of them waits in the socket or is in hand. */
  lemma UnmetIsBusy(s: State, m: nat)
    requires Inv(s) && m <= |Arrived(s)| && !Met(s, m)
    ensures Normal(s) && |s.received| <= m
    ensures if m == |s.received| then |InHand(s)| > 0 else |s.inbox| > 0
  {
    OldGoalsAreMet(s, m);
    WedgedIsMet(s, m);
  }

  /** Another request adds its own share to the rank and leaves ready threads ready. */
  lemma ArrivalKeepsReady(s: State, request: Request)
    requires Inv(s) && Normal(s) && (|InHand(s)| > 0 || |s.inbox| > 0)
    ensures var after := Step(s, Deliver(request));
            && Rank(after) == Rank(s) + 60
            && (PollReady(s) ==> PollReady(after)) && (ServeReady(s) ==> ServeReady(after))
  {
    StepKeepsInv(s, Deliver(request));
  }

  /** What is left to do for the first `m` requests, whatever has arrived after them. */
  function GoalRank(s: State, m: nat): int { Rank(s) - 60 * (|Arrived(s)| - m) }

  lemma UnmetHasRank(s: State, m: nat)
    requires Inv(s) && m <= |Arrived(s)| && !Met(s, m)
    ensures GoalRank(s, m) > 0
  {
    UnmetIsBusy(s, m);
    assert |Arrived(s)| - m <= |s.inbox|;
  }

  lemma OneStepOn(s: State, m: nat, e: Event)
    requires Inv(s) && m <= |Arrived(s)|
    ensures Inv(Step(s, e)) && m <= |Arrived(Step(s, e))| && Arrived(Step(s, e))[..m] == Arrived(s)[..m]
    ensures Met(s, m) ==> Met(Step(s, e), m)
    ensures !Met(s, m) ==> GoalRank(Step(s, e), m) <= GoalRank(s, m)
  {
    StepKeepsInv(s, e);
    assert Arrived(Step(s, e)) == Arrived(s) + Arrival(e);
    if !Met(s, m) {
      UnmetIsBusy(s, m);
      match e
      case Deliver(request) => ArrivalKeepsReady(s, request);
      case PollTurn => PollTurnNeverRaisesRank(s);
      case ServeTurn => ServeTurnNeverRaisesRank(s);
    }
  }

  /** A step that is no progress leaves a ready thread ready. */
  lemma IdleStepKeepsReady(s: State, m: nat, e: Event)
    requires Inv(s) && m <= |Arrived(s)| && !Met(s, m) && GoalRank(Step(s, e), m) >= GoalRank(s, m)
    ensures PollReady(s) ==> PollReady(Step(s, e)) && e != PollTurn
    ensures ServeReady(s) ==> ServeReady(Step(s, e)) && e != ServeTurn
  {
    UnmetIsBusy(s, m);
    StepKeepsInv(s, e);
    match e
    case Deliver(request) => ArrivalKeepsReady(s, request);
    case PollTurn =>
      ReadyThreadsStayReady(s);
    case ServeTurn =>
      ReadyThreadsStayReady(s);
  }

  lemma {:induction false} NeverSetBack(s: State, m: nat, events: seq<Event>)
    requires Inv(s) && m <= |Arrived(s)|
    ensures var after := Run(s, events);
            && Inv(after) && m <= |Arrived(after)| && Arrived(after)[..m] == Arrived(s)[..m]
            && (Met(s, m) ==> Met(after, m))
            && (Met(after, m) || GoalRank(after, m) <= GoalRank(s, m))
    decreases |events|
  {
    if events != [] {
      OneStepOn(s, m, events[0]);
      NeverSetBack(Step(s, events[0]), m, events[1..]);
    }
  }

  /** The events hold a turn of a thread that is ready. */
  predicate ReadyTurnComes(s: State, events: seq<Event>) {
    (PollReady(s) && PollTurn in events) || (ServeReady(s) && ServeTurn in events)
  }

  lemma {:induction false} ReadyTurnLowersRank(s: State, m: nat, events: seq<Event>)
    requires Inv(s) && m <= |Arrived(s)| && ReadyTurnComes(s, events)
    ensures var after := Run(s, events);
            && Inv(after) && m <= |Arrived(after)|
            && (Met(after, m) || GoalRank(after, m) < GoalRank(s, m))
    decreases |events|
  {
    var next, rest := Step(s, events[0]), events[1..];
    OneStepOn(s, m, events[0]);
    NeverSetBack(next, m, rest);
    if !Met(s, m) && GoalRank(next, m) >= GoalRank(s, m) {
      IdleStepKeepsReady(s, m, events[0]);
      assert events == [events[0]] + rest;
      ReadyTurnLowersRank(next, m, rest);
    }
  }

  /** A stretch of a schedule in which both threads get a turn, in any order and with any arrivals. */
  predicate Fair(events: seq<Event>) { PollTurn in events && ServeTurn in events }

  /** Every fair stretch brings the requests that have arrived before it closer to their answers. */
  lemma FairStretchLowersRank(s: State, m: nat, events: seq<Event>)
    requires Inv(s) && m <= |Arrived(s)| && Fair(events)
    ensures var after := Run(s, events);
            && Inv(after) && m <= |Arrived(after)|
            && (Met(after, m) || GoalRank(after, m) < GoalRank(s, m))
  {
    NeverSetBack(s, m, events);
    if !Met(s, m) {
      UnmetHasRank(s, m);
      UnmetIsBusy(s, m);
      SomeThreadIsReady(s);
      ReadyTurnLowersRank(s, m, events);
    }
  }

  function RunStretches(s: State, stretches: seq<seq<Event>>): State
    decreases |stretches|
  {
    if stretches == [] then s else RunStretches(Run(s, stretches[0]), stretches[1..])
  }

  lemma {:induction false} StretchesMeet(s: State, m: nat, stretches: seq<seq<Event>>)
    requires Inv(s) && m <= |Arrived(s)| && (Met(s, m) || GoalRank(s, m) <= |stretches|)
    requires forall i :: 0 <= i < |stretches| ==> Fair(stretches[i])
    ensures var after := RunStretches(s, stretches);
            Inv(after) && m <= |Arrived(after)| && Arrived(after)[..m] == Arrived(s)[..m] && Met(after, m)
    decreases |stretches|
  {
    if stretches == [] {
      if !Met(s, m) {
        UnmetHasRank(s, m);
      }
    } else {
      NeverSetBack(s, m, stretches[0]);
      FairStretchLowersRank(s, m, stretches[0]);
      StretchesMeet(Run(s, stretches[0]), m, stretches[1..]);
    }
  }

  /**
   * Under every schedule that keeps giving both threads turns, whatever else arrives: once there have
   * been as many fair stretches as the rank of a reachable state, every request that had arrived
   * by then is answered that can be, that is, all before the first one with an empty key.
   */
  lemma AnswerableRequestsAreAnswered(history: seq<Event>, s: State, stretches: seq<seq<Event>>)
    requires s == Run(INIT, history)
    requires forall i :: 0 <= i < |stretches| ==> Fair(stretches[i])
    requires Rank(s) <= |stretches|
    ensures Answerable(Delivered(history)) <= RunStretches(s, stretches).replied
  {
    HistoryArrives(history, s);
    assert Arrived(s)[..|Arrived(s)|] == Arrived(s);
    StretchesMeet(s, |Arrived(s)|, stretches);
  }

  lemma HistoryArrives(history: seq<Event>, s: State)
    requires s == Run(INIT, history)
    ensures Inv(s) && Arrived(s) == Delivered(history)
  {
    RunKeepsInv(INIT, history);
    assert INIT.received + INIT.inbox + Delivered(history) == Delivered(history);
  }

  /**
   * The channel and its two threads as they run: shared fields, and one method per thread that takes
   * the thread's next action. The scheduler is the caller.
   */
  class ZeroMQSelectableChannel {
    var inbox: seq<Request>
    var awaitingReply: bool
    var selectableEvent: bool
    var allowZmqPoll: bool
    var queue: seq<Request>
    var pollAt: PollLocation
    var serveAt: ServeLocation
    ghost var received: seq<Request>
    ghost var replied: seq<Request>

    ghost function View(): State
      reads this
    {
      State(inbox, awaitingReply, selectableEvent, allowZmqPoll, queue, pollAt, serveAt, received, replied)
    }

    constructor ()
      ensures View() == INIT
    {
      inbox, awaitingReply, selectableEvent, allowZmqPoll, queue := [], false, false, false, [];
      pollAt, serveAt := LoopTop, Selecting;
      received, replied := [], [];
    }

    /** zmq_poll and the ZMQ_EVENTS option report input when a message can be received. */
    predicate HasPollIn()
      reads this
    {
      |inbox| > 0 && !awaitingReply
    }

    method Arrive(request: Request)
      modifies this
      ensures View() == Step(old(View()), Event.Deliver(request))
    {
      inbox := inbox + [request];
    }

    method ZmqPollThread()
      modifies this
      ensures View() == PollStep(old(View()))
    {
      match pollAt {
        case LoopTop =>
          allowZmqPoll := false;
          pollAt := Polling;
        case Polling =>
          pollAt := if HasPollIn() then CheckingEvents else LoopTop;
        case CheckingEvents =>
          pollAt := if HasPollIn() then Notifying else PollEnded;
        case Notifying =>
          selectableEvent := true;
          pollAt := Spinning;
        case Spinning =>
          if allowZmqPoll {
            pollAt := LoopTop;
          }
        case PollEnded =>
      }
    }

    method ReadData()
      requires serveAt.Receiving?
      modifies this
      ensures View() == ServeStep(old(View()))
    {
      if awaitingReply {
        serveAt := Dead;
      } else if |inbox| > 0 {
        received := received + [inbox[0]];
        queue := queue + [inbox[0]];
        inbox := inbox[1..];
        awaitingReply := true;
        serveAt := Popping;
      }
    }

    method Pop()
      requires serveAt.Popping?
      modifies this
      ensures View() == ServeStep(old(View()))
    {
      if |queue| == 0 {
        serveAt := Dead;
      } else {
        serveAt := Processing(queue[0]);
        queue := queue[1..];
      }
    }

    method Set(request: Request)
      requires serveAt == Sending(request)
      modifies this
      ensures View() == ServeStep(old(View()))
    {
      if !awaitingReply {
        allowZmqPoll := true;
        serveAt := Dead;
      } else {
        awaitingReply := false;
        replied := replied + [request];
        serveAt := RaisingFlag;
      }
    }

    method ServerThreadFunction()
      modifies this
      ensures View() == ServeStep(old(View()))
    {
      match serveAt {
        case Selecting =>
          if selectableEvent {
            selectableEvent := false;
            serveAt := Receiving;
          }
        case Receiving => ReadData();
        case Popping => Pop();
        case Processing(request) =>
          serveAt := if |request.key| == 0 then TestingQueue else Sending(request);
        case Sending(request) => Set(request);
        case RaisingFlag =>
          allowZmqPoll := true;
          serveAt := TestingQueue;
        case TestingQueue =>
          serveAt := if |queue| > 0 then Popping else Selecting;
        case Dead =>
      }
    }
  }

  /** Any schedule, executed from the constructor on: the safety of every interleaving, on the objects. */
  method Schedule(events: seq<Event>) returns (channel: ZeroMQSelectableChannel)
    ensures fresh(channel)
    ensures channel.View() == Run(INIT, events)
    ensures !channel.serveAt.Dead? && !channel.pollAt.PollEnded? && |channel.queue| <= 1
    ensures channel.replied <= Answerable(Delivered(events))
  {
    channel := new ZeroMQSelectableChannel();
    for i := 0 to |events|
      invariant fresh(channel)
      invariant Run(channel.View(), events[i..]) == Run(INIT, events)
    {
      assert events[i..][1..] == events[i + 1..];
      match events[i] {
        case Deliver(request) => channel.Arrive(request);
        case PollTurn => channel.ZmqPollThread();
        case ServeTurn => channel.ServerThreadFunction();
      }
    }
    EveryInterleavingIsSafe(events);
  }
}
