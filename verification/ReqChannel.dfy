/**
 * The client side REQ socket of lib/ZeroMQChannel.cpp: `set` sends, `wait` receives, each retrying an
 * interrupted call up to ten times, and a timed-out `wait` replaces the socket.
 */
module ReqChannel {
  import opened Common

  const MAX_RETRY: nat := 10

  /** One libzmq call: interrupted by a signal, or finished with some outcome. */
  datatype Attempt<+T> = Interrupted | Finished(outcome: T)

  datatype SendOutcome = Sent | SendFailed
  datatype PollOutcome = Ready | TimedOut | PollFailed
  datatype Reply = Reply(status: Status, op: string)
  datatype RecvOutcome = Received(reply: Reply) | Truncated | RecvFailed

  /** What libzmq answers to the i-th attempt of each call, and whether a reconnect succeeds. */
  datatype Network = Network(
    send: nat -> Attempt<SendOutcome>,
    poll: nat -> Attempt<PollOutcome>,
    recv: nat -> Attempt<RecvOutcome>,
    reconnects: bool)

  /** The outcome after retrying from attempt i on; None when the retries ran out. */
  function Retry<T>(attempts: nat -> Attempt<T>, i: nat): Option<T>
    requires i <= MAX_RETRY
    decreases MAX_RETRY - i
  {
    match attempts(i)
    case Finished(outcome) => Some(outcome)
    case Interrupted => if i < MAX_RETRY then Retry(attempts, i + 1) else None
  }

  /** Retrying yields the first finished attempt among the first eleven, and fails if there is none. */
  lemma {:induction false} RetryTakesFirstFinished<T>(attempts: nat -> Attempt<T>, i: nat, k: nat)
    requires i <= k <= MAX_RETRY
    requires forall j :: i <= j < k ==> attempts(j).Interrupted?
    ensures attempts(k).Finished? ==> Retry(attempts, i) == Some(attempts(k).outcome)
    ensures k == MAX_RETRY && attempts(k).Interrupted? ==> Retry(attempts, i) == None
    decreases k - i
  {
    if i < k {
      RetryTakesFirstFinished(attempts, i + 1, k);
    }
  }

  /** The call is interrupted up to attempt k, one of the first eleven, and then ends with this outcome. */
  predicate EndsWith<T(==)>(attempts: nat -> Attempt<T>, k: nat, outcome: T) {
    k <= 10 && attempts(k) == Finished(outcome) && forall j: nat :: j < k ==> attempts(j).Interrupted?
  }

  lemma {:induction false} RetryEnds<T>(attempts: nat -> Attempt<T>, i: nat) returns (k: nat)
    requires i <= MAX_RETRY && Retry(attempts, i).Some?
    requires forall j: nat :: j < i ==> attempts(j).Interrupted?
    ensures EndsWith(attempts, k, Retry(attempts, i).value)
    decreases MAX_RETRY - i
  {
    if attempts(i).Finished? {
      k := i;
    } else {
      k := RetryEnds(attempts, i + 1);
    }
  }

  /** What retrying yields, in terms of the attempts. */
  lemma RetryExactly<T>(attempts: nat -> Attempt<T>, outcome: T)
    ensures Retry(attempts, 0) == Some(outcome) <==> exists k :: EndsWith(attempts, k, outcome)
  {
    if k :| EndsWith(attempts, k, outcome) {
      RetryTakesFirstFinished(attempts, 0, k);
    }
    if Retry(attempts, 0) == Some(outcome) {
      var k := RetryEnds(attempts, 0);
    }
  }

  /** How a `wait` ends, and the REQ state it leaves: true while a reply is still owed to the socket. */
  datatype WaitEnd = WaitEnd(result: Result<Status>, awaitingReply: bool)

  /** `wait`, called after a send. Timing out is an ordinary failure; the new socket owes nothing. */
  function WaitFor(command: string, net: Network): WaitEnd {
    var polled: Option<PollOutcome> := Retry(net.poll, 0);
    var message: Option<RecvOutcome> := Retry(net.recv, 0);
    match polled
    case None => WaitEnd(Thrown, true)
    case Some(PollFailed) => WaitEnd(Thrown, true)
    case Some(TimedOut) => WaitEnd(if net.reconnects then Returned(FAILURE) else Thrown, false)
    case Some(Ready) =>
      match message
      case None => WaitEnd(Thrown, true)
      case Some(RecvFailed) => WaitEnd(Thrown, true)
      case Some(Truncated) => WaitEnd(Thrown, false)
      case Some(Received(reply)) => WaitEnd(if reply.op == command then Returned(reply.status) else Thrown, false)
  }

  /** The poll reports input, and this reply is received. */
  ghost predicate Replies(net: Network, reply: Reply) {
    && (exists k :: EndsWith(net.poll, k, Ready))
    && (exists k :: EndsWith(net.recv, k, Received(reply)))
  }

  /** The poll times out. */
  ghost predicate TimesOut(net: Network) { exists k :: EndsWith(net.poll, k, TimedOut) }

  /** The status comes from a reply to this command, or is the failure after a timeout and a reconnect. */
  ghost predicate Answers(net: Network, command: string, status: Status) {
    || Replies(net, Reply(status, command))
    || (TimesOut(net) && net.reconnects && status == FAILURE)
  }

  /**
   * `wait` returns a status exactly when the reply to the command carries it, or when it timed out
   * and the socket could be replaced. In all other cases it throws.
   */
  lemma WaitReturnsExactly(command: string, net: Network, status: Status)
    ensures WaitFor(command, net).result == Returned(status) <==> Answers(net, command, status)
  {
    RetryExactly(net.poll, Ready);
    RetryExactly(net.poll, TimedOut);
    RetryExactly(net.recv, Received(Reply(status, command)));
  }

  class ZeroMQChannel {
    var responseTimeoutMs: nat
    var awaitingReply: bool

    constructor ()
      ensures responseTimeoutMs == 60000 && !awaitingReply
    {
      responseTimeoutMs, awaitingReply := 60000, false;
    }

    method SetResponseTimeout(responseTimeout: nat)
      modifies this
      ensures responseTimeoutMs == responseTimeout && awaitingReply == old(awaitingReply)
    {
      responseTimeoutMs := responseTimeout;
    }

    /** A REQ socket that still awaits a reply refuses to send, whatever the network does. */
    method Set(net: Network) returns (r: Result<()>)
      modifies this
      ensures responseTimeoutMs == old(responseTimeoutMs)
      ensures r.Returned? <==> !old(awaitingReply) && Retry(net.send, 0) == Some(Sent)
      ensures awaitingReply <==> old(awaitingReply) || r.Returned?
    {
      var i := 0;
      while true
        invariant i <= MAX_RETRY && awaitingReply == old(awaitingReply)
        invariant Retry(net.send, i) == Retry(net.send, 0)
        decreases MAX_RETRY - i
      {
        if awaitingReply {
          return Thrown;
        }
        match net.send(i) {
          case Interrupted =>
            if i < MAX_RETRY {
              i := i + 1;
            } else {
              return Thrown;
            }
          case Finished(SendFailed) =>
            return Thrown;
          case Finished(Sent) =>
            awaitingReply := true;
            return Returned(());
        }
      }
    }

    /** The first loop of `wait`: None when it throws. */
    method PollSocket(net: Network) returns (r: Option<PollOutcome>)
      ensures r == Retry(net.poll, 0)
    {
      var i := 0;
      while true
        invariant i <= MAX_RETRY && Retry(net.poll, i) == Retry(net.poll, 0)
        decreases MAX_RETRY - i
      {
        match net.poll(i) {
          case Interrupted =>
            if i < MAX_RETRY {
              i := i + 1;
            } else {
              return None;
            }
          case Finished(outcome) =>
            return Some(outcome);
        }
      }
    }

    /** The second loop of `wait`: None when it throws. */
    method ReceiveReply(net: Network) returns (r: Option<RecvOutcome>)
      ensures r == Retry(net.recv, 0)
    {
      var i := 0;
      while true
        invariant i <= MAX_RETRY && Retry(net.recv, i) == Retry(net.recv, 0)
        decreases MAX_RETRY - i
      {
        match net.recv(i) {
          case Interrupted =>
            if i < MAX_RETRY {
              i := i + 1;
            } else {
              return None;
            }
          case Finished(outcome) =>
            return Some(outcome);
        }
      }
    }

    method Wait(command: string, net: Network) returns (r: Result<Status>)
      requires awaitingReply
      modifies this
      ensures responseTimeoutMs == old(responseTimeoutMs)
      ensures WaitEnd(r, awaitingReply) == WaitFor(command, net)
      ensures forall status :: r == Returned(status) <==> Answers(net, command, status)
    {
      forall status ensures WaitFor(command, net).result == Returned(status) <==> Answers(net, command, status) {
        WaitReturnsExactly(command, net, status);
      }
      var polled := PollSocket(net);
      if polled == None || polled.value.PollFailed? {
        return Thrown;
      }
      if polled.value.TimedOut? {
        awaitingReply := false;
        return if net.reconnects then Returned(FAILURE) else Thrown;
      }
      var message := ReceiveReply(net);
      if message == None || message.value.RecvFailed? {
        return Thrown;
      }
      awaitingReply := false;
      if message.value.Truncated? || message.value.reply.op != command {
        return Thrown;
      }
      return Returned(message.value.reply.status);
    }
  }
}
