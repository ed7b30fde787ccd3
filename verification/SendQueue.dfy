/** The outgoing messages of the server connection: urgent ones go out at once, the others
    wait in a queue that is fed to the network thread a few kilobytes at a time. */
module SendQueue {
  /** A flattened message has a header of twelve bytes, and less than two gigabytes. */
  type Size = s: int | 12 <= s < 0x8000_0000 witness 12

  datatype Message = Message(content: int, size: Size)

  const LOW_PRIORITY_CHUNK_SIZE := 4 * 1024

  /** `sent` holds what the network thread got since the connection was made or the queue
      was cleared, low-priority messages only; `notifications` counts the drain
      notifications that were requested and are still to come. */
  datatype Sender = Sender(
    connected: bool,
    lowPriorityMessages: seq<Message>,
    sending: bool,
    sent: seq<Message>,
    notifications: nat)

  function Sum(messages: seq<Message>): (n: nat)
    ensures n >= 12 * |messages|
  {
    if messages == [] then 0 else Sum(messages[..|messages| - 1]) + messages[|messages| - 1].size
  }

  /** k messages make a round: the fewest whose sizes reach the chunk size, or else all. */
  predicate IsRound(queue: seq<Message>, k: nat) {
    && k <= |queue|
    && (k < |queue| ==> Sum(queue[..k]) >= LOW_PRIORITY_CHUNK_SIZE)
    && (k > 0 ==> Sum(queue[..k - 1]) < LOW_PRIORITY_CHUNK_SIZE)
  }

  function RoundFrom(queue: seq<Message>, k: nat): (n: nat)
    requires k <= |queue|
    ensures k <= n <= |queue|
    decreases |queue| - k
  {
    if k < |queue| && Sum(queue[..k]) < LOW_PRIORITY_CHUNK_SIZE then RoundFrom(queue, k + 1) else k
  }

  lemma {:induction false} RoundFromIsRound(queue: seq<Message>, k: nat)
    requires k <= |queue| && (k > 0 ==> Sum(queue[..k - 1]) < LOW_PRIORITY_CHUNK_SIZE)
    ensures IsRound(queue, RoundFrom(queue, k))
    decreases |queue| - k
  {
    if k < |queue| && Sum(queue[..k]) < LOW_PRIORITY_CHUNK_SIZE {
      RoundFromIsRound(queue, k + 1);
    }
  }

  lemma {:induction false} SumGrows(queue: seq<Message>, i: nat, j: nat)
    requires i <= j <= |queue|
    ensures Sum(queue[..i]) <= Sum(queue[..j])
    decreases j
  {
    if i < j {
      assert queue[..j][..j - 1] == queue[..j - 1];
      SumGrows(queue, i, j - 1);
    }
  }

  /** There is just one round. */
  lemma RoundIsUnique(queue: seq<Message>, k: nat, n: nat)
    requires IsRound(queue, k) && IsRound(queue, n)
    ensures k == n
  {
    if k < n {
      SumGrows(queue, k, n - 1);
    } else if n < k {
      SumGrows(queue, n, k - 1);
    }
  }

  // ---------- The operations ----------

  /** CheckSendMoreLowPriorityMessages; `accepted` says whether the request for a drain
      notification succeeds. */
  function SendMore(s: Sender, accepted: bool): Sender {
    if s.sending || !s.connected || s.lowPriorityMessages == [] then s
    else
      var k := RoundFrom(s.lowPriorityMessages, 0);
      s.(lowPriorityMessages := s.lowPriorityMessages[k..],
         sent := s.sent + s.lowPriorityMessages[..k],
         sending := accepted,
         notifications := if accepted then s.notifications + 1 else s.notifications)
  }

  datatype Event =
    | Connect(succeeded: bool)
    | Disconnect
    | SendUrgent(message: Message)
    | SendLow(message: Message, accepted: bool)
    | Drained(accepted: bool)
    | ClearLow

  /** DisconnectFromServer: the network thread and its notifications go away. */
  function Disconnected(s: Sender): Sender {
    Sender(false, [], false, [], 0)
  }

  function Step(s: Sender, e: Event): Sender {
    match e
    case Connect(succeeded) => Disconnected(s).(connected := succeeded)
    case Disconnect => Disconnected(s)
    case SendUrgent(_) => s
    case SendLow(message, accepted) =>
      if s.connected then SendMore(s.(lowPriorityMessages := s.lowPriorityMessages + [message]), accepted) else s
    case Drained(accepted) =>
      SendMore(s.(sending := false, notifications := if s.notifications > 0 then s.notifications - 1 else 0), accepted)
    case ClearLow => if s.connected then s.(lowPriorityMessages := [], sent := []) else s
  }

  /** A notification comes only while one is due. */
  predicate Possible(s: Sender, e: Event) {
    e.Drained? ==> s.connected && s.notifications > 0
  }

  /** The request for a notification, if the event makes one, succeeds. */
  predicate RequestsSucceed(e: Event) {
    && (e.SendLow? ==> e.accepted)
    && (e.Drained? ==> e.accepted)
  }

  /** What was handed over for slow sending since the last clear. */
  function Enqueued(s: Sender, e: Event, enqueued: seq<Message>): seq<Message> {
    match e
    case SendLow(message, _) => if s.connected then enqueued + [message] else enqueued
    case SendUrgent(_) => enqueued
    case Drained(_) => enqueued
    case ClearLow => if s.connected then [] else enqueued
    case _ => []
  }

  // ---------- What every run keeps ----------

  /** First in, first out, nothing lost or repeated; a notification is due exactly while
      the sender waits for one. */
  predicate Inv(s: Sender, enqueued: seq<Message>) {
    && s.sent + s.lowPriorityMessages == enqueued
    && s.notifications == (if s.sending then 1 else 0)
    && (s.sending ==> s.connected)
    && (!s.connected ==> s.lowPriorityMessages == [])
  }

  /** While connected, what waits in the queue is waiting for a notification. */
  predicate NotStalled(s: Sender) {
    s.connected && s.lowPriorityMessages != [] ==> s.sending
  }

  lemma StepKeepsInv(s: Sender, enqueued: seq<Message>, e: Event)
    requires Inv(s, enqueued) && Possible(s, e)
    ensures Inv(Step(s, e), Enqueued(s, e, enqueued))
  {
    if e.SendLow? {
      assert s.sent + (s.lowPriorityMessages + [e.message]) == (s.sent + s.lowPriorityMessages) + [e.message];
    }
  }

  /** A queue stalls only where a request for a notification fails while messages are
      left over: one round of a queue that was waiting for nothing leaves it stalled if
      and only if its request failed and the round did not empty it. */
  lemma StallsIff(s: Sender, accepted: bool)
    requires s.connected && !s.sending
    ensures NotStalled(SendMore(s, accepted)) <==>
      accepted || IsRound(s.lowPriorityMessages, |s.lowPriorityMessages|)
  {
    RoundFromIsRound(s.lowPriorityMessages, 0);
    if IsRound(s.lowPriorityMessages, |s.lowPriorityMessages|) {
      RoundIsUnique(s.lowPriorityMessages, RoundFrom(s.lowPriorityMessages, 0), |s.lowPriorityMessages|);
    }
  }

  /** One round: the first messages of the queue, at least one, no more than the fewest
      that make four kilobytes, and no less unless they are all there are. */
  lemma OneRound(s: Sender, accepted: bool)
    requires s.connected && !s.sending && s.lowPriorityMessages != []
    ensures var next := SendMore(s, accepted);
            var k := |s.lowPriorityMessages| - |next.lowPriorityMessages|;
            && 0 < k <= |s.lowPriorityMessages|
            && next.sent == s.sent + s.lowPriorityMessages[..k]
            && next.lowPriorityMessages == s.lowPriorityMessages[k..]
            && Sum(s.lowPriorityMessages[..k - 1]) < 4096
            && (k < |s.lowPriorityMessages| ==> Sum(s.lowPriorityMessages[..k]) >= 4096)
            && next.sending == accepted
  {
    RoundFromIsRound(s.lowPriorityMessages, 0);
    FirstIsSent(s.lowPriorityMessages);
  }

  /** A connection that was made carries a first message at once, whatever was there before;
      one that was not made, or is given up, carries none. */
  lemma ConnectedSends(s: Sender, m: Message, accepted: bool, e: Event)
    requires e.Connect? || e.Disconnect?
    ensures var first := Step(Step(s, e), SendLow(m, accepted));
            && first.lowPriorityMessages == []
            && first.sent == (if e.Connect? && e.succeeded then [m] else [])
  {
    FirstIsSent([m]);
  }

  lemma StepStaysUnstalled(s: Sender, enqueued: seq<Message>, e: Event)
    requires Inv(s, enqueued) && NotStalled(s) && RequestsSucceed(e)
    ensures NotStalled(Step(s, e))
  {
  }

  datatype Run = Run(sender: Sender, enqueued: seq<Message>)

  const START := Run(Sender(false, [], false, [], 0), [])

  predicate AllPossible(events: seq<Event>) {
    events == [] ||
      (var n := |events| - 1; AllPossible(events[..n]) && Possible(After(events[..n]).sender, events[n]))
  }

  function After(events: seq<Event>): Run {
    if events == [] then START
    else
      var run := After(events[..|events| - 1]);
      var e := events[|events| - 1];
      Run(Step(run.sender, e), Enqueued(run.sender, e, run.enqueued))
  }

  lemma {:induction false} RunKeepsInv(events: seq<Event>)
    requires AllPossible(events)
    ensures Inv(After(events).sender, After(events).enqueued)
    ensures (forall i :: 0 <= i < |events| ==> RequestsSucceed(events[i])) ==> NotStalled(After(events).sender)
  {
    hide Step, Enqueued, Inv, NotStalled, Possible, RequestsSucceed;
    var n := |events| - 1;
    if events == [] {
      StartIsFine();
    } else {
      RunKeepsInv(events[..n]);
      var run := After(events[..n]);
      StepKeepsInv(run.sender, run.enqueued, events[n]);
      if forall i :: 0 <= i < |events| ==> RequestsSucceed(events[i]) {
        StepStaysUnstalled(run.sender, run.enqueued, events[n]);
      }
    }
  }

  lemma StartIsFine()
    ensures Inv(START.sender, START.enqueued) && NotStalled(START.sender)
  {
  }

  /** n notifications in a row. */
  function Drain(s: Sender, n: nat): Sender
    decreases n
  {
    if n == 0 then s else Drain(Step(s, Drained(true)), n - 1)
  }

  /** Every notification makes progress: as many as there are messages waiting empty the queue. */
  lemma {:induction false} DrainsEmptyTheQueue(s: Sender, n: nat)
    requires s.connected && |s.lowPriorityMessages| <= n
    ensures Drain(s, n).lowPriorityMessages == []
    ensures Drain(s, n).sent == s.sent + s.lowPriorityMessages
    decreases n
  {
    if n > 0 {
      var next := Step(s, Drained(true));
      if s.lowPriorityMessages != [] {
        FirstIsSent(s.lowPriorityMessages);
        assert next.sent + next.lowPriorityMessages == s.sent + s.lowPriorityMessages;
      }
      DrainsEmptyTheQueue(next, n - 1);
    }
  }

  lemma FirstIsSent(queue: seq<Message>)
    requires queue != []
    ensures RoundFrom(queue, 0) > 0
  {
    assert queue[..0] == [];
  }

  // ---------- The client ----------

  lemma OneMoreSent(queue: seq<Message>, k: nat)
    requires k < |queue|
    ensures queue[k..] == [queue[k]] + queue[k + 1..] && queue[..k + 1] == queue[..k] + [queue[k]]
    ensures Sum(queue[..k + 1]) == Sum(queue[..k]) + queue[k].size
    ensures Sum(queue[..k]) < LOW_PRIORITY_CHUNK_SIZE ==> RoundFrom(queue, k) == RoundFrom(queue, k + 1)
  {
    assert queue[..k + 1][..k] == queue[..k];
  }

  lemma RoundIsOver(queue: seq<Message>, k: nat)
    requires k <= |queue| && (Sum(queue[..k]) >= LOW_PRIORITY_CHUNK_SIZE || k == |queue|)
    ensures RoundFrom(queue, k) == k
  {
  }

  lemma NothingSentYet(queue: seq<Message>)
    ensures Sum(queue[..0]) == 0 && queue[0..] == queue && queue[..0] == []
  {
  }

  class ShareNetClient {
    var connected: bool
    var lowPriorityMessages: seq<Message>
    var sendingLowPriorityMessages: bool
    /** What the network thread was given: everything, and the low-priority part. */
    ghost var given: seq<Message>
    ghost var sent: seq<Message>
    ghost var notifications: nat

    ghost function State(): Sender
      reads this
    {
      Sender(connected, lowPriorityMessages, sendingLowPriorityMessages, sent, notifications)
    }

    constructor ()
      ensures State() == START.sender && given == []
    {
      connected, lowPriorityMessages, sendingLowPriorityMessages := false, [], false;
      given, sent, notifications := [], [], 0;
    }

    method DisconnectFromServer()
      modifies this
      ensures State() == Step(old(State()), Disconnect)
    {
      connected := false;
      lowPriorityMessages := [];
      sendingLowPriorityMessages := false;
      given, sent, notifications := [], [], 0;
    }

    method ConnectToServer(succeeded: bool)
      modifies this
      ensures State() == Step(old(State()), Connect(succeeded))
    {
      DisconnectFromServer();
      connected := succeeded;
    }

    method SendMessageToSessions(message: Message, highPriority: bool, accepted: bool)
      modifies this
      ensures State() == Step(old(State()), if highPriority then SendUrgent(message) else SendLow(message, accepted))
      ensures highPriority ==> given == if connected then old(given) + [message] else old(given)
      decreases if highPriority then 0 else 2
    {
      if connected {
        if highPriority {
          given := given + [message];
        } else {
          lowPriorityMessages := lowPriorityMessages + [message];
          CheckSendMoreLowPriorityMessages(accepted);
        }
      }
    }

    method CheckSendMoreLowPriorityMessages(accepted: bool)
      modifies this
      ensures State() == SendMore(old(State()), accepted)
      ensures given + lowPriorityMessages == old(given + lowPriorityMessages)
      decreases 1
    {
      hide Sum, RoundFrom;
      if !sendingLowPriorityMessages && connected {
        ghost var queue, before := lowPriorityMessages, State();
        ghost var k := 0;
        NothingSentYet(queue);
        var numBytesSent := 0;  // below 2^32, as the last message adds less than 2^31
        while numBytesSent < LOW_PRIORITY_CHUNK_SIZE && lowPriorityMessages != []
          invariant k <= |queue| && lowPriorityMessages == queue[k..]
          invariant numBytesSent == Sum(queue[..k]) && (numBytesSent > 0 <==> k > 0)
          invariant RoundFrom(queue, k) == RoundFrom(queue, 0)
          invariant State() == before.(lowPriorityMessages := queue[k..], sent := before.sent + queue[..k])
          invariant given == old(given) + queue[..k]
          decreases |lowPriorityMessages|
        {
          OneMoreSent(queue, k);
          var temp := lowPriorityMessages[0];
          lowPriorityMessages := lowPriorityMessages[1..];
          numBytesSent := numBytesSent + temp.size;
          SendMessageToSessions(temp, true, accepted);
          sent := sent + [temp];
          k := k + 1;
        }
        RoundIsOver(queue, k);
        if numBytesSent > 0 {
          sendingLowPriorityMessages := accepted;
          if accepted {
            notifications := notifications + 1;
          }
        }
      }
    }

    /** The handler of MTT_EVENT_OUTPUT_QUEUES_DRAINED. */
    method OutputQueuesDrained(accepted: bool)
      modifies this
      ensures State() == Step(old(State()), Drained(accepted))
    {
      if notifications > 0 {
        notifications := notifications - 1;
      }
      sendingLowPriorityMessages := false;
      CheckSendMoreLowPriorityMessages(accepted);
    }

    /** The part of RemoveFileSharing that concerns the queue. */
    method ClearLowPriorityMessages()
      modifies this
      ensures State() == Step(old(State()), ClearLow)
    {
      if connected {
        lowPriorityMessages := [];
        sent := [];
      }
    }
  }
}
