/** A channel in use, as a transition system over joins, sends, receives, disconnects and transmitters
    that come and go, in any order. */
module Broadcast {
  import opened Wrappers
  import opened Chunks
  import opened Grammar
  import opened Channels

  /** A listener with its history: when it joined, what it was greeted with and what it received. */
  datatype ListenerState = ListenerState(
    joinedAt: nat,
    joinedSession: nat,
    greeting: seq<Chunk>,
    received: seq<Chunk>,
    queue: QueueState,
    listed: bool)

  /** The channel with the log of all chunks sent; `begun[j]` is where in the log the transmission
      that the j-th chunk belongs to began. */
  datatype System = System(
    capacity: nat,
    header: Option<Chunk>,
    listeners: seq<ListenerState>,
    sent: seq<Chunk>,
    begun: seq<nat>,
    active: bool,
    sessionStart: nat)

  datatype Action =
    | Join
    | Send(chunk: Chunk)
    | Receive(listener: nat)
    | Disconnect(listener: nat)
    | StartTransmitter
    | DropTransmitter

  function Initial(capacity: nat): System {
    System(capacity, None, [], [], [], false, 0)
  }

  function ToSeq<T>(o: Option<T>): seq<T> {
    if o.Some? then [o.value] else []
  }

  /** What a send does to one listener. */
  function Offered(l: ListenerState, chunk: Chunk, capacity: nat): ListenerState {
    if !l.listed then l
    else if Accepts(l.queue, capacity) then l.(queue := Pushed(l.queue, chunk))
    else l.(listed := false)
  }

  function OfferedToAll(ls: seq<ListenerState>, chunk: Chunk, capacity: nat): (r: seq<ListenerState>)
    ensures |r| == |ls| && forall i :: 0 <= i < |ls| ==> r[i] == Offered(ls[i], chunk, capacity)
  {
    if ls == [] then []
    else OfferedToAll(ls[..|ls| - 1], chunk, capacity) + [Offered(ls[|ls| - 1], chunk, capacity)]
  }

  function Received(l: ListenerState): ListenerState {
    if l.queue.open && l.queue.items != [] then
      l.(received := l.received + [l.queue.items[0]], queue := Popped(l.queue))
    else l
  }

  function Disconnected(l: ListenerState): ListenerState {
    l.(queue := ABANDONED)
  }

  function NewcomerTo(s: System): ListenerState {
    ListenerState(|s.sent|, if s.active then s.sessionStart else |s.sent|, ToSeq(s.header), [],
                  Greeted(s.header), true)
  }

  function Step(s: System, a: Action): System {
    match a
    case Join => s.(listeners := s.listeners + [NewcomerTo(s)])
    case Send(chunk) =>
      s.(header := if chunk.Headers? then Some(chunk) else s.header,
         listeners := OfferedToAll(s.listeners, chunk, s.capacity),
         sent := s.sent + [chunk], begun := s.begun + [s.sessionStart])
    case Receive(i) => if i < |s.listeners| then s.(listeners := s.listeners[i := Received(s.listeners[i])]) else s
    case Disconnect(i) =>
      if i < |s.listeners| then s.(listeners := s.listeners[i := Disconnected(s.listeners[i])]) else s
    case StartTransmitter => s.(active := true, sessionStart := |s.sent|)
    case DropTransmitter => s.(active := false, header := None)
  }

  function Exec(s: System, actions: seq<Action>): System {
    if actions == [] then s else Step(Exec(s, actions[..|actions| - 1]), actions[|actions| - 1])
  }

  /** The queues that the channel still sends to. */
  function ListedQueues(ls: seq<ListenerState>): seq<QueueState> {
    if ls == [] then []
    else ListedQueues(ls[..|ls| - 1]) + if ls[|ls| - 1].listed then [ls[|ls| - 1].queue] else []
  }

  /** The system's send is the channel object's send on the listed queues. */
  lemma {:induction false} SendIsDeliver(ls: seq<ListenerState>, chunk: Chunk, capacity: nat)
    ensures ListedQueues(OfferedToAll(ls, chunk, capacity)) == Deliver(ListedQueues(ls), chunk, capacity)
  {
    hide Accepts;
    if ls != [] {
      var n := |ls| - 1;
      SendIsDeliver(ls[..n], chunk, capacity);
      assert OfferedToAll(ls, chunk, capacity)[..n] == OfferedToAll(ls[..n], chunk, capacity);
      var queues := ListedQueues(ls);
      if ls[n].listed {
        assert queues[..|queues| - 1] == ListedQueues(ls[..n]);
      } else {
        assert queues == ListedQueues(ls[..n]);
      }
    }
  }

  function ListedQueue(l: ListenerState): seq<QueueState> {
    if l.listed then [l.queue] else []
  }

  lemma {:induction false} ListedQueuesAppend(a: seq<ListenerState>, b: seq<ListenerState>)
    ensures ListedQueues(a + b) == ListedQueues(a) + ListedQueues(b)
  {
    if b == [] {
      assert a + b == a;
    } else {
      var n := |b| - 1;
      assert (a + b)[..|a + b| - 1] == a + b[..n];
      ListedQueuesAppend(a, b[..n]);
    }
  }

  lemma ListedQueuesAround(a: seq<ListenerState>, l: ListenerState, b: seq<ListenerState>)
    ensures ListedQueues((a + [l]) + b) == ListedQueues(a) + ListedQueue(l) + ListedQueues(b)
  {
    assert ListedQueues([l]) == ListedQueue(l) by {
      assert [l][..0] == [];
    }
    ListedQueuesAppend(a + [l], b);
    ListedQueuesAppend(a, [l]);
    hide ListedQueues, ListedQueue;
  }

  lemma AroundOne(ls: seq<ListenerState>, i: nat)
    requires i < |ls|
    ensures ls == (ls[..i] + [ls[i]]) + ls[i + 1..]
  {
  }

  lemma ListedQueuesSplit(ls: seq<ListenerState>, i: nat)
    requires i < |ls|
    ensures ListedQueues(ls) == ListedQueues(ls[..i]) + ListedQueue(ls[i]) + ListedQueues(ls[i + 1..])
  {
    hide *;
    AroundOne(ls, i);
    ListedQueuesAround(ls[..i], ls[i], ls[i + 1..]);
  }

  /** What a step does to one of the queues that the channel sends to, and that it leaves the others. */
  predicate OneQueueChanged(ls: seq<ListenerState>, ls': seq<ListenerState>, i: nat, l': ListenerState)
    requires i < |ls|
  {
    && ListedQueues(ls) == ListedQueues(ls[..i]) + ListedQueue(ls[i]) + ListedQueues(ls[i + 1..])
    && ListedQueues(ls') == ListedQueues(ls[..i]) + ListedQueue(l') + ListedQueues(ls[i + 1..])
  }

  lemma OneListenerChanged(ls: seq<ListenerState>, i: nat, l': ListenerState)
    requires i < |ls|
    ensures OneQueueChanged(ls, ls[i := l'], i, l')
  {
    ListedQueuesSplit(ls, i);
    ListedQueuesSplit(ls[i := l'], i);
    assert ls[i := l'][..i] == ls[..i] && ls[i := l'][i + 1..] == ls[i + 1..];
  }

  /** Every step of the system is, on header and listed queues, what the channel's and the queue's
      methods do: `Send`, `NewListener`, `DropTransmitter`, and on a connected listener's queue
      `PollNext` and `DropReceiver`. */
  lemma {:induction false} StepIsMethod(s: System, a: Action)
    ensures var s' := Step(s, a);
            var queues, queues' := ListedQueues(s.listeners), ListedQueues(s'.listeners);
            match a
            case Send(chunk) =>
              && s'.header == (if chunk.Headers? then Some(chunk) else s.header)
              && queues' == Deliver(queues, chunk, s.capacity)
            case Join => s'.header == s.header && queues' == queues + [Greeted(s.header)]
            case StartTransmitter => s'.header == s.header && queues' == queues
            case DropTransmitter => s'.header == None && queues' == queues
            case Receive(i) =>
              && s'.header == s.header
              && (i < |s.listeners| && s.listeners[i].queue.open && s.listeners[i].queue.items != [] ==>
                    var l := s.listeners[i];
                    && s'.listeners[i].queue == Popped(l.queue)
                    && s'.listeners[i].received == l.received + [l.queue.items[0]]
                    && OneQueueChanged(s.listeners, s'.listeners, i, s'.listeners[i]))
            case Disconnect(i) =>
              && s'.header == s.header
              && (i < |s.listeners| ==>
                    && s'.listeners[i].queue == ABANDONED
                    && OneQueueChanged(s.listeners, s'.listeners, i, s'.listeners[i]))
  {
    match a
    case Send(chunk) =>
      SendIsDeliver(s.listeners, chunk, s.capacity);
    case Join =>
      var all := s.listeners + [NewcomerTo(s)];
      assert all[..|all| - 1] == s.listeners;
    case Receive(i) =>
      hide ListedQueues, OneQueueChanged;
      if i < |s.listeners| {
        OneListenerChanged(s.listeners, i, Received(s.listeners[i]));
      }
    case Disconnect(i) =>
      hide ListedQueues, OneQueueChanged;
      if i < |s.listeners| {
        OneListenerChanged(s.listeners, i, Disconnected(s.listeners[i]));
      }
    case _ =>
  }

  // ----- No gaps -----

  /** All that a listener that misses nothing is sent. */
  function Feed(l: ListenerState, sent: seq<Chunk>): seq<Chunk>
    requires l.joinedAt <= |sent|
  {
    l.greeting + sent[l.joinedAt..]
  }

  predicate Gapless(l: ListenerState, s: System) {
    && l.joinedAt <= |s.sent|
    && l.received + l.queue.items <= Feed(l, s.sent)
    && (l.listed && l.queue.open ==> l.received + l.queue.items == Feed(l, s.sent))
    && |l.queue.items| <= s.capacity
  }

  predicate AllGapless(s: System) {
    && s.capacity > 0
    && forall i :: 0 <= i < |s.listeners| ==> Gapless(s.listeners[i], s)
  }

  lemma OfferedGapless(l: ListenerState, s: System, chunk: Chunk)
    requires Gapless(l, s)
    ensures Gapless(Offered(l, chunk, s.capacity), Step(s, Send(chunk)))
  {
    var s' := Step(s, Send(chunk));
    assert s'.sent[l.joinedAt..] == s.sent[l.joinedAt..] + [chunk];
    assert Feed(l, s'.sent) == Feed(l, s.sent) + [chunk];
    if l.listed && Accepts(l.queue, s.capacity) {
      assert l.received + (l.queue.items + [chunk]) == (l.received + l.queue.items) + [chunk];
    }
  }

  lemma {:induction false} StepGapless(s: System, a: Action)
    requires AllGapless(s)
    ensures AllGapless(Step(s, a))
  {
    match a
    case Send(chunk) =>
      forall i | 0 <= i < |s.listeners|
        ensures Gapless(Step(s, a).listeners[i], Step(s, a))
      {
        OfferedGapless(s.listeners[i], s, chunk);
      }
    case Join =>
      assert s.sent[|s.sent|..] == [];
    case Receive(i) =>
      if i < |s.listeners| && s.listeners[i].queue.items != [] {
        var l := s.listeners[i];
        assert (l.received + [l.queue.items[0]]) + l.queue.items[1..] == l.received + l.queue.items;
      }
    case _ =>
  }

  /** No gaps for any listener, in every history whatever the transmitters do: what a listener has
      received, followed by what is queued for it, is a prefix of its greeting followed by all that
      was sent since it joined, and the whole of that while it is connected and still listed. */
  lemma {:induction false} NoGaps(capacity: nat, actions: seq<Action>)
    requires capacity > 0
    ensures AllGapless(Exec(Initial(capacity), actions))
  {
    if actions != [] {
      NoGaps(capacity, actions[..|actions| - 1]);
      StepGapless(Exec(Initial(capacity), actions[..|actions| - 1]), actions[|actions| - 1]);
    }
  }

  // ----- Who stays listed -----

  /** A send appends the chunk to the queue of exactly those listeners that are listed, connected and
      not full; all others are no longer listed, and nothing else changes. */
  lemma SendExactly(s: System, chunk: Chunk, i: nat)
    requires i < |s.listeners|
    ensures var l, l' := s.listeners[i], Step(s, Send(chunk)).listeners[i];
            && (l'.listed <==> l.listed && l.queue.open && |l.queue.items| < s.capacity)
            && l'.queue == (if l'.listed then QueueState(l.queue.items + [chunk], true) else l.queue)
            && l'.received == l.received && l'.greeting == l.greeting && l'.joinedAt == l.joinedAt
            && l'.joinedSession == l.joinedSession
  {
  }

  /** At every send since listener `i` joined, it was connected and its queue had room. */
  predicate RoomAtSends(s: System, actions: seq<Action>, i: nat) {
    actions == [] ||
    (&& RoomAtSends(s, actions[..|actions| - 1], i)
     && var before := Exec(s, actions[..|actions| - 1]);
        actions[|actions| - 1].Send? && i < |before.listeners| ==>
          before.listeners[i].queue.open && |before.listeners[i].queue.items| < s.capacity)
  }

  lemma StepKeepsListeners(s: System, a: Action, i: nat)
    ensures var s' := Step(s, a);
            && s'.capacity == s.capacity && |s.listeners| <= |s'.listeners| <= |s.listeners| + 1
            && (i < |s.listeners| && !a.Send? ==> s'.listeners[i].listed == s.listeners[i].listed)
            && (|s.listeners| <= i < |s'.listeners| ==> s'.listeners[i].listed)
  {
  }

  /** A listener is still listed exactly if it had room at every send since it joined; and then, as
      long as it is connected, it has received or queued the whole of its feed. */
  lemma {:induction false} ListedExactly(capacity: nat, actions: seq<Action>, i: nat)
    requires capacity > 0
    ensures var s := Exec(Initial(capacity), actions);
            && s.capacity == capacity
            && (i >= |s.listeners| ==> RoomAtSends(Initial(capacity), actions, i))
            && (i < |s.listeners| ==>
                  var l := s.listeners[i];
                  && (l.listed <==> RoomAtSends(Initial(capacity), actions, i))
                  && l.joinedAt <= |s.sent|
                  && (l.listed && l.queue.open ==> l.received + l.queue.items == Feed(l, s.sent)))
  {
    NoGaps(capacity, actions);
    if actions != [] {
      var before, a := Exec(Initial(capacity), actions[..|actions| - 1]), actions[|actions| - 1];
      ListedExactly(capacity, actions[..|actions| - 1], i);
      StepKeepsListeners(before, a, i);
      if a.Send? && i < |before.listeners| {
        SendExactly(before, a.chunk, i);
      }
    }
    var s := Exec(Initial(capacity), actions);
    assert i < |s.listeners| ==> Gapless(s.listeners[i], s);
    hide Step, Gapless, Feed;
  }

  // ----- The right header -----

  /** The last Headers among `cs`. */
  function LastHeaders(cs: seq<Chunk>): Option<Chunk> {
    if cs == [] then None
    else if cs[|cs| - 1].Headers? then Some(cs[|cs| - 1]) else LastHeaders(cs[..|cs| - 1])
  }

  lemma {:induction false} LastHeadersAppend(a: seq<Chunk>, b: seq<Chunk>)
    ensures LastHeaders(a + b) == if LastHeaders(b).Some? then LastHeaders(b) else LastHeaders(a)
  {
    if b == [] {
      assert a + b == a;
    } else {
      assert (a + b)[..|a + b| - 1] == a + b[..|b| - 1];
      LastHeadersAppend(a, b[..|b| - 1]);
    }
  }

  lemma {:induction false} LastHeadersExists(cs: seq<Chunk>)
    requires cs != [] && cs[0].Headers?
    ensures LastHeaders(cs).Some?
  {
    if |cs| > 1 {
      LastHeadersExists(cs[..|cs| - 1]);
    }
  }

  /** One transmitter at a time, and each sends chunks in the order in which a chunker makes them. */
  predicate Disciplined(s: System, a: Action) {
    match a
    case StartTransmitter => !s.active
    case DropTransmitter => s.active
    case Send(chunk) => s.active && s.sessionStart <= |s.sent| && ChunkGrammar(s.sent[s.sessionStart..] + [chunk])
    case _ => true
  }

  predicate AllDisciplined(s: System, actions: seq<Action>) {
    actions == [] ||
    (&& AllDisciplined(s, actions[..|actions| - 1])
     && Disciplined(Exec(s, actions[..|actions| - 1]), actions[|actions| - 1]))
  }

  /** The part of the log that the j-th chunk's transmission had sent when it came to that chunk. */
  predicate LogInOrder(s: System) {
    && |s.begun| == |s.sent| && s.sessionStart <= |s.sent|
    && (forall j :: 0 <= j < |s.sent| ==> s.begun[j] <= j && ChunkGrammar(s.sent[s.begun[j]..j + 1]))
    && s.header == if s.active then LastHeaders(s.sent[s.sessionStart..]) else None
  }

  /** A listener was greeted with the header of the transmission that it joined, and every chunk since
      is of that transmission or of one that began later. */
  predicate WellGreeted(l: ListenerState, s: System) {
    && l.joinedSession <= l.joinedAt <= |s.sent| == |s.begun|
    && l.greeting == ToSeq(LastHeaders(s.sent[l.joinedSession..l.joinedAt]))
    && (forall j :: l.joinedAt <= j < |s.sent| ==> s.begun[j] == l.joinedSession || l.joinedAt <= s.begun[j])
    && (s.active ==> s.sessionStart == l.joinedSession || l.joinedAt <= s.sessionStart)
  }

  predicate HeaderInvariant(s: System) {
    && LogInOrder(s)
    && forall i :: 0 <= i < |s.listeners| ==> WellGreeted(s.listeners[i], s)
  }

  lemma SendKeepsLog(s: System, chunk: Chunk)
    requires LogInOrder(s) && Disciplined(s, Send(chunk))
    ensures LogInOrder(Step(s, Send(chunk)))
  {
    hide ChunkGrammar;
    var s' := Step(s, Send(chunk));
    var n := |s.sent|;
    assert s'.sent[s.sessionStart..] == s.sent[s.sessionStart..] + [chunk];
    assert s'.sent[s.sessionStart..n + 1] == s.sent[s.sessionStart..] + [chunk];
    assert (s.sent[s.sessionStart..] + [chunk])[..|s.sent[s.sessionStart..]|] == s.sent[s.sessionStart..];
    forall j | 0 <= j < |s'.sent|
      ensures s'.begun[j] <= j && ChunkGrammar(s'.sent[s'.begun[j]..j + 1])
    {
      if j < n {
        assert s'.sent[s'.begun[j]..j + 1] == s.sent[s.begun[j]..j + 1];
      }
    }
  }

  lemma SendKeepsGreeting(l: ListenerState, s: System, chunk: Chunk)
    requires WellGreeted(l, s) && s.active
    ensures WellGreeted(Offered(l, chunk, s.capacity), Step(s, Send(chunk)))
  {
    hide LastHeaders;
    var s' := Step(s, Send(chunk));
    assert s'.sent[l.joinedSession..l.joinedAt] == s.sent[l.joinedSession..l.joinedAt];
  }

  lemma JoinKeepsHeader(s: System)
    requires HeaderInvariant(s)
    ensures HeaderInvariant(Step(s, Join))
  {
    hide ChunkGrammar, LastHeaders;
    assert s.sent[s.sessionStart..|s.sent|] == s.sent[s.sessionStart..];
    NothingSent(s.sent[|s.sent|..|s.sent|]);
    assert WellGreeted(NewcomerTo(s), s);
    forall i | 0 <= i <= |s.listeners|
      ensures WellGreeted(Step(s, Join).listeners[i], Step(s, Join))
    {
      assert i < |s.listeners| ==> WellGreeted(s.listeners[i], s);
    }
  }

  lemma NothingSent(cs: seq<Chunk>)
    ensures cs == [] ==> LastHeaders(cs) == None
  {
  }

  lemma StepKeepsHeader(s: System, a: Action)
    requires HeaderInvariant(s) && Disciplined(s, a)
    ensures HeaderInvariant(Step(s, a))
  {
    match a
    case Send(chunk) =>
      SendKeepsLog(s, chunk);
      hide ChunkGrammar, LogInOrder;
      forall i | 0 <= i < |s.listeners|
        ensures WellGreeted(Step(s, a).listeners[i], Step(s, a))
      {
        SendKeepsGreeting(s.listeners[i], s, chunk);
      }
    case Join => JoinKeepsHeader(s);
    case StartTransmitter =>
      hide ChunkGrammar, LastHeaders;
      NothingSent(s.sent[|s.sent|..]);
    case _ =>
      hide ChunkGrammar, LastHeaders;
  }

  lemma {:induction false} HeaderInvariantHolds(capacity: nat, actions: seq<Action>)
    requires AllDisciplined(Initial(capacity), actions)
    ensures HeaderInvariant(Exec(Initial(capacity), actions))
  {
    if actions != [] {
      HeaderInvariantHolds(capacity, actions[..|actions| - 1]);
      StepKeepsHeader(Exec(Initial(capacity), actions[..|actions| - 1]), actions[|actions| - 1]);
    }
  }

  /** The header that governs the j-th chunk of the log: the last one of its own transmission. */
  function Governing(s: System, j: nat): Option<Chunk>
    requires |s.begun| == |s.sent| && j < |s.sent| && s.begun[j] <= j
  {
    LastHeaders(s.sent[s.begun[j]..j])
  }

  lemma GovernedFeed(l: ListenerState, s: System, j: nat)
    requires LogInOrder(s) && WellGreeted(l, s) && l.joinedAt <= j < |s.sent|
    requires s.sent[j].ClusterChunk?
    ensures LastHeaders(l.greeting + s.sent[l.joinedAt..j]) == Governing(s, j)
    ensures Governing(s, j).Some?
  {
    var b, t := s.begun[j], l.joinedAt;
    var own := s.sent[b..j];
    assert ChunkGrammar(s.sent[b..j + 1]);
    assert s.sent[b..j + 1][0] == s.sent[b];
    LastHeadersExists(own);
    LastHeadersAppend(l.greeting, s.sent[t..j]);
    if t <= b {
      assert s.sent[t..j] == s.sent[t..b] + own;
      LastHeadersAppend(s.sent[t..b], own);
    } else {
      assert own == s.sent[b..t] + s.sent[t..j];
      LastHeadersAppend(s.sent[b..t], s.sent[t..j]);
      LastHeadersIsHeaders(s.sent[b..t]);
      GreetingHeaders(LastHeaders(s.sent[b..t]));
    }
  }

  lemma {:induction false} LastHeadersIsHeaders(cs: seq<Chunk>)
    ensures LastHeaders(cs).Some? ==> LastHeaders(cs).value.Headers?
  {
    if cs != [] {
      LastHeadersIsHeaders(cs[..|cs| - 1]);
    }
  }

  lemma GreetingHeaders(o: Option<Chunk>)
    requires o.Some? ==> o.value.Headers?
    ensures LastHeaders(ToSeq(o)) == o
  {
  }

  /** All that a listener has received or still has queued, in order. */
  function Heard(l: ListenerState): seq<Chunk> {
    l.received + l.queue.items
  }

  /** The right header, across joins, disconnects and new transmitters: every cluster that a listener
      gets has, as the last Headers before it, the Headers that governed it where it was sent. */
  lemma {:induction false} RightHeader(capacity: nat, actions: seq<Action>, i: nat, m: nat) returns (j: nat)
    requires capacity > 0 && AllDisciplined(Initial(capacity), actions)
    requires i < |Exec(Initial(capacity), actions).listeners|
    requires m < |Heard(Exec(Initial(capacity), actions).listeners[i])|
    requires Heard(Exec(Initial(capacity), actions).listeners[i])[m].ClusterChunk?
    ensures var s := Exec(Initial(capacity), actions);
            var heard := Heard(s.listeners[i]);
            && s.listeners[i].joinedAt <= j < |s.sent| == |s.begun| && s.begun[j] <= j
            && heard[m] == s.sent[j] && heard[..m] == s.listeners[i].greeting + s.sent[s.listeners[i].joinedAt..j]
            && LastHeaders(heard[..m]) == Governing(s, j) && Governing(s, j).Some?
  {
    NoGaps(capacity, actions);
    HeaderInvariantHolds(capacity, actions);
    var s := Exec(Initial(capacity), actions);
    hide Exec;
    var l := s.listeners[i];
    assert Gapless(l, s) && WellGreeted(l, s);
    hide AllGapless, HeaderInvariant;
    GreetingIsHeader(l, s);
    j := PlaceInLog(l, s, m);
    GovernedFeed(l, s, j);
  }

  lemma FeedAt(l: ListenerState, sent: seq<Chunk>, m: nat)
    requires l.joinedAt <= |sent| && m < |Feed(l, sent)|
    ensures Feed(l, sent)[m] == if m < |l.greeting| then l.greeting[m] else sent[l.joinedAt + m - |l.greeting|]
  {
  }

  lemma PlaceInLog(l: ListenerState, s: System, m: nat) returns (j: nat)
    requires Gapless(l, s) && m < |Heard(l)| && Heard(l)[m].ClusterChunk?
    requires forall k :: 0 <= k < |l.greeting| ==> l.greeting[k].Headers?
    ensures l.joinedAt <= j < |s.sent| && Heard(l)[m] == s.sent[j]
    ensures Heard(l)[..m] == l.greeting + s.sent[l.joinedAt..j]
  {
    var feed := Feed(l, s.sent);
    FeedAt(l, s.sent, m);
    assert Heard(l)[m] == feed[m];
    j := l.joinedAt + m - |l.greeting|;
    assert Heard(l)[..m] == feed[..m] == l.greeting + s.sent[l.joinedAt..j];
  }

  lemma GreetingIsHeader(l: ListenerState, s: System)
    requires WellGreeted(l, s)
    ensures |l.greeting| <= 1 && (l.greeting != [] ==> l.greeting[0].Headers?)
  {
    LastHeadersIsHeaders(s.sent[l.joinedSession..l.joinedAt]);
  }

  /** A listener's first chunk is Headers, and all chunks are Headers or clusters. */
  predicate FeedInOrder(feed: seq<Chunk>) {
    && (feed != [] ==> feed[0].Headers?)
    && forall i :: 0 <= i < |feed| ==> feed[i].Headers? || feed[i].ClusterChunk?
  }

  lemma SentInOrder(s: System, k: nat)
    requires LogInOrder(s) && k < |s.sent|
    ensures s.begun[k] <= k
    ensures s.sent[k].Headers? || s.sent[k].ClusterChunk?
    ensures s.sent[s.begun[k]].Headers?
  {
    assert s.begun[k] <= k && ChunkGrammar(s.sent[s.begun[k]..k + 1]);
    hide LogInOrder;
    GrammarEnds(s.sent, s.begun[k], k);
  }

  lemma GrammarEnds(cs: seq<Chunk>, b: nat, k: nat)
    requires b <= k < |cs| && ChunkGrammar(cs[b..k + 1])
    ensures cs[b].Headers? && (cs[k].Headers? || cs[k].ClusterChunk?)
  {
    hide HeadersBegin;
    assert cs[b..k + 1][0] == cs[b] && cs[b..k + 1][k - b] == cs[k];
  }

  lemma FeedStartsWithHeaders(l: ListenerState, s: System)
    requires LogInOrder(s) && WellGreeted(l, s)
    ensures FeedInOrder(Feed(l, s.sent))
  {
    GreetingIsHeader(l, s);
    forall k | l.joinedAt <= k < |s.sent|
      ensures s.sent[k].Headers? || s.sent[k].ClusterChunk?
    {
      SentInOrder(s, k);
    }
    if l.greeting == [] && l.joinedAt < |s.sent| {
      SentInOrder(s, l.joinedAt);
      if s.begun[l.joinedAt] < l.joinedAt {
        LastHeadersExists(s.sent[s.begun[l.joinedAt]..l.joinedAt]);
      }
    }
    hide LogInOrder, ChunkGrammar, LastHeaders, WellGreeted;
  }
}
