/** The broadcast channel: its queues and the channel object. */
module Channels {
  import opened Wrappers
  import opened Chunks

  // ----- Bounded queues -----

  /** A queue as its sender sees it: what is in it, and whether its receiver is still there. */
  datatype QueueState = QueueState(items: seq<Chunk>, open: bool)

  predicate Accepts(q: QueueState, capacity: nat) {
    q.open && |q.items| < capacity
  }

  function Pushed(q: QueueState, chunk: Chunk): QueueState {
    q.(items := q.items + [chunk])
  }

  function Popped(q: QueueState): QueueState
    requires q.items != []
  {
    q.(items := q.items[1..])
  }

  /** A queue whose receiver is gone, with all that was in it. */
  const ABANDONED := QueueState([], false)

  /** The queue of a new listener. */
  function Greeted(header: Option<Chunk>): QueueState {
    QueueState(if header.Some? then [header.value] else [], true)
  }

  /** Sending to all of `queues`: those that accept the chunk get it and stay, in their order. */
  function Deliver(queues: seq<QueueState>, chunk: Chunk, capacity: nat): seq<QueueState> {
    if queues == [] then []
    else
      var n := |queues| - 1;
      Deliver(queues[..n], chunk, capacity) + if Accepts(queues[n], capacity) then [Pushed(queues[n], chunk)] else []
  }

  /** Exactly the queues that are open and not full get the chunk and stay. */
  lemma {:induction false} DeliverExactly(a: seq<QueueState>, q: QueueState, b: seq<QueueState>,
                                          chunk: Chunk, capacity: nat)
    ensures Deliver(a + [q] + b, chunk, capacity)
         == Deliver(a, chunk, capacity)
            + (if q.open && |q.items| < capacity then [QueueState(q.items + [chunk], true)] else [])
            + Deliver(b, chunk, capacity)
    decreases |b|
  {
    var all := a + [q] + b;
    var n := |all| - 1;
    if b == [] {
      assert all[..n] == a;
    } else {
      var m := |b| - 1;
      assert all[..n] == a + [q] + b[..m];
      DeliverExactly(a, q, b[..m], chunk, capacity);
    }
  }

  /** A bounded queue with one sender and one receiver. */
  class Queue {
    const capacity: nat
    var items: seq<Chunk>
    var open: bool
    var senderAlive: bool

    function Value(): QueueState
      reads this
    {
      QueueState(items, open)
    }

    constructor (capacity: nat)
      ensures this.capacity == capacity && Value() == QueueState([], true) && senderAlive
    {
      this.capacity := capacity;
      items, open, senderAlive := [], true, true;
    }

    method StartSend(chunk: Chunk) returns (ok: bool)
      modifies this
      ensures ok == (old(open) && |old(items)| < capacity) && senderAlive == old(senderAlive)
      ensures open == old(open) && items == if ok then old(items) + [chunk] else old(items)
    {
      ok := open && |items| < capacity;
      if ok {
        items := items + [chunk];
      }
    }

    /** Keeping or dropping a listener: the sender goes when the queue refuses the chunk. */
    method Offer(chunk: Chunk) returns (kept: bool)
      modifies this
      ensures Settled(this, old(Value()), old(senderAlive), kept, chunk)
    {
      kept := StartSend(chunk);
      if !kept {
        senderAlive := false;
      }
    }

    /** The receiver's side: in order, and the end only when the sender is gone and all is received. */
    method PollNext() returns (r: Poll<Option<Chunk>>)
      modifies this
      ensures senderAlive == old(senderAlive)
      ensures old(items) != [] ==> r == Ready(Some(old(items)[0])) && Value() == Popped(old(Value()))
      ensures old(items) == [] ==> Value() == old(Value()) && r == if senderAlive then Pending else Ready(None)
    {
      if items != [] {
        r := Ready(Some(items[0]));
        items := items[1..];
      } else {
        r := if senderAlive then Pending else Ready(None);
      }
    }

    /** The listener goes away. */
    method DropReceiver()
      modifies this
      ensures Value() == ABANDONED && senderAlive == old(senderAlive)
    {
      items, open := [], false;
    }
  }

  function Values(queues: seq<Queue>): (r: seq<QueueState>)
    ensures |r| == |queues|
    reads queues
  {
    if queues == [] then [] else Values(queues[..|queues| - 1]) + [queues[|queues| - 1].Value()]
  }

  class Channel {
    const capacity: nat
    var headerChunk: Option<Chunk>
    var listeners: seq<Queue>

    /** All listeners are different queues, each with room for at least one chunk. */
    ghost predicate Valid()
      reads this
    {
      && capacity > 0
      && (forall q :: q in listeners ==> q.capacity == capacity)
      && (forall i, j :: 0 <= i < j < |listeners| ==> listeners[i] != listeners[j])
    }

    constructor (capacity: nat)
      requires capacity > 0
      ensures Valid() && this.capacity == capacity && headerChunk == None && listeners == []
    {
      this.capacity := capacity;
      headerChunk, listeners := None, [];
    }

    /** A transmitter sends a chunk: it becomes the header if it is one, it goes to every listener
        with room for it, and all other listeners are dropped. */
    method Send(chunk: Chunk)
      requires Valid()
      modifies this, listeners
      ensures Valid()
      ensures headerChunk == if chunk.Headers? then Some(chunk) else old(headerChunk)
      ensures Values(listeners) == Deliver(old(Values(listeners)), chunk, capacity)
      ensures forall q :: q in listeners ==> q in old(listeners)
      ensures forall q :: q in old(listeners) ==>
                            Settled(q, old(q.Value()), old(q.senderAlive), q in listeners, chunk)
    {
      hide Values, Deliver, Accepts, Pushed, Settled;
      if chunk.Headers? {
        headerChunk := Some(chunk);
      }
      listeners := Retain(listeners, chunk, capacity);
    }

    /** Dropping a transmitter forgets the header. */
    method DropTransmitter()
      requires Valid()
      modifies this
      ensures Valid() && headerChunk == None && listeners == old(listeners)
    {
      headerChunk := None;
    }

    /** A listener joins: the header, if there is one, is already in its queue. */
    method NewListener() returns (receiver: Queue)
      requires Valid()
      modifies this
      ensures Valid() && fresh(receiver) && headerChunk == old(headerChunk)
      ensures listeners == old(listeners) + [receiver]
      ensures receiver.senderAlive
      ensures receiver.Value() == Greeted(headerChunk)
    {
      receiver := new Queue(capacity);
      if headerChunk.Some? {
        var ok := receiver.StartSend(headerChunk.value);
        assert ok;
      }
      listeners := listeners + [receiver];
    }
  }

  /** Offers the chunk to all listeners in turn and returns those that took it. */
  method Retain(all: seq<Queue>, chunk: Chunk, ghost capacity: nat) returns (kept: seq<Queue>)
    requires forall q :: q in all ==> q.capacity == capacity
    requires forall i, j :: 0 <= i < j < |all| ==> all[i] != all[j]
    modifies all
    ensures Values(kept) == Deliver(old(Values(all)), chunk, capacity)
    ensures forall i, j :: 0 <= i < j < |kept| ==> kept[i] != kept[j]
    ensures forall q :: q in kept ==> q in all
    ensures forall q :: q in all ==> Settled(q, old(q.Value()), old(q.senderAlive), q in kept, chunk)
  {
    hide Values, Deliver, Accepts, Pushed, Settled;
    kept := [];
    ghost var before := Values(all);
    AllValues(all);
    ghost var alive := seq(|all|, i requires 0 <= i < |all| reads all => all[i].senderAlive);
    ValuesOfNone(before, chunk, capacity);
    for i := 0 to |all|
      invariant forall q :: q in kept ==> q in all
      invariant forall j :: i <= j < |all| ==> all[j] !in kept
      invariant forall a, b :: 0 <= a < b < |kept| ==> kept[a] != kept[b]
      invariant forall j :: 0 <= j < i ==> Settled(all[j], before[j], alive[j], all[j] in kept, chunk)
      invariant forall j :: i <= j < |all| ==> all[j].Value() == before[j] && all[j].senderAlive == alive[j]
      invariant Values(kept) == Deliver(before[..i], chunk, capacity)
    {
      DeliverNext(before, i, chunk, capacity);
      var ok := all[i].Offer(chunk);
      SettledMeansAccepted(all[i], before[i], alive[i], ok, chunk);
      if ok {
        ValuesNext(kept, all[i]);
        kept := kept + [all[i]];
      }
    }
    assert before[..|all|] == before;
  }

  lemma SettledMeansAccepted(q: Queue, before: QueueState, alive: bool, kept: bool, chunk: Chunk)
    requires Settled(q, before, alive, kept, chunk)
    ensures kept == Accepts(before, q.capacity) && (kept ==> q.Value() == Pushed(before, chunk))
  {
  }

  /** A queue after a send, given what it was before and whether it was kept. */
  ghost predicate Settled(q: Queue, before: QueueState, alive: bool, kept: bool, chunk: Chunk)
    reads q
  {
    && (kept <==> before.open && |before.items| < q.capacity)
    && q.Value() == (if kept then QueueState(before.items + [chunk], true) else before)
    && q.senderAlive == (kept && alive)
  }

  lemma {:induction false} AllValues(queues: seq<Queue>)
    ensures forall i :: 0 <= i < |queues| ==> Values(queues)[i] == queues[i].Value()
  {
    if queues != [] {
      AllValues(queues[..|queues| - 1]);
    }
  }

  lemma ValuesNext(queues: seq<Queue>, q: Queue)
    ensures Values(queues + [q]) == Values(queues) + [q.Value()]
  {
    assert (queues + [q])[..|queues|] == queues;
  }

  lemma ValuesOfNone(before: seq<QueueState>, chunk: Chunk, capacity: nat)
    ensures Values([]) == Deliver(before[..0], chunk, capacity)
  {
  }

  lemma DeliverNext(queues: seq<QueueState>, i: nat, chunk: Chunk, capacity: nat)
    requires i < |queues|
    ensures Deliver(queues[..i + 1], chunk, capacity)
         == Deliver(queues[..i], chunk, capacity)
            + if Accepts(queues[i], capacity) then [Pushed(queues[i], chunk)] else []
  {
    assert queues[..i + 1][..i] == queues[..i];
  }
}
