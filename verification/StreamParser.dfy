/** The incremental parser. */
module StreamParser {
  import opened Wrappers
  import opened Bytes
  import opened Ebml
  import opened Webm
  import opened Iterators
  import opened Streams

  datatype ParserState = ParserState(buffer: seq<byte>, limit: Option<nat>, steps: seq<Step<seq<byte>>>)

  type EventPoll = Poll<Option<Item>>

  /** The bytes that the steps will deliver. */
  function Delivered(steps: seq<Step<seq<byte>>>): seq<byte> {
    if steps == [] then []
    else (if steps[0].Piece? then steps[0].value else []) + Delivered(steps[1..])
  }

  function AllBytes(p: ParserState): seq<byte> {
    p.buffer + Delivered(p.steps)
  }

  function Size(p: ParserState): nat {
    |p.buffer| + |Delivered(p.steps)| + |p.steps|
  }

  /** After such an item the parser is stuck: it finds the same error again at every poll. */
  predicate Terminal(item: Item) {
    item.Err? && match item.error
                 case ResourcesExceeded => true
                 case EbmlFailure(e) => e != CorruptPayload
                 case _ => false
  }

  predicate AtLimit(p: ParserState) {
    p.limit.Some? && p.limit.value <= |p.buffer|
  }

  /** One poll: the next event of the buffer if it holds a whole one, or else refill and try again. */
  function PollEvent(p: ParserState): (r: (EventPoll, ParserState))
    ensures r.1.limit == p.limit
    ensures Size(r.1) <= Size(p)
    ensures (r.0.Ready? && (r.0.value.None? || Terminal(r.0.value.value))) || Size(r.1) < Size(p)
    decreases |p.steps|
  {
    match CheckSpace(p.buffer)
    case Err(e) => (Ready(Some(Err(EbmlFailure(e)))), p)
    case Ok(Some(info)) => (Ready(Some(Lift(DecodeAt(p.buffer, info)))), p.(buffer := p.buffer[info.elementLen..]))
    case Ok(None) =>
      if AtLimit(p) then (Ready(Some(Err(ResourcesExceeded))), p)
      else if p.steps == [] then (Ready(None), p)
      else
        var rest := p.(steps := p.steps[1..]);
        match p.steps[0]
        case Piece(bytes) => PollEvent(rest.(buffer := p.buffer + bytes))
        case NotYet => (Pending, rest)
        case Failure(code) => (Ready(Some(Err(SourceFailure(code)))), rest)
  }

  /** Polling on after the end, or after an error that the parser cannot get past, changes nothing. */
  lemma {:induction false} StuckForGood(p: ParserState)
    requires PollEvent(p).0.Ready? && (PollEvent(p).0.value.None? || Terminal(PollEvent(p).0.value.value))
    ensures PollEvent(PollEvent(p).1) == PollEvent(p)
    decreases |p.steps|
  {
    hide CheckSpace, Decode;
    if CheckSpace(p.buffer) == Ok(None) && !AtLimit(p) && p.steps != [] && p.steps[0].Piece? {
      StuckForGood(ParserState(p.buffer + p.steps[0].value, p.limit, p.steps[1..]));
    }
  }

  /** Everything that repeated polling yields, until it ends or gets stuck. */
  function Run(p: ParserState): seq<Item>
    decreases Size(p)
  {
    var (r, p') := PollEvent(p);
    match r
    case Pending => Run(p')
    case Ready(None) => []
    case Ready(Some(item)) => if Terminal(item) then [item] else [item] + Run(p')
  }

  /** The state after taking one step from the source. */
  function AfterStep(p: ParserState): (p': ParserState)
    requires p.steps != []
    ensures AllBytes(p') == AllBytes(p) && Size(p') < Size(p)
  {
    var bytes := if p.steps[0].Piece? then p.steps[0].value else [];
    assert Delivered(p.steps) == bytes + Delivered(p.steps[1..]);
    ParserState(p.buffer + bytes, p.limit, p.steps[1..])
  }

  /** The state after the element at the front of the buffer has been split off. */
  function AfterElement(p: ParserState): (p': ParserState)
    requires CheckSpace(p.buffer).Ok? && CheckSpace(p.buffer).value.Some?
    ensures Size(p') < Size(p)
  {
    p.(buffer := p.buffer[CheckSpace(p.buffer).value.value.elementLen..])
  }

  /** One turn of the loop, seen from the whole run. */
  lemma RunUnfold(p: ParserState)
    ensures match CheckSpace(p.buffer)
            case Err(e) => Run(p) == [Err(EbmlFailure(e))]
            case Ok(Some(info)) => Run(p) == [Lift(DecodeAt(p.buffer, info))] + Run(AfterElement(p))
            case Ok(None) =>
              if AtLimit(p) then Run(p) == [Err(ResourcesExceeded)]
              else if p.steps == [] then Run(p) == []
              else Run(p) == (match p.steps[0] case Failure(code) => [Err(SourceFailure(code))] case _ => [])
                             + Run(AfterStep(p))
  {
    hide CheckSpace, Decode, Delivered;
    if CheckSpace(p.buffer) == Ok(None) && p.steps != [] && p.steps[0].NotYet? {
      assert AfterStep(p) == p.(steps := p.steps[1..]);
    } else if CheckSpace(p.buffer) == Ok(None) && p.steps != [] && p.steps[0].Failure? {
      assert AfterStep(p) == p.(steps := p.steps[1..]);
    }
  }

  predicate IsOwn(item: Item) {
    !(item.Err? && item.error.SourceFailure?)
  }

  /** The items that are not failures of the source itself. */
  function OwnItems(items: seq<Item>): seq<Item> {
    if items == [] then [] else (if IsOwn(items[0]) then [items[0]] else []) + OwnItems(items[1..])
  }

  lemma OwnItemsCons(item: Item, items: seq<Item>)
    ensures OwnItems([item] + items) == (if IsOwn(item) then [item] else []) + OwnItems(items)
    ensures OwnItems([item]) == if IsOwn(item) then [item] else []
  {
    assert [item] + [] == [item];
    assert ([item] + items)[1..] == items;
  }

  /** However the bytes are cut into pieces, with whatever waiting and source failures in between,
      an unlimited parser yields exactly the events of the whole byte string. */
  lemma {:induction false} CuttingDoesNotMatter(p: ParserState)
    requires p.limit.None?
    ensures OwnItems(Run(p)) == Events(AllBytes(p))
    decreases Size(p)
  {
    RunUnfold(p);
    FirstEvent(p.buffer, Delivered(p.steps));
    hide CheckSpace, Decode, Run, Events, OwnItems, Delivered;
    match CheckSpace(p.buffer)
    case Err(e) =>
      OwnItemsCons(Err(EbmlFailure(e)), []);
    case Ok(Some(info)) =>
      OwnItemsCons(Lift(DecodeAt(p.buffer, info)), Run(AfterElement(p)));
      CuttingDoesNotMatter(AfterElement(p));
    case Ok(None) =>
      if p.steps == [] {
        NothingDelivered(p);
      } else {
        CuttingDoesNotMatter(AfterStep(p));
        assert [] + Run(AfterStep(p)) == Run(AfterStep(p));
        assert [] + OwnItems(Run(AfterStep(p))) == OwnItems(Run(AfterStep(p)));
        if p.steps[0].Failure? {
          OwnItemsCons(Err(SourceFailure(p.steps[0].code)), Run(AfterStep(p)));
        }
      }
  }

  lemma NothingDelivered(p: ParserState)
    requires p.steps == [] && CheckSpace(p.buffer) == Ok(None)
    ensures AllBytes(p) == p.buffer && Events(AllBytes(p)) == [] && OwnItems([]) == []
  {
  }

  // ----- The soft limit -----

  /** The same parser without its limit. */
  function Unlimited(p: ParserState): ParserState {
    p.(limit := None)
  }

  /** `items` is `all`, or is cut off somewhere by a refusal. */
  predicate CutShort(items: seq<Item>, all: seq<Item>) {
    items == all || exists k :: 0 <= k <= |all| && items == all[..k] + [Err(ResourcesExceeded)]
  }

  lemma CutShortCons(item: Item, items: seq<Item>, all: seq<Item>)
    requires CutShort(items, all)
    ensures CutShort([item] + items, [item] + all)
  {
    if items != all {
      var k :| 0 <= k <= |all| && items == all[..k] + [Err(ResourcesExceeded)];
      assert [item] + items == ([item] + all)[..k + 1] + [Err(ResourcesExceeded)];
    }
  }

  /** A limit changes nothing about a run but where it may be refused to go on. */
  lemma {:induction false} LimitOnlyCutsShort(p: ParserState)
    ensures CutShort(Run(p), Run(Unlimited(p)))
    decreases Size(p)
  {
    RunUnfold(p);
    RunUnfold(Unlimited(p));
    hide CheckSpace, Decode, Run, Delivered, CutShort;
    match CheckSpace(p.buffer)
    case Err(e) => CutShortNot(Run(p));
    case Ok(Some(info)) =>
      LimitOnlyCutsShort(AfterElement(p));
      assert Unlimited(AfterElement(p)) == AfterElement(Unlimited(p));
      CutShortCons(Lift(DecodeAt(p.buffer, info)), Run(AfterElement(p)), Run(AfterElement(Unlimited(p))));
    case Ok(None) =>
      if AtLimit(p) {
        CutShortHere(Run(Unlimited(p)));
      } else if p.steps == [] {
        CutShortNot(Run(p));
      } else {
        var (rest, rest') := (Run(AfterStep(p)), Run(AfterStep(Unlimited(p))));
        LimitOnlyCutsShort(AfterStep(p));
        assert Unlimited(AfterStep(p)) == AfterStep(Unlimited(p));
        if p.steps[0].Failure? {
          CutShortCons(Err(SourceFailure(p.steps[0].code)), rest, rest');
        } else {
          assert [] + rest == rest && [] + rest' == rest';
        }
      }
  }

  lemma CutShortNot(items: seq<Item>)
    ensures CutShort(items, items)
  {
  }

  lemma CutShortHere(items: seq<Item>)
    ensures CutShort([Err(ResourcesExceeded)], items)
  {
    assert [Err(ResourcesExceeded)] == items[..0] + [Err(ResourcesExceeded)];
  }

  /** When a refill is refused, what the buffer begins with is an element beyond the limit, or
      nothing complete at all. */
  lemma RefusedForCause(p: ParserState)
    requires CheckSpace(p.buffer) == Ok(None) && AtLimit(p)
    requires ElementsFit(AllBytes(p), p.limit.value)
    ensures Leftover(AllBytes(p)) == AllBytes(p)
    ensures Events(AllBytes(p)) == [] || (|Events(AllBytes(p))| == 1 && Terminal(Events(AllBytes(p))[0]))
  {
    hide Decode, Delivered;
    CheckSpacePrefixStable(p.buffer, Delivered(p.steps));
    hide CheckSpace;
  }

  /** The items that stand for complete elements, decodable or not. */
  function CompleteItems(items: seq<Item>): seq<Item> {
    if items == [] then []
    else (if IsOwn(items[0]) && !Terminal(items[0]) then [items[0]] else []) + CompleteItems(items[1..])
  }

  lemma CompleteItemsCons(item: Item, items: seq<Item>)
    ensures CompleteItems([item] + items)
         == (if IsOwn(item) && !Terminal(item) then [item] else []) + CompleteItems(items)
    ensures CompleteItems([]) == []
    ensures CompleteItems([item]) == if IsOwn(item) && !Terminal(item) then [item] else []
  {
    assert ([item] + items)[1..] == items;
  }

  /** If no element is larger than the limit, every complete element comes out under every cutting. */
  lemma {:induction false} NoElementRefused(p: ParserState)
    requires p.limit.Some? && ElementsFit(AllBytes(p), p.limit.value)
    ensures CompleteItems(Run(p)) == CompleteItems(Events(AllBytes(p)))
    decreases Size(p)
  {
    RunUnfold(p);
    FirstEvent(p.buffer, Delivered(p.steps));
    hide CheckSpace, Decode, Run, Delivered, CompleteItems;
    match CheckSpace(p.buffer)
    case Err(e) =>
    case Ok(Some(info)) =>
      CompleteItemsCons(Lift(DecodeAt(p.buffer, info)), Run(AfterElement(p)));
      CompleteItemsCons(Lift(DecodeAt(p.buffer, info)), Events(AllBytes(AfterElement(p))));
      NoElementRefused(AfterElement(p));
    case Ok(None) =>
      if AtLimit(p) {
        RefusedForCause(p);
        CompleteItemsCons(Err(ResourcesExceeded), []);
        if Events(AllBytes(p)) != [] {
          assert Events(AllBytes(p)) == [Events(AllBytes(p))[0]];
          CompleteItemsCons(Events(AllBytes(p))[0], []);
        }
      } else if p.steps == [] {
        NothingDelivered(p);
      } else {
        NoElementRefused(AfterStep(p));
        if p.steps[0].Failure? {
          CompleteItemsCons(Err(SourceFailure(p.steps[0].code)), Run(AfterStep(p)));
        } else {
          assert [] + Run(AfterStep(p)) == Run(AfterStep(p));
        }
      }
  }

  /** If moreover what is behind the last complete element stays below the limit, the limit makes
      no difference at all. */
  lemma {:induction false} LimitUnnoticed(p: ParserState)
    requires p.limit.Some? && ElementsFit(AllBytes(p), p.limit.value)
    requires |Leftover(AllBytes(p))| < p.limit.value
    ensures Run(p) == Run(Unlimited(p))
    decreases Size(p)
  {
    RunUnfold(p);
    RunUnfold(Unlimited(p));
    FirstEvent(p.buffer, Delivered(p.steps));
    hide CheckSpace, Decode, Run, Delivered;
    match CheckSpace(p.buffer)
    case Err(e) =>
    case Ok(Some(info)) =>
      LimitUnnoticed(AfterElement(p));
      assert Unlimited(AfterElement(p)) == AfterElement(Unlimited(p));
    case Ok(None) =>
      if AtLimit(p) {
        RefusedForCause(p);
      } else if p.steps != [] {
        LimitUnnoticed(AfterStep(p));
        assert Unlimited(AfterStep(p)) == AfterStep(Unlimited(p));
      }
  }

  /** The size of the buffer at its largest while one poll is at work. */
  function LargestBuffer(p: ParserState): (size: nat)
    ensures |p.buffer| <= size
    decreases |p.steps|
  {
    if CheckSpace(p.buffer) == Ok(None) && !AtLimit(p) && p.steps != [] && p.steps[0].Piece? then
      LargestBuffer(ParserState(p.buffer + p.steps[0].value, p.limit, p.steps[1..]))
    else |p.buffer|
  }

  predicate PiecesAtMost(steps: seq<Step<seq<byte>>>, size: nat) {
    forall step :: step in steps && step.Piece? ==> |step.value| <= size
  }

  /** The buffer stays below the limit plus the largest piece, at its largest and after the poll, and
      so does what is read from it: a kept element takes no more than that when it is written again. */
  lemma {:induction false} BufferBound(p: ParserState, piece: nat)
    requires p.limit.Some? && PiecesAtMost(p.steps, piece) && |p.buffer| < p.limit.value + piece
    ensures var (r, p') := PollEvent(p);
            && LargestBuffer(p) < p.limit.value + piece
            && PiecesAtMost(p'.steps, piece) && |p'.buffer| < p'.limit.value + piece
            && (r.Ready? && r.value.Some? && r.value.value.Ok? ==>
                  var e := r.value.value.value;
                  (e.Tracks? || e.Block?) && Supported(e) ==>
                    WebmBytes(e).Ok? && |WebmBytes(e).value| < p.limit.value + piece)
    decreases |p.steps|
  {
    hide CheckSpace, Decode, WebmBytes;
    match CheckSpace(p.buffer)
    case Ok(Some(info)) =>
      if DecodeAt(p.buffer, info).Ok? {
        ReencodedNoLonger(p.buffer);
      }
    case Ok(None) =>
      if !AtLimit(p) && p.steps != [] && p.steps[0].Piece? {
        BufferBound(ParserState(p.buffer + p.steps[0].value, p.limit, p.steps[1..]), piece);
      }
    case _ =>
  }

  /** The parser after `n` polls, whatever they found. */
  function AfterPolls(p: ParserState, n: nat): ParserState {
    if n == 0 then p else PollEvent(AfterPolls(p, n - 1)).1
  }

  /** A parser that starts empty never holds as much as its limit and one largest piece together. */
  lemma {:induction false} BufferAlwaysBounded(p: ParserState, piece: nat, n: nat)
    requires p.buffer == [] && p.limit.Some? && 0 < p.limit.value + piece && PiecesAtMost(p.steps, piece)
    ensures PiecesAtMost(AfterPolls(p, n).steps, piece) && AfterPolls(p, n).limit == p.limit
    ensures |AfterPolls(p, n).buffer| <= LargestBuffer(AfterPolls(p, n)) < p.limit.value + piece
  {
    hide PollEvent, PiecesAtMost, LargestBuffer;
    if n > 0 {
      BufferAlwaysBounded(p, piece, n - 1);
      BufferBound(AfterPolls(p, n - 1), piece);
    }
    BufferBound(AfterPolls(p, n), piece);
  }

  // ----- The parser object -----

  /** Polling on through the waiting, as `next` does. */
  function NextEvent(p: ParserState): (r: (Option<Item>, ParserState))
    ensures r.0.None? || Terminal(r.0.value) || Size(r.1) < Size(p)
    decreases Size(p)
  {
    match PollEvent(p)
    case (Pending, p') => NextEvent(p')
    case (Ready(item), p') => (item, p')
  }

  /** What `next` finds is the first item of the run, and what it leaves is the rest of it. */
  lemma {:induction false} NextIsFirst(p: ParserState)
    ensures var (item, p') := NextEvent(p);
            && (item.None? ==> Run(p) == [])
            && (item.Some? ==> Run(p) == [item.value] + if Terminal(item.value) then [] else Run(p'))
    decreases Size(p)
  {
    hide PollEvent, Terminal;
    var (r, p') := PollEvent(p);
    if r.Pending? {
      NextIsFirst(p');
    } else if r.value.Some? {
      assert [r.value.value] + [] == [r.value.value];
    }
  }

  /** Everything that repeated calls of `next` yield, until it ends or gets stuck. */
  function NextRun(p: ParserState): seq<Item>
    decreases Size(p)
  {
    var (item, p') := NextEvent(p);
    if item.None? then [] else [item.value] + if Terminal(item.value) then [] else NextRun(p')
  }

  /** Calling `next` again and again yields the whole run; without a limit its own items are exactly
      the events of the whole byte string. */
  lemma {:induction false} RepeatedNext(p: ParserState)
    ensures NextRun(p) == Run(p)
    ensures p.limit.None? ==> OwnItems(NextRun(p)) == Events(AllBytes(p))
    decreases Size(p)
  {
    hide Run, NextEvent, Terminal, OwnItems, Events, AllBytes;
    NextIsFirst(p);
    var (item, p') := NextEvent(p);
    if item.Some? && !Terminal(item.value) {
      RepeatedNext(p');
    }
    if p.limit.None? {
      CuttingDoesNotMatter(p);
    }
  }

  class EbmlStreamingParser {
    const stream: StreamSource<seq<byte>>
    var buffer: seq<byte>
    var bufferSizeLimit: Option<nat>

    ghost function Model(): ParserState
      reads this, stream
    {
      ParserState(buffer, bufferSizeLimit, stream.steps)
    }

    constructor (stream: StreamSource<seq<byte>>)
      ensures this.stream == stream
      ensures Model() == ParserState([], None, stream.steps)
    {
      this.stream := stream;
      buffer, bufferSizeLimit := [], None;
    }

    method WithSoftLimit(limit: nat)
      modifies this
      ensures Model() == old(Model()).(limit := Some(limit))
    {
      bufferSizeLimit := Some(limit);
    }

    method PollNextEvent() returns (r: EventPoll)
      modifies this, stream
      ensures (r, Model()) == PollEvent(old(Model()))
    {
      hide CheckSpace, Decode, Delivered;
      while true
        invariant PollEvent(Model()) == PollEvent(old(Model()))
        invariant |buffer| <= LargestBuffer(Model()) == LargestBuffer(old(Model()))
        decreases |stream.steps|
      {
        match CheckSpace(buffer) {
          case Err(e) =>
            return Ready(Some(Err(EbmlFailure(e))));
          case Ok(Some(info)) =>
            var borrowed := buffer[info.bodyOffset..info.elementLen];
            buffer := buffer[info.elementLen..];
            return Ready(Some(Lift(Decode(info.elementId, borrowed))));
          case Ok(None) =>
        }
        if bufferSizeLimit.Some? && bufferSizeLimit.value <= |buffer| {
          return Ready(Some(Err(ResourcesExceeded)));
        }
        var polled := stream.PollNext();
        match polled {
          case Ready(Some(Ok(refill))) => buffer := buffer + refill;
          case Ready(Some(Err(e))) => return Ready(Some(Err(e)));
          case Ready(None) => return Ready(None);
          case Pending => return Pending;
        }
      }
    }

    /** The asynchronous form: waiting is part of the call. */
    method Next() returns (r: Result<Option<WebmElement>, WebmetroError>)
      modifies this, stream
      ensures var (item, p') := NextEvent(old(Model()));
              && Model() == p'
              && r == match item
                      case None => Ok(None)
                      case Some(Ok(element)) => Ok(Some(element))
                      case Some(Err(e)) => Err(e)
    {
      hide CheckSpace, Decode, Delivered;
      while true
        invariant NextEvent(Model()) == NextEvent(old(Model()))
        decreases |stream.steps|
      {
        match CheckSpace(buffer) {
          case Err(e) =>
            return Err(EbmlFailure(e));
          case Ok(Some(info)) =>
            var borrowed := buffer[info.bodyOffset..info.elementLen];
            buffer := buffer[info.elementLen..];
            match Decode(info.elementId, borrowed) {
              case Ok(element) => return Ok(Some(element));
              case Err(e) => return Err(EbmlFailure(e));
            }
          case Ok(None) =>
        }
        if bufferSizeLimit.Some? && bufferSizeLimit.value <= |buffer| {
          return Err(ResourcesExceeded);
        }
        var polled := stream.PollNext();
        match polled {
          case Ready(Some(Ok(refill))) => buffer := buffer + refill;
          case Ready(Some(Err(e))) => return Err(e);
          case Ready(None) => return Ok(None);
          case Pending =>
        }
      }
    }
  }
}
