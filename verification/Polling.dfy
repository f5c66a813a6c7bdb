/** The results of all polls in order, the waiting and the failures among them. */
module Polling {
  import opened Wrappers
  import opened Bytes
  import opened Webm
  import opened Iterators
  import opened Streams
  import opened StreamParser
  import opened Chunks
  import opened Chunker
  import opened Fixers

  // ----- The parser -----

  /** The results of repeated polling, until the parser ends or gets stuck. */
  function Polls(p: ParserState): seq<EventPoll>
    decreases Size(p)
  {
    var (r, p') := PollEvent(p);
    if r == Ready(None) then []
    else [r] + if r.Ready? && Terminal(r.value.value) then [] else Polls(p')
  }

  function AsPolls(items: seq<Item>): seq<EventPoll> {
    if items == [] then [] else [Ready(Some(items[0]))] + AsPolls(items[1..])
  }

  predicate EndsTerminally(items: seq<Item>) {
    items != [] && Terminal(items[|items| - 1])
  }

  /** First all events of the bytes at hand come out; only then, unless they end in a header that
      cannot be read or reach the limit, one step of the source is taken: a wait or a failure is
      passed on at once, and a piece is added to what is left over. */
  function ExpectedPolls(bytes: seq<byte>, limit: Option<nat>, steps: seq<Step<seq<byte>>>): seq<EventPoll>
    decreases |steps|
  {
    var events, left := Events(bytes), Leftover(bytes);
    AsPolls(events) +
    if EndsTerminally(events) then []
    else if limit.Some? && limit.value <= |left| then [Ready(Some(Err(ResourcesExceeded)))]
    else if steps == [] then []
    else
      match steps[0]
      case NotYet => [Pending] + ExpectedPolls(left, limit, steps[1..])
      case Failure(code) => [Ready(Some(Err(SourceFailure(code))))] + ExpectedPolls(left, limit, steps[1..])
      case Piece(piece) => ExpectedPolls(left + piece, limit, steps[1..])
  }

  lemma PollsAssociative(a: seq<EventPoll>, b: seq<EventPoll>, c: seq<EventPoll>)
    ensures (a + b) + c == a + (b + c)
  {
  }

  lemma NothingComplete(bytes: seq<byte>)
    requires CheckSpace(bytes) == Ok(None)
    ensures Events(bytes) == [] && Leftover(bytes) == bytes
  {
  }

  lemma ExpectedFirst(bytes: seq<byte>, limit: Option<nat>, steps: seq<Step<seq<byte>>>)
    requires CheckSpace(bytes).Ok? && CheckSpace(bytes).value.Some?
    ensures var info := CheckSpace(bytes).value.value;
            ExpectedPolls(bytes, limit, steps)
              == [Ready(Some(Lift(DecodeAt(bytes, info))))] + ExpectedPolls(bytes[info.elementLen..], limit, steps)
  {
    hide CheckSpace, Decode;
    var info := CheckSpace(bytes).value.value;
    var item, rest := Lift(DecodeAt(bytes, info)), bytes[info.elementLen..];
    assert Events(bytes) == [item] + Events(rest) && Leftover(bytes) == Leftover(rest);
    assert !Terminal(item);
    assert ([item] + Events(rest))[1..] == Events(rest);
    assert AsPolls(Events(bytes)) == [Ready(Some(item))] + AsPolls(Events(rest));
    assert EndsTerminally(Events(bytes)) <==> EndsTerminally(Events(rest));
    var first: seq<EventPoll> := [Ready(Some(item))];
    var all := ExpectedPolls(rest, limit, steps);
    var others := all[|AsPolls(Events(rest))|..];
    assert all == AsPolls(Events(rest)) + others;
    assert ExpectedPolls(bytes, limit, steps) == AsPolls(Events(bytes)) + others;
    hide ExpectedPolls, AsPolls;
    PollsAssociative(first, AsPolls(Events(rest)), others);
  }

  /** The parser's polls find exactly that, in that order. */
  lemma {:induction false} ParserPolls(p: ParserState)
    ensures Polls(p) == ExpectedPolls(p.buffer, p.limit, p.steps)
    decreases Size(p)
  {
    hide CheckSpace, Decode, Delivered, Events, Leftover;
    match CheckSpace(p.buffer)
    case Err(e) =>
      BadHeader(p.buffer);
      var item: Item := Err(EbmlFailure(e));
      assert [item][1..] == [] && AsPolls([item]) + [] == [Ready(Some(item))];
    case Ok(Some(info)) =>
      ExpectedFirst(p.buffer, p.limit, p.steps);
      hide ExpectedPolls;
      ParserPolls(AfterElement(p));
    case Ok(None) =>
      NothingComplete(p.buffer);
      if !AtLimit(p) && p.steps != [] {
        var p' := AfterStep(p);
        ParserPolls(p');
        assert !p.steps[0].Piece? ==> p' == p.(steps := p.steps[1..]);
        var rest := ExpectedPolls(p'.buffer, p'.limit, p'.steps);
        assert ExpectedPolls(p.buffer, p.limit, p.steps) == [] + match p.steps[0]
          case NotYet => [Pending] + rest
          case Failure(code) => [Ready(Some(Err(SourceFailure(code))))] + rest
          case Piece(_) => rest;
        if p.steps[0].Piece? {
          assert PollEvent(p) == PollEvent(p');
          assert [] + rest == rest;
        }
      }
  }

  lemma BadHeader(bytes: seq<byte>)
    requires CheckSpace(bytes).Err?
    ensures Events(bytes) == [Err(EbmlFailure(CheckSpace(bytes).error))] && EndsTerminally(Events(bytes))
  {
  }

  /** The items among the polls are the run. */
  lemma {:induction false} RunOfPolls(p: ParserState)
    ensures Run(p) == ItemsOf(Polls(p))
    decreases Size(p)
  {
    hide PollEvent, Terminal;
    var (r, p') := PollEvent(p);
    if r != Ready(None) {
      var rest: seq<EventPoll> := if r.Ready? && Terminal(r.value.value) then [] else Polls(p');
      assert ([r] + rest)[1..] == rest;
      if !(r.Ready? && Terminal(r.value.value)) {
        RunOfPolls(p');
      }
      assert [] + ItemsOf(rest) == ItemsOf(rest);
    }
  }

  function ItemsOf(polls: seq<EventPoll>): seq<Item> {
    if polls == [] then []
    else (if polls[0].Ready? && polls[0].value.Some? then [polls[0].value.value] else []) + ItemsOf(polls[1..])
  }

  // ----- The chunker -----

  function ChunkPolls(p: ParserState, s: ChunkerState, limit: Option<nat>): seq<Chunker.ChunkPoll>
    decreases Measure(p, s)
  {
    var (r, p', s') := PollChunk(p, s, limit);
    if r == Ready(None) then []
    else [r] + if r.Ready? && TerminalOut(r.value.value) then [] else ChunkPolls(p', s', limit)
  }

  function OutPolls(outs: seq<Out>): seq<Chunker.ChunkPoll> {
    if outs == [] then [] else [Ready(Some(outs[0]))] + OutPolls(outs[1..])
  }

  /** Waiting is passed on as it is, and an item leads to what the chunker makes of it. */
  function FoldPolls(s: ChunkerState, polls: seq<EventPoll>, limit: Option<nat>): seq<Chunker.ChunkPoll>
    decreases |polls|
  {
    if s.End? then []
    else if polls == [] then OutPolls(Reported(OnEnd(s).1))
    else
      match polls[0]
      case Pending => [Pending] + FoldPolls(s, polls[1..], limit)
      case Ready(None) => []
      case Ready(Some(item)) =>
        var (s', outs) := OnItem(s, item, limit);
        OutPolls(outs) + if Terminal(item) then [] else FoldPolls(s', polls[1..], limit)
  }

  lemma OneOut(out: Out)
    ensures OutPolls([out]) == [Ready(Some(out))] && OutPolls([]) == []
  {
    assert [out][1..] == [];
  }

  /** One turn of the chunker's loop, seen from all polls. */
  lemma ChunkPollsUnfold(p: ParserState, s: ChunkerState, limit: Option<nat>)
    requires !s.End?
    ensures var (polled, p') := PollEvent(p);
            if polled.Pending? then ChunkPolls(p, s, limit) == [Pending] + ChunkPolls(p', s, limit)
            else if polled.value.None? then ChunkPolls(p, s, limit) == OutPolls(Reported(OnEnd(s).1))
            else ChunkPolls(p, s, limit) == OutPolls(OnItem(s, polled.value.value, limit).1)
                                          + (if Terminal(polled.value.value) then []
                                             else ChunkPolls(p', OnItem(s, polled.value.value, limit).0, limit))
  {
    hide PollEvent, OnElement, Measure, Size, Terminal;
    var (polled, p') := PollEvent(p);
    if polled.Ready? && polled.value.Some? {
      var item := polled.value.value;
      if item.Ok? {
        var (s', out) := OnElement(s, item.value, limit);
        assert !Terminal(item) by { TerminalIsError(item); }
        if out.None? {
          assert PollChunk(p, s, limit) == PollChunk(p', s', limit);
          assert OutPolls([]) + ChunkPolls(p', s', limit) == ChunkPolls(p', s', limit);
        } else {
          OneOut(out.value);
          ElementOutNotTerminal(s, item.value, limit);
        }
      } else {
        OneOut(Err(item.error));
        SameError(item);
      }
    } else if polled.Ready? {
      EndPolls(p, s, limit);
    }
  }

  lemma TerminalIsError(item: Item)
    ensures Terminal(item) ==> item.Err?
  {
  }

  lemma SameError(item: Item)
    requires item.Err?
    ensures TerminalOut(Err(item.error)) <==> Terminal(item)
  {
  }

  /** Errors of writing do not come from the parser; they put the chunker at its end. */
  lemma ElementOutNotTerminal(s: ChunkerState, e: WebmElement, limit: Option<nat>)
    requires !s.End?
    ensures var (s', out) := OnElement(s, e, limit);
            out.Some? && TerminalOut(out.value) ==> s'.End?
  {
    hide OnHeaderElement, OnClusterElement;
  }

  lemma EndPolls(p: ParserState, s: ChunkerState, limit: Option<nat>)
    requires !s.End? && PollEvent(p).0 == Ready(None)
    ensures ChunkPolls(p, s, limit) == OutPolls(Reported(OnEnd(s).1))
  {
    StuckForGood(p);
    hide PollEvent, Terminal;
    var p' := PollEvent(p).1;
    if s.BuildingCluster? {
      var out: Out := Ok(ClusterChunk(s.head, s.buffer));
      OneOut(out);
      assert PollChunk(p, s, limit) == (Ready(Some(out)), p', End);
      assert ChunkPolls(p', End, limit) == [];
    }
  }

  /** The chunker's polls follow its parser's one by one. */
  lemma {:induction false} ChunkerPolls(p: ParserState, s: ChunkerState, limit: Option<nat>)
    ensures ChunkPolls(p, s, limit) == FoldPolls(s, Polls(p), limit)
    decreases Size(p)
  {
    hide PollEvent, OnItem, OnEnd, Terminal;
    if !s.End? {
      ChunkPollsUnfold(p, s, limit);
      var (polled, p') := PollEvent(p);
      if polled.Pending? {
        ChunkerPolls(p', s, limit);
        assert Polls(p)[1..] == Polls(p');
      } else if polled.value.Some? {
        var item := polled.value.value;
        if !Terminal(item) {
          assert Polls(p)[1..] == Polls(p');
          ChunkerPolls(p', OnItem(s, item, limit).0, limit);
        }
      }
    }
  }

  // ----- The finder -----

  function FinderPolls(s: FinderState, steps: seq<ChunkStep>): seq<Fixers.ChunkPoll>
    decreases |steps|
  {
    var (r, s', steps') := PollFinder(s, steps);
    if r == Ready(None) then [] else [r] + FinderPolls(s', steps')
  }

  /** The source's steps one by one, but for the pieces that are not wanted; `chunks` are all its
      chunks, and `n` of them have been before `steps`. */
  function WantedSteps(chunks: seq<Chunk>, n: nat, steps: seq<ChunkStep>): seq<Fixers.ChunkPoll>
    requires n <= |chunks| && chunks[n..] == Arriving(steps)
    decreases |steps|
  {
    if steps == [] then []
    else
      match steps[0]
      case NotYet => [Pending] + WantedSteps(chunks, n, steps[1..])
      case Failure(code) => [Ready(Some(Err(SourceFailure(code))))] + WantedSteps(chunks, n, steps[1..])
      case Piece(chunk) =>
        ArrivingFirst(chunks, n, steps);
        (if Wanted(chunks, n) then [Ready(Some(Ok(chunk)))] else []) + WantedSteps(chunks, n + 1, steps[1..])
  }

  lemma ArrivingFirst(chunks: seq<Chunk>, n: nat, steps: seq<ChunkStep>)
    requires n <= |chunks| && chunks[n..] == Arriving(steps) && steps != [] && steps[0].Piece?
    ensures n < |chunks| && chunks[n] == steps[0].value && chunks[n + 1..] == Arriving(steps[1..])
  {
    assert chunks[n..] == [steps[0].value] + Arriving(steps[1..]);
    assert chunks[n..][1..] == chunks[n + 1..];
  }

  /** The finder passes on every wait, every failure and every wanted chunk in its place. */
  lemma {:induction false} FinderPollsAreSteps(chunks: seq<Chunk>, n: nat, steps: seq<ChunkStep>)
    requires n <= |chunks| && chunks[n..] == Arriving(steps)
    ensures FinderPolls(SiftedState(chunks, n), steps) == WantedSteps(chunks, n, steps)
    decreases |steps|
  {
    var s := SiftedState(chunks, n);
    hide Wanted, SiftedState, Sift;
    if steps != [] {
      if steps[0].Piece? {
        ArrivingFirst(chunks, n, steps);
        SiftIsWanted(chunks, n);
        FinderPollsAreSteps(chunks, n + 1, steps[1..]);
        if !Wanted(chunks, n) {
          assert PollFinder(s, steps) == PollFinder(SiftedState(chunks, n + 1), steps[1..]);
          assert [] + WantedSteps(chunks, n + 1, steps[1..]) == WantedSteps(chunks, n + 1, steps[1..]);
        }
      } else {
        FinderPollsAreSteps(chunks, n, steps[1..]);
      }
    }
  }

  lemma SiftIsWanted(chunks: seq<Chunk>, n: nat)
    requires n < |chunks|
    ensures Sift(SiftedState(chunks, n), chunks[n]) == (SiftedState(chunks, n + 1), Wanted(chunks, n))
  {
    hide HeadersBefore, KeyframeReached;
    SiftedStateMeaning(chunks, n);
    SiftedStateMeaning(chunks, n + 1);
  }
}
