/** The chunker: it sorts a stream of events into chunks. */
module Chunker {
  import opened Wrappers
  import opened Bytes
  import opened Webm
  import opened Iterators
  import opened StreamParser
  import opened Chunks

  datatype ChunkerState =
    | BuildingHeader(buffer: seq<byte>)
    | BuildingCluster(head: Head, buffer: seq<byte>)
    | End

  type Out = Result<Chunk, WebmetroError>

  type ChunkPoll = Poll<Option<Out>>

  /** The kinds of element that never reach an output. */
  predicate IsDropped(element: WebmElement) {
    element.Info? || element.Void? || element.UnknownElement?
  }

  function Append(element: WebmElement, buffer: seq<byte>, limit: Option<nat>): Result<seq<byte>, WebmetroError> {
    if limit.Some? && limit.value <= |buffer| then Err(ResourcesExceeded)
    else
      match WebmBytes(element)
      case Ok(bs) => Ok(buffer + bs)
      case Err(e) => Err(IoFailure(e))
  }

  /** What a SimpleBlock does to the head of its cluster. */
  function Noted(head: Head, block: SimpleBlock): Head {
    Observed(if block.flags >= 0x80 then head.(keyframe := true) else head, block.timecode)
  }

  function OnHeaderElement(buffer: seq<byte>, element: WebmElement, limit: Option<nat>): (ChunkerState, Option<Out>) {
    if element.Cluster? then (BuildingCluster(NewHead(0), []), Some(Ok(Headers(buffer))))
    else if IsDropped(element) then (BuildingHeader(buffer), None)
    else
      match Append(element, buffer, limit)
      case Ok(buffer') => (BuildingHeader(buffer'), None)
      case Err(e) => (End, Some(Err(e)))
  }

  function OnClusterElement(head: Head, buffer: seq<byte>, element: WebmElement, limit: Option<nat>)
    : (ChunkerState, Option<Out>)
  {
    if element.EbmlHead? || element.Segment? then
      match Append(element, [], limit)
      case Ok(header) => (BuildingHeader(header), Some(Ok(ClusterChunk(head, buffer))))
      case Err(e) => (End, Some(Err(e)))
    else if element.Cluster? then (BuildingCluster(NewHead(0), []), Some(Ok(ClusterChunk(head, buffer))))
    else if element.Timecode? then (BuildingCluster(UpdatedTimecode(head, element.time), buffer), None)
    else if IsDropped(element) then (BuildingCluster(head, buffer), None)
    else
      match Append(element, buffer, limit)
      case Ok(buffer') => (BuildingCluster(if element.Block? then Noted(head, element.block) else head, buffer'), None)
      case Err(e) => (End, Some(Err(e)))
  }

  function OnElement(s: ChunkerState, element: WebmElement, limit: Option<nat>): (r: (ChunkerState, Option<Out>))
    requires !s.End?
    ensures r.1.Some? && r.1.value.Err? ==> r.0.End?
  {
    match s
    case BuildingHeader(buffer) => OnHeaderElement(buffer, element, limit)
    case BuildingCluster(head, buffer) => OnClusterElement(head, buffer, element, limit)
  }

  /** The end of the source flushes the last cluster; a header run in the making is lost. */
  function OnEnd(s: ChunkerState): (ChunkerState, Option<Out>) {
    if s.BuildingCluster? then (End, Some(Ok(ClusterChunk(s.head, s.buffer)))) else (s, None)
  }

  function Measure(p: ParserState, s: ChunkerState): nat {
    Size(p) + if s.End? then 0 else 1
  }

  predicate TerminalOut(out: Out) {
    out.Err? && Terminal(Err(out.error))
  }

  /** One poll: events are taken in until there is something to report. */
  function PollChunk(p: ParserState, s: ChunkerState, limit: Option<nat>): (r: (ChunkPoll, ParserState, ChunkerState))
    ensures (r.0.Ready? && (r.0.value.None? || TerminalOut(r.0.value.value))) || Measure(r.1, r.2) < Measure(p, s)
    decreases Size(p)
  {
    if s.End? then (Ready(None), p, s)
    else
      var (polled, p') := PollEvent(p);
      match polled
      case Pending => (Pending, p', s)
      case Ready(None) => (Ready(OnEnd(s).1), p', OnEnd(s).0)
      case Ready(Some(Err(e))) => (Ready(Some(Err(e))), p', s)
      case Ready(Some(Ok(element))) =>
        var (s', out) := OnElement(s, element, limit);
        if out.Some? then (Ready(out), p', s') else PollChunk(p', s', limit)
  }

  /** Everything that repeated polling yields, until it ends or gets stuck. */
  function ChunkRun(p: ParserState, s: ChunkerState, limit: Option<nat>): seq<Out>
    decreases Measure(p, s)
  {
    var (r, p', s') := PollChunk(p, s, limit);
    match r
    case Pending => ChunkRun(p', s', limit)
    case Ready(None) => []
    case Ready(Some(out)) => [out] + if TerminalOut(out) then [] else ChunkRun(p', s', limit)
  }

  /** What becomes of a whole sequence of items followed by the end. */
  function Fold(s: ChunkerState, items: seq<Item>, limit: Option<nat>): seq<Out>
    decreases |items|
  {
    if s.End? then []
    else if items == [] then Reported(OnEnd(s).1)
    else
      var (s', outs) := OnItem(s, items[0], limit);
      outs + if Terminal(items[0]) then [] else Fold(s', items[1..], limit)
  }

  /** Errors of the source are passed on and leave the chunker as it was. */
  function OnItem(s: ChunkerState, item: Item, limit: Option<nat>): (ChunkerState, seq<Out>)
    requires !s.End?
  {
    match item
    case Err(e) => (s, [Err(e)])
    case Ok(element) =>
      var (s', out) := OnElement(s, element, limit);
      (s', Reported(out))
  }

  function Reported(out: Option<Out>): seq<Out> {
    match out
    case None => []
    case Some(o) => [o]
  }

  /** One turn of the chunker's loop, seen from the whole run. */
  lemma ChunkRunUnfold(p: ParserState, s: ChunkerState, limit: Option<nat>)
    requires !s.End?
    ensures var (polled, p') := PollEvent(p);
            if polled.Pending? then ChunkRun(p, s, limit) == ChunkRun(p', s, limit)
            else if polled.value.None? then ChunkRun(p, s, limit) == Reported(OnEnd(s).1)
            else ChunkRun(p, s, limit) == OnItem(s, polled.value.value, limit).1
                                        + (if Terminal(polled.value.value) then []
                                           else ChunkRun(p', OnItem(s, polled.value.value, limit).0, limit))
  {
    hide PollEvent, WebmBytes, HeadBytes, OnElement, Measure, Size;
    var (polled, p') := PollEvent(p);
    if polled.Ready? && polled.value.Some? && polled.value.value.Ok? {
      var (s', out) := OnElement(s, polled.value.value.value, limit);
      if out.None? {
        assert PollChunk(p, s, limit) == PollChunk(p', s', limit);
        assert [] + ChunkRun(p', s', limit) == ChunkRun(p', s', limit);
      }
    }
  }

  /** A chunker's run depends on the cutting and the timing of its source only through the items
      that its parser yields. */
  lemma {:induction false} ChunkRunIsFold(p: ParserState, s: ChunkerState, limit: Option<nat>)
    ensures ChunkRun(p, s, limit) == Fold(s, Run(p), limit)
    decreases Size(p)
  {
    hide PollEvent, WebmBytes, HeadBytes, Terminal, OnItem, OnEnd;
    if !s.End? {
      ChunkRunUnfold(p, s, limit);
      var (polled, p') := PollEvent(p);
      if polled.Ready? && polled.value.Some? {
        var item := polled.value.value;
        if Terminal(item) {
          assert Run(p) == [item];
        } else {
          assert Run(p) == [item] + Run(p');
          assert Run(p)[1..] == Run(p');
          ChunkRunIsFold(p', OnItem(s, item, limit).0, limit);
        }
      } else if polled.Pending? {
        ChunkRunIsFold(p', s, limit);
      }
    }
  }
}
