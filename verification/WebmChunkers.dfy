/** The chunker object: a parser, a state with its buffers, and the polling loop. */
module WebmChunkers {
  import opened Wrappers
  import opened Bytes
  import opened Ebml
  import opened Cursors
  import opened Webm
  import opened Iterators
  import opened StreamParser
  import opened Chunks
  import opened Chunker

  /** Payloads that were read fit the lengths that can be written. */
  predicate PayloadFits(e: WebmElement) {
    match e
    case Tracks(data) => |data| <= EIGHT_MAX
    case Block(block) => 4 + |block.data| <= EIGHT_MAX
    case _ => true
  }

  lemma DecodedPayloadFits(bytes: seq<byte>)
    requires DecodeElement(bytes).Ok? && DecodeElement(bytes).value.Some?
    ensures PayloadFits(DecodeElement(bytes).value.value.0)
  {
    DecodedPayload(bytes);
    var (tag, size, offset) := DecodeTag(bytes).value.value;
    var (e, n) := DecodeElement(bytes).value.value;
    DecodedKinds(tag, bytes[offset..n]);
    hide DecodeTag, DecodeElement, DecodeSimpleBlock, Decode;
    if e.Block? {
      DecodedBlock(bytes[offset..n]);
    }
  }

  lemma {:induction false} PolledPayloadFits(p: ParserState)
    ensures var r := PollEvent(p).0;
            r.Ready? && r.value.Some? && r.value.value.Ok? ==> PayloadFits(r.value.value.value)
    decreases |p.steps|
  {
    hide CheckSpace, Decode, PayloadFits;
    match CheckSpace(p.buffer)
    case Ok(Some(info)) =>
      if DecodeAt(p.buffer, info).Ok? {
        DecodedPayloadFits(p.buffer);
      }
    case Ok(None) =>
      if !AtLimit(p) && p.steps != [] && p.steps[0].Piece? {
        PolledPayloadFits(ParserState(p.buffer + p.steps[0].value, p.limit, p.steps[1..]));
      }
    case _ =>
  }

  /** The limit is checked before writing only. */
  method Encode(element: WebmElement, buffer: Cursor, limit: Option<nat>) returns (r: Result<(), WebmetroError>)
    requires buffer.Valid() && buffer.pos == |buffer.data| && PayloadFits(element)
    modifies buffer
    ensures buffer.Valid()
    ensures match Append(element, old(buffer.data), limit)
            case Ok(data) => r == Ok(()) && buffer.data == data && buffer.pos == |data|
            case Err(e) => r == Err(e)
  {
    hide WebmBytes;
    if limit.Some? && limit.value <= |buffer.data| {
      return Err(ResourcesExceeded);
    }
    var written := EncodeWebmElement(element, buffer);
    r := if written.Ok? then Ok(()) else Err(IoFailure(written.error));
  }

  datatype StateObject =
    | InHeader(buffer: Cursor)
    | InCluster(clusterHead: ClusterHead, buffer: Cursor)
    | Ended

  class WebmChunker {
    const source: EbmlStreamingParser
    var bufferSizeLimit: Option<nat>
    var state: StateObject

    ghost function Parts(): set<object>
      reads this
    {
      match state
      case InHeader(buffer) => {buffer}
      case InCluster(clusterHead, buffer) => {clusterHead, buffer}
      case Ended => {}
    }

    ghost predicate Valid()
      reads this, Parts()
    {
      state.Ended? || (state.buffer.Valid() && state.buffer.pos == |state.buffer.data|)
    }

    /** The value of the state. */
    ghost function Model(): ChunkerState
      reads this, Parts()
    {
      match state
      case InHeader(buffer) => BuildingHeader(buffer.data)
      case InCluster(clusterHead, buffer) => BuildingCluster(clusterHead.Value(), buffer.data)
      case Ended => End
    }

    constructor (source: EbmlStreamingParser)
      ensures Valid() && fresh(Parts())
      ensures this.source == source && bufferSizeLimit == None && Model() == BuildingHeader([])
    {
      this.source := source;
      bufferSizeLimit := None;
      var buffer := new Cursor();
      state := InHeader(buffer);
    }

    method WithSoftLimit(limit: nat)
      requires Valid()
      modifies this
      ensures Valid() && state == old(state) && Model() == old(Model()) && bufferSizeLimit == Some(limit)
    {
      bufferSizeLimit := Some(limit);
    }

    /** An element while a header run is being built. */
    method HeaderElement(element: WebmElement) returns (out: Option<Out>)
      requires Valid() && state.InHeader? && PayloadFits(element)
      modifies this, Parts()
      ensures Valid() && fresh(Parts() - old(Parts())) && bufferSizeLimit == old(bufferSizeLimit)
      ensures (Model(), out) == OnHeaderElement(old(Model()).buffer, element, bufferSizeLimit)
    {
      hide WebmBytes, HeadBytes;
      var buffer := state.buffer;
      if element.Cluster? {
        var header := Headers(buffer.data);
        var head := new ClusterHead(0);
        var body := new Cursor();
        state := InCluster(head, body);
        return Some(Ok(header));
      }
      if IsDropped(element) {
        return None;
      }
      var r := Encode(element, buffer, bufferSizeLimit);
      if r.Err? {
        state := Ended;
        return Some(Err(r.error));
      }
      out := None;
    }

    /** The finished cluster, as a chunk. */
    method LiberatedCluster() returns (chunk: Chunk)
      requires Valid() && state.InCluster?
      ensures chunk == ClusterChunk(Model().head, Model().buffer)
    {
      var head := state.clusterHead;
      chunk := ClusterChunk(Head(head.keyframe, head.start, head.end, head.bytes), state.buffer.data);
    }

    /** An element while a cluster is being built. */
    method ClusterElement(element: WebmElement) returns (out: Option<Out>)
      requires Valid() && state.InCluster? && PayloadFits(element)
      modifies this, Parts()
      ensures Valid() && fresh(Parts() - old(Parts())) && bufferSizeLimit == old(bufferSizeLimit)
      ensures (Model(), out) == OnClusterElement(old(Model()).head, old(Model()).buffer, element, bufferSizeLimit)
    {
      hide WebmBytes, HeadBytes;
      if element.EbmlHead? || element.Segment? {
        var chunk := LiberatedCluster();
        var newHeader := new Cursor();
        var r := Encode(element, newHeader, bufferSizeLimit);
        if r.Ok? {
          state := InHeader(newHeader);
          return Some(Ok(chunk));
        }
        state := Ended;
        return Some(Err(r.error));
      }
      if element.Cluster? {
        var chunk := LiberatedCluster();
        var head := new ClusterHead(0);
        var body := new Cursor();
        state := InCluster(head, body);
        return Some(Ok(chunk));
      }
      out := ClusterContent(element);
    }

    /** An element that does not end the cluster. */
    method ClusterContent(element: WebmElement) returns (out: Option<Out>)
      requires Valid() && state.InCluster? && PayloadFits(element)
      requires !element.EbmlHead? && !element.Segment? && !element.Cluster?
      modifies this, Parts()
      ensures Valid() && fresh(Parts() - old(Parts())) && bufferSizeLimit == old(bufferSizeLimit)
      ensures (Model(), out) == OnClusterElement(old(Model()).head, old(Model()).buffer, element, bufferSizeLimit)
    {
      hide WebmBytes, HeadBytes, Observed, UpdatedTimecode;
      var head, buffer := state.clusterHead, state.buffer;
      out := None;
      if element.Timecode? {
        head.UpdateTimecode(element.time);
        return;
      }
      if IsDropped(element) {
        return;
      }
      if element.Block? {
        if element.block.flags >= 0x80 {
          head.keyframe := true;
        }
        head.ObserveSimpleblockTimecode(element.block.timecode);
      }
      var r := Encode(element, buffer, bufferSizeLimit);
      if r.Err? {
        state := Ended;
        out := Some(Err(r.error));
      }
    }

    method PollNext() returns (r: ChunkPoll)
      requires Valid()
      modifies this, Parts(), source, source.stream
      ensures Valid() && fresh(Parts() - old(Parts())) && bufferSizeLimit == old(bufferSizeLimit)
      ensures (r, source.Model(), Model()) == PollChunk(old(source.Model()), old(Model()), bufferSizeLimit)
    {
      hide PollEvent, OnHeaderElement, OnClusterElement, Size;
      while !state.Ended?
        invariant Valid() && fresh(Parts() - old(Parts())) && bufferSizeLimit == old(bufferSizeLimit)
        invariant PollChunk(source.Model(), Model(), bufferSizeLimit)
               == PollChunk(old(source.Model()), old(Model()), bufferSizeLimit)
        decreases Size(source.Model())
      {
        ghost var p := source.Model();
        PolledPayloadFits(p);
        var polled := source.PollNextEvent();
        match polled {
          case Pending =>
            return Pending;
          case Ready(Some(Err(passthru))) =>
            return Ready(Some(Err(passthru)));
          case Ready(None) =>
            if state.InHeader? {
              return Ready(None);
            }
            var chunk := LiberatedCluster();
            state := Ended;
            return Ready(Some(Ok(chunk)));
          case Ready(Some(Ok(element))) =>
            var out;
            if state.InHeader? {
              out := HeaderElement(element);
            } else {
              out := ClusterElement(element);
            }
            if out.Some? {
              return Ready(out);
            }
        }
      }
      r := Ready(None);
    }
  }
}
