/** What the bytes of chunks are made of, over whole runs with errors and limits. */
module Contents {
  import opened Wrappers
  import opened Bytes
  import opened Webm
  import opened Iterators
  import opened StreamParser
  import opened Chunks
  import opened Chunker
  import opened NormalForms
  import opened Meaning
  import opened Pipeline

  predicate HeaderElements(es: seq<WebmElement>) {
    forall e :: e in es ==> Readable(e) && !e.Cluster?
  }

  /** Elements that may stand in a cluster behind its Timecode. */
  predicate BodyElements(es: seq<WebmElement>) {
    forall e :: e in es ==> Readable(e) && !e.Cluster? && !StartsStream(e) && !e.Timecode?
  }

  ghost predicate IsHeaderBytes(bytes: seq<byte>) {
    exists es :: HeaderElements(es) && EncodeAll(es) == bytes
  }

  ghost predicate IsBodyBytes(bytes: seq<byte>) {
    exists es :: BodyElements(es) && EncodeAll(es) == bytes
  }

  /** A chunk whose bytes are whole elements, of the kinds that belong there. */
  ghost predicate WellMade(c: Chunk) {
    if c.Headers? then IsHeaderBytes(c.bytes) else c.ClusterChunk? && IsBodyBytes(c.body)
  }

  ghost predicate StateWellMade(s: ChunkerState) {
    match s
    case BuildingHeader(buffer) => IsHeaderBytes(buffer)
    case BuildingCluster(_, buffer) => IsBodyBytes(buffer)
    case End => true
  }

  lemma NothingWellMade()
    ensures IsHeaderBytes([]) && IsBodyBytes([])
  {
    assert HeaderElements([]) && BodyElements([]) && EncodeAll([]) == [];
  }

  lemma EncodeOneMore(es: seq<WebmElement>, e: WebmElement)
    ensures EncodeAll(es + [e]) == EncodeAll(es) + Written(e)
  {
    EncodeAllAppend(es, [e]);
    hide Written;
    assert [e][1..] == [];
    assert Written(e) + EncodeAll([]) == Written(e);
  }

  lemma AppendIs(e: WebmElement, buffer: seq<byte>, limit: Option<nat>)
    requires Append(e, buffer, limit).Ok?
    ensures Append(e, buffer, limit).value == buffer + Written(e)
    ensures if WritesNothing(e) then Written(e) == [] else Readable(e)
  {
    WebmRoundTrip(e, []);
    hide WebmBytes, DecodeElement;
  }

  lemma HeaderGrows(buffer: seq<byte>, e: WebmElement)
    requires IsHeaderBytes(buffer) && Readable(e) && !e.Cluster?
    ensures IsHeaderBytes(buffer + Written(e))
  {
    hide EncodeAll, Written, Readable;
    var es :| HeaderElements(es) && EncodeAll(es) == buffer;
    EncodeOneMore(es, e);
    assert HeaderElements(es + [e]);
  }

  lemma BodyGrows(buffer: seq<byte>, e: WebmElement)
    requires IsBodyBytes(buffer) && Readable(e) && !e.Cluster? && !StartsStream(e) && !e.Timecode?
    ensures IsBodyBytes(buffer + Written(e))
  {
    hide EncodeAll, Written, Readable;
    var es :| BodyElements(es) && EncodeAll(es) == buffer;
    EncodeOneMore(es, e);
    assert BodyElements(es + [e]);
  }

  /** What is appended is one more whole element, or nothing. */
  lemma AppendWellMade(e: WebmElement, buffer: seq<byte>, limit: Option<nat>)
    requires Append(e, buffer, limit).Ok?
    ensures var buffer' := Append(e, buffer, limit).value;
            && (IsHeaderBytes(buffer) && !e.Cluster? ==> IsHeaderBytes(buffer'))
            && (IsBodyBytes(buffer) && !e.Cluster? && !StartsStream(e) && !e.Timecode? ==> IsBodyBytes(buffer'))
  {
    AppendIs(e, buffer, limit);
    hide Append, Written, Readable, IsHeaderBytes, IsBodyBytes;
    if WritesNothing(e) {
      assert buffer + Written(e) == buffer;
    } else {
      if IsHeaderBytes(buffer) && !e.Cluster? {
        HeaderGrows(buffer, e);
      }
      if IsBodyBytes(buffer) && !e.Cluster? && !StartsStream(e) && !e.Timecode? {
        BodyGrows(buffer, e);
      }
    }
  }

  lemma ItemWellMade(s: ChunkerState, item: Item, limit: Option<nat>)
    requires !s.End? && StateWellMade(s)
    ensures StateWellMade(OnItem(s, item, limit).0)
    ensures forall out :: out in OnItem(s, item, limit).1 && out.Ok? ==> WellMade(out.value)
  {
    NothingWellMade();
    hide Append, IsHeaderBytes, IsBodyBytes, Noted, UpdatedTimecode, NewHead;
    if item.Ok? {
      var e := item.value;
      var buffer := if s.BuildingCluster? && StartsStream(e) then [] else s.buffer;
      if Append(e, buffer, limit).Ok? {
        AppendWellMade(e, buffer, limit);
      }
    }
  }

  /** Whatever the items, the limit and the errors in between: every Headers chunk is whole header
      elements, and every cluster's body whole elements that may stand there. */
  lemma {:induction false} FoldWellMade(s: ChunkerState, items: seq<Item>, limit: Option<nat>)
    requires StateWellMade(s)
    ensures forall out :: out in Fold(s, items, limit) && out.Ok? ==> WellMade(out.value)
    decreases |items|
  {
    hide OnItem, WellMade, StateWellMade, Terminal;
    if !s.End? {
      if items == [] {
        EndWellMade(s);
      } else {
        ItemWellMade(s, items[0], limit);
        FoldWellMade(OnItem(s, items[0], limit).0, items[1..], limit);
      }
    }
  }

  lemma EndWellMade(s: ChunkerState)
    requires StateWellMade(s)
    ensures forall out :: out in Reported(OnEnd(s).1) && out.Ok? ==> WellMade(out.value)
  {
  }

  // ----- Reading a well-made stream -----

  /** `segment` is what the bytes of `c` read as, with the head's start as the one Timecode. */
  predicate ReadsAs(c: Chunk, segment: Segment) {
    if c.Headers? then
      segment.HeaderRun? && HeaderElements(segment.elements) && EncodeAll(segment.elements) == c.bytes
    else
      && c.ClusterChunk? && segment.ClusterRun? && segment.elements != []
      && segment.elements[0] == Timecode(c.head.start)
      && BodyElements(segment.elements[1..]) && EncodeAll(segment.elements[1..]) == c.body
  }

  predicate AllReadAs(chunks: seq<Chunk>, segments: seq<Segment>) {
    |chunks| == |segments| && forall k :: 0 <= k < |chunks| ==> ReadsAs(chunks[k], segments[k])
  }

  lemma ChunkReads(c: Chunk) returns (segment: Segment)
    requires WellMade(c) && (c.ClusterChunk? ==> c.head.bytes == HeadBytes(c.head.start))
    ensures ReadsAs(c, segment)
    ensures ChunkBytes(c) == EncodeAll(SegmentEvents(segment))
    ensures forall e :: e in SegmentEvents(segment) ==> Readable(e)
    ensures if c.Headers? then forall e :: e in segment.elements ==> !e.Cluster?
            else forall e :: e in segment.elements ==> !e.Cluster? && !StartsStream(e)
  {
    hide EncodeAll, Written;
    if c.Headers? {
      var es :| HeaderElements(es) && EncodeAll(es) == c.bytes;
      segment := HeaderRun(es);
    } else {
      var es :| BodyElements(es) && EncodeAll(es) == c.body;
      segment := ClusterAt(c.head.start, es);
      assert segment.elements[1..] == es;
      EncodeCluster(c.head.start, es);
    }
  }

  lemma EncodeCluster(time: u64, body: seq<WebmElement>)
    ensures EncodeAll([Cluster] + ([Timecode(time)] + body)) == HeadBytes(time) + EncodeAll(body)
  {
    hide Written;
    var all := [Cluster] + ([Timecode(time)] + body);
    assert all[1..] == [Timecode(time)] + body;
    assert all[1..][1..] == body;
    BytesAssociative(Written(Cluster), Written(Timecode(time)), EncodeAll(body));
  }

  lemma {:induction false} ClustersRead(chunks: seq<Chunk>) returns (segments: seq<Segment>)
    requires forall c :: c in chunks ==> c.ClusterChunk? && WellMade(c) && c.head.bytes == HeadBytes(c.head.start)
    ensures AllReadAs(chunks, segments) && WellShaped(segments)
    ensures AllBytesOf(chunks) == EncodeAll(ToEvents(segments))
    ensures forall e :: e in ToEvents(segments) ==> Readable(e)
    decreases |chunks|
  {
    hide WellMade, ReadsAs, EncodeAll, WellShaped, HeadBytes, ChunkBytes, Readable, SegmentEvents;
    segments := [];
    if chunks == [] {
      NothingIsWellShaped();
      NothingEncoded();
    } else {
      assert chunks[0] in chunks;
      var first := ChunkReads(chunks[0]);
      var rest := ClustersRead(chunks[1..]);
      segments := [first] + rest;
      ReadsAsKind(chunks[0], first);
      assert rest != [] ==> chunks[1..][0] in chunks && ReadsAs(chunks[1..][0], rest[0]);
      if rest != [] {
        ReadsAsKind(chunks[1..][0], rest[0]);
      }
      WellShapedCons(first, rest);
      ToEventsCons(first, rest);
      EncodeAllAppend(SegmentEvents(first), ToEvents(rest));
    }
  }

  lemma NothingEncoded()
    ensures EncodeAll(ToEvents([])) == []
  {
  }

  lemma ReadsAsKind(c: Chunk, segment: Segment)
    requires ReadsAs(c, segment)
    ensures c.Headers? <==> segment.HeaderRun?
  {
  }

  /** The bytes of one Headers chunk and of clusters behind it read without error as one header run
      and the clusters, each with one Timecode, its start, in front. */
  lemma {:induction false} StreamReads(chunks: seq<Chunk>) returns (segments: seq<Segment>)
    requires chunks != [] && chunks[0].Headers? && forall k :: 0 < k < |chunks| ==> chunks[k].ClusterChunk?
    requires forall c :: c in chunks ==> WellMade(c) && (c.ClusterChunk? ==> c.head.bytes == HeadBytes(c.head.start))
    ensures AllReadAs(chunks, segments)
    ensures Events(AllBytesOf(chunks)) == Oks(ToEvents(segments))
    ensures |chunks| > 1 ==> HeaderSegments(ToEvents(segments)) == segments
  {
    hide WellMade, ReadsAs, EncodeAll, HeadBytes, ChunkBytes, HeaderSegments, SegmentOk, Events, Readable;
    hide SegmentEvents;
    var header := ChunkReads(chunks[0]);
    ReadsAsKind(chunks[0], header);
    forall c | c in chunks[1..]
      ensures c in chunks && c.ClusterChunk?
    {
    }
    var rest := ClustersRead(chunks[1..]);
    segments := [header] + rest;
    ToEventsCons(header, rest);
    EncodeAllAppend(SegmentEvents(header), ToEvents(rest));
    ReadableAccepted(ToEvents(segments));
    EventsOfEncoded(ToEvents(segments));
    if |chunks| > 1 {
      assert ReadsAs(chunks[1..][0], rest[0]);
      ReadsAsKind(chunks[1..][0], rest[0]);
      WellShapedCons(header, rest);
      HeaderSegmentsRoundTrip(segments);
    }
  }
}
