/** The chunker preserves meaning: its output reads back as the normal form of its input. */
module Meaning {
  import opened Wrappers
  import opened Bytes
  import opened Ebml
  import opened Webm
  import opened Iterators
  import opened StreamParser
  import opened Chunks
  import opened Chunker
  import opened NormalForms

  function EncodeAll(es: seq<WebmElement>): seq<byte> {
    if es == [] then [] else Written(es[0]) + EncodeAll(es[1..])
  }

  lemma {:induction false} EncodeAllAppend(a: seq<WebmElement>, b: seq<WebmElement>)
    ensures EncodeAll(a + b) == EncodeAll(a) + EncodeAll(b)
  {
    hide Written;
    if a == [] {
      assert a + b == b;
    } else {
      assert (a + b)[1..] == a[1..] + b;
      EncodeAllAppend(a[1..], b);
    }
  }

  function Oks(es: seq<WebmElement>): (items: seq<Item>)
    ensures |items| == |es|
  {
    if es == [] then [] else [Ok(es[0])] + Oks(es[1..])
  }

  /** Elements written one after the other read back as themselves. */
  lemma {:induction false} EventsOfEncoded(es: seq<WebmElement>)
    requires forall e :: e in es ==> Encodable(e) && !WritesNothing(e)
    ensures Events(EncodeAll(es)) == Oks(es)
  {
    hide CheckSpace, Decode, WebmBytes;
    if es == [] {
      NoEvents();
    } else {
      assert es[0] in es;
      WebmRoundTrip(es[0], EncodeAll(es[1..]));
      var bytes := EncodeAll(es);
      assert bytes[|Written(es[0])|..] == EncodeAll(es[1..]);
      EventsOfEncoded(es[1..]);
    }
  }

  lemma NoEvents()
    ensures Events([]) == []
  {
    assert CheckSpace([]) == Ok(None);
  }

  // ----- The chunker on whole segments -----

  /** The chunker accepts an element if it drops it or can write it. */
  predicate Accepted(e: WebmElement) {
    IsDropped(e) || Encodable(e)
  }

  predicate AllAccepted(es: seq<WebmElement>) {
    forall e :: e in es ==> Accepted(e)
  }

  lemma AppendAccepted(e: WebmElement, buffer: seq<byte>)
    requires Accepted(e) && !IsDropped(e)
    ensures Append(e, buffer, None) == Ok(buffer + Written(e))
    ensures Written(e) == EncodeAll(if IsKept(e) then [e] else [])
  {
    WebmRoundTrip(e, []);
    hide WebmBytes, DecodeElement;
  }

  /** What an element of a cluster does to the cluster's head. */
  function HeadStep(head: Head, e: WebmElement): Head {
    match e
    case Timecode(time) => UpdatedTimecode(head, time)
    case Block(block) => Noted(head, block)
    case _ => head
  }

  function HeadAfter(head: Head, es: seq<WebmElement>): Head
    decreases |es|
  {
    if es == [] then head else HeadAfter(HeadStep(head, es[0]), es[1..])
  }

  function ChunkOf(segment: Segment): (c: Chunk)
    ensures c.ClusterChunk? <==> segment.ClusterRun?
    ensures c.Headers? <==> segment.HeaderRun?
  {
    match segment
    case HeaderRun(es) => Headers(EncodeAll(Kept(es)))
    case ClusterRun(es) => ClusterChunk(HeadAfter(NewHead(0), es), EncodeAll(Body(es)))
  }

  function ChunksOf(segments: seq<Segment>): (outs: seq<Out>)
    ensures |outs| == |segments|
  {
    if segments == [] then [] else [Ok(ChunkOf(segments[0]))] + ChunksOf(segments[1..])
  }

  lemma HeaderStep(h: seq<byte>, es: seq<WebmElement>)
    requires es != [] && Accepted(es[0]) && !es[0].Cluster?
    ensures Fold(BuildingHeader(h), Oks(es), None)
         == Fold(BuildingHeader(h + EncodeAll(Kept(es[..1]))), Oks(es[1..]), None)
  {
    hide WebmBytes, Written, Observed, UpdatedTimecode;
    if !IsDropped(es[0]) {
      AppendAccepted(es[0], h);
    }
    assert Kept(es[..1]) == (if IsKept(es[0]) then [es[0]] else []) + Kept([]);
    assert h + EncodeAll([]) == h;
    assert Oks(es)[1..] == Oks(es[1..]);
    assert [] + Fold(BuildingHeader(h + EncodeAll(Kept(es[..1]))), Oks(es[1..]), None)
        == Fold(BuildingHeader(h + EncodeAll(Kept(es[..1]))), Oks(es[1..]), None);
  }

  /** Elements of a header run go to the buffer. */
  lemma {:induction false} HeaderFold(h: seq<byte>, es: seq<WebmElement>, k: nat)
    requires k <= FirstCluster(es) && AllAccepted(es[..k])
    ensures Fold(BuildingHeader(h), Oks(es), None)
         == Fold(BuildingHeader(h + EncodeAll(Kept(es[..k]))), Oks(es[k..]), None)
    decreases k
  {
    hide Fold, Encodable, Written;
    if k == 0 {
      assert es[0..] == es && h + EncodeAll(Kept(es[..0])) == h;
    } else {
      assert es[0] in es[..k];
      HeaderStep(h, es);
      forall e | e in es[1..][..k - 1]
        ensures Accepted(e)
      {
        assert e in es[..k];
      }
      HeaderFold(h + EncodeAll(Kept(es[..1])), es[1..], k - 1);
      KeptSplit(es, k);
      assert es[1..][k - 1..] == es[k..];
      BytesAssociative(h, EncodeAll(Kept(es[..1])), EncodeAll(Kept(es[1..][..k - 1])));
    }
  }

  lemma BytesAssociative(a: seq<byte>, b: seq<byte>, c: seq<byte>)
    ensures (a + b) + c == a + (b + c)
  {
  }

  lemma KeptSplit(es: seq<WebmElement>, k: nat)
    requires 0 < k <= |es|
    ensures EncodeAll(Kept(es[..k])) == EncodeAll(Kept(es[..1])) + EncodeAll(Kept(es[1..][..k - 1]))
    ensures EncodeAll(Body(es[..k])) == EncodeAll(Body(es[..1])) + EncodeAll(Body(es[1..][..k - 1]))
  {
    hide Written;
    assert es[..k][1..] == es[1..][..k - 1];
    assert es[..1][1..] == [];
    EncodeAllAppend(Kept(es[..1]), Kept(es[1..][..k - 1]));
    EncodeAllAppend(Body(es[..1]), Body(es[1..][..k - 1]));
    assert Kept(es[..k]) == Kept(es[..1]) + Kept(es[1..][..k - 1]);
    assert Body(es[..k]) == Body(es[..1]) + Body(es[1..][..k - 1]);
  }

  lemma ClusterStep(head: Head, b: seq<byte>, es: seq<WebmElement>)
    requires es != [] && Accepted(es[0]) && !es[0].Cluster? && !StartsStream(es[0])
    ensures Fold(BuildingCluster(head, b), Oks(es), None)
         == Fold(BuildingCluster(HeadStep(head, es[0]), b + EncodeAll(Body(es[..1]))), Oks(es[1..]), None)
  {
    hide WebmBytes, Written, Noted, UpdatedTimecode;
    if !IsDropped(es[0]) {
      AppendAccepted(es[0], b);
    }
    assert Body(es[..1]) == (if IsKept(es[0]) && !es[0].Timecode? then [es[0]] else []) + Body([]);
    assert b + EncodeAll([]) == b;
    assert Oks(es)[1..] == Oks(es[1..]);
    var s' := BuildingCluster(HeadStep(head, es[0]), b + EncodeAll(Body(es[..1])));
    assert [] + Fold(s', Oks(es[1..]), None) == Fold(s', Oks(es[1..]), None);
  }

  /** Elements of a cluster go to the head or to the body. */
  lemma {:induction false} ClusterFold(head: Head, b: seq<byte>, es: seq<WebmElement>, k: nat)
    requires k <= ClusterEnd(es) && AllAccepted(es[..k])
    ensures Fold(BuildingCluster(head, b), Oks(es), None)
         == Fold(BuildingCluster(HeadAfter(head, es[..k]), b + EncodeAll(Body(es[..k]))), Oks(es[k..]), None)
    decreases k
  {
    hide Fold, Encodable, Written, HeadStep;
    if k == 0 {
      assert es[0..] == es && b + EncodeAll(Body(es[..0])) == b;
    } else {
      assert es[0] in es[..k];
      ClusterStep(head, b, es);
      forall e | e in es[1..][..k - 1]
        ensures Accepted(e)
      {
        assert e in es[..k];
      }
      ClusterFold(HeadStep(head, es[0]), b + EncodeAll(Body(es[..1])), es[1..], k - 1);
      KeptSplit(es, k);
      assert es[..k][1..] == es[1..][..k - 1];
      assert es[1..][k - 1..] == es[k..];
      BytesAssociative(b, EncodeAll(Body(es[..1])), EncodeAll(Body(es[1..][..k - 1])));
    }
  }

  lemma AcceptedSlice(es: seq<WebmElement>, i: nat, j: nat)
    requires AllAccepted(es) && i <= j <= |es|
    ensures AllAccepted(es[i..j])
  {
    hide Accepted;
  }

  /** A Cluster ends the header run, or the cluster before it. */
  lemma ClusterFlushes(s: ChunkerState, es: seq<WebmElement>)
    requires !s.End? && es != [] && es[0].Cluster?
    ensures Fold(s, Oks(es), None)
         == [Ok(if s.BuildingHeader? then Headers(s.buffer) else ClusterChunk(s.head, s.buffer))]
            + Fold(BuildingCluster(NewHead(0), []), Oks(es[1..]), None)
  {
    hide WebmBytes, NewHead;
    assert Oks(es)[1..] == Oks(es[1..]);
  }

  /** A new stream ends the cluster before it. */
  lemma StreamFlushes(head: Head, b: seq<byte>, es: seq<WebmElement>)
    requires es != [] && Accepted(es[0]) && StartsStream(es[0])
    ensures Fold(BuildingCluster(head, b), Oks(es), None)
         == [Ok(ClusterChunk(head, b))] + Fold(BuildingHeader([]), Oks(es), None)
  {
    hide WebmBytes, Written;
    HeaderStep([], es);
    AppendAccepted(es[0], []);
    assert Kept(es[..1]) == [es[0]] + Kept([]);
    assert Oks(es)[1..] == Oks(es[1..]);
  }

  /** Without a limit and on elements it accepts, the chunker turns every segment into its chunk. */
  lemma {:induction false} HeaderChunks(es: seq<WebmElement>)
    requires AllAccepted(es)
    ensures Fold(BuildingHeader([]), Oks(es), None) == ChunksOf(HeaderSegments(es))
    decreases |es|, 0
  {
    var k := FirstCluster(es);
    AcceptedSlice(es, 0, k);
    HeaderFold([], es, k);
    assert [] + EncodeAll(Kept(es[..k])) == EncodeAll(Kept(es[..k]));
    hide Accepted, Written, HeadAfter, NewHead;
    if k < |es| {
      AcceptedSlice(es, k + 1, |es|);
      ClusterFlushes(BuildingHeader(EncodeAll(Kept(es[..k]))), es[k..]);
      assert es[k..][1..] == es[k + 1..];
      ClusterChunks(es[k + 1..]);
      assert HeaderSegments(es)[1..] == ClusterSegments(es[k + 1..]);
    }
  }

  lemma {:induction false} ClusterChunks(es: seq<WebmElement>)
    requires AllAccepted(es)
    ensures Fold(BuildingCluster(NewHead(0), []), Oks(es), None) == ChunksOf(ClusterSegments(es))
    decreases |es|, 1
  {
    hide Accepted, Written, HeadAfter, NewHead;
    var k := ClusterEnd(es);
    AcceptedSlice(es, 0, k);
    ClusterFold(NewHead(0), [], es, k);
    assert [] + EncodeAll(Body(es[..k])) == EncodeAll(Body(es[..k]));
    var head, body := HeadAfter(NewHead(0), es[..k]), EncodeAll(Body(es[..k]));
    var tail := es[k..];
    AcceptedSlice(es, k, |es|);
    assert ClusterSegments(es)[1..] == NextSegments(tail);
    if k == |es| {
    } else if es[k].Cluster? {
      ClusterFlushes(BuildingCluster(head, body), tail);
      AcceptedSlice(tail, 1, |tail|);
      ClusterChunks(tail[1..]);
    } else {
      assert tail[0] in tail;
      StreamFlushes(head, body, tail);
      HeaderChunks(tail);
    }
  }

  // ----- The bytes of the chunks -----

  function OkChunks(outs: seq<Out>): seq<Chunk> {
    if outs == [] then [] else (if outs[0].Ok? then [outs[0].value] else []) + OkChunks(outs[1..])
  }

  function AllBytesOf(chunks: seq<Chunk>): seq<byte> {
    if chunks == [] then [] else ChunkBytes(chunks[0]) + AllBytesOf(chunks[1..])
  }

  /** The bytes of all chunks of a run, in order. */
  function Output(outs: seq<Out>): seq<byte> {
    AllBytesOf(OkChunks(outs))
  }

  function SegmentChunks(segments: seq<Segment>): (chunks: seq<Chunk>)
    ensures |chunks| == |segments|
    ensures forall i :: 0 <= i < |segments| ==> chunks[i] == ChunkOf(segments[i])
  {
    if segments == [] then [] else [ChunkOf(segments[0])] + SegmentChunks(segments[1..])
  }

  lemma {:induction false} OkChunksOf(segments: seq<Segment>)
    ensures OkChunks(ChunksOf(segments)) == SegmentChunks(segments)
  {
    hide ChunkOf;
    if segments != [] {
      OkChunksOf(segments[1..]);
      assert ChunksOf(segments)[1..] == ChunksOf(segments[1..]);
    }
  }

  /** The head's bytes always say its start, and that is the last Timecode. */
  lemma {:induction false} HeadAfterShape(head: Head, es: seq<WebmElement>)
    requires head.bytes == HeadBytes(head.start)
    ensures HeadAfter(head, es).start == LastTimecode(es, head.start)
    ensures HeadAfter(head, es).bytes == HeadBytes(LastTimecode(es, head.start))
    decreases |es|
  {
    hide HeadBytes;
    if es != [] {
      HeadAfterShape(HeadStep(head, es[0]), es[1..]);
    }
  }

  /** A chunk's bytes are its normal segment, written. */
  lemma SegmentBytes(segment: Segment)
    ensures ChunkBytes(ChunkOf(segment)) == EncodeAll(SegmentEvents(Normal(segment)))
  {
    match segment
    case HeaderRun(es) =>
    case ClusterRun(es) =>
      HeadAfterShape(NewHead(0), es);
      var t, body := LastTimecode(es, 0), Body(es);
      var all := [Cluster] + ([Timecode(t)] + body);
      hide Written;
      assert all[1..] == [Timecode(t)] + body;
      assert all[1..][1..] == body;
      BytesAssociative(Written(Cluster), Written(Timecode(t)), EncodeAll(body));
  }

  lemma {:induction false} BytesOfChunks(segments: seq<Segment>)
    ensures AllBytesOf(SegmentChunks(segments)) == EncodeAll(ToEvents(Normals(segments)))
  {
    hide ChunkOf, ChunkBytes, Written;
    if segments != [] {
      SegmentBytes(segments[0]);
      BytesOfChunks(segments[1..]);
      EncodeAllAppend(SegmentEvents(Normal(segments[0])), ToEvents(Normals(segments[1..])));
      assert Normals(segments)[1..] == Normals(segments[1..]);
      assert SegmentChunks(segments)[1..] == SegmentChunks(segments[1..]);
    }
  }

  lemma OutputOfChunks(segments: seq<Segment>)
    ensures Output(ChunksOf(segments)) == EncodeAll(ToEvents(Normals(segments)))
  {
    OkChunksOf(segments);
    BytesOfChunks(segments);
  }

  /** Elements that read back from what they were written as. */
  predicate Readable(e: WebmElement) {
    Encodable(e) && !WritesNothing(e)
  }

  lemma ReadableAccepted(es: seq<WebmElement>)
    requires forall e :: e in es ==> Readable(e)
    ensures AllAccepted(es) && forall e :: e in es ==> Encodable(e) && !WritesNothing(e)
  {
  }

  lemma NormalSegmentReadable(segment: Segment)
    requires AllAccepted(segment.elements)
    ensures forall e :: e in SegmentEvents(Normal(segment)) ==> Readable(e)
  {
    KeptKinds(segment.elements);
    BodyKinds(segment.elements);
  }

  lemma {:induction false} NormalElements(segments: seq<Segment>)
    requires AllAccepted(ToEvents(segments))
    ensures forall e :: e in ToEvents(Normals(segments)) ==> Readable(e)
  {
    hide Readable, Accepted;
    if segments != [] {
      var first, rest := segments[0], segments[1..];
      assert ToEvents(segments) == SegmentEvents(first) + ToEvents(rest);
      assert forall e :: e in first.elements ==> e in SegmentEvents(first) && e in ToEvents(segments);
      assert forall e :: e in ToEvents(rest) ==> e in ToEvents(segments);
      NormalElements(rest);
      NormalSegmentReadable(first);
      ToEventsCons(Normal(first), Normals(rest));
      hide ToEvents;
      assert Normals(segments) == [Normal(first)] + Normals(rest);
    }
  }

  lemma SegmentsAccepted(es: seq<WebmElement>)
    requires AllAccepted(es)
    ensures AllAccepted(ToEvents(HeaderSegments(es)))
  {
    var rest := HeaderSegmentsCover(es);
    forall e | e in ToEvents(HeaderSegments(es))
      ensures Accepted(e)
    {
      assert e in ToEvents(HeaderSegments(es)) + rest;
    }
  }

  /** The chunker preserves meaning: for every sequence of acceptable elements, the bytes of all
      chunks read back as the normal form of the sequence. */
  lemma {:induction false} ChunkerPreservesMeaning(es: seq<WebmElement>)
    requires AllAccepted(es)
    ensures Events(Output(Fold(BuildingHeader([]), Oks(es), None))) == Oks(NormalForm(es))
  {
    HeaderChunks(es);
    OutputOfChunks(HeaderSegments(es));
    SegmentsAccepted(es);
    NormalElements(HeaderSegments(es));
    ReadableAccepted(NormalForm(es));
    EventsOfEncoded(NormalForm(es));
  }

  /** Chunking what was chunked gives the same bytes. */
  lemma {:induction false} RechunkingChangesNothing(es: seq<WebmElement>)
    requires AllAccepted(es)
    ensures var bytes := Output(Fold(BuildingHeader([]), Oks(es), None));
            Output(Fold(BuildingHeader([]), Events(bytes), None)) == bytes
  {
    ChunkerPreservesMeaning(es);
    HeaderChunks(es);
    OutputOfChunks(HeaderSegments(es));
    NormalFormAccepted(es);
    HeaderChunks(NormalForm(es));
    OutputOfChunks(HeaderSegments(NormalForm(es)));
    NormalFormIdempotent(es);
  }

  lemma NormalFormAccepted(es: seq<WebmElement>)
    requires AllAccepted(es)
    ensures AllAccepted(NormalForm(es))
  {
    SegmentsAccepted(es);
    NormalElements(HeaderSegments(es));
    ReadableAccepted(NormalForm(es));
  }

  // ----- When the chunker refuses -----

  predicate AllOk(outs: seq<Out>) {
    forall out :: out in outs ==> out.Ok?
  }

  lemma RefusedElement(s: ChunkerState, e: WebmElement)
    requires !s.End?
    ensures var (s', out) := OnElement(s, e, None);
            if Accepted(e) then !s'.End? && (out.Some? ==> out.value.Ok?)
            else s'.End? && out == Some(Err(IoFailure(WriteErrorOf(e))))
  {
    WebmRoundTrip(e, []);
    hide WebmBytes, HeadBytes, Observed, UpdatedTimecode, DecodeElement;
  }

  function WriteErrorOf(e: WebmElement): WriteError {
    match WebmBytes(e)
    case Err(error) => error
    case Ok(_) => OutOfRange
  }

  /** Without a limit the chunker fails exactly on sequences with an element that it does not accept. */
  lemma {:induction false} FailsExactlyOnRefused(s: ChunkerState, es: seq<WebmElement>)
    requires !s.End?
    ensures AllOk(Fold(s, Oks(es), None)) <==> AllAccepted(es)
    decreases |es|
  {
    hide Accepted, OnElement, WriteErrorOf;
    if es != [] {
      assert es[0] in es;
      RefusedElement(s, es[0]);
      var (s', out) := OnElement(s, es[0], None);
      var rest := Fold(s', Oks(es[1..]), None);
      assert Oks(es)[1..] == Oks(es[1..]);
      assert Fold(s, Oks(es), None) == Reported(out) + rest;
      if s'.End? {
        assert Reported(out)[0] in Reported(out) + rest;
      } else {
        FailsExactlyOnRefused(s', es[1..]);
        assert AllAccepted(es) <==> Accepted(es[0]) && AllAccepted(es[1..]);
      }
    }
  }

  /** What was read from bytes is acceptable but for SimpleBlocks of tracks above 31. */
  lemma {:induction false} ReadElementsAccepted(bytes: seq<byte>, es: seq<WebmElement>)
    requires Events(bytes) == Oks(es)
    ensures AllAccepted(es) <==> forall e :: e in es && e.Block? ==> e.block.track <= 31
    decreases |es|
  {
    hide CheckSpace, Decode;
    if es != [] {
      assert Oks(es)[0] == Ok(es[0]) && Oks(es)[1..] == Oks(es[1..]);
      assert Events(bytes)[0] == Ok(es[0]);
      assert CheckSpace(bytes).Ok? && CheckSpace(bytes).value.Some?;
      var info := CheckSpace(bytes).value.value;
      assert Events(bytes) == [Lift(DecodeAt(bytes, info))] + Events(bytes[info.elementLen..]);
      assert Events(bytes[info.elementLen..]) == Events(bytes)[1..];
      DecodedEncodable(bytes);
      ReadElementsAccepted(bytes[info.elementLen..], es[1..]);
      assert AllAccepted(es) <==> Accepted(es[0]) && AllAccepted(es[1..]);
    }
  }

  // ----- From the source on -----

  lemma {:induction false} OkChunksAppend(a: seq<Out>, b: seq<Out>)
    ensures OkChunks(a + b) == OkChunks(a) + OkChunks(b)
  {
    if a == [] {
      assert a + b == b;
    } else {
      var first := if a[0].Ok? then [a[0].value] else [];
      var rest, last := OkChunks(a[1..]), OkChunks(b);
      assert (a + b)[1..] == a[1..] + b;
      assert OkChunks(a + b) == first + OkChunks(a[1..] + b);
      OkChunksAppend(a[1..], b);
      assert OkChunks(a) == first + rest;
      hide OkChunks;
      assert first + (rest + last) == (first + rest) + last;
    }
  }

  /** Failures of the source change nothing about the chunks. */
  lemma {:induction false} FailuresPassThrough(s: ChunkerState, items: seq<Item>, limit: Option<nat>)
    ensures OkChunks(Fold(s, items, limit)) == OkChunks(Fold(s, OwnItems(items), limit))
    decreases |items|
  {
    hide OnElement, OnEnd, OkChunks;
    if items != [] && !s.End? {
      var (s', outs) := OnItem(s, items[0], limit);
      FailuresPassThrough(s', items[1..], limit);
      OwnItemsCons(items[0], items[1..]);
      assert items == [items[0]] + items[1..];
      OkChunksAppend(outs, Fold(s', items[1..], limit));
      if IsOwn(items[0]) {
        OkChunksAppend(outs, Fold(s', OwnItems(items[1..]), limit));
        assert OwnItems(items)[1..] == OwnItems(items[1..]);
        hide OnItem, OwnItems;
      } else {
        FailureAlone(items[0].error);
        assert [] + OwnItems(items[1..]) == OwnItems(items[1..]);
        assert Fold(s, items, limit) == outs + Fold(s', items[1..], limit);
        hide OwnItems;
        assert [] + OkChunks(Fold(s', items[1..], limit)) == OkChunks(Fold(s', items[1..], limit));
      }
    }
  }

  lemma FailureAlone(e: WebmetroError)
    ensures OkChunks([Err(e)]) == []
  {
  }

  /** The elements among the items. */
  function Values(items: seq<Item>): seq<WebmElement> {
    if items == [] then [] else (if items[0].Ok? then [items[0].value] else []) + Values(items[1..])
  }

  /** Errors come out in their place and leave the chunker as it was, be they failures of the source
      or payloads that could not be decoded. */
  lemma ErrorsInPlace(s: ChunkerState, e: WebmetroError, items: seq<Item>, limit: Option<nat>)
    requires !s.End?
    ensures Fold(s, [Err(e)] + items, limit) == [Err(e)] + if Terminal(Err(e)) then [] else Fold(s, items, limit)
  {
    assert ([Err(e)] + items)[1..] == items;
  }

  /** So, unless one stops the parser, they change nothing about the chunks. */
  lemma {:induction false} ErrorsPassThrough(s: ChunkerState, items: seq<Item>, limit: Option<nat>)
    requires forall item :: item in items ==> !Terminal(item)
    ensures OkChunks(Fold(s, items, limit)) == OkChunks(Fold(s, Oks(Values(items)), limit))
    decreases |items|
  {
    hide OnElement, OnEnd, OkChunks, Terminal;
    if items != [] && !s.End? {
      assert items[0] in items;
      var (s', outs) := OnItem(s, items[0], limit);
      ErrorsPassThrough(s', items[1..], limit);
      OkChunksAppend(outs, Fold(s', items[1..], limit));
      if items[0].Ok? {
        assert Oks(Values(items))[1..] == Oks(Values(items[1..]));
        OkNotTerminal(items[0]);
        OkChunksAppend(outs, Fold(s', Oks(Values(items[1..])), limit));
      } else {
        FailureAlone(items[0].error);
        assert [] + Values(items[1..]) == Values(items[1..]);
        assert [] + OkChunks(Fold(s', items[1..], limit)) == OkChunks(Fold(s', items[1..], limit));
      }
    }
  }

  lemma OkNotTerminal(item: Item)
    ensures item.Ok? ==> !Terminal(Ok(item.value))
  {
  }

  /** The chunks of an upload depend on its bytes only, not on how they arrive. */
  lemma {:induction false} ChunksOfBytes(p: ParserState, limit: Option<nat>)
    requires p.limit.None?
    ensures OkChunks(ChunkRun(p, BuildingHeader([]), limit))
         == OkChunks(Fold(BuildingHeader([]), Events(AllBytes(p)), limit))
  {
    hide *;
    ChunkRunIsFold(p, BuildingHeader([]), limit);
    FailuresPassThrough(BuildingHeader([]), Run(p), limit);
    CuttingDoesNotMatter(p);
  }

  /** From pieces to meaning: the chunks of any arrival of `bytes` read back as its normal form. */
  lemma {:induction false} UploadPreservesMeaning(p: ParserState, es: seq<WebmElement>)
    requires p.limit.None? && Events(AllBytes(p)) == Oks(es)
    requires forall e :: e in es && e.Block? ==> e.block.track <= 31
    ensures Events(Output(ChunkRun(p, BuildingHeader([]), None))) == Oks(NormalForm(es))
  {
    ReadElementsAccepted(AllBytes(p), es);
    ChunksOfBytes(p, None);
    ChunkerPreservesMeaning(es);
  }
}
