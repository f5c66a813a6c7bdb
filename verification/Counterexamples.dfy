/** Inputs on which what one might expect of the filter fails. */
module Counterexamples {
  import opened Wrappers
  import opened Bytes
  import opened Ebml
  import opened Webm
  import opened Iterators
  import opened Chunks
  import opened NormalForms
  import opened Meaning
  import opened Fixers
  import opened Stopping
  import opened Pipeline
  import opened Idempotence

  /** A block dated before 0. */
  const EARLY_BLOCK: WebmElement := Block(SimpleBlock(1, -1, 0, []))

  /** A stream of two clusters: the first has the early block and a Timecode that makes up for it,
      in one order or the other. */
  function EarlySegments(first: seq<WebmElement>): seq<Segment> {
    [HeaderRun([]), ClusterRun(first), ClusterRun([Timecode(4)])]
  }

  const BLOCK_FIRST: seq<WebmElement> := [EARLY_BLOCK, Timecode(5)]
  const TIME_FIRST: seq<WebmElement> := [Timecode(5), EARLY_BLOCK]

  lemma ThreeSegments(a: Segment, b: Segment, c: Segment)
    ensures ToEvents([a, b, c]) == SegmentEvents(a) + (SegmentEvents(b) + SegmentEvents(c))
  {
    ToEventsCons(c, []);
    ToEventsCons(b, [c]);
    ToEventsCons(a, [b, c]);
    assert [b] + [c] == [b, c] && [a] + [b, c] == [a, b, c] && [c] + [] == [c];
  }

  lemma EarlySegmentation(first: seq<WebmElement>)
    requires first == BLOCK_FIRST || first == TIME_FIRST
    ensures HeaderShape(EarlySegments(first))
    ensures HeaderSegments(ToEvents(EarlySegments(first))) == EarlySegments(first)
  {
    var segments := EarlySegments(first);
    assert segments[1..] == [ClusterRun(first), ClusterRun([Timecode(4)])];
    assert segments[1..][1..] == [ClusterRun([Timecode(4)])];
    HeaderSegmentsRoundTrip(segments);
    hide HeaderSegments, ToEvents;
  }

  lemma EarlyAccepted(first: seq<WebmElement>)
    requires first == BLOCK_FIRST || first == TIME_FIRST
    ensures AllAccepted(ToEvents(EarlySegments(first)))
    ensures Events(EncodeAll(ToEvents(EarlySegments(first)))) == Oks(ToEvents(EarlySegments(first)))
  {
    ThreeSegments(HeaderRun([]), ClusterRun(first), ClusterRun([Timecode(4)]));
    hide ToEvents;
    EventsOfEncoded(ToEvents(EarlySegments(first)));
  }

  lemma HeadAfterOne(head: Head, e: WebmElement)
    ensures HeadAfter(head, [e]) == HeadStep(head, e)
  {
    hide HeadStep;
    assert [e][1..] == [];
  }

  /** With the block first, the cluster's end comes out before its start. */
  lemma EarlyHeads(first: seq<WebmElement>)
    requires first == BLOCK_FIRST || first == TIME_FIRST
    ensures HeadAfter(NewHead(0), first) == Head(false, 5, if first == BLOCK_FIRST then 4 else 5, HeadBytes(5))
    ensures HeadAfter(NewHead(0), [Timecode(4)]) == Head(false, 4, 4, HeadBytes(4))
  {
    hide HeadBytes;
    assert first[1..] == [first[1]];
    HeadAfterOne(HeadStep(NewHead(0), first[0]), first[1]);
    HeadAfterOne(NewHead(0), Timecode(4));
    hide HeadAfter;
  }

  lemma FixThree(a: Segment, b: Segment, c: Segment)
    ensures var f := Process(FRESH_FIXER, ChunkOf(a)).0;
            var f' := Process(f, ChunkOf(b)).0;
            FixSegments(FRESH_FIXER, [a, b, c])
              == [FixedSegment(FRESH_FIXER, a), FixedSegment(f, b), FixedSegment(f', c)]
  {
    hide Process, FixedSegment, ChunkOf;
    var f := Process(FRESH_FIXER, ChunkOf(a)).0;
    var f' := Process(f, ChunkOf(b)).0;
    assert [a, b, c][1..] == [b, c] && [b, c][1..] == [c] && [c][1..] == [];
    assert FixSegments(f', [c]) == [FixedSegment(f', c)];
    assert FixSegments(f, [b, c]) == [FixedSegment(f, b), FixedSegment(f', c)];
  }

  lemma LastOfOne(e: WebmElement, default: u64)
    ensures LastTimecode([e], default) == if e.Timecode? then e.time else default
    ensures Body([e]) == if IsKept(e) && !e.Timecode? then [e] else []
  {
    assert [e][1..] == [];
  }

  lemma NormalOfTwo(a: WebmElement, b: WebmElement)
    ensures LastTimecode([a, b], 0) == if b.Timecode? then b.time else if a.Timecode? then a.time else 0
    ensures Body([a, b])
         == (if IsKept(a) && !a.Timecode? then [a] else []) + (if IsKept(b) && !b.Timecode? then [b] else [])
  {
    assert [a, b][1..] == [b];
    LastOfOne(b, if a.Timecode? then a.time else 0);
  }

  lemma BlockFirstBody()
    ensures Body(BLOCK_FIRST) == [EARLY_BLOCK] && [Timecode(5)] + Body(BLOCK_FIRST) == TIME_FIRST
    ensures Body([Timecode(4)]) == [] && [Timecode(4)] + Body([Timecode(4)]) == [Timecode(4)]
  {
    NormalOfTwo(EARLY_BLOCK, Timecode(5));
    LastOfOne(Timecode(4), 0);
    hide Body;
    assert [Timecode(5)] + [EARLY_BLOCK] == TIME_FIRST;
  }

  /** The first pass: nothing is moved, but the Timecode comes first now. */
  lemma EarlyFixed()
    ensures FixSegments(FRESH_FIXER, EarlySegments(BLOCK_FIRST)) == EarlySegments(TIME_FIRST)
  {
    EarlyHeads(BLOCK_FIRST);
    BlockFirstBody();
    hide HeadAfter, HeadBytes, Body, NewHead, FixSegments;
    var h, a, b := HeaderRun([]), ClusterRun(BLOCK_FIRST), ClusterRun([Timecode(4)]);
    FixThree(h, a, b);
    assert Process(FRESH_FIXER, ChunkOf(h)).0 == FRESH_FIXER;
    assert Process(FRESH_FIXER, ChunkOf(a)).0 == FixerState(0, 4);
    assert FixedSegment(FRESH_FIXER, a) == ClusterAt(5, Body(BLOCK_FIRST));
    assert FixedSegment(FixerState(0, 4), b) == ClusterAt(4, Body([Timecode(4)]));
    assert FixedSegment(FRESH_FIXER, h) == h;
  }

  /** The second pass finds that the first cluster ends at its start, behind the second's. */
  lemma EarlyMoved()
    ensures !Unmoved(0, SegmentChunks(EarlySegments(TIME_FIRST)))
  {
    EarlyHeads(TIME_FIRST);
    hide HeadAfter, HeadBytes, Body, NewHead, Kept, EncodeAll, Unmoved;
    var h, a, b := HeaderRun([]), ClusterRun(TIME_FIRST), ClusterRun([Timecode(4)]);
    assert ChunkOf(a).head.end == 5 && ChunkOf(b).head.start == 4;
    ThreeChunks(h, a, b);
    hide SegmentChunks, ChunkOf;
    SecondMoved(ChunkOf(h), ChunkOf(a), ChunkOf(b));
  }

  lemma ThreeChunks(a: Segment, b: Segment, c: Segment)
    ensures SegmentChunks([a, b, c]) == [ChunkOf(a), ChunkOf(b), ChunkOf(c)]
  {
    hide ChunkOf;
  }

  lemma SecondMoved(h: Chunk, a: Chunk, b: Chunk)
    requires h.Headers? && a.ClusterChunk? && b.ClusterChunk?
    requires b.head.start < a.head.end && a.head.end + 33 < U64_LIMIT
    ensures !Unmoved(0, [h, a, b])
  {
    assert [h, a, b][1..] == [a, b] && [a, b][1..] == [b];
    assert !Unmoved(a.head.end, [b]);
    assert !Unmoved(0, [a, b]);
  }

  /** A block dated before 0 ahead of its cluster's Timecode makes the cluster end before it starts.
      The filter's output has the Timecode first and so ends later when it is filtered again, which
      then moves the next cluster: the second pass differs from the first. */
  lemma {:induction false} EarlyBlockBreaksIdempotence()
    ensures var bytes := EncodeAll(ToEvents(EarlySegments(BLOCK_FIRST)));
            Filter(Filter(bytes)) != Filter(bytes)
  {
    hide *;
    var es := ToEvents(EarlySegments(BLOCK_FIRST));
    var bytes := EncodeAll(es);
    EarlyAccepted(BLOCK_FIRST);
    EarlySegmentation(BLOCK_FIRST);
    FilterOfReadable(bytes, es);
    FilterUnfold(bytes);
    EarlyFixed();
    EarlyMoved();
    FilterIdempotentExactly(bytes);
  }

  /** A header run and a Cluster, and then a byte that no element begins with. */
  const CUT_OFF: seq<byte> := EncodeAll([EbmlHead, Cluster]) + [0]

  lemma CutOffEvents()
    ensures Events(CUT_OFF) == [Ok(EbmlHead), Ok(Cluster), Err(EbmlFailure(CorruptVarint))]
  {
    hide WebmBytes, Decode, CheckSpace;
    WebmRoundTrip(EbmlHead, Written(Cluster) + [0]);
    WebmRoundTrip(Cluster, [0]);
    assert [EbmlHead, Cluster][1..] == [Cluster] && [Cluster][1..] == [];
    assert EncodeAll([Cluster]) == Written(Cluster) + [];
    assert CUT_OFF == Written(EbmlHead) + (Written(Cluster) + [0]);
    var rest := Written(Cluster) + [0];
    assert CUT_OFF[|Written(EbmlHead)|..] == rest;
    assert rest[|Written(Cluster)|..] == [0];
    assert CheckSpace([0]) == Err(CorruptVarint) by {
      ZeroByte();
    }
    assert Events([0]) == [Err(EbmlFailure(CorruptVarint))];
    assert Events(rest) == [Ok(Cluster)] + Events([0]);
    assert Events(CUT_OFF) == [Ok(EbmlHead)] + Events(rest);
  }

  lemma ZeroByte()
    ensures CheckSpace([0]) == Err(CorruptVarint)
  {
  }

  /** The other half of the condition: an error behind the first Cluster leaves a header run alone,
      which a second pass drops. */
  lemma {:induction false} CutOffHeadersBreakIdempotence()
    ensures OpenRun(FixedSegments(CUT_OFF)) == [EbmlHead]
    ensures Filter(Filter(CUT_OFF)) == [] != Filter(CUT_OFF)
  {
    hide *;
    CutOffEvents();
    CutOffSegments();
    FilterUnfold(CUT_OFF);
    CutOffFixed();
    FilterIdempotentExactly(CUT_OFF);
    SecondPass(CUT_OFF);
    FilterReads(Filter(CUT_OFF));
    FilterUnfold(Filter(CUT_OFF));
    NothingFiltered();
  }

  lemma CutOffSegments()
    ensures SegmentsBeforeError([Ok(EbmlHead), Ok(Cluster), Err(EbmlFailure(CorruptVarint))]) == [HeaderRun([EbmlHead])]
  {
    var items: seq<Item> := [Ok(EbmlHead), Ok(Cluster), Err(EbmlFailure(CorruptVarint))];
    assert items[1..][1..] == [Err(EbmlFailure(CorruptVarint))];
    assert ReadPart(items[1..][1..]) == [];
    assert ReadPart(items[1..]) == [Cluster];
    assert ReadPart(items) == [EbmlHead, Cluster];
    var es := [EbmlHead, Cluster];
    hide ReadPart;
    assert es[1..] == [Cluster] && es[1..][1..] == [] && es[..1] == [EbmlHead];
    assert FirstCluster(es) == 1;
    assert HeaderSegments(es) == [HeaderRun([EbmlHead])] + ClusterSegments([]);
    assert ClusterSegments([]) == [ClusterRun([])] + NextSegments([]);
    assert InCluster([], true) && InCluster([Cluster], false) && InCluster(es, false);
  }

  lemma NothingFiltered()
    ensures Closed([HeaderRun([EbmlHead])]) == []
    ensures AllBytesOf(FixAll(FRESH_FIXER, SegmentChunks([]))) == []
  {
  }

  lemma CutOffFixed()
    ensures FixSegments(FRESH_FIXER, [HeaderRun([EbmlHead])]) == [HeaderRun([EbmlHead])]
    ensures OpenRun([HeaderRun([EbmlHead])]) == [EbmlHead]
  {
    FixedOpenRun(FRESH_FIXER, HeaderRun([EbmlHead]));
    assert [EbmlHead][1..] == [];
    assert Kept([EbmlHead]) == [EbmlHead];
  }

  // ----- Times that run backwards -----

  /** A block 20 after its cluster's start. */
  const LATER_BLOCK: WebmElement := Block(SimpleBlock(1, 20, 0, []))

  /** Three clusters of ordinary blocks, the first two of them at the end of time. */
  function WrappingSegments(): seq<Segment> {
    [HeaderRun([]), ClusterAt(U64_LIMIT - 40, []), ClusterAt(U64_LIMIT - 50, [LATER_BLOCK]), ClusterAt(20, [])]
  }

  /** Its clusters' chunks. */
  function WrappingClusters(): seq<Chunk> {
    [PlainCluster(U64_LIMIT - 40, U64_LIMIT - 40, EncodeAll([])),
     PlainCluster(U64_LIMIT - 50, U64_LIMIT - 30, EncodeAll([LATER_BLOCK])),
     PlainCluster(20, 20, EncodeAll([]))]
  }

  /** The same when they have been fixed: the second one's end has wrapped around. */
  function WrappedClusters(): seq<Chunk> {
    [PlainCluster(U64_LIMIT - 40, U64_LIMIT - 40, EncodeAll([])),
     PlainCluster(U64_LIMIT - 7, 13, EncodeAll([LATER_BLOCK])),
     PlainCluster(63, 63, EncodeAll([]))]
  }

  lemma BareCluster(time: u64)
    ensures ChunkOf(ClusterAt(time, [])) == PlainCluster(time, time, EncodeAll([]))
  {
    NormalClusterChunk(time, []);
    hide HeadBytes, ChunkOf, ClusterAt;
  }

  lemma LaterCluster()
    ensures ChunkOf(ClusterAt(U64_LIMIT - 50, [LATER_BLOCK]))
         == PlainCluster(U64_LIMIT - 50, U64_LIMIT - 30, EncodeAll([LATER_BLOCK]))
  {
    NormalClusterChunk(U64_LIMIT - 50, [LATER_BLOCK]);
    assert [LATER_BLOCK][1..] == [] && LastNoted(U64_LIMIT - 50, [], 20) == 20;
    hide HeadBytes, ChunkOf, ClusterAt, EncodeAll;
  }

  lemma WrappingChunks()
    ensures SegmentChunks(WrappingSegments()) == [Headers([])] + WrappingClusters()
  {
    BareCluster(U64_LIMIT - 40);
    LaterCluster();
    BareCluster(20);
    assert ChunkOf(HeaderRun([])) == Headers([]);
    hide ChunkOf, EncodeAll, ClusterAt, PlainCluster;
    FourChunks(HeaderRun([]), ClusterAt(U64_LIMIT - 40, []),
               ClusterAt(U64_LIMIT - 50, [LATER_BLOCK]), ClusterAt(20, []));
    hide SegmentChunks;
  }

  lemma FourChunks(a: Segment, b: Segment, c: Segment, d: Segment)
    ensures SegmentChunks([a, b, c, d]) == [ChunkOf(a)] + [ChunkOf(b), ChunkOf(c), ChunkOf(d)]
  {
    hide ChunkOf;
  }

  lemma WrappingShape()
    ensures HeaderShape(WrappingSegments())
  {
    var segments := WrappingSegments();
    hide ToEvents;
    forall i | 0 <= i < |segments|
      ensures SegmentOk(segments, i)
    {
    }
  }

  lemma WrappingElements()
    ensures forall e :: e in ToEvents(WrappingSegments()) ==> Readable(e)
  {
    var a, b, c := ClusterAt(U64_LIMIT - 40, []), ClusterAt(U64_LIMIT - 50, [LATER_BLOCK]), ClusterAt(20, []);
    assert forall e :: e in SegmentEvents(a) || e in SegmentEvents(b) || e in SegmentEvents(c) ==> Readable(e);
    hide Readable, ClusterAt;
    ToEventsCons(HeaderRun([]), [a, b, c]);
    ThreeSegments(a, b, c);
    assert WrappingSegments() == [HeaderRun([])] + [a, b, c];
  }

  lemma HeadersPass(bytes: seq<byte>, chunks: seq<Chunk>)
    ensures FixAll(FRESH_FIXER, [Headers(bytes)] + chunks) == [Headers(bytes)] + FixAll(FRESH_FIXER, chunks)
  {
    assert ([Headers(bytes)] + chunks)[1..] == chunks;
  }

  /** An upload on which the filter's output goes back in time, although no cluster ends before it
      starts and every new time is below 2^64. */
  lemma {:induction false} WrappedEndInFilter()
    ensures var chunks := FilterChunks(EncodeAll(ToEvents(WrappingSegments())));
            chunks == [Headers([])] + WrappedClusters() && !Monotone(chunks, 0)
  {
    WrappedEndBreaksOrder(EncodeAll([]), EncodeAll([LATER_BLOCK]), EncodeAll([]));
    assert FixAll(FRESH_FIXER, WrappingClusters()) == WrappedClusters() && !Monotone(WrappedClusters(), 0);
    hide *;
    var es := ToEvents(WrappingSegments());
    var bytes := EncodeAll(es);
    WrappingShape();
    WrappingElements();
    WrappingChunks();
    ReadableAccepted(es);
    EventsOfEncoded(es);
    HeaderSegmentsRoundTrip(WrappingSegments());
    FilterOfReadable(bytes, es);
    FilterReads(bytes);
    HeadersPass([], WrappingClusters());
    MonotoneBehind(Headers([]), WrappedClusters());
  }

  lemma MonotoneBehind(c: Chunk, chunks: seq<Chunk>)
    requires c.Headers?
    ensures Monotone([c] + chunks, 0) ==> Monotone(chunks, 0)
  {
    if Monotone([c] + chunks, 0) {
      MonotoneTail([c] + chunks, 0);
      assert ([c] + chunks)[1..] == chunks;
    }
  }
}
