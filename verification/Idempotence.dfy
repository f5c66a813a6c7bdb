/** Filtering what was filtered: when the second pass changes nothing. */
module Idempotence {
  import opened Wrappers
  import opened Bytes
  import opened Webm
  import opened Iterators
  import opened Chunks
  import opened NormalForms
  import opened Meaning
  import opened Fixers
  import opened Stopping
  import opened Pipeline

  // ----- Filtering twice -----

  /** The fixer would leave the time of every cluster as it is: none begins before the last one ended,
      or else it is put back on its own time by a sum that wraps around to it. */
  predicate Unmoved(last: u64, chunks: seq<Chunk>)
    decreases |chunks|
  {
    chunks == [] ||
    if chunks[0].ClusterChunk? then
      && (last <= chunks[0].head.start || last + ASSUMED_DURATION == chunks[0].head.start + U64_LIMIT)
      && Unmoved(chunks[0].head.end, chunks[1..])
    else Unmoved(last, chunks[1..])
  }

  lemma FixedSame(last: u64, segment: Segment)
    requires Normal(segment) == segment
    ensures var f, c := FixerState(0, last), ChunkOf(segment);
            if c.ClusterChunk? then
              && (FixedSegment(f, segment) == segment <==>
                    last <= c.head.start || last + ASSUMED_DURATION == c.head.start + U64_LIMIT)
              && (FixedSegment(f, segment) == segment ==> Process(f, c).0 == FixerState(0, c.head.end))
            else FixedSegment(f, segment) == segment && Process(f, c).0 == f
  {
    if segment.ClusterRun? {
      ClusterIsCanonical(segment.elements);
      EndFromDuration(ChunkOf(segment).head);
      hide ChunkOf, HeadBytes, LastTimecode, Body, LastNoted, EncodeAll;
      assert segment.elements == [Timecode(LastTimecode(segment.elements, 0))] + Body(segment.elements);
      var t' := Process(FixerState(0, last), ChunkOf(segment)).1.head.start;
      TimecodeFirst(t', LastTimecode(segment.elements, 0), Body(segment.elements));
    }
  }

  lemma TimecodeFirst(a: u64, b: u64, body: seq<WebmElement>)
    ensures [Timecode(a)] + body == [Timecode(b)] + body <==> a == b
  {
    if a != b {
      assert ([Timecode(a)] + body)[0] != ([Timecode(b)] + body)[0];
    }
  }

  /** Fixing normal segments changes nothing exactly if no chunk is moved. */
  lemma {:induction false} UnmovedExactly(last: u64, segments: seq<Segment>)
    requires Normals(segments) == segments
    ensures FixSegments(FixerState(0, last), segments) == segments <==> Unmoved(last, SegmentChunks(segments))
    decreases |segments|
  {
    hide Process, FixedSegment, Normal, ChunkOf;
    if segments != [] {
      var f, first, rest := FixerState(0, last), segments[0], segments[1..];
      FixedSame(last, first);
      assert Normals(rest) == rest by {
        assert Normals(segments)[1..] == Normals(rest);
      }
      assert SegmentChunks(segments)[1..] == SegmentChunks(rest);
      if FixedSegment(f, first) == first {
        var last' := if first.ClusterRun? then ChunkOf(first).head.end else last;
        UnmovedExactly(last', rest);
        assert FixSegments(f, segments)[1..] == FixSegments(FixerState(0, last'), rest);
      } else {
        assert FixSegments(f, segments)[0] != segments[0];
      }
    }
  }

  lemma {:induction false} UnmovedClosed(last: u64, segments: seq<Segment>)
    ensures Unmoved(last, SegmentChunks(Closed(segments))) <==> Unmoved(last, SegmentChunks(segments))
    decreases |segments|
  {
    hide ChunkOf;
    if |segments| == 1 {
      assert segments[1..] == [];
    } else if |segments| > 1 {
      var rest := segments[1..];
      assert SegmentChunks(segments)[1..] == SegmentChunks(rest);
      assert Closed(segments)[1..] == Closed(rest);
      assert SegmentChunks(Closed(segments))[1..] == SegmentChunks(Closed(rest));
      UnmovedClosed(if segments[0].ClusterRun? then ChunkOf(segments[0]).head.end else last, rest);
    }
  }

  lemma FixedSameLength(f: FixerState, segment: Segment)
    requires Normal(segment) == segment
    ensures |SegmentEvents(FixedSegment(f, segment))| == |SegmentEvents(segment)|
  {
    ProcessKind(f, ChunkOf(segment));
    hide Process, ChunkOf, LastTimecode;
    if segment.ClusterRun? {
      assert segment.elements == [Timecode(LastTimecode(segment.elements, 0))] + Body(segment.elements);
    }
  }

  lemma {:induction false} SameLength(f: FixerState, segments: seq<Segment>)
    requires Normals(segments) == segments
    ensures |ToEvents(FixSegments(f, segments))| == |ToEvents(segments)|
    decreases |segments|
  {
    hide Process, ChunkOf, Normal;
    if segments != [] {
      var f' := Process(f, ChunkOf(segments[0])).0;
      assert Normals(segments)[1..] == Normals(segments[1..]);
      SameLength(f', segments[1..]);
      FixedSameLength(f, segments[0]);
      hide FixedSegment, SegmentEvents;
      assert FixSegments(f, segments)[1..] == FixSegments(f', segments[1..]);
    }
  }

  lemma {:induction false} OksInjective(a: seq<WebmElement>, b: seq<WebmElement>)
    requires Oks(a) == Oks(b)
    ensures a == b
  {
    if a != [] {
      assert Oks(a)[0] == Ok(a[0]) && Oks(b)[0] == Ok(b[0]);
      assert Oks(a)[1..] == Oks(a[1..]) && Oks(b)[1..] == Oks(b[1..]);
      OksInjective(a[1..], b[1..]);
    }
  }

  lemma NormalsOfClosed(segments: seq<Segment>)
    requires Normals(segments) == segments
    ensures Normals(Closed(segments)) == Closed(segments)
  {
    hide Normal;
  }

  lemma SameWithRun(a: seq<WebmElement>, b: seq<WebmElement>, run: seq<WebmElement>)
    requires |a| == |b|
    ensures b == a + run <==> run == [] && b == a
  {
    assert run == [] ==> a + run == a;
  }

  /** What the second pass finds, said of segments. */
  lemma {:induction false} SameEventsExactly(segments: seq<Segment>)
    requires PrefixShape(segments) && Normals(segments) == segments
    ensures ToEvents(FixSegments(FRESH_FIXER, Closed(segments))) == ToEvents(segments) <==>
              OpenRun(segments) == [] && Unmoved(0, SegmentChunks(segments))
  {
    var closed := Closed(segments);
    assert HeaderShape(closed);
    hide *;
    var fixed := FixSegments(FRESH_FIXER, closed);
    ClosedAndOpen(segments);
    NormalsOfClosed(segments);
    SameLength(FRESH_FIXER, closed);
    SameWithRun(ToEvents(closed), ToEvents(fixed), OpenRun(segments));
    assert ToEvents(fixed) == ToEvents(closed) <==> fixed == closed by {
      FixSegmentsShape(FRESH_FIXER, closed);
      HeaderSegmentsRoundTrip(closed);
      HeaderSegmentsRoundTrip(fixed);
    }
    assert fixed == closed <==> Unmoved(0, SegmentChunks(segments)) by {
      UnmovedExactly(0, closed);
      UnmovedClosed(0, segments);
    }
  }

  /** For every input at all: filtering twice is filtering once, byte for byte, exactly if the output
      does not end in a header run, cut off from its cluster by an error, and none of its clusters
      would be moved again. */
  lemma {:induction false} FilterIdempotentExactly(bytes: seq<byte>)
    ensures Filter(Filter(bytes)) == Filter(bytes) <==>
              OpenRun(FixedSegments(bytes)) == [] && Unmoved(0, SegmentChunks(FixedSegments(bytes)))
  {
    hide *;
    var fixed := FixedSegments(bytes);
    FilterReads(bytes);
    FilterReads(Filter(bytes));
    SecondPass(bytes);
    FilterUnfold(bytes);
    FilterUnfold(Filter(bytes));
    FixedAreNormal(FRESH_FIXER, FilterSegments(bytes));
    SameEventsExactly(fixed);
    FixedBytesOfAll(FRESH_FIXER, FilterSegments(bytes));
    FixedBytesOfAll(FRESH_FIXER, Closed(fixed));
    if Filter(Filter(bytes)) == Filter(bytes) {
      OksInjective(ToEvents(FixedSegments(Filter(bytes))), ToEvents(fixed));
    }
  }

  // ----- Where nothing overflows -----

  /** Every block's absolute time is a u64, under the Timecode in force where the block stands. */
  predicate Timely(start: u64, es: seq<WebmElement>)
    decreases |es|
  {
    es == [] ||
    match es[0]
    case Timecode(time) => Timely(time, es[1..])
    case Block(block) => 0 <= start + block.timecode < U64_LIMIT && Timely(start, es[1..])
    case _ => Timely(start, es[1..])
  }

  /** No block is dated before 0 when it counts from `start`. */
  predicate NoneEarly(start: u64, es: seq<WebmElement>) {
    forall e :: e in es && e.Block? ==> 0 <= start + e.block.timecode
  }

  /** No block's time leaves the u64 range where it stands, or is before 0 once the blocks count from
      the cluster's last Timecode. */
  predicate TimesFit(segment: Segment) {
    segment.ClusterRun? ==>
      Timely(0, segment.elements) && NoneEarly(LastTimecode(segment.elements, 0), Body(segment.elements))
  }

  predicate AllTimesFit(segments: seq<Segment>) {
    forall s :: s in segments ==> TimesFit(s)
  }

  /** The last block time above 0, relative to its cluster. */
  function LastPositive(es: seq<WebmElement>, default: u64): u64
    decreases |es|
  {
    if es == [] then default
    else LastPositive(es[1..], if es[0].Block? && es[0].block.timecode > 0 then es[0].block.timecode else default)
  }

  lemma {:induction false} BodyLastPositive(es: seq<WebmElement>, default: u64)
    ensures LastPositive(Body(es), default) == LastPositive(es, default)
    decreases |es|
  {
    if es != [] {
      var default' := if es[0].Block? && es[0].block.timecode > 0 then es[0].block.timecode else default;
      BodyLastPositive(es[1..], default');
      var kept := if IsKept(es[0]) && !es[0].Timecode? then [es[0]] else [];
      var body := kept + Body(es[1..]);
      assert kept == [] ==> body == Body(es[1..]);
      assert kept != [] ==> body[1..] == Body(es[1..]);
    }
  }

  lemma {:induction false} TimelyNoted(start: u64, es: seq<WebmElement>, default: u64)
    requires Timely(start, es)
    ensures LastNoted(start, es, default) == LastPositive(es, default)
    decreases |es|
  {
    if es != [] {
      TimelyNoted(if es[0].Timecode? then es[0].time else start, es[1..],
                  if es[0].Block? && es[0].block.timecode > 0 then es[0].block.timecode else default);
    }
  }

  /** If the last positive block time fits behind `start`, it is the last noted one, no matter what
      became of those before it. */
  lemma {:induction false} FittingNoted(start: u64, body: seq<WebmElement>, noted: u64, positive: u64)
    requires NoneEarly(start, body) && (forall e :: e in body ==> !e.Timecode?)
    requires noted == positive || start + positive >= U64_LIMIT
    requires start + LastPositive(body, positive) < U64_LIMIT
    ensures LastNoted(start, body, noted) == LastPositive(body, positive)
    decreases |body|
  {
    if body != [] {
      var e := body[0];
      assert e in body;
      FittingNoted(start, body[1..],
                   if e.Block? && IsNoted(start, e.block.timecode) then SignExtend(e.block.timecode) else noted,
                   if e.Block? && e.block.timecode > 0 then e.block.timecode else positive);
    }
  }

  /** One segment through the fixer: the chunk that comes out is the chunk of the fixed segment. */
  lemma FixSegment(f: FixerState, segment: Segment)
    requires TimesFit(segment) && f.offset <= f.last
    requires var c := ChunkOf(segment);
             c.ClusterChunk? ==> NewTime(f, c.head.start) + Duration(c.head) < U64_LIMIT
    ensures Process(f, ChunkOf(segment)).1 == ChunkOf(FixedSegment(f, segment))
  {
    match segment
    case HeaderRun(es) =>
      KeptKinds(es);
      KeptOfKept(Kept(es));
    case ClusterRun(es) =>
      var t, body := LastTimecode(es, 0), Body(es);
      ClusterIsCanonical(es);
      TimelyNoted(0, es, 0);
      BodyLastPositive(es, 0);
      hide ChunkOf, HeadBytes, Timely, LastNoted, LastPositive, LastTimecode, Body, EncodeAll, HasKeyframe;
      assert Duration(ChunkOf(segment).head) == LastPositive(es, 0);
      ProcessFits(f, ChunkOf(segment));
      OrderedExactly(f, ChunkOf(segment));
      var c := Process(f, ChunkOf(segment)).1;
      hide Process, Duration, NewTime;
      BodyKinds(es);
      FittingNoted(c.head.start, body, 0, 0);
      NormalClusterChunk(c.head.start, body);
  }

  /** The fixer's output on the chunks of `segments` are the chunks of the fixed segments. */
  lemma {:induction false} FixAllSegments(f: FixerState, segments: seq<Segment>)
    requires AllTimesFit(segments) && f.offset <= f.last && Fits(f, SegmentChunks(segments))
    ensures FixAll(f, SegmentChunks(segments)) == SegmentChunks(FixSegments(f, segments))
    decreases |segments|
  {
    hide ChunkOf, Process, TimesFit, HeadBytes, FixedSegment, Duration, NewTime;
    if segments != [] {
      var segment, rest := segments[0], segments[1..];
      assert segment in segments;
      var (f', c) := Process(f, ChunkOf(segment));
      assert SegmentChunks(segments)[1..] == SegmentChunks(rest);
      FixSegment(f, segment);
      ProcessKind(f, ChunkOf(segment));
      if segment.ClusterRun? {
        ProcessFits(f, ChunkOf(segment));
      }
      FixAllSegments(f', rest);
      var fixed := FixSegments(f, segments);
      assert fixed[1..] == FixSegments(f', rest);
    }
  }

  lemma {:induction false} MonotoneUnmoved(last: u64, chunks: seq<Chunk>)
    requires Monotone(chunks, last)
    ensures Unmoved(last, chunks)
    decreases |chunks|
  {
    if chunks != [] {
      MonotoneTail(chunks, last);
      hide Monotone;
      MonotoneUnmoved(if chunks[0].ClusterChunk? then chunks[0].head.end else last, chunks[1..]);
    }
  }

  /** No block's time and no fixed time leaves the u64 range. */
  predicate NothingOverflows(segments: seq<Segment>) {
    AllTimesFit(segments) && Fits(FRESH_FIXER, SegmentChunks(segments))
  }

  /** Then the output chunks to what it was made of; and the output is in order of time exactly if
      no fixed time overflows, whatever the blocks' times. */
  lemma {:induction false} FilterOutput(bytes: seq<byte>)
    ensures NothingOverflows(FilterSegments(bytes)) ==> FilterChunks(bytes) == SegmentChunks(FixedSegments(bytes))
    ensures Monotone(FilterChunks(bytes), 0) <==> Fits(FRESH_FIXER, SegmentChunks(FilterSegments(bytes)))
  {
    var segments := FilterSegments(bytes);
    hide FilterSegments, AllTimesFit, Fits, FilterChunks;
    FilterReads(bytes);
    MonotoneExactly(FRESH_FIXER, SegmentChunks(segments));
    hide Monotone, FixAll;
    if NothingOverflows(segments) {
      FixAllSegments(FRESH_FIXER, segments);
    }
  }

  /** Filtering twice is filtering once, byte for byte, if nothing overflows and no error cuts the
      last header run off from its cluster. */
  lemma {:induction false} FilterIdempotent(bytes: seq<byte>)
    requires NothingOverflows(FilterSegments(bytes)) && OpenRun(FixedSegments(bytes)) == []
    ensures Filter(Filter(bytes)) == Filter(bytes)
  {
    assert Fits(FRESH_FIXER, SegmentChunks(FilterSegments(bytes)));
    hide *;
    FilterOutput(bytes);
    MonotoneUnmoved(0, FilterChunks(bytes));
    FilterIdempotentExactly(bytes);
  }

  /** Input that can be read and written throughout is filtered up to its last cluster. */
  lemma FilterOfReadable(bytes: seq<byte>, es: seq<WebmElement>)
    requires Events(bytes) == Oks(es) && AllAccepted(es)
    ensures FilterSegments(bytes) == HeaderSegments(es)
    ensures OpenRun(FixedSegments(bytes)) == []
  {
    SegmentsOfOks(es);
    HeaderSegmentsShape(es);
    var segments := HeaderSegments(es);
    hide HeaderSegments, Events, Accepted;
    if segments != [] {
      assert SegmentOk(segments, |segments| - 1);
      var f := FixSegmentsAt(FRESH_FIXER, segments, |segments| - 1);
      FixedKeepsShape(f, segments[|segments| - 1]);
    }
  }

  // ----- Ordinary input -----

  /** The longest a cluster lasts whose blocks are not before its start. */
  const LONGEST: nat := 0x7FFF

  predicate OrdinaryTimes(e: WebmElement, latest: nat) {
    && (e.Block? ==> e.block.timecode >= 0)
    && (e.Timecode? ==> e.time <= latest)
  }

  lemma {:induction false} NonNegativeTimely(start: u64, es: seq<WebmElement>, latest: nat)
    requires start <= latest && latest + LONGEST < U64_LIMIT
    requires forall e :: e in es ==> OrdinaryTimes(e, latest)
    ensures Timely(start, es) && LastTimecode(es, start) <= latest
    decreases |es|
  {
    if es != [] {
      assert es[0] in es;
      NonNegativeTimely(if es[0].Timecode? then es[0].time else start, es[1..], latest);
    }
  }

  lemma {:induction false} LastPositiveBound(es: seq<WebmElement>, default: u64)
    requires default <= LONGEST
    ensures LastPositive(es, default) <= LONGEST
    decreases |es|
  {
    if es != [] {
      LastPositiveBound(es[1..], if es[0].Block? && es[0].block.timecode > 0 then es[0].block.timecode else default);
    }
  }

  lemma OrdinarySegment(segment: Segment, latest: nat)
    requires latest + LONGEST < U64_LIMIT
    requires forall e :: e in segment.elements ==> OrdinaryTimes(e, latest)
    ensures TimesFit(segment)
    ensures InBounds([ChunkOf(segment)], latest, LONGEST)
  {
    var es := segment.elements;
    BodyKinds(es);
    NonNegativeTimely(0, es, latest);
    if segment.ClusterRun? {
      ClusterIsCanonical(es);
      TimelyNoted(0, es, 0);
      LastPositiveBound(es, 0);
    }
    hide Timely, LastTimecode, Body, ChunkOf, HeadBytes, LastNoted, LastPositive;
  }

  lemma {:induction false} OrdinarySegments(segments: seq<Segment>, latest: nat)
    requires latest + LONGEST < U64_LIMIT
    requires forall e :: e in ToEvents(segments) ==> OrdinaryTimes(e, latest)
    ensures AllTimesFit(segments)
    ensures InBounds(SegmentChunks(segments), latest, LONGEST)
  {
    hide TimesFit, OrdinaryTimes, ChunkOf;
    if segments != [] {
      var first, rest := segments[0], segments[1..];
      assert ToEvents(segments) == SegmentEvents(first) + ToEvents(rest);
      hide ToEvents;
      assert forall e :: e in first.elements ==> e in SegmentEvents(first) && e in ToEvents(segments);
      OrdinarySegments(rest, latest);
      OrdinarySegment(first, latest);
      assert ChunkOf(first) in [ChunkOf(first)];
      assert SegmentChunks(segments) == [ChunkOf(first)] + SegmentChunks(rest);
      assert segments == [first] + rest;
    }
  }

  /** With non-negative block times and no Timecode above `latest` nothing overflows, if the clusters
      are few enough. */
  lemma {:induction false} OrdinaryLeavesRoom(segments: seq<Segment>, latest: nat)
    requires forall e :: e in ToEvents(segments) ==> OrdinaryTimes(e, latest)
    requires latest + LONGEST < U64_LIMIT
    requires 2 * latest + Clusters(SegmentChunks(segments)) * (LONGEST + 33) < U64_LIMIT
    ensures NothingOverflows(segments)
  {
    hide OrdinaryTimes, ToEvents, AllTimesFit, FixAll, Monotone, Fits, InBounds, Clusters;
    OrdinarySegments(segments, latest);
    FixerTimeline(FRESH_FIXER, SegmentChunks(segments), latest, LONGEST, 2 * latest);
    MonotoneExactly(FRESH_FIXER, SegmentChunks(segments));
  }

  lemma {:induction false} NonNegativeNoneEarly(segments: seq<Segment>)
    requires forall s :: s in segments && s.ClusterRun? ==> Timely(0, s.elements)
    requires forall e :: e in ToEvents(segments) && e.Block? ==> e.block.timecode >= 0
    ensures AllTimesFit(segments)
  {
    forall s | s in segments
      ensures TimesFit(s)
    {
      BodyKinds(s.elements);
      ElementOfSegments(segments, s);
      hide Timely, LastTimecode, Body, ToEvents;
    }
  }

  lemma {:induction false} ElementOfSegments(segments: seq<Segment>, s: Segment)
    requires s in segments
    ensures forall e :: e in s.elements ==> e in ToEvents(segments)
  {
    if segments[0] != s {
      ElementOfSegments(segments[1..], s);
    }
  }

  /** Readable input with no block before its cluster's start is filtered by one pass, as long as no
      block's time and no fixed time overflows. */
  lemma {:induction false} FilterIdempotentOnOrdinary(bytes: seq<byte>, es: seq<WebmElement>)
    requires Events(bytes) == Oks(es)
    requires forall e :: e in es && e.Block? ==> e.block.track <= 31 && e.block.timecode >= 0
    requires forall s :: s in HeaderSegments(es) && s.ClusterRun? ==> Timely(0, s.elements)
    requires Fits(FRESH_FIXER, SegmentChunks(HeaderSegments(es)))
    ensures Filter(Filter(bytes)) == Filter(bytes)
  {
    ReadElementsAccepted(bytes, es);
    FilterOfReadable(bytes, es);
    var rest := HeaderSegmentsCover(es);
    forall e | e in ToEvents(HeaderSegments(es)) && e.Block?
      ensures e.block.timecode >= 0
    {
      assert e in ToEvents(HeaderSegments(es)) + rest;
    }
    hide HeaderSegments, Events, Fits, Timely;
    NonNegativeNoneEarly(HeaderSegments(es));
    hide AllTimesFit;
    FilterIdempotent(bytes);
  }
}
