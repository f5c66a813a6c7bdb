/** The filter pipeline: parse, chunk, fix timecodes, serialize. */
module Pipeline {
  import opened Wrappers
  import opened Bytes
  import opened Webm
  import opened Iterators
  import opened StreamParser
  import opened Chunks
  import opened Chunker
  import opened NormalForms
  import opened Meaning
  import opened Fixers
  import opened Stopping

  /** A block sets the end of its cluster if it is after the start, or if it is dated before 0 and
      so wraps around. */
  predicate IsNoted(start: u64, timecode: i16) {
    (timecode > 0 && start + timecode < U64_LIMIT) || start + timecode < 0
  }

  /** The time of the last block that set the end, relative to its cluster. */
  function LastNoted(start: u64, es: seq<WebmElement>, default: u64): u64
    decreases |es|
  {
    if es == [] then default
    else
      LastNoted(if es[0].Timecode? then es[0].time else start, es[1..],
                if es[0].Block? && IsNoted(start, es[0].block.timecode) then SignExtend(es[0].block.timecode)
                else default)
  }

  predicate HasKeyframe(es: seq<WebmElement>) {
    exists i :: 0 <= i < |es| && es[i].Block? && es[i].block.flags >= 0x80
  }

  lemma StepTimes(head: Head, e: WebmElement)
    ensures HeadStep(head, e).keyframe == (head.keyframe || (e.Block? && e.block.flags >= 0x80))
    ensures HeadStep(head, e).start == if e.Timecode? then e.time else head.start
    ensures Duration(HeadStep(head, e))
         == if e.Block? && IsNoted(head.start, e.block.timecode) then SignExtend(e.block.timecode) else Duration(head)
  {
    hide HeadBytes;
  }

  /** The head of a cluster says whether it has a keyframe, and its duration is the time of the last
      block that was noted, wherever the Timecodes were. */
  lemma {:induction false} HeadAfterTimes(head: Head, es: seq<WebmElement>)
    ensures HeadAfter(head, es).keyframe == (head.keyframe || HasKeyframe(es))
    ensures Duration(HeadAfter(head, es)) == LastNoted(head.start, es, Duration(head))
    decreases |es|
  {
    hide HeadStep, IsNoted;
    if es != [] {
      StepTimes(head, es[0]);
      HeadAfterTimes(HeadStep(head, es[0]), es[1..]);
      KeyframeCons(es);
    }
  }

  lemma {:induction false} BodyKeyframe(es: seq<WebmElement>)
    ensures HasKeyframe(Body(es)) == HasKeyframe(es)
    decreases |es|
  {
    if es != [] {
      BodyKeyframe(es[1..]);
      KeyframeCons(es);
      var kept := if IsKept(es[0]) && !es[0].Timecode? then [es[0]] else [];
      var body := kept + Body(es[1..]);
      if kept == [] {
        assert body == Body(es[1..]);
      } else {
        assert body[1..] == Body(es[1..]);
        KeyframeCons(body);
      }
    }
  }

  lemma KeyframeCons(es: seq<WebmElement>)
    requires es != []
    ensures HasKeyframe(es) == ((es[0].Block? && es[0].block.flags >= 0x80) || HasKeyframe(es[1..]))
  {
    if HasKeyframe(es[1..]) {
      var i :| 0 <= i < |es[1..]| && es[1..][i].Block? && es[1..][i].block.flags >= 0x80;
      assert es[i + 1] == es[1..][i];
    }
    if HasKeyframe(es) && !(es[0].Block? && es[0].block.flags >= 0x80) {
      var i :| 0 <= i < |es| && es[i].Block? && es[i].block.flags >= 0x80;
      assert es[1..][i - 1] == es[i];
    }
  }

  /** The chunk of a cluster at `time`, with its duration and its body. */
  function ChunkAt(time: u64, duration: u64, body: seq<WebmElement>): Chunk {
    ClusterChunk(Head(HasKeyframe(body), time, WrappingAdd(time, duration), HeadBytes(time)), EncodeAll(body))
  }

  lemma EndFromDuration(head: Head)
    ensures head.end == WrappingAdd(head.start, Duration(head))
  {
  }

  /** What the chunker makes of any cluster: the last Timecode is the start, the last block that was
      noted under the Timecode in force where it stood makes the end, and the body is what is left. */
  lemma {:induction false} ClusterIsCanonical(es: seq<WebmElement>)
    ensures ChunkOf(ClusterRun(es)) == ChunkAt(LastTimecode(es, 0), LastNoted(0, es, 0), Body(es))
  {
    hide HeadBytes, LastNoted;
    var head := HeadAfter(NewHead(0), es);
    HeadAfterShape(NewHead(0), es);
    HeadAfterTimes(NewHead(0), es);
    BodyKeyframe(es);
    EndFromDuration(head);
  }

  /** A cluster with its Timecode in front. */
  function ClusterAt(time: u64, body: seq<WebmElement>): Segment {
    ClusterRun([Timecode(time)] + body)
  }

  lemma NormalClusterChunk(time: u64, body: seq<WebmElement>)
    requires forall e :: e in body ==> IsKept(e) && !e.Timecode?
    ensures ChunkOf(ClusterAt(time, body)) == ChunkAt(time, LastNoted(time, body, 0), body)
    ensures Normal(ClusterAt(time, body)) == ClusterAt(time, body)
  {
    NormalCluster(time, body);
    var es := [Timecode(time)] + body;
    assert es[1..] == body;
    ClusterIsCanonical(es);
    hide ChunkOf;
  }

  /** Writing a cluster with its Timecode in front and reading it again recovers its chunk exactly if
      the same end is noted when all blocks count from the last Timecode. */
  lemma RereadExactly(es: seq<WebmElement>)
    ensures ChunkOf(Normal(ClusterRun(es))) == ChunkOf(ClusterRun(es)) <==>
              LastNoted(LastTimecode(es, 0), Body(es), 0) == LastNoted(0, es, 0)
  {
    BodyKinds(es);
    NormalClusterChunk(LastTimecode(es, 0), Body(es));
    ClusterIsCanonical(es);
    hide ChunkOf, HeadBytes, LastNoted, LastTimecode, Body;
  }

  // ----- Fixing the times of segments -----

  /** The segment whose chunk the fixer makes of a segment's chunk. */
  function FixedSegment(f: FixerState, segment: Segment): Segment {
    var c := Process(f, ChunkOf(segment)).1;
    if c.ClusterChunk? then ClusterAt(c.head.start, Body(segment.elements)) else Normal(segment)
  }

  /** The segments whose chunks the fixer's output consists of. */
  function FixSegments(f: FixerState, segments: seq<Segment>): (r: seq<Segment>)
    ensures |r| == |segments|
    decreases |segments|
  {
    if segments == [] then []
    else
      [FixedSegment(f, segments[0])] + FixSegments(Process(f, ChunkOf(segments[0])).0, segments[1..])
  }

  /** The bytes of a fixed chunk are the fixed segment, written. */
  lemma FixedBytes(f: FixerState, segment: Segment)
    ensures ChunkBytes(Process(f, ChunkOf(segment)).1) == EncodeAll(SegmentEvents(FixedSegment(f, segment)))
  {
    ProcessKind(f, ChunkOf(segment));
    match segment
    case HeaderRun(es) =>
      SegmentBytes(segment);
    case ClusterRun(es) =>
      OrderedExactly(f, ChunkOf(segment));
      var head, body := Process(f, ChunkOf(segment)).1.head, Body(es);
      var t := head.start;
      hide Process, Written, HeadAfter, NewHead;
      assert head.bytes == Written(Cluster) + Written(Timecode(t));
      var all := [Cluster] + ([Timecode(t)] + body);
      assert all[1..] == [Timecode(t)] + body;
      assert all[1..][1..] == body;
      BytesAssociative(Written(Cluster), Written(Timecode(t)), EncodeAll(body));
  }

  /** So are those of all chunks, whatever their times. */
  lemma {:induction false} FixedBytesOfAll(f: FixerState, segments: seq<Segment>)
    ensures AllBytesOf(FixAll(f, SegmentChunks(segments))) == EncodeAll(ToEvents(FixSegments(f, segments)))
    decreases |segments|
  {
    hide ChunkOf, ChunkBytes, Written, Process, FixedSegment;
    if segments != [] {
      var first, rest := segments[0], segments[1..];
      var (f', c) := Process(f, ChunkOf(first));
      FixedBytes(f, first);
      FixedBytesOfAll(f', rest);
      EncodeAllAppend(SegmentEvents(FixedSegment(f, first)), ToEvents(FixSegments(f', rest)));
      ToEventsCons(FixedSegment(f, first), FixSegments(f', rest));
      assert SegmentChunks(segments)[1..] == SegmentChunks(rest);
      assert FixAll(f, SegmentChunks(segments)) == [c] + FixAll(f', SegmentChunks(rest));
      assert ([c] + FixAll(f', SegmentChunks(rest)))[1..] == FixAll(f', SegmentChunks(rest));
    }
  }

  lemma FixedIsNormal(f: FixerState, segment: Segment)
    ensures Normal(FixedSegment(f, segment)) == FixedSegment(f, segment)
  {
    match segment
    case HeaderRun(es) =>
      NormalOfNormal(segment);
    case ClusterRun(es) =>
      BodyKinds(es);
      NormalClusterChunk(Process(f, ChunkOf(segment)).1.head.start, Body(es));
      hide Process, ChunkOf;
  }

  lemma {:induction false} FixedAreNormal(f: FixerState, segments: seq<Segment>)
    ensures Normals(FixSegments(f, segments)) == FixSegments(f, segments)
    decreases |segments|
  {
    hide Process, FixedSegment, Normal;
    if segments != [] {
      FixedIsNormal(f, segments[0]);
      FixedAreNormal(Process(f, ChunkOf(segments[0])).0, segments[1..]);
      assert FixSegments(f, segments)[1..] == FixSegments(Process(f, ChunkOf(segments[0])).0, segments[1..]);
    }
  }

  lemma FixedKeepsShape(f: FixerState, segment: Segment)
    ensures FixedSegment(f, segment).ClusterRun? <==> segment.ClusterRun?
    ensures forall e :: e in FixedSegment(f, segment).elements ==> e in segment.elements || e.Timecode?
    ensures segment.HeaderRun? && BeginsStream(segment.elements) ==> BeginsStream(FixedSegment(f, segment).elements)
  {
    KeptKinds(segment.elements);
    BodyKinds(segment.elements);
    hide ChunkOf, HeadBytes;
  }

  /** Every segment is fixed on its own, in some state of the fixer. */
  lemma {:induction false} FixSegmentsAt(f: FixerState, segments: seq<Segment>, i: nat) returns (f': FixerState)
    requires i < |segments|
    ensures FixSegments(f, segments)[i] == FixedSegment(f', segments[i])
    decreases |segments|
  {
    hide Process, FixedSegment;
    if i == 0 {
      f' := f;
    } else {
      f' := FixSegmentsAt(Process(f, ChunkOf(segments[0])).0, segments[1..], i - 1);
    }
  }

  lemma FixSegmentsShape(f: FixerState, segments: seq<Segment>)
    requires HeaderShape(segments)
    ensures HeaderShape(FixSegments(f, segments))
  {
    var fixed := FixSegments(f, segments);
    hide FixSegments;
    forall i | 0 <= i < |segments|
      ensures SegmentOk(fixed, i)
      ensures fixed[i].ClusterRun? <==> segments[i].ClusterRun?
    {
      assert SegmentOk(segments, i);
      var f' := FixSegmentsAt(f, segments, i);
      FixedKeepsShape(f', segments[i]);
      if i + 1 < |segments| {
        var f'' := FixSegmentsAt(f, segments, i + 1);
        FixedKeepsShape(f'', segments[i + 1]);
      }
      hide FixedSegment, BeginsStream;
    }
  }

  lemma FixedSegmentReadable(f: FixerState, segment: Segment)
    requires AllAccepted(segment.elements)
    ensures forall e :: e in SegmentEvents(FixedSegment(f, segment)) ==> Readable(e)
  {
    hide ChunkOf, Process;
    KeptKinds(segment.elements);
    BodyKinds(segment.elements);
  }

  lemma {:induction false} FixedElements(f: FixerState, segments: seq<Segment>)
    requires AllAccepted(ToEvents(segments))
    ensures forall e :: e in ToEvents(FixSegments(f, segments)) ==> Readable(e)
    decreases |segments|
  {
    hide ChunkOf, Process, Readable, Accepted;
    if segments != [] {
      var first, rest := segments[0], segments[1..];
      assert ToEvents(segments) == SegmentEvents(first) + ToEvents(rest);
      assert forall e :: e in first.elements ==> e in SegmentEvents(first) && e in ToEvents(segments);
      assert forall e :: e in ToEvents(rest) ==> e in ToEvents(segments);
      var f' := Process(f, ChunkOf(first)).0;
      FixedElements(f', rest);
      FixedSegmentReadable(f, first);
      ToEventsCons(FixedSegment(f, first), FixSegments(f', rest));
      hide ToEvents;
      assert FixSegments(f, segments) == [FixedSegment(f, first)] + FixSegments(f', rest);
    }
  }

  // ----- The filter command -----

  /** What `webmetro filter` writes for the input `bytes`: the chunks up to the first error, fixed. */
  function FilterChunks(bytes: seq<byte>): seq<Chunk> {
    FixAll(FRESH_FIXER, UntilError(Fold(BuildingHeader([]), Events(bytes), None)))
  }

  function Filter(bytes: seq<byte>): seq<byte> {
    AllBytesOf(FilterChunks(bytes))
  }

  /** The segments of the input whose chunks come before the first error. */
  function FilterSegments(bytes: seq<byte>): seq<Segment> {
    SegmentsBeforeError(Events(bytes))
  }

  /** What the filter's output reads as. */
  function FixedSegments(bytes: seq<byte>): seq<Segment> {
    FixSegments(FRESH_FIXER, FilterSegments(bytes))
  }

  /** For every input: the output reads without error, as the fixed segments, and every cluster's head
      says its start. */
  lemma {:induction false} FilterReads(bytes: seq<byte>)
    ensures FilterChunks(bytes) == FixAll(FRESH_FIXER, SegmentChunks(FilterSegments(bytes)))
    ensures Events(Filter(bytes)) == Oks(ToEvents(FixedSegments(bytes)))
    ensures AllAccepted(ToEvents(FixedSegments(bytes)))
    ensures forall c :: c in FilterChunks(bytes) && c.ClusterChunk? ==> c.head.bytes == HeadBytes(c.head.start)
  {
    hide *;
    var segments := FilterSegments(bytes);
    FilterUnfold(bytes);
    ChunksBeforeError(Events(bytes));
    AcceptedBeforeError(Events(bytes));
    FixedBytesOfAll(FRESH_FIXER, segments);
    FixedElements(FRESH_FIXER, segments);
    ReadableAccepted(ToEvents(FixedSegments(bytes)));
    EventsOfEncoded(ToEvents(FixedSegments(bytes)));
    FixedHeads(FRESH_FIXER, SegmentChunks(segments));
  }

  lemma FixedHeads(f: FixerState, chunks: seq<Chunk>)
    ensures forall c :: c in FixAll(f, chunks) && c.ClusterChunk? ==> c.head.bytes == HeadBytes(c.head.start)
  {
    FixerOnlyRetimes(f, chunks);
    hide HeadBytes, FixAll, Duration;
    forall i | 0 <= i < |chunks| && FixAll(f, chunks)[i].ClusterChunk?
      ensures FixAll(f, chunks)[i].head.bytes == HeadBytes(FixAll(f, chunks)[i].head.start)
    {
      assert Retimed(chunks[i], FixAll(f, chunks)[i]);
    }
  }

  lemma FilterUnfold(bytes: seq<byte>)
    ensures Filter(bytes) == AllBytesOf(FilterChunks(bytes))
    ensures FilterChunks(bytes) == FixAll(FRESH_FIXER, UntilError(Fold(BuildingHeader([]), Events(bytes), None)))
    ensures FilterSegments(bytes) == SegmentsBeforeError(Events(bytes))
    ensures FixedSegments(bytes) == FixSegments(FRESH_FIXER, FilterSegments(bytes))
  {
  }

  /** For every input: filtering the output again starts from its segments up to the last cluster. */
  lemma {:induction false} SecondPass(bytes: seq<byte>)
    ensures FilterSegments(Filter(bytes)) == Closed(FixedSegments(bytes))
    ensures PrefixShape(FixedSegments(bytes))
  {
    hide *;
    var es := ToEvents(FixedSegments(bytes));
    FilterReads(bytes);
    FilterUnfold(bytes);
    FilterUnfold(Filter(bytes));
    ShapeBeforeError(Events(bytes));
    FixKeepsPrefixShape(FRESH_FIXER, FilterSegments(bytes));
    SegmentsOfPrefix(FixedSegments(bytes));
    SegmentsOfOks(es);
  }

  lemma SegmentsOfOks(es: seq<WebmElement>)
    requires AllAccepted(es)
    ensures SegmentsBeforeError(Oks(es)) == HeaderSegments(es)
  {
    ReadPartOfOks(es);
    hide HeaderSegments, ReadPart;
  }

  lemma {:induction false} FixPrefix(f: FixerState, segments: seq<Segment>, k: nat)
    requires k <= |segments|
    ensures FixSegments(f, segments[..k]) == FixSegments(f, segments)[..k]
    decreases k
  {
    hide Process, FixedSegment;
    if k > 0 {
      assert segments[..k][1..] == segments[1..][..k - 1];
      FixPrefix(Process(f, ChunkOf(segments[0])).0, segments[1..], k - 1);
    }
  }

  lemma FixKeepsPrefixShape(f: FixerState, segments: seq<Segment>)
    requires PrefixShape(segments)
    ensures PrefixShape(FixSegments(f, segments))
  {
    var n, fixed := |segments|, FixSegments(f, segments);
    if n > 0 {
      var f' := FixSegmentsAt(f, segments, n - 1);
      FixedKeepsShape(f', segments[n - 1]);
      FixPrefix(f, segments, n - 1);
      assert EndsInHeaders(fixed) <==> EndsInHeaders(segments);
      assert Closed(fixed) == FixSegments(f, Closed(segments));
      FixSegmentsShape(f, Closed(segments));
      if EndsInHeaders(segments) {
        FixedOpenRun(f', segments[n - 1]);
      }
    }
  }

  lemma FixedOpenRun(f: FixerState, segment: Segment)
    requires segment.HeaderRun?
    ensures FixedSegment(f, segment) == HeaderRun(Kept(segment.elements))
    ensures forall e :: e in Kept(segment.elements) ==> e in segment.elements
    ensures segment.elements == [] ==> Kept(segment.elements) == []
  {
    KeptKinds(segment.elements);
  }

  // ----- How the input arrives -----

  /** What the filter writes for an arrival of its input. */
  function FilterChunksOf(p: ParserState): seq<Chunk> {
    FixAll(FRESH_FIXER, UntilError(ChunkRun(p, BuildingHeader([]), None)))
  }

  lemma {:induction false} FixAllPrefix(f: FixerState, a: seq<Chunk>, b: seq<Chunk>)
    requires a <= b
    ensures FixAll(f, a) <= FixAll(f, b)
    decreases |a|
  {
    hide Process;
    if a != [] {
      FixAllPrefix(Process(f, a[0]).0, a[1..], b[1..]);
    }
  }

  /** The chunks that come out do not depend on how the bytes arrive; if the source fails, the output
      breaks off early. */
  lemma {:induction false} FilterOfArrival(p: ParserState)
    requires p.limit.None?
    ensures FilterChunksOf(p) <= FilterChunks(AllBytes(p))
    ensures NeverFails(p.steps) ==> FilterChunksOf(p) == FilterChunks(AllBytes(p))
  {
    hide Fold, Events, Run, ChunkRun, UntilError, FixAll, OwnItems, NeverFails, AllBytes;
    ChunkRunIsFold(p, BuildingHeader([]), None);
    CuttingDoesNotMatter(p);
    StoppedByFailure(BuildingHeader([]), Run(p), None);
    FixAllPrefix(FRESH_FIXER, UntilError(Fold(BuildingHeader([]), Run(p), None)),
                 UntilError(Fold(BuildingHeader([]), Events(AllBytes(p)), None)));
    if NeverFails(p.steps) {
      WithoutFailures(p);
    }
  }
}
