/** What is left of the filter's output when a time window is cut out of it. */
module Windows {
  import opened Bytes
  import opened Iterators
  import opened Chunks
  import opened NormalForms
  import opened Meaning
  import opened Fixers
  import opened Stopping
  import opened Pipeline

  /** The segments of those chunks that pass the window. */
  function InWindow(chunks: seq<Chunk>, segments: seq<Segment>, start: nat, stop: nat): seq<Segment>
    requires |chunks| == |segments|
    decreases |chunks|
  {
    if chunks == [] then []
    else
      (if Overlaps(chunks[0], start, stop) then [segments[0]] else [])
      + InWindow(chunks[1..], segments[1..], start, stop)
  }

  lemma WindowCons(c: Chunk, chunks: seq<Chunk>, segment: Segment, segments: seq<Segment>, start: nat, stop: nat)
    requires |chunks| == |segments|
    ensures Window([c] + chunks, start, stop)
         == (if Overlaps(c, start, stop) then [c] else []) + Window(chunks, start, stop)
    ensures InWindow([c] + chunks, [segment] + segments, start, stop)
         == (if Overlaps(c, start, stop) then [segment] else []) + InWindow(chunks, segments, start, stop)
  {
    assert ([c] + chunks)[1..] == chunks && ([segment] + segments)[1..] == segments;
  }

  lemma BytesCons(c: Chunk, chunks: seq<Chunk>)
    ensures AllBytesOf([c] + chunks) == ChunkBytes(c) + AllBytesOf(chunks)
  {
    assert ([c] + chunks)[1..] == chunks;
  }

  lemma {:induction false} WindowBytes(f: FixerState, segments: seq<Segment>, start: nat, stop: nat)
    ensures var chunks := FixAll(f, SegmentChunks(segments));
            AllBytesOf(Window(chunks, start, stop))
              == EncodeAll(ToEvents(InWindow(chunks, FixSegments(f, segments), start, stop)))
    decreases |segments|
  {
    hide ChunkOf, ChunkBytes, Written, Process, FixedSegment, Overlaps, SegmentEvents;
    if segments != [] {
      var first, rest := segments[0], segments[1..];
      var (f', c) := Process(f, ChunkOf(first));
      var chunks, fixed := FixAll(f', SegmentChunks(rest)), FixSegments(f', rest);
      assert SegmentChunks(segments)[1..] == SegmentChunks(rest);
      assert FixAll(f, SegmentChunks(segments)) == [c] + chunks;
      assert FixSegments(f, segments) == [FixedSegment(f, first)] + fixed;
      hide FixAll, FixSegments, SegmentChunks, Window, InWindow, AllBytesOf, EncodeAll, ToEvents;
      FixedBytes(f, first);
      WindowBytes(f', rest, start, stop);
      WindowCons(c, chunks, FixedSegment(f, first), fixed, start, stop);
      var kept := InWindow(chunks, fixed, start, stop);
      if Overlaps(c, start, stop) {
        BytesCons(c, Window(chunks, start, stop));
        ToEventsCons(FixedSegment(f, first), kept);
        EncodeAllAppend(SegmentEvents(FixedSegment(f, first)), ToEvents(kept));
      } else {
        assert [] + Window(chunks, start, stop) == Window(chunks, start, stop) && [] + kept == kept;
      }
    }
  }

  lemma {:induction false} InWindowElements(chunks: seq<Chunk>, segments: seq<Segment>, start: nat, stop: nat)
    requires |chunks| == |segments|
    ensures forall e :: e in ToEvents(InWindow(chunks, segments, start, stop)) ==> e in ToEvents(segments)
    decreases |chunks|
  {
    hide Overlaps, SegmentEvents;
    if chunks != [] {
      var kept := InWindow(chunks[1..], segments[1..], start, stop);
      InWindowElements(chunks[1..], segments[1..], start, stop);
      ToEventsCons(segments[0], kept);
      assert ToEvents(segments) == SegmentEvents(segments[0]) + ToEvents(segments[1..]);
      assert [] + kept == kept;
    }
  }

  // ----- Reading it again -----

  /** Adjacent header runs, between which all clusters were dropped, made one. */
  function Merged(segments: seq<Segment>): seq<Segment> {
    if segments == [] then []
    else
      var first, rest := segments[0], Merged(segments[1..]);
      if first.HeaderRun? && rest != [] && rest[0].HeaderRun? then
        [HeaderRun(first.elements + rest[0].elements)] + rest[1..]
      else [first] + rest
  }

  lemma {:induction false} MergedEvents(segments: seq<Segment>)
    ensures ToEvents(Merged(segments)) == ToEvents(segments)
  {
    if segments != [] {
      var first, rest := segments[0], Merged(segments[1..]);
      MergedEvents(segments[1..]);
      ToEventsCons(first, rest);
      if first.HeaderRun? && rest != [] && rest[0].HeaderRun? {
        assert rest == [rest[0]] + rest[1..];
        ToEventsCons(rest[0], rest[1..]);
        ToEventsCons(HeaderRun(first.elements + rest[0].elements), rest[1..]);
        hide ToEvents;
        Associative(first.elements, rest[0].elements, ToEvents(rest[1..]));
      }
    }
  }

  /** Header runs have no Cluster in them, and clusters nothing that would end them. */
  predicate PartOk(segment: Segment) {
    match segment
    case HeaderRun(es) => forall e :: e in es ==> !e.Cluster?
    case ClusterRun(es) => forall e :: e in es ==> !e.Cluster? && !StartsStream(e)
  }

  /** Such segments, where all header runs but one in front begin a stream. */
  predicate Loose(segments: seq<Segment>) {
    && (forall i :: 0 <= i < |segments| ==> PartOk(segments[i]))
    && (forall i :: 0 < i < |segments| && segments[i].HeaderRun? ==> BeginsStream(segments[i].elements))
  }

  predicate NoneAdjacent(segments: seq<Segment>) {
    forall i :: 0 < i < |segments| && segments[i].HeaderRun? ==> segments[i - 1].ClusterRun?
  }

  lemma {:induction false} MergedShape(segments: seq<Segment>)
    requires Loose(segments)
    ensures Loose(Merged(segments)) && NoneAdjacent(Merged(segments))
    ensures segments != [] ==>
              var merged := Merged(segments);
              && merged != [] && (merged[0].HeaderRun? <==> segments[0].HeaderRun?)
              && (BeginsStream(segments[0].elements) ==> BeginsStream(merged[0].elements))
  {
    if segments != [] {
      var first, rest := segments[0], Merged(segments[1..]);
      assert Loose(segments[1..]) by {
        assert forall i :: 0 <= i < |segments[1..]| ==> segments[1..][i] == segments[i + 1];
        hide PartOk, BeginsStream;
      }
      MergedShape(segments[1..]);
      assert PartOk(first);
      assert rest != [] && rest[0].HeaderRun? ==> segments[1].HeaderRun? && BeginsStream(rest[0].elements);
      if first.HeaderRun? && rest != [] && rest[0].HeaderRun? {
        assert PartOk(rest[0]);
        LooseCons(HeaderRun(first.elements + rest[0].elements), rest[1..]);
      } else {
        LooseCons(first, rest);
      }
    }
  }

  lemma LooseCons(first: Segment, rest: seq<Segment>)
    requires PartOk(first) && Loose(rest) && NoneAdjacent(rest)
    requires rest != [] && rest[0].HeaderRun? ==> first.ClusterRun? && BeginsStream(rest[0].elements)
    ensures Loose([first] + rest) && NoneAdjacent([first] + rest)
  {
    hide PartOk, BeginsStream;
  }

  lemma MergedPrefix(segments: seq<Segment>)
    requires Loose(segments) && NoneAdjacent(segments) && (segments != [] ==> segments[0].HeaderRun?)
    ensures PrefixShape(segments)
  {
    var closed := Closed(segments);
    forall i | 0 <= i < |closed|
      ensures SegmentOk(closed, i)
    {
      assert PartOk(segments[i]);
    }
    assert EndsInHeaders(segments) ==> PartOk(segments[|segments| - 1]);
  }

  lemma {:induction false} InWindowLoose(chunks: seq<Chunk>, segments: seq<Segment>, start: nat, stop: nat)
    requires |chunks| == |segments| && Loose(segments)
    requires forall i :: 0 <= i < |chunks| ==> (chunks[i].ClusterChunk? <==> segments[i].ClusterRun?)
    ensures Loose(InWindow(chunks, segments, start, stop))
    ensures forall s :: s in InWindow(chunks, segments, start, stop) ==> s in segments
    ensures segments != [] && segments[0].HeaderRun? ==>
              InWindow(chunks, segments, start, stop) != [] && InWindow(chunks, segments, start, stop)[0] == segments[0]
    decreases |chunks|
  {
    hide PartOk, BeginsStream;
    if chunks != [] {
      var rest := InWindow(chunks[1..], segments[1..], start, stop);
      assert forall i :: 0 <= i < |segments[1..]| ==> segments[1..][i] == segments[i + 1];
      InWindowLoose(chunks[1..], segments[1..], start, stop);
      assert forall s :: s in rest && s.HeaderRun? ==> BeginsStream(s.elements);
      assert PartOk(segments[0]);
    }
  }

  lemma LooseFromShape(segments: seq<Segment>)
    requires PrefixShape(segments)
    ensures Loose(segments) && (segments != [] ==> segments[0].HeaderRun?)
  {
    var closed := Closed(segments);
    assert forall i :: 0 <= i < |closed| ==> SegmentOk(closed, i);
    forall i | 0 <= i < |segments|
      ensures PartOk(segments[i])
      ensures i > 0 && segments[i].HeaderRun? ==> BeginsStream(segments[i].elements)
    {
      assert i < |closed| ==> segments[i] == closed[i] && SegmentOk(closed, i);
    }
  }

  lemma KindsOfFixed(f: FixerState, segments: seq<Segment>)
    ensures var chunks, fixed := FixAll(f, SegmentChunks(segments)), FixSegments(f, segments);
            forall i :: 0 <= i < |segments| ==> (chunks[i].ClusterChunk? <==> fixed[i].ClusterRun?)
  {
    FixerOnlyRetimes(f, SegmentChunks(segments));
    var chunks, fixed := FixAll(f, SegmentChunks(segments)), FixSegments(f, segments);
    hide FixAll, FixSegments, ChunkOf, Duration, HeadBytes;
    forall i | 0 <= i < |segments|
      ensures chunks[i].ClusterChunk? <==> fixed[i].ClusterRun?
    {
      assert Retimed(SegmentChunks(segments)[i], chunks[i]);
      var f' := FixSegmentsAt(f, segments, i);
      FixedKeepsShape(f', segments[i]);
      hide FixedSegment;
    }
  }

  /** For every input and every window: what passes reads without error as the segments whose chunks
      pass, and chunks again as these with header runs joined that have lost all clusters between
      them, up to the last cluster. */
  lemma {:induction false} WindowReads(bytes: seq<byte>, start: nat, stop: nat)
    ensures |FilterChunks(bytes)| == |FixedSegments(bytes)|
    ensures var kept := InWindow(FilterChunks(bytes), FixedSegments(bytes), start, stop);
            && Events(AllBytesOf(Window(FilterChunks(bytes), start, stop))) == Oks(ToEvents(kept))
            && HeaderSegments(ToEvents(kept)) == Closed(Merged(kept))
  {
    hide *;
    var segments, chunks, fixed := FilterSegments(bytes), FilterChunks(bytes), FixedSegments(bytes);
    FilterReads(bytes);
    FilterUnfold(bytes);
    SecondPass(bytes);
    var kept := InWindow(chunks, fixed, start, stop);
    WindowBytes(FRESH_FIXER, segments, start, stop);
    AcceptedBeforeError(Events(bytes));
    FixedElements(FRESH_FIXER, segments);
    InWindowElements(chunks, fixed, start, stop);
    ReadableAccepted(ToEvents(kept));
    EventsOfEncoded(ToEvents(kept));
    KindsOfFixed(FRESH_FIXER, segments);
    LooseFromShape(fixed);
    InWindowLoose(chunks, fixed, start, stop);
    NothingInWindow(chunks, fixed, start, stop);
    MergedShape(kept);
    MergedPrefix(Merged(kept));
    MergedEvents(kept);
    SegmentsOfPrefix(Merged(kept));
  }

  lemma NothingInWindow(chunks: seq<Chunk>, segments: seq<Segment>, start: nat, stop: nat)
    requires |chunks| == |segments|
    ensures segments == [] ==> InWindow(chunks, segments, start, stop) == [] && Merged([]) == []
  {
  }
}
