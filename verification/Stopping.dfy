/** What a consumer of chunks gets that stops at the first error, as the `filter` command does. */
module Stopping {
  import opened Wrappers
  import opened Bytes
  import opened Webm
  import opened Iterators
  import opened Streams
  import opened StreamParser
  import opened Chunks
  import opened Chunker
  import opened NormalForms
  import opened Meaning

  /** The chunks before the first error. */
  function UntilError(outs: seq<Out>): seq<Chunk> {
    if outs == [] || outs[0].Err? then [] else [outs[0].value] + UntilError(outs[1..])
  }

  lemma UntilErrorCons(out: Out, outs: seq<Out>)
    ensures UntilError([out] + outs) == if out.Err? then [] else [out.value] + UntilError(outs)
  {
    assert ([out] + outs)[1..] == outs;
  }

  lemma {:induction false} UntilErrorOfChunks(segments: seq<Segment>)
    ensures UntilError(ChunksOf(segments)) == SegmentChunks(segments)
  {
    hide ChunkOf;
    if segments != [] {
      UntilErrorOfChunks(segments[1..]);
      assert ChunksOf(segments)[1..] == ChunksOf(segments[1..]);
    }
  }

  /** An error, or an element that the chunker refuses. */
  predicate Stops(item: Item) {
    item.Err? || !Accepted(item.value)
  }

  /** The elements before the first item that stops the chunker. */
  function ReadPart(items: seq<Item>): (es: seq<WebmElement>)
    ensures |es| <= |items| && AllAccepted(es)
    ensures items == Oks(es) + items[|es|..]
    ensures |es| < |items| ==> Stops(items[|es|])
  {
    if items == [] || Stops(items[0]) then []
    else
      var rest := ReadPart(items[1..]);
      var es := [items[0].value] + rest;
      assert es[1..] == rest;
      es
  }

  lemma {:induction false} ReadPartOfOks(es: seq<WebmElement>)
    requires AllAccepted(es)
    ensures ReadPart(Oks(es)) == es
  {
    hide Accepted;
    if es != [] {
      assert es[0] in es;
      assert Oks(es)[1..] == Oks(es[1..]);
      ReadPartOfOks(es[1..]);
    }
  }

  /** The chunks that the chunker has emitted when it has taken in `es`, and its state then. */
  function Emitted(s: ChunkerState, es: seq<WebmElement>): (seq<Chunk>, ChunkerState)
    decreases |es|
  {
    if s.End? || es == [] then ([], s)
    else
      var (s', out) := OnElement(s, es[0], None);
      var (chunks, s'') := Emitted(s', es[1..]);
      (UntilError(Reported(out)) + chunks, s'')
  }

  lemma FoldFirst(s: ChunkerState, items: seq<Item>)
    requires !s.End? && items != [] && items[0].Ok?
    ensures var (s', out) := OnElement(s, items[0].value, None);
            Fold(s, items, None) == Reported(out) + Fold(s', items[1..], None)
  {
    hide OnElement;
  }

  lemma ReportedFirst(out: Option<Out>, rest: seq<Out>)
    requires out.Some? ==> out.value.Ok?
    ensures UntilError(Reported(out) + rest) == UntilError(Reported(out)) + UntilError(rest)
  {
    if out.Some? {
      UntilErrorCons(out.value, rest);
      UntilErrorCons(out.value, []);
      assert [out.value] + [] == Reported(out);
    } else {
      assert Reported(out) + rest == rest;
    }
  }

  lemma EmittedFirst(s: ChunkerState, es: seq<WebmElement>)
    requires !s.End? && es != []
    ensures var (s', out) := OnElement(s, es[0], None);
            && Emitted(s, es).0 == UntilError(Reported(out)) + Emitted(s', es[1..]).0
            && Emitted(s, es).1 == Emitted(s', es[1..]).1
  {
    hide OnElement;
  }

  /** What the end of the source makes the chunker emit. */
  function Flushed(s: ChunkerState): seq<Chunk> {
    UntilError(Reported(OnEnd(s).1))
  }

  lemma ChunksAssociative(a: seq<Chunk>, b: seq<Chunk>, c: seq<Chunk>)
    ensures (a + b) + c == a + (b + c)
  {
  }

  lemma AcceptedFirst(es: seq<WebmElement>)
    requires es != [] && AllAccepted(es)
    ensures Accepted(es[0]) && AllAccepted(es[1..])
  {
    hide Accepted;
    assert es[0] in es;
    assert forall e :: e in es[1..] ==> e in es;
  }

  lemma OksFirst(es: seq<WebmElement>)
    requires es != []
    ensures Oks(es) == [Ok(es[0])] + Oks(es[1..])
  {
  }

  lemma ConsAppend(item: Item, items: seq<Item>, tail: seq<Item>)
    ensures (([item] + items) + tail)[0] == item && (([item] + items) + tail)[1..] == items + tail
  {
  }

  /** The end of its source makes the chunker emit a cluster in the making; an error does not. */
  lemma {:induction false} FoldThenStop(s: ChunkerState, es: seq<WebmElement>, tail: seq<Item>)
    requires !s.End? && AllAccepted(es) && (tail != [] ==> Stops(tail[0]))
    ensures !Emitted(s, es).1.End?
    ensures UntilError(Fold(s, Oks(es) + tail, None))
         == Emitted(s, es).0 + if tail == [] then Flushed(Emitted(s, es).1) else []
    decreases |es|
  {
    hide *;
    if es == [] {
      FoldOfTail(s, tail);
    } else {
      var (s', out) := OnElement(s, es[0], None);
      AcceptedFirst(es);
      ConsAppend(Ok(es[0]), Oks(es[1..]), tail);
      OksFirst(es);
      RefusedElement(s, es[0]);
      FoldThenStop(s', es[1..], tail);
      FoldFirst(s, Oks(es) + tail);
      EmittedFirst(s, es);
      ReportedFirst(out, Fold(s', (Oks(es) + tail)[1..], None));
      var (chunks, s'') := Emitted(s', es[1..]);
      ChunksAssociative(UntilError(Reported(out)), chunks, if tail == [] then Flushed(s'') else []);
    }
  }

  lemma FoldOfTail(s: ChunkerState, tail: seq<Item>)
    requires !s.End? && (tail != [] ==> Stops(tail[0]))
    ensures Oks([]) + tail == tail && Emitted(s, []) == ([], s)
    ensures UntilError(Fold(s, Oks([]) + tail, None)) == [] + if tail == [] then Flushed(s) else []
  {
    assert Oks([]) + tail == tail;
    hide OnElement;
    if tail != [] {
      StopEmitsNothing(s, tail);
    } else {
      assert [] + Flushed(s) == Flushed(s);
    }
  }

  lemma StopEmitsNothing(s: ChunkerState, tail: seq<Item>)
    requires !s.End? && tail != [] && Stops(tail[0])
    ensures UntilError(Fold(s, tail, None)) == []
  {
    hide Accepted, OnElement, WriteErrorOf;
    if tail[0].Ok? {
      RefusedElement(s, tail[0].value);
    }
  }

  /** Whether the last Cluster in `es` has no new stream behind it. */
  predicate InCluster(es: seq<WebmElement>, inside: bool)
    decreases |es|
  {
    if es == [] then inside else InCluster(es[1..], es[0].Cluster? || (inside && !StartsStream(es[0])))
  }

  lemma StateKind(s: ChunkerState, e: WebmElement)
    requires !s.End? && Accepted(e)
    ensures var s' := OnElement(s, e, None).0;
            !s'.End? && (s'.BuildingCluster? <==> e.Cluster? || (s.BuildingCluster? && !StartsStream(e)))
  {
    WebmRoundTrip(e, []);
    hide WebmBytes, HeadBytes, Noted, UpdatedTimecode, DecodeElement;
  }

  lemma {:induction false} StateAfterElements(s: ChunkerState, es: seq<WebmElement>)
    requires !s.End? && AllAccepted(es)
    ensures Emitted(s, es).1.BuildingCluster? <==> InCluster(es, s.BuildingCluster?)
    decreases |es|
  {
    hide Accepted, OnElement;
    if es != [] {
      assert es[0] in es;
      StateKind(s, es[0]);
      StateAfterElements(OnElement(s, es[0], None).0, es[1..]);
    }
  }

  /** The segments whose chunks are out when `es` has been taken in: all but a cluster in the making. */
  function EmittedSegments(es: seq<WebmElement>): seq<Segment> {
    var all := HeaderSegments(es);
    if InCluster(es, false) && all != [] then all[..|all| - 1] else all
  }

  /** The segments whose chunks come before the first error; without an error the end of the input
      finishes the last of them. */
  function SegmentsBeforeError(items: seq<Item>): seq<Segment> {
    var es := ReadPart(items);
    if |es| == |items| then HeaderSegments(es) else EmittedSegments(es)
  }

  lemma {:induction false} SegmentChunksTake(segments: seq<Segment>, k: nat)
    requires k <= |segments|
    ensures SegmentChunks(segments[..k]) == SegmentChunks(segments)[..k]
  {
    hide ChunkOf;
  }

  lemma FlushedLength(s: ChunkerState)
    ensures |Flushed(s)| == if s.BuildingCluster? then 1 else 0
  {
    if s.BuildingCluster? {
      var out: Out := Ok(ClusterChunk(s.head, s.buffer));
      UntilErrorCons(out, []);
      assert [out] + [] == Reported(OnEnd(s).1);
    }
  }

  /** The chunks that are out, and the one that the end of the source adds. */
  lemma {:induction false} EmittedAndFlushed(es: seq<WebmElement>)
    requires AllAccepted(es)
    ensures var (chunks, s) := Emitted(BuildingHeader([]), es);
            && SegmentChunks(HeaderSegments(es)) == chunks + Flushed(s)
            && |Flushed(s)| == if InCluster(es, false) then 1 else 0
  {
    var s := BuildingHeader([]);
    hide *;
    FoldThenStop(s, es, []);
    assert Oks(es) + [] == Oks(es);
    HeaderChunks(es);
    UntilErrorOfChunks(HeaderSegments(es));
    StateAfterElements(s, es);
    FlushedLength(Emitted(s, es).1);
  }

  lemma {:induction false} ChunksOfEmitted(es: seq<WebmElement>)
    requires AllAccepted(es)
    ensures SegmentChunks(EmittedSegments(es)) == Emitted(BuildingHeader([]), es).0
  {
    EmittedAndFlushed(es);
    var all := HeaderSegments(es);
    hide HeaderSegments, SegmentChunks, Emitted, Flushed, Accepted, InCluster;
    if InCluster(es, false) && all != [] {
      SegmentChunksTake(all, |all| - 1);
    }
  }

  /** Whatever the items are, the chunks before the first error are those of these segments. */
  lemma {:induction false} ChunksBeforeError(items: seq<Item>)
    ensures UntilError(Fold(BuildingHeader([]), items, None)) == SegmentChunks(SegmentsBeforeError(items))
  {
    var es := ReadPart(items);
    var tail := items[|es|..];
    assert AllAccepted(es) && items == Oks(es) + tail && (tail != [] ==> Stops(tail[0]));
    assert SegmentsBeforeError(items) == if tail == [] then HeaderSegments(es) else EmittedSegments(es);
    hide *;
    FoldThenStop(BuildingHeader([]), es, tail);
    EmittedAndFlushed(es);
    ChunksOfEmitted(es);
  }

  // ----- The shape of what comes before an error -----

  predicate EndsInHeaders(segments: seq<Segment>) {
    segments != [] && segments[|segments| - 1].HeaderRun?
  }

  /** The segments up to the last cluster. */
  function Closed(segments: seq<Segment>): seq<Segment> {
    if EndsInHeaders(segments) then segments[..|segments| - 1] else segments
  }

  /** The elements of a header run behind the last cluster. */
  function OpenRun(segments: seq<Segment>): seq<WebmElement> {
    if EndsInHeaders(segments) then segments[|segments| - 1].elements else []
  }

  /** Some part from the front of segments that an event sequence gives rise to. */
  predicate PrefixShape(segments: seq<Segment>) {
    && HeaderShape(Closed(segments)) && IsOpenRun(OpenRun(segments), Closed(segments) != [])
    && (EndsInHeaders(segments) && Closed(segments) != [] ==> BeginsStream(OpenRun(segments)))
  }

  lemma {:induction false} ToEventsAppend(a: seq<Segment>, b: seq<Segment>)
    ensures ToEvents(a + b) == ToEvents(a) + ToEvents(b)
  {
    hide SegmentEvents;
    if a == [] {
      assert a + b == b;
    } else {
      assert (a + b)[1..] == a[1..] + b;
      ToEventsAppend(a[1..], b);
    }
  }

  lemma ClosedAndOpen(segments: seq<Segment>)
    ensures ToEvents(segments) == ToEvents(Closed(segments)) + OpenRun(segments)
  {
    if EndsInHeaders(segments) {
      var last := segments[|segments| - 1];
      assert segments == Closed(segments) + [last];
      ToEventsAppend(Closed(segments), [last]);
      assert ToEvents([last]) == last.elements + ToEvents([]);
    } else {
      assert ToEvents(segments) + [] == ToEvents(segments);
    }
  }

  /** Read again, such segments are the same but for the header run behind the last cluster. */
  lemma SegmentsOfPrefix(segments: seq<Segment>)
    requires PrefixShape(segments)
    ensures HeaderSegments(ToEvents(segments)) == Closed(segments)
  {
    ClosedAndOpen(segments);
    HeaderSegmentsThenRun(Closed(segments), OpenRun(segments));
  }

  lemma ShapeOfPrefix(segments: seq<Segment>, k: nat)
    requires HeaderShape(segments) && k <= |segments|
    ensures PrefixShape(segments[..k])
  {
    var prefix := segments[..k];
    var closed := Closed(prefix);
    forall i | 0 <= i < |closed|
      ensures SegmentOk(closed, i)
    {
      assert SegmentOk(segments, i);
    }
    assert k > 0 ==> SegmentOk(segments, k - 1);
    assert closed != [] ==> closed[0] == segments[0];
  }

  lemma ShapeBeforeError(items: seq<Item>)
    ensures PrefixShape(SegmentsBeforeError(items))
    ensures |ReadPart(items)| == |items| ==> !EndsInHeaders(SegmentsBeforeError(items))
  {
    var all := HeaderSegments(ReadPart(items));
    HeaderSegmentsShape(ReadPart(items));
    ShapeOfPrefix(all, |all|);
    assert all[..|all|] == all;
    assert all != [] ==> SegmentOk(all, |all| - 1);
    hide HeaderSegments, PrefixShape, ReadPart;
    if all != [] {
      ShapeOfPrefix(all, |all| - 1);
    }
  }

  lemma AcceptedBeforeError(items: seq<Item>)
    ensures AllAccepted(ToEvents(SegmentsBeforeError(items)))
  {
    var es := ReadPart(items);
    var all := HeaderSegments(es);
    SegmentsAccepted(es);
    hide Accepted, HeaderSegments, ReadPart;
    if all != [] {
      ToEventsAppend(all[..|all| - 1], [all[|all| - 1]]);
      assert all == all[..|all| - 1] + [all[|all| - 1]];
      assert forall e :: e in ToEvents(all[..|all| - 1]) ==> e in ToEvents(all);
    }
  }

  // ----- Failures of the source -----

  /** A failure of the source stops the consumer early. */
  lemma {:induction false} StoppedByFailure(s: ChunkerState, items: seq<Item>, limit: Option<nat>)
    ensures UntilError(Fold(s, items, limit)) <= UntilError(Fold(s, OwnItems(items), limit))
    decreases |items|
  {
    hide OnElement, OnEnd;
    if items != [] && !s.End? {
      var (s', outs) := OnItem(s, items[0], limit);
      var rest := if Terminal(items[0]) then [] else Fold(s', items[1..], limit);
      if IsOwn(items[0]) {
        OwnItemsCons(items[0], items[1..]);
        assert items == [items[0]] + items[1..];
        StoppedByFailure(s', items[1..], limit);
        var own := if Terminal(items[0]) then [] else Fold(s', OwnItems(items[1..]), limit);
        assert OwnItems(items)[1..] == OwnItems(items[1..]);
        hide OnItem, OwnItems;
        UntilErrorAppend(outs, rest, own);
      } else {
        UntilErrorCons(Err(items[0].error), rest);
      }
    }
  }

  lemma {:induction false} UntilErrorAppend(outs: seq<Out>, a: seq<Out>, b: seq<Out>)
    requires UntilError(a) <= UntilError(b)
    ensures UntilError(outs + a) <= UntilError(outs + b)
  {
    if outs == [] {
      assert outs + a == a && outs + b == b;
    } else {
      assert (outs + a)[1..] == outs[1..] + a && (outs + b)[1..] == outs[1..] + b;
      UntilErrorAppend(outs[1..], a, b);
    }
  }

  predicate NeverFails(steps: seq<Step<seq<byte>>>) {
    forall step :: step in steps ==> !step.Failure?
  }

  lemma {:induction false} WithoutFailures(p: ParserState)
    requires NeverFails(p.steps)
    ensures OwnItems(Run(p)) == Run(p)
    decreases Size(p)
  {
    RunUnfold(p);
    hide CheckSpace, Decode, Run, OwnItems, Delivered;
    match CheckSpace(p.buffer)
    case Err(e) =>
      OwnItemsCons(Err(EbmlFailure(e)), []);
    case Ok(Some(info)) =>
      OwnItemsCons(Lift(DecodeAt(p.buffer, info)), Run(AfterElement(p)));
      WithoutFailures(AfterElement(p));
    case Ok(None) =>
      if AtLimit(p) {
        OwnItemsCons(Err(ResourcesExceeded), []);
      } else if p.steps == [] {
        NothingDelivered(p);
      } else {
        assert p.steps[0] in p.steps;
        WithoutFailures(AfterStep(p));
        assert [] + Run(AfterStep(p)) == Run(AfterStep(p));
      }
  }
}
