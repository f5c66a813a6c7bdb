/** What chunking leaves of an event sequence, said without the chunker's states and buffers. */
module NormalForms {
  import opened Bytes
  import opened Webm
  import opened Chunker

  /** A maximal stretch of header elements, or the elements behind a Cluster. */
  datatype Segment =
    | HeaderRun(elements: seq<WebmElement>)
    | ClusterRun(elements: seq<WebmElement>)

  predicate StartsStream(element: WebmElement) {
    element.EbmlHead? || element.Segment?
  }

  /** Where the first Cluster is, or the length if there is none. */
  function FirstCluster(es: seq<WebmElement>): (k: nat)
    ensures k <= |es| && forall i :: 0 <= i < k ==> !es[i].Cluster?
    ensures k < |es| ==> es[k].Cluster?
  {
    if es == [] || es[0].Cluster? then 0 else 1 + FirstCluster(es[1..])
  }

  /** Where a cluster ends: at the next Cluster, EbmlHead or Segment, or with the sequence. */
  function ClusterEnd(es: seq<WebmElement>): (k: nat)
    ensures k <= |es| && forall i :: 0 <= i < k ==> !es[i].Cluster? && !StartsStream(es[i])
    ensures k < |es| ==> es[k].Cluster? || StartsStream(es[k])
  {
    if es == [] || es[0].Cluster? || StartsStream(es[0]) then 0 else 1 + ClusterEnd(es[1..])
  }

  /** A header run counts only if a Cluster comes after it. */
  function HeaderSegments(es: seq<WebmElement>): seq<Segment>
    decreases |es|, 0
  {
    var k := FirstCluster(es);
    if k == |es| then [] else [HeaderRun(es[..k])] + ClusterSegments(es[k + 1..])
  }

  /** The segments from behind a Cluster element on. */
  function ClusterSegments(es: seq<WebmElement>): seq<Segment>
    decreases |es|, 2
  {
    var k := ClusterEnd(es);
    [ClusterRun(es[..k])] + NextSegments(es[k..])
  }

  /** The segments from the end of a cluster on. */
  function NextSegments(es: seq<WebmElement>): seq<Segment>
    decreases |es|, 1
  {
    if es == [] then [] else if es[0].Cluster? then ClusterSegments(es[1..]) else HeaderSegments(es)
  }

  function SegmentEvents(segment: Segment): seq<WebmElement> {
    match segment
    case HeaderRun(elements) => elements
    case ClusterRun(elements) => [Cluster] + elements
  }

  function ToEvents(segments: seq<Segment>): seq<WebmElement> {
    if segments == [] then [] else SegmentEvents(segments[0]) + ToEvents(segments[1..])
  }

  /** The elements that leave bytes in the output of either kind. */
  predicate IsKept(element: WebmElement) {
    !IsDropped(element) && !WritesNothing(element)
  }

  function Kept(es: seq<WebmElement>): seq<WebmElement> {
    if es == [] then [] else (if IsKept(es[0]) then [es[0]] else []) + Kept(es[1..])
  }

  /** The elements of a cluster's body: its Timecodes are taken out. */
  function Body(es: seq<WebmElement>): seq<WebmElement> {
    if es == [] then [] else (if IsKept(es[0]) && !es[0].Timecode? then [es[0]] else []) + Body(es[1..])
  }

  /** The last Timecode in `es`, or `default` if there is none. */
  function LastTimecode(es: seq<WebmElement>, default: u64): u64 {
    if es == [] then default else LastTimecode(es[1..], if es[0].Timecode? then es[0].time else default)
  }

  function Normal(segment: Segment): Segment {
    match segment
    case HeaderRun(es) => HeaderRun(Kept(es))
    case ClusterRun(es) => ClusterRun([Timecode(LastTimecode(es, 0))] + Body(es))
  }

  function Normals(segments: seq<Segment>): (r: seq<Segment>)
    ensures |r| == |segments|
    ensures forall i :: 0 <= i < |r| ==> r[i] == Normal(segments[i])
  {
    if segments == [] then [] else [Normal(segments[0])] + Normals(segments[1..])
  }

  /** SeekHead, Cues, Void, Info and unknown elements are gone, every Cluster is followed at once
      by its one Timecode, the last it had or else 0, and a header run that no Cluster follows is gone. */
  function NormalForm(es: seq<WebmElement>): seq<WebmElement> {
    ToEvents(Normals(HeaderSegments(es)))
  }

  // ----- Segments -----

  /** A header run has no Cluster in it and a cluster behind it, and behind a cluster it begins with
      EbmlHead or Segment; a cluster has nothing in it that would end it. */
  predicate SegmentOk(segments: seq<Segment>, i: nat)
    requires i < |segments|
  {
    match segments[i]
    case HeaderRun(es) =>
      && (forall e :: e in es ==> !e.Cluster?)
      && i + 1 < |segments| && segments[i + 1].ClusterRun?
      && (i > 0 ==> BeginsStream(es))
    case ClusterRun(es) => forall e :: e in es ==> !e.Cluster? && !StartsStream(e)
  }

  predicate BeginsStream(es: seq<WebmElement>) {
    es != [] && StartsStream(es[0])
  }

  predicate WellShaped(segments: seq<Segment>) {
    forall i :: 0 <= i < |segments| ==> SegmentOk(segments, i)
  }

  /** (Headers Cluster+)*, as an event sequence in header mode gives rise to. */
  predicate HeaderShape(segments: seq<Segment>) {
    WellShaped(segments) && (segments != [] ==> segments[0].HeaderRun?)
  }

  /** The same from a cluster on. */
  predicate ClusterShape(segments: seq<Segment>) {
    WellShaped(segments) && segments != [] && segments[0].ClusterRun?
  }

  lemma WellShapedCons(first: Segment, rest: seq<Segment>)
    requires WellShaped(rest)
    requires match first
             case HeaderRun(es) => (forall e :: e in es ==> !e.Cluster?) && ClusterShape(rest)
             case ClusterRun(es) =>
               && (forall e :: e in es ==> !e.Cluster? && !StartsStream(e))
               && (rest != [] && rest[0].HeaderRun? ==> BeginsStream(rest[0].elements))
    ensures WellShaped([first] + rest)
  {
    var all := [first] + rest;
    forall i | 0 <= i < |all|
      ensures SegmentOk(all, i)
    {
      if i > 0 {
        assert SegmentOk(rest, i - 1);
      }
    }
  }

  lemma WellShapedTail(segments: seq<Segment>)
    requires WellShaped(segments) && segments != []
    ensures WellShaped(segments[1..]) && SegmentOk(segments, 0)
    ensures segments[0].HeaderRun? ==> ClusterShape(segments[1..])
    ensures |segments| > 1 && segments[1].HeaderRun? ==> BeginsStream(segments[1].elements)
  {
    var rest := segments[1..];
    forall i | 0 <= i < |rest|
      ensures SegmentOk(rest, i)
    {
      assert SegmentOk(segments, i + 1);
    }
    assert |segments| > 1 ==> SegmentOk(segments, 1);
  }

  lemma {:induction false} HeaderSegmentsShape(es: seq<WebmElement>)
    ensures HeaderShape(HeaderSegments(es))
    ensures BeginsStream(es) && HeaderSegments(es) != [] ==> BeginsStream(HeaderSegments(es)[0].elements)
    decreases |es|, 0
  {
    hide WellShaped;
    var k := FirstCluster(es);
    if k < |es| {
      ClusterSegmentsShape(es[k + 1..]);
      WellShapedCons(HeaderRun(es[..k]), ClusterSegments(es[k + 1..]));
    } else {
      NothingIsWellShaped();
    }
  }

  lemma NothingIsWellShaped()
    ensures WellShaped([])
  {
  }

  lemma {:induction false} ClusterSegmentsShape(es: seq<WebmElement>)
    ensures ClusterShape(ClusterSegments(es))
    decreases |es|, 2
  {
    var k := ClusterEnd(es);
    NextSegmentsShape(es[k..]);
    hide WellShaped, NextSegments;
    WellShapedCons(ClusterRun(es[..k]), NextSegments(es[k..]));
  }

  lemma {:induction false} NextSegmentsShape(es: seq<WebmElement>)
    requires es != [] ==> es[0].Cluster? || StartsStream(es[0])
    ensures WellShaped(NextSegments(es))
    ensures NextSegments(es) != [] && NextSegments(es)[0].HeaderRun? ==> BeginsStream(NextSegments(es)[0].elements)
    decreases |es|, 1
  {
    hide WellShaped;
    if es == [] {
      NothingIsWellShaped();
    } else if es[0].Cluster? {
      ClusterSegmentsShape(es[1..]);
    } else {
      HeaderSegmentsShape(es);
    }
    hide ClusterSegments, HeaderSegments;
  }

  lemma {:induction false} FirstClusterAt(run: seq<WebmElement>, tail: seq<WebmElement>)
    requires forall e :: e in run ==> !e.Cluster?
    requires tail != [] && tail[0].Cluster?
    ensures FirstCluster(run + tail) == |run|
  {
    if run == [] {
      assert run + tail == tail;
    } else {
      assert run[0] in run;
      assert (run + tail)[1..] == run[1..] + tail;
      FirstClusterAt(run[1..], tail);
    }
  }

  lemma {:induction false} ClusterEndAt(run: seq<WebmElement>, tail: seq<WebmElement>)
    requires forall e :: e in run ==> !e.Cluster? && !StartsStream(e)
    requires tail != [] ==> tail[0].Cluster? || StartsStream(tail[0])
    ensures ClusterEnd(run + tail) == |run|
  {
    if run == [] {
      assert run + tail == tail;
    } else {
      assert run[0] in run;
      assert (run + tail)[1..] == run[1..] + tail;
      ClusterEndAt(run[1..], tail);
    }
  }

  /** Segments laid end to end are cut apart at the same places again. */
  lemma {:induction false} HeaderSegmentsRoundTrip(segments: seq<Segment>)
    requires HeaderShape(segments)
    ensures HeaderSegments(ToEvents(segments)) == segments
  {
    HeaderSegmentsThenRun(segments, []);
    assert ToEvents(segments) + [] == ToEvents(segments);
  }

  /** Elements without a Cluster that begin a stream behind the last cluster, or that are all there is. */
  predicate IsOpenRun(run: seq<WebmElement>, behindCluster: bool) {
    && (forall e :: e in run ==> !e.Cluster?)
    && (behindCluster && run != [] ==> BeginsStream(run))
  }

  lemma NoSegments(run: seq<WebmElement>)
    requires forall e :: e in run ==> !e.Cluster?
    ensures ToEvents([]) + run == run && HeaderSegments(run) == []
  {
  }

  lemma FirstHeaderRun(segments: seq<Segment>)
    requires HeaderShape(segments) && segments != []
    ensures var first, rest := segments[0].elements, segments[1..];
            && segments == [HeaderRun(first)] + rest && ClusterShape(rest)
            && ToEvents(segments) == first + ToEvents(rest)
            && forall e :: e in first ==> !e.Cluster?
  {
    WellShapedTail(segments);
  }

  /** The same with a header run behind the segments that no Cluster follows: it makes no segment. */
  lemma {:induction false} HeaderSegmentsThenRun(segments: seq<Segment>, run: seq<WebmElement>)
    requires HeaderShape(segments) && IsOpenRun(run, segments != [])
    ensures HeaderSegments(ToEvents(segments) + run) == segments
    decreases |segments|, 0
  {
    hide HeaderSegments, ClusterSegments, ToEvents, HeaderShape, ClusterShape;
    if segments == [] {
      NoSegments(run);
    } else {
      FirstHeaderRun(segments);
      assert IsOpenRun(run, true);
      var first, rest := segments[0].elements, segments[1..];
      hide IsOpenRun;
      ClusterSegmentsThenRun(rest, run);
      Associative(first, ToEvents(rest), run);
      HeaderSegmentsOf(first, ToEvents(rest) + run);
      assert (ToEvents(rest) + run)[1..] == ToEvents(rest)[1..] + run;
    }
  }

  lemma HeaderSegmentsOf(run: seq<WebmElement>, tail: seq<WebmElement>)
    requires forall e :: e in run ==> !e.Cluster?
    requires tail != [] && tail[0].Cluster?
    ensures HeaderSegments(run + tail) == [HeaderRun(run)] + ClusterSegments(tail[1..])
  {
    FirstClusterAt(run, tail);
    assert (run + tail)[..|run|] == run;
    assert (run + tail)[|run| + 1..] == tail[1..];
    hide ClusterSegments;
  }

  lemma {:induction false} ClusterSegmentsThenRun(segments: seq<Segment>, run: seq<WebmElement>)
    requires ClusterShape(segments) && IsOpenRun(run, true)
    ensures ToEvents(segments) != [] && ToEvents(segments)[0].Cluster?
    ensures ClusterSegments(ToEvents(segments)[1..] + run) == segments
    decreases |segments|, 0
  {
    WellShapedTail(segments);
    var first, rest := segments[0].elements, segments[1..];
    assert forall e :: e in first ==> !e.Cluster? && !StartsStream(e);
    hide WellShaped, SegmentOk, ClusterSegments, NextSegments;
    NextSegmentsThenRun(rest, run);
    assert segments == [ClusterRun(first)] + rest;
    ToEventsCons(ClusterRun(first), rest);
    assert SegmentEvents(ClusterRun(first)) == [Cluster] + first;
    hide *;
    DropFirst(first, ToEvents(rest));
    Associative(first, ToEvents(rest), run);
    ClusterSegmentsOf(first, ToEvents(rest) + run);
  }

  lemma DropFirst(run: seq<WebmElement>, tail: seq<WebmElement>)
    ensures (([Cluster] + run) + tail)[0] == Cluster && (([Cluster] + run) + tail)[1..] == run + tail
  {
  }

  lemma {:induction false} NextSegmentsThenRun(segments: seq<Segment>, run: seq<WebmElement>)
    requires WellShaped(segments) && IsOpenRun(run, true)
    requires segments != [] && segments[0].HeaderRun? ==> BeginsStream(segments[0].elements)
    ensures var es := ToEvents(segments) + run;
            && (es != [] ==> es[0].Cluster? || StartsStream(es[0]))
            && NextSegments(es) == segments
    decreases |segments|, 1
  {
    hide ClusterSegments, HeaderSegments, WellShaped, SegmentOk;
    var es := ToEvents(segments) + run;
    if segments == [] {
      assert es == run;
      HeaderSegmentsThenRun([], run);
    } else if segments[0].ClusterRun? {
      ClusterSegmentsThenRun(segments, run);
      assert es[1..] == ToEvents(segments)[1..] + run;
    } else {
      HeaderSegmentsThenRun(segments, run);
      assert es[0] == segments[0].elements[0];
    }
  }

  lemma ClusterSegmentsOf(run: seq<WebmElement>, tail: seq<WebmElement>)
    requires forall e :: e in run ==> !e.Cluster? && !StartsStream(e)
    requires tail != [] ==> tail[0].Cluster? || StartsStream(tail[0])
    ensures ClusterSegments(run + tail) == [ClusterRun(run)] + NextSegments(tail)
  {
    ClusterEndAt(run, tail);
    assert (run + tail)[..|run|] == run && (run + tail)[|run|..] == tail;
    hide NextSegments;
  }

  lemma ToEventsCons(segment: Segment, segments: seq<Segment>)
    ensures ToEvents([segment] + segments) == SegmentEvents(segment) + ToEvents(segments)
  {
    assert ([segment] + segments)[1..] == segments;
  }

  lemma Associative(a: seq<WebmElement>, b: seq<WebmElement>, c: seq<WebmElement>)
    ensures (a + b) + c == a + (b + c)
  {
  }

  lemma SplitAt(es: seq<WebmElement>, k: nat)
    requires k < |es|
    ensures es[..k] + es[k..] == es
    ensures es[k..] == [es[k]] + es[k + 1..]
  {
  }

  /** The segments are the whole sequence, but for a run at its end that no Cluster follows and that,
      behind a cluster, begins a stream. */
  lemma {:induction false} HeaderSegmentsCover(es: seq<WebmElement>) returns (rest: seq<WebmElement>)
    ensures ToEvents(HeaderSegments(es)) + rest == es
    ensures forall e :: e in rest ==> !e.Cluster?
    ensures rest != [] && HeaderSegments(es) != [] ==> BeginsStream(rest)
    decreases |es|, 0
  {
    var k := FirstCluster(es);
    if k == |es| {
      rest := es;
      assert ToEvents([]) + es == es;
    } else {
      SplitAt(es, k);
      assert HeaderSegments(es) == [HeaderRun(es[..k])] + ClusterSegments(es[k + 1..]);
      assert SegmentEvents(HeaderRun(es[..k])) == es[..k];
      hide *;
      rest := ClusterSegmentsCover(es[k + 1..]);
      ToEventsCons(HeaderRun(es[..k]), ClusterSegments(es[k + 1..]));
      Associative(es[..k], ToEvents(ClusterSegments(es[k + 1..])), rest);
    }
  }

  lemma {:induction false} ClusterSegmentsCover(es: seq<WebmElement>) returns (rest: seq<WebmElement>)
    ensures ToEvents(ClusterSegments(es)) + rest == [Cluster] + es
    ensures forall e :: e in rest ==> !e.Cluster?
    ensures rest != [] ==> BeginsStream(rest)
    decreases |es|, 2
  {
    var k := ClusterEnd(es);
    assert k < |es| ==> es[k..][0] == es[k];
    assert ClusterSegments(es) == [ClusterRun(es[..k])] + NextSegments(es[k..]);
    assert SegmentEvents(ClusterRun(es[..k])) == [Cluster] + es[..k];
    hide *;
    rest := NextSegmentsCover(es[k..]);
    ToEventsCons(ClusterRun(es[..k]), NextSegments(es[k..]));
    Associative([Cluster] + es[..k], ToEvents(NextSegments(es[k..])), rest);
    Associative([Cluster], es[..k], es[k..]);
    assert es[..k] + es[k..] == es;
  }

  lemma {:induction false} NextSegmentsCover(es: seq<WebmElement>) returns (rest: seq<WebmElement>)
    requires es != [] ==> es[0].Cluster? || StartsStream(es[0])
    ensures ToEvents(NextSegments(es)) + rest == es
    ensures forall e :: e in rest ==> !e.Cluster?
    ensures rest != [] ==> BeginsStream(rest)
    decreases |es|, 1
  {
    if es == [] {
      rest := [];
      assert ToEvents([]) == [];
    } else if es[0].Cluster? {
      rest := ClusterSegmentsCover(es[1..]);
      assert [Cluster] + es[1..] == es;
    } else {
      rest := HeaderSegmentsCover(es);
      if HeaderSegments(es) == [] {
        assert ToEvents([]) + rest == rest;
      }
    }
    hide ClusterSegments, HeaderSegments, ToEvents;
  }

  // ----- Normal forms are stable -----

  lemma {:induction false} KeptKinds(es: seq<WebmElement>)
    ensures forall e :: e in Kept(es) ==> e in es && IsKept(e)
    ensures es != [] && IsKept(es[0]) ==> Kept(es) != [] && Kept(es)[0] == es[0]
  {
    if es != [] {
      KeptKinds(es[1..]);
    }
  }

  lemma {:induction false} BodyKinds(es: seq<WebmElement>)
    ensures forall e :: e in Body(es) ==> e in es && IsKept(e) && !e.Timecode?
  {
    if es != [] {
      BodyKinds(es[1..]);
    }
  }

  lemma {:induction false} KeptOfKept(es: seq<WebmElement>)
    requires forall e :: e in es ==> IsKept(e)
    ensures Kept(es) == es
  {
    if es != [] {
      assert es[0] in es;
      KeptOfKept(es[1..]);
    }
  }

  lemma {:induction false} BodyOfBody(es: seq<WebmElement>, time: u64)
    requires forall e :: e in es ==> IsKept(e) && !e.Timecode?
    ensures Body(es) == es && LastTimecode(es, time) == time
  {
    if es != [] {
      assert es[0] in es;
      BodyOfBody(es[1..], time);
    }
  }

  /** The time and the body of a normal cluster. */
  lemma NormalCluster(time: u64, body: seq<WebmElement>)
    requires forall e :: e in body ==> IsKept(e) && !e.Timecode?
    ensures Body([Timecode(time)] + body) == body && LastTimecode([Timecode(time)] + body, 0) == time
  {
    BodyOfBody(body, time);
    assert ([Timecode(time)] + body)[1..] == body;
    assert [] + Body(body) == Body(body);
  }

  lemma NormalOfNormal(segment: Segment)
    ensures Normal(Normal(segment)) == Normal(segment)
    ensures forall e :: e in Normal(segment).elements ==> IsKept(e)
  {
    match segment
    case HeaderRun(es) =>
      KeptKinds(es);
      KeptOfKept(Kept(es));
    case ClusterRun(es) =>
      BodyKinds(es);
      NormalCluster(LastTimecode(es, 0), Body(es));
  }

  lemma NormalKeepsShape(segment: Segment)
    ensures forall e :: e in Normal(segment).elements ==> e in segment.elements || e.Timecode?
    ensures segment.HeaderRun? && BeginsStream(segment.elements) ==> BeginsStream(Normal(segment).elements)
  {
    KeptKinds(segment.elements);
    BodyKinds(segment.elements);
  }

  lemma NormalKind(segment: Segment)
    ensures Normal(segment).ClusterRun? <==> segment.ClusterRun?
  {
  }

  lemma NormalsShape(segments: seq<Segment>)
    requires HeaderShape(segments)
    ensures HeaderShape(Normals(segments))
  {
    hide Normals;
    forall i | 0 <= i < |segments|
      ensures SegmentOk(Normals(segments), i)
    {
      assert SegmentOk(segments, i);
      NormalKeepsShape(segments[i]);
      NormalKind(segments[i]);
      if i + 1 < |segments| {
        NormalKind(segments[i + 1]);
      }
      hide BeginsStream, Normal, StartsStream;
    }
    if segments != [] {
      NormalKind(segments[0]);
    }
  }

  lemma {:induction false} NormalsOfNormals(segments: seq<Segment>)
    ensures Normals(Normals(segments)) == Normals(segments)
    decreases |segments|
  {
    hide Normal;
    if segments != [] {
      NormalOfNormal(segments[0]);
      NormalsOfNormals(segments[1..]);
      assert Normals(segments)[1..] == Normals(segments[1..]);
    }
  }

  /** Normalizing twice changes nothing more. */
  lemma {:induction false} NormalFormIdempotent(es: seq<WebmElement>)
    ensures NormalForm(NormalForm(es)) == NormalForm(es)
  {
    HeaderSegmentsShape(es);
    NormalsShape(HeaderSegments(es));
    NormalsOfNormals(HeaderSegments(es));
    HeaderSegmentsRoundTrip(Normals(HeaderSegments(es)));
  }
}
