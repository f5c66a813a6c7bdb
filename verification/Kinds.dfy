/** What becomes of every kind of element, kind by kind. */
module Kinds {
  import opened Wrappers
  import opened Bytes
  import opened Ebml
  import opened Webm
  import opened Chunks
  import opened Chunker
  import opened NormalForms
  import opened Meaning

  /** The kinds that leave bytes in the output. */
  predicate Survives(e: WebmElement) {
    match e
    case EbmlHead => true
    case Segment => true
    case Tracks(_) => true
    case Cluster => true
    case Timecode(_) => true
    case Block(_) => true
    case SeekHead => false
    case Cues => false
    case Void => false
    case Info => false
    case UnknownElement(_) => false
  }

  /** Elements whose payloads fit what can be written. */
  predicate InRange(e: WebmElement) {
    && (e.Tracks? ==> |e.data| <= EIGHT_MAX)
    && (e.Block? ==> e.block.track <= 31 && 4 + |e.block.data| <= EIGHT_MAX)
  }

  lemma SurvivesExactly(e: WebmElement)
    ensures Survives(e) <==> IsKept(e)
    ensures InRange(e) <==> Accepted(e)
  {
  }

  lemma SurvivorWrites(e: WebmElement)
    requires InRange(e) && Survives(e)
    ensures Written(e) != []
  {
    WebmRoundTrip(e, []);
    hide WebmBytes, DecodeElement;
  }

  /** Outside a cluster: a Cluster ends the header run, other survivors are written to it, and the
      rest leaves everything as it was. */
  lemma HeaderElementByKind(buffer: seq<byte>, e: WebmElement)
    requires InRange(e)
    ensures OnHeaderElement(buffer, e, None)
         == match e
            case Cluster => (BuildingCluster(NewHead(0), []), Some(Ok(Headers(buffer))))
            case EbmlHead => (BuildingHeader(buffer + Written(e)), None)
            case Segment => (BuildingHeader(buffer + Written(e)), None)
            case Tracks(_) => (BuildingHeader(buffer + Written(e)), None)
            case Timecode(_) => (BuildingHeader(buffer + Written(e)), None)
            case Block(_) => (BuildingHeader(buffer + Written(e)), None)
            case SeekHead => (BuildingHeader(buffer), None)
            case Cues => (BuildingHeader(buffer), None)
            case Void => (BuildingHeader(buffer), None)
            case Info => (BuildingHeader(buffer), None)
            case UnknownElement(_) => (BuildingHeader(buffer), None)
  {
    SurvivesExactly(e);
    if !IsDropped(e) {
      AppendAccepted(e, buffer);
      NothingKept(e, buffer);
    }
    hide Append, Written, NewHead;
  }

  lemma NothingKept(e: WebmElement, buffer: seq<byte>)
    ensures !IsKept(e) && Written(e) == EncodeAll(if IsKept(e) then [e] else []) ==> buffer + Written(e) == buffer
  {
    hide Written, IsKept;
  }

  /** Inside one: EbmlHead, Segment and Cluster end it, a Timecode goes to its head, a block to head and
      body, Tracks to its body, and the rest leaves everything as it was. */
  lemma ClusterElementByKind(head: Head, buffer: seq<byte>, e: WebmElement)
    requires InRange(e)
    ensures var finished: Option<Out> := Some(Ok(ClusterChunk(head, buffer)));
            OnClusterElement(head, buffer, e, None)
              == match e
                 case EbmlHead => (BuildingHeader(Written(e)), finished)
                 case Segment => (BuildingHeader(Written(e)), finished)
                 case Cluster => (BuildingCluster(NewHead(0), []), finished)
                 case Timecode(time) => (BuildingCluster(UpdatedTimecode(head, time), buffer), None)
                 case Block(block) =>
                   var head' := if block.flags >= 0x80 then head.(keyframe := true) else head;
                   (BuildingCluster(Observed(head', block.timecode), buffer + Written(e)), None)
                 case Tracks(_) => (BuildingCluster(head, buffer + Written(e)), None)
                 case SeekHead => (BuildingCluster(head, buffer), None)
                 case Cues => (BuildingCluster(head, buffer), None)
                 case Void => (BuildingCluster(head, buffer), None)
                 case Info => (BuildingCluster(head, buffer), None)
                 case UnknownElement(_) => (BuildingCluster(head, buffer), None)
  {
    SurvivesExactly(e);
    if !IsDropped(e) {
      AppendAccepted(e, buffer);
      NothingKept(e, buffer);
      AppendAccepted(e, []);
      assert [] + Written(e) == Written(e);
    }
    hide Append, Written, NewHead, UpdatedTimecode, Observed;
  }

  // ----- The normal form, kind by kind -----

  function Survivors(es: seq<WebmElement>): seq<WebmElement> {
    if es == [] then [] else (if Survives(es[0]) then [es[0]] else []) + Survivors(es[1..])
  }

  /** The survivors that are not Timecodes. */
  function Untimed(es: seq<WebmElement>): seq<WebmElement> {
    if es == [] then [] else (if Survives(es[0]) && !es[0].Timecode? then [es[0]] else []) + Untimed(es[1..])
  }

  lemma {:induction false} KeptByKind(es: seq<WebmElement>)
    ensures Kept(es) == Survivors(es) && Body(es) == Untimed(es)
  {
    hide Survives, IsKept;
    if es != [] {
      SurvivesExactly(es[0]);
      KeptByKind(es[1..]);
    }
  }

  lemma {:induction false} UntimedAppend(a: seq<WebmElement>, b: seq<WebmElement>)
    ensures Untimed(a + b) == Untimed(a) + Untimed(b)
  {
    hide Survives;
    if a == [] {
      assert a + b == b;
    } else {
      assert (a + b)[1..] == a[1..] + b;
      UntimedAppend(a[1..], b);
    }
  }

  lemma {:induction false} UntimedKept(es: seq<WebmElement>)
    ensures Untimed(Kept(es)) == Untimed(es) && Untimed(Body(es)) == Untimed(es)
  {
    hide Survives, IsKept;
    if es != [] {
      SurvivesExactly(es[0]);
      UntimedKept(es[1..]);
      UntimedAppend(if IsKept(es[0]) then [es[0]] else [], Kept(es[1..]));
      UntimedAppend(if IsKept(es[0]) && !es[0].Timecode? then [es[0]] else [], Body(es[1..]));
      UntimedOne(es[0]);
    }
  }

  lemma UntimedOne(e: WebmElement)
    ensures Untimed([e]) == (if Survives(e) && !e.Timecode? then [e] else []) && Untimed([]) == []
  {
    assert [e][1..] == [];
  }

  lemma UntimedNormal(segment: Segment)
    ensures Untimed(SegmentEvents(Normal(segment))) == Untimed(SegmentEvents(segment))
  {
    var es := segment.elements;
    UntimedKept(es);
    if segment.ClusterRun? {
      var time := Timecode(LastTimecode(es, 0));
      UntimedOne(Cluster);
      UntimedOne(time);
      hide Untimed, Body, LastTimecode;
      UntimedAppend([Cluster], [time] + Body(es));
      UntimedAppend([time], Body(es));
      UntimedAppend([Cluster], es);
      assert [] + Untimed(es) == Untimed(es);
    }
  }

  lemma {:induction false} UntimedNormals(segments: seq<Segment>)
    ensures Untimed(ToEvents(Normals(segments))) == Untimed(ToEvents(segments))
  {
    hide Normal, SegmentEvents, Untimed;
    if segments != [] {
      var first, rest := segments[0], segments[1..];
      UntimedNormal(first);
      UntimedNormals(rest);
      assert Normals(segments) == [Normal(first)] + Normals(rest);
      ToEventsCons(Normal(first), Normals(rest));
      assert ToEvents(segments) == SegmentEvents(first) + ToEvents(rest);
      UntimedAppend(SegmentEvents(Normal(first)), ToEvents(Normals(rest)));
      UntimedAppend(SegmentEvents(first), ToEvents(rest));
    }
  }

  /** `k` is the place of a Cluster with no new stream behind it. */
  predicate LastClusterAt(es: seq<WebmElement>, k: nat) {
    k < |es| && es[k].Cluster? && forall i :: k < i < |es| ==> !es[i].EbmlHead? && !es[i].Segment?
  }

  lemma LastCluster(segments: seq<Segment>) returns (k: nat)
    requires HeaderShape(segments) && segments != []
    ensures LastClusterAt(ToEvents(segments), k)
  {
    var n := |segments| - 1;
    assert SegmentOk(segments, n);
    var run := segments[n].elements;
    var before := ToEvents(segments[..n]);
    k := |before|;
    EventsOfLast(segments);
    var es := before + ([Cluster] + run);
    forall i | k < i < |es|
      ensures !es[i].EbmlHead? && !es[i].Segment?
    {
      assert es[i] == run[i - k - 1] && run[i - k - 1] in run;
    }
  }

  lemma {:induction false} EventsOfLast(segments: seq<Segment>)
    requires segments != []
    ensures var n := |segments| - 1;
            ToEvents(segments) == ToEvents(segments[..n]) + SegmentEvents(segments[n])
    decreases |segments|
  {
    hide SegmentEvents;
    var n := |segments| - 1;
    if n == 0 {
      assert segments[1..] == [];
    } else {
      var rest := segments[1..];
      EventsOfLast(rest);
      assert rest[..n - 1] == segments[..n][1..];
    }
  }

  /** The normal form keeps, in their order, exactly the EbmlHeads, Segments, Tracks, Clusters and
      blocks up to the last cluster's end; Timecodes apart, which are put in front of their cluster's
      body, nothing else is in it. */
  lemma {:induction false} NormalFormByKind(es: seq<WebmElement>)
    returns (front: seq<WebmElement>, rest: seq<WebmElement>)
    ensures es == front + rest && (forall e :: e in rest ==> !e.Cluster?)
    ensures rest != [] && front != [] ==> rest[0].EbmlHead? || rest[0].Segment?
    ensures front != [] ==> exists k :: LastClusterAt(front, k)
    ensures Untimed(NormalForm(es)) == Untimed(front)
    ensures forall e :: e in NormalForm(es) ==> Survives(e)
  {
    var segments := HeaderSegments(es);
    rest := HeaderSegmentsCover(es);
    front := ToEvents(segments);
    UntimedNormals(segments);
    HeaderSegmentsShape(es);
    hide HeaderSegments, LastClusterAt, HeaderShape;
    if segments != [] {
      var k := LastCluster(segments);
    }
    NormalsSurvive(segments);
  }

  lemma {:induction false} NormalsSurvive(segments: seq<Segment>)
    ensures forall e :: e in ToEvents(Normals(segments)) ==> Survives(e)
  {
    hide Survives, IsKept;
    if segments != [] {
      NormalsSurvive(segments[1..]);
      NormalSurvives(segments[0]);
      hide Normal, SegmentEvents;
      assert Normals(segments) == [Normal(segments[0])] + Normals(segments[1..]);
      ToEventsCons(Normal(segments[0]), Normals(segments[1..]));
    }
  }

  lemma NormalSurvives(segment: Segment)
    ensures forall e :: e in SegmentEvents(Normal(segment)) ==> Survives(e)
  {
    KeptKinds(segment.elements);
    BodyKinds(segment.elements);
    forall e | e in SegmentEvents(Normal(segment))
      ensures Survives(e)
    {
      SurvivesExactly(e);
    }
  }

  /** The time of a cluster is that of its last Timecode, or 0 if it has none. */
  predicate IsLastTime(es: seq<WebmElement>, time: u64) {
    if exists i :: 0 <= i < |es| && es[i].Timecode? then
      exists i :: 0 <= i < |es| && es[i] == Timecode(time) && forall j :: i < j < |es| ==> !es[j].Timecode?
    else time == 0
  }

  lemma {:induction false} LastTimecodeIs(es: seq<WebmElement>, default: u64)
    ensures (forall i :: 0 <= i < |es| ==> !es[i].Timecode?) ==> LastTimecode(es, default) == default
    ensures (exists i :: 0 <= i < |es| && es[i].Timecode?) ==>
              exists i :: 0 <= i < |es| && es[i] == Timecode(LastTimecode(es, default))
                          && forall j :: i < j < |es| ==> !es[j].Timecode?
    decreases |es|
  {
    if es != [] {
      var rest, default' := es[1..], if es[0].Timecode? then es[0].time else default;
      LastTimecodeIs(rest, default');
      if i :| 0 <= i < |rest| && rest[i].Timecode? {
        var k :| 0 <= k < |rest| && rest[k] == Timecode(LastTimecode(rest, default'))
                 && forall j :: k < j < |rest| ==> !rest[j].Timecode?;
        assert es[k + 1] == Timecode(LastTimecode(es, default));
        assert forall j :: k + 1 < j < |es| ==> es[j] == rest[j - 1];
      } else {
        assert forall j :: 0 < j < |es| ==> es[j] == rest[j - 1];
        if es[0].Timecode? {
          assert es[0] == Timecode(LastTimecode(es, default));
        }
      }
    }
  }

  /** A header run keeps its survivors, Timecodes included, in their order; a cluster is its one
      Timecode and its other survivors. */
  predicate NormalByKind(before: Segment, after: Segment) {
    if before.HeaderRun? then after == HeaderRun(Survivors(before.elements))
    else && after.ClusterRun? && after.elements != [] && after.elements[0].Timecode?
         && IsLastTime(before.elements, after.elements[0].time)
         && after.elements[1..] == Untimed(before.elements)
  }

  lemma NormalIsByKind(segment: Segment)
    ensures NormalByKind(segment, Normal(segment))
  {
    KeptByKind(segment.elements);
    LastTimecodeIs(segment.elements, 0);
    hide Survivors, Untimed, LastTimecode, Kept, Body;
  }

  /** Segment by segment the normal form is just that. */
  lemma {:induction false} NormalFormBySegment(es: seq<WebmElement>)
    ensures var before, after := HeaderSegments(es), HeaderSegments(NormalForm(es));
            |after| == |before| && forall i :: 0 <= i < |before| ==> NormalByKind(before[i], after[i])
  {
    var before := HeaderSegments(es);
    HeaderSegmentsShape(es);
    NormalsShape(before);
    HeaderSegmentsRoundTrip(Normals(before));
    hide HeaderSegments, HeaderShape, NormalByKind, ToEvents;
    forall i | 0 <= i < |before|
      ensures NormalByKind(before[i], Normals(before)[i])
    {
      NormalIsByKind(before[i]);
    }
  }
}
