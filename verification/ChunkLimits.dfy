/** Exactly when the chunker's limit is noticed. */
module ChunkLimits {
  import opened Wrappers
  import opened Bytes
  import opened Webm
  import opened Iterators
  import opened StreamParser
  import opened Chunks
  import opened Chunker
  import opened NormalForms
  import opened Meaning

  // ----- What a limit does to a run -----

  /** `outs` is `all`, or is cut off somewhere by a refusal. */
  predicate Refused(outs: seq<Out>, all: seq<Out>) {
    outs == all || exists k :: 0 <= k <= |all| && outs == all[..k] + [Err(ResourcesExceeded)]
  }

  lemma RefusedBehind(first: seq<Out>, outs: seq<Out>, all: seq<Out>)
    requires Refused(outs, all)
    ensures Refused(first + outs, first + all)
  {
    if outs != all {
      var k :| 0 <= k <= |all| && outs == all[..k] + [Err(ResourcesExceeded)];
      assert (first + all)[..|first| + k] == first + all[..k];
      assert first + outs == (first + all)[..|first| + k] + [Err(ResourcesExceeded)];
    }
  }

  /** Taking in one element, a limit changes nothing, or it is refused at once. */
  lemma LimitedElement(s: ChunkerState, e: WebmElement, limit: nat)
    requires !s.End?
    ensures OnElement(s, e, Some(limit)) == OnElement(s, e, None)
         || OnElement(s, e, Some(limit)) == (End, Some(Err(ResourcesExceeded)))
  {
    hide WebmBytes, Noted, UpdatedTimecode, NewHead;
  }

  /** A limit changes nothing about a chunker's run but where it may be refused to go on, whatever
      the items are. */
  lemma {:induction false} LimitOnlyRefuses(s: ChunkerState, items: seq<Item>, limit: nat)
    ensures Refused(Fold(s, items, Some(limit)), Fold(s, items, None))
    decreases |items|
  {
    hide OnElement, Refused, OnEnd;
    if s.End? || items == [] || Terminal(items[0]) {
      NotRefused(Fold(s, items, Some(limit)));
    } else {
      if items[0].Ok? {
        LimitedElement(s, items[0].value, limit);
      }
      var (s', outs) := OnItem(s, items[0], None);
      if OnItem(s, items[0], Some(limit)) == (s', outs) {
        LimitOnlyRefuses(s', items[1..], limit);
        RefusedBehind(outs, Fold(s', items[1..], Some(limit)), Fold(s', items[1..], None));
      } else {
        assert Fold(s, items, Some(limit)) == [Err(ResourcesExceeded)] + [];
        RefusedAtOnce(Fold(s, items, None));
      }
    }
  }

  lemma NotRefused(outs: seq<Out>)
    ensures Refused(outs, outs)
  {
  }

  lemma RefusedAtOnce(all: seq<Out>)
    ensures Refused([Err(ResourcesExceeded)] + [], all)
  {
    assert [Err(ResourcesExceeded)] + [] == all[..0] + [Err(ResourcesExceeded)];
  }

  // ----- Room in the buffers -----

  /** The elements whose writing is checked against the limit; the Timecodes of a cluster go to its head. */
  predicate IsWrite(e: WebmElement, inCluster: bool) {
    !IsDropped(e) && !(inCluster && e.Timecode?)
  }

  /** What of a segment's elements is written to its buffer. */
  function Writes(es: seq<WebmElement>, inCluster: bool): seq<WebmElement> {
    if inCluster then Body(es) else Kept(es)
  }

  /** Every write finds fewer than `limit` bytes before it, the first `size` of which were there already. */
  predicate RoomBehind(size: nat, es: seq<WebmElement>, inCluster: bool, limit: nat) {
    forall i :: 0 <= i < |es| && IsWrite(es[i], inCluster) ==> size + |EncodeAll(Writes(es[..i], inCluster))| < limit
  }

  /** Every write of a segment finds fewer than `limit` bytes of the segment before it. */
  predicate HasRoom(segment: Segment, limit: nat) {
    RoomBehind(0, segment.elements, segment.ClusterRun?, limit)
  }

  predicate AllHaveRoom(segments: seq<Segment>, limit: nat) {
    forall s :: s in segments ==> HasRoom(s, limit)
  }

  /** All that the chunker is given in `es`, cut into segments: a Cluster behind it closes the last one. */
  function AllRuns(es: seq<WebmElement>): seq<Segment> {
    HeaderSegments(es + [Cluster])
  }

  /** The same, element by element, from a buffer of `size` bytes. */
  predicate FitsFrom(size: nat, es: seq<WebmElement>, inCluster: bool, limit: nat)
    decreases |es|
  {
    if es == [] then true
    else if es[0].Cluster? then FitsFrom(0, es[1..], true, limit)
    else if inCluster && StartsStream(es[0]) then 0 < limit && FitsFrom(|Written(es[0])|, es[1..], false, limit)
    else if !IsWrite(es[0], inCluster) then FitsFrom(size, es[1..], inCluster, limit)
    else size < limit && FitsFrom(size + |Written(es[0])|, es[1..], inCluster, limit)
  }

  lemma WritesFirst(es: seq<WebmElement>, i: nat, inCluster: bool)
    requires 0 < i <= |es| && Accepted(es[0])
    ensures |EncodeAll(Writes(es[..i], inCluster))|
         == (if IsWrite(es[0], inCluster) then |Written(es[0])| else 0)
            + |EncodeAll(Writes(es[1..][..i - 1], inCluster))|
  {
    WebmRoundTrip(es[0], []);
    hide WebmBytes, DecodeElement;
    assert es[..i][1..] == es[1..][..i - 1];
    var kept := if IsWrite(es[0], inCluster) && !WritesNothing(es[0]) then [es[0]] else [];
    var rest := Writes(es[1..][..i - 1], inCluster);
    assert Writes(es[..i], inCluster) == kept + rest;
    hide Written, Writes;
    assert kept == [] ==> kept + rest == rest;
    assert kept != [] ==> (kept + rest)[1..] == rest;
  }

  lemma RoomFirst(size: nat, es: seq<WebmElement>, inCluster: bool, limit: nat)
    requires es != [] && Accepted(es[0])
    ensures RoomBehind(size, es, inCluster, limit) <==>
              if IsWrite(es[0], inCluster) then
                size < limit && RoomBehind(size + |Written(es[0])|, es[1..], inCluster, limit)
              else RoomBehind(size, es[1..], inCluster, limit)
  {
    hide Written, Writes, IsWrite, Accepted;
    var size' := size + if IsWrite(es[0], inCluster) then |Written(es[0])| else 0;
    NothingWritten(es, inCluster);
    forall i | 0 <= i < |es[1..]| && IsWrite(es[1..][i], inCluster)
      ensures size + |EncodeAll(Writes(es[..i + 1], inCluster))| == size' + |EncodeAll(Writes(es[1..][..i], inCluster))|
    {
      WritesFirst(es, i + 1, inCluster);
    }
    if RoomBehind(size, es, inCluster, limit) {
      forall i | 0 <= i < |es[1..]| && IsWrite(es[1..][i], inCluster)
        ensures size' + |EncodeAll(Writes(es[1..][..i], inCluster))| < limit
      {
        assert es[1..][i] == es[i + 1];
      }
    }
    if RoomBehind(size', es[1..], inCluster, limit) && (IsWrite(es[0], inCluster) ==> size < limit) {
      forall i | 0 <= i < |es| && IsWrite(es[i], inCluster)
        ensures size + |EncodeAll(Writes(es[..i], inCluster))| < limit
      {
        if i > 0 {
          assert es[1..][i - 1] == es[i];
        }
      }
    }
  }

  lemma NothingWritten(es: seq<WebmElement>, inCluster: bool)
    ensures EncodeAll(Writes(es[..0], inCluster)) == []
  {
  }

  // ----- The chunker refuses exactly where there is no room -----

  lemma AppendInRoom(e: WebmElement, buffer: seq<byte>, limit: nat)
    requires Accepted(e) && !IsDropped(e)
    ensures Append(e, buffer, Some(limit))
         == if |buffer| < limit then Ok(buffer + Written(e)) else Err(ResourcesExceeded)
  {
    AppendAccepted(e, buffer);
    hide WebmBytes, Written;
  }

  /** One accepted element: it is refused exactly if it is written to a full buffer. */
  lemma ElementInRoom(s: ChunkerState, e: WebmElement, limit: nat)
    requires !s.End? && Accepted(e)
    ensures var (s', out) := OnElement(s, e, Some(limit));
            var inCluster := s.BuildingCluster?;
            if e.Cluster? then !s'.End? && s'.BuildingCluster? && s'.buffer == [] && (out.Some? ==> out.value.Ok?)
            else if inCluster && StartsStream(e) then
              if 0 < limit then s' == BuildingHeader(Written(e)) && (out.Some? ==> out.value.Ok?)
              else s'.End? && out == Some(Err(ResourcesExceeded))
            else if !IsWrite(e, inCluster) then
              !s'.End? && s'.BuildingCluster? == inCluster && s'.buffer == s.buffer && out == None
            else if |s.buffer| < limit then
              !s'.End? && s'.BuildingCluster? == inCluster && s'.buffer == s.buffer + Written(e) && out == None
            else s'.End? && out == Some(Err(ResourcesExceeded))
  {
    if !IsDropped(e) {
      AppendInRoom(e, s.buffer, limit);
      AppendInRoom(e, [], limit);
      assert [] + Written(e) == Written(e);
    }
    hide Append, WebmBytes, Written, Accepted, Noted, UpdatedTimecode, NewHead;
  }

  /** The outputs of a run over one more element. */
  lemma FoldCons(s: ChunkerState, es: seq<WebmElement>, limit: Option<nat>)
    requires !s.End? && es != []
    ensures var (s', out) := OnElement(s, es[0], limit);
            Fold(s, Oks(es), limit) == Reported(out) + Fold(s', Oks(es[1..]), limit)
  {
    hide OnElement;
    assert Oks(es)[1..] == Oks(es[1..]);
  }

  lemma AllOkCons(out: Option<Out>, outs: seq<Out>)
    ensures AllOk(Reported(out) + outs) <==> (out.Some? ==> out.value.Ok?) && AllOk(outs)
  {
    if AllOk(Reported(out) + outs) {
      assert out.Some? ==> out.value == (Reported(out) + outs)[0];
      assert forall o :: o in outs ==> o in Reported(out) + outs;
    }
  }

  lemma {:induction false} FitsExactly(s: ChunkerState, es: seq<WebmElement>, limit: nat)
    requires !s.End? && AllAccepted(es)
    ensures AllOk(Fold(s, Oks(es), Some(limit))) <==> FitsFrom(|s.buffer|, es, s.BuildingCluster?, limit)
    ensures FitsFrom(|s.buffer|, es, s.BuildingCluster?, limit) ==>
              Fold(s, Oks(es), Some(limit)) == Fold(s, Oks(es), None)
    decreases |es|
  {
    hide OnElement, Accepted, Written, AllOk, IsWrite;
    if es == [] {
      EndIsOk(s);
    } else {
      assert es[0] in es;
      assert AllAccepted(es[1..]);
      var (s', out) := OnElement(s, es[0], Some(limit));
      ElementInRoom(s, es[0], limit);
      LimitedElement(s, es[0], limit);
      FoldCons(s, es, Some(limit));
      FoldCons(s, es, None);
      AllOkCons(out, Fold(s', Oks(es[1..]), Some(limit)));
      hide Fold;
      if !s'.End? {
        FitsExactly(s', es[1..], limit);
      }
    }
  }

  lemma EndIsOk(s: ChunkerState)
    requires !s.End?
    ensures AllOk(Fold(s, Oks([]), Some(0))) && forall limit :: Fold(s, Oks([]), limit) == Fold(s, Oks([]), Some(0))
  {
  }

  // ----- The same said of segments -----

  /** Elements up to the end of a segment, and what is behind it. */
  lemma {:induction false} FitsSplit(size: nat, es: seq<WebmElement>, k: nat, inCluster: bool, limit: nat)
    requires k <= (if inCluster then ClusterEnd(es) else FirstCluster(es)) && AllAccepted(es[..k])
    requires k < |es| ==> es[k].Cluster? || (inCluster && StartsStream(es[k]))
    ensures FitsFrom(size, es, inCluster, limit) <==>
              RoomBehind(size, es[..k], inCluster, limit) && FitsFrom(0, es[k..], inCluster, limit)
    decreases k
  {
    hide Written, Accepted, IsWrite, RoomBehind;
    if k == 0 {
      assert es[0..] == es;
      NothingHasRoom(size, es, inCluster, limit);
    } else {
      assert es[0] in es[..k];
      assert es[..k][1..] == es[1..][..k - 1] && es[1..][k - 1..] == es[k..];
      assert AllAccepted(es[1..][..k - 1]) by {
        assert forall e :: e in es[1..][..k - 1] ==> e in es[..k];
      }
      RoomFirst(size, es[..k], inCluster, limit);
      FitsSplit(if IsWrite(es[0], inCluster) then size + |Written(es[0])| else size, es[1..], k - 1, inCluster, limit);
    }
  }

  lemma NothingHasRoom(size: nat, es: seq<WebmElement>, inCluster: bool, limit: nat)
    ensures RoomBehind(size, es[..0], inCluster, limit)
  {
  }

  lemma AllRoomCons(first: Segment, rest: seq<Segment>, limit: nat)
    ensures AllHaveRoom([first] + rest, limit) <==> HasRoom(first, limit) && AllHaveRoom(rest, limit)
  {
    hide HasRoom;
    assert AllHaveRoom([first] + rest, limit) ==> forall s :: s in rest ==> s in [first] + rest;
    assert first in [first] + rest;
  }

  predicate EndsWithCluster(es: seq<WebmElement>) {
    es != [] && es[|es| - 1].Cluster?
  }

  lemma {:induction false} HeadersFit(es: seq<WebmElement>, limit: nat)
    requires EndsWithCluster(es) && AllAccepted(es)
    ensures FitsFrom(0, es, false, limit) <==> AllHaveRoom(HeaderSegments(es), limit)
    decreases |es|, 0
  {
    hide Accepted, RoomBehind, ClusterSegments;
    var k := FirstCluster(es);
    assert k < |es|;
    AcceptedSlice(es, 0, k);
    AcceptedSlice(es, k + 1, |es|);
    FitsSplit(0, es, k, false, limit);
    assert es[k..][1..] == es[k + 1..];
    ClustersFit(es[k + 1..], limit);
    AllRoomCons(HeaderRun(es[..k]), ClusterSegments(es[k + 1..]), limit);
  }

  lemma {:induction false} ClustersFit(es: seq<WebmElement>, limit: nat)
    requires (es != [] ==> EndsWithCluster(es)) && AllAccepted(es)
    ensures FitsFrom(0, es, true, limit) <==> AllHaveRoom(ClusterSegments(es), limit)
    decreases |es|, 2
  {
    hide Accepted, RoomBehind;
    var k := ClusterEnd(es);
    AcceptedSlice(es, 0, k);
    AcceptedSlice(es, k, |es|);
    FitsSplit(0, es, k, true, limit);
    NextFits(es[k..], limit);
    AllRoomCons(ClusterRun(es[..k]), NextSegments(es[k..]), limit);
  }

  lemma {:induction false} NextFits(es: seq<WebmElement>, limit: nat)
    requires (es != [] ==> EndsWithCluster(es)) && AllAccepted(es)
    requires es != [] ==> es[0].Cluster? || StartsStream(es[0])
    ensures FitsFrom(0, es, true, limit) <==> AllHaveRoom(NextSegments(es), limit)
    decreases |es|, 1
  {
    hide RoomBehind, HeaderSegments, ClusterSegments, Written, Accepted;
    if es == [] {
    } else if es[0].Cluster? {
      AcceptedSlice(es, 1, |es|);
      ClustersFit(es[1..], limit);
    } else {
      HeadersFit(es, limit);
    }
  }

  lemma {:induction false} FitsWithCluster(size: nat, es: seq<WebmElement>, inCluster: bool, limit: nat)
    ensures FitsFrom(size, es + [Cluster], inCluster, limit) <==> FitsFrom(size, es, inCluster, limit)
    decreases |es|
  {
    hide Written, IsWrite;
    if es == [] {
      assert [] + [Cluster] == [Cluster] && [Cluster][1..] == [];
    } else {
      assert (es + [Cluster])[1..] == es[1..] + [Cluster];
      FitsWithCluster(0, es[1..], true, limit);
      FitsWithCluster(|Written(es[0])|, es[1..], false, limit);
      FitsWithCluster(size, es[1..], inCluster, limit);
      FitsWithCluster(size + |Written(es[0])|, es[1..], inCluster, limit);
    }
  }

  /** On accepted elements the limited chunker has no error exactly if every write of every segment,
      also of one that is never finished, finds less than the limit before it in its segment; and
      then the limit makes no difference. */
  lemma {:induction false} LimitUnnoticedExactly(es: seq<WebmElement>, limit: nat)
    requires AllAccepted(es)
    ensures AllOk(Fold(BuildingHeader([]), Oks(es), Some(limit))) <==> AllHaveRoom(AllRuns(es), limit)
    ensures AllHaveRoom(AllRuns(es), limit) ==>
              Fold(BuildingHeader([]), Oks(es), Some(limit)) == Fold(BuildingHeader([]), Oks(es), None)
  {
    hide Accepted, Fold, AllOk, HeaderSegments, AllHaveRoom, FitsFrom;
    FitsExactly(BuildingHeader([]), es, limit);
    FitsWithCluster(0, es, false, limit);
    ClusterAccepted(es);
    HeadersFit(es + [Cluster], limit);
  }

  lemma ClusterAccepted(es: seq<WebmElement>)
    requires AllAccepted(es)
    ensures AllAccepted(es + [Cluster])
  {
    assert Accepted(Cluster);
    hide Accepted;
  }

  /** The upload side with its limits on: if every element fits the parser's limit, what is left over
      stays below it, and every segment has room in the chunker's, then the limits make no difference
      to the chunks, however the upload arrives, and they read back as its normal form. */
  lemma {:induction false} UploadWithinLimits(p: ParserState, es: seq<WebmElement>, limit: nat)
    requires p.limit.Some? && ElementsFit(AllBytes(p), p.limit.value) && |Leftover(AllBytes(p))| < p.limit.value
    requires Events(AllBytes(p)) == Oks(es)
    requires forall e :: e in es && e.Block? ==> e.block.track <= 31
    requires AllHaveRoom(AllRuns(es), limit)
    ensures OkChunks(ChunkRun(p, BuildingHeader([]), Some(limit)))
         == OkChunks(ChunkRun(Unlimited(p), BuildingHeader([]), None))
    ensures Events(Output(ChunkRun(p, BuildingHeader([]), Some(limit)))) == Oks(NormalForm(es))
  {
    var s := BuildingHeader([]);
    assert Unlimited(p).limit.None? && AllBytes(Unlimited(p)) == AllBytes(p);
    ReadElementsAccepted(AllBytes(p), es);
    LimitUnnoticed(p);
    hide *;
    ChunkRunIsFold(p, s, Some(limit));
    ChunkRunIsFold(Unlimited(p), s, Some(limit));
    ChunksOfBytes(Unlimited(p), Some(limit));
    ChunksOfBytes(Unlimited(p), None);
    LimitUnnoticedExactly(es, limit);
    ChunkerPreservesMeaning(es);
    SameOutput(ChunkRun(p, s, Some(limit)), Fold(s, Oks(es), None));
  }

  lemma SameOutput(a: seq<Out>, b: seq<Out>)
    requires OkChunks(a) == OkChunks(b)
    ensures Output(a) == Output(b)
  {
  }
}
