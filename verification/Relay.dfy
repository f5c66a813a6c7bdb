/** The relay from end to end: uploads are parsed and chunked into a channel, and every listener's
    chunks go through a fixer and a starting-point finder of its own. */
module Relay {
  import opened Wrappers
  import opened Bytes
  import opened StreamParser
  import opened Chunks
  import opened Chunker
  import opened Meaning
  import opened Grammar
  import opened Fixers
  import opened Iterators
  import opened Webm
  import opened NormalForms
  import opened Idempotence
  import opened Contents
  import opened Broadcast

  /** `cs` is the beginning of what a chunker makes of some upload, however it arrives and whatever
      the limits are. */
  ghost predicate Uploaded(cs: seq<Chunk>) {
    exists p: ParserState, limit: Option<nat> :: cs <= OkChunks(ChunkRun(p, BuildingHeader([]), limit))
  }

  lemma UploadedGrammar(cs: seq<Chunk>)
    requires Uploaded(cs)
    ensures ChunkGrammar(cs)
  {
    var p: ParserState, limit: Option<nat> :| cs <= OkChunks(ChunkRun(p, BuildingHeader([]), limit));
    var all := OkChunks(ChunkRun(p, BuildingHeader([]), limit));
    ChunkRunGrammar(p, limit);
    GrammarPrefixClosed(all, |cs|);
    assert cs == all[..|cs|];
  }

  /** One transmitter at a time, each sending what its chunker makes of its upload. */
  ghost predicate RelayStep(s: System, a: Action) {
    match a
    case StartTransmitter => !s.active
    case DropTransmitter => s.active
    case Send(chunk) => s.active && s.sessionStart <= |s.sent| && Uploaded(s.sent[s.sessionStart..] + [chunk])
    case _ => true
  }

  ghost predicate RelayHistory(s: System, actions: seq<Action>) {
    actions == [] ||
    (&& RelayHistory(s, actions[..|actions| - 1])
     && RelayStep(Exec(s, actions[..|actions| - 1]), actions[|actions| - 1]))
  }

  lemma {:induction false} RelayIsDisciplined(s: System, actions: seq<Action>)
    requires RelayHistory(s, actions)
    ensures AllDisciplined(s, actions)
  {
    hide ChunkGrammar, Uploaded;
    if actions != [] {
      var before := Exec(s, actions[..|actions| - 1]);
      RelayIsDisciplined(s, actions[..|actions| - 1]);
      var a := actions[|actions| - 1];
      if a.Send? {
        UploadedGrammar(before.sent[before.sessionStart..] + [a.chunk]);
      }
    }
  }

  /** What a listener is served of the chunks it received. */
  function Served(received: seq<Chunk>): seq<Chunk> {
    Sifted(FixAll(FRESH_FIXER, received), |received|)
  }

  // ----- What the finder leaves of a feed -----

  lemma {:induction false} WantedElements(chunks: seq<Chunk>, n: nat)
    requires n <= |chunks|
    ensures forall c :: c in WantedOnly(chunks, n) ==> c in chunks[..n]
  {
    hide Wanted;
    if n > 0 {
      WantedElements(chunks, n - 1);
      assert forall c :: c in chunks[..n - 1] ==> c in chunks[..n];
      assert chunks[n - 1] in chunks[..n];
    }
  }

  /** One Headers chunk, the first, and then clusters only. */
  lemma {:induction false} WantedHeaders(chunks: seq<Chunk>, n: nat)
    requires n <= |chunks| && FeedInOrder(chunks)
    ensures WantedOnly(chunks, n) != [] ==> WantedOnly(chunks, n)[0].Headers?
    ensures n > 0 ==> WantedOnly(chunks, n) != []
    ensures forall k :: 0 < k < |WantedOnly(chunks, n)| ==> WantedOnly(chunks, n)[k].ClusterChunk?
  {
    hide KeyframeReached;
    if n > 0 {
      WantedHeaders(chunks, n - 1);
      if n == 1 {
        assert WantedOnly(chunks, 0) == [];
        assert WantedOnly(chunks, 1) == [chunks[0]];
      } else {
        assert HeadersBefore(chunks, n - 1) by { assert chunks[0].Headers?; }
      }
    }
  }

  lemma {:induction false} WantedMonotone(chunks: seq<Chunk>, n: nat, from: nat)
    requires n <= |chunks| && Monotone(chunks, from)
    ensures Monotone(WantedOnly(chunks, n), from)
  {
    hide Wanted;
    if n > 0 {
      WantedMonotone(chunks, n - 1, from);
      WantedElements(chunks, n - 1);
      var out, c := WantedOnly(chunks, n - 1), chunks[n - 1];
      forall k | 0 <= k < |out| && out[k].ClusterChunk? && c.ClusterChunk?
        ensures out[k].head.end <= c.head.start
      {
        assert out[k] in chunks[..n - 1];
      }
    }
  }

  /** From `h` on, the first cluster that is let pass before any further Headers is a keyframe. */
  predicate StartsWithKeyframe(chunks: seq<Chunk>, h: nat)
    requires h < |chunks|
  {
    forall i :: h < i < |chunks| && chunks[i].ClusterChunk? && Wanted(chunks, i)
                && (forall k :: h < k < i ==> !chunks[k].Headers? && !Wanted(chunks, k)) ==>
                  KeyframeAt(chunks, i)
  }

  lemma KeyframeIsWanted(chunks: seq<Chunk>, k: nat)
    requires k < |chunks| && KeyframeAt(chunks, k)
    ensures Wanted(chunks, k)
  {
    assert KeyframeReached(chunks, k + 1);
  }

  /** From a keyframe on every cluster is let pass until new Headers come; with `KeyframeFirst`: of
      each stretch exactly the clusters from its first keyframe on. */
  lemma StretchIsSuffix(chunks: seq<Chunk>, i: nat, j: nat)
    requires i < j < |chunks| && chunks[i].ClusterChunk? && chunks[j].ClusterChunk?
    requires forall k :: i < k < j ==> !chunks[k].Headers?
    ensures KeyframeAt(chunks, i) ==> Wanted(chunks, i)
    ensures Wanted(chunks, i) ==> Wanted(chunks, j)
  {
    if KeyframeAt(chunks, i) {
      KeyframeIsWanted(chunks, i);
    }
    if Wanted(chunks, i) {
      var k :| 0 <= k < i + 1 && KeyframeAt(chunks, k) && forall d :: k < d < i + 1 ==> !NewStreamAt(chunks, d);
      assert forall d :: k < d < j + 1 ==> !NewStreamAt(chunks, d);
      assert KeyframeReached(chunks, j + 1);
    }
  }

  lemma KeyframeFirst(chunks: seq<Chunk>, h: nat)
    requires FeedInOrder(chunks) && h < |chunks| && chunks[h].Headers?
    ensures StartsWithKeyframe(chunks, h)
  {
    forall i | h < i < |chunks| && chunks[i].ClusterChunk? && Wanted(chunks, i)
               && (forall k :: h < k < i ==> !chunks[k].Headers? && !Wanted(chunks, k))
      ensures KeyframeAt(chunks, i)
    {
      var k :| 0 <= k < i + 1 && KeyframeAt(chunks, k) && forall d :: k < d < i + 1 ==> !NewStreamAt(chunks, d);
      if k < h {
        assert HeadersBefore(chunks, h) by { assert chunks[0].Headers?; }
        assert NewStreamAt(chunks, h);
      } else if k < i {
        KeyframeIsWanted(chunks, k);
      }
    }
  }

  // ----- The theorem -----

  lemma FixedFeed(received: seq<Chunk>)
    requires FeedInOrder(received)
    ensures FeedInOrder(FixAll(FRESH_FIXER, received))
  {
    FixerOnlyRetimes(FRESH_FIXER, received);
    hide HeadBytes, FixAll, Duration;
  }

  lemma FeedPrefix(feed: seq<Chunk>, received: seq<Chunk>)
    requires FeedInOrder(feed) && received <= feed
    ensures FeedInOrder(received)
  {
  }

  lemma {:induction false} LastHeadersAmong(cs: seq<Chunk>)
    ensures LastHeaders(cs).Some? ==> LastHeaders(cs).value in cs
  {
    if cs != [] {
      LastHeadersAmong(cs[..|cs| - 1]);
    }
  }

  /** What a listener receives is in order, and all of it was sent. */
  lemma {:induction false} ReceivedInOrder(capacity: nat, actions: seq<Action>, i: nat)
    requires capacity > 0 && RelayHistory(Initial(capacity), actions)
    requires i < |Exec(Initial(capacity), actions).listeners|
    ensures var s := Exec(Initial(capacity), actions);
            FeedInOrder(s.listeners[i].received) && forall c :: c in s.listeners[i].received ==> c in s.sent
  {
    RelayIsDisciplined(Initial(capacity), actions);
    NoGaps(capacity, actions);
    HeaderInvariantHolds(capacity, actions);
    var s := Exec(Initial(capacity), actions);
    hide Exec;
    var l := s.listeners[i];
    assert Gapless(l, s) && WellGreeted(l, s);
    FeedStartsWithHeaders(l, s);
    FeedPrefix(Feed(l, s.sent), l.received);
    LastHeadersAmong(s.sent[l.joinedSession..l.joinedAt]);
  }

  /** For every history of the relay with one transmitter at a time, whatever the times in it: the
      fixer gives a listener's chunks other times at most; what the listener is served begins with one
      Headers chunk, followed by clusters only; from the beginning of each transmission that reaches
      the listener on, the first cluster served is a keyframe; and all fixed times are in order exactly
      if they stay within u64, in which case so is what is served. */
  lemma {:induction false} EndToEnd(capacity: nat, actions: seq<Action>, i: nat)
    requires capacity > 0 && RelayHistory(Initial(capacity), actions)
    requires i < |Exec(Initial(capacity), actions).listeners|
    ensures var received := Exec(Initial(capacity), actions).listeners[i].received;
            var fixed, served := FixAll(FRESH_FIXER, received), Served(received);
            && (forall k :: 0 <= k < |received| ==> Retimed(received[k], fixed[k]))
            && served == WantedOnly(fixed, |fixed|)
            && (received != [] ==> served != [] && served[0].Headers?)
            && (forall k :: 0 < k < |served| ==> served[k].ClusterChunk?)
            && (forall h :: 0 <= h < |fixed| && fixed[h].Headers? ==> StartsWithKeyframe(fixed, h))
            && (Monotone(fixed, 0) <==> Fits(FRESH_FIXER, received))
            && (Fits(FRESH_FIXER, received) ==> Monotone(served, 0))
  {
    ReceivedInOrder(capacity, actions, i);
    var received := Exec(Initial(capacity), actions).listeners[i].received;
    hide Exec, RelayHistory, HeadBytes, Retimed, Monotone, Fits;
    FixerOnlyRetimes(FRESH_FIXER, received);
    FixedFeed(received);
    var fixed := FixAll(FRESH_FIXER, received);
    FinderKeepsWanted(fixed, |fixed|);
    WantedHeaders(fixed, |fixed|);
    MonotoneExactly(FRESH_FIXER, received);
    if Fits(FRESH_FIXER, received) {
      WantedMonotone(fixed, |fixed|, 0);
    }
    forall h | 0 <= h < |fixed| && fixed[h].Headers?
      ensures StartsWithKeyframe(fixed, h)
    {
      KeyframeFirst(fixed, h);
    }
  }

  // ----- The bytes that a listener is served -----

  lemma UploadedWellMade(cs: seq<Chunk>, c: Chunk)
    requires Uploaded(cs + [c])
    ensures WellMade(c)
  {
    var p: ParserState, limit: Option<nat> :| cs + [c] <= OkChunks(ChunkRun(p, BuildingHeader([]), limit));
    var outs := ChunkRun(p, BuildingHeader([]), limit);
    hide ChunkRun, Run, WellMade, IsHeaderBytes;
    ChunkRunIsFold(p, BuildingHeader([]), limit);
    NothingWellMade();
    FoldWellMade(BuildingHeader([]), Run(p), limit);
    OkChunksAreOuts(outs);
    assert (cs + [c])[|cs|] == c;
    assert OkChunks(outs)[|cs|] == c;
    assert Ok(c) in outs;
  }

  lemma {:induction false} SentWellMade(capacity: nat, actions: seq<Action>)
    requires RelayHistory(Initial(capacity), actions)
    ensures forall c :: c in Exec(Initial(capacity), actions).sent ==> WellMade(c)
  {
    hide Uploaded, WellMade;
    if actions != [] {
      SentWellMade(capacity, actions[..|actions| - 1]);
      var before, a := Exec(Initial(capacity), actions[..|actions| - 1]), actions[|actions| - 1];
      if a.Send? {
        UploadedWellMade(before.sent[before.sessionStart..], a.chunk);
      }
    }
  }

  lemma RetimedWellMade(c: Chunk, c': Chunk)
    requires Retimed(c, c') && WellMade(c)
    ensures WellMade(c') && (c'.ClusterChunk? ==> c'.head.bytes == HeadBytes(c'.head.start))
  {
    hide HeadBytes, IsHeaderBytes, IsBodyBytes;
  }

  /** For every such history: the bytes that a listener is served read without error, as one header
      run and then the clusters served, each with its fixed start as its one Timecode in front. */
  lemma {:induction false} ServedReadsBack(capacity: nat, actions: seq<Action>, i: nat)
    returns (segments: seq<Segment>)
    requires capacity > 0 && RelayHistory(Initial(capacity), actions)
    requires i < |Exec(Initial(capacity), actions).listeners|
    requires Exec(Initial(capacity), actions).listeners[i].received != []
    ensures var served := Served(Exec(Initial(capacity), actions).listeners[i].received);
            && AllReadAs(served, segments) && segments != [] && segments[0].HeaderRun?
            && Events(AllBytesOf(served)) == Oks(ToEvents(segments))
            && (|served| > 1 ==> HeaderSegments(ToEvents(segments)) == segments)
  {
    EndToEnd(capacity, actions, i);
    ReceivedInOrder(capacity, actions, i);
    SentWellMade(capacity, actions);
    var received := Exec(Initial(capacity), actions).listeners[i].received;
    var fixed, served := FixAll(FRESH_FIXER, received), Served(received);
    hide *;
    WantedElements(fixed, |fixed|);
    assert fixed[..|fixed|] == fixed;
    forall c | c in served
      ensures WellMade(c) && (c.ClusterChunk? ==> c.head.bytes == HeadBytes(c.head.start))
    {
      assert c in fixed;
      var k :| 0 <= k < |fixed| && fixed[k] == c;
      RetimedWellMade(received[k], fixed[k]);
    }
    segments := StreamReads(served);
    FirstReadsAsHeaders(served, segments);
  }

  lemma FirstReadsAsHeaders(chunks: seq<Chunk>, segments: seq<Segment>)
    requires AllReadAs(chunks, segments) && chunks != [] && chunks[0].Headers?
    ensures segments != [] && segments[0].HeaderRun?
  {
  }

  // ----- Uploads whose times leave room for the fixer -----

  predicate HeadInBounds(head: Head, latest: nat) {
    head.start <= latest && head.start <= head.end <= head.start + LONGEST
  }

  predicate OrdinaryItem(item: Item, latest: nat) {
    item.Ok? ==> OrdinaryTimes(item.value, latest)
  }

  lemma HeadStaysInBounds(head: Head, e: WebmElement, latest: nat)
    requires HeadInBounds(head, latest) && OrdinaryTimes(e, latest) && latest + LONGEST < U64_LIMIT
    ensures HeadInBounds(HeadStep(head, e), latest)
    ensures HeadInBounds(NewHead(0), latest)
  {
    hide HeadBytes;
  }

  lemma HeadOfElement(head: Head, buffer: seq<byte>, e: WebmElement, limit: Option<nat>)
    ensures var (s', out) := OnClusterElement(head, buffer, e, limit);
            && (s'.BuildingCluster? ==> s'.head == NewHead(0) || s'.head == HeadStep(head, e))
            && (out.Some? && out.value.Ok? ==> out.value.value == ClusterChunk(head, buffer))
  {
    hide WebmBytes, Noted, UpdatedTimecode, NewHead;
  }

  lemma HeadOfHeaderElement(buffer: seq<byte>, e: WebmElement, limit: Option<nat>)
    ensures var (s', out) := OnHeaderElement(buffer, e, limit);
            && (s'.BuildingCluster? ==> s'.head == NewHead(0))
            && (out.Some? && out.value.Ok? ==> out.value.value.Headers?)
  {
    hide WebmBytes, NewHead;
  }

  lemma ItemInBounds(s: ChunkerState, item: Item, limit: Option<nat>, latest: nat)
    requires !s.End? && OrdinaryItem(item, latest) && latest + LONGEST < U64_LIMIT
    requires s.BuildingCluster? ==> HeadInBounds(s.head, latest)
    ensures var (s', outs) := OnItem(s, item, limit);
            && (s'.BuildingCluster? ==> HeadInBounds(s'.head, latest))
            && (forall out :: out in outs && out.Ok? && out.value.ClusterChunk? ==>
                                HeadInBounds(out.value.head, latest))
  {
    HeadStaysInBounds(Head(false, 0, 0, []), Cluster, latest);
    hide HeadInBounds, NewHead, HeadStep, OnHeaderElement, OnClusterElement;
    if item.Ok? {
      if s.BuildingCluster? {
        HeadStaysInBounds(s.head, item.value, latest);
        HeadOfElement(s.head, s.buffer, item.value, limit);
      } else {
        HeadOfHeaderElement(s.buffer, item.value, limit);
      }
    }
  }

  /** The clusters of an upload begin at its latest Timecode at most and last a block's time at most. */
  lemma {:induction false} FoldInBounds(s: ChunkerState, items: seq<Item>, limit: Option<nat>, latest: nat)
    requires forall item :: item in items ==> OrdinaryItem(item, latest)
    requires latest + LONGEST < U64_LIMIT && (s.BuildingCluster? ==> HeadInBounds(s.head, latest))
    ensures forall out :: out in Fold(s, items, limit) && out.Ok? && out.value.ClusterChunk? ==>
                            HeadInBounds(out.value.head, latest)
    decreases |items|
  {
    hide OnItem, HeadInBounds, OrdinaryItem, Terminal;
    if !s.End? && items != [] {
      assert items[0] in items;
      ItemInBounds(s, items[0], limit, latest);
      FoldInBounds(OnItem(s, items[0], limit).0, items[1..], limit, latest);
    }
  }

  lemma {:induction false} OkChunksAreOuts(outs: seq<Out>)
    ensures forall c :: c in OkChunks(outs) ==> Ok(c) in outs
  {
    if outs != [] {
      OkChunksAreOuts(outs[1..]);
    }
  }

  /** The beginning of the chunks of an upload with non-negative block times and no Timecode above
      `latest`. */
  ghost predicate OrdinaryUpload(cs: seq<Chunk>, latest: nat) {
    exists p: ParserState, limit: Option<nat> ::
      && cs <= OkChunks(ChunkRun(p, BuildingHeader([]), limit))
      && forall item :: item in Run(p) ==> OrdinaryItem(item, latest)
  }

  lemma OrdinaryUploadInBounds(cs: seq<Chunk>, c: Chunk, latest: nat)
    requires OrdinaryUpload(cs + [c], latest) && latest + LONGEST < U64_LIMIT
    ensures Uploaded(cs + [c])
    ensures c.ClusterChunk? ==> HeadInBounds(c.head, latest)
  {
    var p: ParserState, limit: Option<nat> :|
      && cs + [c] <= OkChunks(ChunkRun(p, BuildingHeader([]), limit))
      && forall item :: item in Run(p) ==> OrdinaryItem(item, latest);
    var outs := ChunkRun(p, BuildingHeader([]), limit);
    hide ChunkRun, Run, OrdinaryItem, HeadInBounds;
    ChunkRunIsFold(p, BuildingHeader([]), limit);
    FoldInBounds(BuildingHeader([]), Run(p), limit, latest);
    OkChunksAreOuts(outs);
    assert (cs + [c])[|cs|] == c;
    assert OkChunks(outs)[|cs|] == c;
    assert Ok(c) in outs;
  }

  /** A relay history in which every transmitter sends such an upload. */
  ghost predicate OrdinaryHistory(s: System, actions: seq<Action>, latest: nat) {
    actions == [] ||
    (&& OrdinaryHistory(s, actions[..|actions| - 1], latest)
     && var before, a := Exec(s, actions[..|actions| - 1]), actions[|actions| - 1];
        match a
        case Send(chunk) => && before.active && before.sessionStart <= |before.sent|
                            && OrdinaryUpload(before.sent[before.sessionStart..] + [chunk], latest)
        case _ => RelayStep(before, a))
  }

  lemma {:induction false} OrdinaryIsInBounds(capacity: nat, actions: seq<Action>, latest: nat)
    requires OrdinaryHistory(Initial(capacity), actions, latest) && latest + LONGEST < U64_LIMIT
    ensures RelayHistory(Initial(capacity), actions)
    ensures InBounds(Exec(Initial(capacity), actions).sent, latest, LONGEST)
  {
    hide Uploaded, OrdinaryUpload;
    if actions != [] {
      OrdinaryIsInBounds(capacity, actions[..|actions| - 1], latest);
      var before, a := Exec(Initial(capacity), actions[..|actions| - 1]), actions[|actions| - 1];
      if a.Send? {
        OrdinaryUploadInBounds(before.sent[before.sessionStart..], a.chunk, latest);
      }
    }
  }

  /** If moreover block times are non-negative, Timecodes are at most `latest` and the listener's
      clusters are few enough, then all its times fit, and what it is served is in order of time. */
  lemma {:induction false} EndToEndOrdinary(capacity: nat, actions: seq<Action>, i: nat, latest: nat)
    requires capacity > 0 && OrdinaryHistory(Initial(capacity), actions, latest)
    requires i < |Exec(Initial(capacity), actions).listeners|
    requires latest + LONGEST < U64_LIMIT
    requires 2 * latest + Clusters(Exec(Initial(capacity), actions).listeners[i].received) * (LONGEST + 33) < U64_LIMIT
    ensures RelayHistory(Initial(capacity), actions)
    ensures var received := Exec(Initial(capacity), actions).listeners[i].received;
            Fits(FRESH_FIXER, received) && Monotone(Served(received), 0)
  {
    hide *;
    var s := Exec(Initial(capacity), actions);
    OrdinaryIsInBounds(capacity, actions, latest);
    ReceivedInOrder(capacity, actions, i);
    ReceivedFits(s.listeners[i].received, s.sent, latest);
    EndToEnd(capacity, actions, i);
  }

  lemma ReceivedFits(received: seq<Chunk>, sent: seq<Chunk>, latest: nat)
    requires InBounds(sent, latest, LONGEST) && forall c :: c in received ==> c in sent
    requires 2 * latest + Clusters(received) * (LONGEST + 33) < U64_LIMIT
    ensures Fits(FRESH_FIXER, received)
  {
    hide Clusters, FixAll, Fits, Monotone;
    FixerTimeline(FRESH_FIXER, received, latest, LONGEST, 2 * latest);
    MonotoneExactly(FRESH_FIXER, received);
  }
}
