/** The order of the chunks, over whole runs with errors and limits. */
module Grammar {
  import opened Wrappers
  import opened Bytes
  import opened Webm
  import opened Iterators
  import opened StreamParser
  import opened Chunks
  import opened Chunker
  import opened NormalForms
  import opened Meaning

  /** The bytes of a header run that begins with an EbmlHead or a Segment. */
  predicate HeadersBegin(bytes: seq<byte>) {
    Written(EbmlHead) <= bytes || Written(Segment) <= bytes
  }

  /** Only Headers and clusters, no Headers right behind Headers, and all Headers but those at the
      front begin a stream. */
  predicate Alternates(cs: seq<Chunk>) {
    && (forall i :: 0 <= i < |cs| ==> cs[i].Headers? || cs[i].ClusterChunk?)
    && (forall i :: 0 < i < |cs| && cs[i].Headers? ==> cs[i - 1].ClusterChunk? && HeadersBegin(cs[i].bytes))
  }

  /** A prefix of (Headers Cluster+)*. */
  predicate ChunkGrammar(cs: seq<Chunk>) {
    Alternates(cs) && (cs != [] ==> cs[0].Headers?)
  }

  lemma GrammarPrefixClosed(cs: seq<Chunk>, n: nat)
    requires ChunkGrammar(cs) && n <= |cs|
    ensures ChunkGrammar(cs[..n])
  {
    hide HeadersBegin;
  }

  lemma AlternatesCons(c: Chunk, cs: seq<Chunk>)
    requires Alternates(cs) && (c.Headers? || c.ClusterChunk?)
    requires cs != [] && cs[0].Headers? ==> c.ClusterChunk? && HeadersBegin(cs[0].bytes)
    ensures Alternates([c] + cs)
  {
    hide HeadersBegin;
  }

  /** Errors that end a run for good. */
  predicate Aborts(out: Out) {
    TerminalOut(out) || (out.Err? && out.error.IoFailure?)
  }

  predicate NoneAborts(outs: seq<Out>) {
    forall out :: out in outs ==> !Aborts(out)
  }

  predicate EndsInCluster(cs: seq<Chunk>) {
    cs != [] ==> cs[|cs| - 1].ClusterChunk?
  }

  /** What a run from state `s` promises of its chunks. */
  predicate Promised(s: ChunkerState, outs: seq<Out>) {
    var cs := OkChunks(outs);
    && Alternates(cs)
    && (s.BuildingHeader? && cs != [] ==> cs[0].Headers? && s.buffer <= cs[0].bytes)
    && (s.BuildingCluster? && cs != [] ==> cs[0].ClusterChunk?)
    && (NoneAborts(outs) ==> EndsInCluster(cs) && (s.BuildingCluster? ==> cs != []))
    && (s.End? ==> outs == [])
  }

  lemma PromisedPrepend(s: ChunkerState, first: seq<Out>, s': ChunkerState, outs: seq<Out>)
    requires |first| <= 1 && Promised(s', outs)
    requires first == [] ==> (s.BuildingHeader? && s'.BuildingHeader? && s.buffer <= s'.buffer)
                             || (s.BuildingCluster? && s'.BuildingCluster?)
    requires first != [] && first[0].Err? ==> (s == s' && !s.End?) || (!s.End? && Aborts(first[0]) && outs == [])
    requires first != [] && first[0].Ok? ==>
               if s.BuildingHeader? then first[0].value == Headers(s.buffer) && s'.BuildingCluster?
               else && s.BuildingCluster? && first[0].value.ClusterChunk?
                    && (s'.BuildingCluster? || (s'.BuildingHeader? && HeadersBegin(s'.buffer)) || (s'.End?))
    ensures Promised(s, first + outs)
  {
    hide HeadersBegin, Aborts;
    var cs := OkChunks(outs);
    if first == [] {
      assert first + outs == outs;
    } else {
      assert (first + outs)[1..] == outs;
      assert forall out :: out in outs ==> out in first + outs;
      if first[0].Ok? {
        assert OkChunks(first + outs) == [first[0].value] + cs;
        if cs != [] && cs[0].Headers? {
          HeadersBeginExtends(s'.buffer, cs[0].bytes);
        }
        AlternatesCons(first[0].value, cs);
      } else {
        assert OkChunks(first + outs) == [] + cs == cs;
        assert first[0] in first + outs;
      }
    }
  }

  lemma HeadersBeginExtends(a: seq<byte>, b: seq<byte>)
    requires a <= b && HeadersBegin(a)
    ensures HeadersBegin(b)
  {
    hide Written;
  }

  lemma HeaderElementShape(buffer: seq<byte>, e: WebmElement, limit: Option<nat>)
    ensures match OnHeaderElement(buffer, e, limit)
            case (s', None) => s'.BuildingHeader? && buffer <= s'.buffer
            case (s', Some(Ok(c))) => c == Headers(buffer) && s'.BuildingCluster?
            case (s', Some(Err(e))) => s'.End? && Aborts(Err(e))
  {
    hide WebmBytes, HeadBytes;
  }

  lemma ClusterElementShape(head: Head, buffer: seq<byte>, e: WebmElement, limit: Option<nat>)
    ensures match OnClusterElement(head, buffer, e, limit)
            case (s', None) => s'.BuildingCluster?
            case (s', Some(Ok(c))) =>
              c.ClusterChunk? && (s'.BuildingCluster? || (s'.BuildingHeader? && HeadersBegin(s'.buffer)))
            case (s', Some(Err(e))) => s'.End? && Aborts(Err(e))
  {
    hide WebmBytes, HeadBytes, Noted, UpdatedTimecode;
    if StartsStream(e) && Append(e, [], limit).Ok? {
      assert Append(e, [], limit).value == [] + Written(e) == Written(e);
    }
  }

  lemma ItemKeepsPromise(s: ChunkerState, item: Item, limit: Option<nat>, outs: seq<Out>)
    requires !s.End? && Promised(OnItem(s, item, limit).0, outs)
    requires Terminal(item) ==> outs == []
    ensures Promised(s, OnItem(s, item, limit).1 + outs)
  {
    var (s', first) := OnItem(s, item, limit);
    if item.Ok? {
      match s
      case BuildingHeader(buffer) => HeaderElementShape(buffer, item.value, limit);
      case BuildingCluster(head, buffer) => ClusterElementShape(head, buffer, item.value, limit);
    }
    assert s'.End? ==> outs == [];
    hide OnHeaderElement, OnClusterElement, Promised;
    PromisedPrepend(s, first, s', outs);
  }

  /** Whatever the items, the limit and the errors in between, a run keeps the promise. */
  lemma {:induction false} FoldKeepsPromise(s: ChunkerState, items: seq<Item>, limit: Option<nat>)
    ensures Promised(s, Fold(s, items, limit))
    decreases |items|
  {
    hide OnElement;
    if !s.End? {
      if items == [] {
        EndKeepsPromise(s);
      } else if Terminal(items[0]) {
        TerminalKeepsPromise(s, items[0]);
      } else {
        FoldKeepsPromise(OnItem(s, items[0], limit).0, items[1..], limit);
        ItemKeepsPromise(s, items[0], limit, Fold(OnItem(s, items[0], limit).0, items[1..], limit));
      }
    }
  }

  lemma EndKeepsPromise(s: ChunkerState)
    requires !s.End?
    ensures Promised(s, Reported(OnEnd(s).1))
  {
    var outs := Reported(OnEnd(s).1);
    if s.BuildingCluster? {
      assert outs[1..] == [];
      assert OkChunks(outs) == [ClusterChunk(s.head, s.buffer)];
    }
  }

  lemma TerminalKeepsPromise(s: ChunkerState, item: Item)
    requires !s.End? && Terminal(item)
    ensures Promised(s, [Err(item.error)] + [])
  {
    var outs: seq<Out> := [Err(item.error)];
    assert outs + [] == outs;
    assert outs[0] in outs && Aborts(outs[0]);
    assert outs[1..] == [];
  }

  /** Over whole runs, under any limits, with source errors passed on and polling resumed: the
      chunks are a prefix of (Headers Cluster+)*, all Headers behind the first begin with an
      EbmlHead or a Segment, and a run that is not broken off ends with a cluster, if at all. */
  lemma {:induction false} ChunkRunGrammar(p: ParserState, limit: Option<nat>)
    ensures var outs := ChunkRun(p, BuildingHeader([]), limit);
            && ChunkGrammar(OkChunks(outs))
            && (NoneAborts(outs) ==> EndsInCluster(OkChunks(outs)))
  {
    ChunkRunIsFold(p, BuildingHeader([]), limit);
    FoldKeepsPromise(BuildingHeader([]), Run(p), limit);
  }
}
