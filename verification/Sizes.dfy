/** The size of the chunks under limits on parser and chunker. */
module Sizes {
  import opened Wrappers
  import opened Bytes
  import opened Ebml
  import opened Webm
  import opened Reference
  import opened Iterators
  import opened Streams
  import opened StreamParser
  import opened Chunks
  import opened Chunker
  import opened NormalForms
  import opened Meaning
  import opened Contents

  /** What a Tracks or a SimpleBlock is written as stays below `size`. */
  predicate Small(item: Item, size: nat) {
    item.Ok? && (item.value.Tracks? || item.value.Block?) && Supported(item.value) ==>
      WebmBytes(item.value).Ok? && |WebmBytes(item.value).value| < size
  }

  lemma {:induction false} RunIsSmall(p: ParserState, piece: nat)
    requires p.limit.Some? && PiecesAtMost(p.steps, piece) && |p.buffer| < p.limit.value + piece
    ensures forall item :: item in Run(p) ==> Small(item, p.limit.value + piece)
    decreases Size(p)
  {
    BufferBound(p, piece);
    var (r, p') := PollEvent(p);
    hide PollEvent, PiecesAtMost;
    if r.Pending? {
      RunIsSmall(p', piece);
    } else if r.value.Some? {
      assert Small(r.value.value, p.limit.value + piece);
      if !Terminal(r.value.value) {
        RunIsSmall(p', piece);
      }
    }
  }

  /** `bytes` were below the limit before `e` was written to them. */
  predicate LastWrite(bytes: seq<byte>, before: seq<byte>, e: WebmElement, limit: nat) {
    bytes == before + Written(e) && |before| < limit && Readable(e)
  }

  /** Only the last write, of one of the elements read, may have crossed the limit; and what is
      written to a cluster's body is Tracks and SimpleBlocks. */
  ghost predicate Filled(bytes: seq<byte>, limit: nat, items: seq<Item>, inBody: bool) {
    bytes == [] ||
    exists before: seq<byte>, e: WebmElement ::
      LastWrite(bytes, before, e, limit) && Ok(e) in items && !e.Cluster? && (inBody ==> e.Tracks? || e.Block?)
  }

  ghost predicate StateFilled(s: ChunkerState, limit: nat, items: seq<Item>) {
    match s
    case BuildingHeader(buffer) => Filled(buffer, limit, items, false)
    case BuildingCluster(_, buffer) => Filled(buffer, limit, items, true)
    case End => true
  }

  ghost predicate ChunkFilled(c: Chunk, limit: nat, items: seq<Item>) {
    (c.Headers? ==> Filled(c.bytes, limit, items, false)) && (c.ClusterChunk? ==> Filled(c.body, limit, items, true))
  }

  lemma AppendFills(e: WebmElement, buffer: seq<byte>, limit: nat, items: seq<Item>, inBody: bool)
    requires Append(e, buffer, Some(limit)).Ok? && Filled(buffer, limit, items, inBody)
    requires Ok(e) in items && !e.Cluster? && (inBody ==> !StartsStream(e) && !e.Timecode?)
    ensures Filled(Append(e, buffer, Some(limit)).value, limit, items, inBody)
  {
    AppendIs(e, buffer, Some(limit));
    var buffer' := Append(e, buffer, Some(limit)).value;
    if WritesNothing(e) {
      assert buffer' == buffer;
    } else {
      assert LastWrite(buffer', buffer, e, limit);
    }
    hide Written, LastWrite, Append;
  }

  lemma ItemFills(s: ChunkerState, item: Item, limit: nat, items: seq<Item>)
    requires !s.End? && item in items && StateFilled(s, limit, items)
    ensures StateFilled(OnItem(s, item, Some(limit)).0, limit, items)
    ensures forall out :: out in OnItem(s, item, Some(limit)).1 && out.Ok? ==> ChunkFilled(out.value, limit, items)
  {
    assert Filled([], limit, items, true) && Filled([], limit, items, false);
    hide Append, Filled, Noted, UpdatedTimecode, NewHead;
    if item.Ok? {
      var e := item.value;
      var buffer := if s.BuildingCluster? && StartsStream(e) then [] else s.buffer;
      var inBody := s.BuildingCluster? && !StartsStream(e);
      if Append(e, buffer, Some(limit)).Ok? && !e.Cluster? && (inBody ==> !e.Timecode?) {
        AppendFills(e, buffer, limit, items, inBody);
      }
    }
  }

  lemma {:induction false} FoldFills(s: ChunkerState, rest: seq<Item>, limit: nat, items: seq<Item>)
    requires StateFilled(s, limit, items) && forall item :: item in rest ==> item in items
    ensures forall out :: out in Fold(s, rest, Some(limit)) && out.Ok? ==> ChunkFilled(out.value, limit, items)
    decreases |rest|
  {
    hide OnItem, ChunkFilled, StateFilled, Terminal;
    if !s.End? {
      if rest == [] {
        EndFills(s, limit, items);
      } else {
        assert rest[0] in rest;
        ItemFills(s, rest[0], limit, items);
        FoldFills(OnItem(s, rest[0], Some(limit)).0, rest[1..], limit, items);
      }
    }
  }

  lemma EndFills(s: ChunkerState, limit: nat, items: seq<Item>)
    requires StateFilled(s, limit, items)
    ensures forall out :: out in Reported(OnEnd(s).1) && out.Ok? ==> ChunkFilled(out.value, limit, items)
  {
  }

  /** A chunk goes beyond the chunker's limit by its last element at most, whatever the parser. */
  lemma {:induction false} OnlyLastWriteCrosses(p: ParserState, limit: nat)
    ensures forall out :: out in ChunkRun(p, BuildingHeader([]), Some(limit)) && out.Ok? ==>
                            ChunkFilled(out.value, limit, Run(p))
  {
    ChunkRunIsFold(p, BuildingHeader([]), Some(limit));
    hide ChunkFilled, ChunkRun, Fold, Run;
    FoldFills(BuildingHeader([]), Run(p), limit, Run(p));
  }

  /** The longest that one element is written as, when a block or Tracks is shorter than `size`. */
  function LongestWrite(size: nat): nat {
    if size > 15 then size - 1 else 15
  }

  lemma WrittenSize(e: WebmElement, size: nat)
    requires Readable(e) && Small(Ok(e), size) && !e.Cluster?
    ensures |Written(e)| <= LongestWrite(size)
    ensures e.Tracks? || e.Block? ==> |Written(e)| < size
  {
    EbmlHeadExact();
    MarkersExact();
    hide WebmBytes;
    if e.Timecode? {
      TimecodeExact(e.time);
    }
  }

  lemma FilledSize(bytes: seq<byte>, limit: nat, items: seq<Item>, inBody: bool, size: nat)
    requires Filled(bytes, limit, items, inBody) && limit > 0 && size > 0
    requires forall item :: item in items ==> Small(item, size)
    ensures |bytes| <= limit - 1 + LongestWrite(size)
    ensures inBody ==> |bytes| <= limit - 1 + (size - 1)
  {
    hide Small, Written, Readable;
    if bytes != [] {
      var before: seq<byte>, e: WebmElement :|
        LastWrite(bytes, before, e, limit) && Ok(e) in items && !e.Cluster? && (inBody ==> e.Tracks? || e.Block?);
      WrittenSize(e, size);
    }
  }

  predicate BodyAtMost(out: Out, size: nat) {
    out.Ok? && out.value.ClusterChunk? ==> |out.value.body| <= size
  }

  predicate HeadersAtMost(out: Out, size: nat) {
    out.Ok? && out.value.Headers? ==> |out.value.bytes| <= size
  }

  /** With the same limit on parser and chunker and pieces of at most `piece` bytes, no cluster's
      body is longer than twice the limit's last allowed size and one piece, and neither are Headers,
      unless the element that crosses the limit is one that grows when it is written. */
  lemma {:induction false} BodyBound(p: ParserState, limit: nat, piece: nat)
    requires p.buffer == [] && p.limit == Some(limit) && limit > 0 && PiecesAtMost(p.steps, piece)
    ensures forall out :: out in ChunkRun(p, BuildingHeader([]), Some(limit)) ==>
                            BodyAtMost(out, 2 * (limit - 1) + piece)
    ensures forall out :: out in ChunkRun(p, BuildingHeader([]), Some(limit)) ==>
                            HeadersAtMost(out, limit - 1 + if limit - 1 + piece > 15 then limit - 1 + piece else 15)
  {
    OnlyLastWriteCrosses(p, limit);
    RunIsSmall(p, piece);
    hide PiecesAtMost, ChunkRun, Run, Small;
    forall out | out in ChunkRun(p, BuildingHeader([]), Some(limit)) && out.Ok?
      ensures BodyAtMost(out, 2 * (limit - 1) + piece)
      ensures HeadersAtMost(out, limit - 1 + if limit - 1 + piece > 15 then limit - 1 + piece else 15)
    {
      assert ChunkFilled(out.value, limit, Run(p));
      hide Filled;
      if out.value.ClusterChunk? {
        FilledSize(out.value.body, limit, Run(p), true, limit + piece);
      } else if out.value.Headers? {
        FilledSize(out.value.bytes, limit, Run(p), false, limit + piece);
      }
    }
  }

  // ----- The bound is reached -----

  lemma WholeElement(e: WebmElement)
    requires Readable(e)
    ensures CheckSpace(Written(e)).Ok? && CheckSpace(Written(e)).value.Some?
    ensures CheckSpace(Written(e)).value.value.elementLen == |Written(e)|
    ensures DecodeAt(Written(e), CheckSpace(Written(e)).value.value) == Ok(e)
  {
    hide WebmBytes, CheckSpace, Decode;
    WebmRoundTrip(e, []);
    assert Written(e) + [] == Written(e);
  }

  /** An element that arrives in two pieces, the first of them below the limit. */
  lemma TwoPieces(e: WebmElement, k: nat, limit: nat, steps: seq<Step<seq<byte>>>)
    requires Readable(e) && k < |Written(e)| && k < limit
    ensures var p := ParserState([], Some(limit), [Piece(Written(e)[..k]), Piece(Written(e)[k..])] + steps);
            Run(p) == [Ok(e)] + Run(ParserState([], Some(limit), steps))
  {
    hide CheckSpace, Decode, Run, Delivered, WebmBytes, Written;
    var x, y := Written(e)[..k], Written(e)[k..];
    var p := ParserState([], Some(limit), [Piece(x), Piece(y)] + steps);
    var p1 := ParserState(x, Some(limit), [Piece(y)] + steps);
    var p2 := ParserState(x + y, Some(limit), steps);
    WholeElement(e);
    assert x + y == Written(e);
    CheckSpacePrefixStable(x, y);
    CheckSpacePrefixStable([], Written(e));
    assert [] + Written(e) == Written(e);
    assert [] + x == x;
    RunUnfold(p);
    assert p.steps[1..] == [Piece(y)] + steps;
    assert AfterStep(p) == p1;
    RunUnfold(p1);
    assert p1.steps[1..] == steps;
    assert AfterStep(p1) == p2;
    RunUnfold(p2);
    assert AfterElement(p2) == ParserState([], Some(limit), steps);
    NothingBefore(Run(p1));
    NothingBefore(Run(p2));
  }

  lemma NothingBefore(items: seq<Item>)
    ensures [] + items == items
  {
  }

  /** A cluster of two blocks: the first fills the chunker's limit up to the last byte, and the second
      arrives in two pieces, of which the first does the same with the parser's. */
  function LongCluster(a: SimpleBlock, b: SimpleBlock, k: nat): seq<Step<seq<byte>>>
    requires k <= |Written(Block(b))|
  {
    var last := Written(Block(b));
    [Piece([]), Piece(Written(Cluster)), Piece([]), Piece(Written(Block(a))), Piece(last[..k]), Piece(last[k..])]
  }

  lemma BlockTaken(head: Head, buffer: seq<byte>, block: SimpleBlock, items: seq<Item>, limit: nat)
    requires Readable(Block(block)) && |buffer| < limit
    ensures Fold(BuildingCluster(head, buffer), [Ok(Block(block))] + items, Some(limit))
         == Fold(BuildingCluster(Noted(head, block), buffer + Written(Block(block))), items, Some(limit))
  {
    WebmRoundTrip(Block(block), []);
    hide WebmBytes, Noted, DecodeElement;
    assert Append(Block(block), buffer, Some(limit)) == Ok(buffer + Written(Block(block)));
    hide Append, Written;
    assert ([Ok(Block(block))] + items)[1..] == items;
    var s' := BuildingCluster(Noted(head, block), buffer + Written(Block(block)));
    assert [] + Fold(s', items, Some(limit)) == Fold(s', items, Some(limit));
  }

  lemma ClusterOfTwo(a: SimpleBlock, b: SimpleBlock, limit: nat)
    requires Readable(Block(a)) && Readable(Block(b))
    requires limit > 0 && |Written(Block(a))| < limit
    ensures var items: seq<Item> := [Ok(Cluster), Ok(Block(a)), Ok(Block(b))];
            exists out :: out in Fold(BuildingHeader([]), items, Some(limit))
              && out.Ok? && out.value.ClusterChunk? && out.value.body == Written(Block(a)) + Written(Block(b))
  {
    var wa, wb := Written(Block(a)), Written(Block(b));
    var items: seq<Item> := [Ok(Cluster), Ok(Block(a)), Ok(Block(b))];
    var head := Noted(Noted(NewHead(0), a), b);
    hide Written, Readable, Noted, NewHead;
    BlockTaken(NewHead(0), [], a, items[2..], limit);
    BlockTaken(Noted(NewHead(0), a), wa, b, [], limit);
    assert [] + wa == wa;
    assert items[1..] == [Ok(Block(a))] + items[2..] && items[2..] == [Ok(Block(b))] + [];
    var last: Out := Ok(ClusterChunk(head, wa + wb));
    assert Fold(BuildingCluster(head, wa + wb), [], Some(limit)) == [last];
    var outs := Fold(BuildingHeader([]), items, Some(limit));
    assert outs == [Ok(Headers([]))] + [last];
    assert last == outs[1];
  }

  /** So the bound is reached, whenever there are blocks of the right sizes. */
  lemma {:induction false} BoundReached(a: SimpleBlock, b: SimpleBlock, limit: nat, piece: nat)
    requires Readable(Block(a)) && Readable(Block(b)) && 5 <= piece
    requires |Written(Block(a))| == limit - 1 <= piece && |Written(Block(b))| == limit - 1 + piece
    ensures var p := ParserState([], Some(limit), LongCluster(a, b, limit - 1));
            && PiecesAtMost(p.steps, piece)
            && exists out :: out in ChunkRun(p, BuildingHeader([]), Some(limit))
                 && out.Ok? && out.value.ClusterChunk? && |out.value.body| == 2 * (limit - 1) + piece
  {
    hide WebmBytes, Run, Fold, ChunkRun, DecodeElement;
    var steps := LongCluster(a, b, limit - 1);
    MarkersExact();
    WebmRoundTrip(Cluster, []);
    WebmRoundTrip(Block(a), []);
    TwoPieces(Cluster, 0, limit, steps[2..]);
    TwoPieces(Block(a), 0, limit, steps[4..]);
    TwoPieces(Block(b), limit - 1, limit, []);
    var wc, wa, wb := Written(Cluster), Written(Block(a)), Written(Block(b));
    assert wc[..0] == [] && wc[0..] == wc && wa[..0] == [] && wa[0..] == wa;
    assert steps == [Piece([]), Piece(wc)] + steps[2..];
    assert steps[2..] == [Piece([]), Piece(wa)] + steps[4..];
    assert steps[4..] == [Piece(wb[..limit - 1]), Piece(wb[limit - 1..])] + [];
    hide Written, Readable, LongCluster;
    NothingRuns(limit);
    var p := ParserState([], Some(limit), steps);
    assert Run(p) == [Ok(Cluster), Ok(Block(a)), Ok(Block(b))];
    ClusterOfTwo(a, b, limit);
    ChunkRunIsFold(p, BuildingHeader([]), Some(limit));
  }

  lemma NothingRuns(limit: nat)
    ensures Run(ParserState([], Some(limit), [])) == [] || limit == 0
  {
    NoEvents();
  }

  /** For instance with the limit 7 and pieces of 6 bytes: the body has 18 bytes. */
  lemma {:induction false} BoundIsSharp() returns (p: ParserState)
    ensures p.buffer == [] && p.limit == Some(7) && PiecesAtMost(p.steps, 6)
    ensures exists out :: out in ChunkRun(p, BuildingHeader([]), Some(7))
              && out.Ok? && out.value.ClusterChunk? && |out.value.body| == 2 * (7 - 1) + 6
  {
    var a, b := SimpleBlock(1, 0, 0, []), SimpleBlock(1, 0, 0, [0, 0, 0, 0, 0, 0]);
    SmallBlockExact(a);
    SmallBlockExact(b);
    hide Written, ChunkRun;
    I16RoundTrip(0);
    BoundReached(a, b, 7, 6);
    p := ParserState([], Some(7), LongCluster(a, b, 6));
  }

  /** The limit that the relay sets on both its parser and its chunker: 2 MiB. */
  const BUFFER_LIMIT: nat := 2 * 1024 * 1024

  function BlockOfSize(n: nat): SimpleBlock {
    SimpleBlock(1, 0, 0, seq(n, _ => 0))
  }

  lemma BlockLength(n: nat, width: nat)
    requires 1 <= width <= 8 && 4 + n < Pow2(7 * width) - 1
    requires width > 1 ==> 4 + n >= Pow2(7 * (width - 1)) - 1
    requires 4 + n <= EIGHT_MAX
    ensures Readable(Block(BlockOfSize(n)))
    ensures |Written(Block(BlockOfSize(n)))| == 1 + width + 4 + n
  {
    var block := BlockOfSize(n);
    BlockIsSized(block);
    MinWidthIs(4 + n, width);
    ShortVarint(SIMPLE_BLOCK_ID);
    TagHeaderEncodable(SIMPLE_BLOCK_ID, Value(4 + n));
    TagHeaderLength(SIMPLE_BLOCK_ID, Value(4 + n));
    Pow2Table();
    MinWidthIs(SIMPLE_BLOCK_ID, 1);
    hide VarintBytes, TagHeaderBytes, Pow2, BlockPayload;
  }

  /** A cluster of almost three times the relay's limit, from pieces that are each below it. */
  lemma {:induction false} RelayLimitExceeded() returns (p: ParserState)
    ensures p.buffer == [] && p.limit == Some(BUFFER_LIMIT) && PiecesAtMost(p.steps, BUFFER_LIMIT - 1)
    ensures exists out :: out in ChunkRun(p, BuildingHeader([]), Some(BUFFER_LIMIT))
              && out.Ok? && out.value.ClusterChunk? && |out.value.body| == 3 * (BUFFER_LIMIT - 1)
  {
    var n, m := BUFFER_LIMIT - 1 - 8, 2 * (BUFFER_LIMIT - 1) - 9;
    Pow2Table();
    hide ChunkRun, Written, Readable, Pow2, BlockOfSize;
    BlockLength(n, 3);
    BlockLength(m, 4);
    BoundReached(BlockOfSize(n), BlockOfSize(m), BUFFER_LIMIT, BUFFER_LIMIT - 1);
    p := ParserState([], Some(BUFFER_LIMIT), LongCluster(BlockOfSize(n), BlockOfSize(m), BUFFER_LIMIT - 1));
  }
}
