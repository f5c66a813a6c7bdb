/** Chunks of WebM: a run of headers, or one cluster with its head kept apart. */
module Chunks {
  import opened Wrappers
  import opened Bytes
  import opened Ebml
  import opened Cursors
  import opened Webm

  /** The value of a `ClusterHead`. Times are in the unit of the Timecode element. */
  datatype Head = Head(keyframe: bool, start: u64, end: u64, bytes: seq<byte>)

  datatype Chunk =
    | Headers(bytes: seq<byte>)
    | ClusterChunk(head: Head, body: seq<byte>)
    | RemainingBody(bytes: seq<byte>)
    | Empty

  /** What an element is written as, or nothing if it cannot be written. */
  function Written(element: WebmElement): seq<byte> {
    match WebmBytes(element)
    case Ok(bs) => bs
    case Err(_) => []
  }

  /** A Cluster tag and a Timecode. */
  function HeadBytes(timecode: u64): seq<byte> {
    Written(Cluster) + Written(Timecode(timecode))
  }

  /** The duration of a cluster, on which `update_timecode` and the fixer rely. */
  function Duration(head: Head): u64 {
    WrappingSub(head.end, head.start)
  }

  function UpdatedTimecode(head: Head, timecode: u64): Head {
    Head(head.keyframe, timecode, WrappingAdd(timecode, Duration(head)), HeadBytes(timecode))
  }

  function NewHead(timecode: u64): Head {
    UpdatedTimecode(Head(false, 0, 0, []), timecode)
  }

  function Observed(head: Head, timecode: i16): Head {
    var absolute := WrappingAdd(head.start, SignExtend(timecode));
    if absolute > head.start then head.(end := absolute) else head
  }

  /** A head always fits the 15 bytes set aside for it. */
  lemma {:induction false} HeadIsFifteenBytes(timecode: u64)
    ensures WebmBytes(Cluster).Ok? && WebmBytes(Timecode(timecode)).Ok?
    ensures |WebmBytes(Cluster).value| == 5
    ensures |HeadBytes(timecode)| == 15
  {
    hide VarintBytes, Decode, DecodeElement, ToBigEndian, Pow2;
    Pow2Table();
    MinWidthIs(CLUSTER_ID, 4);
    TagHeaderEncodable(CLUSTER_ID, Unknown);
    TagHeaderLength(CLUSTER_ID, Unknown);
    TimecodeRoundTrip(timecode, []);
  }

  /** A new time leaves the duration as it was, whatever the times were. */
  lemma UpdateKeepsDuration(head: Head, timecode: u64)
    ensures Duration(UpdatedTimecode(head, timecode)) == Duration(head)
  {
  }

  class ClusterHead {
    var keyframe: bool
    var start: u64
    var end: u64
    var bytes: seq<byte>

    ghost function Value(): Head
      reads this
    {
      Head(keyframe, start, end, bytes)
    }

    constructor (timecode: u64)
      ensures Value() == NewHead(timecode)
    {
      keyframe, start, end, bytes := false, 0, 0, [];
      new;
      UpdateTimecode(timecode);
    }

    /** Taking over a head that was made elsewhere. */
    constructor Of(head: Head)
      ensures Value() == head
    {
      keyframe, start, end, bytes := head.keyframe, head.start, head.end, head.bytes;
    }

    method UpdateTimecode(timecode: u64)
      modifies this
      ensures Value() == UpdatedTimecode(old(Value()), timecode)
    {
      hide WebmBytes;
      var delta := WrappingSub(end, start);
      start := timecode;
      end := WrappingAdd(start, delta);
      var cursor := new Cursor();
      HeadIsFifteenBytes(timecode);
      var r := EncodeWebmElement(Cluster, cursor);
      assert r.Ok? && cursor.data == Written(Cluster);
      r := EncodeWebmElement(Timecode(timecode), cursor);
      assert r.Ok? && cursor.pos <= 15;
      bytes := cursor.data[..cursor.pos];
    }

    method ObserveSimpleblockTimecode(timecode: i16)
      modifies this
      ensures Value() == Observed(old(Value()), timecode)
    {
      var absoluteTimecode := WrappingAdd(start, SignExtend(timecode));
      if absoluteTimecode > start {
        end := absoluteTimecode;
      }
    }
  }

  predicate Overlaps(chunk: Chunk, start: nat, stop: nat) {
    chunk.ClusterChunk? ==> chunk.head.start <= stop && chunk.head.end >= start
  }

  predicate IsCommonTime(head: Head, start: nat, stop: nat, t: nat) {
    start <= t <= stop && head.start <= t <= head.end
  }

  /** Exactly the clusters that overlap a window have a time in common with it, ends included,
      provided that both are the right way round; of one that is not, no time is common. */
  lemma OverlapsMeansCommonTime(chunk: Chunk, start: nat, stop: nat)
    requires chunk.ClusterChunk?
    ensures (exists t :: IsCommonTime(chunk.head, start, stop, t)) <==>
              Overlaps(chunk, start, stop) && chunk.head.start <= chunk.head.end && start <= stop
  {
    if Overlaps(chunk, start, stop) && chunk.head.start <= chunk.head.end && start <= stop {
      assert IsCommonTime(chunk.head, start, stop, if start <= chunk.head.start then chunk.head.start else start);
    }
  }

  /** The byte strings that iterating over a chunk yields. */
  function Pieces(chunk: Chunk): seq<seq<byte>> {
    match chunk
    case Headers(bytes) => [bytes]
    case ClusterChunk(head, body) => [head.bytes, body]
    case RemainingBody(bytes) => [bytes]
    case Empty => []
  }

  function ChunkBytes(chunk: Chunk): seq<byte> {
    match chunk
    case Headers(bytes) => bytes
    case ClusterChunk(head, body) => head.bytes + body
    case RemainingBody(bytes) => bytes
    case Empty => []
  }

  class ChunkIterator {
    var chunk: Chunk

    constructor (chunk: Chunk)
      ensures this.chunk == chunk
    {
      this.chunk := chunk;
    }

    /** Yields the pieces in order; what is still to come is always the rest of the chunk's bytes. */
    method Next() returns (r: Option<seq<byte>>)
      modifies this
      ensures Pieces(old(chunk)) == [] ==> r == None && chunk == old(chunk)
      ensures Pieces(old(chunk)) != [] ==> r == Some(Pieces(old(chunk))[0]) && Pieces(chunk) == Pieces(old(chunk))[1..]
      ensures r.Some? ==> ChunkBytes(old(chunk)) == r.value + ChunkBytes(chunk)
    {
      match chunk {
        case Headers(bytes) =>
          chunk := Empty;
          r := Some(bytes);
        case ClusterChunk(head, body) =>
          chunk := RemainingBody(body);
          r := Some(head.bytes);
        case RemainingBody(bytes) =>
          chunk := Empty;
          r := Some(bytes);
        case Empty =>
          r := None;
      }
    }
  }
}
