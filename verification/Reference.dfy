/** The encoder against bytes known from elsewhere. */
module Reference {
  import opened Wrappers
  import opened Bytes
  import opened Ebml
  import opened Webm
  import opened Chunks

  lemma FourByteId(id: u64, a: nat, b: nat, c: nat, d: nat)
    requires 0x1F_FFFF <= id < 0xFFF_FFFF && a < 256 && b < 256 && c < 256 && d < 256
    requires 0x100_0000 * a + 0x1_0000 * b + 0x100 * c + d == 0x1000_0000 + id
    ensures VarintBytes(Value(id)) == Ok([a, b, c, d])
  {
    Pow2Table();
    MinWidthIs(id, 4);
    FourBytes(a, b, c, d);
    hide Pow2, ToBigEndian;
  }

  lemma FourBytes(a: nat, b: nat, c: nat, d: nat)
    requires a < 256 && b < 256 && c < 256 && d < 256
    ensures ToBigEndian(0x100_0000 * a + 0x1_0000 * b + 0x100 * c + d, 4) == [a, b, c, d]
  {
    var bs: seq<byte> := [a, b, c, d];
    BigEndianNext(bs, 0);
    BigEndianNext(bs, 1);
    BigEndianNext(bs, 2);
    BigEndianNext(bs, 3);
    assert bs[..4] == bs;
    ToBigEndianInverse(bs);
    hide ToBigEndian, BigEndian;
  }

  lemma ShortVarint(n: u64)
    requires n < 0x7F
    ensures VarintBytes(Value(n)) == Ok([0x80 + n])
  {
    Pow2Table();
    MinWidthIs(n, 1);
    OneByte(0x80 + n);
    hide Pow2, ToBigEndian;
  }

  /** The element IDs are those registered in section 27.1 of RFC 9559 and section 17.1 of RFC 8794. */
  lemma {:induction false} RegisteredIds()
    ensures VarintBytes(Value(EBML_HEAD_ID)) == Ok([0x1A, 0x45, 0xDF, 0xA3])
    ensures VarintBytes(Value(SEGMENT_ID)) == Ok([0x18, 0x53, 0x80, 0x67])
    ensures VarintBytes(Value(SEEK_HEAD_ID)) == Ok([0x11, 0x4D, 0x9B, 0x74])
    ensures VarintBytes(Value(SEGMENT_INFO_ID)) == Ok([0x15, 0x49, 0xA9, 0x66])
    ensures VarintBytes(Value(CUES_ID)) == Ok([0x1C, 0x53, 0xBB, 0x6B])
    ensures VarintBytes(Value(TRACKS_ID)) == Ok([0x16, 0x54, 0xAE, 0x6B])
    ensures VarintBytes(Value(CLUSTER_ID)) == Ok([0x1F, 0x43, 0xB6, 0x75])
    ensures VarintBytes(Value(VOID_ID)) == Ok([0xEC])
    ensures VarintBytes(Value(TIMECODE_ID)) == Ok([0xE7])
    ensures VarintBytes(Value(SIMPLE_BLOCK_ID)) == Ok([0xA3])
    ensures VarintBytes(Value(DOC_TYPE_ID)) == Ok([0x42, 0x82])
  {
    hide VarintBytes;
    FourByteId(EBML_HEAD_ID, 0x1A, 0x45, 0xDF, 0xA3);
    FourByteId(SEGMENT_ID, 0x18, 0x53, 0x80, 0x67);
    FourByteId(SEEK_HEAD_ID, 0x11, 0x4D, 0x9B, 0x74);
    FourByteId(SEGMENT_INFO_ID, 0x15, 0x49, 0xA9, 0x66);
    FourByteId(CUES_ID, 0x1C, 0x53, 0xBB, 0x6B);
    FourByteId(TRACKS_ID, 0x16, 0x54, 0xAE, 0x6B);
    FourByteId(CLUSTER_ID, 0x1F, 0x43, 0xB6, 0x75);
    ShortVarint(VOID_ID);
    ShortVarint(TIMECODE_ID);
    ShortVarint(SIMPLE_BLOCK_ID);
    DocTypeId();
  }

  lemma DocTypeId()
    ensures VarintBytes(Value(DOC_TYPE_ID)) == Ok([0x42, 0x82])
  {
    Pow2Table();
    MinWidthIs(DOC_TYPE_ID, 2);
    var bs: seq<byte> := [0x42, 0x82];
    BigEndianNext(bs, 0);
    BigEndianNext(bs, 1);
    assert bs[..2] == bs;
    ToBigEndianInverse(bs);
    hide Pow2, ToBigEndian, BigEndian;
  }

  /** The header that is made up for every stream: an EbmlHead with just the document type "webm". */
  lemma {:induction false} EbmlHeadExact()
    ensures Written(EbmlHead) == [0x1A, 0x45, 0xDF, 0xA3] + [0x10, 0, 0, 7] + ([0x42, 0x82] + [0x84] + WEBM_DOC_TYPE)
  {
    FourByteId(EBML_HEAD_ID, 0x1A, 0x45, 0xDF, 0xA3);
    DocTypeId();
    ShortVarint(4);
    FourBytes(0x10, 0, 0, 7);
    hide VarintBytes, ToBigEndian;
    assert |SizedBytes(DOC_TYPE_ID, WEBM_DOC_TYPE).value| == 7;
  }

  lemma {:induction false} MarkersExact()
    ensures Written(Segment) == [0x18, 0x53, 0x80, 0x67] + [0xFF]
    ensures Written(Cluster) == [0x1F, 0x43, 0xB6, 0x75] + [0xFF]
  {
    FourByteId(SEGMENT_ID, 0x18, 0x53, 0x80, 0x67);
    FourByteId(CLUSTER_ID, 0x1F, 0x43, 0xB6, 0x75);
    assert VarintBytes(Unknown) == Ok([0xFF]);
    hide VarintBytes;
  }

  lemma TimecodeExact(time: u64)
    ensures Written(Timecode(time)) == [0xE7] + [0x88] + ToBigEndian(time, 8)
  {
    ShortVarint(TIMECODE_ID);
    ShortVarint(8);
    hide VarintBytes, ToBigEndian;
  }

  /** What the two forms of varint can hold. */
  lemma {:induction false} RangesExact(value: u64)
    ensures VarintBytes(Value(value)).Ok? <==> value <= 72057594037927934
    ensures FixedVarintBytes(Value(value)).Ok? <==> value <= 268435454
  {
    VarintRoundTrip(Value(value), []);
    FixedVarintRoundTrip(Value(value), []);
    hide VarintAt, ToBigEndian;
  }

  /** A small SimpleBlock: id, size, track, time, flags, data. */
  lemma {:induction false} SmallBlockExact(block: SimpleBlock)
    requires block.track <= 31 && |block.data| < 123
    ensures Written(Block(block))
         == [0xA3] + [0x84 + |block.data|]
            + ([0x80 + block.track] + (I16Bytes(block.timecode) + [block.flags] + block.data))
  {
    ShortVarint(SIMPLE_BLOCK_ID);
    ShortVarint(4 + |block.data|);
    ShortVarint(block.track);
    hide VarintBytes, I16Bytes;
  }
}
