/** What the bytes of every kind of element read as, said in bytes. */
module Readings {
  import opened Wrappers
  import opened Bytes
  import opened Ebml
  import opened Webm
  import opened Reference
  import opened Iterators

  /** `bs` is one whole varint, in whatever width. */
  predicate IsVarint(bs: seq<byte>, varint: Varint) {
    VarintAt(bs) == Ok(Some((varint, |bs|)))
  }

  /** An element as it lies in a byte string. */
  function Laid(id: seq<byte>, size: seq<byte>, payload: seq<byte>): seq<byte> {
    (id + size) + payload
  }

  /** In front of `rest`, `bytes` read as the element `e` and nothing more. */
  predicate ReadsAs(bytes: seq<byte>, e: WebmElement, rest: seq<byte>) {
    DecodeElement(bytes + rest) == Ok(Some((e, |bytes|))) && Events(bytes + rest) == [Ok(e)] + Events(rest)
  }

  /** In front of `rest`, `bytes` are an element that cannot be decoded and is passed over. */
  predicate ReadsCorrupt(bytes: seq<byte>, rest: seq<byte>) {
    && DecodeElement(bytes + rest) == Err(CorruptPayload)
    && Events(bytes + rest) == [Err(EbmlFailure(CorruptPayload))] + Events(rest)
  }

  /** Reading cannot go on from `bytes`, whatever comes. */
  predicate ReadsNoFurther(bytes: seq<byte>, error: EbmlError) {
    DecodeElement(bytes) == Err(error) && Events(bytes) == [Err(EbmlFailure(error))]
  }

  lemma HeaderAt(id: seq<byte>, number: u64, size: seq<byte>, varint: Varint, rest: seq<byte>)
    requires IsVarint(id, Value(number)) && IsVarint(size, varint)
    ensures DecodeTag((id + size) + rest) == Ok(Some((number, varint, |id + size|)))
  {
    VarintPrefixStable(id, size + rest);
    VarintPrefixStable(size, rest);
    hide VarintAt;
    assert (id + size) + rest == id + (size + rest);
    assert (id + (size + rest))[|id|..] == size + rest;
  }

  // ----- Segment and Cluster -----

  /** Segment and Cluster are their headers alone, whatever size they say and in whatever width. */
  lemma {:induction false} MarkersReadAsHeaders(size: seq<byte>, varint: Varint, rest: seq<byte>)
    requires IsVarint(size, varint)
    ensures ReadsAs([0x18, 0x53, 0x80, 0x67] + size, Segment, rest)
    ensures ReadsAs([0x1F, 0x43, 0xB6, 0x75] + size, Cluster, rest)
  {
    RegisteredIds();
    MarkerReads([0x18, 0x53, 0x80, 0x67], 0x08538067, Segment, size, varint, rest);
    MarkerReads([0x1F, 0x43, 0xB6, 0x75], 0x0F43B675, Cluster, size, varint, rest);
    hide ReadsAs;
  }

  lemma MarkerReads(id: seq<byte>, number: u64, e: WebmElement, size: seq<byte>, varint: Varint, rest: seq<byte>)
    requires VarintBytes(Value(number)) == Ok(id) && IsVarint(size, varint)
    requires (number == 0x08538067 && e == Segment) || (number == 0x0F43B675 && e == Cluster)
    ensures ReadsAs(id + size, e, rest)
  {
    IdReads(id, number);
    HeaderAt(id, number, size, varint, rest);
    MarkerKind(number, e);
    hide VarintAt, VarintBytes, DecodeTag, Decode;
    var bytes := id + size;
    MarkerSpace(bytes, number, varint, rest);
    PayloadIn(bytes, [], rest);
    assert bytes + [] == bytes;
    hide ReadsAs;
    FirstElement(bytes, rest, EbmlLayout(number, |bytes|, |bytes|), []);
  }

  lemma MarkerSpace(header: seq<byte>, number: u64, varint: Varint, rest: seq<byte>)
    requires DecodeTag(header + rest) == Ok(Some((number, varint, |header|)))
    requires number == 0x08538067 || number == 0x0F43B675
    ensures CheckSpace(header + rest) == Ok(Some(EbmlLayout(number, |header|, |header|)))
  {
    hide DecodeTag;
  }

  lemma MarkerKind(number: u64, e: WebmElement)
    requires (number == 0x08538067 && e == Segment) || (number == 0x0F43B675 && e == Cluster)
    ensures Decode(number, []) == Ok(e)
  {
  }

  /** What the layout of an element in front of `rest` says about reading it. */
  lemma FirstElement(bytes: seq<byte>, rest: seq<byte>, info: EbmlLayout, payload: seq<byte>)
    requires CheckSpace(bytes + rest) == Ok(Some(info)) && info.elementLen == |bytes|
    requires info.bodyOffset <= |bytes| && (bytes + rest)[info.bodyOffset..|bytes|] == payload
    ensures var r := Decode(info.elementId, payload);
            && (r.Ok? ==> ReadsAs(bytes, r.value, rest))
            && (r.Err? ==> ReadsCorrupt(bytes, rest))
  {
    hide CheckSpace, Decode;
    assert (bytes + rest)[|bytes|..] == rest;
  }

  lemma IdReads(id: seq<byte>, number: u64)
    requires VarintBytes(Value(number)) == Ok(id)
    ensures IsVarint(id, Value(number)) && |id| > 0
  {
    VarintRoundTrip(Value(number), []);
    assert id + [] == id;
    hide VarintBytes;
  }

  // ----- Elements with a payload -----

  /** Every other element takes up its header and its payload exactly. */
  lemma {:induction false} SizedElementReads(id: seq<byte>, number: u64, size: seq<byte>,
                                             payload: seq<byte>, rest: seq<byte>)
    requires IsVarint(id, Value(number)) && number != 0x08538067 && number != 0x0F43B675
    requires |payload| < U64_LIMIT && IsVarint(size, Value(|payload|))
    ensures var bytes := Laid(id, size, payload);
            && CheckSpace(bytes + rest) == Ok(Some(EbmlLayout(number, |id + size|, |bytes|)))
            && (Decode(number, payload).Ok? ==> ReadsAs(bytes, Decode(number, payload).value, rest))
            && (Decode(number, payload).Err? ==> ReadsCorrupt(bytes, rest))
  {
    HeaderAt(id, number, size, Value(|payload|), payload + rest);
    var header := id + size;
    hide VarintAt, DecodeTag, Decode, ReadsAs, ReadsCorrupt;
    SizedSpace(header, number, payload, rest);
    PayloadIn(header, payload, rest);
    hide CheckSpace;
    FirstElement(header + payload, rest, EbmlLayout(number, |header|, |header + payload|), payload);
  }

  lemma SizedSpace(header: seq<byte>, number: u64, payload: seq<byte>, rest: seq<byte>)
    requires |payload| < U64_LIMIT && number != 0x08538067 && number != 0x0F43B675
    requires DecodeTag(header + (payload + rest)) == Ok(Some((number, Value(|payload|), |header|)))
    ensures |header| > 0
    ensures CheckSpace((header + payload) + rest) == Ok(Some(EbmlLayout(number, |header|, |header + payload|)))
  {
    assert (header + payload) + rest == header + (payload + rest);
    hide DecodeTag;
  }

  lemma PayloadIn(header: seq<byte>, payload: seq<byte>, rest: seq<byte>)
    ensures ((header + payload) + rest)[|header|..|header + payload|] == payload
    ensures ((header + payload) + rest)[|header + payload|..] == rest
  {
  }

  /** Such an element of unknown size cannot be read. */
  lemma {:induction false} UnknownSizeRefused(id: seq<byte>, number: u64, size: seq<byte>, rest: seq<byte>)
    requires IsVarint(id, Value(number)) && number != 0x08538067 && number != 0x0F43B675
    requires IsVarint(size, Unknown)
    ensures ReadsNoFurther((id + size) + rest, UnknownElementLength)
  {
    HeaderAt(id, number, size, Unknown, rest);
    hide VarintAt, DecodeTag, Decode;
  }

  /** Neither can an element of unknown id, or one whose id or size begins with a zero byte. */
  lemma {:induction false} BadHeadersRefused(id: seq<byte>, number: u64, rest: seq<byte>)
    ensures IsVarint(id, Unknown) ==> ReadsNoFurther(id + rest, UnknownElementId)
    ensures ReadsNoFurther([0] + rest, CorruptVarint)
    ensures IsVarint(id, Value(number)) ==> ReadsNoFurther(id + ([0] + rest), CorruptVarint)
  {
    VarintPrefixStable(id, rest);
    VarintPrefixStable(id, [0] + rest);
    assert VarintAt([0] + rest) == Err(CorruptVarint);
    assert (id + ([0] + rest))[|id|..] == [0] + rest;
    hide VarintAt, Decode;
  }

  /** The elements of which only the kind is kept, and Tracks, of which the payload is: with any
      payload, and with the payload's size in any width. */
  lemma {:induction false} PlainKinds(size: seq<byte>, payload: seq<byte>, rest: seq<byte>)
    requires |payload| < U64_LIMIT && IsVarint(size, Value(|payload|))
    ensures ReadsAs(Laid([0x1A, 0x45, 0xDF, 0xA3], size, payload), EbmlHead, rest)
    ensures ReadsAs(Laid([0xEC], size, payload), Void, rest)
    ensures ReadsAs(Laid([0x11, 0x4D, 0x9B, 0x74], size, payload), SeekHead, rest)
    ensures ReadsAs(Laid([0x15, 0x49, 0xA9, 0x66], size, payload), Info, rest)
    ensures ReadsAs(Laid([0x1C, 0x53, 0xBB, 0x6B], size, payload), Cues, rest)
    ensures ReadsAs(Laid([0x16, 0x54, 0xAE, 0x6B], size, payload), Tracks(payload), rest)
  {
    RegisteredIds();
    hide ReadsAs, Laid, VarintAt, VarintBytes;
    PlainKind([0x1A, 0x45, 0xDF, 0xA3], 0x0A45DFA3, EbmlHead, size, payload, rest);
    PlainKind([0xEC], 0x6C, Void, size, payload, rest);
    PlainKind([0x11, 0x4D, 0x9B, 0x74], 0x014D9B74, SeekHead, size, payload, rest);
    PlainKind([0x15, 0x49, 0xA9, 0x66], 0x0549A966, Info, size, payload, rest);
    PlainKind([0x1C, 0x53, 0xBB, 0x6B], 0x0C53BB6B, Cues, size, payload, rest);
    PlainKind([0x16, 0x54, 0xAE, 0x6B], 0x0654AE6B, Tracks(payload), size, payload, rest);
  }

  lemma PlainKind(id: seq<byte>, number: u64, e: WebmElement, size: seq<byte>, payload: seq<byte>, rest: seq<byte>)
    requires VarintBytes(Value(number)) == Ok(id) && number != 0x08538067 && number != 0x0F43B675
    requires |payload| < U64_LIMIT && IsVarint(size, Value(|payload|)) && Decode(number, payload) == Ok(e)
    ensures ReadsAs(Laid(id, size, payload), e, rest)
  {
    IdReads(id, number);
    hide VarintAt, VarintBytes, Decode, ReadsAs, ReadsCorrupt;
    SizedElementReads(id, number, size, payload, rest);
  }

  /** A Timecode's payload is a big-endian number of one to eight bytes; any other is corrupt. */
  lemma {:induction false} TimecodeReads(size: seq<byte>, payload: seq<byte>, rest: seq<byte>)
    requires |payload| < U64_LIMIT && IsVarint(size, Value(|payload|))
    ensures if 1 <= |payload| <= 8 then
              BigEndian(payload) < U64_LIMIT && ReadsAs(Laid([0xE7], size, payload), Timecode(BigEndian(payload)), rest)
            else ReadsCorrupt(Laid([0xE7], size, payload), rest)
  {
    TimecodePayloads(payload);
    RegisteredIds();
    IdReads([0xE7], 0x67);
    hide *;
    SizedElementReads([0xE7], 0x67, size, payload, rest);
  }

  lemma TimecodePayloads(payload: seq<byte>)
    ensures if 1 <= |payload| <= 8 then
              BigEndian(payload) < U64_LIMIT && Decode(0x67, payload) == Ok(Timecode(BigEndian(payload)))
            else Decode(0x67, payload) == Err(CorruptPayload)
  {
    UintExact(payload);
    hide BigEndian, ToBigEndian;
  }

  /** A signed 16-bit number from its two bytes, the more significant one first. */
  function Signed(hi: byte, lo: byte): i16 {
    if hi < 0x80 then 256 * hi + lo else 256 * hi + lo - 0x1_0000
  }

  /** A SimpleBlock's payload is a track number in any width, two bytes of time, one of flags, and the
      data; a payload that is too short for these, or has no track number, is corrupt. */
  lemma {:induction false} BlockReads(size: seq<byte>, track: seq<byte>, number: u64, tail: seq<byte>, rest: seq<byte>)
    requires IsVarint(track, Value(number)) && |track + tail| < U64_LIMIT && IsVarint(size, Value(|track + tail|))
    ensures if |tail| >= 3 then
              ReadsAs(Laid([0xA3], size, track + tail),
                      Block(SimpleBlock(number, Signed(tail[0], tail[1]), tail[2], tail[3..])), rest)
            else ReadsCorrupt(Laid([0xA3], size, track + tail), rest)
  {
    BlockPayloads(track, number, tail);
    RegisteredIds();
    IdReads([0xA3], 0x23);
    hide *;
    SizedElementReads([0xA3], 0x23, size, track + tail, rest);
  }

  lemma BlockPayloads(track: seq<byte>, number: u64, tail: seq<byte>)
    requires IsVarint(track, Value(number))
    ensures Decode(0x23, track + tail)
         == if |tail| >= 3 then Ok(Block(SimpleBlock(number, Signed(tail[0], tail[1]), tail[2], tail[3..])))
            else Err(CorruptPayload)
  {
    VarintPrefixStable(track, tail);
    hide VarintAt;
    if |tail| >= 3 {
      BlockTail(track, tail);
    }
  }

  lemma BlockTail(track: seq<byte>, tail: seq<byte>)
    requires |tail| >= 3
    ensures var payload := track + tail;
            && payload[|track|] == tail[0] && payload[|track| + 1] == tail[1] && payload[|track| + 2] == tail[2]
            && payload[|track| + 3..] == tail[3..]
  {
  }

  lemma {:induction false} TracklessBlockReads(size: seq<byte>, payload: seq<byte>, rest: seq<byte>)
    requires |payload| < U64_LIMIT && IsVarint(size, Value(|payload|))
    requires VarintAt(payload).Ok? && VarintAt(payload).value.Some? ==> VarintAt(payload).value.value.0.Unknown?
    ensures ReadsCorrupt(Laid([0xA3], size, payload), rest)
  {
    assert Decode(0x23, payload) == Err(CorruptPayload);
    RegisteredIds();
    IdReads([0xA3], 0x23);
    hide *;
    SizedElementReads([0xA3], 0x23, size, payload, rest);
  }

  /** The numbers of the ids that have a meaning. */
  predicate IsKnown(number: u64) {
    || number == 0x0A45DFA3 || number == 0x6C || number == 0x08538067 || number == 0x014D9B74
    || number == 0x0549A966 || number == 0x0C53BB6B || number == 0x0654AE6B || number == 0x0F43B675
    || number == 0x67 || number == 0x23
  }

  /** Any other id is an unknown element, whatever its payload. */
  lemma {:induction false} OtherIdsAreUnknown(id: seq<byte>, number: u64, size: seq<byte>,
                                              payload: seq<byte>, rest: seq<byte>)
    requires IsVarint(id, Value(number)) && !IsKnown(number)
    requires |payload| < U64_LIMIT && IsVarint(size, Value(|payload|))
    ensures ReadsAs(Laid(id, size, payload), UnknownElement(number), rest)
  {
    assert Decode(number, payload) == Ok(UnknownElement(number));
    hide Decode, ReadsAs, ReadsCorrupt, VarintAt;
    SizedElementReads(id, number, size, payload, rest);
  }

  /** The bytes 81 00 21 80 are the payload of a keyframe of track 1 at time 33, without data. */
  lemma {:induction false} BlockOfTest(rest: seq<byte>)
    ensures ReadsAs([0xA3, 0x84, 0x81, 0x00, 0x21, 0x80], Block(SimpleBlock(1, 33, 0x80, [])), rest)
    ensures ReadsAs([0xA3, 0x84, 0x81, 0xFF, 0xFE, 0x00], Block(SimpleBlock(1, -2, 0x00, [])), rest)
  {
    ShortBlockReads(0x00, 0x21, 0x80, rest);
    ShortBlockReads(0xFF, 0xFE, 0x00, rest);
    hide ReadsAs;
  }

  lemma ShortBlockReads(hi: byte, lo: byte, flags: byte, rest: seq<byte>)
    ensures ReadsAs([0xA3, 0x84, 0x81, hi, lo, flags], Block(SimpleBlock(1, Signed(hi, lo), flags, [])), rest)
  {
    ShortVarintReads(4);
    ShortVarintReads(1);
    var tail := [hi, lo, flags];
    assert [0x81] + tail == [0x81, hi, lo, flags] && tail[3..] == [];
    assert Laid([0xA3], [0x84], [0x81] + tail) == [0xA3, 0x84, 0x81, hi, lo, flags];
    hide *;
    BlockReads([0x84], [0x81], 1, tail, rest);
  }

  lemma ShortVarintReads(n: u64)
    requires n < 0x7F
    ensures IsVarint([0x80 + n], Value(n))
  {
    ShortVarint(n);
    IdReads([0x80 + n], n);
    hide VarintAt, VarintBytes;
  }
}
