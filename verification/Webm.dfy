/** The WebM elements that webmetro knows, and how it reads and writes them. */
module Webm {
  import opened Wrappers
  import opened Bytes
  import opened Ebml
  import opened Cursors

  const EBML_HEAD_ID: u64 := 0x0A45DFA3
  const DOC_TYPE_ID: u64 := 0x0282
  const VOID_ID: u64 := 0x6C
  const SEGMENT_ID: u64 := 0x08538067
  const SEEK_HEAD_ID: u64 := 0x014D9B74
  const SEGMENT_INFO_ID: u64 := 0x0549A966
  const CUES_ID: u64 := 0x0C53BB6B
  const TRACKS_ID: u64 := 0x0654AE6B
  const CLUSTER_ID: u64 := 0x0F43B675
  const TIMECODE_ID: u64 := 0x67
  const SIMPLE_BLOCK_ID: u64 := 0x23

  /** The text "webm". */
  const WEBM_DOC_TYPE: seq<byte> := [0x77, 0x65, 0x62, 0x6D]

  datatype SimpleBlock = SimpleBlock(track: u64, timecode: i16, flags: byte, data: seq<byte>)

  datatype WebmElement =
    | EbmlHead
    | Void
    | Segment
    | SeekHead
    | Info
    | Cues
    | Tracks(data: seq<byte>)
    | Cluster
    | Timecode(time: u64)
    | Block(block: SimpleBlock)
    | UnknownElement(id: u64)

  datatype EbmlLayout = EbmlLayout(elementId: u64, bodyOffset: nat, elementLen: nat)

  type SpaceResult = Result<Option<EbmlLayout>, EbmlError>

  // ----- Reading -----

  predicate ShouldUnwrap(elementId: u64) {
    elementId == SEGMENT_ID || elementId == CLUSTER_ID
  }

  function ReadI16(hi: byte, lo: byte): i16 {
    var n := 256 * hi + lo;
    if n < 0x8000 then n else n - 0x1_0000
  }

  function DecodeSimpleBlock(bytes: seq<byte>): (r: Result<WebmElement, EbmlError>)
    ensures r.Ok? ==> r.value.Block?
  {
    match VarintAt(bytes)
    case Ok(Some((Value(track), trackLen))) =>
      var headerLen := trackLen + 2 + 1;
      if |bytes| < headerLen then Err(CorruptPayload)
      else
        Ok(Block(SimpleBlock(track, ReadI16(bytes[trackLen], bytes[trackLen + 1]),
                             bytes[trackLen + 2], bytes[headerLen..])))
    case _ => Err(CorruptPayload)
  }

  function Decode(elementId: u64, bytes: seq<byte>): (r: Result<WebmElement, EbmlError>)
    ensures r.Err? ==> r.error == CorruptPayload
  {
    if elementId == EBML_HEAD_ID then Ok(EbmlHead)
    else if elementId == VOID_ID then Ok(Void)
    else if elementId == SEGMENT_ID then Ok(Segment)
    else if elementId == SEEK_HEAD_ID then Ok(SeekHead)
    else if elementId == SEGMENT_INFO_ID then Ok(Info)
    else if elementId == CUES_ID then Ok(Cues)
    else if elementId == TRACKS_ID then Ok(Tracks(bytes))
    else if elementId == CLUSTER_ID then Ok(Cluster)
    else if elementId == TIMECODE_ID then
      (match DecodeUint(bytes) case Ok(time) => Ok(Timecode(time)) case Err(e) => Err(e))
    else if elementId == SIMPLE_BLOCK_ID then DecodeSimpleBlock(bytes)
    else Ok(UnknownElement(elementId))
  }

  function CheckSpace(bytes: seq<byte>): (r: SpaceResult)
    ensures r.Ok? && r.value.Some? ==> 0 < r.value.value.bodyOffset <= r.value.value.elementLen <= |bytes|
    ensures r.Err? ==> r.error != CorruptPayload
  {
    match DecodeTag(bytes)
    case Ok(None) => Ok(None)
    case Err(err) => Err(err)
    case Ok(Some((elementId, payloadSizeTag, bodyOffset))) =>
      if !ShouldUnwrap(elementId) && payloadSizeTag.Unknown? then Err(UnknownElementLength)
      else
        var payloadSize := if ShouldUnwrap(elementId) then 0 else payloadSizeTag.value;
        var elementLen := bodyOffset + payloadSize;
        if elementLen > |bytes| then Ok(None)
        else Ok(Some(EbmlLayout(elementId, bodyOffset, elementLen)))
  }

  /** The element that a layout found in `bytes` stands for. */
  function DecodeAt(bytes: seq<byte>, info: EbmlLayout): Result<WebmElement, EbmlError>
    requires info.bodyOffset <= info.elementLen <= |bytes|
  {
    Decode(info.elementId, bytes[info.bodyOffset..info.elementLen])
  }

  function DecodeElement(bytes: seq<byte>): Result<Option<(WebmElement, nat)>, EbmlError> {
    match CheckSpace(bytes)
    case Err(error) => Err(error)
    case Ok(None) => Ok(None)
    case Ok(Some(info)) =>
      match DecodeAt(bytes, info)
      case Ok(element) => Ok(Some((element, info.elementLen)))
      case Err(error) => Err(error)
  }

  /** A definite answer never changes when more bytes arrive, and an element for which more bytes
      were asked for does reach beyond the bytes that were there. */
  lemma CheckSpacePrefixStable(bytes: seq<byte>, more: seq<byte>)
    ensures CheckSpace(bytes) != Ok(None) ==> CheckSpace(bytes + more) == CheckSpace(bytes)
    ensures CheckSpace(bytes) == Ok(None) && CheckSpace(bytes + more).Ok? && CheckSpace(bytes + more).value.Some? ==>
              |bytes| < CheckSpace(bytes + more).value.value.elementLen
  {
    hide DecodeTag;
    TagPrefixStable(bytes, more);
  }

  /** More bytes are asked for exactly when the bytes are a strict prefix of some whole element. */
  lemma CheckSpaceNeedsMore(bytes: seq<byte>)
    ensures CheckSpace(bytes) == Ok(None) <==>
            exists more :: |more| > 0 && CheckSpace(bytes + more).Ok? && CheckSpace(bytes + more).value.Some?
                           && CheckSpace(bytes + more).value.value.elementLen == |bytes + more|
  {
    if CheckSpace(bytes) == Ok(None) {
      var more := CompleteElement(bytes);
    }
    forall more | |more| > 0 && CheckSpace(bytes + more).Ok? && CheckSpace(bytes + more).value.Some?
                  && CheckSpace(bytes + more).value.value.elementLen == |bytes + more|
      ensures CheckSpace(bytes) == Ok(None)
    {
      CheckSpacePrefixStable(bytes, more);
    }
  }

  lemma CompleteElement(bytes: seq<byte>) returns (more: seq<byte>)
    requires CheckSpace(bytes) == Ok(None)
    ensures |more| > 0 && CheckSpace(bytes + more).Ok? && CheckSpace(bytes + more).value.Some?
    ensures CheckSpace(bytes + more).value.value.elementLen == |bytes + more|
  {
    hide DecodeTag;
    var header := [];
    if DecodeTag(bytes) == Ok(None) {
      header := CompleteTag(bytes);
    } else {
      assert bytes + [] == bytes;
    }
    var (id, size, offset) := DecodeTag(bytes + header).value.value;
    var end := if ShouldUnwrap(id) then offset else offset + size.value;
    more := header + seq(end - |bytes + header|, _ => 0);
    assert bytes + more == (bytes + header) + more[|header|..];
    TagPrefixStable(bytes + header, more[|header|..]);
  }

  // ----- Writing -----

  function I16Bytes(n: i16): seq<byte> {
    ToBigEndian(if n < 0 then n + 0x1_0000 else n, 2)
  }

  function SimpleBlockBytes(block: SimpleBlock): Result<seq<byte>, WriteError> {
    if block.track > 31 || 4 + |block.data| > EIGHT_MAX then Err(OutOfRange)
    else
      Concat(TagHeaderBytes(SIMPLE_BLOCK_ID, Value(4 + |block.data|)),
             Concat(VarintBytes(Value(block.track)), Ok(I16Bytes(block.timecode) + [block.flags] + block.data)))
  }

  /** What an element is written as. SeekHead and Cues are written as nothing. */
  function WebmBytes(element: WebmElement): Result<seq<byte>, WriteError> {
    match element
    case EbmlHead => (match SizedBytes(DOC_TYPE_ID, WEBM_DOC_TYPE)
                      case Ok(content) => ElementBytes(EBML_HEAD_ID, content)
                      case Err(e) => Err(e))
    case Segment => TagHeaderBytes(SEGMENT_ID, Unknown)
    case SeekHead => Ok([])
    case Cues => Ok([])
    case Tracks(data) => SizedBytes(TRACKS_ID, data)
    case Cluster => TagHeaderBytes(CLUSTER_ID, Unknown)
    case Timecode(time) => IntegerBytes(TIMECODE_ID, time)
    case Block(block) => SimpleBlockBytes(block)
    case Void => Err(OutOfRange)
    case Info => Err(OutOfRange)
    case UnknownElement(_) => Err(OutOfRange)
  }

  method EncodeSimpleBlock(block: SimpleBlock, output: Cursor) returns (r: IoResult)
    requires output.Valid()
    requires 4 + |block.data| < U64_LIMIT
    modifies output
    ensures Wrote(output, old(output.data), old(output.pos), SimpleBlockBytes(block), r)
  {
    hide TagHeaderBytes, VarintBytes, Overwrite;
    ghost var data0, pos0 := output.data, output.pos;
    if block.track > 31 {
      return Err(OutOfRange);
    }
    var headerLen := 1 + 2 + 1;
    TagHeaderEncodable(SIMPLE_BLOCK_ID, Value(headerLen + |block.data|));
    r := EncodeTagHeader(SIMPLE_BLOCK_ID, Value(headerLen + |block.data|), output);
    if r.Err? {
      return;
    }
    ghost var header := TagHeaderBytes(SIMPLE_BLOCK_ID, Value(headerLen + |block.data|)).value;
    VarintRoundTrip(Value(block.track), []);
    r := EncodeVarint(Value(block.track), output);
    ghost var track := VarintBytes(Value(block.track)).value;
    OverwriteTwice(data0, pos0, header, track);
    var buffer := I16Bytes(block.timecode) + [block.flags];
    output.WriteAll(buffer);
    OverwriteTwice(data0, pos0, header + track, buffer);
    output.WriteAll(block.data);
    OverwriteTwice(data0, pos0, header + track + buffer, block.data);
    assert header + track + buffer + block.data == header + (track + (buffer + block.data));
  }

  lemma TagHeaderEncodable(tag: u64, size: Varint)
    ensures TagHeaderBytes(tag, size) == Err(OutOfRange) || TagHeaderBytes(tag, size).Ok?
    ensures TagHeaderBytes(tag, size).Ok? <==> tag <= EIGHT_MAX && (size.Value? ==> size.value <= EIGHT_MAX)
  {
    VarintRoundTrip(Value(tag), []);
    VarintRoundTrip(size, []);
  }

  method EncodeWebmElement(element: WebmElement, output: Cursor) returns (r: IoResult)
    requires output.Valid()
    requires element.Block? ==> 4 + |element.block.data| < U64_LIMIT
    requires element.Tracks? ==> |element.data| < U64_LIMIT
    modifies output
    ensures Wrote(output, old(output.data), old(output.pos), WebmBytes(element), r)
  {
    hide SizedBytes, ElementBytes, TagHeaderBytes, IntegerBytes, SimpleBlockBytes;
    match element {
      case EbmlHead =>
        DocTypeEncodable();
        var content := SizedBytes(DOC_TYPE_ID, WEBM_DOC_TYPE).value;
        AppendedElement(EBML_HEAD_ID, output.data, output.pos, Appending(content), content);
        r := EncodeElement(EBML_HEAD_ID, output, Appending(content));
      case Segment => r := EncodeTagHeader(SEGMENT_ID, Unknown, output);
      case SeekHead => r := Ok(());
      case Cues => r := Ok(());
      case Tracks(data) => r := EncodeBytes(TRACKS_ID, data, output);
      case Cluster => r := EncodeTagHeader(CLUSTER_ID, Unknown, output);
      case Timecode(time) => r := EncodeInteger(TIMECODE_ID, time, output);
      case Block(block) => r := EncodeSimpleBlock(block, output);
      case Void => r := Err(OutOfRange);
      case Info => r := Err(OutOfRange);
      case UnknownElement(_) => r := Err(OutOfRange);
    }
  }

  lemma DocTypeEncodable()
    ensures SizedBytes(DOC_TYPE_ID, WEBM_DOC_TYPE).Ok?
    ensures |SizedBytes(DOC_TYPE_ID, WEBM_DOC_TYPE).value| <= 20
  {
    TagHeaderEncodable(DOC_TYPE_ID, Value(4));
    TagHeaderLength(DOC_TYPE_ID, Value(4));
  }

  lemma TagHeaderLength(tag: u64, size: Varint)
    requires TagHeaderBytes(tag, size).Ok?
    ensures |TagHeaderBytes(tag, size).value| == MinWidth(tag) + (if size.Value? then MinWidth(size.value) else 1)
  {
  }

  // ----- Reading back what was written -----

  /** A header followed by the payload it announces is that element, whatever comes after it. */
  lemma SizedElement(tag: u64, header: seq<byte>, payload: seq<byte>, rest: seq<byte>)
    requires !ShouldUnwrap(tag) && 0 < |header| && |payload| < U64_LIMIT
    requires DecodeTag(header + (payload + rest)) == Ok(Some((tag, Value(|payload|), |header|)))
    ensures Decode(tag, payload).Ok? ==>
              DecodeElement((header + payload) + rest) == Ok(Some((Decode(tag, payload).value, |header + payload|)))
  {
    hide DecodeTag, Decode;
    var all := (header + payload) + rest;
    assert all == header + (payload + rest);
    assert all[|header|..|header + payload|] == payload;
  }

  lemma UnwrappedKinds(tag: u64, payload: seq<byte>)
    requires ShouldUnwrap(tag)
    ensures Decode(tag, payload) == Ok(if tag == SEGMENT_ID then Segment else Cluster)
  {
  }

  lemma UnwrappedElement(tag: u64, rest: seq<byte>)
    requires ShouldUnwrap(tag) && TagHeaderBytes(tag, Unknown).Ok?
    ensures var bs := TagHeaderBytes(tag, Unknown).value;
            DecodeElement(bs + rest) == Ok(Some((if tag == SEGMENT_ID then Segment else Cluster, |bs|)))
  {
    hide DecodeTag, TagHeaderBytes;
    TagHeaderRoundTrip(tag, Unknown, rest);
    hide ShouldUnwrap;
    var bs := TagHeaderBytes(tag, Unknown).value;
    assert CheckSpace(bs + rest) == Ok(Some(EbmlLayout(tag, |bs|, |bs|)));
    hide CheckSpace;
    UnwrappedKinds(tag, (bs + rest)[|bs|..|bs|]);
  }

  lemma SizedElementRoundTrip(tag: u64, payload: seq<byte>, rest: seq<byte>)
    requires !ShouldUnwrap(tag) && tag <= EIGHT_MAX && |payload| <= EIGHT_MAX && Decode(tag, payload).Ok?
    ensures SizedBytes(tag, payload).Ok?
    ensures var bs := SizedBytes(tag, payload).value;
            |bs| > 0 && DecodeElement(bs + rest) == Ok(Some((Decode(tag, payload).value, |bs|)))
  {
    TagHeaderEncodable(tag, Value(|payload|));
    TagHeaderRoundTrip(tag, Value(|payload|), payload + rest);
    TagHeaderLength(tag, Value(|payload|));
    hide TagHeaderBytes, DecodeTag, Decode, DecodeElement;
    SizedElement(tag, TagHeaderBytes(tag, Value(|payload|)).value, payload, rest);
  }

  lemma EbmlHeadRoundTrip(rest: seq<byte>)
    ensures WebmBytes(EbmlHead).Ok? && |WebmBytes(EbmlHead).value| > 0
    ensures DecodeElement(WebmBytes(EbmlHead).value + rest) == Ok(Some((EbmlHead, |WebmBytes(EbmlHead).value|)))
  {
    DocTypeEncodable();
    hide SizedBytes, VarintBytes, FixedVarintBytes, DecodeElement, DecodeTag;
    var content := SizedBytes(DOC_TYPE_ID, WEBM_DOC_TYPE).value;
    VarintRoundTrip(Value(EBML_HEAD_ID), []);
    FixedVarintRoundTrip(Value(|content|), []);
    FixedHeaderRoundTrip(EBML_HEAD_ID, Value(|content|), content + rest);
    SizedElement(EBML_HEAD_ID, FixedHeaderBytes(EBML_HEAD_ID, Value(|content|)).value, content, rest);
  }

  lemma TimecodePayload(time: u64)
    ensures Decode(TIMECODE_ID, ToBigEndian(time, 8)) == Ok(Timecode(time))
  {
    Pow2Table();
    BigEndianInverse(time, 8);
    hide BigEndian, ToBigEndian;
  }

  lemma TimecodeRoundTrip(time: u64, rest: seq<byte>)
    ensures WebmBytes(Timecode(time)).Ok? && |WebmBytes(Timecode(time)).value| == 10
    ensures DecodeElement(WebmBytes(Timecode(time)).value + rest) == Ok(Some((Timecode(time), 10)))
  {
    hide VarintBytes, DecodeElement, Decode, ToBigEndian, Pow2;
    TimecodePayload(time);
    SizedElementRoundTrip(TIMECODE_ID, ToBigEndian(time, 8), rest);
    TagHeaderEncodable(TIMECODE_ID, Value(8));
    Pow2Table();
    TagHeaderLength(TIMECODE_ID, Value(8));
  }

  /** The payload of a written SimpleBlock, with its one-byte track number. */
  function BlockPayload(block: SimpleBlock): seq<byte>
    requires block.track <= 31
  {
    [0x80 + block.track] + (I16Bytes(block.timecode) + [block.flags] + block.data)
  }

  lemma SmallTrack(track: u64, rest: seq<byte>)
    requires track <= 31
    ensures VarintBytes(Value(track)) == Ok([0x80 + track])
    ensures VarintAt([0x80 + track] + rest) == Ok(Some((Value(track), 1)))
  {
    Pow2Table();
    OneByte(0x80 + track);
    VarintRoundTrip(Value(track), rest);
  }

  lemma I16RoundTrip(n: i16)
    ensures |I16Bytes(n)| == 2 && ReadI16(I16Bytes(n)[0], I16Bytes(n)[1]) == n
  {
    var m := if n < 0 then n + 0x1_0000 else n;
    assert ToBigEndian(m, 2) == ToBigEndian(m / 256, 1) + [m % 256];
    assert ToBigEndian(m / 256, 1) == ToBigEndian(m / 256 / 256, 0) + [m / 256 % 256];
  }

  lemma I16Exact(hi: byte, lo: byte)
    ensures I16Bytes(ReadI16(hi, lo)) == [hi, lo]
  {
    var bs: seq<byte> := [hi, lo];
    BigEndianNext(bs, 0);
    BigEndianNext(bs, 1);
    assert bs[..2] == bs;
    ToBigEndianInverse(bs);
    hide ToBigEndian, BigEndian;
  }

  /** A SimpleBlock is read from a payload exactly if it begins with a track number, in whatever
      width, and three more bytes; then its fields are all there is in the payload. */
  lemma SimpleBlockExact(payload: seq<byte>)
    ensures DecodeSimpleBlock(payload).Ok? <==>
              VarintAt(payload).Ok? && VarintAt(payload).value.Some? && VarintAt(payload).value.value.0.Value?
              && |payload| >= VarintAt(payload).value.value.1 + 3
    ensures DecodeSimpleBlock(payload).Ok? ==>
              var block := DecodeSimpleBlock(payload).value.block;
              var (track, n) := VarintAt(payload).value.value;
              && track == Value(block.track)
              && payload == payload[..n] + (I16Bytes(block.timecode) + [block.flags] + block.data)
  {
    hide VarintAt, I16Bytes, ReadI16;
    if DecodeSimpleBlock(payload).Ok? {
      var n := VarintAt(payload).value.value.1;
      I16Exact(payload[n], payload[n + 1]);
      assert payload[n..] == [payload[n], payload[n + 1]] + [payload[n + 2]] + payload[n + 3..];
    }
  }

  lemma BlockPayloadDecodes(block: SimpleBlock)
    requires block.track <= 31
    ensures |BlockPayload(block)| == 4 + |block.data|
    ensures DecodeSimpleBlock(BlockPayload(block)) == Ok(Block(block))
  {
    SmallTrack(block.track, I16Bytes(block.timecode) + [block.flags] + block.data);
    I16RoundTrip(block.timecode);
    PayloadParts(0x80 + block.track, I16Bytes(block.timecode), block.flags, block.data);
    hide VarintAt, I16Bytes, ReadI16;
    assert BlockPayload(block) == [0x80 + block.track] + (I16Bytes(block.timecode) + [block.flags] + block.data);
    hide BlockPayload;
  }

  lemma PayloadParts(track: byte, time: seq<byte>, flags: byte, data: seq<byte>)
    requires |time| == 2
    ensures var payload := [track] + (time + [flags] + data);
            && |payload| == 4 + |data| && payload[1] == time[0] && payload[2] == time[1] && payload[3] == flags
            && payload[4..] == data
  {
  }

  lemma BlockIsSized(block: SimpleBlock)
    requires block.track <= 31 && 4 + |block.data| <= EIGHT_MAX
    ensures |BlockPayload(block)| == 4 + |block.data|
    ensures WebmBytes(Block(block)) == SizedBytes(SIMPLE_BLOCK_ID, BlockPayload(block))
  {
    SmallTrack(block.track, []);
    BlockPayloadDecodes(block);
    hide TagHeaderBytes, VarintBytes, DecodeSimpleBlock, VarintAt, I16Bytes;
  }

  /** An element can be written exactly if webmetro keeps its kind and its fields are in range. */
  predicate Encodable(element: WebmElement) {
    match element
    case Void => false
    case Info => false
    case UnknownElement(_) => false
    case Tracks(data) => |data| <= EIGHT_MAX
    case Block(block) => block.track <= 31 && 4 + |block.data| <= EIGHT_MAX
    case _ => true
  }

  /** The kinds of element that leave no trace in the output. */
  predicate WritesNothing(element: WebmElement) {
    element.SeekHead? || element.Cues?
  }

  /** Every encodable element reads back unchanged from what it was written as, whatever follows,
      and takes up exactly the bytes written. */
  lemma {:induction false} WebmRoundTrip(element: WebmElement, rest: seq<byte>)
    ensures WebmBytes(element).Ok? <==> Encodable(element)
    ensures Encodable(element) ==> (|WebmBytes(element).value| == 0 <==> WritesNothing(element))
    ensures Encodable(element) && !WritesNothing(element) ==>
              DecodeElement(WebmBytes(element).value + rest) == Ok(Some((element, |WebmBytes(element).value|)))
  {
    hide DecodeElement, VarintBytes;
    match element {
      case EbmlHead => EbmlHeadRoundTrip(rest);
      case Segment =>
        TagHeaderEncodable(SEGMENT_ID, Unknown);
        TagHeaderLength(SEGMENT_ID, Unknown);
        UnwrappedElement(SEGMENT_ID, rest);
      case Cluster =>
        TagHeaderEncodable(CLUSTER_ID, Unknown);
        TagHeaderLength(CLUSTER_ID, Unknown);
        UnwrappedElement(CLUSTER_ID, rest);
      case Tracks(data) =>
        if |data| <= EIGHT_MAX {
          SizedElementRoundTrip(TRACKS_ID, data, rest);
        }
      case Timecode(time) => TimecodeRoundTrip(time, rest);
      case Block(block) =>
        if Encodable(element) {
          BlockIsSized(block);
          BlockPayloadDecodes(block);
          SizedElementRoundTrip(SIMPLE_BLOCK_ID, BlockPayload(block), rest);
        }
      case _ =>
    }
  }

  // ----- Re-encoding what was read -----

  /** webmetro can write every element it reads, but for blocks of tracks above 31 and the kinds
      that it drops. */
  predicate Supported(element: WebmElement) {
    match element
    case Void => false
    case Info => false
    case UnknownElement(_) => false
    case Block(block) => block.track <= 31
    case _ => true
  }

  lemma DecodedPayload(bytes: seq<byte>)
    requires DecodeElement(bytes).Ok? && DecodeElement(bytes).value.Some?
    ensures var (tag, size, offset) := DecodeTag(bytes).value.value;
            var (e, n) := DecodeElement(bytes).value.value;
            && offset <= n <= |bytes| && n - offset <= EIGHT_MAX
            && Decode(tag, bytes[offset..n]) == Ok(e)
            && (!ShouldUnwrap(tag) ==> size == Value(n - offset))
  {
    DecodedTagEncodable(bytes);
    hide DecodeTag, Decode, TagHeaderBytes;
  }

  lemma DecodedBlock(payload: seq<byte>)
    requires DecodeSimpleBlock(payload).Ok?
    ensures DecodeSimpleBlock(payload).value.Block?
    ensures 4 + |DecodeSimpleBlock(payload).value.block.data| <= |payload|
  {
    DecodedVarintEncodable(payload);
    hide VarintBytes;
  }

  lemma DecodedEncodable(bytes: seq<byte>)
    requires DecodeElement(bytes).Ok? && DecodeElement(bytes).value.Some?
    ensures Encodable(DecodeElement(bytes).value.value.0) <==> Supported(DecodeElement(bytes).value.value.0)
  {
    DecodedPayload(bytes);
    var (tag, size, offset) := DecodeTag(bytes).value.value;
    var (e, n) := DecodeElement(bytes).value.value;
    hide DecodeTag, DecodeElement, DecodeSimpleBlock;
    if tag == SIMPLE_BLOCK_ID {
      DecodedBlock(bytes[offset..n]);
    }
  }

  /** Tracks and SimpleBlocks never grow when they are written again. */
  lemma {:induction false} ReencodedNoLonger(bytes: seq<byte>)
    requires DecodeElement(bytes).Ok? && DecodeElement(bytes).value.Some?
    ensures var (e, n) := DecodeElement(bytes).value.value;
            (e.Tracks? || e.Block?) && Supported(e) ==> WebmBytes(e).Ok? && |WebmBytes(e).value| <= n
  {
    DecodedPayload(bytes);
    DecodedTagEncodable(bytes);
    var (tag, size, offset) := DecodeTag(bytes).value.value;
    var (e, n) := DecodeElement(bytes).value.value;
    hide DecodeTag, DecodeElement, Decode, TagHeaderBytes, WebmBytes;
    if (e.Tracks? || e.Block?) && Supported(e) {
      ReencodedPayload(tag, bytes[offset..n], e);
    }
  }

  lemma DecodedKinds(tag: u64, payload: seq<byte>)
    requires Decode(tag, payload).Ok?
    ensures var e := Decode(tag, payload).value;
            && (e.Tracks? ==> tag == TRACKS_ID && e.data == payload)
            && (e.Block? ==> tag == SIMPLE_BLOCK_ID && DecodeSimpleBlock(payload) == Ok(e))
  {
    hide DecodeSimpleBlock, DecodeUint;
  }

  lemma ReencodedPayload(tag: u64, payload: seq<byte>, e: WebmElement)
    requires |payload| <= EIGHT_MAX && (e.Tracks? || e.Block?) && Supported(e)
    requires Decode(tag, payload) == Ok(e)
    ensures !ShouldUnwrap(tag)
    ensures WebmBytes(e).Ok?
    ensures TagHeaderBytes(tag, Value(|payload|)).Ok? ==>
              |WebmBytes(e).value| <= |TagHeaderBytes(tag, Value(|payload|)).value| + |payload|
  {
    TagHeaderEncodable(tag, Value(|payload|));
    DecodedKinds(tag, payload);
    hide Decode, DecodeSimpleBlock, TagHeaderBytes, SimpleBlockBytes;
    if e.Block? {
      ReencodedBlock(payload);
    }
  }

  lemma ReencodedBlock(payload: seq<byte>)
    requires |payload| <= EIGHT_MAX
    requires DecodeSimpleBlock(payload).Ok? && Supported(DecodeSimpleBlock(payload).value)
    ensures WebmBytes(DecodeSimpleBlock(payload).value).Ok?
    ensures TagHeaderBytes(SIMPLE_BLOCK_ID, Value(|payload|)).Ok?
    ensures |WebmBytes(DecodeSimpleBlock(payload).value).value|
         <= |TagHeaderBytes(SIMPLE_BLOCK_ID, Value(|payload|)).value| + |payload|
  {
    DecodedBlock(payload);
    hide VarintAt, VarintBytes, DecodeSimpleBlock;
    var block := DecodeSimpleBlock(payload).value.block;
    BlockIsSized(block);
    ShorterHeader(SIMPLE_BLOCK_ID, 4 + |block.data|, |payload|);
  }

  lemma ShorterHeader(tag: u64, a: u64, b: u64)
    requires tag <= EIGHT_MAX && a <= b <= EIGHT_MAX
    ensures TagHeaderBytes(tag, Value(a)).Ok? && TagHeaderBytes(tag, Value(b)).Ok?
    ensures |TagHeaderBytes(tag, Value(a)).value| <= |TagHeaderBytes(tag, Value(b)).value|
  {
    TagHeaderEncodable(tag, Value(a));
    TagHeaderEncodable(tag, Value(b));
    MinWidthMonotone(a, b);
  }
}
