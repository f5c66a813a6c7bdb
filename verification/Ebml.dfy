/** EBML variable-length integers and element headers (sections 4 to 6 of RFC 8794). */
module Ebml {
  import opened Wrappers
  import opened Bytes

  datatype EbmlError = CorruptVarint | UnknownElementId | UnknownElementLength | CorruptPayload

  datatype WriteError = OutOfRange

  datatype Varint = Value(value: u64) | Unknown

  type VarintResult = Result<Option<(Varint, nat)>, EbmlError>

  // ----- Reading -----

  /** The width announced by a non-zero first byte: one more than its number of leading zero bits. */
  function Width(first: byte): (s: nat)
    requires first > 0
    ensures 1 <= s <= 8
    ensures Pow2(8 - s) <= first < 2 * Pow2(8 - s)
  {
    Pow2Table();
    WidthFrom(first, 1)
  }

  function WidthFrom(first: byte, s: nat): (r: nat)
    requires first > 0 && 1 <= s <= 8
    requires first < 2 * Pow2(8 - s)
    ensures s <= r <= 8
    ensures Pow2(8 - r) <= first < 2 * Pow2(8 - r)
    decreases 8 - s
  {
    if first >= Pow2(8 - s) then s else WidthFrom(first, s + 1)
  }

  /** A varint of width `s` is the big-endian number of its `s` bytes less the marker bit, which
      has weight 2^(7s); all value bits set is the reserved "unknown". */
  function VarintAt(bytes: seq<byte>): (r: VarintResult)
    ensures r.Ok? && r.value.Some? ==> 1 <= r.value.value.1 <= |bytes|
  {
    if |bytes| == 0 then Ok(None)
    else if bytes[0] == 0 then Err(CorruptVarint)
    else
      var s := Width(bytes[0]);
      if |bytes| < s then Ok(None)
      else
        MarkedRange(bytes[..s]);
        var value := BigEndian(bytes[..s]) - Pow2(7 * s);
        Ok(Some((if value == Pow2(7 * s) - 1 then Unknown else Value(value), s)))
  }

  /** A number of `|bs|` bytes whose first byte announces that width lies in [2^(7s), 2^(7s+1)). */
  lemma MarkedRange(bs: seq<byte>)
    requires |bs| > 0 && bs[0] > 0 && Width(bs[0]) == |bs|
    ensures Pow2(7 * |bs|) <= BigEndian(bs) < 2 * Pow2(7 * |bs|)
    ensures Pow2(7 * |bs|) <= Pow2(56) < U64_LIMIT
  {
    var s := |bs|;
    FirstByteBounds(bs);
    Pow2Monotone(7 * s, 56);
    Pow2Table();
    MarkerWeight(s);
    Bracket(Pow2(8 - s), bs[0], Pow2(8 * (s - 1)));
  }

  lemma MarkerWeight(s: nat)
    requires 1 <= s <= 8
    ensures Pow2(8 - s) * Pow2(8 * (s - 1)) == Pow2(7 * s)
  {
    Pow2Add(8 - s, 8 * (s - 1));
  }

  lemma Bracket(m: nat, first: nat, q: nat)
    requires m <= first < 2 * m
    ensures m * q <= first * q && (first + 1) * q <= 2 * (m * q)
  {
    MulMonotone(m, first, q);
    MulMonotone(first + 1, 2 * m, q);
    MulAssociative(2, m, q);
  }

  /** Conversely, such a number announces its own width in its first byte. */
  lemma MarkedWidth(bs: seq<byte>)
    requires 1 <= |bs| <= 8
    requires Pow2(7 * |bs|) <= BigEndian(bs) < 2 * Pow2(7 * |bs|)
    ensures bs[0] > 0 && Width(bs[0]) == |bs|
  {
    var s := |bs|;
    FirstByteBounds(bs);
    MarkerWeight(s);
    var q, m, first: int := Pow2(8 * (s - 1)), Pow2(8 - s), bs[0];
    CompareMultiples(m, first + 1, q, BigEndian(bs));
    MulAssociative(2, m, q);
    CompareMultiples(first, 2 * m, q, BigEndian(bs));
    WidthUnique(bs[0], s);
  }

  lemma WidthUnique(first: byte, s: nat)
    requires first > 0 && 1 <= s <= 8 && Pow2(8 - s) <= first < 2 * Pow2(8 - s)
    ensures Width(first) == s
  {
    var r := Width(first);
    if r < s {
      Pow2Monotone(8 - s + 1, 8 - r);
    } else if s < r {
      Pow2Monotone(8 - r + 1, 8 - s);
    }
  }

  function DecodeTag(bytes: seq<byte>): (r: Result<Option<(u64, Varint, nat)>, EbmlError>)
    ensures r.Ok? && r.value.Some? ==> 2 <= r.value.value.2 <= |bytes|
  {
    match VarintAt(bytes)
    case Ok(None) => Ok(None)
    case Err(err) => Err(err)
    case Ok(Some((Unknown, _))) => Err(UnknownElementId)
    case Ok(Some((Value(elementId), idSize))) =>
      match VarintAt(bytes[idSize..])
      case Ok(None) => Ok(None)
      case Err(err) => Err(err)
      case Ok(Some((elementLength, lengthSize))) => Ok(Some((elementId, elementLength, idSize + lengthSize)))
  }

  function DecodeUint(bytes: seq<byte>): Result<u64, EbmlError> {
    if |bytes| < 1 || |bytes| > 8 then Err(CorruptPayload)
    else
      BigEndianBound(bytes);
      Pow2Monotone(8 * |bytes|, 64);
      Pow2Table();
      Ok(BigEndian(bytes))
  }

  /** Integers are read from one to eight bytes, all of which count. */
  lemma UintExact(bytes: seq<byte>)
    ensures DecodeUint(bytes).Ok? <==> 1 <= |bytes| <= 8
    ensures DecodeUint(bytes).Ok? ==> ToBigEndian(DecodeUint(bytes).value, |bytes|) == bytes
    ensures DecodeUint(bytes).Err? ==> DecodeUint(bytes).error == CorruptPayload
  {
    ToBigEndianInverse(bytes);
    hide ToBigEndian, BigEndian;
  }

  /** A varint that is there reads the same whatever follows it, and bytes are only asked for
      when the announced width is not there yet. */
  lemma VarintPrefixStable(bytes: seq<byte>, more: seq<byte>)
    ensures VarintAt(bytes) != Ok(None) ==> VarintAt(bytes + more) == VarintAt(bytes)
    ensures VarintAt(bytes) == Ok(None) && VarintAt(bytes + more).Ok? && VarintAt(bytes + more).value.Some? ==>
              |bytes| < VarintAt(bytes + more).value.value.1
  {
    if |bytes| > 0 && bytes[0] > 0 && |bytes| >= Width(bytes[0]) {
      var s := Width(bytes[0]);
      assert (bytes + more)[..s] == bytes[..s];
    }
  }

  lemma TagPrefixStable(bytes: seq<byte>, more: seq<byte>)
    ensures DecodeTag(bytes) != Ok(None) ==> DecodeTag(bytes + more) == DecodeTag(bytes)
    ensures DecodeTag(bytes) == Ok(None) && DecodeTag(bytes + more).Ok? && DecodeTag(bytes + more).value.Some? ==>
              |bytes| < DecodeTag(bytes + more).value.value.2
  {
    VarintPrefixStable(bytes, more);
    hide VarintAt;
    match VarintAt(bytes)
    case Ok(Some((Value(_), idSize))) =>
      assert (bytes + more)[idSize..] == bytes[idSize..] + more;
      VarintPrefixStable(bytes[idSize..], more);
    case _ =>
  }

  /** A varint that ends in a zero byte is not the unknown one. */
  lemma EndsInZero(bs: seq<byte>)
    requires |bs| > 0 && bs[0] > 0 && Width(bs[0]) == |bs| && bs[|bs| - 1] % 2 == 0
    ensures VarintAt(bs).Ok? && VarintAt(bs).value.Some?
    ensures VarintAt(bs).value.value.0.Value? && VarintAt(bs).value.value.1 == |bs|
  {
    assert bs[..|bs|] == bs;
    MarkedRange(bs);
    assert Pow2(7 * |bs|) == 2 * Pow2(7 * |bs| - 1);
  }

  /** Some continuation completes an unfinished varint exactly, and to a value. */
  lemma CompleteVarint(bytes: seq<byte>) returns (more: seq<byte>)
    requires VarintAt(bytes) == Ok(None)
    ensures |more| > 0
    ensures VarintAt(bytes + more).Ok? && VarintAt(bytes + more).value.Some?
    ensures VarintAt(bytes + more).value.value.0.Value? && VarintAt(bytes + more).value.value.1 == |bytes + more|
  {
    if |bytes| == 0 {
      Pow2Table();
      WidthUnique(0x80, 1);
      more := [0x80];
    } else {
      more := seq(Width(bytes[0]) - |bytes|, _ => 0);
    }
    EndsInZero(bytes + more);
  }

  /** More bytes are asked for exactly when the bytes are a strict prefix of a whole varint. */
  lemma VarintNeedsMore(bytes: seq<byte>)
    ensures VarintAt(bytes) == Ok(None) <==>
            exists more :: |more| > 0 && VarintAt(bytes + more).Ok? && VarintAt(bytes + more).value.Some?
                           && VarintAt(bytes + more).value.value.1 == |bytes + more|
  {
    if VarintAt(bytes) == Ok(None) {
      var more := CompleteVarint(bytes);
    }
    forall more | |more| > 0 && VarintAt(bytes + more).Ok? && VarintAt(bytes + more).value.Some?
                  && VarintAt(bytes + more).value.value.1 == |bytes + more|
      ensures VarintAt(bytes) == Ok(None)
    {
      VarintPrefixStable(bytes, more);
    }
  }

  lemma TagWithLength(id: seq<byte>, length: seq<byte>)
    requires VarintAt(id + length).Ok? && VarintAt(id + length).value.Some?
    requires VarintAt(id + length).value.value.0.Value? && VarintAt(id + length).value.value.1 == |id|
    requires VarintAt(length).Ok? && VarintAt(length).value.Some?
    ensures DecodeTag(id + length).Ok? && DecodeTag(id + length).value.Some?
    ensures DecodeTag(id + length).value.value.1 == VarintAt(length).value.value.0
    ensures DecodeTag(id + length).value.value.2 == |id| + VarintAt(length).value.value.1
  {
    assert (id + length)[|id|..] == length;
  }

  lemma CompleteTag(bytes: seq<byte>) returns (more: seq<byte>)
    requires DecodeTag(bytes) == Ok(None)
    ensures |more| > 0
    ensures DecodeTag(bytes + more).Ok? && DecodeTag(bytes + more).value.Some?
    ensures DecodeTag(bytes + more).value.value.1.Value? && DecodeTag(bytes + more).value.value.2 == |bytes + more|
  {
    if VarintAt(bytes) == Ok(None) {
      more := CompleteBoth(bytes);
    } else {
      more := CompleteLength(bytes);
    }
  }

  lemma CompleteBoth(bytes: seq<byte>) returns (more: seq<byte>)
    requires VarintAt(bytes) == Ok(None)
    ensures |more| > 0
    ensures DecodeTag(bytes + more).Ok? && DecodeTag(bytes + more).value.Some?
    ensures DecodeTag(bytes + more).value.value.1.Value? && DecodeTag(bytes + more).value.value.2 == |bytes + more|
  {
    hide VarintAt, DecodeTag;
    var id := CompleteVarint(bytes);
    ZeroVarint();
    more := id + [0x80];
    VarintPrefixStable(bytes + id, [0x80]);
    TagWithLength(bytes + id, [0x80]);
    assert bytes + more == (bytes + id) + [0x80];
  }

  lemma ZeroVarint()
    ensures VarintAt([0x80]) == Ok(Some((Value(0), 1)))
  {
    Pow2Table();
    WidthUnique(0x80, 1);
    BigEndianNext([0x80], 0);
    assert [0x80][..1] == [0x80];
  }

  lemma CompleteLength(bytes: seq<byte>) returns (more: seq<byte>)
    requires DecodeTag(bytes) == Ok(None) && VarintAt(bytes) != Ok(None)
    ensures |more| > 0
    ensures DecodeTag(bytes + more).Ok? && DecodeTag(bytes + more).value.Some?
    ensures DecodeTag(bytes + more).value.value.1.Value? && DecodeTag(bytes + more).value.value.2 == |bytes + more|
  {
    LengthMissing(bytes);
    var idSize := VarintAt(bytes).value.value.1;
    hide VarintAt, DecodeTag;
    var id := bytes[..idSize];
    more := CompleteVarint(bytes[idSize..]);
    VarintPrefixStable(bytes, more);
    assert bytes + more == id + (bytes[idSize..] + more);
    TagWithLength(id, bytes[idSize..] + more);
  }

  lemma LengthMissing(bytes: seq<byte>)
    requires DecodeTag(bytes) == Ok(None) && VarintAt(bytes) != Ok(None)
    ensures VarintAt(bytes).Ok? && VarintAt(bytes).value.Some? && VarintAt(bytes).value.value.0.Value?
    ensures VarintAt(bytes).value.value.1 <= |bytes| && VarintAt(bytes[VarintAt(bytes).value.value.1..]) == Ok(None)
  {
    assert VarintAt(bytes).Ok? && VarintAt(bytes).value.Some? ==> VarintAt(bytes).value.value.1 <= |bytes|;
    hide VarintAt;
  }

  /** The same for a whole element header. */
  lemma TagNeedsMore(bytes: seq<byte>)
    ensures DecodeTag(bytes) == Ok(None) <==>
            exists more :: |more| > 0 && DecodeTag(bytes + more).Ok? && DecodeTag(bytes + more).value.Some?
                           && DecodeTag(bytes + more).value.value.2 == |bytes + more|
  {
    hide VarintAt;
    if DecodeTag(bytes) == Ok(None) {
      var more := CompleteTag(bytes);
    }
    forall more | |more| > 0 && DecodeTag(bytes + more).Ok? && DecodeTag(bytes + more).value.Some?
                  && DecodeTag(bytes + more).value.value.2 == |bytes + more|
      ensures DecodeTag(bytes) == Ok(None)
    {
      TagPrefixStable(bytes, more);
    }
  }

  // ----- Writing -----

  const EIGHT_MAX: nat := 0xFF_FFFF_FFFF_FFFE
  const FOUR_FLAG: nat := 0x1000_0000
  const FOUR_MAX: nat := 0xFFF_FFFE

  /** The least width whose values include `value`; 2^(7s) - 1 is reserved in width s. */
  function MinWidth(value: u64): (s: nat)
    requires value <= EIGHT_MAX
    ensures 1 <= s <= 8 && value < Pow2(7 * s) - 1
    ensures forall t :: 1 <= t < s ==> value >= Pow2(7 * t) - 1
  {
    Pow2Table();
    MinWidthFrom(value, 1)
  }

  function MinWidthFrom(value: u64, s: nat): (r: nat)
    requires 1 <= s <= 8 && value < Pow2(56) - 1
    ensures s <= r <= 8 && value < Pow2(7 * r) - 1
    ensures forall t :: s <= t < r ==> value >= Pow2(7 * t) - 1
    decreases 8 - s
  {
    if value < Pow2(7 * s) - 1 then s else MinWidthFrom(value, s + 1)
  }

  function VarintBytes(varint: Varint): Result<seq<byte>, WriteError> {
    match varint
    case Unknown => Ok([0xFF])
    case Value(value) =>
      if value > EIGHT_MAX then Err(OutOfRange)
      else Ok(ToBigEndian(Pow2(7 * MinWidth(value)) + value, MinWidth(value)))
  }

  /** The fixed four-byte form, which leaves room for a length known only later. */
  function FixedVarintBytes(varint: Varint): Result<seq<byte>, WriteError> {
    match varint
    case Unknown => Ok(ToBigEndian(2 * FOUR_FLAG - 1, 4))
    case Value(value) => if value > FOUR_MAX then Err(OutOfRange) else Ok(ToBigEndian(FOUR_FLAG + value, 4))
  }

  function Concat(a: Result<seq<byte>, WriteError>, b: Result<seq<byte>, WriteError>): Result<seq<byte>, WriteError> {
    if a.Err? then a else if b.Err? then b else Ok(a.value + b.value)
  }

  function TagHeaderBytes(tag: u64, size: Varint): Result<seq<byte>, WriteError> {
    Concat(VarintBytes(Value(tag)), VarintBytes(size))
  }

  function SizedBytes(tag: u64, payload: seq<byte>): Result<seq<byte>, WriteError> {
    if |payload| > EIGHT_MAX then Err(OutOfRange)
    else Concat(TagHeaderBytes(tag, Value(|payload|)), Ok(payload))
  }

  function IntegerBytes(tag: u64, value: u64): Result<seq<byte>, WriteError> {
    Concat(TagHeaderBytes(tag, Value(8)), Ok(ToBigEndian(value, 8)))
  }

  /** An id and a length in the four-byte form. */
  function FixedHeaderBytes(tag: u64, size: Varint): Result<seq<byte>, WriteError> {
    Concat(VarintBytes(Value(tag)), FixedVarintBytes(size))
  }

  /** An element whose length was written afterwards, in the four-byte form. */
  function ElementBytes(tag: u64, content: seq<byte>): Result<seq<byte>, WriteError> {
    if |content| > FOUR_MAX then Err(OutOfRange)
    else Concat(FixedHeaderBytes(tag, Value(|content|)), Ok(content))
  }

  // ----- Reading back what was written -----

  /** Any number of `s` bytes in [2^(7s), 2^(7s+1)) reads as a varint of width s. */
  lemma MarkedRoundTrip(number: nat, s: nat, rest: seq<byte>)
    requires 1 <= s <= 8 && Pow2(7 * s) <= number < 2 * Pow2(7 * s)
    ensures Pow2(7 * s) < U64_LIMIT
    ensures VarintAt(ToBigEndian(number, s) + rest)
         == Ok(Some((if number == 2 * Pow2(7 * s) - 1 then Unknown else Value(number - Pow2(7 * s)), s)))
  {
    hide Pow2, ToBigEndian, BigEndian, WidthFrom;
    Pow2Double(7 * s);
    var bs := ToBigEndian(number, s);
    Pow2Monotone(7 * s + 1, 8 * s);
    BigEndianInverse(number, s);
    MarkedWidth(bs);
    MarkedRange(bs);
    assert (bs + rest)[..s] == bs;
  }

  /** Every encodable varint reads back, with the width it was written in, whatever follows it;
      exactly the values above EIGHT_MAX are refused. */
  lemma VarintRoundTrip(varint: Varint, rest: seq<byte>)
    ensures if varint.Value? && varint.value > EIGHT_MAX then VarintBytes(varint) == Err(OutOfRange)
            else VarintBytes(varint).Ok?
    ensures VarintBytes(varint).Ok? ==>
              VarintAt(VarintBytes(varint).value + rest) == Ok(Some((varint, |VarintBytes(varint).value|)))
  {
    hide Pow2, ToBigEndian;
    match varint
    case Unknown =>
      Pow2Table();
      OneByte(0xFF);
      MarkedRoundTrip(255, 1, rest);
    case Value(value) =>
      if value <= EIGHT_MAX {
        MarkedRoundTrip(Pow2(7 * MinWidth(value)) + value, MinWidth(value), rest);
      }
  }

  /** The written form is the shortest one: no fewer bytes can read as the same value. */
  lemma VarintShortest(value: u64, bytes: seq<byte>)
    requires VarintAt(bytes).Ok? && VarintAt(bytes).value.Some? && VarintAt(bytes).value.value.0 == Value(value)
    ensures VarintBytes(Value(value)).Ok? && |VarintBytes(Value(value)).value| <= VarintAt(bytes).value.value.1
  {
    DecodedVarintEncodable(bytes);
  }

  lemma FixedVarintRoundTrip(varint: Varint, rest: seq<byte>)
    ensures FixedVarintBytes(varint).Err? <==> varint.Value? && varint.value > FOUR_MAX
    ensures FixedVarintBytes(varint).Ok? ==>
              var bs := FixedVarintBytes(varint).value;
              |bs| == 4 && VarintAt(bs + rest) == Ok(Some((varint, 4)))
  {
    Pow2Table();
    hide Pow2, VarintAt, ToBigEndian;
    match varint
    case Unknown => MarkedRoundTrip(2 * FOUR_FLAG - 1, 4, rest);
    case Value(value) =>
      if value <= FOUR_MAX {
        MarkedRoundTrip(FOUR_FLAG + value, 4, rest);
      }
  }

  /** Every value that was read can be written again, in no more bytes than it was read from. */
  lemma DecodedVarintEncodable(bytes: seq<byte>)
    requires VarintAt(bytes).Ok? && VarintAt(bytes).value.Some?
    ensures var (varint, s) := VarintAt(bytes).value.value;
            && 1 <= s <= |bytes| && s <= 8
            && (varint.Value? ==> varint.value <= EIGHT_MAX)
            && VarintBytes(varint).Ok? && |VarintBytes(varint).value| <= s
  {
    var s := Width(bytes[0]);
    MarkedRange(bytes[..s]);
    Pow2Table();
    var varint := VarintAt(bytes).value.value.0;
  }

  lemma MinWidthIs(value: u64, s: nat)
    requires value <= EIGHT_MAX && 1 <= s <= 8
    requires value < Pow2(7 * s) - 1 && (s > 1 ==> value >= Pow2(7 * (s - 1)) - 1)
    ensures MinWidth(value) == s
  {
    if MinWidth(value) < s {
      Pow2Monotone(7 * MinWidth(value), 7 * (s - 1));
    }
  }

  lemma MinWidthMonotone(a: u64, b: u64)
    requires a <= b <= EIGHT_MAX
    ensures MinWidth(a) <= MinWidth(b)
  {
  }

  lemma TagFromParts(tag: u64, id: seq<byte>, size: Varint, len: seq<byte>, rest: seq<byte>)
    requires VarintAt(id + (len + rest)) == Ok(Some((Value(tag), |id|)))
    requires VarintAt(len + rest) == Ok(Some((size, |len|)))
    ensures DecodeTag((id + len) + rest) == Ok(Some((tag, size, |id + len|)))
  {
    hide VarintAt;
    assert (id + len) + rest == id + (len + rest);
    assert (id + (len + rest))[|id|..] == len + rest;
  }

  lemma TagHeaderRoundTrip(tag: u64, size: Varint, rest: seq<byte>)
    requires TagHeaderBytes(tag, size).Ok?
    ensures var bs := TagHeaderBytes(tag, size).value;
            DecodeTag(bs + rest) == Ok(Some((tag, size, |bs|)))
  {
    var id, len := VarintBytes(Value(tag)).value, VarintBytes(size).value;
    VarintRoundTrip(Value(tag), len + rest);
    VarintRoundTrip(size, rest);
    TagFromParts(tag, id, size, len, rest);
  }

  lemma FixedHeaderRoundTrip(tag: u64, size: Varint, rest: seq<byte>)
    requires FixedHeaderBytes(tag, size).Ok?
    ensures var bs := FixedHeaderBytes(tag, size).value;
            DecodeTag(bs + rest) == Ok(Some((tag, size, |bs|)))
  {
    var id, len := VarintBytes(Value(tag)).value, FixedVarintBytes(size).value;
    VarintRoundTrip(Value(tag), len + rest);
    FixedVarintRoundTrip(size, rest);
    TagFromParts(tag, id, size, len, rest);
  }

  /** The back-patched form reads back as the same id with the length of its content, and what
      follows that header is the content. */
  lemma ElementRoundTrip(tag: u64, content: seq<byte>, rest: seq<byte>)
    requires ElementBytes(tag, content).Ok?
    ensures var bs := ElementBytes(tag, content).value;
            var offset := |bs| - |content|;
            && offset >= 0 && bs[offset..] == content
            && DecodeTag(bs + rest) == Ok(Some((tag, Value(|content|), offset)))
  {
    var header := FixedHeaderBytes(tag, Value(|content|)).value;
    FixedHeaderRoundTrip(tag, Value(|content|), content + rest);
    assert (header + content) + rest == header + (content + rest);
  }

  /** A header that was read can be written again in no more bytes. */
  lemma DecodedTagEncodable(bytes: seq<byte>)
    requires DecodeTag(bytes).Ok? && DecodeTag(bytes).value.Some?
    ensures var (tag, size, offset) := DecodeTag(bytes).value.value;
            && TagHeaderBytes(tag, size).Ok? && |TagHeaderBytes(tag, size).value| <= offset
            && (size.Value? ==> size.value <= EIGHT_MAX)
  {
    DecodedVarintEncodable(bytes);
    var idSize := VarintAt(bytes).value.value.1;
    DecodedVarintEncodable(bytes[idSize..]);
    hide VarintAt, VarintBytes;
  }
}
