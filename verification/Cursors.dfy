/** A seekable, growing byte buffer, and the EBML routines that work step by step on bytes. */
module Cursors {
  import opened Wrappers
  import opened Bytes
  import opened Ebml

  type IoResult = Result<(), WriteError>

  /** `data` with `bs` written at `pos`: existing bytes are overwritten, further ones appended. */
  function Overwrite(data: seq<byte>, pos: nat, bs: seq<byte>): (r: seq<byte>)
    requires pos <= |data|
    ensures pos + |bs| <= |r|
  {
    data[..pos] + bs + if pos + |bs| <= |data| then data[pos + |bs|..] else []
  }

  lemma OverwriteTwice(data: seq<byte>, pos: nat, a: seq<byte>, b: seq<byte>)
    requires pos <= |data|
    ensures Overwrite(Overwrite(data, pos, a), pos + |a|, b) == Overwrite(data, pos, a + b)
  {
  }

  lemma OverwriteKeeps(data: seq<byte>, pos: nat, bs: seq<byte>)
    requires pos <= |data|
    ensures Overwrite(data, pos, bs)[..pos] == data[..pos]
  {
  }

  lemma PrefixKept(data: seq<byte>, pos: nat, bs: seq<byte>)
    requires pos <= |data|
    ensures Overwrite(data, pos, bs)[..pos] == data[..pos]
    ensures Overwrite(data, pos, bs)[..pos + |bs|][..pos] == data[..pos]
  {
  }

  /** Patching the middle of what was just written. */
  lemma OverwriteMiddle(data: seq<byte>, pos: nat, a: seq<byte>, b: seq<byte>, b': seq<byte>, c: seq<byte>)
    requires pos <= |data| && |b| == |b'|
    ensures Overwrite(Overwrite(data, pos, (a + b) + c), pos + |a|, b') == Overwrite(data, pos, (a + b') + c)
  {
  }

  /** An in-memory output: the bytes and the place of the next write. */
  class Cursor {
    var data: seq<byte>
    var pos: nat

    ghost predicate Valid()
      reads this
    {
      pos <= |data|
    }

    constructor ()
      ensures data == [] && pos == 0
    {
      data, pos := [], 0;
    }

    method WriteAll(bs: seq<byte>)
      requires Valid()
      modifies this
      ensures Valid()
      ensures data == Overwrite(old(data), old(pos), bs) && pos == old(pos) + |bs|
    {
      data := Overwrite(data, pos, bs);
      pos := pos + |bs|;
    }

    method SeekTo(target: nat)
      requires Valid() && target <= |data|
      modifies this
      ensures Valid() && data == old(data) && pos == target
    {
      pos := target;
    }
  }

  /** What a writing routine that started on `data` at `pos` promises: with `bytes` to write, they
      are at `pos` and the cursor is right behind them; with an error, what was before `pos` is intact. */
  ghost predicate Wrote(output: Cursor, data: seq<byte>, pos: nat, bytes: Result<seq<byte>, WriteError>, r: IoResult)
    requires pos <= |data|
    reads output
  {
    && output.Valid()
    && match bytes
       case Ok(bs) => r == Ok(()) && output.data == Overwrite(data, pos, bs) && output.pos == pos + |bs|
       case Err(e) => r == Err(e) && pos <= output.pos && output.data[..pos] == data[..pos]
  }

  method DecodeVarint(bytes: seq<byte>) returns (r: VarintResult)
    ensures r == VarintAt(bytes)
  {
    hide BigEndian, Pow2, WidthFrom, HasBit;
    if |bytes| == 0 {
      return Ok(None);
    }
    var value: nat, valueLength: nat, mask: nat, unknownMarker: nat := 0, 1, 0x80, U64_LIMIT - 1;
    Pow2Table();
    while mask > 0
      invariant 1 <= valueLength <= 9
      invariant mask == if valueLength == 9 then 0 else Pow2(8 - valueLength)
      invariant if valueLength == 9 then bytes[0] == 0 else bytes[0] < 2 * mask
      decreases mask
    {
      TopBit(bytes[0], mask);
      if HasBit(bytes[0], mask) {
        value := bytes[0] - mask;
        unknownMarker := mask - 1;
        break;
      }
      HalveMask(mask, valueLength);
      valueLength := valueLength + 1;
      mask := mask / 2;
    }
    if mask == 0 {
      return Err(CorruptVarint);
    }
    WidthUnique(bytes[0], valueLength);
    if valueLength > |bytes| {
      return Ok(None);
    }
    BigEndianNext(bytes, 0);
    for i := 1 to valueLength
      invariant Pow2(8 - valueLength + 8 * (i - 1)) + value == BigEndian(bytes[..i])
      invariant unknownMarker == Pow2(8 - valueLength + 8 * (i - 1)) - 1
    {
      BigEndianNext(bytes, i);
      Pow2Shifts(8 - valueLength + 8 * (i - 1));
      value := value * 256 + bytes[i];
      unknownMarker := unknownMarker * 256 + 0xFF;
    }
    MarkedRange(bytes[..valueLength]);
    if value == unknownMarker {
      r := Ok(Some((Unknown, valueLength)));
    } else {
      r := Ok(Some((Value(value), valueLength)));
    }
  }

  /** `mask & b != 0` for a mask with one bit set. */
  predicate HasBit(b: byte, mask: nat)
    requires mask > 0
  {
    (b / mask) % 2 != 0
  }

  /** With no bit above `mask` set, the mask's own bit decides on which side of it a byte is. */
  lemma TopBit(b: byte, mask: nat)
    requires 0 < mask && b < 2 * mask
    ensures HasBit(b, mask) <==> b >= mask
  {
    if b >= mask {
      assert b / mask == 1;
    } else {
      assert b / mask == 0;
    }
  }

  lemma HalveMask(mask: nat, s: nat)
    requires 1 <= s <= 8 && mask == Pow2(8 - s)
    ensures mask / 2 == if s == 8 then 0 else Pow2(7 - s)
    ensures s < 8 ==> mask == 2 * Pow2(7 - s)
    ensures s == 8 ==> mask == 1
  {
  }

  lemma NextFlag(value: u64, size: nat)
    requires 1 <= size <= 8 && Pow2(7 * size) - 1 <= value <= EIGHT_MAX
    ensures size < 8 && Pow2(7 * (size + 1)) == 128 * Pow2(7 * size)
  {
    Pow2Table();
    Pow2Shifts(7 * size);
  }

  method EncodeVarint(varint: Varint, output: Cursor) returns (r: IoResult)
    requires output.Valid()
    modifies output
    ensures Wrote(output, old(output.data), old(output.pos), VarintBytes(varint), r)
    ensures r.Err? ==> output.data == old(output.data) && output.pos == old(output.pos)
  {
    hide Overwrite, ToBigEndian, Pow2;
    var size, number;
    match varint {
    case Unknown =>
      size, number := 1, 0xFF;
    case Value(value) =>
      if value > EIGHT_MAX {
        return Err(OutOfRange);
      }
      var flag := 0x80;
      size := 1;
      Pow2Table();
      while value >= flag - 1
        invariant 1 <= size <= 8 && flag == Pow2(7 * size)
        invariant MinWidth(value) == MinWidthFrom(value, size)
        decreases 8 - size
        modifies {}
      {
        NextFlag(value, size);
        flag := flag * 128;
        size := size + 1;
      }
      assert size == MinWidth(value);
      number := flag + value;
    }
    OneByte(0xFF);
    output.WriteAll(ToBigEndian(number, size));
    r := Ok(());
  }

  method EncodeVarint4(varint: Varint, output: Cursor) returns (r: IoResult)
    requires output.Valid()
    modifies output
    ensures Wrote(output, old(output.data), old(output.pos), FixedVarintBytes(varint), r)
    ensures r.Err? ==> output.data == old(output.data) && output.pos == old(output.pos)
  {
    var number;
    match varint {
    case Unknown =>
      number := FOUR_FLAG + (FOUR_FLAG - 1);
    case Value(value) =>
      if value > FOUR_MAX {
        return Err(OutOfRange);
      }
      number := FOUR_FLAG + value;
    }
    output.WriteAll(ToBigEndian(number, 4));
    r := Ok(());
  }

  /** The contents of an output and the place of its next write. */
  datatype OutputState = OutputState(data: seq<byte>, pos: nat)

  /** Any content routine: what it makes of an output, and whether it fails. */
  type Content = OutputState -> (OutputState, Option<WriteError>)

  /** A routine may write and seek; it can neither shorten the output nor go beyond its end. */
  predicate KeepsOutput(content: Content, before: OutputState) {
    before.pos <= |before.data| <= |content(before).0.data| && content(before).0.pos <= |content(before).0.data|
  }

  /** Places in one output in memory are less than 2^63 apart. */
  predicate NotFarApart(a: nat, b: nat) {
    a < b + U64_LIMIT / 2 && b < a + U64_LIMIT / 2
  }

  /** The routine appends `bytes` where it finds the output, and succeeds. */
  predicate Appends(content: Content, before: OutputState, bytes: seq<byte>) {
    before.pos <= |before.data| &&
    content(before) == (OutputState(Overwrite(before.data, before.pos, bytes), before.pos + |bytes|), None)
  }

  /** A routine that only appends. */
  function Appending(bytes: seq<byte>): Content {
    (w: OutputState) =>
      if w.pos <= |w.data| then (OutputState(Overwrite(w.data, w.pos, bytes), w.pos + |bytes|), None) else (w, None)
  }

  /** The output when the content routine gets to see it: id and unknown length have been written. */
  function WithUnknownLength(tag: u64, data: seq<byte>, pos: nat): (w: OutputState)
    requires tag <= EIGHT_MAX && pos <= |data|
    ensures pos + 4 <= w.pos <= |w.data|
  {
    VarintRoundTrip(Value(tag), []);
    FixedVarintRoundTrip(Unknown, []);
    var header := VarintBytes(Value(tag)).value + FixedVarintBytes(Unknown).value;
    OutputState(Overwrite(data, pos, header), pos + |header|)
  }

  method RunContent(content: Content, output: Cursor) returns (r: IoResult)
    requires output.Valid() && KeepsOutput(content, OutputState(output.data, output.pos))
    modifies output
    ensures output.Valid()
    ensures (OutputState(output.data, output.pos), if r.Err? then Some(r.error) else None)
         == content(old(OutputState(output.data, output.pos)))
  {
    var (after, failure) := content(OutputState(output.data, output.pos));
    output.data, output.pos := after.data, after.pos;
    r := if failure.Some? then Err(failure.value) else Ok(());
  }

  /** Writes an unknown length first and patches in the distance that the content routine moved the
      output's position, whatever the routine did. A distance that is too long, or negative, is refused. */
  method EncodeElement(tag: u64, output: Cursor, content: Content) returns (r: IoResult)
    requires output.Valid()
    requires tag <= EIGHT_MAX ==>
               var before := WithUnknownLength(tag, output.data, output.pos);
               KeepsOutput(content, before) && NotFarApart(before.pos, content(before).0.pos)
    modifies output
    ensures output.Valid()
    ensures if tag > EIGHT_MAX then
              r == Err(OutOfRange) && output.data == old(output.data) && output.pos == old(output.pos)
            else
              var before := WithUnknownLength(tag, old(output.data), old(output.pos));
              var (after, failure) := content(before);
              if failure.Some? then
                r == Err(failure.value) && OutputState(output.data, output.pos) == after
              else if 0 <= after.pos - before.pos <= FOUR_MAX then
                && r == Ok(()) && output.pos == after.pos
                && output.data == Overwrite(after.data, before.pos - 4,
                                            FixedVarintBytes(Value(after.pos - before.pos)).value)
              else r == Err(OutOfRange) && output.data == after.data && output.pos == before.pos - 4
  {
    hide WithUnknownLength, Overwrite;
    r := WriteUnknownLength(tag, output);
    if r.Err? {
      return;
    }
    var start := output.pos;
    r := RunContent(content, output);
    if r.Err? {
      return;
    }
    var end := output.pos;
    r := PatchLength(start, end, output);
  }

  /** The first half of `EncodeElement`: the id, and room for the length. */
  method WriteUnknownLength(tag: u64, output: Cursor) returns (r: IoResult)
    requires output.Valid()
    modifies output
    ensures output.Valid()
    ensures if tag > EIGHT_MAX then
              r == Err(OutOfRange) && output.data == old(output.data) && output.pos == old(output.pos)
            else
              && r == Ok(())
              && OutputState(output.data, output.pos) == WithUnknownLength(tag, old(output.data), old(output.pos))
  {
    hide VarintBytes, FixedVarintBytes, Overwrite;
    ghost var data0, pos0 := output.data, output.pos;
    VarintRoundTrip(Value(tag), []);
    r := EncodeVarint(Value(tag), output);
    if r.Err? {
      return;
    }
    FixedVarintRoundTrip(Unknown, []);
    r := EncodeVarint4(Unknown, output);
    OverwriteTwice(data0, pos0, VarintBytes(Value(tag)).value, FixedVarintBytes(Unknown).value);
  }

  /** The second half of `EncodeElement`: back to the length field, overwrite it and nothing else, and
      return to the end. A negative length wraps around and so is refused as too long. */
  method PatchLength(start: nat, end: nat, output: Cursor) returns (r: IoResult)
    requires output.Valid() && 4 <= start <= |output.data| && end <= |output.data|
    requires NotFarApart(start, end)
    modifies output
    ensures output.Valid()
    ensures if 0 <= end - start <= FOUR_MAX then
              && r == Ok(()) && output.pos == end
              && output.data == Overwrite(old(output.data), start - 4, FixedVarintBytes(Value(end - start)).value)
              && |output.data| == old(|output.data|)
            else r == Err(OutOfRange) && output.data == old(output.data) && output.pos == start - 4
  {
    var size: u64 := if end >= start then end - start else end - start + U64_LIMIT;
    output.SeekTo(start - 4);
    FixedVarintRoundTrip(Value(size), []);
    r := EncodeVarint4(Value(size), output);
    if r.Err? {
      return;
    }
    output.SeekTo(end);
  }

  lemma PatchedBytes(data: seq<byte>, pos: nat, id: seq<byte>, unknown: seq<byte>, length: seq<byte>, bytes: seq<byte>)
    requires pos <= |data| && |unknown| == |length| == 4
    ensures var appended := Overwrite(Overwrite(data, pos, id + unknown), pos + |id + unknown|, bytes);
            && pos + |id| + 4 <= |appended|
            && Overwrite(appended, pos + |id|, length) == Overwrite(data, pos, (id + length) + bytes)
    ensures Overwrite(data, pos, (id + length) + bytes)[..pos] == data[..pos]
  {
    OverwriteTwice(data, pos, id + unknown, bytes);
    OverwriteMiddle(data, pos, id, unknown, length, bytes);
    OverwriteKeeps(data, pos, (id + length) + bytes);
    hide Overwrite;
  }

  /** So with a routine that appends: what was before the start is intact, and id, length and content
      are there with the position right behind them. */
  lemma AppendedElement(tag: u64, data: seq<byte>, pos: nat, content: Content, bytes: seq<byte>)
    requires tag <= EIGHT_MAX && pos <= |data| && |bytes| <= FOUR_MAX
    requires Appends(content, WithUnknownLength(tag, data, pos), bytes)
    ensures var before := WithUnknownLength(tag, data, pos);
            var after := content(before).0;
            && KeepsOutput(content, before) && after.pos == before.pos + |bytes|
            && ElementBytes(tag, bytes).Ok?
            && Overwrite(after.data, before.pos - 4, FixedVarintBytes(Value(|bytes|)).value)
                 == Overwrite(data, pos, ElementBytes(tag, bytes).value)
            && after.pos == pos + |ElementBytes(tag, bytes).value|
            && Overwrite(data, pos, ElementBytes(tag, bytes).value)[..pos] == data[..pos]
  {
    var before := WithUnknownLength(tag, data, pos);
    var after := content(before).0;
    assert after == OutputState(Overwrite(before.data, before.pos, bytes), before.pos + |bytes|);
    LengthsOf(tag, bytes);
    var id, unknown, length := VarintBytes(Value(tag)).value, FixedVarintBytes(Unknown).value,
                               FixedVarintBytes(Value(|bytes|)).value;
    assert before == OutputState(Overwrite(data, pos, id + unknown), pos + |id + unknown|);
    KeptLength(before.data, before.pos, bytes);
    assert KeepsOutput(content, before);
    hide *;
    PatchedBytes(data, pos, id, unknown, length, bytes);
  }

  /** If the routine fails after appending something, or appends too much, what was before the start
      is intact all the same. */
  lemma PrefixIntact(tag: u64, data: seq<byte>, pos: nat, bytes: seq<byte>)
    requires tag <= EIGHT_MAX && pos <= |data|
    ensures var before := WithUnknownLength(tag, data, pos);
            pos + |bytes| <= |Overwrite(before.data, before.pos, bytes)| &&
            Overwrite(before.data, before.pos, bytes)[..pos] == data[..pos]
  {
    LengthsOf(tag, []);
    hide VarintBytes, FixedVarintBytes;
    var header := VarintBytes(Value(tag)).value + FixedVarintBytes(Unknown).value;
    OverwriteTwice(data, pos, header, bytes);
    OverwriteKeeps(data, pos, header + bytes);
  }

  lemma KeptLength(data: seq<byte>, pos: nat, bytes: seq<byte>)
    requires pos <= |data|
    ensures |data| <= |Overwrite(data, pos, bytes)|
  {
  }

  lemma LengthsOf(tag: u64, bytes: seq<byte>)
    requires tag <= EIGHT_MAX && |bytes| <= FOUR_MAX
    ensures VarintBytes(Value(tag)).Ok? && FixedVarintBytes(Unknown).Ok? && FixedVarintBytes(Value(|bytes|)).Ok?
    ensures |FixedVarintBytes(Unknown).value| == |FixedVarintBytes(Value(|bytes|)).value| == 4
    ensures ElementBytes(tag, bytes)
         == Ok((VarintBytes(Value(tag)).value + FixedVarintBytes(Value(|bytes|)).value) + bytes)
  {
    VarintRoundTrip(Value(tag), []);
    FixedVarintRoundTrip(Unknown, []);
    FixedVarintRoundTrip(Value(|bytes|), []);
    hide VarintBytes, FixedVarintBytes;
  }

  method EncodeTagHeader(tag: u64, size: Varint, output: Cursor) returns (r: IoResult)
    requires output.Valid()
    modifies output
    ensures Wrote(output, old(output.data), old(output.pos), TagHeaderBytes(tag, size), r)
  {
    VarintRoundTrip(Value(tag), []);
    VarintRoundTrip(size, []);
    hide VarintBytes, Overwrite, VarintAt;
    ghost var data0, pos0 := output.data, output.pos;
    r := EncodeVarint(Value(tag), output);
    if r.Err? {
      return;
    }
    PrefixKept(data0, pos0, VarintBytes(Value(tag)).value);
    r := EncodeVarint(size, output);
    if r.Ok? {
      OverwriteTwice(data0, pos0, VarintBytes(Value(tag)).value, VarintBytes(size).value);
    }
  }

  method EncodeBytes(tag: u64, bytes: seq<byte>, output: Cursor) returns (r: IoResult)
    requires output.Valid()
    requires |bytes| < U64_LIMIT
    modifies output
    ensures Wrote(output, old(output.data), old(output.pos), SizedBytes(tag, bytes), r)
  {
    ghost var data0, pos0 := output.data, output.pos;
    r := EncodeTagHeader(tag, Value(|bytes|), output);
    if r.Err? {
      return;
    }
    output.WriteAll(bytes);
    OverwriteTwice(data0, pos0, TagHeaderBytes(tag, Value(|bytes|)).value, bytes);
  }

  method EncodeInteger(tag: u64, value: u64, output: Cursor) returns (r: IoResult)
    requires output.Valid()
    modifies output
    ensures Wrote(output, old(output.data), old(output.pos), IntegerBytes(tag, value), r)
  {
    ghost var data0, pos0 := output.data, output.pos;
    r := EncodeTagHeader(tag, Value(8), output);
    if r.Err? {
      return;
    }
    output.WriteAll(ToBigEndian(value, 8));
    OverwriteTwice(data0, pos0, TagHeaderBytes(tag, Value(8)).value, ToBigEndian(value, 8));
  }
}
