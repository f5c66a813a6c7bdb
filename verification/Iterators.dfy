/** The event sequence that a byte string stands for, and the iterator over a whole buffer. */
module Iterators {
  import opened Wrappers
  import opened Bytes
  import opened Ebml
  import opened Webm

  datatype WebmetroError =
    | ResourcesExceeded
    | EbmlFailure(ebml: EbmlError)
    | IoFailure(io: WriteError)
    | SourceFailure(code: int)

  type Item = Result<WebmElement, WebmetroError>

  function Lift(r: Result<WebmElement, EbmlError>): Item {
    match r
    case Ok(element) => Ok(element)
    case Err(e) => Err(EbmlFailure(e))
  }

  /** All events in `bytes`: a payload that cannot be decoded is an error in its place, a header
      that cannot be decoded is an error that ends the sequence, and an unfinished element at the
      end is no event. */
  function Events(bytes: seq<byte>): seq<Item>
    decreases |bytes|
  {
    match CheckSpace(bytes)
    case Ok(None) => []
    case Err(e) => [Err(EbmlFailure(e))]
    case Ok(Some(info)) => [Lift(DecodeAt(bytes, info))] + Events(bytes[info.elementLen..])
  }

  /** What is left behind the last complete element. */
  function Leftover(bytes: seq<byte>): seq<byte>
    decreases |bytes|
  {
    match CheckSpace(bytes)
    case Ok(Some(info)) => Leftover(bytes[info.elementLen..])
    case _ => bytes
  }

  /** No complete element occupies more than `limit` bytes. */
  predicate ElementsFit(bytes: seq<byte>, limit: nat)
    decreases |bytes|
  {
    match CheckSpace(bytes)
    case Ok(Some(info)) => info.elementLen <= limit && ElementsFit(bytes[info.elementLen..], limit)
    case _ => true
  }

  /** The first event does not depend on what follows its element. */
  lemma FirstEvent(bytes: seq<byte>, more: seq<byte>)
    ensures CheckSpace(bytes).Err? ==> Events(bytes + more) == [Err(EbmlFailure(CheckSpace(bytes).error))]
    ensures CheckSpace(bytes).Ok? && CheckSpace(bytes).value.Some? ==>
              var info := CheckSpace(bytes).value.value;
              && CheckSpace(bytes + more) == CheckSpace(bytes)
              && (bytes + more)[info.elementLen..] == bytes[info.elementLen..] + more
              && Events(bytes + more) == [Lift(DecodeAt(bytes, info))] + Events(bytes[info.elementLen..] + more)
  {
    hide CheckSpace, Decode;
    CheckSpacePrefixStable(bytes, more);
    if CheckSpace(bytes).Ok? && CheckSpace(bytes).value.Some? {
      var info := CheckSpace(bytes).value.value;
      assert (bytes + more)[info.elementLen..] == bytes[info.elementLen..] + more;
      assert (bytes + more)[info.bodyOffset..info.elementLen] == bytes[info.bodyOffset..info.elementLen];
    }
  }

  /** Iterating over a buffer. */
  class EbmlIterator {
    var source: seq<byte>

    constructor (source: seq<byte>)
      ensures this.source == source
    {
      this.source := source;
    }

    /** Yields the events of the buffer in order, up to the first error, where it stays. */
    method Next() returns (r: Option<WebmElement>)
      modifies this
      ensures r == if Events(old(source)) != [] && Events(old(source))[0].Ok?
                   then Some(Events(old(source))[0].value) else None
      ensures r.Some? ==> Events(source) == Events(old(source))[1..]
      ensures r.None? ==> source == old(source)
    {
      hide CheckSpace, Decode;
      match DecodeElement(source) {
        case Ok(Some((element, elementSize))) =>
          source := source[elementSize..];
          r := Some(element);
        case _ =>
          r := None;
      }
    }
  }
}
