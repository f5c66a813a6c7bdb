/** The filter on one short stream, from bytes to bytes. */
module WorkedExample {
  import opened Wrappers
  import opened Bytes
  import opened Ebml
  import opened Webm
  import opened Reference
  import opened Iterators
  import opened Readings
  import opened Chunks
  import opened NormalForms
  import opened Meaning
  import opened Fixers
  import opened Pipeline
  import opened Idempotence
  import opened Counterexamples

  /** The bytes of an element, and the element that they stand for. */
  datatype Part = Part(id: seq<byte>, size: seq<byte>, payload: seq<byte>, element: WebmElement)

  function Join(parts: seq<Part>): seq<byte> {
    if parts == [] then [] else Laid(parts[0].id, parts[0].size, parts[0].payload) + Join(parts[1..])
  }

  function Elements(parts: seq<Part>): seq<WebmElement> {
    if parts == [] then [] else [parts[0].element] + Elements(parts[1..])
  }

  const TRACKS: WebmElement := Tracks([0xAA, 0xBB])
  const BLOCK: WebmElement := Block(SimpleBlock(1, 33, 0x80, [0xCC]))

  const IN_HEAD := Part([0x1A, 0x45, 0xDF, 0xA3], [0x84], [0x42, 0x86, 0x81, 0x01], EbmlHead)
  const IN_SEGMENT := Part([0x18, 0x53, 0x80, 0x67], [0xBE], [], Segment)
  const IN_SEEK_HEAD := Part([0x11, 0x4D, 0x9B, 0x74], [0x80], [], SeekHead)
  const IN_VOID := Part([0xEC], [0x81], [0x00], Void)
  const IN_INFO := Part([0x15, 0x49, 0xA9, 0x66], [0x80], [], Info)
  const IN_TRACKS := Part([0x16, 0x54, 0xAE, 0x6B], [0x82], [0xAA, 0xBB], TRACKS)
  const IN_CLUSTER := Part([0x1F, 0x43, 0xB6, 0x75], [0xFF], [], Cluster)
  const IN_BLOCK := Part([0xA3], [0x85], [0x81, 0x00, 0x21, 0x80, 0xCC], BLOCK)
  const IN_TIMECODE := Part([0xE7], [0x82], [0x01, 0x00], Timecode(256))
  const IN_UNKNOWN := Part([0xAB], [0x80], [], UnknownElement(0x2B))
  const IN_CUES := Part([0x1C, 0x53, 0xBB, 0x6B], [0x80], [], Cues)
  const IN_SIZED_CLUSTER := Part([0x1F, 0x43, 0xB6, 0x75], [0x80], [], Cluster)
  const IN_EARLIER := Part([0xE7], [0x81], [0x05], Timecode(5))

  const OUT_HEAD :=
    Part([0x1A, 0x45, 0xDF, 0xA3], [0x10, 0, 0, 7], [0x42, 0x82, 0x84, 0x77, 0x65, 0x62, 0x6D], EbmlHead)
  const OUT_SEGMENT := Part([0x18, 0x53, 0x80, 0x67], [0xFF], [], Segment)
  const OUT_TIMECODE := Part([0xE7], [0x88], [0, 0, 0, 0, 0, 0, 1, 0], Timecode(256))
  const OUT_LATER := Part([0xE7], [0x88], [0, 0, 0, 0, 0, 0, 1, 0x42], Timecode(322))

  /** An EbmlHead, a Segment of known size, SeekHead, Void, Info and Tracks; a cluster whose Timecode,
      256, comes behind its keyframe, with an unknown element and Cues; and a cluster that jumps back
      to time 5. */
  function Input(): seq<Part> {
    [IN_HEAD, IN_SEGMENT, IN_SEEK_HEAD, IN_VOID, IN_INFO, IN_TRACKS,
     IN_CLUSTER, IN_BLOCK, IN_TIMECODE, IN_UNKNOWN, IN_CUES,
     IN_SIZED_CLUSTER, IN_EARLIER]
  }

  /** A new EbmlHead, the Segment with unknown size, and Tracks; the first cluster with its Timecode in
      front; and the second at 322, which is 33 behind the end of the first. */
  function Output(): seq<Part> {
    [OUT_HEAD, OUT_SEGMENT, IN_TRACKS,
     IN_CLUSTER, OUT_TIMECODE, IN_BLOCK,
     IN_CLUSTER, OUT_LATER]
  }

  const HEADER: seq<WebmElement> := [EbmlHead, Segment, SeekHead, Void, Info, TRACKS]
  const FIRST: seq<WebmElement> := [BLOCK, Timecode(256), UnknownElement(0x2B), Cues]
  const SECOND: seq<WebmElement> := [Timecode(5)]

  function InputSegments(): seq<Segment> {
    [HeaderRun(HEADER), ClusterRun(FIRST), ClusterRun(SECOND)]
  }

  // ----- Reading the input -----

  predicate Reads(part: Part, rest: seq<byte>) {
    ReadsAs(Laid(part.id, part.size, part.payload), part.element, rest)
  }

  ghost predicate AlwaysReads(part: Part) {
    forall rest :: Reads(part, rest)
  }

  ghost predicate AllRead(parts: seq<Part>) {
    forall i :: 0 <= i < |parts| ==> AlwaysReads(parts[i])
  }

  lemma {:induction false} PartsRead(parts: seq<Part>)
    requires AllRead(parts)
    ensures Events(Join(parts)) == Oks(Elements(parts))
  {
    hide DecodeElement, CheckSpace, Decode;
    if parts == [] {
      NoEvents();
    } else {
      assert AllRead(parts[1..]);
      PartsRead(parts[1..]);
      assert Reads(parts[0], Join(parts[1..]));
      assert Elements(parts)[1..] == Elements(parts[1..]);
    }
  }

  lemma PlainRead(part: Part)
    requires |part.payload| < U64_LIMIT && IsVarint(part.size, Value(|part.payload|))
    requires || (part.id == [0x1A, 0x45, 0xDF, 0xA3] && part.element == EbmlHead)
             || (part.id == [0xEC] && part.element == Void)
             || (part.id == [0x11, 0x4D, 0x9B, 0x74] && part.element == SeekHead)
             || (part.id == [0x15, 0x49, 0xA9, 0x66] && part.element == Info)
             || (part.id == [0x1C, 0x53, 0xBB, 0x6B] && part.element == Cues)
             || (part.id == [0x16, 0x54, 0xAE, 0x6B] && part.element == Tracks(part.payload))
    ensures AlwaysReads(part)
  {
    forall rest: seq<byte>
      ensures Reads(part, rest)
    {
      PlainKinds(part.size, part.payload, rest);
      hide ReadsAs, IsVarint, Laid;
    }
  }

  lemma PlainParts()
    ensures AlwaysReads(IN_HEAD) && AlwaysReads(IN_SEEK_HEAD) && AlwaysReads(IN_VOID) && AlwaysReads(IN_INFO)
    ensures AlwaysReads(IN_TRACKS) && AlwaysReads(IN_CUES)
  {
    ShortVarintReads(4);
    ShortVarintReads(0);
    ShortVarintReads(1);
    ShortVarintReads(2);
    hide AlwaysReads, IsVarint;
    PlainRead(IN_HEAD);
    PlainRead(IN_SEEK_HEAD);
    PlainRead(IN_VOID);
    PlainRead(IN_INFO);
    PlainRead(IN_TRACKS);
    PlainRead(IN_CUES);
  }

  lemma MarkerRead(part: Part, varint: Varint)
    requires part.payload == [] && IsVarint(part.size, varint)
    requires || (part.id == [0x18, 0x53, 0x80, 0x67] && part.element == Segment)
             || (part.id == [0x1F, 0x43, 0xB6, 0x75] && part.element == Cluster)
    ensures AlwaysReads(part)
  {
    forall rest: seq<byte>
      ensures Reads(part, rest)
    {
      MarkersReadAsHeaders(part.size, varint, rest);
      assert Laid(part.id, part.size, []) == part.id + part.size;
      hide ReadsAs, IsVarint, Laid;
    }
  }

  lemma MarkerParts()
    ensures AlwaysReads(IN_SEGMENT) && AlwaysReads(IN_CLUSTER) && AlwaysReads(IN_SIZED_CLUSTER)
  {
    ShortVarintReads(0x3E);
    ShortVarintReads(0);
    UnknownVarintReads();
    hide AlwaysReads, IsVarint;
    MarkerRead(IN_SEGMENT, Value(0x3E));
    MarkerRead(IN_CLUSTER, Unknown);
    MarkerRead(IN_SIZED_CLUSTER, Value(0));
  }

  lemma UnknownVarintReads()
    ensures IsVarint([0xFF], Unknown)
  {
    VarintRoundTrip(Unknown, []);
    assert [0xFF] + [] == [0xFF];
    hide VarintAt;
  }

  lemma BlockPart()
    ensures AlwaysReads(IN_BLOCK)
  {
    ShortVarintReads(5);
    ShortVarintReads(1);
    var tail: seq<byte> := [0x00, 0x21, 0x80, 0xCC];
    assert tail[3..] == [0xCC] && [0x81] + tail == IN_BLOCK.payload;
    forall rest: seq<byte>
      ensures Reads(IN_BLOCK, rest)
    {
      hide ReadsAs, IsVarint, Laid;
      BlockReads([0x85], [0x81], 1, tail, rest);
    }
  }

  lemma TimecodeRead(part: Part)
    requires part.id == [0xE7] && 1 <= |part.payload| <= 8 && IsVarint(part.size, Value(|part.payload|))
    requires part.element.Timecode? && part.element.time == BigEndian(part.payload)
    ensures AlwaysReads(part)
  {
    forall rest: seq<byte>
      ensures Reads(part, rest)
    {
      hide ReadsAs, IsVarint, Laid, BigEndian;
      TimecodeReads(part.size, part.payload, rest);
    }
  }

  lemma TimecodeParts()
    ensures AlwaysReads(IN_TIMECODE) && AlwaysReads(IN_EARLIER)
  {
    ShortVarintReads(2);
    ShortVarintReads(1);
    TwoByteNumber();
    hide AlwaysReads, IsVarint, BigEndian;
    TimecodeRead(IN_TIMECODE);
    TimecodeRead(IN_EARLIER);
  }

  lemma TwoByteNumber()
    ensures BigEndian([0x01, 0x00]) == 256 && BigEndian([0x05]) == 5
  {
    var bs: seq<byte> := [0x01, 0x00];
    BigEndianNext(bs, 0);
    BigEndianNext(bs, 1);
    assert bs[..2] == bs;
    var five: seq<byte> := [0x05];
    BigEndianNext(five, 0);
    assert five[..1] == five;
    hide BigEndian;
  }

  lemma UnknownPart()
    ensures AlwaysReads(IN_UNKNOWN)
  {
    ShortVarintReads(0x2B);
    ShortVarintReads(0);
    forall rest: seq<byte>
      ensures Reads(IN_UNKNOWN, rest)
    {
      hide ReadsAs, IsVarint, Laid;
      OtherIdsAreUnknown([0xAB], 0x2B, [0x80], [], rest);
    }
  }

  lemma InputReads()
    ensures AllRead(Input())
  {
    PlainParts();
    MarkerParts();
    BlockPart();
    TimecodeParts();
    UnknownPart();
    hide AlwaysReads, IN_HEAD, IN_SEGMENT, IN_SEEK_HEAD, IN_VOID, IN_INFO, IN_TRACKS, IN_CLUSTER, IN_BLOCK;
    hide IN_TIMECODE, IN_UNKNOWN, IN_CUES, IN_SIZED_CLUSTER, IN_EARLIER;
  }

  // ----- Writing the output -----

  predicate Writes(part: Part) {
    Laid(part.id, part.size, part.payload) == Written(part.element)
  }

  predicate AllWrite(parts: seq<Part>) {
    forall i :: 0 <= i < |parts| ==> Writes(parts[i])
  }

  lemma {:induction false} PartsWrite(parts: seq<Part>)
    requires AllWrite(parts)
    ensures Join(parts) == EncodeAll(Elements(parts))
  {
    hide Written, Laid;
    if parts != [] {
      assert AllWrite(parts[1..]);
      PartsWrite(parts[1..]);
      assert Elements(parts)[1..] == Elements(parts[1..]);
    }
  }

  lemma HeadWrites()
    ensures Writes(OUT_HEAD)
  {
    EbmlHeadExact();
    hide Written;
  }

  lemma MarkersWrite()
    ensures Writes(OUT_SEGMENT) && Writes(IN_CLUSTER)
  {
    MarkersExact();
    hide Written;
  }

  lemma TracksWrite()
    ensures Writes(IN_TRACKS)
  {
    RegisteredIds();
    ShortVarint(2);
    hide VarintBytes;
    assert WebmBytes(TRACKS) == Ok(Laid([0x16, 0x54, 0xAE, 0x6B], [0x82], [0xAA, 0xBB]));
  }

  lemma BlockWrites()
    ensures Writes(IN_BLOCK)
  {
    SmallBlockExact(BLOCK.block);
    I16Exact(0x00, 0x21);
    hide Written, I16Bytes;
  }

  lemma TimecodeWrites(low: byte)
    ensures Writes(Part([0xE7], [0x88], [0, 0, 0, 0, 0, 0, 1, low], Timecode(256 + low)))
  {
    TimecodeExact(256 + low);
    EightBytes(low);
    hide Written, ToBigEndian;
  }

  lemma TimecodesWrite()
    ensures Writes(OUT_TIMECODE) && Writes(OUT_LATER)
  {
    TimecodeWrites(0);
    TimecodeWrites(0x42);
    hide Writes;
  }

  lemma EightBytes(low: byte)
    ensures ToBigEndian(256 + low, 8) == [0, 0, 0, 0, 0, 0, 1, low]
  {
    assert (256 + low) / 256 == 1 && (256 + low) % 256 == low;
    assert ToBigEndian(0, 0) == [];
    assert ToBigEndian(0, 1) == [0];
    assert ToBigEndian(0, 2) == [0, 0];
    assert ToBigEndian(0, 3) == [0, 0, 0];
    assert ToBigEndian(0, 4) == [0, 0, 0, 0];
    assert ToBigEndian(0, 5) == [0, 0, 0, 0, 0];
    assert ToBigEndian(0, 6) == [0, 0, 0, 0, 0, 0];
    assert ToBigEndian(1, 7) == ToBigEndian(0, 6) + [1];
    assert ToBigEndian(256 + low, 8) == ToBigEndian(1, 7) + [low];
  }

  lemma OutputWrites()
    ensures AllWrite(Output())
  {
    HeadWrites();
    MarkersWrite();
    TracksWrite();
    BlockWrites();
    TimecodesWrite();
    hide Writes, OUT_HEAD, OUT_SEGMENT, OUT_TIMECODE, OUT_LATER, IN_TRACKS, IN_CLUSTER, IN_BLOCK;
  }

  // ----- In between -----

  lemma InputElements()
    ensures Elements(Input()) == ToEvents(InputSegments())
    ensures AllAccepted(ToEvents(InputSegments()))
  {
    hide *;
    EventsOfInput();
    ElementsOfInput();
    ListAccepted();
  }

  lemma EventsOfInput()
    ensures ToEvents(InputSegments()) == ElementList()
  {
    ThreeSegments(HeaderRun(HEADER), ClusterRun(FIRST), ClusterRun(SECOND));
    hide ToEvents;
    assert [Cluster] + SECOND == [Cluster, Timecode(5)];
    assert [Cluster] + FIRST == [Cluster, BLOCK, Timecode(256), UnknownElement(0x2B), Cues];
  }

  lemma ListAccepted()
    ensures AllAccepted(ElementList())
  {
    assert Accepted(TRACKS) && Accepted(BLOCK) && Accepted(EbmlHead) && Accepted(Segment) && Accepted(SeekHead);
    assert Accepted(Void) && Accepted(Info) && Accepted(Cluster) && Accepted(Timecode(256)) && Accepted(Timecode(5));
    assert Accepted(UnknownElement(0x2B)) && Accepted(Cues);
    hide Accepted, TRACKS, BLOCK;
    var list := ElementList();
    assert forall i :: 0 <= i < |list| ==> Accepted(list[i]);
  }

  function ElementList(): seq<WebmElement> {
    [EbmlHead, Segment, SeekHead, Void, Info, TRACKS, Cluster, BLOCK, Timecode(256), UnknownElement(0x2B), Cues,
     Cluster, Timecode(5)]
  }

  lemma {:induction false} ElementsAt(parts: seq<Part>)
    ensures |Elements(parts)| == |parts| && forall i :: 0 <= i < |parts| ==> Elements(parts)[i] == parts[i].element
  {
    if parts != [] {
      ElementsAt(parts[1..]);
    }
  }

  lemma ElementsOfInput()
    ensures Elements(Input()) == ElementList()
  {
    ElementsAt(Input());
    hide Elements;
  }

  lemma InputShape()
    ensures HeaderShape(InputSegments())
  {
    var segments := InputSegments();
    forall i | 0 <= i < |segments|
      ensures SegmentOk(segments, i)
    {
    }
  }

  lemma {:induction false} FirstCluster()
    ensures LastTimecode(FIRST, 0) == 256 && LastNoted(0, FIRST, 0) == 33 && Body(FIRST) == [BLOCK]
    ensures ChunkOf(ClusterRun(FIRST)) == ChunkAt(256, 33, [BLOCK])
  {
    var a, b, c := FIRST[1..], FIRST[2..], FIRST[3..];
    assert a[1..] == b && b[1..] == c && c[1..] == [];
    assert Body([]) == [] && LastTimecode([], 256) == 256 && LastNoted(256, [], 33) == 33;
    assert LastTimecode(c, 256) == 256 && Body(c) == [] && LastNoted(256, c, 33) == 33;
    assert LastTimecode(b, 256) == 256 && Body(b) == [] && LastNoted(256, b, 33) == 33;
    assert Body(a) == [];
    assert LastNoted(0, a, 33) == 33;
    ClusterIsCanonical(FIRST);
    hide ChunkOf;
  }

  lemma SecondCluster()
    ensures Body(SECOND) == [] && ChunkOf(ClusterRun(SECOND)) == ChunkAt(5, 0, [])
  {
    assert SECOND[1..] == [];
    assert LastTimecode(SECOND, 0) == 5 && LastNoted(0, SECOND, 0) == 0 && Body(SECOND) == [];
    ClusterIsCanonical(SECOND);
    hide ChunkOf;
  }

  lemma {:induction false} HeaderKept()
    ensures Kept(HEADER) == [EbmlHead, Segment, TRACKS]
  {
    var a, b, c, d, e := HEADER[1..], HEADER[2..], HEADER[3..], HEADER[4..], HEADER[5..];
    assert a[1..] == b && b[1..] == c && c[1..] == d && d[1..] == e && e[1..] == [];
    assert Kept(e) == [TRACKS];
    assert Kept(d) == [] + [TRACKS];
    assert Kept(c) == [] + [TRACKS];
    assert Kept(b) == [] + [TRACKS];
    assert Kept(a) == [Segment] + [TRACKS];
  }

  lemma TimesFixed()
    ensures Process(FRESH_FIXER, ChunkAt(256, 33, [BLOCK])).0 == FixerState(0, 289)
    ensures Process(FRESH_FIXER, ChunkAt(256, 33, [BLOCK])).1.head.start == 256
    ensures Process(FixerState(0, 289), ChunkAt(5, 0, [])).1.head.start == 322
  {
    hide HeadBytes;
  }

  lemma {:induction false} InputFixed()
    ensures FixSegments(FRESH_FIXER, InputSegments())
         == [HeaderRun([EbmlHead, Segment, TRACKS]), ClusterAt(256, [BLOCK]), ClusterAt(322, [])]
  {
    var h, a, b := HeaderRun(HEADER), ClusterRun(FIRST), ClusterRun(SECOND);
    FirstCluster();
    SecondCluster();
    HeaderKept();
    TimesFixed();
    FixThree(h, a, b);
    hide FixSegments, ChunkOf, ClusterAt, LastNoted, LastTimecode, Body, Kept;
    assert Process(FRESH_FIXER, ChunkOf(h)).0 == FRESH_FIXER;
    assert FixedSegment(FRESH_FIXER, h) == HeaderRun([EbmlHead, Segment, TRACKS]);
    assert FixedSegment(FRESH_FIXER, a) == ClusterAt(256, [BLOCK]);
    assert FixedSegment(FixerState(0, 289), b) == ClusterAt(322, []);
  }

  lemma OutputElements()
    ensures ToEvents([HeaderRun([EbmlHead, Segment, TRACKS]), ClusterAt(256, [BLOCK]), ClusterAt(322, [])])
         == Elements(Output())
  {
    hide *;
    EventsOfOutput();
    ElementsOfOutput();
  }

  function OutputList(): seq<WebmElement> {
    [EbmlHead, Segment, TRACKS, Cluster, Timecode(256), BLOCK, Cluster, Timecode(322)]
  }

  lemma EventsOfOutput()
    ensures ToEvents([HeaderRun([EbmlHead, Segment, TRACKS]), ClusterAt(256, [BLOCK]), ClusterAt(322, [])])
         == OutputList()
  {
    ThreeSegments(HeaderRun([EbmlHead, Segment, TRACKS]), ClusterAt(256, [BLOCK]), ClusterAt(322, []));
    assert [Cluster] + ([Timecode(256)] + [BLOCK]) == [Cluster, Timecode(256), BLOCK];
    assert [Cluster] + ([Timecode(322)] + []) == [Cluster, Timecode(322)];
    hide ToEvents, TRACKS, BLOCK;
  }

  lemma ElementsOfOutput()
    ensures Elements(Output()) == OutputList()
  {
    ElementsAt(Output());
    hide Elements;
  }

  /** Reading, chunking, fixing and writing taken together: these bytes become those. */
  lemma {:induction false} FilteredBytes()
    ensures Filter(Join(Input())) == Join(Output())
  {
    hide *;
    var es := ToEvents(InputSegments());
    InputReads();
    PartsRead(Input());
    InputElements();
    InputShape();
    HeaderSegmentsRoundTrip(InputSegments());
    FilterOfReadable(Join(Input()), es);
    FilterReads(Join(Input()));
    FilterUnfold(Join(Input()));
    FixedBytesOfAll(FRESH_FIXER, InputSegments());
    InputFixed();
    OutputElements();
    OutputWrites();
    PartsWrite(Output());
  }
}
