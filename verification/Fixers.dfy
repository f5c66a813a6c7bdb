/** Transformers of chunk streams: the timecode fixer and the starting-point finder. */
module Fixers {
  import opened Wrappers
  import opened Bytes
  import opened Iterators
  import opened Streams
  import opened Chunks

  const ASSUMED_DURATION: u64 := 33

  datatype FixerState = FixerState(offset: u64, last: u64)

  const FRESH_FIXER := FixerState(0, 0)

  function FixedOffset(f: FixerState, start: u64): u64 {
    if start < f.last then WrappingSub(WrappingAdd(f.last, ASSUMED_DURATION), start) else f.offset
  }

  function Process(f: FixerState, chunk: Chunk): (FixerState, Chunk) {
    match chunk
    case ClusterChunk(head, body) =>
      var offset := FixedOffset(f, head.start);
      var head' := UpdatedTimecode(head, WrappingAdd(head.start, offset));
      (FixerState(offset, head'.end), ClusterChunk(head', body))
    case _ => (f, chunk)
  }

  function FixAll(f: FixerState, chunks: seq<Chunk>): (r: seq<Chunk>)
    ensures |r| == |chunks|
    decreases |chunks|
  {
    if chunks == [] then [] else [Process(f, chunks[0]).1] + FixAll(Process(f, chunks[0]).0, chunks[1..])
  }

  function AfterAll(f: FixerState, chunks: seq<Chunk>): FixerState
    decreases |chunks|
  {
    if chunks == [] then f else AfterAll(Process(f, chunks[0]).0, chunks[1..])
  }

  class ChunkTimecodeFixer {
    var currentOffset: u64
    var lastObservedTimecode: u64

    ghost function State(): FixerState
      reads this
    {
      FixerState(currentOffset, lastObservedTimecode)
    }

    constructor ()
      ensures State() == FRESH_FIXER
    {
      currentOffset, lastObservedTimecode := 0, 0;
    }

    method ProcessChunk(chunk: Chunk) returns (r: Chunk)
      modifies this
      ensures (State(), r) == Process(old(State()), chunk)
    {
      hide HeadBytes;
      r := chunk;
      if chunk.ClusterChunk? {
        var clusterHead := new ClusterHead.Of(chunk.head);
        var start := clusterHead.start;
        if start < lastObservedTimecode {
          var nextTimecode := WrappingAdd(lastObservedTimecode, ASSUMED_DURATION);
          currentOffset := WrappingSub(nextTimecode, start);
        }
        clusterHead.UpdateTimecode(WrappingAdd(start, currentOffset));
        lastObservedTimecode := clusterHead.end;
        var head := Head(clusterHead.keyframe, clusterHead.start, clusterHead.end, clusterHead.bytes);
        r := ClusterChunk(head, chunk.body);
      }
    }
  }

  // ----- The timeline -----

  /** Clusters begin at `latest` at most, never end before they begin, and last `longest` at most. */
  predicate InBounds(chunks: seq<Chunk>, latest: nat, longest: nat) {
    forall c :: c in chunks && c.ClusterChunk? ==>
                  c.head.start <= latest && c.head.start <= c.head.end <= c.head.start + longest
  }

  function Clusters(chunks: seq<Chunk>): nat {
    if chunks == [] then 0 else (if chunks[0].ClusterChunk? then 1 else 0) + Clusters(chunks[1..])
  }

  /** The clusters follow one another from `from` on without overlap. */
  predicate Monotone(chunks: seq<Chunk>, from: nat) {
    && (forall i :: 0 <= i < |chunks| && chunks[i].ClusterChunk? ==>
                      from <= chunks[i].head.start <= chunks[i].head.end)
    && (forall i, j :: 0 <= i < j < |chunks| && chunks[i].ClusterChunk? && chunks[j].ClusterChunk? ==>
                         chunks[i].head.end <= chunks[j].head.start)
  }

  /** `c'` is `c`, but for a cluster that may have been moved to a later time as a whole. */
  predicate MovedLater(c: Chunk, c': Chunk) {
    if c.ClusterChunk? then
      && c'.ClusterChunk? && c'.body == c.body && c'.head.keyframe == c.head.keyframe
      && c.head.start <= c'.head.start
      && c'.head.end - c'.head.start == c.head.end - c.head.start
      && c'.head.bytes == HeadBytes(c'.head.start)
    else c' == c
  }

  /** One chunk through the fixer, within a bound that leaves room for u64 arithmetic. */
  lemma ProcessInBounds(f: FixerState, chunk: Chunk, latest: nat, longest: nat, bound: nat)
    requires InBounds([chunk], latest, longest)
    requires f.offset <= f.last <= bound && 2 * latest <= bound
    requires chunk.ClusterChunk? ==> bound + longest + 33 < U64_LIMIT
    ensures var (f', c') := Process(f, chunk);
            && MovedLater(chunk, c')
            && f'.offset <= f'.last && f.last <= f'.last
            && (chunk.ClusterChunk? ==> c'.head.start <= bound + 33)
            && (if chunk.ClusterChunk? then f.last <= c'.head.start <= c'.head.end == f'.last <= bound + longest + 33
                else f' == f)
  {
    assert chunk in [chunk];
    hide HeadBytes;
  }

  /** Where a cluster that starts at `start` belongs: 33 behind the last end if it would begin too
      early, or else shifted as the one before it was. */
  function NewTime(f: FixerState, start: u64): nat {
    if start < f.last then f.last + ASSUMED_DURATION else start + f.offset
  }

  /** Exactly when a cluster comes out no earlier than the last one ended, and where it comes out; the
      shift is kept for the next one. Other chunks pass and change nothing. */
  lemma OrderedExactly(f: FixerState, chunk: Chunk)
    ensures !chunk.ClusterChunk? ==> Process(f, chunk) == (f, chunk)
    ensures chunk.ClusterChunk? ==>
            var (f', c') := Process(f, chunk);
            var time := NewTime(f, chunk.head.start);
            && c'.ClusterChunk?
            && (f.last <= c'.head.start <==> time < U64_LIMIT || f.last + U64_LIMIT <= time)
            && c'.head.start == (if time < U64_LIMIT then time else time - U64_LIMIT)
            && WrappingAdd(chunk.head.start, f'.offset) == c'.head.start
            && (time < U64_LIMIT ==> f'.offset == time - chunk.head.start)
            && c'.body == chunk.body && c'.head.keyframe == chunk.head.keyframe
            && Duration(c'.head) == Duration(chunk.head) && c'.head.bytes == HeadBytes(c'.head.start)
            && f'.last == c'.head.end
  {
    hide HeadBytes;
    if chunk.ClusterChunk? {
      UpdateKeepsDuration(chunk.head, WrappingAdd(chunk.head.start, FixedOffset(f, chunk.head.start)));
    }
  }

  /** Every fixed cluster would still end within u64: its new time and its duration do not sum to
      2^64 or more. */
  predicate Fits(f: FixerState, chunks: seq<Chunk>)
    decreases |chunks|
  {
    chunks == [] ||
    (&& (chunks[0].ClusterChunk? ==> NewTime(f, chunks[0].head.start) + Duration(chunks[0].head) < U64_LIMIT)
     && Fits(Process(f, chunks[0]).0, chunks[1..]))
  }

  /** `c'` is `c`, but for a cluster that may have been given another time. */
  predicate Retimed(c: Chunk, c': Chunk) {
    if c.ClusterChunk? then
      && c'.ClusterChunk? && c'.body == c.body && c'.head.keyframe == c.head.keyframe
      && Duration(c'.head) == Duration(c.head) && c'.head.bytes == HeadBytes(c'.head.start)
    else c' == c
  }

  /** Whatever the times, the fixer changes nothing but times. */
  lemma {:induction false} FixerOnlyRetimes(f: FixerState, chunks: seq<Chunk>)
    ensures forall i :: 0 <= i < |chunks| ==> Retimed(chunks[i], FixAll(f, chunks)[i])
    decreases |chunks|
  {
    hide HeadBytes, Duration;
    if chunks != [] {
      if chunks[0].ClusterChunk? {
        OrderedExactly(f, chunks[0]);
      }
      FixerOnlyRetimes(Process(f, chunks[0]).0, chunks[1..]);
      hide Process, Retimed;
    }
  }

  /** One cluster through the fixer: it ends up behind the last one, and ends no earlier than it
      starts, exactly if its new time and its duration stay within u64. */
  lemma ProcessFits(f: FixerState, chunk: Chunk)
    requires chunk.ClusterChunk? && f.offset <= f.last
    ensures var (f', c') := Process(f, chunk);
            var time := NewTime(f, chunk.head.start);
            && (f.last <= c'.head.start <= c'.head.end <==> time + Duration(chunk.head) < U64_LIMIT)
            && (time + Duration(chunk.head) < U64_LIMIT ==>
                  && chunk.head.start <= c'.head.start == time && c'.head.end == time + Duration(chunk.head)
                  && f'.offset <= f'.last == c'.head.end)
  {
    hide HeadBytes;
  }

  lemma MonotoneTail(chunks: seq<Chunk>, from: nat)
    requires chunks != [] && Monotone(chunks, from)
    ensures Monotone(chunks[1..], if chunks[0].ClusterChunk? then chunks[0].head.end else from)
    ensures chunks[0].ClusterChunk? ==> from <= chunks[0].head.start <= chunks[0].head.end
  {
    assert forall i :: 0 <= i < |chunks[1..]| ==> chunks[1..][i] == chunks[i + 1];
  }

  /** The whole timeline: the fixed clusters follow one another without overlap, and none ends
      before it starts, exactly if all of them fit. A fresh fixer has offset and last time 0, so
      this holds of it on any chunks. */
  lemma {:induction false} MonotoneExactly(f: FixerState, chunks: seq<Chunk>)
    requires f.offset <= f.last
    ensures Monotone(FixAll(f, chunks), f.last) <==> Fits(f, chunks)
    decreases |chunks|
  {
    hide HeadBytes, Process, Duration, Monotone, NewTime;
    if chunks == [] {
      NothingIsMonotone(f.last);
    } else {
      var (f', c') := Process(f, chunks[0]);
      var rest := FixAll(f', chunks[1..]);
      assert FixAll(f, chunks) == [c'] + rest;
      assert ([c'] + rest)[1..] == rest;
      ProcessKind(f, chunks[0]);
      if chunks[0].ClusterChunk? {
        ProcessFits(f, chunks[0]);
      }
      if Fits(f, chunks) {
        MonotoneExactly(f', chunks[1..]);
        MonotoneCons(c', rest, f.last, f'.last);
      }
      if Monotone(FixAll(f, chunks), f.last) {
        MonotoneTail(FixAll(f, chunks), f.last);
        MonotoneExactly(f', chunks[1..]);
      }
    }
  }

  lemma NothingIsMonotone(from: nat)
    ensures Monotone([], from)
  {
  }

  lemma ProcessKind(f: FixerState, chunk: Chunk)
    ensures Process(f, chunk).1.ClusterChunk? <==> chunk.ClusterChunk?
    ensures !chunk.ClusterChunk? ==> Process(f, chunk) == (f, chunk)
    ensures chunk.ClusterChunk? ==> Process(f, chunk).0.last == Process(f, chunk).1.head.end
  {
  }

  function PlainCluster(start: u64, end: u64, body: seq<byte>): Chunk {
    ClusterChunk(Head(false, start, end, HeadBytes(start)), body)
  }

  /** Three clusters, none of which ends before it starts, and whose new times all stay below 2^64:
      still the third comes out before the second. It is the second's end that wraps around. */
  lemma WrappedEndBreaksOrder(x: seq<byte>, y: seq<byte>, z: seq<byte>)
    ensures FixAll(FRESH_FIXER, [PlainCluster(U64_LIMIT - 40, U64_LIMIT - 40, x),
                                 PlainCluster(U64_LIMIT - 50, U64_LIMIT - 30, y), PlainCluster(20, 20, z)])
         == [PlainCluster(U64_LIMIT - 40, U64_LIMIT - 40, x),
             PlainCluster(U64_LIMIT - 7, 13, y), PlainCluster(63, 63, z)]
    ensures !Monotone([PlainCluster(U64_LIMIT - 40, U64_LIMIT - 40, x),
                       PlainCluster(U64_LIMIT - 7, 13, y), PlainCluster(63, 63, z)], 0)
  {
    hide HeadBytes;
    var a, b, c := PlainCluster(U64_LIMIT - 40, U64_LIMIT - 40, x),
                   PlainCluster(U64_LIMIT - 50, U64_LIMIT - 30, y), PlainCluster(20, 20, z);
    var b', c' := PlainCluster(U64_LIMIT - 7, 13, y), PlainCluster(63, 63, z);
    assert [a, b', c'][1] == b' && b'.head.end < b'.head.start;
    assert [a, b, c][1..] == [b, c] && [b, c][1..] == [c] && [c][1..] == [];
    var f, f' := FixerState(0, U64_LIMIT - 40), FixerState(43, 13);
    assert Process(FRESH_FIXER, a) == (f, a);
    assert Process(f, b) == (f', b');
    assert Process(f', c).1 == c';
    hide Process, PlainCluster;
    assert FixAll(f', [c]) == [c'];
    assert FixAll(f, [b, c]) == [b', c'];
  }

  /** The fixed clusters follow one another without overlap; each is the original moved later as a
      whole; and after i clusters the time is at most 2 * latest + i * (longest + 33), below which
      nothing wraps around. */
  lemma {:induction false} FixerTimeline(f: FixerState, chunks: seq<Chunk>, latest: nat, longest: nat, bound: nat)
    requires InBounds(chunks, latest, longest)
    requires f.offset <= f.last <= bound && 2 * latest <= bound
    requires bound + Clusters(chunks) * (longest + 33) < U64_LIMIT
    ensures Monotone(FixAll(f, chunks), f.last)
    ensures forall i :: 0 <= i < |chunks| ==> MovedLater(chunks[i], FixAll(f, chunks)[i])
    ensures AfterAll(f, chunks).last <= bound + Clusters(chunks) * (longest + 33)
    decreases |chunks|
  {
    hide HeadBytes, Process, InBounds, Monotone, MovedLater;
    if chunks == [] {
      NothingIsMonotone(f.last);
    } else {
      var rest := chunks[1..];
      var (f', c') := Process(f, chunks[0]);
      var bound' := if chunks[0].ClusterChunk? then bound + longest + 33 else bound;
      OneClusterMore(Clusters(rest), longest + 33);
      InBoundsTail(chunks, latest, longest);
      ProcessKind(f, chunks[0]);
      ProcessInBounds(f, chunks[0], latest, longest, bound);
      FixerTimeline(f', rest, latest, longest, bound');
      MonotoneCons(c', FixAll(f', rest), f.last, f'.last);
    }
  }

  lemma InBoundsTail(chunks: seq<Chunk>, latest: nat, longest: nat)
    requires chunks != [] && InBounds(chunks, latest, longest)
    ensures InBounds([chunks[0]], latest, longest) && InBounds(chunks[1..], latest, longest)
  {
    assert chunks[0] in chunks;
  }

  lemma OneClusterMore(n: nat, growth: nat)
    ensures (1 + n) * growth == growth + n * growth
    ensures n * growth >= 0
  {
  }

  lemma MonotoneCons(c: Chunk, chunks: seq<Chunk>, from: nat, from': nat)
    requires from <= from' && Monotone(chunks, from')
    requires c.ClusterChunk? ==> from <= c.head.start <= c.head.end <= from'
    ensures Monotone([c] + chunks, from)
  {
  }

  /** On clusters that already follow one another, with their heads in order, the fixer changes nothing. */
  lemma {:induction false} FixerIdentity(f: FixerState, chunks: seq<Chunk>)
    requires f.offset == 0 && Monotone(chunks, f.last)
    requires forall c :: c in chunks && c.ClusterChunk? ==> c.head.bytes == HeadBytes(c.head.start)
    ensures FixAll(f, chunks) == chunks
    decreases |chunks|
  {
    hide HeadBytes;
    if chunks != [] {
      assert chunks[0] in chunks;
      FixerIdentity(Process(f, chunks[0]).0, chunks[1..]);
    }
  }

  // ----- Skip and take -----

  /** What is left after filtering by a time window. */
  function Window(chunks: seq<Chunk>, start: nat, stop: nat): seq<Chunk> {
    if chunks == [] then []
    else (if Overlaps(chunks[0], start, stop) then [chunks[0]] else []) + Window(chunks[1..], start, stop)
  }

  /** On a monotone timeline a window keeps everything that is not a cluster and one contiguous run
      of the clusters, which is monotone in turn. */
  lemma SkipTake(chunks: seq<Chunk>, from: nat, start: nat, stop: nat) returns (lo: nat, hi: nat)
    requires Monotone(chunks, from)
    ensures lo <= |chunks| && hi <= |chunks|
    ensures forall i :: 0 <= i < |chunks| ==>
                          (Overlaps(chunks[i], start, stop) <==> !chunks[i].ClusterChunk? || lo <= i < hi)
    ensures Monotone(Window(chunks, start, stop), from)
  {
    lo := 0;
    while lo < |chunks| && !(chunks[lo].ClusterChunk? && chunks[lo].head.end >= start)
      invariant lo <= |chunks|
      invariant forall i :: 0 <= i < lo && chunks[i].ClusterChunk? ==> chunks[i].head.end < start
    {
      lo := lo + 1;
    }
    hi := 0;
    while hi < |chunks| && !(chunks[hi].ClusterChunk? && chunks[hi].head.start > stop)
      invariant hi <= |chunks|
      invariant forall i :: 0 <= i < hi && chunks[i].ClusterChunk? ==> chunks[i].head.start <= stop
    {
      hi := hi + 1;
    }
    WindowMonotone(chunks, from, start, stop);
  }

  lemma {:induction false} WindowMonotone(chunks: seq<Chunk>, from: nat, start: nat, stop: nat)
    requires Monotone(chunks, from)
    ensures Monotone(Window(chunks, start, stop), from)
    decreases |chunks|
  {
    if chunks != [] {
      var c, rest := chunks[0], chunks[1..];
      var from' := if c.ClusterChunk? then c.head.end else from;
      assert Monotone(rest, from') by {
        assert forall i :: 0 <= i < |rest| ==> rest[i] == chunks[i + 1];
      }
      WindowMonotone(rest, from', start, stop);
      if Overlaps(c, start, stop) {
        MonotoneCons(c, Window(rest, start, stop), from, from');
      }
    }
  }

  // ----- The starting-point finder -----

  datatype FinderState = FinderState(seenHeader: bool, seenKeyframe: bool)

  const FRESH_FINDER := FinderState(false, false)

  /** The finder's next state, and whether it lets the chunk pass. */
  function Sift(s: FinderState, chunk: Chunk): (FinderState, bool) {
    match chunk
    case ClusterChunk(head, _) =>
      var seen := s.seenKeyframe || head.keyframe;
      (s.(seenKeyframe := seen), seen)
    case Headers(_) =>
      if s.seenHeader then (s.(seenKeyframe := false), false) else (s.(seenHeader := true), true)
    case _ => (s, true)
  }

  function SiftedState(chunks: seq<Chunk>, n: nat): FinderState
    requires n <= |chunks|
  {
    if n == 0 then FRESH_FINDER else Sift(SiftedState(chunks, n - 1), chunks[n - 1]).0
  }

  /** What a fresh finder lets pass of the first `n` chunks. */
  function Sifted(chunks: seq<Chunk>, n: nat): seq<Chunk>
    requires n <= |chunks|
  {
    if n == 0 then []
    else Sifted(chunks, n - 1) + if Sift(SiftedState(chunks, n - 1), chunks[n - 1]).1 then [chunks[n - 1]] else []
  }

  predicate HeadersBefore(chunks: seq<Chunk>, n: nat)
    requires n <= |chunks|
  {
    exists i :: 0 <= i < n && chunks[i].Headers?
  }

  /** Headers other than the first, which announce that a new stream begins. */
  predicate NewStreamAt(chunks: seq<Chunk>, i: nat)
    requires i < |chunks|
  {
    chunks[i].Headers? && HeadersBefore(chunks, i)
  }

  predicate KeyframeAt(chunks: seq<Chunk>, i: nat)
    requires i < |chunks|
  {
    chunks[i].ClusterChunk? && chunks[i].head.keyframe
  }

  /** Among the first `n` chunks there is a keyframe with no new stream behind it. */
  predicate KeyframeReached(chunks: seq<Chunk>, n: nat)
    requires n <= |chunks|
  {
    exists k :: 0 <= k < n && KeyframeAt(chunks, k) && forall i :: k < i < n ==> !NewStreamAt(chunks, i)
  }

  /** Which chunks to keep: of the Headers only the first; a cluster if its stretch, which begins
      with the last new stream before it, has come to a keyframe. */
  predicate Wanted(chunks: seq<Chunk>, i: nat)
    requires i < |chunks|
  {
    match chunks[i]
    case Headers(_) => !HeadersBefore(chunks, i)
    case ClusterChunk(_, _) => KeyframeReached(chunks, i + 1)
    case _ => true
  }

  function WantedOnly(chunks: seq<Chunk>, n: nat): seq<Chunk>
    requires n <= |chunks|
  {
    if n == 0 then [] else WantedOnly(chunks, n - 1) + if Wanted(chunks, n - 1) then [chunks[n - 1]] else []
  }

  lemma {:induction false} SiftedStateMeaning(chunks: seq<Chunk>, n: nat)
    requires n <= |chunks|
    ensures SiftedState(chunks, n) == FinderState(HeadersBefore(chunks, n), KeyframeReached(chunks, n))
  {
    if n > 0 {
      SiftedStateMeaning(chunks, n - 1);
      if HeadersBefore(chunks, n - 1) {
        var i :| 0 <= i < n - 1 && chunks[i].Headers?;
        assert HeadersBefore(chunks, n);
      }
      KeyframeReachedStep(chunks, n - 1);
    }
  }

  lemma KeyframeReachedStep(chunks: seq<Chunk>, n: nat)
    requires n < |chunks|
    ensures KeyframeReached(chunks, n + 1) <==>
              KeyframeAt(chunks, n) || (KeyframeReached(chunks, n) && !NewStreamAt(chunks, n))
  {
    if KeyframeAt(chunks, n) {
      assert KeyframeReached(chunks, n + 1);
    } else if KeyframeReached(chunks, n) && !NewStreamAt(chunks, n) {
      var k :| 0 <= k < n && KeyframeAt(chunks, k) && forall i :: k < i < n ==> !NewStreamAt(chunks, i);
      assert KeyframeReached(chunks, n + 1);
    }
  }

  /** The finder keeps exactly the chunks that are wanted. */
  lemma {:induction false} FinderKeepsWanted(chunks: seq<Chunk>, n: nat)
    requires n <= |chunks|
    ensures Sifted(chunks, n) == WantedOnly(chunks, n)
  {
    hide HeadersBefore, KeyframeReached;
    if n > 0 {
      FinderKeepsWanted(chunks, n - 1);
      SiftedStateMeaning(chunks, n - 1);
      SiftedStateMeaning(chunks, n);
    }
  }

  type ChunkStep = Step<Chunk>

  type ChunkPoll = Poll<Option<Result<Chunk, WebmetroError>>>

  /** One poll of the finder: chunks that it does not let pass are skipped. */
  function PollFinder(s: FinderState, steps: seq<ChunkStep>): (r: (ChunkPoll, FinderState, seq<ChunkStep>))
    ensures r.0 == Ready(None) || |r.2| < |steps|
    decreases |steps|
  {
    if steps == [] then (Ready(None), s, [])
    else
      match steps[0]
      case NotYet => (Pending, s, steps[1..])
      case Failure(code) => (Ready(Some(Err(SourceFailure(code)))), s, steps[1..])
      case Piece(chunk) =>
        var (s', pass) := Sift(s, chunk);
        if pass then (Ready(Some(Ok(chunk))), s', steps[1..]) else PollFinder(s', steps[1..])
  }

  /** The chunks that the steps will deliver. */
  function Arriving(steps: seq<ChunkStep>): seq<Chunk> {
    if steps == [] then [] else (if steps[0].Piece? then [steps[0].value] else []) + Arriving(steps[1..])
  }

  /** The chunks that repeated polling lets pass, through all waiting and all failures of the source. */
  function Passed(s: FinderState, steps: seq<ChunkStep>): seq<Chunk>
    decreases |steps|
  {
    var (r, s', steps') := PollFinder(s, steps);
    if r == Ready(None) then []
    else (if r.Ready? && r.value.value.Ok? then [r.value.value.value] else []) + Passed(s', steps')
  }

  /** Repeated polling lets pass what is wanted of the chunks that arrive. */
  lemma {:induction false} PassedIsSifted(chunks: seq<Chunk>, n: nat, s: FinderState, steps: seq<ChunkStep>)
    requires n <= |chunks| && s == SiftedState(chunks, n) && chunks[n..] == Arriving(steps)
    ensures Sifted(chunks, n) + Passed(s, steps) == Sifted(chunks, |chunks|)
    decreases |steps|
  {
    hide Sift, PollFinder;
    if steps != [] {
      PassedUnfold(s, steps);
      if steps[0].Piece? {
        assert chunks[n..] == [steps[0].value] + Arriving(steps[1..]);
        assert chunks[n] == steps[0].value;
        assert chunks[n + 1..] == Arriving(steps[1..]);
        hide Arriving, Passed;
        PassedIsSifted(chunks, n + 1, Sift(s, chunks[n]).0, steps[1..]);
        SiftedNext(chunks, n, Passed(Sift(s, chunks[n]).0, steps[1..]));
      } else {
        PassedIsSifted(chunks, n, s, steps[1..]);
      }
    }
  }

  lemma SiftedNext(chunks: seq<Chunk>, n: nat, rest: seq<Chunk>)
    requires n < |chunks|
    ensures Sifted(chunks, n) + ((if Sift(SiftedState(chunks, n), chunks[n]).1 then [chunks[n]] else []) + rest)
         == Sifted(chunks, n + 1) + rest
  {
    hide Sift;
  }

  lemma PassedUnfold(s: FinderState, steps: seq<ChunkStep>)
    requires steps != []
    ensures if steps[0].Piece? then
              Passed(s, steps) == (if Sift(s, steps[0].value).1 then [steps[0].value] else [])
                                  + Passed(Sift(s, steps[0].value).0, steps[1..])
            else Passed(s, steps) == Passed(s, steps[1..])
  {
    if steps[0].Piece? {
      var (s', pass) := Sift(s, steps[0].value);
      if !pass {
        assert PollFinder(s, steps) == PollFinder(s', steps[1..]);
        assert [] + Passed(s', steps[1..]) == Passed(s', steps[1..]);
      }
    } else {
      assert [] + Passed(s, steps[1..]) == Passed(s, steps[1..]);
    }
  }

  class StartingPointFinder {
    const stream: StreamSource<Chunk>
    var seenHeader: bool
    var seenKeyframe: bool

    ghost function State(): FinderState
      reads this
    {
      FinderState(seenHeader, seenKeyframe)
    }

    constructor (stream: StreamSource<Chunk>)
      ensures this.stream == stream && State() == FRESH_FINDER
    {
      this.stream := stream;
      seenHeader, seenKeyframe := false, false;
    }

    method PollNext() returns (r: ChunkPoll)
      modifies this, stream
      ensures (r, State(), stream.steps) == PollFinder(old(State()), old(stream.steps))
    {
      while true
        invariant PollFinder(State(), stream.steps) == PollFinder(old(State()), old(stream.steps))
        decreases |stream.steps|
      {
        r := stream.PollNext();
        match r {
          case Ready(Some(Ok(ClusterChunk(head, body)))) =>
            if head.keyframe {
              seenKeyframe := true;
            }
            if seenKeyframe {
              return;
            }
          case Ready(Some(Ok(Headers(_)))) =>
            if seenHeader {
              seenKeyframe := false;
            } else {
              seenHeader := true;
              return;
            }
          case _ =>
            return;
        }
      }
    }
  }
}
