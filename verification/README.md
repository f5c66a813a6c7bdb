# webmetro: a verified model

webmetro relays WebM: an upload arrives in pieces, is parsed into EBML events, sorted into chunks (a run of headers, or one cluster) and broadcast over a channel to listeners, each of which gets its own timecode fixer and starting-point finder. The `filter` command runs the same stages without the channel. This project models the stages from bytes to listener and proves what each one promises and what they promise together.

Every routine that the source writes with loops or updates in place is a method, with the source's own variables and fields, proved equal to a function on values; the theorems are about those functions.

| file | what is in it |
|---|---|
| `Wrappers.dfy`, `Bytes.dfy` | Option, Result, Poll; machine integers, powers of two, big-endian numbers |
| `Ebml.dfy`, `Cursors.dfy` | variable-length integers and element headers (sections 4 to 6 of RFC 8794); the seekable output and the encoding and decoding routines |
| `Webm.dfy`, `Reference.dfy`, `Readings.dfy` | the WebM elements, read and written; the encoder against known bytes; what the bytes of every kind of element read as |
| `Iterators.dfy`, `Streams.dfy`, `StreamParser.dfy` | `Events`, the event sequence of a byte string; the whole-buffer iterator; sources, and the incremental parser |
| `Chunks.dfy`, `Chunker.dfy`, `WebmChunkers.dfy` | cluster heads and chunks; the chunker as a function and as an object |
| `NormalForms.dfy`, `Meaning.dfy`, `Kinds.dfy`, `Grammar.dfy` | the normal form of an event sequence; that chunking computes it; what becomes of each kind of element; the order of the chunks |
| `Stopping.dfy`, `Contents.dfy` | chunks up to the first error; what chunks are made of and how they read |
| `ChunkLimits.dfy`, `Sizes.dfy` | exactly when the chunker's limit is noticed; how large chunks get under limits |
| `Fixers.dfy` | the timecode fixer, time windows, the starting-point finder |
| `Polling.dfy` | the results of all polls of parser, chunker and finder, waiting and failures included |
| `Pipeline.dfy`, `Windows.dfy`, `Idempotence.dfy`, `Counterexamples.dfy` | the filter as a whole; what a time window leaves of its output; exactly when filtering twice is filtering once; inputs on which it is not, or the output goes back in time |
| `WorkedExample.dfy` | the filter on one short stream, from bytes to bytes |
| `Channels.dfy`, `Broadcast.dfy`, `Relay.dfy` | queues and the channel object; the channel in use as a transition system; the relay from upload to listener |

## How the model reads the source

- Arithmetic on `u64` wraps around, as in a release build, so heads and fixer are defined on all inputs. Where something holds only while times stay below 2^64, the theorem says exactly when that is (`Fixers.MonotoneExactly`, `Idempotence.FilterIdempotentExactly`). Sizes are those of a 64-bit platform.
- Shifts are multiplications by powers of two and setting a flag bit above a value is addition. `mask & byte` is the bit of the byte that the mask selects.
- A source is a sequence of steps (a piece, not yet, a failure); when they are used up it has ended for good. A failure does not end it.
- `Run` and `ChunkRun` are all items of repeated polling up to the end, or up to an error that the parser repeats for ever because it cannot get past it (`StreamParser.StuckForGood`): a bad header or a refused refill. Undecodable payloads and failures of the source are passed on and polling goes on.
- A listener's queue is a first-in first-out queue of some fixed capacity of at least 1, which refuses a chunk when it is full or its receiver is gone. The source makes it with `mpsc_channel(5)`; the theorems hold for every capacity.
- `hide` statements in proofs keep definitions that a proof does not need out of the verifier's sight; they only make it faster.

## Where the code and its documentation differ

- The repository's README says that the Info segment is stripped and everything else is passed along. The code also drops SeekHead, Cues, Void and unknown elements, replaces the payload of EbmlHead, and puts one Timecode at the front of every cluster. `NormalForms.NormalForm` says what is left.
- It says that clusters and the initialization segment cannot individually be more than 2M. The limit is checked before a write only, so the last write may cross it (`Sizes.OnlyLastWriteCrosses`), and an upload is refused exactly if some write finds the limit reached (`ChunkLimits.LimitUnnoticedExactly`). The bound that holds is `Sizes.BodyBound`; a cluster of almost 6M passes (`Sizes.RelayLimitExceeded`).
- It says that timestamps are rewritten to be monotonic. Over a whole run they are, with no cluster ending before it starts, exactly if for every cluster its new time and its duration sum to less than 2^64 (`Fixers.MonotoneExactly`). It is not enough that the new times do: where only the end of a cluster wraps around, the next one goes back in time (`Counterexamples.WrappedEndInFilter`).
- Filtering what was filtered is not always without effect. It is so exactly if no error has cut off the last header run and no cluster of the output would be moved again (`Idempotence.FilterIdempotentExactly`). A block dated before 0 ahead of its cluster's Timecode breaks the one half (`Counterexamples.EarlyBlockBreaksIdempotence`), an error behind the first Cluster the other (`Counterexamples.CutOffHeadersBreakIdempotence`).

## Model

| member | source | states |
|---|---|---|
| Ebml.VarintRoundTrip | src/ebml.rs:118-143 | every varint that can be written reads back with its value and width whatever bytes follow; exactly values above 2^56 - 2 are refused |
| Ebml.MinWidth | src/ebml.rs:124-136 | the width written is the least s with value < 2^(7s) - 1 |
| Ebml.VarintShortest | src/ebml.rs:117-143 | no bytes shorter than the written form read as the same value |
| Ebml.DecodedVarintEncodable | src/ebml.rs:34-76 | every varint that was read is in range and can be written in no more bytes than it was read from |
| Ebml.FixedVarintRoundTrip | src/ebml.rs:145-162 | the four-byte form of unknown and of every value up to 2^28 - 2 reads back with width 4; larger values are refused |
| Ebml.VarintPrefixStable | src/ebml.rs:34-76 | a value or error found in some bytes is found in every extension of them |
| Ebml.VarintNeedsMore | src/ebml.rs:31-76 | more bytes are asked for exactly when the bytes are a strict prefix of a whole varint |
| Ebml.TagPrefixStable | src/ebml.rs:83-103 | the same stability for an element header |
| Ebml.TagNeedsMore | src/ebml.rs:80-103 | more bytes are asked for exactly when the bytes are a strict prefix of a whole header |
| Ebml.TagHeaderRoundTrip | src/ebml.rs:179-182 | a written header reads back as its id, its size and its length |
| Ebml.DecodedTagEncodable | src/ebml.rs:83-103 | a header that was read can be written again in no more bytes |
| Ebml.UintExact | src/ebml.rs:105-111 | integers are read from exactly one to eight bytes, and the value determines those bytes |
| Ebml.ElementRoundTrip | src/ebml.rs:164-177 | the back-patched form reads back as the id and the length of its content, with the content right behind |
| Cursors.DecodeVarint | src/ebml.rs:34-76 | the marker-bit loop and the accumulation loop compute the big-endian number less its marker, with the reserved all-ones value as unknown, and every error and more-bytes case |
| Cursors.EncodeVarint | src/ebml.rs:118-143 | the width loop writes the shortest form at the cursor, or writes nothing and refuses |
| Cursors.EncodeVarint4 | src/ebml.rs:149-162 | the four-byte form is written at the cursor, or nothing |
| Cursors.EncodeElement | src/ebml.rs:164-177 | with any content routine, whether it appends, overwrites, seeks or fails: it gets to see id and unknown length, and the distance by which it moved the position is patched in, or refused if it does not fit four bytes or is negative |
| Cursors.AppendedElement | src/ebml.rs:164-177 | with a routine that appends at most FOUR_MAX bytes: what was before the start is intact, and id, four-byte length and content are there with the cursor behind them |
| Cursors.PrefixIntact | src/ebml.rs:164-177 | what was before the start is intact also if the routine fails or appends too much |
| Cursors.PatchLength | src/ebml.rs:172-174 | seeking back, overwriting the length and returning changes those four bytes only |
| Cursors.EncodeTagHeader | src/ebml.rs:179-182 | id and size are written at the cursor |
| Cursors.EncodeBytes | src/ebml.rs:185-188 | header and payload are written at the cursor |
| Cursors.EncodeInteger | src/ebml.rs:191-198 | header and eight big-endian bytes are written at the cursor |
| Webm.CheckSpacePrefixStable | src/ebml.rs:219-248 | a layout or header error never changes when bytes arrive, and an element waited for reaches beyond the bytes that were there |
| Webm.CheckSpaceNeedsMore | src/ebml.rs:222-248 | more bytes are asked for exactly when the bytes are a strict prefix of a whole element |
| Webm.WebmRoundTrip | src/webm.rs:54-131 | exactly the kinds that are kept, with fields in range, can be written; all but SeekHead and Cues, which write nothing, read back unchanged and take up exactly the bytes written, whatever follows |
| Webm.SimpleBlockExact | src/webm.rs:71-88 | which payloads are SimpleBlocks, and that track, signed timecode, flags and data account for every byte of them |
| Webm.DecodedEncodable | src/webm.rs:54-131 | an element that was read can be written exactly if it is of a kept kind and not a SimpleBlock of a track above 31 |
| Webm.ReencodedNoLonger | src/webm.rs:90-128 | Tracks and SimpleBlocks take no more bytes written than they occupied when read |
| Webm.EncodeSimpleBlock | src/webm.rs:90-114 | the block is written at the cursor; tracks above 31 are refused |
| Webm.EncodeWebmElement | src/webm.rs:116-132 | each element is written at the cursor, or refused |
| Reference.RegisteredIds | src/webm.rs:8-15 | the element ids as bytes |
| Reference.EbmlHeadExact | src/webm.rs:118-120 | the bytes of the EbmlHead that is made up for every stream |
| Reference.MarkersExact | src/webm.rs:121-125 | Segment and Cluster are written with unknown size |
| Reference.TimecodeExact | src/webm.rs:126 | a Timecode is written in eight bytes |
| Reference.RangesExact | src/ebml.rs:113-157 | the largest numbers that the two written forms can hold |
| Reference.SmallBlockExact | src/webm.rs:90-114 | the bytes of a small SimpleBlock |
| Readings.MarkersReadAsHeaders | src/ebml.rs:228-237 | the ids of Segment and Cluster, with a size of any value and width or the unknown one, read as these elements and take up their headers only |
| Readings.SizedElementReads | src/ebml.rs:222-261 | every other element takes up exactly its header and its payload; if the payload is corrupt it is passed over and the events go on behind it |
| Readings.UnknownSizeRefused | src/ebml.rs:228-237 | every other element of unknown size cannot be read, and nothing behind it |
| Readings.BadHeadersRefused | src/ebml.rs:83-103 | an unknown id, or an id or size that begins with a zero byte, cannot be read, each with its own error |
| Readings.PlainKinds | src/webm.rs:54-69 | by the bytes of their ids, with any payload and size in any width: EbmlHead, Void, SeekHead, Info, Cues, and Tracks with its payload |
| Readings.TimecodeReads | src/webm.rs:64 | a Timecode is the big-endian number of one to eight bytes, and any other payload is corrupt |
| Readings.BlockReads | src/webm.rs:71-88 | a SimpleBlock is its track, two bytes of signed time, the more significant one first, flags and data; a shorter payload is corrupt |
| Readings.TracklessBlockReads | src/webm.rs:72-87 | a SimpleBlock without a track number is corrupt |
| Readings.OtherIdsAreUnknown | src/webm.rs:66 | every id but the ten known ones is an unknown element |
| Readings.BlockOfTest | src/webm.rs:71-88 | 81 00 21 80 is a keyframe at 33, and 81 FF FE 00 a block at -2 |
| Iterators.FirstEvent | src/ebml.rs:251-261 | the first event and what remains behind it do not depend on bytes further on |
| Iterators.EbmlIterator.Next | src/iterator.rs:14-19 | iterating yields the events of the buffer in order and stays at the first error |
| StreamParser.CuttingDoesNotMatter | src/stream_parser.rs:43-78 | for every cutting into pieces, with waiting and source failures anywhere, the unlimited parser's own items are exactly the events of the whole byte string |
| StreamParser.StuckForGood | src/stream_parser.rs:48-74 | after the end, a bad header or a refusal, every further poll finds the same again |
| StreamParser.LimitOnlyCutsShort | src/stream_parser.rs:62-66 | a limited run is the unlimited one, or a prefix of it and a refusal |
| StreamParser.NoElementRefused | src/stream_parser.rs:47-77 | if every element fits the limit, every complete element comes out under every cutting |
| StreamParser.LimitUnnoticed | src/stream_parser.rs:47-77 | if the unfinished rest is below the limit too, the limit makes no difference |
| StreamParser.BufferBound | src/stream_parser.rs:62-72 | a poll keeps the buffer below the limit plus the largest piece, also while it is at work, and what a kept element read from it is written as is below that too |
| StreamParser.BufferAlwaysBounded | src/stream_parser.rs:62-72 | so a parser that starts empty stays below that bound after any number of polls |
| StreamParser.NextIsFirst | src/stream_parser.rs:80-107 | what `next` finds is the first item of the run, and the rest of the run is left |
| StreamParser.RepeatedNext | src/stream_parser.rs:80-107 | calling `next` again and again yields the whole run, and without a limit the events of all bytes |
| Polling.ParserPolls | src/stream_parser.rs:43-78 | the results of all polls, with any limit: all events of the bytes at hand, then one step of the source, a wait and a failure each passed on at once, and so on with what is left over |
| Polling.RunOfPolls | src/stream_parser.rs:43-78 | the items among them are the run |
| StreamParser.EbmlStreamingParser.PollNextEvent | src/stream_parser.rs:43-78 | the refill and split loop is one step of the run, result and new state, and its buffer never exceeds the bounded size |
| StreamParser.EbmlStreamingParser.Next | src/stream_parser.rs:80-107 | the asynchronous loop finds what polling on through the waiting finds |
| StreamParser.EbmlStreamingParser.WithSoftLimit | src/stream_parser.rs:19-22 | sets the limit and nothing else |
| Chunks.HeadIsFifteenBytes | src/chunk.rs:18-20 | Cluster and Timecode always take 15 bytes, so the fixed buffer never overflows |
| Chunks.UpdateKeepsDuration | src/chunk.rs:34-37 | a new timecode moves start and end together, even where they wrap around |
| Chunks.ClusterHead.UpdateTimecode | src/chunk.rs:34-46 | start, end and the bytes of the head are brought to the new timecode |
| Chunks.ClusterHead.ObserveSimpleblockTimecode | src/chunk.rs:47-52 | a block after the start, in wrapping arithmetic, sets the end |
| Chunks.OverlapsMeansCommonTime | src/chunk.rs:71-76 | for any head and window: some time is common, ends included, exactly if the cluster passes and neither is the wrong way round |
| Chunks.ChunkIterator.Next | src/chunk.rs:83-103 | the pieces of a chunk come in order, and piece plus remainder are always the chunk's bytes |
| Chunker.ChunkRunIsFold | src/chunk.rs:146-242 | a chunker's whole run depends on its source only through the items of its parser |
| WebmChunkers.Encode | src/chunk.rs:130-138 | the limit is checked before writing; then the element is appended or refused |
| WebmChunkers.WebmChunker.HeaderElement | src/chunk.rs:155-175 | what each element does to a header run |
| WebmChunkers.WebmChunker.ClusterElement | src/chunk.rs:182-228 | what each element does to a cluster in the making |
| WebmChunkers.WebmChunker.ClusterContent | src/chunk.rs:205-227 | Timecodes go to the head, blocks to head and body, the rest to the body or nowhere |
| WebmChunkers.WebmChunker.PollNext | src/chunk.rs:146-242 | the polling loop over parser and state is one step of the run, result and new state |
| Polling.ChunkerPolls | src/chunk.rs:146-242 | the chunker's polls follow its parser's one by one: waiting is passed on, and each item leads to what the chunker makes of it |
| Kinds.HeaderElementByKind | src/chunk.rs:155-175 | what each of the eleven kinds of element does outside a cluster, by name |
| Kinds.ClusterElementByKind | src/chunk.rs:182-228 | what each does inside one, by name |
| Kinds.SurvivorWrites | src/webm.rs:116-132 | EbmlHead, Segment, Tracks, Cluster, Timecode and SimpleBlock leave bytes |
| Kinds.NormalFormByKind | src/chunk.rs:146-242 | the normal form keeps in their order exactly the EbmlHeads, Segments, Tracks, Clusters and blocks of the input up to the end of its last cluster, and besides Timecodes nothing else |
| Kinds.NormalFormBySegment | src/chunk.rs:146-242 | header runs keep their Timecodes too; a cluster has just one, in front, with the time of its last one or 0 |
| NormalForms.HeaderSegmentsCover | src/chunk.rs:146-242 | cutting a sequence into header runs and clusters loses nothing but a run at its end that no Cluster follows and that, behind a cluster, begins with an EbmlHead or Segment |
| NormalForms.HeaderSegmentsRoundTrip | src/chunk.rs:146-242 | segments laid end to end are cut at the same places again |
| NormalForms.NormalFormIdempotent | src/chunk.rs:146-242 | normalizing twice changes nothing more |
| Meaning.EventsOfEncoded | src/webm.rs:116-132 | elements written one after the other read back as themselves |
| Meaning.HeaderChunks | src/chunk.rs:146-242 | without a limit and on elements it can write or drops, the chunker's run is one chunk per segment, in order |
| Meaning.HeadAfterShape | src/chunk.rs:34-46 | a head's bytes always say its start, which is the last Timecode of the cluster or 0 |
| Meaning.ChunkerPreservesMeaning | src/chunk.rs:146-242 | the bytes of all chunks read back as the normal form of the input |
| Meaning.RechunkingChangesNothing | src/chunk.rs:146-242 | parsing and chunking the output again gives the same bytes |
| Meaning.FailsExactlyOnRefused | src/chunk.rs:169-174 | without a limit the run has an error exactly if some element can neither be written nor is dropped |
| Meaning.ReadElementsAccepted | src/webm.rs:98-101 | among elements read from bytes those are exactly the SimpleBlocks of tracks above 31 |
| Meaning.FailuresPassThrough | src/chunk.rs:152 | failures of the source change nothing about the chunks |
| Meaning.ErrorsInPlace | src/chunk.rs:152 | an error comes out in its place and leaves the chunker as it was |
| Meaning.ErrorsPassThrough | src/chunk.rs:152 | errors that the parser gets past change nothing about the chunks, undecodable payloads included |
| Meaning.ChunksOfBytes | src/chunk.rs:146-242 | the chunks of an upload depend on its bytes only, not on how they arrive |
| Meaning.UploadPreservesMeaning | src/chunk.rs:146-242 | from pieces to meaning: however an upload arrives, the output reads back as its normal form |
| Grammar.ChunkRunGrammar | src/chunk.rs:146-240 | over whole runs with limits and errors the chunks are a prefix of (Headers Cluster+)*, all Headers behind the first begin with EbmlHead or Segment, and a run that is not broken off ends with a cluster |
| Stopping.ChunksBeforeError | src/commands/filter.rs:49-51 | for every event sequence, errors included: the chunks before the first error are those of the segments finished by then, and the end of the input, but no error, finishes a cluster |
| Stopping.SegmentsOfPrefix | src/chunk.rs:146-242 | read again, a stream cut off between chunks loses just a header run behind its last cluster |
| Contents.FoldWellMade | src/chunk.rs:146-242 | under any limits and errors, Headers are whole header elements and bodies whole elements that may stand in a cluster |
| Contents.StreamReads | src/chunk.rs:146-242 | one Headers chunk and clusters, sent as bytes, read without error as one header run and the clusters, each with its start as its one Timecode |
| ChunkLimits.LimitOnlyRefuses | src/chunk.rs:130-138 | on any items a limited chunker's run is the unlimited one, or a prefix of it and a refusal |
| ChunkLimits.LimitUnnoticedExactly | src/chunk.rs:130-138 | on accepted elements the limited run has no error exactly if every write of every segment finds less than the limit before it in its segment, and then it is the unlimited run |
| ChunkLimits.UploadWithinLimits | src/commands/relay.rs:40-45 | if elements, leftover and segments keep within the limits of parser and chunker, an upload's chunks read back as its normal form however it arrives |
| Sizes.OnlyLastWriteCrosses | src/chunk.rs:130-138 | a chunk goes beyond the chunker's limit by its last element at most |
| Sizes.BodyBound | src/chunk.rs:130-138 | with limit L on parser and chunker and pieces of at most P bytes every cluster body has at most 2(L-1)+P bytes, and every Headers chunk that or L-1 and the 15 bytes of an EbmlHead |
| Sizes.BoundReached | src/chunk.rs:130-138 | two blocks of the right sizes make a body of exactly 2(L-1)+P bytes |
| Sizes.BoundIsSharp | src/chunk.rs:130-138 | an upload on which the bound is reached, with a limit of 7 |
| Sizes.RelayLimitExceeded | src/commands/relay.rs:23-45 | an upload in pieces below the relay's limit that makes a cluster of three times that size |
| Fixers.OrderedExactly | src/fixers.rs:24-39 | in every state: exactly when a cluster comes out no earlier than the last one ended, its new time and the shift that is kept, and that duration, body and keyframe mark are kept in any case; other chunks change nothing |
| Fixers.MonotoneExactly | src/fixers.rs:24-39 | over a whole run on any chunks: the fixed clusters follow one another, none ending before it starts, exactly if for each the new time and the duration sum to less than 2^64 |
| Fixers.WrappedEndBreaksOrder | src/fixers.rs:29-36 | three clusters in order, all of whose new times stay below 2^64, on which the timeline goes back, whatever their bodies |
| Fixers.FixerOnlyRetimes | src/fixers.rs:24-39 | whatever the times, the fixer changes nothing but times, and heads say their starts |
| Fixers.FixerTimeline | src/fixers.rs:24-39 | fixed clusters never overlap, each is the original moved later as a whole with head bytes to match, and after i clusters the time is at most 2B + i(D+33) |
| Fixers.FixerIdentity | src/fixers.rs:24-39 | on clusters that are in order already the fixer changes nothing |
| Fixers.ChunkTimecodeFixer.ProcessChunk | src/fixers.rs:24-39 | the method updates offset and last time and rewrites the head as specified |
| Fixers.SkipTake | src/commands/filter.rs:41-42 | after the fixer a time window keeps all that is not a cluster and one contiguous run of clusters, still in order |
| Fixers.FinderKeepsWanted | src/fixers.rs:51-81 | the finder lets pass exactly the first Headers and, in each stretch after a dropped Headers, the clusters from its first keyframe on |
| Fixers.PassedIsSifted | src/fixers.rs:51-81 | repeated polling lets exactly those pass through all waiting and failures |
| Polling.FinderPollsAreSteps | src/fixers.rs:51-81 | the finder's polls are its source's steps one by one, waits and failures included, but for the chunks that are not wanted |
| Fixers.StartingPointFinder.PollNext | src/fixers.rs:51-81 | the polling loop is one step of that, result and new state |
| Pipeline.ClusterIsCanonical | src/chunk.rs:34-52 | any cluster's start is its last Timecode, its end that of the last block that counted under the Timecode in force where it stood, and its keyframe mark and body do not depend on where the Timecodes stood |
| Pipeline.RereadExactly | src/chunk.rs:34-52 | a cluster written and read again has the same head exactly if the same block counts last once all are behind the Timecode |
| Pipeline.FixedBytesOfAll | src/commands/filter.rs:38-50 | the bytes of the fixed chunks are the fixed segments, written, whatever the times |
| Pipeline.FilterOfArrival | src/commands/filter.rs:38-51 | what the filter writes, which is the chunks up to the first error, depends on the input bytes only; a failure of the source cuts it short |
| Pipeline.FilterReads | src/commands/filter.rs:38-51 | for every input: the output reads without error, as the fixed segments |
| Pipeline.SecondPass | src/commands/filter.rs:38-51 | for every input: the second pass makes chunks of the same segments, up to the last cluster |
| Idempotence.UnmovedExactly | src/fixers.rs:24-39 | fixing normal segments changes nothing exactly if no cluster begins before the last one ended, or is put back on its own time by a sum that wraps around to it |
| Idempotence.FilterIdempotentExactly | src/commands/filter.rs:38-51 | for every byte string: filtering twice is filtering once, byte for byte, exactly if the output does not end in a cut-off header run and no cluster of it would be moved |
| Idempotence.FilterOutput | src/commands/filter.rs:38-51 | the output is in order of time exactly if no fixed time overflows; if no block's time does either, it chunks to what it was made of |
| Idempotence.FilterIdempotent | src/commands/filter.rs:38-51 | filtering twice is filtering once if nothing overflows: no block's time leaves the u64 range and every fixed cluster ends within it |
| Idempotence.FilterIdempotentOnOrdinary | src/commands/filter.rs:38-51 | that is so of readable input with non-negative block times |
| Idempotence.OrdinaryLeavesRoom | src/fixers.rs:24-39 | with Timecodes and a number of clusters up to a bound nothing overflows |
| WorkedExample.FilteredBytes | src/commands/filter.rs:38-50 | the bytes that the filter makes of a stream with every kind of element, a Segment of known size, a late Timecode and a jump back in time |
| Counterexamples.EarlyBlockBreaksIdempotence | src/chunk.rs:47-52 | a stream with a block dated before 0 ahead of its Timecode, on which the second pass differs |
| Counterexamples.CutOffHeadersBreakIdempotence | src/commands/filter.rs:49-51 | an input with an error behind its first Cluster, of which the second pass leaves nothing |
| Counterexamples.WrappedEndInFilter | src/fixers.rs:29-36 | an upload of three such clusters, on which the filter's output goes back in time |
| Windows.WindowReads | src/commands/filter.rs:42-50 | for every input and window: what passes reads without error as the segments whose chunks pass, and chunks again as these, with header runs joined that have lost the clusters between them |
| Channels.Retain | src/channel.rs:60-62 | every listener is offered the chunk once; those that take it stay, in their order |
| Channels.DeliverExactly | src/channel.rs:60-62 | a send keeps exactly the queues that are open and not full, with the chunk appended |
| Channels.Channel.Send | src/channel.rs:53-63 | the header slot, the queues and the list of listeners after a send |
| Channels.Channel.DropTransmitter | src/channel.rs:66-73 | the header is forgotten and the listeners stay |
| Channels.Channel.NewListener | src/channel.rs:83-102 | a new listener finds the header in its queue, which never fails, and is last in the list |
| Channels.Queue.PollNext | src/channel.rs:105-112 | chunks are received in order, and the end only after all of them |
| Channels.Queue.DropReceiver | src/channel.rs:76-80 | when a listener goes, its queue is empty and refuses all |
| Broadcast.StepIsMethod | src/channel.rs:53-112 | every step of the system is, on header and listed queues, what the channel's and the queue's methods do |
| Broadcast.SendIsDeliver | src/channel.rs:60-62 | a send of the transition system is a send of the channel object on the listed queues |
| Broadcast.NoGaps | src/channel.rs:53-102 | in every history, with any transmitters, what a listener received and has queued is a prefix of its greeting and all that was sent since it joined, and the whole of it while it is connected and listed |
| Broadcast.SendExactly | src/channel.rs:60-62 | a send appends to the queue of exactly the listeners that are listed, connected and not full, and unlists all others |
| Broadcast.ListedExactly | src/channel.rs:53-63 | in every history a listener is still listed exactly if at every send since it joined it was connected and had room, and then, while connected, it has its whole feed |
| Broadcast.RightHeader | src/channel.rs:56-93 | with one transmitter at a time, every cluster that a listener gets is one place of the log, namely the one behind all that it heard before, and the last Headers it heard are those that governed that place |
| Broadcast.FeedStartsWithHeaders | src/channel.rs:89-93 | a listener's first chunk is Headers, whenever it joins |
| Relay.FoldInBounds | src/chunk.rs:178-236 | the clusters of an upload with ordinary times never end before they start, and start and duration are bounded |
| Relay.KeyframeFirst | src/fixers.rs:58-76 | from each Headers on, the first cluster let pass is a keyframe |
| Relay.StretchIsSuffix | src/fixers.rs:58-67 | from a keyframe on every cluster is let pass until new Headers come |
| Relay.EndToEnd | src/commands/relay.rs:25-51 | in every history with one transmitter at a time, each sending what its chunker makes of an upload, and whatever the times: every listener is served one Headers chunk, first, then clusters, after each new stream a keyframe first, and nothing but times is changed; fixed times are in order exactly if they fit, and so then is what is served |
| Relay.EndToEndOrdinary | src/commands/relay.rs:25-51 | with non-negative block times, and Timecodes and a number of clusters up to a bound, they do fit |
| Relay.ServedReadsBack | src/commands/relay.rs:25-51 | in every such history the bytes served to a listener read without error as one header run and the clusters, each with its fixed start as its one Timecode |

## Left out

- `Throttle` and everything about real time, wakers, pinning and threads: a poll is one step.
- HTTP, the command line, standard input and output, logging, and the map of channels by name.
- The `FromEbml` trait: the model has its one instance in the program, WebM elements.
- A content routine of `encode_element` that seeks beyond the end of its output; the one there is only appends.
- Writing to an output of fixed size that runs full: the one such output is the head's 15 bytes, which never do (`Chunks.HeadIsFifteenBytes`).
- The `borrowed` field of the parser, which only keeps the last payload alive.
- Several transmitters on one channel at once: `Broadcast.NoGaps` covers them; the header and keyframe theorems are for one at a time, since any of them clears the header when it goes.
