# Verification of apb

apb relays commands and files between a controller and an agent through a
server.  This project models the parts in which a mistake would corrupt a file,
mix up two requests or stall a transfer, and proves what they guarantee.
SHA-256 is an arbitrary function from byte strings to digests everywhere; a
reader hands out its bytes in arbitrary non-empty pieces; a disk operation may
fail whenever it is tried.

- **Delta engine** (`Bytes`, `Multiples`, `RollingSum`, `FileReader`,
  `Signatures`, `Emitter`, `Greedy`, `BlockLookup`, `DeltaTrace`, `DeltaScan`,
  `DeltaRebuild`, `DeltaBounds`, `DeltaOptimal`, `DeltaLong`).  `DeltaScan.ProduceDelta` is the buffered,
  rolling, indexed scan with its two refill points.  It is proved, for an index
  of any size, against `DeltaTrace.IsScan`, which says window by window what is
  looked up and matched.  Up to 2^32 blocks every such scan is one of
  `Greedy.IsDelta`: a scan without buffer, checksum or index that tests every
  window against every block.  About that specification it is proved that the
  operations rebuild the source, that they are in normal form, that the outcome
  does not depend on the sizes of the reads, that a run of base blocks in the
  source is found again within one block, and that an unchanged file costs one
  copy and its incomplete tail.  Round trip is the only one of these that needs
  windows and blocks of equal signature to be equal.  Every byte is accounted for
  whatever the size of the index.
- **Transfer** (`Receiving`, `FileWriters`, `Delivery`, `Planning`, `Sending`,
  `Transfers`).  The receiving loop is a state machine over arbitrary events; the
  classes of `FileWriters` refine it.  `Receiving.RunEnds` says exactly which
  frames end it well and what makes it give up.  Composed with the real sender, push and
  pull leave each destination equal to its source, even when push loses a prefix
  of the plan stream and then goes on.  Without any assumption on hashes or sizes
  of bases, a transfer that ends well leaves every destination with the hash of
  its source (`Transfers.TransferIsChecked`).
- **Queues** (`Pipes`, `PullFlow`, `QueuedPull`, `TreePull`).  A pull over chains
  of bounded queues never deadlocks and takes an exactly known number of steps.
  `TreePull.TreeIsPulled` puts the agent's walk, the controller's manifest, the
  plans, the data and the queues together: whatever the interleaving, every file
  of the tree ends at its place.
- **Server** (`Routes`, `Relays`).  The route tables at lock granularity, one
  program counter per connection thread, over all interleavings; and what one
  request does to them when its thread is not disturbed.
- **Codec** (`Payloads`, `Utf8`, `Codec`, `CodecBuffers`, `WireLayout`).
  `WireLayout` gives the format a second time, byte by byte, and the limits of
  every part; `Utf8` derives the accepted byte patterns from the characters.
- **Manifest** (`Manifest`).  Both directory walks against a recursive
  enumeration.
- **Keys** (`BitGroups`, `Base64`, `Keys`).

Some statements one might expect are false, and the project says exactly when
they hold.

- Atomic destinations need that no destination is named like a temporary file of
  the same transfer.  `Receiving.AtomicIffNoClash` shows that this condition is
  exact, and `Receiving.SomeTasksClash` is a task that violates it.
- Block numbers are cut to 32 bits.  The index finds every block exactly when
  there are at most 2^32 of them (`Signatures.IndexExactIff`).  The round trip
  holds for every source of a base if and only if the base has no block 2^32 or
  that block equals block 0 (`DeltaLong.RoundTripIff`); otherwise the first
  2^32 + 1 blocks as a source come back with block 0 in the place of block 2^32,
  although no hash collides (`DeltaLong.LongScan`, `DeltaLong.LongIsNotRebuilt`).
- A binding in `by_req` may be left behind for a removed route:
  `Routes.StaleBinding` is such a run.  By `Routes.DeadIffLate` a binding that no
  thread is about to clear is dead if and only if its route was removed between
  the two inserts of its creation.

The comment on the three phases at src/agent.rs:641-644 calls each phase strictly
one-directional.  For push the code reads replies between manifest frames
(src/ctrl.rs:715-742), so the model lets push lose any prefix of the plans.

## Model

| member | source | states |
|---|---|---|
| `RollingSum.NewRolling` | src/delta.rs:76-90 | the loop's two wrapping sums are the byte sum and the position-weighted sum of the window modulo 2^16 |
| `RollingSum.RollIsExact` | src/delta.rs:92-99 | one roll gives the checksum of the window moved by one byte, in spite of 32-bit wrapping |
| `RollingSum.RollingNeverDrifts` | src/delta.rs:92-104 | after any number of rolls the state equals a fresh checksum of the current window, for every window size |
| `FileReader.Reader.Read` | src/delta.rs:325-346 | a read returns an arbitrary non-empty piece, and nothing only at the end or for a full buffer |
| `FileReader.Reader.ReadFull` | src/delta.rs:171-182 | short reads are repeated until the buffer is full or the content ends |
| `Signatures.BlockPolicy` | src/delta.rs:40-53 | larger bases never get smaller blocks, every non-empty base has a full block, up to 512 MiB there are at most 4096 blocks; no block exceeds the larger of 8 KiB and a 256th of the base |
| `Signatures.WorthDeltaExact` | src/delta.rs:58-66 | with the chosen block size a delta is worth it exactly when both files reach the minimum size and the signatures are an eighth of the source |
| `Signatures.ChosenBlocksDoNotOverflow` | src/delta.rs:76-90 | with any block size the program chooses, the weighted product fits 32 bits |
| `Signatures.ScanFile` | src/delta.rs:124-158 | scanning lists the weak and strong signature of every full block in order, with size and hash of the whole file |
| `Signatures.SigsOfBlock` | src/delta.rs:124-158 | signature `i` is that of the `i`-th full block of the base: both sums modulo 2^16 and the first 16 bytes of its hash |
| `Signatures.SigCount` | src/delta.rs:124-158 | there are as many signatures as full blocks |
| `Signatures.EncodeSet` | src/delta.rs:160-168 | the encoding is the signatures one after the other, 20 bytes each |
| `Signatures.SigRecord` | src/delta.rs:160-168 | each of these records is the checksum, high byte first, and the hash |
| `Signatures.SigsRoundTrip` | src/delta.rs:160-227 | parsing an encoded list gives the list back, whatever follows it |
| `Signatures.NewIndex` | src/delta.rs:194-227 | accepts exactly a positive block size and a blob of the announced length, and then represents the parsed signatures |
| `Signatures.BucketIsExact` | src/delta.rs:209-222 | each bucket is the increasing list of exactly the blocks with that weak checksum |
| `Signatures.IndexExactIff` | src/delta.rs:209-222 | every block is found in its bucket if and only if there are at most 2^32 blocks |
| `Emitter.Sink.EmitCopy` | src/delta.rs:275-291 | closing an open copy run emits it once and leaves no run |
| `Emitter.Sink.Append` | src/delta.rs:293-311 | literal bytes leave in chunks of exactly the chunk size, the rest stays pending: the same as byte by byte |
| `Emitter.Sink.FlushLiteral` | src/delta.rs:313-322 | literal bytes first close the open run |
| `Emitter.Sink.Block` | src/delta.rs:386-404 | a matched block extends a contiguous open run or closes it and opens another |
| `Emitter.Sink.Close` | src/delta.rs:433-444 | at the end the run or the pending bytes are emitted, never both |
| `DeltaScan.FindBlock` | src/delta.rs:353-385 | for any number of blocks the lookup continues the open run if the next block is a candidate, else takes the first candidate with the strong hash, with block numbers cut to 32 bits |
| `BlockLookup.LookupIsPick` | src/delta.rs:353-385 | up to 2^32 blocks that lookup is a linear search of all blocks for both signatures |
| `BlockLookup.LookupSoundIff` | src/delta.rs:366-379 | over runs that end at or before block 2^32 and windows whose strong hash decides, every block a lookup returns has the window's signature if and only if there is no block 2^32 or it has the signature of block 0 |
| `DeltaTrace.ScanIsDelta` | src/delta.rs:324-434 | up to 2^32 blocks every scan has the outcome of the reference scan that tests every window against every block |
| `DeltaLong.RunsStayInRange` | src/delta.rs:353-404 | in every scan all matched blocks have 32-bit numbers and every open run ends at or before block 2^32 |
| `DeltaLong.ScanRoundTrip` | src/delta.rs:255-445 | where strong hashes decide and block 2^32, if there is one, has the signature of block 0, applying the operations of any scan yields the source, however many blocks there are |
| `DeltaLong.LongScan` | src/delta.rs:366-404 | every scan of a base's first 2^32 + 1 blocks copies blocks 0 to 2^32 - 1 and then block 0 again |
| `DeltaLong.LongIsNotRebuilt` | src/delta.rs:366-404 | so that source is not rebuilt if block 2^32 differs from block 0, although no strong hash misleads |
| `DeltaLong.RoundTripIff` | src/delta.rs:255-445 | for a base whose own windows do not collide with its blocks, every source is rebuilt if and only if there is no block 2^32 or it equals block 0 |
| `DeltaScan.Refill` | src/delta.rs:324-346 | shifting and refilling the buffer in place loses no byte and emits exactly the literals before the position |
| `DeltaScan.Slide` | src/delta.rs:405-432 | moving one byte on keeps the checksum exact, also over a refill |
| `DeltaScan.ProduceDelta` | src/delta.rs:255-445 | for every partition into reads and an index of any size the outcome is that of a scan that looks up every window it does not jump over, with every byte counted once as literal or copied |
| `Greedy.FirstFrom` | src/delta.rs:353-385 | the reference search: the least block from a position on with that signature |
| `DeltaRebuild.DeltaRoundTrip` | src/delta.rs:255-445 | unless two different windows and blocks share a signature, applying the operations in order to the base yields exactly the source |
| `DeltaRebuild.ReplayBuilds` | src/delta.rs:324-432 | stream invariant: when every matched window has its block's signature, emitted operations, then pending bytes or the open run, rebuild the source up to the position |
| `DeltaRebuild.DeltaNormalForm` | src/delta.rs:275-444 | copies are aligned, non-empty, inside the indexed prefix and never contiguous; a short data chunk is followed only by a copy or the end; literal plus copied is the source length |
| `DeltaBounds.ReadSizesDoNotMatter` | src/delta.rs:255-445 | two deltas of one source against one index have the same data operations and the same statistics |
| `DeltaBounds.DeltaIsGreedy` | src/delta.rs:324-434 | byte for byte, what is literal and what is copied is decided by the greedy scan of source and signatures alone |
| `DeltaOptimal.Resynchronises` | src/delta.rs:348-432 | of a run of full base blocks in the source less than one block is sent as literals, none if the scan stops at its start; no assumption on hashes |
| `DeltaOptimal.StretchIsRun` | src/delta.rs:348-432 | a stretch of the source equal to consecutive base blocks is such a run |
| `DeltaOptimal.SelfDeltaIsOptimal` | src/delta.rs:359-404 | an identical file is one copy of all full blocks followed by its tail in chunks, even if many blocks are equal |
| `Receiving.ReceiverIsAtomic` | src/agent.rs:935-1069 | whatever arrives and fails, a destination is as before or as one undamaged end of its own open file put it in place: exactly the bytes its writer received, of the size of the manifest and the non-zero hash of that frame; a temporary file exists only while its writer is open; nothing else changes |
| `Receiving.StepKeepsOrPublishes` | src/agent.rs:1025-1041 | one frame leaves a destination alone or is the end of its open file and publishes what the writer received |
| `Receiving.StepSound` | src/ctrl.rs:1406-1495 | in both receivers an open writer always belongs to a listed file and has its temporary file |
| `Receiving.StatsAreExact` | src/ctrl.rs:1444-1462 | while the loop goes on, `sent` is the content bytes that crossed the wire and `reused` the bytes of the copy frames, whatever the stream held |
| `Receiving.StepEnds` | src/ctrl.rs:1406-1495 | one turn ends the loop well exactly for `PushEnd` outside a file (push) or `TransferDone` with `ok` (pull) of this transfer, and makes it give up exactly for the listed causes, among them a broken connection, `Error` and `TransferDone` without `ok` |
| `Receiving.StepContinues` | src/agent.rs:935-1069 | every other turn opens the next file with a base only for a delta, appends exactly the frame's content, moves a finished file into place, or changes nothing |
| `Receiving.RunEnds` | src/ctrl.rs:1475-1483 | a run is done if and only if one of its events ended it well, and has stopped if and only if one made it give up |
| `Receiving.AtomicIffNoClash` | src/agent.rs:722-728 | destinations are kept or published in every run if and only if no temporary name equals a destination |
| `Receiving.ClashBreaks` | src/agent.rs:722-728 | with such a clash, opening one file empties another destination |
| `Receiving.SomeTasksClash` | src/agent.rs:722-728 | a push of `a` and `.a.apb-7-0.tmp` under id 7 clashes, and so does a pull of `a` and `.a.apb-pull-7-0.tmp` |
| `Receiving.OrdinaryNamesDoNotClash` | src/ctrl.rs:1433-1438 | destinations not ending in `.tmp` never clash |
| `FileWriters.FileWriter.constructor` | src/delta.rs:462-484 | creates an empty temporary file and opens the base only for a delta |
| `FileWriters.FileWriter.WriteLiteral` | src/delta.rs:505-511 | counts the bytes; refuses more than the announced size without writing; else hashes them and appends them, or on a failing disk some part of them |
| `FileWriters.FileWriter.CopyFromBase` | src/delta.rs:513-556 | appends exactly the range of the base through a bounded buffer, or fails if the base lacks it |
| `FileWriters.FileWriter.Finish` | src/delta.rs:559-598 | renames onto the destination only when size and hash agree, and removes the temporary file otherwise |
| `FileWriters.FileWriter.Abort` | src/delta.rs:601-604 | removes the temporary file and nothing else |
| `FileWriters.Receiver.Handle` | src/agent.rs:935-1069 | one turn of the loop is one step of the state machine, in every branch; it leaves the loop done exactly for the frame that ends it well and stopped exactly for the causes to give up |
| `FileWriters.Receiver.Receive` | src/ctrl.rs:1406-1495 | the whole loop over any events ends in the state of the specification's run, done if and only if some event ended it well |
| `Delivery.RunFile` | src/agent.rs:945-1010 | start, operations and end of one file publish the rebuilt content and close the writer |
| `Delivery.Delivered` | src/ctrl.rs:1406-1495 | a fault-free data phase ends well with every destination equal to its source and counts exactly the bytes on the wire as sent and the other streamed bytes as reused |
| `Planning.PlanTarget` | src/agent.rs:1075-1102 | skip if and only if a hash is announced and the base has it; else delta if and only if both files have 4 KiB and 160 bytes for each full block are at most the file's size, with the block size, number and signatures of the base; else whole |
| `Planning.SendSigs` | src/agent.rs:917-930 | the batches join to the list, all full but the last, of whole signatures when the list is, each numbered by its first signature |
| `Planning.ReadSigs` | src/agent.rs:1296-1312 | reading all batches in order restores the complete list |
| `Planning.ReadPlans` | src/ctrl.rs:931-1020 | the complete plan stream gives every file its plan and complete signatures |
| `Planning.PlanReader.ReadAll` | src/agent.rs:1256-1322 | the reading loop is the specification's, refusals included |
| `Planning.ReadEnds` | src/ctrl.rs:952-1003 | a frame is refused exactly for an unknown file, an unknown action, signatures out of order or an error, and only `PlanEnd` completes the plans |
| `Planning.ReadContinues` | src/agent.rs:1266-1318 | any other frame concerns one file: actions 0, 1 and 2 are whole, skip and delta, and signatures are appended |
| `Planning.LostPrefixIsSafe` | src/ctrl.rs:715-742 | after any lost prefix the reader refuses, keeps waiting, or has for each file the true plan with all signatures or the plan "whole" |
| `Sending.StreamWhole` | src/ctrl.rs:1022-1042 | whatever the reads, the data chunks are non-empty, bounded and concatenate to the file |
| `Sending.SendFile` | src/ctrl.rs:1049-1076 | fails exactly when the plan is delta and the signatures do not fit an index; otherwise sends nothing, the whole file, or what the scan produces |
| `Sending.SendConserves` | src/ctrl.rs:1049-1076 | literal and copied bytes sum to the file's size for every plan |
| `Sending.SendIsFaithful` | src/ctrl.rs:843-882 | an informed sender's operations rebuild the source from the base the receiver will open |
| `Sending.AnswerInRange` | src/delta.rs:40-53 | every answer for a base of 64-bit size fits the fields of its frame |
| `Transfers.PlanAll` | src/ctrl.rs:1530-1589 | the plan phase sends for every file its answer and batches, then the closing frame; a puller counts the bytes of identical files as reused |
| `Transfers.SendAll` | src/ctrl.rs:843-882 | the data phase sends every file by its plan; `sent` is the content bytes in its frames, sent plus reused the total size, `skipped` the files not sent |
| `Transfers.TransferIsCorrect` | src/agent.rs:896-1040 | any sender informed by true answers or "whole" leads the receiver to the sources, and files never disturb each other's base |
| `Transfers.Transfer` | src/ctrl.rs:824-882 | plan, signatures, delta or whole streaming and writers together: whatever hashes do, each destination is as before or has its source's size and hash, and all have the hash when the receiver says it is done; where hashes decide, each equals its source, the sender's sent plus reused and the puller's own are the total, and a refusal changes nothing; push may have lost any prefix of the plans |
| `Transfers.TransferIsChecked` | src/delta.rs:559-598 | the same for the composed data phase, for any informed sender and with no assumption on collisions or the size of bases |
| `Delivery.DeliveredHashed` | src/ctrl.rs:1406-1495 | whatever the data frames rebuild, each destination is as before or has the announced size and hash, and when the loop ends well every streamed one has |
| `Transfers.SkippedAndStreamed` | src/ctrl.rs:1553-1557 | bytes skipped at planning and bytes streamed sum to the total |
| `PullFlow.StepKeeps` | src/agent.rs:1256-1377 | every step of worker, queues and controller keeps all frames in order and leaves exactly one step less to make |
| `PullFlow.NeverStuck` | src/wire.rs:231-264 | while the controller has not finished, some step is possible, for all capacities of at least one |
| `PullFlow.PullNeverDeadlocks` | src/agent.rs:641-651 | every run has at most the exactly known number of steps, another step is possible if and only if it has fewer, and then both ends have exactly what the other sent |
| `Pipes.HopKeeps` | src/wire.rs:231-244 | a hop between two queues keeps the payloads and their order |
| `Pipes.PopTakes` | src/ctrl.rs:61-83 | a reader gets the oldest payload under way |
| `QueuedPull.PullOverQueues` | src/ctrl.rs:1253-1495 | in any pull run over the queues that cannot go on, the controller has read entries that describe the files, the agent the answers to them, and the destinations equal the sources with counters that sum to the total |
| `QueuedPull.EntryIsRead` | src/ctrl.rs:1276-1362 | an entry is taken if and only if its path is safe and it is a directory, a link or the file with the next number; only files are wanted, with the entry's size and hash |
| `TreePull.CleanIff` | src/util.rs:176-195 | the paths taken as they stand are those without an empty, `.` or `..` component |
| `TreePull.WalkIsProper` | src/util.rs:176-195 | every path the agent's walk sends is one that the controller accepts |
| `TreePull.EntriesAreRead` | src/ctrl.rs:1262-1370 | from the agent's entries the controller reads exactly the files of the tree, in order |
| `TreePull.DestinationsDiffer` | src/agent.rs:1407-1490 | the walk lists what the recursive enumeration lists and no two files share a destination |
| `TreePull.TreeIsPulled` | src/agent.rs:1151-1377 | walk, manifest, plans, data and queues together: when no step is left every file of the tree is at its place, nothing else changed, and the counters sum to its size |
| `Routes.StepKeeps` | src/server.rs:141-328 | every critical section and send of every thread keeps the invariant of tables, threads and history |
| `Routes.BindingsAreExact` | src/server.rs:141-263 | in every interleaving a binding leads to a route created by that controller for that request, and distinct keys never share a route |
| `Routes.OnlyItsControllerCreates` | src/server.rs:230-242 | a route is created only by the thread of its controller for the request it serves, and never twice |
| `Routes.ResultsGoHome` | src/server.rs:472-489 | every forwarded result goes to the controller that created the route |
| `Routes.ContinuationsStick` | src/server.rs:157-195 | every delivered frame of a route, continuations included, goes to a connection registered under the agent name of that route and carries the request it was created for |
| `Relays.ChoiceIsExact` | src/server.rs:111-139 | at the choice a request gets the agent it names if that agent is registered at this moment, without a name the only one registered; otherwise it ends there and creates nothing |
| `Relays.RoutesWereGranted` | src/server.rs:111-242 | in every run, each created route answers a request its controller had sent with that id, and its agent is the one that request named, registered at the moment of the choice, or, when no agent was named, the only one registered then |
| `Relays.DeliveriesWereGranted` | src/server.rs:157-250 | every frame delivered goes to a connection registered under the name so granted |
| `Relays.RelayContinues` | src/server.rs:157-195 | a further frame of a request whose route is alive goes to that route's agent, whatever it names and whoever is registered |
| `Relays.RelayCreates` | src/server.rs:197-250 | a new request that an agent is granted gets a new route of its own, which is bound and whose first frame reaches that agent |
| `Relays.RelayRefuses` | src/server.rs:197-204 | a new request that no agent is granted leaves no trace |
| `Relays.FailedDeliveryEnds` | src/server.rs:243-263 | a frame that cannot be handed over ends the route and its binding |
| `Relays.AbsentAgentEnds` | src/server.rs:184-194 | so does a further frame for an agent that has left |
| `Relays.ResultReturns` | src/server.rs:472-489 | a result goes to the route's controller, and after a last payload route and binding are gone |
| `Relays.LastIs` | src/server.rs:479-488 | a payload ends its route if and only if it decodes and has tag 3, 4, 18 or 31 |
| `Relays.SweepsAreExact` | src/server.rs:265-328 | a cleanup removes exactly the routes of its controller or agent name and goes on to clear exactly their bindings |
| `Relays.JoiningIsExact` | src/server.rs:354-393 | a connection becomes an agent if and only if its name is well formed and free |
| `Relays.NamesAreKept` | src/server.rs:265-276 | a registered name stays with its connection until that connection itself leaves |
| `Routes.RunGrows` | src/server.rs:230-242 | created routes, registered names and sent frames stay as recorded |
| `Routes.ForwardIsNew` | src/server.rs:473-488 | a thread about to forward has not yet forwarded a payload that decodes as the route's last |
| `Routes.FinalIsLast` | src/server.rs:473-488 | after an agent's thread has forwarded a final payload for a route it forwards nothing more for it, however the run goes on |
| `Routes.NoRouteAfterCleanup` | src/server.rs:303-328 | once the cleanup of a controller has swept, no later state holds a route of it |
| `Routes.RunTracks` | src/server.rs:255-263 | a dead binding is about to be cleared by some thread, unless its route was gone before it was inserted |
| `Routes.RunKeepsLate` | src/server.rs:237-242 | a route found removed before its binding was inserted never comes back |
| `Routes.DeadIffLate` | src/server.rs:237-292 | a binding that no thread is about to clear is dead if and only if its route was removed between its two inserts |
| `Routes.StaleBinding` | src/server.rs:237-292 | a run after which every thread is idle or gone and a binding of a removed route remains |
| `Codec.PayloadRoundTrip` | src/proto.rs:653-959 | a payload comes back from the wire if and only if it is within the field limits |
| `Codec.DecodedFits` | src/proto.rs:653-959 | whatever decodes is within the limits and re-encodes to as many bytes, to the same bytes when its layout has no boolean |
| `Codec.ReencodingDiffers` | src/proto.rs:406-408 | re-encoding changes nothing but boolean bytes, and those only from above one to one |
| `Codec.PayloadReencodes` | src/proto.rs:653-959 | re-encoding what was decoded decodes to the same value |
| `Codec.PayloadPrefixFree` | src/proto.rs:441-451 | every proper prefix and every extension of an accepted message is refused |
| `Codec.PeekIsId` | src/proto.rs:633-640 | the peeked id is the decoded payload's id |
| `Codec.PeekAfterEncode` | src/proto.rs:633-640 | peeking into an encoding gives the payload's id |
| `Codec.FrameRoundTrip` | src/proto.rs:453-570 | a frame comes back from the wire if and only if it is within the limits |
| `WireLayout.PayloadLayout` | src/proto.rs:653-828 | every payload's encoding byte by byte: tag, then its parts in this order and width |
| `WireLayout.PayloadLimits` | src/proto.rs:357-451 | the limits are the integer widths, 1 MiB of UTF-8 for a text and 16 MiB for a blob |
| `WireLayout.FrameLayout` | src/proto.rs:453-514 | every frame's encoding byte by byte |
| `WireLayout.FrameLimits` | src/proto.rs:516-570 | the limits of every frame |
| `WireLayout.TextFieldIff` | src/proto.rs:410-437 | a text is read back if and only if it has at most 1 MiB and encodes some sequence of Unicode scalar values; a blob if and only if it has at most 16 MiB |
| `WireLayout.FinalTags` | src/proto.rs:642-651 | a decoded payload is a route's last if and only if its tag is 3, 4, 18 or 31 |
| `Utf8.ValidIffText` | src/proto.rs:425-428 | the accepted byte strings are exactly the encodings of sequences of Unicode scalar values, as section 3 of RFC 3629 defines them |
| `Utf8.TextIsUnique` | src/proto.rs:425-428 | no byte string encodes two of them |
| `Codec.FrameIsCanonical` | src/proto.rs:516-570 | an accepted frame re-encodes to the very same bytes |
| `Codec.FramePrefixFree` | src/proto.rs:516-570 | every proper prefix and every extension of an accepted frame is refused |
| `CodecBuffers.Encoder.Put` | src/proto.rs:300-343 | appends exactly the encoding of one field |
| `CodecBuffers.Decoder.Get` | src/proto.rs:357-437 | consumes exactly one field or refuses, as the specification does |
| `CodecBuffers.Encode` | src/proto.rs:653-828 | the buffer-filling encoder computes the specified bytes |
| `CodecBuffers.Decode` | src/proto.rs:830-959 | the cursor-moving decoder computes the specified result, refusals included |
| `Manifest.BuildManifest` | src/ctrl.rs:650-705 | the loop with the explicit stack terminates and its tables are those of the walk |
| `Manifest.VisitEnumerates` | src/ctrl.rs:665-701 | the walk meets exactly what the recursive enumeration lists, with multiplicity |
| `Manifest.BelowIsDistinct` | src/ctrl.rs:669-677 | entries of a well-named tree have pairwise distinct relative paths |
| `Manifest.ListingIsSorted` | src/ctrl.rs:669-679 | both walks meet the children of a directory each once and in the order of their paths, compared character by character |
| `Manifest.WalkListsOnce` | src/ctrl.rs:665-701 | each entry of the tree is met once and no two share a path |
| `Manifest.ManifestIsComplete` | src/ctrl.rs:650-705 | directories and links are the sorted lists of the tree's, independent of the order of the walk; each regular file has one line, with number equal to its index |
| `Manifest.ParentsComeFirst` | src/ctrl.rs:702-704 | in the manifest every directory below the top comes after the directory that holds it |
| `Manifest.SortIsCanonical` | src/ctrl.rs:702-704 | with distinct paths the sorted table depends only on what is listed |
| `Manifest.WalkPull` | src/agent.rs:1407-1490 | the agent's recursive walk sends its entries in the specified order and numbers the files in that order |
| `Manifest.NumberedIsFilesOf` | src/agent.rs:1470-1486 | numbering from an empty list gives each file its index |
| `Manifest.PullListsAll` | src/agent.rs:1407-1490 | the agent's walk lists exactly what the recursive enumeration lists |
| `Manifest.PullSendsParentsFirst` | src/agent.rs:1440-1458 | the agent sends every directory before what lies in it |
| `Base64.EncodeBase64` | src/util.rs:112-134 | the loop over chunks of three bytes gives the text of section 4 of RFC 4648: six bits a letter, padded |
| `Base64.DecodeBase64` | src/util.rs:88-110 | the loop with a 32-bit register that drops high bits gives the bytes of the bit string, or refuses |
| `Base64.DecodesIff` | src/util.rs:92-100 | a text decodes if and only if it has no character outside both alphabets, padding and white space |
| `Base64.ValuesExact` | src/util.rs:92-100 | six-bit values are read from a text exactly when their letters are that text, without padding and white space and with the URL letters replaced |
| `Base64.EncodedLength` | src/util.rs:112-134 | an encoding has four characters for every three bytes begun, and its padding comes last |
| `Base64.Base64RoundTrip` | src/util.rs:88-134 | decoding an encoding gives every byte string back |
| `Keys.Hex` | src/util.rs:78-86 | the loop writes two lower-case digits a byte |
| `Keys.ParseKey` | src/util.rs:31-61 | the parser yields a key if and only if the text has one of the two forms of that key, and refuses every other text |
| `Keys.KeyTextIff` | src/util.rs:31-61 | a text is the key `k` if and only if it is blanks, an optional hex prefix, 64 digits that in lower case are the hex form of `k`, blanks; or blanks, an optional hex prefix, a base64 mark, and a text that trimmed decodes to the 32 bytes `k` |
| `Keys.HexKeyExact` | src/util.rs:31-45 | with blanks around and an optional prefix, 64 digits parse to a key if and only if in lower case they are its hex form |
| `Keys.HexKeyRoundTrip` | src/util.rs:31-45 | every 32-byte key is recovered from its hex form |
| `Keys.Base64KeyRoundTrip` | src/util.rs:46-57 | every 32-byte key is recovered from its `base64:` form |

## Left out

- Noise handshake, encryption, framing over TCP and socket options: a connection is a reliable queue of byte strings.
- Executing commands, shutdown and `Bye`, status, doctor, configuration and JSON output: no property of the core depends on them.
- Directories, links, permissions, `~` and path joining on the receiver: the receiving disk is a map from directory and name to content.
- Push liveness: after the feedback drain has swallowed `PlanEnd`, the controller waits for its deadline, so only safety is claimed.
- Timeouts, backoff and lock poisoning: they appear as `Closed` events or not at all.
- Reading errors and failing callbacks inside `produce_delta`: the scan then returns an error and publishes nothing; the receiver's side of that is `Closed`.
- Files that change while they are hashed, scanned or streamed: each source and base is one byte string.
- RollingSum.NewRolling: multiplies as the release build does; `Signatures.ChosenBlocksDoNotOverflow` shows that for every block size the program chooses the product does not wrap. `Rolling` is a value that the scan reassigns, not an object.
- Routes.Step: route and connection numbers do not wrap, and the counter's start is arbitrary, so reuse of a number after 2^64 routes is not modelled.
- Routes.ResultsGoHome: speaks of frames handed to a connection's sender; what a closed connection loses is not modelled, and the error frames and `RouteCancel` frames of the cleanups are not in the log.
- Routes.NoRouteAfterCleanup: a sweep removes its routes in one step and then clears the bindings one by one, which allows more interleavings than holding the lock throughout.
- Relays.RelayCreates: this lemma and its neighbours follow one thread that no other disturbs; what holds in every interleaving is `Relays.RoutesWereGranted` and the theorems of `Routes`.
- Codec.EncodePayload: a payload is written from a list of typed fields per tag; the chained calls of the encoder are the loop of `CodecBuffers.Encoder.PutAll`. Strings are their UTF-8 bytes.
- Manifest.BuildManifest: names are distinct strings, so two names that lossy conversion would merge are not modelled, nor are reading errors; the root is a directory or a regular file.
- TreePull.TreeIsPulled: decoding of names and `safe_rel` enter as a function that puts clean paths where they belong; directories and links of the tree are listed and read but not created; modes are left at zero.
- TreePull.CleanIff: `safe_rel` also accepts paths with `.` parts or repeated slashes and normalises them; that is part of the function that places paths.
- Transfers.Transfer: for push, distinct destinations are an assumption; for pull they are derived in `TreePull`. A file skipped for its equal hash has the hash of its source and not, without trust in hashes, its size, because the code does not compare sizes there.
- PullFlow.PullNeverDeadlocks: frames of other routes sharing the connections, pings and failing transfers are not modelled.
