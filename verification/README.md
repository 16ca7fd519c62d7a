# MyMuxer, modelled and proved in Dafny

MyMuxer takes an MPEG transport stream apart and sends it out again, at a constant bit rate with new
clock stamps, at the stream's own pace, or as a proxy.  This project models the parts of it in which
bits, clocks and state interact, and proves what they are for.

| file | models |
|---|---|
| Common.dfy, Clock.dfy, TsPacket.dfy | 188-byte packets, their bit fields, the 33-bit and the 2^33 * 300 clock |
| Framing.dfy | finding packets in an arbitrarily chunked byte stream |
| Sections.dfy, MpegCrc.dfy | cutting sections into packets, putting them together again, CRC-32/MPEG-2 |
| Pointers.dfy | sections that start in the packet that ends another |
| Pat.dfy, Pmt.dfy, Sdt.dfy, Eit.dfy, DvbTime.dfy | readers and writers of the tables, dates and durations |
| Bits.dfy, AnnexB.dfy | the H.264 bit reader, Exp-Golomb codes, start codes, emulation prevention |
| Restamper.dfy, Queues.dfy, Schedule.dfy, Timers.dfy | the clock, the two output queues, the insertion of tables, their timers under any clock |
| Mux.dfy | the multiplexer as a state machine on values |
| Configured.dfy | the table functions for a configured program, and what its tables mean |
| MuxReady.dfy, MuxCbr.dfy, MuxOrder.dfy | what holds in its reachable states and in each flush at a bit rate |
| MuxFlow.dfy, MuxClock.dfy, MuxTables.dfy, MuxTimers.dfy, Origins.dfy | what holds over whole runs: of the packets, of the clock, of when tables go out and what they were made of |
| Proxy.dfy | the proxy mode |
| Handler.dfy | the multiplexer as the object it is in the source, proved to do what Mux.dfy and Proxy.dfy say |

Where the source updates things in place, so does the model: `PacketHandler`, `PcrRestamper`,
`OutBuffer`, `SectionReassembler`, `SectionReassemblerMap` and `BitReader` are classes, packet bytes are
changed in arrays, loops are loops.  Each such method is proved against a function on values, and what
the source promises is proved about those functions, for all inputs, runs and reachable states.

`dafny verify dfyconfig.toml` checks everything.

## What the proofs found

Each of these is a proved statement of the model; none is assumed away.

- `pack` keeps one packet, so a PMT that takes more than 183 bytes once rewritten never reaches a receiver
  (`Configured.PmtSizeIs`, `Origins.EveryPmtArrives`, `Configured.LongPmtIsLost`), and an SDT arrives
  exactly when provider and service name together take at most 156 bytes (`Origins.EverySdtArrives`).
- A section that starts in the packet that ends another is dropped while that other is being collected, so
  of a chain of them every other is lost (`Pointers.ChainSurvivesIff`).
- A resync leaves the insertion timers alone: a clock set back makes the tables wait for all the time it was
  set back (`Timers.SetBack`, `Timers.HourOfSilence`), at most half a cycle and a tick, over thirteen hours
  (`Timers.SilenceWithinPeriodIff`, `MuxTimers.TablesResume`).
- A packet can overtake an earlier one of the other queue (`MuxOrder.OutOfTurnHappens`), but only while the
  clock is over thirteen hours past the earlier one (`MuxOrder.OutOfTurnIsFar`); otherwise a flush at a bit
  rate merges the queues in order (`MuxOrder.FlushInOrder` has the exact guard).
- In proxy mode, until the first PAT or PMT is complete, each of its packets is answered by one of zeros,
  without a sync byte, in which only the continuity counter runs (`Proxy.ForwardedIsPacketIff`,
  `Proxy.ZerosAreSent`).
- A proxy `pkt_size` below 188 lets the frame buffer grow with every packet (`Proxy.ResidueGrows`,
  `Proxy.ResidueBoundedIff`); at constant rate such a size sends a table or nothing (`MuxCbr.FlushConserves`).
- `read_se` is right exactly for magnitudes below 2^30 (`Bits.SeRoundTripIff`), although codes for larger
  ones can be read.
- The 16-bit day count runs over on 2038-04-23 (`DvbTime.MjdOrdersDates`).
- An event description of exactly 160 bytes loses its end, as do a title of more than 79 bytes and a
  description of more than sixteen pieces; some that fit make the section too long to arrive
  (`Eit.EventArrivesIff`, `Eit.CutAt160`, `Eit.TooLongAt3936`).

## Assumptions of the run theorems

- A *calm* run is one in which no packet resynchronises the clock, the queues do not overflow, and the
  64-bit clock sum does not (`MuxClock.Calm`).  The insertion timers are not reset by a resync in the
  source, so the full schedule is claimed from the first readiness to the first resync
  (`MuxTables.TablesOnSchedule`), and after that when each table resumes (`MuxTimers.TablesResume`).
- A *steady* run is one in which the handler stays ready while it receives and its queues do not overflow,
  so that they are not cleared (`MuxFlow.Steady`).
- Merge order needs all live stamps within half a cycle, which is what makes wrapped stamps comparable.
- Preconditions of the table readers and of the bit reader say that the bytes or bits they index exist;
  the source panics or subtracts below zero otherwise.  Chunk independence of `write` excludes its
  10 MiB reset; in proxy mode there is no such limit and none is assumed.

## Model

| member | source | states |
|---|---|---|
| `Clock.DtsAfterUnwrapped` | `src/mux.rs:45-52` | two 33-bit stamps of instants less than half a cycle apart compare as the instants do, wrap or no wrap |
| `Clock.DtsSignedDeltaUnwrapped` | `src/mux.rs:54-61` | the signed delta of two wrapped stamps is the true difference, for every difference in [-2^32, 2^32) |
| `Clock.PcrSubUnwrapped` | `src/mux.rs:83-87` | PCR subtraction is subtraction modulo 2^33 * 300, for readings on either side of the wrap |
| `Clock.PcrAfterUnwrapped` | `src/mux.rs:72-77` | two PCR readings of instants less than half a cycle apart compare as the instants do |
| `Clock.PcrAddUnwrapped` | `src/mux.rs:79-81` | PCR addition is addition of the unwrapped instants |
| `TsPacket.PktWritePcr` | `src/packet.rs:138-148` | the in-place writer produces exactly the packet `WritePcr` specifies |
| `TsPacket.PcrRoundTrip` | `src/packet.rs:111-148` | every clock value below 2^33 * 300 written into a packet is read back exactly; PID and every byte outside the six clock bytes stay |
| `TsPacket.PcrPresentIffExtracted` | `src/packet.rs:111-159` | the presence test and the extractor agree on every packet |
| `TsPacket.PktSetDiscontinuity` | `src/packet.rs:193-210` | the in-place setter and its reported success are those of the specification |
| `TsPacket.SetDiscontinuityKeeps` | `src/packet.rs:175-210` | marking a discontinuity changes no byte but the flags, and of these one bit; clock, PID, counter and sync byte are read as before; the mark is read back exactly where the packet has flags to carry it |
| `TsPacket.PktNext` | `src/packet.rs:216-221` | the in-place counter step is the specification's |
| `TsPacket.NextCcSteps` | `src/packet.rs:216-221` | the counter goes up by one modulo 16 and nothing else in the packet changes |
| `TsPacket.StampRoundTrip` | `src/packet.rs:25-109` | a 33-bit stamp laid out over five bytes with marker bits is read back |
| `TsPacket.PtsDtsRoundTrip` | `src/packet.rs:25-109` | the stamps of every PES header the reader accepts (audio, video or private stream, with or without DTS, at any adaptation-field length) are recovered; where there is no DTS or no room for it, the PTS stands for it |
| `Framing.SyncBuffer` | `src/mux.rs:114-135` | the loop terminates and returns what `Hunt` specifies |
| `Framing.HuntIsLeast` | `src/mux.rs:114-135` | the hunt stops at the least offset with a sync byte at +0, +188 and +376; failing that it keeps under three packets; every position it dropped could never have become a sync point |
| `Framing.HuntFindsIfPresent` | `src/mux.rs:114-135` | it reports success if and only if the buffer holds a sync point |
| `Framing.PassKeepsCanonical` | `src/mux.rs:664-802` | one pass takes a prefix of the canonical framing of whatever the buffer may still be extended to, and leaves the rest of that framing intact |
| `Framing.RunKeepsCanonical` | `src/mux.rs:489-503` | the same after any number of calls, for every continuation of the stream |
| `Framing.ChunksDoNotMatter` | `src/mux.rs:974-1054` | for every split of a stream into calls the packets taken are a prefix of its canonical framing and the buffer is a suffix of it; nothing is missing unless the last call left on a loss of sync |
| `Framing.ChunkIndependence` | `src/mux.rs:489-503` | the same for `write`, for every split that never reaches the 10 MiB limit |
| `Framing.TwoChunkings` | `src/mux.rs:664-802` | two splits of one stream never disagree on a packet, and agree completely if both end in sync |
| `Framing.CatchesUp` | `src/mux.rs:664-802` | after a loss of sync, at most as many further calls as there are buffered bytes, even empty ones, complete the canonical framing |
| `Mux.WriteFrames` | `src/mux.rs:489-802` | one call of `write` handles, one after the other, exactly the packets `Framing.Write` finds, keeps its buffer, and then settles; nothing else happens to the state |
| `Mux.HandledByIsRun` | `src/mux.rs:489-802` | over any run of calls the packets handled are those of `Framing.Run` |
| `Mux.HandlesCanonical` | `src/mux.rs:489-802` | however the input is cut, below the 10 MiB limit, the multiplexer handles a prefix of its canonical framing, and all of it if it ends in step |
| `Sections.AcceptSafe` | `src/psi/mod.rs:35-111` | after any packet at all the reassembler holds under 3 bytes and expects no length, or holds less than the length its own header declares, which it expects (always under 4098 bytes), and a section it returns has exactly its declared length |
| `Sections.RunSafe` | `src/psi/mod.rs:117-137` | the same for the per-PID map over every run of arbitrary packets |
| `Sections.SectionReassembler.Take` | `src/psi/mod.rs:85-105` | `take_complete` as specified |
| `Sections.SectionReassembler.Push` | `src/psi/mod.rs:35-83` | the class does on every packet, its own PID's or not, in sync or not, exactly what `Accept` specifies |
| `Sections.SectionReassemblerMap.Push` | `src/psi/mod.rs:124-136` | the map of mutable reassemblers implements the per-PID table, with no two PIDs sharing an object |
| `Sections.PackMulti` | `src/psi/mod.rs:147-177` | the packing loop and its `&mut cc` produce the specified packets and counter |
| `Sections.PackShape` | `src/psi/mod.rs:147-177` | a section of any length becomes ceil((length + 1) / 184) packets of its PID with consecutive counters modulo 16, of which exactly the first has the start flag |
| `Sections.Independent` | `src/psi/mod.rs:117-137` | on each PID the map behaves as one reassembler fed with that PID's packets, whatever lies between |
| `Sections.OneSection` | `src/psi/mod.rs:35-177` | a packed section pushed into a reassembler in any state comes out whole, on its last packet, and leaves the reassembler empty |
| `Sections.RoundTrip` | `src/psi/mod.rs:35-177` | any list of well-sized sections per PID, packed, with all PIDs' packets and any others mixed in any order: a map in any state returns each PID's sections, in order, each on its last packet |
| `Sections.SurvivesIffWellSized` | `src/psi/mod.rs:85-105` | a section comes back from packing and reassembly if and only if its length field tells the truth |
| `Sections.OnePacketIff` | `src/psi/mod.rs:139-145` | through `pack`, which keeps one packet, a well-sized section arrives if and only if it has at most 183 bytes |
| `Sections.OnePacketIsShort` | `src/psi/mod.rs:139-145` | no section of more than 183 bytes ever arrives through `pack`, well-sized or not, whatever the reassembler held |
| `Pointers.ChainReturns` | `src/psi/mod.rs:35-111` | of sections packed without a gap, each starting behind the end of the one before in the same packet: from any state exactly these come back, in order: a section whose first packet completes one that is being collected is lost, every other comes back |
| `Pointers.ChainSurvivesIff` | `src/psi/mod.rs:35-111` | such a chain comes back whole if and only if every section but the last ends with its last packet; if every one runs on into the first packet of the next, exactly every other section comes back |
| `Sections.AcceptIgnoresCc` | `src/psi/mod.rs:35-83` | what a reassembler does with a packet does not depend on its continuity counter |
| `Sections.SealedIsRight` | `src/psi/mod.rs:211-221` | a section finished by a writer declares its true length if and only if 12 bits can hold it, and satisfies a receiver's CRC test in any case |
| `MpegCrc.ReceiverAccepts` | `src/psi/mod.rs:207-215` | for all data: the CRC-32/MPEG-2 of the data followed by its own CRC is zero |
| `Bits.BitReader.Refill` | `src/pes/golomb.rs:65-78` | refilling the 64-bit cache leaves the sequence of remaining bits unchanged and makes at least 57 of them, or all, available |
| `Bits.BitReader.ReadBits` | `src/pes/golomb.rs:80-93` | for n in 1..32 with n bits left: returns the next n bits, most significant first, and consumes exactly those |
| `Bits.BitReader.ReadUe` | `src/pes/golomb.rs:101-116` | reads the Exp-Golomb code at the front of the remaining bits and consumes exactly it |
| `Bits.BitReader.ReadSe` | `src/pes/golomb.rs:118-126` | the same for signed codes, in wrapping 32-bit arithmetic |
| `Bits.BitReader.ReadFields` | `src/pes/golomb.rs:54-126` | reading the encoding of any list of fixed, ue(v) and se(v) fields returns the list and leaves what follows untouched |
| `Bits.UeRoundTrip` | `src/pes/golomb.rs:101-116` | every value up to 2^32 - 2 is read back from its code (section 9.1 of ITU-T H.264) |
| `Bits.SeRoundTripIff` | `src/pes/golomb.rs:118-126` | a signed value survives the 32-bit arithmetic of `read_se` if and only if its magnitude is below 2^30 |
| `AnnexB.FindSpsIn` | `src/pes/es_parsers.rs:168-214` | the index-based scanner returns what the recursive reference scanner does |
| `AnnexB.EbspToRbsp` | `src/pes/es_parsers.rs:216-235` | the loop returns the unescaped payload of the specification |
| `AnnexB.UnescapeEscape` | `src/pes/es_parsers.rs:216-235` | removing emulation prevention undoes inserting it, for every payload (section 7.4.1 of ITU-T H.264) |
| `AnnexB.EscapedIsConforming` | `src/pes/es_parsers.rs:216-235` | an escaped payload behind a nonzero header contains no start-code prefix and does not end in zero |
| `AnnexB.FindsFirstSps` | `src/pes/es_parsers.rs:168-214` | in any byte stream of conforming units with any zero padding, the scanner returns the payload of the first unit of type 7, or nothing if there is none (Annex B of ITU-T H.264) |
| `AnnexB.SpsRecovered` | `src/pes/es_parsers.rs:168-235` | scan and unescape together recover the first sequence parameter set byte for byte, and find none if there is none |
| `AnnexB.ParseSpsHead` | `src/pes/es_parsers.rs:239-260` | the head of `parse`, from byte stream to profile, level and identifier, returns the values that were encoded |
| `Pmt.AnalyzePmt` | `src/psi/pmt.rs:20-51` | the index loops return the summary of the parsed table |
| `Pmt.PatchPmtSection` | `src/psi/pmt.rs:88-154` | the byte-appending rewriter builds exactly the encoding of the rewritten table |
| `Pmt.ParseEncode` | `src/psi/pmt.rs:20-154` | every table that fits its length fields is read back from the section written for it |
| `Pmt.RewritingPreservesMeaning` | `src/psi/pmt.rs:88-154` | from any section, with any mapping: the rewritten section reads back as the rewritten table |
| `Pmt.StrippingPreservesTheRest` | `src/psi/pmt.rs:156-178` | after stripping, exactly the descriptors other than CA remain, byte for byte and in order |
| `Pmt.AnalysisOfRewritten` | `src/psi/pmt.rs:20-154` | analysing the rewritten section gives the requested PCR PID and the mapped streams in original order with their languages, and no conditional access when stripping |
| `Pmt.RewritingTwiceChangesNothing` | `src/psi/pmt.rs:88-178` | with mappings that are the identity on the PIDs they keep, rewriting again changes no byte |
| `Pmt.RewrittenIsWellSized` | `src/psi/pmt.rs:143-153` | a well-formed section never grows, its new length field is right, and a receiver's CRC test accepts it |
| `Pmt.SortedUnique` | `src/psi/pmt.rs:180-202` | a multiset has one sorted arrangement, so comparing sorted lists compares multisets, however the sort breaks ties |
| `Pmt.IsPmtChanged` | `src/psi/pmt.rs:180-202` | two tables differ if and only if PCR PID or multiset of (type, PID) pairs differs |
| `Sdt.AnalyzeSdt` | `src/psi/sdt.rs:14-62` | the nested loops return the services of the reference parser |
| `Sdt.PatchSdtSection` | `src/psi/sdt.rs:107-153` | the byte-appending writer builds the specified section |
| `Sdt.PrepareSdt` | `src/psi/sdt.rs:155-186` | the packet built is the packed section for the configured service |
| `Sdt.ServicesOfPrepared` | `src/psi/sdt.rs:14-153` | as long as both names together have at most 250 bytes, the analyser finds exactly the one service written: same identifier, type and names |
| `Sdt.PreparedIsRight` | `src/psi/sdt.rs:107-153` | the section's length field is right if and only if the names have at most 4071 bytes; its CRC always is |
| `Sdt.SdtPipeline` | `src/psi/sdt.rs:14-186` | from configuration through packet, reassembler in any state and analyser: the section arrives if and only if both names together take at most 156 bytes, and then shows exactly the configured service |
| `DvbTime.NextDayCountsOne` | `src/psi/mod.rs:253-266` | for every Gregorian date from 1583 on, the next day's count is one more, across months, leap days and centuries (Annex C of ETSI EN 300 468) |
| `DvbTime.MjdCountsDays` | `src/psi/mod.rs:253-266` | the value is the number of days since 1858-11-17, modulo 2^16 |
| `DvbTime.MjdOrdersDates` | `src/psi/mod.rs:253-266` | from 1858-11-17 to 2038-04-22 the 16-bit value orders dates as the calendar does; the day after, it is 0 |
| `DvbTime.DurationRoundTripIff` | `src/psi/mod.rs:246-283` | an encoded duration is read back if and only if it is below 100 hours |
| `Eit.CutText` | `src/psi/eit.rs:12-34` | the loop that shrinks `remaining` yields the specified pieces |
| `Eit.ChunksOfText` | `src/psi/eit.rs:12-34` | the pieces concatenate to the text, split no character, have 1 to 246 bytes, and all but the last have at least 243 |
| `Eit.BuildExtendedEventDescriptors` | `src/psi/eit.rs:12-63` | the loop builds the specified descriptors |
| `Eit.ExtendedEventsShape` | `src/psi/eit.rs:12-63` | for any description at most sixteen descriptors of legal length, numbered in order under one last number; their texts are the whole description if and only if sixteen pieces suffice |
| `Eit.PresentFollowingSection` | `src/psi/eit.rs:76-154` | the byte-appending builder builds the specified section |
| `Eit.SectionSurvivesIff` | `src/psi/eit.rs:76-154` | the section's length field is right, and it comes back from packing and reassembly, if and only if title and description make a descriptor loop of at most 4068 bytes (`LoopSize`, computed from the two texts) |
| `Eit.ShownWholeIff` | `src/psi/eit.rs:88-133` | in the loop a receiver finds the whole title if and only if it has at most 79 bytes, and the whole description if and only if it has at most 159, or more than 160 and at most sixteen pieces |
| `Eit.EventArrivesIff` | `src/psi/eit.rs:76-154` | for every event: a receiver gets the section and shows title and description as they are if and only if both fit and the loop has at most 4068 bytes |
| `Eit.CutAt160` | `src/psi/eit.rs:88-100` | a description of 160 letters loses its last one |
| `Eit.TooLongAt3936` | `src/psi/eit.rs:102-154` | one of 3936 letters fits sixteen pieces, yet its section never arrives |
| `Eit.LongTextArrives` | `src/psi/eit.rs:76-154` | any title and any description of 161 to 3835 bytes: length at most 4093, survives packing and reassembly, and a receiver that parses the loop finds the whole description |
| `Restamper.PcrRestamper.CurrentPcr` | `src/mux.rs:1448-1463` | `get_pcr`, with its 64-bit wrap, as specified |
| `Restamper.PcrRestamper.ProcessPacket` | `src/mux.rs:1427-1438` | the in-place restamp and rebase, as specified |
| `Restamper.ProcessFacts` | `src/mux.rs:1427-1446` | exactly the packets with a PCR are stamped while the clock is defined; every byte outside the six clock bytes stays; what is written is what the clock reads, and is read back; the clock is rebased to it |
| `Restamper.StampTracks` | `src/mux.rs:1427-1463` | one rebase keeps the accuracy invariant, losing less than one tick |
| `Restamper.StampAccuracy` | `src/mux.rs:1407-1463` | over a whole run without resync: the m-th stamp, after n packets, reads back as the start plus s modulo the cycle, with bitrate * s <= n * 188 * 8 * 27000000 < bitrate * (s + m) |
| `Queues.OutBuffer.PushBack` | `src/mux.rs:203-213` | appends, and keeps both counters equal to the true counts |
| `Queues.OutBuffer.PopFront` | `src/mux.rs:215-226` | removes the front, keeps both counters true; the saturating subtractions are proved never to saturate |
| `Queues.DrainInterleaves` | `src/mux.rs:1346-1359` | any number of pops returns an interleaving of prefixes of the two queues and leaves the matching suffixes |
| `Queues.DrainSorted` | `src/mux.rs:1346-1359` | while all live stamps lie within half a cycle and each queue is in order, what is popped is in order across both queues and across the wrap |
| `Queues.MergeOrder` | `src/mux.rs:1346-1359` | both together: a nondecreasing interleaving of prefixes |
| `Queues.ReadyIsDueMinimum` | `src/mux.rs:1318-1376` | a packet taken for sending that is not marked discontinuous is the lesser of the two heads and not later than clock plus jitter |
| `Schedule.NeverTooSoon` | `src/mux.rs:1058-1133` | two copies of the same table are always strictly more than its period apart, however far the clock jumps between flushes |
| `Schedule.NoStarvation` | `src/mux.rs:1058-1133` | with at most 50 ms from flush to flush a due PAT goes out at once, a due PMT within one further flush, a due SDT within two |
| `Schedule.AgeBound` | `src/mux.rs:1058-1133` | after every flush each table has gone out (PMT and SDT from the second and third on) and is not older than its period and the none, one or two steps it may have had to give way |
| `Schedule.CopiesDifferInCounter` | `src/mux.rs:1058-1133` | each flush sends at most one packet, and the n-th copy of a table is the cached packet with its counter n further, modulo 16, and nothing else changed |
| `Schedule.EveryCopyArrives` | `src/mux.rs:1058-1133` | each copy, whatever its counter, gives a receiver in any state the section that was packed, if and only if that section fits one packet |
| `Mux.AdjustKeeps` | `src/mux.rs:480-487` | `buffer_adjust` terminates, touches only the queues, ends within the configured duration, and never empties a video queue that was not empty |
| `MuxReady.ReadyCheckKeeps` | `src/mux.rs:802-901` | the one transition into readiness: tables set and unchanged, rate known, video queue nonempty and within its duration, clock exactly 300 ms behind its first packet |
| `MuxReady.WriteKeeps` | `src/mux.rs:489-802` | receiving any chunk in any state keeps the invariant |
| `MuxReady.FlushCbrKeeps` | `src/mux.rs:1201-1275` | a flush keeps it; it sends if and only if the handler is ready and the stream is not scrambled; all it sends starts with the sync byte |
| `MuxReady.FlushVbrKeeps` | `src/mux.rs:1155-1199` | so does a flush without a bit rate |
| `MuxReady.ReachableStates` | `src/mux.rs:489-1275` | in every run over any input: ready implies all tables set, PAT and PMT not changed, rate nonzero, clock defined; every packet ever sent is a transport packet |
| `MuxCbr.FlushConserves` | `src/mux.rs:1201-1309` | a flush sends exactly pkt_size / 188 packets (one table at most if pkt_size < 188): first the table the scheduler picks, then queue packets byte for byte as they were received but for clock bytes and discontinuity mark, and null packets; the five counters grow by exactly the packets of their kind, the queues lose from the front exactly what was sent from them |
| `MuxCbr.LeadTimeWindow` | `src/mux.rs:1277-1316` | in every reachable state each payload packet of a flush leaves with its DTS in [-89, 72089] ticks of the clock, exactly 27000 after a resync, for all wrapped values |
| `MuxOrder.FlushInOrder` | `src/mux.rs:1201-1359` | while all stamps lie in half a cycle, each queue is in order and nothing is marked: a flush at a bit rate sends the packets of both queues merged by their stamps and leaves none behind that is before one it sent, if and only if no slot of it finds the clock late (`LateClock`) |
| `MuxOrder.InTurnIff` | `src/mux.rs:1318-1386` | a slot sends from neither queue or from the one whose head is first by its stamp, exactly unless the clock is late for the video head and not for the audio head behind it |
| `MuxOrder.OutOfTurnIsFar` | `src/mux.rs:1318-1386` | being late takes a clock, margin included, that is more than half a cycle (over thirteen hours) past the head that is overtaken |
| `MuxOrder.OutOfTurnHappens` | `src/mux.rs:1318-1330` | stamps and a clock with which the later head is taken first |
| `MuxClock.WriteLeavesClock` | `src/mux.rs:489-802` | receiving leaves clock and cached tables of a ready handler alone unless its queues overflow |
| `MuxClock.CalmClock` | `src/mux.rs:1201-1309` | over a calm run of the multiplexer the packets sent are slots of a clock that only ticks and stamps |
| `MuxClock.ClockAccuracy` | `src/mux.rs:1201-1309` | the PCR error bound for the multiplexer itself: over any calm run of writes and flushes, for every stamped packet sent, table, null and payload packets all counted |
| `MuxTables.TablesOnSchedule` | `src/mux.rs:489-1275` | let a new handler receive any chunks until it is ready, then run it calmly at a rate at which a datagram takes at most 50 ms: there are instants, starting at the clock's start value, in steps of at most 50 ms and congruent to what the clock reads at each flush, such that each flush sends of the tables what the scheduler picks at its instant; two copies of a table are more than its period apart, and each table is always recent in the sense of `Schedule.AgeBound` |
| `MuxTables.OneTimeline` | `src/mux.rs:1448-1463` | there is only one such list of instants: the readings of the clock determine it |
| `MuxTimers.TablesResume` | `src/mux.rs:489-1316` | let a handler receive anything and send it at a bit rate, with any number of resyncs, until it is ready, then run it calmly: each flush sends what the scheduler decides on the instants its clock runs through, no table before the silence its old timer imposes is over, to the tick; and then the PAT at once, the PMT within one further flush, the SDT within two |
| `Timers.DueAfterSilence` | `src/mux.rs:1058-1133` | for any timer and any clock value: running on, the clock finds the table not due for exactly `Silence` ticks, due then, and, if it had to wait, due for half a cycle |
| `Timers.SilenceWithinPeriodIff` | `src/mux.rs:1058-1133` | that is at most the period and a tick if and only if the clock is set to less than half a cycle and a period after the last copy; it is never more than half a cycle and a tick |
| `Timers.SetBack` | `src/mux.rs:1311-1316` | a clock set back makes a table wait for all the time it was set back, and its period |
| `Timers.HourOfSilence` | `src/mux.rs:1311-1316` | an input: the clock set back by an hour after a PAT, and no PAT for an hour and 100 ms |
| `Timers.SilentThenSent` | `src/mux.rs:1058-1133` | from any cache on, a table that has to wait goes out with no flush before its silence is over and then with that flush or, PMT and SDT, one or two further ones, whatever the other timers are |
| `MuxFlow.AllAdmitted` | `src/mux.rs:725-802` | what a ready handler puts on a queue are exactly the clear packets received on its PIDs, as they were received and in that order, on each PID from its first stamp on; none is left out, none added |
| `MuxFlow.NothingIsLost` | `src/mux.rs:489-1275` | over any steady run in which stamps are known on every PID: the packets that were on a queue and then all clear packets received on its PIDs are, in order, the packets taken from it and then those still there |
| `MuxFlow.FlowConserved` | `src/mux.rs:489-1275` | over any steady run of writes and flushes, at a bit rate or without, on each queue: what was there and what was put there is, in order, what was taken and what is still there |
| `MuxFlow.FreeFlushMerges` | `src/mux.rs:1155-1199` | without a bit rate a flush sends the tables and then the merge of the two queues, in order while the stamps are comparable |
| `Pat.AnalyzePat` | `src/psi/pat.rs:10-26` | the index loop returns the programs of the specification |
| `Pat.PatchPatSection` | `src/psi/pat.rs:28-52` | the byte-appending rewriter builds the specified section |
| `Pat.PatchedIsRight` | `src/psi/pat.rs:28-52` | the rewritten section lists exactly the programs asked for, keeps the rest of the header, declares its true length if and only if 12 bits can hold it, and passes the checksum test |
| `Pat.ChangedIff` | `src/psi/pat.rs:54-70` | different entries always count as changed, however the unstable sort breaks ties; the same entries in another order do not, if no number stands for two programs |
| `Configured.RewritePat` | `src/mux.rs:518-526` | the step `process_pat` takes with the first PAT is the table function of the configured program |
| `Configured.RewritePmt` | `src/mux.rs:560-579` | the step `process_pmt` takes with the first PMT, identity mapping and CA flag included, is the table function of the configured program |
| `Configured.PrepareService` | `src/mux.rs:611-645` | the choice of service, type and names `process_sdt` makes is the table function of the configured program |
| `Configured.PmtSizeIs` | `src/psi/pmt.rs:88-178` | the rewritten PMT takes 16 bytes, the kept program descriptors, and 5 bytes and the kept descriptors for each configured stream of the received one |
| `Configured.LongPmtIsLost` | `src/psi/mod.rs:139-145` | a PMT, well-sized and with its loops in front of its checksum, that no receiver gets once rewritten, whatever is configured |
| `Origins.HandleRoutes` | `src/mux.rs:664-790` | exactly the clear packets on the PID of a table that is not ready, or of a handler that is not, are reassembled for that table; any other packet leaves all tables alone |
| `Origins.ReceivedIsReassembled` | `src/mux.rs:489-802` | over any run the sections received are those that the map of reassemblers returns when it is fed exactly these packets, in order |
| `Origins.AlwaysCached` | `src/mux.rs:513-662` | in every run: a table is set if and only if a section was received for it; what later ones are compared with is the first one received; the cached packet is, but for its counter, what was made of that one, the SDT of one that was received or of none with the PAT made of the first one |
| `Origins.LabelsAreTables` | `src/mux.rs:1058-1275` | the packets of a run that are labelled as tables are exactly those that `flush_psi_packets` sent |
| `Origins.EveryTableIsMade` | `src/mux.rs:489-1275` | whatever the table functions: each table packet among the packets a run sends was made, as above, of sections the run received |
| `Origins.EveryPatArrives` | `src/mux.rs:513-556` | every PAT packet any run sends gives a receiver in any state a table with exactly the configured program, in the transport stream of the first PAT that run received |
| `Origins.EveryPmtArrives` | `src/mux.rs:558-609` | every PMT packet any run sends gives a receiver in any state the rewriting of the first PMT that run received if and only if the size that table and the configured PIDs give it (`Configured.PmtSize`) is at most 183; the rewriting has its PCR PID and exactly its configured streams, in order |
| `Origins.EverySdtArrives` | `src/mux.rs:611-662` | every SDT packet any run sends carries, but for its counter, the section about the configured service in the transport stream of the first PAT received; type and names are those configured or else those of that service in an SDT the run received, or the defaults; a receiver in any state gets that section, and shows exactly that service, if and only if the names take at most 156 bytes |
| `Proxy.AllConserves` | `src/mux.rs:974-1054` | from any state over any packets: every datagram has exactly pkt_size bytes, and datagrams plus frame are, in order, the packets forwarded |
| `Proxy.ProxyOutput` | `src/mux.rs:974-1056` | the same over every run of calls, with less than a datagram left over if pkt_size is at least 188 |
| `Proxy.ResidueBoundedIff` | `src/mux.rs:1036-1047` | the frame stays below pkt_size on every input if and only if pkt_size is at least 188 |
| `Proxy.ResidueGrows` | `src/mux.rs:1036-1047` | with a smaller one every packet forwarded leaves 188 - pkt_size bytes behind |
| `Proxy.ProxyChunking` | `src/mux.rs:974-1056` | however one stream is cut into calls, the datagrams of one run begin those of the other |
| `Proxy.ForwardsPayload` | `src/mux.rs:1006-1032` | the payload forwarded is the payload received, unchanged and in order, less exactly what arrives while a table is dirty |
| `Proxy.CleanKeepsAll` | `src/mux.rs:1006-1032` | if no table ever is dirty, nothing is missing |
| `Proxy.ForwardedIsPacketIff` | `src/mux.rs:1006-1032` | a forwarded packet is a transport packet of the PID of the one it answers unless that belongs to a PAT or PMT that is not there yet and does not complete it; then, and only then, zeros with a running counter are sent |
| `Proxy.ZerosAreSent` | `src/mux.rs:1006-1022` | an input that shows it: for n PAT packets without payload a new handler sends n packets of zeros with the counter at 1, 2, 3 and so on |
| `Proxy.AlwaysMarked` | `src/mux.rs:1006-1032` | the states `ForwardedIsPacketIff` speaks of are all states a run can reach from a new handler (`InitialMarked`) |
| `Handler.PacketHandler.New` | `src/mux.rs:315-412` | an output with more than one program is refused; otherwise the object made is the initial state of the value machine |
| `Handler.PacketHandler.BuffersClear` | `src/mux.rs:463-478` | makes of the whole state what `Mux.BuffersClear` says |
| `Handler.PacketHandler.BufferAdjust` | `src/mux.rs:480-487` | the loop is the recursive specification |
| `Handler.PacketHandler.Write` | `src/mux.rs:489-503` | one call on the object, with its queues, reassemblers and clock, makes of its state what `Mux.Write` says |
| `Handler.PacketHandler.ProcessPat` | `src/mux.rs:513-556` | reassembly over the mutable map, first PAT rewritten and cached, later ones compared; the table functions themselves are those of the configuration, which module Configured gives for a program |
| `Handler.PacketHandler.ProcessPmt` | `src/mux.rs:558-609` | the same for the PMT, with the table functions of module Configured |
| `Handler.PacketHandler.ProcessSdt` | `src/mux.rs:611-662` | the same for the SDT, with the table functions of module Configured |
| `Handler.PacketHandler.TakePackets` | `src/mux.rs:664-802` | the pointer loop handles, in order, the packets framing finds, and leaves the specified buffer |
| `Handler.PacketHandler.CheckReady` | `src/mux.rs:804-901` | the readiness decision, as specified |
| `Handler.PacketHandler.FlushPsiPackets` | `src/mux.rs:1058-1133` | the three blocks together are the scheduler's one decision |
| `Handler.PacketHandler.FlushPacketForCbr` | `src/mux.rs:1201-1275` | the bytes returned and the whole new state are those of `Mux.FlushCbr` |
| `Handler.PacketHandler.FlushPacketForVbr` | `src/mux.rs:1155-1199` | the bytes returned and the whole new state are those of `Mux.FlushVbr` |
| `Handler.PacketHandler.ProcessPacket` | `src/mux.rs:1277-1316` | drift test, marking, resync and restamping in place, as specified |
| `Handler.PacketHandler.GetAOrVReady` | `src/mux.rs:1318-1330` | the nested conditions are the specified choice, for every pair of queues |
| `Handler.PacketHandler.GetAOrVDrain` | `src/mux.rs:1332-1344` | as specified, without the exception for discontinuities |
| `Handler.PacketHandler.ProxyPacket` | `src/mux.rs:974-1056` | datagrams and the whole new state are those of `Proxy.ProxyChunk` |

## Left out

- Workers, sockets, HTTP, HLS, the supervisor and its locks, logging, statistics, JSON: input, output and plumbing around the core.
- BISS descrambling: a foreign call; packets are taken to be clear, and the test for scrambled ones is modelled.
- Audio and video elementary stream parsers other than the H.264 parameter set, and the picture-size fields of that set: field lists without an invariant.
- The table functions are parameters of the multiplexer (`Mux.Tables`), since most of what is proved about it holds whatever they answer; `Configured.TablesFor` gives the real ones. On sections too short for the source's indexing, where it panics, these change nothing.
- Character set decoding (`parse_dvb_string` tells which bytes it decodes and how, not the characters), trimming of names, `parse_iso_639_2`: names and languages are bytes, and `Configured.Program.shown` stands for decoding and trimming a received name.
- The unstable sort of `is_pat_changed` is any function that sorts by program number.
- `empty_present_following_section`, TOT and TDT, time zones and the wall clock: dates and offsets are inputs.
- Floating-point thresholds (`min_limit`, `max_limit`, the probed bit rate, `max_buff_size`): arbitrary nonnegative parameters of `Mux.Config`. The two floors in `mjd` are taken as floors of the exact products.
- `flush_frame`, which concatenates the packets of `flush_packet_for_vbr` up to a buffer size.
- Continuity-error counting (`check_cc`) and the marks and unmarks of the helper: they do not feed back.
- An output without a program in multiplexing mode: the source panics there; `Mux.Config` always has one, and only the proxy asks (`hasProgram`).
- The number of bytes the output reports as sent by the proxy: the datagrams handed over are modelled, not the output's answers.
- Cached table packets are values in a field rather than arrays; what is written to them is the same.
- `total_packets_sent` is unbounded in the model; the source's `u64` would need 2^64 packets without a stamp to differ. The 128-bit product and the 64-bit sum of the clock are modelled as they are.
- MuxTables.TablesOnSchedule: covers the time from a handler's first readiness to its first resync; after a resync the old timers stand against a new clock, and what then holds is `MuxTimers.TablesResume`.
- MuxTimers.TablesResume: what was sent before is sent at a bit rate; after free-running flushes the base of the clock may be a stamp of the stream that is not below the cycle.
