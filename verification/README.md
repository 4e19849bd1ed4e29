# Bluetooth audio and transport: a verified model

This project models the algorithmic core of the tree's Bluetooth code and proves what it is for.

* **SBC and mSBC codec** (`msbc.c`; A2DP Appendix B, sections 12.4 to 12.9, and HFP 1.6 section 5.7.4).
  `BitAllocation` is the slicing allocator, for any number of subbands and any bit needs.
  `Quantiser` is the fixed-point quantiser and its inverse. `Crc8` is the checksum, table-driven and bit by bit.
  `SbcFrame` and `SbcFormat` say what a frame's bits are, as values; `BitWriter`, `SbcPacker` and `SbcParser`
  are the packer and the parser as they run, proved equal to that format. `Synthesis` is the decoder's filter,
  a ring with a mirror, against the standard's shift register. `Decoder` is parser, filter and byte order in one call.
* **Packet loss concealment** (`sbcplc.c`): `Concealment`, a history buffer extended and shifted in place, against the
  stream of frames it stands for.
* **mSBC receive path** (`btremoted.c`): `PacketTimeline` says what a run of packets comes to, with its gaps and its
  damaged frames; `Receiver` takes the packets from the link to the client, concealing what was lost, `OutputBuffer`
  converts byte order and holds what the client is owed, `SilentFrame` is the frame decoded in place of a lost one
  and `SilentAudio` what it decodes to.
* **H4 reassembly** (`hci_packetizer.cc`, `h4_protocol.cc`): `H4`.
* **Controller initialisation** (`radiomod.c` with `vendor_interface.cc`): `InitProtocol`, a state machine over the
  atomic steps of worker, event thread and terminator; `InitReplies`, what becomes of a reply in every interleaving, and
  `InitTermination`, what becomes of a termination request.

`Arith`, `Sequences` and `Bits` hold the arithmetic, the facts about sequences and the bit strings the others share.

Code that works in place is a method or a class here, proved against a specification function or invariant; what the
code is meant for is then proved about those. Three properties that one would expect are false of the code, and each is
stated as an equivalence with the exact condition: requantising a decoded sample returns its code
(`Quantiser.AllCodesStableIff`), the length formula gives the packed length (`SbcFormat.HeaderLengthIff`), and a
stream of well-formed packets is delivered completely (`H4.PacketsDelivered`). Others turn on how a run starts or goes,
and are equivalences too. For the receive timeline it is the gaps and the packets that do not decode
(`PacketTimeline.TimelineKept`, `PacketTimeline.DecodesIff`), for the client's bytes the room in the buffer
(`Receiver.FitsIff`). The controller's callback slot is never emptied between thread runs,
and `InitProtocol.Clean` is the condition on the slot, the status and the script at the start under which at most one
command is outstanding (`InitProtocol.OneOutstandingIff`), every callback takes one event (`InitProtocol.CalledOnceIff`)
and a reported success can be trusted (`InitProtocol.SuccessTrustedIff`). From every start commands are issued in
order, one result is reported, every event is routed once and every reply wakes the worker that waits for it
(`InitReplies.ReplyWakes`). That a reply also reaches the callback fails for some of the starts that are not clean, and
`InitReplies.Misleading` says exactly which (`InitReplies.RepliesReachIff`). Which starts can reach success at all is
`InitProtocol.CompletableIff`, and where a termination request is in time `InitTermination.TerminationHonouredIff`.

Per-channel tables `[channel][subband]` are one sequence here, channel after channel; the stereo allocator's order,
both sides of each subband in turn, is the sequence interleaved. A buffer index the code checks against `len` in bytes
is a bit position here.

## Model

| member | source | states |
|---|---|---|
| BitAllocation.SliceStep | mediatek/bluetooth/btremoted/msbc.c:203-213 | lowering the level by a slice adds exactly what the loop counted for it, so the running bit count has a closed form |
| BitAllocation.SlicingStopsIff | mediatek/bluetooth/btremoted/msbc.c:203-213 | there is a slice at which the loop stops if and only if the bitpool is at most 16 bits a subband, the guard of packer and parser |
| BitAllocation.LeftoverAtMostOne | mediatek/bluetooth/btremoted/msbc.c:230-239 | when the second pass ends its count is the sum of the bits and at most one bit short of the bitpool |
| BitAllocation.AllocationShape | mediatek/bluetooth/btremoted/msbc.c:220-247 | every subband ends with its level, plus its contribution or nothing, plus at most the one bit of the third pass, which goes to the first with room |
| BitAllocation.AllocationExact | mediatek/bluetooth/btremoted/msbc.c:164-356 | for any needs and any bitpool within the guard every grant lies in 0..16 and they sum to exactly the bitpool |
| BitAllocation.AllocationFair | mediatek/bluetooth/btremoted/msbc.c:220-247 | a subband with the larger need is never more than one bit behind, and not behind at all if the third pass gave nothing |
| BitAllocation.SingleBitOnlyFromThirdPass | mediatek/bluetooth/btremoted/msbc.c:230-247 | a single bit is only ever handed out by the third pass |
| BitAllocation.AllocateBits | mediatek/bluetooth/btremoted/msbc.c:200-247 | the loops over the arrays compute the allocation the lemmas are about |
| BitAllocation.LowerSlice | mediatek/bluetooth/btremoted/msbc.c:200-218 | the slicing loop ends at the level that spends as much of the pool as whole slices can, with its count |
| BitAllocation.CountSlice | mediatek/bluetooth/btremoted/msbc.c:207-212 | one round counts the bits of the next slice |
| BitAllocation.RunSecondPass | mediatek/bluetooth/btremoted/msbc.c:230-239 | the second pass over the array |
| BitAllocation.RunThirdPass | mediatek/bluetooth/btremoted/msbc.c:241-247 | the third pass over the array |
| SbcFrame.NeedMonotone | mediatek/bluetooth/btremoted/msbc.c:174-197 | in both allocation methods a larger scale factor never needs fewer bits, and a silent subband fewer than any other |
| SbcFrame.NeedsAre | mediatek/bluetooth/btremoted/msbc.c:174-197 | by SNR the need of a subband is its scale factor; by loudness -5 if that is zero, and otherwise half of what it is above the standard's offset, or all it is below |
| SbcFrame.OffsetsAre | mediatek/bluetooth/btremoted/sbc_tables.h:28-41 | the offset tables, entry by entry |
| SbcFrame.Interleaved | mediatek/bluetooth/btremoted/msbc.c:252-356 | in the stereo modes the two sides of a subband are neighbours, the left one first, and each channel is found again |
| SbcFrame.FrameBitsAre | mediatek/bluetooth/btremoted/msbc.c:164-356 | each channel has an allocation of its own in mono and dual channel, the stereo modes one for both in that order |
| SbcFrame.FrameBitsExact | mediatek/bluetooth/btremoted/msbc.c:164-356 | in every channel mode each sample takes at most 16 bits and a block takes exactly the bitpool, twice it in dual channel |
| SbcFrame.CalculateBits | mediatek/bluetooth/btremoted/msbc.c:164-356 | the allocator run per channel or over both channels gives the frame's bits, which `FrameBitsAre` and `NeedsAre` pin to the scale factors |
| Quantiser.PackerFitsWords | mediatek/bluetooth/btremoted/msbc.c:858-878 | for samples in scale the packer's 32-bit and 64-bit intermediates do not overflow |
| Quantiser.ParserFitsWords | mediatek/bluetooth/btremoted/msbc.c:518-521 | nor does the parser's numerator as an unsigned word |
| Quantiser.CodeInRange | mediatek/bluetooth/btremoted/msbc.c:876-878 | a sample in scale gets one of the codes 0 .. 2^b - 2 |
| Quantiser.QuantiserError | mediatek/bluetooth/btremoted/msbc.c:518-521 | a decoded sample is within half of one of 2^b - 1 quantiser steps, and a unit of truncation, of the packed one |
| Quantiser.DecodedInScale | mediatek/bluetooth/btremoted/msbc.c:518-521 | what the parser reconstructs is in scale for the packer again |
| Quantiser.CodeStableIff | mediatek/bluetooth/btremoted/msbc.c:499-523 | a code survives decoding and encoding if and only if the remainder dropped by the decoder's division is at most the scale |
| Quantiser.AllCodesStableIff | mediatek/bluetooth/btremoted/msbc.c:499-523 | all codes survive if and only if there are no more bits than the scale factor, or one more for scale factors 0 and 1 |
| Crc8.TableEntry | mediatek/bluetooth/btremoted/msbc.c:103-136 | each of the 256 table entries is its index advanced by eight steps of the polynomial 0x1D |
| Crc8.TableLookup | mediatek/bluetooth/btremoted/msbc.c:144-145 | looking up a byte is feeding its eight bits to the register |
| Crc8.Crc8 | mediatek/bluetooth/btremoted/msbc.c:138-157 | table and tail loop compute the bit-serial checksum of the first `len` bits, for every length |
| Crc8.CrcTail | mediatek/bluetooth/btremoted/msbc.c:147-154 | the tail loop feeds the first bits of the last byte |
| Crc8.BurstDetected | mediatek/bluetooth/btremoted/msbc.c:138-157 | messages of equal length that differ only within eight consecutive bits have different checksums |
| Crc8.GeneratorUndetected | mediatek/bluetooth/btremoted/msbc.c:138-157 | eight is the limit: one nine-bit error pattern is never noticed, wherever it falls |
| SbcFormat.RoundTrip | mediatek/bluetooth/btremoted/msbc.c:377-551 | parsing a packed frame, whatever follows it, accepts the checksum and recovers layout, joint flags, scale factors, samples and length, one more if a zero byte follows |
| SbcFormat.JointReversed | mediatek/bluetooth/btremoted/msbc.c:466-468 | the parser's flag of a subband is the packer's bit counted from the other end |
| SbcFormat.MsbcNeeds | mediatek/bluetooth/btremoted/msbc.c:442-449 | mSBC allocates 26 bits to eight subbands of one channel by loudness, with the offsets for 16 kHz |
| SbcFormat.HeaderGuard | mediatek/bluetooth/btremoted/msbc.c:430-436 | which sync words, header bytes and bitpools are refused and with what code, bit by bit of the header |
| SbcFormat.HeaderInverse | mediatek/bluetooth/btremoted/msbc.c:396-428 | a header byte that is read is the one that would be written |
| SbcFormat.UnjoinedIff | mediatek/bluetooth/btremoted/msbc.c:528-541 | sum and difference are undone by the one pair of channels whose half sum and half difference they are |
| SbcFormat.FrameAccurate | mediatek/bluetooth/btremoted/msbc.c:377-551 | samples through packer and parser come back within the quantiser's error; in joint stereo, where the flag is set, half the sum and half the difference of left and right do |
| SbcFormat.HeaderLengthIff | mediatek/bluetooth/btremoted/msbc.c:1147-1160 | the length formula is the packed length in every mode but dual channel, and there if and only if the frame has at most one bit per four blocks |
| SbcFormat.ParseIff | mediatek/bluetooth/btremoted/msbc.c:377-551 | exactly when a frame with a readable header is accepted, and its length |
| SbcFormat.MsbcLength | mediatek/bluetooth/btremoted/msbc.c:442-449 | an mSBC frame is accepted if and only if its checksum holds and 57 bytes are there, and is then 57 bytes long, 58 if a zero byte follows |
| SbcFormat.DamageReported | mediatek/bluetooth/btremoted/msbc.c:494-495 | up to eight consecutive damaged bits of what the checksum covers - header byte, bitpool, joint flags, scale factors - or a damaged checksum byte are always reported as a checksum error, if the layout reads as before |
| SbcFormat.MsbcDamageReported | mediatek/bluetooth/btremoted/msbc.c:494-495 | in an mSBC frame always, its two header bytes included, since the layout is fixed |
| BitWriter.Writer.PutBits | mediatek/bluetooth/btremoted/msbc.c:733-745 | a field is appended to the bits written and cached so far |
| BitWriter.Writer.FlushBits | mediatek/bluetooth/btremoted/msbc.c:747-756 | the bytes written are the bits put, filled up with zeros |
| SbcPacker.PackerChecksum | mediatek/bluetooth/btremoted/msbc.c:829-854 | the header rebuilt nibble by nibble gives the checksum of header byte, bitpool, joint flags and scale factors |
| SbcPacker.PutBlock | mediatek/bluetooth/btremoted/msbc.c:870-883 | one block of samples is quantised and appended, subbands without bits passed over |
| SbcPacker.PackFrame | mediatek/bluetooth/btremoted/msbc.c:774-889 | the packer writes exactly the packed frame and returns its length, or -5 for a bitpool beyond the guard |
| SbcParser.ReadCode | mediatek/bluetooth/btremoted/msbc.c:508-517 | a code is read bit by bit, or refused if it ends more than a bit behind the data |
| SbcParser.ReadBlock | mediatek/bluetooth/btremoted/msbc.c:504-526 | one block is reconstructed from the bits at the reading position, or refused |
| SbcParser.Unjoin | mediatek/bluetooth/btremoted/msbc.c:528-541 | sum and difference become left and right in place where the flag is set |
| SbcParser.UnpackFrame | mediatek/bluetooth/btremoted/msbc.c:377-551 | the parser's outcome, error or frame, is the format's for every buffer and length |
| Synthesis.ShiftIsPush | mediatek/bluetooth/btremoted/msbc.c:576-662 | shifting the standard's flat register is dropping the oldest of ten blocks |
| Synthesis.RowValue | mediatek/bluetooth/btremoted/msbc.c:636-644 | the value written for a row is the sum of every subband sample times its coefficient, divided by 2^15 and rounded down |
| Synthesis.SampleResponds | mediatek/bluetooth/btremoted/msbc.c:646-662 | an output sample before scaling answers to each of its ten register cells with that cell's window coefficient, and to a clear register with nothing |
| Synthesis.SampleIgnores | mediatek/bluetooth/btremoted/msbc.c:646-662 | it answers to no other cell, and is then scaled and clipped |
| Synthesis.ScaleAndClip | mediatek/bluetooth/btremoted/msbc.c:566-574 | scaling divides by 2^15 and rounds down; clipping keeps 16-bit samples and moves anything else to the bound on its side |
| Synthesis.WindowSumIsTenTaps | mediatek/bluetooth/btremoted/msbc.c:599-616 | the standard's U vector and window select exactly the ten products the decoder sums, for any coefficients |
| Synthesis.RegisterHolds | mediatek/bluetooth/btremoted/msbc.c:576-662 | after any blocks each register cell is what its row was given that many blocks ago |
| Synthesis.OtherWindowKept | mediatek/bluetooth/btremoted/msbc.c:624-634 | moving one row's window, with its mirror copy, disturbs no other row's window |
| Synthesis.MoveKeeps | mediatek/bluetooth/btremoted/msbc.c:624-646 | row by row the ring goes from holding the old ten blocks to holding the new ten |
| Synthesis.MoveTogether | mediatek/bluetooth/btremoted/msbc.c:624-646 | where the windows were never set up they all are one, and each row overwrites what the rows before it have written |
| Synthesis.Channel.constructor | mediatek/bluetooth/btremoted/msbc.c:944-962 | memory of zeros stands for a clear register with all windows in one place |
| Synthesis.Channel.Init | mediatek/bluetooth/btremoted/msbc.c:553-564 | set up for its subbands the state stands for a clear register with spread windows; set up for none the windows stay in one place |
| Synthesis.Channel.MoveRow | mediatek/bluetooth/btremoted/msbc.c:624-634 | a window moves down one cell, wrapping with its mirror refreshed |
| Synthesis.Channel.Synthesize | mediatek/bluetooth/btremoted/msbc.c:576-662 | one block: the state stands for the shifted register, and the samples are the standard's output of it - with the last row of the matrix in place of every row if the windows were never set up |
| Synthesis.Channel.SynthesizeAudio | mediatek/bluetooth/btremoted/msbc.c:664-687 | over any sequence of blocks the samples are the standard filter's with these tables, and window cell `j` of a row is what it was given `j` blocks ago |
| Decoder.MsbcShape | mediatek/bluetooth/btremoted/msbc.c:442-449 | a frame that is accepted has fifteen blocks of eight samples and a positive length, any other a negative code |
| Decoder.FilterAppend | mediatek/bluetooth/btremoted/msbc.c:664-687 | filtering one frame and then the next, with the register kept, is filtering the blocks of both as one run |
| Decoder.FilterSamples | mediatek/bluetooth/btremoted/msbc.c:566-574 | what the filter puts out are 16-bit samples |
| Decoder.CallContinues | mediatek/bluetooth/btremoted/msbc.c:969-1036 | each call continues the filter from the register the call before has left, and a frame that is refused leaves it alone |
| Decoder.SbcDecoder.constructor | mediatek/bluetooth/btremoted/msbc.c:944-962 | a decoder that has not been called |
| Decoder.SbcDecoder.Decode | mediatek/bluetooth/btremoted/msbc.c:969-1036 | one call: parser, filter set up - or left not set up - by the first call, the filter continued over the frame's blocks, samples out high byte first, nothing on an error |
| Concealment.FadeWeights | mediatek/bluetooth/btremoted/sbcplc.c:14-17 | the fade-out and fade-in weights are positive and add up to one |
| Concealment.CrossFadeBetween | mediatek/bluetooth/btremoted/sbcplc.c:119-125 | the unclamped blend lies between the samples it blends and is a 16-bit sample |
| Concealment.CrossFadeTurns | mediatek/bluetooth/btremoted/sbcplc.c:119-125 | the blend moves from the concealment to the received signal, sample after sample |
| Concealment.CrossFadeEnds | mediatek/bluetooth/btremoted/sbcplc.c:119-125 | it starts within one per cent, and truncation, of the concealed sample and ends within that of the received one |
| Concealment.FillTurns | mediatek/bluetooth/btremoted/sbcplc.c:58-64 | the first frame of a burst fades from the decoder's ringing to the scaled repetition |
| Concealment.TailTurns | mediatek/bluetooth/btremoted/sbcplc.c:72-78 | and behind the frame from that to the unscaled repetition |
| Concealment.FillEnds | mediatek/bluetooth/btremoted/sbcplc.c:56-88 | where these fades start and end, with the scaled repetition, clamped, in between and the plain one in every later sample and frame |
| Concealment.MagnitudeResponds | mediatek/bluetooth/btremoted/sbcplc.c:213-245 | loudness is the sum of the magnitudes of exactly the samples of a stretch |
| Concealment.OneBestMatch | mediatek/bluetooth/btremoted/sbcplc.c:186-204 | only one candidate is the first with the highest correlation |
| Concealment.AmplitudeOfStream | mediatek/bluetooth/btremoted/sbcplc.c:56-57 | when a burst begins the amplitude is matched to the samples put out, whatever else the buffer holds |
| Concealment.PeriodicClosedForm | mediatek/bluetooth/btremoted/sbcplc.c:87-98 | however long the concealment, every sample in it is one of the samples of the period before it |
| Concealment.PatternMatch | mediatek/bluetooth/btremoted/sbcplc.c:186-204 | the first candidate with the highest correlation, or 0 |
| Concealment.BadKeeps | mediatek/bluetooth/btremoted/sbcplc.c:47-98 | a lost frame keeps history and emitted stream in agreement and the burst periodic |
| Concealment.GoodKeeps | mediatek/bluetooth/btremoted/sbcplc.c:115-134 | so does a received frame |
| Concealment.LoseIs | mediatek/bluetooth/btremoted/sbcplc.c:47-98 | extending and shifting the buffer is adding a concealed frame to the stream |
| Concealment.TakeIs | mediatek/bluetooth/btremoted/sbcplc.c:115-134 | and taking a frame is adding it, behind a loss only once the concealment has faded out |
| Concealment.AllSound | mediatek/bluetooth/btremoted/sbcplc.c:47-134 | in every stream of received and lost frames: the first lost frame of a burst is the stretch from the best match on, scaled and blended, every later one repeats its period, and a received frame comes through, after a loss as continuation, cross-fade and signal |
| Concealment.PlcState.InitPLC | mediatek/bluetooth/btremoted/sbcplc.c:26-33 | a new session starts with a silent history |
| Concealment.PlcState.CopyPeriod | mediatek/bluetooth/btremoted/sbcplc.c:84-93 | the copy that runs into its own output grows the history periodically |
| Concealment.PlcState.BadFrame | mediatek/bluetooth/btremoted/sbcplc.c:47-98 | a lost frame is filled from one period back, scaled and blended if it is the first, copied if not, the period kept within a burst; it is one more lost frame of the stream, with these correlations and this ringing |
| Concealment.PlcState.GoodFrame | mediatek/bluetooth/btremoted/sbcplc.c:115-134 | a received frame passes through; after a loss its first 36 samples are the history's continuation, which after a burst of one frame is periodic behind the blend and after a longer one throughout, the next 16 fade into the signal, and the rest is the signal; it is one more received frame of the stream |
| OutputBuffer.BeToLe | mediatek/bluetooth/btremoted/btremoted.c:174-183 | every pair of bytes swapped, in place |
| OutputBuffer.BytesRoundTrip | mediatek/bluetooth/btremoted/btremoted.c:146-162 | bytes to samples to bytes is the identity |
| OutputBuffer.SamplesRoundTrip | mediatek/bluetooth/btremoted/btremoted.c:146-162 | samples to bytes to samples is the identity |
| OutputBuffer.LittleEndian | mediatek/bluetooth/btremoted/btremoted.c:155-162 | the low byte of a sample goes first |
| OutputBuffer.MainBuffer.Clear | mediatek/bluetooth/btremoted/btremoted.c:361-377 | a new session owes nothing and trims again |
| OutputBuffer.MainBuffer.Append | mediatek/bluetooth/btremoted/btremoted.c:412-416 | a chunk is taken in whole or dropped whole; delivered and waiting bytes stay the accepted ones without the trimmed start |
| OutputBuffer.MainBuffer.WriteToClient | mediatek/bluetooth/btremoted/btremoted.c:588-618 | what the socket takes moves from waiting to delivered, nothing while the start is trimmed, positions reset when all is sent |
| OutputBuffer.Appended | mediatek/bluetooth/btremoted/btremoted.c:412-416 | a chunk adds to the waiting bytes exactly its part behind the trimmed start |
| SilentFrame.SilentFrameAccepted | mediatek/bluetooth/btremoted/btremoted.c:112-118 | the constant decoded in place of lost frames is an intact mSBC frame of 58 bytes |
| SilentAudio.SilentSamples | mediatek/bluetooth/btremoted/btremoted.c:112-118 | every sample it decodes to is zero, so that the filter rings out |
| PacketTimeline.CodeRoundTrip | mediatek/bluetooth/btremoted/btremoted.c:185-196 | a sequence code is read as the number it was sent for, and nothing else is read as a number |
| PacketTimeline.DecodesIff | mediatek/bluetooth/btremoted/btremoted.c:537-544 | the decoder accepts a packet's frame if and only if the packet has 59 bytes and the frame's checksum holds |
| PacketTimeline.TimelineExact | mediatek/bluetooth/btremoted/btremoted.c:514-545 | over any run, frames put out plus missing ones is the place of the last accepted packet plus one |
| PacketTimeline.TimelineKept | mediatek/bluetooth/btremoted/btremoted.c:514-545 | after the packet in place `p` exactly `p + 1` frames were put out if and only if no gap exceeded three packets and every accepted packet decoded, and then each received frame, with its own samples, is at its own place |
| PacketTimeline.GapsConcealed | mediatek/bluetooth/btremoted/btremoted.c:527-531 | every other place of such a timeline is concealed |
| PacketTimeline.SilenceFed | mediatek/bluetooth/btremoted/btremoted.c:525-531 | while packets are lost the decoder's filter is fed zeros |
| PacketTimeline.OneFilterRun | mediatek/bluetooth/btremoted/btremoted.c:514-545 | over any run, whatever was lost or damaged, what the decoder puts out for each frame, received or lost, is the piece at the frame's place of one run of the filter over all blocks decoded, the silent frame's in the gaps |
| PacketTimeline.InEffectIff | mediatek/bluetooth/btremoted/msbc.c:982-1000 | that filter is the standard's with its own tables if and only if the decoder was not called first for a frame of less than four bytes |
| PacketTimeline.LosslessTimeline | mediatek/bluetooth/btremoted/btremoted.c:514-545 | a run in which every packet has the next number and decodes has a received frame for each packet and no other |
| Receiver.EmittedInPlace | mediatek/bluetooth/btremoted/btremoted.c:382-417 | in such a run the samples emitted at a received packet's place are the decoder's samples for it: all of them if the packet before was received too, and from sample 52 on if it ends a loss |
| Receiver.Session.constructor | mediatek/bluetooth/btremoted/btremoted.c:783-785 | a session starts at sequence number 3 with nothing put out |
| Receiver.Session.Connect | mediatek/bluetooth/btremoted/btremoted.c:744-785 | a new client starts the timeline and the concealment again; the buffer is cleared if the audio link has to be opened, and keeps what it owes if the link is still open |
| Receiver.Session.WriteToMainBuf | mediatek/bluetooth/btremoted/btremoted.c:382-417 | one frame: byte order, concealment, buffer; the concealment is given exactly this frame, received or lost, and puts out the next frame of its stream; loss-free frames pass through with their bytes swapped |
| Receiver.Session.ConcealOne | mediatek/bluetooth/btremoted/btremoted.c:527-531 | a lost packet becomes one frame concealed from what the decoder makes of the silent frame, with the correlations of that moment |
| Receiver.Session.PerformPlc | mediatek/bluetooth/btremoted/btremoted.c:525-531 | one concealed frame, one decoding of the silent frame, one list of correlations and one chunk to the buffer per lost packet, in order |
| Receiver.Session.HandleFrame | mediatek/bluetooth/btremoted/btremoted.c:537-544 | the frame of a packet is put out with the decoder's samples and offered to the buffer if it decodes, and otherwise leaves a failure status |
| Receiver.Session.HandleMsbcData | mediatek/bluetooth/btremoted/btremoted.c:471-548 | a packet adds exactly its frames to the timeline, the received one with the samples decoded from its bytes, and as many chunks to the buffer; the status says whether it was accepted and decoded |
| Receiver.HandlingIs | mediatek/bluetooth/btremoted/btremoted.c:514-545 | what an accepted packet comes to is the concealing of what was lost before it and then its own frame |
| Receiver.Session.OfferToClient | mediatek/bluetooth/btremoted/btremoted.c:588-618 | a ready socket takes waiting bytes between packets, and nothing else changes |
| Receiver.Session.Receive | mediatek/bluetooth/btremoted/btremoted.c:471-548 | packets and ready sockets in any order put out the timeline of the packets, and leave the buffer at the levels they add up to |
| Receiver.FitsIff | mediatek/bluetooth/btremoted/btremoted.c:412-416 | while the client takes nothing no chunk is dropped if and only if the buffer has room for all frames of the timeline |
| Receiver.ReceiveRun | mediatek/bluetooth/btremoted/btremoted.c:471-548 | with packets and ready sockets in any order: samples emitted are one frame per place exactly for gentle runs, each received packet's samples then at its own place; for every run what is emitted is the concealment's stream of the timeline's frames, each lost one with the correlations of its moment, and each sounds as it should; frames are pieces of one filter run, and a lossless run emits that run; chunks are dropped exactly as the buffer levels tell beforehand, and if none is the client was sent and is owed exactly the samples emitted, low byte first, without the trimmed start, behind what it was owed before |
| H4.Conservation | mediatek/bluetooth/interface/hci_packetizer.cc:54-101 | for every input the bytes consumed are the delivered packets framed again, then the packet being received |
| H4.FeedWithin | mediatek/bluetooth/interface/hci_packetizer.cc:54-101 | bytes up to the end of the preamble or payload are collected and the packet delivered with the last |
| H4.PacketsDelivered | mediatek/bluetooth/interface/hci_packetizer.cc:76-101 | well-formed packets are delivered exactly, in order, if and only if each has a payload |
| H4.NeverRecovers | mediatek/bluetooth/interface/hci_packetizer.cc:76-90 | a packet without payload halts the reception for good |
| H4.WireDelivered | mediatek/bluetooth/interface/hci_packetizer.cc:28-52 | packets written field by field as the standard has them - the ACL length in two bytes, low byte first, the others in one - are taken apart into exactly those, if and only if each has a payload |
| H4.TypeByte | mediatek/bluetooth/interface/h4_protocol.cc:59-85 | between packets a byte starts one if and only if it is the type of ACL data, SCO data or an event |
| H4.HciPacketizer.OnDataReady | mediatek/bluetooth/interface/hci_packetizer.cc:54-101 | one read extends the packet received so far, and reports it ready exactly when it is complete; an empty read is fatal |
| H4.H4Protocol.OnDataReady | mediatek/bluetooth/interface/h4_protocol.cc:59-85 | one read takes the state to that of all bytes consumed; the process dies only on an empty read or where the stream itself is dead |
| H4.H4Protocol.OnPacketReady | mediatek/bluetooth/interface/h4_protocol.cc:40-57 | the packet goes out with its type, and the next type byte is awaited |
| H4.H4Protocol.Pump | mediatek/bluetooth/interface/h4_protocol.cc:59-85 | however reads split an input, the outcome is that of the input alone |
| H4.H4Protocol.PumpPackets | mediatek/bluetooth/interface/h4_protocol.cc:59-85 | packets with payload arrive complete and in order however they are read |
| H4.H4Protocol.PumpWire | mediatek/bluetooth/interface/h4_protocol.cc:59-85 | the standard's packets arrive complete and in order however they are read |
| H4.Send | mediatek/bluetooth/interface/h4_protocol.cc:31-38 | what is sent is the packet framed |
| InitProtocol.ScriptsOk | mediatek/bluetooth/libbt-vendor/radiomod.c:106-170 | in every script only the address query uses the address callback |
| InitProtocol.StepsKeepBase | mediatek/bluetooth/libbt-vendor/radiomod.c:1127-1215 | from every start each step of worker, event thread and terminator, in every interleaving, keeps the invariant that does not depend on the slot |
| InitProtocol.StepsKeep | mediatek/bluetooth/libbt-vendor/radiomod.c:1127-1215 | from a clean start every reachable state keeps the whole invariant, or still has the leftover callback and a worker that takes up no entry |
| InitProtocol.SuccessTrustedIff | mediatek/bluetooth/libbt-vendor/radiomod.c:998-1035 | in every interleaving a reported success means that every entry not skipped was issued and got, after being armed, a Command Complete of its own opcode with status 0, each an event of its own that came after the entries before were acknowledged, if and only if the start is clean |
| InitProtocol.StaleSlotMisleads | mediatek/bluetooth/interface/vendor_interface.cc:358-370 | from every start that is not clean some run reports success with the first entry acknowledged by an event received before its callback was armed |
| InitProtocol.SuccessLeavesClean | mediatek/bluetooth/interface/vendor_interface.cc:358-370 | a success from an empty slot leaves the slot empty and the event thread idle |
| InitProtocol.IssuedInOrder | mediatek/bluetooth/libbt-vendor/radiomod.c:1127-1203 | from every start commands are issued in script order, none twice, none that was skipped, and only debug commands are skipped |
| InitProtocol.ReportedOnce | mediatek/bluetooth/libbt-vendor/radiomod.c:1205-1215 | from every start one result is reported, when the worker finishes, and it is a success exactly if the script was gone through to its end |
| InitProtocol.OneOutstandingIff | mediatek/bluetooth/interface/vendor_interface.cc:81-91 | in every interleaving at most one command is outstanding if and only if the start is clean |
| InitProtocol.NoLostWakeup | mediatek/bluetooth/libbt-vendor/radiomod.c:1158-1184 | from every start a worker blocked and not signalled has its callback still due, and once no callback is due it can go on and finds a verdict |
| InitProtocol.ReplyReleases | mediatek/bluetooth/interface/vendor_interface.cc:358-370 | from every start some run takes a matching reply to the callback, counts it as the entry's acknowledgement if its status is 0, and leaves the worker with its verdict and able to go on |
| InitProtocol.RoutedOnce | mediatek/bluetooth/interface/vendor_interface.cc:358-370 | from every start each event received is routed once, to callback or stack, but for the one the event thread is looking at |
| InitProtocol.CalledOnceIff | mediatek/bluetooth/interface/vendor_interface.cc:358-370 | in every interleaving each armed callback takes exactly one event if and only if the start is clean |
| InitProtocol.CompletableIff | mediatek/bluetooth/libbt-vendor/radiomod.c:1127-1215 | some run reports success if and only if no termination request is left over, or a leftover callback can overwrite it, or there is nothing to send |
| InitProtocol.TerminationOverwritten | mediatek/bluetooth/libbt-vendor/radiomod.c:1028-1045 | a termination request can be overwritten by a reply, in any script |
| InitProtocol.TerminatedStaysArmed | mediatek/bluetooth/libbt-vendor/radiomod.c:1195-1199 | a terminated run can leave its callback armed and the status ready for another run: a start that is not clean |
| InitReplies.ReplyWakes | mediatek/bluetooth/libbt-vendor/radiomod.c:1028-1043 | from every start and in every interleaving, once the reply to its command has come in a worker still at that command can go on as soon as the event thread is idle, which takes at most five of its steps; a worker whose callback was still due then finds the reply's verdict or a termination request, and a good reply is its acknowledgement |
| InitReplies.ReplyRoutedIff | mediatek/bluetooth/interface/vendor_interface.cc:358-370 | a reply that finds its callback armed goes to it in every interleaving, unless the status already is a success when it comes in and some entry the worker may take up next has another opcode - and then not in every one |
| InitReplies.RepliesReachIff | mediatek/bluetooth/interface/vendor_interface.cc:358-370 | from a start every such reply reaches its callback in every interleaving if and only if no leftover callback can report a success between the worker's setting the status and its arming, with another opcode still to come in the script |
| InitReplies.Misled | mediatek/bluetooth/interface/vendor_interface.cc:81-91 | the failing run of every other start: the leftover callback's success is taken for the first command's, and a later reply goes to the stack |
| InitReplies.NextRunMisled | mediatek/bluetooth/libbt-vendor/radiomod.c:1195-1199 | such starts come about: a run stopped by a termination request can leave one, for every next script with two opcodes |
| InitTermination.OnlyCompletions | mediatek/bluetooth/interface/vendor_interface.cc:81-91 | from every start only Command Complete events reach a callback |
| InitTermination.TerminationHonouredIff | mediatek/bluetooth/libbt-vendor/radiomod.c:1127-1203 | with the event thread idle, a termination request stops the worker at its entry in every interleaving if and only if no callback is armed, nor will be before the worker looks at the status again |
| InitTermination.GoesOn | mediatek/bluetooth/libbt-vendor/radiomod.c:1127-1203 | from every other such state some run goes on to the next entry |
| InitTermination.ScriptsVary | mediatek/bluetooth/libbt-vendor/radiomod.c:106-170 | every script has two different opcodes in a row, and only one sends an opcode twice in a row |

## Left out

- Analysis side: `sbc_analyze_audio`, scale factor computation and the joint-stereo decision are reached by indirect calls whose targets are in files not modelled here; that samples lie within their scale factors is a precondition of the packer.
- Coefficient tables and 32-bit overflow of the filter sums: the tables are arbitrary and the products mathematical integers, the same in both filters compared.
- Floating point: correlations are arbitrary values or not-a-number, the gain and the blends are exact reals truncated towards zero.
- The cached eight-bit `frame.length`, which the receive path does not read, and `sbc_encode` around filter and packer.
- Decoder.SbcDecoder.Decode: mSBC frames only, with room for a whole frame, as the receive path calls it; streams that change layout from frame to frame are not modelled.
- `-4` and the other documented error codes of the packer that its body cannot return for 4 or 8 subbands.
- Stereo state arrays: one `Channel` object per channel, and frame tables as flat sequences, not two-dimensional arrays.
- SbcPacker.PackFrame: the loop that fills frame and checksum header together is two loops here, and the buffer is required to be large enough, as the source's caller checks against the frame length.
- SbcParser.UnpackFrame: scale factors, codes and samples are collected in sequences rather than in fields of the caller's frame.
- Receiver.Session.HandleMsbcData: the modes with decoding or concealment switched off are not modelled; they only skip steps. The correlations a concealed frame starts from are parameters.
- Sockets, poll, metrics and dump files of the receive daemon: what a send takes is a parameter.
- H4.H4Protocol.OnDataReady: read errors are not told apart from an empty read, since either ends the process, and the three callbacks are one list of packets with their types.
- InitProtocol.StepsKeep: the globals and both threads are one state value rather than objects, since the subject is the interleaving; vendor callbacks are taken as registered, so sending does not fail.
- Promises that a termination request stops the worker: it can be overwritten, as shown.
- Script parameters, NVRAM, UART set-up, random addresses, low-power handling, and the unknown chip that has no script.
- `WritevSafely`, `MctProtocol`, `AsyncFdWatcher`, lights, the fingerprint HAL, shims, settings and build files: input and output, user interface, or only easy claims.
