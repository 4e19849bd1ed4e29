/** What a run of packets comes to: packets with a two-bit sequence number (the
  * header is that of section 5.7.2 of HFP 1.6), the gaps they leave, and what the
  * decoder has made of it all.  Decoding and concealment are switched on.
  */
module PacketTimeline {
  import opened Sequences
  import opened Bits
  import opened Concealment
  import opened Decoder
  import opened SilentFrame
  import SilentAudio
  import opened SbcFrame
  import opened SbcFormat
  import Synthesis

  const NUM_SEQ_CODES := 4

  /** One packet from the link. */
  type Packet = seq<byte>

  /** One frame of the output timeline; a received one holds the decoder's samples. */
  datatype Slot = Concealed(zir: seq<int>) | Received(pcm: seq<int>) {
    /** What the decoder put out for it. */
    function Sound(): seq<int> { if Concealed? then zir else pcm }
  }

  // ----- packets -----

  /** The number a sequence code stands for, each bit sent twice. */
  function SeqCodeToNum(code: nat): int {
    if code == 0x0 then 0 else if code == 0x3 then 1 else if code == 0xc then 2 else if code == 0xf then 3 else -1
  }

  /** The sender's code. */
  function CodeOf(num: nat): nat
    requires num < NUM_SEQ_CODES
  {
    (if num >= 2 then 0xc else 0) + (if num % 2 == 1 then 0x3 else 0)
  }

  lemma CodeRoundTrip(code: nat, num: nat)
    requires num < NUM_SEQ_CODES
    ensures SeqCodeToNum(CodeOf(num)) == num
    ensures SeqCodeToNum(code) >= 0 <==> exists k: nat :: k < NUM_SEQ_CODES && CodeOf(k) == code
  {
    if SeqCodeToNum(code) >= 0 {
      assert CodeOf(SeqCodeToNum(code)) == code;
    }
  }

  predicate HasSync(packet: Packet) { |packet| > 2 && packet[2] == MSBC_SYNCWORD }

  function SeqNum(packet: Packet): int
    requires |packet| > 2
  {
    SeqCodeToNum(packet[1] / 16)
  }

  /** The packet is looked at further than its header. */
  predicate Accepted(packet: Packet) { HasSync(packet) && SeqNum(packet) >= 0 }

  /** The frame in a packet, with the zeros behind it in the receive buffer. */
  function FrameOf(packet: Packet): (data: seq<byte>)
    requires HasSync(packet)
    ensures |data| == |packet| && data[0] == MSBC_SYNCWORD
    ensures packet[2..] <= data && data[|data| - 2] == data[|data| - 1] == 0
  {
    packet[2..] + [0, 0]
  }

  /** The decoder accepts the packet's frame. */
  predicate Decodes(packet: Packet)
    requires HasSync(packet)
  {
    Parse(FrameOf(packet), |packet| - 2).Frame?
  }

  /** It does exactly if all 57 bytes are there and the checksum holds. */
  lemma DecodesIff(packet: Packet)
    requires HasSync(packet)
    ensures Decodes(packet) <==> |packet| >= 59 && ChecksumHolds(FrameOf(packet), MSBC)
  {
    hide ChecksumHolds;
    if |packet| - 2 >= 4 {
      hide Parse;
      MsbcLength(FrameOf(packet), |packet| - 2);
    }
  }

  function NumLost(seqNum: int, last: int): nat
    requires 0 <= seqNum < NUM_SEQ_CODES && 0 <= last < NUM_SEQ_CODES
  {
    (seqNum - last - 1 + NUM_SEQ_CODES) % NUM_SEQ_CODES
  }

  // ----- the timeline -----

  /** What a run of packets has led to: the frames put out, the last sequence number, the decoder. */
  datatype Heard = Heard(slots: seq<Slot>, last: int, decoder: State) {
    ghost predicate Ok() { 0 <= last < NUM_SEQ_CODES && decoder.Shape() }
  }

  /** Lost packets: each is concealed with what the decoder makes of the silent frame then. */
  function Lost(t: Synthesis.Tables, d: State, n: nat): (r: seq<Slot>)
    requires t.ForSubbands(SUB) && d.Shape()
    ensures |r| == n && forall i :: 0 <= i < n ==> r[i].Concealed?
  {
    if n == 0 then [] else Lost(t, d, n - 1) + [Concealed(Ringing(t, AfterSilence(t, d, n - 1)))]
  }

  const SILENCE: seq<byte> := INDICES0 + [0, 0]
  const SILENCE_LENGTH: nat := 58

  lemma SilenceSize()
    ensures |SILENCE| == SILENCE_LENGTH + 2 && SILENCE[0] == MSBC_SYNCWORD
  {
  }

  /** The decoder after the silent frame has been decoded `n` times. */
  function AfterSilence(t: Synthesis.Tables, d: State, n: nat): (r: State)
    requires t.ForSubbands(SUB) && d.Shape()
    ensures r.Shape()
  {
    if n == 0 then d else
      SilenceSize();
      Decoded(t, AfterSilence(t, d, n - 1), SILENCE, SILENCE_LENGTH).0
  }

  /** What the decoder makes of it. */
  function Ringing(t: Synthesis.Tables, d: State): (pcm: seq<int>)
    requires t.ForSubbands(SUB) && d.Shape()
    ensures |pcm| == FS
  {
    SilenceDecodes();
    Decoded(t, d, SILENCE, SILENCE_LENGTH).1.pcm
  }

  /** The decoder's answer to the frame of a packet. */
  function AnswerTo(t: Synthesis.Tables, d: State, packet: Packet): (r: (State, Sound))
    requires t.ForSubbands(SUB) && d.Shape() && HasSync(packet)
    ensures r.0.Shape() && (r.1.Samples? <==> Decodes(packet)) && (r.1.Samples? ==> |r.1.pcm| == FS)
  {
    Decoded(t, d, FrameOf(packet), |packet| - 2)
  }

  /** The decoder's answer to a packet that comes after these lost ones. */
  function Answer(t: Synthesis.Tables, h: Heard, packet: Packet): (r: (State, Sound))
    requires t.ForSubbands(SUB) && h.Ok() && Accepted(packet)
    ensures r.0.Shape() && (r.1.Samples? <==> Decodes(packet)) && (r.1.Samples? ==> |r.1.pcm| == FS)
  {
    AnswerTo(t, AfterSilence(t, h.decoder, NumLost(SeqNum(packet), h.last)), packet)
  }

  function SlotOf(sound: Sound): seq<Slot> {
    if sound.Samples? then [Received(sound.pcm)] else []
  }

  /** One packet more. */
  function Hear(t: Synthesis.Tables, h: Heard, packet: Packet): (r: Heard)
    requires t.ForSubbands(SUB) && h.Ok()
    ensures r.Ok()
  {
    if !Accepted(packet) then h else
      var (d, sound) := Answer(t, h, packet);
      Heard(h.slots + Lost(t, h.decoder, NumLost(SeqNum(packet), h.last)) + SlotOf(sound), SeqNum(packet), d)
  }

  /** A session starts at sequence number 3, with whatever the decoder has come to. */
  function Begin(d: State): Heard { Heard([], 3, d) }

  function HearAll(t: Synthesis.Tables, d: State, run: seq<Packet>): (r: Heard)
    requires t.ForSubbands(SUB) && d.Shape()
    ensures r.Ok()
  {
    if run == [] then Begin(d) else Hear(t, HearAll(t, d, run[..|run| - 1]), run[|run| - 1])
  }

  function Timeline(t: Synthesis.Tables, d: State, run: seq<Packet>): seq<Slot>
    requires t.ForSubbands(SUB) && d.Shape()
  {
    HearAll(t, d, run).slots
  }

  /** The samples of packet `k` of a run. */
  function PcmOf(t: Synthesis.Tables, d: State, run: seq<Packet>, k: nat): (pcm: seq<int>)
    requires t.ForSubbands(SUB) && d.Shape() && k < |run|
    requires Accepted(run[k]) && Decodes(run[k])
    ensures |pcm| == FS
  {
    Answer(t, HearAll(t, d, run[..k]), run[k]).1.pcm
  }

  /** The packets of a run carry their place in the stream that was sent: places
    * increase, and an accepted packet's sequence number is its place, modulo 4. */
  ghost predicate Sent(run: seq<Packet>, place: seq<nat>) {
    && |place| == |run|
    && (forall i, j :: 0 <= i < j < |place| ==> place[i] < place[j])
    && forall i :: 0 <= i < |run| && Accepted(run[i]) ==> SeqNum(run[i]) == place[i] % NUM_SEQ_CODES
  }

  /** Place of the last accepted packet, or -1. */
  ghost function LastPlace(run: seq<Packet>, place: seq<nat>): (r: int)
    requires |place| == |run|
    ensures r >= -1
  {
    if run == [] then -1
    else if Accepted(run[|run| - 1]) then place[|run| - 1]
    else LastPlace(run[..|run| - 1], place[..|run| - 1])
  }

  /** Frames the timeline falls behind by: four for every four packets of a gap
    * beyond the first, and one for every accepted packet that does not decode. */
  ghost function Missing(run: seq<Packet>, place: seq<nat>): nat
    requires |place| == |run|
  {
    if run == [] then 0 else
      var n := |run| - 1;
      Missing(run[..n], place[..n])
      + if !Accepted(run[n]) then 0 else
          Skipped(place[n] - LastPlace(run[..n], place[..n])) + if Decodes(run[n]) then 0 else 1
  }

  function Skipped(gap: int): nat { if gap <= 0 then 0 else 4 * ((gap - 1) / 4) }

  lemma SentPrefix(run: seq<Packet>, place: seq<nat>)
    requires Sent(run, place) && run != []
    ensures |place| == |run| && Sent(run[..|run| - 1], place[..|run| - 1])
  {
  }

  lemma {:induction false} LastPlaceBefore(run: seq<Packet>, place: seq<nat>, k: nat)
    requires |place| == |run| && k < |place|
    requires forall i, j :: 0 <= i < j < |place| ==> place[i] < place[j]
    ensures LastPlace(run[..k], place[..k]) < place[k]
  {
    if k > 0 {
      assert run[..k][..k - 1] == run[..k - 1] && place[..k][..k - 1] == place[..k - 1];
      LastPlaceBefore(run, place, k - 1);
    }
  }

  lemma {:induction false} LastSeqIsPlace(t: Synthesis.Tables, d: State, run: seq<Packet>, place: seq<nat>)
    requires t.ForSubbands(SUB) && d.Shape() && Sent(run, place)
    ensures HearAll(t, d, run).last == (LastPlace(run, place) + 4) % 4
  {
    hide Answer, Accepted, SeqNum, Lost, SlotOf, NumLost;
    if run != [] {
      SentPrefix(run, place);
      LastSeqIsPlace(t, d, run[..|run| - 1], place[..|run| - 1]);
    }
  }

  lemma GapModulo(p: int, q: int)
    requires -1 <= q < p
    ensures NumLost(p % 4, (q + 4) % 4) == p - q - 1 - Skipped(p - q)
  {
    var g := p - q - 1;
    assert (p % 4 - (q + 4) % 4 - 1 + 4) % 4 == g % 4;
  }

  /** What the last packet of a run adds to the timeline. */
  lemma {:induction false} TimelineStep(t: Synthesis.Tables, d: State, run: seq<Packet>)
    requires t.ForSubbands(SUB) && d.Shape() && run != []
    ensures var (n, before) := (|run| - 1, Timeline(t, d, run[..|run| - 1]));
      if !Accepted(run[n]) then Timeline(t, d, run) == before else
        var lost := NumLost(SeqNum(run[n]), HearAll(t, d, run[..n]).last);
        && before <= Timeline(t, d, run)
        && |Timeline(t, d, run)| == |before| + lost + (if Decodes(run[n]) then 1 else 0)
        && (forall i :: |before| <= i < |before| + lost ==> Timeline(t, d, run)[i].Concealed?)
        && (Decodes(run[n]) ==> Timeline(t, d, run)[|before| + lost] == Received(PcmOf(t, d, run, n)))
  {
    hide Answer, Accepted, SeqNum, NumLost, Decodes;
  }

  /** Over any run the timeline ends where the last accepted packet was sent,
    * short of exactly the missing frames. */
  lemma {:induction false} TimelineExact(t: Synthesis.Tables, d: State, run: seq<Packet>, place: seq<nat>)
    requires t.ForSubbands(SUB) && d.Shape() && Sent(run, place)
    ensures |Timeline(t, d, run)| + Missing(run, place) == LastPlace(run, place) + 1
  {
    hide *;
    if run == [] {
      NothingCounted(t, d, run, place);
    } else {
      var n := |run| - 1;
      SentPrefix(run, place);
      TimelineExact(t, d, run[..n], place[..n]);
      CountStep(t, d, run, place);
    }
  }

  lemma NothingCounted(t: Synthesis.Tables, d: State, run: seq<Packet>, place: seq<nat>)
    requires t.ForSubbands(SUB) && d.Shape() && Sent(run, place) && run == []
    ensures Timeline(t, d, run) == [] && Missing(run, place) == 0 && LastPlace(run, place) == -1
  {
  }

  /** A packet adds as many frames as it moves the place on, but for those then missing. */
  lemma {:induction false} CountStep(t: Synthesis.Tables, d: State, run: seq<Packet>, place: seq<nat>)
    requires t.ForSubbands(SUB) && d.Shape() && Sent(run, place) && run != []
    ensures var n := |run| - 1;
      && |Timeline(t, d, run)| - |Timeline(t, d, run[..n])|
         == LastPlace(run, place) - LastPlace(run[..n], place[..n])
            - (Missing(run, place) - Missing(run[..n], place[..n]))
  {
    hide *;
    var n := |run| - 1;
    SentPrefix(run, place);
    LastSeqIsPlace(t, d, run[..n], place[..n]);
    TimelineStep(t, d, run);
    PlaceStep(run, place);
    if Accepted(run[n]) {
      GapModulo(place[n], LastPlace(run[..n], place[..n]));
    }
  }

  lemma AcceptedHas(packet: Packet)
    ensures Accepted(packet) ==> HasSync(packet) && |packet| > 2 && 0 <= SeqNum(packet) < NUM_SEQ_CODES
  {
  }

  lemma PlaceStep(run: seq<Packet>, place: seq<nat>)
    requires Sent(run, place) && run != []
    ensures var (n, q) := (|run| - 1, LastPlace(run[..|run| - 1], place[..|run| - 1]));
      if Accepted(run[n]) then
        && HasSync(run[n]) && SeqNum(run[n]) == place[n] % 4 && q < place[n] == LastPlace(run, place)
        && Missing(run, place)
           == Missing(run[..n], place[..n]) + Skipped(place[n] - q) + (if Decodes(run[n]) then 0 else 1)
      else LastPlace(run, place) == q && Missing(run, place) == Missing(run[..n], place[..n])
  {
    hide SeqNum, Decodes, Skipped, Accepted;
    LastPlaceBefore(run, place, |run| - 1);
    AcceptedHas(run[|run| - 1]);
  }

  /** No gap of more than three lost packets, and every accepted packet decodes. */
  ghost predicate Gentle(run: seq<Packet>, place: seq<nat>)
    requires |place| == |run|
  {
    forall k :: 0 <= k < |run| && Accepted(run[k]) ==>
      Decodes(run[k]) && place[k] - LastPlace(run[..k], place[..k]) <= NUM_SEQ_CODES
  }

  lemma {:induction false} NothingMissing(run: seq<Packet>, place: seq<nat>)
    requires Sent(run, place)
    ensures Missing(run, place) == 0 <==> Gentle(run, place)
  {
    hide Accepted, Decodes;
    if run != [] {
      var n := |run| - 1;
      SentPrefix(run, place);
      NothingMissing(run[..n], place[..n]);
      LastPlaceBefore(run, place, n);
      GentlePrefix(run, place);
      hide Gentle, LastPlace;
    }
  }

  lemma GentlePrefix(run: seq<Packet>, place: seq<nat>)
    requires |place| == |run| && run != []
    ensures var n := |run| - 1;
      Gentle(run, place) <==>
        (Gentle(run[..n], place[..n]) &&
         (Accepted(run[n]) ==>
            Decodes(run[n]) && place[n] - LastPlace(run[..n], place[..n]) <= NUM_SEQ_CODES))
  {
    hide Accepted, Decodes, LastPlace;
    var n := |run| - 1;
    forall k | 0 <= k < n ensures run[..n][..k] == run[..k] && place[..n][..k] == place[..k] && run[..n][k] == run[k] {
    }
  }

  /** After the packet sent in place `p` exactly `p + 1` frames have been put out
    * - and every earlier one at its own place - exactly if no gap was longer than
    * three packets and every accepted packet decoded. */
  lemma {:induction false} TimelineKept(t: Synthesis.Tables, d: State, run: seq<Packet>, place: seq<nat>)
    requires t.ForSubbands(SUB) && d.Shape() && Sent(run, place)
    ensures |Timeline(t, d, run)| == LastPlace(run, place) + 1 <==> Gentle(run, place)
    ensures Gentle(run, place) ==>
      forall k :: 0 <= k < |run| ==> InItsPlace(t, d, run, place, k)
  {
    hide Timeline, InItsPlace, Gentle, Missing, LastPlace;
    TimelineExact(t, d, run, place);
    NothingMissing(run, place);
    if Gentle(run, place) {
      InPlace(t, d, run, place);
    }
  }

  /** Packet `k`, if it is accepted, decodes, and its samples are the frame at its place. */
  ghost predicate InItsPlace(t: Synthesis.Tables, d: State, run: seq<Packet>, place: seq<nat>, k: nat)
    requires t.ForSubbands(SUB) && d.Shape() && k < |run| == |place|
  {
    Accepted(run[k]) ==>
      && Decodes(run[k]) && place[k] < |Timeline(t, d, run)|
      && Timeline(t, d, run)[place[k]] == Received(PcmOf(t, d, run, k))
  }

  lemma {:induction false} InPlace(t: Synthesis.Tables, d: State, run: seq<Packet>, place: seq<nat>)
    requires t.ForSubbands(SUB) && d.Shape() && Sent(run, place) && Gentle(run, place)
    ensures forall k :: 0 <= k < |run| ==> InItsPlace(t, d, run, place, k)
  {
    hide InItsPlace, Gentle, Accepted, Synthesis.Tables.ForSubbands;
    if run != [] {
      var n := |run| - 1;
      SentPrefix(run, place);
      GentlePrefix(run, place);
      InPlace(t, d, run[..n], place[..n]);
      forall k | 0 <= k < n ensures InItsPlace(t, d, run, place, k) {
        StaysInPlace(t, d, run, place, k);
      }
      LastInPlace(t, d, run, place);
    }
  }

  /** One packet more leaves the earlier ones in their places. */
  lemma {:induction false} StaysInPlace(t: Synthesis.Tables, d: State, run: seq<Packet>, place: seq<nat>, k: nat)
    requires t.ForSubbands(SUB) && d.Shape() && k < |run| - 1 == |place| - 1
    requires InItsPlace(t, d, run[..|run| - 1], place[..|run| - 1], k)
    ensures InItsPlace(t, d, run, place, k)
  {
    hide HearAll, Accepted, Decodes, Answer, PcmOf;
    TimelineStep(t, d, run);
    if Accepted(run[k]) {
      assert run[..|run| - 1][k] == run[k] && place[..|run| - 1][k] == place[k];
      SamePcm(t, d, run, k);
    }
  }

  lemma SamePcm(t: Synthesis.Tables, d: State, run: seq<Packet>, k: nat)
    requires t.ForSubbands(SUB) && d.Shape() && k < |run| - 1
    requires Accepted(run[k]) && Decodes(run[k])
    ensures PcmOf(t, d, run[..|run| - 1], k) == PcmOf(t, d, run, k)
  {
    hide HearAll, Accepted, Decodes, Answer;
    assert run[..|run| - 1][..k] == run[..k];
  }

  lemma {:induction false} LastInPlace(t: Synthesis.Tables, d: State, run: seq<Packet>, place: seq<nat>)
    requires t.ForSubbands(SUB) && d.Shape() && Sent(run, place) && Gentle(run, place) && run != []
    ensures |place| == |run| && InItsPlace(t, d, run, place, |run| - 1)
  {
    hide HearAll, Accepted, Decodes, PcmOf, Gentle, Missing, LastPlace, NumLost;
    SentPrefix(run, place);
    if Accepted(run[|run| - 1]) {
      TimelineStep(t, d, run);
      TimelineExact(t, d, run, place);
      NothingMissing(run, place);
      LastIs(run, place);
    }
  }

  lemma LastIs(run: seq<Packet>, place: seq<nat>)
    requires |place| == |run| > 0 && Gentle(run, place) && Accepted(run[|run| - 1])
    ensures Decodes(run[|run| - 1]) && LastPlace(run, place) == place[|run| - 1]
  {
    hide Decodes, Accepted;
  }

  /** What is not a received packet's place is concealed. */
  lemma {:induction false} GapsConcealed(t: Synthesis.Tables, d: State, run: seq<Packet>, place: seq<nat>, i: nat)
    requires t.ForSubbands(SUB) && d.Shape() && Sent(run, place) && Gentle(run, place) && i < |Timeline(t, d, run)|
    requires forall k :: 0 <= k < |run| && Accepted(run[k]) ==> place[k] != i
    ensures Timeline(t, d, run)[i].Concealed?
  {
    if run != [] {
      var n := |run| - 1;
      SentPrefix(run, place);
      GentlePrefix(run, place);
      TimelineExact(t, d, run, place);
      NothingMissing(run, place);
      TimelineStep(t, d, run);
      hide HearAll, Decodes, PcmOf, Missing, NumLost, Accepted;
      if i < |Timeline(t, d, run[..n])| {
        GapsConcealed(t, d, run[..n], place[..n], i);
      }
    }
  }

  // ----- the filter over a run -----

  /** The blocks of a packet's frame. */
  function BlocksOf(packet: Packet): (b: seq<seq<int>>)
    requires HasSync(packet) && Decodes(packet)
    ensures |b| == 15 && forall i :: 0 <= i < 15 ==> |b[i]| == SUB
  {
    Blocks(FrameOf(packet), |packet| - 2)
  }

  lemma SilenceDecodes()
    ensures |SILENCE| == SILENCE_LENGTH + 2 && SILENCE[0] == MSBC_SYNCWORD && Parse(SILENCE, SILENCE_LENGTH).Frame?
  {
    hide Parse;
    SilenceSize();
    SilentFrameAccepted([0, 0]);
  }

  /** The blocks of the silent frame, `n` times over. */
  function SilentBlocks(n: nat): (b: seq<seq<int>>)
    ensures |b| == 15 * n && forall i :: 0 <= i < |b| ==> |b[i]| == SUB
  {
    if n == 0 then [] else
      SilenceDecodes();
      SilentBlocks(n - 1) + Blocks(SILENCE, SILENCE_LENGTH)
  }

  /** They are silence: while packets are lost the filter is fed zeros and rings out. */
  lemma {:induction false} SilenceFed(n: nat, i: nat)
    requires i < 15 * n
    ensures SilentBlocks(n)[i] == [0, 0, 0, 0, 0, 0, 0, 0]
  {
    hide Blocks, Parse;
    SilenceDecodes();
    SilenceZero();
    if i < 15 * (n - 1) {
      SilenceFed(n - 1, i);
    }
  }

  lemma {:induction false} SilenceZero()
    ensures (SilenceDecodes();
      forall i :: 0 <= i < 15 ==> Blocks(SILENCE, SILENCE_LENGTH)[i] == [0, 0, 0, 0, 0, 0, 0, 0])
  {
    SilenceDecodes();
    SilentAudio.SilentSamples([0, 0]);
    hide Parse, SILENCE, INDICES0;
    assert SILENCE == INDICES0 + [0, 0] by { SilenceIs(); }
  }

  lemma SilenceIs()
    ensures SILENCE == INDICES0 + [0, 0]
  {
    hide INDICES0;
  }

  /** The number of the last accepted packet. */
  function LastSeq(run: seq<Packet>): (r: int)
    ensures 0 <= r < NUM_SEQ_CODES
  {
    if run == [] then 3
    else if Accepted(run[|run| - 1]) then SeqNum(run[|run| - 1]) else LastSeq(run[..|run| - 1])
  }

  lemma {:induction false} LastHeard(t: Synthesis.Tables, d: State, run: seq<Packet>)
    requires t.ForSubbands(SUB) && d.Shape()
    ensures HearAll(t, d, run).last == LastSeq(run)
  {
    hide Answer, Accepted, SeqNum, NumLost;
    if run != [] {
      LastHeard(t, d, run[..|run| - 1]);
    }
  }

  /** The blocks a packet makes the decoder filter. */
  function BlocksFor(packet: Packet, last: int): (b: seq<seq<int>>)
    requires 0 <= last < NUM_SEQ_CODES
    ensures forall i :: 0 <= i < |b| ==> |b[i]| == SUB
  {
    if !Accepted(packet) then [] else
      SilentBlocks(NumLost(SeqNum(packet), last)) + if Decodes(packet) then BlocksOf(packet) else []
  }

  /** All blocks the decoder filters in a run: those of the frames that decode, and
    * the silent frame's for the packets lost before them. */
  function AllBlocks(run: seq<Packet>): (b: seq<seq<int>>)
    ensures forall i :: 0 <= i < |b| ==> |b[i]| == SUB
  {
    if run == [] then [] else
      var n := |run| - 1;
      AllBlocks(run[..n]) + BlocksFor(run[n], LastSeq(run[..n]))
  }

  /** What the filter makes of these blocks, in the state the decoder has come to. */
  function StreamOf(t: Synthesis.Tables, v: seq<int>, d: State, blocks: seq<seq<int>>): (pcm: seq<int>)
    requires t.ForSubbands(SUB) && |v| == 20 * SUB && forall i :: 0 <= i < |blocks| ==> |blocks[i]| == SUB
    ensures |pcm| == SUB * |blocks|
  {
    Synthesis.Filter(d.InEffect(t), SUB, v, blocks)
  }

  /** The frames so far are pieces of one filter run over these blocks. */
  ghost predicate Streams(t: Synthesis.Tables, v: seq<int>, h: Heard, blocks: seq<seq<int>>)
    requires t.ForSubbands(SUB) && |v| == 20 * SUB && forall i :: 0 <= i < |blocks| ==> |blocks[i]| == SUB
  {
    && h.Ok() && |blocks| == 15 * |h.slots| && (h.decoder.Fresh? ==> blocks == [])
    && h.decoder.Register() == Synthesis.RegisterAfter(h.decoder.InEffect(t), SUB, v, blocks)
    && PiecesOf(h.slots, StreamOf(t, v, h.decoder, blocks))
  }

  /** What the decoder put out for a frame is the piece of the stream at the frame's own place. */
  ghost predicate PiecesOf(slots: seq<Slot>, stream: seq<int>) {
    && |stream| == FS * |slots|
    && forall j :: 0 <= j < |slots| ==> slots[j].Sound() == stream[FS * j..FS * j + FS]
  }

  lemma PiecesMore(slots: seq<Slot>, stream: seq<int>, slot: Slot, more: seq<int>)
    requires PiecesOf(slots, stream) && |more| == FS && slot.Sound() == more
    ensures PiecesOf(slots + [slot], stream + more)
  {
    var n := |slots|;
    forall j | 0 <= j < n + 1
      ensures (slots + [slot])[j].Sound() == (stream + more)[FS * j..FS * j + FS]
    {
      if j < n {
        assert (stream + more)[FS * j..FS * j + FS] == stream[FS * j..FS * j + FS];
      } else {
        assert (stream + more)[FS * n..FS * n + FS] == more;
      }
    }
  }

  /** One frame more continues the stream. */
  lemma {:induction false} StreamsOn(t: Synthesis.Tables, v: seq<int>, h: Heard, blocks: seq<seq<int>>, d: State,
                                     more: seq<seq<int>>, slot: Slot)
    requires t.ForSubbands(SUB) && |v| == 20 * SUB && |more| == 15
    requires (forall i :: 0 <= i < |blocks| ==> |blocks[i]| == SUB) && forall i :: 0 <= i < |more| ==> |more[i]| == SUB
    requires Streams(t, v, h, blocks) && d.Shape() && d.Running?
    requires h.decoder.Running? ==> d.InEffect(t) == h.decoder.InEffect(t)
    requires d.Register() == Synthesis.RegisterAfter(d.InEffect(t), SUB, h.decoder.Register(), more)
    requires slot.Sound() == Synthesis.Filter(d.InEffect(t), SUB, h.decoder.Register(), more)
    ensures Streams(t, v, Heard(h.slots + [slot], h.last, d), blocks + more)
  {
    Restated(t, v, h, blocks, d);
    hide Synthesis.RegisterAfter, Synthesis.Filter, PiecesOf, State.InEffect, State.Register;
    var e := d.InEffect(t);
    FilterAppend(e, v, blocks, more);
    PiecesMore(h.slots, StreamOf(t, v, d, blocks), slot, Synthesis.Filter(e, SUB, h.decoder.Register(), more));
  }

  /** The first call settles the tables in effect; before it nothing was filtered. */
  lemma Restated(t: Synthesis.Tables, v: seq<int>, h: Heard, blocks: seq<seq<int>>, d: State)
    requires t.ForSubbands(SUB) && |v| == 20 * SUB && forall i :: 0 <= i < |blocks| ==> |blocks[i]| == SUB
    requires Streams(t, v, h, blocks) && (h.decoder.Running? ==> d.InEffect(t) == h.decoder.InEffect(t))
    ensures h.decoder.Register() == Synthesis.RegisterAfter(d.InEffect(t), SUB, v, blocks)
    ensures PiecesOf(h.slots, StreamOf(t, v, d, blocks))
  {
    if h.decoder.Fresh? {
      assert h.slots == [] && blocks == [];
    }
  }

  lemma {:induction false} StreamsConceal(t: Synthesis.Tables, v: seq<int>, h: Heard, blocks: seq<seq<int>>)
    requires t.ForSubbands(SUB) && |v| == 20 * SUB && forall i :: 0 <= i < |blocks| ==> |blocks[i]| == SUB
    requires Streams(t, v, h, blocks)
    ensures (SilenceDecodes();
      h.Ok() && Streams(t, v, Heard(h.slots + [Concealed(Ringing(t, h.decoder))], h.last,
                                    Decoded(t, h.decoder, SILENCE, SILENCE_LENGTH).0),
                        blocks + Blocks(SILENCE, SILENCE_LENGTH)))
  {
    hide Decoded, State.InEffect, State.Register, Blocks, Synthesis.RegisterAfter, Synthesis.Filter, Parse, PiecesOf;
    hide StreamOf;
    SilenceDecodes();
    CallContinues(t, h.decoder, SILENCE, SILENCE_LENGTH);
    StreamsOn(t, v, h, blocks, Decoded(t, h.decoder, SILENCE, SILENCE_LENGTH).0, Blocks(SILENCE, SILENCE_LENGTH),
              Concealed(Ringing(t, h.decoder)));
  }

  lemma {:induction false} StreamsSilent(t: Synthesis.Tables, v: seq<int>, h: Heard, blocks: seq<seq<int>>, n: nat)
    requires t.ForSubbands(SUB) && |v| == 20 * SUB && forall i :: 0 <= i < |blocks| ==> |blocks[i]| == SUB
    requires Streams(t, v, h, blocks)
    ensures h.Ok() && Streams(t, v, Heard(h.slots + Lost(t, h.decoder, n), h.last, AfterSilence(t, h.decoder, n)),
                              blocks + SilentBlocks(n))
  {
    assert h.Ok();
    hide *;
    SilenceMore(t, h, blocks, n);
    if n > 0 {
      StreamsSilent(t, v, h, blocks, n - 1);
      var before := Heard(h.slots + Lost(t, h.decoder, n - 1), h.last, AfterSilence(t, h.decoder, n - 1));
      StreamsConceal(t, v, before, blocks + SilentBlocks(n - 1));
    }
  }

  /** Decoding the silent frame once more. */
  lemma SilenceMore(t: Synthesis.Tables, h: Heard, blocks: seq<seq<int>>, n: nat)
    requires t.ForSubbands(SUB) && h.Ok() && forall i :: 0 <= i < |blocks| ==> |blocks[i]| == SUB
    ensures n == 0 ==>
      && Heard(h.slots + Lost(t, h.decoder, n), h.last, AfterSilence(t, h.decoder, n)) == h
      && blocks + SilentBlocks(n) == blocks
    ensures n > 0 ==> (SilenceDecodes();
      var d, sofar := AfterSilence(t, h.decoder, n - 1), blocks + SilentBlocks(n - 1);
      && (forall i :: 0 <= i < |sofar| ==> |sofar[i]| == SUB)
      && Heard(h.slots + Lost(t, h.decoder, n), h.last, AfterSilence(t, h.decoder, n))
         == Heard((h.slots + Lost(t, h.decoder, n - 1)) + [Concealed(Ringing(t, d))], h.last,
                  Decoded(t, d, SILENCE, SILENCE_LENGTH).0)
      && blocks + SilentBlocks(n) == sofar + Blocks(SILENCE, SILENCE_LENGTH))
  {
    hide Decoded, Blocks, Parse, Ringing;
    if n > 0 {
      SilenceDecodes();
      Associative(h.slots, Lost(t, h.decoder, n - 1), [Concealed(Ringing(t, AfterSilence(t, h.decoder, n - 1)))]);
      Associative(blocks, SilentBlocks(n - 1), Blocks(SILENCE, SILENCE_LENGTH));
    }
  }

  lemma {:induction false} StreamsHeard(t: Synthesis.Tables, v: seq<int>, h: Heard, blocks: seq<seq<int>>,
                                        packet: Packet)
    requires t.ForSubbands(SUB) && |v| == 20 * SUB && forall i :: 0 <= i < |blocks| ==> |blocks[i]| == SUB
    requires Streams(t, v, h, blocks)
    ensures h.Ok() && Streams(t, v, Hear(t, h, packet), blocks + BlocksFor(packet, h.last))
  {
    AcceptedHas(packet);
    hide Decodes, HasSync, Accepted, SeqNum, NumLost, SilentBlocks, AfterSilence, Lost, BlocksOf, AnswerTo;
    if !Accepted(packet) {
      assert blocks + [] == blocks;
    } else {
      var n := NumLost(SeqNum(packet), h.last);
      StreamsSilent(t, v, h, blocks, n);
      var before := Heard(h.slots + Lost(t, h.decoder, n), h.last, AfterSilence(t, h.decoder, n));
      StreamsAnswered(t, v, before, blocks + SilentBlocks(n), packet, SeqNum(packet));
      hide Streams;
      Associative(blocks, SilentBlocks(n), if Decodes(packet) then BlocksOf(packet) else []);
    }
  }

  lemma {:induction false} StreamsAnswered(t: Synthesis.Tables, v: seq<int>, h: Heard, blocks: seq<seq<int>>,
                                           packet: Packet, last: int)
    requires t.ForSubbands(SUB) && |v| == 20 * SUB && forall i :: 0 <= i < |blocks| ==> |blocks[i]| == SUB
    requires Streams(t, v, h, blocks) && HasSync(packet) && 0 <= last < NUM_SEQ_CODES
    ensures var r := AnswerTo(t, h.decoder, packet);
      Streams(t, v, Heard(h.slots + SlotOf(r.1), last, r.0),
              blocks + if Decodes(packet) then BlocksOf(packet) else [])
  {
    hide Decoded, State.InEffect, State.Register, Blocks, Synthesis.RegisterAfter, Synthesis.Filter, Parse, PiecesOf;
    hide StreamOf;
    var r := AnswerTo(t, h.decoder, packet);
    CallContinues(t, h.decoder, FrameOf(packet), |packet| - 2);
    if Decodes(packet) {
      StreamsOn(t, v, h, blocks, r.0, BlocksOf(packet), Received(r.1.pcm));
    } else {
      Restated(t, v, h, blocks, r.0);
      assert blocks + [] == blocks && h.slots + [] == h.slots;
    }
  }

  /** The samples the filter puts out over a whole run, the concealed frames' included. */
  function Stream(t: Synthesis.Tables, d: State, run: seq<Packet>): (pcm: seq<int>)
    requires t.ForSubbands(SUB) && d.Shape()
  {
    StreamOf(t, d.Register(), HearAll(t, d, run).decoder, AllBlocks(run))
  }

  lemma {:induction false} RunStreams(t: Synthesis.Tables, d: State, run: seq<Packet>)
    requires t.ForSubbands(SUB) && d.Shape()
    ensures Streams(t, d.Register(), HearAll(t, d, run), AllBlocks(run))
  {
    hide State.InEffect, State.Register, Hear, BlocksFor;
    if run != [] {
      var n := |run| - 1;
      hide Streams;
      RunStreams(t, d, run[..n]);
      LastHeard(t, d, run[..n]);
      StreamsHeard(t, d.Register(), HearAll(t, d, run[..n]), AllBlocks(run[..n]), run[n]);
    }
  }

  /** Whatever was lost or damaged, over any run the received frames are pieces, each
    * at its place on the timeline, of one run of the standard's filter over all blocks. */
  lemma {:induction false} OneFilterRun(t: Synthesis.Tables, d: State, run: seq<Packet>)
    requires t.ForSubbands(SUB) && d.Shape()
    ensures PiecesOf(Timeline(t, d, run), Stream(t, d, run))
  {
    hide State.InEffect, State.Register, HearAll, AllBlocks, PiecesOf;
    RunStreams(t, d, run);
  }

  /** Some packet of the run is accepted. */
  predicate AnyAccepted(run: seq<Packet>) { exists k :: 0 <= k < |run| && Accepted(run[k]) }

  /** The decoder was spoilt before, or its first call is for a packet with less than
    * four bytes of frame. */
  ghost predicate Spoilt(d: State, run: seq<Packet>) {
    if d.Running? then !d.isSet
    else exists k :: 0 <= k < |run| && !AnyAccepted(run[..k]) && Accepted(run[k]) && SeqNum(run[k]) == 0 && |run[k]| < 6
  }

  /** The filter's matrix is in effect in full exactly if the decoder is not spoilt. */
  lemma {:induction false} InEffectIff(t: Synthesis.Tables, d: State, run: seq<Packet>)
    requires t.ForSubbands(SUB) && d.Shape()
    ensures HearAll(t, d, run).decoder.InEffect(t) == if Spoilt(d, run) then Synthesis.LastRowOnly(t, SUB) else t
  {
    SpoiltIff(t, d, run);
    hide HearAll, Spoilt, Synthesis.LastRowOnly;
  }

  lemma {:induction false} SpoiltIff(t: Synthesis.Tables, d: State, run: seq<Packet>)
    requires t.ForSubbands(SUB) && d.Shape()
    ensures var now := HearAll(t, d, run).decoder;
      && (now.Fresh? <==> d.Fresh? && !AnyAccepted(run))
      && (Spoilt(d, run) <==> now.Running? && !now.isSet)
  {
    hide Accepted, SeqNum, Hear, NumLost;
    if run != [] {
      var n := |run| - 1;
      var prev := run[..n];
      SpoiltIff(t, d, prev);
      HearState(t, HearAll(t, d, prev), run[n]);
      LastHeard(t, d, prev);
      NothingBefore(prev);
      AnyMore(run);
      AcceptedHas(run[n]);
      SpoiltMore(d, run);
      hide Spoilt, AnyAccepted;
      if Accepted(run[n]) {
        assert NumLost(SeqNum(run[n]), 3) == 0 <==> SeqNum(run[n]) == 0 by { NoneLost(SeqNum(run[n])); }
      }
    }
  }

  lemma NoneLost(s: int)
    requires 0 <= s < NUM_SEQ_CODES
    ensures NumLost(s, 3) == 0 <==> s == 0
  {
  }

  lemma AnyMore(run: seq<Packet>)
    requires run != []
    ensures AnyAccepted(run) <==> AnyAccepted(run[..|run| - 1]) || Accepted(run[|run| - 1])
  {
    hide Accepted;
  }

  lemma {:induction false} NothingBefore(run: seq<Packet>)
    ensures !AnyAccepted(run) ==> LastSeq(run) == 3
  {
    hide Accepted;
    if run != [] && !AnyAccepted(run) {
      assert !AnyAccepted(run[..|run| - 1]);
      NothingBefore(run[..|run| - 1]);
    }
  }

  lemma SpoiltMore(d: State, run: seq<Packet>)
    requires run != []
    ensures var (n, p) := (|run| - 1, run[|run| - 1]); var prev := run[..n];
      && (d.Running? ==> (Spoilt(d, run) <==> !d.isSet) && (Spoilt(d, prev) <==> !d.isSet))
      && (d.Fresh? ==>
            (Spoilt(d, run) <==>
              Spoilt(d, prev) || (!AnyAccepted(prev) && Accepted(p) && SeqNum(p) == 0 && |p| < 6)))
  {
    hide AnyAccepted, Accepted, SeqNum;
    var n := |run| - 1;
    forall k | 0 <= k < n ensures run[..n][..k] == run[..k] && run[..n][k] == run[k] {
    }
  }

  /** What a packet does to the decoder's set-up. */
  lemma {:induction false} HearState(t: Synthesis.Tables, h: Heard, packet: Packet)
    requires t.ForSubbands(SUB) && h.Ok()
    ensures var r := Hear(t, h, packet).decoder;
      if !Accepted(packet) then r == h.decoder
      else
        && r.Running?
        && r.isSet == if h.decoder.Running? then h.decoder.isSet
                      else NumLost(SeqNum(packet), h.last) > 0 || |packet| >= 6
  {
    AcceptedHas(packet);
    hide Parse, Blocks, Synthesis.RegisterAfter, Synthesis.Filter, NumLost, SeqNum, Accepted;
    if Accepted(packet) {
      SilenceState(t, h.decoder, NumLost(SeqNum(packet), h.last));
      hide AfterSilence;
    }
  }

  lemma {:induction false} SilenceState(t: Synthesis.Tables, d: State, n: nat)
    requires t.ForSubbands(SUB) && d.Shape()
    ensures var r := AfterSilence(t, d, n);
      if n == 0 then r == d else r.Running? && r.isSet == (d.Fresh? || d.isSet)
  {
    hide Parse, Blocks, Synthesis.RegisterAfter, Synthesis.Filter;
    if n > 0 {
      SilenceState(t, d, n - 1);
    }
  }

  /** A run without losses: packet `k` of the stream is packet `k` of the run, and decodes. */
  ghost predicate Lossless(run: seq<Packet>) {
    forall k :: 0 <= k < |run| ==> Accepted(run[k]) && SeqNum(run[k]) == k % NUM_SEQ_CODES && Decodes(run[k])
  }

  /** It leaves no gap on the timeline. */
  lemma {:induction false} LosslessTimeline(t: Synthesis.Tables, d: State, run: seq<Packet>)
    requires t.ForSubbands(SUB) && d.Shape() && Lossless(run)
    ensures var h := HearAll(t, d, run);
      && h.last == (|run| + 3) % 4 && |h.slots| == |run| && forall j :: 0 <= j < |h.slots| ==> h.slots[j].Received?
  {
    hide *;
    if run == [] {
      HearsNothing(t, d);
    } else {
      var n := |run| - 1;
      LosslessMore(run);
      LosslessTimeline(t, d, run[..n]);
      TimelineStep(t, d, run);
      LastHeard(t, d, run);
      LostNone(n);
      SlotsAre(t, d, run);
    }
  }

  lemma HearsNothing(t: Synthesis.Tables, d: State)
    requires t.ForSubbands(SUB) && d.Shape()
    ensures HearAll(t, d, []) == Begin(d) && Begin(d).last == 3 && Begin(d).slots == []
  {
  }

  lemma SlotsAre(t: Synthesis.Tables, d: State, run: seq<Packet>)
    requires t.ForSubbands(SUB) && d.Shape() && run != []
    ensures Timeline(t, d, run) == HearAll(t, d, run).slots
    ensures Timeline(t, d, run[..|run| - 1]) == HearAll(t, d, run[..|run| - 1]).slots
  {
    hide HearAll;
  }

  lemma LostNone(n: nat)
    ensures NumLost(n % NUM_SEQ_CODES, (n + 3) % 4) == 0 && n % NUM_SEQ_CODES == (n + 4) % 4
  {
  }

  lemma LosslessMore(run: seq<Packet>)
    requires Lossless(run) && run != []
    ensures var n := |run| - 1;
      && Lossless(run[..n]) && Accepted(run[n]) && HasSync(run[n]) && |run[n]| > 2 && Decodes(run[n])
      && SeqNum(run[n]) == n % NUM_SEQ_CODES == LastSeq(run)
  {
    hide Accepted, HasSync, SeqNum, Decodes;
    AcceptedHas(run[|run| - 1]);
  }
}
