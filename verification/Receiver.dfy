/** The receive path: what packets come to, put out through the loss concealment and
  * the buffer towards the client.  Decoding and concealment are switched on.
  */
module Receiver {
  import opened Sequences
  import opened Bits
  import opened Concealment
  import opened OutputBuffer
  import opened Decoder
  import opened PacketTimeline
  import opened SbcFrame
  import opened SbcFormat
  import Synthesis

  const PCM_BYTES := 2 * FS

  const STATUS_SUCCESS := 0
  const STATUS_SCO_DATA_FAILED := -5

  /** Correlations of the history at the moments when lost packets are concealed: a
    * packet reveals at most three. */
  ghost predicate Sized(cns: seq<seq<Correlation>>) {
    |cns| == NUM_SEQ_CODES - 1 && forall i :: 0 <= i < |cns| ==> |cns[i]| == N
  }

  // ----- the frames behind the slots -----

  /** The slots of the timeline, from the frames the concealment was given. */
  function SlotsOf(frames: seq<Concealment.Frame>): (slots: seq<Slot>)
    ensures |slots| == |frames|
  {
    seq(|frames|, k requires 0 <= k < |frames| =>
      if frames[k].Good? then Received(frames[k].pcm) else Concealed(frames[k].zir))
  }

  /** The correlations that were matched, one list for each lost frame. */
  function CnsOf(frames: seq<Concealment.Frame>): seq<seq<Correlation>> {
    if frames == [] then [] else
      var f := frames[|frames| - 1];
      CnsOf(frames[..|frames| - 1]) + if f.Good? then [] else [f.cn]
  }

  lemma FrameMore(frames: seq<Concealment.Frame>, f: Concealment.Frame)
    ensures SlotsOf(frames + [f]) == SlotsOf(frames) + [if f.Good? then Received(f.pcm) else Concealed(f.zir)]
    ensures CnsOf(frames + [f]) == CnsOf(frames) + if f.Good? then [] else [f.cn]
  {
    assert (frames + [f])[..|frames|] == frames;
  }

  // ----- the output -----

  /** From here on the first frame after a loss is the received signal alone. */
  const SETTLED := SBCRT + OLAL

  /** What was emitted for slot `j` is what was received for it - all of it if the
    * slot before was received too, from where the signal has settled if not. */
  ghost predicate Plays(slots: seq<Slot>, e: seq<int>, j: nat)
    requires j < |slots| && |e| == FS * |slots|
  {
    slots[j].Received? ==>
      && |slots[j].pcm| == FS
      && (if j == 0 || slots[j - 1].Received? then e[FS * j..FS * j + FS] == slots[j].pcm
          else e[FS * j + SETTLED..FS * j + FS] == slots[j].pcm[SETTLED..])
  }

  ghost predicate PlaysAll(slots: seq<Slot>, e: seq<int>) {
    |e| == FS * |slots| && forall j :: 0 <= j < |slots| ==> Plays(slots, e, j)
  }

  /** Whether the latest slot leaves a loss to recover from. */
  predicate InLoss(slots: seq<Slot>) { slots != [] && slots[|slots| - 1].Concealed? }

  /** One slot more, with the samples emitted for it. */
  lemma {:induction false} PlaysMore(slots: seq<Slot>, e: seq<int>, slot: Slot, out: seq<int>)
    requires PlaysAll(slots, e) && |out| == FS
    requires slot.Received? ==>
      |slot.pcm| == FS && if InLoss(slots) then out[SETTLED..] == slot.pcm[SETTLED..] else out == slot.pcm
    ensures PlaysAll(slots + [slot], e + out)
  {
    var (s, f, n) := (slots + [slot], e + out, |slots|);
    forall j | 0 <= j < |s| ensures Plays(s, f, j) {
      if j < n {
        assert Plays(slots, e, j);
        assert f[FS * j..FS * j + FS] == e[FS * j..FS * j + FS];
        assert f[FS * j + SETTLED..FS * j + FS] == e[FS * j + SETTLED..FS * j + FS];
      } else {
        assert f[FS * n..FS * n + FS] == out;
        assert f[FS * n + SETTLED..FS * n + FS] == out[SETTLED..];
      }
    }
  }

  /** If all frames were received and are pieces of a stream, it is the stream that is emitted. */
  lemma {:induction false} StreamEmitted(slots: seq<Slot>, e: seq<int>, stream: seq<int>)
    requires PlaysAll(slots, e) && PiecesOf(slots, stream) && forall j :: 0 <= j < |slots| ==> slots[j].Received?
    ensures e == stream
  {
    forall i | 0 <= i < |e| ensures e[i] == stream[i] {
      var j := i / FS;
      assert Plays(slots, e, j);
      assert e[FS * j..FS * j + FS][i - FS * j] == stream[FS * j..FS * j + FS][i - FS * j];
    }
  }

  /** The decoder's answer to the silent frame. */
  ghost predicate OfSilence(t: Synthesis.Tables, d: State, r: (State, Sound))
    requires t.ForSubbands(SUB) && d.Shape()
  {
    SilenceSize();
    r == Decoded(t, d, SILENCE, SILENCE_LENGTH)
  }

  /** The silent frame is always decoded to a frame of samples. */
  lemma {:induction false} SilenceHeard(t: Synthesis.Tables, d: State, r: (State, Sound), now: State, framelen: int,
                                        pcm: seq<byte>)
    requires t.ForSubbands(SUB) && d.Shape() && OfSilence(t, d, r) && Answers(r, now, framelen, pcm)
    ensures r.1 == Samples(Ringing(t, d)) && HoldsAnswer(r, now, framelen, pcm)
  {
    hide Parse, Big, Decoded, ToSamples, Swapped, Answers, HoldsAnswer;
    SilenceDecodes();
    SoundIs(t, d, SILENCE, SILENCE_LENGTH);
    AnsweredSound(r, now, framelen, pcm);
  }

  lemma OfSilenceIs(t: Synthesis.Tables, d: State, r: (State, Sound))
    requires t.ForSubbands(SUB) && d.Shape() && |SILENCE| == SILENCE_LENGTH + 2 && SILENCE[0] == MSBC_SYNCWORD
    requires r == Decoded(t, d, SILENCE, SILENCE_LENGTH)
    ensures OfSilence(t, d, r)
  {
    hide Decoded;
  }

  /** How many frames a packet adds. */
  function ChunksFor(packet: Packet, last: int): nat
    requires 0 <= last < NUM_SEQ_CODES
  {
    if !Accepted(packet) then 0 else NumLost(SeqNum(packet), last) + if Decodes(packet) then 1 else 0
  }

  /** All a session has come to: what it has heard, and where its buffer is. */
  datatype Whole = Whole(heard: Heard, level: Level, cns: seq<seq<Correlation>>)

  /** After as many lost packets as there are correlations were concealed. */
  function Concealing(t: Synthesis.Tables, w: Whole, cns: seq<seq<Correlation>>, capacity: nat): (r: Whole)
    requires t.ForSubbands(SUB) && w.heard.Ok()
    ensures r.heard.Ok()
  {
    var (h, n) := (w.heard, |cns|);
    Whole(Heard(h.slots + Lost(t, h.decoder, n), h.last, AfterSilence(t, h.decoder, n)),
          Filled(w.level, n, PCM_BYTES, capacity), w.cns + cns)
  }

  /** One more. */
  function ConcealingOne(t: Synthesis.Tables, w: Whole, cn: seq<Correlation>, capacity: nat): Whole
    requires t.ForSubbands(SUB) && w.heard.Ok()
  {
    SilenceSize();
    var h := w.heard;
    Whole(Heard(h.slots + [Concealed(Ringing(t, h.decoder))], h.last,
                Decoded(t, h.decoder, SILENCE, SILENCE_LENGTH).0),
          Filled(w.level, 1, PCM_BYTES, capacity), w.cns + [cn])
  }

  /** One frame written with the decoder's answer to the silent frame is one packet concealed. */
  lemma ConcealingOneIs(t: Synthesis.Tables, w: Whole, r: (State, Sound), now: State, framelen: int, pcm: seq<byte>,
                        cn: seq<Correlation>, capacity: nat)
    requires t.ForSubbands(SUB) && w.heard.Ok() && OfSilence(t, w.heard.decoder, r)
    requires r.1 == Samples(Ringing(t, w.heard.decoder)) && HoldsAnswer(r, now, framelen, pcm)
    ensures |pcm| == PCM_BYTES && |Swapped(pcm)| % 2 == 0
    ensures ConcealingOne(t, w, cn, capacity)
      == Whole(Heard(w.heard.slots + [Concealed(ToSamples(Swapped(pcm)))], w.heard.last, now),
               Filled(w.level, 1, PCM_BYTES, capacity), w.cns + [cn])
  {
    hide Decoded, Ringing, ToSamples, Swapped, Filled;
  }

  lemma ConcealingMore(t: Synthesis.Tables, w: Whole, cns: seq<seq<Correlation>>, cn: seq<Correlation>, capacity: nat)
    requires t.ForSubbands(SUB) && w.heard.Ok()
    ensures Concealing(t, w, [], capacity) == w
    ensures Concealing(t, w, cns + [cn], capacity) == ConcealingOne(t, Concealing(t, w, cns, capacity), cn, capacity)
  {
    var (h, n) := (w.heard, |cns|);
    hide Decoded, Ringing, Filled;
    FilledTwice(w.level, n, 1, PCM_BYTES, capacity);
    FilledNone(w.level, capacity);
    Associative(h.slots, Lost(t, h.decoder, n), [Concealed(Ringing(t, AfterSilence(t, h.decoder, n)))]);
    Associative(w.cns, cns, [cn]);
    assert h.slots + [] == h.slots && w.cns + [] == w.cns;
  }

  /** After the frame of a packet with this number. */
  function Framing(t: Synthesis.Tables, w: Whole, packet: Packet, capacity: nat): Whole
    requires t.ForSubbands(SUB) && w.heard.Ok() && HasSync(packet)
  {
    var (h, r) := (w.heard, AnswerTo(t, w.heard.decoder, packet));
    Whole(Heard(h.slots + SlotOf(r.1), h.last, r.0), Filled(w.level, |SlotOf(r.1)|, PCM_BYTES, capacity), w.cns)
  }

  lemma FramingIs(t: Synthesis.Tables, w: Whole, packet: Packet, capacity: nat)
    requires t.ForSubbands(SUB) && w.heard.Ok() && HasSync(packet)
    ensures var (h, r) := (w.heard, AnswerTo(t, w.heard.decoder, packet));
      && Framing(t, w, packet, capacity)
         == Whole(Heard(h.slots + SlotOf(r.1), h.last, r.0), Filled(w.level, |SlotOf(r.1)|, PCM_BYTES, capacity), w.cns)
      && |SlotOf(r.1)| == (if r.1.Samples? then 1 else 0) && (r.1.Samples? <==> Decodes(packet))
  {
    hide AnswerTo, Filled;
  }

  /** One frame written with the decoder's answer to it, if there is one, is that frame handled. */
  lemma {:induction false} FramedIs(t: Synthesis.Tables, w: Whole, packet: Packet, now: State, framelen: int,
                                    pcm: seq<byte>, capacity: nat)
    requires t.ForSubbands(SUB) && w.heard.Ok() && HasSync(packet)
    requires HoldsAnswer(AnswerTo(t, w.heard.decoder, packet), now, framelen, pcm)
    ensures framelen > 0 <==> Decodes(packet)
    ensures framelen > 0 ==> |pcm| == PCM_BYTES && |Swapped(pcm)| % 2 == 0
    ensures Framing(t, w, packet, capacity)
      == if framelen > 0 then
           Whole(Heard(w.heard.slots + [Received(ToSamples(Swapped(pcm)))], w.heard.last, now),
                 Filled(w.level, 1, PCM_BYTES, capacity), w.cns)
         else Whole(Heard(w.heard.slots, w.heard.last, now), w.level, w.cns)
  {
    FilledNone(w.level, capacity);
    FramingIs(t, w, packet, capacity);
    SlotIs(AnswerTo(t, w.heard.decoder, packet), now, framelen, pcm);
    hide AnswerTo, Framing, Filled, ToSamples, Swapped, HoldsAnswer, Decodes;
  }

  /** The correlations a packet uses: one list for every packet lost before it. */
  function CnsFor(packet: Packet, last: int, cns: seq<seq<Correlation>>): seq<seq<Correlation>>
    requires 0 <= last < NUM_SEQ_CODES && |cns| == 3
  {
    if !Accepted(packet) then [] else
      LostFew(SeqNum(packet), last);
      cns[..NumLost(SeqNum(packet), last)]
  }

  /** After a packet. */
  function Handling(t: Synthesis.Tables, w: Whole, packet: Packet, cns: seq<seq<Correlation>>, capacity: nat): Whole
    requires t.ForSubbands(SUB) && w.heard.Ok() && |cns| == 3
  {
    Whole(Hear(t, w.heard, packet), Filled(w.level, ChunksFor(packet, w.heard.last), PCM_BYTES, capacity),
          w.cns + CnsFor(packet, w.heard.last, cns))
  }

  /** Handling an accepted packet is concealing what was lost before it, then its own frame. */
  lemma HandlingIs(t: Synthesis.Tables, w: Whole, packet: Packet, cns: seq<seq<Correlation>>, capacity: nat)
    requires t.ForSubbands(SUB) && w.heard.Ok() && Accepted(packet) && |cns| == 3
    ensures HasSync(packet) && |packet| > 2 && 0 <= SeqNum(packet) < NUM_SEQ_CODES == 4
    ensures var n := NumLost(SeqNum(packet), w.heard.last);
      n <= 3
      && var c := Concealing(t, w, cns[..n], capacity);
      && c.heard.Ok() && c.heard.last == w.heard.last
      && Handling(t, w, packet, cns, capacity)
         == Framing(t, c.(heard := c.heard.(last := SeqNum(packet))), packet, capacity)
  {
    AcceptedHas(packet);
    hide AnswerTo, Filled, NumLost, SeqNum, Accepted, HasSync, Decodes, AfterSilence, Lost;
    var n := NumLost(SeqNum(packet), w.heard.last);
    LostFew(SeqNum(packet), w.heard.last);
    FilledTwice(w.level, n, if Decodes(packet) then 1 else 0, PCM_BYTES, capacity);
  }

  lemma LostFew(seqNum: int, last: int)
    requires 0 <= seqNum < NUM_SEQ_CODES && 0 <= last < NUM_SEQ_CODES
    ensures NumLost(seqNum, last) <= 3
  {
  }

  /** What the handler finds in a packet's header. */
  lemma HeaderRead(t: Synthesis.Tables, w: Whole, packet: Packet, cns: seq<seq<Correlation>>, capacity: nat)
    requires t.ForSubbands(SUB) && w.heard.Ok() && |cns| == 3
    ensures Accepted(packet) <==> (HasSync(packet) && SeqCodeToNum(packet[1] / 16) >= 0)
    ensures HasSync(packet) <==> (|packet| > 2 && packet[2] == MSBC_SYNCWORD)
    ensures !Accepted(packet) ==> Handling(t, w, packet, cns, capacity) == w
    ensures Accepted(packet) ==> SeqCodeToNum(packet[1] / 16) == SeqNum(packet)
  {
    hide Answer, Synthesis.Tables.ForSubbands, Decodes;
  }

  /** What the decoder returns are 16-bit samples. */
  lemma SoundIs(t: Synthesis.Tables, d: State, data: seq<byte>, len: nat)
    requires t.ForSubbands(SUB) && d.Shape() && |data| >= len + 2 && data[0] == MSBC_SYNCWORD
    ensures IsSound(Decoded(t, d, data, len).1)
  {
    hide Synthesis.RegisterAfter, Synthesis.Filter, Parse, AreSamples;
    var s := SetUp(d, len);
    if Parse(data, len).Frame? {
      FilterSamples(s.InEffect(t), s.register, Blocks(data, len));
    }
  }

  ghost predicate IsSound(r: Sound) {
    r.Samples? ==> |r.pcm| == FS && AreSamples(r.pcm)
  }

  /** The bytes of a decoded frame, read back as samples, are the decoder's samples. */
  lemma BigRoundTrip(s: seq<int>)
    requires AreSamples(s)
    ensures |Big(s)| == 2 * |s| && |Big(s)| % 2 == 0 && ToSamples(Swapped(Big(s))) == s
  {
    hide AreSamples, ToSamples, ToLittle, Swapped;
    SwappedTwice(ToLittle(s));
    SamplesRoundTrip(s);
  }

  /** State, length and bytes hold a decoder's answer: the bytes, read back, are its samples. */
  ghost predicate HoldsAnswer(r: (State, Sound), now: State, framelen: int, pcm: seq<byte>) {
    && now == r.0 && (framelen > 0 <==> r.1.Samples?)
    && (r.1.Samples? ==> |pcm| == PCM_BYTES && ToSamples(Swapped(pcm)) == r.1.pcm)
  }

  lemma SlotIs(r: (State, Sound), now: State, framelen: int, pcm: seq<byte>)
    requires HoldsAnswer(r, now, framelen, pcm)
    ensures now == r.0 && (framelen > 0 <==> r.1.Samples?)
    ensures r.1.Samples? ==> |pcm| == PCM_BYTES && SlotOf(r.1) == [Received(ToSamples(Swapped(pcm)))]
    ensures !r.1.Samples? ==> forall s: seq<Slot> :: s + SlotOf(r.1) == s
  {
    hide ToSamples, Swapped;
  }

  lemma AnsweredSound(r: (State, Sound), now: State, framelen: int, pcm: seq<byte>)
    requires Answers(r, now, framelen, pcm) && IsSound(r.1)
    ensures HoldsAnswer(r, now, framelen, pcm)
  {
    hide AreSamples, Big, ToSamples, Swapped;
    if r.1.Samples? {
      BigRoundTrip(r.1.pcm);
    }
  }

  // ----- the receiver -----

  class Session {
    var lastSeqNum: int
    const decoder: SbcDecoder
    const plc: PlcState
    const out: MainBuffer
    /** Every frame handed to the main buffer; what the buffer had taken in, and
      * dropped, when the session began. */
    ghost var slots: seq<Slot>
    ghost var earlier: seq<byte>
    ghost var droppedEarlier: nat

    /** The arrays of the parts. */
    ghost predicate Apart()
      reads this
    {
      && plc.hist as object != out.data as object
      && plc.hist != decoder.channel.V && plc.hist != decoder.channel.offset
      && out.data as object != decoder.channel.V as object && out.data as object != decoder.channel.offset as object
    }

    /** The concealment has put out what the slots say, and unless the session dropped
      * a chunk the buffer has taken in those samples, low byte first. */
    ghost predicate Output()
      reads this, plc, plc.hist, out, out.data
    {
      && Apart() && plc.Valid() && out.Valid()
      && PlaysAll(slots, plc.emitted) && (plc.nbf > 0 <==> InLoss(slots)) && slots == SlotsOf(plc.frames)
      && droppedEarlier <= out.dropped && (slots == [] ==> out.dropped == droppedEarlier)
      && (out.dropped == droppedEarlier ==> out.accepted == earlier + ToLittle(plc.emitted))
    }

    ghost predicate Valid()
      reads this, decoder, decoder.channel, decoder.channel.V, decoder.channel.offset, plc, plc.hist, out, out.data
    {
      0 <= lastSeqNum < NUM_SEQ_CODES && Apart() && Output() && decoder.Valid()
    }

    lemma TablesFit()
      requires decoder.Valid()
      ensures decoder.t.ForSubbands(SUB)
    {
    }

    /** What the session has heard. */
    ghost function Now(): Heard
      reads this, decoder, decoder.channel
    {
      Heard(slots, lastSeqNum, decoder.Now())
    }

    /** What it has come to altogether. */
    ghost function All(): Whole
      reads this, decoder, decoder.channel, out, plc
    {
      Whole(Now(), out.Fill(), CnsOf(plc.frames))
    }

    constructor (t: Synthesis.Tables, capacity: nat, trim: nat)
      requires t.ForSubbands(SUB)
      ensures Valid() && Now() == Begin(Fresh) && earlier == [] && decoder.t == t && out.trim == trim
      ensures out.data.Length == capacity
      ensures fresh(plc) && fresh(plc.hist) && fresh(out) && fresh(out.data)
      ensures fresh(decoder) && fresh(decoder.channel) && fresh(decoder.channel.V) && fresh(decoder.channel.offset)
    {
      lastSeqNum := 3;
      decoder := new SbcDecoder(t);
      plc := new PlcState();
      out := new MainBuffer(capacity, trim);
      slots := [];
      earlier := [];
      droppedEarlier := 0;
      new;
    }

    /** A client connects.  If the audio link has to be opened the buffer is cleared;
      * if it is still open the buffer keeps what the client before has not taken. */
    method Connect(linkOpen: bool)
      requires Valid()
      modifies this, plc, plc.hist, out
      ensures Valid() && slots == [] && lastSeqNum == 3 && plc.emitted == [] && decoder.Now() == old(decoder.Now())
      ensures if linkOpen
        then
          && earlier == out.accepted == old(out.accepted) && out.delivered == old(out.delivered)
          && droppedEarlier == out.dropped
        else earlier == out.accepted == [] && out.delivered == [] && droppedEarlier == out.dropped == 0
    {
      hide SbcDecoder.Valid, PlcState.Valid, MainBuffer.Valid, ToLittle;
      if !linkOpen {
        out.Clear();
      }
      plc.InitPLC();
      lastSeqNum := 3;
      slots := [];
      earlier := out.accepted;
      droppedEarlier := out.dropped;
    }

    lemma Played()
      requires Valid()
      ensures AllSized(plc.frames) && plc.emitted == Play(plc.frames).emitted
      ensures slots == SlotsOf(plc.frames) && |plc.frames| == |slots|
    {
      hide SbcDecoder.Valid, MainBuffer.Valid, Play;
    }

    /** Hand one decoded frame on: to little endian, through the concealment, into the buffer. */
    method WriteToMainBuf(buf: array<byte>, good: bool, cn: seq<Correlation>)
      requires Output() && buf.Length == PCM_BYTES && |cn| == N && buf != out.data
      requires buf as object != plc.hist as object
      modifies buf, this`slots, plc, plc.hist, out, out.data
      ensures Output()
      ensures var heard := ToSamples(Swapped(old(buf[..])));
        slots == old(slots) + [if good then Received(heard) else Concealed(heard)]
      ensures CnsOf(plc.frames) == old(CnsOf(plc.frames)) + if good then [] else [cn]
      ensures |plc.emitted| == |old(plc.emitted)| + FS && old(plc.emitted) <= plc.emitted
      ensures buf[..] == ToLittle(plc.emitted[|old(plc.emitted)|..])
      ensures good && old(plc.nbf) == 0 ==> buf[..] == Swapped(old(buf[..]))
      ensures if old(out.tail) + PCM_BYTES <= out.data.Length
        then out.accepted == old(out.accepted) + buf[..] && out.dropped == old(out.dropped)
        else out.accepted == old(out.accepted) && out.dropped == old(out.dropped) + 1
      ensures out.delivered == old(out.delivered)
      ensures out.Fill() == Filled(old(out.Fill()), 1, PCM_BYTES, out.data.Length)
    {
      hide PlaysAll, PlcState.Valid, MainBuffer.Valid, ToLittle, ToSamples, Swapped;
      ghost var emitted := plc.emitted;
      ghost var heard := ToSamples(Swapped(buf[..]));
      ghost var slot := if good then Received(heard) else Concealed(heard);
      FrameMore(plc.frames, if good then Good(heard) else Bad(heard, cn));
      ghost var plcOut := ThroughPlc(buf, good, cn);
      PlaysMore(slots, emitted, slot, plcOut);
      ToLittleAppend(emitted, plcOut);
      Associative(earlier, ToLittle(emitted), ToLittle(plcOut));
      slots := slots + [slot];
      out.Append(buf[..]);
    }

    /** The conversions around the concealment, in the frame's buffer. */
    method ThroughPlc(buf: array<byte>, good: bool, cn: seq<Correlation>) returns (ghost plcOut: seq<int>)
      requires plc.Valid() && buf.Length == PCM_BYTES && |cn| == N && buf as object != plc.hist as object
      modifies buf, plc, plc.hist
      ensures plc.Valid() && |plcOut| == FS && plc.emitted == old(plc.emitted) + plcOut && buf[..] == ToLittle(plcOut)
      ensures good ==>
        var plcIn := ToSamples(Swapped(old(buf[..])));
        if old(plc.nbf) == 0 then plcOut == plcIn && buf[..] == Swapped(old(buf[..]))
        else plcOut[SETTLED..] == plcIn[SETTLED..]
      ensures plc.nbf == if good then 0 else old(plc.nbf) + 1
      ensures var heard := ToSamples(Swapped(old(buf[..])));
        plc.frames == old(plc.frames) + [if good then Good(heard) else Bad(heard, cn)]
    {
      hide PlcState.Valid, ToLittle, ToSamples, Swapped;
      BeToLe(buf);
      var plcIn := UcharToShort(buf);
      BytesRoundTrip(buf[..]);
      var out := Conceal(good, plcIn, cn);
      ShortToUchar(out, buf);
      plcOut := out;
    }

    method Conceal(good: bool, plcIn: seq<int>, cn: seq<Correlation>) returns (plcOut: seq<int>)
      requires plc.Valid() && |plcIn| == FS && AreSamples(plcIn) && |cn| == N
      modifies plc, plc.hist
      ensures plc.Valid() && |plcOut| == FS && plc.emitted == old(plc.emitted) + plcOut
      ensures good ==> if old(plc.nbf) == 0 then plcOut == plcIn else plcOut[SETTLED..] == plcIn[SETTLED..]
      ensures plc.nbf == if good then 0 else old(plc.nbf) + 1
      ensures plc.frames == old(plc.frames) + [if good then Good(plcIn) else Bad(plcIn, cn)]
    {
      if good {
        plcOut := plc.GoodFrame(plcIn);
      } else {
        ghost var fill;
        plcOut, fill := plc.BadFrame(plcIn, cn);
      }
    }

    /** Write one decoded frame, in a buffer of its own. */
    method WriteFrame(pcm: seq<byte>, good: bool, cn: seq<Correlation>)
      requires Output() && |pcm| == PCM_BYTES && |cn| == N
      modifies this`slots, plc, plc.hist, out, out.data
      ensures Output()
      ensures var heard := ToSamples(Swapped(pcm));
        slots == old(slots) + [if good then Received(heard) else Concealed(heard)]
      ensures CnsOf(plc.frames) == old(CnsOf(plc.frames)) + if good then [] else [cn]
      ensures out.Fill() == Filled(old(out.Fill()), 1, PCM_BYTES, out.data.Length)
    {
      var pcmBuf := new byte[PCM_BYTES](i requires 0 <= i < PCM_BYTES => pcm[i]);
      assert pcmBuf[..] == pcm;
      hide Output, ToSamples, Swapped, Filled, CnsOf;
      WriteToMainBuf(pcmBuf, good, cn);
    }

    /** Conceal one lost packet: the silent frame is decoded and its samples blended in. */
    method ConcealOne(cn: seq<Correlation>)
      requires Valid() && |cn| == N
      modifies this`slots, decoder, decoder.channel, decoder.channel.V, decoder.channel.offset, plc, plc.hist
      modifies out, out.data
      ensures Valid() && decoder.t.ForSubbands(SUB) && old(Now()).Ok()
      ensures All() == ConcealingOne(decoder.t, old(All()), cn, out.data.Length)
    {
      hide *;
      SilenceSize();
      FitsIfValid();
      PartsApart();
      AllParts();
      ghost var w, d := All(), decoder.Now();
      ghost var r := Decoded(decoder.t, d, SILENCE, SILENCE_LENGTH);
      var framelen, pcm := decoder.Decode(SILENCE, SILENCE_LENGTH);
      OfSilenceIs(decoder.t, d, r);
      SilenceHeard(decoder.t, d, r, decoder.Now(), framelen, pcm);
      ConcealingOneIs(decoder.t, w, r, decoder.Now(), framelen, pcm, cn, out.data.Length);
      WriteFrame(pcm, false, cn);
      ValidIf();
      AllParts();
    }

    lemma PartsApart()
      requires Valid()
      ensures plc.hist as object != out.data as object
      ensures plc.hist != decoder.channel.V && plc.hist != decoder.channel.offset
      ensures out.data as object != decoder.channel.V as object
      ensures out.data as object != decoder.channel.offset as object
    {
      hide SbcDecoder.Valid, Output;
    }

    lemma ValidIf()
      requires Output() && decoder.Valid() && 0 <= lastSeqNum < NUM_SEQ_CODES
      ensures Valid()
    {
      hide SbcDecoder.Valid, PlcState.Valid, MainBuffer.Valid;
    }

    /** Conceal the packets lost before this one. */
    method PerformPlc(numLost: nat, cns: seq<seq<Correlation>>)
      requires Valid() && numLost <= |cns| && forall i :: 0 <= i < |cns| ==> |cns[i]| == N
      modifies this`slots, decoder, decoder.channel, decoder.channel.V, decoder.channel.offset, plc, plc.hist
      modifies out, out.data
      ensures Valid() && decoder.t.ForSubbands(SUB) && old(Now()).Ok()
      ensures All() == Concealing(decoder.t, old(All()), cns[..numLost], out.data.Length)
    {
      hide Valid, Decoded, Synthesis.Tables.ForSubbands, Concealing, ConcealingOne, Filled;
      ghost var from := All();
      FitsIfValid();
      ConcealingMore(decoder.t, from, [], [], out.data.Length);
      assert cns[..0] == [];
      for i := 0 to numLost
        invariant Valid() && All() == Concealing(decoder.t, from, cns[..i], out.data.Length)
      {
        ConcealingMore(decoder.t, from, cns[..i], cns[i], out.data.Length);
        assert cns[..i + 1] == cns[..i] + [cns[i]];
        ConcealOne(cns[i]);
      }
    }

    lemma FitsIfValid()
      requires Valid()
      ensures decoder.t.ForSubbands(SUB) && decoder.Valid() && Output() && Now().Ok()
      ensures 0 <= lastSeqNum < 4 == NUM_SEQ_CODES
    {
      TablesFit();
      hide SbcDecoder.Valid, Output;
    }

    /** One packet from the link. */
    method HandleMsbcData(packet: Packet, cns: seq<seq<Correlation>>) returns (status: int)
      requires Valid() && Sized(cns)
      modifies this`slots, this`lastSeqNum, decoder, decoder.channel, decoder.channel.V
      modifies decoder.channel.offset, plc, plc.hist, out, out.data
      ensures Valid() && decoder.t.ForSubbands(SUB) && old(Now()).Ok() && |cns| == 3
      ensures All() == Handling(decoder.t, old(All()), packet, cns, out.data.Length)
      ensures status == if Accepted(packet) && Decodes(packet) then STATUS_SUCCESS else STATUS_SCO_DATA_FAILED
    {
      assert |cns| == 3;
      hide *;
      FitsIfValid();
      AllIs();
      HeaderRead(decoder.t, All(), packet, cns, out.data.Length);
      if |packet| <= 2 || packet[2] != MSBC_SYNCWORD {
        return STATUS_SCO_DATA_FAILED;
      }
      var seqNum := SeqCodeToNum(packet[1] / 16);
      if seqNum < 0 {
        return STATUS_SCO_DATA_FAILED;
      }
      status := HandleNumbered(packet, seqNum, cns);
    }

    /** A packet with a sequence number: what was lost before it, and its own frame. */
    method HandleNumbered(packet: Packet, seqNum: int, cns: seq<seq<Correlation>>) returns (status: int)
      requires Valid() && Sized(cns) && Accepted(packet) && |packet| > 2 && seqNum == SeqNum(packet)
      modifies this`slots, this`lastSeqNum, decoder, decoder.channel, decoder.channel.V
      modifies decoder.channel.offset, plc, plc.hist, out, out.data
      ensures Valid() && decoder.t.ForSubbands(SUB) && old(Now()).Ok() && HasSync(packet) && |cns| == 3
      ensures All() == Handling(decoder.t, old(All()), packet, cns, out.data.Length)
      ensures status == if Decodes(packet) then STATUS_SUCCESS else STATUS_SCO_DATA_FAILED
    {
      assert |cns| == 3 && forall i :: 0 <= i < |cns| ==> |cns[i]| == N;
      hide *;
      FitsIfValid();
      AllIs();
      HandlingIs(decoder.t, All(), packet, cns, out.data.Length);
      PerformPlc(NumLost(seqNum, lastSeqNum), cns);
      SetLast(seqNum);
      status := HandleFrame(packet);
    }

    lemma AllIs()
      ensures All().heard == Now() && Now().last == lastSeqNum && Now().slots == slots
      ensures All().level == out.Fill() && All().cns == CnsOf(plc.frames) && Now().decoder == decoder.Now()
    {
    }

    method SetLast(seqNum: int)
      requires Valid() && 0 <= seqNum < NUM_SEQ_CODES
      modifies this`lastSeqNum
      ensures Valid() && All() == old(All()).(heard := old(Now()).(last := seqNum))
    {
      lastSeqNum := seqNum;
    }

    /** The received frame itself. */
    method HandleFrame(packet: Packet) returns (status: int)
      requires Valid() && HasSync(packet)
      modifies this`slots, decoder, decoder.channel, decoder.channel.V, decoder.channel.offset, plc, plc.hist
      modifies out, out.data
      ensures Valid() && decoder.t.ForSubbands(SUB)
      ensures old(Now()).Ok() && All() == Framing(decoder.t, old(All()), packet, out.data.Length)
      ensures status == if Decodes(packet) then STATUS_SUCCESS else STATUS_SCO_DATA_FAILED
    {
      hide *;
      FitsIfValid();
      AllParts();
      ghost var w := All();
      var framelen, pcm := DecodeFrame(packet);
      FramedIs(decoder.t, w, packet, decoder.Now(), framelen, pcm, out.data.Length);
      if framelen > 0 {
        WriteReceived(pcm);
        status := STATUS_SUCCESS;
      } else {
        status := STATUS_SCO_DATA_FAILED;
      }
      AllParts();
    }

    lemma AllParts()
      ensures All() == Whole(Heard(slots, lastSeqNum, decoder.Now()), out.Fill(), CnsOf(plc.frames))
      ensures All().heard == Now()
    {
    }

    /** The decoder's part of it. */
    method DecodeFrame(packet: Packet) returns (framelen: int, pcm: seq<byte>)
      requires Valid() && HasSync(packet)
      modifies decoder, decoder.channel, decoder.channel.V, decoder.channel.offset
      ensures Valid() && decoder.t.ForSubbands(SUB)
      ensures HoldsAnswer(AnswerTo(decoder.t, old(decoder.Now()), packet), decoder.Now(), framelen, pcm)
    {
      hide Output, Decoded, SbcDecoder.Valid, Synthesis.Tables.ForSubbands, AreSamples, Big, FrameOf;
      hide ToSamples, Swapped, IsSound, Answers, Decodes;
      TablesFit();
      SoundIs(decoder.t, decoder.Now(), FrameOf(packet), |packet| - 2);
      ghost var r := Decoded(decoder.t, decoder.Now(), FrameOf(packet), |packet| - 2);
      framelen, pcm := decoder.Decode(FrameOf(packet), |packet| - 2);
      AnsweredSound(r, decoder.Now(), framelen, pcm);
    }

    /** And the rest. */
    method WriteReceived(pcm: seq<byte>)
      requires Valid() && |pcm| == PCM_BYTES
      modifies this`slots, plc, plc.hist, out, out.data
      ensures Valid() && slots == old(slots) + [Received(ToSamples(Swapped(pcm)))]
      ensures decoder.Now() == old(decoder.Now())
      ensures out.Fill() == Filled(old(out.Fill()), 1, PCM_BYTES, out.data.Length)
      ensures CnsOf(plc.frames) == old(CnsOf(plc.frames))
    {
      hide Output, SbcDecoder.Valid, ToSamples, Swapped, Filled, CnsOf;
      WriteFrame(pcm, true, seq(N, _ => NotANumber));
    }

    /** The client's socket is ready and takes up to `room` of the waiting bytes. */
    method OfferToClient(room: int) returns (ok: bool)
      requires Valid()
      modifies out`head, out`tail, out`delivered
      ensures Valid() && out.Fill() == Drained(old(out.Fill()), room)
    {
      hide SbcDecoder.Valid, PlcState.Valid, PlaysAll, ToLittle;
      var waiting := if out.tail < out.head then 0 else out.tail - out.head;
      ok := out.WriteToClient(if room < waiting then room else waiting);
    }

    /** A packet, or a ready socket. */
    method TakeTurn(turn: Turn)
      requires Valid() && (turn.Arrives? ==> Sized(turn.cns))
      modifies this`slots, this`lastSeqNum, decoder, decoder.channel, decoder.channel.V
      modifies decoder.channel.offset, plc, plc.hist, out, out.data
      ensures Valid() && decoder.t.ForSubbands(SUB) && old(Now()).Ok() && (turn.Arrives? ==> |turn.cns| == 3)
      ensures All() == if turn.Arrives? then Handling(decoder.t, old(All()), turn.packet, turn.cns, out.data.Length)
                       else old(All()).(level := Drained(old(out.Fill()), turn.room))
    {
      hide *;
      FitsIfValid();
      AllParts();
      match turn
      case Arrives(packet, cns) =>
        var status := HandleMsbcData(packet, cns);
      case Offers(room) =>
        var ok := OfferToClient(room);
        AllParts();
    }

    lemma NoFrames()
      requires Valid() && slots == []
      ensures CnsOf(plc.frames) == []
    {
      hide SbcDecoder.Valid, PlcState.Valid, MainBuffer.Valid;
    }

    /** Packets and ready sockets in any order, from the start of a session. */
    method Receive(turns: seq<Turn>)
      requires Valid() && slots == [] && lastSeqNum == 3 && TurnsSized(turns)
      modifies this`slots, this`lastSeqNum, decoder, decoder.channel, decoder.channel.V
      modifies decoder.channel.offset, plc, plc.hist, out, out.data
      ensures Valid() && decoder.t.ForSubbands(SUB)
      ensures Now() == HearAll(decoder.t, old(decoder.Now()), Packets(turns))
      ensures out.Fill() == Levels(old(out.Fill()), turns, out.data.Length)
      ensures CnsOf(plc.frames) == AllCns(turns)
    {
      FitsIfValid();
      NoFrames();
      ghost var from, level := decoder.Now(), out.Fill();
      TurnsNone(decoder.t, from, level, turns[..0], out.data.Length);
      AllIs();
      hide Valid, Hear, Synthesis.Tables.ForSubbands, CnsOf, AfterTurns, Handling, State.Shape;
      hide HearAll, Levels, AllCns, Packets, Drained;
      for k := 0 to |turns|
        invariant Valid() && decoder.t.ForSubbands(SUB) && TurnsSized(turns[..k])
        invariant All() == AfterTurns(decoder.t, from, level, turns[..k], out.data.Length)
      {
        assert turns[..k + 1][..k] == turns[..k];
        TurnMore(decoder.t, from, level, turns[..k + 1], out.data.Length);
        TakeTurn(turns[k]);
      }
      assert turns[..|turns|] == turns;
      TurnsAre(decoder.t, from, level, turns, out.data.Length);
      AllIs();
    }
  }

  // ----- whole runs -----

  /** What the daemon's loop does next: a packet has come, or the client can be written to. */
  datatype Turn = Arrives(packet: Packet, cns: seq<seq<Correlation>>) | Offers(room: int)

  ghost predicate TurnsSized(turns: seq<Turn>) {
    forall k :: 0 <= k < |turns| && turns[k].Arrives? ==> Sized(turns[k].cns)
  }

  function Packets(turns: seq<Turn>): seq<Packet> {
    if turns == [] then [] else
      var n := |turns| - 1;
      Packets(turns[..n]) + if turns[n].Arrives? then [turns[n].packet] else []
  }

  lemma PacketsMore(turns: seq<Turn>)
    requires turns != []
    ensures var (n, all) := (|turns| - 1, Packets(turns)); var before := Packets(turns[..n]);
      if turns[n].Arrives? then |all| > 0 && all[..|all| - 1] == before && all[|all| - 1] == turns[n].packet
      else all == before
  {
  }

  /** The correlations all packets use. */
  ghost function AllCns(turns: seq<Turn>): seq<seq<Correlation>>
    requires TurnsSized(turns)
  {
    if turns == [] then [] else
      var (n, before) := (|turns| - 1, turns[..|turns| - 1]);
      AllCns(before) + if turns[n].Arrives? then CnsFor(turns[n].packet, LastSeq(Packets(before)), turns[n].cns) else []
  }

  /** Where the buffer gets to: chunk by chunk with the packets, emptied by the client. */
  function Levels(l: Level, turns: seq<Turn>, capacity: nat): Level {
    if turns == [] then l else
      var n := |turns| - 1;
      var before := Levels(l, turns[..n], capacity);
      match turns[n]
      case Arrives(packet, _) => Filled(before, ChunksFor(packet, LastSeq(Packets(turns[..n]))), PCM_BYTES, capacity)
      case Offers(room) => Drained(before, room)
  }

  /** All that a run comes to. */
  ghost function AfterTurns(t: Synthesis.Tables, d: State, l: Level, turns: seq<Turn>, capacity: nat): Whole
    requires t.ForSubbands(SUB) && d.Shape() && TurnsSized(turns)
  {
    Whole(HearAll(t, d, Packets(turns)), Levels(l, turns, capacity), AllCns(turns))
  }

  lemma TurnsAre(t: Synthesis.Tables, d: State, l: Level, turns: seq<Turn>, capacity: nat)
    requires t.ForSubbands(SUB) && d.Shape() && TurnsSized(turns)
    ensures var w := AfterTurns(t, d, l, turns, capacity);
      w.heard == HearAll(t, d, Packets(turns)) && w.level == Levels(l, turns, capacity) && w.cns == AllCns(turns)
  {
  }

  lemma TurnsNone(t: Synthesis.Tables, d: State, l: Level, turns: seq<Turn>, capacity: nat)
    requires t.ForSubbands(SUB) && d.Shape() && turns == []
    ensures TurnsSized(turns) && AfterTurns(t, d, l, turns, capacity) == Whole(Begin(d), l, [])
  {
  }

  /** One turn more. */
  lemma {:induction false} TurnMore(t: Synthesis.Tables, d: State, l: Level, turns: seq<Turn>, capacity: nat)
    requires t.ForSubbands(SUB) && d.Shape() && turns != [] && TurnsSized(turns[..|turns| - 1])
    requires turns[|turns| - 1].Arrives? ==> Sized(turns[|turns| - 1].cns)
    ensures TurnsSized(turns)
    ensures var n := |turns| - 1;
      var w := AfterTurns(t, d, l, turns[..n], capacity);
      w.heard.Ok()
      && AfterTurns(t, d, l, turns, capacity)
         == if turns[n].Arrives? then
              (assert |turns[n].cns| == 3; Handling(t, w, turns[n].packet, turns[n].cns, capacity))
            else w.(level := Drained(w.level, turns[n].room))
  {
    hide Hear, CnsFor, ChunksFor, Filled, Drained;
    var n := |turns| - 1;
    forall k | 0 <= k < |turns| && turns[k].Arrives? ensures Sized(turns[k].cns) {
      if k < n {
        assert turns[..n][k] == turns[k];
      }
    }
    PacketsMore(turns);
    LastHeard(t, d, Packets(turns[..n]));
  }

  /** Without the client nothing is dropped exactly if there is room for all frames. */
  lemma {:induction false} FitsIff(t: Synthesis.Tables, d: State, l: Level, turns: seq<Turn>, capacity: nat)
    requires t.ForSubbands(SUB) && d.Shape() && l.tail <= capacity
    requires forall k :: 0 <= k < |turns| ==> turns[k].Arrives?
    ensures var need := PCM_BYTES * |Timeline(t, d, Packets(turns))|;
      Levels(l, turns, capacity).dropped == l.dropped <==> l.tail + need <= capacity
  {
    FilledAll(t, d, l, turns, capacity);
    FilledIff(l, |Timeline(t, d, Packets(turns))|, PCM_BYTES, capacity);
  }

  lemma {:induction false} FilledAll(t: Synthesis.Tables, d: State, l: Level, turns: seq<Turn>, capacity: nat)
    requires t.ForSubbands(SUB) && d.Shape() && forall k :: 0 <= k < |turns| ==> turns[k].Arrives?
    ensures Levels(l, turns, capacity) == Filled(l, |Timeline(t, d, Packets(turns))|, PCM_BYTES, capacity)
  {
    hide Accepted, Decodes, SeqNum, NumLost, Hear, Filled;
    if turns == [] {
      assert Filled(l, 0, PCM_BYTES, capacity) == l by { FilledNone(l, capacity); }
    } else {
      var n := |turns| - 1;
      FilledAll(t, d, l, turns[..n], capacity);
      PacketsMore(turns);
      LastHeard(t, d, Packets(turns[..n]));
      TimelineStep(t, d, Packets(turns));
      FilledTwice(l, |Timeline(t, d, Packets(turns[..n]))|,
                  ChunksFor(turns[n].packet, LastSeq(Packets(turns[..n]))), PCM_BYTES, capacity);
    }
  }

  lemma FilledNone(l: Level, capacity: nat)
    ensures Filled(l, 0, PCM_BYTES, capacity) == l
  {
  }

  /** The samples emitted at a received packet's place are the decoder's samples for
    * it: all of them if the packet before was received too or it is the first, and
    * from where the signal has settled if it ends a loss. */
  ghost predicate Emitted(t: Synthesis.Tables, d: State, run: seq<Packet>, place: seq<nat>, e: seq<int>, k: nat)
    requires t.ForSubbands(SUB) && d.Shape() && k < |run| == |place|
  {
    Accepted(run[k]) ==>
      && Decodes(run[k]) && FS * place[k] + FS <= |e|
      && e[FS * place[k] + SETTLED..FS * place[k] + FS] == PcmOf(t, d, run, k)[SETTLED..]
      && (place[k] == 0 || AcceptedAt(run, place, place[k] - 1) ==>
            e[FS * place[k]..FS * place[k] + FS] == PcmOf(t, d, run, k))
  }

  /** Some accepted packet has this place. */
  ghost predicate AcceptedAt(run: seq<Packet>, place: seq<nat>, p: int)
    requires |place| == |run|
  {
    exists j :: 0 <= j < |run| && place[j] == p && Accepted(run[j])
  }

  lemma {:induction false} EmittedInPlace(t: Synthesis.Tables, d: State, run: seq<Packet>, place: seq<nat>,
          e: seq<int>, k: nat)
    requires t.ForSubbands(SUB) && d.Shape() && Sent(run, place) && Gentle(run, place) && k < |run| == |place|
    requires PlaysAll(Timeline(t, d, run), e)
    ensures Emitted(t, d, run, place, e, k)
  {
    hide Timeline, Accepted, Decodes, PcmOf, Gentle, Plays, Synthesis.Tables.ForSubbands;
    InPlace(t, d, run, place);
    if Accepted(run[k]) {
      var slots, p: int := Timeline(t, d, run), place[k];
      assert InItsPlace(t, d, run, place, k);
      PlayedAt(slots, e, p);
      if AcceptedAt(run, place, p - 1) {
        var j :| 0 <= j < |run| && place[j] == p - 1 && Accepted(run[j]);
        assert InItsPlace(t, d, run, place, j);
      }
    }
  }

  lemma PlayedAt(slots: seq<Slot>, e: seq<int>, p: nat)
    requires PlaysAll(slots, e) && p < |slots| && slots[p].Received? && |slots[p].pcm| == FS
    ensures FS * p + FS <= |e| && e[FS * p + SETTLED..FS * p + FS] == slots[p].pcm[SETTLED..]
    ensures p == 0 || slots[p - 1].Received? ==> e[FS * p..FS * p + FS] == slots[p].pcm
  {
    assert Plays(slots, e, p);
    assert e[FS * p..FS * p + FS][SETTLED..] == e[FS * p + SETTLED..FS * p + FS];
  }

  lemma PlaysSize(slots: seq<Slot>, e: seq<int>)
    requires PlaysAll(slots, e)
    ensures |e| == FS * |slots|
  {
  }

  /** What a whole run puts out, whatever the client takes in between.  Exactly if no
    * gap was longer than three packets and everything accepted decoded, the concealment
    * has put out `p + 1` frames of samples after the packet sent in place `p`; then the
    * samples of every received packet stand at its own place.  What the received frames
    * hold are pieces of one run of the standard's filter, and without losses that run
    * is what is emitted.  If the buffer had room - which its levels tell beforehand -
    * the client was sent, and is owed, exactly what was emitted, low byte first,
    * without the trimmed start. */
  method ReceiveRun(s: Session, turns: seq<Turn>, ghost place: seq<nat>)
    requires s.Valid() && s.slots == [] && s.lastSeqNum == 3 && TurnsSized(turns) && Sent(Packets(turns), place)
    modifies s`slots, s`lastSeqNum, s.decoder, s.decoder.channel, s.decoder.channel.V, s.decoder.channel.offset
    modifies s.plc, s.plc.hist, s.out, s.out.data
    ensures s.Valid() && s.decoder.t.ForSubbands(SUB) && |place| == |Packets(turns)|
    ensures |s.plc.emitted| == FS * (LastPlace(Packets(turns), place) + 1) <==> Gentle(Packets(turns), place)
    ensures Gentle(Packets(turns), place) ==>
      forall k :: 0 <= k < |place| ==>
        Emitted(s.decoder.t, old(s.decoder.Now()), Packets(turns), place, s.plc.emitted, k)
    ensures PiecesOf(s.slots, Stream(s.decoder.t, old(s.decoder.Now()), Packets(turns)))
    ensures AllSized(s.plc.frames) && s.plc.emitted == Play(s.plc.frames).emitted
    ensures SlotsOf(s.plc.frames) == s.slots == Timeline(s.decoder.t, old(s.decoder.Now()), Packets(turns))
    ensures CnsOf(s.plc.frames) == AllCns(turns)
    ensures SoundsUpTo(s.plc.frames, s.plc.emitted, |s.slots|)
    ensures Lossless(Packets(turns)) ==>
      s.plc.emitted == Stream(s.decoder.t, old(s.decoder.Now()), Packets(turns))
    ensures s.out.dropped == Levels(old(s.out.Fill()), turns, s.out.data.Length).dropped >= old(s.out.dropped)
    ensures s.out.dropped == old(s.out.dropped) ==>
      s.out.delivered + s.out.Pending() == Owed(s.earlier + ToLittle(s.plc.emitted), s.out.trim)
  {
    hide Lossless, Stream, PiecesOf, Levels, AllCns, CnsOf, SlotsOf, Play, SoundsUpTo, AllSized;
    hide Gentle, LastPlace, Emitted, HearAll, ToLittle, Owed, SbcDecoder.Valid, PlcState.Valid, PlaysAll;
    var run := Packets(turns);
    assert |place| == |run|;
    hide Sent, TurnsSized, Packets;
    s.Receive(turns);
    ghost var t, from := s.decoder.t, old(s.decoder.Now());
    TimelineKept(t, from, run, place);
    PlaysSize(s.slots, s.plc.emitted);
    OneFilterRun(t, from, run);
    s.Played();
    AllSound(s.plc.frames);
    if Gentle(run, place) {
      forall k | 0 <= k < |run| ensures Emitted(t, from, run, place, s.plc.emitted, k) {
        EmittedInPlace(t, from, run, place, s.plc.emitted, k);
      }
    }
    if Lossless(run) {
      LosslessTimeline(t, from, run);
      StreamEmitted(s.slots, s.plc.emitted, Stream(t, from, run));
    }
  }
}
