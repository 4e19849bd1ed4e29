/** The decoder as the receiver uses it: parser, filter and byte order in one
  * call, for mSBC frames.
  *
  * The filter is set up by the first call, for the number of subbands the frame
  * then names; a first call with fewer than four bytes names none, and the filter
  * then works for good as if every row of its matrix were the last.
  */
module Decoder {
  import opened Sequences
  import opened Bits
  import opened SbcFrame
  import opened SbcFormat
  import opened SbcParser
  import opened Synthesis
  import opened Concealment
  import opened OutputBuffer

  /** Subbands of an mSBC frame. */
  const SUB := 8

  /** What a decoder's past calls have made of it: nothing yet, or a filter with this
    * register that was set up or was not. */
  datatype State = Fresh | Running(register: seq<int>, isSet: bool) {
    ghost predicate Shape() { Running? ==> |register| == 20 * SUB }

    /** A decoder not called yet has a clear register. */
    function Register(): (v: seq<int>)
      requires Shape()
      ensures |v| == 20 * SUB
    {
      if Fresh? then ClearRegister() else register
    }

    /** The tables its filter works with in effect. */
    function InEffect(t: Tables): (r: Tables)
      requires t.ForSubbands(SUB)
      ensures r.ForSubbands(SUB)
    {
      Synthesis.InEffect(t, SUB, Running? ==> isSet)
    }
  }

  datatype Sound = Silent | Samples(pcm: seq<int>)

  function ClearRegister(): (v: seq<int>)
    ensures |v| == 20 * SUB
  {
    seq(20 * SUB, _ => 0)
  }

  /** An mSBC frame, if it is accepted, has fifteen blocks of eight samples. */
  lemma {:induction false} MsbcShape(data: seq<byte>, len: nat)
    requires |data| >= len + 2 && data[0] == MSBC_SYNCWORD
    ensures var p := Parse(data, len);
      if p.Frame? then
        |p.samples| == 15 && (forall b :: 0 <= b < 15 ==> |p.samples[b]| == SUB) && p.length > 0
      else p.code < 0
  {
    hide FrameBits, ReadFields, ReadBlocks, ByteBits, FrameChecksum, JointFlags, BlockSamples;
  }

  /** The blocks of an accepted frame. */
  function Blocks(data: seq<byte>, len: nat): (b: seq<seq<int>>)
    requires |data| >= len + 2 && data[0] == MSBC_SYNCWORD && Parse(data, len).Frame?
    ensures |b| == 15 && forall k :: 0 <= k < 15 ==> |b[k]| == SUB
  {
    MsbcShape(data, len);
    Parse(data, len).samples
  }

  /** The state a call works with: the first call sets the filter up. */
  function SetUp(d: State, len: nat): (r: State)
    requires d.Shape()
    ensures r.Shape() && r.Running? && r.register == d.Register()
  {
    if d.Fresh? then Running(ClearRegister(), len >= 4) else d
  }

  /** One call: the state it leaves and the samples it returns. */
  function Decoded(t: Tables, d: State, data: seq<byte>, len: nat): (r: (State, Sound))
    requires t.ForSubbands(SUB) && d.Shape() && |data| >= len + 2 && data[0] == MSBC_SYNCWORD
    ensures r.0.Shape() && r.0.Running?
    ensures r.1.Samples? <==> Parse(data, len).Frame?
    ensures r.1.Samples? ==> |r.1.pcm| == FS
  {
    var s := SetUp(d, len);
    if !Parse(data, len).Frame? then (s, Silent)
    else
      var (e, blocks) := (s.InEffect(t), Blocks(data, len));
      (s.(register := RegisterAfter(e, SUB, s.register, blocks)), Samples(Filter(e, SUB, s.register, blocks)))
  }

  /** A call continues the filter from where the call before has left it. */
  lemma {:induction false} CallContinues(t: Tables, d: State, data: seq<byte>, len: nat)
    requires t.ForSubbands(SUB) && d.Shape() && |data| >= len + 2 && data[0] == MSBC_SYNCWORD
    ensures var r := Decoded(t, d, data, len);
      && (d.Running? ==> r.0.InEffect(t) == d.InEffect(t))
      && if Parse(data, len).Frame? then
           && r.0.Register() == RegisterAfter(r.0.InEffect(t), SUB, d.Register(), Blocks(data, len))
           && r.1.pcm == Filter(r.0.InEffect(t), SUB, d.Register(), Blocks(data, len))
         else r.0.Register() == d.Register()
  {
    hide Parse, Blocks, RegisterAfter, Filter, ClearRegister, Synthesis.InEffect;
  }

  /** What the filter puts out are 16-bit samples. */
  lemma {:induction false} FilterSamples(t: Tables, v: seq<int>, blocks: seq<seq<int>>)
    requires t.ForSubbands(SUB) && |v| == 20 * SUB && forall b :: 0 <= b < |blocks| ==> |blocks[b]| == SUB
    ensures AreSamples(Filter(t, SUB, v, blocks))
  {
    if blocks != [] {
      var n := |blocks| - 1;
      FilterSamples(t, v, blocks[..n]);
      OutputSamples(t, RegisterAfter(t, SUB, v, blocks));
      hide RegisterAfter, Output, IsSample;
    }
  }

  lemma OutputSamples(t: Tables, v: seq<int>)
    requires t.ForSubbands(SUB) && |v| == 20 * SUB
    ensures AreSamples(Output(t, SUB, v))
  {
    hide BuildU, WindowD, WindowSum;
  }

  /** Frame after frame is one long filter run. */
  lemma {:induction false} FilterAppend(t: Tables, v: seq<int>, a: seq<seq<int>>, b: seq<seq<int>>)
    requires t.ForSubbands(SUB) && |v| == 20 * SUB
    requires (forall k :: 0 <= k < |a| ==> |a[k]| == SUB) && forall k :: 0 <= k < |b| ==> |b[k]| == SUB
    ensures RegisterAfter(t, SUB, v, a + b) == RegisterAfter(t, SUB, RegisterAfter(t, SUB, v, a), b)
    ensures Filter(t, SUB, v, a + b) == Filter(t, SUB, v, a) + Filter(t, SUB, RegisterAfter(t, SUB, v, a), b)
  {
    if b == [] {
      assert a + b == a;
    } else {
      var n := |b| - 1;
      FilterAppend(t, v, a, b[..n]);
      LastBlock(t, v, a + b);
      LastBlock(t, RegisterAfter(t, SUB, v, a), b);
      hide *;
      assert (a + b)[..|a + b| - 1] == a + b[..n];
      Associative(Filter(t, SUB, v, a), Filter(t, SUB, RegisterAfter(t, SUB, v, a), b[..n]),
                  Output(t, SUB, RegisterAfter(t, SUB, v, a + b)));
    }
  }

  lemma LastBlock(t: Tables, v: seq<int>, blocks: seq<seq<int>>)
    requires t.ForSubbands(SUB) && |v| == 20 * SUB && blocks != []
    requires forall k :: 0 <= k < |blocks| ==> |blocks[k]| == SUB
    ensures var n := |blocks| - 1;
      && RegisterAfter(t, SUB, v, blocks)
         == Shift(RegisterAfter(t, SUB, v, blocks[..n]), Matrixing(t, SUB, blocks[n]))
      && Filter(t, SUB, v, blocks)
         == Filter(t, SUB, v, blocks[..n]) + Output(t, SUB, RegisterAfter(t, SUB, v, blocks))
  {
  }

  /** Samples as bytes, high byte first. */
  function Big(s: seq<int>): (b: seq<byte>)
    ensures |b| == 2 * |s|
  {
    Swapped(ToLittle(s))
  }

  /** State, length and bytes a call ends with are those of this result. */
  ghost predicate Answers(r: (State, Sound), now: State, framelen: int, pcm: seq<byte>) {
    && now == r.0 && (framelen > 0 <==> r.1.Samples?)
    && pcm == if r.1.Samples? then Big(r.1.pcm) else []
  }

  class SbcDecoder {
    const t: Tables
    const channel: Channel
    var init: bool

    /** What the decoder stands for. */
    ghost function Now(): (d: State)
      reads this, channel
      ensures d.Shape()
    {
      if init && channel.Shape() && channel.sub == SUB then Running(channel.Register(), channel.isSet) else Fresh
    }

    ghost predicate Valid()
      reads this, channel, channel.V, channel.offset
    {
      t.ForSubbands(SUB) && channel.Valid() && channel.Shape() && channel.sub == SUB && (!init ==> !channel.isSet)
    }

    /** A decoder that has not been called. */
    constructor (t: Tables)
      requires t.ForSubbands(SUB)
      ensures Valid() && Now() == Fresh && this.t == t
      ensures fresh(channel) && fresh(channel.V) && fresh(channel.offset)
    {
      this.t := t;
      channel := new Channel(SUB);
      init := false;
    }

    /** Decode one frame to big-endian bytes; a negative length is an error. */
    method Decode(data: seq<byte>, len: nat) returns (framelen: int, pcm: seq<byte>)
      requires Valid() && |data| >= len + 2 && data[0] == MSBC_SYNCWORD
      modifies this, channel, channel.V, channel.offset
      ensures Valid()
      ensures t.ForSubbands(SUB) && Answers(Decoded(t, old(Now()), data, len), Now(), framelen, pcm)
    {
      hide Parse, RegisterAfter, Filter, Big, Channel.Valid, Channel.Register, Synthesis.InEffect;
      var r := UnpackFrame(data, len);
      MsbcShape(data, len);
      if !init {
        init := true;
        channel.Init(if len >= 4 then SUB else 0);
        assert channel.Register() == ClearRegister();
      }
      if r.Error? {
        return r.code, [];
      }
      framelen := r.length;
      var samples := channel.SynthesizeAudio(t, r.samples);
      pcm := ToBig(samples);
    }
  }

  method ToBig(s: seq<int>) returns (b: seq<byte>)
    ensures b == Big(s)
  {
    b := [];
    for i := 0 to |s|
      invariant |b| == 2 * i && forall k :: 0 <= k < 2 * i ==> b[k] == Big(s)[k]
    {
      b := b + [High(s[i]), Low(s[i])];
    }
  }
}
