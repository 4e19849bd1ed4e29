/** The packer as it runs: fields are shifted into the frame through a small cache,
  * and the bytes under the checksum are built up a second time beside it. */
module SbcPacker {
  import opened Arith
  import opened Sequences
  import opened Bits
  import opened BitAllocation
  import opened Quantiser
  import opened SbcFrame
  import opened SbcFormat
  import opened BitWriter
  import Crc8

  // ----- the checksum header -----

  /** The header holds `bits`: `i` whole bytes and, if `half`, four bits in the low nibble of the next. */
  ghost predicate Filled(h: seq<byte>, i: nat, half: bool, bits: seq<bool>) {
    && i < |h|
    && bits == ByteBits(h[..i]) + (if half then BitsOf(h[i], 4) else [])
    && (if half then h[i] < 16 else h[i] == 0)
    && forall k :: i < k < |h| ==> h[k] == 0
  }

  /** The same, by the number of bits. */
  ghost predicate HalfFilled(h: seq<byte>, pos: nat, bits: seq<bool>) {
    && (pos % 8 == 0 || pos % 8 == 4)
    && Filled(h, pos / 8, pos % 8 == 4, bits)
  }

  /** The packer's nibble: shift the byte up and put the value below. */
  method PushNibble(h: array<byte>, pos: nat, v: nat, ghost bits: seq<bool>)
    requires HalfFilled(h[..], pos, bits) && v < 16 && (pos + 4) / 8 < h.Length
    modifies h
    ensures HalfFilled(h[..], pos + 4, bits + BitsOf(v, 4))
  {
    Pushed(h[..], pos, v, bits);
    hide *;
    ghost var before := h[..];
    var i := pos / 8;
    h[i] := Up(h[i]) + v;
    assert h[..] == before[i := Up(before[i]) + v];
  }

  lemma Pushed(h: seq<byte>, pos: nat, v: nat, bits: seq<bool>)
    requires HalfFilled(h, pos, bits) && v < 16 && (pos + 4) / 8 < |h|
    ensures pos / 8 < |h| && Up(h[pos / 8]) + v < 256
    ensures HalfFilled(h[pos / 8 := Up(h[pos / 8]) + v], pos + 4, bits + BitsOf(v, 4))
  {
    hide *;
    PositionAfter(h, pos, bits);
    var i := pos / 8;
    NibbleFits(h, i, pos % 8 == 4, bits);
    if pos % 8 == 4 {
      PushLow(h, i, v, bits);
      HalfFilledIs(h[i := Up(h[i]) + v], pos + 4, bits + BitsOf(v, 4));
    } else {
      PushHigh(h, i, v, bits);
      HalfFilledIs(h[i := Up(h[i]) + v], pos + 4, bits + BitsOf(v, 4));
    }
  }

  lemma PositionAfter(h: seq<byte>, pos: nat, bits: seq<bool>)
    requires HalfFilled(h, pos, bits)
    ensures Filled(h, pos / 8, pos % 8 == 4, bits) && pos / 8 < |h|
    ensures pos % 8 == 4 ==> (pos + 4) / 8 == pos / 8 + 1 && (pos + 4) % 8 == 0
    ensures pos % 8 != 4 ==> (pos + 4) / 8 == pos / 8 && (pos + 4) % 8 == 4
  {
  }

  lemma HalfFilledIs(h: seq<byte>, pos: nat, bits: seq<bool>)
    requires pos % 8 == 0 || pos % 8 == 4
    requires Filled(h, pos / 8, pos % 8 == 4, bits)
    ensures HalfFilled(h, pos, bits)
  {
  }

  /** A byte moved up by four bits. */
  function Up(x: byte): byte { (x * 16) % 256 }

  lemma NibbleFits(h: seq<byte>, i: nat, half: bool, bits: seq<bool>)
    requires Filled(h, i, half, bits)
    ensures i < |h| && Up(h[i]) == h[i] * 16 <= 240
  {
  }

  lemma PushHigh(h: seq<byte>, i: nat, v: nat, bits: seq<bool>)
    requires Filled(h, i, false, bits) && v < 16
    ensures h[i] == 0 && Filled(h[i := h[i] * 16 + v], i, true, bits + BitsOf(v, 4))
  {
    hide BitsOf, ByteBits;
    Updated(h, i, v);
    assert ByteBits(h[..i]) + [] == ByteBits(h[..i]);
  }

  lemma PushLow(h: seq<byte>, i: nat, v: nat, bits: seq<bool>)
    requires Filled(h, i, true, bits) && v < 16 && i + 1 < |h|
    ensures h[i] * 16 + v < 256 && Filled(h[i := h[i] * 16 + v], i + 1, false, bits + BitsOf(v, 4))
  {
    hide BitsOf, ByteBits;
    Updated(h, i, h[i] * 16 + v);
    NibblesAppended(h[..i], h[i], v);
  }

  lemma {:induction false} NibblesAppended(a: seq<byte>, x: nat, v: nat)
    requires x < 16 && v < 16
    ensures ByteBits(a + [x * 16 + v]) == (ByteBits(a) + BitsOf(x, 4)) + BitsOf(v, 4)
  {
    hide *;
    Nibbles(x, v);
    ByteBitsAppend(a, [x * 16 + v]);
    ByteBitsOne(x * 16 + v);
    Associative(ByteBits(a), BitsOf(x, 4), BitsOf(v, 4));
  }

  lemma {:induction false} Nibbles(x: nat, v: nat)
    requires v < 16
    ensures BitsOf(x * 16 + v, 8) == BitsOf(x, 4) + BitsOf(v, 4)
  {
    PowersOfJoint();
    assert Shl(x, 4) == x * 16;
    hide *;
    BitsOfConcat(x, v, 4, 4);
  }

  /** The packer's checksum: header byte, bitpool, joint flags and scale factors, byte-aligned at the end. */
  method PackerChecksum(header: byte, l: Layout, joint: nat, sf: seq<nat>) returns (crc: byte)
    requires l.Shape() && ScaleFactors(l, sf) && joint < Pow2(l.JointWidth())
    ensures crc == FrameChecksum(header, l.bitpool, SideBits(l, joint, sf))
  {
    hide BitsOf, HalfFilled, Pow2, WriteFields, Crc8.Checksum;
    var h := new byte[12](_ => 0);
    var pos := StartHeader(h, header, l, joint);
    ghost var bits := BitsOf(header, 8) + BitsOf(l.bitpool, 8) + BitsOf(joint, l.JointWidth());
    pos := PushFactors(h, pos, sf, bits);
    assert bits + WriteFields(sf, Fours(|sf|)) == BitsOf(header, 8) + BitsOf(l.bitpool, 8) + SideBits(l, joint, sf);
    crc := AlignedChecksum(h, pos, bits + WriteFields(sf, Fours(|sf|)));
  }

  method PushFactors(h: array<byte>, start: nat, sf: seq<nat>, ghost bits: seq<bool>) returns (pos: nat)
    requires HalfFilled(h[..], start, bits) && (forall k :: 0 <= k < |sf| ==> Scale(sf[k]))
    requires start + 4 * |sf| < 8 * h.Length
    modifies h
    ensures pos == start + 4 * |sf| && HalfFilled(h[..], pos, bits + WriteFields(sf, Fours(|sf|)))
  {
    hide BitsOf, HalfFilled, WriteFields, Remaining;
    pos := start;
    ghost var fours, done := Fours(|sf|), bits;
    NothingWritten(done, sf, fours);
    for k := 0 to |sf|
      invariant pos == start + 4 * k
      invariant HalfFilled(h[..], pos, done)
      invariant Remaining(done, sf, fours, k, bits + WriteFields(sf, fours))
    {
      PushNibble(h, pos, sf[k] % 16, done);
      NextField(done, sf, fours, k, bits + WriteFields(sf, fours));
      done := done + BitsOf(sf[k], 4);
      pos := pos + 4;
    }
    AllWritten(done, sf, fours, bits + WriteFields(sf, fours));
  }

  // ----- lists of fields, part of them written -----

  /** With `done` written, the fields from `k` on complete `all`. */
  ghost predicate Remaining(done: seq<bool>, values: seq<nat>, widths: seq<nat>, k: nat, all: seq<bool>)
    requires k <= |values| == |widths|
  {
    done + WriteFields(values[k..], widths[k..]) == all
  }

  lemma NothingWritten(done: seq<bool>, values: seq<nat>, widths: seq<nat>)
    requires |values| == |widths|
    ensures Remaining(done, values, widths, 0, done + WriteFields(values, widths))
  {
    assert values[0..] == values && widths[0..] == widths;
  }

  lemma NextField(done: seq<bool>, values: seq<nat>, widths: seq<nat>, k: nat, all: seq<bool>)
    requires k < |values| == |widths| && Remaining(done, values, widths, k, all)
    ensures Remaining(done + BitsOf(values[k], widths[k]), values, widths, k + 1, all)
  {
    hide BitsOf;
    DropTwice(values, k, 1);
    DropTwice(widths, k, 1);
    var rest := WriteFields(values[k + 1..], widths[k + 1..]);
    Associative(done, BitsOf(values[k], widths[k]), rest);
  }

  lemma AllWritten(done: seq<bool>, values: seq<nat>, widths: seq<nat>, all: seq<bool>)
    requires |values| == |widths| && Remaining(done, values, widths, |values|, all)
    ensures done == all
  {
  }

  method StartHeader(h: array<byte>, header: byte, l: Layout, joint: nat) returns (pos: nat)
    requires h.Length == 12 && (forall k :: 0 <= k < 12 ==> h[k] == 0) && l.Shape() && joint < Pow2(l.JointWidth())
    modifies h
    ensures pos == 16 + l.JointWidth()
    ensures HalfFilled(h[..], pos, BitsOf(header, 8) + BitsOf(l.bitpool, 8) + BitsOf(joint, l.JointWidth()))
  {
    hide BitsOf, ByteBits, Pow2;
    h[0], h[1] := header, l.bitpool;
    pos := 16;
    assert h[..2] == [header] + [l.bitpool];
    ByteBitsHead(header, [l.bitpool]);
    ByteBitsOne(l.bitpool);
    if l.mode.JointStereo? {
      PowersOfJoint();
      h[2] := joint;
      pos := pos + l.subbands;
      if l.subbands == 8 {
        assert h[..3] == h[..2] + [joint];
        ByteBitsAppend(h[..2], [joint]);
        ByteBitsOne(joint);
      }
    } else {
      EmptyField(BitsOf(header, 8) + BitsOf(l.bitpool, 8), joint);
    }
  }

  /** The checksum over `pos` bits, after the last nibble is moved to the top of its byte. */
  method AlignedChecksum(h: array<byte>, pos: nat, ghost bits: seq<bool>) returns (crc: byte)
    requires HalfFilled(h[..], pos, bits)
    modifies h
    ensures crc == Crc8.Checksum(bits)
  {
    Aligned(h[..], pos, bits);
    hide *;
    ghost var before := h[..];
    var i := pos / 8;
    if pos % 8 != 0 {
      h[i] := Up(h[i]);
      assert h[..] == before[i := Up(before[i])];
    }
    crc := Crc8.Crc8(h[..], pos);
  }

  lemma Aligned(h: seq<byte>, pos: nat, bits: seq<bool>)
    requires HalfFilled(h, pos, bits)
    ensures pos / 8 < |h|
    ensures pos % 8 != 0 ==> ByteBits(h[pos / 8 := Up(h[pos / 8])])[..pos] == bits
    ensures pos % 8 == 0 ==> ByteBits(h)[..pos] == bits
  {
    var i := pos / 8;
    NibbleFits(h, i, pos % 8 == 4, bits);
    hide *;
    if pos % 8 != 0 {
      AlignedBits(h, i, pos, bits);
    } else {
      WholeBits(h, i, pos, bits);
    }
  }

  lemma PowersOfJoint()
    ensures Pow2(4) == 16 && Pow2(8) == 256
  {
    Pow2Constants();
  }

  lemma WholeBits(h: seq<byte>, i: nat, pos: nat, bits: seq<bool>)
    requires Filled(h, i, false, bits) && pos == 8 * i
    ensures ByteBits(h)[..pos] == bits
  {
    hide BitsOf, ByteBits;
    Halves(h, i);
    ByteBitsAppend(h[..i], h[i..]);
    Parts(ByteBits(h[..i]), ByteBits(h[i..]));
  }

  lemma AlignedBits(h: seq<byte>, i: nat, pos: nat, bits: seq<bool>)
    requires Filled(h, i, true, bits) && pos == 8 * i + 4
    ensures ByteBits(h[i := Up(h[i])])[..pos] == bits
  {
    hide *;
    HalfByte(h, i, bits);
    var x := Up(h[i]);
    Updated(h, i, x);
    ByteBitsAppend(h[..i], [x] + h[i + 1..]);
    ByteBitsHead(x, h[i + 1..]);
    IntoMiddle(ByteBits(h[..i]), BitsOf(x, 8), ByteBits(h[i + 1..]), 4);
  }

  lemma HalfByte(h: seq<byte>, i: nat, bits: seq<bool>)
    requires Filled(h, i, true, bits)
    ensures i < |h| && bits == ByteBits(h[..i]) + BitsOf(Up(h[i]), 8)[..4]
  {
    assert Up(h[i]) == h[i] * 16 + 0;
    Nibbles(h[i], 0);
    hide ByteBits, BitsOf;
    Parts(BitsOf(h[i], 4), BitsOf(0, 4));
  }

  // ----- the frame -----

  /** The packer's arguments: a frame whose scale factors cover its samples. */
  ghost predicate Encodable(l: Layout, joint: nat, sf: seq<nat>, samples: seq<seq<int>>) {
    && l.Shape() && (l.blocks == 4 || l.blocks == 8 || l.blocks == 12 || l.blocks == 16)
    && joint < Pow2(l.JointWidth()) && ScaleFactors(l, sf) && SamplesInScale(l, sf, samples)
  }

  /** Put the scale factors, four bits each. */
  method PutFactors(w: Writer, sf: seq<nat>)
    requires w.Valid() && 4 * |sf| <= w.Room() && forall k :: 0 <= k < |sf| ==> Scale(sf[k])
    modifies w, w.data
    ensures w.Valid() && w.stream == old(w.stream) + WriteFields(sf, Fours(|sf|))
    ensures w.data[..w.start] == old(w.data[..w.start])
  {
    ghost var fours, head := Fours(|sf|), w.data[..w.start];
    ghost var all := w.stream + WriteFields(sf, fours);
    hide *;
    NothingWritten(w.stream, sf, fours);
    for k := 0 to |sf|
      invariant w.Valid() && 4 * (|sf| - k) <= w.Room()
      invariant Remaining(w.stream, sf, fours, k, all)
      invariant w.data[..w.start] == head
    {
      NextField(w.stream, sf, fours, k, all);
      FactorFits(sf, k);
      w.PutBits(sf[k] % 16, 4);
    }
    AllWritten(w.stream, sf, fours, all);
  }

  lemma FactorFits(sf: seq<nat>, k: nat)
    requires k < |sf| && Scale(sf[k])
    ensures sf[k] % 16 == sf[k] < Pow2(4) && Fours(|sf|)[k] == 4
  {
    PowersOfJoint();
  }

  /** Quantise and put one block of samples; a subband without bits is passed over. */
  method PutBlock(w: Writer, s: seq<int>, sf: seq<nat>, bits: seq<nat>)
    requires w.Valid() && BlockInScale(sf, s) && |bits| == |sf| && Sum(bits) <= w.Room()
    requires forall k :: 0 <= k < |bits| ==> bits[k] <= MAX_BITS
    modifies w, w.data
    ensures w.Valid() && w.stream == old(w.stream) + WriteFields(QuantisedBlock(s, sf, bits), bits)
    ensures w.data[..w.start] == old(w.data[..w.start])
  {
    ghost var codes, head := QuantisedBlock(s, sf, bits), w.data[..w.start];
    ghost var all := w.stream + WriteFields(codes, bits);
    assert bits[0..] == bits;
    hide Pow2, WriteFields, BitsOf, Sum, Quantise, QuantisedBlock, Remaining, Writer.Valid;
    NothingWritten(w.stream, codes, bits);
    for k := 0 to |s|
      invariant w.Valid() && Sum(bits[k..]) <= w.Room()
      invariant Remaining(w.stream, codes, bits, k, all)
      invariant w.data[..w.start] == head
    {
      SumFrom(bits, k);
      NextField(w.stream, codes, bits, k, all);
      CodeOf(s, sf, bits, k);
      if bits[k] == 0 {
        EmptyField(w.stream, codes[k]);
      } else {
        var audioSample := Quantise(s[k], sf[k], bits[k]);
        w.PutBits(audioSample, bits[k]);
      }
    }
    AllWritten(w.stream, codes, bits, all);
  }

  lemma CodeOf(s: seq<int>, sf: seq<nat>, bits: seq<nat>, k: nat)
    requires BlockInScale(sf, s) && |bits| == |sf| && k < |s|
    ensures QuantisedBlock(s, sf, bits)[k] < Pow2(bits[k])
    ensures bits[k] > 0 ==> QuantisedBlock(s, sf, bits)[k] == Quantise(s[k], sf[k], bits[k])
  {
  }

  lemma EmptyField(done: seq<bool>, v: nat)
    ensures done + BitsOf(v, 0) == done
  {
  }

  method PutBlocks(w: Writer, samples: seq<seq<int>>, sf: seq<nat>, bits: seq<nat>)
    requires w.Valid() && |bits| == |sf| && (forall b :: 0 <= b < |samples| ==> BlockInScale(sf, samples[b]))
    requires Span(|samples|, Sum(bits)) <= w.Room() && forall k :: 0 <= k < |bits| ==> bits[k] <= MAX_BITS
    modifies w, w.data
    ensures w.Valid() && w.stream == old(w.stream) + WriteBlocks(QuantisedFrame(sf, bits, samples), bits)
    ensures 0 <= w.Room()
    ensures w.data[..w.start] == old(w.data[..w.start])
  {
    ghost var codes, head := QuantisedFrame(sf, bits, samples), w.data[..w.start];
    ghost var all := w.stream + WriteBlocks(codes, bits);
    CodedFrame(samples, sf, bits);
    BlocksStart(w, samples, sf, bits, codes);
    hide *;
    for b := 0 to |samples|
      invariant Progress(w, samples, b, sf, bits, codes, all, head)
    {
      PutNextBlock(w, samples, b, sf, bits, codes, all, head);
    }
    BlocksEnd(w, samples, sf, bits, codes, all, head);
  }

  /** `codes` are the samples' codes. */
  ghost predicate Coded(samples: seq<seq<int>>, sf: seq<nat>, bits: seq<nat>, codes: seq<seq<nat>>) {
    && |bits| == |sf| && |codes| == |samples| && Rectangular(codes, |bits|)
    && (forall k :: 0 <= k < |bits| ==> bits[k] <= MAX_BITS)
    && forall b :: 0 <= b < |samples| ==>
         BlockInScale(sf, samples[b]) && codes[b] == QuantisedBlock(samples[b], sf, bits)
  }

  lemma CodedFrame(samples: seq<seq<int>>, sf: seq<nat>, bits: seq<nat>)
    requires |bits| == |sf| && (forall b :: 0 <= b < |samples| ==> BlockInScale(sf, samples[b]))
    requires forall k :: 0 <= k < |bits| ==> bits[k] <= MAX_BITS
    ensures Coded(samples, sf, bits, QuantisedFrame(sf, bits, samples))
  {
  }

  /** The first `b` blocks are written, what is left completes `all` and fits,
    * and the bytes in front of the writer are still `head`. */
  ghost predicate Progress(w: Writer, samples: seq<seq<int>>, b: nat, sf: seq<nat>, bits: seq<nat>,
                           codes: seq<seq<nat>>, all: seq<bool>, head: seq<byte>)
    reads w, w.data
  {
    && b <= |samples| && Coded(samples, sf, bits, codes) && w.Valid()
    && Span(|samples| - b, Sum(bits)) <= w.Room()
    && BlocksRemaining(w.stream, codes, bits, b, all)
    && w.data[..w.start] == head
  }

  lemma BlocksStart(w: Writer, samples: seq<seq<int>>, sf: seq<nat>, bits: seq<nat>, codes: seq<seq<nat>>)
    requires Coded(samples, sf, bits, codes) && w.Valid() && Span(|samples|, Sum(bits)) <= w.Room()
    ensures Progress(w, samples, 0, sf, bits, codes, w.stream + WriteBlocks(codes, bits), w.data[..w.start])
  {
    hide Coded, Writer.Valid, Span, BlocksRemaining;
    assert |codes| == |samples| && Rectangular(codes, |bits|) by { CodedShape(samples, sf, bits, codes); }
    NoBlockWritten(w.stream, codes, bits);
  }

  lemma CodedShape(samples: seq<seq<int>>, sf: seq<nat>, bits: seq<nat>, codes: seq<seq<nat>>)
    requires Coded(samples, sf, bits, codes)
    ensures |codes| == |samples| && Rectangular(codes, |bits|)
  {
  }

  lemma BlocksEnd(w: Writer, samples: seq<seq<int>>, sf: seq<nat>, bits: seq<nat>, codes: seq<seq<nat>>,
          all: seq<bool>, head: seq<byte>)
    requires Progress(w, samples, |samples|, sf, bits, codes, all, head)
    ensures w.Valid() && w.stream == all && 0 <= w.Room() && w.data[..w.start] == head
  {
    hide Coded, Writer.Valid, BlocksRemaining;
    CodedShape(samples, sf, bits, codes);
    AllBlocksWritten(w.stream, codes, bits, all);
  }

  method PutNextBlock(w: Writer, samples: seq<seq<int>>, b: nat, sf: seq<nat>, bits: seq<nat>,
                      ghost codes: seq<seq<nat>>, ghost all: seq<bool>, ghost head: seq<byte>)
    requires b < |samples| && Progress(w, samples, b, sf, bits, codes, all, head)
    modifies w, w.data
    ensures Progress(w, samples, b + 1, sf, bits, codes, all, head)
  {
    hide BlocksRemaining, Writer.Valid, Span, Sum, QuantisedBlock, WriteFields, BlockInScale, Rectangular;
    SpanStep(|samples| - b, Sum(bits));
    NextBlock(w.stream, codes, bits, b, all);
    BlockLength(samples[b], sf, bits);
    PutBlock(w, samples[b], sf, bits);
  }

  /** With `done` written, the blocks from `k` on complete `all`. */
  ghost predicate BlocksRemaining(done: seq<bool>, blocks: seq<seq<nat>>, widths: seq<nat>, k: nat, all: seq<bool>)
    requires k <= |blocks| && Rectangular(blocks, |widths|)
  {
    done + WriteBlocks(blocks[k..], widths) == all
  }

  lemma NoBlockWritten(done: seq<bool>, blocks: seq<seq<nat>>, widths: seq<nat>)
    requires Rectangular(blocks, |widths|)
    ensures BlocksRemaining(done, blocks, widths, 0, done + WriteBlocks(blocks, widths))
  {
    assert blocks[0..] == blocks;
  }

  lemma {:induction false} BlockLength(s: seq<int>, sf: seq<nat>, bits: seq<nat>)
    requires BlockInScale(sf, s) && |bits| == |sf|
    ensures |WriteFields(QuantisedBlock(s, sf, bits), bits)| == Sum(bits)
  {
    WriteFieldsLength(QuantisedBlock(s, sf, bits), bits);
  }

  lemma NextBlock(done: seq<bool>, blocks: seq<seq<nat>>, widths: seq<nat>, k: nat, all: seq<bool>)
    requires Rectangular(blocks, |widths|) && k < |blocks| && BlocksRemaining(done, blocks, widths, k, all)
    ensures BlocksRemaining(done + WriteFields(blocks[k], widths), blocks, widths, k + 1, all)
  {
    hide WriteFields;
    DropTwice(blocks, k, 1);
    var rest := WriteBlocks(blocks[k + 1..], widths);
    Associative(done, WriteFields(blocks[k], widths), rest);
  }

  lemma AllBlocksWritten(done: seq<bool>, blocks: seq<seq<nat>>, widths: seq<nat>, all: seq<bool>)
    requires Rectangular(blocks, |widths|) && BlocksRemaining(done, blocks, widths, |blocks|, all)
    ensures done == all
  {
  }

  /** Everything after the fourth byte: joint flags, scale factors and samples. */
  method PutPayload(w: Writer, l: Layout, joint: nat, sf: seq<nat>, bits: seq<nat>, samples: seq<seq<int>>)
    requires Encodable(l, joint, sf, samples) && l.PoolInBounds() && bits == FrameBits(l, sf)
    requires w.Valid() && w.stream == [] && SideWidth(l) + l.blocks * Sum(bits) <= w.Room()
    modifies w, w.data
    ensures w.Valid() && 0 <= w.Room() && w.stream == Payload(l, joint, sf, QuantisedFrame(sf, bits, samples))
    ensures w.data[..w.start] == old(w.data[..w.start])
  {
    hide BitsOf, WriteFields, WriteBlocks, QuantisedFrame, Sum, FrameBits, BlockInScale, Pow2, Fours;
    assert forall k :: 0 <= k < |bits| ==> bits[k] <= MAX_BITS by { FrameBitsExact(l, sf); }
    MulNonNegative(l.blocks, Sum(bits));
    if l.mode.JointStereo? {
      w.PutBits(joint, l.subbands);
    } else {
      EmptyField([], joint);
    }
    assert w.stream == BitsOf(joint, l.JointWidth());
    SideBitsLength(l, joint, sf);
    PutFactors(w, sf);
    assert w.stream == SideBits(l, joint, sf);
    PutBlocks(w, samples, sf, bits);
  }

  lemma SpaceFor(l: Layout, sf: seq<nat>)
    requires l.Shape() && l.PoolInBounds() && |sf| == l.Width()
    ensures EndOfFrame(l, sf) == 32 + SideWidth(l) + l.blocks * Sum(FrameBits(l, sf))
  {
  }

  lemma PackedIs(l: Layout, joint: nat, sf: seq<nat>, codes: seq<seq<nat>>)
    requires Packable(l) && |sf| == l.Width() && Rectangular(codes, l.Width())
    ensures Packed(l, joint, sf, codes) == PackedHead(l, SideBits(l, joint, sf)) + ToBytes(Payload(l, joint, sf, codes))
  {
  }

  /** The first four bytes. */
  method PutHead(data: array<byte>, l: Layout, joint: nat, sf: seq<nat>)
    requires Packable(l) && ScaleFactors(l, sf) && joint < Pow2(l.JointWidth()) && data.Length >= 4
    modifies data
    ensures data[..4] == PackedHead(l, SideBits(l, joint, sf))
  {
    hide FrameChecksum, SideBits, Pow2, ScaleFactors, HeaderByte;
    data[0] := SBC_SYNCWORD;
    data[1] := HeaderByte(l);
    data[2] := l.bitpool;
    var crc := PackerChecksum(data[1], l, joint, sf);
    data[3] := crc;
  }

  /** Pack one frame at the front of `data`: the length of the packed frame, or -5. */
  method PackFrame(data: array<byte>, l: Layout, joint: nat, sf: seq<nat>, samples: seq<seq<int>>) returns (r: int)
    requires Encodable(l, joint, sf, samples)
    requires data.Length >= if l.PoolInBounds() then (EndOfFrame(l, sf) + 7) / 8 else 4
    modifies data
    ensures !l.PoolInBounds() ==> r == -5
    ensures l.PoolInBounds() ==>
      && 4 <= r <= data.Length
      && data[..r] == Packed(l, joint, sf, QuantisedFrame(sf, FrameBits(l, sf), samples))
  {
    if !l.PoolInBounds() {
      data[0], data[1], data[2] := SBC_SYNCWORD, HeaderByte(l), l.bitpool;
      return -5;
    }
    PutHead(data, l, joint, sf);
    var bits := CalculateBits(l, sf);
    ghost var codes := QuantisedFrame(sf, bits, samples);
    PackedIs(l, joint, sf, codes);
    SpaceFor(l, sf);
    hide Packed, PackedHead, Payload, SideBits, EndOfFrame, SideWidth;
    hide QuantisedFrame, FrameBits, Sum, ToBytes, ScaleFactors, Pow2, BlockInScale;
    var w := new Writer(data, 4);
    PutPayload(w, l, joint, sf, bits, samples);
    w.FlushBits();
    r := w.ptr;
    TakeInTwo(data[..], 4, r);
    assert data[..][..4] == data[..4] && data[..][4..r] == data[4..r] && data[..][..r] == data[..r];
  }
}
