/** What the frame decoded in place of a lost one holds: silence.  Every code of it is
  * the middle one of its range, so that the decoder's filter is fed zeros and rings out. */
module SilentAudio {
  import opened Sequences
  import opened Bits
  import opened BitAllocation
  import opened Quantiser
  import opened SbcFrame
  import opened SbcFormat
  import opened SilentFrame

  const NO_FACTORS: seq<nat> := [0, 0, 0, 0, 0, 0, 0, 0]
  const WIDTHS: seq<nat> := [4, 4, 3, 3, 3, 3, 3, 3]
  const MIDDLES: seq<nat> := [7, 7, 3, 3, 3, 3, 3, 3]

  // ----- the bits of a silent frame -----

  lemma {:induction false} LevelSumOfEqual(need: seq<int>, v: int, slice: int, n: nat)
    requires n <= |need| && forall k :: 0 <= k < |need| ==> need[k] == v
    ensures LevelSum(need, slice, n) == n * Level(v, slice)
  {
    if n > 0 {
      LevelSumOfEqual(need, v, slice, n - 1);
    }
  }

  /** Without scale factors the pool of 26 gives four bits to the first two subbands and three to the others. */
  lemma {:induction false} SilentWidths()
    ensures FrameBits(MSBC, NO_FACTORS) == WIDTHS
  {
    hide FinalSlice, LevelSum, Allocation, Needs, FrameBits;
    MsbcNeeds(NO_FACTORS, 0);
    var need := Needs(MSBC, NO_FACTORS);
    forall k | 0 <= k < 8 ensures need[k] == -5 {
      MsbcNeeds(NO_FACTORS, k);
    }
    hide MSBC, NO_FACTORS;
    AllSilent(need);
    Spread(need);
  }

  lemma AllSilent(need: seq<int>)
    requires |need| == 8 && forall k :: 0 <= k < 8 ==> need[k] == -5
    ensures FinalSlice(need, 26) == -8 && LevelSum(need, -8, 8) == 24
    ensures BitAllocation.Levels(need, -8) == [3, 3, 3, 3, 3, 3, 3, 3]
  {
    hide FinalSlice, LevelSum;
    var slice := FinalSlice(need, 26);
    LevelSumOfEqual(need, -5, slice, 8);
    LevelSumOfEqual(need, -5, slice - 1, 8);
    LevelSumOfEqual(need, -5, -8, 8);
  }

  lemma Spread(need: seq<int>)
    requires |need| == 8 && (forall k :: 0 <= k < 8 ==> need[k] == -5) && FinalSlice(need, 26) == -8
    requires BitAllocation.Levels(need, -8) == [3, 3, 3, 3, 3, 3, 3, 3] && LevelSum(need, -8, 8) == 24
    ensures Allocation(need, 26) == WIDTHS
  {
    var (t, u, w) := (Tally([3, 3, 3, 3, 3, 3, 3, 3], 24), Tally([4, 3, 3, 3, 3, 3, 3, 3], 25), Tally(WIDTHS, 26));
    assert AfterSlicing(need, 26) == t;
    SpreadSteps(need, t, u, w);
    hide SecondStep, WIDTHS, BitAllocation.Levels, LevelSum, FinalSlice;
    assert SecondPass(need, -8, 26, w, 2) == w;
    assert SecondPass(need, -8, 26, u, 1) == w;
  }

  lemma SpreadSteps(need: seq<int>, t: Tally, u: Tally, w: Tally)
    requires |need| == 8 && t == Tally([3, 3, 3, 3, 3, 3, 3, 3], 24) && u == Tally([4, 3, 3, 3, 3, 3, 3, 3], 25)
    requires w == Tally(WIDTHS, 26)
    ensures |t.bits| == |u.bits| == |w.bits| == 8
    ensures SecondStep(need, -8, 26, t, 0) == u && SecondStep(need, -8, 26, u, 1) == w
  {
  }

  // ----- the codes -----

  /** The number the first `n` bytes spell. */
  function BytesValue(b: seq<int>, n: nat): int
    requires n <= |b|
  {
    if n == 0 then 0 else 256 * BytesValue(b, n - 1) + b[n - 1]
  }

  lemma {:induction false} BytesSpell(b: seq<byte>, n: nat)
    requires n <= |b|
    ensures ToNat(ByteBits(b[..n])) == BytesValue(b, n)
  {
    if n > 0 {
      BytesSpell(b, n - 1);
      assert b[..n][..n - 1] == b[..n - 1];
      ByteSpells(ByteBits(b[..n - 1]), b[n - 1]);
      hide BitsOf, ToNat;
    }
  }

  lemma ByteSpells(p: seq<bool>, x: byte)
    ensures ToNat(p + BitsOf(x, 8)) == 256 * ToNat(p) + x
  {
    hide BitsOf, ToNat, Pow2;
    Pow2Constants();
    ToNatAppend(p, BitsOf(x, 8));
    ToNatOfBits(x, 8);
  }

  /** One block of the middle codes. */
  function Block(): (b: seq<bool>)
    ensures |b| == 26
  {
    WriteFieldsLength(MIDDLES, WIDTHS);
    SumOfWidths();
    WriteFields(MIDDLES, WIDTHS)
  }

  lemma SumOfWidths()
    ensures Sum(WIDTHS) == 26
  {
    assert WIDTHS[..7] == [4, 4, 3, 3, 3, 3, 3] && WIDTHS[..7][..6] == [4, 4, 3, 3, 3, 3];
    assert Sum([4, 4]) == 8 by { assert [4, 4][..1] == [4] && [4][..0] == []; }
    assert [4, 4, 3][..2] == [4, 4] && [4, 4, 3, 3][..3] == [4, 4, 3] && [4, 4, 3, 3, 3][..4] == [4, 4, 3, 3];
    assert [4, 4, 3, 3, 3, 3][..5] == [4, 4, 3, 3, 3];
  }

  lemma {:induction false} FieldSpells(values: seq<nat>, widths: seq<nat>, tail: nat)
    requires |values| == |widths| && values != [] && values[0] < Pow2(widths[0])
    requires ToNat(WriteFields(values[1..], widths[1..])) == tail
    ensures ToNat(WriteFields(values, widths)) == values[0] * Pow2(|WriteFields(values[1..], widths[1..])|) + tail
    ensures |WriteFields(values, widths)| == widths[0] + |WriteFields(values[1..], widths[1..])|
  {
    ToNatAppend(BitsOf(values[0], widths[0]), WriteFields(values[1..], widths[1..]));
    ToNatOfBits(values[0], widths[0]);
  }

  /** A block of them spells this number. */
  lemma BlockSpells()
    ensures ToNat(Block()) == 31307483
  {
    Powers();
    hide Pow2, ToNat, BitsOf;
    var (v, w) := (MIDDLES, WIDTHS);
    assert WriteFields(v[8..], w[8..]) == [];
    assert ToNat([]) == 0 by { NothingSpells(); }
    assert v[7..][1..] == v[8..] && w[7..][1..] == w[8..];
    FieldSpells(v[7..], w[7..], 0);
    assert v[6..][1..] == v[7..] && w[6..][1..] == w[7..];
    FieldSpells(v[6..], w[6..], 3);
    assert v[5..][1..] == v[6..] && w[5..][1..] == w[6..];
    FieldSpells(v[5..], w[5..], 27);
    assert v[4..][1..] == v[5..] && w[4..][1..] == w[5..];
    FieldSpells(v[4..], w[4..], 219);
    assert v[3..][1..] == v[4..] && w[3..][1..] == w[4..];
    FieldSpells(v[3..], w[3..], 1755);
    assert v[2..][1..] == v[3..] && w[2..][1..] == w[3..];
    FieldSpells(v[2..], w[2..], 14043);
    FieldSpells(v[1..], w[1..], 112347);
    FieldSpells(v, w, 1947355);
  }

  lemma NothingSpells()
    ensures ToNat([]) == 0
  {
  }

  lemma Powers()
    ensures Pow2(0) == 1 && Pow2(3) == 8 && Pow2(4) == 16 && Pow2(6) == 64 && Pow2(9) == 512 && Pow2(12) == 4096
    ensures Pow2(15) == 32768 && Pow2(18) == 262144 && Pow2(22) == 4194304 && Pow2(26) == 67108864 && Pow2(2) == 4
  {
    assert Pow2(3) == 8 && Pow2(4) == 16;
    Pow2Add(3, 3);
    Pow2Add(6, 3);
    Pow2Add(9, 3);
    Pow2Add(12, 3);
    Pow2Add(15, 3);
    Pow2Add(18, 4);
    Pow2Add(22, 4);
  }

  /** `n` blocks of the middle codes. */
  function Copies(n: nat): (c: seq<seq<nat>>)
    ensures |c| == n && Rectangular(c, 8) && forall k :: 0 <= k < n ==> c[k] == MIDDLES
  {
    seq(n, _ => MIDDLES)
  }

  function CopyBits(n: nat): seq<bool> { WriteBlocks(Copies(n), WIDTHS) }

  lemma {:induction false} OneBlockMore(n: nat)
    requires n > 0
    ensures CopyBits(n) == CopyBits(n - 1) + Block()
    ensures CopyBits(n) == Block() + CopyBits(n - 1)
  {
    assert Copies(n)[1..] == Copies(n - 1);
    hide WriteFields;
    if n == 1 {
      assert Block() + [] == Block() == [] + Block();
    } else {
      OneBlockMore(n - 1);
      Associative(Block(), CopyBits(n - 2), Block());
    }
  }

  function CopiesValue(n: nat): nat { if n == 0 then 0 else 67108864 * CopiesValue(n - 1) + 31307483 }

  lemma {:induction false} CopiesSpell(n: nat)
    ensures ToNat(CopyBits(n)) == CopiesValue(n) && |CopyBits(n)| == 26 * n
  {
    NoCopies();
    hide ToNat, CopyBits, Block;
    if n > 0 {
      CopiesSpell(n - 1);
      OneBlockMore(n);
      BlockJoins(CopyBits(n - 1));
    }
  }

  lemma NoCopies()
    ensures CopyBits(0) == [] && ToNat(CopyBits(0)) == 0
  {
  }

  lemma BlockJoins(p: seq<bool>)
    ensures ToNat(p + Block()) == 67108864 * ToNat(p) + 31307483
  {
    hide Pow2, ToNat, Block;
    Powers();
    BlockSpells();
    ToNatAppend(p, Block());
  }

  /** Equal numbers of equal length are equal bits. */
  lemma SameBits(a: seq<bool>, b: seq<bool>)
    requires |a| == |b| && ToNat(a) == ToNat(b)
    ensures a == b
  {
    BitsOfToNat(a);
    BitsOfToNat(b);
  }

  /** The bytes of four blocks, and of the last three with two bits of padding. */
  const FOUR: seq<byte> := [0x77, 0x6d, 0xb6, 0xdd, 0xdb, 0x6d, 0xb7, 0x76, 0xdb, 0x6d, 0xdd, 0xb6, 0xdb]
  const THREE: seq<byte> := [0x77, 0x6d, 0xb6, 0xdd, 0xdb, 0x6d, 0xb7, 0x76, 0xdb, 0x6c]

  lemma AudioParts()
    ensures AUDIO == FOUR + (FOUR + (FOUR + THREE))
  {
  }

  lemma FourValue()
    ensures |FOUR| == 13 && BytesValue(FOUR, 13) == CopiesValue(4)
  {
    assert BytesValue(FOUR, 7) == 0x77_6d_b6_dd_db_6d_b7;
    assert BytesValue(FOUR, 13) == 0x77_6d_b6_dd_db_6d_b7_76_db_6d_dd_b6_db;
  }

  lemma ThreeValue()
    ensures |THREE| == 10 && BytesValue(THREE, 10) == 4 * CopiesValue(3)
  {
  }

  lemma PaddingSpells()
    ensures ToNat([false, false]) == 0
  {
    assert [false, false][..1] == [false] && [false][..0] == [];
  }

  lemma {:induction false} FourIs()
    ensures ByteBits(FOUR) == CopyBits(4)
  {
    FourValue();
    hide ByteBits, CopyBits, CopiesValue, BytesValue, ToNat, FOUR;
    BytesSpell(FOUR, 13);
    assert FOUR[..13] == FOUR;
    CopiesSpell(4);
    SameBits(ByteBits(FOUR), CopyBits(4));
  }

  lemma {:induction false} ThreeIs()
    ensures ByteBits(THREE) == CopyBits(3) + [false, false]
  {
    ThreeValue();
    hide ByteBits, CopyBits, CopiesValue, BytesValue, ToNat, THREE;
    BytesSpell(THREE, 10);
    assert THREE[..10] == THREE;
    CopiesSpell(3);
    PaddedSpells(CopyBits(3));
    SameBits(ByteBits(THREE), CopyBits(3) + [false, false]);
  }

  lemma PaddedSpells(p: seq<bool>)
    ensures ToNat(p + [false, false]) == 4 * ToNat(p)
  {
    hide ToNat, Pow2;
    Powers();
    PaddingSpells();
    ToNatAppend(p, [false, false]);
  }

  lemma {:induction false} CopiesJoin(m: nat, n: nat)
    ensures CopyBits(m + n) == CopyBits(m) + CopyBits(n)
  {
    if m == 0 {
      assert [] + CopyBits(n) == CopyBits(n);
    } else {
      CopiesJoin(m - 1, n);
      OneBlockMore(m);
      OneBlockMore(m + n);
      hide CopyBits, Block;
      Associative(Block(), CopyBits(m - 1), CopyBits(n));
    }
  }

  /** The audio bytes are fifteen blocks of the middle codes and two bits of padding. */
  lemma {:induction false} AudioIs()
    ensures ByteBits(AUDIO) == CopyBits(15) + [false, false]
  {
    AudioParts();
    FourIs();
    ThreeIs();
    CopiesJoin(4, 3);
    CopiesJoin(4, 7);
    CopiesJoin(4, 11);
    hide ByteBits, CopyBits, AUDIO, FOUR, THREE;
    ByteBitsAppend(FOUR, THREE);
    ByteBitsAppend(FOUR, FOUR + THREE);
    ByteBitsAppend(FOUR, FOUR + (FOUR + THREE));
    var (f, t, p) := (CopyBits(4), CopyBits(3), [false, false]);
    Associative(f, t, p);
    Associative(f, f + t, p);
    Associative(f, f + (f + t), p);
  }

  // ----- what it decodes to -----

  lemma MiddlesAreSilent()
    ensures Reconstructed(NO_FACTORS, WIDTHS, MIDDLES) == [0, 0, 0, 0, 0, 0, 0, 0]
  {
    Powers();
    assert Dequantise(7, 0, 4) == 0 && Dequantise(3, 0, 3) == 0;
    hide Dequantise;
  }

  ghost predicate Silence(samples: seq<seq<int>>) {
    |samples| == 15 && forall b :: 0 <= b < 15 ==> samples[b] == [0, 0, 0, 0, 0, 0, 0, 0]
  }

  /** An mSBC frame's samples, from its parts. */
  lemma {:induction false} SamplesFrom(data: seq<byte>, len: nat, sf: seq<nat>, bits: seq<nat>, codes: seq<seq<nat>>)
    requires |data| >= len + 2 && data[0] == MSBC_SYNCWORD && Parse(data, len).Frame? && len >= 8
    requires SilentShape(data) && |sf| == 8 && FrameBits(MSBC, sf) == bits
    requires ReadFields(ByteBits(data)[32..], Fours(8)) == sf
    requires ReadBlocks(ByteBits(data)[32..][32..], bits, 15) == codes
    ensures Rectangular(codes, 8) && Parse(data, len).samples == FrameSamples(MSBC, [], sf, bits, codes)
  {
    hide ByteBits, FrameBits, ReadBlocks, ReadFields, FrameChecksum, FrameSamples, FrameLength, AudioWidth;
    assert ByteBits(data)[32..][0..] == ByteBits(data)[32..];
  }

  ghost predicate SilentShape(data: seq<byte>) {
    |data| >= 8 && SideWidth(MSBC) == 32 && MSBC.JointWidth() == 0 && MSBC.Width() == 8 && MSBC.PoolInBounds()
  }

  /** The samples of the silent frame are zeros, whatever lies behind it. */
  lemma {:induction false} SilentSamples(behind: seq<byte>)
    requires |behind| >= 2
    ensures Parse(INDICES0 + behind, 58).Frame? && Silence(Parse(INDICES0 + behind, 58).samples)
  {
    var data := INDICES0 + behind;
    SilentFrameAccepted(behind);
    SilentParts(data, behind);
    SilentWidths();
    AudioBlocks(ByteBits([0] + behind));
    hide *;
    SamplesFrom(data, 58, NO_FACTORS, WIDTHS, Copies(15));
    SilentCopies();
  }

  lemma SilentCopies()
    ensures MSBC.Width() == 8 == |NO_FACTORS| == |WIDTHS|
    ensures Silence(FrameSamples(MSBC, [], NO_FACTORS, WIDTHS, Copies(15)))
  {
    MiddlesAreSilent();
    assert |NO_FACTORS| == |WIDTHS| == 8;
    hide Reconstructed, NO_FACTORS, MIDDLES, WIDTHS;
  }

  /** Its scale factors are zero, and its audio bits follow them. */
  lemma {:induction false} SilentParts(data: seq<byte>, behind: seq<byte>)
    requires data == INDICES0 + behind && |behind| >= 2
    ensures |data| >= 60 && data[0] == MSBC_SYNCWORD && SilentShape(data)
    ensures ReadFields(ByteBits(data)[32..], Fours(8)) == NO_FACTORS
    ensures ByteBits(data)[32..][32..] == ByteBits(AUDIO) + ByteBits([0] + behind)
  {
    var (h, rest) := (ByteBits(HEAD), ByteBits(AUDIO + ([0] + behind)));
    DataIs(data, behind);
    HeadBits(rest);
    hide *;
    ByteBitsAppend(HEAD, AUDIO + ([0] + behind));
    ByteBitsAppend(AUDIO, [0] + behind);
    DropInside(h, rest);
  }

  lemma DropInside(h: seq<bool>, rest: seq<bool>)
    requires |h| == 64
    ensures (h + rest)[32..] == h[32..] + rest && (h + rest)[32..][32..] == rest
  {
    assert (h[32..] + rest)[32..] == rest;
  }

  lemma DataIs(data: seq<byte>, behind: seq<byte>)
    requires data == INDICES0 + behind && |behind| >= 2
    ensures |data| >= 60 && data[0] == MSBC_SYNCWORD && SilentShape(data) && data == HEAD + (AUDIO + ([0] + behind))
  {
    assert |AUDIO| == 49;
    hide AUDIO;
    Associative(HEAD, AUDIO, [0]);
    Associative(HEAD, AUDIO + [0], behind);
    Associative(AUDIO, [0], behind);
  }

  lemma {:induction false} HeadBits(rest: seq<bool>)
    ensures |ByteBits(HEAD)| == 64 && ReadFields(ByteBits(HEAD)[32..] + rest, Fours(8)) == NO_FACTORS
  {
    var z: seq<byte> := [0, 0, 0, 0];
    assert HEAD == HEAD[..4] + z;
    ByteBitsAppend(HEAD[..4], z);
    assert ByteBits(HEAD)[32..] == ByteBits(z);
    ZerosAreZeros(z);
    ZeroFields(8, rest);
    assert Fours(8) == [4, 4, 4, 4, 4, 4, 4, 4];
  }

  lemma {:induction false} ZerosAreZeros(z: seq<byte>)
    requires forall k :: 0 <= k < |z| ==> z[k] == 0
    ensures ByteBits(z) == Zeros(8 * |z|)
  {
    if z != [] {
      ZerosAreZeros(z[..|z| - 1]);
      BitsOfZero(8);
    }
  }

  lemma {:induction false} ZeroFields(n: nat, rest: seq<bool>)
    ensures ReadFields(Zeros(4 * n) + rest, Fours(n)) == seq(n, _ => 0)
  {
    if n > 0 {
      var b := Zeros(4 * n) + rest;
      assert Front(b, 4) == Zeros(4) && Back(b, 4) == Zeros(4 * (n - 1)) + rest;
      BitsOfZero(4);
      assert Pow2(4) == 16;
      ToNatOfBits(0, 4);
      assert Fours(n)[1..] == Fours(n - 1);
      ZeroFields(n - 1, rest);
    }
  }

  /** The blocks read from the audio bits, whatever follows them. */
  lemma {:induction false} AudioBlocks(rest: seq<bool>)
    ensures ReadBlocks(ByteBits(AUDIO) + rest, WIDTHS, 15) == Copies(15)
  {
    AudioIs();
    MiddlesFit();
    assert CopyBits(15) == WriteBlocks(Copies(15), WIDTHS);
    hide ByteBits, WriteBlocks, Fit, ReadBlocks, CopyBits, MIDDLES;
    Associative(CopyBits(15), [false, false], rest);
    BlocksRoundTrip(Copies(15), WIDTHS, [false, false] + rest);
  }

  lemma MiddlesFit()
    ensures Fit(MIDDLES, WIDTHS) && |WIDTHS| == 8
  {
    Powers();
    hide Pow2;
  }
}
