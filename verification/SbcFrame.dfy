/** SBC and mSBC frames: what the fields of a frame are, which bits encode them,
  * and what a parser reads back (A2DP sections 12.4, 12.6 and 12.9; mSBC is
  * section 5.7.4 of HFP 1.6).
  *
  * The codec keeps per-channel tables as [channel][subband]; here they are one
  * sequence in that order, channel after channel.
  */
module SbcFrame {
  import opened Arith
  import opened Sequences
  import opened Bits
  import opened BitAllocation
  import opened Quantiser

  const SBC_SYNCWORD: byte := 0x9C
  const MSBC_SYNCWORD: byte := 0xAD

  datatype Mode = Mono | DualChannel | Stereo | JointStereo {
    function Code(): nat {
      match this case Mono => 0 case DualChannel => 1 case Stereo => 2 case JointStereo => 3
    }
    predicate SharesPool() { Stereo? || JointStereo? }
  }

  function ModeOf(code: nat): Mode
    requires code < 4
  {
    if code == 0 then Mono else if code == 1 then DualChannel else if code == 2 then Stereo else JointStereo
  }

  /** Everything a frame header says about the frame that follows. */
  datatype Layout = Layout(frequency: nat, blocks: nat, mode: Mode, snr: bool, subbands: nat, bitpool: nat) {
    /** Subband samples in one block. */
    function Width(): nat { if mode.Mono? then subbands else 2 * subbands }

    ghost predicate Shape() {
      frequency < 4 && blocks > 0 && (subbands == 4 || subbands == 8) && bitpool < 256
    }

    /** The guard both directions apply to the bitpool. */
    predicate PoolInBounds() {
      bitpool <= if mode.SharesPool() then 32 * subbands else 16 * subbands
    }

    /** Bits of the joint-stereo field. */
    function JointWidth(): nat { if mode.JointStereo? then subbands else 0 }
  }

  ghost predicate ScaleFactors(l: Layout, sf: seq<nat>) {
    |sf| == l.Width() && forall k :: 0 <= k < |sf| ==> Scale(sf[k])
  }

  // ----- bits per sample -----

  function Offset4(frequency: nat): (r: seq<int>)
    ensures |r| == 4
  {
    if frequency == 0 then [-1, 0, 0, 0] else [-2, 0, 0, 1]
  }

  function Offset8(frequency: nat): (r: seq<int>)
    ensures |r| == 8
  {
    if frequency == 0 then [-2, 0, 0, 0, 0, 0, 0, 1]
    else if frequency == 1 then [-3, 0, 0, 0, 0, 0, 1, 2]
    else [-4, 0, 0, 0, 0, 0, 1, 2]
  }

  /** The bit need of one subband. */
  function Need(l: Layout, factor: nat, sb: nat): int
    requires (l.subbands == 4 || l.subbands == 8) && sb < l.subbands
  {
    if l.snr then factor
    else if factor == 0 then -5
    else
      var loudness := factor - if l.subbands == 4 then Offset4(l.frequency)[sb] else Offset8(l.frequency)[sb];
      if loudness > 0 then loudness / 2 else loudness
  }

  /** A larger scale factor never needs fewer bits, a silent subband needs least,
    * and no need is out of reach of the slicing loop. */
  lemma NeedMonotone(l: Layout, a: nat, b: nat, sb: nat)
    requires (l.subbands == 4 || l.subbands == 8) && sb < l.subbands && a <= b && Scale(b)
    ensures -5 <= Need(l, a, sb) <= Need(l, b, sb) <= MAX_SCALE
    ensures a == 0 < b ==> Need(l, a, sb) < Need(l, b, sb)
  {
  }

  function Needs(l: Layout, sf: seq<nat>): (r: seq<int>)
    requires (l.subbands == 4 || l.subbands == 8) && |sf| == l.Width()
    ensures |r| == l.Width()
  {
    seq(l.Width(), k requires 0 <= k < l.Width() => Need(l, sf[k], k % l.subbands))
  }

  /** The need of subband `sb` of channel `ch`.  By SNR it is the scale factor; by
    * loudness a silent subband needs -5, and any other half of what its factor is above
    * the standard's offset for that frequency and subband, or all it is below. */
  lemma {:induction false} NeedsAre(l: Layout, sf: seq<nat>, ch: nat, sb: nat)
    requires (l.subbands == 4 || l.subbands == 8) && |sf| == l.Width() && sb < l.subbands
    requires ch < if l.mode.Mono? then 1 else 2
    ensures ch * l.subbands + sb < l.Width()
    ensures var (factor, need) := (sf[ch * l.subbands + sb], Needs(l, sf)[ch * l.subbands + sb]);
      if l.snr then need == factor
      else if factor == 0 then need == -5
      else exists o: int ::
        && StandardOffset(l.frequency, l.subbands, sb, o)
        && if factor > o then 2 * need <= factor - o <= 2 * need + 1 else need == factor - o
  {
    OffsetsAre(l.frequency, sb);
    var o := if l.subbands == 4 then Offset4(l.frequency)[sb] else Offset8(l.frequency)[sb];
    assert StandardOffset(l.frequency, l.subbands, sb, o);
    ChannelIndex(ch, l.subbands, sb);
  }

  lemma ChannelIndex(ch: nat, n: nat, sb: nat)
    requires ch < 2 && sb < n && (n == 4 || n == 8)
    ensures ch * n + sb < (ch + 1) * n <= 2 * n && (ch * n + sb) % n == sb
  {
  }

  /** The offsets of the standard (A2DP Appendix B), entry by entry: for 16 kHz, 32 kHz,
    * 44.1 kHz and 48 kHz.  Most are zero; the lowest subband has a bonus that grows with
    * the frequency, and the highest ones are discounted. */
  ghost predicate StandardOffset(frequency: nat, subbands: nat, sb: nat, o: int) {
    if subbands == 4 then
      if sb == 0 then o == (if frequency == 0 then -1 else -2)
      else if sb == 3 && frequency >= 1 then o == 1
      else o == 0
    else
      if sb == 0 then o == (if frequency == 0 then -2 else if frequency == 1 then -3 else -4)
      else if sb == 6 && frequency >= 1 then o == 1
      else if sb == 7 then o == (if frequency == 0 then 1 else 2)
      else o == 0
  }

  lemma OffsetsAre(frequency: nat, sb: nat)
    ensures sb < 4 ==> StandardOffset(frequency, 4, sb, Offset4(frequency)[sb])
    ensures sb < 8 ==> StandardOffset(frequency, 8, sb, Offset8(frequency)[sb])
  {
  }

  /** The order in which the stereo modes visit two channels: both sides of each subband in turn. */
  function Interleave<T>(s: seq<T>, n: nat): (r: seq<T>)
    requires |s| == 2 * n
    ensures |r| == 2 * n
  {
    seq(2 * n, k requires 0 <= k < 2 * n => s[(k % 2) * n + k / 2])
  }

  /** One channel out of an interleaved sequence. */
  function Side<T>(s: seq<T>, n: nat, ch: nat): (r: seq<T>)
    requires |s| == 2 * n && ch < 2
    ensures |r| == n && forall sb :: 0 <= sb < n ==> r[sb] == s[2 * sb + ch]
  {
    seq(n, sb requires 0 <= sb < n => s[2 * sb + ch])
  }

  /** Both sides of a subband are next to each other, the left one first, and each
    * channel is found again in what was interleaved. */
  lemma {:induction false} Interleaved<T>(s: seq<T>, n: nat, ch: nat)
    requires |s| == 2 * n && ch < 2
    ensures forall sb :: 0 <= sb < n ==> Interleave(s, n)[2 * sb] == s[sb] && Interleave(s, n)[2 * sb + 1] == s[n + sb]
    ensures Side(Interleave(s, n), n, ch) == if ch == 0 then s[..n] else s[n..]
  {
    forall sb | 0 <= sb < n
      ensures Interleave(s, n)[2 * sb] == s[sb] && Interleave(s, n)[2 * sb + 1] == s[n + sb]
    {
      InterleavedAt(s, n, sb);
    }
    hide Interleave;
    var r, from := Side(Interleave(s, n), n, ch), if ch == 0 then 0 else n;
    forall sb | 0 <= sb < n ensures r[sb] == s[from + sb] {
      assert r[sb] == Interleave(s, n)[2 * sb + ch];
    }
  }

  lemma InterleavedAt<T>(s: seq<T>, n: nat, sb: nat)
    requires |s| == 2 * n && sb < n
    ensures Interleave(s, n)[2 * sb] == s[sb] && Interleave(s, n)[2 * sb + 1] == s[n + sb]
  {
    assert (2 * sb) % 2 == 0 && (2 * sb) / 2 == sb && (2 * sb + 1) % 2 == 1 && (2 * sb + 1) / 2 == sb;
  }

  /** And what was taken apart is found again when it is put together. */
  lemma {:induction false} SidesInterleaved<T>(a: seq<T>, n: nat)
    requires |a| == 2 * n
    ensures Interleave(Side(a, n, 0) + Side(a, n, 1), n) == a
  {
    var s := Side(a, n, 0) + Side(a, n, 1);
    forall k | 0 <= k < 2 * n ensures Interleave(s, n)[k] == a[k] {
      InterleavedAt(s, n, k / 2);
      assert s[k / 2] == a[2 * (k / 2)] && s[n + k / 2] == a[2 * (k / 2) + 1];
    }
  }

  /** Bits per sample, for every subband of every channel. */
  function FrameBits(l: Layout, sf: seq<nat>): (bits: seq<nat>)
    requires (l.subbands == 4 || l.subbands == 8) && l.PoolInBounds() && |sf| == l.Width()
    ensures |bits| == l.Width()
  {
    var need := Needs(l, sf);
    match l.mode
    case Mono => Allocation(need, l.bitpool)
    case DualChannel => Allocation(need[..l.subbands], l.bitpool) + Allocation(need[l.subbands..], l.bitpool)
    case _ =>
      var a := Allocation(Interleave(need, l.subbands), l.bitpool);
      Side(a, l.subbands, 0) + Side(a, l.subbands, 1)
  }

  /** Each channel has an allocation of its own in mono and dual channel; in the stereo
    * modes the bits, both sides of each subband in turn, are one allocation for the needs in that order. */
  lemma {:induction false} FrameBitsAre(l: Layout, sf: seq<nat>, ch: nat)
    requires (l.subbands == 4 || l.subbands == 8) && l.PoolInBounds() && |sf| == l.Width()
    requires ch < if l.mode.Mono? then 1 else 2
    ensures var (n, need, bits) := (l.subbands, Needs(l, sf), FrameBits(l, sf));
      if l.mode.SharesPool() then Interleave(bits, n) == Allocation(Interleave(need, n), l.bitpool)
      else if ch == 0 then bits[..n] == Allocation(need[..n], l.bitpool)
      else bits[n..] == Allocation(need[n..], l.bitpool)
  {
    hide Allocation, Needs, Interleave, Side;
    var (n, need) := (l.subbands, Needs(l, sf));
    if l.mode.SharesPool() {
      SidesInterleaved(Allocation(Interleave(need, n), l.bitpool), n);
    } else {
      assert l.mode.Mono? ==> need[..n] == need;
      assert FrameBits(l, sf)[..n] == Allocation(need[..n], l.bitpool);
    }
  }

  /** Bits the samples of one block take. */
  function BlockSize(l: Layout): nat {
    if l.mode.DualChannel? then 2 * l.bitpool else l.bitpool
  }

  lemma {:induction false} SumAppend(a: seq<nat>, b: seq<nat>)
    ensures Sum(a + b) == Sum(a) + Sum(b)
  {
    if b == [] {
      assert a + b == a;
    } else {
      SumAppend(a, b[..|b| - 1]);
      assert (a + b)[..|a + b| - 1] == a + b[..|b| - 1];
    }
  }

  lemma {:induction false} SumOfSides(a: seq<nat>, n: nat)
    requires |a| == 2 * n
    ensures Sum(Side(a, n, 0)) + Sum(Side(a, n, 1)) == Sum(a)
  {
    if n > 0 {
      var b := a[..2 * n - 2];
      SumOfSides(b, n - 1);
      assert Side(a, n, 0)[..n - 1] == Side(b, n - 1, 0);
      assert Side(a, n, 1)[..n - 1] == Side(b, n - 1, 1);
      assert a[..2 * n - 1][..2 * n - 2] == b;
    }
  }

  /** In every mode each sample takes at most 16 bits and each block exactly its share of the bitpool. */
  lemma FrameBitsExact(l: Layout, sf: seq<nat>)
    requires (l.subbands == 4 || l.subbands == 8) && l.PoolInBounds() && |sf| == l.Width()
    ensures Sum(FrameBits(l, sf)) == BlockSize(l)
    ensures forall k :: 0 <= k < l.Width() ==> FrameBits(l, sf)[k] <= MAX_BITS
  {
    var need, n := Needs(l, sf), l.subbands;
    if l.mode.SharesPool() {
      SharedBitsExact(Interleave(need, n), n, l.bitpool);
    } else if l.mode.Mono? {
      AllocationExact(need, l.bitpool);
    } else {
      AllocationExact(need[..n], l.bitpool);
      AllocationExact(need[n..], l.bitpool);
      hide Allocation, Needs, Sum;
      SumAppend(Allocation(need[..n], l.bitpool), Allocation(need[n..], l.bitpool));
    }
  }

  lemma SharedBitsExact(need: seq<int>, n: nat, pool: nat)
    requires |need| == 2 * n && pool <= 32 * n
    ensures var a := Allocation(need, pool); var bits := Side(a, n, 0) + Side(a, n, 1);
      Sum(bits) == pool && forall k :: 0 <= k < 2 * n ==> bits[k] <= MAX_BITS
  {
    hide Allocation, Sum;
    var a := Allocation(need, pool);
    AllocationExact(need, pool);
    SumOfSides(a, n);
    SumAppend(Side(a, n, 0), Side(a, n, 1));
  }

  /** Bits per sample for every subband: one allocation per channel, or one shared by both. */
  method CalculateBits(l: Layout, sf: seq<nat>) returns (bits: seq<nat>)
    requires (l.subbands == 4 || l.subbands == 8) && l.PoolInBounds() && |sf| == l.Width()
    ensures bits == FrameBits(l, sf)
  {
    var need := Needs(l, sf);
    var n := l.subbands;
    match l.mode {
      case Mono =>
        bits := Allocate(need, l.bitpool);
      case DualChannel =>
        var left := Allocate(need[..n], l.bitpool);
        var right := Allocate(need[n..], l.bitpool);
        bits := left + right;
      case _ =>
        var a := Allocate(Interleave(need, n), l.bitpool);
        bits := Side(a, n, 0) + Side(a, n, 1);
    }
  }

  method Allocate(need: seq<int>, pool: nat) returns (bits: seq<nat>)
    requires pool <= MAX_BITS * |need|
    ensures bits == Allocation(need, pool)
  {
    var bitneed, a := new int[|need|](i requires 0 <= i < |need| => need[i]), new int[|need|];
    assert bitneed[..] == need;
    AllocateBits(bitneed, pool, a);
    bits := a[..];
  }

  // ----- fields in a bit string -----

  /** The first `n` bits, or fewer if there are not that many; and what follows them. */
  function Front(b: seq<bool>, n: nat): seq<bool> { if n <= |b| then b[..n] else b }
  function Back(b: seq<bool>, n: nat): seq<bool> { if n <= |b| then b[n..] else [] }

  /** Every block has one value per field. */
  ghost predicate Rectangular(blocks: seq<seq<nat>>, width: nat) {
    forall b :: 0 <= b < |blocks| ==> |blocks[b]| == width
  }

  ghost predicate Fit(values: seq<nat>, widths: seq<nat>) {
    |values| == |widths| && forall k :: 0 <= k < |widths| ==> values[k] < Pow2(widths[k])
  }

  function WriteFields(values: seq<nat>, widths: seq<nat>): seq<bool>
    requires |values| == |widths|
  {
    if values == [] then [] else BitsOf(values[0], widths[0]) + WriteFields(values[1..], widths[1..])
  }

  function ReadFields(b: seq<bool>, widths: seq<nat>): (r: seq<nat>)
    ensures |r| == |widths|
    decreases widths
  {
    if widths == [] then [] else [ToNat(Front(b, widths[0]))] + ReadFields(Back(b, widths[0]), widths[1..])
  }

  lemma {:induction false} SumHead(w: seq<nat>)
    requires w != []
    ensures Sum(w) == w[0] + Sum(w[1..])
  {
    assert w == [w[0]] + w[1..];
    SumAppend([w[0]], w[1..]);
    assert [w[0]][..0] == [];
  }

  lemma {:induction false} WriteFieldsLength(values: seq<nat>, widths: seq<nat>)
    requires |values| == |widths|
    ensures |WriteFields(values, widths)| == Sum(widths)
  {
    if values != [] {
      WriteFieldsLength(values[1..], widths[1..]);
      SumHead(widths);
    }
  }

  /** Fields read back as they were written, whatever follows them. */
  lemma {:induction false} FieldsRoundTrip(values: seq<nat>, widths: seq<nat>, rest: seq<bool>)
    requires Fit(values, widths)
    ensures ReadFields(WriteFields(values, widths) + rest, widths) == values
  {
    if values != [] {
      var head, tail := BitsOf(values[0], widths[0]), WriteFields(values[1..], widths[1..]);
      Associative(head, tail, rest);
      Parts(head, tail + rest);
      ToNatOfBits(values[0], widths[0]);
      FieldsRoundTrip(values[1..], widths[1..], rest);
    }
  }

  /** Blocks of fields, all with the same widths. */
  function WriteBlocks(blocks: seq<seq<nat>>, widths: seq<nat>): seq<bool>
    requires Rectangular(blocks, |widths|)
  {
    if blocks == [] then [] else WriteFields(blocks[0], widths) + WriteBlocks(blocks[1..], widths)
  }

  function ReadBlocks(b: seq<bool>, widths: seq<nat>, n: nat): (r: seq<seq<nat>>)
    ensures |r| == n && forall k :: 0 <= k < n ==> |r[k]| == |widths|
    decreases n
  {
    if n == 0 then [] else [ReadFields(b, widths)] + ReadBlocks(Back(b, Sum(widths)), widths, n - 1)
  }

  lemma {:induction false} WriteBlocksLength(blocks: seq<seq<nat>>, widths: seq<nat>)
    requires Rectangular(blocks, |widths|)
    ensures |WriteBlocks(blocks, widths)| == |blocks| * Sum(widths)
  {
    if blocks != [] {
      WriteBlocksLength(blocks[1..], widths);
      WriteFieldsLength(blocks[0], widths);
      OneMore(|blocks| - 1, Sum(widths));
    }
  }

  lemma OneMore(n: nat, w: nat)
    ensures (n + 1) * w == w + n * w
  {
  }

  lemma {:induction false} BlocksRoundTrip(blocks: seq<seq<nat>>, widths: seq<nat>, rest: seq<bool>)
    requires Rectangular(blocks, |widths|) && forall b :: 0 <= b < |blocks| ==> Fit(blocks[b], widths)
    ensures ReadBlocks(WriteBlocks(blocks, widths) + rest, widths, |blocks|) == blocks
  {
    if blocks != [] {
      var head, tail := WriteFields(blocks[0], widths), WriteBlocks(blocks[1..], widths);
      WriteFieldsLength(blocks[0], widths);
      FieldsRoundTrip(blocks[0], widths, tail + rest);
      BlocksRoundTrip(blocks[1..], widths, rest);
      hide WriteFields, ReadFields, Sum, Fit;
      Associative(head, tail, rest);
      Parts(head, tail + rest);
    }
  }

  // ----- counting on -----

  lemma SumFrom(bits: seq<nat>, k: nat)
    requires k < |bits|
    ensures Sum(bits[k..]) == bits[k] + Sum(bits[k + 1..])
  {
    SumHead(bits[k..]);
    DropTwice(bits, k, 1);
  }

  /** Bits in `n` blocks. */
  ghost function Span(n: nat, size: nat): nat {
    MulNonNegative(n, size);
    n * size
  }

  lemma SpanStep(n: nat, size: nat)
    requires n > 0
    ensures Span(n, size) == size + Span(n - 1, size)
  {
    OneMore(n - 1, size);
  }

  lemma NoSpan(size: nat)
    ensures Span(0, size) == 0
  {
  }
}
