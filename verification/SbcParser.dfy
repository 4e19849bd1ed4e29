/** The parser as it runs: it walks over the frame's bits with one counter, and
  * rebuilds the bytes under the checksum as it goes. */
module SbcParser {
  import opened Sequences
  import opened Bits
  import opened BitAllocation
  import opened Quantiser
  import opened SbcFrame
  import opened SbcFormat
  import Crc8

  // ----- bits and nibbles of a buffer -----

  /** The nibble that starts at bit `p`. */
  function Nibble(data: seq<byte>, p: nat): (r: nat)
    requires p / 8 < |data| && (p % 8 == 0 || p % 8 == 4)
    ensures r < 16
  {
    Shr(data[p / 8], 4 - p % 8) % 16
  }

  /** Bits that lie within one byte. */
  lemma {:induction false} SliceOfByte(data: seq<byte>, p: nat, n: nat)
    requires p / 8 < |data| && p % 8 + n <= 8
    ensures ByteBits(data)[p..p + n] == BitsOf(data[p / 8], 8)[p % 8..p % 8 + n]
  {
    var q := p / 8;
    assert p == 8 * q + p % 8;
    hide *;
    Around(data, q);
    ByteBitsAppend(data[..q], [data[q]] + data[q + 1..]);
    ByteBitsHead(data[q], data[q + 1..]);
    Middle(ByteBits(data[..q]), BitsOf(data[q], 8), ByteBits(data[q + 1..]), p, n);
  }

  lemma BitOfData(data: seq<byte>, p: nat)
    requires p < 8 * |data|
    ensures ByteBits(data)[p] <==> Shr(data[p / 8], 7 - p % 8) % 2 == 1
  {
    hide *;
    SliceOfByte(data, p, 1);
    BitOfByte(data[p / 8], p % 8);
    SameElement(ByteBits(data), p, BitsOf(data[p / 8], 8), p % 8);
  }

  lemma {:induction false} BitOfByte(x: byte, i: nat)
    requires i < 8
    ensures BitsOf(x, 8)[i] <==> Shr(x, 7 - i) % 2 == 1
  {
    BitAt(x, 8, i);
  }

  lemma SameElement(a: seq<bool>, i: nat, b: seq<bool>, j: nat)
    requires i < |a| && j < |b| && a[i..i + 1] == b[j..j + 1]
    ensures a[i] == b[j]
  {
    assert a[i] == a[i..i + 1][0] && b[j] == b[j..j + 1][0];
  }

  lemma NibbleOfByte(x: byte, i: nat)
    requires i == 0 || i == 4
    ensures ToNat(BitsOf(x, 8)[i..i + 4]) == Shr(x, 4 - i) % 16
  {
    ByteHalves(x);
    hide *;
    if i == 0 {
      ToNatOfBits(Shr(x, 4), 4);
    } else {
      ToNatOfBits(x % 16, 4);
    }
  }

  lemma {:induction false} ByteHalves(x: byte)
    ensures Pow2(4) == 16 && Shr(x, 4) < 16 && Shr(x, 0) == x
    ensures BitsOf(x, 8)[0..4] == BitsOf(Shr(x, 4), 4) && BitsOf(x, 8)[4..8] == BitsOf(x % 16, 4)
  {
    assert Pow2(4) == 16 && Pow2(0) == 1;
    assert Shr(x, 4) == x / 16 && Shr(x, 0) == x;
    hide *;
    BitsOfSplit(x, 4, 4);
    BitsOfMod(x, 4, 4);
  }

  lemma {:induction false} NibbleOfData(data: seq<byte>, p: nat)
    requires p + 4 <= 8 * |data| && (p % 8 == 0 || p % 8 == 4)
    ensures ToNat(ByteBits(data)[p..p + 4]) == Nibble(data, p)
  {
    hide ToNat, BitsOf, ByteBits, Shr;
    NibbleOfByte(data[p / 8], p % 8);
    SliceOfByte(data, p, 4);
  }

  // ----- fields read so far -----

  /** `got` and the fields from `k` on, read from bit `p`, make up `all`. */
  ghost predicate Reading(got: seq<nat>, b: seq<bool>, p: nat, widths: seq<nat>, k: nat, all: seq<nat>) {
    k <= |widths| && p <= |b| && got + ReadFields(b[p..], widths[k..]) == all
  }

  lemma NothingRead(b: seq<bool>, p: nat, widths: seq<nat>)
    requires p <= |b|
    ensures Reading([], b, p, widths, 0, ReadFields(b[p..], widths))
  {
    assert widths[0..] == widths;
  }

  lemma NextRead(got: seq<nat>, b: seq<bool>, p: nat, widths: seq<nat>, k: nat, all: seq<nat>)
    requires k < |widths| && Reading(got, b, p, widths, k, all) && p + widths[k] <= |b|
    ensures Reading(got + [ToNat(b[p..p + widths[k]])], b, p + widths[k], widths, k + 1, all)
  {
    var w := widths[k];
    DropTwice(widths, k, 1);
    DropTwice(b, p, w);
    assert b[p..][..w] == b[p..p + w];
    Associative(got, [ToNat(b[p..p + w])], ReadFields(b[p + w..], widths[k + 1..]));
  }

  lemma AllRead(got: seq<nat>, b: seq<bool>, p: nat, widths: seq<nat>, all: seq<nat>)
    requires Reading(got, b, p, widths, |widths|, all)
    ensures got == all
  {
  }

  // ----- the checksum header -----

  /** The header holds the bytes and, at the end, the nibble of the frame that `pos`
    * bits of checksum cover; the checksum itself, the frame's fourth byte, is left out. */
  ghost predicate Copied(h: seq<byte>, data: seq<byte>, pos: nat) {
    && 16 <= pos && (pos % 8 == 0 || pos % 8 == 4) && pos / 8 < |h| && pos / 8 + 2 < |data|
    && h[0] == data[1] && h[1] == data[2]
    && (forall i :: 2 <= i < pos / 8 ==> h[i] == data[i + 2])
    && (if pos % 8 == 4 then h[pos / 8] == 16 * (data[pos / 8 + 2] / 16) else h[pos / 8] == 0)
    && forall i :: pos / 8 < i < |h| ==> h[i] == 0
  }

  /** The parser's nibble: or the value into the upper or the lower half. */
  method CopyNibble(h: array<byte>, data: seq<byte>, pos: nat, v: nat)
    requires Copied(h[..], data, pos) && pos + 4 < 8 * h.Length && pos + 20 < 8 * |data|
    requires v == Nibble(data, pos + 16)
    modifies h
    ensures Copied(h[..], data, pos + 4)
  {
    var i := pos / 8;
    ShiftedNibble(data[i + 2], v);
    assert (pos + 16) / 8 == i + 2 && (pos + 16) % 8 == pos % 8;
    hide Shl, Shr, Pow2;
    h[i] := h[i] + Shl(v, 4 - pos % 8);
    assert forall k :: 0 <= k < h.Length && k != i ==> h[..][k] == old(h[..])[k];
  }

  lemma ShiftedNibble(x: byte, v: nat)
    requires v < 16
    ensures Shl(v, 4) == 16 * v && Shl(v, 0) == v && Shr(x, 4) % 16 == x / 16 && Shr(x, 0) % 16 == x % 16
  {
    Pow2Constants();
    assert Pow2(0) == 1;
  }

  lemma {:induction false} CopiedBits(h: seq<byte>, data: seq<byte>, pos: nat)
    requires Copied(h, data, pos)
    ensures ByteBits(h)[..pos] == (BitsOf(data[1], 8) + BitsOf(data[2], 8)) + ByteBits(data)[32..pos + 16]
  {
    hide *;
    CopiedBytes(h, data, pos);
    CopiedTail(h, data, pos);
    var i := pos / 8;
    HeadBits(data, data[4..i + 2]);
    DataBits(data, i + 2, pos % 8);
    Crc8.PrefixBits(h, pos);
    var head, mid := BitsOf(data[1], 8) + BitsOf(data[2], 8), ByteBits(data[4..i + 2]);
    if pos % 8 == 4 {
      Associative(head, mid, BitsOf(data[i + 2], 8)[..4]);
    } else {
      assert mid + BitsOf(data[i + 2], 8)[..0] == mid;
    }
  }

  lemma CopiedBytes(h: seq<byte>, data: seq<byte>, pos: nat)
    requires Copied(h, data, pos)
    ensures 2 <= pos / 8 < |h| && pos / 8 + 2 < |data| && (pos % 8 == 0 || pos % 8 == 4)
    ensures pos + 16 == 8 * (pos / 8 + 2) + pos % 8
    ensures h[..pos / 8] == ([data[1]] + [data[2]]) + data[4..pos / 8 + 2]
  {
  }

  lemma CopiedTail(h: seq<byte>, data: seq<byte>, pos: nat)
    requires Copied(h, data, pos)
    ensures pos % 8 == 4 ==> BitsOf(h[pos / 8], 8)[..4] == BitsOf(data[pos / 8 + 2], 8)[..4]
  {
    if pos % 8 == 4 {
      UpperNibble(data[pos / 8 + 2]);
    }
  }

  lemma UpperNibble(x: byte)
    ensures BitsOf(16 * (x / 16), 8)[..4] == BitsOf(x, 8)[..4]
  {
    Pow2Constants();
    var y := 16 * (x / 16);
    assert Shr(x, 4) == x / 16 == Shr(y, 4);
    BitsOfSplit(x, 4, 4);
    BitsOfSplit(y, 4, 4);
    hide *;
    Parts(BitsOf(Shr(x, 4), 4), BitsOf(x, 4));
    Parts(BitsOf(Shr(y, 4), 4), BitsOf(y, 4));
  }

  lemma HeadBits(data: seq<byte>, rest: seq<byte>)
    requires |data| >= 4
    ensures ByteBits(([data[1]] + [data[2]]) + rest) == (BitsOf(data[1], 8) + BitsOf(data[2], 8)) + ByteBits(rest)
  {
    hide *;
    ByteBitsAppend([data[1]] + [data[2]], rest);
    ByteBitsHead(data[1], [data[2]]);
    ByteBitsOne(data[2]);
  }

  /** The bits of a frame after its fourth byte. */
  lemma {:induction false} DataBits(data: seq<byte>, q: nat, n: nat)
    requires 4 <= q < |data| && n < 8
    ensures ByteBits(data)[32..8 * q + n] == ByteBits(data[4..q]) + BitsOf(data[q], 8)[..n]
  {
    hide *;
    Crc8.PartialByte(data, q, n);
    Halves(data[..q], 4);
    assert data[..q][..4] == data[..4] && data[..q][4..] == data[4..q];
    ByteBitsAppend(data[..4], data[4..q]);
    Associative(ByteBits(data[..4]), ByteBits(data[4..q]), BitsOf(data[q], 8)[..n]);
    Parts(ByteBits(data[..4]), ByteBits(data[4..q]) + BitsOf(data[q], 8)[..n]);
    assert ByteBits(data)[32..8 * q + n] == ByteBits(data)[..8 * q + n][32..];
  }

  // ----- the side fields -----

  /** The joint flags, one bit each; the last subband's is not read. */
  method ReadJoint(data: seq<byte>, subbands: nat) returns (joint: seq<bool>)
    requires |data| > 4 && 1 <= subbands <= 8
    ensures joint == ByteBits(data)[32..32 + subbands][..subbands - 1]
  {
    hide *;
    joint := [];
    for sb := 0 to subbands - 1
      invariant joint == ByteBits(data)[32..32 + sb]
    {
      BitOfData(data, 32 + sb);
      joint := joint + [Shr(data[4], 7 - sb) % 2 == 1];
    }
    assert ByteBits(data)[32..32 + subbands][..subbands - 1] == ByteBits(data)[32..32 + (subbands - 1)];
  }

  /** The scale factors, copied on the way into the checksum header. */
  method ReadFactors(data: seq<byte>, h: array<byte>, start: nat, n: nat) returns (sf: seq<nat>)
    requires Copied(h[..], data, start) && start + 4 * n < 8 * h.Length && start + 4 * n + 16 < 8 * |data|
    modifies h
    ensures Copied(h[..], data, start + 4 * n)
    ensures sf == ReadFields(ByteBits(data)[start + 16..], Fours(n))
  {
    hide *;
    ghost var all := FactorsStart(h[..], data, start, n);
    sf := [];
    var pos := start;
    for k := 0 to n
      invariant pos == start + 4 * k
      invariant FactorsRead(h[..], data, sf, pos, Fours(n), k, all)
    {
      var v := NextFactor(data, h, pos, sf, n, k, all);
      sf := sf + [v];
      pos := pos + 4;
    }
    FactorsEnd(h[..], data, sf, pos, n, all);
  }

  /** `k` factors are read and copied; `all` is what reading them all gives. */
  ghost predicate FactorsRead(h: seq<byte>, data: seq<byte>, sf: seq<nat>, pos: nat, fours: seq<nat>, k: nat,
          all: seq<nat>) {
    Copied(h, data, pos) && Reading(sf, ByteBits(data), pos + 16, fours, k, all)
  }

  lemma FactorsStart(h: seq<byte>, data: seq<byte>, start: nat, n: nat) returns (all: seq<nat>)
    requires Copied(h, data, start) && start + 16 < 8 * |data|
    ensures all == ReadFields(ByteBits(data)[start + 16..], Fours(n))
    ensures FactorsRead(h, data, [], start, Fours(n), 0, all)
  {
    hide Copied, Reading, ReadFields, ByteBits;
    all := ReadFields(ByteBits(data)[start + 16..], Fours(n));
    NothingRead(ByteBits(data), start + 16, Fours(n));
  }

  lemma FactorsEnd(h: seq<byte>, data: seq<byte>, sf: seq<nat>, pos: nat, n: nat, all: seq<nat>)
    requires FactorsRead(h, data, sf, pos, Fours(n), n, all)
    ensures Copied(h, data, pos) && sf == all
  {
    hide Copied, Reading, ByteBits, Fours;
    AllRead(sf, ByteBits(data), pos + 16, Fours(n), all);
  }

  method NextFactor(data: seq<byte>, h: array<byte>, pos: nat, ghost sf: seq<nat>, ghost n: nat, ghost k: nat,
          ghost all: seq<nat>)
      returns (v: nat)
    requires FactorsRead(h[..], data, sf, pos, Fours(n), k, all)
    requires k < n && pos + 4 < 8 * h.Length && pos + 20 < 8 * |data|
    modifies h
    ensures FactorsRead(h[..], data, sf + [v], pos + 4, Fours(n), k + 1, all)
  {
    hide *;
    AtNibble(h[..], data, sf, pos, n, k, all);
    v := Nibble(data, pos + 16);
    NibbleOfData(data, pos + 16);
    CopyNibble(h, data, pos, v);
    FactorRead(h[..], data, sf, pos, n, k, all);
  }

  lemma AtNibble(h: seq<byte>, data: seq<byte>, sf: seq<nat>, pos: nat, n: nat, k: nat, all: seq<nat>)
    requires FactorsRead(h, data, sf, pos, Fours(n), k, all)
    ensures (pos + 16) % 8 == 0 || (pos + 16) % 8 == 4
    ensures Copied(h, data, pos) && Reading(sf, ByteBits(data), pos + 16, Fours(n), k, all)
  {
    hide Reading;
  }

  lemma {:induction false} FactorRead(h: seq<byte>, data: seq<byte>, sf: seq<nat>, pos: nat, n: nat, k: nat,
          all: seq<nat>)
    requires k < n && pos + 20 <= 8 * |data| && Reading(sf, ByteBits(data), pos + 16, Fours(n), k, all)
    requires Copied(h, data, pos + 4)
    ensures FactorsRead(h, data, sf + [ToNat(ByteBits(data)[pos + 16..pos + 20])], pos + 4, Fours(n), k + 1, all)
  {
    hide *;
    NextOfFours(sf, ByteBits(data), pos + 16, n, k, all);
    Both(h, data, sf + [ToNat(ByteBits(data)[pos + 16..pos + 20])], pos + 4, n, k + 1, all);
  }

  lemma NextOfFours(sf: seq<nat>, b: seq<bool>, p: nat, n: nat, k: nat, all: seq<nat>)
    requires k < n && Reading(sf, b, p, Fours(n), k, all) && p + 4 <= |b|
    ensures Reading(sf + [ToNat(b[p..p + 4])], b, p + 4, Fours(n), k + 1, all)
  {
    hide Reading, ToNat;
    NextRead(sf, b, p, Fours(n), k, all);
  }

  lemma Both(h: seq<byte>, data: seq<byte>, sf: seq<nat>, pos: nat, n: nat, k: nat, all: seq<nat>)
    requires Copied(h, data, pos) && Reading(sf, ByteBits(data), pos + 16, Fours(n), k, all)
    ensures FactorsRead(h, data, sf, pos, Fours(n), k, all)
  {
    hide Copied, Reading;
  }

  // ----- the samples -----

  /** One code, bit by bit; reading stops when the bits of `len` bytes are used up
    * and one more has been taken. */
  method ReadCode(data: seq<byte>, len: nat, start: nat, width: nat) returns (ok: bool, code: nat)
    requires |data| >= len + 2 && start <= 8 * len + 1
    ensures ok <==> start + width <= 8 * len + 1
    ensures ok ==> code == ToNat(ByteBits(data)[start..start + width])
  {
    ghost var b := ByteBits(data);
    assert ToNat([]) == 0;
    hide ByteBits, ToNat;
    code := 0;
    for bit := 0 to width
      invariant start + bit <= 8 * len + 1
      invariant code == Shl(ToNat(b[start..start + bit]), width - bit)
    {
      var consumed := start + bit;
      if consumed > 8 * len {
        return false, 0;
      }
      BitOfData(data, consumed);
      NextBit(b, start, bit, width);
      if Shr(data[consumed / 8], 7 - consumed % 8) % 2 == 1 {
        code := code + Pow2(width - bit - 1);
      }
    }
    ok := true;
    assert Shl(ToNat(b[start..start + width]), 0) == ToNat(b[start..start + width]);
  }

  lemma NextBit(b: seq<bool>, start: nat, bit: nat, width: nat)
    requires bit < width && start + bit < |b|
    ensures Shl(ToNat(b[start..start + bit + 1]), width - bit - 1)
         == Shl(ToNat(b[start..start + bit]), width - bit) + if b[start + bit] then Pow2(width - bit - 1) else 0
  {
    var s := b[start..start + bit + 1];
    assert s[..|s| - 1] == b[start..start + bit];
    var (x, p) := (ToNat(b[start..start + bit]), Pow2(width - bit - 1));
    assert ToNat(s) == 2 * x + if b[start + bit] then 1 else 0;
    hide ToNat;
    assert Pow2(width - bit) == 2 * p;
    assert (2 * x) * p == x * (2 * p);
    assert (2 * x + 1) * p == (2 * x) * p + p;
  }

  /** One block of samples, reconstructed. */
  method ReadBlock(data: seq<byte>, len: nat, start: nat, sf: seq<nat>, bits: seq<nat>) returns (ok: bool, s: seq<int>)
    requires |data| >= len + 2 && start <= 8 * len + 1 && |sf| == |bits|
    ensures ok <==> start + Sum(bits) <= 8 * len + 1
    ensures ok ==> s == Reconstructed(sf, bits, ReadFields(ByteBits(data)[start..], bits))
  {
    hide *;
    ghost var codes, all := BlockStart(data, start, sf, bits);
    s := [];
    var consumed: nat := start;
    for k := 0 to |bits|
      invariant consumed <= 8 * len + 1 && consumed + Sum(bits[k..]) == start + Sum(bits)
      invariant BlockRead(data, consumed, sf, bits, k, s, codes, all)
    {
      SumFrom(bits, k);
      var fits, sample, code := ReadSample(data, len, consumed, sf, bits, k, s, codes, all);
      if !fits {
        return false, [];
      }
      codes := codes + [code];
      s := s + [sample];
      consumed := consumed + bits[k];
    }
    ok := true;
    BlockEnd(data, consumed, sf, bits, s, codes, all);
  }

  /** `k` samples of a block are read; `codes` are their codes, and `all` those of the whole block. */
  ghost predicate BlockRead(data: seq<byte>, consumed: nat, sf: seq<nat>, bits: seq<nat>, k: nat,
                            s: seq<int>, codes: seq<nat>, all: seq<nat>) {
    && k <= |bits| == |sf| && |s| == |codes| == k
    && (forall j :: 0 <= j < k ==> s[j] == Dequantise(codes[j], sf[j], bits[j]))
    && Reading(codes, ByteBits(data), consumed, bits, k, all)
  }

  lemma {:induction false} BlockStart(data: seq<byte>, start: nat, sf: seq<nat>, bits: seq<nat>)
        returns (codes: seq<nat>, all: seq<nat>)
    requires start <= 8 * |data| && |sf| == |bits|
    ensures all == ReadFields(ByteBits(data)[start..], bits) && BlockRead(data, start, sf, bits, 0, [], codes, all)
    ensures Sum(bits[0..]) == Sum(bits)
  {
    hide Reading, ReadFields, ByteBits, Sum;
    codes, all := [], ReadFields(ByteBits(data)[start..], bits);
    NothingRead(ByteBits(data), start, bits);
    assert bits[0..] == bits;
  }

  lemma BlockEnd(data: seq<byte>, consumed: nat, sf: seq<nat>, bits: seq<nat>, s: seq<int>, codes: seq<nat>,
          all: seq<nat>)
    requires BlockRead(data, consumed, sf, bits, |bits|, s, codes, all)
    ensures |all| == |bits| ==> s == Reconstructed(sf, bits, all)
    ensures Sum(bits[|bits|..]) == 0
  {
    hide Reading, Dequantise, ByteBits;
    AllRead(codes, ByteBits(data), consumed, bits, all);
  }

  /** The next sample of a block; without bits it is zero. */
  method ReadSample(data: seq<byte>, len: nat, consumed: nat, sf: seq<nat>, bits: seq<nat>, k: nat,
                    ghost s: seq<int>, ghost codes: seq<nat>, ghost all: seq<nat>)
      returns (fits: bool, sample: int, ghost code: nat)
    requires |data| >= len + 2 && consumed <= 8 * len + 1 && k < |bits| == |sf|
    requires BlockRead(data, consumed, sf, bits, k, s, codes, all)
    ensures fits <==> consumed + bits[k] <= 8 * len + 1
    ensures fits ==> BlockRead(data, consumed + bits[k], sf, bits, k + 1, s + [sample], codes + [code], all)
  {
    hide *;
    fits, sample, code := true, 0, 0;
    var levels := Steps(bits[k]);
    NoBits(ByteBits(data), consumed, bits[k], sf[k]);
    if levels > 0 {
      var c: nat;
      fits, c := ReadCode(data, len, consumed, bits[k]);
      if !fits {
        return;
      }
      code := c;
      sample := Dequantise(c, sf[k], bits[k]);
    }
    SampleRead(data, consumed, sf, bits, k, s, codes, all, code);
  }

  lemma {:induction false} SampleRead(data: seq<byte>, consumed: nat, sf: seq<nat>, bits: seq<nat>, k: nat,
                                          s: seq<int>, codes: seq<nat>, all: seq<nat>, code: nat)
    requires k < |bits| == |sf| && BlockRead(data, consumed, sf, bits, k, s, codes, all)
    requires consumed + bits[k] <= 8 * |data| && code == ToNat(ByteBits(data)[consumed..consumed + bits[k]])
    ensures BlockRead(data, consumed + bits[k], sf, bits, k + 1,
                      s + [Dequantise(code, sf[k], bits[k])], codes + [code], all)
  {
    hide Reading, Dequantise, ByteBits, ToNat;
    NextRead(codes, ByteBits(data), consumed, bits, k, all);
  }

  lemma NoBits(b: seq<bool>, p: nat, width: nat, sf: nat)
    requires p <= |b|
    ensures Steps(width) >= 0
    ensures Steps(width) == 0 ==> width == 0 && ToNat(b[p..p + width]) == 0 && Dequantise(0, sf, width) == 0
  {
  }

  /** All blocks, or the end of the data. */
  method ReadBlocksOf(data: seq<byte>, len: nat, start: nat, sf: seq<nat>, bits: seq<nat>, n: nat)
      returns (ok: bool, s: seq<seq<int>>, end: nat)
    requires |data| >= len + 2 && start <= 8 * len + 1 && |sf| == |bits|
    ensures ok <==> start + Span(n, Sum(bits)) <= 8 * len + 1
    ensures ok ==>
      && end == start + Span(n, Sum(bits))
      && s == AllReconstructed(sf, bits, ReadBlocks(ByteBits(data)[start..], bits, n))
  {
    hide *;
    s := [];
    var consumed: nat := start;
    ghost var all := BlocksStart(data, start, sf, bits, n);
    for blk := 0 to n
      invariant consumed <= 8 * len + 1 && start + Span(n, Sum(bits)) == consumed + Span(n - blk, Sum(bits))
      invariant BlocksRead(data, consumed, sf, bits, n - blk, s, all)
    {
      SpanStep(n - blk, Sum(bits));
      var fits, block := ReadBlock(data, len, consumed, sf, bits);
      if !fits {
        return false, [], 0;
      }
      NextBlockRead(data, consumed, sf, bits, n - blk, s, all);
      s := s + [block];
      consumed := consumed + Sum(bits);
    }
    NoSpan(Sum(bits));
    BlocksEnd(data, consumed, sf, bits, s, all);
    ok, end := true, consumed;
  }

  function AllReconstructed(sf: seq<nat>, bits: seq<nat>, codes: seq<seq<nat>>): (s: seq<seq<int>>)
    requires |sf| == |bits| && Rectangular(codes, |bits|)
    ensures |s| == |codes|
  {
    seq(|codes|, b requires 0 <= b < |codes| => Reconstructed(sf, bits, codes[b]))
  }

  /** With the blocks `s` read, the `left` ones from bit `consumed` on complete `all`. */
  ghost predicate BlocksRead(data: seq<byte>, consumed: nat, sf: seq<nat>, bits: seq<nat>, left: nat,
                             s: seq<seq<int>>, all: seq<seq<int>>) {
    && consumed <= 8 * |data| && |sf| == |bits|
    && s + AllReconstructed(sf, bits, ReadBlocks(ByteBits(data)[consumed..], bits, left)) == all
  }

  lemma BlocksStart(data: seq<byte>, start: nat, sf: seq<nat>, bits: seq<nat>, n: nat) returns (all: seq<seq<int>>)
    requires start <= 8 * |data| && |sf| == |bits|
    ensures all == AllReconstructed(sf, bits, ReadBlocks(ByteBits(data)[start..], bits, n))
    ensures BlocksRead(data, start, sf, bits, n, [], all)
  {
    hide AllReconstructed, ReadBlocks, ByteBits;
    all := AllReconstructed(sf, bits, ReadBlocks(ByteBits(data)[start..], bits, n));
  }

  lemma {:induction false} NextBlockRead(data: seq<byte>, consumed: nat, sf: seq<nat>, bits: seq<nat>, left: nat,
                                             s: seq<seq<int>>, all: seq<seq<int>>)
    requires left > 0 && |sf| == |bits| && consumed + Sum(bits) <= 8 * |data|
    ensures BlocksRead(data, consumed, sf, bits, left, s, all) ==>
      BlocksRead(data, consumed + Sum(bits), sf, bits, left - 1,
                 s + [Reconstructed(sf, bits, ReadFields(ByteBits(data)[consumed..], bits))], all)
  {
    hide Reconstructed, ByteBits, Sum, ReadFields;
    var b := ByteBits(data);
    DropTwice(b, consumed, Sum(bits));
    var rest := ReadBlocks(b[consumed + Sum(bits)..], bits, left - 1);
    var first := ReadFields(b[consumed..], bits);
    assert ReadBlocks(b[consumed..], bits, left) == [first] + rest;
    HeadReconstructed(sf, bits, first, rest);
    Associative(s, [Reconstructed(sf, bits, first)], AllReconstructed(sf, bits, rest));
  }

  lemma HeadReconstructed(sf: seq<nat>, bits: seq<nat>, first: seq<nat>, rest: seq<seq<nat>>)
    requires |sf| == |bits| == |first| && Rectangular(rest, |bits|)
    ensures AllReconstructed(sf, bits, [first] + rest)
         == [Reconstructed(sf, bits, first)] + AllReconstructed(sf, bits, rest)
  {
    hide Reconstructed;
  }

  lemma BlocksEnd(data: seq<byte>, consumed: nat, sf: seq<nat>, bits: seq<nat>, s: seq<seq<int>>, all: seq<seq<int>>)
    requires BlocksRead(data, consumed, sf, bits, 0, s, all)
    ensures s == all
  {
  }

  // ----- joint stereo -----

  /** Turn sum and difference back into left and right, in place, where the flag is set. */
  method Unjoin(s: array<int>, joint: seq<bool>, n: nat)
    requires s.Length == 2 * n && |joint| <= n
    modifies s
    ensures s[..] == Unjoined(old(s[..]), joint, n)
  {
    ghost var before, target := s[..], Unjoined(s[..], joint, n);
    for sb := 0 to |joint|
      invariant forall k :: 0 <= k < sb ==> AlikeAt(s[..], target, n, k)
      invariant forall k :: sb <= k < n ==> AlikeAt(s[..], before, n, k)
    {
      ghost var now := s[..];
      assert AlikeAt(now, before, n, sb);
      if joint[sb] {
        var temp := s[sb] + s[n + sb];
        s[n + sb] := s[sb] - s[n + sb];
        s[sb] := temp;
      }
      AlikeStill(now, s[..], before, n, sb);
      AlikeStill(now, s[..], target, n, sb);
    }
    forall k | 0 <= k < n ensures AlikeAt(s[..], target, n, k) {
      assert k >= |joint| ==> AlikeAt(s[..], before, n, k);
    }
    AlikeEverywhere(s[..], target, n);
  }

  /** The same left and the same right value of subband `k`. */
  ghost predicate AlikeAt(a: seq<int>, b: seq<int>, n: nat, k: nat) {
    |a| == |b| == 2 * n && k < n && a[k] == b[k] && a[n + k] == b[n + k]
  }

  /** Changing subband `sb` leaves the others alike. */
  lemma AlikeStill(was: seq<int>, now: seq<int>, b: seq<int>, n: nat, sb: nat)
    requires |was| == |now| == 2 * n && forall k :: 0 <= k < 2 * n && k != sb && k != n + sb ==> now[k] == was[k]
    requires sb < n
    ensures forall k :: 0 <= k < n && k != sb && AlikeAt(was, b, n, k) ==> AlikeAt(now, b, n, k)
  {
  }

  lemma AlikeEverywhere(a: seq<int>, b: seq<int>, n: nat)
    requires |a| == |b| == 2 * n && forall k :: 0 <= k < n ==> AlikeAt(a, b, n, k)
    ensures a == b
  {
    forall k | 0 <= k < 2 * n ensures a[k] == b[k] {
      assert AlikeAt(a, b, n, if k < n then k else k - n);
    }
  }

  method UnjoinBlocks(samples: seq<seq<int>>, joint: seq<bool>, n: nat) returns (r: seq<seq<int>>)
    requires |joint| <= n && forall b :: 0 <= b < |samples| ==> |samples[b]| == 2 * n
    ensures |r| == |samples| && forall b :: 0 <= b < |samples| ==> r[b] == Unjoined(samples[b], joint, n)
  {
    hide Unjoined;
    r := [];
    for blk := 0 to |samples|
      invariant |r| == blk && forall b :: 0 <= b < blk ==> r[b] == Unjoined(samples[b], joint, n)
    {
      var block := samples[blk];
      var s := new int[2 * n](k requires 0 <= k < 2 * n => block[k]);
      assert s[..] == block;
      Unjoin(s, joint, n);
      r := r + [s[..]];
    }
  }

  // ----- the frame -----

  /** Parse one frame: the error the parser reports, or the frame and its length. */
  method UnpackFrame(data: seq<byte>, len: nat) returns (r: Parsed)
    requires |data| >= len + 2
    ensures r == Parse(data, len)
  {
    hide ParseFields, SideWidth;
    if len < 4 {
      return TOO_SHORT;
    }
    var l := MSBC;
    if data[0] == SBC_SYNCWORD {
      l := LayoutOf(data[1], data[2]);
      if !l.PoolInBounds() {
        return BAD_BITPOOL;
      }
    } else if data[0] != MSBC_SYNCWORD {
      return BAD_SYNC;
    }
    r := UnpackFields(data, len, l);
  }

  method UnpackFields(data: seq<byte>, len: nat, l: Layout) returns (r: Parsed)
    requires |data| >= len + 2 && len >= 4 && l.Shape() && l.PoolInBounds()
    ensures r == if 8 * len < 32 + SideWidth(l) then TOO_SHORT else ParseFields(data, len, l)
  {
    hide ParseFields, ParseAudio, ByteBits, Copied, FrameChecksum, ReadFields;
    if l.mode.JointStereo? && 8 * len < 32 + l.subbands {
      return TOO_SHORT;
    }
    if 8 * len < 32 + l.JointWidth() + 4 * l.Width() {
      return TOO_SHORT;
    }
    var h := new byte[12](_ => 0);
    var joint, pos := StartCopy(data, h, l);
    var sf := ReadFactors(data, h, pos, l.Width());
    pos := pos + 4 * l.Width();
    var crc := Crc8.Crc8(h[..], pos);
    FieldsAgree(data, len, l, h[..], joint, sf);
    if data[3] != crc {
      return BAD_CRC;
    }
    r := UnpackAudio(data, len, l, joint, sf);
  }

  method StartCopy(data: seq<byte>, h: array<byte>, l: Layout) returns (joint: seq<bool>, pos: nat)
    requires l.Shape() && h.Length == 12 && (forall k :: 0 <= k < 12 ==> h[k] == 0)
    requires 8 * (|data| - 2) >= 32 + SideWidth(l)
    modifies h
    ensures pos == 16 + l.JointWidth() && Copied(h[..], data, pos)
    ensures |joint| <= l.subbands && joint == JointFlags(l, ByteBits(data)[32..32 + l.JointWidth()])
  {
    hide ByteBits;
    h[0], h[1] := data[1], data[2];
    joint, pos := [], 16;
    if l.mode.JointStereo? {
      joint := ReadJoint(data, l.subbands);
      h[2] := if l.subbands == 4 then 16 * (data[4] / 16) else data[4];
      pos := pos + l.subbands;
    }
  }

  /** What the parser has read is what the format says, and the header's checksum is the frame's. */
  lemma {:induction false} FieldsAgree(data: seq<byte>, len: nat, l: Layout, h: seq<byte>, joint: seq<bool>,
          sf: seq<nat>)
    requires |data| >= len + 2 && 8 * len >= 32 + SideWidth(l) && l.Shape() && l.PoolInBounds()
    requires Copied(h, data, 16 + SideWidth(l)) && 16 + SideWidth(l) <= 8 * |h|
    requires |joint| <= l.subbands && joint == JointFlags(l, ByteBits(data)[32..32 + l.JointWidth()])
    requires sf == ReadFields(ByteBits(data)[32 + l.JointWidth()..], Fours(l.Width()))
    ensures ParseFields(data, len, l) ==
      if data[3] != Crc8.Checksum(ByteBits(h)[..16 + SideWidth(l)]) then BAD_CRC
      else ParseAudio(data, len, l, joint, sf, ByteBits(data)[32 + SideWidth(l)..])
  {
    hide ParseAudio, ByteBits, Copied, ReadFields, BitsOf, Crc8.Checksum, JointFlags;
    CopiedBits(h, data, 16 + SideWidth(l));
    TakeOfDrop(ByteBits(data), 32, SideWidth(l));
    TakeOfDrop(ByteBits(data), 32, l.JointWidth());
    DropTwice(ByteBits(data), 32, l.JointWidth());
    DropTwice(ByteBits(data), 32, SideWidth(l));
  }

  method UnpackAudio(data: seq<byte>, len: nat, l: Layout, joint: seq<bool>, sf: seq<nat>) returns (r: Parsed)
    requires |data| >= len + 2 && 8 * len >= 32 + SideWidth(l) && l.Shape() && l.PoolInBounds()
    requires |sf| == l.Width() && |joint| <= l.subbands
    ensures r == ParseAudio(data, len, l, joint, sf, ByteBits(data)[32 + SideWidth(l)..])
  {
    hide ByteBits, FrameBits, ReadBlocks, Sum, AllReconstructed, Span, Unjoined, FrameSamples, ParseAudio, FrameLength;
    var bits := CalculateBits(l, sf);
    var start := l.JointWidth() + 4 * l.Width() + 32;
    WidthIs(l);
    var ok, samples, end := ReadBlocksOf(data, len, start, sf, bits, l.blocks);
    AudioIs(data, len, l, joint, sf, ByteBits(data)[start..]);
    if !ok {
      return TOO_SHORT;
    }
    ghost var codes := ReadBlocks(ByteBits(data)[start..], bits, l.blocks);
    SamplesAre(l, joint, sf, bits, codes);
    if l.mode.JointStereo? {
      samples := UnjoinBlocks(samples, joint, l.subbands);
    }
    assert samples == FrameSamples(l, joint, sf, bits, codes);
    var length := EndOfBytes(data, end);
    r := Frame(l, joint, sf, samples, length);
  }

  lemma WidthIs(l: Layout)
    ensures SideWidth(l) == l.JointWidth() + 4 * l.Width()
  {
  }

  /** The format's verdict, with the end of the samples as the reader counts it. */
  lemma AudioIs(data: seq<byte>, len: nat, l: Layout, joint: seq<bool>, sf: seq<nat>, b: seq<bool>)
    requires |data| >= len + 2 && 8 * len >= 32 + SideWidth(l) && l.Shape() && l.PoolInBounds()
    requires |sf| == l.Width() && |joint| <= l.subbands
    ensures var bits := FrameBits(l, sf); var end := 32 + SideWidth(l) + Span(l.blocks, Sum(bits));
      && (end > 8 * len + 1 ==> ParseAudio(data, len, l, joint, sf, b) == TOO_SHORT)
      && (end <= 8 * len + 1 ==>
            (end + 7) / 8 < |data| &&
            ParseAudio(data, len, l, joint, sf, b)
            == Frame(l, joint, sf, FrameSamples(l, joint, sf, bits, ReadBlocks(b, bits, l.blocks)),
                     FrameLength(data, end)))
  {
    hide FrameBits, ReadBlocks, Sum, FrameSamples, FrameLength;
  }

  /** The samples of a frame are the reconstructed blocks, recombined in joint stereo. */
  lemma SamplesAre(l: Layout, joint: seq<bool>, sf: seq<nat>, bits: seq<nat>, codes: seq<seq<nat>>)
    requires |sf| == |bits| == l.Width() && |joint| <= l.subbands && l.subbands > 0 && Rectangular(codes, l.Width())
    ensures var s, all := AllReconstructed(sf, bits, codes), FrameSamples(l, joint, sf, bits, codes);
      && |s| == |all|
      && (forall b :: 0 <= b < |s| ==> |s[b]| == l.Width())
      && if l.mode.JointStereo? then forall b :: 0 <= b < |s| ==> all[b] == Unjoined(s[b], joint, l.subbands)
         else all == s
  {
    hide Reconstructed, Unjoined;
  }

  /** Round the bit count up to bytes, and count a zero byte behind the frame as part of it. */
  method EndOfBytes(data: seq<byte>, end: nat) returns (length: nat)
    requires (end + 7) / 8 < |data|
    ensures length == FrameLength(data, end)
  {
    var consumed := end;
    if consumed % 8 != 0 {
      consumed := consumed + 8 - consumed % 8;
    }
    if data[consumed / 8] == 0 {
      return consumed / 8 + 1;
    }
    return consumed / 8;
  }
}
