/** The byte format of a frame, as the packer writes it and as the parser reads
  * it: both are stated over bit strings, and shown to be each other's inverse. */
module SbcFormat {
  import opened Arith
  import opened Bits
  import opened BitAllocation
  import opened Quantiser
  import opened SbcFrame
  import Crc8

  // ----- writing -----

  /** The header byte after the sync word. */
  function HeaderByte(l: Layout): byte
    requires l.frequency < 4 && 4 <= l.blocks <= 16
  {
    64 * l.frequency + 16 * ((l.blocks - 4) / 4) + 4 * l.mode.Code()
    + (if l.snr then 2 else 0) + (if l.subbands == 8 then 1 else 0)
  }

  /** A layout the packer accepts: the block counts its two header bits can name. */
  ghost predicate Packable(l: Layout) {
    && l.Shape() && l.PoolInBounds()
    && (l.blocks == 4 || l.blocks == 8 || l.blocks == 12 || l.blocks == 16)
  }

  function Fours(n: nat): (r: seq<nat>)
    ensures |r| == n
  {
    seq(n, _ => 4)
  }

  /** The joint-stereo field and the scale factors: what the checksum covers beside the header. */
  function SideBits(l: Layout, joint: nat, sf: seq<nat>): seq<bool> {
    BitsOf(joint, l.JointWidth()) + WriteFields(sf, Fours(|sf|))
  }

  function SideWidth(l: Layout): nat { l.JointWidth() + 4 * l.Width() }

  function Payload(l: Layout, joint: nat, sf: seq<nat>, codes: seq<seq<nat>>): seq<bool>
    requires (l.subbands == 4 || l.subbands == 8) && l.PoolInBounds() && |sf| == l.Width()
    requires Rectangular(codes, l.Width())
  {
    SideBits(l, joint, sf) + WriteBlocks(codes, FrameBits(l, sf))
  }

  function FrameChecksum(header: byte, pool: byte, side: seq<bool>): byte {
    Crc8.Checksum(BitsOf(header, 8) + BitsOf(pool, 8) + side)
  }

  /** Sync word, header byte, bitpool and checksum. */
  function PackedHead(l: Layout, side: seq<bool>): (r: seq<byte>)
    requires Packable(l)
    ensures |r| == 4
  {
    [SBC_SYNCWORD, HeaderByte(l), l.bitpool, FrameChecksum(HeaderByte(l), l.bitpool, side)]
  }

  /** The packed frame. */
  function Packed(l: Layout, joint: nat, sf: seq<nat>, codes: seq<seq<nat>>): seq<byte>
    requires Packable(l) && |sf| == l.Width() && Rectangular(codes, l.Width())
  {
    PackedHead(l, SideBits(l, joint, sf)) + ToBytes(Payload(l, joint, sf, codes))
  }

  /** Codes that fit the bits allocated to them. */
  ghost predicate Codes(l: Layout, sf: seq<nat>, codes: seq<seq<nat>>)
    requires (l.subbands == 4 || l.subbands == 8) && l.PoolInBounds() && |sf| == l.Width()
  {
    && |codes| == l.blocks && Rectangular(codes, l.Width())
    && forall b :: 0 <= b < |codes| ==> Fit(codes[b], FrameBits(l, sf))
  }

  // ----- reading -----

  datatype Parsed =
    | Error(code: int)
    | Frame(layout: Layout, joint: seq<bool>, sf: seq<nat>, samples: seq<seq<int>>, length: nat)

  const TOO_SHORT := Error(-1)
  const BAD_SYNC := Error(-2)
  const BAD_CRC := Error(-3)
  const BAD_BITPOOL := Error(-4)

  function LayoutOf(header: byte, pool: byte): Layout {
    Layout(header / 64, 4 + 4 * ((header / 16) % 4), ModeOf((header / 4) % 4), (header / 2) % 2 == 1,
           if header % 2 == 1 then 8 else 4, pool)
  }

  /** The fixed layout of an mSBC frame. */
  const MSBC: Layout := Layout(0, 15, Mono, false, 8, 26)

  /** It has eight subbands of one channel and allocates a pool of 26 bits by loudness, at 16 kHz. */
  lemma {:induction false} MsbcNeeds(sf: seq<nat>, sb: nat)
    requires |sf| == 8 && sb < 8
    ensures MSBC.Width() == 8 && MSBC.PoolInBounds() && FrameBits(MSBC, sf) == Allocation(Needs(MSBC, sf), 26)
    ensures
      var (need, o) := (Needs(MSBC, sf)[sb], if sb == 0 then -2 else if sb == 7 then 1 else 0);
      if sf[sb] == 0 then need == -5
      else if sf[sb] > o then 2 * need <= sf[sb] - o <= 2 * need + 1 else need == sf[sb] - o
  {
    hide Allocation;
    NeedsAre(MSBC, sf, 0, sb);
  }

  /** One block as the parser reconstructs it. */
  function Reconstructed(sf: seq<nat>, bits: seq<nat>, codes: seq<nat>): (s: seq<int>)
    requires |sf| == |bits| == |codes|
    ensures |s| == |codes|
  {
    seq(|codes|, k requires 0 <= k < |codes| => Dequantise(codes[k], sf[k], bits[k]))
  }

  /** Sum and difference turned back into left and right where the joint flag is set. */
  function Unjoined(s: seq<int>, joint: seq<bool>, n: nat): (r: seq<int>)
    requires |s| == 2 * n && |joint| <= n
    ensures |r| == 2 * n
  {
    seq(n, sb requires 0 <= sb < n => if sb < |joint| && joint[sb] then s[sb] + s[n + sb] else s[sb])
    + seq(n, sb requires 0 <= sb < n => if sb < |joint| && joint[sb] then s[sb] - s[n + sb] else s[n + sb])
  }

  function BlockSamples(l: Layout, joint: seq<bool>, sf: seq<nat>, bits: seq<nat>, codes: seq<nat>): (s: seq<int>)
    requires |sf| == |bits| == |codes| == l.Width() && |joint| <= l.subbands && l.subbands > 0
    ensures |s| == l.Width()
  {
    var s := Reconstructed(sf, bits, codes);
    if l.mode.JointStereo? then Unjoined(s, joint, l.subbands) else s
  }

  function FrameSamples(l: Layout, joint: seq<bool>, sf: seq<nat>, bits: seq<nat>,
          codes: seq<seq<nat>>): (s: seq<seq<int>>)
    requires |sf| == |bits| == l.Width() && |joint| <= l.subbands && l.subbands > 0 && Rectangular(codes, l.Width())
    ensures |s| == |codes|
  {
    seq(|codes|, b requires 0 <= b < |codes| => BlockSamples(l, joint, sf, bits, codes[b]))
  }

  /** The joint flags: the last subband never carries one. */
  function JointFlags(l: Layout, field: seq<bool>): (r: seq<bool>)
    requires |field| == l.JointWidth()
    ensures |r| <= l.subbands
  {
    if l.mode.JointStereo? && l.subbands > 0 then field[..l.subbands - 1] else []
  }

  /** The layout the sync word and the header select. */
  function ReadLayout(data: seq<byte>): (r: (int, Layout))
    requires |data| >= 4
    ensures r.0 == 0 ==> r.1.Shape() && r.1.PoolInBounds()
  {
    if data[0] == SBC_SYNCWORD then
      var l := LayoutOf(data[1], data[2]);
      if l.PoolInBounds() then (0, l) else (-4, l)
    else if data[0] == MSBC_SYNCWORD then (0, MSBC)
    else (-2, MSBC)
  }

  /** What the sync word and the header bytes decide: two bits of mode choose between a
    * bitpool of 16 and of 32 bits a subband at most, one bit between four and eight subbands. */
  lemma {:induction false} HeaderGuard(data: seq<byte>)
    requires |data| >= 4
    ensures var (shared, wide) := ((data[1] / 4) % 4 >= 2, data[1] % 2 == 1);
      var limit: int := if shared then (if wide then 256 else 128) else if wide then 128 else 64;
      ReadLayout(data).0 == if data[0] == 0x9C then (if data[2] > limit then -4 else 0)
                            else if data[0] == 0xAD then 0 else -2
  {
  }

  /** A header byte that is read is the one that would be written. */
  lemma {:induction false} HeaderInverse(header: byte, pool: byte)
    ensures var l := LayoutOf(header, pool);
      && (l.PoolInBounds() ==> Packable(l)) && l.frequency < 4 && 4 <= l.blocks <= 16
      && HeaderByte(l) == header
  {
    Digits(header);
    hide ModeOf, Mode.Code;
    ModeCode((header / 4) % 4);
  }

  lemma ModeCode(q: nat)
    requires q < 4
    ensures ModeOf(q).Code() == q
  {
  }

  /** The header's five fields. */
  lemma Digits(h: byte)
    ensures h == 64 * (h / 64) + 16 * ((h / 16) % 4) + 4 * ((h / 4) % 4) + 2 * ((h / 2) % 2) + h % 2
  {
    var (a, b, c) := (h / 2, h / 4, h / 16);
    assert b == a / 2 && c == b / 4 && h / 64 == c / 4;
    assert h == 2 * a + h % 2 && a == 2 * b + a % 2 && b == 4 * c + b % 4;
  }

  /** What the parser makes of `len` bytes of a buffer.  It may look at the byte
    * after the frame, and in its bounds check it lets one bit pass beyond `len`,
    * so the buffer is two bytes longer. */
  function Parse(data: seq<byte>, len: nat): Parsed
    requires |data| >= len + 2
  {
    if len < 4 then TOO_SHORT else
      var (err, l) := ReadLayout(data);
      if err != 0 then Error(err)
      else if 8 * len < 32 + SideWidth(l) then TOO_SHORT
      else ParseFields(data, len, l)
  }

  function ParseFields(data: seq<byte>, len: nat, l: Layout): Parsed
    requires |data| >= len + 2 && 8 * len >= 32 + SideWidth(l)
    requires l.Shape() && l.PoolInBounds()
  {
    var b := ByteBits(data)[32..];
    ParseParts(data, len, l, b[..SideWidth(l)], b[..l.JointWidth()],
               ReadFields(b[l.JointWidth()..], Fours(l.Width())), b[SideWidth(l)..])
  }

  /** The same, with the frame's bits taken apart: everything the checksum covers,
    * the joint-stereo field, the scale factors, and the rest. */
  function ParseParts(data: seq<byte>, len: nat, l: Layout, side: seq<bool>, field: seq<bool>, sf: seq<nat>,
          rest: seq<bool>): Parsed
    requires |data| >= len + 2 && 8 * len >= 32 + SideWidth(l)
    requires l.Shape() && l.PoolInBounds() && |sf| == l.Width() && |field| == l.JointWidth()
  {
    if data[3] != FrameChecksum(data[1], data[2], side) then BAD_CRC
    else ParseAudio(data, len, l, JointFlags(l, field), sf, rest)
  }

  /** Bits all blocks together take. */
  function AudioWidth(l: Layout, bits: seq<nat>): nat {
    MulNonNegative(l.blocks, Sum(bits));
    l.blocks * Sum(bits)
  }

  /** The samples, from the bits `b` that follow the scale factors. */
  function ParseAudio(data: seq<byte>, len: nat, l: Layout, joint: seq<bool>, sf: seq<nat>, b: seq<bool>): Parsed
    requires |data| >= len + 2 && 8 * len >= 32 + SideWidth(l)
    requires l.Shape() && l.PoolInBounds() && |sf| == l.Width() && |joint| <= l.subbands
  {
    var bits := FrameBits(l, sf);
    var audio := AudioWidth(l, bits);
    var end := 32 + SideWidth(l) + audio;
    if audio > 0 && end > 8 * len + 1 then TOO_SHORT else
      Frame(l, joint, sf, FrameSamples(l, joint, sf, bits, ReadBlocks(b, bits, l.blocks)), FrameLength(data, end))
  }

  /** The frame ends with the byte that holds its last bit; a zero byte behind it is taken as padding. */
  function FrameLength(data: seq<byte>, end: nat): nat
    requires (end + 7) / 8 < |data|
  {
    var length := (end + 7) / 8;
    if data[length] == 0 then length + 1 else length
  }

  // ----- the round trip -----

  lemma {:induction false} HeaderDigits(f: nat, m: nat, s: nat, a: nat, b: nat)
    requires m < 4 && s < 4 && a < 2 && b < 2
    ensures var h := 64 * f + 16 * m + 4 * s + 2 * a + b;
      h / 64 == f && (h / 16) % 4 == m && (h / 4) % 4 == s && (h / 2) % 2 == a && h % 2 == b
  {
    var h := 64 * f + 16 * m + 4 * s + 2 * a + b;
    assert h / 2 == 32 * f + 8 * m + 2 * s + a;
    assert h / 4 == 16 * f + 4 * m + s;
    assert h / 16 == 4 * f + m;
  }

  lemma {:induction false} HeaderRoundTrip(l: Layout)
    requires Packable(l)
    ensures LayoutOf(HeaderByte(l), l.bitpool) == l
  {
    HeaderDigits(l.frequency, (l.blocks - 4) / 4, l.mode.Code(),
                 if l.snr then 1 else 0, if l.subbands == 8 then 1 else 0);
  }

  lemma {:induction false} FoursSum(n: nat)
    ensures Sum(Fours(n)) == 4 * n
  {
    if n > 0 {
      FoursSum(n - 1);
      assert Fours(n)[..n - 1] == Fours(n - 1);
    }
  }

  lemma SideBitsLength(l: Layout, joint: nat, sf: seq<nat>)
    requires |sf| == l.Width()
    ensures |SideBits(l, joint, sf)| == SideWidth(l)
  {
    WriteFieldsLength(sf, Fours(|sf|));
    FoursSum(|sf|);
  }

  /** The bits of a buffer that starts with a packed frame. */
  lemma PackedBits(head: seq<byte>, p: seq<bool>, tail: seq<byte>)
    requires |head| == 4
    ensures var data := head + ToBytes(p) + tail;
      && |data| == 4 + (|p| + 7) / 8 + |tail|
      && ByteBits(data)[32..] == p + (Zeros(8 * ((|p| + 7) / 8) - |p|) + ByteBits(tail))
  {
    var body := ToBytes(p);
    ByteBitsOfToBytes(p);
    hide ByteBits, ToBytes, Zeros;
    assert head + body + tail == head + (body + tail);
    ByteBitsAppend(head, body + tail);
    ByteBitsAppend(body, tail);
    assert ByteBits(head + (body + tail))[32..] == ByteBits(body + tail);
    assert (p + Zeros(8 * |body| - |p|)) + ByteBits(tail) == p + (Zeros(8 * |body| - |p|) + ByteBits(tail));
  }

  lemma SliceParts<T>(j: seq<T>, f: seq<T>, w: seq<T>, fill: seq<T>)
    ensures var b := ((j + f) + w) + fill;
      && b[..|j|] == j && b[..|j| + |f|] == j + f
      && b[|j|..] == f + (w + fill) && b[|j| + |f|..] == w + fill
  {
  }

  /** The bits `b` begin with these side fields and blocks. */
  ghost predicate Carries(b: seq<bool>, l: Layout, joint: nat, sf: seq<nat>, codes: seq<seq<nat>>)
    requires l.Shape() && l.PoolInBounds() && |sf| == l.Width()
  {
    && |b| >= SideWidth(l)
    && b[..SideWidth(l)] == SideBits(l, joint, sf)
    && b[..l.JointWidth()] == BitsOf(joint, l.JointWidth())
    && ReadFields(b[l.JointWidth()..], Fours(l.Width())) == sf
    && ReadBlocks(b[SideWidth(l)..], FrameBits(l, sf), l.blocks) == codes
  }

  /** Where the last bit of the frame ends. */
  function EndOfFrame(l: Layout, sf: seq<nat>): (r: nat)
    requires l.Shape() && l.PoolInBounds() && |sf| == l.Width()
    ensures r >= 32 + SideWidth(l)
  {
    32 + SideWidth(l) + AudioWidth(l, FrameBits(l, sf))
  }

  /** Reading the side fields and the blocks back from the front of a bit string. */
  lemma {:induction false} PayloadRoundTrip(l: Layout, joint: nat, sf: seq<nat>, codes: seq<seq<nat>>, fill: seq<bool>)
    requires Packable(l) && ScaleFactors(l, sf) && Codes(l, sf, codes)
    ensures 32 + |Payload(l, joint, sf, codes)| == EndOfFrame(l, sf)
    ensures Carries(Payload(l, joint, sf, codes) + fill, l, joint, sf, codes)
  {
    var j, f, w := BitsOf(joint, l.JointWidth()), WriteFields(sf, Fours(|sf|)), WriteBlocks(codes, FrameBits(l, sf));
    SideBitsLength(l, joint, sf);
    WriteBlocksLength(codes, FrameBits(l, sf));
    ScaleFactorsFit(l, sf);
    hide FrameBits, WriteFields, WriteBlocks, ReadFields, ReadBlocks, BitsOf, Sum;
    SliceParts(j, f, w, fill);
    FieldsRoundTrip(sf, Fours(|sf|), w + fill);
    BlocksRoundTrip(codes, FrameBits(l, sf), fill);
  }

  lemma ScaleFactorsFit(l: Layout, sf: seq<nat>)
    requires ScaleFactors(l, sf)
    ensures Fit(sf, Fours(|sf|))
  {
    Pow2Constants();
  }

  /** What the parser delivers for a packed frame. */
  function Delivered(l: Layout, joint: nat, sf: seq<nat>, codes: seq<seq<nat>>, length: nat): Parsed
    requires l.Shape() && l.PoolInBounds() && |sf| == l.Width() && Rectangular(codes, l.Width())
  {
    var flags := JointFlags(l, BitsOf(joint, l.JointWidth()));
    Frame(l, flags, sf, FrameSamples(l, flags, sf, FrameBits(l, sf), codes), length)
  }

  lemma {:induction false} LayoutRead(l: Layout, data: seq<byte>)
    requires Packable(l) && |data| >= 4
    requires data[0] == SBC_SYNCWORD && data[1] == HeaderByte(l) && data[2] == l.bitpool
    ensures ReadLayout(data) == (0, l)
  {
    HeaderRoundTrip(l);
  }

  /** The pieces the parser takes the frame's bits apart into. */
  lemma {:induction false} FieldsAreParts(data: seq<byte>, len: nat, l: Layout, joint: nat, sf: seq<nat>,
          codes: seq<seq<nat>>)
      returns (rest: seq<bool>)
    requires l.Shape() && l.PoolInBounds() && |sf| == l.Width()
    requires |data| >= len + 2 && 8 * len >= 32 + SideWidth(l)
    ensures Carries(ByteBits(data)[32..], l, joint, sf, codes) ==>
      && ReadBlocks(rest, FrameBits(l, sf), l.blocks) == codes
      && ParseFields(data, len, l)
         == ParseParts(data, len, l, SideBits(l, joint, sf), BitsOf(joint, l.JointWidth()), sf, rest)
  {
    hide FrameBits, ReadFields, ReadBlocks, ByteBits, BitsOf, SideBits, ParseParts;
    rest := ByteBits(data)[32..][SideWidth(l)..];
  }

  lemma PartsParsed(data: seq<byte>, len: nat, l: Layout, joint: nat, sf: seq<nat>, rest: seq<bool>,
          codes: seq<seq<nat>>)
    requires l.Shape() && l.PoolInBounds() && |sf| == l.Width() && Rectangular(codes, l.Width())
    requires |data| >= len + 2 && 8 * len >= EndOfFrame(l, sf)
    requires ReadBlocks(rest, FrameBits(l, sf), l.blocks) == codes
    requires data[3] == FrameChecksum(data[1], data[2], SideBits(l, joint, sf))
    ensures ParseParts(data, len, l, SideBits(l, joint, sf), BitsOf(joint, l.JointWidth()), sf, rest)
         == Delivered(l, joint, sf, codes, FrameLength(data, EndOfFrame(l, sf)))
  {
    hide FrameBits, ReadBlocks, BitsOf, SideBits, FrameChecksum, FrameSamples, FrameLength, ParseAudio, EndOfFrame;
    AudioParsed(data, len, l, JointFlags(l, BitsOf(joint, l.JointWidth())), sf, rest, codes);
  }

  lemma AudioParsed(data: seq<byte>, len: nat, l: Layout, joint: seq<bool>, sf: seq<nat>, b: seq<bool>,
          codes: seq<seq<nat>>)
    requires l.Shape() && l.PoolInBounds() && |sf| == l.Width() && |joint| <= l.subbands
    requires Rectangular(codes, l.Width())
    requires |data| >= len + 2 && 8 * len >= EndOfFrame(l, sf)
    requires ReadBlocks(b, FrameBits(l, sf), l.blocks) == codes
    ensures ParseAudio(data, len, l, joint, sf, b)
         == Frame(l, joint, sf, FrameSamples(l, joint, sf, FrameBits(l, sf), codes),
                  FrameLength(data, EndOfFrame(l, sf)))
  {
    hide FrameBits, ReadBlocks, Sum, FrameSamples, AudioWidth, FrameLength;
  }

  /** Pack, then parse: whatever follows the frame, and however much of that the
    * parser is told to use, every header field, scale factor and code comes back,
    * the checksum is accepted, and the length is that of the packed frame - plus
    * one if the next byte is zero. */
  lemma {:induction false} RoundTrip(l: Layout, joint: nat, sf: seq<nat>, codes: seq<seq<nat>>, tail: seq<byte>,
          more: nat)
    requires Packable(l) && ScaleFactors(l, sf) && Codes(l, sf, codes) && more + 2 <= |tail|
    ensures var packed := Packed(l, joint, sf, codes);
      Parse(packed + tail, |packed| + more)
      == Delivered(l, joint, sf, codes, if tail[0] == 0 then |packed| + 1 else |packed|)
  {
    var data, len := Packed(l, joint, sf, codes) + tail, |Packed(l, joint, sf, codes)| + more;
    PackedHeader(l, joint, sf, codes, tail);
    PackedCarries(l, joint, sf, codes, tail);
    hide Packed, ReadLayout, ParseFields, Delivered, Carries, EndOfFrame, ScaleFactors, Codes, HeaderByte;
    hide FrameChecksum, SideBits;
    LayoutRead(l, data);
    var rest := FieldsAreParts(data, len, l, joint, sf, codes);
    PartsParsed(data, len, l, joint, sf, rest, codes);
  }

  lemma PackedHeader(l: Layout, joint: nat, sf: seq<nat>, codes: seq<seq<nat>>, tail: seq<byte>)
    requires Packable(l) && |sf| == l.Width() && Rectangular(codes, l.Width())
    ensures var data := Packed(l, joint, sf, codes) + tail;
      && data[0] == SBC_SYNCWORD && data[1] == HeaderByte(l) && data[2] == l.bitpool
      && data[3] == FrameChecksum(data[1], data[2], SideBits(l, joint, sf))
  {
    hide ToBytes, Payload, SideBits, FrameChecksum, HeaderByte;
  }

  lemma {:induction false} PackedCarries(l: Layout, joint: nat, sf: seq<nat>, codes: seq<seq<nat>>, tail: seq<byte>)
    requires Packable(l) && ScaleFactors(l, sf) && Codes(l, sf, codes) && tail != []
    ensures var packed := Packed(l, joint, sf, codes);
      && Carries(ByteBits(packed + tail)[32..], l, joint, sf, codes)
      && |packed| == (EndOfFrame(l, sf) + 7) / 8 && SideWidth(l) + 32 <= EndOfFrame(l, sf) <= 8 * |packed|
      && FrameLength(packed + tail, EndOfFrame(l, sf)) == if tail[0] == 0 then |packed| + 1 else |packed|
  {
    var p, packed := Payload(l, joint, sf, codes), Packed(l, joint, sf, codes);
    var head := packed[..4];
    assert packed == head + ToBytes(p) && |packed| == 4 + (|p| + 7) / 8;
    hide Packed, Payload, Carries, ToBytes, ByteBits, ScaleFactors, Codes, Zeros, FrameBits;
    PackedBits(head, p, tail);
    PayloadRoundTrip(l, joint, sf, codes, Zeros(8 * ((|p| + 7) / 8) - |p|) + ByteBits(tail));
  }

  /** The parser's joint flags are the packer's field with its bits in reverse;
    * the last subband, the field's lowest bit, is not looked at. */
  lemma JointReversed(l: Layout, joint: nat, sb: nat)
    requires l.mode.JointStereo? && sb < l.subbands - 1
    ensures JointFlags(l, BitsOf(joint, l.JointWidth()))[sb] <==> Shr(joint, l.subbands - 1 - sb) % 2 == 1
  {
    BitAt(joint, l.subbands, sb);
  }

  // ----- samples through the codec -----

  /** The codes of one block of samples; a subband without bits gets none. */
  function QuantisedBlock(s: seq<int>, sf: seq<nat>, bits: seq<nat>): (c: seq<nat>)
    requires BlockInScale(sf, s) && |bits| == |sf|
    ensures Fit(c, bits)
  {
    seq(|s|, k requires 0 <= k < |s| => QuantisedSample(s[k], sf[k], bits[k]))
  }

  function QuantisedSample(s: int, sf: nat, b: nat): (c: nat)
    requires Scale(sf) && InScale(s, sf)
    ensures c < Pow2(b)
  {
    if b == 0 then 0 else
      CodeInRange(s, sf, b);
      Quantise(s, sf, b)
  }

  /** Samples the scale factors were chosen for, block by block. */
  ghost predicate SamplesInScale(l: Layout, sf: seq<nat>, samples: seq<seq<int>>) {
    && |samples| == l.blocks
    && forall b :: 0 <= b < |samples| ==> BlockInScale(sf, samples[b])
  }

  ghost predicate BlockInScale(sf: seq<nat>, s: seq<int>) {
    |s| == |sf| && forall k :: 0 <= k < |s| ==> Scale(sf[k]) && InScale(s[k], sf[k])
  }

  function QuantisedFrame(sf: seq<nat>, bits: seq<nat>, samples: seq<seq<int>>): (codes: seq<seq<nat>>)
    requires |bits| == |sf| && forall b :: 0 <= b < |samples| ==> BlockInScale(sf, samples[b])
    ensures |codes| == |samples| && Rectangular(codes, |sf|)
    ensures forall b :: 0 <= b < |codes| ==> codes[b] == QuantisedBlock(samples[b], sf, bits) && Fit(codes[b], bits)
  {
    seq(|samples|, b requires 0 <= b < |samples| => QuantisedBlock(samples[b], sf, bits))
  }

  /** How far a decoded sample may be from the one that was packed: half a
    * quantiser step and a unit of truncation, or anything in scale without bits. */
  ghost predicate Close(decoded: int, s: int, sf: nat, b: nat) {
    if b == 0 then decoded == 0
    else (Pow2(b) - 1) * Abs(0x1_0000 * decoded - s) <= 0x1_0000 * Pow2(sf) + 0x1_0000 * (Pow2(b) - 1)
  }

  lemma {:induction false} SampleClose(s: int, sf: nat, b: nat)
    requires Scale(sf) && InScale(s, sf)
    ensures Close(Dequantise(QuantisedSample(s, sf, b), sf, b), s, sf, b)
  {
    if b > 0 {
      QuantiserError(s, sf, b);
    }
  }

  lemma {:induction false} BlockClose(s: seq<int>, sf: seq<nat>, bits: seq<nat>)
    requires BlockInScale(sf, s) && |bits| == |sf|
    ensures BlockAccurate(Reconstructed(sf, bits, QuantisedBlock(s, sf, bits)), s, sf, bits)
  {
    hide Close, Dequantise, QuantisedSample;
    forall k | 0 <= k < |s|
      ensures Close(Reconstructed(sf, bits, QuantisedBlock(s, sf, bits))[k], s[k], sf[k], bits[k])
    {
      SampleClose(s[k], sf[k], bits[k]);
    }
  }

  ghost predicate BlockAccurate(decoded: seq<int>, s: seq<int>, sf: seq<nat>, bits: seq<nat>) {
    && |decoded| == |s| == |sf| == |bits|
    && forall k :: 0 <= k < |s| ==> Close(decoded[k], s[k], sf[k], bits[k])
  }

  /** A delivered block is close to the packed samples - in joint stereo, where the flag
    * is set, half the sum of left and right and half their difference are. */
  ghost predicate Recovered(l: Layout, flags: seq<bool>, delivered: seq<int>, s: seq<int>, sf: seq<nat>, bits: seq<nat>)
    requires |s| == l.Width() && |flags| <= l.subbands
  {
    exists r ::
      && BlockAccurate(r, s, sf, bits)
      && if l.mode.JointStereo? then Recombined(delivered, r, flags, l.subbands) else delivered == r
  }

  /** Left and right carry the middle and the side channel where the flag is set. */
  ghost predicate Recombined(sides: seq<int>, r: seq<int>, flags: seq<bool>, n: nat)
    requires |r| == 2 * n
  {
    && |sides| == 2 * n
    && forall sb :: 0 <= sb < n ==>
         if sb < |flags| && flags[sb] then
           sides[sb] + sides[n + sb] == 2 * r[sb] && sides[sb] - sides[n + sb] == 2 * r[n + sb]
         else sides[sb] == r[sb] && sides[n + sb] == r[n + sb]
  }

  /** And only one pair of channels does. */
  lemma {:induction false} UnjoinedIff(sides: seq<int>, r: seq<int>, flags: seq<bool>, n: nat)
    requires |r| == 2 * n && |flags| <= n
    ensures Recombined(sides, r, flags, n) <==> sides == Unjoined(r, flags, n)
  {
    if Recombined(sides, r, flags, n) {
      forall k | 0 <= k < 2 * n ensures sides[k] == Unjoined(r, flags, n)[k] {
        var sb := if k < n then k else k - n;
        assert sides[sb] + sides[n + sb] == sides[sb] + sides[n + sb];
      }
    }
  }

  /** A parsed frame has this layout, these flags and scale factors, and these samples, recovered. */
  ghost predicate Accurate(p: Parsed, l: Layout, joint: nat, sf: seq<nat>, samples: seq<seq<int>>)
    requires l.Shape() && l.PoolInBounds() && |sf| == l.Width() && SamplesInScale(l, sf, samples)
  {
    var flags := JointFlags(l, BitsOf(joint, l.JointWidth()));
    && p.Frame? && p.layout == l && p.joint == flags && p.sf == sf && |p.samples| == l.blocks
    && forall b :: 0 <= b < l.blocks ==> Recovered(l, flags, p.samples[b], samples[b], sf, FrameBits(l, sf))
  }

  /** A whole frame of samples through packer and parser: every sample comes back
    * within the quantiser's error. */
  lemma {:induction false} FrameAccurate(l: Layout, joint: nat, sf: seq<nat>, samples: seq<seq<int>>,
          tail: seq<byte>, more: nat)
    requires Packable(l) && ScaleFactors(l, sf) && SamplesInScale(l, sf, samples) && more + 2 <= |tail|
    ensures var packed := Packed(l, joint, sf, QuantisedFrame(sf, FrameBits(l, sf), samples));
      Accurate(Parse(packed + tail, |packed| + more), l, joint, sf, samples)
  {
    hide Packed, Parse, Delivered, Accurate, FrameBits, QuantisedFrame, BlockInScale;
    var codes := QuantisedFrame(sf, FrameBits(l, sf), samples);
    var n := |Packed(l, joint, sf, codes)|;
    RoundTrip(l, joint, sf, codes, tail, more);
    DeliveredAccurate(l, joint, sf, samples, if tail[0] == 0 then n + 1 else n);
  }

  lemma {:induction false} DeliveredAccurate(l: Layout, joint: nat, sf: seq<nat>, samples: seq<seq<int>>, n: nat)
    requires l.Shape() && l.PoolInBounds() && |sf| == l.Width() && SamplesInScale(l, sf, samples)
    ensures Accurate(Delivered(l, joint, sf, QuantisedFrame(sf, FrameBits(l, sf), samples), n), l, joint, sf, samples)
  {
    hide FrameBits, QuantisedBlock, BlockSamples, JointFlags, Recovered;
    var flags, bits := JointFlags(l, BitsOf(joint, l.JointWidth())), FrameBits(l, sf);
    forall b | 0 <= b < l.blocks
      ensures Recovered(l, flags, BlockSamples(l, flags, sf, bits, QuantisedBlock(samples[b], sf, bits)),
                        samples[b], sf, bits)
    {
      BlockRecovered(l, flags, samples[b], sf, bits);
    }
  }

  lemma BlockRecovered(l: Layout, flags: seq<bool>, s: seq<int>, sf: seq<nat>, bits: seq<nat>)
    requires BlockInScale(sf, s) && |bits| == |sf| == l.Width() && l.subbands > 0 && |flags| <= l.subbands
    ensures Recovered(l, flags, BlockSamples(l, flags, sf, bits, QuantisedBlock(s, sf, bits)), s, sf, bits)
  {
    BlockClose(s, sf, bits);
    var r := Reconstructed(sf, bits, QuantisedBlock(s, sf, bits));
    if l.mode.JointStereo? {
      UnjoinedIff(Unjoined(r, flags, l.subbands), r, flags, l.subbands);
    }
    hide QuantisedBlock, Reconstructed, BlockAccurate, Unjoined, Recombined;
    assert BlockAccurate(r, s, sf, bits);
  }

  // ----- lengths -----

  /** The frame length computed from the header alone. */
  function HeaderLength(l: Layout): nat {
    4 + (4 * l.Width()) / 8
    + if l.mode.Mono? then (l.blocks * l.bitpool + 7) / 8
      else ((if l.mode.JointStereo? then l.subbands else 0) + l.blocks * l.bitpool + 7) / 8
  }

  lemma {:induction false} EndIs(l: Layout, sf: seq<nat>)
    requires l.Shape() && l.PoolInBounds() && |sf| == l.Width()
    ensures EndOfFrame(l, sf) == 32 + SideWidth(l) + l.blocks * BlockSize(l)
  {
    FrameBitsExact(l, sf);
  }

  /** The header's formula is the packed length in every mode except dual
    * channel, where each channel has a bitpool of its own: there it is right
    * only for the emptiest frames. */
  lemma {:induction false} HeaderLengthIff(l: Layout, joint: nat, sf: seq<nat>, codes: seq<seq<nat>>)
    requires Packable(l) && ScaleFactors(l, sf) && Codes(l, sf, codes)
    ensures |Packed(l, joint, sf, codes)| == HeaderLength(l)
      <==> (!l.mode.DualChannel? || (l.blocks / 4) * l.bitpool <= 1)
  {
    PackedCarries(l, joint, sf, codes, [0]);
    EndIs(l, sf);
    hide Packed, EndOfFrame, Codes;
    LengthArithmetic(l);
  }

  lemma LengthArithmetic(l: Layout)
    requires Packable(l)
    ensures (32 + SideWidth(l) + l.blocks * BlockSize(l) + 7) / 8 == HeaderLength(l)
      <==> (!l.mode.DualChannel? || (l.blocks / 4) * l.bitpool <= 1)
  {
    var m := l.blocks / 4;
    var x := m * l.bitpool;
    assert l.blocks == 4 * m && m > 0;
    assert l.blocks * l.bitpool == 4 * x by { MulAssociative(4, m, l.bitpool); }
    assert l.blocks * (2 * l.bitpool) == 8 * x by {
      MulAssociative(4 * m, 2, l.bitpool);
      MulAssociative(8, m, l.bitpool);
    }
    MulNonNegative(m, l.bitpool);
    hide *;
    LengthLinear(l, x);
  }

  lemma LengthLinear(l: Layout, x: nat)
    requires l.Shape()
    requires l.blocks * l.bitpool == 4 * x && l.blocks * BlockSize(l) == if l.mode.DualChannel? then 8 * x else 4 * x
    ensures (32 + SideWidth(l) + l.blocks * BlockSize(l) + 7) / 8 == HeaderLength(l)
      <==> (!l.mode.DualChannel? || x <= 1)
  {
  }

  /** The bits of a frame the checksum covers beside the header bytes. */
  ghost function SideOf(data: seq<byte>, l: Layout): seq<bool>
    requires 8 * |data| >= 32 + SideWidth(l)
  {
    ByteBits(data)[32..][..SideWidth(l)]
  }

  ghost predicate ChecksumHolds(data: seq<byte>, l: Layout)
    requires |data| >= 4 && 8 * |data| >= 32 + SideWidth(l)
  {
    data[3] == FrameChecksum(data[1], data[2], SideOf(data, l))
  }

  ghost function FactorsOf(data: seq<byte>, l: Layout): (sf: seq<nat>)
    requires 8 * |data| >= 32 + SideWidth(l)
    ensures |sf| == l.Width()
  {
    ReadFields(ByteBits(data)[32..][l.JointWidth()..], Fours(l.Width()))
  }

  /** When a frame with a good header is accepted, and its length. */
  lemma {:induction false} ParseIff(data: seq<byte>, len: nat, l: Layout)
    requires |data| >= len + 2 && len >= 4 && ReadLayout(data) == (0, l)
    ensures Parse(data, len).Frame? ==> 8 * len >= 32 + SideWidth(l)
    ensures 8 * len >= 32 + SideWidth(l) ==>
      var end := EndOfFrame(l, FactorsOf(data, l));
      && (!ChecksumHolds(data, l) ==> Parse(data, len) == BAD_CRC)
      && (Parse(data, len).Frame? <==> ChecksumHolds(data, l) && (end == 32 + SideWidth(l) || end <= 8 * len + 1))
      && (Parse(data, len).Frame? ==> (end + 7) / 8 < |data| && Parse(data, len).length == FrameLength(data, end))
  {
    hide FrameBits, ReadFields, ReadBlocks, ByteBits, FrameSamples, FrameChecksum, Sum, Fours, FrameLength;
    hide JointFlags, ReadLayout;
  }

  /** An mSBC frame is accepted exactly when its checksum holds and 57 bytes are
    * there - and then that is its length, whatever its scale factors say. */
  lemma {:induction false} MsbcLength(data: seq<byte>, len: nat)
    requires |data| >= len + 2 && len >= 4 && data[0] == MSBC_SYNCWORD
    ensures Parse(data, len).Frame? <==> len >= 57 && ChecksumHolds(data, MSBC)
    ensures Parse(data, len).Frame? ==> Parse(data, len).length == if data[57] == 0 then 58 else 57
  {
    hide *;
    MsbcFacts(data);
    ParseIff(data, len, MSBC);
    if len >= 8 {
      MsbcEnd(data, FactorsOf(data, MSBC));
    }
  }

  lemma MsbcFacts(data: seq<byte>)
    requires |data| >= 4 && data[0] == MSBC_SYNCWORD
    ensures ReadLayout(data) == (0, MSBC)
    ensures SideWidth(MSBC) == 32 && MSBC.JointWidth() == 0 && MSBC.Width() == 8 && MSBC.Shape() && MSBC.PoolInBounds()
  {
  }

  lemma MsbcEnd(data: seq<byte>, sf: seq<nat>)
    requires |sf| == MSBC.Width()
    ensures EndOfFrame(MSBC, sf) == 454
    ensures |data| > 57 ==> FrameLength(data, 454) == if data[57] == 0 then 58 else 57
  {
    EndIs(MSBC, sf);
  }

  // ----- damaged frames -----

  /** All the bits the checksum covers. */
  ghost function Covered(data: seq<byte>, l: Layout): seq<bool>
    requires |data| >= 4 && 8 * |data| >= 32 + SideWidth(l)
  {
    BitsOf(data[1], 8) + BitsOf(data[2], 8) + SideOf(data, l)
  }

  /** What is wrong with a frame is up to eight consecutive bits of what the checksum
    * covers, or the checksum alone. */
  ghost predicate Damaged(data: seq<byte>, damaged: seq<byte>, l: Layout, i: nat)
    requires |data| >= 4 && |damaged| >= 4 && 8 * |data| >= 32 + SideWidth(l) && 8 * |damaged| >= 32 + SideWidth(l)
  {
    if data[3] == damaged[3] then
      Covered(data, l) != Covered(damaged, l) && Crc8.DifferOnlyWithin(Covered(data, l), Covered(damaged, l), i, 8)
    else
      Covered(data, l) == Covered(damaged, l)
  }

  /** Such an error of an intact frame is always reported as a checksum error, if it
    * leaves the layout as it was. */
  lemma {:induction false} DamageReported(data: seq<byte>, damaged: seq<byte>, len: nat, l: Layout, i: nat)
    requires |data| >= len + 2 && |damaged| >= len + 2 && len >= 4
    requires ReadLayout(data) == (0, l) == ReadLayout(damaged)
    requires 8 * len >= 32 + SideWidth(l) && ChecksumHolds(data, l)
    ensures Damaged(data, damaged, l, i) ==> Parse(damaged, len) == BAD_CRC
  {
    ParseIff(damaged, len, l);
    hide Parse, SideOf, ReadLayout, EndOfFrame, FrameLength, Crc8.DifferOnlyWithin, Crc8.Checksum;
    if Damaged(data, damaged, l, i) && data[3] == damaged[3] {
      Crc8.BurstDetected(Covered(data, l), Covered(damaged, l), i);
    }
  }

  /** In an mSBC frame it always is, since the layout is fixed: the two header bytes
    * that the parser does not read are protected too. */
  lemma {:induction false} MsbcDamageReported(data: seq<byte>, damaged: seq<byte>, len: nat, i: nat)
    requires |data| >= len + 2 && |damaged| >= len + 2 && len >= 8 && data[0] == damaged[0] == MSBC_SYNCWORD
    requires ChecksumHolds(data, MSBC)
    ensures Damaged(data, damaged, MSBC, i) ==> Parse(damaged, len) == BAD_CRC
  {
    MsbcFacts(data);
    MsbcFacts(damaged);
    hide *;
    DamageReported(data, damaged, len, MSBC, i);
  }
}
