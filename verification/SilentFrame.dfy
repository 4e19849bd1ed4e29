/** The frame the receiver decodes in place of a lost one: a constant in its
  * source, which has to pass the parser's checksum for the concealment to run at all. */
module SilentFrame {
  import opened Sequences
  import opened Bits
  import opened SbcFormat
  import Crc8

  const HEAD: seq<byte> := [0xad, 0x00, 0x00, 0xc5, 0x00, 0x00, 0x00, 0x00]
  const AUDIO: seq<byte> := [
    0x77, 0x6d, 0xb6, 0xdd, 0xdb, 0x6d, 0xb7, 0x76, 0xdb, 0x6d, 0xdd, 0xb6,
    0xdb, 0x77, 0x6d, 0xb6, 0xdd, 0xdb, 0x6d, 0xb7, 0x76, 0xdb, 0x6d, 0xdd,
    0xb6, 0xdb, 0x77, 0x6d, 0xb6, 0xdd, 0xdb, 0x6d, 0xb7, 0x76, 0xdb, 0x6d,
    0xdd, 0xb6, 0xdb, 0x77, 0x6d, 0xb6, 0xdd, 0xdb, 0x6d, 0xb7, 0x76, 0xdb, 0x6c]
  const INDICES0: seq<byte> := HEAD + AUDIO + [0x0]

  /** Feeding a zero byte advances the register by eight steps. */
  lemma ZeroByte(r: bv8)
    ensures Crc8.Run(r, BitsOf(0, 8)) == Crc8.Advance8(r)
  {
    hide *;
    Crc8.TableLookup(r, 0);
    Crc8.AddZero(r);
    Crc8.TableEntry(r);
  }

  function ZeroBytes(n: nat): seq<byte> { seq(n, _ => 0) }

  function AdvanceBytes(r: bv8, n: nat): bv8 { if n == 0 then r else Crc8.Advance8(AdvanceBytes(r, n - 1)) }

  lemma {:induction false} RunOfZeros(r: bv8, n: nat)
    ensures Crc8.Run(r, ByteBits(ZeroBytes(n))) == AdvanceBytes(r, n)
  {
    if n > 0 {
      RunOfZeros(r, n - 1);
      ZeroByte(AdvanceBytes(r, n - 1));
      assert ZeroBytes(n)[..n - 1] == ZeroBytes(n - 1);
      Crc8.RunAppend(r, ByteBits(ZeroBytes(n - 1)), BitsOf(0, 8));
    }
  }

  /** The checksum of six zero bytes. */
  lemma SilentChecksum()
    ensures Crc8.Checksum(ByteBits(ZeroBytes(6))) == 0xc5
  {
    RunOfZeros(Crc8.INITIAL, 6);
    hide ByteBits, ZeroBytes, Crc8.Run;
    SixAdvances();
  }

  lemma SixAdvances()
    ensures AdvanceBytes(Crc8.INITIAL, 6) == 0xc5
  {
    assert AdvanceBytes(Crc8.INITIAL, 1) == Crc8.Advance8(0x0f) == 0xbb;
    assert AdvanceBytes(Crc8.INITIAL, 2) == Crc8.Advance8(0xbb);
    assert AdvanceBytes(Crc8.INITIAL, 3) == Crc8.Advance8(Crc8.Advance8(0xbb));
    assert AdvanceBytes(Crc8.INITIAL, 4) == Crc8.Advance8(Crc8.Advance8(Crc8.Advance8(0xbb)));
    assert AdvanceBytes(Crc8.INITIAL, 5) == Crc8.Advance8(Crc8.Advance8(Crc8.Advance8(Crc8.Advance8(0xbb))));
  }

  /** The constant is an intact mSBC frame, whatever lies behind it; its own last
    * byte is taken as padding. */
  lemma {:induction false} SilentFrameAccepted(behind: seq<byte>)
    requires |behind| >= 2
    ensures Parse(INDICES0 + behind, 58).Frame? && Parse(INDICES0 + behind, 58).length == 58
  {
    var data := INDICES0 + behind;
    hide Parse, ChecksumHolds, ByteBits, ZeroBytes;
    assert |AUDIO| == 49;
    assert data[..8] == HEAD && data[57] == 0;
    SilentSide(data);
    MsbcLength(data, 58);
  }

  lemma SilentSide(data: seq<byte>)
    requires |data| >= 60 && data[..8] == [0xad, 0x00, 0x00, 0xc5, 0x00, 0x00, 0x00, 0x00]
    ensures ChecksumHolds(data, MSBC)
  {
    SilentChecksum();
    SilentBits(data);
    assert data[1] == data[..8][1] && data[2] == data[..8][2] && data[3] == data[..8][3];
    hide ByteBits, ZeroBytes, Crc8.Checksum, BitsOf, SideOf;
  }

  lemma SilentBits(data: seq<byte>)
    requires |data| >= 60 && data[..8] == [0xad, 0x00, 0x00, 0xc5, 0x00, 0x00, 0x00, 0x00]
    ensures BitsOf(0, 8) + BitsOf(0, 8) + SideOf(data, MSBC) == ByteBits(ZeroBytes(6))
  {
    var z: seq<byte> := [0, 0, 0, 0];
    assert data[4..8] == z by { assert data[4..8] == data[..8][4..]; }
    assert ZeroBytes(6) == [0] + ([0] + z);
    hide ByteBits, BitsOf, ZeroBytes;
    ByteBitsHead(0, [0] + z);
    ByteBitsHead(0, z);
    Associative(BitsOf(0, 8), BitsOf(0, 8), ByteBits(z));
    FourBytes(data);
  }

  /** The thirty-two bits after the fourth byte are the next four bytes. */
  lemma FourBytes(data: seq<byte>)
    requires |data| >= 60
    ensures SideOf(data, MSBC) == ByteBits(data[4..8])
  {
    assert SideWidth(MSBC) == 32;
    hide ByteBits;
    assert data == data[..4] + (data[4..8] + data[8..]);
    ByteBitsAppend(data[..4], data[4..8] + data[8..]);
    ByteBitsAppend(data[4..8], data[8..]);
    Parts(ByteBits(data[..4]), ByteBits(data[4..8]) + ByteBits(data[8..]));
    Parts(ByteBits(data[4..8]), ByteBits(data[8..]));
  }
}
