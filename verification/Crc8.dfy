/** The frame checksum (A2DP section 12.4): CRC-8 with generator
  * x^8 + x^4 + x^3 + x^2 + 1 and initial value 0x0F, computed a byte at a time
  * from a table and bit by bit for the last, partial byte. */
module Crc8 {
  import opened Sequences
  import opened Bits

  const INITIAL: bv8 := 0x0f

  // ----- the bit-serial checksum -----

  predicate Top(r: bv8) { r & 0x80 != 0 }

  function Up(r: bv8): bv8 { (r & 0x7f) << 1 }

  function Generator(add: bool): bv8 { if add then 0x1d else 0 }

  /** Addition of bit polynomials: the `^` of two bytes. */
  function Add(a: bv8, b: bv8): bv8 { a ^ b }

  /** One message bit: shift left, and add the generator if the bit shifted out differs from it. */
  function Step(r: bv8, bit: bool): bv8 { Add(Up(r), Generator(Top(r) != bit)) }

  function Run(r: bv8, bits: seq<bool>): bv8 {
    if bits == [] then r else Step(Run(r, bits[..|bits| - 1]), bits[|bits| - 1])
  }

  /** The checksum of a bit string. */
  function Checksum(bits: seq<bool>): byte { Run(INITIAL, bits) as int }

  lemma {:induction false} RunAppend(r: bv8, a: seq<bool>, b: seq<bool>)
    ensures Run(r, a + b) == Run(Run(r, a), b)
  {
    if b == [] {
      assert a + b == a;
    } else {
      RunAppend(r, a, b[..|b| - 1]);
      assert (a + b)[..|a + b| - 1] == a + b[..|b| - 1];
    }
  }

  // ----- bytes as registers -----

  /** The bits of a register, most significant first. */
  function List(d: bv8): (s: seq<bool>)
    ensures |s| == 8
  {
    [d & 0x80 != 0, d & 0x40 != 0, d & 0x20 != 0, d & 0x10 != 0,
     d & 0x08 != 0, d & 0x04 != 0, d & 0x02 != 0, d & 0x01 != 0]
  }

  function Bit(b: bool): int { if b then 1 else 0 }

  lemma ToNatFour(a: bool, b: bool, c: bool, d: bool)
    ensures ToNat([a, b, c, d]) == 8 * Bit(a) + 4 * Bit(b) + 2 * Bit(c) + Bit(d)
  {
    assert [a][..0] == [] && ToNat([a]) == Bit(a);
    assert [a, b][..1] == [a] && ToNat([a, b]) == 2 * Bit(a) + Bit(b);
    assert [a, b, c][..2] == [a, b] && ToNat([a, b, c]) == 4 * Bit(a) + 2 * Bit(b) + Bit(c);
    assert [a, b, c, d][..3] == [a, b, c];
  }

  lemma ToNatEight(a: bool, b: bool, c: bool, d: bool, e: bool, f: bool, g: bool, h: bool)
    ensures ToNat([a, b, c, d, e, f, g, h]) == 128 * Bit(a) + 64 * Bit(b) + 32 * Bit(c) + 16 * Bit(d)
                                             + 8 * Bit(e) + 4 * Bit(f) + 2 * Bit(g) + Bit(h)
  {
    Pow2Constants();
    ToNatFour(a, b, c, d);
    ToNatFour(e, f, g, h);
    hide Bit, ToNat, Pow2;
    ToNatAppend([a, b, c, d], [e, f, g, h]);
    assert [a, b, c, d] + [e, f, g, h] == [a, b, c, d, e, f, g, h];
  }

  lemma RegisterSum(d: bv8)
    ensures d as int == 128 * Bit(d & 0x80 != 0) + 64 * Bit(d & 0x40 != 0)
                      + 32 * Bit(d & 0x20 != 0) + 16 * Bit(d & 0x10 != 0)
                      + 8 * Bit(d & 0x08 != 0) + 4 * Bit(d & 0x04 != 0) + 2 * Bit(d & 0x02 != 0) + Bit(d & 0x01 != 0)
  {
  }

  lemma ListOf(d: bv8)
    ensures List(d) == [d & 0x80 != 0, d & 0x40 != 0, d & 0x20 != 0, d & 0x10 != 0,
                        d & 0x08 != 0, d & 0x04 != 0, d & 0x02 != 0, d & 0x01 != 0]
  {
  }

  lemma ListValue(d: bv8)
    ensures ToNat(List(d)) == d as int
  {
    hide *;
    RegisterSum(d);
    ListOf(d);
    ToNatEight(d & 0x80 != 0, d & 0x40 != 0, d & 0x20 != 0, d & 0x10 != 0,
               d & 0x08 != 0, d & 0x04 != 0, d & 0x02 != 0, d & 0x01 != 0);
  }

  /** Counting up to `x` in a register. */
  ghost function Count(x: nat): bv8
    requires x < 256
  {
    if x == 0 then 0 else Count(x - 1) + 1
  }

  lemma {:induction false} CountValue(x: nat)
    requires x < 256
    ensures Count(x) as int == x
  {
    if x > 0 {
      CountValue(x - 1);
    }
  }

  lemma StoreLoad(d: bv8)
    ensures (d as int) as bv8 == d
  {
  }

  /** Loading a byte into a register keeps its value. */
  lemma LoadByte(x: byte)
    ensures (x as bv8) as int == x
  {
    hide *;
    CountValue(x);
    StoreLoad(Count(x));
  }

  /** A byte and the register it is loaded into have the same bits. */
  lemma {:induction false} ByteBitList(x: byte)
    ensures BitsOf(x, 8) == List(x as bv8)
  {
    hide *;
    LoadByte(x);
    ListValue(x as bv8);
    BitsOfToNat(List(x as bv8));
  }

  // ----- the table -----

  function CrcTable(x: bv8): bv8 {
    assert x >> 3 < 32;
    CrcTableRow((x >> 3) as int)[(x & 7) as int]
  }

  /** The table, in rows of eight. */
  function CrcTableRow(r: nat): (row: seq<bv8>)
    requires r < 32
    ensures |row| == 8
  {
    if r < 8 then TableRows0(r) else if r < 16 then TableRows1(r) else if r < 24 then TableRows2(r) else TableRows3(r)
  }

  function TableRows0(r: nat): (row: seq<bv8>)
    requires 0 <= r < 8
    ensures |row| == 8
  {
    match r
    case 0 => [0x00, 0x1D, 0x3A, 0x27, 0x74, 0x69, 0x4E, 0x53]
    case 1 => [0xE8, 0xF5, 0xD2, 0xCF, 0x9C, 0x81, 0xA6, 0xBB]
    case 2 => [0xCD, 0xD0, 0xF7, 0xEA, 0xB9, 0xA4, 0x83, 0x9E]
    case 3 => [0x25, 0x38, 0x1F, 0x02, 0x51, 0x4C, 0x6B, 0x76]
    case 4 => [0x87, 0x9A, 0xBD, 0xA0, 0xF3, 0xEE, 0xC9, 0xD4]
    case 5 => [0x6F, 0x72, 0x55, 0x48, 0x1B, 0x06, 0x21, 0x3C]
    case 6 => [0x4A, 0x57, 0x70, 0x6D, 0x3E, 0x23, 0x04, 0x19]
    case _ => [0xA2, 0xBF, 0x98, 0x85, 0xD6, 0xCB, 0xEC, 0xF1]
  }

  function TableRows1(r: nat): (row: seq<bv8>)
    requires 8 <= r < 16
    ensures |row| == 8
  {
    match r
    case 8 => [0x13, 0x0E, 0x29, 0x34, 0x67, 0x7A, 0x5D, 0x40]
    case 9 => [0xFB, 0xE6, 0xC1, 0xDC, 0x8F, 0x92, 0xB5, 0xA8]
    case 10 => [0xDE, 0xC3, 0xE4, 0xF9, 0xAA, 0xB7, 0x90, 0x8D]
    case 11 => [0x36, 0x2B, 0x0C, 0x11, 0x42, 0x5F, 0x78, 0x65]
    case 12 => [0x94, 0x89, 0xAE, 0xB3, 0xE0, 0xFD, 0xDA, 0xC7]
    case 13 => [0x7C, 0x61, 0x46, 0x5B, 0x08, 0x15, 0x32, 0x2F]
    case 14 => [0x59, 0x44, 0x63, 0x7E, 0x2D, 0x30, 0x17, 0x0A]
    case _ => [0xB1, 0xAC, 0x8B, 0x96, 0xC5, 0xD8, 0xFF, 0xE2]
  }

  function TableRows2(r: nat): (row: seq<bv8>)
    requires 16 <= r < 24
    ensures |row| == 8
  {
    match r
    case 16 => [0x26, 0x3B, 0x1C, 0x01, 0x52, 0x4F, 0x68, 0x75]
    case 17 => [0xCE, 0xD3, 0xF4, 0xE9, 0xBA, 0xA7, 0x80, 0x9D]
    case 18 => [0xEB, 0xF6, 0xD1, 0xCC, 0x9F, 0x82, 0xA5, 0xB8]
    case 19 => [0x03, 0x1E, 0x39, 0x24, 0x77, 0x6A, 0x4D, 0x50]
    case 20 => [0xA1, 0xBC, 0x9B, 0x86, 0xD5, 0xC8, 0xEF, 0xF2]
    case 21 => [0x49, 0x54, 0x73, 0x6E, 0x3D, 0x20, 0x07, 0x1A]
    case 22 => [0x6C, 0x71, 0x56, 0x4B, 0x18, 0x05, 0x22, 0x3F]
    case _ => [0x84, 0x99, 0xBE, 0xA3, 0xF0, 0xED, 0xCA, 0xD7]
  }

  function TableRows3(r: nat): (row: seq<bv8>)
    requires 24 <= r < 32
    ensures |row| == 8
  {
    match r
    case 24 => [0x35, 0x28, 0x0F, 0x12, 0x41, 0x5C, 0x7B, 0x66]
    case 25 => [0xDD, 0xC0, 0xE7, 0xFA, 0xA9, 0xB4, 0x93, 0x8E]
    case 26 => [0xF8, 0xE5, 0xC2, 0xDF, 0x8C, 0x91, 0xB6, 0xAB]
    case 27 => [0x10, 0x0D, 0x2A, 0x37, 0x64, 0x79, 0x5E, 0x43]
    case 28 => [0xB2, 0xAF, 0x88, 0x95, 0xC6, 0xDB, 0xFC, 0xE1]
    case 29 => [0x5A, 0x47, 0x60, 0x7D, 0x2E, 0x33, 0x14, 0x09]
    case 30 => [0x7F, 0x62, 0x45, 0x58, 0x0B, 0x16, 0x31, 0x2C]
    case _ => [0x97, 0x8A, 0xAD, 0xB0, 0xE3, 0xFE, 0xD9, 0xC4]
  }

  /** One zero bit, in one expression. */
  function Advance(r: bv8): bv8 { ((r & 0x7f) << 1) ^ if r & 0x80 != 0 then 0x1d else 0 }

  lemma AdvanceIsStep(r: bv8)
    ensures Advance(r) == Step(r, false)
  {
  }

  /** The register after eight zero bits. */
  function Advance8(r: bv8): bv8 {
    Advance(Advance(Advance(Advance(Advance(Advance(Advance(Advance(r))))))))
  }

  /** Row `r` of the table holds its eight indices, from `base` on, each advanced by eight steps. */
  predicate RowAdvances(r: nat, base: bv8)
    requires r < 32
  {
    var row := CrcTableRow(r);
    && row[0] == Advance8(base) && row[1] == Advance8(base + 1)
    && row[2] == Advance8(base + 2) && row[3] == Advance8(base + 3)
    && row[4] == Advance8(base + 4) && row[5] == Advance8(base + 5)
    && row[6] == Advance8(base + 6) && row[7] == Advance8(base + 7)
  }

  lemma Rows0()
    ensures RowAdvances(0, 0) && RowAdvances(1, 8) && RowAdvances(2, 16) && RowAdvances(3, 24)
  {
  }

  lemma Rows1()
    ensures RowAdvances(4, 32) && RowAdvances(5, 40) && RowAdvances(6, 48) && RowAdvances(7, 56)
  {
  }

  lemma Rows2()
    ensures RowAdvances(8, 64) && RowAdvances(9, 72) && RowAdvances(10, 80) && RowAdvances(11, 88)
  {
  }

  lemma Rows3()
    ensures RowAdvances(12, 96) && RowAdvances(13, 104) && RowAdvances(14, 112) && RowAdvances(15, 120)
  {
  }

  lemma Rows4()
    ensures RowAdvances(16, 128) && RowAdvances(17, 136) && RowAdvances(18, 144) && RowAdvances(19, 152)
  {
  }

  lemma Rows5()
    ensures RowAdvances(20, 160) && RowAdvances(21, 168) && RowAdvances(22, 176) && RowAdvances(23, 184)
  {
  }

  lemma Rows6()
    ensures RowAdvances(24, 192) && RowAdvances(25, 200) && RowAdvances(26, 208) && RowAdvances(27, 216)
  {
  }

  lemma Rows7()
    ensures RowAdvances(28, 224) && RowAdvances(29, 232) && RowAdvances(30, 240) && RowAdvances(31, 248)
  {
  }

  lemma RowColumn(x: bv8)
    ensures 0 <= (x >> 3) as int < 32 && 0 <= (x & 7) as int < 8
    ensures x as int == 8 * (x >> 3) as int + (x & 7) as int
  {
  }

  /** An index is its row's base plus its column. */
  lemma InRow(x: bv8, base: bv8)
    requires (x >> 3) as int * 8 == base as int
    ensures var c := (x & 7) as int;
      && (c == 0 ==> x == base) && (c == 1 ==> x == base + 1)
      && (c == 2 ==> x == base + 2) && (c == 3 ==> x == base + 3)
      && (c == 4 ==> x == base + 4) && (c == 5 ==> x == base + 5)
      && (c == 6 ==> x == base + 6) && (c == 7 ==> x == base + 7)
  {
    RowColumn(x);
  }

  lemma RowEntry(x: bv8, r: nat, base: bv8)
    requires r < 32 && (x >> 3) as int == r && base as int == 8 * r && RowAdvances(r, base)
    ensures CrcTable(x) == Advance8(x)
  {
    hide Advance8, CrcTableRow;
    RowColumn(x);
    InRow(x, base);
  }

  lemma Entries0(x: bv8, r: nat)
    requires 0 <= r <= 7 && (x >> 3) as int == r
    ensures CrcTable(x) == Advance8(x)
  {
    hide *;
    Rows0();
    Rows1();
    match r
    case 0 => RowEntry(x, 0, 0);
    case 1 => RowEntry(x, 1, 8);
    case 2 => RowEntry(x, 2, 16);
    case 3 => RowEntry(x, 3, 24);
    case 4 => RowEntry(x, 4, 32);
    case 5 => RowEntry(x, 5, 40);
    case 6 => RowEntry(x, 6, 48);
    case _ => RowEntry(x, 7, 56);
  }

  lemma Entries1(x: bv8, r: nat)
    requires 8 <= r <= 15 && (x >> 3) as int == r
    ensures CrcTable(x) == Advance8(x)
  {
    hide *;
    Rows2();
    Rows3();
    match r
    case 8 => RowEntry(x, 8, 64);
    case 9 => RowEntry(x, 9, 72);
    case 10 => RowEntry(x, 10, 80);
    case 11 => RowEntry(x, 11, 88);
    case 12 => RowEntry(x, 12, 96);
    case 13 => RowEntry(x, 13, 104);
    case 14 => RowEntry(x, 14, 112);
    case _ => RowEntry(x, 15, 120);
  }

  lemma Entries2(x: bv8, r: nat)
    requires 16 <= r <= 23 && (x >> 3) as int == r
    ensures CrcTable(x) == Advance8(x)
  {
    hide *;
    Rows4();
    Rows5();
    match r
    case 16 => RowEntry(x, 16, 128);
    case 17 => RowEntry(x, 17, 136);
    case 18 => RowEntry(x, 18, 144);
    case 19 => RowEntry(x, 19, 152);
    case 20 => RowEntry(x, 20, 160);
    case 21 => RowEntry(x, 21, 168);
    case 22 => RowEntry(x, 22, 176);
    case _ => RowEntry(x, 23, 184);
  }

  lemma Entries3(x: bv8, r: nat)
    requires 24 <= r <= 31 && (x >> 3) as int == r
    ensures CrcTable(x) == Advance8(x)
  {
    hide *;
    Rows6();
    Rows7();
    match r
    case 24 => RowEntry(x, 24, 192);
    case 25 => RowEntry(x, 25, 200);
    case 26 => RowEntry(x, 26, 208);
    case 27 => RowEntry(x, 27, 216);
    case 28 => RowEntry(x, 28, 224);
    case 29 => RowEntry(x, 29, 232);
    case 30 => RowEntry(x, 30, 240);
    case _ => RowEntry(x, 31, 248);
  }

  /** Every entry of the table is its index, advanced by eight steps. */
  lemma {:induction false} TableEntry(x: bv8)
    ensures CrcTable(x) == Advance8(x)
  {
    hide *;
    RowColumn(x);
    var r := (x >> 3) as int;
    if r < 8 {
      Entries0(x, r);
    } else if r < 16 {
      Entries1(x, r);
    } else if r < 24 {
      Entries2(x, r);
    } else {
      Entries3(x, r);
    }
  }

  lemma RunFour(r: bv8, a: bool, b: bool, c: bool, d: bool)
    ensures Run(r, [a, b, c, d]) == Step(Step(Step(Step(r, a), b), c), d)
  {
    hide Step;
    assert Run(r, []) == r;
    assert [a][..0] == [] && Run(r, [a]) == Step(r, a);
    assert [a, b][..1] == [a] && Run(r, [a, b]) == Step(Step(r, a), b);
    assert [a, b, c][..2] == [a, b] && Run(r, [a, b, c]) == Step(Step(Step(r, a), b), c);
    assert [a, b, c, d][..3] == [a, b, c];
  }

  lemma UpLinear(r: bv8, s: bv8)
    ensures Up(Add(r, s)) == Add(Up(r), Up(s))
  {
  }

  lemma TopLinear(r: bv8, s: bv8)
    ensures Top(Add(r, s)) == (Top(r) != Top(s))
  {
  }

  lemma GeneratorLinear(a: bool, b: bool)
    ensures Generator(a != b) == Add(Generator(a), Generator(b))
  {
  }

  lemma AddPairs(x: bv8, y: bv8, g: bv8, h: bv8)
    ensures Add(Add(x, y), Add(g, h)) == Add(Add(x, g), Add(y, h))
    ensures Add(Add(x, y), g) == Add(Add(x, g), y)
  {
  }

  /** A pending byte gives up its top bit with every step. */
  lemma {:induction false} Peel(r: bv8, d: bv8)
    ensures Advance(Add(r, d)) == Add(Step(r, Top(d)), Up(d))
  {
    AdvanceIsStep(Add(r, d));
    hide Add, Up, Top, Generator, Advance;
    UpLinear(r, d);
    TopLinear(r, d);
    AddPairs(Up(r), Up(d), Generator(Top(r) != Top(d)), 0);
  }

  /** A byte shifted out to the left, and the top bits it shows on the way. */
  function ShiftedOut(d: bv8, n: nat): bv8 { if n == 0 then d else Up(ShiftedOut(d, n - 1)) }

  function Tops(d: bv8, n: nat): (s: seq<bool>)
    ensures |s| == n
  {
    if n == 0 then [] else Tops(d, n - 1) + [Top(ShiftedOut(d, n - 1))]
  }

  function AdvanceBy(r: bv8, n: nat): bv8 { if n == 0 then r else Advance(AdvanceBy(r, n - 1)) }

  /** Feeding the top bits of a byte one by one is advancing the register with the byte added up front. */
  lemma {:induction false} RunPeels(r: bv8, d: bv8, n: nat)
    ensures AdvanceBy(Add(r, d), n) == Add(Run(r, Tops(d, n)), ShiftedOut(d, n))
  {
    hide Step, Advance, Add, Up, Top;
    if n > 0 {
      RunPeels(r, d, n - 1);
      Peel(Run(r, Tops(d, n - 1)), ShiftedOut(d, n - 1));
      assert Tops(d, n)[..n - 1] == Tops(d, n - 1);
    }
  }

  lemma UpTops(d: bv8)
    ensures var d2 := Up(Up(d)); var d4 := Up(Up(d2)); var d6 := Up(Up(d4));
      && Up(Up(d6)) == 0
      && List(d) == [Top(d), Top(Up(d)), Top(d2), Top(Up(d2)), Top(d4), Top(Up(d4)), Top(d6), Top(Up(d6))]
  {
  }

  lemma ShlBy2(d: bv8, n: nat)
    requires n >= 2
    ensures ShiftedOut(d, n) == Up(Up(ShiftedOut(d, n - 2)))
    ensures Tops(d, n) == Tops(d, n - 2) + [Top(ShiftedOut(d, n - 2)), Top(Up(ShiftedOut(d, n - 2)))]
  {
    hide Top, Up, Advance;
    assert ShiftedOut(d, n - 1) == Up(ShiftedOut(d, n - 2));
    assert Tops(d, n - 1) == Tops(d, n - 2) + [Top(ShiftedOut(d, n - 2))];
  }

  lemma EightBitsOut(d: bv8)
    ensures Tops(d, 8) == List(d) && ShiftedOut(d, 8) == 0
  {
    UpTops(d);
    assert ShiftedOut(d, 0) == d && Tops(d, 0) == [];
    hide *;
    ShlBy2(d, 2);
    ShlBy2(d, 4);
    ShlBy2(d, 6);
    ShlBy2(d, 8);
  }

  lemma AdvanceByEight(r: bv8)
    ensures AdvanceBy(r, 8) == Advance8(r)
  {
    hide Advance;
    assert AdvanceBy(r, 0) == r && AdvanceBy(r, 1) == Advance(r);
    assert AdvanceBy(r, 2) == Advance(Advance(r));
    assert AdvanceBy(r, 4) == Advance(Advance(AdvanceBy(r, 2)));
    assert AdvanceBy(r, 6) == Advance(Advance(AdvanceBy(r, 4)));
  }

  lemma AddZero(r: bv8)
    ensures Add(r, 0) == r
  {
  }

  /** Feeding a byte to the register is looking up their difference. */
  lemma TableLookup(r: bv8, x: byte)
    ensures CrcTable(Add(r, x as bv8)) == Run(r, BitsOf(x, 8))
  {
    hide *;
    ByteBitList(x);
    var d := x as bv8;
    EightBitsOut(d);
    RunPeels(r, d, 8);
    AdvanceByEight(Add(r, d));
    TableEntry(Add(r, d));
    AddZero(Run(r, List(d)));
  }

  /** The checksum as the codec computes it: whole bytes by table, the rest bit by bit. */
  method Crc8(data: seq<byte>, len: nat) returns (r: byte)
    requires len <= 8 * |data|
    ensures r == Checksum(ByteBits(data)[..len])
  {
    var crc := INITIAL;
    for i := 0 to len / 8
      invariant crc == Run(INITIAL, ByteBits(data[..i]))
    {
      TableLookup(crc, data[i]);
      assert data[..i + 1][..i] == data[..i];
      RunAppend(INITIAL, ByteBits(data[..i]), BitsOf(data[i], 8));
      crc := CrcTable(Add(crc, data[i] as bv8));
    }
    hide Run, Step, ByteBits, BitsOf;
    PrefixBits(data, len);
    if len % 8 != 0 {
      ghost var whole := ByteBits(data[..len / 8]);
      RunAppend(INITIAL, whole, BitsOf(data[len / 8], 8)[..len % 8]);
      crc := CrcTail(crc, data[len / 8], len % 8);
    }
    r := crc as int;
  }

  lemma {:induction false} PrefixBits(data: seq<byte>, len: nat)
    requires len <= 8 * |data|
    ensures len % 8 == 0 ==> ByteBits(data)[..len] == ByteBits(data[..len / 8])
    ensures len % 8 != 0 ==>
      ByteBits(data)[..len] == ByteBits(data[..len / 8]) + BitsOf(data[len / 8], 8)[..len % 8]
  {
    hide *;
    var i := len / 8;
    Halves(data, i);
    ByteBitsAppend(data[..i], data[i..]);
    if len % 8 == 0 {
      Parts(ByteBits(data[..i]), ByteBits(data[i..]));
    } else {
      PartialByte(data, i, len % 8);
    }
  }

  lemma {:induction false} PartialByte(data: seq<byte>, i: nat, n: nat)
    requires i < |data| && n < 8
    ensures ByteBits(data)[..8 * i + n] == ByteBits(data[..i]) + BitsOf(data[i], 8)[..n]
  {
    hide *;
    Updated(data, i, data[i]);
    assert data[i := data[i]] == data;
    ByteBitsAppend(data[..i], [data[i]] + data[i + 1..]);
    ByteBitsHead(data[i], data[i + 1..]);
    IntoMiddle(ByteBits(data[..i]), BitsOf(data[i], 8), ByteBits(data[i + 1..]), n);
  }

  /** The first `n` bits of the partial byte. */
  method CrcTail(from: bv8, last: byte, n: nat) returns (crc: bv8)
    requires n < 8
    ensures crc == Run(from, BitsOf(last, 8)[..n])
  {
    crc := from;
    var octet := last as bv8;
    ghost var d := octet;
    hide Step, Top, Up, Add, List;
    for i := 0 to n
      invariant octet == ShiftedOut(d, i) && crc == Run(from, Tops(d, i))
    {
      assert Tops(d, i + 1)[..i] == Tops(d, i);
      crc, octet := TailStep(crc, octet);
    }
    ByteBitList(last);
    EightBitsOut(d);
    TopsPrefix(d, n, 8);
  }

  /** One round of the tail loop. */
  method TailStep(crc: bv8, octet: bv8) returns (crc': bv8, octet': bv8)
    ensures crc' == Step(crc, Top(octet)) && octet' == Up(octet)
  {
    var bit := ((octet ^ crc) & 0x80) >> 7;
    crc' := ((crc & 0x7f) << 1) ^ if bit != 0 then 0x1d else 0;
    octet' := octet << 1;
    assert octet' == Up(octet);
    assert bit != 0 <==> Top(crc) != Top(octet);
  }

  lemma {:induction false} TopsPrefix(d: bv8, n: nat, m: nat)
    requires n <= m
    ensures Tops(d, m)[..n] == Tops(d, n)
  {
    if n < m {
      TopsPrefix(d, n, m - 1);
    }
  }

  // ----- what the checksum detects -----

  lemma StepInjective(r: bv8, s: bv8, bit: bool)
    requires r != s
    ensures Step(r, bit) != Step(s, bit)
  {
  }

  /** Once registers differ, equal bits never bring them together again. */
  lemma {:induction false} RunInjective(r: bv8, s: bv8, bits: seq<bool>)
    requires r != s
    ensures Run(r, bits) != Run(s, bits)
  {
    if bits != [] {
      RunInjective(r, s, bits[..|bits| - 1]);
      StepInjective(Run(r, bits[..|bits| - 1]), Run(s, bits[..|bits| - 1]), bits[|bits| - 1]);
    }
  }

  function Low(n: nat): bv8
    requires n <= 8
  {
    if n == 0 then 0 else (Low(n - 1) << 1) | 1
  }

  /** Equality of the `n` low bits. */
  ghost predicate LowAgree(r: bv8, s: bv8, n: nat)
    requires n <= 8
  {
    (r ^ s) & Low(n) == 0
  }

  lemma StepBack(r: bv8, s: bv8, a: bool, b: bool, n: nat)
    requires 0 < n <= 8 && LowAgree(Step(r, a), Step(s, b), n)
    ensures LowAgree(r, s, n - 1) && (r == s ==> a == b)
  {
    var m := Low(n - 1);
    assert m & 0x80 == 0 by { LowBelow(n - 1); }
    BackMasked(r, s, a, b, m);
  }

  lemma LowBelow(n: nat)
    requires n <= 7
    ensures Low(n) & 0x80 == 0 && Low(n) <= 127
  {
    if n == 0 {} else if n == 1 {} else if n == 2 {} else if n == 3 {
    } else if n == 4 {} else if n == 5 {} else if n == 6 {} else {}
  }

  /** Equal results under the shifted mask (with bit 0) mean equal carries, and equal bits under the mask before. */
  lemma BackMasked(r: bv8, s: bv8, a: bool, b: bool, m: bv8)
    requires m & 0x80 == 0 && (Step(r, a) ^ Step(s, b)) & ((m << 1) | 1) == 0
    ensures (r ^ s) & m == 0 && (r == s ==> a == b)
  {
    assert Step(r, a) & 1 == Step(s, b) & 1;
    assert (Top(r) != a) == (Top(s) != b);
    var x, y := (r & 0x7f) << 1, (s & 0x7f) << 1;
    assert (x ^ 0x1d) ^ (y ^ 0x1d) == x ^ y && (x ^ 0) ^ (y ^ 0) == x ^ y;
    assert (x ^ y) & (m << 1) == 0;
  }

  /** Up to eight bits can be told from the register they leave behind. */
  lemma {:induction false} BitsTold(r: bv8, u: seq<bool>, v: seq<bool>)
    requires |u| == |v| <= 8 && LowAgree(Run(r, u), Run(r, v), |u|)
    ensures u == v
  {
    hide Step, LowAgree;
    if u != [] {
      var n := |u| - 1;
      StepBack(Run(r, u[..n]), Run(r, v[..n]), u[n], v[n], |u|);
      BitsTold(r, u[..n], v[..n]);
      assert u == u[..n] + [u[n]] && v == v[..n] + [v[n]];
      assert Run(r, u[..n]) == Run(r, v[..n]);
    }
  }

  ghost predicate DifferOnlyWithin(u: seq<bool>, v: seq<bool>, i: nat, n: nat) {
    |u| == |v| && forall k :: 0 <= k < |u| && !(i <= k < i + n) ==> u[k] == v[k]
  }

  /** Any error confined to eight consecutive bits is detected, in messages of any length. */
  lemma BurstDetected(u: seq<bool>, v: seq<bool>, i: nat)
    requires DifferOnlyWithin(u, v, i, 8) && u != v
    ensures Checksum(u) != Checksum(v)
  {
    var a := if i < |u| then i else |u|;
    var b := if i + 8 < |u| then i + 8 else |u|;
    assert u[..a] == v[..a] && u[b..] == v[b..];
    assert u == u[..a] + (u[a..b] + u[b..]) && v == v[..a] + (v[a..b] + v[b..]);
    RunAppend(INITIAL, u[..a], u[a..b] + u[b..]);
    RunAppend(INITIAL, v[..a], v[a..b] + v[b..]);
    BurstTold(Run(INITIAL, u[..a]), u[a..b], v[a..b], u[b..]);
    RegisterAsByte(Run(INITIAL, u), Run(INITIAL, v));
  }

  lemma RegisterAsByte(r: bv8, s: bv8)
    requires r != s
    ensures r as int != s as int
  {
  }

  lemma BurstTold(r: bv8, x: seq<bool>, y: seq<bool>, rest: seq<bool>)
    requires |x| == |y| <= 8 && x != y
    ensures Run(r, x + rest) != Run(r, y + rest)
  {
    RunAppend(r, x, rest);
    RunAppend(r, y, rest);
    if Run(r, x) == Run(r, y) {
      BitsTold(r, x, y);
    }
    RunInjective(Run(r, x), Run(r, y), rest);
  }

  function XorBits(u: seq<bool>, v: seq<bool>): (w: seq<bool>)
    requires |u| == |v|
    ensures |w| == |u| && forall k :: 0 <= k < |u| ==> w[k] == (u[k] != v[k])
  {
    seq(|u|, k requires 0 <= k < |u| => u[k] != v[k])
  }

  lemma {:induction false} StepLinear(r: bv8, s: bv8, a: bool, b: bool)
    ensures Step(Add(r, s), a != b) == Add(Step(r, a), Step(s, b))
  {
    hide Add, Up, Top, Generator;
    UpLinear(r, s);
    TopLinear(r, s);
    var c, d := Top(r) != a, Top(s) != b;
    GeneratorLinear(c, d);
    AddPairs(Up(r), Up(s), Generator(c), Generator(d));
    assert (Top(Add(r, s)) != (a != b)) == (c != d);
  }

  /** The register is linear in its start and its input. */
  lemma {:induction false} RunLinear(r: bv8, s: bv8, u: seq<bool>, v: seq<bool>)
    requires |u| == |v|
    ensures Run(Add(r, s), XorBits(u, v)) == Add(Run(r, u), Run(s, v))
  {
    hide Step, Add;
    if u != [] {
      var n := |u| - 1;
      RunLinear(r, s, u[..n], v[..n]);
      assert XorBits(u, v)[..n] == XorBits(u[..n], v[..n]);
      StepLinear(Run(r, u[..n]), Run(s, v[..n]), u[n], v[n]);
    }
  }

  /** The generator itself, as nine message bits. */
  const GENERATOR: seq<bool> := [true, false, false, false, true, true, true, false, true]

  /** Eight is the limit: flipping the nine bits of the generator, anywhere, goes unnoticed. */
  lemma GeneratorUndetected(a: seq<bool>, w: seq<bool>, b: seq<bool>)
    requires |w| == 9
    ensures var f := XorBits(w, GENERATOR); f != w && Checksum(a + w + b) == Checksum(a + f + b)
  {
    var f := XorBits(w, GENERATOR);
    assert f[0] != w[0];
    hide Step, Run, Add;
    var r := Run(INITIAL, a);
    RunAppend(INITIAL, a + w, b);
    RunAppend(INITIAL, a, w);
    RunAppend(INITIAL, a + f, b);
    RunAppend(INITIAL, a, f);
    GeneratorVanishes();
    RunLinear(r, 0, w, GENERATOR);
    AddZero(r);
    AddZero(Run(r, w));
  }

  lemma GeneratorVanishes()
    ensures Run(0, GENERATOR) == 0
  {
    var g := GENERATOR;
    RunFour(0, true, false, false, false);
    RunFour(Run(0, g[..4]), true, true, true, false);
    assert g[..8] == [true, false, false, false] + [true, true, true, false];
    assert g[..4] == [true, false, false, false];
    RunAppend(0, g[..4], [true, true, true, false]);
  }
}
