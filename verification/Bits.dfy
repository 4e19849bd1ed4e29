/** Powers of two and big-endian bit strings: the common ground of the packer,
  * the parser, the quantiser and the checksum. */
module Bits {
  import opened Arith
  import opened Sequences

  type byte = b: int | 0 <= b < 256

  function Pow2(n: nat): (r: nat)
    ensures r >= 1
  {
    if n == 0 then 1 else 2 * Pow2(n - 1)
  }

  lemma {:induction false} Pow2Add(a: nat, b: nat)
    ensures Pow2(a + b) == Pow2(a) * Pow2(b)
  {
    if a > 0 {
      Pow2Add(a - 1, b);
      MulAssociative(2, Pow2(a - 1), Pow2(b));
    }
  }

  lemma {:induction false} Pow2Monotone(a: nat, b: nat)
    requires a <= b
    ensures Pow2(a) <= Pow2(b)
  {
    if a < b {
      Pow2Monotone(a, b - 1);
    }
  }

  /** The powers that name a field width somewhere in the codec. */
  lemma Pow2Constants()
    ensures Pow2(1) == 2 && Pow2(4) == 16 && Pow2(8) == 256
    ensures Pow2(15) == 0x8000 && Pow2(16) == 0x1_0000 && Pow2(17) == 0x2_0000
    ensures Pow2(32) == 0x1_0000_0000
  {
    assert Pow2(4) == 16;
    assert Pow2(8) == 256;
    Pow2Add(8, 8);
    Pow2Add(16, 16);
  }

  /** The `>>` of an unsigned word. */
  function Shr(x: nat, n: nat): nat {
    DivNonNegative(x, Pow2(n));
    x / Pow2(n)
  }

  /** The `<<` of an unsigned word, before it is cut to its width. */
  function Shl(x: nat, n: nat): nat {
    MulNonNegative(x, Pow2(n));
    x * Pow2(n)
  }

  /** The low `n` bits of `v`, most significant first. */
  function BitsOf(v: nat, n: nat): (r: seq<bool>)
    ensures |r| == n
  {
    if n == 0 then [] else BitsOf(v / 2, n - 1) + [v % 2 == 1]
  }

  /** The number a bit string spells, most significant bit first. */
  function ToNat(bits: seq<bool>): nat {
    if bits == [] then 0 else 2 * ToNat(bits[..|bits| - 1]) + (if bits[|bits| - 1] then 1 else 0)
  }

  lemma {:induction false} ToNatBound(bits: seq<bool>)
    ensures ToNat(bits) < Pow2(|bits|)
  {
    if bits != [] {
      ToNatBound(bits[..|bits| - 1]);
    }
  }

  lemma {:induction false} ToNatOfBits(v: nat, n: nat)
    requires v < Pow2(n)
    ensures ToNat(BitsOf(v, n)) == v
  {
    if n > 0 {
      ToNatOfBits(v / 2, n - 1);
      assert BitsOf(v, n)[..n - 1] == BitsOf(v / 2, n - 1);
    }
  }

  lemma {:induction false} BitsOfToNat(bits: seq<bool>)
    ensures BitsOf(ToNat(bits), |bits|) == bits
  {
    if bits != [] {
      BitsOfToNat(bits[..|bits| - 1]);
    }
  }

  lemma {:induction false} ToNatAppend(a: seq<bool>, b: seq<bool>)
    ensures ToNat(a + b) == ToNat(a) * Pow2(|b|) + ToNat(b)
  {
    if b == [] {
      assert a + b == a;
    } else {
      ToNatAppend(a, b[..|b| - 1]);
      AppendStep(a, b);
    }
  }

  lemma AppendStep(a: seq<bool>, b: seq<bool>)
    requires b != [] && ToNat(a + b[..|b| - 1]) == ToNat(a) * Pow2(|b| - 1) + ToNat(b[..|b| - 1])
    ensures ToNat(a + b) == ToNat(a) * Pow2(|b|) + ToNat(b)
  {
    var c := b[..|b| - 1];
    assert Pow2(|b|) == 2 * Pow2(|b| - 1);
    hide Pow2;
    assert (a + b)[..|a + b| - 1] == a + c;
    Doubled(ToNat(a), Pow2(|b| - 1));
  }

  lemma Doubled(x: int, y: int)
    ensures 2 * (x * y) == x * (2 * y)
  {
  }

  /** A byte string as one long bit string. */
  function ByteBits(bytes: seq<byte>): (r: seq<bool>)
    ensures |r| == 8 * |bytes|
  {
    if bytes == [] then [] else ByteBits(bytes[..|bytes| - 1]) + BitsOf(bytes[|bytes| - 1], 8)
  }

  lemma {:induction false} ByteBitsAppend(a: seq<byte>, b: seq<byte>)
    ensures ByteBits(a + b) == ByteBits(a) + ByteBits(b)
  {
    if b == [] {
      assert a + b == a;
    } else {
      ByteBitsAppend(a, b[..|b| - 1]);
      assert (a + b)[..|a + b| - 1] == a + b[..|b| - 1];
    }
  }

  lemma {:induction false} HalfThenDivide(v: nat, d: nat)
    requires d > 0
    ensures (v / 2) / d == v / (2 * d)
  {
    var q, r := (v / 2) / d, (v / 2) % d;
    DivMod(v / 2, d);
    assert v == (2 * d) * q + (2 * r + v % 2) by { assert (2 * d) * q == 2 * (d * q); }
    DivModUnique(v, 2 * d, q, 2 * r + v % 2);
  }

  /** Bit `k` of a field, counted from its most significant end. */
  lemma {:induction false} BitAt(v: nat, n: nat, k: nat)
    requires k < n
    ensures BitsOf(v, n)[k] <==> (v / Pow2(n - 1 - k)) % 2 == 1
  {
    if k < n - 1 {
      BitAt(v / 2, n - 1, k);
      HalfThenDivide(v, Pow2(n - 2 - k));
    }
  }

  /** Only the low bits of a value matter to a field. */
  lemma {:induction false} BitsOfMod(x: nat, m: nat, n: nat)
    requires n <= m
    ensures BitsOf(x % Pow2(m), n) == BitsOf(x, n)
  {
    if n > 0 {
      HalfOfRemainder(x, Pow2(m - 1));
      BitsOfMod(x / 2, m - 1, n - 1);
    }
  }

  lemma {:induction false} HalfOfRemainder(x: nat, d: nat)
    requires d > 0
    ensures (x % (2 * d)) / 2 == (x / 2) % d && (x % (2 * d)) % 2 == x % 2
  {
    HalfThenDivide(x, d);
    DivMod(x, 2 * d);
    DivMod(x / 2, d);
    var q := x / (2 * d);
    assert (2 * d) * q == 2 * (d * q);
  }

  /** A field shifted up to make room for another. */
  lemma {:induction false} BitsOfConcat(c: nat, v: nat, m: nat, n: nat)
    requires v < Pow2(n)
    ensures BitsOf(Shl(c, n) + v, m + n) == BitsOf(c, m) + BitsOf(v, n)
  {
    if n == 0 {
      assert BitsOf(c, m) + [] == BitsOf(c, m);
    } else {
      HalfOfSum(c, Pow2(n - 1), v);
      BitsOfConcat(c, v / 2, m, n - 1);
    }
  }

  lemma HalfOfSum(c: nat, p: nat, v: nat)
    ensures (c * (2 * p) + v) / 2 == c * p + v / 2 && (c * (2 * p) + v) % 2 == v % 2
  {
    Doubled(c, p);
  }

  /** The upper and the lower part of a field. */
  lemma {:induction false} BitsOfSplit(x: nat, m: nat, n: nat)
    ensures BitsOf(x, m + n) == BitsOf(Shr(x, n), m) + BitsOf(x, n)
  {
    if n == 0 {
      assert BitsOf(x, m) + [] == BitsOf(x, m);
      assert Shr(x, 0) == x;
    } else {
      BitsOfSplit(x / 2, m, n - 1);
      ShrStep(x, n);
    }
  }

  lemma {:induction false} ShrStep(x: nat, n: nat)
    requires n > 0
    ensures Shr(x, n) == Shr(x / 2, n - 1)
  {
    HalfThenDivide(x, Pow2(n - 1));
  }

  lemma {:induction false} BitsOfZero(n: nat)
    ensures BitsOf(0, n) == Zeros(n)
  {
    if n > 0 {
      BitsOfZero(n - 1);
    }
  }

  function Zeros(n: nat): seq<bool> { seq(n, _ => false) }

  lemma ByteBitsOne(x: byte)
    ensures ByteBits([x]) == BitsOf(x, 8)
  {
    assert [x][..0] == [];
  }

  lemma ByteBitsHead(x: byte, rest: seq<byte>)
    ensures ByteBits([x] + rest) == BitsOf(x, 8) + ByteBits(rest)
  {
    ByteBitsAppend([x], rest);
    ByteBitsOne(x);
  }

  /** Equal bits, equal bytes. */
  lemma {:induction false} ByteBitsInjective(a: seq<byte>, b: seq<byte>)
    requires ByteBits(a) == ByteBits(b)
    ensures a == b
  {
    hide *;
    if a != [] {
      var n := |a| - 1;
      LastByteOf(a);
      LastByteOf(b);
      ByteBitsInjective(a[..n], b[..n]);
      SameByte(a[n], b[n]);
      SameEnd(a, b);
    }
  }

  lemma SameEnd(a: seq<byte>, b: seq<byte>)
    requires |a| == |b| > 0 && a[..|a| - 1] == b[..|a| - 1] && a[|a| - 1] == b[|a| - 1]
    ensures a == b
  {
    assert a == a[..|a| - 1] + [a[|a| - 1]] && b == b[..|a| - 1] + [b[|a| - 1]];
  }

  lemma SameByte(x: byte, y: byte)
    requires BitsOf(x, 8) == BitsOf(y, 8)
    ensures x == y
  {
    Pow2Constants();
    hide BitsOf, ToNat;
    ToNatOfBits(x, 8);
    ToNatOfBits(y, 8);
  }

  lemma LastByteOf(a: seq<byte>)
    requires a != []
    ensures var n := |a| - 1; ByteBits(a)[..8 * n] == ByteBits(a[..n]) && ByteBits(a)[8 * n..] == BitsOf(a[n], 8)
  {
    Parts(ByteBits(a[..|a| - 1]), BitsOf(a[|a| - 1], 8));
  }

  /** A bit string as bytes, the last one filled up with zero bits. */
  function ToBytes(bits: seq<bool>): (r: seq<byte>)
    ensures |r| == (|bits| + 7) / 8
    decreases |bits|
  {
    if bits == [] then [] else
      var head := if |bits| >= 8 then bits[..8] else bits + Zeros(8 - |bits|);
      ToNatBound(head);
      Pow2Constants();
      [ToNat(head)] + ToBytes(if |bits| >= 8 then bits[8..] else [])
  }

  lemma {:induction false} ByteBitsOfToBytes(bits: seq<bool>)
    ensures ByteBits(ToBytes(bits)) == bits + Zeros(8 * ((|bits| + 7) / 8) - |bits|)
    decreases |bits|
  {
    if bits != [] {
      var head := if |bits| >= 8 then bits[..8] else bits + Zeros(8 - |bits|);
      var rest := if |bits| >= 8 then bits[8..] else [];
      ByteBitsOfToBytes(rest);
      var (first, tail) := (ToBytes(bits)[0], ToBytes(rest));
      BitsOfToNat(head);
      assert ToBytes(bits) == [first] + tail && BitsOf(first, 8) == head;
      hide *;
      ByteBitsHead(first, tail);
      Halves(bits, |bits| - |rest|);
      Associative(bits[..|bits| - |rest|], rest, Zeros(8 * |tail| - |rest|));
    }
  }
}
