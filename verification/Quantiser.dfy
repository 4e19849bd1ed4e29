/** Sample quantisation in the packer and reconstruction in the parser
  * (A2DP section 12.6.4), in the encoder's fixed-point format: a subband sample
  * carries 16 fractional bits more than the decoded one. */
module Quantiser {
  import opened Arith
  import opened Bits

  /** Largest scale factor, and so the largest exponent of a subband. */
  const MAX_SCALE := 15

  ghost predicate Scale(sf: nat) { sf <= MAX_SCALE }

  /** Number of quantiser steps with `b` bits. */
  function Steps(b: nat): nat { Pow2(b) - 1 }

  /** Samples the scale factor was chosen for. */
  ghost predicate InScale(s: int, sf: nat) {
    -0x1_0000 * Pow2(sf) <= s < 0x1_0000 * Pow2(sf)
  }

  /** The packer's multiplier: the steps pre-shifted so that the product's upper 32 bits are the code. */
  function Levels(sf: nat, b: nat): nat
    requires Scale(sf)
  {
    Steps(b) * Pow2(MAX_SCALE - sf)
  }

  function Delta(sf: nat): nat { Pow2(sf + 16) }

  function Quantise(s: int, sf: nat, b: nat): int
    requires Scale(sf)
  {
    (Levels(sf, b) * (Delta(sf) + s)) / 0x1_0000_0000
  }

  function Dequantise(c: nat, sf: nat, b: nat): int {
    if Steps(b) > 0 then ((2 * c + 1) * Pow2(sf)) / Steps(b) - Pow2(sf) else 0
  }

  lemma DeltaIs(sf: nat)
    ensures Delta(sf) == 0x1_0000 * Pow2(sf)
  {
    Pow2Constants();
    Pow2Add(sf, 16);
  }

  /** None of the packer's fixed-width intermediates overflows: the multiplier
    * and the shifted sample fit 32 bits, their product 64. */
  lemma {:induction false} PackerFitsWords(s: int, sf: nat, b: nat)
    requires Scale(sf) && InScale(s, sf) && b <= 16
    ensures 0 <= Levels(sf, b) <= 0x7FFF_8000
    ensures 0 <= Delta(sf) + s < 0x1_0000_0000
    ensures 0 <= Levels(sf, b) * (Delta(sf) + s) < 0x1_0000_0000_0000_0000
  {
    DeltaIs(sf);
    PowerBound(sf, 15, 0x8000);
    PowerBound(15 - sf, 15, 0x8000);
    PowerBound(b, 16, 0x1_0000);
    MulBound(Steps(b), 0xFFFF, Pow2(15 - sf), 0x8000);
    MulBound(Levels(sf, b), 0x7FFF_8000, Delta(sf) + s, 0xFFFF_FFFF);
  }

  /** Nor does the parser's numerator, read as an unsigned word, for any code it can read. */
  lemma {:induction false} ParserFitsWords(sf: nat, b: nat, c: nat)
    requires Scale(sf) && b <= 16 && c < Pow2(b)
    ensures (2 * c + 1) * Pow2(sf) < 0x1_0000_0000
  {
    PowerBound(sf, 15, 0x8000);
    PowerBound(b, 16, 0x1_0000);
    MulBound(2 * c + 1, 0x1_FFFF, Pow2(sf), 0x8000);
  }

  lemma PowerBound(n: nat, m: nat, p: nat)
    requires n <= m && ((m == 15 && p == 0x8000) || (m == 16 && p == 0x1_0000))
    ensures 1 <= Pow2(n) <= p
  {
    Pow2Constants();
    Pow2Monotone(n, m);
  }

  /** `x` (a sample shifted to be non-negative) lies in step `c` of `l` steps for scale `g`. */
  ghost predicate InStep(x: int, c: int, l: int, g: int) {
    c * (0x2_0000 * g) <= l * x < (c + 1) * (0x2_0000 * g)
  }

  /** The code is the step the shifted sample falls into. */
  lemma {:induction false} CodeInStep(s: int, sf: nat, b: nat)
    requires Scale(sf)
    ensures InStep(Delta(sf) + s, Quantise(s, sf, b), Steps(b), Pow2(sf))
  {
    ScaleProduct(sf);
    QuantiseIs(s, sf, b);
    hide *;
    ShiftedQuotient(Steps(b), Pow2(MAX_SCALE - sf), Pow2(sf), Delta(sf) + s, Quantise(s, sf, b));
  }

  ghost predicate ScaledTo32(g: int, h: int) { h > 0 && (0x2_0000 * g) * h == 0x1_0000_0000 }

  ghost predicate IsQuotient(c: int, l: int, h: int, x: int) { c == ((l * h) * x) / 0x1_0000_0000 }

  lemma {:induction false} ScaleProduct(sf: nat)
    requires Scale(sf)
    ensures ScaledTo32(Pow2(sf), Pow2(MAX_SCALE - sf))
  {
    Pow2Constants();
    Pow2Add(sf, MAX_SCALE - sf);
    MulAssociative(0x2_0000, Pow2(sf), Pow2(MAX_SCALE - sf));
  }

  lemma QuantiseIs(s: int, sf: nat, b: nat)
    requires Scale(sf)
    ensures IsQuotient(Quantise(s, sf, b), Steps(b), Pow2(MAX_SCALE - sf), Delta(sf) + s)
  {
  }

  /** Scaling numerator and divisor alike leaves the quotient's bracket. */
  lemma ShiftedQuotient(l: int, h: int, g: int, x: int, c: int)
    requires ScaledTo32(g, h) && IsQuotient(c, l, h, x)
    ensures InStep(x, c, l, g)
  {
    var w := 0x2_0000 * g;
    assert (l * h) * x == (l * x) * h;
    MulAssociative(c, w, h);
    MulAssociative(c + 1, w, h);
    MulCancel(c * w, l * x, h);
    MulCancelStrict(l * x, (c + 1) * w, h);
  }

  /** A sample within its scale factor gets one of the codes 0 .. 2^b - 2. */
  lemma CodeInRange(s: int, sf: nat, b: nat)
    requires Scale(sf) && InScale(s, sf) && b >= 1
    ensures 0 <= Quantise(s, sf, b) < Steps(b) == Pow2(b) - 1
  {
    assert Steps(b) > 0;
    assert 0 <= Delta(sf) + s < 0x2_0000 * Pow2(sf) by { DeltaIs(sf); }
    CodeInStep(s, sf, b);
    hide *;
    StepInRange(Delta(sf) + s, Quantise(s, sf, b), Steps(b), Pow2(sf));
  }

  lemma {:induction false} StepInRange(x: int, c: int, l: int, g: int)
    requires l > 0 && 0 <= x < 0x2_0000 * g && InStep(x, c, l, g)
    ensures 0 <= c < l
  {
    var w := 0x2_0000 * g;
    MulNonNegative(l, x);
    MulStrict(x, w, l);
    MulCancelStrict(0, c + 1, w);
    MulCancelStrict(c, l, w);
  }

  function Abs(x: int): nat { if x < 0 then -x else x }

  /** Quantiser error: half a step of the quantiser plus one unit of the
    * decoder's truncating division (both sides are scaled by the number of steps). */
  lemma {:induction false} QuantiserError(s: int, sf: nat, b: nat)
    requires Scale(sf) && InScale(s, sf) && b >= 1
    ensures Quantise(s, sf, b) >= 0
    ensures (Pow2(b) - 1) * Abs(0x1_0000 * Dequantise(Quantise(s, sf, b), sf, b) - s)
         <= 0x1_0000 * Pow2(sf) + 0x1_0000 * (Pow2(b) - 1)
  {
    hide *;
    CodeInRange(s, sf, b);
    DecodedError(s, sf, b);
    AbsFromBounds(Steps(b), Pow2(sf), 0x1_0000 * Dequantise(Quantise(s, sf, b), sf, b) - s);
  }

  lemma {:induction false} DecodedError(s: int, sf: nat, b: nat)
    requires Scale(sf) && b >= 1 && Quantise(s, sf, b) >= 0
    ensures ErrorWithin(0x1_0000 * Dequantise(Quantise(s, sf, b), sf, b) - s, Steps(b), Pow2(sf))
  {
    hide *;
    var c, g := Quantise(s, sf, b), Pow2(sf);
    var x, q := Delta(sf) + s, Dequantise(c, sf, b) + g;
    CodeInStep(s, sf, b);
    DeltaIs(sf);
    DequantiseIs(c, sf, b);
    MiddleError(c, Steps(b), g, x, q);
    assert 0x1_0000 * q - x == 0x1_0000 * Dequantise(c, sf, b) - s;
  }

  ghost predicate IsMidpoint(q: int, c: int, l: int, g: int) { l > 0 && q == ((2 * c + 1) * g) / l }

  ghost predicate ErrorWithin(e: int, l: int, g: int) {
    -0x1_0000 * g - 0x1_0000 * l <= l * e <= 0x1_0000 * g
  }

  lemma DequantiseIs(c: nat, sf: nat, b: nat)
    requires b >= 1
    ensures IsMidpoint(Dequantise(c, sf, b) + Pow2(sf), c, Steps(b), Pow2(sf))
  {
  }

  /** The middle of step `c`, rounded down, against any point of the step. */
  lemma MiddleError(c: nat, l: int, g: int, x: int, q: int)
    requires InStep(x, c, l, g) && IsMidpoint(q, c, l, g)
    ensures ErrorWithin(0x1_0000 * q - x, l, g)
  {
    DivMod((2 * c + 1) * g, l);
    var lq, lx, cg := l * q, l * x, c * g;
    assert (2 * c + 1) * g == 2 * cg + g;
    assert c * (0x2_0000 * g) == 0x2_0000 * cg;
    assert (c + 1) * (0x2_0000 * g) == 0x2_0000 * cg + 0x2_0000 * g;
    assert l * (0x1_0000 * q - x) == 0x1_0000 * lq - lx;
  }

  lemma AbsFromBounds(l: int, g: int, e: int)
    requires l >= 0 && g >= 0 && ErrorWithin(e, l, g)
    ensures l * Abs(e) <= 0x1_0000 * g + 0x1_0000 * l
  {
  }

  // ----- encoding a decoded sample again -----

  function Requantise(c: nat, sf: nat, b: nat): int
    requires Scale(sf)
  {
    Quantise(0x1_0000 * Dequantise(c, sf, b), sf, b)
  }

  /** A decoded sample is always one the packer accepts with the same scale factor. */
  lemma {:induction false} DecodedInScale(c: nat, sf: nat, b: nat)
    requires c < Steps(b)
    ensures InScale(0x1_0000 * Dequantise(c, sf, b), sf)
  {
    DequantiseIs(c, sf, b);
    MidpointInScale(Dequantise(c, sf, b) + Pow2(sf), c, Steps(b), Pow2(sf));
  }

  lemma {:induction false} MidpointInScale(q: int, c: nat, l: int, g: int)
    requires c < l && g > 0 && IsMidpoint(q, c, l, g)
    ensures 0 <= q < 2 * g
  {
    DivMod((2 * c + 1) * g, l);
    MulNonNegative(2 * c + 1, g);
    MulStrict(2 * c + 1, 2 * l, g);
    assert (2 * l) * g == (2 * g) * l;
    MulCancelStrict(q, 2 * g, l);
    MulCancelStrict(-1, q, l);
  }

  /** What the decoder's division drops for code `c`. */
  function Dropped(c: nat, sf: nat, b: nat): nat
    requires b >= 1
  {
    ((2 * c + 1) * Pow2(sf)) % Steps(b)
  }

  /** Code by code: it survives re-encoding exactly when the remainder the
    * decoder's division drops is at most the scale. */
  lemma {:induction false} CodeStableIff(c: nat, sf: nat, b: nat)
    requires Scale(sf) && b >= 1 && c < Steps(b)
    ensures Requantise(c, sf, b) == c <==> Dropped(c, sf, b) <= Pow2(sf)
  {
    hide *;
    var g, d := Pow2(sf), Dequantise(c, sf, b);
    CodeInStep(0x1_0000 * d, sf, b);
    DequantiseIs(c, sf, b);
    DeltaIs(sf);
    assert Delta(sf) + 0x1_0000 * d == 0x1_0000 * (d + g);
    Unfolded(c, sf, b);
    MidpointStep(Requantise(c, sf, b), c, Steps(b), g, d + g);
  }

  lemma Unfolded(c: nat, sf: nat, b: nat)
    requires Scale(sf) && b >= 1
    ensures Steps(b) > 0 && Dropped(c, sf, b) == Remainder(c, Steps(b), Pow2(sf))
    ensures Requantise(c, sf, b) == Quantise(0x1_0000 * Dequantise(c, sf, b), sf, b)
  {
  }

  function Remainder(c: int, l: int, g: int): int
    requires l > 0
  {
    ((2 * c + 1) * g) % l
  }

  /** `k` is the step of the rounded-down middle of step `c`. */
  lemma {:induction false} MidpointStep(k: int, c: int, l: int, g: int, q: int)
    requires g > 0 && IsMidpoint(q, c, l, g) && InStep(0x1_0000 * q, k, l, g)
    ensures k == c <==> Remainder(c, l, g) <= g
  {
    DivMod((2 * c + 1) * g, l);
    var r := Remainder(c, l, g);
    var lq, kg, cg := l * q, k * g, c * g;
    assert l * (0x1_0000 * q) == 0x1_0000 * lq;
    assert k * (0x2_0000 * g) == 0x2_0000 * kg;
    assert (k + 1) * (0x2_0000 * g) == 0x2_0000 * kg + 0x2_0000 * g;
    assert (2 * c + 1) * g == 2 * cg + g;
    assert 2 * kg <= lq < 2 * kg + 2 * g && lq == 2 * cg + g - r;
    if r <= g {
      assert (c + 1) * g == cg + g && (k + 1) * g == kg + g;
      MulCancelStrict(k, c + 1, g);
      MulCancelStrict(c, k + 1, g);
    }
  }

  /** A code that re-encoding moves whenever the width exceeds the scale factor
    * (apart from the two smallest cases). */
  function FragileCode(sf: nat, b: nat): nat
    requires b > sf && b >= 2
  {
    Pow2Monotone(2, b);
    if sf == 0 then Steps(b) - 1 else
      Pow2Monotone(b - sf, b - 1);
      (Steps(b) - Pow2(b - sf) - 1) / 2
  }

  lemma FragileRemainder(sf: nat, b: nat)
    requires Scale(sf) && b > sf && b >= 2
    ensures FragileCode(sf, b) < Steps(b)
    ensures Dropped(FragileCode(sf, b), sf, b) == Steps(b) - 1
  {
    hide *;
    var c, l, g := FragileCode(sf, b), Steps(b), Pow2(sf);
    FragileIs(sf, b);
    Unfolded(c, sf, b);
    if sf == 0 {
      FragileUnscaled(c, l, g);
    } else {
      Pow2Add(b - sf, sf);
      FragileProduct(c, l + 1, Pow2(b - sf), g);
    }
  }

  lemma FragileIs(sf: nat, b: nat)
    requires b > sf && b >= 2
    ensures var c, p, m := FragileCode(sf, b), Pow2(b), Pow2(b - sf);
      && c < Steps(b) == p - 1
      && (sf == 0 ==> p > 2 && c == p - 2 && Pow2(sf) == 1)
      && (sf > 0 ==> p >= 2 && c == (p - m - 2) / 2 && p % 2 == 0 && m % 2 == 0)
  {
    Pow2Monotone(2, b);
  }

  lemma FragileUnscaled(c: int, l: int, g: int)
    requires l > 1 && g == 1 && c == l - 1
    ensures Remainder(c, l, g) == l - 1
  {
    DivModUnique(2 * l - 1, l, 1, l - 1);
  }

  lemma {:induction false} FragileProduct(c: int, p: int, m: int, g: int)
    requires p >= 2 && p == m * g && c == (p - m - 2) / 2 && p % 2 == 0 && m % 2 == 0
    ensures Remainder(c, p - 1, g) == p - 2
  {
    assert 2 * c + 1 == p - 1 - m;
    var pg := p * g;
    assert (p - 1 - m) * g == pg - g - p;
    assert (p - 1) * (g - 2) == pg - g - 2 * p + 2;
    DivModUnique((2 * c + 1) * g, p - 1, g - 2, p - 2);
  }

  /** Encoding is idempotent on decoded samples, for all codes at once, exactly
    * when the scale factor is at least the number of bits - or one less, for the
    * two smallest scale factors. */
  lemma {:induction false} AllCodesStableIff(sf: nat, b: nat)
    requires Scale(sf) && b >= 1
    ensures (forall c: nat :: c < Steps(b) ==> Requantise(c, sf, b) == c)
      <==> (b <= sf || (b == sf + 1 && sf <= 1))
  {
    if b <= sf || (b == sf + 1 && sf <= 1) {
      assert Steps(b) <= Pow2(sf) + 1 by {
        if b <= sf { Pow2Monotone(b, sf); } else { assert Pow2(1) == 2 && Pow2(2) == 4; }
      }
      forall c: nat | c < Steps(b) ensures Requantise(c, sf, b) == c {
        CodeStableIff(c, sf, b);
        DroppedBelow(c, sf, b);
      }
    } else {
      var c := FragileCode(sf, b);
      FragileRemainder(sf, b);
      CodeStableIff(c, sf, b);
      assert Steps(b) > Pow2(sf) + 1 by {
        Pow2Monotone(sf + 1, b);
        if sf <= 1 { Pow2Monotone(sf + 2, b); } else { Pow2Monotone(2, sf); }
      }
      assert Requantise(c, sf, b) != c;
    }
  }

  lemma DroppedBelow(c: nat, sf: nat, b: nat)
    requires b >= 1
    ensures Dropped(c, sf, b) < Steps(b)
  {
  }
}
