/** Packet loss concealment: the decoder's history buffer, extended in place by
  * copying from itself while frames are lost, and blended back into the decoded
  * signal when they return.
  *
  * Samples are 16-bit integers; the table weights are exact decimals and blends
  * are computed over the reals before being truncated towards zero.
  */
module Concealment {
  import opened Arith

  /** Samples in a frame. */
  const FS := 120
  /** Candidate positions of the pattern match, and the length of its template. */
  const N := 256
  const M := 64
  /** Samples of history kept. */
  const LHIST := N + FS - 1
  /** Samples the decoder needs to reconverge after a loss, and of each cross-fade. */
  const SBCRT := 36
  const OLAL := 16

  /** The sizes, in samples at 16 kHz: a history of 375 for frames of 120, 256 candidates
    * matched over 64, 36 to reconverge and 16 to fade. */
  lemma Sizes()
    ensures FS == 120 && N == 256 && M == 64 && LHIST == 375 && SBCRT == 36 && OLAL == 16
  {
  }

  /** The raised-cosine fade. */
  const RCOS: seq<real> := [
    0.99148655, 0.96623611, 0.92510857, 0.86950446, 0.80131732, 0.72286918, 0.63683150, 0.54613418,
    0.45386582, 0.36316850, 0.27713082, 0.19868268, 0.13049554, 0.07489143, 0.03376389, 0.00851345]

  function Rcos(i: int): real
    requires 0 <= i < OLAL
  {
    RCOS[i]
  }

  /** The fade-out and fade-in weights are complementary. */
  lemma FadeWeights(i: int)
    requires 0 <= i < OLAL
    ensures 0.0 < Rcos(i) < 1.0 && 0.0 < Rcos(OLAL - 1 - i) < 1.0
    ensures Rcos(i) + Rcos(OLAL - 1 - i) == 1.0
  {
    if i == 0 || i == 15 {} else if i == 1 || i == 14 {} else if i == 2 || i == 13 {} else if i == 3 || i == 12 {
    } else if i == 4 || i == 11 {} else if i == 5 || i == 10 {} else if i == 6 || i == 9 {} else {}
  }

  predicate IsSample(x: int) { -32768 <= x <= 32767 }

  ghost predicate AreSamples(s: seq<int>) { forall k :: 0 <= k < |s| ==> IsSample(s[k]) }

  /** A cast to a 16-bit integer truncates towards zero. */
  function Trunc(v: real): int { if v >= 0.0 then v.Floor else -(-v).Floor }

  /** Clamp to the range of a sample, then truncate. */
  function Clamped(v: real): (x: int)
    ensures IsSample(x)
  {
    if v > 32767.0 then 32767 else if v < -32768.0 then -32768 else Trunc(v)
  }

  /** Two signals mixed, one fading in and one fading out. */
  function Mix(x: real, w: real, y: real, u: real): real { x * w + y * u }

  /** A sample scaled by the amplitude match. */
  function Gain(sf: real, x: int): real { sf * x as real }

  /** The blend of the first good frame: faded-out concealment plus faded-in signal. */
  function CrossFade(concealed: int, received: int, i: int): int
    requires 0 <= i < OLAL
  {
    Trunc(Mix(concealed as real, Rcos(i), received as real, Rcos(OLAL - 1 - i)))
  }

  lemma Convex(a: real, b: real, w: real, u: real)
    requires a <= b && 0.0 <= w && 0.0 <= u && w + u == 1.0
    ensures a <= a * w + b * u <= b
    ensures a <= b * u + a * w <= b
  {
    var d := b - a;
    assert a * w + b * u == a + d * u;
    Shrinks(d, u);
  }

  lemma Shrinks(d: real, u: real)
    requires 0.0 <= d && 0.0 <= u <= 1.0
    ensures 0.0 <= d * u <= d
  {
    assert d * (1.0 - u) >= 0.0;
  }

  /** The cross-fade needs no clamping: it lies between the samples it blends. */
  lemma CrossFadeBetween(a: int, b: int, i: int)
    requires 0 <= i < OLAL
    ensures a <= b ==> a <= CrossFade(a, b, i) <= b
    ensures b <= a ==> b <= CrossFade(a, b, i) <= a
    ensures IsSample(a) && IsSample(b) ==> IsSample(CrossFade(a, b, i))
  {
    FadeWeights(i);
    hide Mix, Rcos;
    MixBetween(a, b, Rcos(i), Rcos(OLAL - 1 - i));
  }

  lemma MixBetween(a: int, b: int, w: real, u: real)
    requires 0.0 < w < 1.0 && 0.0 < u < 1.0 && w + u == 1.0
    ensures var m := Mix(a as real, w, b as real, u);
      (a <= b ==> a as real <= m <= b as real) && (b <= a ==> b as real <= m <= a as real)
  {
    if a <= b {
      Convex(a as real, b as real, w, u);
    } else {
      Convex(b as real, a as real, u, w);
    }
  }

  // ----- the direction of the fades -----

  function Distance(x: real, y: real): real { if x < y then y - x else x - y }

  /** The fade-out weight falls from one sample to the next, from almost one to almost nothing. */
  lemma RcosFalls(i: int, j: int)
    requires 0 <= i < j < OLAL
    ensures Rcos(j) < Rcos(i)
    ensures Rcos(0) > 0.99 && Rcos(OLAL - 1) < 0.01
    decreases j - i
  {
    if i + 1 < j {
      RcosFalls(i + 1, j);
    }
    RcosFallsOne(i);
  }

  lemma RcosFallsOne(i: int)
    requires 0 <= i < OLAL - 1
    ensures Rcos(i + 1) < Rcos(i)
  {
    if i <= 1 {} else if i <= 3 {} else if i <= 5 {} else if i <= 7 {} else if i <= 9 {} else if i <= 11 {} else {}
  }

  /** A blend at sample `i` of a fade from `x` to `y`. */
  function Blend(x: real, y: real, i: int): real
    requires 0 <= i < OLAL
  {
    Mix(x, Rcos(i), y, Rcos(OLAL - 1 - i))
  }

  /** It moves from the first signal towards the second, */
  lemma {:induction false} BlendTurns(x: real, y: real, i: int, j: int)
    requires 0 <= i < j < OLAL
    ensures x <= y ==> Blend(x, y, i) <= Blend(x, y, j)
    ensures y <= x ==> Blend(x, y, j) <= Blend(x, y, i)
  {
    var d := y - x;
    BlendFrom(x, y, d, i);
    BlendFrom(x, y, d, j);
    RisesBetween(i, j);
    var (u, v) := (Rcos(OLAL - 1 - i), Rcos(OLAL - 1 - j));
    hide *;
    Ordered(d, u, v);
  }

  lemma BlendFrom(x: real, y: real, d: real, i: int)
    requires 0 <= i < OLAL && d == y - x
    ensures Blend(x, y, i) == x + d * Rcos(OLAL - 1 - i)
  {
    FadeWeights(i);
    hide Rcos;
    FromFirst(x, y, Rcos(i), Rcos(OLAL - 1 - i));
  }

  lemma RisesBetween(i: int, j: int)
    requires 0 <= i < j < OLAL
    ensures Rcos(OLAL - 1 - i) <= Rcos(OLAL - 1 - j)
  {
    RcosFalls(OLAL - 1 - j, OLAL - 1 - i);
  }

  lemma Ordered(d: real, u: real, v: real)
    requires u <= v
    ensures d >= 0.0 ==> d * u <= d * v
    ensures d <= 0.0 ==> d * v <= d * u
  {
    assert d * v == d * u + d * (v - u);
    if d >= 0.0 {
      Grows(d, v - u);
    } else {
      Grows(-d, v - u);
    }
  }

  lemma Grows(d: real, u: real)
    requires 0.0 <= d && 0.0 <= u
    ensures 0.0 <= d * u
  {
  }

  lemma FromFirst(x: real, y: real, w: real, u: real)
    requires w + u == 1.0
    ensures Mix(x, w, y, u) == x + (y - x) * u && Mix(x, w, y, u) == y - (y - x) * w
  {
  }

  /** starting within one per cent of the first and ending within one per cent of the second. */
  lemma {:induction false} BlendEnds(x: real, y: real)
    ensures Distance(Blend(x, y, 0), x) <= 0.01 * Distance(x, y)
    ensures Distance(Blend(x, y, OLAL - 1), y) <= 0.01 * Distance(x, y)
  {
    RcosFalls(0, OLAL - 1);
    FadeWeights(0);
    FadeWeights(OLAL - 1);
    hide Rcos;
    var u := Rcos(OLAL - 1);
    FromFirst(x, y, Rcos(0), u);
    FromFirst(x, y, u, Rcos(0));
    Small(y - x, u);
  }

  lemma Small(d: real, u: real)
    requires 0.0 < u < 0.01
    ensures d >= 0.0 ==> 0.0 <= d * u <= 0.01 * d
    ensures d <= 0.0 ==> 0.01 * d <= d * u <= 0.0
  {
    if d >= 0.0 {
      Grows(d, u);
      Grows(d, 0.01 - u);
    } else {
      Grows(-d, u);
      Grows(-d, 0.01 - u);
    }
  }

  /** Truncation loses less than one, towards zero, and keeps the order; clamping
    * changes only what is no sample, to the bound on its side. */
  lemma {:induction false} TruncAndClamp(v: real, w: real)
    ensures v >= 0.0 ==> Trunc(v) as real <= v < Trunc(v) as real + 1.0
    ensures v <= 0.0 ==> Trunc(v) as real - 1.0 < v <= Trunc(v) as real
    ensures v <= w ==> Trunc(v) <= Trunc(w) && Clamped(v) <= Clamped(w)
    ensures if -32768.0 <= v <= 32767.0 then Clamped(v) == Trunc(v) else Clamped(v) == if v > 0.0 then 32767 else -32768
  {
  }

  /** The first good frame after a loss fades from the concealment to the received signal. */
  lemma {:induction false} CrossFadeTurns(a: int, b: int, i: int, j: int)
    requires 0 <= i < j < OLAL
    ensures a <= b ==> CrossFade(a, b, i) <= CrossFade(a, b, j)
    ensures b <= a ==> CrossFade(a, b, j) <= CrossFade(a, b, i)
  {
    var (v, w) := (Blend(a as real, b as real, i), Blend(a as real, b as real, j));
    assert CrossFade(a, b, i) == Trunc(v) && CrossFade(a, b, j) == Trunc(w);
    hide *;
    BlendTurns(a as real, b as real, i, j);
    TruncAndClamp(v, w);
    TruncAndClamp(w, v);
  }

  lemma {:induction false} CrossFadeEnds(a: int, b: int)
    ensures Distance(CrossFade(a, b, 0) as real, a as real) <= 0.01 * Distance(a as real, b as real) + 1.0
    ensures Distance(CrossFade(a, b, OLAL - 1) as real, b as real) <= 0.01 * Distance(a as real, b as real) + 1.0
  {
    var (v, w) := (Blend(a as real, b as real, 0), Blend(a as real, b as real, OLAL - 1));
    assert CrossFade(a, b, 0) == Trunc(v) && CrossFade(a, b, OLAL - 1) == Trunc(w);
    hide Blend, CrossFade, Trunc;
    BlendEnds(a as real, b as real);
    TruncAndClamp(v, w);
    TruncAndClamp(w, v);
  }

  /** Sample `k` of a stream that was silent before it began. */
  function At(e: seq<int>, k: int): int {
    if 0 <= k < |e| then e[k] else 0
  }

  /** The stream repeats with period `p` on the positions from..to. */
  ghost predicate Periodic(e: seq<int>, p: int, from: int, to: int) {
    forall k :: from <= k < to ==> At(e, k) == At(e, k - p)
  }

  lemma PeriodicJoined(e: seq<int>, p: int, from: int, mid: int, to: int)
    requires Periodic(e, p, from, mid) && Periodic(e, p, mid, to)
    ensures Periodic(e, p, from, to)
  {
  }

  lemma PeriodicExtends(e: seq<int>, out: seq<int>, p: int, from: int)
    requires p > 0 && Periodic(e, p, from, |e|)
    ensures Periodic(e + out, p, from, |e|)
  {
    forall k | from <= k < |e| ensures At(e + out, k) == At(e + out, k - p) {
      assert At(e, k) == At(e, k - p);
    }
  }

  /** However long the stretch, every sample in it is one of the `p` samples in front of it. */
  lemma {:induction false} PeriodicClosedForm(e: seq<int>, p: int, from: int, to: int, k: int)
    requires p > 0 && Periodic(e, p, from, to) && from - p <= k < to
    ensures At(e, k) == At(e, from - p + (k - (from - p)) % p)
    decreases k - (from - p)
  {
    var d := k - (from - p);
    if d >= p {
      PeriodicClosedForm(e, p, from, to, k - p);
      DivMod(d, p);
      DivModUnique(d - p, p, d / p - 1, d % p);
    } else {
      DivModUnique(d, p, 0, d);
    }
  }

  /** What the floating-point correlation returned for one candidate; silence gives 0/0. */
  datatype Correlation = NotANumber | Value(v: real)

  predicate Beats(c: Correlation, than: real) { c.Value? && c.v > than }

  /** The first candidate with the highest correlation, or 0 if none exceeds the start value. */
  ghost predicate BestMatch(cn: seq<Correlation>, best: int) {
    && 0 <= best < |cn|
    && (best == 0 || Beats(cn[best], -999999.0))
    && (forall n :: 0 <= n < |cn| && Beats(cn[n], -999999.0) ==> cn[best].Value? && cn[n].v <= cn[best].v)
    && forall n :: 0 <= n < best && cn[n].Value? ==> cn[n].v < cn[best].v
  }

  /** There is exactly one such candidate. */
  lemma {:induction false} OneBestMatch(cn: seq<Correlation>, a: int, b: int)
    requires BestMatch(cn, a) && BestMatch(cn, b)
    ensures a == b
  {
    if Beats(cn[a], -999999.0) && Beats(cn[b], -999999.0) {
      assert cn[a].v == cn[b].v;
    }
  }

  /** The best of the first `n` candidates. */
  function BestOf(cn: seq<Correlation>, n: nat): (best: nat)
    requires n <= |cn| && cn != []
    ensures best < |cn| && (best == 0 || best < n)
    ensures best == 0 || Beats(cn[best], -999999.0)
    ensures forall k :: 0 <= k < n && Beats(cn[k], -999999.0) ==> cn[best].Value? && cn[k].v <= cn[best].v
    ensures forall k :: 0 <= k < best && cn[k].Value? ==> cn[k].v < cn[best].v
  {
    if n == 0 then 0 else
      var best := BestOf(cn, n - 1);
      if Beats(cn[n - 1], -999999.0) && (Beats(cn[best], -999999.0) && best < n - 1 ==> cn[n - 1].v > cn[best].v)
      then n - 1 else best
  }

  function Best(cn: seq<Correlation>): (best: nat)
    requires |cn| == N
    ensures best < N && BestMatch(cn, best)
  {
    BestOf(cn, N)
  }

  method PatternMatch(cn: seq<Correlation>) returns (bestmatch: nat)
    requires |cn| == N
    ensures bestmatch < N && BestMatch(cn, bestmatch)
  {
    var maxCn := -999999.0;
    bestmatch := 0;
    for n := 0 to N
      invariant bestmatch <= n && bestmatch < N && maxCn >= -999999.0
      invariant if maxCn == -999999.0 then bestmatch == 0 else bestmatch < n && cn[bestmatch] == Value(maxCn)
      invariant forall k :: 0 <= k < n && cn[k].Value? ==> cn[k].v <= maxCn
      invariant forall k :: 0 <= k < bestmatch && cn[k].Value? ==> cn[k].v < maxCn
    {
      if Beats(cn[n], maxCn) {
        bestmatch := n;
        maxCn := cn[n].v;
      }
    }
  }

  function AbsReal(x: int): real { if x < 0 then -x as real else x as real }

  /** Sum of the magnitudes of `n` samples from `from` on. */
  function Magnitude(y: seq<int>, from: nat, n: nat): (r: real)
    requires from + n <= |y|
    ensures r >= 0.0
  {
    if n == 0 then 0.0 else Magnitude(y, from, n - 1) + AbsReal(y[from + n - 1])
  }

  /** Loudness of the last frame relative to the stretch about to replace the lost one, kept within 0.75 .. 1.2. */
  function Amplitude(y: seq<int>, bestmatch: nat): (sf: real)
    requires |y| >= LHIST && bestmatch + FS <= |y|
    ensures 0.75 <= sf <= 1.2
  {
    var ratio := Magnitude(y, LHIST - FS, FS) / (Magnitude(y, bestmatch, FS) + 0.000001);
    if ratio < 0.75 then 0.75 else if ratio > 1.2 then 1.2 else ratio
  }

  method AmplitudeMatch(y: seq<int>, bestmatch: nat) returns (sf: real)
    requires |y| >= LHIST && bestmatch + FS <= |y|
    ensures sf == Amplitude(y, bestmatch)
  {
    var sumx, sumy := 0.0, 0.000001;
    for i := 0 to FS
      invariant sumx == Magnitude(y, LHIST - FS, i)
      invariant sumy == Magnitude(y, bestmatch, i) + 0.000001
    {
      sumx := sumx + AbsReal(y[LHIST - FS + i]);
      sumy := sumy + AbsReal(y[bestmatch + i]);
    }
    sf := sumx / sumy;
    if sf < 0.75 { sf := 0.75; }
    if sf > 1.2 { sf := 1.2; }
  }

  /** How a lost frame is filled: the first of a burst is scaled and blended,
    * the later ones are plain copies. */
  datatype Fill = First(zir: seq<int>, sf: real) | Later {
    ghost predicate Valid() {
      First? ==> |zir| == FS && 0.75 <= sf <= 1.2
    }

    /** Sample `i` of the fill, from the sample `src` one period back. */
    function Sample(src: int, i: nat): (x: int)
      requires First? ==> |zir| == FS
      ensures IsSample(src) ==> IsSample(x)
    {
      if Later? || i >= FS + OLAL then src
      else if i < OLAL then Clamped(Mix(zir[i] as real, Rcos(i), Gain(sf, src), Rcos(OLAL - 1 - i)))
      else if i < FS then Clamped(Gain(sf, src))
      else Clamped(Mix(Gain(sf, src), Rcos(i - FS), src as real, Rcos(OLAL - 1 - i + FS)))
    }
  }

  /** The first frame of a burst fades from the decoder's ringing to the scaled repetition `g`, */
  lemma {:induction false} FillTurns(zir: seq<int>, sf: real, src: int, g: real, i: nat, j: nat)
    requires |zir| == FS && i < j < OLAL && zir[i] == zir[j] && g == sf * src as real
    ensures zir[i] as real <= g ==> First(zir, sf).Sample(src, i) <= First(zir, sf).Sample(src, j)
    ensures g <= zir[i] as real ==> First(zir, sf).Sample(src, j) <= First(zir, sf).Sample(src, i)
  {
    FillIsBlend(zir, sf, src, g, i);
    FillIsBlend(zir, sf, src, g, j);
    hide *;
    ClampedTurns(zir[i] as real, g, i, j);
  }

  /** and behind the frame from that to the repetition unscaled; */
  lemma {:induction false} TailTurns(zir: seq<int>, sf: real, src: int, g: real, i: nat, j: nat)
    requires |zir| == FS && FS <= i < j < FS + OLAL && g == sf * src as real
    ensures g <= src as real ==> First(zir, sf).Sample(src, i) <= First(zir, sf).Sample(src, j)
    ensures src as real <= g ==> First(zir, sf).Sample(src, j) <= First(zir, sf).Sample(src, i)
  {
    FillIsBlend(zir, sf, src, g, i);
    FillIsBlend(zir, sf, src, g, j);
    hide *;
    ClampedTurns(g, src as real, i - FS, j - FS);
  }

  lemma FillIsBlend(zir: seq<int>, sf: real, src: int, g: real, i: nat)
    requires |zir| == FS && g == sf * src as real
    ensures i < OLAL ==> First(zir, sf).Sample(src, i) == Clamped(Blend(zir[i] as real, g, i))
    ensures FS <= i < FS + OLAL ==>
      First(zir, sf).Sample(src, i) == Clamped(Blend(g, src as real, i - FS))
  {
    hide Clamped, Mix, Rcos;
  }

  lemma ClampedTurns(x: real, y: real, i: int, j: int)
    requires 0 <= i < j < OLAL
    ensures x <= y ==> Clamped(Blend(x, y, i)) <= Clamped(Blend(x, y, j))
    ensures y <= x ==> Clamped(Blend(x, y, j)) <= Clamped(Blend(x, y, i))
  {
    hide Blend, Clamped;
    BlendTurns(x, y, i, j);
    TruncAndClamp(Blend(x, y, i), Blend(x, y, j));
    TruncAndClamp(Blend(x, y, j), Blend(x, y, i));
  }

  /** each fade from within one per cent, and truncation, of where it comes from to
    * within the same of where it goes; in between stands the scaled repetition itself,
    * behind them, and in every later frame, the plain one. */
  lemma {:induction false} FillEnds(zir: seq<int>, sf: real, src: int, i: nat)
    requires |zir| == FS && IsSample(zir[0]) && IsSample(src)
    ensures var (f, g, z) := (First(zir, sf), sf * src as real, zir[0] as real);
      && Distance(f.Sample(src, 0) as real, z) <= 0.01 * Distance(z, g) + 1.0
      && Distance(f.Sample(src, FS + OLAL - 1) as real, src as real) <= 0.01 * Distance(g, src as real) + 1.0
      && (-32768.0 <= g <= 32767.0 ==>
            && Distance(f.Sample(src, OLAL - 1) as real, g) <= 0.01 * Distance(zir[OLAL - 1] as real, g) + 1.0
            && Distance(f.Sample(src, FS) as real, g) <= 0.01 * Distance(g, src as real) + 1.0)
      && (OLAL <= i < FS ==>
            if -32768.0 <= g <= 32767.0 then Distance(f.Sample(src, i) as real, g) < 1.0
            else f.Sample(src, i) == if g > 0.0 then 32767 else -32768)
      && (i >= FS + OLAL ==> f.Sample(src, i) == src) && Later.Sample(src, i) == src
  {
    var (g, z) := (sf * src as real, zir[0] as real);
    FillIsBlend(zir, sf, src, g, 0);
    FillIsBlend(zir, sf, src, g, OLAL - 1);
    FillIsBlend(zir, sf, src, g, FS);
    FillIsBlend(zir, sf, src, g, FS + OLAL - 1);
    MiddleIs(zir, sf, src, i);
    TruncAndClamp(g, g);
    hide Blend, Clamped, Trunc, Fill.Sample;
    BlendEnds(z, g);
    BlendEnds(zir[OLAL - 1] as real, g);
    BlendEnds(g, src as real);
    Closer(Blend(z, g, 0), z);
    Closer(Blend(zir[OLAL - 1] as real, g, OLAL - 1), g);
    Closer(Blend(g, src as real, 0), g);
    Closer(Blend(g, src as real, OLAL - 1), src as real);
  }

  lemma MiddleIs(zir: seq<int>, sf: real, src: int, i: nat)
    requires |zir| == FS
    ensures OLAL <= i < FS ==> First(zir, sf).Sample(src, i) == Clamped(sf * src as real)
    ensures i >= FS + OLAL ==> First(zir, sf).Sample(src, i) == src
    ensures Later.Sample(src, i) == src
  {
    hide Clamped, Mix, Rcos;
  }

  /** Clamping and truncating moves a value at most one further from a value in range. */
  lemma Closer(v: real, x: real)
    ensures -32768.0 <= x <= 32767.0 ==> Distance(Clamped(v) as real, x) <= Distance(v, x) + 1.0
  {
    TruncAndClamp(v, v);
    hide Clamped, Trunc;
  }

  /** The history grown by `n` samples, each taken from one period `p` back -
    * soon from what the growth itself appended. */
  function Grow(h: seq<int>, p: int, fill: Fill, n: nat): (g: seq<int>)
    requires 0 < p <= |h| && (fill.First? ==> |fill.zir| == FS)
    ensures |g| == |h| + n && g[..|h|] == h
  {
    if n == 0 then h else
      var g := Grow(h, p, fill, n - 1);
      g + [fill.Sample(g[|g| - p], n - 1)]
  }

  lemma {:induction false} GrowAt(h: seq<int>, p: int, fill: Fill, n: nat, i: nat)
    requires 0 < p <= |h| && (fill.First? ==> |fill.zir| == FS) && i < n
    ensures var g := Grow(h, p, fill, n); g[|h| + i] == fill.Sample(g[|h| + i - p], i)
  {
    if i < n - 1 {
      GrowAt(h, p, fill, n - 1, i);
    }
  }

  lemma {:induction false} GrowSamples(h: seq<int>, p: int, fill: Fill, n: nat)
    requires 0 < p <= |h| && (fill.First? ==> |fill.zir| == FS) && AreSamples(h)
    ensures AreSamples(Grow(h, p, fill, n))
  {
    if n > 0 {
      GrowSamples(h, p, fill, n - 1);
    }
  }

  /** The samples held past the history continue the concealment (from `skip` on). */
  ghost predicate TailRepeats(h: seq<int>, p: int, skip: int) {
    && 0 <= skip && 0 < p <= LHIST && LHIST + SBCRT + OLAL <= |h|
    && forall k :: LHIST + skip <= k < LHIST + SBCRT + OLAL ==> h[k] == h[k - p]
  }

  /** The `LHIST` entries of `h` are the latest of the stream `e`. */
  ghost predicate Agrees(h: seq<int>, e: seq<int>) {
    |h| >= LHIST && forall k :: 0 <= k < LHIST ==> h[k] == At(e, |e| - LHIST + k)
  }

  /** Filling, emitting and shifting keep the agreement and leave the next samples of the concealment behind. */
  lemma FillKeeps(h: seq<int>, e: seq<int>, p: int, fill: Fill, g: seq<int>, s: seq<int>, out: seq<int>)
    requires |h| == LHIST && Agrees(h, e) && AreSamples(h) && AreSamples(e) && 56 <= p <= 311 && fill.Valid()
    requires g == Grow(h, p, fill, FS + SBCRT + OLAL) && out == g[LHIST..LHIST + FS]
    requires |s| == |g| && forall k :: 0 <= k < LHIST + SBCRT + OLAL ==> s[k] == g[k + FS]
    requires forall k :: LHIST + SBCRT + OLAL <= k < |s| ==> s[k] == g[k]
    ensures AreSamples(s) && AreSamples(e + out) && Agrees(s, e + out)
    ensures TailRepeats(s, p, if fill.First? then OLAL else 0)
    ensures forall i :: 0 <= i < FS ==> out[i] == fill.Sample(At(e + out, |e| + i - p), i)
  {
    var n := FS + SBCRT + OLAL;
    GrowSamples(h, p, fill, n);
    forall k | 0 <= k < LHIST + FS ensures g[k] == At(e + out, |e| - LHIST + k) {
      if k < LHIST {
        assert g[k] == g[..LHIST][k] == h[k];
      }
    }
    TailFrom(h, p, fill, g, s);
    hide Grow, Fill.Sample, TailRepeats, Fill.Valid, AreSamples, IsSample;
    forall i | 0 <= i < FS ensures out[i] == fill.Sample(At(e + out, |e| + i - p), i) {
      GrowAt(h, p, fill, n, i);
      assert g[LHIST + i - p] == At(e + out, |e| - LHIST + (LHIST + i - p));
    }
  }

  lemma TailFrom(h: seq<int>, p: int, fill: Fill, g: seq<int>, s: seq<int>)
    requires |h| == LHIST && 56 <= p <= 311 && fill.Valid() && g == Grow(h, p, fill, FS + SBCRT + OLAL)
    requires |s| == |g| && forall k :: 0 <= k < LHIST + SBCRT + OLAL ==> s[k] == g[k + FS]
    ensures TailRepeats(s, p, if fill.First? then OLAL else 0)
  {
    hide Clamped, Mix, Rcos, Gain, Grow;
    forall k | LHIST + (if fill.First? then OLAL else 0) <= k < LHIST + SBCRT + OLAL ensures s[k] == s[k - p] {
      GrowAt(h, p, fill, FS + SBCRT + OLAL, k + FS - LHIST);
    }
  }

  /** The same for a frame that is taken as it is. */
  lemma GoodKeeps(h: seq<int>, e: seq<int>, g: seq<int>, s: seq<int>, out: seq<int>)
    requires |h| == |g| == |s| == LHIST + FS + SBCRT + OLAL && |out| == FS
    requires Agrees(h, e) && AreSamples(h) && AreSamples(out) && AreSamples(e)
    requires forall k :: 0 <= k < FS ==> g[LHIST + k] == out[k]
    requires forall k :: 0 <= k < |g| && !(LHIST <= k < LHIST + FS) ==> g[k] == h[k]
    requires forall k :: 0 <= k < LHIST ==> s[k] == g[k + FS]
    requires forall k :: LHIST <= k < |s| ==> s[k] == g[k]
    ensures AreSamples(s) && AreSamples(e + out) && Agrees(s, e + out)
  {
    forall k | 0 <= k < LHIST + FS ensures g[k] == At(e + out, |e| - LHIST + k) {
      if k >= LHIST {
        assert g[LHIST + (k - LHIST)] == out[k - LHIST];
      }
    }
    forall k | 0 <= k < |s| ensures IsSample(g[k]) {
      if LHIST <= k < LHIST + FS {
        assert g[LHIST + (k - LHIST)] == out[k - LHIST];
      }
    }
  }

  lemma PeriodicEmpty(e: seq<int>, p: int, from: int)
    ensures Periodic(e, p, from, from)
  {
  }

  lemma HistoryOf(h: seq<int>, full: seq<int>, e: seq<int>)
    requires |full| >= LHIST && h == full[..LHIST] && Agrees(full, e) && AreSamples(full)
    ensures Agrees(h, e) && AreSamples(h)
  {
  }

  /** A plain copy from one period back carries the period on. */
  lemma PeriodicStep(e: seq<int>, out: seq<int>, p: int, from: int, fill: Fill)
    requires p > 0 && fill.Later? && Periodic(e, p, from, |e|)
    requires forall i :: 0 <= i < |out| ==> out[i] == fill.Sample(At(e + out, |e| + i - p), i)
    ensures Periodic(e + out, p, from, |e + out|)
  {
    PeriodicExtends(e, out, p, from);
    forall k | |e| <= k < |e + out| ensures At(e + out, k) == At(e + out, k - p) {
      assert out[k - |e|] == fill.Sample(At(e + out, |e| + (k - |e|) - p), k - |e|);
    }
  }

  /** What every frame keeps: the history is what was last emitted, and within a
    * burst of losses the emitted stream and the samples held past the history are periodic. */
  ghost predicate Consistent(h: seq<int>, e: seq<int>, lag: int, nbf: nat, burst: nat) {
    && AreSamples(h) && AreSamples(e) && Agrees(h, e)
    && (nbf > 0 ==>
          && M <= lag < N + M
          && |e| == burst + nbf * FS
          && Periodic(e, LHIST - lag, burst + FS, |e|)
          && TailRepeats(h, LHIST - lag, if nbf == 1 then OLAL else 0))
  }

  /** A lost frame keeps it. */
  lemma BadKeeps(s: seq<int>, e: seq<int>, lag: int, nbf: nat, burst: nat, fill: Fill, s': seq<int>,
          out: seq<int>, lag': int)
    requires Consistent(s, e, lag, nbf, burst) && M <= lag' < N + M && (nbf > 0 ==> lag' == lag)
    requires fill.Valid() && (if nbf == 0 then fill.First? else fill.Later?)
    requires |s| == |s'| == LHIST + FS + SBCRT + OLAL
    requires var g := Grow(s[..LHIST], LHIST - lag', fill, FS + SBCRT + OLAL);
      && out == g[LHIST..LHIST + FS]
      && (forall k :: 0 <= k < LHIST + SBCRT + OLAL ==> s'[k] == g[k + FS])
      && (forall k :: LHIST + SBCRT + OLAL <= k < |s'| ==> s'[k] == g[k])
    ensures Consistent(s', e + out, lag', nbf + 1, if nbf == 0 then |e| else burst)
    ensures forall i :: 0 <= i < FS ==> out[i] == fill.Sample(At(e + out, |e| + i - (LHIST - lag')), i)
  {
    var h, p := s[..LHIST], LHIST - lag';
    HistoryOf(h, s, e);
    hide AreSamples, Agrees, TailRepeats, Periodic, Grow, At, IsSample;
    FillKeeps(h, e, p, fill, Grow(h, p, fill, FS + SBCRT + OLAL), s', out);
    if nbf > 0 {
      PeriodicStep(e, out, p, burst + FS, fill);
    } else {
      PeriodicEmpty(e + out, p, |e| + FS);
    }
  }

  // ----- the concealment of a stream -----

  /** One frame that comes in: received, or lost, with what the decoder makes of the
    * silent frame in its place and the correlations of the history at that moment. */
  datatype Frame = Good(pcm: seq<int>) | Bad(zir: seq<int>, cn: seq<Correlation>) {
    ghost predicate Sized() {
      if Good? then |pcm| == FS else |zir| == FS && |cn| == N
    }
  }

  ghost predicate AllSized(frames: seq<Frame>) { forall k :: 0 <= k < |frames| ==> frames[k].Sized() }

  /** What has come of them: the samples put out, the length of the current burst of
    * losses, the lag last chosen, and within a burst the samples that would come next. */
  datatype Plc = Plc(emitted: seq<int>, nbf: nat, lag: int, tail: seq<int>) {
    ghost predicate Ok() { nbf > 0 ==> M <= lag < N + M && |tail| == SBCRT + OLAL }
  }

  const START := Plc([], 0, 0, [])

  /** The latest samples put out. */
  function History(e: seq<int>): (h: seq<int>)
    ensures |h| == LHIST
  {
    seq(LHIST, k => At(e, |e| - LHIST + k))
  }

  /** The same, followed by the latest frame once more: what the history buffer holds when a burst begins. */
  function Remembered(e: seq<int>): (y: seq<int>)
    ensures |y| == LHIST + FS
  {
    History(e) + LastFrame(e)
  }

  function LastFrame(e: seq<int>): (f: seq<int>)
    ensures |f| == FS
  {
    seq(FS, k => At(e, |e| - FS + k))
  }

  /** A lost frame: the first of a burst chooses the stretch that matches best, and is
    * scaled and blended; the others go on copying. */
  function Lose(s: Plc, zir: seq<int>, cn: seq<Correlation>): (r: Plc)
    requires s.Ok() && |zir| == FS && |cn| == N
    ensures r.Ok() && |r.emitted| == |s.emitted| + FS && s.emitted <= r.emitted
  {
    var lag := if s.nbf == 0 then M + Best(cn) else s.lag;
    var fill := if s.nbf == 0 then First(zir, Amplitude(Remembered(s.emitted), lag)) else Later;
    var g := Grow(History(s.emitted), LHIST - lag, fill, FS + SBCRT + OLAL);
    Plc(s.emitted + g[LHIST..LHIST + FS], s.nbf + 1, lag, g[LHIST + FS..])
  }

  /** The first frame received after a loss. */
  function Rejoined(tail: seq<int>, pcm: seq<int>): (out: seq<int>)
    requires |tail| == SBCRT + OLAL && |pcm| == FS
    ensures |out| == FS
  {
    seq(FS, i requires 0 <= i < FS =>
      if i < SBCRT then tail[i] else if i < SBCRT + OLAL then CrossFade(tail[i], pcm[i], i - SBCRT) else pcm[i])
  }

  /** A received frame. */
  function Take(s: Plc, pcm: seq<int>): (r: Plc)
    requires s.Ok() && |pcm| == FS
    ensures r.Ok() && |r.emitted| == |s.emitted| + FS && s.emitted <= r.emitted
  {
    Plc(s.emitted + if s.nbf == 0 then pcm else Rejoined(s.tail, pcm), 0, s.lag, [])
  }

  function Play(frames: seq<Frame>): (r: Plc)
    requires AllSized(frames)
    ensures r.Ok() && |r.emitted| == FS * |frames|
  {
    if frames == [] then START else
      var (s, f) := (Play(frames[..|frames| - 1]), frames[|frames| - 1]);
      if f.Good? then Take(s, f.pcm) else Lose(s, f.zir, f.cn)
  }

  lemma PlayMore(frames: seq<Frame>, f: Frame)
    requires AllSized(frames) && f.Sized()
    ensures AllSized(frames + [f])
    ensures Play(frames + [f])
      == if f.Good? then Take(Play(frames), f.pcm) else Lose(Play(frames), f.zir, f.cn)
  {
    assert (frames + [f])[..|frames|] == frames;
    hide Take, Lose;
  }

  // ----- what comes out, sample by sample -----

  /** Where the burst of losses began that frame `j` is part of. */
  function BurstStart(frames: seq<Frame>, j: nat): (b: nat)
    requires j < |frames| && frames[j].Bad?
    ensures b <= j && frames[b].Bad? && (b == 0 || frames[b - 1].Good?)
    ensures forall k :: b <= k <= j ==> frames[k].Bad?
  {
    if j == 0 || frames[j - 1].Good? then j else BurstStart(frames, j - 1)
  }

  /** The period of that burst: from its best match on. */
  function BurstPeriod(frames: seq<Frame>, j: nat): (p: nat)
    requires j < |frames| && frames[j].Bad? && AllSized(frames)
    ensures 56 <= p <= 311
  {
    assert frames[BurstStart(frames, j)].Sized();
    LHIST - (M + Best(frames[BurstStart(frames, j)].cn))
  }

  /** What the concealment of lost frame `j` puts at sample `i` counted from that frame's
    * start: the sample one period back, in the first frame of the burst scaled and blended. */
  function Continued(frames: seq<Frame>, e: seq<int>, j: nat, i: nat): int
    requires j < |frames| && frames[j].Bad? && AllSized(frames) && FS * j <= |e|
  {
    var p := BurstPeriod(frames, j);
    var src := At(e, FS * j + i - p);
    assert frames[j].Sized();
    if BurstStart(frames, j) < j then src
    else First(frames[j].zir, Amplitude(Remembered(e[..FS * j]), LHIST - p)).Sample(src, i)
  }

  /** `n` samples of it. */
  function Continuation(frames: seq<Frame>, e: seq<int>, j: nat, from: nat, n: nat): (r: seq<int>)
    requires j < |frames| && frames[j].Bad? && AllSized(frames) && FS * j <= |e|
    ensures |r| == n
  {
    seq(n, i requires 0 <= i < n => Continued(frames, e, j, from + i))
  }

  /** Frame `j` as it should come out of the stream `e`: a lost one is concealed; a received
    * one comes through, behind a loss only once the concealment has faded out. */
  function Expected(frames: seq<Frame>, e: seq<int>, j: nat): (r: seq<int>)
    requires j < |frames| && AllSized(frames) && FS * j <= |e|
    ensures |r| == FS
  {
    assert frames[j].Sized();
    if frames[j].Bad? then Continuation(frames, e, j, 0, FS)
    else if j == 0 || frames[j - 1].Good? then frames[j].pcm
    else Rejoined(Continuation(frames, e, j - 1, FS, SBCRT + OLAL), frames[j].pcm)
  }

  ghost predicate Sounds(frames: seq<Frame>, e: seq<int>, j: nat)
    requires j < |frames| && AllSized(frames)
  {
    FS * j + FS <= |e| && e[FS * j..FS * j + FS] == Expected(frames, e, j)
  }

  /** A lost frame extends the stream by one frame and the tail behind it, period by period. */
  lemma {:induction false} LoseMeans(s: Plc, zir: seq<int>, cn: seq<Correlation>, fill: Fill, i: nat)
    requires s.Ok() && |zir| == FS && |cn| == N && i < FS + SBCRT + OLAL
    requires fill == if s.nbf == 0 then First(zir, Amplitude(Remembered(s.emitted), M + Best(cn))) else Later
    ensures var (t, n) := (Lose(s, zir, cn), |s.emitted|);
      (t.emitted[n..] + t.tail)[i] == fill.Sample(At(t.emitted, n + i - (LHIST - t.lag)), i)
  {
    var t, n := Lose(s, zir, cn), |s.emitted|;
    var p := LHIST - t.lag;
    var g := Grow(History(s.emitted), p, fill, FS + SBCRT + OLAL);
    assert t.emitted == s.emitted + g[LHIST..LHIST + FS] && t.tail == g[LHIST + FS..];
    hide Grow, Fill.Sample, Amplitude, Best, Remembered, Lose, History, At;
    GrowAt(History(s.emitted), p, fill, FS + SBCRT + OLAL, i);
    assert t.emitted[n..] + t.tail == g[LHIST..];
    assert (t.emitted[n..] + t.tail)[i] == g[LHIST + i];
    GrownFrom(s.emitted, g, t.emitted, LHIST + i - p);
  }

  lemma GrownFrom(e: seq<int>, g: seq<int>, z: seq<int>, k: int)
    requires |g| >= LHIST + FS && g[..LHIST] == History(e) && z == e + g[LHIST..LHIST + FS] && 0 <= k < LHIST + FS
    ensures g[k] == At(z, |e| - LHIST + k)
  {
    var m := |e| - LHIST + k;
    if k < LHIST {
      assert g[k] == g[..LHIST][k] == At(e, m);
      assert 0 <= m ==> z[m] == e[m];
    } else {
      assert z[m] == g[LHIST..LHIST + FS][k - LHIST] == g[k];
    }
  }

  /** The state within a burst: its lag, and what would come next. */
  ghost predicate Tracks(frames: seq<Frame>, s: Plc)
    requires AllSized(frames)
  {
    var n := |frames| - 1;
    && |s.emitted| == FS * |frames| && (s.nbf > 0 <==> frames != [] && frames[n].Bad?)
    && (s.nbf > 0 ==>
          && s.lag == LHIST - BurstPeriod(frames, n)
          && s.tail == Continuation(frames, s.emitted, n, FS, SBCRT + OLAL))
  }

  lemma SameBurst(frames: seq<Frame>, f: Frame, j: nat)
    requires AllSized(frames) && f.Sized() && j < |frames| && frames[j].Bad?
    ensures AllSized(frames + [f])
    ensures BurstStart(frames + [f], j) == BurstStart(frames, j)
    ensures BurstPeriod(frames + [f], j) == BurstPeriod(frames, j)
  {
    SameStart(frames, f, j);
  }

  lemma {:induction false} SameStart(frames: seq<Frame>, f: Frame, j: nat)
    requires j < |frames| && frames[j].Bad?
    ensures BurstStart(frames + [f], j) == BurstStart(frames, j)
  {
    if j > 0 && frames[j - 1].Bad? {
      SameStart(frames, f, j - 1);
    }
  }

  /** What is continued depends on the stream before it alone. */
  lemma {:induction false} SameContinued(frames: seq<Frame>, f: Frame, e: seq<int>, more: seq<int>, j: nat, i: nat)
    requires AllSized(frames) && f.Sized() && j < |frames| && frames[j].Bad?
    requires FS * j <= |e| && FS * j + i < |e| + 56
    ensures AllSized(frames + [f]) && Continued(frames + [f], e + more, j, i) == Continued(frames, e, j, i)
  {
    SameBurst(frames, f, j);
    hide Amplitude, Remembered, Best, Fill.Sample, BurstStart, BurstPeriod;
    assert (e + more)[..FS * j] == e[..FS * j];
    var k := FS * j + i - BurstPeriod(frames, j);
    assert k < |e|;
    assert At(e + more, k) == At(e, k);
  }

  lemma {:induction false} SameContinuation(frames: seq<Frame>, f: Frame, e: seq<int>, more: seq<int>, j: nat,
                                            from: nat, n: nat)
    requires AllSized(frames) && f.Sized() && j < |frames| && frames[j].Bad?
    requires FS * j <= |e| && FS * j + from + n <= |e| + 56
    ensures AllSized(frames + [f])
    ensures Continuation(frames + [f], e + more, j, from, n) == Continuation(frames, e, j, from, n)
  {
    PlayMoreSized(frames, f);
    var (a, b) := (Continuation(frames + [f], e + more, j, from, n), Continuation(frames, e, j, from, n));
    hide Continued, AllSized;
    forall i | 0 <= i < n ensures a[i] == b[i] {
      SameContinued(frames, f, e, more, j, from + i);
    }
  }

  lemma PlayMoreSized(frames: seq<Frame>, f: Frame)
    requires AllSized(frames) && f.Sized()
    ensures AllSized(frames + [f]) && (frames + [f])[..|frames|] == frames
  {
  }

  /** Frames that were put out stay as they are. */
  lemma {:induction false} SoundsStill(frames: seq<Frame>, f: Frame, e: seq<int>, more: seq<int>, j: nat)
    requires AllSized(frames) && f.Sized() && j < |frames| && Sounds(frames, e, j)
    ensures AllSized(frames + [f]) && Sounds(frames + [f], e + more, j)
  {
    PlayMoreSized(frames, f);
    hide Continuation, Rejoined, Frame.Sized, AllSized;
    assert (e + more)[FS * j..FS * j + FS] == e[FS * j..FS * j + FS];
    if frames[j].Bad? {
      SameContinuation(frames, f, e, more, j, 0, FS);
    } else if j > 0 && frames[j - 1].Bad? {
      SameContinuation(frames, f, e, more, j - 1, FS, SBCRT + OLAL);
    }
  }

  /** One more lost frame. */
  lemma {:induction false} LostSounds(frames: seq<Frame>, f: Frame, s: Plc)
    requires AllSized(frames) && f.Bad? && f.Sized() && s.Ok() && Tracks(frames, s)
    ensures var (all, t) := (frames + [f], Lose(s, f.zir, f.cn));
      AllSized(all) && Tracks(all, t) && Sounds(all, t.emitted, |frames|)
  {
    PlayMoreSized(frames, f);
    LostPeriod(frames, f, s);
    LostOut(frames, f, s);
    hide Lose, BurstPeriod, Continuation, AllSized, Tracks;
    LostTracks(frames + [f], Lose(s, f.zir, f.cn));
  }

  lemma {:induction false} LostOut(frames: seq<Frame>, f: Frame, s: Plc)
    requires AllSized(frames) && f.Bad? && f.Sized() && s.Ok() && Tracks(frames, s)
    ensures var (all, t, n) := (frames + [f], Lose(s, f.zir, f.cn), |frames|);
      && AllSized(all) && |t.emitted| == FS * n + FS && t.nbf > 0
      && t.emitted[FS * n..FS * n + FS] == Continuation(all, t.emitted, n, 0, FS)
      && t.tail == Continuation(all, t.emitted, n, FS, SBCRT + OLAL)
  {
    var (all, t, n) := (frames + [f], Lose(s, f.zir, f.cn), |frames|);
    PlayMoreSized(frames, f);
    TracksSize(frames, s);
    assert t.nbf > 0 && |t.tail| == SBCRT + OLAL;
    hide Lose, Continued, AllSized, Tracks, Frame.Sized;
    var out := t.emitted[FS * n..] + t.tail;
    forall i | 0 <= i < FS + SBCRT + OLAL ensures out[i] == Continued(all, t.emitted, n, i) {
      LostContinued(frames, f, s, i);
    }
    assert t.emitted[FS * n..FS * n + FS] == out[..FS] == Continuation(all, t.emitted, n, 0, FS);
    assert t.tail == out[FS..] == Continuation(all, t.emitted, n, FS, SBCRT + OLAL);
  }

  lemma TracksSize(frames: seq<Frame>, s: Plc)
    requires AllSized(frames) && Tracks(frames, s)
    ensures |s.emitted| == FS * |frames|
  {
  }

  lemma LostTracks(frames: seq<Frame>, s: Plc)
    requires AllSized(frames) && frames != [] && frames[|frames| - 1].Bad? && |s.emitted| == FS * |frames| && s.nbf > 0
    requires s.lag == LHIST - BurstPeriod(frames, |frames| - 1)
    requires s.tail == Continuation(frames, s.emitted, |frames| - 1, FS, SBCRT + OLAL)
    ensures Tracks(frames, s)
  {
  }

  lemma {:induction false} LostContinued(frames: seq<Frame>, f: Frame, s: Plc, i: nat)
    requires AllSized(frames) && f.Bad? && f.Sized() && s.Ok() && Tracks(frames, s) && i < FS + SBCRT + OLAL
    ensures var (all, t, n) := (frames + [f], Lose(s, f.zir, f.cn), |frames|);
      && AllSized(all) && |t.emitted| == FS * n + FS && |t.tail| == SBCRT + OLAL
      && (t.emitted[FS * n..] + t.tail)[i] == Continued(all, t.emitted, n, i)
  {
    hide Lose, Amplitude, Remembered, Best, At, BurstPeriod, BurstStart, Fill.Sample, AllSized, Tracks, Continued;
    hide Plc.Ok;
    PlayMoreSized(frames, f);
    LostPeriod(frames, f, s);
    TracksSize(frames, s);
    var fill := if s.nbf == 0 then First(f.zir, Amplitude(Remembered(s.emitted), M + Best(f.cn))) else Later;
    LostFill(s, f, fill);
    LoseMeans(s, f.zir, f.cn, fill, i);
    ContinuedIs(frames + [f], Lose(s, f.zir, f.cn).emitted, |frames|, i, fill);
  }

  lemma LostFill(s: Plc, f: Frame, fill: Fill)
    requires s.Ok() && f.Bad? && f.Sized()
    requires fill == if s.nbf == 0 then First(f.zir, Amplitude(Remembered(s.emitted), M + Best(f.cn))) else Later
    ensures var t := Lose(s, f.zir, f.cn);
      && |t.emitted| == |s.emitted| + FS && t.emitted[..|s.emitted|] == s.emitted && |t.tail| == SBCRT + OLAL
      && fill == if s.nbf == 0 then First(f.zir, Amplitude(Remembered(t.emitted[..|s.emitted|]), t.lag)) else Later
    ensures |f.zir| == FS && |f.cn| == N
  {
    hide Grow, Amplitude, Remembered, Best;
  }

  lemma ContinuedIs(frames: seq<Frame>, e: seq<int>, j: nat, i: nat, fill: Fill)
    requires j < |frames| && frames[j].Bad? && AllSized(frames) && FS * j <= |e| && |frames[j].zir| == FS
    requires var p := BurstPeriod(frames, j);
      fill == if BurstStart(frames, j) == j then First(frames[j].zir, Amplitude(Remembered(e[..FS * j]), LHIST - p))
              else Later
    ensures Continued(frames, e, j, i) == fill.Sample(At(e, FS * j + i - BurstPeriod(frames, j)), i)
  {
    hide Amplitude, Remembered, Best, At, BurstPeriod, BurstStart, AllSized;
  }

  /** It has the period of its burst. */
  lemma {:induction false} LostPeriod(frames: seq<Frame>, f: Frame, s: Plc)
    requires AllSized(frames) && f.Bad? && f.Sized() && s.Ok() && Tracks(frames, s)
    ensures var (all, n) := (frames + [f], |frames|);
      && AllSized(all) && Lose(s, f.zir, f.cn).lag == LHIST - BurstPeriod(all, n)
      && (BurstStart(all, n) == n <==> s.nbf == 0)
  {
    PlayMoreSized(frames, f);
    if s.nbf > 0 {
      SameBurst(frames, f, |frames| - 1);
    }
    hide Grow, Amplitude, Remembered, Best, Continuation;
  }

  /** One more received frame. */
  lemma {:induction false} TakenSounds(frames: seq<Frame>, f: Frame, s: Plc)
    requires AllSized(frames) && f.Good? && f.Sized() && s.Ok() && Tracks(frames, s)
    ensures var (all, t) := (frames + [f], Take(s, f.pcm));
      AllSized(all) && Tracks(all, t) && Sounds(all, t.emitted, |frames|)
  {
    var (all, t, n) := (frames + [f], Take(s, f.pcm), |frames|);
    PlayMoreSized(frames, f);
    var more := t.emitted[FS * n..];
    assert t.emitted == s.emitted + more && more == t.emitted[FS * n..FS * n + FS];
    if s.nbf > 0 {
      SameContinuation(frames, f, s.emitted, more, n - 1, FS, SBCRT + OLAL);
    }
    hide Rejoined, Continuation, AllSized, Frame.Sized, BurstPeriod;
  }

  /** One more frame, whatever it is. */
  lemma {:induction false} NextSounds(frames: seq<Frame>, f: Frame, s: Plc, t: Plc)
    requires AllSized(frames) && f.Sized() && s.Ok() && Tracks(frames, s)
    requires t == if f.Good? then Take(s, f.pcm) else Lose(s, f.zir, f.cn)
    ensures AllSized(frames + [f]) && Tracks(frames + [f], t) && Sounds(frames + [f], t.emitted, |frames|)
    ensures s.emitted <= t.emitted
  {
    hide AllSized, Tracks, Sounds, Plc.Ok, Take, Lose;
    if f.Bad? {
      LostSounds(frames, f, s);
    } else {
      TakenSounds(frames, f, s);
    }
  }

  ghost predicate SoundsUpTo(frames: seq<Frame>, e: seq<int>, n: nat)
    requires n <= |frames| && AllSized(frames)
  {
    forall j :: 0 <= j < n ==> Sounds(frames, e, j)
  }

  lemma {:induction false} AllStill(frames: seq<Frame>, f: Frame, e: seq<int>, z: seq<int>)
    requires AllSized(frames) && f.Sized() && SoundsUpTo(frames, e, |frames|) && e <= z
    ensures AllSized(frames + [f]) && SoundsUpTo(frames + [f], z, |frames|)
  {
    PlayMoreSized(frames, f);
    hide AllSized, Sounds, Frame.Sized;
    var more := z[|e|..];
    assert z == e + more;
    forall j | 0 <= j < |frames| ensures Sounds(frames + [f], z, j) {
      SoundsStill(frames, f, e, more, j);
    }
  }

  /** Every frame of every stream sounds as it should. */
  lemma {:induction false} AllSound(frames: seq<Frame>)
    requires AllSized(frames)
    ensures Tracks(frames, Play(frames)) && SoundsUpTo(frames, Play(frames).emitted, |frames|)
  {
    if frames != [] {
      var n := |frames| - 1;
      var (before, f) := (frames[..n], frames[n]);
      assert before + [f] == frames && f.Sized();
      AllSound(before);
      PlayMore(before, f);
      hide *;
      NextSounds(before, f, Play(before), Play(frames));
      AllStill(before, f, Play(before).emitted, Play(frames).emitted);
      SoundsAll(frames, Play(frames).emitted);
    }
  }

  lemma SoundsAll(frames: seq<Frame>, e: seq<int>)
    requires AllSized(frames) && frames != []
    requires SoundsUpTo(frames, e, |frames| - 1) && Sounds(frames, e, |frames| - 1)
    ensures SoundsUpTo(frames, e, |frames|)
  {
    hide Sounds;
  }

  /** The buffer holds what a stream remembers: within a burst the samples that come next,
    * otherwise the latest frame once more. */
  ghost predicate Remembers(h: seq<int>, s: Plc) {
    && |h| == LHIST + FS + SBCRT + OLAL && Agrees(h, s.emitted)
    && if s.nbf > 0 then |s.tail| == SBCRT + OLAL && h[LHIST..LHIST + SBCRT + OLAL] == s.tail
       else s.tail == [] && (s.emitted != [] ==> h[LHIST..LHIST + FS] == LastFrame(s.emitted))
  }

  lemma {:induction false} MagnitudeSame(y: seq<int>, z: seq<int>, from: nat, n: nat)
    requires from + n <= |y| && from + n <= |z| && forall k :: from <= k < from + n ==> y[k] == z[k]
    ensures Magnitude(y, from, n) == Magnitude(z, from, n)
  {
    if n > 0 {
      MagnitudeSame(y, z, from, n - 1);
    }
  }

  /** The loudness of a stretch answers to each of its samples with that sample's magnitude. */
  lemma {:induction false} MagnitudeResponds(y: seq<int>, from: nat, n: nat, k: nat, x: int)
    requires from + n <= |y| && k < |y|
    ensures Magnitude(y[k := x], from, n) == Magnitude(y, from, n)
      + if from <= k < from + n then ((if x < 0 then -x else x) - (if y[k] < 0 then -y[k] else y[k])) as real else 0.0
    ensures (forall i :: from <= i < from + n ==> y[i] == 0) ==> Magnitude(y, from, n) == 0.0
  {
    if n > 0 {
      MagnitudeResponds(y, from, n - 1, k, x);
    }
  }

  lemma {:induction false} MagnitudeNone(y: seq<int>, from: nat, n: nat)
    requires from + n <= |y| && forall k :: from <= k < from + n ==> y[k] == 0
    ensures Magnitude(y, from, n) == 0.0
  {
    if n > 0 {
      MagnitudeNone(y, from, n - 1);
    }
  }

  /** So the amplitude is matched to the stream alone; at its very start, whatever the
    * buffer still holds from an earlier one, nothing was heard and the scale is the least. */
  lemma {:induction false} AmplitudeOfStream(h: seq<int>, s: Plc, lag: nat)
    requires Remembers(h, s) && s.nbf == 0 && M <= lag < N + M
    ensures Amplitude(h, lag) == Amplitude(Remembered(s.emitted), lag)
  {
    var y := Remembered(s.emitted);
    assert forall k :: 0 <= k < LHIST ==> h[k] == y[k];
    MagnitudeSame(h, y, LHIST - FS, FS);
    if s.emitted == [] {
      MagnitudeNone(h, LHIST - FS, FS);
      Nothing(Magnitude(h, lag, FS));
      Nothing(Magnitude(y, lag, FS));
    } else {
      forall k | lag <= k < lag + FS ensures h[k] == y[k] {
        if k >= LHIST {
          assert h[LHIST..LHIST + FS][k - LHIST] == LastFrame(s.emitted)[k - LHIST];
        }
      }
      MagnitudeSame(h, y, lag, FS);
    }
  }

  lemma Nothing(m: real)
    requires m >= 0.0
    ensures 0.0 / (m + 0.000001) == 0.0
  {
  }

  /** The extension of the buffer is that of the stream. */
  lemma {:induction false} LoseIs(h: seq<int>, s: Plc, zir: seq<int>, cn: seq<Correlation>, fill: Fill, lag: int,
                                  h': seq<int>, out: seq<int>)
    requires s.Ok() && Remembers(h, s) && |zir| == FS && |cn| == N && M <= lag < N + M && |h'| == |h|
    requires if s.nbf == 0 then fill == First(zir, Amplitude(h, lag)) && BestMatch(cn, lag - M)
             else fill == Later && lag == s.lag
    requires var g := Grow(h[..LHIST], LHIST - lag, fill, FS + SBCRT + OLAL);
      && out == g[LHIST..LHIST + FS]
      && (forall k :: 0 <= k < LHIST + SBCRT + OLAL ==> h'[k] == g[k + FS])
    requires Agrees(h', s.emitted + out)
    ensures var t := Plc(s.emitted + out, s.nbf + 1, lag, h'[LHIST..LHIST + SBCRT + OLAL]);
      t == Lose(s, zir, cn) && Remembers(h', t)
  {
    assert h[..LHIST] == History(s.emitted);
    if s.nbf == 0 {
      OneBestMatch(cn, lag - M, Best(cn));
      AmplitudeOfStream(h, s, lag);
    }
    hide Grow, Amplitude, Remembered, History, Agrees, Best, BestMatch;
    var g := Grow(History(s.emitted), LHIST - lag, fill, FS + SBCRT + OLAL);
    assert h'[LHIST..LHIST + SBCRT + OLAL] == g[LHIST + FS..];
  }

  lemma LastFrameIs(e: seq<int>, out: seq<int>)
    requires |out| == FS
    ensures LastFrame(e + out) == out
  {
    var z := e + out;
    forall k | 0 <= k < FS ensures LastFrame(z)[k] == out[k] {
      assert LastFrame(z)[k] == At(z, |e| + k) == z[|e| + k];
    }
  }

  lemma ConsistentAgrees(h: seq<int>, e: seq<int>, lag: int, nbf: nat, burst: nat)
    requires Consistent(h, e, lag, nbf, burst)
    ensures Agrees(h, e) && AreSamples(h) && AreSamples(e)
  {
  }

  lemma {:induction false} TakeIs(h: seq<int>, s: Plc, pcm: seq<int>, h': seq<int>, out: seq<int>)
    requires s.Ok() && Remembers(h, s) && |pcm| == FS == |out| && |h'| == |h|
    requires s.nbf == 0 ==> out == pcm
    requires s.nbf > 0 ==>
      && (forall i :: 0 <= i < SBCRT ==> out[i] == h[LHIST + i])
      && (forall i :: SBCRT <= i < SBCRT + OLAL ==> out[i] == CrossFade(h[LHIST + i], pcm[i], i - SBCRT))
      && (forall i :: SBCRT + OLAL <= i < FS ==> out[i] == pcm[i])
    requires Agrees(h', s.emitted + out) && forall k :: 0 <= k < FS ==> h'[LHIST + k] == out[k]
    ensures var t := Plc(s.emitted + out, 0, s.lag, []); t == Take(s, pcm) && Remembers(h', t)
  {
    hide CrossFade, Agrees;
    LastFrameIs(s.emitted, out);
    assert h'[LHIST..LHIST + FS] == out;
    if s.nbf > 0 {
      assert forall i :: 0 <= i < SBCRT + OLAL ==> s.tail[i] == h[LHIST..LHIST + SBCRT + OLAL][i] == h[LHIST + i];
      assert out == Rejoined(s.tail, pcm);
    }
  }

  class PlcState {
    const hist: array<int>
    var bestlag: int
    var nbf: nat
    /** Every sample handed out so far, and how many there were when the current burst of losses began. */
    ghost var emitted: seq<int>
    ghost var burst: nat
    /** The frames of this session, and the samples that would come next within a burst. */
    ghost var frames: seq<Frame>
    ghost var tail: seq<int>

    /** What they have come to. */
    ghost function Now(): Plc
      reads this
    {
      Plc(emitted, nbf, bestlag, tail)
    }

    /** The period of the concealment. */
    ghost function Period(): int
      reads this
    {
      LHIST - bestlag
    }

    ghost predicate Shape() {
      hist.Length == LHIST + FS + SBCRT + OLAL
    }

    ghost predicate Valid()
      reads this, hist
    {
      && Shape() && Consistent(hist[..], emitted, bestlag, nbf, burst)
      && AllSized(frames) && Now() == Play(frames) && Remembers(hist[..], Now())
    }

    /** Static storage: all zero. */
    constructor ()
      ensures Valid() && nbf == 0 && emitted == [] && frames == [] && fresh(hist)
    {
      nbf := 0;
      bestlag := 0;
      emitted := [];
      frames := [];
      tail := [];
      hist := new int[LHIST + FS + SBCRT + OLAL](_ => 0);
    }

    /** A new session: the history is silent again; what lies behind it is left as it is. */
    method InitPLC()
      requires Valid()
      modifies this, hist
      ensures Valid() && nbf == 0 && emitted == [] && frames == []
    {
      ghost var before := hist[..];
      nbf := 0;
      bestlag := 0;
      for i := 0 to LHIST + SBCRT
        invariant forall k :: 0 <= k < i ==> hist[k] == 0
        invariant forall k :: i <= k < hist.Length ==> hist[k] == before[k]
        invariant nbf == bestlag == 0
      {
        hist[i] := 0;
      }
      emitted := [];
      frames := [];
      tail := [];
    }

    /** Write position `i` of the fill. */
    method Put(i: nat, x: int, ghost h: seq<int>, ghost fill: Fill)
      requires Shape() && M <= bestlag < N + M && i < FS + SBCRT + OLAL
      requires |h| == LHIST && (fill.First? ==> |fill.zir| == FS)
      requires hist[..LHIST + i] == Grow(h, Period(), fill, i)
      requires x == fill.Sample(hist[bestlag + i], i)
      modifies hist
      ensures hist[..LHIST + i + 1] == Grow(h, Period(), fill, i + 1)
    {
      ghost var g := hist[..LHIST + i];
      assert g[|g| - Period()] == hist[bestlag + i];
      hist[LHIST + i] := x;
      assert hist[..LHIST + i + 1] == g + [x];
    }

    /** Fill the first lost frame of a burst: three stretches of blended samples, then plain copies. */
    method FillFirst(zir: seq<int>, sf: real)
      requires Shape() && M <= bestlag < N + M && |zir| == FS
      modifies hist
      ensures hist[..] == Grow(old(hist[..LHIST]), Period(), First(zir, sf), FS + SBCRT + OLAL)
    {
      ghost var h, fill := hist[..LHIST], First(zir, sf);
      FadeIn(zir, sf, h);
      for i := OLAL to FS
        invariant hist[..LHIST + i] == Grow(h, Period(), fill, i)
      {
        var val := Gain(sf, hist[bestlag + i]);
        Put(i, Clamped(val), h, fill);
      }
      FadeOut(zir, sf, h);
      CopyPeriod(FS + OLAL, h, fill);
    }

    /** The decoder's zero-input response fades into the scaled replacement. */
    method FadeIn(zir: seq<int>, sf: real, ghost h: seq<int>)
      requires Shape() && M <= bestlag < N + M && |zir| == FS && h == hist[..LHIST]
      modifies hist
      ensures hist[..LHIST + OLAL] == Grow(h, Period(), First(zir, sf), OLAL)
    {
      hide Clamped, Gain, Mix, Rcos;
      for i := 0 to OLAL
        invariant hist[..LHIST + i] == Grow(h, Period(), First(zir, sf), i)
      {
        var val := Mix(zir[i] as real, Rcos(i), Gain(sf, hist[bestlag + i]), Rcos(OLAL - 1 - i));
        Put(i, Clamped(val), h, First(zir, sf));
      }
    }

    /** The scaled replacement fades into the unscaled one. */
    method FadeOut(zir: seq<int>, sf: real, ghost h: seq<int>)
      requires Shape() && M <= bestlag < N + M && |zir| == FS && |h| == LHIST
      requires hist[..LHIST + FS] == Grow(h, Period(), First(zir, sf), FS)
      modifies hist
      ensures hist[..LHIST + FS + OLAL] == Grow(h, Period(), First(zir, sf), FS + OLAL)
    {
      hide Clamped, Gain, Mix, Rcos;
      for i := FS to FS + OLAL
        invariant hist[..LHIST + i] == Grow(h, Period(), First(zir, sf), i)
      {
        var src := hist[bestlag + i];
        var val := Mix(Gain(sf, src), Rcos(i - FS), src as real, Rcos(OLAL - 1 - i + FS));
        Put(i, Clamped(val), h, First(zir, sf));
      }
    }

    /** Copy on from one period back; the source runs into what the loop itself wrote. */
    method CopyPeriod(from: nat, ghost h: seq<int>, ghost fill: Fill)
      requires Shape() && M <= bestlag < N + M && from <= FS + SBCRT + OLAL
      requires |h| == LHIST && (fill.First? ==> |fill.zir| == FS && from >= FS + OLAL)
      requires hist[..LHIST + from] == Grow(h, Period(), fill, from)
      modifies hist
      ensures hist[..] == Grow(h, Period(), fill, FS + SBCRT + OLAL)
    {
      for i := from to FS + SBCRT + OLAL
        invariant hist[..LHIST + i] == Grow(h, Period(), fill, i)
      {
        Put(i, hist[bestlag + i], h, fill);
      }
      assert hist[..] == hist[..LHIST + FS + SBCRT + OLAL];
    }

    /** Move the history down by one frame, in place. */
    method ShiftHistory(n: nat)
      requires Shape() && n <= LHIST + SBCRT + OLAL
      modifies hist
      ensures forall k :: 0 <= k < n ==> hist[k] == old(hist[k + FS])
      ensures forall k :: n <= k < hist.Length ==> hist[k] == old(hist[k])
    {
      for i := 0 to n
        invariant forall k :: 0 <= k < i ==> hist[k] == old(hist[k + FS])
        invariant forall k :: i <= k < hist.Length ==> hist[k] == old(hist[k])
      {
        hist[i] := hist[i + FS];
      }
    }

    /** Extend the history over one lost frame, choosing what to replicate if it is the first of its burst. */
    method Extend(zir: seq<int>, cn: seq<Correlation>) returns (ghost fill: Fill)
      requires Valid() && |zir| == FS && |cn| == N
      modifies this`nbf, this`bestlag, hist
      ensures nbf == old(nbf) + 1 && M <= bestlag < N + M
      ensures old(nbf) > 0 ==> bestlag == old(bestlag)
      ensures fill.Valid() && (if old(nbf) == 0 then fill.First? && fill.zir == zir else fill.Later?)
      ensures old(nbf) == 0 ==> BestMatch(cn, bestlag - M) && fill.sf == Amplitude(old(hist[..]), bestlag)
      ensures hist[..] == Grow(old(hist[..LHIST]), Period(), fill, FS + SBCRT + OLAL)
    {
      fill := Later;
      nbf := nbf + 1;
      if nbf == 1 {
        var best := PatternMatch(cn);
        bestlag := best + M;
        var sf := AmplitudeMatch(hist[..], bestlag);
        fill := First(zir, sf);
        FillFirst(zir, sf);
      } else {
        CopyPeriod(0, hist[..LHIST], fill);
      }
    }

    /** Extend the history, take the output from the extension and shift. */
    method Conceal(zir: seq<int>, cn: seq<Correlation>, ghost h: seq<int>) returns (out: seq<int>, ghost fill: Fill)
      requires Valid() && |zir| == FS && |cn| == N && h == hist[..LHIST]
      modifies this`nbf, this`bestlag, hist
      ensures nbf == old(nbf) + 1 && M <= bestlag < N + M
      ensures old(nbf) > 0 ==> bestlag == old(bestlag)
      ensures fill.Valid() && (if old(nbf) == 0 then fill.First? && fill.zir == zir else fill.Later?)
      ensures old(nbf) == 0 ==> BestMatch(cn, bestlag - M) && fill.sf == Amplitude(old(hist[..]), bestlag)
      ensures var g := Grow(h, Period(), fill, FS + SBCRT + OLAL);
        && out == g[LHIST..LHIST + FS]
        && (forall k :: 0 <= k < LHIST + SBCRT + OLAL ==> hist[k] == g[k + FS])
        && (forall k :: LHIST + SBCRT + OLAL <= k < hist.Length ==> hist[k] == g[k])
    {
      fill := Extend(zir, cn);
      out := hist[LHIST..LHIST + FS];
      ShiftHistory(LHIST + SBCRT + OLAL);
    }

    /** Conceal one lost frame. */
    method BadFrame(zir: seq<int>, cn: seq<Correlation>) returns (out: seq<int>, ghost fill: Fill)
      requires Valid() && |zir| == FS && |cn| == N
      modifies this, hist
      ensures Valid() && nbf == old(nbf) + 1
      ensures burst == if old(nbf) == 0 then |old(emitted)| else old(burst)
      ensures old(nbf) > 0 ==> bestlag == old(bestlag)
      ensures |out| == FS && emitted == old(emitted) + out
      ensures fill.Valid() && (if old(nbf) == 0 then fill.First? && fill.zir == zir else fill.Later?)
      ensures old(nbf) == 0 ==> BestMatch(cn, bestlag - M) && fill.sf == Amplitude(old(hist[..]), bestlag)
      ensures forall i :: 0 <= i < FS ==> out[i] == fill.Sample(At(emitted, |old(emitted)| + i - Period()), i)
      ensures frames == old(frames) + [Bad(zir, cn)]
    {
      hide Play, Lose, Remembers, Consistent, Grow, BestMatch, Amplitude, Fill.Sample, At;
      ghost var s, lag, was := hist[..], bestlag, Now();
      out, fill := Conceal(zir, cn, hist[..LHIST]);
      BadKeeps(s, emitted, lag, nbf - 1, burst, fill, hist[..], out, bestlag);
      if nbf == 1 {
        burst := |emitted|;
      }
      emitted := emitted + out;
      tail := hist[LHIST..LHIST + SBCRT + OLAL];
      ConsistentAgrees(hist[..], emitted, bestlag, nbf, burst);
      LoseIs(s, was, zir, cn, fill, bestlag, hist[..], out);
      PlayMore(frames, Bad(zir, cn));
      frames := frames + [Bad(zir, cn)];
    }

    /** Copy the output behind the history. */
    method Record(out: seq<int>)
      requires Shape() && |out| == FS
      modifies hist
      ensures forall k :: 0 <= k < FS ==> hist[LHIST + k] == out[k]
      ensures forall k :: 0 <= k < hist.Length && !(LHIST <= k < LHIST + FS) ==> hist[k] == old(hist[k])
    {
      for i := 0 to FS
        invariant forall k :: 0 <= k < i ==> hist[LHIST + k] == out[k]
        invariant forall k :: 0 <= k < hist.Length && !(LHIST <= k < LHIST + i) ==> hist[k] == old(hist[k])
      {
        hist[LHIST + i] := out[i];
      }
    }

    /** Take one received frame, reconverging with the signal if it ends a burst. */
    method GoodFrame(input: seq<int>) returns (out: seq<int>)
      requires Valid() && |input| == FS && AreSamples(input)
      modifies this, hist
      ensures Valid() && nbf == 0
      ensures |out| == FS && emitted == old(emitted) + out
      ensures old(nbf) == 0 ==> out == input
      ensures old(nbf) >= 2 ==> Periodic(emitted, old(Period()), old(burst) + FS, |old(emitted)| + SBCRT)
      ensures old(nbf) == 1 ==> Periodic(emitted, old(Period()), |old(emitted)| + OLAL, |old(emitted)| + SBCRT)
      ensures old(nbf) > 0 ==> forall i :: 0 <= i < SBCRT ==> out[i] == old(hist[LHIST + i])
      ensures old(nbf) > 0 ==> forall i :: SBCRT <= i < SBCRT + OLAL ==>
        out[i] == CrossFade(old(hist[LHIST + i]), input[i], i - SBCRT)
      ensures forall i :: SBCRT + OLAL <= i < FS ==> out[i] == input[i]
      ensures frames == old(frames) + [Good(input)]
    {
      hide Play, Take, Remembers, CrossFade, Periodic, At, TailRepeats, Agrees;
      ghost var e, h, was := emitted, hist[..], Now();
      out := input;
      if nbf > 0 {
        out := Reconverge(input);
      }
      Record(out);
      ghost var g := hist[..];
      ShiftHistory(LHIST);
      emitted := emitted + out;
      nbf := 0;
      tail := [];
      GoodKeeps(h, e, g, hist[..], out);
      TakeIs(h, was, input, hist[..], out);
      PlayMore(frames, Good(input));
      frames := frames + [Good(input)];
      if old(nbf) >= 2 {
        PeriodicExtends(e, out, old(Period()), old(burst) + FS);
        PeriodicJoined(emitted, old(Period()), old(burst) + FS, |e|, |e| + SBCRT);
      }
    }

    /** Output of the first good frame after a loss: concealment, cross-fade, signal. */
    method Reconverge(input: seq<int>) returns (out: seq<int>)
      requires Valid() && nbf > 0 && |input| == FS && AreSamples(input)
      ensures |out| == FS && AreSamples(out)
      ensures forall i :: 0 <= i < SBCRT ==> out[i] == hist[LHIST + i]
      ensures forall i :: SBCRT <= i < SBCRT + OLAL ==> out[i] == CrossFade(hist[LHIST + i], input[i], i - SBCRT)
      ensures forall i :: SBCRT + OLAL <= i < FS ==> out[i] == input[i]
      ensures nbf >= 2 ==> Periodic(emitted + out, Period(), |emitted|, |emitted| + SBCRT)
      ensures nbf == 1 ==> Periodic(emitted + out, Period(), |emitted| + OLAL, |emitted| + SBCRT)
    {
      hide Play, Remembers, CrossFade;
      out := hist[LHIST..LHIST + SBCRT];
      for i := SBCRT to SBCRT + OLAL
        invariant |out| == i && AreSamples(out)
        invariant forall k :: 0 <= k < SBCRT ==> out[k] == hist[LHIST + k]
        invariant forall k :: SBCRT <= k < i ==> out[k] == CrossFade(hist[LHIST + k], input[k], k - SBCRT)
      {
        CrossFadeBetween(hist[LHIST + i], input[i], i - SBCRT);
        out := out + [CrossFade(hist[LHIST + i], input[i], i - SBCRT)];
      }
      out := out + input[SBCRT + OLAL..];
      forall k | |emitted| + (if nbf == 1 then OLAL else 0) <= k < |emitted| + SBCRT
        ensures At(emitted + out, k) == At(emitted + out, k - Period())
      {
        var j := LHIST + k - |emitted|;
        assert hist[..][j] == hist[..][j - Period()];
      }
    }
  }
}
