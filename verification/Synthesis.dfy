/** The decoder's synthesis filter bank.
  *
  * The standard (A2DP section 12.6.6) keeps a shift register of ten blocks of
  * matrixed values and moves the whole register for every block.  The decoder
  * never moves anything: row `i` of the matrix owns a window of ten cells that
  * slides down one buffer, the windows of all rows share the buffer as a ring,
  * and nine cells past the ring's end mirror its beginning so that a window can
  * be read without wrapping.  This module shows that the two are the same
  * filter, for any coefficient tables and any sequence of blocks.
  */
module Synthesis {

  /** Coefficients, by row; the window's even and odd blocks are two tables. */
  datatype Tables = Tables(synmatrix: seq<seq<int>>, protoM0: seq<int>, protoM1: seq<int>) {
    ghost predicate ForSubbands(sub: nat) {
      && |synmatrix| == 2 * sub
      && (forall i :: 0 <= i < 2 * sub ==> |synmatrix[i]| == sub)
      && |protoM0| == |protoM1| == 5 * sub
    }
  }

  /** The tables with the last row of the matrix in place of every row. */
  function LastRowOnly(t: Tables, sub: nat): (r: Tables)
    requires t.ForSubbands(sub) && sub > 0
    ensures r.ForSubbands(sub) && r.protoM0 == t.protoM0 && r.protoM1 == t.protoM1
  {
    t.(synmatrix := seq(2 * sub, _ => t.synmatrix[2 * sub - 1]))
  }

  /** A filter whose windows were never set up works like one with these tables: only
    * the last row of the matrix leaves a trace. */
  function InEffect(t: Tables, sub: nat, isSet: bool): (r: Tables)
    requires t.ForSubbands(sub) && sub > 0
    ensures r.ForSubbands(sub)
  {
    if isSet then t else LastRowOnly(t, sub)
  }

  function Mul(a: int, b: int): int { a * b }
  function Mula(a: int, b: int, res: int): int { Mul(a, b) + res }

  /** The fixed-point scaling after each stage: an arithmetic shift by 15. */
  function Scale(v: int): int { v / 0x8000 }

  function Clip16(s: int): int {
    if s > 0x7FFF then 0x7FFF else if s < -0x8000 then -0x8000 else s
  }

  function Dot(row: seq<int>, s: seq<int>, from: nat): int
    requires from <= |row| == |s|
    decreases |row| - from
  {
    if from == |row| then 0 else Mula(row[from], s[from], Dot(row, s, from + 1))
  }

  /** The value matrixed for one row from the subband samples of a block. */
  function Matrixed(row: seq<int>, s: seq<int>): int
    requires |row| == |s|
  {
    Scale(Dot(row, s, 0))
  }

  // ----- what the arithmetic computes -----

  /** The matrixed value before it is scaled answers to each subband sample with that
    * subband's coefficient, and to silence with nothing - so it is their sum of products. */
  lemma {:induction false} RowResponds(row: seq<int>, s: seq<int>, k: nat, d: int, from: nat)
    requires from <= |row| == |s| && k < |s|
    ensures Dot(row, s[k := s[k] + d], from) == Dot(row, s, from) + if k < from then 0 else row[k] * d
    ensures (forall i :: 0 <= i < |s| ==> s[i] == 0) ==> Dot(row, s, from) == 0
    decreases |row| - from
  {
    if from < |row| {
      RowResponds(row, s, k, d, from + 1);
      if k == from {
        assert row[k] * (s[k] + d) == row[k] * s[k] + row[k] * d;
      }
    }
  }

  /** The sum of the first `n` products of a coefficient and a subband sample. */
  function Products(row: seq<int>, s: seq<int>, n: nat): int
    requires n <= |row| == |s|
  {
    if n == 0 then 0 else Products(row, s, n - 1) + row[n - 1] * s[n - 1]
  }

  lemma {:induction false} DotIsProducts(row: seq<int>, s: seq<int>, from: nat)
    requires from <= |row| == |s|
    ensures Dot(row, s, from) == Products(row, s, |s|) - Products(row, s, from)
    decreases |row| - from
  {
    if from < |row| {
      DotIsProducts(row, s, from + 1);
    }
  }

  /** The matrixed value of a row is the sum of all its products, divided by 2^15 and rounded
    * down; a subband sample raised by `d` raises the sum by its coefficient times `d`. */
  lemma {:induction false} RowValue(row: seq<int>, s: seq<int>, k: nat, d: int)
    requires |row| == |s| && k < |s|
    ensures 0x8000 * Matrixed(row, s) <= Products(row, s, |s|) < 0x8000 * (Matrixed(row, s) + 1)
    ensures Products(row, s[k := s[k] + d], |s|) == Products(row, s, |s|) + row[k] * d
    ensures (forall i :: 0 <= i < |s| ==> s[i] == 0) ==> Matrixed(row, s) == 0
  {
    DotIsProducts(row, s, 0);
    DotIsProducts(row, s[k := s[k] + d], 0);
    RowResponds(row, s, k, d, 0);
    ScaleAndClip(Dot(row, s, 0));
    hide Dot, Scale;
    assert Products(row, s, 0) == 0;
  }

  /** Scaling divides by 2^15 and rounds down; clipping keeps samples and moves anything
    * else to the bound on its side. */
  lemma ScaleAndClip(v: int)
    ensures 0x8000 * Scale(v) <= v < 0x8000 * (Scale(v) + 1)
    ensures if -32768 <= v <= 32767 then Clip16(v) == v else Clip16(v) == if v > 0 then 32767 else -32768
  {
  }

  // ----- the standard's filter -----

  /** One block of matrixed values. */
  function Matrixing(t: Tables, sub: nat, s: seq<int>): (x: seq<int>)
    requires t.ForSubbands(sub) && |s| == sub
    ensures |x| == 2 * sub
  {
    seq(2 * sub, i requires 0 <= i < 2 * sub => Matrixed(t.synmatrix[i], s))
  }

  /** The register moves up by one block and takes the new block at its bottom. */
  function Shift(v: seq<int>, x: seq<int>): seq<int>
    requires |v| == 10 * |x|
  {
    x + v[..9 * |x|]
  }

  /** The standard's U vector: the lower half of every even block of the
    * register, the upper half of every odd one. */
  function BuildU(v: seq<int>, sub: nat): seq<int>
    requires |v| == 20 * sub && (sub == 4 || sub == 8)
  {
    seq(10 * sub, n requires 0 <= n < 10 * sub =>
      var (m, j) := (n / (2 * sub), n % (2 * sub));
      if j < sub then v[4 * sub * m + j] else v[4 * sub * m + 2 * sub + j])
  }

  /** The window coefficients in the standard's order. */
  function WindowD(t: Tables, sub: nat): seq<int>
    requires t.ForSubbands(sub) && (sub == 4 || sub == 8)
  {
    seq(10 * sub, n requires 0 <= n < 10 * sub =>
      var (m, j) := (n / (2 * sub), n % (2 * sub));
      if j < sub then t.protoM0[5 * j + m] else t.protoM1[5 * (j - sub) + m])
  }

  function WindowSum(u: seq<int>, d: seq<int>, sub: nat, j: nat, n: nat): int
    requires |u| == |d| == 10 * sub && j < sub && n <= 10 && (sub == 4 || sub == 8)
    decreases 10 - n
  {
    if n == 10 then 0 else Mula(u[j + sub * n], d[j + sub * n], WindowSum(u, d, sub, j, n + 1))
  }

  function OutputSample(t: Tables, sub: nat, v: seq<int>, j: nat): int
    requires t.ForSubbands(sub) && (sub == 4 || sub == 8) && |v| == 20 * sub && j < sub
  {
    Clip16(Scale(WindowSum(BuildU(v, sub), WindowD(t, sub), sub, j, 0)))
  }

  function Output(t: Tables, sub: nat, v: seq<int>): (pcm: seq<int>)
    requires t.ForSubbands(sub) && (sub == 4 || sub == 8) && |v| == 20 * sub
    ensures |pcm| == sub
  {
    seq(sub, j requires 0 <= j < sub => OutputSample(t, sub, v, j))
  }

  /** The register after a sequence of blocks. */
  function RegisterAfter(t: Tables, sub: nat, v: seq<int>, blocks: seq<seq<int>>): (r: seq<int>)
    requires t.ForSubbands(sub) && |v| == 20 * sub
    requires forall b :: 0 <= b < |blocks| ==> |blocks[b]| == sub
    ensures |r| == 20 * sub
  {
    if blocks == [] then v else
      var n := |blocks| - 1;
      Shift(RegisterAfter(t, sub, v, blocks[..n]), Matrixing(t, sub, blocks[n]))
  }

  /** All samples the standard's filter produces for a sequence of blocks. */
  function Filter(t: Tables, sub: nat, v: seq<int>, blocks: seq<seq<int>>): (pcm: seq<int>)
    requires t.ForSubbands(sub) && (sub == 4 || sub == 8) && |v| == 20 * sub
    requires forall b :: 0 <= b < |blocks| ==> |blocks[b]| == sub
    ensures |pcm| == sub * |blocks|
  {
    if blocks == [] then [] else
      var n := |blocks| - 1;
      Filter(t, sub, v, blocks[..n]) + Output(t, sub, RegisterAfter(t, sub, v, blocks))
  }

  // ----- the register as ten blocks -----

  /** Ten blocks of matrixed values, newest first. */
  ghost predicate IsHistory(h: seq<seq<int>>, sub: nat) {
    && (sub == 4 || sub == 8) && |h| == 10
    && forall b :: 0 <= b < 10 ==> |h[b]| == 2 * sub
  }

  /** The standard's flat register: block after block. */
  ghost function Flat(h: seq<seq<int>>, sub: nat): (v: seq<int>)
    requires IsHistory(h, sub)
    ensures |v| == 20 * sub
  {
    seq(20 * sub, n requires 0 <= n < 20 * sub => h[n / (2 * sub)][n % (2 * sub)])
  }

  lemma FlatAt(h: seq<seq<int>>, sub: nat, b: nat, i: nat)
    requires IsHistory(h, sub) && b < 10 && i < 2 * sub
    ensures Flat(h, sub)[2 * sub * b + i] == h[b][i]
  {
    if sub == 4 {
      assert (8 * b + i) / 8 == b && (8 * b + i) % 8 == i;
    } else {
      assert (16 * b + i) / 16 == b && (16 * b + i) % 16 == i;
    }
  }

  ghost function Silence(sub: nat): (h: seq<seq<int>>)
    requires sub == 4 || sub == 8
    ensures IsHistory(h, sub) && forall b, i :: 0 <= b < 10 && 0 <= i < 2 * sub ==> h[b][i] == 0
  {
    seq(10, _ => seq(2 * sub, _ => 0))
  }

  function Push(h: seq<seq<int>>, x: seq<int>): seq<seq<int>>
    requires |h| == 10
  {
    [x] + h[..9]
  }

  /** Shifting the flat register is dropping the oldest block. */
  lemma {:induction false} ShiftIsPush(h: seq<seq<int>>, sub: nat, x: seq<int>)
    requires IsHistory(h, sub) && |x| == 2 * sub
    ensures Shift(Flat(h, sub), x) == Flat(Push(h, x), sub)
  {
    var r := 2 * sub;
    var v := Shift(Flat(h, sub), x);
    forall n | 0 <= n < 20 * sub ensures v[n] == Flat(Push(h, x), sub)[n] {
      if sub == 4 {
        assert n >= 8 ==> (n - 8) / 8 == n / 8 - 1 && (n - 8) % 8 == n % 8;
      } else {
        assert n >= 16 ==> (n - 16) / 16 == n / 16 - 1 && (n - 16) % 16 == n % 16;
      }
    }
  }

  /** The ten products behind one output sample, read off the blocks: row `j` of
    * the even blocks, row `j + sub` of the odd ones. */
  function TenTaps(t: Tables, sub: nat, h: seq<seq<int>>, j: nat, n: nat): int
    requires t.ForSubbands(sub) && j < sub && n <= 10 && |h| == 10
    requires forall b :: 0 <= b < 10 ==> |h[b]| == 2 * sub
    decreases 10 - n
  {
    if n == 10 then 0
    else if n % 2 == 0 then Mula(h[n][j], t.protoM0[5 * j + n / 2], TenTaps(t, sub, h, j, n + 1))
    else Mula(h[n][j + sub], t.protoM1[5 * j + n / 2], TenTaps(t, sub, h, j, n + 1))
  }

  /** The products as the decoder nests them, from the ten cells it reads. */
  function TenProducts(t: Tables, idx: nat, c: seq<int>): int
    requires |c| == 10 && idx + 5 <= |t.protoM0| && idx + 5 <= |t.protoM1|
  {
    Mula(c[0], t.protoM0[idx + 0],
    Mula(c[1], t.protoM1[idx + 0],
    Mula(c[2], t.protoM0[idx + 1],
    Mula(c[3], t.protoM1[idx + 1],
    Mula(c[4], t.protoM0[idx + 2],
    Mula(c[5], t.protoM1[idx + 2],
    Mula(c[6], t.protoM0[idx + 3],
    Mula(c[7], t.protoM1[idx + 3],
    Mula(c[8], t.protoM0[idx + 4],
    Mul( c[9], t.protoM1[idx + 4]))))))))))
  }

  lemma {:induction false} TapsUnrolled(t: Tables, sub: nat, h: seq<seq<int>>, j: nat)
    requires t.ForSubbands(sub) && j < sub && IsHistory(h, sub)
    ensures var k := j + sub;
      OutputSample(t, sub, Flat(h, sub), j) == Clip16(Scale(TenProducts(t, 5 * j,
        [h[0][j], h[1][k], h[2][j], h[3][k], h[4][j], h[5][k], h[6][j], h[7][k], h[8][j], h[9][k]])))
  {
    WindowSumIsTenTaps(t, sub, h, j, 0);
    TapsFromSix(t, sub, h, j);
    hide BuildU, WindowD, WindowSum, Mula, Mul, Scale, Clip16, Flat;
  }

  lemma TapsFromSix(t: Tables, sub: nat, h: seq<seq<int>>, j: nat)
    requires t.ForSubbands(sub) && j < sub && IsHistory(h, sub)
    ensures var (k, i) := (j + sub, 5 * j);
      TenTaps(t, sub, h, j, 6) ==
        Mula(h[6][j], t.protoM0[i + 3], Mula(h[7][k], t.protoM1[i + 3],
        Mula(h[8][j], t.protoM0[i + 4], Mul(h[9][k], t.protoM1[i + 4]))))
  {
    hide Mul;
    assert TenTaps(t, sub, h, j, 10) == 0;
    assert TenTaps(t, sub, h, j, 8) == Mula(h[8][j], t.protoM0[5 * j + 4], Mul(h[9][j + sub], t.protoM1[5 * j + 4]));
  }

  /** Where product `n` of sample `j` sits in the U vector, and which row it reads. */
  lemma TapIndex(sub: nat, j: nat, n: nat)
    requires (sub == 4 || sub == 8) && j < sub && n < 10
    ensures var (i, row) := (j + sub * n, if n % 2 == 0 then j else j + sub);
      && i < 10 * sub && i / (2 * sub) == n / 2 && i % (2 * sub) == row
      && 2 * sub * n + row == 4 * sub * (n / 2) + if n % 2 == 0 then j else 2 * sub + row
  {
    var q := n / 2;
    if sub == 4 {
      assert j + 4 * n == 8 * q + if n % 2 == 0 then j else j + 4;
    } else {
      assert j + 8 * n == 16 * q + if n % 2 == 0 then j else j + 8;
    }
  }

  lemma {:induction false} TapAt(t: Tables, sub: nat, h: seq<seq<int>>, j: nat, n: nat)
    requires t.ForSubbands(sub) && IsHistory(h, sub) && j < sub && n < 10
    ensures j + sub * n < 10 * sub
    ensures BuildU(Flat(h, sub), sub)[j + sub * n] == h[n][if n % 2 == 0 then j else j + sub]
    ensures WindowD(t, sub)[j + sub * n] == (if n % 2 == 0 then t.protoM0 else t.protoM1)[5 * j + n / 2]
  {
    TapIndex(sub, j, n);
    FlatAt(h, sub, n, if n % 2 == 0 then j else j + sub);
  }

  /** The U vector and the window select exactly those ten products. */
  lemma {:induction false} WindowSumIsTenTaps(t: Tables, sub: nat, h: seq<seq<int>>, j: nat, n: nat)
    requires t.ForSubbands(sub) && IsHistory(h, sub) && j < sub && n <= 10
    ensures WindowSum(BuildU(Flat(h, sub), sub), WindowD(t, sub), sub, j, n) == TenTaps(t, sub, h, j, n)
    decreases 10 - n
  {
    if n < 10 {
      WindowSumIsTenTaps(t, sub, h, j, n + 1);
      TapAt(t, sub, h, j, n);
    }
  }

  /** After any blocks, position 2*sub*b + i of the standard's register is what
    * row `i` was given `b` blocks ago - and nothing once the blocks run out, if it started clear. */
  lemma {:induction false} RegisterHolds(t: Tables, sub: nat, h: seq<seq<int>>, blocks: seq<seq<int>>, b: nat, i: nat)
    requires t.ForSubbands(sub) && IsHistory(h, sub) && b < 10 && i < 2 * sub
    requires forall k :: 0 <= k < |blocks| ==> |blocks[k]| == sub
    ensures RegisterAfter(t, sub, Flat(h, sub), blocks)[2 * sub * b + i]
         == if b < |blocks| then Matrixed(t.synmatrix[i], blocks[|blocks| - 1 - b]) else h[b - |blocks|][i]
    decreases |blocks|
  {
    var n := |blocks|;
    if n == 0 {
      FlatAt(h, sub, b, i);
    } else {
      var v, x := RegisterAfter(t, sub, Flat(h, sub), blocks[..n - 1]), Matrixing(t, sub, blocks[n - 1]);
      if b == 0 {
        assert Shift(v, x)[i] == x[i];
      } else {
        RegisterHolds(t, sub, h, blocks[..n - 1], b - 1, i);
        ShiftAt(v, x, sub, b, i);
      }
    }
  }

  lemma ShiftAt(v: seq<int>, x: seq<int>, sub: nat, b: nat, i: nat)
    requires (sub == 4 || sub == 8) && |x| == 2 * sub && |v| == 20 * sub && 0 < b < 10 && i < 2 * sub
    ensures Shift(v, x)[2 * sub * b + i] == v[2 * sub * (b - 1) + i]
  {
    if sub == 4 {
      assert Shift(v, x)[8 * b + i] == v[8 * (b - 1) + i];
    } else {
      assert Shift(v, x)[16 * b + i] == v[16 * (b - 1) + i];
    }
  }

  // ----- what an output sample computes -----

  /** An output sample before it is scaled and clipped. */
  function Unscaled(t: Tables, sub: nat, v: seq<int>, j: nat): int
    requires t.ForSubbands(sub) && (sub == 4 || sub == 8) && |v| == 20 * sub && j < sub
  {
    TapSum(t, sub, v, j, 0)
  }

  /** Where the register holds the value that product `n` of sample `j` reads. */
  function TapCell(sub: nat, j: nat, n: nat): nat { 2 * sub * n + if n % 2 == 0 then j else j + sub }

  /** The window coefficient of that product. */
  function TapWeight(t: Tables, sub: nat, j: nat, n: nat): int
    requires t.ForSubbands(sub) && j < sub && n < 10
  {
    if n % 2 == 0 then t.protoM0[5 * j + n / 2] else t.protoM1[5 * j + n / 2]
  }

  lemma {:induction false} TapReads(t: Tables, sub: nat, v: seq<int>, j: nat, n: nat)
    requires t.ForSubbands(sub) && (sub == 4 || sub == 8) && |v| == 20 * sub && j < sub && n < 10
    ensures TapCell(sub, j, n) < 20 * sub && j + sub * n < 10 * sub
    ensures BuildU(v, sub)[j + sub * n] == v[TapCell(sub, j, n)]
    ensures WindowD(t, sub)[j + sub * n] == TapWeight(t, sub, j, n)
  {
    TapIndex(sub, j, n);
  }

  /** The cells are different ones. */
  lemma TapsApart(sub: nat, j: nat, m: nat, n: nat)
    requires (sub == 4 || sub == 8) && j < sub
    ensures TapCell(sub, j, m) == TapCell(sub, j, n) ==> m == n
  {
    if sub == 4 {
      assert TapCell(sub, j, m) / 8 == m && TapCell(sub, j, n) / 8 == n;
    } else {
      assert TapCell(sub, j, m) / 16 == m && TapCell(sub, j, n) / 16 == n;
    }
  }

  /** The sum of the products from number `from` on. */
  function TapSum(t: Tables, sub: nat, v: seq<int>, j: nat, from: nat): int
    requires t.ForSubbands(sub) && (sub == 4 || sub == 8) && |v| == 20 * sub && j < sub && from <= 10
  {
    WindowSum(BuildU(v, sub), WindowD(t, sub), sub, j, from)
  }

  lemma {:induction false} TapSumStep(t: Tables, sub: nat, v: seq<int>, j: nat, from: nat)
    requires t.ForSubbands(sub) && (sub == 4 || sub == 8) && |v| == 20 * sub && j < sub && from <= 10
    ensures from == 10 ==> TapSum(t, sub, v, j, from) == 0
    ensures from < 10 ==>
      && TapCell(sub, j, from) < |v|
      && TapSum(t, sub, v, j, from)
         == v[TapCell(sub, j, from)] * TapWeight(t, sub, j, from) + TapSum(t, sub, v, j, from + 1)
  {
    if from < 10 {
      TapReads(t, sub, v, j, from);
    }
    hide BuildU, WindowD, TapCell, TapWeight;
  }

  /** An output sample before scaling answers to each of its ten cells with that cell's
    * coefficient, and to a clear register with nothing - so it is the sum of the ten products. */
  lemma {:induction false} SampleResponds(t: Tables, sub: nat, v: seq<int>, j: nat, n: nat, d: int)
    requires t.ForSubbands(sub) && (sub == 4 || sub == 8) && |v| == 20 * sub && j < sub && n < 10
    ensures TapCell(sub, j, n) < 20 * sub
    ensures var c := TapCell(sub, j, n);
      Unscaled(t, sub, v[c := v[c] + d], j) == Unscaled(t, sub, v, j) + TapWeight(t, sub, j, n) * d
    ensures (forall i :: 0 <= i < |v| ==> v[i] == 0) ==> Unscaled(t, sub, v, j) == 0
  {
    TapSumStep(t, sub, v, j, n);
    var c := TapCell(sub, j, n);
    hide BuildU, WindowD, WindowSum, TapCell, TapWeight;
    SumResponds(t, sub, v, v[c := v[c] + d], j, n, d, 0);
  }

  lemma {:induction false} SumResponds(t: Tables, sub: nat, v: seq<int>, w: seq<int>, j: nat, n: nat, d: int, from: nat)
    requires t.ForSubbands(sub) && (sub == 4 || sub == 8) && |v| == |w| == 20 * sub && j < sub && n < 10 && from <= 10
    requires TapCell(sub, j, n) < |v| && w == v[TapCell(sub, j, n) := v[TapCell(sub, j, n)] + d]
    ensures TapSum(t, sub, w, j, from)
         == TapSum(t, sub, v, j, from) + if n < from then 0 else TapWeight(t, sub, j, n) * d
    ensures (forall i :: 0 <= i < |v| ==> v[i] == 0) ==> TapSum(t, sub, v, j, from) == 0
    decreases 10 - from
  {
    hide *;
    TapSumStep(t, sub, v, j, from);
    TapSumStep(t, sub, w, j, from);
    if from < 10 {
      SumResponds(t, sub, v, w, j, n, d, from + 1);
      TapsApart(sub, j, n, from);
      ProductGrows(v[TapCell(sub, j, from)], d, TapWeight(t, sub, j, from));
    }
  }

  lemma ProductGrows(a: int, d: int, w: int)
    ensures (a + d) * w == a * w + w * d && (a == 0 ==> a * w == 0)
  {
  }

  /** It does not answer to any other cell. */
  lemma {:induction false} SampleIgnores(t: Tables, sub: nat, v: seq<int>, w: seq<int>, j: nat)
    requires t.ForSubbands(sub) && (sub == 4 || sub == 8) && |v| == |w| == 20 * sub && j < sub
    requires forall n :: 0 <= n < 10 ==> SameTap(sub, v, w, j, n)
    ensures OutputSample(t, sub, v, j) == OutputSample(t, sub, w, j) == Clip16(Scale(Unscaled(t, sub, v, j)))
  {
    hide BuildU, WindowD, WindowSum, SameTap;
    SumIgnores(t, sub, v, w, j, 0);
  }

  ghost predicate SameTap(sub: nat, v: seq<int>, w: seq<int>, j: nat, n: nat) {
    TapCell(sub, j, n) < |v| == |w| && v[TapCell(sub, j, n)] == w[TapCell(sub, j, n)]
  }

  lemma {:induction false} SumIgnores(t: Tables, sub: nat, v: seq<int>, w: seq<int>, j: nat, from: nat)
    requires t.ForSubbands(sub) && (sub == 4 || sub == 8) && |v| == |w| == 20 * sub && j < sub && from <= 10
    requires forall n :: from <= n < 10 ==> SameTap(sub, v, w, j, n)
    ensures TapSum(t, sub, v, j, from) == TapSum(t, sub, w, j, from)
    decreases 10 - from
  {
    hide BuildU, WindowD, WindowSum, TapCell, TapWeight, TapSum;
    TapSumStep(t, sub, v, j, from);
    TapSumStep(t, sub, w, j, from);
    if from < 10 {
      SumIgnores(t, sub, v, w, j, from + 1);
      assert SameTap(sub, v, w, j, from);
    }
  }

  // ----- the decoder's sliding windows -----

  /** Offsets whose ten-cell windows do not overlap on a ring of `ring` cells.
    * (`ring` itself occurs only as an initial offset.) */
  ghost predicate Spread(o: seq<int>, ring: int) {
    && (forall i :: 0 <= i < |o| ==> 0 <= o[i] <= ring)
    && (forall i, k :: 0 <= i < k < |o| ==> 10 <= o[i] - o[k] <= ring - 10 || 10 <= o[k] - o[i] <= ring - 10)
  }

  /** The next offset of a window: one cell down, around the ring. */
  function Down(o: int, ring: int): int { if o == 0 then ring - 1 else o - 1 }

  lemma SpreadDown(o: seq<int>, p: seq<int>, ring: int)
    requires ring >= 10 && Spread(o, ring) && |p| == |o| && forall i :: 0 <= i < |o| ==> p[i] == Down(o[i], ring)
    ensures Spread(p, ring)
  {
  }

  /** Cell `j` of every window holds what its row was given `j` blocks ago, for `j` below `depth`. */
  ghost predicate Holds(v: seq<int>, o: seq<int>, h: seq<seq<int>>, from: int, to: int, depth: int)
    requires |h| == 10 && 0 <= from <= to <= |o| && 0 <= depth <= 10
    requires forall b :: 0 <= b < 10 ==> |h[b]| == |o|
    requires forall i :: 0 <= i < |o| ==> 0 <= o[i] <= |v| - 10
  {
    forall j, i :: 0 <= j < depth && from <= i < to ==> v[o[i] + j] == h[j][i]
  }

  /** Between two rows of one block: rows below `k` have moved down and hold the
    * new block on top, the others still hold their nine newest values. */
  ghost predicate Midway(v: seq<int>, p: seq<int>, o: seq<int>, h: seq<seq<int>>, x: seq<int>, k: int, ring: int)
    requires |h| == 10 && |p| == |o| == |x| && 0 <= k <= |o| && |v| >= ring + 10 >= 20 && Spread(o, ring)
    requires forall b :: 0 <= b < 10 ==> |h[b]| == |o|
  {
    && (forall i :: 0 <= i < |o| ==> p[i] == if i < k then Down(o[i], ring) else o[i])
    && Holds(v, p, Push(h, x), 0, k, 10)
    && Holds(v, p, h, k, |o|, 9)
  }

  /** What moving one window does to the cells: cell `at` is written, and when
    * the window wraps the mirror is first refreshed from the ring's beginning. */
  ghost predicate Moved(v: seq<int>, w: seq<int>, at: int, value: int, wraps: bool, ring: int) {
    && |w| == |v| >= ring + 10 && 0 <= at < ring
    && w[at] == value
    && (forall c :: 0 <= c < |v| && c != at && !(wraps && ring <= c < ring + 9) ==> w[c] == v[c])
    && (wraps ==> forall c :: 0 <= c < 9 ==> w[ring + c] == v[c])
  }

  /** A cell of another row's window is not the one written, nor a mirror cell being refreshed. */
  lemma OtherWindowKept(v: seq<int>, w: seq<int>, o: seq<int>, k: int, value: int, ring: int, i: int, j: int)
    requires ring >= 20 && Spread(o, ring) && 0 <= k < |o| && 0 <= i < |o| && i != k
    requires Moved(v, w, Down(o[k], ring), value, o[k] == 0, ring)
    ensures 0 <= j <= 8 ==> w[o[i] + j] == v[o[i] + j]
    ensures 0 <= j <= 9 ==> w[Down(o[i], ring) + j] == v[Down(o[i], ring) + j]
  {
    assert 10 <= o[i] - o[k] <= ring - 10 || 10 <= o[k] - o[i] <= ring - 10;
  }

  /** Moving row `k` takes the state from before row `k` to before row `k + 1`. */
  lemma MoveKeeps(v: seq<int>, w: seq<int>, p: seq<int>, o: seq<int>, h: seq<seq<int>>, x: seq<int>, k: int, ring: int)
    requires |h| == 10 && |p| == |o| == |x| && 0 <= k < |o| && |v| >= ring + 10 && ring >= 20 && Spread(o, ring)
    requires forall b :: 0 <= b < 10 ==> |h[b]| == |o|
    requires Midway(v, p, o, h, x, k, ring)
    requires Moved(v, w, Down(o[k], ring), x[k], o[k] == 0, ring)
    ensures Midway(w, p[k := Down(o[k], ring)], o, h, x, k + 1, ring)
  {
    var p', g := p[k := Down(o[k], ring)], Push(h, x);
    forall j, i | 0 <= j < 10 && 0 <= i < k + 1 ensures w[p'[i] + j] == g[j][i] {
      if i < k {
        OtherWindowKept(v, w, o, k, x[k], ring, i, j);
        assert v[p[i] + j] == g[j][i];
      } else if j > 0 {
        assert v[o[k] + (j - 1)] == h[j - 1][k];
      }
    }
    forall j, i | 0 <= j < 9 && k + 1 <= i < |o| ensures w[p'[i] + j] == h[j][i] {
      OtherWindowKept(v, w, o, k, x[k], ring, i, j);
      assert v[p[i] + j] == h[j][i];
    }
  }

  // ----- windows that were never set up -----

  /** All windows are one. */
  ghost predicate Together(o: seq<int>, ring: int) {
    forall i :: 0 <= i < |o| ==> 0 <= o[i] < ring && o[i] == o[0]
  }

  /** Between two rows of one block, with all windows in one place: the rows below `k`
    * have moved down, and what the last of them wrote is on top of the nine newest values. */
  ghost predicate MidwayTogether(v: seq<int>, p: seq<int>, o: seq<int>, h: seq<seq<int>>, x: seq<int>, k: int,
                                 ring: int)
    requires |h| == 10 && |p| == |o| == |x| > 0 && 0 <= k <= |o| && |v| >= ring + 10 >= 20 && Together(o, ring)
    requires forall b :: 0 <= b < 10 ==> |h[b]| == |o|
  {
    && (forall i :: 0 <= i < |o| ==> p[i] == if i < k then Down(o[i], ring) else o[i])
    && (forall j :: 0 <= j < 9 ==> v[o[0] + j] == h[j][0])
    && (k > 0 ==>
          var d := Down(o[0], ring);
          v[d] == x[k - 1] && forall j :: 0 <= j < 9 ==> v[d + 1 + j] == h[j][0])
  }

  /** Every row overwrites what the rows before it have written for this block. */
  lemma MoveTogether(v: seq<int>, w: seq<int>, p: seq<int>, o: seq<int>, h: seq<seq<int>>, x: seq<int>, k: int,
                     ring: int)
    requires |h| == 10 && |p| == |o| == |x| && 0 <= k < |o| && |v| >= ring + 10 && ring >= 20 && Together(o, ring)
    requires forall b :: 0 <= b < 10 ==> |h[b]| == |o|
    requires MidwayTogether(v, p, o, h, x, k, ring)
    requires Moved(v, w, Down(o[k], ring), x[k], o[k] == 0, ring)
    ensures MidwayTogether(w, p[k := Down(o[k], ring)], o, h, x, k + 1, ring)
  {
    var d := Down(o[0], ring);
    forall j | 0 <= j < 9 ensures w[d + 1 + j] == h[j][0] {
      assert v[o[0] + j] == h[j][0];
    }
  }

  /** The output does not look at the matrix. */
  lemma SameOutput(t: Tables, sub: nat, v: seq<int>)
    requires t.ForSubbands(sub) && (sub == 4 || sub == 8) && |v| == 20 * sub
    ensures forall isSet :: Output(InEffect(t, sub, isSet), sub, v) == Output(t, sub, v)
  {
    hide BuildU, LastRowOnly, WindowSum;
  }

  function LastOnly(x: seq<int>): (y: seq<int>)
    requires x != []
    ensures |y| == |x|
  {
    seq(|x|, _ => x[|x| - 1])
  }

  /** All rows have been given the same. */
  ghost predicate OneColumn(h: seq<seq<int>>) {
    forall b, i :: 0 <= b < |h| && 0 <= i < |h[b]| ==> h[b][i] == h[b][0]
  }

  /** At the end of the block every window holds what the last row has written. */
  lemma AllMoved(v: seq<int>, p: seq<int>, o: seq<int>, h: seq<seq<int>>, x: seq<int>, ring: int)
    requires |h| == 10 && |p| == |o| == |x| > 0 && |v| >= ring + 10 >= 20 && Together(o, ring)
    requires forall b :: 0 <= b < 10 ==> |h[b]| == |o|
    requires OneColumn(h)
    requires MidwayTogether(v, p, o, h, x, |o|, ring)
    ensures Together(p, ring) && Holds(v, p, Push(h, LastOnly(x)), 0, |o|, 10)
  {
    var g := Push(h, LastOnly(x));
    forall j, i | 0 <= j < 10 && 0 <= i < |o| ensures v[p[i] + j] == g[j][i] {
      assert p[i] == Down(o[0], ring);
      if j > 0 {
        assert v[p[i] + 1 + (j - 1)] == h[j - 1][0];
      }
    }
  }

  /** The filter state of one channel. */
  class Channel {
    const sub: nat
    const V: array<int>
    const offset: array<int>
    /** Whether the windows were set up, and the ten blocks of the standard's register
      * that this state stands for. */
    ghost var isSet: bool
    ghost var history: seq<seq<int>>

    ghost function Ring(): int { 20 * sub }

    ghost predicate Shape()
      reads this
    {
      IsHistory(history, sub) && V.Length == 170 && offset.Length == 16
    }

    ghost function Offsets(): (o: seq<int>)
      requires Shape()
      reads this, offset
      ensures |o| == 2 * sub
    {
      offset[..2 * sub]
    }

    ghost predicate Valid()
      reads this, V, offset
    {
      && Shape()
      && (if isSet then Spread(Offsets(), Ring()) else Together(Offsets(), Ring()))
      && Holds(V[..], Offsets(), history, 0, 2 * sub, 10)
    }

    /** The tables the filter works with in effect. */
    ghost function Effective(t: Tables): (r: Tables)
      requires Shape() && t.ForSubbands(sub)
      reads this
      ensures r.ForSubbands(sub)
    {
      InEffect(t, sub, isSet)
    }

    /** The standard's shift register. */
    ghost function Register(): (v: seq<int>)
      requires Shape()
      reads this
      ensures |v| == 20 * sub
    {
      Flat(history, sub)
    }

    /** Nothing but zeros. */
    constructor (subbands: nat)
      requires subbands == 4 || subbands == 8
      ensures Valid() && sub == subbands && !isSet && fresh(V) && fresh(offset)
      ensures forall c :: 0 <= c < 20 * sub ==> Register()[c] == 0
    {
      sub := subbands;
      V := new int[170](_ => 0);
      offset := new int[16](_ => 0);
      isSet := false;
      history := Silence(subbands);
    }

    /** Clear the buffer and set the windows up for the subbands that the first frame
      * names - or for none, if it names none. */
    method Init(subbands: nat)
      requires Valid() && !isSet && (subbands == sub || subbands == 0)
      modifies this`history, this`isSet, V, offset
      ensures Valid() && Shape() && isSet == (subbands == sub)
      ensures forall c :: 0 <= c < 20 * sub ==> Register()[c] == 0
    {
      forall k | 0 <= k < V.Length {
        V[k] := 0;
      }
      ghost var o := offset[..];
      for i := 0 to 2 * subbands
        invariant forall k :: 0 <= k < i ==> offset[k] == 10 * k + 10
        invariant subbands == 0 ==> offset[..] == o
        invariant forall k :: 0 <= k < V.Length ==> V[k] == 0
      {
        offset[i] := 10 * i + 10;
      }
      history := Silence(sub);
      isSet := subbands == sub;
      assert forall k :: 0 <= k < |V[..]| ==> V[..][k] == 0;
    }

    /** Move the window of row `k` down and write its new value. */
    method MoveRow(k: nat, value: int)
      requires Shape() && k < 2 * sub && 0 <= offset[k] <= Ring()
      modifies V, offset
      ensures offset[..] == old(offset[..])[k := Down(old(offset[k]), Ring())]
      ensures Moved(old(V[..]), V[..], Down(old(offset[k]), Ring()), value, old(offset[k]) == 0, Ring())
    {
      offset[k] := offset[k] - 1;
      if offset[k] < 0 {
        offset[k] := 20 * sub - 1;
        for j := 0 to 9
          invariant forall c :: 0 <= c < V.Length && !(20 * sub <= c < 20 * sub + j) ==> V[c] == old(V[c])
          invariant forall c :: 0 <= c < j ==> V[20 * sub + c] == old(V[c])
          invariant offset[..] == old(offset[..])[k := 20 * sub - 1]
        {
          V[j + 20 * sub] := V[j];
        }
      }
      V[offset[k]] := value;
    }

    /** Take the matrixed values of one block: the decoder's counterpart of the standard's shift. */
    method TakeBlock(t: Tables, s: seq<int>)
      requires Valid() && t.ForSubbands(sub) && |s| == sub
      modifies this`history, V, offset
      ensures Valid()
      ensures history == Push(old(history), Matrixing(Effective(t), sub, s))
    {
      hide Holds, Spread, Together, Matrixing, Between, OneColumn;
      ghost var o, h, x := Offsets(), history, Matrixing(t, sub, s);
      FirstRow(x);
      for i := 0 to 2 * sub
        invariant Between(o, h, x, i)
      {
        NextRow(o, h, t, s, i);
      }
      LastRow(o, h, t, s);
      history := Push(history, Matrixing(Effective(t), sub, s));
    }

    /** Row `k` of a block is next. */
    ghost predicate Between(o: seq<int>, h: seq<seq<int>>, x: seq<int>, k: nat)
      reads this, V, offset
    {
      && Shape() && history == h && |o| == |x| == 2 * sub && k <= 2 * sub
      && if isSet then Spread(o, Ring()) && Midway(V[..], Offsets(), o, h, x, k, Ring())
         else Together(o, Ring()) && MidwayTogether(V[..], Offsets(), o, h, x, k, Ring())
    }

    lemma FirstRow(x: seq<int>)
      requires Valid() && |x| == 2 * sub
      ensures Between(Offsets(), history, x, 0) && (!isSet ==> OneColumn(history))
    {
      var o := Offsets();
      assert forall j :: 0 <= j < 10 ==> V[..][o[0] + j] == history[j][0];
      if !isSet {
        forall b, i | 0 <= b < 10 && 0 <= i < 2 * sub ensures history[b][i] == history[b][0] {
          assert V[..][o[i] + b] == history[b][i];
        }
      }
    }

    method NextRow(ghost o: seq<int>, ghost h: seq<seq<int>>, t: Tables, s: seq<int>, k: nat)
      requires t.ForSubbands(sub) && |s| == sub && k < 2 * sub && Between(o, h, Matrixing(t, sub, s), k)
      modifies V, offset
      ensures Between(o, h, Matrixing(t, sub, s), k + 1)
    {
      ghost var x, v, p := Matrixing(t, sub, s), V[..], Offsets();
      assert p[k] == o[k];
      MoveRow(k, Matrixed(t.synmatrix[k], s));
      hide Midway, MidwayTogether, Moved, Matrixed;
      if isSet {
        MoveKeeps(v, V[..], p, o, h, x, k, Ring());
      } else {
        MoveTogether(v, V[..], p, o, h, x, k, Ring());
      }
      assert Offsets() == p[k := Down(o[k], Ring())];
    }

    lemma LastRow(o: seq<int>, h: seq<seq<int>>, t: Tables, s: seq<int>)
      requires t.ForSubbands(sub) && |s| == sub && Between(o, h, Matrixing(t, sub, s), 2 * sub)
      requires !isSet ==> OneColumn(h)
      ensures Shape() && history == h
      ensures var g := Push(h, Matrixing(Effective(t), sub, s));
        && IsHistory(g, sub) && Holds(V[..], Offsets(), g, 0, 2 * sub, 10)
        && if isSet then Spread(Offsets(), Ring()) else Together(Offsets(), Ring())
    {
      hide Matrixing;
      if isSet {
        SpreadDown(o, Offsets(), Ring());
      } else {
        AllLast(t, s);
        AllMoved(V[..], Offsets(), o, history, Matrixing(t, sub, s), Ring());
      }
    }

    lemma AllLast(t: Tables, s: seq<int>)
      requires Shape() && t.ForSubbands(sub) && |s| == sub
      ensures Matrixing(LastRowOnly(t, sub), sub, s) == LastOnly(Matrixing(t, sub, s))
    {
    }

    /** Filter one block of subband samples. */
    method Synthesize(t: Tables, s: seq<int>) returns (pcm: seq<int>)
      requires Valid() && t.ForSubbands(sub) && |s| == sub
      modifies this`history, V, offset
      ensures Valid()
      ensures history == Push(old(history), Matrixing(Effective(t), sub, s))
      ensures Register() == Shift(old(Register()), Matrixing(Effective(t), sub, s))
      ensures pcm == Output(Effective(t), sub, Register())
    {
      ShiftIsPush(history, sub, Matrixing(Effective(t), sub, s));
      TakeBlock(t, s);
      pcm := Windows(t);
      SameOutput(t, sub, Register());
    }

    /** The output of a block, sample by sample. */
    method Windows(t: Tables) returns (pcm: seq<int>)
      requires Valid() && t.ForSubbands(sub)
      ensures pcm == Output(t, sub, Register())
    {
      hide OutputSample, Holds, Spread, Together, Flat;
      pcm := [];
      for i := 0 to sub
        invariant |pcm| == i && forall j :: 0 <= j < i ==> pcm[j] == OutputSample(t, sub, Register(), j)
      {
        var p := Window(t, i);
        pcm := pcm + [p];
      }
    }

    lemma RowHeld(i: nat)
      requires Valid() && i < 2 * sub
      ensures 0 <= offset[i] <= 160
      ensures forall j :: 0 <= j < 10 ==> V[offset[i] + j] == history[j][i]
    {
      var o := Offsets()[i];
      forall j | 0 <= j < 10 ensures V[offset[i] + j] == history[j][i] {
        assert V[..][o + j] == history[j][i];
      }
    }

    /** The ten cells behind output sample `i`, alternating between rows `i` and `i + sub`. */
    method ReadTaps(i: nat) returns (c: seq<int>)
      requires Valid() && i < sub
      ensures var (h, k) := (history, i + sub);
        c == [h[0][i], h[1][k], h[2][i], h[3][k], h[4][i], h[5][k], h[6][i], h[7][k], h[8][i], h[9][k]]
    {
      var k := (i + sub) % 16;
      var a, b := offset[i], offset[k];
      RowHeld(i);
      RowHeld(k);
      c := [V[a + 0], V[b + 1], V[a + 2], V[b + 3], V[a + 4], V[b + 5], V[a + 6], V[b + 7], V[a + 8], V[b + 9]];
    }

    /** One output sample. */
    method Window(t: Tables, i: nat) returns (p: int)
      requires Valid() && t.ForSubbands(sub) && i < sub
      ensures p == OutputSample(t, sub, Register(), i)
    {
      var c := ReadTaps(i);
      TapsUnrolled(t, sub, history, i);
      p := Clip16(Scale(TenProducts(t, 5 * i, c)));
    }

    /** Filter a whole sequence of blocks, as for one frame or many.  At the end
      * cell `j` of the window of row `i` holds what that row was given `j` blocks ago. */
    method SynthesizeAudio(t: Tables, blocks: seq<seq<int>>) returns (pcm: seq<int>)
      requires Valid() && t.ForSubbands(sub)
      requires forall b :: 0 <= b < |blocks| ==> |blocks[b]| == sub
      modifies this`history, V, offset
      ensures Valid() && Shape()
      ensures Register() == RegisterAfter(Effective(t), sub, old(Register()), blocks)
      ensures pcm == Filter(Effective(t), sub, old(Register()), blocks)
      ensures forall j, i :: 0 <= j < 10 && j < |blocks| && 0 <= i < 2 * sub ==>
        V[offset[i] + j] == history[j][i] == Matrixed(Effective(t).synmatrix[i], blocks[|blocks| - 1 - j])
    {
      hide InEffect, Spread, Together, Holds, Scale, Dot, Clip16;
      pcm := [];
      for blk := 0 to |blocks|
        invariant Valid()
        invariant Register() == RegisterAfter(Effective(t), sub, old(Register()), blocks[..blk])
        invariant pcm == Filter(Effective(t), sub, old(Register()), blocks[..blk])
        invariant forall j, i :: 0 <= j < 10 && j < blk && 0 <= i < 2 * sub ==>
          history[j][i] == Matrixed(Effective(t).synmatrix[i], blocks[blk - 1 - j])
      {
        var out := Synthesize(t, blocks[blk]);
        assert blocks[..blk + 1][..blk] == blocks[..blk];
        pcm := pcm + out;
      }
      assert blocks[..|blocks|] == blocks;
      forall i | 0 <= i < 2 * sub
        ensures 0 <= offset[i] <= 160 && forall j :: 0 <= j < 10 ==> V[offset[i] + j] == history[j][i]
      {
        RowHeld(i);
      }
    }
  }
}
