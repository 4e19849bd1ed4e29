/** The SBC bit allocator (A2DP section 12.6.3): a water level, the "bit slice",
  * is lowered until the bits above it would fill the bitpool; two passes then
  * hand out what the last whole slice left over.
  *
  * The allocator works here on any number of subbands and any integer bit
  * needs.  In the stereo modes the two channels share one pool and are visited
  * alternately, subband by subband, so they form one interleaved sequence.
  */
module BitAllocation {

  /** Most bits one subband sample may take. */
  const MAX_BITS := 16

  /** Bits granted to a subband whose need is `need` when the water level stands at `slice`. */
  function Level(need: int, slice: int): nat {
    if need < slice + 2 then 0 else if need - slice > MAX_BITS then MAX_BITS else need - slice
  }

  /** What the loop counts for that subband before it lowers the level by one. */
  function Contribution(need: int, slice: int): nat {
    if slice + 1 < need < slice + 16 then 1 else if need == slice + 1 then 2 else 0
  }

  function LevelSum(need: seq<int>, slice: int, n: nat): nat
    requires n <= |need|
  {
    if n == 0 then 0 else LevelSum(need, slice, n - 1) + Level(need[n - 1], slice)
  }

  function ContributionSum(need: seq<int>, slice: int, n: nat): nat
    requires n <= |need|
  {
    if n == 0 then 0 else ContributionSum(need, slice, n - 1) + Contribution(need[n - 1], slice)
  }

  function Sum(bits: seq<nat>): nat {
    if bits == [] then 0 else Sum(bits[..|bits| - 1]) + bits[|bits| - 1]
  }

  /** The level the loop starts above: the largest need, but never below zero. */
  function MaxNeed(need: seq<int>, n: nat): (m: int)
    requires n <= |need|
    ensures m >= 0 && forall k :: 0 <= k < n ==> need[k] <= m
  {
    if n == 0 then 0 else
      var m := MaxNeed(need, n - 1);
      if need[n - 1] > m then need[n - 1] else m
  }

  function MinNeed(need: seq<int>): (m: int)
    ensures m <= 0 && forall k :: 0 <= k < |need| ==> m <= need[k]
  {
    if need == [] then 0 else
      var m := MinNeed(need[..|need| - 1]);
      if need[|need| - 1] < m then need[|need| - 1] else m
  }

  // ----- the slicing loop -----

  /** Lowering the level by one slice adds exactly what the loop counts for that slice. */
  lemma {:induction false} SliceStep(need: seq<int>, slice: int, n: nat)
    requires n <= |need|
    ensures LevelSum(need, slice, n) + ContributionSum(need, slice, n) == LevelSum(need, slice - 1, n)
  {
    if n > 0 {
      SliceStep(need, slice, n - 1);
    }
  }

  lemma {:induction false} LevelSumBound(need: seq<int>, slice: int, n: nat)
    requires n <= |need|
    ensures LevelSum(need, slice, n) <= MAX_BITS * n
    ensures (forall k :: 0 <= k < n ==> need[k] >= slice + MAX_BITS) ==> LevelSum(need, slice, n) == MAX_BITS * n
    ensures (forall k :: 0 <= k < n ==> need[k] <= slice + 1) ==> LevelSum(need, slice, n) == 0
  {
    if n > 0 {
      LevelSumBound(need, slice, n - 1);
    }
  }

  /** Where the slicing loop stops when it is entered with the level at `slice`. */
  function StopSlice(need: seq<int>, pool: nat, slice: int): (r: int)
    requires pool <= MAX_BITS * |need|
    ensures r <= slice && LevelSum(need, r - 1, |need|) >= pool
    ensures r == slice || LevelSum(need, r, |need|) < pool
    decreases slice - MinNeed(need) + MAX_BITS
  {
    LevelSumBound(need, slice - 1, |need|);
    if LevelSum(need, slice - 1, |need|) >= pool then slice else StopSlice(need, pool, slice - 1)
  }

  /** The loop leaves when the bits above the next slice reach the pool.  Below
    * the largest need there is such a slice exactly when the bitpool passes the
    * guard of 16 bits a subband, so that guard is what makes the loop stop. */
  lemma SlicingStopsIff(need: seq<int>, pool: nat)
    ensures (exists slice :: slice < MaxNeed(need, |need|) && LevelSum(need, slice, |need|) >= pool)
      <==> pool <= MAX_BITS * |need|
  {
    if pool <= MAX_BITS * |need| {
      var r := StopSlice(need, pool, MaxNeed(need, |need|));
      assert LevelSum(need, r - 1, |need|) >= pool;
    }
    forall slice: int ensures LevelSum(need, slice, |need|) <= MAX_BITS * |need| {
      LevelSumBound(need, slice, |need|);
    }
  }

  /** The level the first distribution uses: a slice that fits exactly is taken whole. */
  function FinalSlice(need: seq<int>, pool: nat): (r: int)
    requires pool <= MAX_BITS * |need|
    ensures LevelSum(need, r, |need|) <= pool
    ensures LevelSum(need, r, |need|) == pool || pool < LevelSum(need, r - 1, |need|)
  {
    var top := MaxNeed(need, |need|);
    var s := StopSlice(need, pool, top);
    LevelSumBound(need, top, |need|);
    if LevelSum(need, s - 1, |need|) == pool then s - 1 else s
  }

  function Levels(need: seq<int>, slice: int): (r: seq<nat>)
    ensures |r| == |need| && forall k :: 0 <= k < |need| ==> r[k] == Level(need[k], slice)
  {
    seq(|need|, k requires 0 <= k < |need| => Level(need[k], slice))
  }

  // ----- the two passes over the remainder -----

  /** Bits handed out so far, with the running count the code keeps beside them. */
  datatype Tally = Tally(bits: seq<nat>, count: nat)

  /** What one visit of the second pass does at position `i`. */
  function SecondStep(need: seq<int>, slice: int, pool: nat, t: Tally, i: nat): (r: Tally)
    requires i < |need| == |t.bits|
    ensures |r.bits| == |need|
  {
    if 2 <= t.bits[i] < MAX_BITS then Tally(t.bits[i := t.bits[i] + 1], t.count + 1)
    else if need[i] == slice + 1 && pool > t.count + 1 then Tally(t.bits[i := 2], t.count + 2)
    else t
  }

  function SecondPass(need: seq<int>, slice: int, pool: nat, t: Tally, i: nat): (r: Tally)
    requires i <= |need| == |t.bits|
    ensures |r.bits| == |need|
    decreases |need| - i
  {
    if i == |need| || t.count >= pool then t
    else SecondPass(need, slice, pool, SecondStep(need, slice, pool, t, i), i + 1)
  }

  function ThirdPass(pool: nat, t: Tally, i: nat): (r: Tally)
    requires i <= |t.bits|
    ensures |r.bits| == |t.bits|
    decreases |t.bits| - i
  {
    if i == |t.bits| || t.count >= pool then t
    else if t.bits[i] < MAX_BITS then ThirdPass(pool, Tally(t.bits[i := t.bits[i] + 1], t.count + 1), i + 1)
    else ThirdPass(pool, t, i + 1)
  }

  function AfterSlicing(need: seq<int>, pool: nat): Tally
    requires pool <= MAX_BITS * |need|
  {
    Tally(Levels(need, FinalSlice(need, pool)), LevelSum(need, FinalSlice(need, pool), |need|))
  }

  function AfterSecond(need: seq<int>, pool: nat): (r: Tally)
    requires pool <= MAX_BITS * |need|
    ensures |r.bits| == |need|
  {
    SecondPass(need, FinalSlice(need, pool), pool, AfterSlicing(need, pool), 0)
  }

  /** The bits array the allocator leaves behind. */
  function Allocation(need: seq<int>, pool: nat): (bits: seq<nat>)
    requires pool <= MAX_BITS * |need|
    ensures |bits| == |need|
  {
    ThirdPass(pool, AfterSecond(need, pool), 0).bits
  }

  // ----- what the passes keep -----

  lemma {:induction false} SumUpdate(bits: seq<nat>, i: nat, v: nat)
    requires i < |bits|
    ensures Sum(bits[i := v]) == Sum(bits) - bits[i] + v
  {
    var n := |bits| - 1;
    if i < n {
      SumUpdate(bits[..n], i, v);
      assert bits[i := v][..n] == bits[..n][i := v];
    } else {
      assert bits[i := v][..n] == bits[..n];
    }
  }

  lemma {:induction false} SumBound(bits: seq<nat>, cap: nat)
    requires forall k :: 0 <= k < |bits| ==> bits[k] >= cap
    ensures Sum(bits) >= cap * |bits|
  {
    if bits != [] {
      SumBound(bits[..|bits| - 1], cap);
    }
  }

  lemma {:induction false} SumLevels(need: seq<int>, slice: int, n: nat)
    requires n <= |need|
    ensures Sum(Levels(need, slice)[..n]) == LevelSum(need, slice, n)
  {
    if n > 0 {
      SumLevels(need, slice, n - 1);
      assert Levels(need, slice)[..n][..n - 1] == Levels(need, slice)[..n - 1];
    }
  }

  /** Contributions still on offer from position `i` on. */
  function OnOffer(need: seq<int>, slice: int, i: nat): nat
    requires i <= |need|
    decreases |need| - i
  {
    if i == |need| then 0 else Contribution(need[i], slice) + OnOffer(need, slice, i + 1)
  }

  lemma {:induction false} OnOfferSplits(need: seq<int>, slice: int, i: nat)
    requires i <= |need|
    ensures OnOffer(need, slice, i) == ContributionSum(need, slice, |need|) - ContributionSum(need, slice, i)
    decreases |need| - i
  {
    if i < |need| {
      OnOfferSplits(need, slice, i + 1);
    }
  }

  /** The running count is the sum of the bits, never overshoots, and falls
    * short by more than one bit only if every contribution was granted. */
  lemma {:induction false} SecondPassCount(need: seq<int>, slice: int, pool: nat, t: Tally, i: nat)
    requires i <= |need| == |t.bits|
    requires forall k :: i <= k < |need| ==> t.bits[k] == Level(need[k], slice)
    requires t.count == Sum(t.bits) <= pool
    ensures var r := SecondPass(need, slice, pool, t, i);
      && t.count <= r.count == Sum(r.bits) <= pool
      && (pool <= r.count + 1 || r.count == t.count + OnOffer(need, slice, i))
    decreases |need| - i
  {
    if i < |need| && t.count < pool {
      var u := SecondStep(need, slice, pool, t, i);
      SumUpdate(t.bits, i, u.bits[i]);
      assert t.bits[i := t.bits[i]] == t.bits;
      SecondPassCount(need, slice, pool, u, i + 1);
    }
  }

  /** Each subband gets its contribution or nothing. */
  lemma {:induction false} SecondPassGrants(need: seq<int>, slice: int, pool: nat, t: Tally, i: nat)
    requires i <= |need| == |t.bits|
    requires forall k :: i <= k < |need| ==> t.bits[k] == Level(need[k], slice)
    ensures var r := SecondPass(need, slice, pool, t, i).bits;
      forall k :: 0 <= k < |need| ==>
        r[k] == t.bits[k] || (i <= k && r[k] == t.bits[k] + Contribution(need[k], slice))
    decreases |need| - i
  {
    if i < |need| && t.count < pool {
      SecondPassGrants(need, slice, pool, SecondStep(need, slice, pool, t, i), i + 1);
    }
  }

  /** At most one bit is left when the second pass ends. */
  lemma LeftoverAtMostOne(need: seq<int>, pool: nat)
    requires pool <= MAX_BITS * |need|
    ensures var t := AfterSecond(need, pool); t.count == Sum(t.bits) && t.count <= pool <= t.count + 1
  {
    var slice := FinalSlice(need, pool);
    SumLevels(need, slice, |need|);
    assert Levels(need, slice)[..|need|] == Levels(need, slice);
    SliceStep(need, slice, |need|);
    OnOfferSplits(need, slice, 0);
    SecondPassCount(need, slice, pool, AfterSlicing(need, pool), 0);
  }

  /** With at most one bit left, the third pass gives it to the first subband with room. */
  lemma {:induction false} ThirdPassGrants(pool: nat, t: Tally, i: nat)
    requires i <= |t.bits| && t.count == Sum(t.bits) && t.count <= pool <= t.count + 1
    requires t.count == pool || exists k :: i <= k < |t.bits| && t.bits[k] < MAX_BITS
    ensures var r := ThirdPass(pool, t, i);
      && r.count == Sum(r.bits) == pool
      && (t.count == pool ==> r == t)
      && (t.count < pool ==>
            exists k :: i <= k < |t.bits| && t.bits[k] < MAX_BITS && r.bits == t.bits[k := t.bits[k] + 1])
    decreases |t.bits| - i
  {
    if i < |t.bits| && t.count < pool {
      if t.bits[i] < MAX_BITS {
        SumUpdate(t.bits, i, t.bits[i] + 1);
        var u := Tally(t.bits[i := t.bits[i] + 1], t.count + 1);
        assert ThirdPass(pool, u, i + 1) == u;
      } else {
        ThirdPassGrants(pool, t, i + 1);
      }
    }
  }

  /** Everything the last two passes do, in one statement. */
  lemma AllocationShape(need: seq<int>, pool: nat)
    requires pool <= MAX_BITS * |need|
    ensures var slice, t, bits := FinalSlice(need, pool), AfterSecond(need, pool), Allocation(need, pool);
      && Sum(bits) == pool
      && (forall k :: 0 <= k < |need| ==>
            t.bits[k] == Level(need[k], slice) || t.bits[k] == Level(need[k], slice) + Contribution(need[k], slice))
      && (bits == t.bits || exists k :: 0 <= k < |need| && t.bits[k] < MAX_BITS && bits == t.bits[k := t.bits[k] + 1])
      && (bits == t.bits <==> t.count == pool)
  {
    hide Sum, LevelSum, Level, Contribution, SecondPass, ThirdPass, FinalSlice;
    SecondPassShape(need, pool);
    LeftoverAtMostOne(need, pool);
    var t := AfterSecond(need, pool);
    if t.count < pool {
      RoomLeft(t.bits, pool);
    }
    ThirdPassGrants(pool, t, 0);
  }

  lemma SecondPassShape(need: seq<int>, pool: nat)
    requires pool <= MAX_BITS * |need|
    ensures var slice, t := FinalSlice(need, pool), AfterSecond(need, pool);
      forall k :: 0 <= k < |need| ==>
        t.bits[k] == Level(need[k], slice) || t.bits[k] == Level(need[k], slice) + Contribution(need[k], slice)
  {
    SecondPassGrants(need, FinalSlice(need, pool), pool, AfterSlicing(need, pool), 0);
  }

  /** While the pool is not spent some subband is not full. */
  lemma RoomLeft(bits: seq<nat>, pool: nat)
    requires Sum(bits) < pool <= MAX_BITS * |bits|
    ensures exists k :: 0 <= k < |bits| && bits[k] < MAX_BITS
  {
    if forall k :: 0 <= k < |bits| ==> bits[k] >= MAX_BITS {
      SumBound(bits, MAX_BITS);
      assert false;
    }
  }

  /** Allocation exactness: every grant fits a subband and the pool is spent to the last bit. */
  lemma AllocationExact(need: seq<int>, pool: nat)
    requires pool <= MAX_BITS * |need|
    ensures Sum(Allocation(need, pool)) == pool
    ensures forall k :: 0 <= k < |need| ==> 0 <= Allocation(need, pool)[k] <= MAX_BITS
  {
    AllocationShape(need, pool);
  }

  /** Fairness: a larger need is never more than one bit behind, and not behind
    * at all when the third pass had nothing to give. */
  lemma AllocationFair(need: seq<int>, pool: nat, i: nat, j: nat)
    requires pool <= MAX_BITS * |need|
    requires i < |need| && j < |need| && need[i] > need[j]
    ensures Allocation(need, pool)[j] <= Allocation(need, pool)[i] + 1
    ensures AfterSecond(need, pool).count == pool ==> Allocation(need, pool)[j] <= Allocation(need, pool)[i]
  {
    AllocationShape(need, pool);
  }

  /** A subband can only end with a single bit because the third pass gave it
    * one: the first two passes grant none, or at least two. */
  lemma SingleBitOnlyFromThirdPass(need: seq<int>, pool: nat, k: nat)
    requires pool <= MAX_BITS * |need| && k < |need|
    ensures AfterSecond(need, pool).bits[k] != 1
    ensures Allocation(need, pool)[k] == 1 ==>
      AfterSecond(need, pool).bits[k] == 0 && AfterSecond(need, pool).count + 1 == pool
  {
    AllocationShape(need, pool);
    LeftoverAtMostOne(need, pool);
  }

  /** The allocator as the decoder and the encoder run it. */
  method AllocateBits(need: array<int>, pool: nat, bits: array<int>)
    requires need != bits && need.Length == bits.Length
    requires pool <= MAX_BITS * need.Length
    modifies bits
    ensures bits[..] == Allocation(need[..], pool)
  {
    var bitslice, bitcount := LowerSlice(need, pool);
    for sb := 0 to need.Length
      invariant forall k :: 0 <= k < sb ==> bits[k] == Level(need[k], bitslice)
    {
      if need[sb] < bitslice + 2 {
        bits[sb] := 0;
      } else {
        bits[sb] := need[sb] - bitslice;
        if bits[sb] > 16 {
          bits[sb] := 16;
        }
      }
    }
    assert bits[..] == Levels(need[..], bitslice);
    ghost var levels := AfterSlicing(need[..], pool);
    bitcount := RunSecondPass(need, bitslice, pool, bits, bitcount, levels);
    RunThirdPass(pool, bits, bitcount, AfterSecond(need[..], pool));
  }

  /** The slicing loop, and the extra slice taken when it fits exactly. */
  method LowerSlice(need: array<int>, pool: nat) returns (bitslice: int, bitcount: nat)
    requires pool <= MAX_BITS * need.Length
    ensures bitslice == FinalSlice(need[..], pool)
    ensures bitcount == LevelSum(need[..], bitslice, need.Length)
  {
    var n := need.Length;
    ghost var ns := need[..];
    var maxBitneed := 0;
    for sb := 0 to n
      invariant maxBitneed == MaxNeed(ns, sb)
    {
      if need[sb] > maxBitneed {
        maxBitneed := need[sb];
      }
    }

    bitslice := maxBitneed;
    bitcount := 0;
    LevelSumBound(ns, bitslice, n);
    var slicecount := CountSlice(need, bitslice);
    hide LevelSum, ContributionSum, StopSlice, FinalSlice, MinNeed, MaxNeed;
    while bitcount + slicecount < pool
      invariant bitslice <= maxBitneed
      invariant bitcount == LevelSum(ns, bitslice, n)
      invariant bitcount + slicecount == LevelSum(ns, bitslice - 1, n)
      invariant StopSlice(ns, pool, maxBitneed) == StopSlice(ns, pool, bitslice)
      decreases bitslice - MinNeed(ns) + MAX_BITS
    {
      SlicingGoesOn(ns, pool, bitslice);
      bitslice := bitslice - 1;
      bitcount := bitcount + slicecount;
      slicecount := CountSlice(need, bitslice);
    }

    SlicingEnds(ns, pool, maxBitneed, bitslice);
    if bitcount + slicecount == pool {
      bitcount := bitcount + slicecount;
      bitslice := bitslice - 1;
    }
  }

  /** While the next slice does not reach the pool, the loop stops where it would from there. */
  lemma SlicingGoesOn(need: seq<int>, pool: nat, slice: int)
    requires pool <= MAX_BITS * |need| && LevelSum(need, slice - 1, |need|) < pool
    ensures StopSlice(need, pool, slice) == StopSlice(need, pool, slice - 1)
    ensures slice - MinNeed(need) + MAX_BITS >= 0
  {
    LevelSumBound(need, slice - 1, |need|);
  }

  /** Where the next slice reaches the pool is where the loop stops. */
  lemma SlicingEnds(need: seq<int>, pool: nat, top: int, slice: int)
    requires pool <= MAX_BITS * |need| && top == MaxNeed(need, |need|)
    requires StopSlice(need, pool, top) == StopSlice(need, pool, slice) && LevelSum(need, slice - 1, |need|) >= pool
    ensures FinalSlice(need, pool) == if LevelSum(need, slice - 1, |need|) == pool then slice - 1 else slice
  {
  }

  /** One round of counting: the bits the slice below `bitslice` would take. */
  method CountSlice(need: array<int>, bitslice: int) returns (slicecount: nat)
    ensures slicecount == ContributionSum(need[..], bitslice, need.Length)
    ensures LevelSum(need[..], bitslice, need.Length) + slicecount == LevelSum(need[..], bitslice - 1, need.Length)
  {
    slicecount := 0;
    for sb := 0 to need.Length
      invariant slicecount == ContributionSum(need[..], bitslice, sb)
    {
      if need[sb] > bitslice + 1 && need[sb] < bitslice + 16 {
        slicecount := slicecount + 1;
      } else if need[sb] == bitslice + 1 {
        slicecount := slicecount + 2;
      }
    }
    SliceStep(need[..], bitslice, need.Length);
  }

  method RunSecondPass(need: array<int>, bitslice: int, pool: nat, bits: array<int>, taken: nat, ghost from: Tally)
      returns (bitcount: nat)
    requires need != bits && need.Length == bits.Length
    requires from.bits == bits[..] && from.count == taken
    modifies bits
    ensures var r := SecondPass(need[..], bitslice, pool, from, 0); bits[..] == r.bits && bitcount == r.count
  {
    bitcount := taken;
    ghost var t := from;
    var sb := 0;
    while bitcount < pool && sb < need.Length
      invariant 0 <= sb <= need.Length
      invariant t.bits == bits[..] && t.count == bitcount
      invariant SecondPass(need[..], bitslice, pool, t, sb) == SecondPass(need[..], bitslice, pool, from, 0)
    {
      t := SecondStep(need[..], bitslice, pool, t, sb);
      if 2 <= bits[sb] < 16 {
        bits[sb] := bits[sb] + 1;
        bitcount := bitcount + 1;
      } else if need[sb] == bitslice + 1 && pool > bitcount + 1 {
        bits[sb] := 2;
        bitcount := bitcount + 2;
      }
      sb := sb + 1;
    }
  }

  method RunThirdPass(pool: nat, bits: array<int>, taken: nat, ghost from: Tally)
    requires from.bits == bits[..] && from.count == taken
    modifies bits
    ensures bits[..] == ThirdPass(pool, from, 0).bits
  {
    var bitcount := taken;
    ghost var t := from;
    var sb := 0;
    while bitcount < pool && sb < bits.Length
      invariant 0 <= sb <= bits.Length
      invariant t.bits == bits[..] && t.count == bitcount
      invariant ThirdPass(pool, t, sb) == ThirdPass(pool, from, 0)
    {
      if bits[sb] < 16 {
        t := Tally(t.bits[sb := t.bits[sb] + 1], t.count + 1);
        bits[sb] := bits[sb] + 1;
        bitcount := bitcount + 1;
      }
      sb := sb + 1;
    }
  }
}
