/** Facts about slices and concatenations of any sequences, stated once so that
  * larger proofs can use them without looking inside the sequences. */
module Sequences {

  lemma Associative<T>(a: seq<T>, b: seq<T>, c: seq<T>)
    ensures (a + b) + c == a + (b + c)
  {
  }

  lemma Parts<T>(a: seq<T>, b: seq<T>)
    ensures (a + b)[..|a|] == a && (a + b)[|a|..] == b
  {
  }

  lemma Halves<T>(s: seq<T>, i: nat)
    requires i <= |s|
    ensures s == s[..i] + s[i..]
  {
  }

  lemma TakeInTwo<T>(s: seq<T>, i: nat, n: nat)
    requires i <= n <= |s|
    ensures s[..n] == s[..i] + s[i..n]
  {
  }

  lemma DropTwice<T>(s: seq<T>, i: nat, j: nat)
    requires i + j <= |s|
    ensures s[i..][j..] == s[i + j..]
  {
  }

  lemma TakeOfDrop<T>(s: seq<T>, i: nat, n: nat)
    requires i + n <= |s|
    ensures s[i..][..n] == s[i..i + n]
  {
  }

  lemma Around<T>(s: seq<T>, i: nat)
    requires i < |s|
    ensures s == s[..i] + ([s[i]] + s[i + 1..])
  {
  }

  /** Replacing one element. */
  lemma Updated<T>(s: seq<T>, i: nat, x: T)
    requires i < |s|
    ensures s[i := x] == s[..i] + ([x] + s[i + 1..])
    ensures s[i := x][..i] == s[..i] && s[i := x][..i + 1] == s[..i] + [x]
  {
  }

  /** A slice that reaches into the middle part. */
  lemma IntoMiddle<T>(a: seq<T>, b: seq<T>, c: seq<T>, n: nat)
    requires n <= |b|
    ensures (a + (b + c))[..|a| + n] == a + b[..n]
  {
  }

  /** The middle part, and a slice of it. */
  lemma Middle<T>(a: seq<T>, b: seq<T>, c: seq<T>, p: nat, n: nat)
    requires |a| <= p && p + n <= |a| + |b|
    ensures (a + (b + c))[p..p + n] == b[p - |a|..p - |a| + n]
  {
  }
}
