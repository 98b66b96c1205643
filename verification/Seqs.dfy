/** Taking concatenations apart. */
module Seqs {

  lemma Assoc<T>(a: seq<T>, b: seq<T>, c: seq<T>)
    ensures (a + b) + c == a + (b + c)
  {}

  lemma Whole<T>(a: seq<T>, k: nat)
    requires k <= |a|
    ensures a == a[..k] + a[k..]
  {}

  /** A cut in the first part. */
  lemma CutFirst<T>(a: seq<T>, b: seq<T>, k: nat)
    requires k <= |a|
    ensures (a + b)[..k] == a[..k] && (a + b)[k..] == a[k..] + b
  {}

  /** A cut `k` into the second part. */
  lemma CutSecond<T>(a: seq<T>, b: seq<T>, k: nat)
    requires k <= |b|
    ensures (a + b)[..|a| + k] == a + b[..k] && (a + b)[|a| + k..] == b[k..]
  {}

  lemma Empty<T>(a: seq<T>)
    ensures a + [] == a && [] + a == a && a[..0] == [] && a[0..] == a && a[|a|..] == [] && a[..|a|] == a
  {}

  /** A slice of a slice. */
  lemma SubSlice<T>(s: seq<T>, a: nat, n: nat, i: nat, j: nat)
    requires a + n <= |s| && i <= j <= n
    ensures s[a..a + n][i..j] == s[a + i..a + j]
  {
    var x, y := s[a..a + n][i..j], s[a + i..a + j];
    assert |x| == j - i && |y| == a + j - (a + i) == j - i;
    forall k | 0 <= k < |x|
      ensures x[k] == y[k]
    {
      assert x[k] == s[a..a + n][i + k] == s[a + (i + k)];
      assert y[k] == s[a + i + k];
    }
  }
}
