/** How sequences are taken apart and put together again. */
module Sequences {
  lemma Associate<T>(a: seq<T>, b: seq<T>, c: seq<T>)
    ensures a + b + c == a + (b + c)
  {
  }

  lemma LastApart<T>(s: seq<T>)
    requires s != []
    ensures s == s[..|s| - 1] + [s[|s| - 1]]
  {
  }

  lemma FirstApart<T>(s: seq<T>)
    requires s != []
    ensures s == [s[0]] + s[1..] && |s| == 1 + |s[1..]|
  {
  }

  lemma RestOfConcat<T>(a: seq<T>, b: seq<T>)
    ensures (a + b)[|a|..] == b && (a + b)[..|a|] == a
  {
  }

  /** The part from `k` on, with and without the last element. */
  lemma LastOfRest<T>(s: seq<T>, k: nat)
    requires k < |s|
    ensures s[k..] == s[..|s| - 1][k..] + [s[|s| - 1]] && s[..|s| - 1][..k] == s[..k]
  {
  }

  /** Splitting after the first element is taken off. */
  lemma SplitRest<T>(s: seq<T>, n: nat)
    requires 0 < n <= |s|
    ensures s[1..][..n - 1] == s[..n][1..] && s[1..][n - 1..] == s[n..]
    ensures s[..n] != [] && s[..n][0] == s[0]
  {
  }

  /** A part of a part. */
  lemma PartOfPart<T>(s: seq<T>, k: nat, m: nat, i: nat, j: nat)
    requires k <= m <= |s| && i <= j <= m - k
    ensures s[k..m][i..j] == s[k + i..k + j]
  {
    var part := s[k..m];
    forall x | 0 <= x < j - i ensures part[i..j][x] == s[k + i..k + j][x] {
      assert part[i..j][x] == part[i + x];
    }
  }
}
