/** The running median of ultrasonic pings. */
module NewPing {
  const NO_ECHO := 0

  predicate Descending(s: seq<nat>) {
    forall i, j | 0 <= i < j < |s| :: s[i] >= s[j]
  }

  /** The pings that were answered, in order. */
  function Answered(pings: seq<nat>): seq<nat>
    decreases |pings|
  {
    if pings == [] then []
    else
      var n := |pings| - 1;
      if pings[n] == NO_ECHO then Answered(pings[..n]) else Answered(pings[..n]) + [pings[n]]
  }

  /** Every measurement but 0 is kept, as often as it came. */
  lemma {:induction false} AnsweredKeeps(pings: seq<nat>, x: nat)
    ensures multiset(Answered(pings))[x] == if x == 0 then 0 else multiset(pings)[x]
    decreases |pings|
  {
    if pings != [] {
      var n := |pings| - 1;
      AnsweredKeeps(pings[..n], x);
      assert pings == pings[..n] + [pings[n]];
    }
  }

  /** `x` put behind the last element that is not smaller. */
  function Inserted(s: seq<nat>, x: nat): (r: seq<nat>)
    ensures |r| == |s| + 1
    decreases |s|
  {
    if s != [] && s[|s| - 1] < x then Inserted(s[..|s| - 1], x) + [s[|s| - 1]] else s + [x]
  }

  function Sorted(s: seq<nat>): (r: seq<nat>)
    ensures |r| == |s|
    decreases |s|
  {
    if s == [] then [] else Inserted(Sorted(s[..|s| - 1]), s[|s| - 1])
  }

  lemma {:induction false} InsertedIsDescending(s: seq<nat>, x: nat)
    requires Descending(s)
    ensures Descending(Inserted(s, x)) && multiset(Inserted(s, x)) == multiset(s) + multiset{x}
    ensures forall y :: y in Inserted(s, x) ==> y in s || y == x
    decreases |s|
  {
    if s != [] && s[|s| - 1] < x {
      var n := |s| - 1;
      var init := s[..n];
      assert Inserted(s, x) == Inserted(init, x) + [s[n]];
      hide Inserted;
      InsertedIsDescending(init, x);
      assert s == init + [s[n]];
      OneBehind(init, Inserted(init, x), s[n], x);
    } else {
      assert Inserted(s, x) == s + [x];
    }
  }

  /** `y`, which is no greater than anything in `s`, goes behind it, and behind it with `x` put in. */
  lemma OneBehind(s: seq<nat>, r: seq<nat>, y: nat, x: nat)
    requires Descending(s + [y]) && y < x && Descending(r) && multiset(r) == multiset(s) + multiset{x}
    requires forall z :: z in r ==> z in s || z == x
    ensures Descending(r + [y]) && multiset(r + [y]) == multiset(s + [y]) + multiset{x}
    ensures forall z :: z in r + [y] ==> z in s + [y] || z == x
  {
    forall i | 0 <= i < |r| ensures r[i] >= y {
      assert r[i] in r;
      if r[i] in s {
        var j :| 0 <= j < |s| && s[j] == r[i];
        assert (s + [y])[j] >= (s + [y])[|s|];
      }
    }
  }

  lemma {:induction false} SortedIsDescending(s: seq<nat>)
    ensures Descending(Sorted(s)) && multiset(Sorted(s)) == multiset(s)
    decreases |s|
  {
    if s != [] {
      var n := |s| - 1;
      SortedIsDescending(s[..n]);
      InsertedIsDescending(Sorted(s[..n]), s[n]);
      assert s == s[..n] + [s[n]];
    }
  }

  /** How many elements are greater than `x`. */
  function Above(s: seq<nat>, x: nat): nat
    decreases |s|
  {
    if s == [] then 0 else Above(s[..|s| - 1], x) + if s[|s| - 1] > x then 1 else 0
  }

  lemma {:induction false} AboveCounts(s: seq<nat>, x: nat)
    ensures Above(s, x) == |set i | 0 <= i < |s| && s[i] > x|
    decreases |s|
  {
    var above := set i | 0 <= i < |s| && s[i] > x;
    if s == [] {
      assert above == {};
    } else {
      var n := |s| - 1;
      var init := s[..n];
      AboveCounts(init, x);
      var before := set i | 0 <= i < |init| && init[i] > x;
      assert above == before + if s[n] > x then {n} else {};
    }
  }

  lemma {:induction false} AboveInserted(s: seq<nat>, y: nat, x: nat)
    ensures Above(Inserted(s, y), x) == Above(s, x) + if y > x then 1 else 0
    decreases |s|
  {
    var r := Inserted(s, y);
    if s != [] && s[|s| - 1] < y {
      AboveInserted(s[..|s| - 1], y, x);
      assert r[..|r| - 1] == Inserted(s[..|s| - 1], y);
    } else {
      assert r[..|r| - 1] == s;
    }
  }

  lemma {:induction false} AboveSorted(s: seq<nat>, x: nat)
    ensures Above(Sorted(s), x) == Above(s, x)
    decreases |s|
  {
    if s != [] {
      AboveSorted(s[..|s| - 1], x);
      AboveInserted(Sorted(s[..|s| - 1]), s[|s| - 1], x);
    }
  }

  /** In descending order, those greater than the element at `k` are before it, and `k` itself is among those that are
      not smaller. */
  lemma {:induction false} AboveDescending(s: seq<nat>, x: nat, k: nat)
    requires Descending(s) && k <= |s|
    requires forall i :: 0 <= i < k ==> s[i] > x
    requires forall i :: k <= i < |s| ==> s[i] <= x
    ensures Above(s, x) == k
    decreases |s|
  {
    if s != [] {
      var n := |s| - 1;
      AboveDescending(s[..n], x, if k == |s| then n else k);
    }
  }

  lemma {:induction false} AboveAtMost(s: seq<nat>, k: nat)
    requires Descending(s) && k < |s|
    ensures Above(s, s[k]) <= k
    ensures s[k] > 0 ==> Above(s, s[k] - 1) > k
  {
    var m := FirstAtMost(s, s[k], k);
    AboveDescending(s, s[k], m);
    if s[k] > 0 {
      var l := FirstAtMost(s, s[k] - 1, |s|);
      AboveDescending(s, s[k] - 1, l);
      assert l > k;
    }
  }

  /** The first position, up to `k`, from which on no element is greater than `x`. */
  lemma FirstAtMost(s: seq<nat>, x: nat, k: nat) returns (m: nat)
    requires Descending(s) && k <= |s| && (k < |s| ==> s[k] <= x)
    ensures m <= k
    ensures forall i :: 0 <= i < m ==> s[i] > x
    ensures forall i :: m <= i < |s| ==> s[i] <= x
    decreases k
  {
    if k > 0 && s[k - 1] <= x {
      m := FirstAtMost(s, x, k - 1);
    } else {
      m := k;
      forall i | 0 <= i < m ensures s[i] > x {
        assert s[i] >= s[k - 1];
      }
      forall i | m <= i < |s| ensures s[i] <= x {
        assert s[k] >= s[i];
      }
    }
  }

  /** `r` has rank `k` from the top: at most `k` elements are greater, and more than `k` are not smaller. */
  predicate HasRank(s: seq<nat>, r: nat, k: nat) {
    r in s && r > 0 && Above(s, r) <= k < Above(s, r - 1)
  }

  /** Only one value has a given rank. */
  lemma RankUnique(s: seq<nat>, r: nat, r': nat, k: nat)
    requires HasRank(s, r, k) && HasRank(s, r', k)
    ensures r == r'
  {
    if r < r' {
      AboveMonotone(s, r, r' - 1);
    } else if r' < r {
      AboveMonotone(s, r', r - 1);
    }
  }

  lemma {:induction false} AboveMonotone(s: seq<nat>, x: nat, y: nat)
    requires x <= y
    ensures Above(s, y) <= Above(s, x)
    decreases |s|
  {
    if s != [] {
      AboveMonotone(s[..|s| - 1], x, y);
    }
  }

  lemma SameElements(s: seq<nat>, t: seq<nat>, x: nat)
    requires multiset(s) == multiset(t) && x in s
    ensures x in t
  {
    assert x in multiset(s);
  }

  lemma MedianHasRank(s: seq<nat>)
    requires s != [] && forall x :: x in s ==> x > 0
    ensures HasRank(s, Sorted(s)[|s| / 2], |s| / 2)
  {
    var t, k := Sorted(s), |s| / 2;
    SortedIsDescending(s);
    hide Above, Sorted, Descending;
    SameElements(t, s, t[k]);
    AboveAtMost(t, k);
    AboveSorted(s, t[k]);
    AboveSorted(s, t[k] - 1);
  }

  lemma {:induction false} AnsweredArePositive(pings: seq<nat>)
    ensures forall x :: x in Answered(pings) ==> x > 0
    ensures |Answered(pings)| <= |pings|
    decreases |pings|
  {
    if pings != [] {
      AnsweredArePositive(pings[..|pings| - 1]);
    }
  }

  lemma ShiftedUp(s: seq<nat>, last: nat, j: nat, tail: seq<nat>)
    requires 0 < j <= |s| && s[j - 1] < last
    ensures Inserted(s[..j], last) + tail == Inserted(s[..j - 1], last) + ([s[j - 1]] + tail)
  {
    assert s[..j][..j - 1] == s[..j - 1];
    assert Inserted(s[..j], last) == Inserted(s[..j - 1], last) + [s[j - 1]];
    hide Inserted;
    assert Inserted(s[..j - 1], last) + [s[j - 1]] + tail == Inserted(s[..j - 1], last) + ([s[j - 1]] + tail);
  }

  lemma PutBehind(s: seq<nat>, last: nat, j: nat)
    requires j <= |s| && (j > 0 ==> s[j - 1] >= last)
    ensures Inserted(s[..j], last) == s[..j] + [last]
  {
  }

  /** Shifts smaller elements up, and puts `last` in its place among the first `i`. */
  method InsertPing(uS: array<nat>, i: nat, last: nat)
    requires i < uS.Length
    modifies uS
    ensures uS[..i + 1] == Inserted(old(uS[..i]), last)
    ensures uS[i + 1..] == old(uS[i + 1..])
  {
    hide Inserted;
    ghost var s := uS[..i];
    var j := i;
    while j > 0 && uS[j - 1] < last
      invariant 0 <= j <= i
      invariant uS[..j] == s[..j]
      invariant uS[i + 1..] == old(uS[i + 1..])
      invariant Inserted(s, last) == Inserted(s[..j], last) + uS[j + 1..i + 1]
    {
      ghost var tail := uS[j + 1..i + 1];
      assert uS[j - 1] == uS[..j][j - 1] == s[..j][j - 1];
      ShiftedUp(s, last, j, tail);
      uS[j] := uS[j - 1];
      assert uS[j..i + 1] == [s[j - 1]] + tail;
      j := j - 1;
    }
    ghost var tail := uS[j + 1..i + 1];
    assert j > 0 ==> uS[j - 1] == uS[..j][j - 1] == s[..j][j - 1];
    PutBehind(s, last, j);
    uS[j] := last;
    assert uS[..i + 1] == s[..j] + [last] + tail;
  }

  class NewPing {
    var echoes: seq<nat>     // what the pings to come will measure

    constructor (echoes: seq<nat>)
      ensures this.echoes == echoes
    {
      this.echoes := echoes;
    }

    method Ping() returns (us: nat)
      requires echoes != []
      modifies this
      ensures us == old(echoes)[0] && echoes == old(echoes)[1..]
    {
      us := echoes[0];
      echoes := echoes[1..];
    }

    /** The median of `count` pings, of which those without an echo do not count: the element in the middle of the
        descending order, the lower one of two. */
    method PingMedian(count: nat) returns (median: nat)
      requires 1 <= count < 256 && count <= |echoes|
      modifies this
      ensures echoes == old(echoes)[count..]
      ensures var s := Answered(old(echoes)[..count]);
              if s == [] then median == 0 else HasRank(s, median, |s| / 2)
    {
      AnsweredNothing();
      hide HasRank, Answered, Sorted, Inserted;
      ghost var pings := echoes[..count];
      ghost var done := 0;
      var it, i: nat := count, 0;
      var uS := new nat[it];
      uS[0] := NO_ECHO;
      while i < it
        invariant i <= it <= count && it - i == count - done && uS.Length == count
        invariant echoes == old(echoes)[done..] && pings == old(echoes)[..count]
        invariant i == |Answered(pings[..done])| && uS[..i] == Sorted(Answered(pings[..done]))
        invariant i == 0 ==> uS[0] == NO_ECHO
        decreases it - i
      {
        var last := Ping();
        NextPing(old(echoes), count, done);
        AnsweredSnoc(pings[..done], last);
        done := done + 1;
        if last == NO_ECHO {
          it := it - 1;
        } else {
          InsertPing(uS, i, last);
          i := i + 1;
        }
      }
      assert pings[..done] == pings;
      AnsweredArePositive(pings);
      assert it == i == |Answered(pings)|;
      if it > 0 {
        MedianHasRank(Answered(pings));
        assert uS[it / 2] == uS[..i][it / 2];
      }
      median := uS[it / 2];
    }
  }

  lemma AnsweredNothing()
    ensures Answered([]) == [] && Sorted([]) == []
  {
  }

  lemma NextPing(echoes: seq<nat>, count: nat, done: nat)
    requires done < count <= |echoes|
    ensures echoes[done..][0] == echoes[..count][done] && echoes[done..][1..] == echoes[done + 1..]
    ensures echoes[..count][..done + 1] == echoes[..count][..done] + [echoes[..count][done]]
  {
  }

  lemma AnsweredSnoc(pings: seq<nat>, last: nat)
    ensures Answered(pings + [last]) == if last == NO_ECHO then Answered(pings) else Answered(pings) + [last]
    ensures last != NO_ECHO ==> Sorted(Answered(pings + [last])) == Inserted(Sorted(Answered(pings)), last)
  {
    assert (pings + [last])[..|pings|] == pings;
    var s := Answered(pings);
    assert (s + [last])[..|s|] == s;
  }
}
