/** 64-bit 1-Wire addresses, their LSB-first lexicographic order, and the
    forks of the binary tree that a fixed set of addresses spans. */
module RomOrder {
  import opened Options

  const ROM_BITS := 64

  /** A ROM address, least significant bit first. */
  type Rom = s: seq<bool> | |s| == ROM_BITS witness seq(ROM_BITS, _ => false)

  ghost predicate AgreeBelow(a: Rom, b: Rom, k: int) {
    forall i :: 0 <= i < k && i < ROM_BITS ==> a[i] == b[i]
  }

  /** `a` and `b` part at bit `k`, where `a` takes 0 and `b` takes 1. */
  ghost predicate LessAt(a: Rom, b: Rom, k: int) {
    0 <= k < ROM_BITS && AgreeBelow(a, b, k) && !a[k] && b[k]
  }

  ghost predicate Less(a: Rom, b: Rom) {
    exists k :: LessAt(a, b, k)
  }

  /** On the way to `a`, some member of `s` branches off to 1 at bit `k` where `a` takes 0. */
  ghost predicate ZeroFork(s: set<Rom>, a: Rom, k: int) {
    exists b :: b in s && LessAt(a, b, k)
  }

  /** `j` is the deepest zero fork of `a` above depth `bound`, or -1 when there is none. */
  ghost predicate DeepestFork(s: set<Rom>, a: Rom, bound: int, j: int) {
    && -1 <= j
    && (j == -1 || (j < bound && ZeroFork(s, a, j)))
    && forall k :: j < k < bound ==> !ZeroFork(s, a, k)
  }

  /** `r` is the least member of `s` beyond `prev`, or of all of `s` when there is no `prev`. */
  ghost predicate IsNext(s: set<Rom>, prev: Option<Rom>, r: Rom) {
    && r in s
    && (prev.Some? ==> Less(prev.value, r))
    && forall b :: b in s && (prev.Some? ==> Less(prev.value, b)) && b != r ==> Less(r, b)
  }

  ghost predicate NoneLeft(s: set<Rom>, prev: Option<Rom>) {
    forall b :: b in s ==> prev.Some? && !Less(prev.value, b)
  }

  /** The members of `s` that search tree position `(a, j)` has not yet visited:
      those that share `a` below the junction `j` and then take 1. */
  ghost predicate InSubtree(s: set<Rom>, a: Rom, j: int, b: Rom) {
    b in s && (0 <= j ==> LessAt(a, b, j))
  }

  lemma LessIrreflexive(a: Rom, b: Rom)
    requires Less(a, b)
    ensures a != b && !Less(b, a)
  {
    var k :| LessAt(a, b, k);
    forall m ensures !LessAt(b, a, m) {
      assert m < k || k < m || m == k;
    }
  }

  lemma LessTransitive(a: Rom, b: Rom, c: Rom)
    requires Less(a, b) && Less(b, c)
    ensures Less(a, c)
  {
    var k :| LessAt(a, b, k);
    var m :| LessAt(b, c, m);
    assert LessAt(a, c, if k < m then k else m);
  }

  lemma FirstDifference(a: Rom, b: Rom) returns (k: int)
    requires a != b
    ensures 0 <= k < ROM_BITS && AgreeBelow(a, b, k) && a[k] != b[k]
  {
    k := 0;
    while k < ROM_BITS && a[k] == b[k]
      invariant 0 <= k <= ROM_BITS && AgreeBelow(a, b, k)
    {
      k := k + 1;
    }
    assert k == ROM_BITS ==> a == b;
  }

  lemma LessTotal(a: Rom, b: Rom)
    requires a != b
    ensures Less(a, b) || Less(b, a)
  {
    var k := FirstDifference(a, b);
    assert LessAt(a, b, k) || LessAt(b, a, k);
  }

  /** Everything beyond `a` leaves the path of `a` at a zero fork of `a`. */
  lemma BeyondIsFork(s: set<Rom>, a: Rom, j: int)
    requires DeepestFork(s, a, ROM_BITS, j)
    ensures NoneLeft(s, Some(a)) <==> j == -1
  {
    if j == -1 {
      forall b | b in s ensures !Less(a, b) {
        if Less(a, b) {
          var k :| LessAt(a, b, k);
          assert ZeroFork(s, a, k);
        }
      }
    } else {
      var b :| b in s && LessAt(a, b, j);
      assert Less(a, b);
    }
  }

  /** The least member of the subtree beyond the deepest fork of `a` is the successor of `a`. */
  lemma LeastOfSubtreeIsNext(s: set<Rom>, a: Rom, j: int, r: Rom)
    requires 0 <= j && DeepestFork(s, a, ROM_BITS, j)
    requires InSubtree(s, a, j, r)
    requires forall b :: InSubtree(s, a, j, b) && b != r ==> Less(r, b)
    ensures IsNext(s, Some(a), r)
  {
    assert Less(a, r);
    forall b | b in s && Less(a, b) && b != r ensures Less(r, b) {
      var k :| LessAt(a, b, k);
      assert ZeroFork(s, a, k);
      assert k <= j;
      if k == j {
        assert InSubtree(s, a, j, b);
      } else {
        assert LessAt(r, b, k);
      }
    }
  }

  lemma LeastIsFirst(s: set<Rom>, r: Rom)
    requires r in s
    requires forall b :: b in s && b != r ==> Less(r, b)
    ensures IsNext(s, None, r)
  {
  }

  // ---- whole enumerations ----

  ghost predicate Ascending(q: seq<Rom>) {
    forall i, j :: 0 <= i < j < |q| ==> Less(q[i], q[j])
  }

  /** `q` lists the members of `s`, each once, in ascending order. */
  ghost predicate Enumerates(q: seq<Rom>, s: set<Rom>) {
    Ascending(q) && forall r :: r in q <==> r in s
  }

  /** What a caller of the search sees: each call yields the next address or nothing at all,
      and a call that yields nothing changes nothing. */
  ghost predicate SearchRun(s: set<Rom>, prev: Option<Rom>, results: seq<Option<Rom>>)
    decreases |results|
  {
    results == [] ||
    (match results[0]
     case None => NoneLeft(s, prev) && SearchRun(s, prev, results[1..])
     case Some(r) => IsNext(s, prev, r) && SearchRun(s, Some(r), results[1..]))
  }

  function LastFound(prev: Option<Rom>, results: seq<Option<Rom>>): Option<Rom>
    decreases |results|
  {
    if results == [] then prev
    else LastFound(if results[0].Some? then results[0] else prev, results[1..])
  }

  lemma {:induction false} SearchRunSnoc(s: set<Rom>, prev: Option<Rom>, results: seq<Option<Rom>>, r: Option<Rom>)
    requires SearchRun(s, prev, results)
    requires var last := LastFound(prev, results);
             if r.Some? then IsNext(s, last, r.value) else NoneLeft(s, last)
    ensures SearchRun(s, prev, results + [r])
    ensures LastFound(prev, results + [r]) == if r.Some? then r else LastFound(prev, results)
    decreases |results|
  {
    var all := results + [r];
    if results == [] {
      assert all[1..] == [];
    } else {
      assert all[0] == results[0] && all[1..] == results[1..] + [r];
      SearchRunSnoc(s, if results[0].Some? then results[0] else prev, results[1..], r);
    }
  }

  /** The members of `s` beyond `prev`. */
  ghost function Beyond(s: set<Rom>, prev: Option<Rom>): set<Rom> {
    set b | b in s && (prev.Some? ==> Less(prev.value, b))
  }

  lemma BeyondNext(s: set<Rom>, prev: Option<Rom>, r: Rom)
    requires IsNext(s, prev, r)
    ensures Beyond(s, prev) == {r} + Beyond(s, Some(r))
    ensures r !in Beyond(s, Some(r))
    ensures |Beyond(s, prev)| == 1 + |Beyond(s, Some(r))|
  {
    forall b ensures b in Beyond(s, prev) <==> b in {r} + Beyond(s, Some(r)) {
      if b in Beyond(s, Some(r)) && prev.Some? {
        LessTransitive(prev.value, r, b);
      }
    }
    if r in Beyond(s, Some(r)) {
      LessIrreflexive(r, r);
    }
  }

  /** Successive results list `todo`: as long as any are left each is a member, in ascending order, so no member comes
      twice; after that there is nothing; and once there are as many results as members, every member has come. */
  ghost predicate Lists(results: seq<Option<Rom>>, todo: set<Rom>) {
    && (forall i :: 0 <= i < |results| ==> (results[i].Some? <==> i < |todo|))
    && (forall i :: 0 <= i < |results| && results[i].Some? ==> results[i].value in todo)
    && (forall i, j :: 0 <= i < j < |results| && results[i].Some? && results[j].Some? ==>
          Less(results[i].value, results[j].value))
    && (|results| >= |todo| ==> forall r :: r in todo ==> Some(r) in results)
  }

  /** The first |s| calls after a reset yield the members of `s`, each exactly once and in
      ascending order; every later call yields nothing. */
  lemma {:induction false} RunEnumerates(s: set<Rom>, prev: Option<Rom>, results: seq<Option<Rom>>)
    requires SearchRun(s, prev, results)
    ensures Lists(results, Beyond(s, prev))
    decreases |results|
  {
    if results == [] {
      if |Beyond(s, prev)| == 0 {
        assert Beyond(s, prev) == {};
      }
    } else if results[0].None? {
      assert Beyond(s, prev) == {};
      RunEnumerates(s, prev, results[1..]);
      assert forall i :: 1 <= i < |results| ==> results[i] == results[1..][i - 1];
    } else {
      var r := results[0].value;
      BeyondNext(s, prev, r);
      RunEnumerates(s, Some(r), results[1..]);
      ListsOneMore(results, Beyond(s, prev), Beyond(s, Some(r)));
    }
  }

  lemma ListsOneMore(results: seq<Option<Rom>>, todo: set<Rom>, rest: set<Rom>)
    requires results != [] && results[0].Some?
    requires todo == {results[0].value} + rest && |todo| == 1 + |rest|
    requires forall r :: r in rest ==> Less(results[0].value, r)
    requires Lists(results[1..], rest)
    ensures Lists(results, todo)
  {
    assert forall i :: 1 <= i < |results| ==> results[i] == results[1..][i - 1];
    if |results| >= |todo| {
      forall r | r in todo ensures Some(r) in results {
        if r in rest {
          assert Some(r) in results[1..];
        }
      }
    }
  }

  /** An ascending listing of `s` has |s| entries. */
  lemma {:induction false} EnumerationSize(q: seq<Rom>, s: set<Rom>)
    requires Enumerates(q, s)
    ensures |q| == |s|
    decreases |q|
  {
    if q == [] {
      assert s == {};
    } else {
      var r, rest := q[0], q[1..];
      assert Less(r, r) ==> false by {
        if Less(r, r) { LessIrreflexive(r, r); }
      }
      assert q == [r] + rest;
      forall b ensures b in rest <==> b in s - {r} {
        if b in rest {
          var i :| 0 <= i < |rest| && rest[i] == b;
          assert Less(q[0], q[i + 1]);
        }
      }
      EnumerationSize(rest, s - {r});
    }
  }

  /** There is only one ascending listing, so an enumeration is determined by the set alone. */
  lemma {:induction false} EnumerationUnique(q: seq<Rom>, q': seq<Rom>, s: set<Rom>)
    requires Enumerates(q, s) && Enumerates(q', s)
    ensures q == q'
    decreases |q|
  {
    EnumerationSize(q, s);
    EnumerationSize(q', s);
    if q != [] {
      assert q[0] in q && q'[0] in q';
      HeadIsLeast(q, s, q'[0]);
      HeadIsLeast(q', s, q[0]);
      if q[0] != q'[0] {
        LessIrreflexive(q[0], q'[0]);
      }
      TailEnumerates(q, s);
      TailEnumerates(q', s);
      EnumerationUnique(q[1..], q'[1..], s - {q[0]});
      assert q == [q[0]] + q[1..] && q' == [q'[0]] + q'[1..];
    }
  }

  lemma HeadIsLeast(q: seq<Rom>, s: set<Rom>, b: Rom)
    requires Enumerates(q, s) && b in s
    ensures q != [] && (b == q[0] || Less(q[0], b))
  {
    assert b in q;
    var i :| 0 <= i < |q| && q[i] == b;
  }

  lemma TailEnumerates(q: seq<Rom>, s: set<Rom>)
    requires Enumerates(q, s) && q != []
    ensures Enumerates(q[1..], s - {q[0]})
  {
    var rest := q[1..];
    assert q == [q[0]] + rest;
    forall b ensures b in rest <==> b in s - {q[0]} {
      if b in rest {
        var i :| 0 <= i < |rest| && rest[i] == b;
        assert Less(q[0], q[i + 1]);
        LessIrreflexive(q[0], b);
      }
    }
  }

  /** Repeated next addresses up to exhaustion make an enumeration. */
  lemma ExtendEnumeration(q: seq<Rom>, s: set<Rom>, prev: Option<Rom>, r: Rom)
    requires Enumerates(q, s - Beyond(s, prev)) && IsNext(s, prev, r)
    ensures Enumerates(q + [r], s - Beyond(s, Some(r)))
  {
    BeyondNext(s, prev, r);
    var q' := q + [r];
    forall i, j | 0 <= i < j < |q'| ensures Less(q'[i], q'[j]) {
      if j == |q| {
        assert q[i] in q;
        VisitedIsLess(s, prev, q[i], r);
      }
    }
  }

  lemma VisitedIsLess(s: set<Rom>, prev: Option<Rom>, b: Rom, r: Rom)
    requires IsNext(s, prev, r) && b in s - Beyond(s, prev)
    ensures Less(b, r)
  {
    if b != prev.value {
      LessTotal(b, prev.value);
      LessTransitive(b, prev.value, r);
    }
  }
}
