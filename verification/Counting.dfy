/** Work that repeated calls do in bounded portions. */
module Counting {

  /** What is left of it; never less than nothing. */
  function Truncated(x: int): nat { if x < 0 then 0 else x }

  lemma OneMoreCall(backlog: nat, calls: nat, portion: nat)
    ensures Truncated(Truncated(backlog - portion) - calls * portion) == Truncated(backlog - (calls + 1) * portion)
  {
    assert (calls + 1) * portion == calls * portion + portion;
  }

  lemma SubsetCardinality(a: set<nat>, b: set<nat>)
    requires a <= b
    ensures |a| <= |b|
  {
    assert b == a + (b - a);
  }

  function Dropping<T>(s: seq<T>, i: nat): seq<T>
    requires i < |s|
  {
    s[..i] + s[i + 1..]
  }

  lemma MultisetDropping<T>(s: seq<T>, i: nat)
    requires i < |s|
    ensures multiset(s) == multiset(Dropping(s, i)) + multiset{s[i]}
  {
    assert s == s[..i] + [s[i]] + s[i + 1..];
  }

  /** Where the first element of a sequence stands in a permutation of it; the rest are permutations too. */
  lemma FirstInPermutation<T>(a: seq<T>, b: seq<T>) returns (i: nat)
    requires a != [] && multiset(a) == multiset(b)
    ensures i < |b| && b[i] == a[0]
    ensures multiset(a[1..]) == multiset(Dropping(b, i))
  {
    assert a[0] in multiset(a);
    assert a[0] in b;
    i :| i < |b| && b[i] == a[0];
    MultisetDropping(b, i);
    MultisetDropping(a, 0);
    assert Dropping(a, 0) == a[1..];
    assert multiset(a[1..]) == multiset(a) - multiset{a[0]};
  }

  lemma {:induction false} RangeCardinality(s: set<nat>, lo: nat, hi: nat)
    requires forall x :: x in s ==> lo <= x < hi
    ensures |s| <= if lo <= hi then hi - lo else 0
    decreases hi
  {
    if s != {} {
      RangeCardinality(s - {hi - 1}, lo, hi - 1);
    }
  }

  lemma {:induction false} SomeGreatest(s: set<nat>) returns (m: nat)
    requires s != {}
    ensures m in s && forall x :: x in s ==> x <= m
  {
    m :| m in s;
    if s != {m} {
      var r := SomeGreatest(s - {m});
      assert s == (s - {m}) + {m};
      m := if r > m then r else m;
    }
  }

  /** Where a sequence has elements of a kind. */
  function Positions<T>(s: seq<T>, p: T -> bool): set<nat> { set k: nat | k < |s| && p(s[k]) }

  lemma PositionsGrow<T>(s: seq<T>, p: T -> bool)
    requires s != []
    ensures |Positions(s, p)| == |Positions(s[..|s| - 1], p)| + if p(s[|s| - 1]) then 1 else 0
  {
    var n := |s| - 1;
    if p(s[n]) {
      assert Positions(s, p) == Positions(s[..n], p) + {n};
    } else {
      assert Positions(s, p) == Positions(s[..n], p);
    }
  }
}
