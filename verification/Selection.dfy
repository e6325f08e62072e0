/** `SELECT id ... ORDER BY id ASC LIMIT n`: the n smallest ids of a set, ascending. */
module Selection {

  ghost predicate Ascending(ids: seq<nat>) {
    forall i, j :: 0 <= i < j < |ids| ==> ids[i] < ids[j]
  }

  /** Membership form of a selection, handier than a set comprehension in proofs. */
  function Elements(ids: seq<nat>): (s: set<nat>)
    ensures forall i :: i in s <==> i in ids
  {
    set i | i in ids
  }

  ghost predicate IsLeast(s: set<nat>, m: nat) {
    m in s && forall x :: x in s ==> m <= x
  }

  lemma Least(s: set<nat>) returns (m: nat)
    requires s != {}
    ensures IsLeast(s, m)
  {
    m :| m in s;
    if s != {m} {
      var r := Least(s - {m});
      assert s == (s - {m}) + {m};
      m := if r < m then r else m;
    }
  }

  function Minimum(s: set<nat>): (m: nat)
    requires s != {}
    ensures m in s && forall x :: x in s ==> m <= x
  {
    assert exists m :: IsLeast(s, m) by { var m := Least(s); }
    var m :| m in s && forall x :: x in s ==> m <= x;
    m
  }

  /** ids are the limit smallest elements of eligible, or all of them, ascending. */
  ghost predicate AreFirst(eligible: set<nat>, limit: nat, ids: seq<nat>) {
    && Ascending(ids)
    && |ids| == (if |eligible| <= limit then |eligible| else limit)
    && (forall i :: i in ids ==> i in eligible)
    && (forall i, j :: i in ids && j in eligible && j !in ids ==> i < j)
    && (|eligible| <= limit ==> forall i :: i in eligible ==> i in ids)
  }

  lemma {:induction false} SomeAreFirst(eligible: set<nat>, limit: nat) returns (ids: seq<nat>)
    ensures AreFirst(eligible, limit, ids)
    decreases limit
  {
    if limit == 0 || eligible == {} {
      ids := [];
    } else {
      var least := Minimum(eligible);
      var rest := SomeAreFirst(eligible - {least}, limit - 1);
      assert forall k :: 0 <= k < |rest| ==> rest[k] in rest && least < rest[k];
      ids := [least] + rest;
    }
  }

  lemma FirstOfRest(eligible: set<nat>, limit: nat, ids: seq<nat>)
    requires limit > 0 && eligible != {} && AreFirst(eligible, limit, ids)
    ensures ids != [] && ids[0] == Minimum(eligible)
    ensures AreFirst(eligible - {Minimum(eligible)}, limit - 1, ids[1..])
  {
    var least := Minimum(eligible);
    var head := ids[0];
    assert head in ids;
    assert least !in ids ==> head < least;
    assert ids[0] == least;
    assert ids == [least] + ids[1..];
    forall i, j | i in ids[1..] && j in eligible - {least} && j !in ids[1..]
      ensures i < j
    {
      assert i in ids && j !in ids;
    }
  }

  /** There is one such selection. */
  lemma {:induction false} FirstAreUnique(eligible: set<nat>, limit: nat, a: seq<nat>, b: seq<nat>)
    requires AreFirst(eligible, limit, a) && AreFirst(eligible, limit, b)
    ensures a == b
    decreases limit
  {
    if limit > 0 && eligible != {} {
      FirstOfRest(eligible, limit, a);
      FirstOfRest(eligible, limit, b);
      FirstAreUnique(eligible - {Minimum(eligible)}, limit - 1, a[1..], b[1..]);
      assert a == [a[0]] + a[1..] && b == [b[0]] + b[1..];
    }
  }

  ghost function FirstIds(eligible: set<nat>, limit: nat): (ids: seq<nat>)
    ensures Ascending(ids)
    ensures |ids| == if |eligible| <= limit then |eligible| else limit
    ensures forall i :: i in ids ==> i in eligible
    ensures forall i, j :: i in ids && j in eligible && j !in ids ==> i < j
    ensures |eligible| <= limit ==> forall i :: i in eligible ==> i in ids
  {
    assert exists ids :: AreFirst(eligible, limit, ids) by { var ids := SomeAreFirst(eligible, limit); }
    var ids :| AreFirst(eligible, limit, ids);
    ids
  }

  /** The selection, computed: the least remaining id, again and again. */
  method SelectFirstIds(eligible: set<nat>, limit: nat) returns (ids: seq<nat>)
    ensures ids == FirstIds(eligible, limit)
  {
    ids := [];
    var remaining := eligible;
    while |ids| < limit && remaining != {}
      invariant |ids| <= limit && |ids| + |remaining| == |eligible|
      invariant Ascending(ids)
      invariant forall i :: i in eligible <==> i in ids || i in remaining
      invariant forall i, j :: i in ids && j in remaining ==> i < j
      decreases limit - |ids|
    {
      var least := Minimum(remaining);
      assert forall k :: 0 <= k < |ids| ==> ids[k] in ids && ids[k] < least;
      ids := ids + [least];
      remaining := remaining - {least};
    }
    FirstAreUnique(eligible, limit, ids, FirstIds(eligible, limit));
  }

  /** An ascending sequence has as many elements as positions. */
  lemma {:induction false} AscendingCardinality(ids: seq<nat>)
    requires Ascending(ids)
    ensures |Elements(ids)| == |ids|
  {
    if ids != [] {
      AscendingCardinality(ids[1..]);
      assert Elements(ids) == {ids[0]} + Elements(ids[1..]);
      assert ids[0] !in ids[1..];
    }
  }
}
