/** List operations behind the granulator's voice pool: the reclaim pass over
    the active list, `List.Remove`, and what it means for the active and
    inactive lists to partition the pool. */
module VoicePool {

  /** The voices of `s` whose `_IsPlaying` flag is set, in their order in
      `s`. */
  function Kept<T>(s: seq<T>, playing: set<T>): (r: seq<T>)
    decreases |s|
  {
    if s == [] then []
    else (if s[0] in playing then [s[0]] else []) + Kept(s[1..], playing)
  }

  /** The finished voices of `s` in the order a pass from the last index down
      to the first meets them: last to first. */
  function FinishedReversed<T>(s: seq<T>, playing: set<T>): (r: seq<T>)
    decreases |s|
  {
    if s == [] then []
    else FinishedReversed(s[1..], playing) + (if s[0] in playing then [] else [s[0]])
  }

  /** `a` is `b` with some elements deleted: the relative order is kept. */
  predicate IsSubsequence<T(==)>(a: seq<T>, b: seq<T>)
    decreases |b|
  {
    a == [] || (b != [] && ((a[0] == b[0] && IsSubsequence(a[1..], b[1..])) || IsSubsequence(a, b[1..])))
  }

  /** Reclaiming splits the active list: the voices it keeps and the voices it
      moves are together exactly the voices it started with. */
  lemma {:induction false} ReclaimConserves<T>(s: seq<T>, playing: set<T>)
    ensures multiset(Kept(s, playing)) + multiset(FinishedReversed(s, playing)) == multiset(s)
    ensures |Kept(s, playing)| + |FinishedReversed(s, playing)| == |s|
    decreases |s|
  {
    if s != [] {
      ReclaimConserves(s[1..], playing);
      assert s == [s[0]] + s[1..];
    }
  }

  /** The kept voices are exactly the playing ones, the moved voices exactly
      the finished ones. */
  lemma {:induction false} ReclaimMembership<T>(s: seq<T>, playing: set<T>)
    ensures forall x :: x in Kept(s, playing) <==> x in s && x in playing
    ensures forall x :: x in FinishedReversed(s, playing) <==> x in s && x !in playing
    decreases |s|
  {
    if s != [] {
      ReclaimMembership(s[1..], playing);
      assert forall x :: x in s <==> x == s[0] || x in s[1..];
    }
  }

  /** Reclaiming keeps the still-playing voices in their relative order. */
  lemma {:induction false} KeptKeepsOrder<T>(s: seq<T>, playing: set<T>)
    ensures IsSubsequence(Kept(s, playing), s)
    decreases |s|
  {
    if s != [] {
      KeptKeepsOrder(s[1..], playing);
      var k := Kept(s, playing);
      if s[0] in playing {
        assert k == [s[0]] + Kept(s[1..], playing);
        assert k[0] == s[0] && k[1..] == Kept(s[1..], playing);
      } else {
        assert k == Kept(s[1..], playing);
      }
    }
  }

  /** A second reclaim with no newly finished voice changes nothing. */
  lemma {:induction false} ReclaimIdempotent<T>(s: seq<T>, playing: set<T>)
    ensures Kept(Kept(s, playing), playing) == Kept(s, playing)
    ensures FinishedReversed(Kept(s, playing), playing) == []
    decreases |s|
  {
    if s != [] {
      ReclaimIdempotent(s[1..], playing);
      var rest := Kept(s[1..], playing);
      if s[0] in playing {
        var k := [s[0]] + rest;
        assert Kept(s, playing) == k;
        assert k[0] == s[0] && k[1..] == rest;
        assert Kept(k, playing) == [s[0]] + Kept(rest, playing);
        assert FinishedReversed(k, playing) == FinishedReversed(rest, playing);
      } else {
        assert Kept(s, playing) == rest;
      }
    }
  }

  /** The invariant of the reclaim pass after index `i` has been visited:
      the active list is the untouched prefix up to `i` followed by the
      voices kept so far, and the inactive list has received the finished
      voices met so far. */
  predicate ReclaimedAbove<T>(s: seq<T>, base: seq<T>, playing: set<T>, i: int, active: seq<T>, inactive: seq<T>)
  {
    -1 <= i < |s|
    && active == s[..i + 1] + Kept(s[i + 1..], playing)
    && inactive == base + FinishedReversed(s[i + 1..], playing)
  }

  /** One step of the reclaim pass: keeping the voice at `i`, or deleting it
      and appending it to the inactive list, moves the invariant down to
      `i - 1`. */
  lemma ReclaimStep<T>(s: seq<T>, base: seq<T>, playing: set<T>, i: int,
                       active: seq<T>, inactive: seq<T>, active': seq<T>, inactive': seq<T>)
    requires ReclaimedAbove(s, base, playing, i, active, inactive) && i >= 0
    requires active[i] in playing ==> active' == active && inactive' == inactive
    requires active[i] !in playing ==> active' == active[..i] + active[i + 1..] && inactive' == inactive + [active[i]]
    ensures ReclaimedAbove(s, base, playing, i - 1, active', inactive')
  {
    assert s[i..][0] == s[i] && s[i..][1..] == s[i + 1..];
    assert s[..i + 1] == s[..i] + [s[i]];
    assert active[i] == s[i];
    if s[i] !in playing {
      assert active[..i] == s[..i];
      assert active[i + 1..] == Kept(s[i + 1..], playing);
    }
  }

  /** The reclaim pass: from the last active voice down to the first, each
      finished voice is deleted from the active list and appended to the
      inactive list. */
  method ReclaimPass<T>(active0: seq<T>, inactive0: seq<T>, playing: set<T>) returns (active: seq<T>, inactive: seq<T>)
    ensures active == Kept(active0, playing)
    ensures inactive == inactive0 + FinishedReversed(active0, playing)
  {
    active, inactive := active0, inactive0;
    var i := |active| - 1;
    assert active0[..i + 1] == active0 && active0[i + 1..] == [];
    while i >= 0
      invariant ReclaimedAbove(active0, inactive0, playing, i, active, inactive)
      decreases i + 1
    {
      ghost var active1, inactive1 := active, inactive;
      var playingGrain := active[i];
      if playingGrain !in playing {
        active := active[..i] + active[i + 1..];
        inactive := inactive + [playingGrain];
      }
      ReclaimStep(active0, inactive0, playing, i, active1, inactive1, active, inactive);
      i := i - 1;
    }
    assert active0[..0] == [] && active0[0..] == active0;
  }

  /** `List.Remove(x)`: deletes the first occurrence of `x`, if any. */
  function RemoveFirst<T(==)>(s: seq<T>, x: T): (r: seq<T>)
    ensures x in s ==> multiset(r) == multiset(s) - multiset{x} && |r| == |s| - 1
    ensures x !in s ==> r == s
    ensures s != [] && s[0] == x ==> r == s[1..]
    decreases |s|
  {
    if s == [] then []
    else if s[0] == x then
      assert s == [s[0]] + s[1..];
      s[1..]
    else
      assert s == [s[0]] + s[1..];
      [s[0]] + RemoveFirst(s[1..], x)
  }

  /** The occurrence `List.Remove` deletes is the first one: when `k` is the
      first index holding `x`, the result is `s` without index `k`. */
  lemma {:induction false} RemoveFirstRemovesFirst<T>(s: seq<T>, x: T, k: nat)
    requires k < |s| && s[k] == x && x !in s[..k]
    ensures RemoveFirst(s, x) == s[..k] + s[k + 1..]
    decreases k
  {
    if k > 0 {
      assert s[0] in s[..k];
      assert s[1..][..k - 1] == s[1..k];
      assert x !in s[1..k] by {
        forall j | 1 <= j < k ensures s[j] != x { assert s[j] in s[..k]; }
      }
      RemoveFirstRemovesFirst(s[1..], x, k - 1);
      assert s[..k] == [s[0]] + s[1..][..k - 1];
      assert s[k + 1..] == s[1..][k..];
    }
  }

  /** `List.Remove` keeps the order of the remaining elements. */
  lemma {:induction false} RemoveFirstKeepsOrder<T>(s: seq<T>, x: T)
    ensures IsSubsequence(RemoveFirst(s, x), s)
    decreases |s|
  {
    if s != [] {
      if s[0] == x {
        SuffixIsSubsequence(s);
      } else {
        RemoveFirstKeepsOrder(s[1..], x);
        var r := RemoveFirst(s, x);
        assert r[0] == s[0] && r[1..] == RemoveFirst(s[1..], x);
      }
    }
  }

  lemma {:induction false} SubsequenceOfItself<T>(s: seq<T>)
    ensures IsSubsequence(s, s)
    decreases |s|
  {
    if s != [] { SubsequenceOfItself(s[1..]); }
  }

  lemma SuffixIsSubsequence<T>(s: seq<T>)
    requires s != []
    ensures IsSubsequence(s[1..], s)
  {
    SubsequenceOfItself(s[1..]);
  }

  /** The active and inactive lists partition the pool: together they hold
      every voice of the pool exactly once. */
  ghost predicate Partitions<T>(active: seq<T>, inactive: seq<T>, pool: set<T>)
  {
    multiset(active) + multiset(inactive) == multiset(pool)
  }

  /** A partition of the pool puts every voice in exactly one of the two
      lists, never twice in one list, and keeps the total count at the pool
      size. */
  lemma PartitionFacts<T>(active: seq<T>, inactive: seq<T>, pool: set<T>)
    requires Partitions(active, inactive, pool)
    ensures |active| + |inactive| == |pool|
    ensures forall v :: v in pool <==> v in active || v in inactive
    ensures forall v :: !(v in active && v in inactive)
    ensures Distinct(active) && Distinct(inactive)
  {
    assert |multiset(active) + multiset(inactive)| == |active| + |inactive|;
    forall v ensures v in pool <==> v in active || v in inactive {
      assert v in multiset(pool) <==> v in pool;
    }
    forall v | v in active ensures v !in inactive {
      assert multiset(pool)[v] <= 1;
      assert multiset(active)[v] >= 1;
    }
    DistinctWhenAtMostOnce(active, pool, multiset(inactive));
    DistinctWhenAtMostOnce(inactive, pool, multiset(active));
  }

  /** Reclaiming moves voices between the lists and keeps the pool
      partitioned. */
  lemma ReclaimKeepsPartition<T>(active: seq<T>, inactive: seq<T>, pool: set<T>, playing: set<T>)
    requires Partitions(active, inactive, pool)
    ensures Partitions(Kept(active, playing), inactive + FinishedReversed(active, playing), pool)
  {
    ReclaimConserves(active, playing);
    assert multiset(inactive + FinishedReversed(active, playing))
        == multiset(inactive) + multiset(FinishedReversed(active, playing));
  }

  /** No element occurs twice. */
  predicate Distinct<T(==)>(s: seq<T>)
  {
    forall i, j :: 0 <= i < j < |s| ==> s[i] != s[j]
  }

  lemma DistinctWhenAtMostOnce<T>(s: seq<T>, pool: set<T>, other: multiset<T>)
    requires multiset(s) + other == multiset(pool)
    ensures Distinct(s)
  {
    forall i, j | 0 <= i < j < |s| ensures s[i] != s[j] {
      var x := s[i];
      assert s == s[..j] + s[j..];
      assert x in s[..j];
      assert multiset(s)[x] == multiset(s[..j])[x] + multiset(s[j..])[x];
      assert multiset(pool)[x] <= 1;
      assert multiset(s[j..])[x] == 0;
      assert s[j] in s[j..];
    }
  }
}
