/**
 * The joy band's tile-to-slot assignment: entry `i` is the index of the slot
 * tile `i` stands on. Rebuilt on every layout, rotated on every cycle.
 */
module JoyAssign {

  /** `s` maps the indices `0..n-1` one-to-one onto `0..n-1`. */
  ghost predicate IsPermutation(s: seq<nat>, n: nat)
  {
    && |s| == n
    && (forall i | 0 <= i < n :: s[i] < n)
    && (forall i, j | 0 <= i < j < n :: s[i] != s[j])
    && (forall v | 0 <= v < n :: v in s)
  }

  /** The identity assignment `[0, 1, ..., n-1]`. */
  function Iota(n: nat): (s: seq<nat>)
    ensures |s| == n && forall i | 0 <= i < n :: s[i] == i
  {
    seq(n, i => i)
  }

  /**
   * The layout's rebuild: one entry per slot, each the previous entry for that
   * tile (or the tile's own index when there was none) wrapped to the slot count.
   */
  function Rebuild(prev: seq<nat>, n: nat): (r: seq<nat>)
    ensures |r| == n
    ensures forall i | 0 <= i < n :: r[i] < n
  {
    seq(n, i requires 0 <= i < n => (if i < |prev| then prev[i] else i) % n)
  }

  lemma ModOfSmaller(i: nat, n: nat)
    requires i < n
    ensures i % n == i
  {
  }

  /** A first layout, with no previous assignment, gives every tile its own slot. */
  lemma RebuildFresh(n: nat)
    ensures Rebuild([], n) == Iota(n)
    ensures IsPermutation(Rebuild([], n), n)
  {
    var r := Rebuild([], n);
    forall i | 0 <= i < n ensures r[i] == i {
      ModOfSmaller(i, n);
    }
    forall v | 0 <= v < n ensures v in r {
      assert r[v] == v;
    }
  }

  /**
   * A relayout at the same slot count keeps every tile on the slot it had,
   * so the bijection survives a resize that stays within the tier.
   */
  lemma RebuildKeeps(prev: seq<nat>, n: nat)
    requires IsPermutation(prev, n)
    ensures Rebuild(prev, n) == prev
  {
    var r := Rebuild(prev, n);
    assert |r| == |prev|;
    forall i | 0 <= i < n ensures r[i] == prev[i] {
      var x := prev[i];
      assert x < n;
      assert x / n == 0;
      assert r[i] == x % n;
    }
  }

  /** Rebuilding from a larger assignment can collide two tiles on one slot. */
  lemma RebuildShrinkCollides()
    ensures IsPermutation([2, 0, 1], 3)
    ensures Rebuild([2, 0, 1], 2) == [0, 0]
    ensures !IsPermutation(Rebuild([2, 0, 1], 2), 2)
  {
    var p: seq<nat> := [2, 0, 1];
    forall v | 0 <= v < 3 ensures v in p {
      assert p[if v == 0 then 1 else if v == 1 then 2 else 0] == v;
    }
    var r := Rebuild(p, 2);
    assert r[0] == 0 && r[1] == 0;
    assert r == [0, 0];
  }

  /** One cycle step, `assignments.unshift(assignments.pop())`: the last entry moves to the front. */
  function RotateRight(s: seq<nat>): (r: seq<nat>)
    requires |s| > 0
    ensures |r| == |s|
  {
    [s[|s| - 1]] + s[..|s| - 1]
  }

  /**
   * From the first layout's assignment one cycle step moves every tile one
   * slot back along the snake path, and tile 0 wraps to the last slot.
   */
  lemma CycleFromStart(n: nat)
    requires n > 0
    ensures forall t | 0 < t < n :: RotateRight(Iota(n))[t] == t - 1
    ensures RotateRight(Iota(n))[0] == n - 1
  {
    var r := RotateRight(Iota(n));
    forall t | 0 < t < n
      ensures r[t] == t - 1
    {
      assert r[t] == Iota(n)[..n - 1][t - 1];
    }
  }

  /** A cycle step keeps the assignment a bijection: no tile collides, no slot is left empty. */
  lemma RotatePreservesPermutation(s: seq<nat>, n: nat)
    requires n > 0 && IsPermutation(s, n)
    ensures IsPermutation(RotateRight(s), n)
    ensures multiset(RotateRight(s)) == multiset(s)
  {
    var r := RotateRight(s);
    assert forall i | 1 <= i < n :: r[i] == s[i - 1];
    assert r[0] == s[n - 1];
    forall i, j | 0 <= i < j < n ensures r[i] != r[j] {
      if i == 0 {
        assert r[i] == s[n - 1] && r[j] == s[j - 1];
      } else {
        assert r[i] == s[i - 1] && r[j] == s[j - 1];
      }
    }
    forall v | 0 <= v < n ensures v in r {
      assert v in s;
      var k :| 0 <= k < |s| && s[k] == v;
      if k == n - 1 {
        assert r[0] == v;
      } else {
        assert r[k + 1] == v;
      }
    }
    calc {
      multiset(r);
      multiset([s[n - 1]]) + multiset(s[..n - 1]);
      { assert s == s[..n - 1] + [s[n - 1]]; }
      multiset(s);
    }
  }

  /** `k` cycle steps in a row. */
  function RotateN(s: seq<nat>, k: nat): (r: seq<nat>)
    ensures |r| == |s|
  {
    if k == 0 || |s| == 0 then s else RotateRight(RotateN(s, k - 1))
  }

  /** After `k <= |s|` steps the last `k` entries have moved, in order, to the front. */
  lemma {:induction false} RotateNSplit(s: seq<nat>, k: nat)
    requires k <= |s|
    ensures RotateN(s, k) == s[|s| - k..] + s[..|s| - k]
  {
    var n := |s|;
    if k == 0 {
      assert s[n..] + s[..n] == s;
    } else {
      RotateNSplit(s, k - 1);
      SplitStep(s, k);
    }
  }

  /** Rotating the split after `k - 1` steps gives the split after `k`. */
  lemma SplitStep(s: seq<nat>, k: nat)
    requires 0 < k <= |s|
    ensures RotateRight(s[|s| - k + 1..] + s[..|s| - k + 1]) == s[|s| - k..] + s[..|s| - k]
  {
    var n := |s|;
    var prev := s[n - k + 1..] + s[..n - k + 1];
    var front := s[n - k + 1..];
    assert prev[n - 1] == s[n - k];
    assert prev[..n - 1] == front + s[..n - k];
    assert s[n - k..] == [s[n - k]] + front;
  }

  /** As many cycle steps as there are tiles bring every tile back to its starting slot. */
  lemma FullCycleRestores(s: seq<nat>)
    ensures RotateN(s, |s|) == s
  {
    RotateNSplit(s, |s|);
    assert s[0..] + s[..0] == s;
  }

  /**
   * The assignment `k < n` cycle steps after a first layout: tile `t` stands
   * `k` slots back from its own, wrapping past slot 0 to the end.
   */
  lemma RotatedIotaEntry(n: nat, k: nat, t: nat)
    requires k < n && t < n
    ensures RotateN(Iota(n), k)[t] == if t >= k then t - k else t + n - k
  {
    var s := Iota(n);
    RotateNSplit(s, k);
    if t < k {
      assert RotateN(s, k)[t] == s[n - k..][t];
    } else {
      assert RotateN(s, k)[t] == s[..n - k][t - k];
    }
  }

  /**
   * The first layout onto `n` slots after `k < n` cycle steps, in closed form:
   * tile `t` stands `k` slots back from its own, wrapping past slot 0 to the end.
   */
  function Shifted(n: nat, k: nat): (a: seq<nat>)
    requires k < n
    ensures |a| == n
  {
    seq(n, t requires 0 <= t < n => if t >= k then t - k else t + n - k)
  }

  /** The closed form is the first layout rotated `k` times. */
  lemma ShiftedIsRotation(n: nat, k: nat)
    requires k < n
    ensures Shifted(n, k) == RotateN(Iota(n), k)
  {
    forall t | 0 <= t < n ensures Shifted(n, k)[t] == RotateN(Iota(n), k)[t] {
      RotatedIotaEntry(n, k, t);
    }
  }

  /**
   * `a` is where a first layout onto `n` slots stands after `k` cycle steps,
   * counted modulo `n`; with no slots there is nothing to say.
   */
  ghost predicate IsReachable(a: seq<nat>, n: nat, k: nat)
  {
    n > 0 ==> k < n && a == Shifted(n, k)
  }

  /** The cycle count after one more step: one more, wrapping to 0 after `n - 1`. */
  function NextCount(n: nat, k: nat): (k': nat)
    requires k < n
    ensures k' < n
    ensures k' == 0 <==> k == n - 1
    ensures k' == (k + 1) % n
  {
    if k + 1 < n then k + 1 else 0
  }

  /**
   * A cycle step from a reachable assignment reaches the next count, and every
   * tile moves one slot back, only the tile on slot 0 wrapping to the last.
   */
  lemma ReachableAfterCycle(a: seq<nat>, n: nat, k: nat)
    requires n > 0 && |a| == n && IsReachable(a, n, k)
    ensures IsReachable(RotateRight(a), n, NextCount(n, k))
    ensures forall t | 0 <= t < n :: RotateRight(a)[t] == if a[t] > 0 then a[t] - 1 else n - 1
  {
    var r, b := RotateRight(a), Shifted(n, NextCount(n, k));
    forall t | 0 <= t < n ensures r[t] == b[t] && r[t] == if a[t] > 0 then a[t] - 1 else n - 1 {
      if t == 0 {
        assert r[t] == a[n - 1];
      } else {
        assert r[t] == a[t - 1];
      }
    }
  }

  /** Any number of cycle steps keeps the assignment a bijection. */
  lemma {:induction false} RotateNPreservesPermutation(s: seq<nat>, n: nat, k: nat)
    requires IsPermutation(s, n)
    ensures IsPermutation(RotateN(s, k), n)
  {
    if k > 0 && |s| > 0 {
      RotateNPreservesPermutation(s, n, k - 1);
      RotatePreservesPermutation(RotateN(s, k - 1), n);
    }
  }
}
