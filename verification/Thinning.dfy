/**
 Which checkpoint is evicted when the store is full (store_checkpoint in timeline.rs), and why the
 retained ones still cover history evenly. Checkpoints are represented by their attempt counts.
 */
module Thinning {
  import opened Basics

  /** The attempts between the neighbours of checkpoint `i`; `now` stands in after the newest one. */
  function Gap(ats: seq<nat>, now: nat, i: nat): int
    requires 1 <= i < |ats|
  {
    (if i + 1 < |ats| then ats[i + 1] else now) - ats[i - 1]
  }

  /** `i` is the first checkpoint, other than checkpoint 0, whose removal leaves the smallest gap. */
  predicate Evictable(ats: seq<nat>, now: nat, i: nat) {
    && 1 <= i < |ats|
    && (forall k :: 1 <= k < |ats| ==> Gap(ats, now, i) <= Gap(ats, now, k))
    && (forall k :: 1 <= k < i ==> Gap(ats, now, i) < Gap(ats, now, k))
  }

  function Without<T>(s: seq<T>, i: nat): seq<T>
    requires i < |s|
  {
    s[..i] + s[i + 1..]
  }

  predicate Increasing(ats: seq<nat>) {
    forall i, k :: 0 <= i < k < |ats| ==> ats[i] < ats[k]
  }

  /** Neighbours are at most one interval apart, or at most twice the newest attempt divided by one
      less than the capacity. */
  predicate Spaced(ats: seq<nat>, interval: nat, capacity: nat) {
    && 0 < |ats| <= capacity
    && ats[0] == 0
    && Increasing(ats)
    && forall i :: 1 <= i < |ats| ==>
         Near(ats[i - 1], ats[i], ats[|ats| - 1], interval, capacity)
  }

  predicate Near(a: nat, b: nat, newest: nat, interval: nat, capacity: nat) {
    b - a <= interval || (b - a) * (capacity - 1) <= 2 * newest
  }

  /** Without checkpoint `i` its neighbours are not further apart than those of `k` without that, and closer if `k`
      comes first. */
  ghost predicate LeavesLess(ats: seq<nat>, now: nat, i: nat, k: nat)
    requires 1 <= i < |ats| && 1 <= k < |ats|
  {
    var gap := (if i + 1 < |ats| then ats[i + 1] else now) - ats[i - 1];
    var other := (if k + 1 < |ats| then ats[k + 1] else now) - ats[k - 1];
    if k < i then gap < other else gap <= other
  }

  /** `min_by_key` over the evictable indices: the first of the smallest. */
  method FindEvictable(ats: seq<nat>, now: nat) returns (index: nat)
    requires 2 <= |ats|
    ensures Evictable(ats, now, index) && 1 <= index < |ats|
    ensures forall k :: 1 <= k < |ats| ==> LeavesLess(ats, now, index, k)
  {
    index := 1;
    var i := 2;
    while i < |ats|
      invariant 1 <= index < i <= |ats|
      invariant forall k :: 1 <= k < i ==> Gap(ats, now, index) <= Gap(ats, now, k)
      invariant forall k :: 1 <= k < index ==> Gap(ats, now, index) < Gap(ats, now, k)
    {
      if Gap(ats, now, i) < Gap(ats, now, index) {
        index := i;
      }
      i := i + 1;
    }
    forall k | 1 <= k < |ats|
      ensures LeavesLess(ats, now, index, k)
    {
      assert Gap(ats, now, index) <= Gap(ats, now, k);
    }
  }

  function GapSum(ats: seq<nat>, now: nat, n: nat): int
    requires n < |ats|
  {
    if n == 0 then 0 else GapSum(ats, now, n - 1) + Gap(ats, now, n)
  }

  /** The gaps telescope in two interleaved chains. */
  lemma {:induction false} GapsTelescope(ats: seq<nat>, now: nat, n: nat)
    requires 1 <= n < |ats|
    ensures GapSum(ats, now, n)
         == (if n + 1 < |ats| then ats[n + 1] else now) + ats[n] - ats[1] - ats[0]
    decreases n
  {
    if n == 1 {
      assert GapSum(ats, now, 0) == 0;
    } else {
      GapsTelescope(ats, now, n - 1);
    }
  }

  lemma {:induction false} SmallestIsBelowAverage(ats: seq<nat>, now: nat, g: int, n: nat)
    requires n < |ats|
    requires forall k :: 1 <= k < |ats| ==> g <= Gap(ats, now, k)
    ensures g * n <= GapSum(ats, now, n)
    decreases n
  {
    if n > 0 {
      SmallestIsBelowAverage(ats, now, g, n - 1);
      assert g * n == g * (n - 1) + g;
    }
  }

  /** Evicting the smallest gap from a full store leaves a gap of at most 2 now / (capacity - 1). */
  lemma SmallestGapIsSmall(ats: seq<nat>, now: nat, i: nat)
    requires Evictable(ats, now, i) && Increasing(ats) && ats[|ats| - 1] <= now
    ensures Gap(ats, now, i) * (|ats| - 1) <= 2 * now
  {
    SmallestIsBelowAverage(ats, now, Gap(ats, now, i), |ats| - 1);
    GapsTelescope(ats, now, |ats| - 1);
  }

  lemma NearLater(a: nat, b: nat, newest: nat, newer: nat, interval: nat, capacity: nat)
    requires Near(a, b, newest, interval, capacity) && newest <= newer
    ensures Near(a, b, newer, interval, capacity)
  {
  }

  lemma NearStep(a: nat, b: nat, newest: nat, interval: nat, capacity: nat)
    requires b <= a + interval
    ensures Near(a, b, newest, interval, capacity)
  {
  }

  /** The neighbours of the evicted checkpoint are near. */
  lemma NearEvicted(ats: seq<nat>, now: nat, interval: nat, e: nat)
    requires Evictable(ats, now, e) && Increasing(ats) && ats[|ats| - 1] <= now
    ensures Near(ats[e - 1], if e + 1 < |ats| then ats[e + 1] else now, now, interval, |ats|)
  {
    SmallestGapIsSmall(ats, now, e);
  }

  /** What is left of the store when a checkpoint at `now` is stored, and that checkpoint. */
  function Thinned(ats: seq<nat>, now: nat, capacity: nat, evicted: nat): (next: seq<nat>)
    requires |ats| == capacity ==> evicted < |ats|
    ensures |next| == if |ats| == capacity then |ats| else |ats| + 1
    ensures next[|next| - 1] == now
  {
    (if |ats| == capacity then Without(ats, evicted) else ats) + [now]
  }

  /** The checkpoints before the evicted one keep their place, those after it move up. */
  lemma ThinnedAt(ats: seq<nat>, now: nat, capacity: nat, evicted: nat, i: nat)
    requires |ats| == capacity ==> evicted < |ats|
    requires i < |Thinned(ats, now, capacity, evicted)|
    ensures var k := if |ats| == capacity && evicted <= i then i + 1 else i;
            Thinned(ats, now, capacity, evicted)[i] == if k < |ats| then ats[k] else now
  {
  }

  lemma Earlier(ats: seq<nat>, i: nat, k: nat)
    requires Increasing(ats) && i < k < |ats|
    ensures ats[i] < ats[k]
  {
  }

  /** Neither evicting nor storing changes the order of two checkpoints. */
  lemma OrderAt(ats: seq<nat>, now: nat, capacity: nat, evicted: nat, i: nat, k: nat)
    requires 0 < |ats| && Increasing(ats) && ats[|ats| - 1] < now
    requires |ats| == capacity ==> 1 <= evicted < |ats|
    requires i < k < |Thinned(ats, now, capacity, evicted)|
    ensures var next := Thinned(ats, now, capacity, evicted); next[i] < next[k]
  {
    hide Increasing, Thinned;
    ThinnedAt(ats, now, capacity, evicted, i);
    ThinnedAt(ats, now, capacity, evicted, k);
    var i' := if |ats| == capacity && evicted <= i then i + 1 else i;
    var k' := if |ats| == capacity && evicted <= k then k + 1 else k;
    if k' < |ats| {
      Earlier(ats, i', k');
    } else if i' < |ats| - 1 {
      Earlier(ats, i', |ats| - 1);
    }
  }

  lemma StoreKeepsOrder(ats: seq<nat>, now: nat, capacity: nat, evicted: nat)
    requires 0 < |ats| && Increasing(ats) && ats[|ats| - 1] < now
    requires |ats| == capacity ==> 1 <= evicted < |ats|
    ensures Increasing(Thinned(ats, now, capacity, evicted))
    ensures Thinned(ats, now, capacity, evicted)[0] == ats[0]
  {
    var next := Thinned(ats, now, capacity, evicted);
    hide Thinned;
    ThinnedAt(ats, now, capacity, evicted, 0);
    forall i, k | 0 <= i < k < |next|
      ensures next[i] < next[k]
    {
      OrderAt(ats, now, capacity, evicted, i, k);
    }
  }

  /** Neighbour `i` of the new store is near the one before it. */
  lemma StoreKeepsNear(ats: seq<nat>, now: nat, interval: nat, capacity: nat, evicted: nat, i: nat)
    requires Spaced(ats, interval, capacity) && ats[|ats| - 1] < now <= ats[|ats| - 1] + interval
    requires |ats| == capacity ==> Evictable(ats, now, evicted)
    requires 1 <= i < |Thinned(ats, now, capacity, evicted)|
    ensures var next := Thinned(ats, now, capacity, evicted);
            Near(next[i - 1], next[i], now, interval, capacity)
  {
    hide Near, Gap, Increasing, Thinned;
    ThinnedAt(ats, now, capacity, evicted, i - 1);
    ThinnedAt(ats, now, capacity, evicted, i);
    var last := |ats| - 1;
    if |ats| == capacity && i == evicted {
      NearEvicted(ats, now, interval, evicted);
    } else {
      var k := if |ats| == capacity && evicted < i then i + 1 else i;
      if k <= last {
        NearLater(ats[k - 1], ats[k], ats[last], now, interval, capacity);
      } else {
        NearStep(ats[last], now, now, interval, capacity);
      }
    }
  }

  /** Storing a checkpoint one interval after the newest keeps the store evenly spaced, whether or not
      one has to be evicted first, and never evicts checkpoint 0. */
  lemma StoreKeepsSpacing(ats: seq<nat>, now: nat, interval: nat, capacity: nat, evicted: nat)
    requires Spaced(ats, interval, capacity) && 2 <= capacity && 0 < interval
    requires ats[|ats| - 1] < now <= ats[|ats| - 1] + interval
    requires |ats| == capacity ==> Evictable(ats, now, evicted)
    ensures Spaced(Thinned(ats, now, capacity, evicted), interval, capacity)
  {
    hide Near, Gap, Thinned;
    var next := Thinned(ats, now, capacity, evicted);
    StoreKeepsOrder(ats, now, capacity, evicted);
    forall i | 1 <= i < |next|
      ensures Near(next[i - 1], next[i], now, interval, capacity)
    {
      StoreKeepsNear(ats, now, interval, capacity, evicted, i);
    }
  }

  /** The bound in its usual form. */
  lemma SpacingBound(ats: seq<nat>, interval: nat, capacity: nat, i: nat)
    requires Spaced(ats, interval, capacity) && 2 <= capacity && 1 <= i < |ats|
    ensures ats[i] - ats[i - 1] <= Max(interval, 2 * ats[|ats| - 1] / (capacity - 1))
  {
    var newest := ats[|ats| - 1];
    assert Near(ats[i - 1], ats[i], newest, interval, capacity);
    if ats[i] - ats[i - 1] > interval {
      QuotientBound(ats[i] - ats[i - 1], capacity - 1, 2 * newest);
    }
  }

  lemma ProductGrows(a: nat, b: nat, d: nat)
    requires a <= b
    ensures a * d <= b * d
  {
  }

  lemma QuotientBound(g: nat, d: nat, n: nat)
    requires 0 < d && g * d <= n
    ensures g <= n / d
  {
    var q := n / d;
    assert n < (q + 1) * d;
    if q + 1 <= g {
      ProductGrows(q + 1, g, d);
    }
  }

  lemma QuotientUnique(a: nat, d: nat, q: nat)
    requires 0 < d && a == q * d
    ensures a % d == 0
  {
    var p := a / d;
    assert a == p * d + a % d;
    if p < q {
      ProductGrows(p + 1, q, d);
    } else if q < p {
      ProductGrows(q + 1, p, d);
    }
  }

  lemma NextMultiple(n: nat, d: nat)
    requires 0 < d && n % d == 0
    ensures (n + d) % d == 0
  {
    assert n == (n / d) * d;
    QuotientUnique(n + d, d, n / d + 1);
  }
}
