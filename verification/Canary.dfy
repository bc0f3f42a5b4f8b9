/**
 Canary selection (crates/admin/src/rollout.rs:79-91 and 253-280).
 */
module Canary {
  import opened Prelude
  import opened Scheduler

  /** The tenants of the first `n` machines. */
  function TenantsUpTo(xs: seq<Snapshot>, n: nat): set<string>
    requires n <= |xs|
  {
    if n == 0 then {} else TenantsUpTo(xs, n - 1) + {xs[n - 1].tenantId}
  }

  function Tenants(xs: seq<Snapshot>): set<string> { TenantsUpTo(xs, |xs|) }

  /** The tenants of the first `m` machines picked. */
  function PickedTenantsUpTo(targets: seq<Snapshot>, picked: seq<nat>, m: nat): set<string>
    requires Within(picked, |targets|) && m <= |picked|
  {
    if m == 0 then {} else PickedTenantsUpTo(targets, picked, m - 1) + {targets[picked[m - 1]].tenantId}
  }

  function TenantsAt(targets: seq<Snapshot>, picked: seq<nat>): set<string>
    requires Within(picked, |targets|)
  {
    PickedTenantsUpTo(targets, picked, |picked|)
  }

  lemma {:induction false} TenantIn(xs: seq<Snapshot>, n: nat, i: nat)
    requires i < n <= |xs|
    ensures xs[i].tenantId in TenantsUpTo(xs, n)
  {
    if i < n - 1 { TenantIn(xs, n - 1, i); }
  }

  lemma {:induction false} TenantFrom(xs: seq<Snapshot>, n: nat, t: string) returns (i: nat)
    requires n <= |xs| && t in TenantsUpTo(xs, n)
    ensures i < n && xs[i].tenantId == t
  {
    if xs[n - 1].tenantId == t { i := n - 1; } else { i := TenantFrom(xs, n - 1, t); }
  }

  lemma {:induction false} PickedTenantIn(targets: seq<Snapshot>, picked: seq<nat>, m: nat, k: nat)
    requires Within(picked, |targets|) && k < m <= |picked|
    ensures targets[picked[k]].tenantId in PickedTenantsUpTo(targets, picked, m)
  {
    if k < m - 1 { PickedTenantIn(targets, picked, m - 1, k); }
  }

  lemma {:induction false} PickedTenantFrom(targets: seq<Snapshot>, picked: seq<nat>, m: nat, t: string)
    returns (k: nat)
    requires Within(picked, |targets|) && m <= |picked| && t in PickedTenantsUpTo(targets, picked, m)
    ensures k < m && targets[picked[k]].tenantId == t
  {
    if targets[picked[m - 1]].tenantId == t { k := m - 1; } else { k := PickedTenantFrom(targets, picked, m - 1, t); }
  }

  predicate Distinct(picked: seq<nat>) {
    forall i, j :: 0 <= i < j < |picked| ==> picked[i] != picked[j]
  }

  ghost predicate Within(picked: seq<nat>, n: nat) { forall k :: 0 <= k < |picked| ==> picked[k] < n }

  lemma SubsetSize<T>(a: set<T>, b: set<T>)
    requires a <= b
    ensures |a| <= |b|
  {
    assert b == a + (b - a);
  }

  lemma {:induction false} SizeOfDistinct(picked: seq<nat>)
    requires Distinct(picked)
    ensures |Elements(picked)| == |picked|
  {
    if picked != [] {
      var init, last := picked[..|picked| - 1], picked[|picked| - 1];
      assert picked == init + [last];
      SizeOfDistinct(init);
      assert Elements(picked) == Elements(init) + {last};
    }
  }

  function Below(n: nat): (below: set<nat>)
    ensures |below| == n && forall i: nat :: i in below <==> i < n
  {
    if n == 0 then {} else Below(n - 1) + {n - 1}
  }

  /** Distinct indices below `n` number at most `n`, and exactly `n` if they are all there. */
  lemma DistinctCount(picked: seq<nat>, n: nat)
    requires Distinct(picked) && Within(picked, n)
    ensures |picked| <= n
    ensures Below(n) <= Elements(picked) ==> |picked| == n
  {
    SizeOfDistinct(picked);
    SubsetSize(Elements(picked), Below(n));
    if Below(n) <= Elements(picked) { SubsetSize(Below(n), Elements(picked)); }
  }

  lemma {:induction false} PickedBefore(targets: seq<Snapshot>, picked: seq<nat>, idx: nat, m: nat)
    requires Within(picked, |targets|) && idx < |targets| && m <= |picked|
    ensures Within(picked + [idx], |targets|)
    ensures PickedTenantsUpTo(targets, picked + [idx], m) == PickedTenantsUpTo(targets, picked, m)
  {
    if m > 0 { PickedBefore(targets, picked, idx, m - 1); }
  }

  lemma Pick(targets: seq<Snapshot>, picked: seq<nat>, idx: nat)
    requires Within(picked, |targets|) && idx < |targets|
    ensures Within(picked + [idx], |targets|)
    ensures TenantsAt(targets, picked + [idx]) == TenantsAt(targets, picked) + {targets[idx].tenantId}
  {
    PickedBefore(targets, picked, idx, |picked|);
  }

  lemma PickDistinct(picked: seq<nat>, idx: nat)
    requires Distinct(picked) && idx !in picked
    ensures Distinct(picked + [idx])
  {
  }

  /** No earlier machine is of the same tenant. */
  predicate First(targets: seq<Snapshot>, i: nat)
    requires i < |targets|
  {
    forall j :: 0 <= j < i ==> targets[j].tenantId != targets[i].tenantId
  }

  /** How many of the first `n` machines are the first of their tenant. */
  function Firsts(targets: seq<Snapshot>, n: nat): nat
    requires n <= |targets|
  {
    if n == 0 then 0 else Firsts(targets, n - 1) + if First(targets, n - 1) then 1 else 0
  }

  /**
   Which machines are canaries: of those that are the first of their tenant the earliest
   `count`, and if there are fewer the earliest of the others until there are enough.
   */
  predicate Chosen(targets: seq<Snapshot>, count: nat, i: nat)
    requires i < |targets|
  {
    if First(targets, i) then Firsts(targets, i) < count
    else Firsts(targets, |targets|) + (i - Firsts(targets, i)) < count
  }

  lemma {:induction false} FirstsGrow(targets: seq<Snapshot>, i: nat, n: nat)
    requires i <= n <= |targets|
    ensures Firsts(targets, i) <= Firsts(targets, n) && n - Firsts(targets, n) >= i - Firsts(targets, i) >= 0
    ensures i < n && First(targets, i) ==> Firsts(targets, i) < Firsts(targets, n)
    ensures i < n && !First(targets, i) ==> i - Firsts(targets, i) < n - Firsts(targets, n)
  {
    if i < n {
      FirstsGrow(targets, i, n - 1);
    } else if i > 0 {
      FirstsGrow(targets, i - 1, i - 1);
    }
  }

  /** A tenant has been seen exactly if one of its machines is among those looked at. */
  lemma SeenIff(targets: seq<Snapshot>, idx: nat)
    requires idx < |targets|
    ensures First(targets, idx) <==> targets[idx].tenantId !in TenantsUpTo(targets, idx)
  {
    if targets[idx].tenantId in TenantsUpTo(targets, idx) {
      var j := TenantFrom(targets, idx, targets[idx].tenantId);
    } else {
      forall j | 0 <= j < idx ensures targets[j].tenantId != targets[idx].tenantId { TenantIn(targets, idx, j); }
    }
  }

  /** The machines picked are the first of their tenants among the first `idx`. */
  ghost predicate PicksFirsts(targets: seq<Snapshot>, picked: seq<nat>, idx: nat)
    requires idx <= |targets|
  {
    && |picked| == Firsts(targets, idx)
    && forall i: nat :: i < |targets| ==> (i in picked <==> i < idx && First(targets, i))
  }

  lemma EnoughFirsts(targets: seq<Snapshot>, picked: seq<nat>, idx: nat, count: nat)
    requires idx <= |targets| && PicksFirsts(targets, picked, idx) && |picked| == count
    ensures forall i: nat :: i < |targets| ==> (i in picked <==> Chosen(targets, count, i))
  {
    forall i: nat | i < |targets| ensures i in picked <==> Chosen(targets, count, i) {
      FirstsGrow(targets, idx, |targets|);
      FirstsGrow(targets, i, i);
      if i < idx { FirstsGrow(targets, i, idx); } else { FirstsGrow(targets, idx, i); }
    }
  }

  /** All the firsts, and of the others those among the first `idx`. */
  ghost predicate PicksOthers(targets: seq<Snapshot>, picked: seq<nat>, idx: nat)
    requires idx <= |targets|
  {
    && |picked| == Firsts(targets, |targets|) + (idx - Firsts(targets, idx))
    && forall i: nat :: i < |targets| ==> (i in picked <==> i < idx || First(targets, i))
  }

  lemma EnoughOthers(targets: seq<Snapshot>, picked: seq<nat>, idx: nat, count: nat)
    requires idx <= |targets| && PicksOthers(targets, picked, idx) && Firsts(targets, |targets|) < count
    requires |picked| == count || (|picked| < count && idx == |targets|)
    ensures forall i: nat :: i < |targets| ==> (i in picked <==> Chosen(targets, count, i))
  {
    forall i: nat | i < |targets| ensures i in picked <==> Chosen(targets, count, i) {
      FirstsGrow(targets, i, |targets|);
      if i < idx { FirstsGrow(targets, i, idx); } else { FirstsGrow(targets, idx, i); }
    }
  }

  /**
   `select_canary_indices`: the first machine of each tenant, in order, then any
   others. The result has the size asked for, repeats nothing, and reaches as many
   tenants as that size allows.
   */
  method SelectCanaryIndices(targets: seq<Snapshot>, count: nat) returns (picked: seq<nat>)
    ensures |picked| == Min(count, |targets|) && Distinct(picked) && Within(picked, |targets|)
    ensures |TenantsAt(targets, picked)| == Min(count, |Tenants(targets)|)
    ensures forall i: nat :: i < |targets| ==> (i in picked <==> Chosen(targets, count, i))
  {
    if count == 0 || targets == [] {
      forall i: nat | i < |targets| ensures !Chosen(targets, count, i) { FirstsGrow(targets, i, i); }
      return [];
    }
    picked := FirstOfEachTenant(targets, count);
    if |picked| < count {
      picked := FillUp(targets, count, picked);
    }
  }

  /** `picked` are machines among the first `idx`, one of each tenant seen. */
  ghost predicate OnePerTenant(targets: seq<Snapshot>, picked: seq<nat>, seen: set<string>, idx: nat) {
    && idx <= |targets| && Distinct(picked) && Within(picked, idx) && Within(picked, |targets|)
    && |picked| == |seen| && seen == TenantsAt(targets, picked) == TenantsUpTo(targets, idx)
    && PicksFirsts(targets, picked, idx)
  }

  lemma NoneSeen(targets: seq<Snapshot>)
    ensures OnePerTenant(targets, [], {}, 0)
  {
  }

  lemma SeeOne(targets: seq<Snapshot>, picked: seq<nat>, seen: set<string>, idx: nat)
    requires OnePerTenant(targets, picked, seen, idx) && idx < |targets|
    requires targets[idx].tenantId !in seen
    ensures OnePerTenant(targets, picked + [idx], seen + {targets[idx].tenantId}, idx + 1)
  {
    Pick(targets, picked, idx);
    PickDistinct(picked, idx);
    SeenIff(targets, idx);
    assert idx in picked + [idx];
  }

  lemma SeeAgain(targets: seq<Snapshot>, picked: seq<nat>, seen: set<string>, idx: nat)
    requires OnePerTenant(targets, picked, seen, idx) && idx < |targets| && targets[idx].tenantId in seen
    ensures OnePerTenant(targets, picked, seen, idx + 1)
  {
    SeenIff(targets, idx);
  }

  lemma {:induction false} FewerTenants(xs: seq<Snapshot>, m: nat, n: nat)
    requires m <= n <= |xs|
    ensures TenantsUpTo(xs, m) <= TenantsUpTo(xs, n)
  {
    if m < n { FewerTenants(xs, m, n - 1); }
  }

  lemma SeenEnough(targets: seq<Snapshot>, picked: seq<nat>, seen: set<string>, idx: nat)
    requires OnePerTenant(targets, picked, seen, idx)
    ensures |picked| <= |targets| && |picked| <= |Tenants(targets)|
    ensures idx == |targets| ==> seen == Tenants(targets)
  {
    DistinctCount(picked, |targets|);
    FewerTenants(targets, idx, |targets|);
    SubsetSize(seen, Tenants(targets));
  }

  /** The first loop: one machine of each tenant not seen before, until there are enough. */
  method SeeTenants(targets: seq<Snapshot>, count: nat) returns (picked: seq<nat>, seen: set<string>, idx: nat)
    ensures OnePerTenant(targets, picked, seen, idx) && |picked| <= count
    ensures idx == |targets| || |picked| == count
  {
    picked, seen, idx := [], {}, 0;
    NoneSeen(targets);
    while idx < |targets| && |picked| < count
      invariant OnePerTenant(targets, picked, seen, idx) && |picked| <= count
    {
      if targets[idx].tenantId !in seen {
        SeeOne(targets, picked, seen, idx);
        seen := seen + {targets[idx].tenantId};
        picked := picked + [idx];
      } else {
        SeeAgain(targets, picked, seen, idx);
      }
      idx := idx + 1;
    }
  }

  method FirstOfEachTenant(targets: seq<Snapshot>, count: nat) returns (picked: seq<nat>)
    requires count > 0
    ensures |picked| <= count && |picked| <= |targets| && Distinct(picked) && Within(picked, |targets|)
    ensures |TenantsAt(targets, picked)| == |picked| <= |Tenants(targets)|
    ensures |picked| < count ==> TenantsAt(targets, picked) == Tenants(targets)
    ensures |picked| < count ==> PicksFirsts(targets, picked, |targets|)
    ensures |picked| == count ==> forall i: nat :: i < |targets| ==> (i in picked <==> Chosen(targets, count, i))
  {
    var seen, idx;
    picked, seen, idx := SeeTenants(targets, count);
    SeenEnough(targets, picked, seen, idx);
    if |picked| == count { EnoughFirsts(targets, picked, idx, count); }
  }

  lemma OldTenant(targets: seq<Snapshot>, idx: nat)
    requires idx < |targets|
    ensures Tenants(targets) + {targets[idx].tenantId} == Tenants(targets)
  {
    TenantIn(targets, |targets|, idx);
  }

  lemma PickOther(targets: seq<Snapshot>, picked: seq<nat>, idx: nat)
    requires idx < |targets| && PicksOthers(targets, picked, idx) && idx !in picked
    ensures PicksOthers(targets, picked + [idx], idx + 1)
  {
    assert idx in picked + [idx];
  }

  /** The second loop: the lowest indices not picked yet. */
  method FillUp(targets: seq<Snapshot>, count: nat, first: seq<nat>) returns (picked: seq<nat>)
    requires Distinct(first) && |first| < count && Within(first, |targets|)
    requires TenantsAt(targets, first) == Tenants(targets) && PicksFirsts(targets, first, |targets|)
    ensures forall i: nat :: i < |targets| ==> (i in picked <==> Chosen(targets, count, i))
    ensures |picked| == Min(count, |targets|) && Distinct(picked) && Within(picked, |targets|)
    ensures TenantsAt(targets, picked) == Tenants(targets)
  {
    picked := first;
    var idx: nat := 0;
    while idx < |targets| && |picked| < count
      invariant 0 <= idx <= |targets| && |picked| <= count
      invariant Distinct(picked) && Within(picked, |targets|)
      invariant PicksOthers(targets, picked, idx)
      invariant TenantsAt(targets, picked) == Tenants(targets)
    {
      if idx !in picked {
        OldTenant(targets, idx);
        Pick(targets, picked, idx);
        PickDistinct(picked, idx);
        PickOther(targets, picked, idx);
        picked := picked + [idx];
      }
      idx := idx + 1;
    }
    DistinctCount(picked, |targets|);
    EnoughOthers(targets, picked, idx, count);
  }

  // ---------------------------------------------------------------------------
  // Splitting the targets
  // ---------------------------------------------------------------------------

  /** The machines among the first `n` whose index is picked, in order; and the others. */
  function Picked(targets: seq<Snapshot>, picked: set<nat>, n: nat): seq<Snapshot>
    requires n <= |targets|
  {
    if n == 0 then []
    else if n - 1 in picked then Picked(targets, picked, n - 1) + [targets[n - 1]]
    else Picked(targets, picked, n - 1)
  }

  function Others(targets: seq<Snapshot>, picked: set<nat>, n: nat): seq<Snapshot>
    requires n <= |targets|
  {
    if n == 0 then []
    else if n - 1 in picked then Others(targets, picked, n - 1)
    else Others(targets, picked, n - 1) + [targets[n - 1]]
  }

  lemma {:induction false} SplitCount(targets: seq<Snapshot>, picked: set<nat>, n: nat, x: Snapshot)
    requires n <= |targets|
    ensures
      multiset(Picked(targets, picked, n))[x] + multiset(Others(targets, picked, n))[x] == CountUpTo(targets, n, x)
  {
    if n > 0 {
      var a, b, last := Picked(targets, picked, n - 1), Others(targets, picked, n - 1), targets[n - 1];
      SplitCount(targets, picked, n - 1, x);
      MultiplicityAppended(if n - 1 in picked then a else b, last, x);
    }
  }

  /** Both halves together are the targets, nothing lost and nothing doubled. */
  lemma SplitIsPartition(targets: seq<Snapshot>, picked: set<nat>)
    ensures
      multiset(Picked(targets, picked, |targets|)) + multiset(Others(targets, picked, |targets|)) == multiset(targets)
  {
    var a, b := Picked(targets, picked, |targets|), Others(targets, picked, |targets|);
    forall x: Snapshot ensures multiset(a)[x] + multiset(b)[x] == multiset(targets)[x] {
      SplitCount(targets, picked, |targets|, x);
      WholeSlice(targets);
      CountIsMultiplicity(targets, |targets|, x);
    }
  }

  /** Order is kept: each machine follows exactly those of its half that came before it. */
  lemma {:induction false} SplitKeepsOrder(targets: seq<Snapshot>, picked: set<nat>, i: nat, n: nat)
    requires i < n <= |targets|
    ensures |Picked(targets, picked, i)| + |Others(targets, picked, i)| == i
    ensures i in picked ==> |Picked(targets, picked, i)| < |Picked(targets, picked, n)| &&
                            Picked(targets, picked, n)[|Picked(targets, picked, i)|] == targets[i]
    ensures i !in picked ==> |Others(targets, picked, i)| < |Others(targets, picked, n)| &&
                             Others(targets, picked, n)[|Others(targets, picked, i)|] == targets[i]
    decreases n
  {
    if i + 1 < n {
      SplitKeepsOrder(targets, picked, i, n - 1);
    } else if i > 0 {
      SplitKeepsOrder(targets, picked, i - 1, i);
    }
  }

  /** All of `picked` are among the first `n`, so that many machines are chosen. */
  lemma {:induction false} PickedCount(targets: seq<Snapshot>, picked: set<nat>, n: nat)
    requires n <= |targets| && forall i :: i in picked ==> i < n
    ensures |Picked(targets, picked, n)| == |picked|
  {
    if n == 0 {
      assert picked == {};
    } else {
      PickedCount(targets, picked - {n - 1}, n - 1);
      PickedBelow(targets, picked, n - 1);
    }
  }

  /** Indices from `n` on do not matter for the first `n` machines. */
  lemma {:induction false} PickedBelow(targets: seq<Snapshot>, picked: set<nat>, n: nat)
    requires n <= |targets|
    ensures forall m :: m >= n ==> Picked(targets, picked - {m}, n) == Picked(targets, picked, n)
  {
    if n > 0 { PickedBelow(targets, picked, n - 1); }
  }

  lemma {:induction false} PickedFrom(targets: seq<Snapshot>, picked: set<nat>, n: nat, k: nat) returns (i: nat)
    requires n <= |targets| && k < |Picked(targets, picked, n)|
    ensures i < n && i in picked && targets[i] == Picked(targets, picked, n)[k]
  {
    if k < |Picked(targets, picked, n - 1)| {
      i := PickedFrom(targets, picked, n - 1, k);
    } else {
      i := n - 1;
    }
  }

  lemma PickedTenants(targets: seq<Snapshot>, picked: seq<nat>)
    requires Within(picked, |targets|)
    ensures Tenants(Picked(targets, Elements(picked), |targets|)) == TenantsAt(targets, picked)
  {
    var n, chosen := |targets|, Picked(targets, Elements(picked), |targets|);
    forall t | t in Tenants(chosen) ensures t in TenantsAt(targets, picked) {
      var k := TenantFrom(chosen, |chosen|, t);
      var i := PickedFrom(targets, Elements(picked), n, k);
      var p :| 0 <= p < |picked| && picked[p] == i;
      PickedTenantIn(targets, picked, |picked|, p);
    }
    forall t | t in TenantsAt(targets, picked) ensures t in Tenants(chosen) {
      var p := PickedTenantFrom(targets, picked, |picked|, t);
      SplitKeepsOrder(targets, Elements(picked), picked[p], n);
      TenantIn(chosen, |chosen|, |Picked(targets, Elements(picked), picked[p])|);
    }
  }

  method Split(targets: seq<Snapshot>, picked: set<nat>) returns (canaries: seq<Snapshot>, remaining: seq<Snapshot>)
    ensures canaries == Picked(targets, picked, |targets|) && remaining == Others(targets, picked, |targets|)
    ensures multiset(canaries) + multiset(remaining) == multiset(targets)
  {
    canaries, remaining := [], [];
    for idx := 0 to |targets|
      invariant canaries == Picked(targets, picked, idx) && remaining == Others(targets, picked, idx)
    {
      if idx in picked {
        canaries := canaries + [targets[idx]];
      } else {
        remaining := remaining + [targets[idx]];
      }
    }
    SplitIsPartition(targets, picked);
  }

  /** The choice of the canaries: as many as asked for, of as many tenants as possible. */
  method ChooseCanaries(targets: seq<Snapshot>, canary: nat)
    returns (canaries: seq<Snapshot>, remaining: seq<Snapshot>, ghost picked: set<nat>)
    ensures |canaries| == Min(canary, |targets|) && |Tenants(canaries)| == Min(canary, |Tenants(targets)|)
    ensures canaries == Picked(targets, picked, |targets|) && remaining == Others(targets, picked, |targets|)
    ensures picked == set i: nat | i < |targets| && Chosen(targets, Min(canary, |targets|), i)
    ensures multiset(canaries) + multiset(remaining) == multiset(targets)
  {
    var indices := SelectCanaryIndices(targets, Min(canary, |targets|));
    picked := Elements(indices);
    canaries, remaining := Split(targets, Elements(indices));
    SizeOfDistinct(indices);
    PickedCount(targets, picked, |targets|);
    PickedTenants(targets, indices);
    TenantsBound(targets, |targets|);
  }

  lemma {:induction false} TenantsBound(xs: seq<Snapshot>, n: nat)
    requires n <= |xs|
    ensures |TenantsUpTo(xs, n)| <= n
  {
    if n > 0 { TenantsBound(xs, n - 1); }
  }
}
