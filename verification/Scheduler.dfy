/**
 Which machines a rollout updates when (crates/admin/src/rollout.rs:79-91, 131-152
 and 253-280): the canaries, then batches that take at most one machine of each
 tenant.
 */
module Scheduler {
  import opened Prelude
  import opened MachineConfig

  datatype Snapshot = Snapshot(
    machineId: string,
    tenantId: string,
    metadata: map<string, string>,
    config: Json,
    currentVersion: string,
    previousImage: string)

  /** One entry of the map from tenants to their queues, in the order the map is walked. */
  datatype Queue = Queue(tenant: string, items: seq<Snapshot>)

  // ---------------------------------------------------------------------------
  // One batch
  // ---------------------------------------------------------------------------

  /** The heads of the first `c` non-empty queues. */
  function Batch(queues: seq<Queue>, c: nat): seq<Snapshot> {
    if queues == [] || c == 0 then []
    else if queues[0].items == [] then Batch(queues[1..], c)
    else [queues[0].items[0]] + Batch(queues[1..], c - 1)
  }

  function After(queues: seq<Queue>, c: nat): seq<Queue> {
    if queues == [] || c == 0 then queues
    else if queues[0].items == [] then [queues[0]] + After(queues[1..], c)
    else [queues[0].(items := queues[0].items[1..])] + After(queues[1..], c - 1)
  }

  function NonEmpty(queues: seq<Queue>): nat {
    if queues == [] then 0 else (if queues[0].items == [] then 0 else 1) + NonEmpty(queues[1..])
  }

  function Total(queues: seq<Queue>): nat {
    if queues == [] then 0 else |queues[0].items| + Total(queues[1..])
  }

  function Longest(queues: seq<Queue>): nat {
    if queues == [] then 0 else Max(|queues[0].items|, Longest(queues[1..]))
  }

  /** Every batch is as large as the limit and the non-empty queues allow. */
  lemma {:induction false} BatchSize(queues: seq<Queue>, c: nat)
    ensures |Batch(queues, c)| == Min(c, NonEmpty(queues))
    ensures Total(After(queues, c)) == Total(queues) - |Batch(queues, c)|
    ensures Total(queues) > 0 <==> NonEmpty(queues) > 0
    decreases |queues|
  {
    if queues != [] {
      var tail := queues[1..];
      BatchSize(tail, c);
      if c > 0 {
        BatchSize(tail, c - 1);
        assert After(queues, c)[1..] == After(tail, if queues[0].items == [] then c else c - 1);
      }
    }
  }

  /** A batch never lengthens a queue, and one that is not full shortens the longest. */
  lemma {:induction false} BatchShortens(queues: seq<Queue>, c: nat)
    ensures Longest(After(queues, c)) <= Longest(queues)
    ensures NonEmpty(queues) <= c ==> Longest(After(queues, c)) == Longest(queues) - Min(1, Longest(queues))
    decreases |queues|
  {
    if queues != [] {
      var tail := queues[1..];
      BatchShortens(tail, c);
      if c > 0 {
        BatchShortens(tail, c - 1);
        assert After(queues, c)[1..] == After(tail, if queues[0].items == [] then c else c - 1);
      } else {
        NoQueues(queues);
      }
    }
  }

  lemma {:induction false} NoQueues(queues: seq<Queue>)
    ensures NonEmpty(queues) == 0 <==> Longest(queues) == 0
  {
    if queues != [] { NoQueues(queues[1..]); }
  }

  // ---------------------------------------------------------------------------
  // The whole rollout
  // ---------------------------------------------------------------------------

  /** All batches of a rollout in which every update succeeds. */
  function Schedule(queues: seq<Queue>, c: nat): seq<seq<Snapshot>>
    requires c > 0
    decreases Total(queues)
  {
    BatchSize(queues, c);
    if NonEmpty(queues) == 0 then [] else [Batch(queues, c)] + Schedule(After(queues, c), c)
  }

  /** `k` batches of at most `c` suffice and are needed for `total` machines in queues of at most `longest`. */
  ghost predicate Bounds(c: nat, k: nat, total: nat, longest: nat) {
    longest <= k && total <= c * k <= total + c * longest
  }

  lemma {:induction false} ScheduleBounds(queues: seq<Queue>, c: nat)
    requires c > 0
    ensures Bounds(c, |Schedule(queues, c)|, Total(queues), Longest(queues))
    decreases Total(queues)
  {
    BatchSize(queues, c);
    NoQueues(queues);
    if NonEmpty(queues) > 0 {
      var after := After(queues, c);
      ScheduleBounds(after, c);
      BatchShortens(queues, c);
      SlowShrink(queues, c);
      BoundStep(c, |Schedule(after, c)|, Total(after), Longest(after), |Batch(queues, c)|, Longest(queues));
    }
  }

  /**
   The number of batches: no more than a full batch per `c` machines plus one per
   machine of the longest queue, and no fewer than either alone requires.
   */
  lemma ScheduleLength(queues: seq<Queue>, c: nat)
    requires c > 0
    ensures |Schedule(queues, c)| <= Total(queues) / c + Longest(queues)
    ensures Longest(queues) <= |Schedule(queues, c)| && Total(queues) <= c * |Schedule(queues, c)|
  {
    ScheduleBounds(queues, c);
    DivideBound(|Schedule(queues, c)|, Total(queues), Longest(queues), c);
  }

  /** One batch of `taken` machines: it is full, or it shortens the longest queue. */
  lemma BoundStep(c: nat, k: nat, total: nat, longest: nat, taken: nat, longest': nat)
    requires Bounds(c, k, total, longest) && taken <= c
    requires longest <= longest' <= longest + 1 && (taken == c || longest + 1 == longest')
    ensures Bounds(c, k + 1, total + taken, longest')
  {
    assert c * (k + 1) == c * k + c;
    if longest + 1 <= longest' {
      Monotone(c, longest + 1, longest');
      assert c * (longest + 1) == c * longest + c;
    }
  }

  lemma Monotone(c: nat, a: nat, b: nat)
    requires a <= b
    ensures c * a <= c * b
  {
  }

  lemma DivideBound(k: nat, total: nat, longest: nat, c: nat)
    requires c > 0 && c * k <= total + c * longest
    ensures k <= total / c + longest
  {
    if k > longest {
      var d, q := k - longest, total / c;
      assert c * k == c * d + c * longest;
      if q < d {
        Monotone(c, q + 1, d);
      }
    }
  }

  lemma {:induction false} SlowShrink(queues: seq<Queue>, c: nat)
    ensures Longest(queues) <= Longest(After(queues, c)) + 1
    decreases |queues|
  {
    if queues != [] && c > 0 {
      var tail := queues[1..];
      SlowShrink(tail, c);
      SlowShrink(tail, c - 1);
      assert After(queues, c)[1..] == After(tail, if queues[0].items == [] then c else c - 1);
    }
  }

  // ---------------------------------------------------------------------------
  // Everyone exactly once, in order
  // ---------------------------------------------------------------------------

  /** The machines of one tenant, in order. */
  function OfTenant(xs: seq<Snapshot>, tenant: string): seq<Snapshot> {
    if xs == [] then []
    else (if xs[0].tenantId == tenant then [xs[0]] else []) + OfTenant(xs[1..], tenant)
  }

  lemma {:induction false} OfTenantConcat(xs: seq<Snapshot>, ys: seq<Snapshot>, tenant: string)
    ensures OfTenant(xs + ys, tenant) == OfTenant(xs, tenant) + OfTenant(ys, tenant)
  {
    if xs == [] {
      NothingAppended(ys);
      NothingAppended(OfTenant(ys, tenant));
    } else {
      var x, rest := xs[0], xs[1..];
      var head := if x.tenantId == tenant then [x] else [];
      SplitFirst(xs);
      Associative([x], rest, ys);
      Prepended(x, rest + ys);
      OfTenantConcat(rest, ys, tenant);
      Associative(head, OfTenant(rest, tenant), OfTenant(ys, tenant));
    }
  }

  /** Queues hold machines of their own tenant, and no two queues are of the same tenant. */
  ghost predicate Keyed(queues: seq<Queue>) {
    && (forall i, x :: 0 <= i < |queues| && x in queues[i].items ==> x.tenantId == queues[i].tenant)
    && (forall i, j :: 0 <= i < j < |queues| ==> queues[i].tenant != queues[j].tenant)
  }

  /** The queue of a tenant, empty if there is none. */
  function QueueOf(queues: seq<Queue>, tenant: string): seq<Snapshot> {
    if queues == [] then []
    else if queues[0].tenant == tenant then queues[0].items
    else QueueOf(queues[1..], tenant)
  }

  lemma NoQueueNoMachine(queues: seq<Queue>, c: nat, tenant: string)
    requires Keyed(queues) && forall i :: 0 <= i < |queues| ==> queues[i].tenant != tenant
    ensures OfTenant(Batch(queues, c), tenant) == []
    decreases |queues|
  {
    if queues != [] && c > 0 {
      if queues[0].items == [] {
        NoQueueNoMachine(queues[1..], c, tenant);
      } else {
        NoQueueNoMachine(queues[1..], c - 1, tenant);
        OfTenantConcat([queues[0].items[0]], Batch(queues[1..], c - 1), tenant);
      }
    }
  }

  /** What a batch takes of the first queue. */
  function Taken(q: Queue): seq<Snapshot> { if q.items == [] then [] else [q.items[0]] }

  function Left(q: Queue): Queue { if q.items == [] then q else q.(items := q.items[1..]) }

  lemma BatchCons(queues: seq<Queue>, c: nat)
    requires queues != [] && c > 0
    ensures var c' := if queues[0].items == [] then c else c - 1;
            && Batch(queues, c) == Taken(queues[0]) + Batch(queues[1..], c')
            && After(queues, c) == [Left(queues[0])] + After(queues[1..], c')
  {
    NothingAppended(Batch(queues[1..], c));
  }

  lemma TakenOfTenant(q: Queue, tenant: string)
    requires forall x :: x in q.items ==> x.tenantId == q.tenant
    ensures OfTenant(Taken(q), tenant) == if q.tenant == tenant then Taken(q) else []
    ensures q.items == Taken(q) + Left(q).items && Left(q).tenant == q.tenant
  {
    if q.items != [] {
      assert q.items[0] in q.items;
      SplitFirst(q.items);
    }
  }

  /** What a batch takes of a tenant is the head of its queue or nothing. */
  lemma {:induction false} BatchTakesHeads(queues: seq<Queue>, c: nat, tenant: string)
    requires Keyed(queues)
    ensures |OfTenant(Batch(queues, c), tenant)| <= 1
    ensures QueueOf(queues, tenant) == OfTenant(Batch(queues, c), tenant) + QueueOf(After(queues, c), tenant)
    decreases |queues|
  {
    if queues != [] && c > 0 {
      var q, tail := queues[0], queues[1..];
      var c' := if q.items == [] then c else c - 1;
      BatchTakesHeads(tail, c', tenant);
      BatchCons(queues, c);
      TakenOfTenant(q, tenant);
      OfTenantConcat(Taken(q), Batch(tail, c'), tenant);
      Prepended(Left(q), After(tail, c'));
      if q.tenant == tenant {
        NoQueueNoMachine(tail, c', tenant);
        NothingAppended(Taken(q));
      } else {
        NothingAppended(OfTenant(Batch(tail, c'), tenant));
      }
    } else {
      NothingAppended(QueueOf(queues, tenant));
    }
  }

  /** A batch takes at most the head of each queue. */
  lemma {:induction false} AfterAt(queues: seq<Queue>, c: nat, i: nat)
    requires i < |queues|
    ensures |After(queues, c)| == |queues| && After(queues, c)[i].tenant == queues[i].tenant
    ensures
      || After(queues, c)[i].items == queues[i].items
      || (queues[i].items != [] && After(queues, c)[i].items == queues[i].items[1..])
    decreases |queues|
  {
    if c > 0 {
      var c' := if queues[0].items == [] then c else c - 1;
      if i > 0 {
        AfterAt(queues[1..], c', i - 1);
      } else if |queues| > 1 {
        AfterAt(queues[1..], c', 0);
      }
    }
  }

  /** A batch takes the head of a queue if it has one and fewer than `c` queues before it have, and in that order. */
  lemma {:induction false} BatchServes(queues: seq<Queue>, c: nat, i: nat)
    requires i < |queues|
    ensures var served := queues[i].items != [] && NonEmpty(queues[..i]) < c;
            && |After(queues, c)| == |queues|
            && After(queues, c)[i].items == (if served then queues[i].items[1..] else queues[i].items)
            && (served ==> NonEmpty(queues[..i]) < |Batch(queues, c)|
                           && Batch(queues, c)[NonEmpty(queues[..i])] == queues[i].items[0])
    decreases |queues|
  {
    AfterAt(queues, c, i);
    if c > 0 {
      var c' := if queues[0].items == [] then c else c - 1;
      BatchCons(queues, c);
      if i > 0 {
        BatchServes(queues[1..], c', i - 1);
        NonEmptyBefore(queues, i);
        assert After(queues, c)[i] == After(queues[1..], c')[i - 1];
      } else {
        assert NonEmpty(queues[..0]) == 0;
      }
    }
  }

  lemma NonEmptyBefore(queues: seq<Queue>, i: nat)
    requires 0 < i <= |queues|
    ensures NonEmpty(queues[..i]) == |Taken(queues[0])| + NonEmpty(queues[1..][..i - 1])
  {
    assert queues[..i][1..] == queues[1..][..i - 1] && queues[..i][0] == queues[0];
  }

  lemma AfterIsKeyed(queues: seq<Queue>, c: nat)
    requires Keyed(queues)
    ensures Keyed(After(queues, c))
  {
    var after := After(queues, c);
    if queues != [] { AfterAt(queues, c, 0); }
    forall i, x | 0 <= i < |after| && x in after[i].items ensures x.tenantId == after[i].tenant {
      AfterAt(queues, c, i);
      assert x in queues[i].items;
    }
    forall i, j | 0 <= i < j < |after| ensures after[i].tenant != after[j].tenant {
      AfterAt(queues, c, i);
      AfterAt(queues, c, j);
    }
  }

  /** Over the whole rollout every tenant's machines come up exactly once and in queue order. */
  lemma {:induction false} ScheduleServesEveryQueue(queues: seq<Queue>, c: nat, tenant: string)
    requires Keyed(queues) && c > 0
    ensures OfTenant(Flatten(Schedule(queues, c)), tenant) == QueueOf(queues, tenant)
    ensures forall k :: 0 <= k < |Schedule(queues, c)| ==> |OfTenant(Schedule(queues, c)[k], tenant)| <= 1
    decreases Total(queues)
  {
    BatchSize(queues, c);
    BatchTakesHeads(queues, c, tenant);
    if NonEmpty(queues) == 0 {
      EmptyQueues(queues, tenant);
    } else {
      AfterIsKeyed(queues, c);
      var more := Schedule(After(queues, c), c);
      ScheduleServesEveryQueue(After(queues, c), c, tenant);
      assert Schedule(queues, c)[1..] == more;
      FlattenConcat([Batch(queues, c)], more);
      FlattenSingle(Batch(queues, c));
      OfTenantConcat(Batch(queues, c), Flatten(more), tenant);
    }
  }

  lemma EmptyQueues(queues: seq<Queue>, tenant: string)
    requires NonEmpty(queues) == 0
    ensures QueueOf(queues, tenant) == []
  {
  }

  /** The queues after `k` batches. */
  function AfterMany(queues: seq<Queue>, c: nat, k: nat): seq<Queue>
    decreases k
  {
    if k == 0 then queues else AfterMany(After(queues, c), c, k - 1)
  }

  /** Every batch of a rollout takes one machine of each tenant left, up to the limit. */
  lemma {:induction false} BatchesAreFull(queues: seq<Queue>, c: nat, k: nat)
    requires c > 0 && k < |Schedule(queues, c)|
    ensures |Schedule(queues, c)[k]| == Min(c, NonEmpty(AfterMany(queues, c, k))) > 0
    decreases k
  {
    BatchSize(queues, c);
    if k > 0 {
      BatchesAreFull(After(queues, c), c, k - 1);
    }
  }

  /** The inner loop of the rollout: walk the queues, pop a head from each until the batch is full. */
  method NextBatch(queues: seq<Queue>, c: nat) returns (batch: seq<Snapshot>, queues': seq<Queue>)
    ensures batch == Batch(queues, c) && queues' == After(queues, c)
  {
    batch, queues' := [], queues;
    var i := 0;
    assert queues[0..] == queues && queues'[..0] == [];
    while i < |queues| && |batch| < c
      invariant 0 <= i <= |queues| == |queues'| && |batch| <= c
      invariant queues'[i..] == queues[i..]
      invariant batch + Batch(queues[i..], c - |batch|) == Batch(queues, c)
      invariant queues'[..i] + After(queues[i..], c - |batch|) == After(queues, c)
    {
      WalkOn(queues, queues', i, batch, c);
      assert queues[i..][0] == queues[i] == queues'[i..][0] == queues'[i];
      if queues[i].items != [] {
        batch := batch + [queues[i].items[0]];
        queues' := queues'[i := queues[i].(items := queues[i].items[1..])];
      }
      i := i + 1;
    }
    assert queues'[..i] + queues'[i..] == queues';
    assert batch + [] == batch;
  }

  lemma WalkOn(queues: seq<Queue>, queues': seq<Queue>, i: nat, batch: seq<Snapshot>, c: nat)
    requires i < |queues| == |queues'| && |batch| < c && queues'[i..] == queues[i..]
    ensures var q := queues[i];
            var n, batch1 := if q.items == [] then 0 else 1, if q.items == [] then batch else batch + [q.items[0]];
            var q1 := if q.items == [] then q else q.(items := q.items[1..]);
            && batch + Batch(queues[i..], c - |batch|) == batch1 + Batch(queues[i + 1..], c - |batch| - n)
            && queues'[..i] + After(queues[i..], c - |batch|) ==
               queues'[i := q1][..i + 1] + After(queues[i + 1..], c - |batch| - n)
            && queues'[i := q1][i + 1..] == queues[i + 1..]
            && (q.items == [] ==> queues'[i := q1] == queues')
  {
    assert queues[i..][1..] == queues[i + 1..];
    assert queues[i..][0] == queues[i] && queues'[i..][0] == queues'[i];
  }

  // ---------------------------------------------------------------------------
  // Grouping by tenant
  // ---------------------------------------------------------------------------

  /** The order of the map's keys. */
  predicate Less(a: string, b: string) {
    b != [] && (a == [] || a[0] < b[0] || (a[0] == b[0] && Less(a[1..], b[1..])))
  }

  /** The strings agree up to `k`, where the first ends or has the lower character. */
  predicate LowerAt(a: string, b: string, k: nat) {
    k <= |a| && k < |b| && a[..k] == b[..k] && (k == |a| || a[k] < b[k])
  }

  lemma {:induction false} LessHasLower(a: string, b: string) returns (k: nat)
    requires Less(a, b)
    ensures LowerAt(a, b, k)
  {
    k := 0;
    if a != [] && a[0] == b[0] {
      var n := LessHasLower(a[1..], b[1..]);
      assert a[..n + 1] == [a[0]] + a[1..][..n] && b[..n + 1] == [b[0]] + b[1..][..n];
      k := n + 1;
    }
  }

  lemma {:induction false} LowerIsLess(a: string, b: string, k: nat)
    requires LowerAt(a, b, k)
    ensures Less(a, b)
    decreases k
  {
    if k > 0 {
      assert a[0] == a[..k][0] == b[..k][0] == b[0];
      assert a[1..][..k - 1] == a[..k][1..] && b[1..][..k - 1] == b[..k][1..];
      LowerIsLess(a[1..], b[1..], k - 1);
    }
  }

  /** The order is lexicographic. */
  lemma LessIff(a: string, b: string)
    ensures Less(a, b) <==> exists k: nat :: LowerAt(a, b, k)
  {
    if Less(a, b) { var k := LessHasLower(a, b); }
    forall k: nat | LowerAt(a, b, k) ensures Less(a, b) { LowerIsLess(a, b, k); }
  }

  lemma {:induction false} LessIsTotal(a: string, b: string)
    ensures Less(a, b) || Less(b, a) || a == b
    ensures !(Less(a, b) && Less(b, a)) && !Less(a, a)
  {
    if a != [] {
      LessIsTotal(a[1..], if b == [] then [] else b[1..]);
      if b != [] && a[0] == b[0] {
        assert a == [a[0]] + a[1..] && b == [b[0]] + b[1..];
      }
    }
  }

  lemma {:induction false} LessIsTransitive(a: string, b: string, c: string)
    requires Less(a, b) && Less(b, c)
    ensures Less(a, c)
  {
    if a != [] && b != [] && a[0] == b[0] == c[0] { LessIsTransitive(a[1..], b[1..], c[1..]); }
  }

  /** The map as it is walked: keys ascending, each machine in the queue of its tenant. */
  ghost predicate Ordered(queues: seq<Queue>) {
    queues != [] ==>
      && (forall x :: x in queues[0].items ==> x.tenantId == queues[0].tenant)
      && (|queues| > 1 ==> Less(queues[0].tenant, queues[1].tenant))
      && Ordered(queues[1..])
  }

  lemma {:induction false} BelowAll(queues: seq<Queue>, tenant: string)
    requires Ordered(queues) && (queues != [] ==> Less(tenant, queues[0].tenant))
    ensures QueueOf(queues, tenant) == [] && forall i :: 0 <= i < |queues| ==> queues[i].tenant != tenant
  {
    if queues != [] {
      LessIsTotal(tenant, queues[0].tenant);
      if |queues| > 1 { LessIsTransitive(tenant, queues[0].tenant, queues[1].tenant); }
      BelowAll(queues[1..], tenant);
    }
  }

  lemma {:induction false} OrderedIsKeyed(queues: seq<Queue>)
    requires Ordered(queues)
    ensures Keyed(queues)
  {
    if queues != [] {
      OrderedIsKeyed(queues[1..]);
      BelowAll(queues[1..], queues[0].tenant);
    }
  }

  /** Append to the queue of the machine's tenant, made at its place in the order if it is new. */
  function Enqueue(queues: seq<Queue>, x: Snapshot): seq<Queue> {
    if queues == [] || Less(x.tenantId, queues[0].tenant) then [Queue(x.tenantId, [x])] + queues
    else if queues[0].tenant == x.tenantId then [queues[0].(items := queues[0].items + [x])] + queues[1..]
    else [queues[0]] + Enqueue(queues[1..], x)
  }

  lemma {:induction false} EnqueueKeepsOrder(queues: seq<Queue>, x: Snapshot)
    requires Ordered(queues)
    ensures Ordered(Enqueue(queues, x))
    ensures
      || Enqueue(queues, x)[0].tenant == x.tenantId
      || (queues != [] && Enqueue(queues, x)[0].tenant == queues[0].tenant)
  {
    var queues' := Enqueue(queues, x);
    if queues == [] || Less(x.tenantId, queues[0].tenant) {
      assert queues'[1..] == queues;
    } else if queues[0].tenant == x.tenantId {
      assert queues'[1..] == queues[1..];
    } else {
      EnqueueKeepsOrder(queues[1..], x);
      LessIsTotal(x.tenantId, queues[0].tenant);
      assert queues'[1..] == Enqueue(queues[1..], x);
    }
  }

  lemma {:induction false} EnqueueAppends(queues: seq<Queue>, x: Snapshot, tenant: string)
    requires Ordered(queues)
    ensures QueueOf(Enqueue(queues, x), tenant) == QueueOf(queues, tenant) + if tenant == x.tenantId then [x] else []
  {
    var queues' := Enqueue(queues, x);
    if queues == [] || Less(x.tenantId, queues[0].tenant) {
      assert queues'[1..] == queues;
      BelowAll(queues, x.tenantId);
    } else if queues[0].tenant == x.tenantId {
      assert queues'[1..] == queues[1..];
    } else {
      EnqueueAppends(queues[1..], x, tenant);
      assert queues'[1..] == Enqueue(queues[1..], x);
    }
  }

  lemma OfTenantAppend(xs: seq<Snapshot>, k: nat, tenant: string)
    requires k < |xs|
    ensures
      OfTenant(xs[..k + 1], tenant)
      == OfTenant(xs[..k], tenant) + if xs[k].tenantId == tenant then [xs[k]] else []
  {
    assert xs[..k + 1] == xs[..k] + [xs[k]];
    OfTenantConcat(xs[..k], [xs[k]], tenant);
  }

  /** The loop that fills `queue_by_tenant`: every tenant's machines, in order, under its key. */
  method GroupByTenant(remaining: seq<Snapshot>) returns (queues: seq<Queue>)
    ensures Ordered(queues)
    ensures forall tenant :: QueueOf(queues, tenant) == OfTenant(remaining, tenant)
  {
    queues := [];
    for k := 0 to |remaining|
      invariant Ordered(queues)
      invariant forall tenant :: QueueOf(queues, tenant) == OfTenant(remaining[..k], tenant)
    {
      EnqueueKeepsOrder(queues, remaining[k]);
      forall tenant ensures QueueOf(Enqueue(queues, remaining[k]), tenant) == OfTenant(remaining[..k + 1], tenant) {
        EnqueueAppends(queues, remaining[k], tenant);
        OfTenantAppend(remaining, k, tenant);
      }
      queues := Enqueue(queues, remaining[k]);
    }
    assert remaining[..|remaining|] == remaining;
  }
}
