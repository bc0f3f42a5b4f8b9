/**
 The provider as a rollout sees it: calls that may or may not be acknowledged, the
 books that a sequence of calls adds up to, and the order in which machines are called
 (crates/admin/src/rollout.rs:300-495).
 */
module MachinesApi {
  import opened Prelude
  import opened MachineConfig

  datatype Op =
    | GetMachine
    | CreateLease
    | CordonMachine
    | UpdateMachine
    | WaitStarted
    | WaitHealthy
    | SoakWindow
    | UncordonMachine
    | ReleaseLease
    | Panic

  /**
   A call, whether the rollback made it, and whether it was acknowledged. `Panic` is not
   a call: it stands where the task of a machine ended by panicking.
   */
  datatype Call = Call(rollback: bool, op: Op, id: string, ok: bool)

  /**
   What a sequence of calls leaves behind: updates of the rollout that were
   acknowledged, leases that were granted and whose release was not acknowledged
   since, machines that were cordoned and whose uncordoning was not acknowledged
   since, the machines the rollback has turned to, in order, the machines whose task
   panicked, and all calls that were and that were not acknowledged. A cordon counts
   from the call on: one that was not acknowledged may be in place.
   */
  datatype Books = Books(
    acked: set<string>,
    leased: set<string>,
    cordoned: set<string>,
    visited: seq<string>,
    lost: set<string>,
    passed: set<(bool, Op, string)>,
    refused: set<(bool, Op, string)>)

  function Enter(b0: Books, c: Call): Books {
    var key := (c.rollback, c.op, c.id);
    var b := if c.ok then b0.(passed := b0.passed + {key}) else b0.(refused := b0.refused + {key});
    match c.op
    case UpdateMachine => if c.ok && !c.rollback then b.(acked := b.acked + {c.id}) else b
    case CreateLease => if c.ok then b.(leased := b.leased + {c.id}) else b
    case ReleaseLease => if c.ok then b.(leased := b.leased - {c.id}) else b
    case CordonMachine => b.(cordoned := b.cordoned + {c.id})
    case UncordonMachine => if c.ok then b.(cordoned := b.cordoned - {c.id}) else b
    case GetMachine => b.(visited := b.visited + [c.id])
    case Panic => b.(lost := b.lost + {c.id})
    case _ => b
  }

  const NO_BOOKS: Books := Books({}, {}, {}, [], {}, {}, {})

  ghost function Book(trace: seq<Call>): Books {
    if trace == [] then NO_BOOKS else Enter(Book(trace[..|trace| - 1]), trace[|trace| - 1])
  }

  lemma BookAppend(trace: seq<Call>, c: Call)
    ensures Book(trace + [c]) == Enter(Book(trace), c)
  {
    Appended(trace, c);
  }

  /** A machine is booked as updated exactly if some call of the rollout said so. */
  lemma {:induction false} AckedIff(trace: seq<Call>, id: string)
    ensures id in Book(trace).acked <==> Call(false, UpdateMachine, id, true) in trace
  {
    if trace != [] {
      var init, last := trace[..|trace| - 1], trace[|trace| - 1];
      AckedIff(init, id);
      SplitLast(trace);
    }
  }

  /** The books know which calls were and which were not acknowledged. */
  lemma {:induction false} AnsweredIff(trace: seq<Call>, rollback: bool, op: Op, id: string)
    ensures (rollback, op, id) in Book(trace).passed <==> Call(rollback, op, id, true) in trace
    ensures (rollback, op, id) in Book(trace).refused <==> Call(rollback, op, id, false) in trace
  {
    if trace != [] {
      var init, last := trace[..|trace| - 1], trace[|trace| - 1];
      AnsweredIff(init, rollback, op, id);
      SplitLast(trace);
    }
  }

  lemma AckedIsPassed(trace: seq<Call>, id: string)
    ensures id in Book(trace).acked <==> (false, UpdateMachine, id) in Book(trace).passed
  {
    AckedIff(trace, id);
    AnsweredIff(trace, false, UpdateMachine, id);
  }

  /** A machine is booked as lost exactly if its task panicked. */
  lemma {:induction false} LostIff(trace: seq<Call>, id: string)
    ensures id in Book(trace).lost <==> exists i :: 0 <= i < |trace| && trace[i].op == Panic && trace[i].id == id
  {
    if trace != [] {
      var init, last := trace[..|trace| - 1], trace[|trace| - 1];
      LostIff(init, id);
      if i :| 0 <= i < |init| && init[i].op == Panic && init[i].id == id { assert trace[i] == init[i]; }
      if i :| 0 <= i < |trace| && trace[i].op == Panic && trace[i].id == id && i < |init| {
        assert init[i] == trace[i];
      }
    }
  }

  // ---------------------------------------------------------------------------
  // What is still held
  // ---------------------------------------------------------------------------

  /** The call takes hold of the machine; the call gives it back. */
  datatype Hold = Lease | Cordon

  predicate Takes(h: Hold, c: Call, id: string) {
    c.id == id && (if h.Lease? then c.op == CreateLease && c.ok else c.op == CordonMachine)
  }

  predicate Gives(h: Hold, c: Call, id: string) {
    c.id == id && c.op == (if h.Lease? then ReleaseLease else UncordonMachine) && c.ok
  }

  ghost predicate HeldSince(h: Hold, trace: seq<Call>, id: string, i: nat)
    requires i < |trace|
  {
    Takes(h, trace[i], id) && forall j :: i < j < |trace| ==> !Gives(h, trace[j], id)
  }

  ghost function Held(h: Hold, b: Books): set<string> { if h.Lease? then b.leased else b.cordoned }

  lemma HeldStep(h: Hold, init: seq<Call>, last: Call, id: string)
    ensures (exists i :: 0 <= i <= |init| && HeldSince(h, init + [last], id, i)) <==>
            Takes(h, last, id) || (!Gives(h, last, id) && exists i :: 0 <= i < |init| && HeldSince(h, init, id, i))
  {
    var trace := init + [last];
    if Takes(h, last, id) {
      assert HeldSince(h, trace, id, |init|);
    }
    if !Gives(h, last, id) {
      if i :| 0 <= i < |init| && HeldSince(h, init, id, i) {
        assert HeldSince(h, trace, id, i);
      }
    }
    if i :| 0 <= i <= |init| && HeldSince(h, trace, id, i) && i < |init| {
      assert !Gives(h, trace[|init|], id);
      assert forall j :: i < j < |init| ==> trace[j] == init[j];
      assert HeldSince(h, init, id, i);
    }
  }

  /**
   A machine is held exactly if its lease was granted, or its cordon called for, and no
   later release, or uncordoning, of it was acknowledged.
   */
  lemma {:induction false} HeldIff(h: Hold, trace: seq<Call>, id: string)
    ensures id in Held(h, Book(trace)) <==> exists i :: 0 <= i < |trace| && HeldSince(h, trace, id, i)
  {
    if trace != [] {
      var init, last := trace[..|trace| - 1], trace[|trace| - 1];
      SplitLast(trace);
      HeldIff(h, init, id);
      HeldStep(h, init, last, id);
      assert id in Held(h, Enter(Book(init), last)) <==>
             Takes(h, last, id) || (!Gives(h, last, id) && id in Held(h, Book(init)));
    }
  }

  /** A failed release, or uncordoning, leaves the machine held. */
  lemma FailedGiveBackLeavesHolds(id: string)
    ensures var trace := [Call(false, CreateLease, id, true), Call(false, CordonMachine, id, true)]
                         + [Call(false, UncordonMachine, id, false), Call(false, ReleaseLease, id, false)];
            id in Held(Lease, Book(trace)) && id in Held(Cordon, Book(trace))
  {
    var trace := [Call(false, CreateLease, id, true), Call(false, CordonMachine, id, true)]
                 + [Call(false, UncordonMachine, id, false), Call(false, ReleaseLease, id, false)];
    HeldIff(Lease, trace, id);
    HeldIff(Cordon, trace, id);
    assert HeldSince(Lease, trace, id, 0);
    assert HeldSince(Cordon, trace, id, 1);
  }

  /** Some call that should have given the machine back was not acknowledged. */
  predicate GiveBackRefused(h: Hold, b: Books, id: string) {
    var op := if h.Lease? then ReleaseLease else UncordonMachine;
    (false, op, id) in b.refused || (true, op, id) in b.refused
  }

  /** What is held is excused: its task panicked, or giving it back was not acknowledged. */
  ghost predicate Excused(b: Books) {
    forall h, id {:trigger GiveBackRefused(h, b, id)} ::
      id in Held(h, b) ==> id in b.lost || GiveBackRefused(h, b, id)
  }

  // ---------------------------------------------------------------------------
  // Who is called when
  // ---------------------------------------------------------------------------

  /** From `before` to `after` only calls of the given kind to the given machines were made. */
  ghost predicate Extends(before: seq<Call>, after: seq<Call>, rollback: bool, ids: set<string>) {
    && |before| <= |after| && after[..|before|] == before
    && forall i :: |before| <= i < |after| ==> after[i].rollback == rollback && after[i].id in ids
  }

  /** Only configurations of the given machines differ. */
  ghost predicate SameOutside(before: map<string, Json>, after: map<string, Json>, ids: set<string>) {
    forall id {:trigger id in before} {:trigger id in after} ::
      id !in ids ==> (id in before <==> id in after) && (id in before ==> before[id] == after[id])
  }

  lemma ExtendsOne(trace: seq<Call>, c: Call)
    ensures Extends(trace, trace + [c], c.rollback, {c.id})
  {
    Appended(trace, c);
  }

  lemma ExtendsTransitive(a: seq<Call>, b: seq<Call>, c: seq<Call>, rollback: bool, ids: set<string>, ids': set<string>)
    requires Extends(a, b, rollback, ids) && Extends(b, c, rollback, ids')
    ensures Extends(a, c, rollback, ids + ids')
  {
    assert c[..|a|] == c[..|b|][..|a|];
    assert forall i :: |a| <= i < |b| ==> c[i] == c[..|b|][i] == b[i];
  }

  /** Between the two positions only the given machines are called. */
  ghost predicate Segment(trace: seq<Call>, rollback: bool, ids: set<string>, from: nat, to: nat) {
    from <= to <= |trace| && forall i :: from <= i < to ==> trace[i].rollback == rollback && trace[i].id in ids
  }

  /** The calls from `before` to `after` fall into one segment per group, at the given cuts. */
  ghost predicate CutAt(before: seq<Call>, after: seq<Call>, rollback: bool, groups: seq<set<string>>, cuts: seq<nat>) {
    && before <= after && |cuts| == |groups| + 1 && cuts[0] == |before| && cuts[|groups|] == |after|
    && forall k :: 0 <= k < |groups| ==> Segment(after, rollback, groups[k], cuts[k], cuts[k + 1])
  }

  /** From `before` to `after` the groups were called one after the other. */
  ghost predicate InOrder(before: seq<Call>, after: seq<Call>, rollback: bool, groups: seq<set<string>>) {
    exists cuts :: CutAt(before, after, rollback, groups, cuts)
  }

  lemma NothingCalled(trace: seq<Call>, rollback: bool)
    ensures InOrder(trace, trace, rollback, [])
  {
    assert CutAt(trace, trace, rollback, [], [|trace|]);
  }

  lemma NextGroup(a: seq<Call>, b: seq<Call>, c: seq<Call>, rollback: bool, groups: seq<set<string>>, ids: set<string>)
    requires InOrder(a, b, rollback, groups) && Extends(b, c, rollback, ids)
    ensures InOrder(a, c, rollback, groups + [ids])
  {
    var cuts: seq<nat> :| CutAt(a, b, rollback, groups, cuts);
    var groups' := groups + [ids];
    var cuts': seq<nat> := cuts + [|c|];
    assert forall i :: 0 <= i < |b| ==> c[i] == c[..|b|][i] == b[i];
    forall k | 0 <= k < |groups'| ensures Segment(c, rollback, groups'[k], cuts'[k], cuts'[k + 1]) {
      if k < |groups| { assert Segment(b, rollback, groups[k], cuts[k], cuts[k + 1]); }
    }
    assert CutAt(a, c, rollback, groups', cuts');
  }

  lemma InOrderExtends(before: seq<Call>, after: seq<Call>, rollback: bool, groups: seq<set<string>>, ids: set<string>)
    requires InOrder(before, after, rollback, groups) && forall k :: 0 <= k < |groups| ==> groups[k] <= ids
    ensures Extends(before, after, rollback, ids)
  {
    var cuts: seq<nat> :| CutAt(before, after, rollback, groups, cuts);
    forall i | |before| <= i < |after| ensures after[i].rollback == rollback && after[i].id in ids {
      var k := SegmentOf(before, after, rollback, groups, cuts, i, |groups|);
      assert Segment(after, rollback, groups[k], cuts[k], cuts[k + 1]);
    }
  }

  /**
   The machines that are between their first and their last call: called before the
   `i`-th call, and again from it on.
   */
  ghost function InFlight(trace: seq<Call>, rollback: bool, i: nat): set<string> {
    set j, k | 0 <= j < i <= k < |trace| && trace[j].rollback == trace[k].rollback == rollback
               && trace[j].id == trace[k].id :: trace[j].id
  }

  ghost predicate DisjointGroups(groups: seq<set<string>>) {
    forall k, l :: 0 <= k < l < |groups| ==> groups[k] !! groups[l]
  }

  /** All calls of the kind in the trace are those from `before` to `after`. */
  ghost predicate AllOf(before: seq<Call>, after: seq<Call>, trace: seq<Call>, rollback: bool) {
    && |before| <= |after| && after <= trace
    && forall i :: 0 <= i < |trace| && trace[i].rollback == rollback ==> |before| <= i < |after|
  }

  lemma {:induction false} CutsAscend(before: seq<Call>, after: seq<Call>, rollback: bool, groups: seq<set<string>>,
                                      cuts: seq<nat>, k: nat, l: nat)
    requires CutAt(before, after, rollback, groups, cuts) && k <= l <= |groups|
    ensures cuts[k] <= cuts[l]
  {
    if k < l {
      CutsAscend(before, after, rollback, groups, cuts, k, l - 1);
      assert Segment(after, rollback, groups[l - 1], cuts[l - 1], cuts[l]);
    }
  }

  /** The segment a call is in. */
  lemma {:induction false} SegmentOf(before: seq<Call>, after: seq<Call>, rollback: bool, groups: seq<set<string>>,
                                     cuts: seq<nat>, i: nat, n: nat)
    returns (k: nat)
    requires CutAt(before, after, rollback, groups, cuts) && n <= |groups| && |before| <= i < cuts[n]
    ensures k < n && cuts[k] <= i < cuts[k + 1] && after[i].id in groups[k]
  {
    if cuts[n - 1] <= i {
      k := n - 1;
      assert Segment(after, rollback, groups[k], cuts[k], cuts[k + 1]);
    } else {
      k := SegmentOf(before, after, rollback, groups, cuts, i, n - 1);
    }
  }

  /** A machine that is in flight is so within one segment. */
  lemma FlightIsWithin(before: seq<Call>, after: seq<Call>, trace: seq<Call>, rollback: bool,
                       groups: seq<set<string>>, cuts: seq<nat>, i: nat, id: string)
    returns (k: nat)
    requires CutAt(before, after, rollback, groups, cuts) && DisjointGroups(groups)
    requires AllOf(before, after, trace, rollback) && id in InFlight(trace, rollback, i)
    ensures k < |groups| && cuts[k] < i < cuts[k + 1] && id in groups[k]
  {
    var j, m :| 0 <= j < i <= m < |trace| && trace[j].rollback == trace[m].rollback == rollback
      && trace[j].id == trace[m].id == id;
    assert after[j] == trace[j] && after[m] == trace[m];
    k := SegmentOf(before, after, rollback, groups, cuts, j, |groups|);
    var l := SegmentOf(before, after, rollback, groups, cuts, m, |groups|);
    assert k == l;
  }

  /** At any moment all machines in flight are of one group. */
  lemma OneGroupInFlight(before: seq<Call>, after: seq<Call>, trace: seq<Call>, rollback: bool,
                         groups: seq<set<string>>, i: nat)
    requires InOrder(before, after, rollback, groups) && DisjointGroups(groups)
    requires AllOf(before, after, trace, rollback)
    ensures
      || InFlight(trace, rollback, i) == {}
      || exists k :: 0 <= k < |groups| && InFlight(trace, rollback, i) <= groups[k]
  {
    var cuts: seq<nat> :| CutAt(before, after, rollback, groups, cuts);
    if id0 :| id0 in InFlight(trace, rollback, i) {
      var k := FlightIsWithin(before, after, trace, rollback, groups, cuts, i, id0);
      forall id | id in InFlight(trace, rollback, i) ensures id in groups[k] {
        var l := FlightIsWithin(before, after, trace, rollback, groups, cuts, i, id);
        if k < l { CutsAscend(before, after, rollback, groups, cuts, k + 1, l); }
        if l < k { CutsAscend(before, after, rollback, groups, cuts, l + 1, k); }
      }
    }
  }

  // ---------------------------------------------------------------------------
  // The calls of one machine
  // ---------------------------------------------------------------------------

  /** The calls of an update, in order. */
  const UPDATE_CALLS: seq<Op> :=
    [CreateLease, CordonMachine, UpdateMachine, WaitStarted, WaitHealthy, SoakWindow, UncordonMachine, ReleaseLease]

  /** The calls of the given kind to the given machine from the `n`-th on. */
  ghost function CallsSince(trace: seq<Call>, n: nat, rollback: bool, id: string): seq<Call> {
    if |trace| <= n then []
    else
      var init, last := trace[..|trace| - 1], trace[|trace| - 1];
      if last.rollback == rollback && last.id == id then CallsSince(init, n, rollback, id) + [last]
      else CallsSince(init, n, rollback, id)
  }

  lemma CallsAppend(trace: seq<Call>, n: nat, rollback: bool, id: string, c: Call)
    requires n <= |trace|
    ensures CallsSince(trace + [c], n, rollback, id)
            == if c.rollback == rollback && c.id == id then CallsSince(trace, n, rollback, id) + [c]
               else CallsSince(trace, n, rollback, id)
  {
    Appended(trace, c);
  }

  lemma {:induction false} CallsSplit(trace: seq<Call>, trace': seq<Call>, n: nat, rollback: bool, id: string)
    requires n <= |trace| && trace <= trace'
    ensures CallsSince(trace', n, rollback, id)
            == CallsSince(trace, n, rollback, id) + CallsSince(trace', |trace|, rollback, id)
    decreases |trace'|
  {
    if |trace| < |trace'| {
      var init, last := trace'[..|trace'| - 1], trace'[|trace'| - 1];
      CallsSplit(trace, init, n, rollback, id);
      Associative(CallsSince(trace, n, rollback, id), CallsSince(init, |trace|, rollback, id), [last]);
    } else {
      assert trace == trace';
      NothingAppended(CallsSince(trace, n, rollback, id));
    }
  }

  /** Whoever else is called, the machine is not. */
  lemma {:induction false} NotCalled(trace: seq<Call>, trace': seq<Call>, rollback: bool, ids: set<string>,
                                     kind: bool, id: string)
    requires Extends(trace, trace', rollback, ids) && (id !in ids || kind != rollback)
    ensures CallsSince(trace', |trace|, kind, id) == []
    decreases |trace'|
  {
    if |trace| < |trace'| {
      var init := trace'[..|trace'| - 1];
      assert init[..|trace|] == trace'[..|trace|];
      assert forall i :: 0 <= i < |init| ==> init[i] == trace'[i];
      NotCalled(trace, init, rollback, ids, kind, id);
    }
  }

  /** The machine alone is called. */
  lemma {:induction false} OnlyCalled(trace: seq<Call>, trace': seq<Call>, rollback: bool, id: string)
    requires Extends(trace, trace', rollback, {id})
    ensures CallsSince(trace', |trace|, rollback, id) == trace'[|trace|..]
    decreases |trace'|
  {
    if |trace| < |trace'| {
      var init, last := trace'[..|trace'| - 1], trace'[|trace'| - 1];
      assert init[..|trace|] == trace'[..|trace|];
      assert forall i :: 0 <= i < |init| ==> init[i] == trace'[i];
      OnlyCalled(trace, init, rollback, id);
      assert trace'[|trace|..] == init[|trace|..] + [last];
    }
  }

  /** The given calls to a machine, all acknowledged. */
  function Granted(rollback: bool, ops: seq<Op>, id: string): seq<Call> {
    seq(|ops|, i requires 0 <= i < |ops| => Call(rollback, ops[i], id, true))
  }

  /** The calls up to the `n`-th, which was not acknowledged. */
  function RefusedAt(rollback: bool, ops: seq<Op>, n: nat, id: string): seq<Call>
    requires n < |ops|
  {
    Granted(rollback, ops[..n], id) + [Call(rollback, ops[n], id, false)]
  }

  /** The clean-up after a failure under the lease: uncordon and release, whatever the answers. */
  function CleanUp(rollback: bool, id: string, uncordoned: bool, released: bool): seq<Call> {
    [Call(rollback, UncordonMachine, id, uncordoned), Call(rollback, ReleaseLease, id, released)]
  }

  /**
   The calls of an update under the lease up to what went wrong: the `n`-th call was not
   acknowledged, or the configuration cannot be edited and the update was not called.
   */
  ghost predicate BrokenOff(rollback: bool, calls: seq<Call>, id: string, editable: bool) {
    || (exists n :: 1 <= n <= 6 && calls == RefusedAt(rollback, UPDATE_CALLS, n, id))
    || (!editable && calls == Granted(rollback, UPDATE_CALLS[..2], id))
  }

  /** The calls of an update that failed: no lease, or the release refused, or broken off and cleaned up. */
  ghost predicate GaveUp(rollback: bool, calls: seq<Call>, id: string, editable: bool) {
    || calls == RefusedAt(rollback, UPDATE_CALLS, 0, id)
    || calls == RefusedAt(rollback, UPDATE_CALLS, 7, id)
    || exists before, uncordoned, released ::
         BrokenOff(rollback, before, id, editable) && calls == before + CleanUp(rollback, id, uncordoned, released)
  }

  /** Broken off, and the machine uncordoned, whatever the answer. */
  ghost predicate Uncordoned(rollback: bool, calls: seq<Call>, id: string, editable: bool) {
    exists before, ok ::
      BrokenOff(rollback, before, id, editable) && calls == before + [Call(rollback, UncordonMachine, id, ok)]
  }

  /** The `n`-th call, after those before it were acknowledged. */
  lemma NextCall(rollback: bool, calls: seq<Call>, n: nat, id: string, editable: bool)
    requires n < |UPDATE_CALLS| && calls == Granted(rollback, UPDATE_CALLS[..n], id)
    ensures calls + [Call(rollback, UPDATE_CALLS[n], id, true)] == Granted(rollback, UPDATE_CALLS[..n + 1], id)
    ensures calls + [Call(rollback, UPDATE_CALLS[n], id, false)] == RefusedAt(rollback, UPDATE_CALLS, n, id)
    ensures 1 <= n <= 6 ==> BrokenOff(rollback, calls + [Call(rollback, UPDATE_CALLS[n], id, false)], id, editable)
  {
  }

  lemma ReleaseAfterFailure(rollback: bool, calls: seq<Call>, id: string, editable: bool, ok: bool)
    requires Uncordoned(rollback, calls, id, editable)
    ensures GaveUp(rollback, calls + [Call(rollback, ReleaseLease, id, ok)], id, editable)
  {
    var before, u :| BrokenOff(rollback, before, id, editable)
      && calls == before + [Call(rollback, UncordonMachine, id, u)];
    assert calls + [Call(rollback, ReleaseLease, id, ok)] == before + CleanUp(rollback, id, u, ok);
  }

  lemma SliceMore(trace: seq<Call>, n: nat, c: Call)
    requires n <= |trace|
    ensures (trace + [c])[n..] == trace[n..] + [c]
  {
  }

  /** The provider at one moment. */
  datatype World = World(configs: map<string, Json>, trace: seq<Call>)

  class MachinesClient {
    /** Calls that fail have no effect. Without this a failed update may have been applied. */
    const reliable: bool
    var configs: map<string, Json>
    ghost var trace: seq<Call>

    ghost function Now(): World reads this { World(configs, trace) }

    /** A call that changes no configuration. */
    method Send(rollback: bool, op: Op, id: string) returns (ok: bool)
      requires op != UpdateMachine && op != GetMachine && op != Panic
      modifies this
      ensures trace == old(trace) + [Call(rollback, op, id, ok)]
      ensures Book(trace) == Enter(old(Book(trace)), Call(rollback, op, id, ok)) && configs == old(configs)
      ensures Extends(old(trace), trace, rollback, {id})
    {
      ok := *;
      BookAppend(trace, Call(rollback, op, id, ok));
      ExtendsOne(trace, Call(rollback, op, id, ok));
      trace := trace + [Call(rollback, op, id, ok)];
    }

    /** A lookup is acknowledged by a reply that has the machine and its version. */
    method Get(rollback: bool, id: string) returns (ok: bool)
      modifies this
      ensures trace == old(trace) + [Call(rollback, GetMachine, id, ok)]
      ensures Book(trace) == Enter(old(Book(trace)), Call(rollback, GetMachine, id, ok)) && configs == old(configs)
      ensures Extends(old(trace), trace, rollback, {id})
      ensures ok ==> id in configs
    {
      ok := *;
      ok := ok && id in configs;
      BookAppend(trace, Call(rollback, GetMachine, id, ok));
      ExtendsOne(trace, Call(rollback, GetMachine, id, ok));
      trace := trace + [Call(rollback, GetMachine, id, ok)];
    }

    /** The task of the machine panics. Nothing is called. */
    method NotePanic(id: string)
      modifies this`trace
      ensures trace == old(trace) + [Call(false, Panic, id, false)]
      ensures Book(trace) == Enter(old(Book(trace)), Call(false, Panic, id, false))
      ensures Extends(old(trace), trace, false, {id})
    {
      BookAppend(trace, Call(false, Panic, id, false));
      ExtendsOne(trace, Call(false, Panic, id, false));
      trace := trace + [Call(false, Panic, id, false)];
    }

    method Update(rollback: bool, id: string, config: Json) returns (ok: bool)
      modifies this
      ensures trace == old(trace) + [Call(rollback, UpdateMachine, id, ok)]
      ensures Book(trace) == Enter(old(Book(trace)), Call(rollback, UpdateMachine, id, ok))
      ensures Extends(old(trace), trace, rollback, {id})
      ensures configs == old(configs)[id := config] || (!ok && configs == old(configs))
      ensures !ok && reliable ==> configs == old(configs)
    {
      var applied: bool;
      ok, applied := *, *;
      BookAppend(trace, Call(rollback, UpdateMachine, id, ok));
      ExtendsOne(trace, Call(rollback, UpdateMachine, id, ok));
      trace := trace + [Call(rollback, UpdateMachine, id, ok)];
      if ok || (applied && !reliable) {
        configs := configs[id := config];
      }
    }
  }
}
