/**
 Rolling machines back after a failing stage (crates/admin/src/rollout.rs:282-298 and
 387-495).
 */
module Rollback {
  import opened Prelude
  import opened MachineConfig
  import opened MachinesApi
  import opened Scheduler
  import opened Rollout

  /** `rollback_targets`: what succeeded, then what failed after its update, each machine once. */
  method RollbackTargets(updated: seq<Snapshot>, failures: seq<Failure>) returns (targets: seq<Snapshot>)
    requires NoRepeats(updated)
    ensures NoRepeats(targets) && Ids(targets) == Ids(updated) + Targets(failures)
    ensures updated <= targets && forall x :: x in targets[|updated|..] ==> Failure(Some(x)) in failures
  {
    targets := updated;
    for k := 0 to |failures|
      invariant NoRepeats(targets) && Ids(targets) == Ids(updated) + Targets(failures[..k])
      invariant updated <= targets && forall x :: x in targets[|updated|..] ==> Failure(Some(x)) in failures
    {
      var f := failures[k];
      assert failures[..k + 1] == failures[..k] + [f];
      AppendFailure(failures[..k], f);
      if f.rollbackTarget.Some? {
        var x := f.rollbackTarget.value;
        if !exists i :: 0 <= i < |targets| && targets[i].machineId == x.machineId {
          AppendId(targets, x);
          assert (targets + [x])[|updated|..] == targets[|updated|..] + [x];
          targets := targets + [x];
        }
      }
    }
    assert failures[..|failures|] == failures;
  }

  // ---------------------------------------------------------------------------
  // What the rollback does to the provider and to the books
  // ---------------------------------------------------------------------------

  /** Only the rollback called, and only about the given machines. */
  ghost predicate OnlyRollback(w: World, w': World, ids: set<string>) {
    Extends(w.trace, w'.trace, true, ids) && SameOutside(w.configs, w'.configs, ids)
  }

  lemma OnlyRollbackTransitive(a: World, b: World, c: World, ids: set<string>, ids': set<string>)
    requires OnlyRollback(a, b, ids) && OnlyRollback(b, c, ids')
    ensures OnlyRollback(a, c, ids + ids')
  {
    ExtendsTransitive(a.trace, b.trace, c.trace, true, ids, ids');
  }

  /** The rollback turned to the given machines; what they hold since, giving it back was not acknowledged. */
  ghost predicate Visited(b: Books, b': Books, ids: seq<string>) {
    && b'.acked == b.acked && b'.lost == b.lost && b'.visited == b.visited + ids && Grows(b, b')
    && forall h, id {:trigger GiveBackRefused(h, b', id)} ::
         id in Held(h, b') ==> id in Held(h, b) || GiveBackRefused(h, b', id)
  }

  lemma RefusedForGood(h: Hold, b: Books, b': Books, id: string)
    requires Grows(b, b') && GiveBackRefused(h, b, id)
    ensures GiveBackRefused(h, b', id)
  {
  }

  lemma VisitedTransitive(a: Books, b: Books, c: Books, ids: seq<string>, ids': seq<string>)
    requires Visited(a, b, ids) && Visited(b, c, ids')
    ensures Visited(a, c, ids + ids')
  {
    forall h, id | id in Held(h, c) ensures id in Held(h, a) || GiveBackRefused(h, c, id) {
      assert id in Held(h, b) || GiveBackRefused(h, c, id);
      if id in Held(h, b) {
        assert id in Held(h, a) || GiveBackRefused(h, b, id);
        if GiveBackRefused(h, b, id) { RefusedForGood(h, b, c, id); }
      }
    }
  }

  /** Excuses outlast a rollback. */
  lemma ExcusedAfterVisit(b: Books, b': Books, ids: seq<string>)
    requires Excused(b) && Visited(b, b', ids)
    ensures Excused(b')
  {
    forall h, id | id in Held(h, b') ensures id in b'.lost || GiveBackRefused(h, b', id) {
      assert id in Held(h, b) || GiveBackRefused(h, b', id);
      if id in Held(h, b) {
        assert id in b.lost || GiveBackRefused(h, b, id);
        if GiveBackRefused(h, b, id) { RefusedForGood(h, b, b', id); }
      }
    }
  }

  /** The call of the rollback was acknowledged. */
  ghost predicate Answered(b: Books, op: Op, id: string) { (true, op, id) in b.passed }

  ghost predicate Observed(b: Books, id: string) {
    Answered(b, WaitStarted, id) && Answered(b, WaitHealthy, id) && Answered(b, SoakWindow, id)
  }

  /** The machine was cordoned, updated, seen to run and uncordoned. */
  ghost predicate Operated(b: Books, id: string) {
    && Answered(b, CordonMachine, id) && Answered(b, UpdateMachine, id)
    && Observed(b, id) && Answered(b, UncordonMachine, id)
  }

  /** The machine was leased, operated on and released. */
  ghost predicate UnderLease(b: Books, id: string) {
    Answered(b, CreateLease, id) && Operated(b, id) && Answered(b, ReleaseLease, id)
  }

  ghost predicate FullyReverted(b: Books, id: string) { Answered(b, GetMachine, id) && UnderLease(b, id) }

  /** Some call of the machine's rollback was refused. */
  ghost predicate Refusal(b: Books, id: string) { exists op :: (true, op, id) in b.refused }

  /** What was attempted has succeeded exactly if none of its calls was refused. */
  ghost predicate Smooth(b: Books, b': Books, id: string, ok: bool) {
    if ok then b'.refused == b.refused else Refusal(b', id)
  }

  lemma RefusalStays(b: Books, b': Books, id: string)
    requires Refusal(b, id) && b.refused <= b'.refused
    ensures Refusal(b', id)
  {
    var op :| (true, op, id) in b.refused;
    assert (true, op, id) in b'.refused;
  }

  lemma RefusedNow(b: Books, op: Op, id: string)
    ensures Smooth(b, Enter(b, Call(true, op, id, true)), id, true)
    ensures Smooth(b, Enter(b, Call(true, op, id, false)), id, false)
  {
    assert (true, op, id) in Enter(b, Call(true, op, id, false)).refused;
  }

  /** The machine has the configuration its rollback is to give it. */
  ghost predicate Reverted(configs: map<string, Json>, configs': map<string, Json>, x: Snapshot) {
    && x.machineId in configs && x.machineId in configs'
    && Edited(configs[x.machineId], x.previousImage, Metadata(configs[x.machineId])) == Some(configs'[x.machineId])
  }

  // ---------------------------------------------------------------------------
  // One machine
  // ---------------------------------------------------------------------------

  /** From the `n`-th call on the first `k` calls of an update were made, in order, and acknowledged. */
  ghost predicate Through(trace: seq<Call>, n: nat, id: string, k: nat) {
    n <= |trace| && k <= |UPDATE_CALLS| && trace[n..] == Granted(true, UPDATE_CALLS[..k], id)
  }

  /** From the `n`-th call on an update was made up to what went wrong. */
  ghost predicate Stuck(trace: seq<Call>, n: nat, id: string, editable: bool) {
    n <= |trace| && BrokenOff(true, trace[n..], id, editable)
  }

  lemma NothingYet(trace: seq<Call>, id: string)
    ensures Through(trace, |trace|, id, 0)
  {
  }

  lemma OneMore(trace: seq<Call>, n: nat, id: string, k: nat, editable: bool)
    requires Through(trace, n, id, k) && k < |UPDATE_CALLS|
    ensures Through(trace + [Call(true, UPDATE_CALLS[k], id, true)], n, id, k + 1)
    ensures (trace + [Call(true, UPDATE_CALLS[k], id, false)])[n..] == RefusedAt(true, UPDATE_CALLS, k, id)
    ensures 1 <= k <= 6 ==> Stuck(trace + [Call(true, UPDATE_CALLS[k], id, false)], n, id, editable)
  {
    NextCall(true, trace[n..], k, id, editable);
    SliceMore(trace, n, Call(true, UPDATE_CALLS[k], id, true));
    SliceMore(trace, n, Call(true, UPDATE_CALLS[k], id, false));
  }

  /** The next call of the update, other than the update itself. */
  method Ask(api: MachinesClient, id: string, k: nat, ghost n: nat, ghost editable: bool) returns (ok: bool)
    requires k < |UPDATE_CALLS| && k != 2 && Through(api.trace, n, id, k)
    modifies api
    ensures OnlyRollback(old(api.Now()), api.Now(), {id}) && api.configs == old(api.configs)
    ensures Book(api.trace) == Enter(old(Book(api.trace)), Call(true, UPDATE_CALLS[k], id, ok))
    ensures ok ==> Through(api.trace, n, id, k + 1)
    ensures !ok ==> n <= |api.trace| && api.trace[n..] == RefusedAt(true, UPDATE_CALLS, k, id)
    ensures !ok && 1 <= k <= 6 ==> Stuck(api.trace, n, id, editable)
    ensures Smooth(old(Book(api.trace)), Book(api.trace), id, ok)
  {
    RefusedNow(Book(api.trace), UPDATE_CALLS[k], id);
    OneMore(api.trace, n, id, k, editable);
    ok := api.Send(true, UPDATE_CALLS[k], id);
  }

  /** A wait, which changes nothing but what was answered. */
  method Wait(api: MachinesClient, id: string, k: nat, ghost n: nat, ghost editable: bool) returns (ok: bool)
    requires 3 <= k <= 5 && Through(api.trace, n, id, k)
    modifies api
    ensures OnlyRollback(old(api.Now()), api.Now(), {id}) && api.configs == old(api.configs)
    ensures var b, b' := old(Book(api.trace)), Book(api.trace);
            b' == b.(passed := b'.passed, refused := b'.refused) && Grows(b, b')
    ensures ok ==> Answered(Book(api.trace), UPDATE_CALLS[k], id)
    ensures if ok then Through(api.trace, n, id, k + 1) else Stuck(api.trace, n, id, editable)
    ensures Smooth(old(Book(api.trace)), Book(api.trace), id, ok)
  {
    assert UPDATE_CALLS[k] in {WaitStarted, WaitHealthy, SoakWindow};
    ok := Ask(api, id, k, n, editable);
  }

  /** The waits for health and for the soak window. */
  method WatchHealth(api: MachinesClient, id: string, ghost n: nat, ghost editable: bool) returns (ok: bool)
    requires Through(api.trace, n, id, 4)
    modifies api
    ensures OnlyRollback(old(api.Now()), api.Now(), {id}) && api.configs == old(api.configs)
    ensures var b, b' := old(Book(api.trace)), Book(api.trace);
            b' == b.(passed := b'.passed, refused := b'.refused) && Grows(b, b')
    ensures ok ==> Answered(Book(api.trace), WaitHealthy, id) && Answered(Book(api.trace), SoakWindow, id)
    ensures if ok then Through(api.trace, n, id, 6) else Stuck(api.trace, n, id, editable)
    ensures Smooth(old(Book(api.trace)), Book(api.trace), id, ok)
  {
    ok := Wait(api, id, 4, n, editable);
    if !ok { return; }
    ghost var w := api.Now();
    ok := Wait(api, id, 5, n, editable);
    OnlyRollbackTransitive(old(api.Now()), w, api.Now(), {id}, {id});
  }

  /** The three waits after the update. */
  method Observe(api: MachinesClient, id: string, ghost n: nat, ghost editable: bool) returns (ok: bool)
    requires Through(api.trace, n, id, 3)
    modifies api
    ensures OnlyRollback(old(api.Now()), api.Now(), {id}) && api.configs == old(api.configs)
    ensures var b, b' := old(Book(api.trace)), Book(api.trace);
            b' == b.(passed := b'.passed, refused := b'.refused) && Grows(b, b')
    ensures ok ==> Observed(Book(api.trace), id)
    ensures if ok then Through(api.trace, n, id, 6) else Stuck(api.trace, n, id, editable)
    ensures Smooth(old(Book(api.trace)), Book(api.trace), id, ok)
  {
    ok := Wait(api, id, 3, n, editable);
    if !ok { return; }
    ghost var w := api.Now();
    ok := WatchHealth(api, id, n, editable);
    OnlyRollbackTransitive(old(api.Now()), w, api.Now(), {id}, {id});
  }

  /** The `async` block of `rollback_one_machine` up to its update. */
  method Revert(api: MachinesClient, x: Snapshot, current: Json, ghost n: nat) returns (ok: bool)
    requires x.machineId in api.configs && api.configs[x.machineId] == current
    requires Through(api.trace, n, x.machineId, 1)
    modifies api
    ensures OnlyRollback(old(api.Now()), api.Now(), {x.machineId})
    ensures var b, b' := old(Book(api.trace)), Book(api.trace);
            && b' == b.(cordoned := b.cordoned + {x.machineId}, passed := b'.passed, refused := b'.refused)
            && Grows(b, b')
    ensures ok ==> Reverted(old(api.configs), api.configs, x)
    ensures ok ==> Answered(Book(api.trace), CordonMachine, x.machineId)
    ensures ok ==> Answered(Book(api.trace), UpdateMachine, x.machineId)
    ensures if ok then Through(api.trace, n, x.machineId, 3) else Stuck(api.trace, n, x.machineId, current.Obj?)
    ensures ok || current.Obj? ==> Smooth(old(Book(api.trace)), Book(api.trace), x.machineId, ok)
  {
    RefusedNow(Book(api.trace), CordonMachine, x.machineId);
    OneMore(api.trace, n, x.machineId, 1, current.Obj?);
    ok := api.Send(true, CordonMachine, x.machineId);
    var config := Edited(current, x.previousImage, Metadata(current));
    if !ok || config.None? { return false; }
    ghost var w := api.Now();
    RefusedNow(Book(api.trace), UpdateMachine, x.machineId);
    OneMore(api.trace, n, x.machineId, 2, current.Obj?);
    ok := api.Update(true, x.machineId, config.value);
    OnlyRollbackTransitive(old(api.Now()), w, api.Now(), {x.machineId}, {x.machineId});
  }

  /** Uncordoning, and once more after a failure. */
  method Uncordon(api: MachinesClient, id: string, reverted: bool, ghost n: nat, ghost editable: bool)
    returns (ok: bool)
    requires if reverted then Through(api.trace, n, id, 6) else Stuck(api.trace, n, id, editable)
    modifies api
    ensures OnlyRollback(old(api.Now()), api.Now(), {id}) && api.configs == old(api.configs)
    ensures var b, b' := old(Book(api.trace)), Book(api.trace);
            && b' == b.(cordoned := b'.cordoned, passed := b'.passed, refused := b'.refused) && Grows(b, b')
            && b'.cordoned <= b.cordoned && (id in b'.cordoned ==> GiveBackRefused(Cordon, b', id))
    ensures ok ==> reverted && Answered(Book(api.trace), UncordonMachine, id)
    ensures n <= |api.trace|
    ensures if ok then Through(api.trace, n, id, 7) else Uncordoned(true, api.trace[n..], id, editable)
    ensures reverted ==> Smooth(old(Book(api.trace)), Book(api.trace), id, ok)
  {
    if !reverted {
      UncordonAgain(api, id, n, editable);
      return false;
    }
    ok := Ask(api, id, 6, n, editable);
    if ok { return; }
    ghost var w := api.Now();
    UncordonAgain(api, id, n, editable);
    RefusalStays(Book(w.trace), Book(api.trace), id);
    OnlyRollbackTransitive(old(api.Now()), w, api.Now(), {id}, {id});
  }

  /** The uncordoning of the clean-up, whatever the answer. */
  method UncordonAgain(api: MachinesClient, id: string, ghost n: nat, ghost editable: bool)
    requires Stuck(api.trace, n, id, editable)
    modifies api
    ensures OnlyRollback(old(api.Now()), api.Now(), {id}) && api.configs == old(api.configs)
    ensures var b, b' := old(Book(api.trace)), Book(api.trace);
            && b' == b.(cordoned := b'.cordoned, passed := b'.passed, refused := b'.refused) && Grows(b, b')
            && b'.cordoned <= b.cordoned && (id in b'.cordoned ==> GiveBackRefused(Cordon, b', id))
    ensures n <= |api.trace| && Uncordoned(true, api.trace[n..], id, editable)
  {
    var again := api.Send(true, UncordonMachine, id);
    SliceMore(old(api.trace), n, Call(true, UncordonMachine, id, again));
  }

  /** What happens under the lease. */
  method Operate(api: MachinesClient, x: Snapshot, current: Json, ghost n: nat) returns (ok: bool)
    requires x.machineId in api.configs && api.configs[x.machineId] == current
    requires Through(api.trace, n, x.machineId, 1)
    modifies api
    ensures OnlyRollback(old(api.Now()), api.Now(), {x.machineId})
    ensures var b, b' := old(Book(api.trace)), Book(api.trace);
            && b' == b.(cordoned := b'.cordoned, passed := b'.passed, refused := b'.refused) && Grows(b, b')
            && b'.cordoned <= b.cordoned + {x.machineId}
            && (x.machineId in b'.cordoned ==> GiveBackRefused(Cordon, b', x.machineId))
    ensures ok ==> Reverted(old(api.configs), api.configs, x)
    ensures ok ==> Operated(Book(api.trace), x.machineId)
    ensures n <= |api.trace|
    ensures if ok then Through(api.trace, n, x.machineId, 7)
            else Uncordoned(true, api.trace[n..], x.machineId, current.Obj?)
    ensures ok || current.Obj? ==> Smooth(old(Book(api.trace)), Book(api.trace), x.machineId, ok)
  {
    var id := x.machineId;
    ok := RevertAndObserve(api, x, current, n);
    ghost var w, reverted := api.Now(), ok;
    ok := Uncordon(api, id, ok, n, current.Obj?);
    if !reverted && current.Obj? { RefusalStays(Book(w.trace), Book(api.trace), id); }
    OnlyRollbackTransitive(old(api.Now()), w, api.Now(), {id}, {id});
  }

  /** The update and the waits after it. */
  method RevertAndObserve(api: MachinesClient, x: Snapshot, current: Json, ghost n: nat) returns (ok: bool)
    requires x.machineId in api.configs && api.configs[x.machineId] == current
    requires Through(api.trace, n, x.machineId, 1)
    modifies api
    ensures OnlyRollback(old(api.Now()), api.Now(), {x.machineId})
    ensures var b, b' := old(Book(api.trace)), Book(api.trace);
            && b' == b.(cordoned := b.cordoned + {x.machineId}, passed := b'.passed, refused := b'.refused)
            && Grows(b, b')
    ensures ok ==> Reverted(old(api.configs), api.configs, x)
    ensures ok ==> Answered(Book(api.trace), CordonMachine, x.machineId) && Observed(Book(api.trace), x.machineId)
    ensures ok ==> Answered(Book(api.trace), UpdateMachine, x.machineId)
    ensures if ok then Through(api.trace, n, x.machineId, 6) else Stuck(api.trace, n, x.machineId, current.Obj?)
    ensures ok || current.Obj? ==> Smooth(old(Book(api.trace)), Book(api.trace), x.machineId, ok)
  {
    var id := x.machineId;
    ok := Revert(api, x, current, n);
    if !ok { return; }
    ghost var w := api.Now();
    ok := Observe(api, id, n, current.Obj?);
    OnlyRollbackTransitive(old(api.Now()), w, api.Now(), {id}, {id});
  }

  /** Only the given machine may be held that was not held before, and then giving it back was not acknowledged. */
  ghost predicate Settled(b: Books, b': Books, id: string) {
    && b' == b.(leased := b'.leased, cordoned := b'.cordoned, passed := b'.passed, refused := b'.refused)
    && Grows(b, b')
    && b'.leased <= b.leased + {id} && (id in b'.leased ==> id in b.leased || GiveBackRefused(Lease, b', id))
    && b'.cordoned <= b.cordoned + {id} && (id in b'.cordoned ==> id in b.cordoned || GiveBackRefused(Cordon, b', id))
  }

  /** Operating under a lease, and giving it back. */
  method OperateAndRelease(api: MachinesClient, x: Snapshot, current: Json, ghost n: nat) returns (ok: bool)
    requires x.machineId in api.configs && api.configs[x.machineId] == current
    requires Through(api.trace, n, x.machineId, 1)
    modifies api
    ensures OnlyRollback(old(api.Now()), api.Now(), {x.machineId})
    ensures Settled(old(Book(api.trace)), Book(api.trace), x.machineId)
    ensures x.machineId in Book(api.trace).leased ==> GiveBackRefused(Lease, Book(api.trace), x.machineId)
    ensures ok ==> Reverted(old(api.configs), api.configs, x)
    ensures ok ==> Operated(Book(api.trace), x.machineId) && Answered(Book(api.trace), ReleaseLease, x.machineId)
    ensures n <= |api.trace|
    ensures if ok then Through(api.trace, n, x.machineId, 8)
            else GaveUp(true, api.trace[n..], x.machineId, current.Obj?)
    ensures ok || current.Obj? ==> Smooth(old(Book(api.trace)), Book(api.trace), x.machineId, ok)
  {
    var id := x.machineId;
    ok := Operate(api, x, current, n);
    ghost var w := api.Now();
    RefusedNow(Book(w.trace), ReleaseLease, id);
    var released := api.Send(true, ReleaseLease, id);
    OnlyRollbackTransitive(old(api.Now()), w, api.Now(), {id}, {id});
    ReleasedLast(w.trace, n, id, current.Obj?, ok, released);
    ReleaseSettled(old(Book(api.trace)), Book(w.trace), Book(api.trace), id, released);
    if !ok && current.Obj? { RefusalStays(Book(w.trace), Book(api.trace), id); }
    ok := ok && released;
  }

  lemma ReleasedLast(trace: seq<Call>, n: nat, id: string, editable: bool, ok: bool, released: bool)
    requires n <= |trace|
    requires if ok then Through(trace, n, id, 7) else Uncordoned(true, trace[n..], id, editable)
    ensures var trace' := trace + [Call(true, ReleaseLease, id, released)];
            if ok && released then Through(trace', n, id, 8) else GaveUp(true, trace'[n..], id, editable)
  {
    SliceMore(trace, n, Call(true, ReleaseLease, id, released));
    if ok {
      OneMore(trace, n, id, 7, editable);
    } else {
      ReleaseAfterFailure(true, trace[n..], id, editable, released);
    }
  }

  lemma ReleaseSettled(b1: Books, b2: Books, b3: Books, id: string, released: bool)
    requires b2 == b1.(cordoned := b2.cordoned, passed := b2.passed, refused := b2.refused) && Grows(b1, b2)
    requires b2.cordoned <= b1.cordoned + {id} && (id in b2.cordoned ==> GiveBackRefused(Cordon, b2, id))
    requires b3 == Enter(b2, Call(true, ReleaseLease, id, released))
    ensures Settled(b1, b3, id) && (id in b3.leased ==> GiveBackRefused(Lease, b3, id))
    ensures Operated(b2, id) ==> Operated(b3, id)
  {
    if id in b2.cordoned { RefusedForGood(Cordon, b2, b3, id); }
  }

  lemma LeaseSettled(b: Books, b1: Books, b3: Books, id: string)
    requires b1 == Enter(b, Call(true, CreateLease, id, true)) && Settled(b1, b3, id)
    requires id in b3.leased ==> GiveBackRefused(Lease, b3, id)
    ensures Settled(b, b3, id)
  {
  }

  /** Everything that needs the lease: taking it, operating, giving it back. */
  method WithLease(api: MachinesClient, x: Snapshot, current: Json) returns (ok: bool)
    requires x.machineId in api.configs && api.configs[x.machineId] == current
    modifies api
    ensures OnlyRollback(old(api.Now()), api.Now(), {x.machineId})
    ensures Settled(old(Book(api.trace)), Book(api.trace), x.machineId)
    ensures ok ==> Reverted(old(api.configs), api.configs, x) && UnderLease(Book(api.trace), x.machineId)
    ensures old(api.trace) <= api.trace
    ensures if ok then Through(api.trace, |old(api.trace)|, x.machineId, 8)
            else GaveUp(true, api.trace[|old(api.trace)|..], x.machineId, current.Obj?)
    ensures ok || current.Obj? ==> Smooth(old(Book(api.trace)), Book(api.trace), x.machineId, ok)
  {
    var id := x.machineId;
    NothingYet(api.trace, id);
    ok := Ask(api, id, 0, |api.trace|, current.Obj?);
    if !ok { return; }
    ghost var w := api.Now();
    ok := OperateAndRelease(api, x, current, |old(api.trace)|);
    OnlyRollbackTransitive(old(api.Now()), w, api.Now(), {id}, {id});
    LeaseSettled(old(Book(api.trace)), Book(w.trace), Book(api.trace), id);
  }

  lemma SettledIsVisited(b: Books, b1: Books, b': Books, id: string)
    requires b1 == b.(visited := b.visited + [id], passed := b1.passed, refused := b1.refused) && Grows(b, b1)
    requires Settled(b1, b', id)
    ensures Visited(b, b', [id])
  {
    forall h, other | other in Held(h, b') ensures other in Held(h, b) || GiveBackRefused(h, b', other) {
      if h == Lease { assert other in b'.leased; } else { assert other in b'.cordoned; }
    }
  }

  /** The configuration, if the machine has one, can be edited. */
  predicate Editable(configs: map<string, Json>, id: string) { id in configs ==> configs[id].Obj? }

  /**
   The calls of a rollback, in order: the lookup, and if it is acknowledged the lease,
   the cordon, the update, the three waits, the uncordoning and the release. One that
   fails stops at the first call that is refused, or at a configuration that cannot be
   edited, and then uncordons and releases if it has the lease.
   */
  ghost predicate RolledBackBy(calls: seq<Call>, id: string, editable: bool, ok: bool) {
    if ok then calls == [Call(true, GetMachine, id, true)] + Granted(true, UPDATE_CALLS, id)
    else
      || calls == [Call(true, GetMachine, id, false)]
      || (calls != [] && calls[0] == Call(true, GetMachine, id, true) && GaveUp(true, calls[1..], id, editable))
  }

  lemma GetThenLease(trace: seq<Call>, trace': seq<Call>, trace'': seq<Call>, id: string, editable: bool, ok: bool)
    requires trace' == trace + [Call(true, GetMachine, id, true)] && trace' <= trace''
    requires if ok then Through(trace'', |trace'|, id, 8) else GaveUp(true, trace''[|trace'|..], id, editable)
    ensures RolledBackBy(trace''[|trace|..], id, editable, ok)
  {
    WholeSlice(UPDATE_CALLS);
    assert trace''[|trace|] == trace'[|trace|];
    assert trace''[|trace|..] == [trace''[|trace|]] + trace''[|trace'|..];
    assert trace''[|trace|..][1..] == trace''[|trace'|..];
  }

  /**
   `rollback_one_machine`. On a configuration that can be edited it succeeds exactly if
   none of its calls is refused, and then every one of them was acknowledged.
   */
  method RollbackOneMachine(api: MachinesClient, x: Snapshot) returns (ok: bool)
    modifies api
    ensures OnlyRollback(old(api.Now()), api.Now(), {x.machineId})
    ensures Visited(old(Book(api.trace)), Book(api.trace), [x.machineId])
    ensures ok ==> Reverted(old(api.configs), api.configs, x) && FullyReverted(Book(api.trace), x.machineId)
    ensures RolledBackBy(api.trace[|old(api.trace)|..], x.machineId, old(Editable(api.configs, x.machineId)), ok)
    ensures ok || old(Editable(api.configs, x.machineId)) ==>
              Smooth(old(Book(api.trace)), Book(api.trace), x.machineId, ok)
  {
    var id := x.machineId;
    RefusedNow(Book(api.trace), GetMachine, id);
    ok := api.Get(true, id);
    ghost var w := api.Now();
    SettledIsVisited(old(Book(api.trace)), Book(w.trace), Book(w.trace), id);
    SliceMore(old(api.trace), |old(api.trace)|, Call(true, GetMachine, id, ok));
    if !ok { return; }
    ok := WithLease(api, x, api.configs[id]);
    OnlyRollbackTransitive(old(api.Now()), w, api.Now(), {id}, {id});
    GetThenLease(old(api.trace), w.trace, api.trace, id, old(Editable(api.configs, id)), ok);
    SettledIsVisited(old(Book(api.trace)), Book(w.trace), Book(api.trace), id);
  }

  // ---------------------------------------------------------------------------
  // All of them
  // ---------------------------------------------------------------------------

  function Reversed(xs: seq<Snapshot>): seq<string> {
    if xs == [] then [] else Reversed(xs[1..]) + [xs[0].machineId]
  }

  function OneByOne(ids: seq<string>): seq<set<string>> {
    seq(|ids|, i requires 0 <= i < |ids| => {ids[i]})
  }

  /** A machine whose rollback was refused nothing is reverted, by calls that were all acknowledged. */
  ghost predicate RevertedUnlessRefused(configs: map<string, Json>, configs': map<string, Json>, b': Books,
                                        x: Snapshot) {
    Editable(configs, x.machineId) && !Refusal(b', x.machineId) ==>
      Reverted(configs, configs', x) && FullyReverted(b', x.machineId)
  }

  /** Since the `n`-th call the rollback of the machine made its calls in order; all of them if nothing was refused. */
  ghost predicate Undergone(configs: map<string, Json>, trace: seq<Call>, n: nat, id: string) {
    var calls, editable := CallsSince(trace, n, true, id), Editable(configs, id);
    && (RolledBackBy(calls, id, editable, true) || RolledBackBy(calls, id, editable, false))
    && (editable && !Refusal(Book(trace), id) ==> RolledBackBy(calls, id, editable, true))
  }

  /** The rollback has turned to the given machines, the last one first. */
  ghost predicate RolledBackSince(w: World, w': World, xs: seq<Snapshot>) {
    && InOrder(w.trace, w'.trace, true, OneByOne(Reversed(xs))) && SameOutside(w.configs, w'.configs, Ids(xs))
    && Visited(Book(w.trace), Book(w'.trace), Reversed(xs))
    && (forall i :: 0 <= i < |xs| ==> RevertedUnlessRefused(w.configs, w'.configs, Book(w'.trace), xs[i]))
    && (forall i :: 0 <= i < |xs| ==> Undergone(w.configs, w'.trace, |w.trace|, xs[i].machineId))
  }

  /** `rollback`: every target in reverse order, whatever happens to the ones before. */
  method RollbackAll(api: MachinesClient, targets: seq<Snapshot>)
    requires NoRepeats(targets)
    modifies api
    ensures RolledBackSince(old(api.Now()), api.Now(), targets)
  {
    var k := |targets|;
    NothingCalled(api.trace, true);
    assert Reversed(targets[k..]) == [] && OneByOne([]) == [];
    while k > 0
      invariant 0 <= k <= |targets|
      invariant RolledBackSince(old(api.Now()), api.Now(), targets[k..])
    {
      k := k - 1;
      ghost var w := api.Now();
      var ok := RollbackOneMachine(api, targets[k]);
      RollBackMore(old(api.Now()), w, api.Now(), targets, k, ok);
    }
    assert targets[0..] == targets;
  }

  lemma ReversedFrom(xs: seq<Snapshot>, k: nat)
    requires k < |xs|
    ensures xs[k..] == [xs[k]] + xs[k + 1..]
    ensures Ids(xs[k..]) == Ids(xs[k + 1..]) + {xs[k].machineId}
    ensures Reversed(xs[k..]) == Reversed(xs[k + 1..]) + [xs[k].machineId]
    ensures OneByOne(Reversed(xs[k..])) == OneByOne(Reversed(xs[k + 1..])) + [{xs[k].machineId}]
  {
    assert xs[k..][1..] == xs[k + 1..];
    assert forall x :: x in xs[k..] <==> x == xs[k] || x in xs[k + 1..];
  }

  lemma RollBackMore(w0: World, w: World, w': World, xs: seq<Snapshot>, k: nat, ok: bool)
    requires NoRepeats(xs) && k < |xs| && RolledBackSince(w0, w, xs[k + 1..])
    requires OnlyRollback(w, w', {xs[k].machineId}) && Visited(Book(w.trace), Book(w'.trace), [xs[k].machineId])
    requires ok ==> Reverted(w.configs, w'.configs, xs[k]) && FullyReverted(Book(w'.trace), xs[k].machineId)
    requires !ok && Editable(w.configs, xs[k].machineId) ==> Refusal(Book(w'.trace), xs[k].machineId)
    requires RolledBackBy(w'.trace[|w.trace|..], xs[k].machineId, Editable(w.configs, xs[k].machineId), ok)
    ensures RolledBackSince(w0, w', xs[k..])
  {
    ReversedFrom(xs, k);
    NextGroup(w0.trace, w.trace, w'.trace, true, OneByOne(Reversed(xs[k + 1..])), {xs[k].machineId});
    VisitedTransitive(Book(w0.trace), Book(w.trace), Book(w'.trace), Reversed(xs[k + 1..]), [xs[k].machineId]);
    NotAmong(xs, k);
    RevertLast(w0, w, w', xs[k + 1..], xs[k], ok);
    forall i | k < i < |xs| ensures RevertedUnlessRefused(w0.configs, w'.configs, Book(w'.trace), xs[i]) {
      assert xs[k + 1..][i - k - 1] == xs[i] && xs[i].machineId != xs[k].machineId;
      RevertStays(w0.configs, w, w', xs[i], xs[k].machineId);
    }
    UndergoneMore(w0, w, w', xs, k, ok);
  }

  /** The rollback of one more machine, and what it leaves of the ones before. */
  lemma UndergoneMore(w0: World, w: World, w': World, xs: seq<Snapshot>, k: nat, ok: bool)
    requires NoRepeats(xs) && k < |xs| && RolledBackSince(w0, w, xs[k + 1..])
    requires OnlyRollback(w, w', {xs[k].machineId}) && Visited(Book(w.trace), Book(w'.trace), [xs[k].machineId])
    requires !ok && Editable(w.configs, xs[k].machineId) ==> Refusal(Book(w'.trace), xs[k].machineId)
    requires RolledBackBy(w'.trace[|w.trace|..], xs[k].machineId, Editable(w.configs, xs[k].machineId), ok)
    ensures forall i :: 0 <= i < |xs[k..]| ==> Undergone(w0.configs, w'.trace, |w0.trace|, xs[k..][i].machineId)
  {
    NotAmong(xs, k);
    RolledBackExtends(w0, w, xs[k + 1..]);
    UndergoneNow(w0, w, w', Ids(xs[k + 1..]), xs[k].machineId, ok);
    forall i | 0 < i < |xs[k..]| ensures Undergone(w0.configs, w'.trace, |w0.trace|, xs[k..][i].machineId) {
      assert xs[k..][i] == xs[k + 1..][i - 1] == xs[k + i] && xs[k + i].machineId != xs[k].machineId;
      UndergoneStays(w0, w, w', xs[k + i].machineId, xs[k].machineId);
    }
  }

  lemma RolledBackExtends(w: World, w': World, xs: seq<Snapshot>)
    requires RolledBackSince(w, w', xs)
    ensures Extends(w.trace, w'.trace, true, Ids(xs))
  {
    ReversedIds(xs);
    InOrderExtends(w.trace, w'.trace, true, OneByOne(Reversed(xs)), Ids(xs));
  }

  lemma {:induction false} ReversedIds(xs: seq<Snapshot>)
    ensures forall i :: 0 <= i < |Reversed(xs)| ==> Reversed(xs)[i] in Ids(xs)
  {
    if xs != [] {
      ReversedIds(xs[1..]);
      assert xs[0] in xs;
      assert forall x :: x in xs[1..] ==> x in xs;
    }
  }

  lemma UndergoneNow(w0: World, w: World, w': World, ids: set<string>, id: string, ok: bool)
    requires Extends(w0.trace, w.trace, true, ids) && SameOutside(w0.configs, w.configs, ids) && id !in ids
    requires OnlyRollback(w, w', {id}) && (!ok && Editable(w.configs, id) ==> Refusal(Book(w'.trace), id))
    requires RolledBackBy(w'.trace[|w.trace|..], id, Editable(w.configs, id), ok)
    ensures Undergone(w0.configs, w'.trace, |w0.trace|, id)
  {
    assert id in w0.configs <==> id in w.configs;
    CallsSplit(w.trace, w'.trace, |w0.trace|, true, id);
    NotCalled(w0.trace, w.trace, true, ids, true, id);
    OnlyCalled(w.trace, w'.trace, true, id);
    NothingAppended(w'.trace[|w.trace|..]);
  }

  lemma UndergoneStays(w0: World, w: World, w': World, id: string, other: string)
    requires Undergone(w0.configs, w.trace, |w0.trace|, id) && other != id && |w0.trace| <= |w.trace|
    requires OnlyRollback(w, w', {other}) && Grows(Book(w.trace), Book(w'.trace))
    ensures Undergone(w0.configs, w'.trace, |w0.trace|, id)
  {
    CallsSplit(w.trace, w'.trace, |w0.trace|, true, id);
    NotCalled(w.trace, w'.trace, true, {other}, true, id);
    NothingAppended(CallsSince(w.trace, |w0.trace|, true, id));
    if Refusal(Book(w.trace), id) { RefusalStays(Book(w.trace), Book(w'.trace), id); }
  }

  lemma NotAmong(xs: seq<Snapshot>, k: nat)
    requires NoRepeats(xs) && k < |xs|
    ensures xs[k].machineId !in Ids(xs[k + 1..])
  {
  }

  lemma RevertLast(w0: World, w: World, w': World, xs: seq<Snapshot>, x: Snapshot, ok: bool)
    requires SameOutside(w0.configs, w.configs, Ids(xs)) && x.machineId !in Ids(xs)
    requires ok ==> Reverted(w.configs, w'.configs, x) && FullyReverted(Book(w'.trace), x.machineId)
    requires !ok && Editable(w.configs, x.machineId) ==> Refusal(Book(w'.trace), x.machineId)
    ensures RevertedUnlessRefused(w0.configs, w'.configs, Book(w'.trace), x)
  {
    assert x.machineId in w0.configs <==> x.machineId in w.configs;
  }

  lemma RevertStays(configs0: map<string, Json>, w: World, w': World, x: Snapshot, id: string)
    requires RevertedUnlessRefused(configs0, w.configs, Book(w.trace), x) && x.machineId != id
    requires SameOutside(w.configs, w'.configs, {id}) && Grows(Book(w.trace), Book(w'.trace))
    ensures RevertedUnlessRefused(configs0, w'.configs, Book(w'.trace), x)
  {
    if Refusal(Book(w.trace), x.machineId) { RefusalStays(Book(w.trace), Book(w'.trace), x.machineId); }
    assert x.machineId in w.configs <==> x.machineId in w'.configs;
  }
}
