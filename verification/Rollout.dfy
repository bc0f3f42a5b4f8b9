/**
 The image rollout (crates/admin/src/rollout.rs:46-196 and 282-495): canaries one by
 one, then batches of concurrent tasks, and on the first failing stage a rollback of
 what was updated. Every call to the provider may fail; a task is a step sequence
 that the runtime interleaves with the others of its batch and that may panic.
 */
module Rollout {
  import opened Prelude
  import opened MachineConfig
  import opened MachinesApi
  import opened Scheduler

  // ---------------------------------------------------------------------------
  // One task
  // ---------------------------------------------------------------------------

  /** Where `update_one_machine` stands. */
  datatype Pc =
    | AtLease
    | AtCordon
    | AtUpdate
    | AtStarted
    | AtHealthy
    | AtSoak
    | AtUncordon
    | AtFailed
    | AtRelease(ok: bool)
    | Done(ok: bool)
    | Panicked

  /** `leased` and `cordoned` are not variables of the code: they say what its calls have left at the provider. */
  datatype Task = Task(x: Snapshot, pc: Pc, target: Option<Snapshot>, leased: bool, cordoned: bool)

  predicate Finished(t: Task) { t.pc.Done? || t.pc.Panicked? }
  predicate Succeeded(t: Task) { t.pc == Done(true) }
  predicate FailedAfterUpdate(t: Task) { t.pc == Done(false) && t.target.Some? }
  predicate LostToPanic(t: Task) { t.pc.Panicked? }
  predicate Recorded(t: Task) { t.target.Some? }

  predicate Leasing(t: Task) { t.leased }
  predicate Cordoning(t: Task) { t.cordoned }

  function Rank(pc: Pc): nat {
    match pc
    case AtLease => 9
    case AtCordon => 8
    case AtUpdate => 7
    case AtStarted => 6
    case AtHealthy => 5
    case AtSoak => 4
    case AtUncordon => 3
    case AtFailed => 2
    case AtRelease(_) => 1
    case Done(_) => 0
    case Panicked => 0
  }

  /** The rollback target is the machine itself; it is set from the update on, and a success has it. */
  predicate WellFormed(t: Task) {
    && (t.target.Some? ==> t.target.value == t.x)
    && (t.pc.AtLease? || t.pc.AtCordon? || t.pc.AtUpdate? ==> t.target.None?)
    && (t.pc.AtStarted? || t.pc.AtHealthy? || t.pc.AtSoak? || t.pc.AtUncordon? ==> t.target.Some?)
    && (t.pc == AtRelease(true) || t.pc == Done(true) ==> t.target.Some? && !t.cordoned)
    && (t.pc.AtLease? || t.pc == Done(true) ==> !t.leased)
    && (t.pc.AtLease? || t.pc.AtCordon? ==> !t.cordoned)
  }

  /** The machine runs the new image and has what else its snapshot says. */
  ghost predicate Updated(configs: map<string, Json>, x: Snapshot, image: string) {
    x.machineId in configs && Edited(x.config, image, x.metadata) == Some(configs[x.machineId])
  }

  /** The machine is as its snapshot says. */
  ghost predicate Original(configs: map<string, Json>, x: Snapshot) {
    x.machineId in configs && configs[x.machineId] == x.config
  }

  /** The machine of a task with a rollback target runs the new image. */
  ghost predicate RunsNew(configs: map<string, Json>, t: Task, image: string) {
    t.target.Some? ==> Updated(configs, t.x, image)
  }

  /** The machine of a task without one is as it was. */
  ghost predicate RunsOld(configs: map<string, Json>, t: Task) {
    t.target.None? ==> Original(configs, t.x)
  }

  /** The id of a task's machine joins or leaves a set as the task changes. */
  ghost predicate Follows(ids: set<string>, ids': set<string>, id: string, before: bool, after: bool) {
    || ids' == (if after then ids + {id} else ids - {id})
    || (before == after && ids' == ids)
  }

  /** How many of them a task that has not failed has behind it. */
  function Behind(pc: Pc): nat {
    match pc
    case AtCordon => 1
    case AtUpdate => 2
    case AtStarted => 3
    case AtHealthy => 4
    case AtSoak => 5
    case AtUncordon => 6
    case AtRelease(true) => 7
    case Done(true) => 8
    case _ => 0
  }

  /** The first `n` calls of an update were acknowledged. */
  ghost predicate Passed(passed: set<(bool, Op, string)>, id: string, n: nat)
    requires n <= |UPDATE_CALLS|
  {
    forall k :: 0 <= k < n ==> (false, UPDATE_CALLS[k], id) in passed
  }

  /** What a task leaves held it has tried to give back. */
  ghost predicate TriedAll(b: Books, t: Task) {
    && ((t.pc.AtRelease? || t.pc.Done?) && t.cordoned ==> (false, UncordonMachine, t.x.machineId) in b.refused)
    && (t.pc.Done? && t.leased ==> (false, ReleaseLease, t.x.machineId) in b.refused)
  }

  /** No call of the update was refused, and its task has not panicked. */
  ghost predicate Clear(b: Books, id: string) {
    id !in b.lost && forall op :: (false, op, id) !in b.refused
  }

  /** All calls of the update were acknowledged and none was refused. */
  ghost predicate Completed(b: Books, id: string) {
    Passed(b.passed, id, |UPDATE_CALLS|) && Clear(b, id)
  }

  /** Some call of the update was refused, or the configuration cannot be edited. */
  ghost predicate Stumbled(b: Books, x: Snapshot, image: string) {
    (exists op :: (false, op, x.machineId) in b.refused) || Edited(x.config, image, x.metadata).None?
  }

  /** An update that is not complete has a reason: it stumbled, or its task panicked. */
  ghost predicate Explained(b: Books, x: Snapshot, image: string) {
    Completed(b, x.machineId) || Stumbled(b, x, image) || x.machineId in b.lost
  }

  /** The update has made its first call, or has panicked. */
  ghost predicate Begun(b: Books, id: string) {
    (false, CreateLease, id) in b.passed || (false, CreateLease, id) in b.refused || id in b.lost
  }

  predicate OffTrack(pc: Pc) { pc.AtFailed? || pc == AtRelease(false) || pc == Done(false) }

  /** The books bear out where the task stands. */
  ghost predicate Documented(b: Books, t: Task, image: string) {
    && Passed(b.passed, t.x.machineId, Behind(t.pc)) && TriedAll(b, t)
    && (OffTrack(t.pc) ==> Stumbled(b, t.x, image))
    && (!OffTrack(t.pc) && !t.pc.Panicked? ==> Clear(b, t.x.machineId))
    && (!t.pc.AtLease? ==> Begun(b, t.x.machineId))
  }

  // ---------------------------------------------------------------------------
  // The calls of one task, in order
  // ---------------------------------------------------------------------------

  /** What a task that stands at `pc` has called so far, in order. */
  ghost predicate SoFar(calls: seq<Call>, id: string, editable: bool, pc: Pc)
    requires !pc.Panicked?
  {
    if pc.AtFailed? then BrokenOff(false, calls, id, editable)
    else if pc == AtRelease(false) then Uncordoned(false, calls, id, editable)
    else if pc == Done(false) then GaveUp(false, calls, id, editable)
    else calls == Granted(false, UPDATE_CALLS[..Behind(pc)], id)
  }

  /** A task that panicked has called what it had called before that. */
  ghost predicate Wrote(calls: seq<Call>, id: string, editable: bool, pc: Pc) {
    if pc.Panicked? then
      exists before, pc0: Pc ::
        !pc0.Done? && !pc0.Panicked? && SoFar(before, id, editable, pc0)
        && calls == before + [Call(false, Panic, id, false)]
    else SoFar(calls, id, editable, pc)
  }

  predicate CanEdit(x: Snapshot, image: string) { Edited(x.config, image, x.metadata).Some? }

  /** The next call of a task on its way, and where its answer leads. */
  lemma NextOnTheWay(t: Task, calls: seq<Call>, ok: bool, editable: bool)
    requires WellFormed(t) && !Finished(t) && !t.pc.AtUpdate? && !OffTrack(t.pc)
    requires SoFar(calls, t.x.machineId, editable, t.pc)
    ensures !NextTask(t, ok).pc.Panicked?
    ensures SoFar(calls + [Call(false, Plan(t.pc).0, t.x.machineId, ok)], t.x.machineId, editable, NextTask(t, ok).pc)
  {
    var n, pc' := Behind(t.pc), NextTask(t, ok).pc;
    assert Plan(t.pc).0 == UPDATE_CALLS[n];
    NextCall(false, calls, n, t.x.machineId, editable);
    if ok {
      assert !OffTrack(pc') && Behind(pc') == n + 1;
    } else {
      assert if 1 <= n <= 6 then pc' == AtFailed else pc' == Done(false) && (n == 0 || n == 7);
    }
  }

  lemma NextWrites(t: Task, calls: seq<Call>, ok: bool, editable: bool)
    requires WellFormed(t) && !Finished(t) && !t.pc.AtUpdate? && SoFar(calls, t.x.machineId, editable, t.pc)
    ensures !NextTask(t, ok).pc.Panicked?
    ensures SoFar(calls + [Call(false, Plan(t.pc).0, t.x.machineId, ok)], t.x.machineId, editable, NextTask(t, ok).pc)
  {
    if t.pc == AtRelease(false) {
      ReleaseAfterFailure(false, calls, t.x.machineId, editable, ok);
    } else if !t.pc.AtFailed? {
      NextOnTheWay(t, calls, ok, editable);
    }
  }

  /** The calls made since `trace` continue those of the task. */
  ghost predicate Continues(trace: seq<Call>, trace': seq<Call>, t: Task, t': Task, image: string) {
    && trace <= trace'
    && forall calls {:trigger Wrote(calls, t.x.machineId, CanEdit(t.x, image), t.pc)} ::
         Wrote(calls, t.x.machineId, CanEdit(t.x, image), t.pc) ==>
           Wrote(calls + trace'[|trace|..], t.x.machineId, CanEdit(t.x, image), t'.pc)
  }

  lemma NextContinues(trace: seq<Call>, t: Task, ok: bool, image: string)
    requires WellFormed(t) && !Finished(t) && !t.pc.AtUpdate?
    ensures Continues(trace, trace + [Call(false, Plan(t.pc).0, t.x.machineId, ok)], t, NextTask(t, ok), image)
  {
    var c := Call(false, Plan(t.pc).0, t.x.machineId, ok);
    assert (trace + [c])[|trace|..] == [c];
    forall calls | Wrote(calls, t.x.machineId, CanEdit(t.x, image), t.pc)
      ensures Wrote(calls + [c], t.x.machineId, CanEdit(t.x, image), NextTask(t, ok).pc)
    {
      NextWrites(t, calls, ok, CanEdit(t.x, image));
    }
  }

  lemma UpdateContinues(trace: seq<Call>, t: Task, ok: bool, image: string)
    requires t.pc.AtUpdate?
    ensures Continues(trace, trace + [Call(false, UpdateMachine, t.x.machineId, ok)], t,
                      if ok then t.(pc := AtStarted, target := Some(t.x)) else t.(pc := AtFailed), image)
  {
    var c := Call(false, UpdateMachine, t.x.machineId, ok);
    assert (trace + [c])[|trace|..] == [c];
    assert UPDATE_CALLS[2] == UpdateMachine;
    forall calls | Wrote(calls, t.x.machineId, CanEdit(t.x, image), t.pc)
      ensures Wrote(calls + [c], t.x.machineId, CanEdit(t.x, image), if ok then AtStarted else AtFailed)
    {
      NextCall(false, calls, 2, t.x.machineId, CanEdit(t.x, image));
    }
  }

  lemma NoUpdateContinues(trace: seq<Call>, t: Task, image: string)
    requires t.pc.AtUpdate? && !CanEdit(t.x, image)
    ensures Continues(trace, trace, t, t.(pc := AtFailed), image)
  {
    assert trace[|trace|..] == [];
    forall calls | Wrote(calls, t.x.machineId, false, t.pc) ensures Wrote(calls + [], t.x.machineId, false, AtFailed) {
      NothingAppended(calls);
    }
  }

  lemma PanicContinues(trace: seq<Call>, t: Task, image: string)
    requires !Finished(t)
    ensures Continues(trace, trace + [Call(false, Panic, t.x.machineId, false)], t, t.(pc := Panicked), image)
  {
    var panic := Call(false, Panic, t.x.machineId, false);
    assert (trace + [panic])[|trace|..] == [panic];
  }

  ghost predicate Grows(b: Books, b': Books) { b.passed <= b'.passed && b.refused <= b'.refused && b.lost <= b'.lost }

  /** Whatever was refused since was refused to the updates of the given machines. */
  ghost predicate RefusedTo(b: Books, b': Books, ids: set<string>) {
    forall k :: k in b'.refused && k !in b.refused ==> !k.0 && k.2 in ids
  }

  /** The books follow the task. */
  ghost predicate Booked(b: Books, b': Books, t: Task, t': Task, image: string) {
    && Grows(b, b') && RefusedTo(b, b', {t.x.machineId})
    && (Documented(b, t, image) ==> Documented(b', t', image)) && Followed(b, b', t, t')
  }

  ghost predicate Followed(b: Books, b': Books, t: Task, t': Task) {
    && Follows(b.acked, b'.acked, t.x.machineId, Recorded(t), Recorded(t'))
    && Follows(b.leased, b'.leased, t.x.machineId, Leasing(t), Leasing(t'))
    && Follows(b.cordoned, b'.cordoned, t.x.machineId, Cordoning(t), Cordoning(t'))
    && Follows(b.lost, b'.lost, t.x.machineId, LostToPanic(t), LostToPanic(t'))
    && b'.visited == b.visited
  }

  /** What one step of one task, or its panic, does to the provider. */
  ghost predicate Moved(reliable: bool, w: World, w': World, t: Task, t': Task, image: string) {
    && t'.x == t.x && WellFormed(t') && Rank(t'.pc) < Rank(t.pc)
    && Booked(Book(w.trace), Book(w'.trace), t, t', image)
    && Extends(w.trace, w'.trace, false, {t.x.machineId}) && Continues(w.trace, w'.trace, t, t', image)
    && SameOutside(w.configs, w'.configs, {t.x.machineId})
    && (RunsNew(w.configs, t, image) ==> RunsNew(w'.configs, t', image))
    && (reliable && RunsOld(w.configs, t) ==> RunsOld(w'.configs, t'))
  }

  function Start(x: Snapshot): Task { Task(x, AtLease, None, false, false) }

  /** The call made at each point other than the update, and where its success and its failure lead. */
  function Plan(pc: Pc): (Op, Pc, Pc)
    requires Rank(pc) > 0 && !pc.AtUpdate?
  {
    match pc
    case AtLease => (CreateLease, AtCordon, Done(false))
    case AtCordon => (CordonMachine, AtUpdate, AtFailed)
    case AtStarted => (WaitStarted, AtHealthy, AtFailed)
    case AtHealthy => (WaitHealthy, AtSoak, AtFailed)
    case AtSoak => (SoakWindow, AtUncordon, AtFailed)
    case AtUncordon => (UncordonMachine, AtRelease(true), AtFailed)
    case AtFailed => (UncordonMachine, AtRelease(false), AtRelease(false))
    case AtRelease(ok) => (ReleaseLease, Done(ok), Done(false))
  }

  /** What the answer to a call leaves at the provider. */
  function Called(t: Task, op: Op, ok: bool): Task {
    match op
    case CreateLease => t.(leased := t.leased || ok)
    case ReleaseLease => t.(leased := t.leased && !ok)
    case CordonMachine => t.(cordoned := true)
    case UncordonMachine => t.(cordoned := t.cordoned && !ok)
    case _ => t
  }

  /** The task after the call at its point has been answered. */
  function NextTask(t: Task, ok: bool): Task
    requires Rank(t.pc) > 0 && !t.pc.AtUpdate?
  {
    var (op, good, bad) := Plan(t.pc);
    Called(t, op, ok).(pc := if ok then good else bad)
  }

  lemma NextIsSound(t: Task, b: Books, ok: bool)
    requires WellFormed(t) && !Finished(t) && !t.pc.AtUpdate?
    ensures var t' := NextTask(t, ok);
            && Plan(t.pc).0 !in {UpdateMachine, GetMachine, Panic} && t'.x == t.x && t'.target == t.target
            && WellFormed(t') && Rank(t'.pc) < Rank(t.pc) && !t'.pc.Panicked?
  {
  }

  lemma NextIsStumbled(t: Task, b: Books, ok: bool, image: string)
    requires WellFormed(t) && !Finished(t) && !t.pc.AtUpdate? && OffTrack(NextTask(t, ok).pc)
    requires OffTrack(t.pc) ==> Stumbled(b, t.x, image)
    ensures Stumbled(Enter(b, Call(false, Plan(t.pc).0, t.x.machineId, ok)), t.x, image)
  {
    var b' := Enter(b, Call(false, Plan(t.pc).0, t.x.machineId, ok));
    if !ok {
      assert (false, Plan(t.pc).0, t.x.machineId) in b'.refused;
    } else if op :| (false, op, t.x.machineId) in b.refused {
      assert (false, op, t.x.machineId) in b'.refused;
    }
  }

  lemma NextHasTried(t: Task, b: Books, ok: bool)
    requires WellFormed(t) && !Finished(t) && !t.pc.AtUpdate? && TriedAll(b, t)
    ensures TriedAll(Enter(b, Call(false, Plan(t.pc).0, t.x.machineId, ok)), NextTask(t, ok))
  {
  }

  lemma NextHasPassed(t: Task, b: Books, ok: bool)
    requires WellFormed(t) && !Finished(t) && !t.pc.AtUpdate? && Passed(b.passed, t.x.machineId, Behind(t.pc))
    ensures Passed(Enter(b, Call(false, Plan(t.pc).0, t.x.machineId, ok)).passed, t.x.machineId,
                   Behind(NextTask(t, ok).pc))
  {
    var b', t' := Enter(b, Call(false, Plan(t.pc).0, t.x.machineId, ok)), NextTask(t, ok);
    forall k | 0 <= k < Behind(t'.pc) ensures (false, UPDATE_CALLS[k], t.x.machineId) in b'.passed {
      assert k < Behind(t.pc) || UPDATE_CALLS[k] == Plan(t.pc).0;
    }
  }

  lemma NextIsClear(t: Task, b: Books, ok: bool)
    requires WellFormed(t) && !Finished(t) && !t.pc.AtUpdate? && !OffTrack(NextTask(t, ok).pc)
    requires !OffTrack(t.pc) ==> Clear(b, t.x.machineId)
    ensures Clear(Enter(b, Call(false, Plan(t.pc).0, t.x.machineId, ok)), t.x.machineId)
  {
    assert ok && !OffTrack(t.pc);
  }

  lemma NextHasBegun(t: Task, b: Books, ok: bool)
    requires WellFormed(t) && !Finished(t) && !t.pc.AtUpdate? && (!t.pc.AtLease? ==> Begun(b, t.x.machineId))
    ensures Begun(Enter(b, Call(false, Plan(t.pc).0, t.x.machineId, ok)), t.x.machineId)
  {
  }

  lemma NextIsDocumented(t: Task, b: Books, ok: bool, image: string)
    requires WellFormed(t) && !Finished(t) && !t.pc.AtUpdate? && Documented(b, t, image)
    ensures Documented(Enter(b, Call(false, Plan(t.pc).0, t.x.machineId, ok)), NextTask(t, ok), image)
  {
    NextHasPassed(t, b, ok);
    NextHasTried(t, b, ok);
    NextHasBegun(t, b, ok);
    if OffTrack(NextTask(t, ok).pc) { NextIsStumbled(t, b, ok, image); } else { NextIsClear(t, b, ok); }
  }

  lemma NextIsFollowed(t: Task, b: Books, ok: bool)
    requires WellFormed(t) && !Finished(t) && !t.pc.AtUpdate?
    ensures var b', t' := Enter(b, Call(false, Plan(t.pc).0, t.x.machineId, ok)), NextTask(t, ok);
            Grows(b, b') && RefusedTo(b, b', {t.x.machineId}) && Followed(b, b', t, t')
  {
  }

  lemma NextIsBooked(t: Task, b: Books, ok: bool, image: string)
    requires WellFormed(t) && !Finished(t) && !t.pc.AtUpdate?
    ensures Booked(b, Enter(b, Call(false, Plan(t.pc).0, t.x.machineId, ok)), t, NextTask(t, ok), image)
  {
    NextIsFollowed(t, b, ok);
    if Documented(b, t, image) { NextIsDocumented(t, b, ok, image); }
  }

  /** One call of `update_one_machine`; after a failure the clean-up follows. */
  method Step(api: MachinesClient, t: Task, image: string) returns (t': Task)
    requires WellFormed(t) && !Finished(t)
    modifies api
    ensures Moved(api.reliable, old(api.Now()), api.Now(), t, t', image) && !t'.pc.Panicked?
  {
    if t.pc.AtUpdate? {
      t' := StepUpdate(api, t, image);
    } else {
      ghost var b, trace := Book(api.trace), api.trace;
      NextIsSound(t, b, true);
      NextIsSound(t, b, false);
      var ok := api.Send(false, Plan(t.pc).0, t.x.machineId);
      NextIsBooked(t, b, ok, image);
      NextContinues(trace, t, ok, image);
      t' := NextTask(t, ok);
    }
  }

  lemma UpdateIsBooked(t: Task, b: Books, ok: bool, image: string)
    requires WellFormed(t) && t.pc.AtUpdate?
    ensures Booked(b, Enter(b, Call(false, UpdateMachine, t.x.machineId, ok)), t,
                   if ok then t.(pc := AtStarted, target := Some(t.x)) else t.(pc := AtFailed), image)
  {
    assert UPDATE_CALLS[2] == UpdateMachine;
    var b' := Enter(b, Call(false, UpdateMachine, t.x.machineId, ok));
    if !ok { assert (false, UpdateMachine, t.x.machineId) in b'.refused; }
  }

  lemma PanicIsBooked(t: Task, b: Books, image: string)
    requires WellFormed(t) && !Finished(t)
    ensures Booked(b, Enter(b, Call(false, Panic, t.x.machineId, false)), t, t.(pc := Panicked), image)
  {
  }

  /** The update itself; a configuration that cannot be edited fails without a call. */
  method StepUpdate(api: MachinesClient, t: Task, image: string) returns (t': Task)
    requires WellFormed(t) && t.pc.AtUpdate?
    modifies api
    ensures Moved(api.reliable, old(api.Now()), api.Now(), t, t', image) && !t'.pc.Panicked?
  {
    var config := Edited(t.x.config, image, t.x.metadata);
    if config.None? {
      NoUpdateContinues(api.trace, t, image);
      return t.(pc := AtFailed);
    }
    ghost var b, trace := Book(api.trace), api.trace;
    var ok := api.Update(false, t.x.machineId, config.value);
    UpdateIsBooked(t, b, ok, image);
    UpdateContinues(trace, t, ok, image);
    t' := if ok then t.(pc := AtStarted, target := Some(t.x)) else t.(pc := AtFailed);
  }

  // ---------------------------------------------------------------------------
  // Machines and tasks by id
  // ---------------------------------------------------------------------------

  ghost function Ids(xs: seq<Snapshot>): set<string> { set x | x in xs :: x.machineId }

  ghost predicate NoRepeats(xs: seq<Snapshot>) {
    forall i, j :: 0 <= i < j < |xs| ==> xs[i].machineId != xs[j].machineId
  }

  lemma AppendId(xs: seq<Snapshot>, x: Snapshot)
    ensures Ids(xs + [x]) == Ids(xs) + {x.machineId}
    ensures NoRepeats(xs) && x.machineId !in Ids(xs) ==> NoRepeats(xs + [x])
  {
    assert x in xs + [x];
    assert forall y :: y in xs + [x] <==> y in xs || y == x;
  }

  /** The machines of the tasks that satisfy `p`. */
  ghost function IdsWhere(tasks: seq<Task>, p: Task -> bool): set<string> {
    set i | 0 <= i < |tasks| && p(tasks[i]) :: tasks[i].x.machineId
  }

  ghost predicate DistinctTasks(tasks: seq<Task>) {
    forall i, j :: 0 <= i < j < |tasks| ==> tasks[i].x.machineId != tasks[j].x.machineId
  }

  /** Changing one task moves only its own machine in or out of such a set. */
  lemma ChangeOne(tasks: seq<Task>, i: nat, t: Task, p: Task -> bool)
    requires DistinctTasks(tasks) && i < |tasks| && t.x == tasks[i].x
    ensures IdsWhere(tasks[i := t], p) == IdsWhere(tasks, p) - {t.x.machineId} + (if p(t) then {t.x.machineId} else {})
    ensures p(tasks[i]) <==> t.x.machineId in IdsWhere(tasks, p)
  {
    var tasks' := tasks[i := t];
    var id := t.x.machineId;
    forall k | k in IdsWhere(tasks', p) ensures k in IdsWhere(tasks, p) - {id} + (if p(t) then {id} else {}) {
      var j :| 0 <= j < |tasks'| && p(tasks'[j]) && tasks'[j].x.machineId == k;
      assert j == i || tasks'[j] == tasks[j];
    }
    forall k | k in IdsWhere(tasks, p) - {id} + (if p(t) then {id} else {}) ensures k in IdsWhere(tasks', p) {
      if k == id {
        assert tasks'[i] == t;
      } else {
        var j :| 0 <= j < |tasks| && p(tasks[j]) && tasks[j].x.machineId == k;
        assert tasks'[j] == tasks[j];
      }
    }
  }

  function Work(tasks: seq<Task>): nat {
    if tasks == [] then 0 else Rank(tasks[0].pc) + Work(tasks[1..])
  }

  lemma WorkAt(tasks: seq<Task>, i: nat, t: Task)
    requires i < |tasks|
    ensures Work(tasks[i := t]) == Work(tasks) - Rank(tasks[i].pc) + Rank(t.pc)
  {
    if i == 0 {
      assert tasks[i := t][1..] == tasks[1..];
    } else {
      WorkAt(tasks[1..], i - 1, t);
      assert tasks[i := t][1..] == tasks[1..][i - 1 := t];
    }
  }

  /** What an update reports when it fails: the machine to roll back, if it got that far. */
  datatype Failure = Failure(rollbackTarget: Option<Snapshot>)

  ghost function Targets(failures: seq<Failure>): set<string> {
    set f | f in failures && f.rollbackTarget.Some? :: f.rollbackTarget.value.machineId
  }

  lemma AppendFailure(failures: seq<Failure>, f: Failure)
    ensures
      Targets(failures + [f])
      == Targets(failures) + if f.rollbackTarget.Some? then {f.rollbackTarget.value.machineId} else {}
  {
    assert f in failures + [f];
    assert forall g :: g in failures + [f] <==> g in failures || g == f;
  }

  // ---------------------------------------------------------------------------
  // One batch
  // ---------------------------------------------------------------------------

  predicate Unsuccessful(t: Task) { t.pc == Done(false) || t.pc.Panicked? }

  /** What has been joined so far says how the finished tasks ended, and what was acknowledged is on record. */
  ghost predicate Joined(tasks: seq<Task>, done: seq<Snapshot>, failures: seq<Failure>) {
    && (forall i :: 0 <= i < |tasks| ==> WellFormed(tasks[i]))
    && NoRepeats(done) && Ids(done) == IdsWhere(tasks, Succeeded)
    && Targets(failures) == IdsWhere(tasks, FailedAfterUpdate)
    && (failures == [] <==> IdsWhere(tasks, Unsuccessful) == {})
  }

  function JoinDone(done: seq<Snapshot>, t: Task): seq<Snapshot> {
    if Succeeded(t) then done + [t.x] else done
  }

  function JoinFailure(failures: seq<Failure>, t: Task): seq<Failure> {
    if t.pc == Done(false) then failures + [Failure(t.target)]
    else if t.pc.Panicked? then failures + [Failure(None)]
    else failures
  }

  lemma JoinOne(tasks: seq<Task>, done: seq<Snapshot>, failures: seq<Failure>, i: nat, t: Task)
    requires DistinctTasks(tasks) && Joined(tasks, done, failures)
    requires i < |tasks| && !Finished(tasks[i]) && t.x == tasks[i].x && WellFormed(t)
    ensures Joined(tasks[i := t], JoinDone(done, t), JoinFailure(failures, t))
  {
    ChangeOne(tasks, i, t, Succeeded);
    ChangeOne(tasks, i, t, FailedAfterUpdate);
    ChangeOne(tasks, i, t, Unsuccessful);
    AppendId(done, t.x);
    AppendFailure(failures, Failure(t.target));
    AppendFailure(failures, Failure(None));
  }

  ghost predicate AllNew(configs: map<string, Json>, tasks: seq<Task>, image: string) {
    forall i :: 0 <= i < |tasks| ==> RunsNew(configs, tasks[i], image)
  }

  ghost predicate AllOld(configs: map<string, Json>, tasks: seq<Task>) {
    forall i :: 0 <= i < |tasks| ==> RunsOld(configs, tasks[i])
  }

  /** A step leaves the machines of the other tasks alone. */
  lemma OthersStay(configs: map<string, Json>, configs': map<string, Json>, tasks: seq<Task>, i: nat, j: nat,
                   image: string)
    requires DistinctTasks(tasks) && i < |tasks| && j < |tasks| && j != i
    requires SameOutside(configs, configs', {tasks[i].x.machineId})
    ensures RunsNew(configs, tasks[j], image) ==> RunsNew(configs', tasks[j], image)
    ensures RunsOld(configs, tasks[j]) ==> RunsOld(configs', tasks[j])
  {
    assert tasks[i].x.machineId != tasks[j].x.machineId;
    assert tasks[j].x.machineId in configs <==> tasks[j].x.machineId in configs';
  }

  lemma ConfigsStep(configs: map<string, Json>, configs': map<string, Json>, tasks: seq<Task>, image: string,
                    i: nat, t: Task)
    requires DistinctTasks(tasks) && i < |tasks| && t.x == tasks[i].x
    requires SameOutside(configs, configs', {t.x.machineId})
    ensures AllNew(configs, tasks, image) && RunsNew(configs', t, image) ==> AllNew(configs', tasks[i := t], image)
    ensures AllOld(configs, tasks) && RunsOld(configs', t) ==> AllOld(configs', tasks[i := t])
  {
    var tasks' := tasks[i := t];
    forall j | 0 <= j < |tasks| && j != i
      ensures RunsNew(configs, tasks[j], image) ==> RunsNew(configs', tasks'[j], image)
      ensures RunsOld(configs, tasks[j]) ==> RunsOld(configs', tasks'[j])
    {
      OthersStay(configs, configs', tasks, i, j, image);
    }
  }

  ghost predicate TasksOf(tasks: seq<Task>, batch: seq<Snapshot>) {
    |tasks| == |batch| && forall i :: 0 <= i < |batch| ==> tasks[i].x == batch[i]
  }

  /** The books record exactly what the tasks have done since `b0`. */
  ghost predicate Accounted(b0: Books, b: Books, tasks: seq<Task>) {
    && b.acked == b0.acked + IdsWhere(tasks, Recorded)
    && b.leased == b0.leased + IdsWhere(tasks, Leasing)
    && b.cordoned == b0.cordoned + IdsWhere(tasks, Cordoning)
    && b.lost == b0.lost + IdsWhere(tasks, LostToPanic)
    && b.visited == b0.visited
  }

  ghost predicate AllDocumented(b: Books, tasks: seq<Task>, image: string) {
    forall i :: 0 <= i < |tasks| ==> Documented(b, tasks[i], image)
  }

  /** What the books say of one task they still say after a step of another. */
  lemma OtherDocumented(b: Books, b': Books, t: Task, id: string, image: string)
    requires Documented(b, t, image) && t.x.machineId != id
    requires Grows(b, b') && RefusedTo(b, b', {id}) && b'.lost <= b.lost + {id}
    ensures Documented(b', t, image)
  {
    if OffTrack(t.pc) {
      if op :| (false, op, t.x.machineId) in b.refused { assert (false, op, t.x.machineId) in b'.refused; }
    }
  }

  lemma DocumentOne(b: Books, b': Books, tasks: seq<Task>, i: nat, t: Task, image: string)
    requires DistinctTasks(tasks) && AllDocumented(b, tasks, image) && i < |tasks| && t.x == tasks[i].x
    requires Booked(b, b', tasks[i], t, image)
    ensures AllDocumented(b', tasks[i := t], image)
  {
    forall j | 0 <= j < |tasks| && j != i ensures Documented(b', tasks[j], image) {
      OtherDocumented(b, b', tasks[j], t.x.machineId, image);
    }
  }

  /** Since the `n`-th call every task has called what its place says, in that order. */
  ghost predicate AllWrote(trace: seq<Call>, n: nat, tasks: seq<Task>, image: string) {
    forall i :: 0 <= i < |tasks| ==>
      Wrote(CallsSince(trace, n, false, tasks[i].x.machineId), tasks[i].x.machineId, CanEdit(tasks[i].x, image),
            tasks[i].pc)
  }

  lemma WroteOne(trace: seq<Call>, trace': seq<Call>, n: nat, tasks: seq<Task>, i: nat, t: Task, image: string)
    requires DistinctTasks(tasks) && AllWrote(trace, n, tasks, image) && i < |tasks| && t.x == tasks[i].x
    requires n <= |trace| && Extends(trace, trace', false, {t.x.machineId})
    requires Continues(trace, trace', tasks[i], t, image)
    ensures AllWrote(trace', n, tasks[i := t], image)
  {
    forall j | 0 <= j < |tasks|
      ensures Wrote(CallsSince(trace', n, false, tasks[j].x.machineId), tasks[j].x.machineId,
                    CanEdit(tasks[j].x, image), tasks[i := t][j].pc)
    {
      var id := tasks[j].x.machineId;
      CallsSplit(trace, trace', n, false, id);
      if j == i {
        OnlyCalled(trace, trace', false, id);
      } else {
        NotCalled(trace, trace', false, {t.x.machineId}, false, id);
        NothingAppended(CallsSince(trace, n, false, id));
      }
    }
  }

  /** None of the machines is in the books yet. */
  ghost predicate NotBooked(b: Books, ids: set<string>) {
    && b.acked !! ids && b.leased !! ids && b.cordoned !! ids && b.lost !! ids
    && forall k :: k in b.refused ==> k.2 !in ids
  }

  lemma FollowOne(ids0: set<string>, ids: set<string>, ids': set<string>, tasks: seq<Task>, i: nat, t: Task,
                  p: Task -> bool)
    requires DistinctTasks(tasks) && i < |tasks| && t.x == tasks[i].x && t.x.machineId !in ids0
    requires ids == ids0 + IdsWhere(tasks, p) && Follows(ids, ids', t.x.machineId, p(tasks[i]), p(t))
    ensures ids' == ids0 + IdsWhere(tasks[i := t], p)
  {
    ChangeOne(tasks, i, t, p);
  }

  lemma AccountOne(b0: Books, b: Books, b': Books, tasks: seq<Task>, i: nat, t: Task, ids: set<string>, image: string)
    requires DistinctTasks(tasks) && i < |tasks| && t.x == tasks[i].x && t.x.machineId in ids
    requires NotBooked(b0, ids) && Accounted(b0, b, tasks) && Booked(b, b', tasks[i], t, image)
    ensures Accounted(b0, b', tasks[i := t])
  {
    FollowOne(b0.acked, b.acked, b'.acked, tasks, i, t, Recorded);
    FollowOne(b0.leased, b.leased, b'.leased, tasks, i, t, Leasing);
    FollowOne(b0.cordoned, b.cordoned, b'.cordoned, tasks, i, t, Cordoning);
    FollowOne(b0.lost, b.lost, b'.lost, tasks, i, t, LostToPanic);
  }

  /** What the tasks of a batch have done to the provider since `w0`. */
  ghost predicate Ran(reliable: bool, w0: World, w: World, batch: seq<Snapshot>, tasks: seq<Task>, image: string) {
    && TasksOf(tasks, batch)
    && Accounted(Book(w0.trace), Book(w.trace), tasks)
    && Extends(w0.trace, w.trace, false, Ids(batch))
    && SameOutside(w0.configs, w.configs, Ids(batch))
    && Grows(Book(w0.trace), Book(w.trace)) && RefusedTo(Book(w0.trace), Book(w.trace), Ids(batch))
    && AllDocumented(Book(w.trace), tasks, image) && AllWrote(w.trace, |w0.trace|, tasks, image)
    && AllNew(w.configs, tasks, image)
    && (reliable && Untouched(w0.configs, batch) ==> AllOld(w.configs, tasks))
  }

  /** The machines are as their snapshots say. */
  ghost predicate Untouched(configs: map<string, Json>, xs: seq<Snapshot>) {
    forall x :: x in xs ==> Original(configs, x)
  }

  lemma RanStep(reliable: bool, w0: World, w: World, w': World, batch: seq<Snapshot>, tasks: seq<Task>,
                image: string, i: nat, t: Task)
    requires NoRepeats(batch) && Ran(reliable, w0, w, batch, tasks, image)
    requires i < |tasks| && Moved(reliable, w, w', tasks[i], t, image) && NotBooked(Book(w0.trace), Ids(batch))
    ensures Ran(reliable, w0, w', batch, tasks[i := t], image)
  {
    assert batch[i] in batch;
    AccountOne(Book(w0.trace), Book(w.trace), Book(w'.trace), tasks, i, t, Ids(batch), image);
    DocumentOne(Book(w.trace), Book(w'.trace), tasks, i, t, image);
    WroteOne(w.trace, w'.trace, |w0.trace|, tasks, i, t, image);
    ExtendsTransitive(w0.trace, w.trace, w'.trace, false, Ids(batch), {t.x.machineId});
    assert Ids(batch) + {t.x.machineId} == Ids(batch);
    ConfigsStep(w.configs, w'.configs, tasks, image, i, t);
  }

  /** Let one task of the batch go on: it makes its next call, or panics. */
  method Advance(api: MachinesClient, t: Task, image: string) returns (t': Task)
    requires WellFormed(t) && !Finished(t)
    modifies api
    ensures Moved(api.reliable, old(api.Now()), api.Now(), t, t', image)
  {
    var panics := *;
    if panics {
      PanicIsBooked(t, Book(api.trace), image);
      PanicContinues(api.trace, t, image);
      api.NotePanic(t.x.machineId);
      t' := t.(pc := Panicked);
    } else {
      t' := Step(api, t, image);
    }
  }

  function Spawn(batch: seq<Snapshot>): seq<Task> {
    seq(|batch|, i requires 0 <= i < |batch| => Start(batch[i]))
  }

  lemma SpawnedAccounted(b: Books, batch: seq<Snapshot>)
    ensures Accounted(b, b, Spawn(batch)) && Joined(Spawn(batch), [], [])
  {
    assert IdsWhere(Spawn(batch), Recorded) == {};
    assert IdsWhere(Spawn(batch), Leasing) == {};
    assert IdsWhere(Spawn(batch), Cordoning) == {};
    assert IdsWhere(Spawn(batch), LostToPanic) == {};
  }

  lemma SpawnedDocumented(b: Books, batch: seq<Snapshot>, image: string)
    requires NotBooked(b, Ids(batch))
    ensures AllDocumented(b, Spawn(batch), image)
  {
    forall i | 0 <= i < |batch| ensures Documented(b, Start(batch[i]), image) {
      assert batch[i] in batch && batch[i].machineId in Ids(batch);
    }
  }

  lemma Spawned(reliable: bool, w: World, batch: seq<Snapshot>, image: string)
    requires NotBooked(Book(w.trace), Ids(batch))
    ensures Ran(reliable, w, w, batch, Spawn(batch), image)
    ensures Joined(Spawn(batch), [], [])
  {
    SpawnedAccounted(Book(w.trace), batch);
    SpawnedDocumented(Book(w.trace), batch, image);
  }

  /** What is reported is about machines of the batch. */
  ghost predicate About(batch: seq<Snapshot>, done: seq<Snapshot>, failures: seq<Failure>) {
    && (forall x :: x in done ==> x in batch)
    && (forall f :: f in failures && f.rollbackTarget.Some? ==> f.rollbackTarget.value in batch)
  }

  lemma AboutOne(batch: seq<Snapshot>, done: seq<Snapshot>, failures: seq<Failure>, t: Task)
    requires About(batch, done, failures) && WellFormed(t) && t.x in batch
    ensures About(batch, JoinDone(done, t), JoinFailure(failures, t))
  {
  }

  /** All tasks of a stage have ended and been joined. */
  ghost predicate Ended(reliable: bool, w: World, w': World, batch: seq<Snapshot>, tasks: seq<Task>,
                        done: seq<Snapshot>, failures: seq<Failure>, image: string) {
    && Ran(reliable, w, w', batch, tasks, image) && Joined(tasks, done, failures) && About(batch, done, failures)
    && forall i :: 0 <= i < |tasks| ==> Finished(tasks[i])
  }

  /**
   What a stage reports is what the books say: as updated the machines whose calls were
   all acknowledged and none refused, to be rolled back the others whose update was
   acknowledged and whose task did not panic, and no failure exactly if all is well.
   */
  ghost predicate Reported(b: Books, batch: seq<Snapshot>, done: seq<Snapshot>, failures: seq<Failure>) {
    && NoRepeats(done) && About(batch, done, failures)
    && (forall x :: x in batch ==>
          && (x.machineId in Ids(done) <==> Completed(b, x.machineId))
          && (x.machineId in Targets(failures) <==>
                x.machineId in b.acked && x.machineId !in b.lost && !Completed(b, x.machineId)))
    && (failures == [] <==> forall x :: x in batch ==> Completed(b, x.machineId))
  }

  /** A task has succeeded exactly if the books say that its update is complete. */
  lemma TaskOutcome(trace: seq<Call>, configs: map<string, Json>, t: Task, image: string)
    requires WellFormed(t) && Finished(t) && Documented(Book(trace), t, image) && RunsNew(configs, t, image)
    requires t.x.machineId in Book(trace).acked <==> Recorded(t)
    requires t.x.machineId in Book(trace).lost <==> LostToPanic(t)
    ensures Succeeded(t) <==> Completed(Book(trace), t.x.machineId)
    ensures FailedAfterUpdate(t) <==>
              && t.x.machineId in Book(trace).acked && t.x.machineId !in Book(trace).lost
              && !Completed(Book(trace), t.x.machineId)
    ensures Begun(Book(trace), t.x.machineId) && Explained(Book(trace), t.x, image)
  {
    AckedIsPassed(trace, t.x.machineId);
    assert UPDATE_CALLS[2] == UpdateMachine;
    if t.pc == Done(false) { assert Stumbled(Book(trace), t.x, image); }
  }

  lemma TaskAt(b0: Books, b: Books, batch: seq<Snapshot>, tasks: seq<Task>, i: nat)
    requires NoRepeats(batch) && TasksOf(tasks, batch) && i < |batch|
    requires NotBooked(b0, Ids(batch)) && Accounted(b0, b, tasks)
    ensures batch[i] in batch && batch[i].machineId in Ids(batch)
    ensures batch[i].machineId in b.acked <==> Recorded(tasks[i])
    ensures batch[i].machineId in b.lost <==> LostToPanic(tasks[i])
    ensures batch[i].machineId in IdsWhere(tasks, Succeeded) <==> Succeeded(tasks[i])
    ensures batch[i].machineId in IdsWhere(tasks, FailedAfterUpdate) <==> FailedAfterUpdate(tasks[i])
    ensures batch[i].machineId in IdsWhere(tasks, Unsuccessful) <==> Unsuccessful(tasks[i])
  {
    assert batch[i] in batch;
    ChangeOne(tasks, i, tasks[i], Recorded);
    ChangeOne(tasks, i, tasks[i], LostToPanic);
    ChangeOne(tasks, i, tasks[i], Succeeded);
    ChangeOne(tasks, i, tasks[i], FailedAfterUpdate);
    ChangeOne(tasks, i, tasks[i], Unsuccessful);
  }

  lemma EndedIsReported(reliable: bool, w: World, w': World, batch: seq<Snapshot>, tasks: seq<Task>,
                        done: seq<Snapshot>, failures: seq<Failure>, image: string)
    requires NoRepeats(batch) && NotBooked(Book(w.trace), Ids(batch))
    requires Ended(reliable, w, w', batch, tasks, done, failures, image)
    ensures Reported(Book(w'.trace), batch, done, failures)
    ensures forall x :: x in batch ==> Begun(Book(w'.trace), x.machineId) && Explained(Book(w'.trace), x, image)
  {
    var b := Book(w'.trace);
    forall i | 0 <= i < |batch|
      ensures batch[i].machineId in Ids(done) <==> Completed(b, batch[i].machineId)
      ensures batch[i].machineId in Targets(failures) <==>
                batch[i].machineId in b.acked && batch[i].machineId !in b.lost && !Completed(b, batch[i].machineId)
      ensures Begun(b, batch[i].machineId) && Explained(b, batch[i], image)
      ensures Unsuccessful(tasks[i]) <==> !Completed(b, batch[i].machineId)
      ensures batch[i].machineId in IdsWhere(tasks, Unsuccessful) <==> Unsuccessful(tasks[i])
    {
      TaskAt(Book(w.trace), b, batch, tasks, i);
      TaskOutcome(w'.trace, w'.configs, tasks[i], image);
    }
    if failures != [] {
      var id :| id in IdsWhere(tasks, Unsuccessful);
      var i :| 0 <= i < |tasks| && Unsuccessful(tasks[i]) && tasks[i].x.machineId == id;
      assert batch[i] in batch;
    }
  }

  /**
   The calls of a machine since the `n`-th, in order: all of an update that is complete;
   up to what went wrong, with the clean-up, of one that failed; and up to the panic of
   one whose task panicked.
   */
  ghost predicate CalledInOrder(trace: seq<Call>, n: nat, x: Snapshot, image: string) {
    var calls := CallsSince(trace, n, false, x.machineId);
    if Completed(Book(trace), x.machineId) then calls == Granted(false, UPDATE_CALLS, x.machineId)
    else if x.machineId in Book(trace).lost then Wrote(calls, x.machineId, CanEdit(x, image), Panicked)
    else GaveUp(false, calls, x.machineId, CanEdit(x, image))
  }

  lemma EndedInOrder(reliable: bool, w: World, w': World, batch: seq<Snapshot>, tasks: seq<Task>,
                     done: seq<Snapshot>, failures: seq<Failure>, image: string, x: Snapshot)
    requires NoRepeats(batch) && NotBooked(Book(w.trace), Ids(batch))
    requires Ended(reliable, w, w', batch, tasks, done, failures, image) && x in batch
    ensures CalledInOrder(w'.trace, |w.trace|, x, image)
  {
    var i :| 0 <= i < |batch| && batch[i] == x;
    TaskAt(Book(w.trace), Book(w'.trace), batch, tasks, i);
    TaskOutcome(w'.trace, w'.configs, tasks[i], image);
    WholeSlice(UPDATE_CALLS);
    assert Wrote(CallsSince(w'.trace, |w.trace|, false, x.machineId), x.machineId, CanEdit(x, image), tasks[i].pc);
  }

  /**
   Spawn a task per machine and join them all. Any unfinished task may be the next to
   move; the loop ends only when none is left.
   */
  method RunBatch(api: MachinesClient, batch: seq<Snapshot>, image: string)
    returns (done: seq<Snapshot>, failures: seq<Failure>, ghost tasks: seq<Task>)
    requires NoRepeats(batch) && NotBooked(Book(api.trace), Ids(batch))
    modifies api
    ensures Ended(api.reliable, old(api.Now()), api.Now(), batch, tasks, done, failures, image)
    ensures Reported(Book(api.trace), batch, done, failures)
    ensures forall x :: x in batch ==> Explained(Book(api.trace), x, image)
    ensures forall x :: x in batch ==> CalledInOrder(api.trace, |old(api.trace)|, x, image)
  {
    var running := Spawn(batch);
    done, failures := [], [];
    Spawned(api.reliable, api.Now(), batch, image);
    while exists i :: 0 <= i < |running| && !Finished(running[i])
      invariant Ran(api.reliable, old(api.Now()), api.Now(), batch, running, image)
      invariant Joined(running, done, failures) && About(batch, done, failures)
      decreases Work(running)
    {
      var i :| 0 <= i < |running| && !Finished(running[i]);
      ghost var w := api.Now();
      var t := Advance(api, running[i], image);
      RanStep(api.reliable, old(api.Now()), w, api.Now(), batch, running, image, i, t);
      JoinOne(running, done, failures, i, t);
      AboutOne(batch, done, failures, t);
      WorkAt(running, i, t);
      running := running[i := t];
      done := JoinDone(done, t);
      failures := JoinFailure(failures, t);
    }
    tasks := running;
    EndedIsReported(api.reliable, old(api.Now()), api.Now(), batch, tasks, done, failures, image);
    forall x | x in batch ensures CalledInOrder(api.trace, |old(api.trace)|, x, image) {
      EndedInOrder(api.reliable, old(api.Now()), api.Now(), batch, tasks, done, failures, image, x);
    }
  }

  /** A step of a task that is not one of many. */
  method StepAlone(api: MachinesClient, t: Task, image: string, ghost x: Snapshot, ghost w0: World) returns (t': Task)
    requires Ran(api.reliable, w0, api.Now(), [x], [t], image) && NotBooked(Book(w0.trace), Ids([x]))
    requires WellFormed(t) && !Finished(t)
    modifies api
    ensures Ran(api.reliable, w0, api.Now(), [x], [t'], image)
    ensures WellFormed(t') && t'.x == t.x && Rank(t'.pc) < Rank(t.pc) && !t'.pc.Panicked?
  {
    ghost var w := api.Now();
    t' := Step(api, t, image);
    RanStep(api.reliable, w0, w, api.Now(), [x], [t], image, 0, t');
    assert [t][0 := t'] == [t'];
  }

  /** The steps of a task that is not one of many, up to its end. */
  method StepToEnd(api: MachinesClient, x: Snapshot, image: string) returns (task: Task)
    requires NotBooked(Book(api.trace), {x.machineId})
    modifies api
    ensures Ran(api.reliable, old(api.Now()), api.Now(), [x], [task], image)
    ensures WellFormed(task) && task.x == x && task.pc.Done?
  {
    task := Start(x);
    SpawnedAlone(api.reliable, api.Now(), x, image);
    while !Finished(task)
      invariant Ran(api.reliable, old(api.Now()), api.Now(), [x], [task], image)
      invariant WellFormed(task) && task.x == x && !task.pc.Panicked?
      decreases Rank(task.pc)
    {
      task := StepAlone(api, task, image, x, old(api.Now()));
    }
  }

  /** `update_one_machine` on its own, as the canary stage calls it. */
  method UpdateOneMachine(api: MachinesClient, x: Snapshot, image: string)
    returns (failure: Option<Failure>, ghost t: Task)
    requires NotBooked(Book(api.trace), {x.machineId})
    modifies api
    ensures Ended(api.reliable, old(api.Now()), api.Now(), [x], [t],
                  if failure.None? then [x] else [], if failure.None? then [] else [failure.value], image)
    ensures Reported(Book(api.trace), [x], if failure.None? then [x] else [],
                     if failure.None? then [] else [failure.value])
    ensures CalledInOrder(api.trace, |old(api.trace)|, x, image)
    ensures !LostToPanic(t)
  {
    var task := StepToEnd(api, x, image);
    failure := if task.pc.ok then None else Some(Failure(task.target));
    t := task;
    JoinAlone(t, x);
    assert Ids([x]) == {x.machineId};
    ghost var done, failures := if failure.None? then [x] else [], if failure.None? then [] else [failure.value];
    EndedIsReported(api.reliable, old(api.Now()), api.Now(), [x], [t], done, failures, image);
    EndedInOrder(api.reliable, old(api.Now()), api.Now(), [x], [t], done, failures, image, x);
  }

  lemma SpawnedAlone(reliable: bool, w: World, x: Snapshot, image: string)
    requires NotBooked(Book(w.trace), {x.machineId})
    ensures Ids([x]) == {x.machineId} && Ran(reliable, w, w, [x], [Start(x)], image)
  {
    assert Ids([x]) == {x.machineId};
    Spawned(reliable, w, [x], image);
    assert Spawn([x]) == [Start(x)];
  }

  lemma JoinAlone(t: Task, x: Snapshot)
    requires WellFormed(t) && t.pc.Done? && t.x == x
    ensures if t.pc.ok then Joined([t], [x], []) && About([x], [x], [])
            else Joined([t], [], [Failure(t.target)]) && About([x], [], [Failure(t.target)])
  {
    JoinOne([Start(t.x)], [], [], 0, t);
    assert [Start(t.x)][0 := t] == [t];
  }

  /** All joined: what was acknowledged and not lost to a panic is what the batch reports. */
  lemma BatchOutcome(tasks: seq<Task>, batch: seq<Snapshot>, done: seq<Snapshot>, failures: seq<Failure>)
    requires TasksOf(tasks, batch) && NoRepeats(batch) && Joined(tasks, done, failures)
    requires forall i :: 0 <= i < |tasks| ==> Finished(tasks[i])
    ensures Ids(done) + Targets(failures) == IdsWhere(tasks, Recorded) - IdsWhere(tasks, LostToPanic)
    ensures failures == [] ==> Ids(done) == Ids(batch) == IdsWhere(tasks, Recorded)
    ensures IdsWhere(tasks, Recorded) <= Ids(batch) && IdsWhere(tasks, LostToPanic) <= Ids(batch)
  {
    forall i | 0 <= i < |tasks|
      ensures tasks[i].x == batch[i] && batch[i] in batch
      ensures tasks[i].x.machineId in IdsWhere(tasks, Recorded) <==> Recorded(tasks[i])
      ensures tasks[i].x.machineId in IdsWhere(tasks, LostToPanic) <==> LostToPanic(tasks[i])
      ensures tasks[i].x.machineId in IdsWhere(tasks, Succeeded) <==> Succeeded(tasks[i])
      ensures tasks[i].x.machineId in IdsWhere(tasks, FailedAfterUpdate) <==> FailedAfterUpdate(tasks[i])
      ensures tasks[i].x.machineId in IdsWhere(tasks, Unsuccessful) <==> Unsuccessful(tasks[i])
    {
      ChangeOne(tasks, i, tasks[i], Recorded);
      ChangeOne(tasks, i, tasks[i], LostToPanic);
      ChangeOne(tasks, i, tasks[i], Succeeded);
      ChangeOne(tasks, i, tasks[i], FailedAfterUpdate);
      ChangeOne(tasks, i, tasks[i], Unsuccessful);
    }
  }
}
