/**
 The rollout as a whole (crates/admin/src/rollout.rs:46-196): how the stages follow
 each other, and what a run leaves behind whether it completes or is rolled back.
 */
module UpdateImage {
  import opened Prelude
  import opened MachineConfig
  import opened Scheduler
  import opened Canary
  import opened MachinesApi
  import opened Rollout
  import opened Rollback

  // ---------------------------------------------------------------------------
  // Permutations keep ids distinct
  // ---------------------------------------------------------------------------

  lemma {:induction false} Twice(xs: seq<Snapshot>, x: Snapshot)
    requires multiset(xs)[x] >= 2
    ensures exists i, j :: 0 <= i < j < |xs| && xs[i] == xs[j] == x
  {
    assert xs == [xs[0]] + xs[1..];
    if xs[0] == x {
      assert x in xs[1..];
      var j :| 0 <= j < |xs[1..]| && xs[1..][j] == x;
      assert xs[j + 1] == x;
    } else {
      Twice(xs[1..], x);
      var i, j :| 0 <= i < j < |xs[1..]| && xs[1..][i] == xs[1..][j] == x;
      assert xs[i + 1] == xs[j + 1] == x;
    }
  }

  lemma CountTwo(xs: seq<Snapshot>, i: nat, j: nat)
    requires i < j < |xs| && xs[i] == xs[j]
    ensures multiset(xs)[xs[i]] >= 2
  {
    assert xs == xs[..j] + xs[j..];
    assert xs[..j][i] == xs[i] && xs[j..][0] == xs[i];
    assert xs[i] in xs[..j] && xs[i] in xs[j..];
  }

  lemma SameBag(xs: seq<Snapshot>, ys: seq<Snapshot>)
    requires multiset(xs) == multiset(ys)
    ensures Ids(xs) == Ids(ys) && forall x :: x in xs <==> x in ys
    ensures NoRepeats(xs) ==> NoRepeats(ys)
  {
    assert forall x :: x in xs <==> x in multiset(xs);
    assert forall x :: x in ys <==> x in multiset(ys);
    if NoRepeats(xs) {
      forall i, j | 0 <= i < j < |ys| ensures ys[i].machineId != ys[j].machineId {
        if ys[i].machineId == ys[j].machineId {
          assert ys[i] in xs && ys[j] in xs;
          CountTwo(ys, i, j);
          Twice(xs, ys[i]);
        }
      }
    }
  }

  lemma {:induction false} CountOfTenant(xs: seq<Snapshot>, x: Snapshot)
    ensures multiset(OfTenant(xs, x.tenantId))[x] == multiset(xs)[x]
  {
    if xs != [] {
      CountOfTenant(xs[1..], x);
      assert xs == [xs[0]] + xs[1..];
    }
  }

  lemma SameTenantsSameBag(xs: seq<Snapshot>, ys: seq<Snapshot>)
    requires forall tenant :: OfTenant(xs, tenant) == OfTenant(ys, tenant)
    ensures multiset(xs) == multiset(ys)
  {
    forall x: Snapshot ensures multiset(xs)[x] == multiset(ys)[x] {
      CountOfTenant(xs, x);
      CountOfTenant(ys, x);
      assert OfTenant(xs, x.tenantId) == OfTenant(ys, x.tenantId);
    }
  }

  /** The batches of a full rollout hold the remaining machines, each exactly once. */
  lemma ScheduleIsPermutation(queues: seq<Queue>, c: nat, remaining: seq<Snapshot>)
    requires c > 0 && Ordered(queues) && forall tenant :: QueueOf(queues, tenant) == OfTenant(remaining, tenant)
    ensures multiset(Flatten(Schedule(queues, c))) == multiset(remaining)
  {
    OrderedIsKeyed(queues);
    forall tenant ensures OfTenant(Flatten(Schedule(queues, c)), tenant) == OfTenant(remaining, tenant) {
      ScheduleServesEveryQueue(queues, c, tenant);
    }
    SameTenantsSameBag(Flatten(Schedule(queues, c)), remaining);
  }

  // ---------------------------------------------------------------------------
  // One stage after the other
  // ---------------------------------------------------------------------------

  /** Canaries are stages of one machine. */
  function Singles(xs: seq<Snapshot>): seq<seq<Snapshot>> {
    seq(|xs|, i requires 0 <= i < |xs| => [xs[i]])
  }

  ghost function Groups(stages: seq<seq<Snapshot>>): seq<set<string>> {
    seq(|stages|, k requires 0 <= k < |stages| => Ids(stages[k]))
  }

  /** The stages were called one after the other since `w0`, and nothing else was called or changed. */
  ghost predicate Confined(w0: World, w: World, stages: seq<seq<Snapshot>>) {
    InOrder(w0.trace, w.trace, false, Groups(stages)) && SameOutside(w0.configs, w.configs, Ids(Flatten(stages)))
  }

  ghost predicate PartOf(xs: seq<Snapshot>, stage: seq<Snapshot>) { forall x :: x in xs ==> x in stage }

  ghost predicate SplitsInto(xs: seq<Snapshot>, stages: seq<seq<Snapshot>>, parts: seq<seq<Snapshot>>) {
    |parts| == |stages| && xs == Flatten(parts) && forall k :: 0 <= k < |parts| ==> PartOf(parts[k], stages[k])
  }

  /** Machines of earlier stages come before machines of later ones. */
  ghost predicate InStageOrder(xs: seq<Snapshot>, stages: seq<seq<Snapshot>>) {
    exists parts :: SplitsInto(xs, stages, parts)
  }

  lemma StageOrderNothing()
    ensures InStageOrder([], [])
  {
    assert SplitsInto([], [], []);
  }

  lemma StageOrderMore(xs: seq<Snapshot>, stages: seq<seq<Snapshot>>, ys: seq<Snapshot>, stage: seq<Snapshot>)
    requires InStageOrder(xs, stages) && PartOf(ys, stage)
    ensures InStageOrder(xs + ys, stages + [stage])
  {
    var parts :| SplitsInto(xs, stages, parts);
    FlattenOne(parts, ys);
    assert SplitsInto(xs + ys, stages + [stage], parts + [ys]);
  }

  lemma {:induction false} PartsWithin(parts: seq<seq<Snapshot>>, stages: seq<seq<Snapshot>>)
    requires |parts| == |stages| && forall k :: 0 <= k < |parts| ==> PartOf(parts[k], stages[k])
    ensures PartOf(Flatten(parts), Flatten(stages))
  {
    if parts != [] {
      var n := |parts| - 1;
      PartsWithin(parts[..n], stages[..n]);
      assert PartOf(parts[n], stages[n]);
    }
  }

  lemma StageOrderWithin(xs: seq<Snapshot>, stages: seq<seq<Snapshot>>)
    requires InStageOrder(xs, stages)
    ensures PartOf(xs, Flatten(stages))
  {
    var parts :| SplitsInto(xs, stages, parts);
    PartsWithin(parts, stages);
  }

  /**
   Every stage so far succeeded: of every machine started all calls were acknowledged,
   it runs the new image, nothing was refused, and nothing is held.
   */
  ghost predicate Progress(w0: World, w: World, stages: seq<seq<Snapshot>>, updated: seq<Snapshot>, image: string) {
    var b, started := Book(w.trace), Flatten(stages);
    && Confined(w0, w, stages)
    && NoRepeats(updated) && InStageOrder(updated, stages) && Ids(updated) == Ids(started)
    && b == Books(Ids(started), {}, {}, [], {}, b.passed, {})
    && (forall x :: x in started ==> Completed(b, x.machineId) && Updated(w.configs, x, image))
    && (forall x :: x in started ==> CalledInOrder(w.trace, |w0.trace|, x, image))
  }

  /**
   The first stage that fails is the last one that starts. Every machine of it has
   started, and every one that is not complete has a reason.
   */
  ghost predicate StoppedAt(b: Books, stages: seq<seq<Snapshot>>, image: string) {
    && stages != []
    && (forall x :: x in Flatten(stages[..|stages| - 1]) ==> Completed(b, x.machineId))
    && (exists x :: x in stages[|stages| - 1] && !Completed(b, x.machineId))
    && (forall x :: x in stages[|stages| - 1] ==> Begun(b, x.machineId) && Explained(b, x, image))
  }

  /**
   A stage failed: `targets` is exactly what was acknowledged, apart from tasks that
   panicked. Acknowledged machines run the new image, and what is still held is held by
   a panicked task or because giving it back was not acknowledged. If failed calls have
   no effect the other machines are as they were.
   */
  ghost predicate Failing(reliable: bool, w0: World, w: World, stages: seq<seq<Snapshot>>, targets: seq<Snapshot>,
                          image: string) {
    var b, started := Book(w.trace), Flatten(stages);
    && Confined(w0, w, stages) && StoppedAt(b, stages, image)
    && NoRepeats(targets) && InStageOrder(targets, stages) && Ids(targets) == b.acked - b.lost
    && b.acked <= Ids(started) && b.visited == [] && Excused(b)
    && RefusedTo(NO_BOOKS, b, Ids(stages[|stages| - 1])) && b.lost <= Ids(stages[|stages| - 1])
    && (forall x :: x in started ==> CalledInOrder(w.trace, |w0.trace|, x, image))
    && (forall x :: x in started && x.machineId in b.acked ==> Updated(w.configs, x, image))
    && (reliable && Untouched(w0.configs, started) ==>
          forall x :: x in started && x.machineId !in b.acked ==> Original(w.configs, x))
  }

  lemma IdsConcat(xs: seq<Snapshot>, ys: seq<Snapshot>)
    ensures Ids(xs + ys) == Ids(xs) + Ids(ys)
    ensures NoRepeats(xs) && NoRepeats(ys) && Ids(xs) !! Ids(ys) ==> NoRepeats(xs + ys)
    ensures NoRepeats(xs + ys) ==> NoRepeats(xs) && NoRepeats(ys) && Ids(xs) !! Ids(ys)
  {
    assert forall x :: x in xs + ys <==> x in xs || x in ys;
    if NoRepeats(xs) && NoRepeats(ys) && Ids(xs) !! Ids(ys) {
      forall i, j | 0 <= i < j < |xs + ys| ensures (xs + ys)[i].machineId != (xs + ys)[j].machineId {
        if i < |xs| <= j { assert xs[i].machineId in Ids(xs) && ys[j - |xs|].machineId in Ids(ys); }
      }
    }
    if NoRepeats(xs + ys) {
      assert forall i :: 0 <= i < |xs| ==> (xs + ys)[i] == xs[i];
      assert forall j :: 0 <= j < |ys| ==> (xs + ys)[|xs| + j] == ys[j];
    }
  }

  lemma ConfinedMore(w0: World, w: World, w': World, stages: seq<seq<Snapshot>>, batch: seq<Snapshot>)
    requires Confined(w0, w, stages)
    requires Extends(w.trace, w'.trace, false, Ids(batch)) && SameOutside(w.configs, w'.configs, Ids(batch))
    ensures Confined(w0, w', stages + [batch])
    ensures Ids(Flatten(stages + [batch])) == Ids(Flatten(stages)) + Ids(batch)
  {
    NextGroup(w0.trace, w.trace, w'.trace, false, Groups(stages), Ids(batch));
    assert Groups(stages + [batch]) == Groups(stages) + [Ids(batch)];
    FlattenOne(stages, batch);
    IdsConcat(Flatten(stages), batch);
  }

  /** The machines that a stage leaves held are excused. */
  lemma EndedHolds(reliable: bool, w: World, w': World, batch: seq<Snapshot>, tasks: seq<Task>,
                   done: seq<Snapshot>, failures: seq<Failure>, image: string)
    requires NoRepeats(batch) && Ended(reliable, w, w', batch, tasks, done, failures, image)
    requires Book(w.trace).leased == Book(w.trace).cordoned == {}
    ensures Excused(Book(w'.trace))
    ensures failures == [] ==> Book(w'.trace).leased == Book(w'.trace).cordoned == {}
  {
    var b := Book(w'.trace);
    forall h, id | id in Held(h, b) ensures id in b.lost || GiveBackRefused(h, b, id) {
      var i :| 0 <= i < |tasks| && tasks[i].x.machineId == id
        && (if h.Lease? then tasks[i].leased else tasks[i].cordoned);
      assert Documented(b, tasks[i], image);
      if tasks[i].pc.Panicked? { assert LostToPanic(tasks[i]); }
    }
    if failures == [] {
      forall i | 0 <= i < |tasks| ensures !tasks[i].leased && !tasks[i].cordoned {
        ChangeOne(tasks, i, tasks[i], Unsuccessful);
      }
    }
  }

  /** What the machines of an ended stage run. */
  lemma EndedConfigs(reliable: bool, w: World, w': World, batch: seq<Snapshot>, tasks: seq<Task>,
                     done: seq<Snapshot>, failures: seq<Failure>, image: string, x: Snapshot)
    requires NoRepeats(batch) && Ended(reliable, w, w', batch, tasks, done, failures, image) && x in batch
    ensures x.machineId in IdsWhere(tasks, Recorded) ==> Updated(w'.configs, x, image)
    ensures x.machineId !in IdsWhere(tasks, Recorded) && reliable && Untouched(w.configs, batch) ==>
              Original(w'.configs, x)
  {
    var i :| 0 <= i < |batch| && batch[i] == x;
    ChangeOne(tasks, i, tasks[i], Recorded);
    assert RunsNew(w'.configs, tasks[i], image);
    if reliable && Untouched(w.configs, batch) { assert RunsOld(w'.configs, tasks[i]); }
  }

  /** A stage leaves the machines of earlier stages as they were. */
  lemma EarlierConfigs(configs0: map<string, Json>, configs: map<string, Json>, configs': map<string, Json>,
                       started: seq<Snapshot>, batch: seq<Snapshot>, image: string)
    requires SameOutside(configs0, configs, Ids(started)) && SameOutside(configs, configs', Ids(batch))
    requires Ids(started) !! Ids(batch)
    ensures Untouched(configs0, started + batch) ==> Untouched(configs, batch)
    ensures forall x :: x in started && Updated(configs, x, image) ==> Updated(configs', x, image)
  {
    forall x | x in started && Updated(configs, x, image) ensures Updated(configs', x, image) {
      assert x.machineId in Ids(started);
    }
    if Untouched(configs0, started + batch) {
      forall x | x in batch ensures Original(configs, x) {
        assert x in started + batch && x.machineId in Ids(batch);
        assert Original(configs0, x);
      }
    }
  }

  lemma {:induction false} StageIds(stages: seq<seq<Snapshot>>, k: nat)
    requires k < |stages|
    ensures Ids(stages[k]) <= Ids(Flatten(stages))
  {
    var n := |stages| - 1;
    IdsConcat(Flatten(stages[..n]), stages[n]);
    if k < n { StageIds(stages[..n], k); }
  }

  lemma ConfinedExtends(w0: World, w: World, stages: seq<seq<Snapshot>>)
    requires Confined(w0, w, stages)
    ensures Extends(w0.trace, w.trace, false, Ids(Flatten(stages)))
  {
    forall k | 0 <= k < |Groups(stages)| ensures Groups(stages)[k] <= Ids(Flatten(stages)) { StageIds(stages, k); }
    InOrderExtends(w0.trace, w.trace, false, Groups(stages), Ids(Flatten(stages)));
  }

  /** The calls of a machine during its stage are all its calls. */
  lemma InOrderSoFar(w0: World, w: World, w': World, started: set<string>, ids: set<string>, x: Snapshot, image: string)
    requires Extends(w0.trace, w.trace, false, started) && Extends(w.trace, w'.trace, false, ids) && started !! ids
    requires x.machineId in ids ==> CalledInOrder(w'.trace, |w.trace|, x, image)
    requires x.machineId !in ids ==> CalledInOrder(w.trace, |w0.trace|, x, image)
    requires x.machineId !in ids ==> Completed(Book(w.trace), x.machineId) && Completed(Book(w'.trace), x.machineId)
    ensures CalledInOrder(w'.trace, |w0.trace|, x, image)
  {
    CallsSplit(w.trace, w'.trace, |w0.trace|, false, x.machineId);
    if x.machineId in ids {
      NotCalled(w0.trace, w.trace, false, started, false, x.machineId);
      NothingAppended(CallsSince(w'.trace, |w.trace|, false, x.machineId));
    } else {
      NotCalled(w.trace, w'.trace, false, ids, false, x.machineId);
      NothingAppended(CallsSince(w.trace, |w0.trace|, false, x.machineId));
    }
  }

  /** After a stage all machines have been called in order. */
  lemma StageInOrder(reliable: bool, w0: World, w: World, w': World, stages: seq<seq<Snapshot>>,
                     updated: seq<Snapshot>, batch: seq<Snapshot>, tasks: seq<Task>, done: seq<Snapshot>,
                     failures: seq<Failure>, image: string, x: Snapshot)
    requires Progress(w0, w, stages, updated, image) && NoRepeats(batch) && Ids(Flatten(stages)) !! Ids(batch)
    requires Ended(reliable, w, w', batch, tasks, done, failures, image) && x in Flatten(stages) + batch
    ensures CalledInOrder(w'.trace, |w0.trace|, x, image)
  {
    ConfinedExtends(w0, w, stages);
    if x in batch {
      assert x.machineId in Ids(batch);
      EndedInOrder(reliable, w, w', batch, tasks, done, failures, image, x);
    } else {
      assert x.machineId in Ids(Flatten(stages));
      BatchOutcome(tasks, batch, done, failures);
      StaysCompleted(Book(w.trace), Book(w'.trace), Ids(batch), x.machineId);
    }
    InOrderSoFar(w0, w, w', Ids(Flatten(stages)), Ids(batch), x, image);
  }

  /** After a stage without failures nothing has been refused. */
  lemma NothingRefused(b: Books, b': Books, batch: seq<Snapshot>)
    requires b.refused == {} && RefusedTo(b, b', Ids(batch)) && forall x :: x in batch ==> Clear(b', x.machineId)
    ensures b'.refused == {}
  {
    forall k: (bool, Op, string) ensures k !in b'.refused {
      if !k.0 && k.2 in Ids(batch) {
        var x :| x in batch && x.machineId == k.2;
        assert (false, k.1, x.machineId) !in b'.refused;
      }
    }
  }

  /** The books after a stage without failures. */
  lemma BooksOfSuccess(reliable: bool, w0: World, w: World, w': World, stages: seq<seq<Snapshot>>,
                       updated: seq<Snapshot>, batch: seq<Snapshot>, tasks: seq<Task>, done: seq<Snapshot>,
                       image: string)
    requires Progress(w0, w, stages, updated, image) && NoRepeats(batch) && Ids(Flatten(stages)) !! Ids(batch)
    requires Ended(reliable, w, w', batch, tasks, done, [], image)
    ensures var b' := Book(w'.trace);
            && b' == Books(Ids(Flatten(stages)) + Ids(batch), {}, {}, [], {}, b'.passed, {})
            && (forall x :: x in batch ==> Completed(b', x.machineId)) && Ids(done) == Ids(batch)
  {
    BatchOutcome(tasks, batch, done, []);
    EndedHolds(reliable, w, w', batch, tasks, done, [], image);
    EndedIsReported(reliable, w, w', batch, tasks, done, [], image);
    NothingRefused(Book(w.trace), Book(w'.trace), batch);
    assert IdsWhere(tasks, LostToPanic) <= IdsWhere(tasks, Unsuccessful);
  }

  lemma StageSucceeds(reliable: bool, w0: World, w: World, w': World, stages: seq<seq<Snapshot>>,
                      updated: seq<Snapshot>, batch: seq<Snapshot>, tasks: seq<Task>, done: seq<Snapshot>,
                      image: string)
    requires Progress(w0, w, stages, updated, image) && NoRepeats(batch) && Ids(Flatten(stages)) !! Ids(batch)
    requires Ended(reliable, w, w', batch, tasks, done, [], image)
    ensures Progress(w0, w', stages + [batch], updated + done, image)
  {
    var started := Flatten(stages);
    BooksOfSuccess(reliable, w0, w, w', stages, updated, batch, tasks, done, image);
    ConfinedMore(w0, w, w', stages, batch);
    FlattenOne(stages, batch);
    IdsConcat(updated, done);
    StageOrderMore(updated, stages, done, batch);
    EarlierConfigs(w0.configs, w.configs, w'.configs, started, batch, image);
    forall x | x in started + batch ensures CalledInOrder(w'.trace, |w0.trace|, x, image) {
      StageInOrder(reliable, w0, w, w', stages, updated, batch, tasks, done, [], image, x);
    }
    forall x | x in started + batch ensures Completed(Book(w'.trace), x.machineId) && Updated(w'.configs, x, image) {
      if x in started {
        assert Completed(Book(w.trace), x.machineId);
      } else {
        EndedConfigs(reliable, w, w', batch, tasks, done, [], image, x);
        assert x.machineId in Ids(batch);
      }
    }
  }

  lemma StageFailsConfigs(reliable: bool, w0: World, w: World, w': World, stages: seq<seq<Snapshot>>,
                          updated: seq<Snapshot>, batch: seq<Snapshot>, tasks: seq<Task>, done: seq<Snapshot>,
                          failures: seq<Failure>, image: string, x: Snapshot)
    requires Progress(w0, w, stages, updated, image) && NoRepeats(batch) && Ids(Flatten(stages)) !! Ids(batch)
    requires Ended(reliable, w, w', batch, tasks, done, failures, image) && x in Flatten(stages) + batch
    ensures x.machineId in Book(w'.trace).acked ==> Updated(w'.configs, x, image)
    ensures x.machineId !in Book(w'.trace).acked && reliable && Untouched(w0.configs, Flatten(stages) + batch) ==>
              Original(w'.configs, x)
  {
    EarlierConfigs(w0.configs, w.configs, w'.configs, Flatten(stages), batch, image);
    if x in Flatten(stages) {
      assert x.machineId in Ids(Flatten(stages));
      assert Updated(w.configs, x, image);
    } else {
      assert x.machineId in Ids(batch);
      EndedConfigs(reliable, w, w', batch, tasks, done, failures, image, x);
    }
  }

  /** The failing stage is the last, and the first that does not complete. */
  lemma StageStops(reliable: bool, w0: World, w: World, w': World, stages: seq<seq<Snapshot>>, updated: seq<Snapshot>,
                   batch: seq<Snapshot>, tasks: seq<Task>, done: seq<Snapshot>, failures: seq<Failure>, image: string)
    requires Progress(w0, w, stages, updated, image) && NoRepeats(batch) && Ids(Flatten(stages)) !! Ids(batch)
    requires Ended(reliable, w, w', batch, tasks, done, failures, image) && failures != []
    ensures StoppedAt(Book(w'.trace), stages + [batch], image)
  {
    var b, b' := Book(w.trace), Book(w'.trace);
    EndedIsReported(reliable, w, w', batch, tasks, done, failures, image);
    BatchOutcome(tasks, batch, done, failures);
    Appended(stages, batch);
    forall x | x in Flatten(stages) ensures Completed(b', x.machineId) {
      assert Completed(b, x.machineId) && x.machineId in Ids(Flatten(stages));
      StaysCompleted(b, b', Ids(batch), x.machineId);
    }
  }

  lemma StaysCompleted(b: Books, b': Books, ids: set<string>, id: string)
    requires Completed(b, id) && id !in ids && Grows(b, b') && RefusedTo(b, b', ids) && b'.lost <= b.lost + ids
    ensures Completed(b', id)
  {
  }

  lemma WithoutLost(updated: set<string>, done: set<string>, late: set<string>, recorded: set<string>,
                    lost: set<string>)
    requires done + late == recorded - lost && updated !! lost
    ensures updated + done + late == updated + recorded - lost
  {
    assert updated + done + late == updated + (done + late);
    assert updated + (recorded - lost) == updated + recorded - lost;
  }

  /** The books after a failing stage. */
  lemma BooksOfFailure(reliable: bool, w0: World, w: World, w': World, stages: seq<seq<Snapshot>>,
                       updated: seq<Snapshot>, batch: seq<Snapshot>, tasks: seq<Task>, done: seq<Snapshot>,
                       failures: seq<Failure>, image: string)
    requires Progress(w0, w, stages, updated, image) && NoRepeats(batch) && Ids(Flatten(stages)) !! Ids(batch)
    requires Ended(reliable, w, w', batch, tasks, done, failures, image)
    ensures var b' := Book(w'.trace);
            && Ids(updated + done) + Targets(failures) == b'.acked - b'.lost
            && b'.acked <= Ids(Flatten(stages)) + Ids(batch) && b'.visited == [] && Excused(b')
            && RefusedTo(NO_BOOKS, b', Ids(batch)) && b'.lost <= Ids(batch)
  {
    BatchOutcome(tasks, batch, done, failures);
    EndedHolds(reliable, w, w', batch, tasks, done, failures, image);
    IdsConcat(updated, done);
    WithoutLost(Ids(updated), Ids(done), Targets(failures), IdsWhere(tasks, Recorded), IdsWhere(tasks, LostToPanic));
  }

  lemma LateAreOfTheStage(batch: seq<Snapshot>, done: seq<Snapshot>, failures: seq<Failure>, late: seq<Snapshot>)
    requires About(batch, done, failures) && forall x :: x in late ==> Failure(Some(x)) in failures
    ensures PartOf(done + late, batch)
  {
    forall x | x in late ensures x in batch { assert Failure(Some(x)).rollbackTarget.Some?; }
  }

  lemma StageFails(reliable: bool, w0: World, w: World, w': World, stages: seq<seq<Snapshot>>, updated: seq<Snapshot>,
                   batch: seq<Snapshot>, tasks: seq<Task>, done: seq<Snapshot>, failures: seq<Failure>,
                   late: seq<Snapshot>, image: string)
    requires Progress(w0, w, stages, updated, image) && NoRepeats(batch) && Ids(Flatten(stages)) !! Ids(batch)
    requires Ended(reliable, w, w', batch, tasks, done, failures, image) && failures != []
    requires var targets := updated + (done + late);
             && NoRepeats(targets) && Ids(targets) == Ids(updated + done) + Targets(failures)
             && forall x :: x in late ==> Failure(Some(x)) in failures
    ensures Failing(reliable, w0, w', stages + [batch], updated + (done + late), image)
  {
    BooksOfFailure(reliable, w0, w, w', stages, updated, batch, tasks, done, failures, image);
    StageStops(reliable, w0, w, w', stages, updated, batch, tasks, done, failures, image);
    ConfinedMore(w0, w, w', stages, batch);
    FlattenOne(stages, batch);
    Appended(stages, batch);
    LateAreOfTheStage(batch, done, failures, late);
    StageOrderMore(updated, stages, done + late, batch);
    forall x | x in Flatten(stages) + batch ensures CalledInOrder(w'.trace, |w0.trace|, x, image) {
      StageInOrder(reliable, w0, w, w', stages, updated, batch, tasks, done, failures, image, x);
    }
    forall x | x in Flatten(stages) + batch
      ensures x.machineId in Book(w'.trace).acked ==> Updated(w'.configs, x, image)
      ensures x.machineId !in Book(w'.trace).acked && reliable && Untouched(w0.configs, Flatten(stages) + batch) ==>
                Original(w'.configs, x)
    {
      StageFailsConfigs(reliable, w0, w, w', stages, updated, batch, tasks, done, failures, image, x);
    }
  }

  // ---------------------------------------------------------------------------
  // After the rollback
  // ---------------------------------------------------------------------------

  /** Snapshots as `snapshot_from_machine` takes them. */
  ghost predicate Faithful(xs: seq<Snapshot>) {
    forall x :: x in xs ==> ConfigImage(x.config) == Some(x.previousImage) && x.metadata == Metadata(x.config)
  }

  ghost predicate AllStringMetadata(xs: seq<Snapshot>) {
    forall x :: x in xs ==> StringMetadata(x.config)
  }

  /** How a failing run went: how many stages it started, what it rolled back, and the provider in between. */
  datatype Report = Report(stages: nat, rolledBack: seq<Snapshot>, between: World)

  /** A run over the given stages, all of them started, that failed in the last and was rolled back. */
  ghost predicate RolledBack(reliable: bool, w0: World, w': World, stages: seq<seq<Snapshot>>, r: Report,
                             image: string) {
    && Failing(reliable, w0, r.between, stages, r.rolledBack, image)
    && RolledBackSince(r.between, w', r.rolledBack) && Excused(Book(w'.trace))
  }

  ghost predicate NoPanic(trace: seq<Call>) { forall i :: 0 <= i < |trace| ==> trace[i].op != Panic }

  ghost predicate NoRollbackRefused(trace: seq<Call>) {
    forall i :: 0 <= i < |trace| && trace[i].rollback ==> trace[i].ok
  }

  lemma NoPanicNoneLost(trace: seq<Call>)
    ensures NoPanic(trace) <==> Book(trace).lost == {}
  {
    forall id ensures id in Book(trace).lost ==> !NoPanic(trace) { LostIff(trace, id); }
    if i :| 0 <= i < |trace| && trace[i].op == Panic { LostIff(trace, trace[i].id); }
  }

  lemma NoRefusal(trace: seq<Call>, id: string)
    requires NoRollbackRefused(trace)
    ensures !Refusal(Book(trace), id)
  {
    if op :| (true, op, id) in Book(trace).refused { AnsweredIff(trace, true, op, id); }
  }

  lemma SameMachine(xs: seq<Snapshot>, x: Snapshot, y: Snapshot)
    requires NoRepeats(xs) && x in xs && y in xs && x.machineId == y.machineId
    ensures x == y
  {
  }

  /** A machine that was updated and reverted is as before exactly if its metadata is strings. */
  lemma RevertedMachine(configs: map<string, Json>, configs': map<string, Json>, x: Snapshot, image: string)
    requires ConfigImage(x.config) == Some(x.previousImage) && x.metadata == Metadata(x.config)
    requires Updated(configs, x, image) && Reverted(configs, configs', x)
    ensures configs'[x.machineId] == x.config <==> StringMetadata(x.config)
  {
    RollbackUndoesUpdateIff(x.config, image, x.previousImage);
  }

  /** Every target of a rollback that was refused nothing is reverted. */
  lemma TargetReverted(reliable: bool, w0: World, w': World, stages: seq<seq<Snapshot>>, r: Report, image: string,
                       x: Snapshot)
    requires RolledBack(reliable, w0, w', stages, r, image) && NoRollbackRefused(w'.trace) && x in r.rolledBack
    ensures x in Flatten(stages) && Updated(r.between.configs, x, image)
    ensures Reverted(r.between.configs, w'.configs, x) && FullyReverted(Book(w'.trace), x.machineId)
  {
    StageOrderWithin(r.rolledBack, stages);
    assert x.machineId in Ids(r.rolledBack);
    var i :| 0 <= i < |r.rolledBack| && r.rolledBack[i] == x;
    NoRefusal(w'.trace, x.machineId);
    assert RevertedUnlessRefused(r.between.configs, w'.configs, Book(w'.trace), x);
  }

  /** What a run that is undone without a refusal leaves of one machine. */
  lemma MachineRestored(w0: World, w': World, stages: seq<seq<Snapshot>>, r: Report, image: string, x: Snapshot)
    requires RolledBack(true, w0, w', stages, r, image) && NoRepeats(Flatten(stages)) && x in Flatten(stages)
    requires Untouched(w0.configs, Flatten(stages)) && Faithful(Flatten(stages))
    requires Book(r.between.trace).lost == {} && NoRollbackRefused(w'.trace)
    ensures Original(w0.configs, x) && x.machineId in w'.configs
    ensures w'.configs[x.machineId] == x.config <==> (x in r.rolledBack ==> StringMetadata(x.config))
  {
    assert Original(w0.configs, x);
    if x.machineId in Ids(r.rolledBack) {
      var y :| y in r.rolledBack && y.machineId == x.machineId;
      TargetReverted(true, w0, w', stages, r, image, y);
      SameMachine(Flatten(stages), x, y);
      RevertedMachine(r.between.configs, w'.configs, x, image);
    } else {
      assert x !in r.rolledBack;
      assert Original(r.between.configs, x);
      assert x.machineId in r.between.configs <==> x.machineId in w'.configs;
    }
  }

  ghost predicate SameAt(configs: map<string, Json>, configs': map<string, Json>, id: string) {
    (id in configs <==> id in configs') && (id in configs ==> configs[id] == configs'[id])
  }

  lemma SameEverywhere(configs: map<string, Json>, configs': map<string, Json>)
    requires forall id :: SameAt(configs, configs', id)
    ensures configs' == configs
  {
    assert forall id :: id in configs ==> SameAt(configs, configs', id);
    assert forall id :: id in configs' ==> SameAt(configs, configs', id);
  }

  lemma IdRestored(w0: World, w': World, stages: seq<seq<Snapshot>>, r: Report, image: string, id: string)
    requires RolledBack(true, w0, w', stages, r, image) && NoRepeats(Flatten(stages))
    requires Untouched(w0.configs, Flatten(stages)) && Faithful(Flatten(stages))
    requires Book(r.between.trace).lost == {} && NoRollbackRefused(w'.trace) && AllStringMetadata(r.rolledBack)
    ensures SameAt(w0.configs, w'.configs, id)
  {
    if id in Ids(Flatten(stages)) {
      var x :| x in Flatten(stages) && x.machineId == id;
      MachineRestored(w0, w', stages, r, image, x);
    } else {
      OthersRestored(w0, w', stages, r, image, id);
    }
  }

  lemma OthersRestored(w0: World, w': World, stages: seq<seq<Snapshot>>, r: Report, image: string, id: string)
    requires RolledBack(true, w0, w', stages, r, image) && id !in Ids(Flatten(stages))
    ensures SameAt(w0.configs, w'.configs, id)
  {
    StageOrderWithin(r.rolledBack, stages);
    assert id !in Ids(r.rolledBack);
    assert id in w0.configs <==> id in r.between.configs;
    assert id in r.between.configs <==> id in w'.configs;
  }

  /**
   If failed calls have no effect, no task panicked and no call of the rollback was
   refused, the configurations are as before the rollout if and only if the metadata of
   every machine rolled back is strings.
   */
  lemma RestoredIff(w0: World, w': World, stages: seq<seq<Snapshot>>, r: Report, image: string)
    requires RolledBack(true, w0, w', stages, r, image) && NoRepeats(Flatten(stages))
    requires Untouched(w0.configs, Flatten(stages)) && Faithful(Flatten(stages))
    requires Book(r.between.trace).lost == {} && NoRollbackRefused(w'.trace)
    ensures w'.configs == w0.configs <==> AllStringMetadata(r.rolledBack)
  {
    if AllStringMetadata(r.rolledBack) {
      forall id ensures SameAt(w0.configs, w'.configs, id) { IdRestored(w0, w', stages, r, image, id); }
      SameEverywhere(w0.configs, w'.configs);
    } else {
      var x :| x in r.rolledBack && !StringMetadata(x.config);
      StageOrderWithin(r.rolledBack, stages);
      MachineRestored(w0, w', stages, r, image, x);
    }
  }

  /** The call that gives a hold back. */
  function GiveBack(h: Hold): Op { if h.Lease? then ReleaseLease else UncordonMachine }

  /** A machine that is held is so by a panicked task, or by a give-back that was not acknowledged. */
  ghost predicate HeldForAReason(h: Hold, trace: seq<Call>, id: string) {
    (exists i :: 0 <= i < |trace| && HeldSince(h, trace, id, i)) ==>
      || (exists i :: 0 <= i < |trace| && trace[i].op == Panic && trace[i].id == id)
      || Call(false, GiveBack(h), id, false) in trace
      || Call(true, GiveBack(h), id, false) in trace
  }

  lemma ExcusedTrace(h: Hold, trace: seq<Call>, id: string)
    requires Excused(Book(trace))
    ensures HeldForAReason(h, trace, id)
  {
    HeldIff(h, trace, id);
    LostIff(trace, id);
    AnsweredIff(trace, false, GiveBack(h), id);
    AnsweredIff(trace, true, GiveBack(h), id);
    assert id in Held(h, Book(trace)) ==> id in Book(trace).lost || GiveBackRefused(h, Book(trace), id);
  }

  /**
   A failing run, before its rollback and after it: a machine that is still leased or
   cordoned is one whose task panicked, or a release or uncordoning of it was not
   acknowledged.
   */
  lemma WhatIsStillHeld(reliable: bool, w0: World, w': World, stages: seq<seq<Snapshot>>, r: Report, image: string,
                        h: Hold, id: string)
    requires RolledBack(reliable, w0, w', stages, r, image)
    ensures HeldForAReason(h, r.between.trace, id) && HeldForAReason(h, w'.trace, id)
  {
    ExcusedTrace(h, r.between.trace, id);
    ExcusedTrace(h, w'.trace, id);
  }

  // ---------------------------------------------------------------------------
  // The stages of a run
  // ---------------------------------------------------------------------------

  datatype Plan = Plan(canaries: seq<Snapshot>, remaining: seq<Snapshot>, queues: seq<Queue>,
                       batches: seq<seq<Snapshot>>)

  function Stages(p: Plan): seq<seq<Snapshot>> { Singles(p.canaries) + p.batches }

  /** How a run over `targets` is divided: the canaries, and the schedule of the other machines by tenant. */
  ghost predicate Planned(targets: seq<Snapshot>, canary: nat, c: nat, p: Plan)
    requires c > 0
  {
    && |p.canaries| == Min(canary, |targets|) && |Tenants(p.canaries)| == Min(canary, |Tenants(targets)|)
    && multiset(p.canaries) + multiset(p.remaining) == multiset(targets)
    && (exists picked ::
          p.canaries == Picked(targets, picked, |targets|) && p.remaining == Others(targets, picked, |targets|))
    && Ordered(p.queues) && (forall tenant :: QueueOf(p.queues, tenant) == OfTenant(p.remaining, tenant))
    && p.batches == Schedule(p.queues, c)
  }

  lemma {:induction false} FlattenSingles(xs: seq<Snapshot>)
    ensures Flatten(Singles(xs)) == xs
  {
    if xs != [] {
      var init, last := xs[..|xs| - 1], xs[|xs| - 1];
      FlattenSingles(init);
      assert Singles(xs) == Singles(init) + [[last]];
      FlattenOne(Singles(init), [last]);
      SplitLast(xs);
    }
  }

  /** The stages of a plan hold the targets, each exactly once. */
  lemma PlanCovers(targets: seq<Snapshot>, canary: nat, c: nat, p: Plan)
    requires c > 0 && Planned(targets, canary, c, p)
    ensures multiset(Flatten(Stages(p))) == multiset(targets)
    ensures NoRepeats(targets) ==> NoRepeats(Flatten(Stages(p)))
    ensures forall x :: x in Flatten(Stages(p)) <==> x in targets
  {
    ScheduleIsPermutation(p.queues, c, p.remaining);
    FlattenSingles(p.canaries);
    FlattenConcat(Singles(p.canaries), p.batches);
    SameBag(targets, Flatten(Stages(p)));
  }

  /** The next stage is distinct from all that came before it. */
  lemma NextStage(stages: seq<seq<Snapshot>>, k: nat)
    requires NoRepeats(Flatten(stages)) && k < |stages|
    ensures stages[..k + 1] == stages[..k] + [stages[k]]
    ensures NoRepeats(stages[k]) && Ids(Flatten(stages[..k])) !! Ids(stages[k])
  {
    TakeMore(stages, k);
    FlattenOne(stages[..k], stages[k]);
    SplitAt(stages, k + 1);
    FlattenConcat(stages[..k + 1], stages[k + 1..]);
    IdsConcat(Flatten(stages[..k + 1]), Flatten(stages[k + 1..]));
    IdsConcat(Flatten(stages[..k]), stages[k]);
  }

  // ---------------------------------------------------------------------------
  // Who is updated at the same time
  // ---------------------------------------------------------------------------

  /** No two of the machines are of the same tenant. */
  ghost predicate SpreadOut(targets: seq<Snapshot>, ids: set<string>) {
    forall x, y ::
      (x in targets && y in targets && x.machineId in ids && y.machineId in ids && x.tenantId == y.tenantId) ==>
        x == y
  }

  /**
   At every moment of the run at most `c` machines are between the first and the last
   call of their update, no two of them of one tenant, and at most one machine is
   between the first and the last call of its rollback.
   */
  ghost predicate Uncrowded(trace: seq<Call>, targets: seq<Snapshot>, c: nat) {
    forall i :: 0 <= i <= |trace| ==>
      && |InFlight(trace, false, i)| <= c && SpreadOut(targets, InFlight(trace, false, i))
      && |InFlight(trace, true, i)| <= 1
  }

  lemma {:induction false} IdsCount(xs: seq<Snapshot>)
    ensures |Ids(xs)| <= |xs|
  {
    if xs != [] {
      var init, last := xs[..|xs| - 1], xs[|xs| - 1];
      IdsCount(init);
      SplitLast(xs);
      AppendId(init, last);
    }
  }

  lemma {:induction false} AmongTenant(xs: seq<Snapshot>, x: Snapshot)
    requires x in xs
    ensures x in OfTenant(xs, x.tenantId)
  {
    SplitFirst(xs);
    if xs[0] != x { AmongTenant(xs[1..], x); }
  }

  lemma OneOfTenant(xs: seq<Snapshot>, x: Snapshot, y: Snapshot)
    requires x in xs && y in xs && x.tenantId == y.tenantId && |OfTenant(xs, x.tenantId)| <= 1
    ensures x == y
  {
    AmongTenant(xs, x);
    AmongTenant(xs, y);
  }

  /** A stage is small enough, and no two machines of it are of one tenant. */
  ghost predicate Modest(stage: seq<Snapshot>, c: nat) {
    |stage| <= c && forall tenant :: |OfTenant(stage, tenant)| <= 1
  }

  lemma StagesAreModest(targets: seq<Snapshot>, canary: nat, c: nat, p: Plan, k: nat)
    requires c > 0 && Planned(targets, canary, c, p) && k < |Stages(p)|
    ensures Modest(Stages(p)[k], c)
  {
    if k >= |p.canaries| {
      var j := k - |p.canaries|;
      OrderedIsKeyed(p.queues);
      BatchesAreFull(p.queues, c, j);
      forall tenant ensures |OfTenant(p.batches[j], tenant)| <= 1 {
        ScheduleServesEveryQueue(p.queues, c, tenant);
      }
    }
  }

  lemma PartOfAStage(targets: seq<Snapshot>, stage: seq<Snapshot>, c: nat, ids: set<string>)
    requires NoRepeats(targets) && PartOf(stage, targets) && Modest(stage, c) && ids <= Ids(stage)
    ensures |ids| <= c && SpreadOut(targets, ids)
  {
    IdsCount(stage);
    SubsetSize(ids, Ids(stage));
    forall x, y | x in targets && y in targets && x.machineId in ids && y.machineId in ids
                  && x.tenantId == y.tenantId ensures x == y
    {
      var x', y' :| x' in stage && y' in stage && x'.machineId == x.machineId && y'.machineId == y.machineId;
      SameMachine(targets, x, x');
      SameMachine(targets, y, y');
      OneOfTenant(stage, x, y);
    }
  }

  lemma {:induction false} StageWithin(stages: seq<seq<Snapshot>>, k: nat)
    requires k < |stages|
    ensures PartOf(stages[k], Flatten(stages))
  {
    var n := |stages| - 1;
    if k < n { StageWithin(stages[..n], k); }
  }

  lemma StagesAreDisjoint(stages: seq<seq<Snapshot>>)
    requires NoRepeats(Flatten(stages))
    ensures DisjointGroups(Groups(stages))
  {
    forall k, l | 0 <= k < l < |stages| ensures Ids(stages[k]) !! Ids(stages[l]) {
      NextStage(stages, l);
      StageWithin(stages[..l], k);
    }
  }

  /** Machines in flight during the rollout. */
  lemma UpdatesInFlight(targets: seq<Snapshot>, canary: nat, c: nat, p: Plan, n: nat, after: seq<Call>,
                        trace: seq<Call>, i: nat)
    requires c > 0 && Planned(targets, canary, c, p) && NoRepeats(targets) && n <= |Stages(p)|
    requires InOrder([], after, false, Groups(Stages(p)[..n])) && AllOf([], after, trace, false)
    ensures |InFlight(trace, false, i)| <= c && SpreadOut(targets, InFlight(trace, false, i))
  {
    var stages := Stages(p)[..n];
    PlanCovers(targets, canary, c, p);
    PrefixDistinct(Stages(p), n);
    StagesAreDisjoint(stages);
    OneGroupInFlight([], after, trace, false, Groups(stages), i);
    if InFlight(trace, false, i) != {} {
      var k :| 0 <= k < |Groups(stages)| && InFlight(trace, false, i) <= Groups(stages)[k];
      StagesAreModest(targets, canary, c, p, k);
      StageWithin(Stages(p), k);
      PartOfAStage(targets, stages[k], c, InFlight(trace, false, i));
    }
  }

  lemma PrefixDistinct(stages: seq<seq<Snapshot>>, n: nat)
    requires NoRepeats(Flatten(stages)) && n <= |stages|
    ensures NoRepeats(Flatten(stages[..n]))
  {
    SplitAt(stages, n);
    FlattenConcat(stages[..n], stages[n..]);
    IdsConcat(Flatten(stages[..n]), Flatten(stages[n..]));
  }

  /** Machines in flight during the rollback. */
  lemma RollbacksInFlight(xs: seq<Snapshot>, before: seq<Call>, trace: seq<Call>, i: nat)
    requires NoRepeats(xs) && InOrder(before, trace, true, OneByOne(Reversed(xs)))
    requires AllOf(before, trace, trace, true)
    ensures |InFlight(trace, true, i)| <= 1
  {
    ReversedDistinct(xs);
    OneGroupInFlight(before, trace, trace, true, OneByOne(Reversed(xs)), i);
    if InFlight(trace, true, i) != {} {
      var k :| 0 <= k < |Reversed(xs)| && InFlight(trace, true, i) <= OneByOne(Reversed(xs))[k];
      SubsetSize(InFlight(trace, true, i), {Reversed(xs)[k]});
    }
  }

  lemma {:induction false} ReversedAt(xs: seq<Snapshot>, k: nat)
    requires k < |xs|
    ensures |Reversed(xs)| == |xs| && Reversed(xs)[k] == xs[|xs| - 1 - k].machineId
  {
    if |xs| > 1 { ReversedAt(xs[1..], if k < |xs| - 1 then k else 0); }
  }

  lemma ReversedDistinct(xs: seq<Snapshot>)
    requires NoRepeats(xs)
    ensures DisjointGroups(OneByOne(Reversed(xs)))
  {
    if xs != [] { ReversedAt(xs, 0); }
    forall k, l | 0 <= k < l < |Reversed(xs)| ensures OneByOne(Reversed(xs))[k] !! OneByOne(Reversed(xs))[l] {
      ReversedAt(xs, k);
      ReversedAt(xs, l);
    }
  }

  // ---------------------------------------------------------------------------
  // The run
  // ---------------------------------------------------------------------------

  lemma EarlierStagesComplete(b: Books, stages: seq<seq<Snapshot>>, n: nat, k: nat, image: string)
    requires n <= |stages| && StoppedAt(b, stages[..n], image) && k + 1 < n
    ensures forall x :: x in stages[k] ==> Completed(b, x.machineId)
  {
    assert stages[..n][..n - 1] == stages[..n - 1];
    StageWithin(stages[..n - 1], k);
  }

  /** The books say at which stage a run has stopped: it can be one only. */
  lemma OneStoppingPoint(b: Books, stages: seq<seq<Snapshot>>, m: nat, n: nat, image: string)
    requires m <= n <= |stages| && StoppedAt(b, stages[..m], image) && StoppedAt(b, stages[..n], image)
    ensures m == n
  {
    assert m > 0 && stages[..m][m - 1] == stages[m - 1];
    if m < n { EarlierStagesComplete(b, stages, n, m - 1, image); }
  }

  /** A failing stage: collect what to roll back, and roll it back. */
  method Abort(api: MachinesClient, updated: seq<Snapshot>, done: seq<Snapshot>, failures: seq<Failure>, image: string,
               ghost w0: World, ghost w: World, ghost stages: seq<seq<Snapshot>>, ghost batch: seq<Snapshot>,
               ghost tasks: seq<Task>)
    returns (ghost r: Report)
    requires Progress(w0, w, stages, updated, image) && NoRepeats(batch) && Ids(Flatten(stages)) !! Ids(batch)
    requires Ended(api.reliable, w, api.Now(), batch, tasks, done, failures, image) && failures != []
    modifies api
    ensures r.stages == |stages| + 1 && r.between == old(api.Now())
    ensures RolledBack(api.reliable, w0, api.Now(), stages + [batch], r, image)
  {
    BatchOutcome(tasks, batch, done, failures);
    IdsConcat(updated, done);
    var targets := RollbackTargets(updated + done, failures);
    ghost var late := targets[|updated + done|..];
    AfterTwo(updated, done, targets);
    StageFails(api.reliable, w0, w, api.Now(), stages, updated, batch, tasks, done, failures, late, image);
    ghost var between := api.Now();
    RollbackAll(api, targets);
    ExcusedAfterVisit(Book(between.trace), Book(api.trace), Reversed(targets));
    r := Report(|stages| + 1, targets, between);
  }

  /** One canary. */
  method CanaryOne(api: MachinesClient, updated: seq<Snapshot>, x: Snapshot, image: string, ghost w0: World,
                   ghost stages: seq<seq<Snapshot>>, ghost k: nat)
    returns (ok: bool, ghost r: Report)
    requires NoRepeats(Flatten(stages)) && k < |stages| && stages[k] == [x]
    requires Progress(w0, api.Now(), stages[..k], updated, image)
    modifies api
    ensures ok ==> Progress(w0, api.Now(), stages[..k + 1], updated + [x], image)
    ensures !ok ==> r.stages == k + 1 && Book(r.between.trace).lost == {}
    ensures !ok ==> RolledBack(api.reliable, w0, api.Now(), stages[..r.stages], r, image)
  {
    ghost var w := api.Now();
    NextStage(stages, k);
    assert Ids([x]) == {x.machineId};
    var failure, t := UpdateOneMachine(api, x, image);
    r := Report(0, [], w);
    ok := failure.None?;
    if ok {
      StageSucceeds(api.reliable, w0, w, api.Now(), stages[..k], updated, [x], [t], [x], image);
    } else {
      assert IdsWhere([t], LostToPanic) == {};
      r := Abort(api, updated, [], [failure.value], image, w0, w, stages[..k], [x], [t]);
    }
  }

  /** The canary stage: the first stages of the plan, one machine each. */
  method CanaryStage(api: MachinesClient, canaries: seq<Snapshot>, image: string, ghost stages: seq<seq<Snapshot>>)
    returns (ok: bool, updated: seq<Snapshot>, ghost r: Report)
    requires NoRepeats(Flatten(stages)) && api.trace == []
    requires |canaries| <= |stages| && forall k :: 0 <= k < |canaries| ==> stages[k] == [canaries[k]]
    modifies api
    ensures ok ==> Progress(old(api.Now()), api.Now(), stages[..|canaries|], updated, image)
    ensures !ok ==> 0 < r.stages <= |canaries| && Book(r.between.trace).lost == {}
    ensures !ok ==> RolledBack(api.reliable, old(api.Now()), api.Now(), stages[..r.stages], r, image)
  {
    ok, updated := true, [];
    ghost var w0 := api.Now();
    r := Report(0, [], w0);
    NoProgressYet(w0, image);
    for k := 0 to |canaries|
      invariant ok && Progress(w0, api.Now(), stages[..k], updated, image)
    {
      ok, r := CanaryOne(api, updated, canaries[k], image, w0, stages, k);
      if !ok { return; }
      updated := updated + [canaries[k]];
    }
  }

  lemma NoProgressYet(w: World, image: string)
    requires w.trace == []
    ensures Progress(w, w, [], [], image)
  {
    NothingCalled(w.trace, false);
    StageOrderNothing();
    assert Groups([]) == [];
  }

  /** One batch. */
  method BatchOnce(api: MachinesClient, updated: seq<Snapshot>, batch: seq<Snapshot>, image: string, ghost w0: World,
                   ghost stages: seq<seq<Snapshot>>, ghost n: nat)
    returns (ok: bool, updated': seq<Snapshot>, ghost r: Report)
    requires NoRepeats(Flatten(stages)) && n < |stages| && stages[n] == batch
    requires Progress(w0, api.Now(), stages[..n], updated, image)
    modifies api
    ensures ok ==> Progress(w0, api.Now(), stages[..n + 1], updated', image)
    ensures !ok ==> r.stages == n + 1
    ensures !ok ==> RolledBack(api.reliable, w0, api.Now(), stages[..r.stages], r, image)
  {
    ghost var w := api.Now();
    NextStage(stages, n);
    var done, failures, tasks := RunBatch(api, batch, image);
    r := Report(0, [], w);
    ok, updated' := failures == [], updated + done;
    if ok {
      StageSucceeds(api.reliable, w0, w, api.Now(), stages[..n], updated, batch, tasks, done, image);
    } else {
      r := Abort(api, updated, done, failures, image, w0, w, stages[..n], batch, tasks);
    }
  }

  /** The stages from the `n`-th on are the batches that the queues will give. */
  ghost predicate Upcoming(stages: seq<seq<Snapshot>>, n: nat, queues: seq<Queue>, c: nat)
    requires c > 0
    decreases |stages| - n
  {
    if NonEmpty(queues) == 0 then n == |stages|
    else n < |stages| && stages[n] == Batch(queues, c) && Upcoming(stages, n + 1, After(queues, c), c)
  }

  lemma {:induction false} ScheduleIsUpcoming(before: seq<seq<Snapshot>>, queues: seq<Queue>, c: nat)
    requires c > 0
    ensures Upcoming(before + Schedule(queues, c), |before|, queues, c)
    decreases Total(queues)
  {
    BatchSize(queues, c);
    if NonEmpty(queues) > 0 {
      var batch, more := Batch(queues, c), Schedule(After(queues, c), c);
      ScheduleIsUpcoming(before + [batch], After(queues, c), c);
      Associative(before, [batch], more);
    } else {
      NothingAppended(before);
    }
  }

  /** Take the next batch out of the queues and run it. */
  method RollOn(api: MachinesClient, updated: seq<Snapshot>, queues: seq<Queue>, c: nat, image: string,
                ghost w0: World, ghost stages: seq<seq<Snapshot>>, ghost n: nat)
    returns (ok: bool, updated': seq<Snapshot>, queues': seq<Queue>, ghost r: Report)
    requires c > 0 && NonEmpty(queues) > 0 && NoRepeats(Flatten(stages)) && Upcoming(stages, n, queues, c)
    requires Progress(w0, api.Now(), stages[..n], updated, image)
    modifies api
    ensures n < |stages| && Total(queues') < Total(queues)
    ensures ok ==> Upcoming(stages, n + 1, queues', c)
    ensures ok ==> Progress(w0, api.Now(), stages[..n + 1], updated', image)
    ensures !ok ==> r.stages == n + 1
    ensures !ok ==> RolledBack(api.reliable, w0, api.Now(), stages[..r.stages], r, image)
  {
    BatchSize(queues, c);
    var batch;
    batch, queues' := NextBatch(queues, c);
    ok, updated', r := BatchOnce(api, updated, batch, image, w0, stages, n);
  }

  /** The rolling stage: batch after batch until the queues are empty or one fails. */
  method RollingStage(api: MachinesClient, updated0: seq<Snapshot>, queues0: seq<Queue>, c: nat, image: string,
                      ghost w0: World, ghost stages: seq<seq<Snapshot>>, ghost m: nat)
    returns (ok: bool, updated: seq<Snapshot>, ghost r: Report)
    requires c > 0 && NoRepeats(Flatten(stages)) && Upcoming(stages, m, queues0, c)
    requires Progress(w0, api.Now(), stages[..m], updated0, image)
    modifies api
    ensures ok ==> Progress(w0, api.Now(), stages[..|stages|], updated, image)
    ensures !ok ==> m < r.stages <= |stages|
    ensures !ok ==> RolledBack(api.reliable, w0, api.Now(), stages[..r.stages], r, image)
  {
    var queues := queues0;
    ok, updated := true, updated0;
    r := Report(0, [], w0);
    ghost var n := m;
    while NonEmpty(queues) > 0
      invariant ok && m <= n && Upcoming(stages, n, queues, c)
      invariant Progress(w0, api.Now(), stages[..n], updated, image)
      decreases Total(queues)
    {
      ok, updated, queues, r := RollOn(api, updated, queues, c, image, w0, stages, n);
      if !ok { return; }
      n := n + 1;
    }
  }

  lemma CallsAreOfAKind(before: seq<Call>, after: seq<Call>, rollback: bool, groups: seq<set<string>>, i: nat)
    requires InOrder(before, after, rollback, groups) && |before| <= i < |after|
    ensures after[i].rollback == rollback
  {
    var cuts: seq<nat> :| CutAt(before, after, rollback, groups, cuts);
    var k := SegmentOf(before, after, rollback, groups, cuts, i, |groups|);
    assert Segment(after, rollback, groups[k], cuts[k], cuts[k + 1]);
  }

  /** A run that completes is never crowded. */
  lemma SuccessIsUncrowded(targets: seq<Snapshot>, canary: nat, c: nat, p: Plan, trace: seq<Call>)
    requires c > 0 && Planned(targets, canary, c, p) && NoRepeats(targets)
    requires InOrder([], trace, false, Groups(Stages(p)))
    ensures Uncrowded(trace, targets, c)
  {
    WholeSlice(Stages(p));
    forall i | 0 <= i < |trace| ensures !trace[i].rollback {
      CallsAreOfAKind([], trace, false, Groups(Stages(p)), i);
    }
    forall i | 0 <= i <= |trace|
      ensures |InFlight(trace, false, i)| <= c && SpreadOut(targets, InFlight(trace, false, i))
      ensures InFlight(trace, true, i) == {}
    {
      UpdatesInFlight(targets, canary, c, p, |Stages(p)|, trace, trace, i);
    }
  }

  /** Neither is one that is rolled back. */
  lemma FailureIsUncrowded(targets: seq<Snapshot>, canary: nat, c: nat, p: Plan, n: nat, between: seq<Call>,
                           trace: seq<Call>, xs: seq<Snapshot>)
    requires c > 0 && Planned(targets, canary, c, p) && NoRepeats(targets) && n <= |Stages(p)|
    requires InOrder([], between, false, Groups(Stages(p)[..n]))
    requires NoRepeats(xs) && InOrder(between, trace, true, OneByOne(Reversed(xs)))
    ensures Uncrowded(trace, targets, c)
  {
    forall i | 0 <= i < |trace| ensures trace[i].rollback <==> |between| <= i {
      if i < |between| {
        CallsAreOfAKind([], between, false, Groups(Stages(p)[..n]), i);
        assert trace[i] == between[i];
      } else {
        CallsAreOfAKind(between, trace, true, OneByOne(Reversed(xs)), i);
      }
    }
    forall i | 0 <= i <= |trace|
      ensures |InFlight(trace, false, i)| <= c && SpreadOut(targets, InFlight(trace, false, i))
      ensures |InFlight(trace, true, i)| <= 1
    {
      UpdatesInFlight(targets, canary, c, p, n, between, trace, i);
      RollbacksInFlight(xs, between, trace, i);
    }
  }

  ghost predicate NoRolloutRefused(trace: seq<Call>) {
    forall i :: 0 <= i < |trace| && !trace[i].rollback && trace[i].op != Panic ==> trace[i].ok
  }

  /** Every configuration can be edited, as those of faithful snapshots can. */
  ghost predicate AllEditable(xs: seq<Snapshot>, image: string) {
    forall x :: x in xs ==> Edited(x.config, image, x.metadata).Some?
  }

  lemma FaithfulIsEditable(xs: seq<Snapshot>, image: string)
    requires Faithful(xs)
    ensures AllEditable(xs, image)
  {
    forall x | x in xs ensures Edited(x.config, image, x.metadata).Some? {
      assert ConfigImage(x.config) == Some(x.previousImage);
    }
  }

  /** What a run has to go through without: refused calls, panics, configurations that cannot be edited. */
  ghost predicate Undisturbed(trace: seq<Call>, targets: seq<Snapshot>, image: string) {
    NoRolloutRefused(trace) && NoPanic(trace) && AllEditable(targets, image)
  }

  lemma SuccessIsUndisturbed(w0: World, w: World, stages: seq<seq<Snapshot>>, updated: seq<Snapshot>, image: string,
                             targets: seq<Snapshot>)
    requires Progress(w0, w, stages, updated, image) && forall x :: x in targets ==> x in Flatten(stages)
    ensures Undisturbed(w.trace, targets, image)
  {
    NoPanicNoneLost(w.trace);
    forall i | 0 <= i < |w.trace| && !w.trace[i].rollback && w.trace[i].op != Panic ensures w.trace[i].ok {
      AnsweredIff(w.trace, false, w.trace[i].op, w.trace[i].id);
      assert w.trace[i] == Call(false, w.trace[i].op, w.trace[i].id, w.trace[i].ok);
    }
    forall x | x in targets ensures Edited(x.config, image, x.metadata).Some? {
      assert Updated(w.configs, x, image);
    }
  }

  /** A refused call or a panic of the rollout. */
  lemma DisturbedBy(trace: seq<Call>, trace': seq<Call>, op: Op, id: string)
    requires trace <= trace' && (false, op, id) in Book(trace).refused
    ensures !NoRolloutRefused(trace') || !NoPanic(trace')
  {
    AnsweredIff(trace, false, op, id);
    var i :| 0 <= i < |trace| && trace[i] == Call(false, op, id, false);
    assert trace'[i] == trace[i];
  }

  lemma FailureIsDisturbed(b: Books, between: seq<Call>, trace: seq<Call>, stages: seq<seq<Snapshot>>, image: string,
                           targets: seq<Snapshot>)
    requires b == Book(between) && StoppedAt(b, stages, image) && between <= trace
    requires PartOf(stages[|stages| - 1], targets)
    ensures !Undisturbed(trace, targets, image)
  {
    var x :| x in stages[|stages| - 1] && !Completed(b, x.machineId);
    assert Explained(b, x, image) && x in targets;
    if x.machineId in b.lost {
      LostIff(between, x.machineId);
      var i :| 0 <= i < |between| && between[i].op == Panic;
      assert trace[i] == between[i];
    } else if op :| (false, op, x.machineId) in b.refused {
      DisturbedBy(between, trace, op, x.machineId);
    }
  }

  /** What a failed run says about its panics and about the configurations it leaves. */
  ghost predicate Undone(reliable: bool, w0: World, w': World, targets: seq<Snapshot>, r: Report) {
    && (NoPanic(w'.trace) ==> Ids(r.rolledBack) == Book(w'.trace).acked)
    && ((reliable && NoPanic(w'.trace) && NoRollbackRefused(w'.trace) && Untouched(w0.configs, targets)
         && Faithful(targets)) ==> (w'.configs == w0.configs <==> AllStringMetadata(r.rolledBack)))
  }

  lemma RolledBackIsUndone(reliable: bool, w0: World, w': World, targets: seq<Snapshot>, stages: seq<seq<Snapshot>>,
                           r: Report, image: string)
    requires RolledBack(reliable, w0, w', stages, r, image) && NoRepeats(Flatten(stages))
    requires PartOf(Flatten(stages), targets)
    ensures Undone(reliable, w0, w', targets, r)
  {
    NoPanicNoneLost(w'.trace);
    if reliable && NoPanic(w'.trace) && NoRollbackRefused(w'.trace) && Untouched(w0.configs, targets) {
      if Faithful(targets) { RestoredIff(w0, w', stages, r, image); }
    }
  }

  lemma RolledBackIsDisturbed(reliable: bool, w0: World, w': World, targets: seq<Snapshot>,
                              stages: seq<seq<Snapshot>>, r: Report, image: string)
    requires RolledBack(reliable, w0, w', stages, r, image) && PartOf(Flatten(stages), targets)
    ensures !Undisturbed(w'.trace, targets, image)
  {
    StageWithin(stages, |stages| - 1);
    FailureIsDisturbed(Book(r.between.trace), r.between.trace, w'.trace, stages, image, targets);
  }

  lemma PrefixOfPlan(targets: seq<Snapshot>, canary: nat, c: nat, p: Plan, n: nat)
    requires c > 0 && Planned(targets, canary, c, p) && NoRepeats(targets) && n <= |Stages(p)|
    ensures NoRepeats(Flatten(Stages(p)[..n])) && PartOf(Flatten(Stages(p)[..n]), targets)
  {
    var stages := Stages(p);
    PlanCovers(targets, canary, c, p);
    PrefixDistinct(stages, n);
    SplitAt(stages, n);
    FlattenConcat(stages[..n], stages[n..]);
  }

  /** Every machine went through the calls of an update, in order and all acknowledged, and runs the new image. */
  ghost predicate AllUpdated(w: World, targets: seq<Snapshot>, image: string) {
    forall x :: x in targets ==>
      && CallsSince(w.trace, 0, false, x.machineId) == Granted(false, UPDATE_CALLS, x.machineId)
      && Completed(Book(w.trace), x.machineId) && Updated(w.configs, x, image)
  }

  lemma SuccessIsUpdated(w0: World, w: World, stages: seq<seq<Snapshot>>, updated: seq<Snapshot>, image: string,
                         targets: seq<Snapshot>)
    requires Progress(w0, w, stages, updated, image) && w0.trace == []
    requires forall x :: x in targets ==> x in Flatten(stages)
    ensures AllUpdated(w, targets, image)
  {
    forall x | x in targets
      ensures CallsSince(w.trace, 0, false, x.machineId) == Granted(false, UPDATE_CALLS, x.machineId)
    {
      assert CalledInOrder(w.trace, 0, x, image);
    }
  }

  /**
   `update_image` on the selected machines. The stages of the plan are run one after the
   other up to the first that does not complete. A run that completes has updated every
   target and holds nothing. A run that fails has rolled back, the last stage first,
   exactly the machines whose update was acknowledged and whose task did not panic. It
   completes exactly if no call of the rollout is refused, no task panics, and every
   configuration can be edited.
   */
  method Run(api: MachinesClient, targets: seq<Snapshot>, image: string, canary: nat, concurrency: nat)
    returns (ok: bool, ghost plan: Plan, ghost r: Report)
    requires NoRepeats(targets) && api.trace == []
    modifies api
    ensures concurrency == 0 || targets == [] ==> !ok && api.trace == [] && api.configs == old(api.configs)
    ensures concurrency > 0 && targets != [] ==> Planned(targets, canary, concurrency, plan)
    ensures ok ==> exists updated :: Progress(old(api.Now()), api.Now(), Stages(plan), updated, image)
    ensures ok ==> AllUpdated(api.Now(), targets, image)
    ensures !ok && concurrency > 0 && targets != [] ==>
              && 0 < r.stages <= |Stages(plan)|
              && RolledBack(api.reliable, old(api.Now()), api.Now(), Stages(plan)[..r.stages], r, image)
              && Undone(api.reliable, old(api.Now()), api.Now(), targets, r)
              && (r.stages <= |plan.canaries| ==> NoPanic(api.trace))
    ensures concurrency > 0 && targets != [] ==> (ok <==> Undisturbed(api.trace, targets, image))
    ensures Uncrowded(api.trace, targets, concurrency)
  {
    ghost var w0 := api.Now();
    plan, r := Plan([], [], [], []), Report(0, [], w0);
    if concurrency == 0 || targets == [] { return false, plan, r; }
    var canaries, remaining, picked := ChooseCanaries(targets, canary);
    var queues := GroupByTenant(remaining);
    plan := Plan(canaries, remaining, queues, Schedule(queues, concurrency));
    PlanCovers(targets, canary, concurrency, plan);
    ghost var stages := Stages(plan);
    var updated;
    ok, updated, r := CanaryStage(api, canaries, image, stages);
    if ok {
      ScheduleIsUpcoming(Singles(canaries), queues, concurrency);
      ok, updated, r := RollingStage(api, updated, queues, concurrency, image, w0, stages, |canaries|);
    }
    if ok {
      WholeSlice(stages);
      SuccessIsUpdated(w0, api.Now(), stages, updated, image, targets);
      SuccessIsUndisturbed(w0, api.Now(), stages, updated, image, targets);
      SuccessIsUncrowded(targets, canary, concurrency, plan, api.trace);
    } else {
      NoPanicNoneLost(api.trace);
      PrefixOfPlan(targets, canary, concurrency, plan, r.stages);
      RolledBackIsUndone(api.reliable, w0, api.Now(), targets, stages[..r.stages], r, image);
      RolledBackIsDisturbed(api.reliable, w0, api.Now(), targets, stages[..r.stages], r, image);
      FailureIsUncrowded(targets, canary, concurrency, plan, r.stages, r.between.trace, api.trace, r.rolledBack);
    }
  }
}
