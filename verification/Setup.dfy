/**
 Provisioning of the root file system (`SetupManager`, crates/init/src/setup.rs):
 staging an archive, swapping it in for the current root, starting its init, and
 going back to the previous root when that fails. Every system call may fail.

 The test-mode branches are not part of this model, and neither are the files the
 running system itself writes (the fallback marker, `.old_root`).
 */
module Setup {
  import opened Prelude
  import opened Filesystem

  datatype Call =
    | Remove(path: Path)
    | Rename(from: Path, to: Path)
    | Write(path: Path)
    | Make(path: Path)
    | Check(path: Path) // succeeds if there is a directory at the path
    | Poll(alive: bool) // whether the recorded runtime is still there
    | Launch // clearing the fallback marker included
    | Stop

  /** A system call, whether it succeeded, and the world right after it. */
  datatype Event = Event(call: Call, ok: bool, fs: Fs, runtime: Option<nat>, launches: nat)

  /** What a client or the boot sequence asks of the manager. */
  datatype Request = Provision | Reconnect | StartReady | Shutdown

  datatype Mount = Mount(source: Path, target: Path)

  datatype Stage = StopOld | ClearPrevious | SetAside | Promote | StoreMarker | Start | DropPrevious

  /**
   How far a restore got: not tried, ended with the old root still set aside, ended with
   the old root back but something after it undone, or complete.
   */
  datatype Restore = NotTried | StillAside | RootBack | Complete

  datatype Activation = Activated | Failed(stage: Stage, restore: Restore)

  /** The new tree is in place and its runtime has been started. */
  predicate Provisioned(r: Activation) { r.Activated? || r.stage.DropPrevious? }

  /** A restore has been tried. */
  predicate Tried(r: Activation) { r.Failed? && !r.restore.NotTried? }

  /** The old tree is left at the previous path. */
  predicate LeavesAside(r: Activation) { !Provisioned(r) && (r.stage.StoreMarker? || r.restore.StillAside?) }

  /** The contents of the provision marker. */
  const MARKER: seq<Byte> := [0x31]

  function Parent(p: Path): Path { if p == [] then [] else p[..|p| - 1] }

  datatype Layout = Layout(root: Path, staging: Path, previous: Path, marker: Path, mounts: seq<Mount>) {
    /** No two of the paths the manager works on contain one another. */
    ghost predicate Disjoint() {
      && Incomparable(root, staging) && Incomparable(root, previous) && Incomparable(root, marker)
      && Incomparable(staging, previous) && Incomparable(staging, marker) && Incomparable(previous, marker)
      && (forall m :: m in mounts ==>
            && Incomparable(root, m.source) && Incomparable(staging, m.source)
            && Incomparable(previous, m.source) && Incomparable(marker, m.source))
      && (forall i, j :: 0 <= i < j < |mounts| ==> Incomparable(mounts[i].source, mounts[j].source))
    }

    /** The old tree is where it was or set aside. */
    ghost predicate OldAt(fs: Fs, old0: Option<Tree>) {
      old0.Some? ==> TreeAt(fs, root, old0.value) || TreeAt(fs, previous, old0.value)
    }

    /** The old tree has been set aside and the root path is free. */
    ghost predicate Aside(fs: Fs, old0: Option<Tree>) {
      if old0.Some? then TreeAt(fs, previous, old0.value) && Exists(fs, previous) else !Exists(fs, previous)
    }

    /** The tree at the root path, or that there is none. */
    ghost predicate RootIs(fs: Fs, tree: Option<Tree>) {
      if tree.Some? then TreeAt(fs, root, tree.value) && Exists(fs, root) else !Exists(fs, root)
    }

    ghost function RootTree(fs: Fs): Option<Tree> {
      if Exists(fs, root) then Some(TreeOf(fs, root)) else None
    }

    /** The old root and its marker are in place again, or there was none and there is none. */
    ghost predicate PutBack(fs: Fs, old0: Option<Tree>) {
      RootIs(fs, old0) && fs(marker) == if old0.Some? then Some(File(MARKER)) else None
    }

    /** What is true after a restore that got this far. */
    ghost predicate RestoredTo(fs: Fs, r: Restore, old0: Option<Tree>) {
      match r
      case NotTried => true
      case StillAside => old0.Some? ==> TreeAt(fs, previous, old0.value)
      case RootBack => RootIs(fs, old0)
      case Complete => PutBack(fs, old0)
    }

    /** Where the trees are when an activation of `staged` over `old0` has ended. */
    ghost predicate Ends(fs: Fs, r: Activation, old0: Option<Tree>, staged: Tree) {
      // The new tree is in place.
      && (Provisioned(r) ==> RootIs(fs, Some(staged)))
      && (r.Activated? ==> fs(marker) == Some(File(MARKER)) && !Exists(fs, previous))
      // The old tree is at the root, or it was left at the previous path.
      && (!Provisioned(r) && !LeavesAside(r) ==> RootIs(fs, old0))
      && (LeavesAside(r) && old0.Some? ==> TreeAt(fs, previous, old0.value))
      && (r.Failed? && r.stage == StoreMarker ==> RootIs(fs, Some(staged)))
      && (r.Failed? && r.restore.Complete? ==> PutBack(fs, old0) && !Exists(fs, staging))
      // A tree that only the previous path held is gone once that path has been cleared.
      && (old0.None? && !(r.Failed? && r.stage in {StopOld, ClearPrevious}) ==> !Exists(fs, previous))
    }

    /** Before any launch the old tree is safe; the root is never renamed under a recorded runtime. */
    ghost predicate Safe(e: Event, old0: Option<Tree>, launches0: nat) {
      && (e.launches > launches0 || OldAt(e.fs, old0))
      && (e.call.Rename? && (e.call.from == root || e.call.to == root) ==> e.runtime.None?)
    }

    /** The calls whose failure can leave the old tree aside. */
    predicate Decisive(c: Call) { c == Write(marker) || c == Remove(root) || c == Rename(previous, root) }

    /** Nothing but the root, staging and previous trees and the marker changes. */
    ghost predicate Frame(fs: Fs, fs': Fs) {
      forall k: Path :: fs'(k) == fs(k) || root <= k || staging <= k || previous <= k || marker <= k
    }

    /** Everything staging must leave alone: root, previous, marker and the persistent data there is. */
    ghost predicate Preserved(fs: Fs, fs': Fs) {
      && SameTree(fs, fs', root) && SameTree(fs, fs', previous) && SameTree(fs, fs', marker)
      && forall m :: m in mounts && Exists(fs, m.source) ==> SameTree(fs, fs', m.source)
    }

    /** The target of each of the first `n` mounts is a directory, unless a later mount among them is above it. */
    ghost predicate HasTargets(fs: Fs, n: nat)
      requires n <= |mounts|
    {
      forall i :: 0 <= i < n && Uncovered(i, n) ==> fs(staging + mounts[i].target) == Some(Dir)
    }

    /** The sources of the first `n` mounts are directories. */
    ghost predicate HasSources(fs: Fs, n: nat)
      requires n <= |mounts|
    {
      forall i :: 0 <= i < n ==> fs(mounts[i].source) == Some(Dir)
    }

    /** The targets of the mounts between the two are not above that of the `i`-th. */
    predicate Uncovered(i: nat, n: nat)
      requires i < n <= |mounts|
    {
      forall j :: i < j < n ==> !(mounts[j].target <= mounts[i].target)
    }

    predicate OutsideTargets(k: Path) { staging <= k && forall m :: m in mounts ==> !(staging + m.target <= k) }

    /** What there is in the staged tree, outside the targets of the mounts, is the same. */
    ghost predicate StagedElsewhere(fs: Fs, fs': Fs) {
      forall k: Path :: OutsideTargets(k) && Exists(fs, k) ==> fs'(k) == fs(k)
    }

    /** Every mount has its source, and its target in the root unless the target of a later mount is above it. */
    ghost predicate CanMount(fs: Fs) {
      && HasSources(fs, |mounts|)
      && forall i :: 0 <= i < |mounts| && Uncovered(i, |mounts|) ==> fs(root + mounts[i].target) == Some(Dir)
    }

    /** Seeding a missing source from its target. */
    function SeedPlan(m: Mount): seq<Call> { [Check(staging + m.target)] + MovePlan(m) }

    function MovePlan(m: Mount): seq<Call> { [Make(Parent(m.source))] + [Rename(staging + m.target, m.source)] }

    /** Ensuring the source of a mount, which is seeded if only its target is there. */
    ghost function SourcePlan(fs: Fs, m: Mount): seq<Call> {
      if Exists(fs, m.source) then [Check(m.source)]
      else if Exists(fs, staging + m.target) then SeedPlan(m) + [Check(m.source)]
      else [Make(m.source)]
    }

    /** Then its target, which is still there only if the source was there as well. */
    ghost function TargetPlan(fs: Fs, m: Mount): seq<Call> {
      var target := staging + m.target;
      [if Exists(fs, m.source) && Exists(fs, target) then Check(target) else Make(target)]
    }

    ghost function MountPlan(fs: Fs, m: Mount): seq<Call> { SourcePlan(fs, m) + TargetPlan(fs, m) }

    /** Every mount in turn, each in the file system it finds. */
    ghost function LayoutPlan(states: seq<Fs>): seq<Call>
      requires |states| <= |mounts|
    {
      if states == [] then []
      else LayoutPlan(states[..|states| - 1]) + MountPlan(states[|states| - 1], mounts[|states| - 1])
    }

    /** What was extracted to the staging path is at the root, apart from the targets of the mounts. */
    ghost predicate Arrived(extracted: Fs, fs: Fs) {
      forall rel: Path :: OutsideTargets(staging + rel) && Exists(extracted, staging + rel) ==>
        fs(root + rel) == extracted(staging + rel)
    }

    /** The layout of `SetupManager::new` for a data directory and a root directory. */
    static function Of(data: Path, root: Path): Layout {
      Layout(root, data + ["rootfs.staging"], data + ["rootfs.previous"], data + [".provisioned"],
             [Mount(data + ["persist", "root"], ["root"]), Mount(data + ["persist", "home"], ["home"])])
    }
  }

  lemma SiblingsAreIncomparable(data: Path, p: Path, q: Path)
    requires p != [] && q != [] && p[0] != q[0]
    ensures Incomparable(data + p, data + q)
  {
    assert (data + p)[|data|] == p[0] && (data + q)[|data|] == q[0];
  }

  lemma DistinctNames()
    ensures "rootfs" != "rootfs.staging" && "rootfs" != "rootfs.previous" && "rootfs" != ".provisioned"
    ensures "rootfs.staging" != "rootfs.previous" && "rootfs.staging" != ".provisioned"
            && "rootfs.previous" != ".provisioned"
    ensures "persist" !in ["rootfs", "rootfs.staging", "rootfs.previous", ".provisioned"] && "root" != "home"
  {
    assert "rootfs.staging"[7] != "rootfs.previous"[7];
    assert "persist"[0] == 'p' && "root"[0] == 'r';
  }

  /** A name in the data directory is apart from everything below `persist`. */
  lemma ApartFromPersist(data: Path, name: string)
    requires name != "persist"
    ensures Incomparable(data + [name], data + ["persist", "root"])
    ensures Incomparable(data + [name], data + ["persist", "home"])
  {
    SiblingsAreIncomparable(data, [name], ["persist", "root"]);
    SiblingsAreIncomparable(data, [name], ["persist", "home"]);
  }

  lemma PersistentDirsAreApart(data: Path)
    ensures Incomparable(data + ["persist", "root"], data + ["persist", "home"])
  {
    DistinctNames();
    SiblingsAreIncomparable(data + ["persist"], ["root"], ["home"]);
    assert data + ["persist"] + ["root"] == data + ["persist", "root"];
    assert data + ["persist"] + ["home"] == data + ["persist", "home"];
  }

  /** With the default root `<data>/rootfs` the paths are disjoint. */
  lemma DefaultLayoutIsDisjoint(data: Path)
    ensures Layout.Of(data, data + ["rootfs"]).Disjoint()
  {
    DistinctNames();
    SiblingsAreIncomparable(data, ["rootfs"], ["rootfs.staging"]);
    SiblingsAreIncomparable(data, ["rootfs"], ["rootfs.previous"]);
    SiblingsAreIncomparable(data, ["rootfs"], [".provisioned"]);
    SiblingsAreIncomparable(data, ["rootfs.staging"], ["rootfs.previous"]);
    SiblingsAreIncomparable(data, ["rootfs.staging"], [".provisioned"]);
    SiblingsAreIncomparable(data, ["rootfs.previous"], [".provisioned"]);
    ApartFromPersist(data, "rootfs");
    ApartFromPersist(data, "rootfs.staging");
    ApartFromPersist(data, "rootfs.previous");
    ApartFromPersist(data, ".provisioned");
    PersistentDirsAreApart(data);
  }

  /** Distinct mounts have incomparable sources. */
  lemma OtherSource(l: Layout, m: Mount, other: Mount)
    requires l.Disjoint() && m in l.mounts && other in l.mounts && m != other
    ensures Incomparable(m.source, other.source)
  {
    var i :| 0 <= i < |l.mounts| && l.mounts[i] == m;
    var j :| 0 <= j < |l.mounts| && l.mounts[j] == other;
    assert i < j || j < i;
  }

  /** The paths staging must leave alone when it works on mount `m`. */
  ghost predicate Foreign(l: Layout, m: Mount, q: Path) {
    || q == l.root || q == l.previous || q == l.marker
    || exists other :: other in l.mounts && other != m && q == other.source
  }

  lemma ForeignPaths(l: Layout, m: Mount, q: Path)
    requires l.Disjoint() && m in l.mounts && Foreign(l, m, q)
    ensures Incomparable(m.source, q) && Incomparable(l.staging, q) && Incomparable(l.staging + m.target, q)
    ensures !(q <= Parent(m.source))
    ensures Incomparable(l.staging + m.target, m.source) && !(l.staging + m.target <= Parent(m.source))
  {
    if q != l.root && q != l.previous && q != l.marker {
      var other :| other in l.mounts && other != m && q == other.source;
      OtherSource(l, m, other);
    }
    BelowIncomparable(l.staging, q, m.target);
    BelowIncomparable(l.staging, m.source, m.target);
  }

  /** What there is in the staged tree, outside the target of the mount, is the same. */
  ghost predicate StagedKept(l: Layout, fs: Fs, fs': Fs, m: Mount) {
    forall k: Path :: l.staging <= k && !(l.staging + m.target <= k) && Exists(fs, k) ==> fs'(k) == fs(k)
  }

  /** Seeding a source from its target touches nothing else in the staged tree. */
  lemma SeedingKeepsStaged(l: Layout, fs: Fs, made: Fs, fs': Fs, m: Mount)
    requires l.Disjoint() && m in l.mounts
    requires made == fs || made == WithDirs(fs, Parent(m.source))
    requires fs' == made || fs' == Moved(made, l.staging + m.target, m.source)
    ensures StagedKept(l, fs, fs', m)
  {
    forall k: Path | l.staging <= k && !(l.staging + m.target <= k) && Exists(fs, k) ensures fs'(k) == fs(k) {
      assert made(k) == fs(k);
      assert Incomparable(l.staging, m.source);
      if m.source <= k { assert m.source <= l.staging || l.staging <= m.source; }
    }
  }

  lemma SameTreeAt(fs: Fs, made: Fs, fs': Fs, target: Path, source: Path)
    requires SameTree(fs, made, target) && TreeAt(fs', source, TreeOf(made, target))
    ensures TreeAt(fs', source, TreeOf(fs, target))
  {
    forall rel: Path ensures fs'(source + rel) == TreeOf(fs, target)(rel) {
      assert fs'(source + rel) == TreeOf(made, target)(rel);
    }
  }

  lemma BelowSame(p: Path, a: Path, b: Path)
    ensures p + a <= p + b ==> a <= b
  {
    assert (p + a)[|p|..] == a && (p + b)[|p|..] == b;
  }

  lemma OneMoreSource(l: Layout, fs: Fs, fs': Fs, n: nat)
    requires l.Disjoint() && n < |l.mounts| && l.HasSources(fs, n) && fs'(l.mounts[n].source) == Some(Dir)
    requires forall q :: Foreign(l, l.mounts[n], q) ==> SameTree(fs, fs', q)
    ensures l.HasSources(fs', n + 1)
  {
    forall i | 0 <= i < n ensures fs'(l.mounts[i].source) == Some(Dir) {
      var source := l.mounts[i].source;
      assert Incomparable(source, l.mounts[n].source);
      assert Foreign(l, l.mounts[n], source);
      assert source + [] == source;
    }
  }

  lemma SourcesStay(l: Layout, fs: Fs, fs': Fs, n: nat)
    requires l.Disjoint() && n <= |l.mounts| && l.HasSources(fs, n)
    requires forall q :: Incomparable(l.staging, q) ==> SameTree(fs, fs', q)
    ensures l.HasSources(fs', n)
  {
    forall i | 0 <= i < n ensures fs'(l.mounts[i].source) == Some(Dir) {
      var source := l.mounts[i].source;
      assert l.mounts[i] in l.mounts && SameTree(fs, fs', source);
      assert source + [] == source;
    }
  }

  /** One more mount leaves the targets before it alone. */
  lemma TargetsStay(l: Layout, fs: Fs, fs': Fs, n: nat)
    requires n < |l.mounts| && l.HasTargets(fs, n) && StagedKept(l, fs, fs', l.mounts[n])
    requires fs'(l.staging + l.mounts[n].target) == Some(Dir)
    ensures l.HasTargets(fs', n + 1)
  {
    forall i: nat | i < n + 1 && l.Uncovered(i, n + 1) ensures fs'(l.staging + l.mounts[i].target) == Some(Dir) {
      if i < n { TargetStays(l, fs, fs', i, n); } else { assert i == n; }
    }
  }

  lemma TargetStays(l: Layout, fs: Fs, fs': Fs, i: nat, n: nat)
    requires i < n < |l.mounts| && l.HasTargets(fs, n) && StagedKept(l, fs, fs', l.mounts[n])
    requires l.Uncovered(i, n + 1)
    ensures fs'(l.staging + l.mounts[i].target) == Some(Dir)
  {
    var target := l.staging + l.mounts[i].target;
    assert l.Uncovered(i, n) && !(l.mounts[n].target <= l.mounts[i].target);
    BelowSame(l.staging, l.mounts[n].target, l.mounts[i].target);
    assert l.staging <= target && Exists(fs, target);
  }

  lemma StagedElsewhereStep(l: Layout, fs0: Fs, fs: Fs, fs': Fs, m: Mount)
    requires m in l.mounts && l.StagedElsewhere(fs0, fs) && StagedKept(l, fs, fs', m)
    ensures l.StagedElsewhere(fs0, fs')
  {
  }

  lemma SameRoot(l: Layout, fs: Fs, fs': Fs)
    requires l.Preserved(fs, fs')
    ensures Exists(fs', l.root) <==> Exists(fs, l.root)
  {
    assert l.root + [] == l.root;
  }

  /** Working on one mount preserves what was preserved before. */
  lemma PreservedStep(l: Layout, fs0: Fs, fs: Fs, fs': Fs, m: Mount)
    requires l.Disjoint() && m in l.mounts && l.Preserved(fs0, fs)
    requires Exists(fs, m.source) ==> fs' == fs
    requires forall q :: Foreign(l, m, q) ==> SameTree(fs, fs', q)
    ensures l.Preserved(fs0, fs')
  {
    assert Foreign(l, m, l.root) && Foreign(l, m, l.previous) && Foreign(l, m, l.marker);
    forall other | other in l.mounts && Exists(fs0, other.source) ensures SameTree(fs0, fs', other.source) {
      assert SameTree(fs0, fs, other.source);
      if other == m {
        assert m.source + [] == m.source;
      } else {
        assert Foreign(l, m, other.source);
      }
    }
  }

  /** Creating directories inside the staged tree preserves everything else, sources included. */
  lemma StagedDirsKeep(l: Layout, fs: Fs, rel: Path, q: Path)
    requires Incomparable(l.staging, q)
    ensures SameTree(fs, WithDirs(fs, l.staging + rel), q)
  {
    BelowOne(q, l.staging, rel);
    WithDirsKeepsTree(fs, l.staging + rel, q);
  }

  lemma PreservedThroughout(l: Layout, fs0: Fs, fs: Fs, fs': Fs)
    requires l.Disjoint() && l.Preserved(fs0, fs)
    requires forall q :: Incomparable(l.staging, q) ==> SameTree(fs, fs', q)
    ensures l.Preserved(fs0, fs')
  {
    assert Incomparable(l.staging, l.root) && Incomparable(l.staging, l.previous) && Incomparable(l.staging, l.marker);
    forall m | m in l.mounts && Exists(fs0, m.source) ensures SameTree(fs0, fs', m.source) {
      assert SameTree(fs, fs', m.source);
    }
  }

  lemma PreservedTwice(l: Layout, fs0: Fs, fs: Fs, fs': Fs)
    requires l.Preserved(fs0, fs) && l.Preserved(fs, fs')
    ensures l.Preserved(fs0, fs')
  {
    forall m | m in l.mounts && Exists(fs0, m.source) ensures SameTree(fs0, fs', m.source) {
      assert SameTree(fs0, fs, m.source);
      assert m.source + [] == m.source;
    }
  }

  /** What the frame leaves alone includes every persistent directory. */
  lemma FrameKeepsPersistent(l: Layout, fs: Fs, fs': Fs, m: Mount, t: Tree)
    requires l.Disjoint() && m in l.mounts && l.Frame(fs, fs') && TreeAt(fs, m.source, t)
    ensures TreeAt(fs', m.source, t)
  {
    forall rel: Path ensures fs'(m.source + rel) == t(rel) {
      BelowOne(l.root, m.source, rel);
      BelowOne(l.staging, m.source, rel);
      BelowOne(l.previous, m.source, rel);
      BelowOne(l.marker, m.source, rel);
    }
  }

  /**
   Why an activation must start with the tree at the root path: whatever clearing the
   previous path does below it, a tree is reachable afterwards exactly if it was at the
   root.
   */
  lemma ClearingPreviousKeepsOnlyTheRoot(l: Layout, fs: Fs, fs': Fs, t: Tree)
    requires l.Disjoint() && t([]).Some? && OnlyUnder(fs, fs', l.previous) && !Exists(fs', l.previous)
    ensures l.OldAt(fs', Some(t)) <==> TreeAt(fs, l.root, t)
  {
    OnlyUnderKeepsTree(fs, fs', l.previous, l.root, t);
    assert l.previous + [] == l.previous;
    assert fs'(l.previous + []) != t([]);
  }

  lemma RootTreeIsRoot(l: Layout, fs: Fs)
    ensures l.RootIs(fs, l.RootTree(fs))
  {
  }

  /** What has the tree of an earlier root has that root's tree. */
  lemma RootIsTransitive(l: Layout, fs: Fs, fs': Fs, tree: Option<Tree>)
    requires l.RootIs(fs, tree) && l.RootIs(fs', l.RootTree(fs))
    ensures l.RootIs(fs', tree)
  {
    if tree.Some? {
      forall rel: Path ensures fs'(l.root + rel) == tree.value(rel) {
        assert fs(l.root + rel) == tree.value(rel);
        assert TreeOf(fs, l.root)(rel) == fs(l.root + rel);
      }
    }
  }

  /** Since the `n`-th call one that could leave the old tree aside has failed. */
  ghost predicate Blocked(l: Layout, trace: seq<Event>, n: nat) {
    exists i :: n <= i < |trace| && l.Decisive(trace[i].call) && !trace[i].ok
  }

  lemma BlockedByLast(l: Layout, trace: seq<Event>, n: nat, e: Event)
    requires n <= |trace| && l.Decisive(e.call) && !e.ok
    ensures Blocked(l, trace + [e], n)
  {
    assert (trace + [e])[|trace|] == e;
  }

  lemma BlockedStays(l: Layout, trace: seq<Event>, trace': seq<Event>, m: nat, n: nat)
    requires trace <= trace' && m <= n && Blocked(l, trace, n)
    ensures Blocked(l, trace', m)
  {
    var i :| n <= i < |trace| && l.Decisive(trace[i].call) && !trace[i].ok;
    assert trace'[i] == trace[i];
  }

  // ---------------------------------------------------------------------------
  // Runs of system calls
  // ---------------------------------------------------------------------------

  /** What a system call may do to the file system, by its outcome. */
  ghost predicate Effect(l: Layout, before: Fs, e: Event) {
    match e.call
    case Remove(p) => OnlyUnder(before, e.fs, p) && (e.ok ==> !Exists(e.fs, p))
    case Rename(a, b) => if e.ok then Exists(before, a) && e.fs == Moved(before, a, b) else e.fs == before
    case Write(p) => OnlyUnder(before, e.fs, p) && (e.ok && p == l.marker ==> e.fs(p) == Some(File(MARKER)))
    case Make(p) => e.fs == if e.ok then WithDirs(before, p) else before
    case Check(p) => e.fs == before && (e.ok <==> before(p) == Some(Dir))
    case Poll(_) => e.fs == before
    case Launch => e.fs == before
    case Stop => e.fs == before
  }

  /** The file system after the first `n` calls of a run. */
  ghost function Reached(origin: Fs, trace: seq<Event>, n: nat): Fs
    requires n <= |trace|
  {
    if n == 0 then origin else trace[n - 1].fs
  }

  /** Each of the first `n` calls did to the file system what it may do. */
  ghost predicate GenuineRun(l: Layout, origin: Fs, trace: seq<Event>, n: nat)
    requires n <= |trace|
  {
    n > 0 ==> GenuineRun(l, origin, trace, n - 1) && Effect(l, Reached(origin, trace, n - 1), trace[n - 1])
  }

  lemma {:induction false} GenuinePrefix(l: Layout, origin: Fs, trace: seq<Event>, e: Event, n: nat)
    requires n <= |trace| && GenuineRun(l, origin, trace, n)
    ensures GenuineRun(l, origin, trace + [e], n)
  {
    if n > 0 {
      GenuinePrefix(l, origin, trace, e, n - 1);
      assert Reached(origin, trace + [e], n - 1) == Reached(origin, trace, n - 1);
    }
  }

  lemma GenuineMore(l: Layout, origin: Fs, trace: seq<Event>, e: Event)
    requires GenuineRun(l, origin, trace, |trace|) && Effect(l, Reached(origin, trace, |trace|), e)
    ensures GenuineRun(l, origin, trace + [e], |trace + [e]|)
    ensures Reached(origin, trace + [e], |trace + [e]|) == e.fs
  {
    GenuinePrefix(l, origin, trace, e, |trace|);
    assert Reached(origin, trace + [e], |trace|) == Reached(origin, trace, |trace|);
  }

  /** No call since the `n`-th has failed. */
  ghost predicate AllOk(trace: seq<Event>, n: nat) {
    forall i :: n <= i < |trace| ==> trace[i].ok
  }

  /** No call since the `n`-th has failed, apart from promotions and launches. */
  ghost predicate Flawless(l: Layout, trace: seq<Event>, n: nat) {
    forall i :: n <= i < |trace| ==> trace[i].ok || trace[i].call in {Rename(l.staging, l.root), Launch}
  }

  /** The last call tried to launch a runtime, and one is recorded if it succeeded. */
  ghost predicate LaunchedLast(trace: seq<Event>, runtime: Option<nat>) {
    |trace| > 0 && trace[|trace| - 1].call == Launch && (runtime.Some? <==> trace[|trace| - 1].ok)
  }

  /**
   An activation that provisioned leaves its runtime recorded. One that failed leaves
   none, except that the launch after a restore may have succeeded.
   */
  ghost predicate LeavesRunning(r: Activation, hadExistingRoot: bool, trace: seq<Event>, runtime: Option<nat>) {
    if Provisioned(r) then runtime.Some?
    else if r.stage == Start && hadExistingRoot then LaunchedLast(trace, runtime)
    else runtime.None?
  }

  lemma OneCall(l: Layout, trace: seq<Event>, e: Event)
    ensures AllOk(trace + [e], |trace|) <==> e.ok
    ensures Flawless(l, trace + [e], |trace|) <==> e.ok || e.call in {Rename(l.staging, l.root), Launch}
  {
    assert (trace + [e])[|trace|] == e;
  }

  lemma MoreCalls(l: Layout, trace: seq<Event>, trace': seq<Event>, trace'': seq<Event>)
    requires trace <= trace' <= trace''
    ensures AllOk(trace'', |trace|) <==> AllOk(trace', |trace|) && AllOk(trace'', |trace'|)
    ensures Flawless(l, trace'', |trace|) <==> Flawless(l, trace', |trace|) && Flawless(l, trace'', |trace'|)
    ensures AllOk(trace', |trace|) ==> Flawless(l, trace', |trace|)
  {
    assert forall i :: 0 <= i < |trace'| ==> trace''[i] == trace'[i];
  }

  // ---------------------------------------------------------------------------
  // The order of the calls
  // ---------------------------------------------------------------------------

  /** The calls from the `n`-th on, up to and including the first that failed. */
  ghost function UpToFailure(trace: seq<Event>, n: nat): seq<Call>
    decreases |trace| - n
  {
    if |trace| <= n then [] else [trace[n].call] + if trace[n].ok then UpToFailure(trace, n + 1) else []
  }

  /** What follows a failure does not count. */
  lemma {:induction false} UpToFailureMore(trace: seq<Event>, trace': seq<Event>, n: nat)
    requires trace <= trace' && n <= |trace|
    ensures UpToFailure(trace', n) ==
            UpToFailure(trace, n) + if AllOk(trace, n) then UpToFailure(trace', |trace|) else []
    decreases |trace| - n
  {
    if n == |trace| {
      assert AllOk(trace, n);
    } else if trace[n].ok {
      UpToFailureMore(trace, trace', n + 1);
      assert AllOk(trace, n) <==> AllOk(trace, n + 1);
      Associative([trace[n].call], UpToFailure(trace, n + 1),
                  if AllOk(trace, n) then UpToFailure(trace', |trace|) else []);
    } else {
      assert !AllOk(trace, n);
    }
  }

  /**
   The calls since the `n`-th are those of the plan, in its order, up to and including
   the first that fails; if none fails they are the whole plan.
   */
  ghost predicate Keeps(trace: seq<Event>, n: nat, plan: seq<Call>) {
    if AllOk(trace, n) then UpToFailure(trace, n) == plan else UpToFailure(trace, n) <= plan
  }

  lemma KeepsOne(trace: seq<Event>, e: Event)
    ensures Keeps(trace + [e], |trace|, [e.call])
  {
    assert UpToFailure(trace + [e], |trace| + 1) == [];
  }

  /** One plan after the other. */
  lemma KeepsBoth(trace: seq<Event>, trace': seq<Event>, trace'': seq<Event>, first: seq<Call>, second: seq<Call>)
    requires trace <= trace' <= trace'' && Keeps(trace', |trace|, first)
    requires AllOk(trace', |trace|) ==> Keeps(trace'', |trace'|, second)
    ensures Keeps(trace'', |trace|, first + second)
  {
    UpToFailureMore(trace', trace'', |trace|);
    assert forall i :: 0 <= i < |trace'| ==> trace''[i] == trace'[i];
  }

  /**
   Making sure that there is a runtime. A recorded one is polled first; a launch follows
   unless the poll fails or finds it alive.
   */
  ghost predicate Restarts(trace: seq<Event>, n: nat, recorded: Option<nat>, ok: bool) {
    if recorded.None? then
      |trace| == n + 1 && trace[n].call == Launch && ok == trace[n].ok
    else
      && n < |trace| && trace[n].call.Poll?
      && if trace[n].ok && !trace[n].call.alive then
           |trace| == n + 2 && trace[n + 1].call == Launch && ok == trace[n + 1].ok
         else
           |trace| == n + 1 && ok == trace[n].ok
  }

  /** Setting the old root aside, if there is one. */
  function AsidePlan(l: Layout, existed: bool): seq<Call> {
    [Stop, Remove(l.previous)] + if existed then [Rename(l.root, l.previous)] else []
  }

  /** Starting the promoted tree. */
  function StartPlan(l: Layout): seq<Call> { [Write(l.marker), Launch, Remove(l.previous)] }

  /** Making the staged tree the root and starting it. */
  function PromotePlan(l: Layout): seq<Call> { [Rename(l.staging, l.root)] + StartPlan(l) }

  function ActivationPlan(l: Layout, existed: bool): seq<Call> { AsidePlan(l, existed) + PromotePlan(l) }

  /** The staging path is cleared and created and the archive extracted there. */
  function ExtractPlan(l: Layout): seq<Call> { [Remove(l.staging), Make(l.staging), Write(l.staging)] }

  ghost predicate LaysOutBy(l: Layout, trace: seq<Event>, n: nat, states: seq<Fs>) {
    |states| <= |l.mounts| && Keeps(trace, n, l.LayoutPlan(states))
  }

  /** The calls since the `n`-th prepare the mounts, up to the first that fails. */
  ghost predicate LaysOut(l: Layout, trace: seq<Event>, n: nat) {
    exists states: seq<Fs> :: |states| == |l.mounts| && LaysOutBy(l, trace, n, states)
  }

  /** They stage an archive, up to the first that fails. */
  ghost predicate Stages(l: Layout, trace: seq<Event>, n: nat) {
    exists states :: StagesBy(l, trace, n, states)
  }

  ghost predicate StagesBy(l: Layout, trace: seq<Event>, n: nat, states: seq<Fs>) {
    |states| == |l.mounts| && Keeps(trace, n, ExtractPlan(l) + l.LayoutPlan(states))
  }

  /** They stage an archive and activate it, up to the first that fails. */
  ghost predicate Provisions(l: Layout, trace: seq<Event>, n: nat, existed: bool) {
    exists states :: ProvisionsBy(l, trace, n, existed, states)
  }

  ghost predicate ProvisionsBy(l: Layout, trace: seq<Event>, n: nat, existed: bool, states: seq<Fs>) {
    |states| == |l.mounts| && Keeps(trace, n, ExtractPlan(l) + l.LayoutPlan(states) + ActivationPlan(l, existed))
  }

  lemma StaysPlanned(l: Layout, trace: seq<Event>, n: nat, states: seq<Fs>)
    requires LaysOutBy(l, trace, n, states) && !AllOk(trace, n)
    ensures LaysOut(l, trace, n)
    decreases |l.mounts| - |states|
  {
    if |states| < |l.mounts| {
      var more := states + [(k: Path) => None];
      Appended(states, more[|states|]);
      StaysPlanned(l, trace, n, more);
    }
  }

  lemma OneMoreMount(l: Layout, trace: seq<Event>, trace': seq<Event>, trace'': seq<Event>, states: seq<Fs>, fs: Fs)
    requires trace <= trace' <= trace'' && |states| < |l.mounts| && LaysOutBy(l, trace', |trace|, states)
    requires Keeps(trace'', |trace'|, l.MountPlan(fs, l.mounts[|states|]))
    ensures LaysOutBy(l, trace'', |trace|, states + [fs])
  {
    KeepsBoth(trace, trace', trace'', l.LayoutPlan(states), l.MountPlan(fs, l.mounts[|states|]));
    Appended(states, fs);
  }

  lemma NotStaged(l: Layout, trace: seq<Event>, trace': seq<Event>)
    requires trace <= trace' && Keeps(trace', |trace|, ExtractPlan(l)) && !AllOk(trace', |trace|)
    ensures Stages(l, trace', |trace|)
  {
    var states := seq(|l.mounts|, i => (k: Path) => None);
    KeepsBoth(trace, trace', trace', ExtractPlan(l), l.LayoutPlan(states));
    assert StagesBy(l, trace', |trace|, states);
  }

  lemma AlsoPrepared(l: Layout, trace: seq<Event>, trace': seq<Event>, trace'': seq<Event>)
    requires trace <= trace' <= trace'' && Keeps(trace', |trace|, ExtractPlan(l))
    requires LaysOut(l, trace'', |trace'|)
    ensures Stages(l, trace'', |trace|)
    ensures AllOk(trace'', |trace|) <==> AllOk(trace', |trace|) && AllOk(trace'', |trace'|)
  {
    MoreCalls(l, trace, trace', trace'');
    var states :| |states| == |l.mounts| && LaysOutBy(l, trace'', |trace'|, states);
    KeepsBoth(trace, trace', trace'', ExtractPlan(l), l.LayoutPlan(states));
    assert StagesBy(l, trace'', |trace|, states);
  }

  lemma AlsoActivated(l: Layout, trace: seq<Event>, trace': seq<Event>, trace'': seq<Event>, existed: bool)
    requires trace <= trace' <= trace'' && Stages(l, trace', |trace|)
    requires AllOk(trace', |trace|) ==> Keeps(trace'', |trace'|, ActivationPlan(l, existed))
    ensures Provisions(l, trace'', |trace|, existed)
  {
    var states :| StagesBy(l, trace', |trace|, states);
    KeepsBoth(trace, trace', trace'', ExtractPlan(l) + l.LayoutPlan(states), ActivationPlan(l, existed));
    assert ProvisionsBy(l, trace'', |trace|, existed, states);
  }

  // ---------------------------------------------------------------------------
  // The tree that was provisioned last
  // ---------------------------------------------------------------------------

  /** The tree that was provisioned last, and the one that has been promoted and not started yet. */
  datatype Standing = Standing(current: Option<Tree>, candidate: Option<Tree>)

  /**
   A promotion makes the tree at the root path the candidate; a launch makes the
   candidate the tree provisioned last; removing the root, or renaming the previous
   tree over it, takes the candidate back.
   */
  ghost function Follow(l: Layout, s: Standing, e: Event): Standing {
    if !e.ok then s
    else if e.call == Rename(l.staging, l.root) then s.(candidate := Some(TreeOf(e.fs, l.root)))
    else if e.call == Launch && s.candidate.Some? then Standing(s.candidate, None)
    else if e.call == Remove(l.root) || e.call == Rename(l.previous, l.root) then s.(candidate := None)
    else s
  }

  /** What the calls from the `n`-th on make of a standing. */
  ghost function Fold(l: Layout, s: Standing, trace: seq<Event>, n: nat): Standing {
    if |trace| <= n then s else Follow(l, Fold(l, s, trace[..|trace| - 1], n), trace[|trace| - 1])
  }

  lemma FoldLast(l: Layout, s: Standing, trace: seq<Event>, n: nat, e: Event)
    requires n <= |trace|
    ensures Fold(l, s, trace + [e], n) == Follow(l, Fold(l, s, trace, n), e)
  {
    Appended(trace, e);
  }

  lemma {:induction false} FoldMore(l: Layout, s: Standing, trace: seq<Event>, trace': seq<Event>, n: nat)
    requires n <= |trace| && trace <= trace'
    ensures Fold(l, s, trace', n) == Fold(l, Fold(l, s, trace, n), trace', |trace|)
    decreases |trace'|
  {
    if |trace| < |trace'| {
      FoldMore(l, s, trace, trace'[..|trace'| - 1], n);
    } else {
      assert trace == trace';
    }
  }

  /** Without a launch the tree provisioned last stays the same. */
  lemma {:induction false} NoLaunchNoChange(l: Layout, s: Standing, trace: seq<Event>, n: nat)
    requires forall i :: n <= i < |trace| ==> trace[i].call != Launch
    ensures Fold(l, s, trace, n).current == s.current
  {
    if n < |trace| { NoLaunchNoChange(l, s, trace[..|trace| - 1], n); }
  }

  /** None of the calls since bears on which tree was provisioned last. */
  ghost predicate Quiet(l: Layout, trace: seq<Event>, trace': seq<Event>) {
    && trace <= trace'
    && forall i :: |trace| <= i < |trace'| ==>
         || !trace'[i].ok
         || trace'[i].call !in {Rename(l.staging, l.root), Rename(l.previous, l.root), Remove(l.root), Launch}
  }

  lemma {:induction false} QuietFold(l: Layout, s: Standing, trace: seq<Event>, trace': seq<Event>)
    requires Quiet(l, trace, trace')
    ensures Fold(l, s, trace', |trace|) == s
    decreases |trace'|
  {
    if |trace| < |trace'| {
      var init := trace'[..|trace'| - 1];
      assert forall i :: 0 <= i < |init| ==> init[i] == trace'[i];
      QuietFold(l, s, trace, init);
    }
  }

  /** Whatever the candidate was, it has been taken back. */
  ghost predicate TakesBack(l: Layout, trace: seq<Event>, trace': seq<Event>) {
    trace <= trace' && forall s :: Fold(l, s, trace', |trace|) == Standing(s.current, None)
  }

  /** The candidate, if there was one, has become the tree provisioned last. */
  ghost predicate Commits(l: Layout, trace: seq<Event>, trace': seq<Event>) {
    && trace <= trace'
    && forall s: Standing :: s.candidate.Some? ==> Fold(l, s, trace', |trace|) == Standing(s.candidate, None)
  }

  lemma TakesBackNow(l: Layout, trace: seq<Event>, e: Event)
    requires l.Disjoint() && e.ok && (e.call == Remove(l.root) || e.call == Rename(l.previous, l.root))
    ensures TakesBack(l, trace, trace + [e])
  {
    forall s ensures Fold(l, s, trace + [e], |trace|) == Standing(s.current, None) {
      FoldLast(l, s, trace, |trace|, e);
    }
  }

  /** Calls that change nothing when there is no candidate. */
  ghost predicate Inert(l: Layout, trace: seq<Event>, trace': seq<Event>) {
    trace <= trace' && forall s: Standing :: s.candidate.None? ==> Fold(l, s, trace', |trace|) == s
  }

  lemma QuietTwice(l: Layout, trace: seq<Event>, trace': seq<Event>, trace'': seq<Event>)
    requires Quiet(l, trace, trace') && Quiet(l, trace', trace'')
    ensures Quiet(l, trace, trace'')
  {
    assert forall i :: 0 <= i < |trace'| ==> trace''[i] == trace'[i];
  }

  lemma QuietIsInert(l: Layout, trace: seq<Event>, trace': seq<Event>)
    requires Quiet(l, trace, trace')
    ensures Inert(l, trace, trace')
  {
    forall s: Standing | s.candidate.None? ensures Fold(l, s, trace', |trace|) == s { QuietFold(l, s, trace, trace'); }
  }

  lemma LaunchIsInert(l: Layout, trace: seq<Event>, e: Event)
    requires e.call == Launch
    ensures Inert(l, trace, trace + [e])
  {
    forall s: Standing | s.candidate.None? ensures Fold(l, s, trace + [e], |trace|) == s {
      FoldLast(l, s, trace, |trace|, e);
    }
  }

  lemma TakesBackIsInert(l: Layout, trace: seq<Event>, trace': seq<Event>)
    requires TakesBack(l, trace, trace')
    ensures Inert(l, trace, trace')
  {
  }

  lemma StaysTakenBack(l: Layout, trace: seq<Event>, trace': seq<Event>, trace'': seq<Event>)
    requires TakesBack(l, trace, trace') && Inert(l, trace', trace'')
    ensures TakesBack(l, trace, trace'')
  {
    forall s ensures Fold(l, s, trace'', |trace|) == Standing(s.current, None) {
      FoldMore(l, s, trace', trace'', |trace|);
      assert Fold(l, s, trace', |trace|) == Standing(s.current, None);
    }
  }

  lemma QuietThenTakesBack(l: Layout, trace: seq<Event>, trace': seq<Event>, trace'': seq<Event>)
    requires Quiet(l, trace, trace') && TakesBack(l, trace', trace'')
    ensures TakesBack(l, trace, trace'')
  {
    forall s ensures Fold(l, s, trace'', |trace|) == Standing(s.current, None) {
      FoldMore(l, s, trace', trace'', |trace|);
      QuietFold(l, s, trace, trace');
      assert Fold(l, s, trace'', |trace'|) == Standing(s.current, None);
    }
  }

  /** A promotion that is taken back. */
  lemma TakenBackAgain(l: Layout, trace: seq<Event>, aside: seq<Event>, e: Event, trace': seq<Event>)
    requires Quiet(l, trace, aside) && e.call == Rename(l.staging, l.root) && TakesBack(l, aside + [e], trace')
    ensures TakesBack(l, trace, trace')
  {
    forall s ensures Fold(l, s, trace', |trace|) == Standing(s.current, None) {
      FoldMore(l, s, aside + [e], trace', |trace|);
      FoldLast(l, s, aside, |trace|, e);
      QuietFold(l, s, trace, aside);
      assert Fold(l, Follow(l, s, e), trace', |aside + [e]|) == Standing(s.current, None);
    }
  }

  /** A launch commits, whatever quiet calls come before and after it. */
  lemma LaunchCommits(l: Layout, trace: seq<Event>, marked: seq<Event>, e: Event, trace': seq<Event>)
    requires Quiet(l, trace, marked) && e.ok && e.call == Launch && Quiet(l, marked + [e], trace')
    ensures Commits(l, trace, trace')
  {
    forall s: Standing | s.candidate.Some? ensures Fold(l, s, trace', |trace|) == Standing(s.candidate, None) {
      FoldMore(l, s, marked + [e], trace', |trace|);
      FoldLast(l, s, marked, |trace|, e);
      QuietFold(l, s, trace, marked);
      QuietFold(l, Standing(s.candidate, None), marked + [e], trace');
    }
  }

  /** Nothing is pending and the root path holds the tree provisioned last. */
  ghost predicate Stands(l: Layout, s: Standing, fs: Fs) { s.candidate.None? && l.RootIs(fs, s.current) }

  /**
   The root path follows the calls: if it held the tree provisioned last before them, it
   holds the tree provisioned last after them, unless a call that can leave the old tree
   aside has failed.
   */
  ghost predicate Follows(l: Layout, fs: Fs, trace: seq<Event>, fs': Fs, trace': seq<Event>) {
    trace <= trace' && (!Blocked(l, trace', |trace|) ==>
                          forall s :: Stands(l, s, fs) ==> Stands(l, Fold(l, s, trace', |trace|), fs'))
  }

  lemma SameRootTree(l: Layout, fs: Fs, fs': Fs, old0: Option<Tree>, tree: Option<Tree>)
    requires l.RootIs(fs, old0) && l.RootIs(fs', old0) && l.RootIs(fs, tree)
    ensures l.RootIs(fs', tree)
  {
    if tree.Some? {
      forall rel: Path ensures fs'(l.root + rel) == tree.value(rel) {
        assert fs(l.root + rel) == old0.value(rel) == fs'(l.root + rel);
      }
    }
  }

  lemma KeptRootFollows(l: Layout, fs: Fs, trace: seq<Event>, fs': Fs, trace': seq<Event>, old0: Option<Tree>)
    requires l.RootIs(fs, old0) && l.RootIs(fs', old0)
    requires Quiet(l, trace, trace') || TakesBack(l, trace, trace')
    ensures Follows(l, fs, trace, fs', trace')
  {
    forall s | Stands(l, s, fs) ensures Stands(l, Fold(l, s, trace', |trace|), fs') {
      SameRootTree(l, fs, fs', old0, s.current);
      if Quiet(l, trace, trace') { QuietFold(l, s, trace, trace'); }
    }
  }

  /** The tree at the root path was promoted by a call since the `n`-th. */
  ghost predicate Promoted(l: Layout, trace: seq<Event>, n: nat, fs: Fs) {
    exists i :: n <= i < |trace| && trace[i].ok && trace[i].call == Rename(l.staging, l.root)
      && l.RootIs(fs, Some(TreeOf(trace[i].fs, l.root)))
  }

  lemma NewRootFollows(l: Layout, fs: Fs, trace: seq<Event>, aside: seq<Event>, e: Event, fs': Fs,
                       trace': seq<Event>, staged: Tree)
    requires Quiet(l, trace, aside) && e.ok && e.call == Rename(l.staging, l.root)
    requires l.RootIs(e.fs, Some(staged)) && l.RootIs(fs', Some(staged)) && Commits(l, aside + [e], trace')
    ensures Follows(l, fs, trace, fs', trace') && Promoted(l, trace', |trace|, fs')
  {
    RootTreeIsRoot(l, e.fs);
    SameRootTree(l, e.fs, fs', Some(staged), Some(TreeOf(e.fs, l.root)));
    assert trace'[|aside|] == (aside + [e])[|aside|] == e;
    forall s | Stands(l, s, fs) ensures Stands(l, Fold(l, s, trace', |trace|), fs') {
      FoldMore(l, s, aside + [e], trace', |trace|);
      FoldLast(l, s, aside, |trace|, e);
      QuietFold(l, s, trace, aside);
    }
  }

  lemma StartedAndDropped(l: Layout, trace0: seq<Event>, marked: seq<Event>, e: Event, trace: seq<Event>, ok: bool)
    requires Quiet(l, trace0, marked) && e.call == Launch && e.ok && Quiet(l, marked + [e], trace)
    requires Keeps(trace, |marked + [e]|, [Remove(l.previous)]) && (ok <==> AllOk(trace, |marked + [e]|))
    ensures Commits(l, trace0, trace) && (ok <==> AllOk(trace, |marked|))
    ensures Keeps(trace, |marked|, [Launch, Remove(l.previous)])
  {
    OneCall(l, marked, e);
    MoreCalls(l, marked, marked + [e], trace);
    LaunchCommits(l, trace0, marked, e, trace);
    KeepsOne(marked, e);
    KeepsBoth(marked, marked + [e], trace, [Launch], [Remove(l.previous)]);
  }

  lemma NotStarted(l: Layout, trace0: seq<Event>, marked: seq<Event>, e: Event, trace: seq<Event>, r: Restore)
    requires Quiet(l, trace0, marked) && e.call == Launch && !e.ok && marked + [e] <= trace
    requires if r.StillAside? then Blocked(l, trace, |marked + [e]|) else TakesBack(l, marked + [e], trace)
    requires r.Complete? <==> Flawless(l, trace, |marked + [e]|)
    ensures if r.StillAside? then Blocked(l, trace, |marked|) else TakesBack(l, trace0, trace)
    ensures r.Complete? <==> Flawless(l, trace, |marked|)
    ensures !AllOk(trace, |marked|) && Keeps(trace, |marked|, [Launch, Remove(l.previous)])
  {
    OneCall(l, marked, e);
    MoreCalls(l, marked, marked + [e], trace);
    KeepsOne(marked, e);
    KeepsBoth(marked, marked + [e], trace, [Launch], [Remove(l.previous)]);
    if r.StillAside? {
      BlockedStays(l, trace, trace, |marked|, |marked + [e]|);
    } else {
      QuietThenTakesBack(l, trace0, marked + [e], trace);
    }
  }

  /** After a promotion, however starting it ends. */
  lemma StartFollows(l: Layout, fs0: Fs, trace0: seq<Event>, aside: seq<Event>, e: Event, fs: Fs, trace: seq<Event>,
                     r: Activation, old0: Option<Tree>, staged: Tree)
    requires l.RootIs(fs0, old0) && Quiet(l, trace0, aside) && aside + [e] <= trace
    requires e.ok && e.call == Rename(l.staging, l.root) && l.RootIs(e.fs, Some(staged))
    requires LeavesAside(r) ==> Blocked(l, trace, |aside + [e]|)
    requires Provisioned(r) ==> Commits(l, aside + [e], trace) && l.RootIs(fs, Some(staged))
    requires !Provisioned(r) && !LeavesAside(r) ==> TakesBack(l, aside + [e], trace) && l.RootIs(fs, old0)
    ensures Follows(l, fs0, trace0, fs, trace) && (LeavesAside(r) ==> Blocked(l, trace, |trace0|))
    ensures Provisioned(r) ==> Promoted(l, trace, |trace0|, fs)
  {
    assert trace0 <= aside <= aside + [e] <= trace;
    if Provisioned(r) {
      NewRootFollows(l, fs0, trace0, aside, e, fs, trace, staged);
    } else if LeavesAside(r) {
      BlockedStays(l, trace, trace, |trace0|, |aside + [e]|);
    } else {
      TakenBackAgain(l, trace0, aside, e, trace);
      KeptRootFollows(l, fs0, trace0, fs, trace, old0);
    }
  }

  /** After a promotion that failed, however the restore ends. */
  lemma RestoreFollows(l: Layout, fs0: Fs, trace0: seq<Event>, aside: seq<Event>, e: Event, fs: Fs,
                       trace: seq<Event>, r: Restore, old0: Option<Tree>)
    requires l.RootIs(fs0, old0) && Quiet(l, trace0, aside) && aside + [e] <= trace && !e.ok
    requires if r.StillAside? then Blocked(l, trace, |aside + [e]|) else TakesBack(l, aside + [e], trace)
    requires !r.StillAside? ==> l.RootIs(fs, old0)
    ensures Follows(l, fs0, trace0, fs, trace) && (r.StillAside? ==> Blocked(l, trace, |trace0|))
  {
    assert trace0 <= aside <= aside + [e] <= trace;
    if r.StillAside? {
      BlockedStays(l, trace, trace, |trace0|, |aside + [e]|);
    } else {
      QuietThenTakesBack(l, trace0, aside + [e], trace);
      KeptRootFollows(l, fs0, trace0, fs, trace, old0);
    }
  }

  lemma BlockedSomewhere(l: Layout, trace: seq<Event>, trace': seq<Event>, trace'': seq<Event>)
    requires trace <= trace' <= trace''
    ensures Blocked(l, trace', |trace|) || Blocked(l, trace'', |trace'|) ==> Blocked(l, trace'', |trace|)
  {
    if Blocked(l, trace', |trace|) { BlockedStays(l, trace', trace'', |trace|, |trace|); }
    if Blocked(l, trace'', |trace'|) { BlockedStays(l, trace'', trace'', |trace|, |trace'|); }
  }

  lemma FollowsTransitive(l: Layout, fs: Fs, trace: seq<Event>, fs': Fs, trace': seq<Event>, fs'': Fs,
                          trace'': seq<Event>)
    requires Follows(l, fs, trace, fs', trace') && Follows(l, fs', trace', fs'', trace'')
    ensures Follows(l, fs, trace, fs'', trace'')
  {
    BlockedSomewhere(l, trace, trace', trace'');
    if !Blocked(l, trace'', |trace|) {
      forall s | Stands(l, s, fs) ensures Stands(l, Fold(l, s, trace'', |trace|), fs'') {
        FoldMore(l, s, trace', trace'', |trace|);
        assert Stands(l, Fold(l, s, trace', |trace|), fs');
      }
    }
  }

  lemma InertFollows(l: Layout, fs: Fs, trace: seq<Event>, trace': seq<Event>)
    requires Inert(l, trace, trace')
    ensures Follows(l, fs, trace, fs, trace')
  {
  }

  lemma NothingFollows(l: Layout, fs: Fs, trace: seq<Event>)
    ensures Follows(l, fs, trace, fs, trace)
  {
  }

  lemma RestartFollows(l: Layout, fs: Fs, trace: seq<Event>, trace': seq<Event>, recorded: Option<nat>, ok: bool)
    requires trace <= trace' && Restarts(trace', |trace|, recorded, ok)
    ensures Follows(l, fs, trace, fs, trace')
  {
    if |trace'| == |trace| + 1 {
      assert trace' == trace + [trace'[|trace|]];
      InertCall(l, trace, trace'[|trace|]);
    } else {
      var polled := trace + [trace'[|trace|]];
      assert trace' == polled + [trace'[|polled|]];
      InertCall(l, trace, trace'[|trace|]);
      InertCall(l, polled, trace'[|polled|]);
      FollowsTransitive(l, fs, trace, fs, polled, fs, trace');
    }
  }

  lemma InertCall(l: Layout, trace: seq<Event>, e: Event)
    requires e.call == Launch || e.call.Poll?
    ensures forall fs :: Follows(l, fs, trace, fs, trace + [e])
  {
    if e.call == Launch { LaunchIsInert(l, trace, e); } else { QuietIsInert(l, trace, trace + [e]); }
  }

  /** Staging leaves the root where it is. */
  lemma StagingFollows(l: Layout, fs: Fs, trace: seq<Event>, fs': Fs, trace': seq<Event>)
    requires SameTree(fs, fs', l.root) && Quiet(l, trace, trace')
    ensures Follows(l, fs, trace, fs', trace')
  {
    assert l.root + [] == l.root;
    RootTreeIsRoot(l, fs);
    KeptRootFollows(l, fs, trace, fs', trace', l.RootTree(fs));
  }

  /** What staging has prepared is what the root holds once it has been activated. */
  lemma StagedIsRoot(l: Layout, between: Fs, fs: Fs, staged: Tree, extracted: Fs)
    requires l.Disjoint() && l.Frame(between, fs) && staged == TreeOf(between, l.staging) && TreeAt(fs, l.root, staged)
    requires l.HasTargets(between, |l.mounts|) && l.StagedElsewhere(extracted, between)
    requires l.HasSources(between, |l.mounts|)
    ensures l.CanMount(fs) && l.Arrived(extracted, fs)
  {
    forall rel: Path ensures fs(l.root + rel) == between(l.staging + rel) {
      assert fs(l.root + rel) == staged(rel);
    }
    forall i | 0 <= i < |l.mounts| ensures fs(l.mounts[i].source) == Some(Dir) {
      assert l.mounts[i] in l.mounts && fs(l.mounts[i].source) == between(l.mounts[i].source);
    }
  }

  lemma PromotedSince(l: Layout, trace: seq<Event>, m: nat, n: nat, fs: Fs)
    requires m <= n && Promoted(l, trace, n, fs)
    ensures Promoted(l, trace, m, fs)
  {
  }

  /** What the manager sees and knows between two requests, and the calls up to then. */
  datatype Moment = Moment(fs: Fs, runtime: Option<nat>, trace: seq<Event>)

  /**
   What the manager does when it is asked, from the file system and the recorded runtime
   it finds, and whether it reports success.
   */
  ghost predicate Answered(l: Layout, before: Moment, request: Request, ok: bool, after: Moment) {
    match request
    case Provision => Installed(l, before, ok, after)
    case Reconnect =>
      if Exists(before.fs, l.marker) then Restarted(before, ok, after)
      else !ok && after == before
    case StartReady =>
      if Exists(before.fs, l.marker) then Restarted(before, ok, after)
      else ok && after == before
    case Shutdown =>
      && ok && after.runtime.None? && after.fs == before.fs
      && if before.runtime.Some? then StopsOnly(after.trace, |before.trace|) else after.trace == before.trace
  }

  predicate StopsOnly(trace: seq<Event>, n: nat) { |trace| == n + 1 && trace[n].call == Stop }

  /** The archive is provisioned if no call fails, and then it is at the root, ready and running. */
  ghost predicate Installed(l: Layout, before: Moment, ok: bool, after: Moment) {
    var n, trace := |before.trace|, after.trace;
    && Provisions(l, trace, n, Exists(before.fs, l.root)) && (ok <==> AllOk(trace, n))
    && (ok ==> after.runtime.Some? && l.CanMount(after.fs))
    && (ok ==> |trace| > n + 2 && l.Arrived(trace[n + 2].fs, after.fs))
  }

  ghost predicate Restarted(before: Moment, ok: bool, after: Moment) {
    && Restarts(after.trace, |before.trace|, before.runtime, ok) && after.fs == before.fs
    && (ok ==> after.runtime.Some?)
  }

  lemma NotInstalled(l: Layout, before: Moment, after: Moment)
    requires before.trace <= after.trace && Stages(l, after.trace, |before.trace|)
    requires !AllOk(after.trace, |before.trace|)
    ensures Installed(l, before, false, after)
  {
    AlsoActivated(l, before.trace, after.trace, after.trace, Exists(before.fs, l.root));
  }

  /** The archive has been staged, and no call failed. */
  ghost predicate StagedSince(l: Layout, before: Moment, after: Moment) {
    var n, trace := |before.trace|, after.trace;
    && before.trace <= trace && |trace| > n + 2 && AllOk(trace, n) && Stages(l, trace, n)
    && l.StagedElsewhere(trace[n + 2].fs, after.fs) && l.HasTargets(after.fs, |l.mounts|)
    && l.HasSources(after.fs, |l.mounts|)
    && (Exists(after.fs, l.root) <==> Exists(before.fs, l.root))
  }

  lemma NowStaged(l: Layout, before: Moment, extracted: Moment, after: Moment)
    requires before.trace <= extracted.trace <= after.trace && |extracted.trace| == |before.trace| + 3
    requires AllOk(after.trace, |before.trace|) && Stages(l, after.trace, |before.trace|)
    requires extracted.trace[|before.trace| + 2].fs == extracted.fs && l.StagedElsewhere(extracted.fs, after.fs)
    requires l.HasSources(after.fs, |l.mounts|) && l.HasTargets(after.fs, |l.mounts|)
    requires Exists(after.fs, l.root) <==> Exists(before.fs, l.root)
    ensures StagedSince(l, before, after)
  {
  }

  lemma NowInstalled(l: Layout, before: Moment, staged: Moment, ok: bool, after: Moment)
    requires l.Disjoint() && StagedSince(l, before, staged) && staged.trace <= after.trace
    requires Keeps(after.trace, |staged.trace|, ActivationPlan(l, Exists(staged.fs, l.root)))
    requires l.Frame(staged.fs, after.fs) && (ok <==> AllOk(after.trace, |staged.trace|))
    requires ok ==> after.runtime.Some? && TreeAt(after.fs, l.root, TreeOf(staged.fs, l.staging))
    ensures Installed(l, before, ok, after)
  {
    MoreCalls(l, before.trace, staged.trace, after.trace);
    AlsoActivated(l, before.trace, staged.trace, after.trace, Exists(before.fs, l.root));
    if ok {
      StagedIsRoot(l, staged.fs, after.fs, TreeOf(staged.fs, l.staging), staged.trace[|before.trace| + 2].fs);
    }
  }

  /** Each request is answered from where the one before it ended. */
  ghost predicate Served(l: Layout, before: Moment, requests: seq<Request>, oks: seq<bool>, after: Moment)
    decreases |requests|
  {
    && |oks| == |requests|
    && if requests == [] then after == before else
         var n := |requests| - 1;
         exists between :: Served(l, before, requests[..n], oks[..n], between) && between.trace <= after.trace
           && Answered(l, between, requests[n], oks[n], after)
  }

  lemma SourcesExist(l: Layout, fs: Fs, fs': Fs)
    requires forall m :: m in l.mounts && Exists(fs, m.source) ==> SameTree(fs, fs', m.source)
    ensures forall m :: m in l.mounts && Exists(fs, m.source) ==> Exists(fs', m.source)
  {
    forall m | m in l.mounts && Exists(fs, m.source) ensures Exists(fs', m.source) {
      assert m.source + [] == m.source;
    }
  }

  lemma OneMoreServed(l: Layout, before: Moment, requests: seq<Request>, i: nat, oks: seq<bool>, between: Moment,
                      ok: bool, after: Moment)
    requires i < |requests| && Served(l, before, requests[..i], oks, between) && between.trace <= after.trace
    requires Answered(l, between, requests[i], ok, after)
    ensures Served(l, before, requests[..i + 1], oks + [ok], after)
  {
    TakeMore(requests, i);
    Appended(requests[..i], requests[i]);
    Appended(oks, ok);
  }

  class SetupManager {
    const layout: Layout
    var fs: Fs
    var runtime: Option<nat>
    ghost var launches: nat
    ghost var trace: seq<Event>
    ghost const origin: Fs

    constructor (layout: Layout, fs: Fs)
      ensures this.layout == layout && this.fs == fs && runtime.None? && launches == 0 && trace == []
      ensures Genuine()
    {
      this.layout, this.fs, runtime, launches, trace, origin := layout, fs, None, 0, [], fs;
    }

    /** The file system is what the system calls so far have made of it. */
    ghost predicate Genuine()
      reads this
    {
      GenuineRun(layout, origin, trace, |trace|) && fs == Reached(origin, trace, |trace|)
    }

    ghost function Now(): Moment
      reads this
    {
      Moment(fs, runtime, trace)
    }

    ghost predicate SafeSince(n: nat, old0: Option<Tree>, launches0: nat)
      reads this
    {
      forall i :: n <= i < |trace| ==> layout.Safe(trace[i], old0, launches0)
    }

    // -------------------------------------------------------------------------
    // System calls
    // -------------------------------------------------------------------------

    /** `remove_path_if_exists`. */
    method RemovePath(p: Path) returns (ok: bool)
      requires Genuine()
      modifies this`fs, this`trace
      ensures Genuine()
      ensures OnlyUnder(old(fs), fs, p)
      ensures ok ==> !Exists(fs, p)
      ensures ok && Exists(old(fs), p) ==> fs == Without(old(fs), p)
      ensures !Exists(old(fs), p) ==> ok && fs == old(fs)
      ensures trace == old(trace) + [Event(Remove(p), ok, fs, runtime, launches)]
    {
      ok := true;
      if Exists(fs, p) {
        ok := *;
        var before := fs;
        if ok {
          fs := Without(before, p);
        } else {
          var kept: Path -> bool := *;
          fs := (k: Path) => if p <= k && !kept(k) then None else before(k);
        }
      }
      GenuineMore(layout, origin, trace, Event(Remove(p), ok, fs, runtime, launches));
      trace := trace + [Event(Remove(p), ok, fs, runtime, launches)];
    }

    method RenamePath(a: Path, b: Path) returns (ok: bool)
      requires Genuine()
      modifies this`fs, this`trace
      ensures Genuine()
      ensures ok ==> Exists(old(fs), a) && fs == Moved(old(fs), a, b)
      ensures !ok ==> fs == old(fs)
      ensures trace == old(trace) + [Event(Rename(a, b), ok, fs, runtime, launches)]
    {
      ok := *;
      ok := ok && Exists(fs, a);
      if ok {
        fs := Moved(fs, a, b);
      }
      GenuineMore(layout, origin, trace, Event(Rename(a, b), ok, fs, runtime, launches));
      trace := trace + [Event(Rename(a, b), ok, fs, runtime, launches)];
    }

    /** Writing the marker; a failing write may or may not have created it. */
    method StoreProvisionMarker() returns (ok: bool)
      requires Genuine()
      modifies this`fs, this`trace
      ensures Genuine()
      ensures OnlyUnder(old(fs), fs, layout.marker)
      ensures ok ==> fs(layout.marker) == Some(File(MARKER))
      ensures Exists(old(fs), layout.marker) ==> Exists(fs, layout.marker)
      ensures trace == old(trace) + [Event(Write(layout.marker), ok, fs, runtime, launches)]
    {
      ok := *;
      var created: bool := *;
      if ok || created {
        var before, marker := fs, layout.marker;
        fs := (k: Path) => if k == marker then Some(File(MARKER)) else before(k);
      }
      GenuineMore(layout, origin, trace, Event(Write(layout.marker), ok, fs, runtime, launches));
      trace := trace + [Event(Write(layout.marker), ok, fs, runtime, launches)];
    }

    method ClearProvisionMarker() returns (ok: bool)
      requires Genuine()
      modifies this`fs, this`trace
      ensures Genuine()
      ensures OnlyUnder(old(fs), fs, layout.marker)
      ensures ok ==> !Exists(fs, layout.marker)
      ensures !ok ==> fs == old(fs)
      ensures trace == old(trace) + [Event(Remove(layout.marker), ok, fs, runtime, launches)]
    {
      ok := *;
      if ok {
        var before, marker := fs, layout.marker;
        fs := (k: Path) => if k == marker then None else before(k);
      }
      GenuineMore(layout, origin, trace, Event(Remove(layout.marker), ok, fs, runtime, launches));
      trace := trace + [Event(Remove(layout.marker), ok, fs, runtime, launches)];
    }

    // -------------------------------------------------------------------------
    // The runtime
    // -------------------------------------------------------------------------

    /** Forgets and kills the recorded runtime; only clearing its fallback marker can fail. */
    method StopRuntime() returns (ok: bool)
      requires Genuine()
      modifies this`runtime, this`trace
      ensures Genuine()
      ensures runtime.None?
      ensures old(runtime).None? ==> ok
      ensures trace == old(trace) + [Event(Stop, ok, fs, runtime, launches)]
    {
      ok := true;
      if runtime.Some? {
        runtime := None;
        ok := *;
      }
      GenuineMore(layout, origin, trace, Event(Stop, ok, fs, runtime, launches));
      trace := trace + [Event(Stop, ok, fs, runtime, launches)];
    }

    /** Makes sure that a runtime is recorded, launching one unless the recorded one is alive. */
    method EnsureRuntimeStarted() returns (ok: bool)
      requires Genuine()
      modifies this`runtime, this`launches, this`trace
      ensures Genuine()
      ensures ok ==> runtime.Some?
      ensures old(runtime).None? ==> (ok <==> launches > old(launches)) && (!ok ==> runtime.None?)
      ensures launches >= old(launches)
      ensures old(runtime).None? ==> trace == old(trace) + [Event(Launch, ok, fs, runtime, launches)]
      ensures Restarts(trace, |old(trace)|, old(runtime), ok) && old(trace) <= trace
      ensures !ok ==> Quiet(layout, old(trace), trace)
    {
      if runtime.Some? {
        var pollOk: bool, alive: bool := *, *;
        if pollOk && !alive { runtime := None; }
        GenuineMore(layout, origin, trace, Event(Poll(alive), pollOk, fs, runtime, launches));
        trace := trace + [Event(Poll(alive), pollOk, fs, runtime, launches)];
        if !pollOk { return false; }
        if alive { return true; }
      }
      var cleared: bool, launched: bool := *, *;
      ok := cleared && launched;
      if ok {
        var pid: nat := *;
        runtime := Some(pid);
        launches := launches + 1;
      }
      GenuineMore(layout, origin, trace, Event(Launch, ok, fs, runtime, launches));
      trace := trace + [Event(Launch, ok, fs, runtime, launches)];
    }

    // -------------------------------------------------------------------------
    // Activation
    // -------------------------------------------------------------------------

    /**
     The first part of `activate_staged_root`: stop the runtime, clear the previous
     path, move the current root there. `None` means that all of it succeeded.
     */
    method PutAside(hadExistingRoot: bool, ghost old0: Option<Tree>, ghost n: nat) returns (failed: Option<Stage>)
      requires layout.Disjoint()
      requires layout.RootIs(fs, old0) && (old0.Some? ==> hadExistingRoot)
      requires SafeSince(n, old0, launches)
      requires Genuine()
      modifies this`fs, this`runtime, this`trace
      ensures Genuine() && Quiet(layout, old(trace), trace)
      ensures runtime.None?
      ensures SafeSince(n, old0, launches)
      ensures layout.Frame(old(fs), fs) && fs(layout.marker) == old(fs)(layout.marker)
      ensures forall t :: TreeAt(old(fs), layout.staging, t) ==> TreeAt(fs, layout.staging, t)
      ensures failed.Some? ==> layout.RootIs(fs, old0) && failed.value in {StopOld, ClearPrevious, SetAside}
      ensures failed.None? <==> AllOk(trace, |old(trace)|)
      ensures Keeps(trace, |old(trace)|, AsidePlan(layout, old0.Some?))
      ensures failed == Some(StopOld) ==> fs == old(fs)
      ensures failed == Some(SetAside) && old0.None? ==> !Exists(fs, layout.previous)
      ensures failed.None? ==> layout.Aside(fs, old0) && !Exists(fs, layout.root)
    {
      ghost var plan := [Stop, Remove(layout.previous)];
      ghost var rest := if old0.Some? then [Rename(layout.root, layout.previous)] else [];
      failed := StopAndClear(old0, n);
      ghost var second := trace;
      if failed.Some? || !hadExistingRoot || !Exists(fs, layout.root) {
        KeepsBoth(old(trace), second, trace, plan, rest);
        return;
      }
      var moved := MoveRootAside(old0, n);
      MoreCalls(layout, old(trace), second, trace);
      KeepsBoth(old(trace), second, trace, plan, rest);
      return if moved then None else Some(SetAside);
    }

    /** The runtime is stopped and the previous path cleared. */
    method StopAndClear(ghost old0: Option<Tree>, ghost n: nat) returns (failed: Option<Stage>)
      requires layout.Disjoint() && layout.RootIs(fs, old0)
      requires SafeSince(n, old0, launches)
      requires Genuine()
      modifies this`fs, this`runtime, this`trace
      ensures Genuine() && Quiet(layout, old(trace), trace)
      ensures runtime.None?
      ensures SafeSince(n, old0, launches) && layout.RootIs(fs, old0)
      ensures OnlyUnder(old(fs), fs, layout.previous) && fs(layout.marker) == old(fs)(layout.marker)
      ensures forall t :: TreeAt(old(fs), layout.staging, t) ==> TreeAt(fs, layout.staging, t)
      ensures failed.Some? ==> failed.value in {StopOld, ClearPrevious}
      ensures failed.None? <==> AllOk(trace, |old(trace)|)
      ensures Keeps(trace, |old(trace)|, [Stop, Remove(layout.previous)])
      ensures failed == Some(StopOld) ==> fs == old(fs)
      ensures failed.None? ==> !Exists(fs, layout.previous)
    {
      ghost var plan := [Remove(layout.previous)];
      var stopped := StopRuntime();
      ghost var first := trace;
      OneCall(layout, old(trace), trace[|old(trace)|]);
      KeepsOne(old(trace), trace[|old(trace)|]);
      if !stopped {
        KeepsBoth(old(trace), first, trace, [Stop], plan);
        return Some(StopOld);
      }
      var cleared := ClearPreviousPath(old0, n);
      MoreCalls(layout, old(trace), first, trace);
      KeepsBoth(old(trace), first, trace, [Stop], plan);
      return if cleared then None else Some(ClearPrevious);
    }

    method ClearPreviousPath(ghost old0: Option<Tree>, ghost n: nat) returns (ok: bool)
      requires layout.Disjoint() && SafeSince(n, old0, launches) && layout.RootIs(fs, old0)
      requires Genuine()
      modifies this`fs, this`trace
      ensures Genuine() && Quiet(layout, old(trace), trace)
      ensures SafeSince(n, old0, launches) && layout.RootIs(fs, old0)
      ensures OnlyUnder(old(fs), fs, layout.previous)
      ensures fs(layout.marker) == old(fs)(layout.marker) && fs(layout.root) == old(fs)(layout.root)
      ensures forall t :: TreeAt(old(fs), layout.staging, t) ==> TreeAt(fs, layout.staging, t)
      ensures Keeps(trace, |old(trace)|, [Remove(layout.previous)])
      ensures ok <==> AllOk(trace, |old(trace)|)
      ensures ok ==> !Exists(fs, layout.previous)
      ensures ok ==> forall t: Tree :: t([]).Some? ==> (layout.OldAt(fs, Some(t)) <==> TreeAt(old(fs), layout.root, t))
    {
      ok := RemovePath(layout.previous);
      OneCall(layout, old(trace), trace[|old(trace)|]);
      KeepsOne(old(trace), trace[|old(trace)|]);
      forall t: Tree | ok && t([]).Some? ensures layout.OldAt(fs, Some(t)) <==> TreeAt(old(fs), layout.root, t) {
        ClearingPreviousKeepsOnlyTheRoot(layout, old(fs), fs, t);
      }
      forall q, t | Incomparable(layout.previous, q) && TreeAt(old(fs), q, t) ensures TreeAt(fs, q, t) {
        OnlyUnderKeepsTree(old(fs), fs, layout.previous, q, t);
      }
    }

    method MoveRootAside(ghost old0: Option<Tree>, ghost n: nat) returns (ok: bool)
      requires layout.Disjoint() && SafeSince(n, old0, launches) && runtime.None?
      requires old0.Some? && layout.RootIs(fs, old0)
      requires Genuine()
      modifies this`fs, this`trace
      ensures Genuine() && Quiet(layout, old(trace), trace)
      ensures SafeSince(n, old0, launches)
      ensures layout.Frame(old(fs), fs) && fs(layout.marker) == old(fs)(layout.marker)
      ensures forall t :: TreeAt(old(fs), layout.staging, t) ==> TreeAt(fs, layout.staging, t)
      ensures Keeps(trace, |old(trace)|, [Rename(layout.root, layout.previous)])
      ensures ok <==> AllOk(trace, |old(trace)|)
      ensures if ok then layout.Aside(fs, old0) && !Exists(fs, layout.root) else layout.RootIs(fs, old0)
    {
      ok := RenamePath(layout.root, layout.previous);
      OneCall(layout, old(trace), trace[|old(trace)|]);
      KeepsOne(old(trace), trace[|old(trace)|]);
      if ok {
        MovedTree(old(fs), layout.root, layout.previous, old0.value);
        forall t | TreeAt(old(fs), layout.staging, t) ensures TreeAt(fs, layout.staging, t) {
          MovedKeepsTree(old(fs), layout.root, layout.previous, layout.staging, t);
        }
        assert layout.previous + [] == layout.previous && layout.root + [] == layout.root;
      }
    }

    /** `restore_previous_root`. */
    method RestorePreviousRoot(hadExistingRoot: bool, ghost old0: Option<Tree>, ghost n: nat) returns (r: Restore)
      requires layout.Disjoint() && layout.Aside(fs, old0) && (old0.Some? ==> hadExistingRoot)
      requires runtime.None? && SafeSince(n, old0, launches)
      requires Genuine()
      modifies this`fs, this`trace
      ensures Genuine() && old(trace) <= trace
      ensures SafeSince(n, old0, launches) && layout.Frame(old(fs), fs)
      ensures layout.OldAt(fs, old0) && layout.RestoredTo(fs, r, old0) && !r.NotTried?
      ensures r.Complete? <==> Flawless(layout, trace, |old(trace)|)
      ensures r.Complete? ==> !Exists(fs, layout.staging)
      ensures if r.StillAside? then Blocked(layout, trace, |old(trace)|) else TakesBack(layout, old(trace), trace)
      ensures old0.None? ==> !Exists(fs, layout.previous)
    {
      var removed := RemoveRoot(old0, n);
      if !removed { return StillAside; }
      ghost var gone := trace;
      r := PutRootBack(hadExistingRoot, old0, n);
      MoreCalls(layout, old(trace), gone, trace);
      if r.StillAside? {
        BlockedStays(layout, trace, trace, |old(trace)|, |gone|);
        return;
      }
      StaysTakenBack(layout, old(trace), gone, trace);
      if r.Complete? {
        ghost var back := trace;
        var dropped := DropStaging(old0, n);
        MoreCalls(layout, old(trace), back, trace);
        QuietIsInert(layout, back, trace);
        StaysTakenBack(layout, old(trace), back, trace);
        if !dropped { r := RootBack; }
      }
    }

    /** The middle of a restore: the old root is renamed back, or there was none and the marker goes. */
    method PutRootBack(hadExistingRoot: bool, ghost old0: Option<Tree>, ghost n: nat) returns (r: Restore)
      requires layout.Disjoint() && layout.Aside(fs, old0) && (old0.Some? ==> hadExistingRoot)
      requires !Exists(fs, layout.root) && runtime.None? && SafeSince(n, old0, launches)
      requires Genuine()
      modifies this`fs, this`trace
      ensures Genuine() && old(trace) <= trace
      ensures SafeSince(n, old0, launches) && layout.Frame(old(fs), fs)
      ensures layout.OldAt(fs, old0) && layout.RestoredTo(fs, r, old0) && !r.NotTried?
      ensures r.Complete? <==> Flawless(layout, trace, |old(trace)|)
      ensures if r.StillAside? then Blocked(layout, trace, |old(trace)|) else Inert(layout, old(trace), trace)
      ensures old0.None? ==> !Exists(fs, layout.previous)
    {
      if hadExistingRoot && Exists(fs, layout.previous) {
        r := MoveRootBack(old0, n);
        if !r.StillAside? { TakesBackIsInert(layout, old(trace), trace); }
      } else {
        var cleared := ClearProvisionMarker();
        OneCall(layout, old(trace), trace[|old(trace)|]);
        assert layout.previous + [] == layout.previous;
        QuietIsInert(layout, old(trace), trace);
        r := if cleared then Complete else RootBack;
      }
    }

    /** The first call of a restore: whatever is at the root path goes. */
    method RemoveRoot(ghost old0: Option<Tree>, ghost n: nat) returns (ok: bool)
      requires layout.Disjoint() && layout.Aside(fs, old0) && runtime.None? && SafeSince(n, old0, launches)
      requires Genuine()
      modifies this`fs, this`trace
      ensures Genuine() && old(trace) <= trace
      ensures SafeSince(n, old0, launches) && OnlyUnder(old(fs), fs, layout.root)
      ensures layout.Aside(fs, old0) && (ok ==> !Exists(fs, layout.root))
      ensures ok <==> Flawless(layout, trace, |old(trace)|)
      ensures if ok then TakesBack(layout, old(trace), trace) else Blocked(layout, trace, |old(trace)|)
    {
      ok := RemovePath(layout.root);
      OneCall(layout, old(trace), trace[|old(trace)|]);
      if ok {
        TakesBackNow(layout, old(trace), trace[|old(trace)|]);
      } else {
        BlockedByLast(layout, old(trace), |old(trace)|, trace[|old(trace)|]);
      }
      if old0.Some? { OnlyUnderKeepsTree(old(fs), fs, layout.root, layout.previous, old0.value); }
      BelowOne(layout.root, layout.previous, []);
      assert layout.previous + [] == layout.previous;
    }

    method MoveRootBack(ghost old0: Option<Tree>, ghost n: nat) returns (r: Restore)
      requires layout.Disjoint() && old0.Some? && layout.Aside(fs, old0)
      requires runtime.None? && SafeSince(n, old0, launches)
      requires Genuine()
      modifies this`fs, this`trace
      ensures Genuine() && old(trace) <= trace
      ensures SafeSince(n, old0, launches) && layout.Frame(old(fs), fs)
      ensures layout.OldAt(fs, old0) && layout.RestoredTo(fs, r, old0) && !r.NotTried?
      ensures r.Complete? <==> Flawless(layout, trace, |old(trace)|)
      ensures if r.StillAside? then Blocked(layout, trace, |old(trace)|) else TakesBack(layout, old(trace), trace)
    {
      var renamed := RenamePath(layout.previous, layout.root);
      OneCall(layout, old(trace), trace[|old(trace)|]);
      if !renamed {
        BlockedByLast(layout, old(trace), |old(trace)|, trace[|old(trace)|]);
        return StillAside;
      }
      TakesBackNow(layout, old(trace), trace[|old(trace)|]);
      MovedTree(old(fs), layout.previous, layout.root, old0.value);
      ghost var moved, renamedTrace := fs, trace;
      assert layout.root + [] == layout.root && layout.previous + [] == layout.previous;
      var stored := StoreProvisionMarker();
      OneCall(layout, renamedTrace, trace[|renamedTrace|]);
      MoreCalls(layout, old(trace), renamedTrace, trace);
      OnlyUnderKeepsTree(moved, fs, layout.marker, layout.root, old0.value);
      QuietIsInert(layout, renamedTrace, trace);
      StaysTakenBack(layout, old(trace), renamedTrace, trace);
      r := if stored then Complete else RootBack;
    }

    method DropStaging(ghost old0: Option<Tree>, ghost n: nat) returns (ok: bool)
      requires layout.Disjoint() && layout.PutBack(fs, old0) && SafeSince(n, old0, launches)
      requires Genuine()
      modifies this`fs, this`trace
      ensures Genuine() && Quiet(layout, old(trace), trace)
      ensures SafeSince(n, old0, launches) && OnlyUnder(old(fs), fs, layout.staging)
      ensures ok <==> Flawless(layout, trace, |old(trace)|)
      ensures ok ==> !Exists(fs, layout.staging)
      ensures layout.PutBack(fs, old0) && layout.OldAt(fs, old0)
    {
      ok := RemovePath(layout.staging);
      OneCall(layout, old(trace), trace[|old(trace)|]);
      if old0.Some? { OnlyUnderKeepsTree(old(fs), fs, layout.staging, layout.root, old0.value); }
    }

    /** The rename that makes the staged tree the root. */
    method PromoteStaged(ghost old0: Option<Tree>, ghost staged: Tree, ghost n: nat) returns (ok: bool)
      requires layout.Disjoint() && layout.Aside(fs, old0) && TreeAt(fs, layout.staging, staged)
      requires runtime.None? && SafeSince(n, old0, launches)
      requires Genuine()
      modifies this`fs, this`trace
      ensures Genuine()
      ensures trace == old(trace) + [Event(Rename(layout.staging, layout.root), ok, fs, runtime, launches)]
      ensures SafeSince(n, old0, launches) && layout.Frame(old(fs), fs)
      ensures layout.Aside(fs, old0)
      ensures ok ==> layout.RootIs(fs, Some(staged))
    {
      ok := RenamePath(layout.staging, layout.root);
      if ok {
        MovedTree(old(fs), layout.staging, layout.root, staged);
        if old0.Some? { MovedKeepsTree(old(fs), layout.staging, layout.root, layout.previous, old0.value); }
        BelowOne(layout.staging, layout.previous, []);
        BelowOne(layout.root, layout.previous, []);
        assert layout.previous + [] == layout.previous && layout.root + [] == layout.root;
        assert layout.staging + [] == layout.staging;
      }
    }

    /** The last part of `activate_staged_root`: mark, start, and drop the old root or bring it back. */
    method StartPromoted(hadExistingRoot: bool, ghost old0: Option<Tree>, ghost staged: Tree, ghost n: nat)
      returns (r: Activation)
      requires layout.Disjoint() && layout.Aside(fs, old0) && (old0.Some? ==> hadExistingRoot)
      requires layout.RootIs(fs, Some(staged))
      requires runtime.None? && SafeSince(n, old0, launches)
      requires Genuine()
      modifies this
      ensures Genuine() && old(trace) <= trace
      ensures SafeSince(n, old0, old(launches)) && layout.Frame(old(fs), fs)
      ensures layout.Ends(fs, r, old0, staged)
      ensures LeavesAside(r) ==> Blocked(layout, trace, |old(trace)|)
      ensures Provisioned(r) ==> Commits(layout, old(trace), trace)
      ensures !Provisioned(r) && !LeavesAside(r) ==> TakesBack(layout, old(trace), trace)
      ensures r.Activated? <==> AllOk(trace, |old(trace)|)
      ensures Tried(r) <==> r.Failed? && r.stage in {Promote, Start}
      ensures Tried(r) ==> (r.restore.Complete? <==> Flawless(layout, trace, |old(trace)|))
      ensures Keeps(trace, |old(trace)|, StartPlan(layout))
      ensures LeavesRunning(r, hadExistingRoot, trace, runtime)
      ensures r.Failed? ==> r.stage in {StoreMarker, Start, DropPrevious}
    {
      ghost var plan := [Launch, Remove(layout.previous)];
      var stored := MarkProvisioned(old0, staged, n);
      ghost var marked := trace;
      if !stored {
        KeepsBoth(old(trace), marked, trace, [Write(layout.marker)], plan);
        return Failed(StoreMarker, NotTried);
      }
      r := StartMarked(hadExistingRoot, old0, staged, n, old(trace));
      MoreCalls(layout, old(trace), marked, trace);
      KeepsBoth(old(trace), marked, trace, [Write(layout.marker)], plan);
      if LeavesAside(r) { BlockedStays(layout, trace, trace, |old(trace)|, |marked|); }
    }

    /** The new root has its marker: it is started, and then the old one dropped or put back. */
    method StartMarked(hadExistingRoot: bool, ghost old0: Option<Tree>, ghost staged: Tree, ghost n: nat,
                       ghost trace0: seq<Event>)
      returns (r: Activation)
      requires layout.Disjoint() && layout.Aside(fs, old0) && (old0.Some? ==> hadExistingRoot)
      requires layout.RootIs(fs, Some(staged)) && fs(layout.marker) == Some(File(MARKER))
      requires runtime.None? && SafeSince(n, old0, launches)
      requires Genuine() && Quiet(layout, trace0, trace)
      modifies this
      ensures Genuine() && old(trace) <= trace
      ensures SafeSince(n, old0, old(launches)) && layout.Frame(old(fs), fs)
      ensures layout.Ends(fs, r, old0, staged)
      ensures LeavesAside(r) ==> Blocked(layout, trace, |old(trace)|)
      ensures Provisioned(r) ==> Commits(layout, trace0, trace)
      ensures !Provisioned(r) && !LeavesAside(r) ==> TakesBack(layout, trace0, trace)
      ensures r.Activated? <==> AllOk(trace, |old(trace)|)
      ensures Tried(r) <==> r.Failed? && r.stage == Start
      ensures Tried(r) ==> (r.restore.Complete? <==> Flawless(layout, trace, |old(trace)|))
      ensures Keeps(trace, |old(trace)|, [Launch, Remove(layout.previous)])
      ensures LeavesRunning(r, hadExistingRoot, trace, runtime)
      ensures r.Failed? ==> r.stage in {Start, DropPrevious}
    {
      var started := EnsureRuntimeStarted();
      ghost var e := trace[|old(trace)|];
      if started {
        var dropped := DropPreviousRoot(staged, old0, n, old(launches));
        StartedAndDropped(layout, trace0, old(trace), e, trace, dropped);
        return if dropped then Activated else Failed(DropPrevious, NotTried);
      }
      var restored := GiveUp(hadExistingRoot, old0, n);
      NotStarted(layout, trace0, old(trace), e, trace, restored);
      return Failed(Start, restored);
    }

    /** The new root runs, and the old one is dropped. */
    method DropPreviousRoot(ghost staged: Tree, ghost old0: Option<Tree>, ghost n: nat, ghost launches0: nat)
      returns (ok: bool)
      requires layout.Disjoint() && layout.RootIs(fs, Some(staged)) && SafeSince(n, old0, launches0)
      requires launches > launches0
      requires Genuine()
      modifies this`fs, this`trace
      ensures Genuine() && Quiet(layout, old(trace), trace)
      ensures SafeSince(n, old0, launches0) && layout.Frame(old(fs), fs)
      ensures layout.RootIs(fs, Some(staged)) && fs(layout.marker) == old(fs)(layout.marker)
      ensures Keeps(trace, |old(trace)|, [Remove(layout.previous)])
      ensures ok <==> AllOk(trace, |old(trace)|)
      ensures ok ==> !Exists(fs, layout.previous)
      ensures !Exists(old(fs), layout.previous) ==> fs == old(fs)
    {
      ok := RemovePath(layout.previous);
      OneCall(layout, old(trace), trace[|old(trace)|]);
      KeepsOne(old(trace), trace[|old(trace)|]);
      OnlyUnderKeepsTree(old(fs), fs, layout.previous, layout.root, staged);
    }

    /** The new root could not be started: the old one is put back and started. */
    method GiveUp(hadExistingRoot: bool, ghost old0: Option<Tree>, ghost n: nat) returns (r: Restore)
      requires layout.Disjoint() && layout.Aside(fs, old0) && (old0.Some? ==> hadExistingRoot)
      requires runtime.None? && SafeSince(n, old0, launches)
      requires Genuine()
      modifies this
      ensures Genuine() && old(trace) <= trace
      ensures SafeSince(n, old0, old(launches)) && layout.Frame(old(fs), fs)
      ensures layout.OldAt(fs, old0) && layout.RestoredTo(fs, r, old0) && !r.NotTried?
      ensures r.Complete? <==> Flawless(layout, trace, |old(trace)|)
      ensures r.Complete? ==> !Exists(fs, layout.staging)
      ensures if r.StillAside? then Blocked(layout, trace, |old(trace)|) else TakesBack(layout, old(trace), trace)
      ensures old0.None? ==> !Exists(fs, layout.previous)
      ensures if hadExistingRoot then LaunchedLast(trace, runtime) else runtime.None?
    {
      r := RestorePreviousRoot(hadExistingRoot, old0, n);
      ghost var restored := trace;
      if hadExistingRoot {
        var _ := EnsureRuntimeStarted();
        LaunchIsInert(layout, restored, trace[|restored|]);
        OneCall(layout, restored, trace[|restored|]);
        MoreCalls(layout, old(trace), restored, trace);
      }
      if r.StillAside? {
        BlockedStays(layout, restored, trace, |old(trace)|, |old(trace)|);
      } else if trace != restored {
        StaysTakenBack(layout, old(trace), restored, trace);
      }
    }

    method MarkProvisioned(ghost old0: Option<Tree>, ghost staged: Tree, ghost n: nat) returns (ok: bool)
      requires layout.Disjoint() && layout.Aside(fs, old0) && layout.RootIs(fs, Some(staged))
      requires SafeSince(n, old0, launches)
      requires Genuine()
      modifies this`fs, this`trace
      ensures Genuine() && Quiet(layout, old(trace), trace)
      ensures SafeSince(n, old0, launches) && layout.Frame(old(fs), fs)
      ensures layout.Aside(fs, old0) && layout.RootIs(fs, Some(staged))
      ensures ok ==> fs(layout.marker) == Some(File(MARKER))
      ensures Keeps(trace, |old(trace)|, [Write(layout.marker)])
      ensures ok <==> AllOk(trace, |old(trace)|)
      ensures !ok ==> Blocked(layout, trace, |old(trace)|)
    {
      ok := StoreProvisionMarker();
      OneCall(layout, old(trace), trace[|old(trace)|]);
      KeepsOne(old(trace), trace[|old(trace)|]);
      if !ok { BlockedByLast(layout, old(trace), |old(trace)|, trace[|old(trace)|]); }
      OnlyUnderKeepsTree(old(fs), fs, layout.marker, layout.root, staged);
      if old0.Some? { OnlyUnderKeepsTree(old(fs), fs, layout.marker, layout.previous, old0.value); }
    }

    /**
     `activate_staged_root`. Whatever fails, and after every single system call, the
     old root tree is at the root or the previous path until a new runtime has been
     launched; the root is renamed only while no runtime is recorded; a failed
     promotion or start that could be restored leaves the root and the marker as they
     were; and nothing outside root, staging, previous and marker is touched.
     */
    method ActivateStagedRoot(ghost old0: Option<Tree>, ghost staged: Tree) returns (r: Activation)
      requires layout.Disjoint() && TreeAt(fs, layout.staging, staged) && layout.RootIs(fs, old0)
      requires Genuine()
      modifies this
      ensures Genuine() && old(trace) <= trace
      ensures SafeSince(|old(trace)|, old0, old(launches)) && layout.Frame(old(fs), fs)
      ensures layout.Ends(fs, r, old0, staged)
      ensures LeavesAside(r) ==> Blocked(layout, trace, |old(trace)|)
      ensures r.Activated? <==> AllOk(trace, |old(trace)|)
      ensures Tried(r) <==> r.Failed? && r.stage in {Promote, Start}
      ensures Tried(r) ==> (r.restore.Complete? <==> Flawless(layout, trace, |old(trace)|))
      ensures Follows(layout, old(fs), old(trace), fs, trace)
      ensures Provisioned(r) ==> Promoted(layout, trace, |old(trace)|, fs)
      ensures Keeps(trace, |old(trace)|, ActivationPlan(layout, old0.Some?))
      ensures LeavesRunning(r, old(Exists(fs, layout.marker) || Exists(fs, layout.root)), trace, runtime)
      ensures r.Failed? && r.stage == StopOld ==> fs == old(fs)
      ensures r.Failed? && r.stage in {StopOld, ClearPrevious, SetAside} ==> fs(layout.marker) == old(fs)(layout.marker)
      ensures r.Failed? && r.restore.Complete? && old(layout.PutBack(fs, old0)) ==>
              fs(layout.marker) == old(fs)(layout.marker)
    {
      ghost var n := |trace|;
      var hadExistingRoot := Exists(fs, layout.marker) || Exists(fs, layout.root);
      var failed := PutAside(hadExistingRoot, old0, n);
      if failed.Some? {
        KeptRootFollows(layout, old(fs), old(trace), fs, trace, old0);
        KeepsBoth(old(trace), trace, trace, AsidePlan(layout, old0.Some?), PromotePlan(layout));
        return Failed(failed.value, NotTried);
      }
      ghost var aside := trace;
      r := Activate(hadExistingRoot, old0, staged, n, old(fs), old(trace));
      MoreCalls(layout, old(trace), aside, trace);
      KeepsBoth(old(trace), aside, trace, AsidePlan(layout, old0.Some?), PromotePlan(layout));
    }

    /** The second part of `activate_staged_root`, with the old root set aside. */
    method Activate(hadExistingRoot: bool, ghost old0: Option<Tree>, ghost staged: Tree, ghost n: nat,
                    ghost fs0: Fs, ghost trace0: seq<Event>)
      returns (r: Activation)
      requires layout.Disjoint() && layout.Aside(fs, old0) && (old0.Some? ==> hadExistingRoot)
      requires TreeAt(fs, layout.staging, staged) && runtime.None? && SafeSince(n, old0, launches)
      requires layout.RootIs(fs0, old0) && Quiet(layout, trace0, trace)
      requires Genuine()
      modifies this
      ensures Genuine() && old(trace) <= trace
      ensures SafeSince(n, old0, old(launches)) && layout.Frame(old(fs), fs)
      ensures layout.Ends(fs, r, old0, staged)
      ensures LeavesAside(r) ==> Blocked(layout, trace, |trace0|)
      ensures r.Activated? <==> AllOk(trace, |old(trace)|)
      ensures Tried(r) <==> r.Failed? && r.stage in {Promote, Start}
      ensures Tried(r) ==> (r.restore.Complete? <==> Flawless(layout, trace, |old(trace)|))
      ensures Follows(layout, fs0, trace0, fs, trace)
      ensures Provisioned(r) ==> Promoted(layout, trace, |trace0|, fs)
      ensures Keeps(trace, |old(trace)|, PromotePlan(layout))
      ensures LeavesRunning(r, hadExistingRoot, trace, runtime)
      ensures r.Failed? ==> r.stage !in {StopOld, ClearPrevious, SetAside}
    {
      var promoted := PromoteStaged(old0, staged, n);
      ghost var e, renamed := trace[|old(trace)|], trace;
      OneCall(layout, old(trace), e);
      KeepsOne(old(trace), e);
      if promoted {
        r := StartPromoted(hadExistingRoot, old0, staged, n);
        MoreCalls(layout, old(trace), renamed, trace);
        StartFollows(layout, fs0, trace0, old(trace), e, fs, trace, r, old0, staged);
      } else {
        var restored := RestorePreviousRoot(hadExistingRoot, old0, n);
        MoreCalls(layout, old(trace), renamed, trace);
        RestoreFollows(layout, fs0, trace0, old(trace), e, fs, trace, restored, old0);
        r := Failed(Promote, restored);
      }
      KeepsBoth(old(trace), renamed, trace, [e.call], StartPlan(layout));
    }

    // -------------------------------------------------------------------------
    // Staging and the persistent directories
    // -------------------------------------------------------------------------

    /** `ensure_directory`. */
    method EnsureDirectory(p: Path) returns (ok: bool)
      requires Genuine()
      modifies this`fs, this`trace
      ensures Genuine() && Quiet(layout, old(trace), trace)
      ensures fs == old(fs) || (!Exists(old(fs), p) && fs == WithDirs(old(fs), p))
      ensures ok ==> fs(p) == Some(Dir)
      ensures Exists(old(fs), p) ==> fs == old(fs)
      ensures Keeps(trace, |old(trace)|, [if Exists(old(fs), p) then Check(p) else Make(p)])
      ensures ok <==> AllOk(trace, |old(trace)|)
    {
      if Exists(fs, p) {
        ok := CheckDirectory(p);
      } else {
        ok := CreateDirs(p);
      }
      KeepsOne(old(trace), trace[|old(trace)|]);
    }

    /** Looks at a path that must hold a directory. */
    method CheckDirectory(p: Path) returns (ok: bool)
      requires Genuine()
      modifies this`trace
      ensures Genuine() && Quiet(layout, old(trace), trace)
      ensures ok <==> fs(p) == Some(Dir)
      ensures trace == old(trace) + [Event(Check(p), ok, fs, runtime, launches)]
      ensures ok <==> AllOk(trace, |old(trace)|)
    {
      ok := fs(p) == Some(Dir);
      GenuineMore(layout, origin, trace, Event(Check(p), ok, fs, runtime, launches));
      trace := trace + [Event(Check(p), ok, fs, runtime, launches)];
      OneCall(layout, old(trace), trace[|old(trace)|]);
    }

    method CreateDirs(p: Path) returns (ok: bool)
      requires Genuine()
      modifies this`fs, this`trace
      ensures Genuine() && Quiet(layout, old(trace), trace)
      ensures fs == if ok then WithDirs(old(fs), p) else old(fs)
      ensures trace == old(trace) + [Event(Make(p), ok, fs, runtime, launches)]
      ensures ok <==> AllOk(trace, |old(trace)|)
    {
      ok := *;
      if ok { fs := WithDirs(fs, p); }
      GenuineMore(layout, origin, trace, Event(Make(p), ok, fs, runtime, launches));
      trace := trace + [Event(Make(p), ok, fs, runtime, launches)];
      OneCall(layout, old(trace), trace[|old(trace)|]);
    }

    /** The directory a missing source goes to. */
    method MakeParent(m: Mount) returns (ok: bool)
      requires layout.Disjoint() && m in layout.mounts
      requires Genuine()
      modifies this`fs, this`trace
      ensures Genuine() && Quiet(layout, old(trace), trace)
      ensures forall q :: Foreign(layout, m, q) || q == layout.staging + m.target ==> SameTree(old(fs), fs, q)
      ensures ok <==> AllOk(trace, |old(trace)|)
      ensures Keeps(trace, |old(trace)|, [Make(Parent(m.source))])
      ensures fs == old(fs) || fs == WithDirs(old(fs), Parent(m.source))
    {
      ForeignPaths(layout, m, layout.root);
      ok := CreateDirs(Parent(m.source));
      KeepsOne(old(trace), trace[|old(trace)|]);
      forall q | Foreign(layout, m, q) || q == layout.staging + m.target ensures SameTree(old(fs), fs, q) {
        if q != layout.staging + m.target { ForeignPaths(layout, m, q); }
        WithDirsKeepsTree(old(fs), Parent(m.source), q);
      }
    }

    /** What is at the target becomes the source. */
    method MoveTarget(m: Mount) returns (ok: bool)
      requires layout.Disjoint() && m in layout.mounts
      requires fs(layout.staging + m.target) == Some(Dir)
      requires Genuine()
      modifies this`fs, this`trace
      ensures Genuine() && Quiet(layout, old(trace), trace)
      ensures forall q :: Foreign(layout, m, q) ==> SameTree(old(fs), fs, q)
      ensures ok ==> TreeAt(fs, m.source, TreeOf(old(fs), layout.staging + m.target)) && fs(m.source) == Some(Dir)
      ensures ok ==> !Exists(fs, layout.staging + m.target)
      ensures ok <==> AllOk(trace, |old(trace)|)
      ensures Keeps(trace, |old(trace)|, [Rename(layout.staging + m.target, m.source)])
      ensures fs == old(fs) || fs == Moved(old(fs), layout.staging + m.target, m.source)
    {
      var target := layout.staging + m.target;
      ForeignPaths(layout, m, layout.root);
      ok := RenamePath(target, m.source);
      OneCall(layout, old(trace), trace[|old(trace)|]);
      KeepsOne(old(trace), trace[|old(trace)|]);
      if !ok { return; }
      MovedTree(old(fs), target, m.source, TreeOf(old(fs), target));
      assert m.source + [] == m.source && target + [] == target;
      forall q | Foreign(layout, m, q) ensures SameTree(old(fs), fs, q) {
        ForeignPaths(layout, m, q);
        MovedSameTree(old(fs), target, m.source, q);
      }
    }

    /** The step of `ensure_persistent_source_dir` that seeds a missing source from the staged tree. */
    method SeedSource(m: Mount) returns (ok: bool)
      requires layout.Disjoint() && m in layout.mounts && !Exists(fs, m.source)
      requires fs(layout.staging + m.target) == Some(Dir)
      requires Genuine()
      modifies this`fs, this`trace
      ensures Genuine() && Quiet(layout, old(trace), trace)
      ensures forall q :: Foreign(layout, m, q) ==> SameTree(old(fs), fs, q)
      ensures ok ==> TreeAt(fs, m.source, TreeOf(old(fs), layout.staging + m.target)) && fs(m.source) == Some(Dir)
      ensures ok ==> !Exists(fs, layout.staging + m.target)
      ensures ok <==> AllOk(trace, |old(trace)|)
      ensures Keeps(trace, |old(trace)|, layout.MovePlan(m))
      ensures StagedKept(layout, old(fs), fs, m)
    {
      ghost var target := layout.staging + m.target;
      ok := MakeParent(m);
      ghost var made, madeTrace := fs, trace;
      assert target + [] == target;
      if ok {
        ok := MoveTarget(m);
        MoreCalls(layout, old(trace), madeTrace, trace);
        if ok { SameTreeAt(old(fs), made, fs, target, m.source); }
      }
      SeedingKeepsStaged(layout, old(fs), made, fs, m);
      KeepsBoth(old(trace), madeTrace, trace, [Make(Parent(m.source))], [Rename(target, m.source)]);
    }

    /** Seeds a missing source from what is at the target, which must be a directory. */
    method SeedFromTarget(m: Mount) returns (ok: bool)
      requires layout.Disjoint() && m in layout.mounts && !Exists(fs, m.source)
      requires Genuine()
      modifies this`fs, this`trace
      ensures Genuine() && Quiet(layout, old(trace), trace)
      ensures forall q :: Foreign(layout, m, q) ==> SameTree(old(fs), fs, q)
      ensures ok ==> old(fs)(layout.staging + m.target) == Some(Dir) && fs(m.source) == Some(Dir)
      ensures ok ==> TreeAt(fs, m.source, TreeOf(old(fs), layout.staging + m.target))
      ensures ok ==> !Exists(fs, layout.staging + m.target)
      ensures ok <==> AllOk(trace, |old(trace)|)
      ensures Keeps(trace, |old(trace)|, layout.SeedPlan(m))
      ensures StagedKept(layout, old(fs), fs, m)
    {
      ok := CheckDirectory(layout.staging + m.target);
      ghost var checked := trace;
      KeepsOne(old(trace), trace[|old(trace)|]);
      if ok {
        ok := SeedSource(m);
        MoreCalls(layout, old(trace), checked, trace);
      }
      KeepsBoth(old(trace), checked, trace, [Check(layout.staging + m.target)], layout.MovePlan(m));
    }

    /** `ensure_persistent_source_dir`: an existing source is never touched. */
    method EnsurePersistentSourceDir(m: Mount) returns (ok: bool)
      requires layout.Disjoint() && m in layout.mounts
      requires Genuine()
      modifies this`fs, this`trace
      ensures Genuine() && Quiet(layout, old(trace), trace)
      ensures Exists(old(fs), m.source) ==> fs == old(fs)
      ensures forall q :: Foreign(layout, m, q) ==> SameTree(old(fs), fs, q)
      ensures ok ==> fs(m.source) == Some(Dir)
      ensures ok && !Exists(old(fs), m.source) && old(fs)(layout.staging + m.target) == Some(Dir)
              ==> TreeAt(fs, m.source, TreeOf(old(fs), layout.staging + m.target))
      ensures ok <==> AllOk(trace, |old(trace)|)
      ensures Keeps(trace, |old(trace)|, layout.SourcePlan(old(fs), m))
      ensures ok ==> (Exists(fs, layout.staging + m.target) <==>
                      Exists(old(fs), m.source) && Exists(old(fs), layout.staging + m.target))
      ensures StagedKept(layout, old(fs), fs, m)
    {
      if !Exists(fs, m.source) && Exists(fs, layout.staging + m.target) {
        ok := SeedFromTarget(m);
        ghost var seeded := trace;
        if ok {
          ok := EnsureDirectory(m.source);
          MoreCalls(layout, old(trace), seeded, trace);
        }
        KeepsBoth(old(trace), seeded, trace, layout.SeedPlan(m), [Check(m.source)]);
        return;
      }
      ok := EnsureDirectory(m.source);
      forall q | Foreign(layout, m, q) || q == layout.staging + m.target ensures SameTree(old(fs), fs, q) {
        if q != layout.staging + m.target { ForeignPaths(layout, m, q); } else { ForeignPaths(layout, m, layout.root); }
        WithDirsKeepsTree(old(fs), m.source, q);
      }
      assert layout.staging + m.target + [] == layout.staging + m.target;
    }

    /** One turn of the loop of `prepare_persistent_layout`. */
    method PrepareMount(i: nat, ghost fs0: Fs) returns (ok: bool)
      requires layout.Disjoint() && i < |layout.mounts| && layout.Preserved(fs0, fs)
      requires layout.HasSources(fs, i)
      requires Genuine()
      modifies this`fs, this`trace
      ensures Genuine() && Quiet(layout, old(trace), trace)
      ensures layout.Preserved(fs0, fs)
      ensures ok ==> layout.HasSources(fs, i + 1) && fs(layout.staging + layout.mounts[i].target) == Some(Dir)
      ensures ok <==> AllOk(trace, |old(trace)|)
      ensures Keeps(trace, |old(trace)|, layout.MountPlan(old(fs), layout.mounts[i]))
      ensures StagedKept(layout, old(fs), fs, layout.mounts[i])
    {
      var m := layout.mounts[i];
      ok := EnsurePersistentSourceDir(m);
      ghost var between, betweenTrace := fs, trace;
      PreservedStep(layout, fs0, old(fs), fs, m);
      if !ok {
        KeepsBoth(old(trace), betweenTrace, trace, layout.SourcePlan(old(fs), m), layout.TargetPlan(old(fs), m));
        return;
      }
      OneMoreSource(layout, old(fs), fs, i);
      ok := EnsureDirectory(layout.staging + m.target);
      MoreCalls(layout, old(trace), betweenTrace, trace);
      KeepsBoth(old(trace), betweenTrace, trace, layout.SourcePlan(old(fs), m), layout.TargetPlan(old(fs), m));
      forall q | Incomparable(layout.staging, q) ensures SameTree(between, fs, q) {
        StagedDirsKeep(layout, between, m.target, q);
      }
      PreservedThroughout(layout, fs0, between, fs);
      SourcesStay(layout, between, fs, i + 1);
    }

    /** `prepare_persistent_layout` on the staged tree. */
    method PreparePersistentLayout() returns (ok: bool)
      requires layout.Disjoint()
      requires Genuine()
      modifies this`fs, this`trace
      ensures Genuine() && Quiet(layout, old(trace), trace)
      ensures layout.Preserved(old(fs), fs)
      ensures ok ==> layout.HasSources(fs, |layout.mounts|) && layout.HasTargets(fs, |layout.mounts|)
      ensures ok <==> AllOk(trace, |old(trace)|)
      ensures LaysOut(layout, trace, |old(trace)|)
      ensures layout.StagedElsewhere(old(fs), fs)
    {
      ghost var states := [];
      for i := 0 to |layout.mounts|
        invariant layout.Preserved(old(fs), fs) && Genuine() && Quiet(layout, old(trace), trace)
        invariant AllOk(trace, |old(trace)|) && layout.StagedElsewhere(old(fs), fs)
        invariant layout.HasSources(fs, i) && layout.HasTargets(fs, i)
        invariant |states| == i && LaysOutBy(layout, trace, |old(trace)|, states)
      {
        ghost var before, beforeTrace := fs, trace;
        ok := PrepareMount(i, old(fs));
        MoreCalls(layout, old(trace), beforeTrace, trace);
        StagedElsewhereStep(layout, old(fs), before, fs, layout.mounts[i]);
        OneMoreMount(layout, old(trace), beforeTrace, trace, states, before);
        states := states + [before];
        if !ok {
          StaysPlanned(layout, trace, |old(trace)|, states);
          return;
        }
        TargetsStay(layout, before, fs, i);
      }
      ok := true;
    }

    /** `extract_rootfs`: whatever the archive holds, complete or not, ends up under the staging path only. */
    method ExtractRootfs() returns (ok: bool)
      requires layout.Disjoint() && Genuine()
      modifies this`fs, this`trace
      ensures Genuine() && Quiet(layout, old(trace), trace)
      ensures OnlyUnder(old(fs), fs, layout.staging)
      ensures trace == old(trace) + [Event(Write(layout.staging), ok, fs, runtime, launches)]
    {
      ok := *;
      var content: Path -> Option<Node> := *;
      var before, staging := fs, layout.staging;
      fs := (k: Path) => if staging <= k then content(k) else before(k);
      GenuineMore(layout, origin, trace, Event(Write(staging), ok, fs, runtime, launches));
      trace := trace + [Event(Write(staging), ok, fs, runtime, launches)];
    }

    /** `stage_rootfs`: neither the running root nor existing persistent data is touched. */
    method StageRootfs() returns (ok: bool)
      requires layout.Disjoint()
      requires Genuine()
      modifies this`fs, this`trace
      ensures Genuine() && Quiet(layout, old(trace), trace)
      ensures layout.Preserved(old(fs), fs)
      ensures ok <==> AllOk(trace, |old(trace)|)
      ensures Stages(layout, trace, |old(trace)|)
      ensures ok ==> StagedSince(layout, old(Now()), Now())
    {
      ok := Extract();
      if !ok {
        NotStaged(layout, old(trace), trace);
        return;
      }
      ghost var extracted := Now();
      ok := PreparePersistentLayout();
      PreservedTwice(layout, old(fs), extracted.fs, fs);
      QuietTwice(layout, old(trace), extracted.trace, trace);
      AlsoPrepared(layout, old(trace), extracted.trace, trace);
      SameRoot(layout, old(fs), fs);
      if ok { NowStaged(layout, old(Now()), extracted, Now()); }
    }

    /** The first part of `stage_rootfs`: an empty staging directory and the archive in it. */
    method Extract() returns (ok: bool)
      requires layout.Disjoint()
      requires Genuine()
      modifies this`fs, this`trace
      ensures Genuine() && Quiet(layout, old(trace), trace)
      ensures layout.Preserved(old(fs), fs)
      ensures ok <==> AllOk(trace, |old(trace)|)
      ensures |old(trace)| < |trace| && Keeps(trace, |old(trace)|, ExtractPlan(layout))
      ensures ok ==> |trace| == |old(trace)| + 3 && trace[|old(trace)| + 2].fs == fs
    {
      ok := ResetStaging();
      if !ok {
        KeepsBoth(old(trace), trace, trace, [Remove(layout.staging), Make(layout.staging)], [Write(layout.staging)]);
        return;
      }
      ghost var empty, emptyTrace := fs, trace;
      ok := ExtractRootfs();
      OneCall(layout, emptyTrace, trace[|emptyTrace|]);
      MoreCalls(layout, old(trace), emptyTrace, trace);
      forall q | Incomparable(layout.staging, q) ensures SameTree(empty, fs, q) {
        OnlyUnderSameTree(empty, fs, layout.staging, q);
      }
      PreservedThroughout(layout, old(fs), empty, fs);
      KeepsOne(emptyTrace, trace[|emptyTrace|]);
      KeepsBoth(old(trace), emptyTrace, trace, [Remove(layout.staging), Make(layout.staging)], [Write(layout.staging)]);
    }

    /** `reset_dir` on the staging path. */
    method ResetStaging() returns (ok: bool)
      requires layout.Disjoint()
      requires Genuine()
      modifies this`fs, this`trace
      ensures Genuine() && Quiet(layout, old(trace), trace)
      ensures layout.Preserved(old(fs), fs)
      ensures ok ==> fs(layout.staging) == Some(Dir)
      ensures ok <==> AllOk(trace, |old(trace)|)
      ensures |old(trace)| < |trace| && (ok ==> |trace| == |old(trace)| + 2)
      ensures Keeps(trace, |old(trace)|, [Remove(layout.staging), Make(layout.staging)])
    {
      ok := RemovePath(layout.staging);
      OneCall(layout, old(trace), trace[|old(trace)|]);
      forall q | Incomparable(layout.staging, q) ensures SameTree(old(fs), fs, q) {
        OnlyUnderSameTree(old(fs), fs, layout.staging, q);
      }
      PreservedThroughout(layout, old(fs), old(fs), fs);
      ghost var removed, removedTrace := fs, trace;
      KeepsOne(old(trace), trace[|old(trace)|]);
      if !ok {
        KeepsBoth(old(trace), removedTrace, trace, [Remove(layout.staging)], [Make(layout.staging)]);
        return;
      }
      ok := CreateDirs(layout.staging);
      KeepsOne(removedTrace, trace[|removedTrace|]);
      KeepsBoth(old(trace), removedTrace, trace, [Remove(layout.staging)], [Make(layout.staging)]);
      MoreCalls(layout, old(trace), removedTrace, trace);
      forall q | Incomparable(layout.staging, q) ensures SameTree(removed, fs, q) {
        WithDirsKeepsTree(removed, layout.staging, q);
      }
      PreservedThroughout(layout, old(fs), removed, fs);
    }

    // -------------------------------------------------------------------------
    // Requests
    // -------------------------------------------------------------------------

    /** Every persistent directory that existed has the same contents. */
    twostate predicate PersistentKept()
      reads this
    {
      forall m :: m in layout.mounts && Exists(old(fs), m.source) ==> SameTree(old(fs), fs, m.source)
    }

    /** A request with an archive: stage it and activate it. */
    method Provision() returns (ok: bool)
      requires layout.Disjoint()
      requires Genuine()
      modifies this
      ensures Genuine() && PersistentKept() && Follows(layout, old(fs), old(trace), fs, trace)
      ensures ok ==> runtime.Some? && Exists(fs, layout.marker) && Promoted(layout, trace, |old(trace)|, fs)
      ensures Installed(layout, old(Now()), ok, Now())
    {
      ok := StageRootfs();
      assert layout.root + [] == layout.root;
      StagingFollows(layout, old(fs), old(trace), fs, trace);
      if !ok {
        NotInstalled(layout, old(Now()), Now());
        return;
      }
      ghost var between, stagedTrace := fs, trace;
      ok := ActivateWhatIsStaged(old(Now()));
      FollowsTransitive(layout, old(fs), old(trace), between, stagedTrace, fs, trace);
      forall m | m in layout.mounts && Exists(old(fs), m.source) ensures SameTree(old(fs), fs, m.source) {
        FrameKeepsPersistent(layout, between, fs, m, TreeOf(between, m.source));
      }
    }

    /** The archive has been staged since the given moment. */
    method ActivateWhatIsStaged(ghost before: Moment) returns (ok: bool)
      requires layout.Disjoint() && StagedSince(layout, before, Now())
      requires Genuine()
      modifies this
      ensures Genuine() && layout.Frame(old(fs), fs) && Follows(layout, old(fs), old(trace), fs, trace)
      ensures ok ==> Exists(fs, layout.marker) && Promoted(layout, trace, |before.trace|, fs)
      ensures Installed(layout, before, ok, Now())
    {
      ghost var staged := TreeOf(fs, layout.staging);
      RootTreeIsRoot(layout, fs);
      var r := ActivateStagedRoot(layout.RootTree(fs), staged);
      ok := r.Activated?;
      NowInstalled(layout, before, old(Now()), ok, Now());
      if ok { PromotedSince(layout, trace, |before.trace|, |old(trace)|, fs); }
    }

    /**
     `setup_and_prepare`: a request with or without an archive. Persistent data that
     exists is the same afterwards whatever happens; a cold machine without an archive
     is refused and nothing changes.
     */
    method SetupAndPrepare(archive: bool) returns (ok: bool)
      requires layout.Disjoint()
      requires Genuine()
      modifies this
      ensures Genuine() && PersistentKept() && Follows(layout, old(fs), old(trace), fs, trace)
      ensures !archive ==> fs == old(fs)
      ensures ok ==> runtime.Some?
      ensures ok && archive ==> Exists(fs, layout.marker) && Promoted(layout, trace, |old(trace)|, fs)
      ensures archive ==> Installed(layout, old(Now()), ok, Now())
      ensures !archive && !Exists(old(fs), layout.marker) ==> !ok && Now() == old(Now())
      ensures !archive && Exists(old(fs), layout.marker) ==> Restarted(old(Now()), ok, Now())
    {
      var wasCold := !Exists(fs, layout.marker);
      if wasCold && !archive {
        NothingFollows(layout, fs, trace);
        return false;
      }
      if archive {
        ok := Provision();
      } else {
        ok := EnsureRuntimeStarted();
        RestartFollows(layout, fs, old(trace), trace, old(runtime), ok);
      }
    }

    /** One request to the manager; only provisioning touches the file system. */
    method Handle(request: Request) returns (ok: bool)
      requires layout.Disjoint()
      requires Genuine()
      modifies this
      ensures Genuine() && PersistentKept() && Follows(layout, old(fs), old(trace), fs, trace)
      ensures !request.Provision? ==> fs == old(fs)
      ensures old(trace) <= trace && Answered(layout, old(Now()), request, ok, Now())
    {
      NothingFollows(layout, fs, trace);
      ok := true;
      match request {
        case Provision => ok := SetupAndPrepare(true);
        case Reconnect => ok := SetupAndPrepare(false);
        case StartReady =>
          if Exists(fs, layout.marker) {
            ok := EnsureRuntimeStarted();
            RestartFollows(layout, fs, old(trace), trace, old(runtime), ok);
          }
        case Shutdown =>
          if runtime.Some? {
            var _ := StopRuntime();
            QuietIsInert(layout, old(trace), trace);
            InertFollows(layout, fs, old(trace), trace);
          }
      }
    }

    /**
     Any sequence of setups, reprovisions, reconnects, restarts and shutdowns, with any
     failures, leaves every persistent directory that existed at the start as it was.
     The root path holds the tree that was provisioned last, as the calls of the run
     tell it, unless one that can leave the old tree aside has failed.
     */
    method Serve(requests: seq<Request>) returns (oks: seq<bool>)
      requires layout.Disjoint()
      requires Genuine()
      modifies this
      ensures Genuine() && PersistentKept() && Follows(layout, old(fs), old(trace), fs, trace)
      ensures !Blocked(layout, trace, |old(trace)|) ==>
                var first := Standing(layout.RootTree(old(fs)), None);
                layout.RootIs(fs, Fold(layout, first, trace, |old(trace)|).current)
      ensures (forall i :: 0 <= i < |requests| ==> !requests[i].Provision?) ==> fs == old(fs)
      ensures Served(layout, old(Now()), requests, oks, Now())
    {
      NothingFollows(layout, fs, trace);
      oks := [];
      for i := 0 to |requests|
        invariant Genuine() && PersistentKept() && Follows(layout, old(fs), old(trace), fs, trace)
        invariant (forall j :: 0 <= j < i ==> !requests[j].Provision?) ==> fs == old(fs)
        invariant Served(layout, old(Now()), requests[..i], oks, Now())
      {
        ghost var before := Now();
        SourcesExist(layout, old(fs), fs);
        var ok := Handle(requests[i]);
        FollowsTransitive(layout, old(fs), old(trace), before.fs, before.trace, fs, trace);
        OneMoreServed(layout, old(Now()), requests, i, oks, before, ok, Now());
        oks := oks + [ok];
      }
      WholeSlice(requests);
      RootTreeIsRoot(layout, old(fs));
      assert Stands(layout, Standing(layout.RootTree(old(fs)), None), old(fs));
    }
  }

  // ---------------------------------------------------------------------------
  // How the old tree is lost
  // ---------------------------------------------------------------------------

  lemma MovedAwayAndOver(l: Layout, fs: Fs, old0: Tree, staged: Tree)
    requires l.Disjoint() && TreeAt(fs, l.root, old0) && TreeAt(fs, l.staging, staged)
    ensures var aside := Moved(fs, l.root, l.previous);
            var promoted := Moved(aside, l.staging, l.root);
            && TreeAt(aside, l.staging, staged) && TreeAt(promoted, l.root, staged)
            && TreeAt(promoted, l.previous, old0)
  {
    var aside := Moved(fs, l.root, l.previous);
    MovedTree(fs, l.root, l.previous, old0);
    MovedKeepsTree(fs, l.root, l.previous, l.staging, staged);
    MovedTree(aside, l.staging, l.root, staged);
    MovedKeepsTree(aside, l.staging, l.root, l.previous, old0);
  }

  ghost function Cleared(l: Layout, fs: Fs): Fs { Without(fs, l.previous) }

  ghost function SetAsideFs(l: Layout, fs: Fs): Fs { Moved(Cleared(l, fs), l.root, l.previous) }

  ghost function PromotedFs(l: Layout, fs: Fs): Fs { Moved(SetAsideFs(l, fs), l.staging, l.root) }

  /** The calls of an activation that fails at the marker. */
  ghost function UnmarkedActivation(l: Layout, fs: Fs): seq<Event> {
    [Event(Stop, true, fs, None, 0), Event(Remove(l.previous), true, Cleared(l, fs), None, 0),
     Event(Rename(l.root, l.previous), true, SetAsideFs(l, fs), None, 0),
     Event(Rename(l.staging, l.root), true, PromotedFs(l, fs), None, 0),
     Event(Write(l.marker), false, PromotedFs(l, fs), None, 0)]
  }

  /** The first calls of an activation. */
  ghost function FirstCalls(l: Layout, fs: Fs): seq<Event> {
    [Event(Stop, true, fs, None, 0), Event(Remove(l.previous), true, Cleared(l, fs), None, 0)]
  }

  lemma UnmarkedIsGenuine(l: Layout, fs: Fs)
    requires Exists(Cleared(l, fs), l.root) && Exists(SetAsideFs(l, fs), l.staging)
    ensures GenuineRun(l, fs, UnmarkedActivation(l, fs), 5)
  {
    var first := UnmarkedActivation(l, fs);
    assert GenuineRun(l, fs, first, 0);
    assert Effect(l, fs, first[0]) && GenuineRun(l, fs, first, 1);
    assert Effect(l, fs, first[1]) && GenuineRun(l, fs, first, 2);
    assert Effect(l, Cleared(l, fs), first[2]) && GenuineRun(l, fs, first, 3);
    assert Effect(l, SetAsideFs(l, fs), first[3]) && GenuineRun(l, fs, first, 4);
    assert Effect(l, PromotedFs(l, fs), first[4]);
  }

  lemma FirstCallsAreGenuine(l: Layout, fs: Fs)
    ensures GenuineRun(l, fs, FirstCalls(l, fs), 2)
  {
    var next := FirstCalls(l, fs);
    assert GenuineRun(l, fs, next, 0);
    assert Effect(l, fs, next[0]) && GenuineRun(l, fs, next, 1);
    assert Effect(l, fs, next[1]);
  }

  lemma UnmarkedLeavesAside(l: Layout, fs: Fs, old0: Tree, staged: Tree)
    requires l.Disjoint() && l.RootIs(fs, Some(old0)) && TreeAt(fs, l.staging, staged) && staged([]).Some?
    ensures Exists(Cleared(l, fs), l.root) && Exists(SetAsideFs(l, fs), l.staging)
    ensures TreeAt(PromotedFs(l, fs), l.root, staged) && TreeAt(PromotedFs(l, fs), l.previous, old0)
    ensures old0([]).Some?
  {
    var cleared := Cleared(l, fs);
    OnlyUnderKeepsTree(fs, cleared, l.previous, l.root, old0);
    OnlyUnderKeepsTree(fs, cleared, l.previous, l.staging, staged);
    MovedAwayAndOver(l, cleared, old0, staged);
    assert l.root + [] == l.root && l.staging + [] == l.staging;
    assert cleared(l.root + []) == fs(l.root + []) && SetAsideFs(l, fs)(l.staging + []) == staged([]);
  }

  lemma UnmarkedCommitsNothing(l: Layout, fs: Fs, s: Standing)
    ensures Fold(l, s, UnmarkedActivation(l, fs), 0).current == s.current
  {
    NoLaunchNoChange(l, s, UnmarkedActivation(l, fs), 0);
  }

  lemma NowhereLeft(l: Layout, promoted: Fs, again: Fs, old0: Tree, staged: Tree, rel: Path)
    requires l.Disjoint() && TreeAt(promoted, l.root, staged) && SameTree(promoted, again, l.root)
    requires old0([]).Some? && staged(rel) != old0(rel)
    ensures !TreeAt(promoted, l.root, old0) && !l.OldAt(Cleared(l, again), Some(old0))
  {
    assert promoted(l.root + rel) == staged(rel) && again(l.root + rel) == promoted(l.root + rel);
    ClearingPreviousKeepsOnlyTheRoot(l, again, Cleared(l, again), old0);
  }

  /**
   An activation whose marker cannot be written ends with the old tree at the previous
   path only, although it is still the tree provisioned last. Whatever is staged next,
   the first calls of the next activation leave it nowhere.
   */
  lemma OldTreeCanBeLost(l: Layout, fs: Fs, old0: Tree, staged: Tree, rel: Path, again: Fs)
    requires l.Disjoint() && l.RootIs(fs, Some(old0)) && TreeAt(fs, l.staging, staged) && staged([]).Some?
    requires staged(rel) != old0(rel) && l.Preserved(PromotedFs(l, fs), again)
    ensures GenuineRun(l, fs, UnmarkedActivation(l, fs), 5)
    ensures Fold(l, Standing(Some(old0), None), UnmarkedActivation(l, fs), 0).current == Some(old0)
    ensures TreeAt(PromotedFs(l, fs), l.previous, old0) && !TreeAt(PromotedFs(l, fs), l.root, old0)
    ensures GenuineRun(l, again, FirstCalls(l, again), 2) && !l.OldAt(Cleared(l, again), Some(old0))
  {
    UnmarkedLeavesAside(l, fs, old0, staged);
    UnmarkedIsGenuine(l, fs);
    UnmarkedCommitsNothing(l, fs, Standing(Some(old0), None));
    FirstCallsAreGenuine(l, again);
    NowhereLeft(l, PromotedFs(l, fs), again, old0, staged, rel);
  }
}
