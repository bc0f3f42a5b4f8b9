/**
 A file system as the setup code sees it: a function from paths to nodes. Removing
 and renaming act on whole subtrees; a failing removal may already have removed any
 part of its subtree, a failing rename changes nothing.
 */
module Filesystem {
  import opened Prelude

  type Path = seq<string>

  datatype Node = Dir | File(content: seq<Byte>)

  type Fs = Path -> Option<Node>

  /** A subtree, by paths relative to its root. */
  type Tree = Path -> Option<Node>

  predicate Exists(fs: Fs, p: Path) { fs(p).Some? }

  predicate Incomparable(p: Path, q: Path) { !(p <= q) && !(q <= p) }

  function TreeOf(fs: Fs, p: Path): Tree { (rel: Path) => fs(p + rel) }

  /** The subtree of `fs` at `p` is `t`. */
  ghost predicate TreeAt(fs: Fs, p: Path, t: Tree) {
    forall rel: Path :: fs(p + rel) == t(rel)
  }

  /** There is nothing at `p` or below it. */
  ghost predicate Gone(fs: Fs, p: Path) {
    forall k: Path :: p <= k ==> fs(k).None?
  }

  /** Nothing changes outside the subtree at `p`. */
  ghost predicate OnlyUnder(fs: Fs, fs': Fs, p: Path) {
    forall k: Path :: !(p <= k) ==> fs'(k) == fs(k)
  }

  function Without(fs: Fs, p: Path): Fs {
    (k: Path) => if p <= k then None else fs(k)
  }

  function Moved(fs: Fs, a: Path, b: Path): Fs {
    (k: Path) => if b <= k then fs(a + k[|b|..]) else if a <= k then None else fs(k)
  }

  /** What lies below one of two incomparable paths does not lie below the other. */
  lemma BelowOne(p: Path, q: Path, rel: Path)
    requires Incomparable(p, q)
    ensures !(p <= q + rel)
  {
    assert (q + rel)[..|q|] == q;
  }

  lemma BelowIncomparable(p: Path, q: Path, rel: Path)
    requires Incomparable(p, q)
    ensures Incomparable(p + rel, q)
  {
    BelowOne(q, p, rel);
    assert (p + rel)[..|p|] == p;
  }

  lemma OnlyUnderKeepsTree(fs: Fs, fs': Fs, p: Path, q: Path, t: Tree)
    requires OnlyUnder(fs, fs', p) && Incomparable(p, q)
    ensures TreeAt(fs, q, t) <==> TreeAt(fs', q, t)
  {
    forall rel: Path ensures fs'(q + rel) == fs(q + rel) {
      BelowOne(p, q, rel);
    }
  }

  /** A rename moves the subtree, leaves nothing behind and touches nothing else. */
  lemma MovedTree(fs: Fs, a: Path, b: Path, t: Tree)
    requires Incomparable(a, b) && TreeAt(fs, a, t)
    ensures TreeAt(Moved(fs, a, b), b, t)
    ensures Gone(Moved(fs, a, b), a)
    ensures forall k: Path :: !(a <= k) && !(b <= k) ==> Moved(fs, a, b)(k) == fs(k)
  {
    forall rel: Path ensures Moved(fs, a, b)(b + rel) == t(rel) {
      assert (b + rel)[|b|..] == rel;
    }
    forall k: Path | a <= k ensures Moved(fs, a, b)(k).None? {
      BelowOne(b, a, k[|a|..]);
      assert k == a + k[|a|..];
    }
  }

  lemma MovedKeepsTree(fs: Fs, a: Path, b: Path, q: Path, t: Tree)
    requires Incomparable(a, q) && Incomparable(b, q)
    ensures TreeAt(fs, q, t) <==> TreeAt(Moved(fs, a, b), q, t)
  {
    forall rel: Path ensures Moved(fs, a, b)(q + rel) == fs(q + rel) {
      BelowOne(a, q, rel);
      BelowOne(b, q, rel);
    }
  }

  /** The subtree at `p` is the same in both. */
  ghost predicate SameTree(fs: Fs, fs': Fs, p: Path) {
    forall rel: Path :: fs'(p + rel) == fs(p + rel)
  }

  /** `create_dir_all`: the missing directories on the way to `p`. */
  function WithDirs(fs: Fs, p: Path): Fs {
    (k: Path) => if k <= p && fs(k).None? then Some(Dir) else fs(k)
  }

  lemma WithDirsKeepsTree(fs: Fs, p: Path, q: Path)
    requires !(q <= p)
    ensures SameTree(fs, WithDirs(fs, p), q)
  {
    forall rel: Path ensures WithDirs(fs, p)(q + rel) == fs(q + rel) {
      assert (q + rel)[..|q|] == q;
    }
  }

  lemma OnlyUnderSameTree(fs: Fs, fs': Fs, p: Path, q: Path)
    requires OnlyUnder(fs, fs', p) && Incomparable(p, q)
    ensures SameTree(fs, fs', q)
  {
    forall rel: Path ensures fs'(q + rel) == fs(q + rel) {
      BelowOne(p, q, rel);
    }
  }

  /** Moving a subtree leaves every path alone that is incomparable to both ends. */
  lemma MovedSameTree(fs: Fs, a: Path, b: Path, q: Path)
    requires Incomparable(a, q) && Incomparable(b, q)
    ensures SameTree(fs, Moved(fs, a, b), q)
  {
    forall rel: Path ensures Moved(fs, a, b)(q + rel) == fs(q + rel) {
      BelowOne(a, q, rel);
      BelowOne(b, q, rel);
    }
  }
}
