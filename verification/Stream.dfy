/**
 A stream of encoded items read one after the other, over any encoding whose items
 tell where they end: what a reader gets of a stream that is cut.
 */
module Stream {
  import opened Prelude
  import opened Wire

  datatype Format<!T> = Format(read: seq<Byte> -> Parsed<T>, write: T -> seq<Byte>, fits: T -> bool)

  ghost predicate ReadsBack<T>(f: Format<T>, x: T, rest: seq<Byte>) { f.read(f.write(x) + rest) == Ok(x, rest) }

  ghost predicate FailsShort<T>(f: Format<T>, x: T, n: nat) { n < |f.write(x)| ==> f.read(f.write(x)[..n]).Err? }

  /** Items read back whatever follows them, and no proper prefix of one reads as an item. */
  ghost predicate Framed<T(!new)>(f: Format<T>) {
    && (forall x: T, rest: seq<Byte> :: f.fits(x) ==> ReadsBack(f, x, rest))
    && (forall x: T, n: nat :: f.fits(x) ==> FailsShort(f, x, n))
    && (forall x: T :: f.fits(x) ==> f.write(x) != [])
  }

  function WriteAll<T>(f: Format<T>, xs: seq<T>): seq<Byte> {
    if xs == [] then [] else f.write(xs[0]) + WriteAll(f, xs[1..])
  }

  /** Every item that arrives whole. */
  function ReadAll<T>(f: Format<T>, b: seq<Byte>): seq<T>
    decreases |b|
  {
    var r := f.read(b);
    if r.Err? || |r.rest| >= |b| then [] else [r.value] + ReadAll(f, r.rest)
  }

  /** How many items arrive whole when the connection is lost after `n` bytes. */
  function Whole<T>(f: Format<T>, xs: seq<T>, n: nat): (k: nat)
    ensures k <= |xs|
  {
    if xs == [] || n < |f.write(xs[0])| then 0 else 1 + Whole(f, xs[1..], n - |f.write(xs[0])|)
  }

  lemma CutInside(w: seq<Byte>, tail: seq<Byte>, n: nat)
    requires n < |w|
    ensures (w + tail)[..n] == w[..n]
  {
  }

  lemma CutBeyond(w: seq<Byte>, tail: seq<Byte>, m: nat)
    requires m <= |tail|
    ensures (w + tail)[..|w| + m] == w + tail[..m]
  {
  }

  lemma HeadAndTake<T>(xs: seq<T>, k: nat)
    requires k < |xs|
    ensures [xs[0]] + xs[1..][..k] == xs[..k + 1]
  {
  }

  lemma ReadAllHead<T(!new)>(f: Format<T>, x: T, rest: seq<Byte>)
    requires Framed(f) && f.fits(x)
    ensures ReadAll(f, f.write(x) + rest) == [x] + ReadAll(f, rest)
  {
    assert ReadsBack(f, x, rest);
  }

  lemma ReadAllNone<T(!new)>(f: Format<T>, x: T, n: nat)
    requires Framed(f) && f.fits(x) && n < |f.write(x)|
    ensures ReadAll(f, f.write(x)[..n]) == []
  {
    assert FailsShort(f, x, n);
  }

  /**
   Cutting the stream of any sequence of items anywhere loses exactly a suffix of the
   items: the reader gets the ones that arrived whole, in order, then an error.
   */
  lemma {:induction false} CutLosesASuffix<T(!new)>(f: Format<T>, xs: seq<T>, n: nat)
    requires Framed(f) && (forall x :: x in xs ==> f.fits(x)) && n <= |WriteAll(f, xs)|
    ensures ReadAll(f, WriteAll(f, xs)[..n]) == xs[..Whole(f, xs, n)]
    decreases |xs|
  {
    if xs == [] {
      NothingRead(f);
    } else {
      var w, rest := f.write(xs[0]), xs[1..];
      var tail := WriteAll(f, rest);
      if n < |w| {
        CutInside(w, tail, n);
        ReadAllNone(f, xs[0], n);
      } else {
        var m := n - |w|;
        CutLosesASuffix(f, rest, m);
        CutBeyond(w, tail, m);
        ReadAllHead(f, xs[0], tail[..m]);
        HeadAndTake(xs, Whole(f, rest, m));
      }
    }
  }

  lemma NothingRead<T>(f: Format<T>)
    ensures ReadAll(f, []) == []
  {
  }

  lemma {:induction false} EverythingArrives<T>(f: Format<T>, xs: seq<T>)
    ensures Whole(f, xs, |WriteAll(f, xs)|) == |xs|
  {
    if xs != [] { EverythingArrives(f, xs[1..]); }
  }

  lemma Regroup<T>(xs: seq<T>, x: T, more: seq<T>)
    ensures xs + ([x] + more) == (xs + [x]) + more
  {
  }

  /** The reading loop of a peer: items are handled until a read fails. */
  method ReadUntilError<T>(f: Format<T>, b: seq<Byte>) returns (xs: seq<T>)
    ensures xs == ReadAll(f, b)
  {
    xs := [];
    var rest := b;
    var r := f.read(rest);
    NothingAppended(ReadAll(f, b));
    while r.Ok? && |r.rest| < |rest|
      invariant xs + ReadAll(f, rest) == ReadAll(f, b) && r == f.read(rest)
      decreases |rest|
    {
      Regroup(xs, r.value, ReadAll(f, r.rest));
      xs, rest := xs + [r.value], r.rest;
      r := f.read(rest);
    }
    NothingAppended(xs);
  }
}
