/** Vocabulary shared by the other modules. */
module Prelude {
  datatype Option<+T> = None | Some(value: T)

  type Byte = x: int | 0 <= x < 256

  const U32_LIMIT: nat := 0x1_0000_0000
  const U64_MAX: nat := 0xFFFF_FFFF_FFFF_FFFF

  type U16 = n: nat | n < 0x1_0000
  type U32 = n: nat | n < U32_LIMIT
  type U64 = n: nat | n <= U64_MAX

  function Min(a: nat, b: nat): nat { if a < b then a else b }

  function Max(a: nat, b: nat): nat { if a < b then b else a }

  function Elements<T(==)>(xs: seq<T>): set<T> { set x | x in xs }

  lemma Associative<T>(a: seq<T>, b: seq<T>, c: seq<T>)
    ensures a + (b + c) == a + b + c
  {
  }

  lemma NothingAppended<T>(a: seq<T>)
    ensures a + [] == a && [] + a == a
  {
  }

  lemma SplitFirst<T>(xs: seq<T>)
    requires xs != []
    ensures xs == [xs[0]] + xs[1..]
  {
  }

  lemma SplitLast<T>(xs: seq<T>)
    requires xs != []
    ensures xs == xs[..|xs| - 1] + [xs[|xs| - 1]]
  {
  }

  lemma Appended<T>(xs: seq<T>, x: T)
    ensures (xs + [x])[..|xs|] == xs && (xs + [x])[|xs|] == x
  {
  }

  lemma Prepended<T>(x: T, xs: seq<T>)
    ensures ([x] + xs)[1..] == xs && ([x] + xs)[0] == x
  {
  }

  lemma TakeMore<T>(xs: seq<T>, n: nat)
    requires n < |xs|
    ensures xs[..n + 1] == xs[..n] + [xs[n]]
  {
  }

  lemma WholeSlice<T>(xs: seq<T>)
    ensures xs[..|xs|] == xs && xs[0..] == xs
  {
  }

  lemma SplitAt<T>(xs: seq<T>, n: nat)
    requires n <= |xs|
    ensures xs == xs[..n] + xs[n..]
  {
  }

  lemma AfterTwo<T>(a: seq<T>, b: seq<T>, xs: seq<T>)
    requires a + b <= xs
    ensures xs == a + (b + xs[|a + b|..])
  {
    Associative(a, b, xs[|a + b|..]);
  }

  /** How often a value occurs among the first `n`. */
  function CountUpTo<T(==)>(xs: seq<T>, n: nat, x: T): nat
    requires n <= |xs|
  {
    if n == 0 then 0 else CountUpTo(xs, n - 1, x) + if xs[n - 1] == x then 1 else 0
  }

  lemma MultiplicityAppended<T>(xs: seq<T>, y: T, x: T)
    ensures multiset(xs + [y])[x] == multiset(xs)[x] + if y == x then 1 else 0
  {
  }

  lemma {:induction false} CountIsMultiplicity<T>(xs: seq<T>, n: nat, x: T)
    requires n <= |xs|
    ensures multiset(xs[..n])[x] == CountUpTo(xs, n, x)
  {
    if n > 0 {
      CountIsMultiplicity(xs, n - 1, x);
      TakeMore(xs, n - 1);
      MultiplicityAppended(xs[..n - 1], xs[n - 1], x);
    }
  }

  /** The concatenation of a sequence of sequences. */
  function Flatten<T>(xss: seq<seq<T>>): seq<T> {
    if xss == [] then [] else Flatten(xss[..|xss| - 1]) + xss[|xss| - 1]
  }

  lemma FlattenOne<T>(xss: seq<seq<T>>, xs: seq<T>)
    ensures Flatten(xss + [xs]) == Flatten(xss) + xs
  {
    Appended(xss, xs);
  }

  lemma FlattenSingle<T>(xs: seq<T>)
    ensures Flatten([xs]) == xs
  {
    FlattenOne([], xs);
    NothingAppended([xs]);
    NothingAppended(xs);
  }

  lemma {:induction false} FlattenConcat<T>(a: seq<seq<T>>, b: seq<seq<T>>)
    ensures Flatten(a + b) == Flatten(a) + Flatten(b)
  {
    if b == [] {
      NothingAppended(a);
      NothingAppended(Flatten(a));
    } else {
      var init, last := b[..|b| - 1], b[|b| - 1];
      FlattenConcat(a, init);
      SplitLast(b);
      Associative(a, init, [last]);
      FlattenOne(a + init, last);
      FlattenOne(init, last);
      Associative(Flatten(a), Flatten(init), last);
    }
  }

  /** `u64::saturating_add`. */
  function SaturatingAdd(a: nat, b: nat): nat { Min(a + b, U64_MAX) }
}
