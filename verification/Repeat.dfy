/**
 A counted repetition of encoded elements, over any element codec. An element may
 have a shorter encoding that is understood only at the very end of the input.
 */
module Repeat {
  import opened Prelude
  import opened Wire

  /**
   `take` decodes one element; `full` and `short` are its encodings, `fits` says when
   the encodings are faithful and `mayShorten` when the short one is allowed.
   */
  datatype Codec<!T> = Codec(
    take: seq<Byte> -> Parsed<T>,
    full: T -> seq<Byte>,
    short: T -> seq<Byte>,
    fits: T -> bool,
    mayShorten: T -> bool)

  /** What the repetition needs to know about its elements. */
  ghost predicate Lawful<T(!new)>(c: Codec<T>) {
    && c.take([]).Err?
    && (forall b: seq<Byte> :: c.take(b).Ok? ==> Accepts(c, b, c.take(b).value, c.take(b).rest))
    && (forall x: T, rest: seq<Byte> :: c.fits(x) ==> c.take(c.full(x) + rest) == Ok(x, rest))
    && (forall x: T :: c.fits(x) && c.mayShorten(x) ==>
          c.take(c.short(x)) == Ok(x, []) && c.full(x) == c.short(x) + [0])
  }

  ghost predicate Accepts<T>(c: Codec<T>, b: seq<Byte>, x: T, rest: seq<Byte>) {
    && c.fits(x)
    && (b == c.full(x) + rest || (rest == [] && c.mayShorten(x) && b == c.short(x)))
  }

  function PutAll<T>(c: Codec<T>, xs: seq<T>): seq<Byte> {
    if xs == [] then [] else c.full(xs[0]) + PutAll(c, xs[1..])
  }

  /** All elements, the last one in its short form. */
  function PutAllShort<T>(c: Codec<T>, xs: seq<T>): seq<Byte>
    requires xs != []
  {
    if |xs| == 1 then c.short(xs[0]) else c.full(xs[0]) + PutAllShort(c, xs[1..])
  }

  function TakeAll<T>(c: Codec<T>, b: seq<Byte>, count: nat): Parsed<seq<T>>
    decreases count
  {
    if count == 0 then Ok([], b) else
    var x := c.take(b);
    if x.Err? then Err else
    var more := TakeAll(c, x.rest, count - 1);
    if more.Err? then Err else Ok([x.value] + more.value, more.rest)
  }

  ghost predicate AllFit<T>(c: Codec<T>, xs: seq<T>) {
    forall k :: 0 <= k < |xs| ==> c.fits(xs[k])
  }

  predicate MayShortenLast<T>(c: Codec<T>, xs: seq<T>) {
    xs != [] && c.mayShorten(xs[|xs| - 1])
  }

  lemma Cons<T>(c: Codec<T>, x: T, xs: seq<T>)
    ensures PutAll(c, [x] + xs) == c.full(x) + PutAll(c, xs)
    ensures PutAllShort(c, [x] + xs) == if xs == [] then c.short(x) else c.full(x) + PutAllShort(c, xs)
    ensures MayShortenLast(c, [x] + xs) == if xs == [] then c.mayShorten(x) else MayShortenLast(c, xs)
    ensures c.fits(x) && AllFit(c, xs) ==> AllFit(c, [x] + xs)
  {
    assert ([x] + xs)[1..] == xs;
  }

  /** `b` is one of the encodings of `xs`, followed by `rest`. */
  ghost predicate Encodes<T>(c: Codec<T>, b: seq<Byte>, xs: seq<T>, rest: seq<Byte>) {
    || b == PutAll(c, xs) + rest
    || (rest == [] && MayShortenLast(c, xs) && b == PutAllShort(c, xs))
  }

  lemma EncodesCons<T>(c: Codec<T>, x: T, xs: seq<T>, b: seq<Byte>, rest: seq<Byte>)
    requires Encodes(c, b, xs, rest)
    ensures Encodes(c, c.full(x) + b, [x] + xs, rest)
  {
    Cons(c, x, xs);
    Assoc(c.full(x), PutAll(c, xs), rest);
  }

  lemma {:induction false} TakeAllSound<T(!new)>(c: Codec<T>, b: seq<Byte>, count: nat)
    requires Lawful(c) && TakeAll(c, b, count).Ok?
    ensures var r := TakeAll(c, b, count);
            |r.value| == count && AllFit(c, r.value) && Encodes(c, b, r.value, r.rest)
    decreases count
  {
    if count > 0 {
      var x := c.take(b);
      assert Accepts(c, b, x.value, x.rest);
      var more := TakeAll(c, x.rest, count - 1);
      TakeAllSound(c, x.rest, count - 1);
      Cons(c, x.value, more.value);
      if b == c.full(x.value) + x.rest {
        EncodesCons(c, x.value, more.value, x.rest, more.rest);
      } else {
        assert more.value == [];
      }
    } else {
      assert [] + b == b;
    }
  }

  lemma {:induction false} TakePutAll<T(!new)>(c: Codec<T>, xs: seq<T>, rest: seq<Byte>)
    requires Lawful(c) && AllFit(c, xs)
    ensures TakeAll(c, PutAll(c, xs) + rest, |xs|) == Ok(xs, rest)
  {
    if xs == [] {
      assert [] + rest == rest;
    } else {
      Assoc(c.full(xs[0]), PutAll(c, xs[1..]), rest);
      TakePutAll(c, xs[1..], rest);
      assert [xs[0]] + xs[1..] == xs;
    }
  }

  lemma {:induction false} TakePutAllShort<T(!new)>(c: Codec<T>, xs: seq<T>)
    requires Lawful(c) && AllFit(c, xs) && MayShortenLast(c, xs)
    ensures TakeAll(c, PutAllShort(c, xs), |xs|) == Ok(xs, [])
    ensures PutAll(c, xs) == PutAllShort(c, xs) + [0]
  {
    var first, tail := xs[0], xs[1..];
    assert [first] + tail == xs;
    if |xs| == 1 {
      assert PutAll(c, tail) == [] && c.full(first) + [] == c.full(first);
    } else {
      TakePutAllShort(c, tail);
      Assoc(c.full(first), PutAllShort(c, tail), [0]);
    }
  }

  /** A result with the elements already decoded put in front. */
  ghost function Prepend<T>(xs: seq<T>, r: Parsed<seq<T>>): Parsed<seq<T>> {
    if r.Err? then Err else Ok(xs + r.value, r.rest)
  }

  lemma PrependStep<T>(c: Codec<T>, xs: seq<T>, b: seq<Byte>, count: nat)
    requires count > 0 && c.take(b).Ok?
    ensures var x := c.take(b);
            Prepend(xs, TakeAll(c, b, count)) == Prepend(xs + [x.value], TakeAll(c, x.rest, count - 1))
  {
    var x := c.take(b);
    var more := TakeAll(c, x.rest, count - 1);
    if more.Ok? {
      assert xs + ([x.value] + more.value) == (xs + [x.value]) + more.value;
    }
  }

  /** The decoding loop: a cursor over the input, one element per turn. */
  method TakeCounted<T>(c: Codec<T>, b: seq<Byte>, count: nat) returns (r: Parsed<seq<T>>)
    ensures r == TakeAll(c, b, count)
  {
    var xs, rest := [], b;
    ghost var whole := TakeAll(c, b, count);
    assert whole.Ok? ==> [] + whole.value == whole.value;
    var i := 0;
    while i < count
      invariant 0 <= i <= count
      invariant whole == Prepend(xs, TakeAll(c, rest, count - i))
    {
      var x := c.take(rest);
      if x.Err? { return Err; }
      PrependStep(c, xs, rest, count - i);
      xs, rest, i := xs + [x.value], x.rest, i + 1;
    }
    assert xs + [] == xs;
    return Ok(xs, rest);
  }

  // ---------------------------------------------------------------------------
  // With the count in front
  // ---------------------------------------------------------------------------

  predicate CountFits<T>(c: Codec<T>, xs: seq<T>) {
    |xs| < U32_LIMIT && forall k :: 0 <= k < |xs| ==> c.fits(xs[k])
  }

  function EncodeCounted<T>(c: Codec<T>, xs: seq<T>): seq<Byte> {
    PutU32(AsU32(|xs|)) + PutAll(c, xs)
  }

  function DecodeCounted<T>(c: Codec<T>, b: seq<Byte>): Option<seq<T>> {
    var count := TakeU32(b);
    if count.Err? then None else
    var xs := TakeAll(c, count.rest, count.value);
    if xs.Err? || xs.rest != [] then None else Some(xs.value)
  }

  /** `short` is `full` without its last `n` bytes. */
  predicate Shortened(short: seq<Byte>, full: seq<Byte>, n: nat) {
    |full| >= n && short == full[..|full| - n]
  }

  lemma DecodeCountedSound<T(!new)>(c: Codec<T>, b: seq<Byte>)
    requires Lawful(c) && DecodeCounted(c, b).Some?
    ensures var xs := DecodeCounted(c, b).value;
            && CountFits(c, xs)
            && (|| b == EncodeCounted(c, xs)
                || (MayShortenLast(c, xs) && b == PutU32(AsU32(|xs|)) + PutAllShort(c, xs)))
  {
    var count := TakeU32(b);
    TakeAllSound(c, count.rest, count.value);
    var xs := DecodeCounted(c, b).value;
    assert AsU32(|xs|) == count.value;
    assert PutAll(c, xs) + [] == PutAll(c, xs);
  }

  lemma DecodeEncodeCounted<T(!new)>(c: Codec<T>, xs: seq<T>)
    requires Lawful(c) && CountFits(c, xs)
    ensures DecodeCounted(c, EncodeCounted(c, xs)) == Some(xs)
  {
    assert AsU32(|xs|) == |xs|;
    TakePutU32(|xs|, PutAll(c, xs));
    assert PutAll(c, xs) + [] == PutAll(c, xs);
    TakePutAll(c, xs, []);
  }

  lemma DecodeShortCounted<T(!new)>(c: Codec<T>, xs: seq<T>)
    requires Lawful(c) && CountFits(c, xs) && MayShortenLast(c, xs)
    ensures var short := PutU32(AsU32(|xs|)) + PutAllShort(c, xs);
            DecodeCounted(c, short) == Some(xs) && EncodeCounted(c, xs) == short + [0]
  {
    assert AsU32(|xs|) == |xs|;
    TakePutU32(|xs|, PutAllShort(c, xs));
    TakePutAllShort(c, xs);
    Assoc(PutU32(|xs|), PutAllShort(c, xs), [0]);
  }

  /**
   The exact preimage of every sequence: its full encoding, and that encoding
   without its last byte when the last element may be shortened.
   */
  lemma CountedPreimage<T(!new)>(c: Codec<T>, xs: seq<T>, b: seq<Byte>)
    requires Lawful(c)
    ensures DecodeCounted(c, b) == Some(xs) <==>
            && CountFits(c, xs)
            && (|| b == EncodeCounted(c, xs)
                || (MayShortenLast(c, xs) && Shortened(b, EncodeCounted(c, xs), 1)))
  {
    if DecodeCounted(c, b) == Some(xs) { 
      DecodeCountedSound(c, b);
    }
    if CountFits(c, xs) {
      DecodeEncodeCounted(c, xs);
      if MayShortenLast(c, xs) { DecodeShortCounted(c, xs); }
    }
  }

  lemma PutAllSnoc<T>(c: Codec<T>, xs: seq<T>, x: T)
    ensures PutAll(c, xs + [x]) == PutAll(c, xs) + c.full(x)
  {
    if xs == [] {
      assert [] + [x] == [x] && [x][1..] == [];
      assert c.full(x) + [] == c.full(x) == [] + c.full(x);
    } else {
      assert (xs + [x])[1..] == xs[1..] + [x];
      PutAllSnoc(c, xs[1..], x);
      Assoc(c.full(xs[0]), PutAll(c, xs[1..]), c.full(x));
    }
  }

  /** The elements lie one after the other, by where a single one lies and how long it is. */
  predicate AllAt<T>(at: (seq<Byte>, nat, T) -> bool, size: T -> nat, b: seq<Byte>, p: nat, xs: seq<T>)
    decreases |xs|
  {
    if xs == [] then p <= |b| else at(b, p, xs[0]) && AllAt(at, size, b, p + size(xs[0]), xs[1..])
  }

  function TotalSize<T>(size: T -> nat, xs: seq<T>): nat {
    if xs == [] then 0 else size(xs[0]) + TotalSize(size, xs[1..])
  }

  /** `at` and `size` are right about the full encoding of the element. */
  ghost predicate Placed<T>(c: Codec<T>, at: (seq<Byte>, nat, T) -> bool, size: T -> nat, b: seq<Byte>, p: nat, x: T) {
    (At(b, p, c.full(x)) <==> at(b, p, x)) && |c.full(x)| == size(x)
  }

  lemma {:induction false} AllIff<T(!new)>(c: Codec<T>, at: (seq<Byte>, nat, T) -> bool, size: T -> nat, b: seq<Byte>,
                                           p: nat, xs: seq<T>)
    requires forall q: nat, x: T :: Placed(c, at, size, b, q, x)
    ensures At(b, p, PutAll(c, xs)) <==> AllAt(at, size, b, p, xs)
    ensures |PutAll(c, xs)| == TotalSize(size, xs)
    decreases |xs|
  {
    if xs != [] {
      assert Placed(c, at, size, b, p, xs[0]);
      AtPair(b, p, p + size(xs[0]), c.full(xs[0]), PutAll(c, xs[1..]));
      AllIff(c, at, size, b, p + size(xs[0]), xs[1..]);
    }
  }

  /** The count modulo 2^32, and then the elements. */
  predicate CountedAt<T>(at: (seq<Byte>, nat, T) -> bool, size: T -> nat, b: seq<Byte>, p: nat, xs: seq<T>) {
    U32At(b, p, |xs| % 0x1_0000_0000) && AllAt(at, size, b, p + 4, xs)
  }

  lemma CountedIff<T(!new)>(c: Codec<T>, at: (seq<Byte>, nat, T) -> bool, size: T -> nat, b: seq<Byte>, p: nat,
                            xs: seq<T>)
    requires forall q: nat, x: T :: Placed(c, at, size, b, q, x)
    ensures At(b, p, EncodeCounted(c, xs)) <==> CountedAt(at, size, b, p, xs)
    ensures |EncodeCounted(c, xs)| == 4 + TotalSize(size, xs)
  {
    AtPair(b, p, p + 4, PutU32(AsU32(|xs|)), PutAll(c, xs));
    U32Iff(b, p, AsU32(|xs|));
    AllIff(c, at, size, b, p + 4, xs);
  }

  lemma ShortenedByFlag(b: seq<Byte>, full: seq<Byte>)
    requires full != [] && full[|full| - 1] == 0
    ensures Shortened(b, full, 1) <==> b + [0] == full
  {
    SplitLast(full);
    Appended(b, 0);
  }

  /** The encoding loop: the count, then one element per turn. */
  method PutCounted<T>(c: Codec<T>, xs: seq<T>) returns (out: seq<Byte>)
    ensures out == EncodeCounted(c, xs)
  {
    out := PutU32(AsU32(|xs|));
    ghost var head := out;
    assert head + PutAll(c, []) == head;
    for i := 0 to |xs|
      invariant out == head + PutAll(c, xs[..i])
    {
      PutAllSnoc(c, xs[..i], xs[i]);
      assert xs[..i] + [xs[i]] == xs[..i + 1];
      Assoc(head, PutAll(c, xs[..i]), c.full(xs[i]));
      out := out + c.full(xs[i]);
    }
    assert xs[..|xs|] == xs;
  }

  /** The whole decoder: the count, the loop, and nothing left over. */
  method DecodeLoop<T>(c: Codec<T>, data: seq<Byte>) returns (r: Option<seq<T>>)
    ensures r == DecodeCounted(c, data)
  {
    var count := TakeU32(data);
    if count.Err? { return None; }
    var taken := TakeCounted(c, count.rest, count.value);
    if taken.Err? || taken.rest != [] { return None; }
    return Some(taken.value);
  }
}
