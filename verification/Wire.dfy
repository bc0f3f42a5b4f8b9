/**
 The primitives of the wire format (crates/protocol/src/lib.rs): big-endian
 integers, UTF-8 strings and length-prefixed byte strings.

 Every `Take` function consumes a prefix of its input. Each comes in two halves:
 its `ensures` says that what it accepts is exactly the encoding of what it
 returns, and a lemma says that it accepts every encoding, whatever follows.

 The bytes themselves are fixed by position: each `At` predicate says which byte of
 a buffer holds what, by the digits of the numbers, and a lemma for each `Put`
 function says that its output lies at a position if and only if those bytes do.
 */
module Wire {
  import opened Prelude

  datatype Parsed<+T> = Ok(value: T, rest: seq<Byte>) | Err

  lemma Assoc(a: seq<Byte>, b: seq<Byte>, c: seq<Byte>)
    ensures (a + b) + c == a + (b + c)
  {
  }

  // ---------------------------------------------------------------------------
  // Positions
  // ---------------------------------------------------------------------------

  /** `s` lies in `b` from position `p` on. */
  predicate At(b: seq<Byte>, p: nat, s: seq<Byte>) {
    p + |s| <= |b| && forall k :: 0 <= k < |s| ==> b[p + k] == s[k]
  }

  lemma AtBoth(b: seq<Byte>, p: nat, s: seq<Byte>, t: seq<Byte>)
    ensures At(b, p, s + t) <==> At(b, p, s) && At(b, p + |s|, t)
  {
    if At(b, p, s + t) {
      forall k | 0 <= k < |s| ensures b[p + k] == s[k] { assert (s + t)[k] == s[k]; }
      forall k | 0 <= k < |t| ensures b[p + |s| + k] == t[k] { assert (s + t)[|s| + k] == t[k]; }
    }
  }

  lemma AtPair(b: seq<Byte>, p: nat, q: nat, s: seq<Byte>, t: seq<Byte>)
    requires q == p + |s|
    ensures At(b, p, s + t) <==> At(b, p, s) && At(b, q, t)
  {
    AtBoth(b, p, s, t);
  }

  lemma AtStart(b: seq<Byte>, s: seq<Byte>)
    ensures b == s <==> At(b, 0, s) && |b| == |s|
  {
    if At(b, 0, s) && |b| == |s| {
      assert forall k :: 0 <= k < |s| ==> b[k] == s[k];
    }
  }

  /** The byte at `p` is `x`. */
  predicate ByteAt(b: seq<Byte>, p: nat, x: Byte) { p < |b| && b[p] == x }

  lemma ByteIff(b: seq<Byte>, p: nat, x: Byte)
    ensures At(b, p, [x]) <==> ByteAt(b, p, x)
  {
    assert [x][0] == x;
  }

  // ---------------------------------------------------------------------------
  // UTF-8, as accepted by String::from_utf8 (Unicode, Table 3-7)
  // ---------------------------------------------------------------------------

  predicate Tail(b: Byte) { 0x80 <= b <= 0xBF }

  /** The number of bytes of the well-formed sequence that `s` starts with, or 0. */
  function ScalarLength(s: seq<Byte>): (n: nat)
    ensures n <= |s|
  {
    if |s| >= 1 && s[0] <= 0x7F then 1
    else if |s| >= 2 && 0xC2 <= s[0] <= 0xDF && Tail(s[1]) then 2
    else if |s| >= 3 && Tail(s[2])
            && (if s[0] == 0xE0 then 0xA0 <= s[1] <= 0xBF
                else if s[0] == 0xED then 0x80 <= s[1] <= 0x9F
                else 0xE1 <= s[0] <= 0xEF && Tail(s[1])) then 3
    else if |s| >= 4 && Tail(s[2]) && Tail(s[3])
            && (if s[0] == 0xF0 then 0x90 <= s[1] <= 0xBF
                else if s[0] == 0xF4 then 0x80 <= s[1] <= 0x8F
                else 0xF1 <= s[0] <= 0xF3 && Tail(s[1])) then 4
    else 0
  }

  predicate ValidUtf8(s: seq<Byte>)
    decreases |s|
  {
    s == [] || (ScalarLength(s) > 0 && ValidUtf8(s[ScalarLength(s)..]))
  }

  /** Unicode scalar values: code points other than surrogates. */
  type Scalar = c: nat | c < 0xD800 || 0xE000 <= c < 0x11_0000

  /** The UTF-8 form of a scalar value: its bits, six to each byte after the first. */
  function EncodeScalar(c: Scalar): seq<Byte> {
    if c < 0x80 then [c]
    else if c < 0x800 then [0xC0 + c / 0x40, 0x80 + c % 0x40]
    else if c < 0x1_0000 then [0xE0 + c / 0x1000, 0x80 + c / 0x40 % 0x40, 0x80 + c % 0x40]
    else [0xF0 + c / 0x4_0000, 0x80 + c / 0x1000 % 0x40, 0x80 + c / 0x40 % 0x40, 0x80 + c % 0x40]
  }

  function EncodeScalars(cs: seq<Scalar>): seq<Byte> {
    if cs == [] then [] else EncodeScalar(cs[0]) + EncodeScalars(cs[1..])
  }

  lemma ScalarIsScanned(c: Scalar, rest: seq<Byte>)
    ensures ScalarLength(EncodeScalar(c) + rest) == |EncodeScalar(c)|
  {
    var e, s := EncodeScalar(c), EncodeScalar(c) + rest;
    if c < 0x80 {
      assert s[0] == e[0];
    } else if c < 0x800 {
      assert s[0] == e[0] && s[1] == e[1];
    } else if c < 0x1_0000 {
      assert s[0] == e[0] && s[1] == e[1] && s[2] == e[2];
    } else {
      assert s[0] == e[0] && s[1] == e[1] && s[2] == e[2] && s[3] == e[3];
    }
  }

  /** The six bits of a tail byte. */
  function Bits(b: Byte): int { b as int - 0x80 }

  /** The number whose bits a well-formed sequence holds. */
  function Scanned(s: seq<Byte>): int
    requires ScalarLength(s) > 0
  {
    var n := ScalarLength(s);
    var first: int := s[0];
    if n == 1 then first
    else if n == 2 then (first - 0xC0) * 0x40 + Bits(s[1])
    else if n == 3 then ((first - 0xE0) * 0x40 + Bits(s[1])) * 0x40 + Bits(s[2])
    else (((first - 0xF0) * 0x40 + Bits(s[1])) * 0x40 + Bits(s[2])) * 0x40 + Bits(s[3])
  }

  /** Six bits more. */
  lemma SixBits(q: int, d: int)
    requires 0 <= d < 0x40 && q >= 0
    ensures (q * 0x40 + d) / 0x40 == q && (q * 0x40 + d) % 0x40 == d
    ensures (q * 0x40 + d) / 0x1000 == q / 0x40 && (q * 0x40 + d) / 0x4_0000 == q / 0x1000
  {
  }

  lemma ShortScanned(s: seq<Byte>)
    requires 0 < ScalarLength(s) <= 2
    ensures 0 <= Scanned(s) < 0x800 && EncodeScalar(Scanned(s)) == s[..ScalarLength(s)]
  {
    if ScalarLength(s) == 2 {
      SixBits(s[0] as int - 0xC0, Bits(s[1]));
    }
  }

  lemma ThreeScanned(s: seq<Byte>)
    requires ScalarLength(s) == 3
    ensures 0x800 <= Scanned(s) < 0x1_0000 && !(0xD800 <= Scanned(s) < 0xE000)
    ensures EncodeScalar(Scanned(s)) == s[..3]
  {
    var high := (s[0] as int - 0xE0) * 0x40 + Bits(s[1]);
    SixBits(s[0] as int - 0xE0, Bits(s[1]));
    SixBits(high, Bits(s[2]));
  }

  lemma FourScanned(s: seq<Byte>)
    requires ScalarLength(s) == 4
    ensures 0x1_0000 <= Scanned(s) < 0x11_0000 && EncodeScalar(Scanned(s)) == s[..4]
  {
    var high := (s[0] as int - 0xF0) * 0x40 + Bits(s[1]);
    var mid := high * 0x40 + Bits(s[2]);
    SixBits(s[0] as int - 0xF0, Bits(s[1]));
    SixBits(high, Bits(s[2]));
    SixBits(mid, Bits(s[3]));
  }

  lemma ScannedIsScalar(s: seq<Byte>) returns (c: Scalar)
    requires ScalarLength(s) > 0
    ensures EncodeScalar(c) == s[..ScalarLength(s)]
  {
    if ScalarLength(s) <= 2 {
      ShortScanned(s);
    } else if ScalarLength(s) == 3 {
      ThreeScanned(s);
    } else {
      FourScanned(s);
    }
    c := Scanned(s);
  }

  lemma {:induction false} EncodedIsValid(cs: seq<Scalar>)
    ensures ValidUtf8(EncodeScalars(cs))
  {
    if cs != [] {
      var first, rest := EncodeScalar(cs[0]), EncodeScalars(cs[1..]);
      ScalarIsScanned(cs[0], rest);
      assert (first + rest)[|first|..] == rest;
      EncodedIsValid(cs[1..]);
    }
  }

  lemma EncodeOneMore(c: Scalar, cs: seq<Scalar>)
    ensures EncodeScalars([c] + cs) == EncodeScalar(c) + EncodeScalars(cs)
  {
    Prepended(c, cs);
  }

  lemma {:induction false} ValidIsEncoded(s: seq<Byte>)
    requires ValidUtf8(s)
    ensures exists cs :: s == EncodeScalars(cs)
    decreases |s|
  {
    if s == [] {
      assert s == EncodeScalars([]);
    } else {
      var n := ScalarLength(s);
      ValidIsEncoded(s[n..]);
      var cs :| s[n..] == EncodeScalars(cs);
      var c := ScannedIsScalar(s);
      EncodeOneMore(c, cs);
      SplitAt(s, n);
    }
  }

  /** A byte string is accepted exactly if it is the UTF-8 form of some sequence of scalar values. */
  lemma ValidIff(s: seq<Byte>)
    ensures ValidUtf8(s) <==> exists cs :: s == EncodeScalars(cs)
  {
    if ValidUtf8(s) { ValidIsEncoded(s); }
    forall cs: seq<Scalar> | s == EncodeScalars(cs) ensures ValidUtf8(s) { EncodedIsValid(cs); }
  }

  type Str = s: seq<Byte> | ValidUtf8(s)

  // ---------------------------------------------------------------------------
  // Integers
  // ---------------------------------------------------------------------------

  /** 256 to the power `width`. */
  function Range(width: nat): (r: nat)
    ensures r > 0
  {
    if width == 0 then 1 else 256 * Range(width - 1)
  }

  /** `n` as `width` bytes, most significant first. */
  function PutUint(n: nat, width: nat): (b: seq<Byte>)
    requires n < Range(width)
    ensures |b| == width
  {
    if width == 0 then [] else PutUint(n / 256, width - 1) + [n % 256]
  }

  function Value(b: seq<Byte>): (n: nat)
    ensures n < Range(|b|)
    ensures PutUint(n, |b|) == b
  {
    if b == [] then 0 else
    var last: int := b[|b| - 1];
    Value(b[..|b| - 1]) * 256 + last
  }

  lemma DivideTwice(n: nat, r: nat)
    requires r > 0
    ensures n / 256 / r == n / (256 * r)
  {
    var q, m := n / (256 * r), n % (256 * r);
    assert n == 256 * (r * q) + m;
    var d := m / 256;
    assert n / 256 == r * q + d && 0 <= d < r;
    Quotient(r, q, d);
  }

  lemma Quotient(r: nat, q: nat, d: nat)
    requires d < r
    ensures (r * q + d) / r == q
  {
    var x := (r * q + d) / r;
    assert r * q + d == r * x + (r * q + d) % r;
    OneMoreTimes(r, x, q);
    OneMoreTimes(r, q, x);
  }

  lemma {:induction false} OneMoreTimes(r: nat, x: nat, y: nat)
    ensures x < y ==> r * x + r <= r * y
    decreases y
  {
    if x + 1 < y { OneMoreTimes(r, x, y - 1); }
    if x < y { assert r * y == r * (y - 1) + r; }
  }

  /** Big-endian: the byte at `k` is the digit of the power of 256 that counts from the other end. */
  lemma {:induction false} PutUintAt(n: nat, width: nat, k: nat)
    requires n < Range(width) && k < width
    ensures PutUint(n, width)[k] == n / Range(width - 1 - k) % 256
  {
    if k < width - 1 {
      PutUintAt(n / 256, width - 1, k);
      DivideTwice(n, Range(width - 2 - k));
    }
  }

  /** `n` lies at `p` in `width` bytes, most significant first. */
  predicate UintAt(b: seq<Byte>, p: nat, n: nat, width: nat) {
    p + width <= |b| && forall k: nat :: k < width ==> DigitAt(b, p, n, width, k)
  }

  predicate DigitAt(b: seq<Byte>, p: nat, n: nat, width: nat, k: nat)
    requires p + width <= |b| && k < width
  {
    b[p + k] == n / Range(width - 1 - k) % 256
  }

  lemma UintIff(b: seq<Byte>, p: nat, n: nat, width: nat)
    requires n < Range(width)
    ensures At(b, p, PutUint(n, width)) <==> UintAt(b, p, n, width)
  {
    var put := PutUint(n, width);
    forall k: nat | k < width && p + width <= |b| ensures DigitAt(b, p, n, width, k) <==> b[p + k] == put[k] {
      PutUintAt(n, width, k);
    }
    if UintAt(b, p, n, width) {
      forall k | 0 <= k < |put| ensures b[p + k] == put[k] { assert DigitAt(b, p, n, width, k); }
    }
  }

  lemma ValueOfPut(n: nat, width: nat)
    requires n < Range(width)
    ensures Value(PutUint(n, width)) == n
  {
    if width > 0 {
      ValueOfPut(n / 256, width - 1);
      var b := PutUint(n, width);
      assert b[..|b| - 1] == PutUint(n / 256, width - 1);
    }
  }

  function TakeUint(b: seq<Byte>, width: nat): (r: Parsed<nat>)
    ensures r.Ok? ==> r.value < Range(width) && b == PutUint(r.value, width) + r.rest
    ensures r.Ok? <==> |b| >= width
  {
    if |b| < width then Err else Ok(Value(b[..width]), b[width..])
  }

  lemma TakePutUint(n: nat, width: nat, rest: seq<Byte>)
    requires n < Range(width)
    ensures TakeUint(PutUint(n, width) + rest, width) == Ok(n, rest)
  {
    ValueOfPut(n, width);
    assert (PutUint(n, width) + rest)[..width] == PutUint(n, width);
    assert (PutUint(n, width) + rest)[width..] == rest;
  }

  /** The ranges of the three integer widths the format uses. */
  lemma Widths()
    ensures Range(2) == 0x1_0000 && Range(4) == U32_LIMIT && Range(8) == U64_MAX + 1
  {
    assert Range(3) == 256 * Range(2);
    assert Range(5) == 256 * Range(4);
    assert Range(6) == 256 * Range(5);
    assert Range(7) == 256 * Range(6);
  }

  function TakeByte(b: seq<Byte>): (r: Parsed<Byte>)
    ensures r.Ok? ==> b == [r.value] + r.rest
    ensures r.Ok? <==> b != []
  {
    if b == [] then Err else Ok(b[0], b[1..])
  }

  lemma TakePutByte(x: Byte, rest: seq<Byte>)
    ensures TakeByte([x] + rest) == Ok(x, rest)
  {
    assert ([x] + rest)[1..] == rest;
  }

  function PutU16(n: U16): (b: seq<Byte>)
    ensures |b| == 2
  {
    Widths();
    PutUint(n, 2)
  }

  function TakeU16(b: seq<Byte>): (r: Parsed<U16>)
    ensures r.Ok? ==> b == PutU16(r.value) + r.rest
    ensures r.Ok? <==> |b| >= 2
  {
    Widths();
    var r := TakeUint(b, 2);
    if r.Err? then Err else Ok(r.value, r.rest)
  }

  predicate U16At(b: seq<Byte>, p: nat, n: U16) { UintAt(b, p, n, 2) }

  lemma U16Iff(b: seq<Byte>, p: nat, n: U16)
    ensures At(b, p, PutU16(n)) <==> U16At(b, p, n)
  {
    Widths();
    UintIff(b, p, n, 2);
  }

  lemma TakePutU16(n: U16, rest: seq<Byte>)
    ensures TakeU16(PutU16(n) + rest) == Ok(n, rest)
  {
    Widths();
    TakePutUint(n, 2, rest);
  }

  function PutU32(n: U32): (b: seq<Byte>)
    ensures |b| == 4
  {
    Widths();
    PutUint(n, 4)
  }

  function TakeU32(b: seq<Byte>): (r: Parsed<U32>)
    ensures r.Ok? ==> b == PutU32(r.value) + r.rest
    ensures r.Ok? <==> |b| >= 4
  {
    Widths();
    var r := TakeUint(b, 4);
    if r.Err? then Err else Ok(r.value, r.rest)
  }

  predicate U32At(b: seq<Byte>, p: nat, n: U32) { UintAt(b, p, n, 4) }

  lemma PutU32Bytes(n: U32)
    ensures PutU32(n) == [n / 0x100_0000, n / 0x1_0000 % 0x100, n / 0x100 % 0x100, n % 0x100]
  {
    Widths();
    assert Range(3) == 0x100_0000;
    PutUintAt(n, 4, 0);
    PutUintAt(n, 4, 1);
    PutUintAt(n, 4, 2);
    PutUintAt(n, 4, 3);
  }

  lemma U32Iff(b: seq<Byte>, p: nat, n: U32)
    ensures At(b, p, PutU32(n)) <==> U32At(b, p, n)
  {
    Widths();
    UintIff(b, p, n, 4);
  }

  lemma TakePutU32(n: U32, rest: seq<Byte>)
    ensures TakeU32(PutU32(n) + rest) == Ok(n, rest)
  {
    Widths();
    TakePutUint(n, 4, rest);
  }

  function PutU64(n: U64): (b: seq<Byte>)
    ensures |b| == 8
  {
    Widths();
    PutUint(n, 8)
  }

  function TakeU64(b: seq<Byte>): (r: Parsed<U64>)
    ensures r.Ok? ==> b == PutU64(r.value) + r.rest
    ensures r.Ok? <==> |b| >= 8
  {
    Widths();
    var r := TakeUint(b, 8);
    if r.Err? then Err else Ok(r.value, r.rest)
  }

  predicate U64At(b: seq<Byte>, p: nat, n: U64) { UintAt(b, p, n, 8) }

  function Zeros(n: nat): (s: seq<Byte>)
    ensures |s| == n
  {
    seq(n, _ => 0)
  }

  lemma PutZero()
    ensures PutU64(0) == Zeros(8)
  {
    Widths();
    forall k: nat | k < 8 ensures PutU64(0)[k] == 0 { PutUintAt(0, 8, k); }
  }

  lemma U64Iff(b: seq<Byte>, p: nat, n: U64)
    ensures At(b, p, PutU64(n)) <==> U64At(b, p, n)
  {
    Widths();
    UintIff(b, p, n, 8);
  }

  lemma TakePutU64(n: U64, rest: seq<Byte>)
    ensures TakeU64(PutU64(n) + rest) == Ok(n, rest)
  {
    Widths();
    TakePutUint(n, 8, rest);
  }

  // ---------------------------------------------------------------------------
  // Length-prefixed strings
  // ---------------------------------------------------------------------------

  /** The cast `len as u32`. */
  function AsU32(n: nat): U32 {
    n % U32_LIMIT
  }

  function PutBytes(s: seq<Byte>): seq<Byte> {
    PutU32(AsU32(|s|)) + s
  }

  /** The length modulo 2^32, and then the bytes. */
  predicate BytesAt(b: seq<Byte>, p: nat, s: seq<Byte>) {
    U32At(b, p, |s| % 0x1_0000_0000) && At(b, p + 4, s)
  }

  lemma BytesIff(b: seq<Byte>, p: nat, s: seq<Byte>)
    ensures At(b, p, PutBytes(s)) <==> BytesAt(b, p, s)
    ensures |PutBytes(s)| == 4 + |s|
  {
    AtBoth(b, p, PutU32(AsU32(|s|)), s);
    U32Iff(b, p, AsU32(|s|));
  }

  /** `take_len_prefixed`. */
  function TakeBytes(b: seq<Byte>): (r: Parsed<seq<Byte>>)
    ensures r.Ok? ==> |r.value| < U32_LIMIT && b == PutBytes(r.value) + r.rest
  {
    var len := TakeU32(b);
    if len.Err? || |len.rest| < len.value then Err else
    var s, rest := len.rest[..len.value], len.rest[len.value..];
    assert AsU32(|s|) == len.value;
    Assoc(PutU32(len.value), s, rest);
    assert s + rest == len.rest;
    Ok(s, rest)
  }

  function TakeStr(b: seq<Byte>): (r: Parsed<Str>)
    ensures r.Ok? ==> |r.value| < U32_LIMIT && b == PutBytes(r.value) + r.rest
  {
    var s := TakeBytes(b);
    if s.Err? || !ValidUtf8(s.value) then Err else Ok(s.value, s.rest)
  }

  lemma TakePutBytes(s: seq<Byte>, rest: seq<Byte>)
    requires |s| < U32_LIMIT
    ensures TakeBytes(PutBytes(s) + rest) == Ok(s, rest)
  {
    assert AsU32(|s|) == |s|;
    Assoc(PutU32(|s|), s, rest);
    TakePutU32(|s|, s + rest);
    assert (s + rest)[..|s|] == s && (s + rest)[|s|..] == rest;
  }

  lemma TakePutStr(s: Str, rest: seq<Byte>)
    requires |s| < U32_LIMIT
    ensures TakeStr(PutBytes(s) + rest) == Ok(s, rest)
  {
    TakePutBytes(s, rest);
  }
}
