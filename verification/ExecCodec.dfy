/**
 Exec requests and session lists (crates/protocol/src/lib.rs:371-673), whose
 decoders also accept the shorter encodings of older peers.
 */
module ExecCodec {
  import opened Prelude
  import opened Wire
  import opened Repeat

  // ---------------------------------------------------------------------------
  // Argument vectors
  // ---------------------------------------------------------------------------

  function PutStr(s: Str): seq<Byte> { PutBytes(s) }

  /** Arguments are length-prefixed strings and have no short form. */
  function ArgCodec(): Codec<Str> {
    Codec(TakeStr, PutStr, PutStr, (s: Str) => |s| < U32_LIMIT, (s: Str) => false)
  }

  lemma ArgCodecIsLawful()
    ensures Lawful(ArgCodec())
  {
    var c := ArgCodec();
    forall s: Str, rest: seq<Byte> | c.fits(s) ensures c.take(c.full(s) + rest) == Ok(s, rest) {
      TakePutStr(s, rest);
    }
  }

  predicate ArgvFits(argv: seq<Str>) { CountFits(ArgCodec(), argv) }

  function EncodeArgv(argv: seq<Str>): seq<Byte> { EncodeCounted(ArgCodec(), argv) }

  function DecodeArgv(b: seq<Byte>): (r: Option<seq<Str>>)
    ensures r.Some? ==> ArgvFits(r.value) && b == EncodeArgv(r.value)
  {
    ArgCodecIsLawful();
    var r := DecodeCounted(ArgCodec(), b);
    if r.Some? then CountedPreimage(ArgCodec(), r.value, b); r else r
  }

  lemma ArgvTwoSided(argv: seq<Str>, b: seq<Byte>)
    ensures DecodeArgv(b) == Some(argv) <==> ArgvFits(argv) && b == EncodeArgv(argv)
    ensures DecodeArgv(b) == Some(argv) <==> ArgvSized(argv) && ArgvLayout(b, argv)
  {
    ArgCodecIsLawful();
    CountedPreimage(ArgCodec(), argv, b);
    ArgvBytes(argv, b);
  }

  /** What the length and count fields can hold. */
  predicate ArgvSized(argv: seq<Str>) {
    |argv| < 0x1_0000_0000 && forall k :: 0 <= k < |argv| ==> |argv[k]| < 0x1_0000_0000
  }

  function StrSize(s: Str): nat { 4 + |s| }

  predicate StrAt(b: seq<Byte>, p: nat, s: Str) { BytesAt(b, p, s) }

  /** The number of arguments modulo 2^32, and then each argument with its length. */
  predicate ArgvAt(b: seq<Byte>, p: nat, argv: seq<Str>) { CountedAt(StrAt, StrSize, b, p, argv) }

  function ArgvSize(argv: seq<Str>): nat { 4 + TotalSize(StrSize, argv) }

  predicate ArgvLayout(b: seq<Byte>, argv: seq<Str>) { ArgvAt(b, 0, argv) && |b| == ArgvSize(argv) }

  lemma ArgvIff(b: seq<Byte>, p: nat, argv: seq<Str>)
    ensures At(b, p, EncodeArgv(argv)) <==> ArgvAt(b, p, argv)
    ensures |EncodeArgv(argv)| == ArgvSize(argv)
  {
    forall q: nat, s: Str ensures Placed(ArgCodec(), StrAt, StrSize, b, q, s) { BytesIff(b, q, s); }
    CountedIff(ArgCodec(), StrAt, StrSize, b, p, argv);
  }

  /** The encoding of a vector, by the positions of its arguments. */
  lemma ArgvBytes(argv: seq<Str>, b: seq<Byte>)
    ensures b == EncodeArgv(argv) <==> ArgvLayout(b, argv)
  {
    AtStart(b, EncodeArgv(argv));
    ArgvIff(b, 0, argv);
  }

  /** `encode_exec_argv`. */
  method EncodeExecArgv(argv: seq<Str>) returns (out: seq<Byte>)
    ensures out == EncodeArgv(argv)
    ensures ArgvLayout(out, argv)
  {
    out := PutCounted(ArgCodec(), argv);
    ArgvBytes(argv, out);
  }

  /** `decode_exec_argv`. */
  method DecodeExecArgv(data: seq<Byte>) returns (r: Option<seq<Str>>)
    ensures r == DecodeArgv(data)
    ensures forall argv :: r == Some(argv) <==> ArgvSized(argv) && ArgvLayout(data, argv)
  {
    r := DecodeLoop(ArgCodec(), data);
    forall argv: seq<Str> ensures r == Some(argv) <==> ArgvSized(argv) && ArgvLayout(data, argv) {
      ArgvTwoSided(argv, data);
    }
  }

  // ---------------------------------------------------------------------------
  // Optional fields
  // ---------------------------------------------------------------------------

  predicate OptStrFits(o: Option<Str>) { o.Some? ==> |o.value| < U32_LIMIT }

  function PutOptStr(o: Option<Str>): seq<Byte> {
    match o case None => [0] case Some(s) => [1] + PutBytes(s)
  }

  function TakeOptStr(b: seq<Byte>): (r: Parsed<Option<Str>>)
    ensures r.Ok? ==> OptStrFits(r.value) && b == PutOptStr(r.value) + r.rest
  {
    var flag := TakeByte(b);
    if flag.Err? then Err
    else if flag.value == 0 then Ok(None, flag.rest)
    else if flag.value == 1 then
      var s := TakeStr(flag.rest);
      if s.Err? then Err else
      Assoc([1], PutBytes(s.value), s.rest);
      Ok(Some(s.value), s.rest)
    else Err
  }

  lemma TakePutOptStr(o: Option<Str>, rest: seq<Byte>)
    requires OptStrFits(o)
    ensures TakeOptStr(PutOptStr(o) + rest) == Ok(o, rest)
  {
    match o {
      case None => TakePutByte(0, rest);
      case Some(s) =>
        Assoc([1], PutBytes(s), rest);
        TakePutByte(1, PutBytes(s) + rest);
        TakePutStr(s, rest);
    }
  }

  /** A flag byte, and the string if there is one. */
  predicate OptStrAt(b: seq<Byte>, p: nat, o: Option<Str>) {
    match o case None => ByteAt(b, p, 0) case Some(s) => ByteAt(b, p, 1) && BytesAt(b, p + 1, s)
  }

  function OptStrSize(o: Option<Str>): nat { match o case None => 1 case Some(s) => 5 + |s| }

  lemma OptStrIff(b: seq<Byte>, p: nat, o: Option<Str>)
    ensures At(b, p, PutOptStr(o)) <==> OptStrAt(b, p, o)
    ensures |PutOptStr(o)| == OptStrSize(o)
  {
    match o {
      case None => ByteIff(b, p, 0);
      case Some(s) =>
        AtPair(b, p, p + 1, [1], PutBytes(s));
        ByteIff(b, p, 1);
        BytesIff(b, p + 1, s);
    }
  }

  /** An argument vector nested in a length-prefixed block. */
  predicate BlockFits(argv: seq<Str>) {
    ArgvFits(argv) && |EncodeArgv(argv)| < U32_LIMIT
  }

  function PutBlock(argv: seq<Str>): seq<Byte> { PutBytes(EncodeArgv(argv)) }

  function TakeBlock(b: seq<Byte>): (r: Parsed<seq<Str>>)
    ensures r.Ok? ==> BlockFits(r.value) && b == PutBlock(r.value) + r.rest
  {
    var block := TakeBytes(b);
    if block.Err? then Err else
    var argv := DecodeArgv(block.value);
    if argv.None? then Err else Ok(argv.value, block.rest)
  }

  lemma TakePutBlock(argv: seq<Str>, rest: seq<Byte>)
    requires BlockFits(argv)
    ensures TakeBlock(PutBlock(argv) + rest) == Ok(argv, rest)
  {
    TakePutBytes(EncodeArgv(argv), rest);
    ArgvTwoSided(argv, EncodeArgv(argv));
  }

  /** The size of the vector modulo 2^32, and then the vector. */
  predicate BlockAt(b: seq<Byte>, p: nat, argv: seq<Str>) {
    U32At(b, p, ArgvSize(argv) % 0x1_0000_0000) && ArgvAt(b, p + 4, argv)
  }

  function BlockSize(argv: seq<Str>): nat { 4 + ArgvSize(argv) }

  lemma BlockIff(b: seq<Byte>, p: nat, argv: seq<Str>)
    ensures At(b, p, PutBlock(argv)) <==> BlockAt(b, p, argv)
    ensures |PutBlock(argv)| == BlockSize(argv)
  {
    BytesIff(b, p, EncodeArgv(argv));
    ArgvIff(b, p + 4, argv);
  }

  predicate OptBlockFits(o: Option<seq<Str>>) { o.Some? ==> BlockFits(o.value) }

  function PutOptBlock(o: Option<seq<Str>>): seq<Byte> {
    match o case None => [0] case Some(argv) => [1] + PutBlock(argv)
  }

  function TakeOptBlock(b: seq<Byte>): (r: Parsed<Option<seq<Str>>>)
    ensures r.Ok? ==> OptBlockFits(r.value) && b == PutOptBlock(r.value) + r.rest
  {
    var flag := TakeByte(b);
    if flag.Err? then Err
    else if flag.value == 0 then Ok(None, flag.rest)
    else if flag.value == 1 then
      var argv := TakeBlock(flag.rest);
      if argv.Err? then Err else
      Assoc([1], PutBlock(argv.value), argv.rest);
      Ok(Some(argv.value), argv.rest)
    else Err
  }

  lemma TakePutOptBlock(o: Option<seq<Str>>, rest: seq<Byte>)
    requires OptBlockFits(o)
    ensures TakeOptBlock(PutOptBlock(o) + rest) == Ok(o, rest)
  {
    match o {
      case None => TakePutByte(0, rest);
      case Some(argv) =>
        Assoc([1], PutBlock(argv), rest);
        TakePutByte(1, PutBlock(argv) + rest);
        TakePutBlock(argv, rest);
    }
  }

  /** A flag byte, and the block if there is one. */
  predicate OptBlockAt(b: seq<Byte>, p: nat, o: Option<seq<Str>>) {
    match o case None => ByteAt(b, p, 0) case Some(argv) => ByteAt(b, p, 1) && BlockAt(b, p + 1, argv)
  }

  function OptBlockSize(o: Option<seq<Str>>): nat {
    match o case None => 1 case Some(argv) => 1 + BlockSize(argv)
  }

  lemma OptBlockIff(b: seq<Byte>, p: nat, o: Option<seq<Str>>)
    ensures At(b, p, PutOptBlock(o)) <==> OptBlockAt(b, p, o)
    ensures |PutOptBlock(o)| == OptBlockSize(o)
  {
    match o {
      case None => ByteIff(b, p, 0);
      case Some(argv) =>
        AtPair(b, p, p + 1, [1], PutBlock(argv));
        ByteIff(b, p, 1);
        BlockIff(b, p + 1, argv);
    }
  }

  // ---------------------------------------------------------------------------
  // Exec requests
  // ---------------------------------------------------------------------------

  datatype ExecSessionRequest =
    ExecSessionRequest(sessionId: Str, argv: Option<seq<Str>>, context: Option<Str>, renderedBytes: U64)

  predicate RequestFits(r: ExecSessionRequest) {
    |r.sessionId| < U32_LIMIT && OptBlockFits(r.argv) && OptStrFits(r.context)
  }

  /** The two fields every version of the format has. */
  function RequestHead(r: ExecSessionRequest): seq<Byte> {
    PutBytes(r.sessionId) + PutOptBlock(r.argv)
  }

  function EncodeRequest(r: ExecSessionRequest): seq<Byte> {
    RequestHead(r) + (PutOptStr(r.context) + PutU64(r.renderedBytes))
  }

  /** Where the context of a request begins, and where its watermark does. */
  function ContextStart(r: ExecSessionRequest): nat { 4 + |r.sessionId| + OptBlockSize(r.argv) }

  function MarkStart(r: ExecSessionRequest): nat { ContextStart(r) + OptStrSize(r.context) }

  /** The bytes of a request: the id, the vector, the context, and the watermark in the last eight bytes. */
  predicate RequestLayout(b: seq<Byte>, r: ExecSessionRequest) {
    && BytesAt(b, 0, r.sessionId) && OptBlockAt(b, 4 + |r.sessionId|, r.argv)
    && OptStrAt(b, ContextStart(r), r.context) && U64At(b, MarkStart(r), r.renderedBytes)
    && |b| == MarkStart(r) + 8
  }

  lemma RequestSizes(r: ExecSessionRequest)
    ensures |PutBytes(r.sessionId)| == 4 + |r.sessionId|
    ensures |RequestHead(r)| == ContextStart(r)
    ensures |RequestHead(r)| + |PutOptStr(r.context)| == MarkStart(r)
    ensures |EncodeRequest(r)| == MarkStart(r) + 8
  {
    OptBlockIff([], 0, r.argv);
    OptStrIff([], 0, r.context);
  }

  lemma RequestParts(r: ExecSessionRequest, b: seq<Byte>)
    ensures At(b, 0, EncodeRequest(r)) <==>
            && At(b, 0, PutBytes(r.sessionId)) && At(b, 4 + |r.sessionId|, PutOptBlock(r.argv))
            && At(b, ContextStart(r), PutOptStr(r.context)) && At(b, MarkStart(r), PutU64(r.renderedBytes))
  {
    RequestSizes(r);
    AtPair(b, 0, ContextStart(r), RequestHead(r), PutOptStr(r.context) + PutU64(r.renderedBytes));
    AtPair(b, 0, 4 + |r.sessionId|, PutBytes(r.sessionId), PutOptBlock(r.argv));
    AtPair(b, ContextStart(r), MarkStart(r), PutOptStr(r.context), PutU64(r.renderedBytes));
  }

  lemma RequestBytes(r: ExecSessionRequest, b: seq<Byte>)
    ensures b == EncodeRequest(r) <==> RequestLayout(b, r)
  {
    AtStart(b, EncodeRequest(r));
    RequestSizes(r);
    RequestParts(r, b);
    BytesIff(b, 0, r.sessionId);
    OptBlockIff(b, 4 + |r.sessionId|, r.argv);
    OptStrIff(b, ContextStart(r), r.context);
    U64Iff(b, MarkStart(r), r.renderedBytes);
  }

  function DecodeRequest(b: seq<Byte>): Option<ExecSessionRequest> {
    var id := TakeStr(b);
    if id.Err? || id.value == [] then None else
    var argv := TakeOptBlock(id.rest);
    if argv.Err? then None
    else if argv.rest == [] then Some(ExecSessionRequest(id.value, argv.value, None, 0)) else
    var context := TakeOptStr(argv.rest);
    if context.Err? then None
    else if |context.rest| == 0 then Some(ExecSessionRequest(id.value, argv.value, context.value, 0))
    else if |context.rest| == 8 then
      Some(ExecSessionRequest(id.value, argv.value, context.value, TakeU64(context.rest).value))
    else None
  }

  /** The head decodes to itself whatever follows. */
  lemma TakeHead(r: ExecSessionRequest, tail: seq<Byte>)
    requires RequestFits(r)
    ensures TakeStr(RequestHead(r) + tail) == Ok(r.sessionId, PutOptBlock(r.argv) + tail)
    ensures TakeOptBlock(PutOptBlock(r.argv) + tail) == Ok(r.argv, tail)
  {
    Assoc(PutBytes(r.sessionId), PutOptBlock(r.argv), tail);
    TakePutStr(r.sessionId, PutOptBlock(r.argv) + tail);
    TakePutOptBlock(r.argv, tail);
  }

  lemma DecodeEncodeRequest(r: ExecSessionRequest)
    requires RequestFits(r) && r.sessionId != []
    ensures DecodeRequest(EncodeRequest(r)) == Some(r)
  {
    var mark := PutU64(r.renderedBytes);
    TakeHead(r, PutOptStr(r.context) + mark);
    TakePutOptStr(r.context, mark);
    assert mark + [] == mark;
    TakePutU64(r.renderedBytes, []);
  }

  lemma DecodeWithoutWatermark(r: ExecSessionRequest)
    requires RequestFits(r) && r.sessionId != [] && r.renderedBytes == 0
    ensures DecodeRequest(RequestHead(r) + PutOptStr(r.context)) == Some(r)
  {
    TakeHead(r, PutOptStr(r.context));
    TakePutOptStr(r.context, []);
    assert PutOptStr(r.context) + [] == PutOptStr(r.context);
  }

  lemma DecodeHeadOnly(r: ExecSessionRequest)
    requires RequestFits(r) && r.sessionId != [] && r.renderedBytes == 0 && r.context.None?
    ensures DecodeRequest(RequestHead(r)) == Some(r)
  {
    TakeHead(r, []);
    assert RequestHead(r) + [] == RequestHead(r);
    assert PutOptBlock(r.argv) + [] == PutOptBlock(r.argv);
  }

  /** What the decoder accepts is one of the three encodings of what it returns. */
  lemma DecodeRequestSound(b: seq<Byte>)
    requires DecodeRequest(b).Some?
    ensures var r := DecodeRequest(b).value;
            && RequestFits(r) && r.sessionId != []
            && (|| b == EncodeRequest(r)
                || (r.renderedBytes == 0 && b == RequestHead(r) + PutOptStr(r.context))
                || (r.renderedBytes == 0 && r.context.None? && b == RequestHead(r)))
  {
    var r := DecodeRequest(b).value;
    var id := TakeStr(b);
    var argv := TakeOptBlock(id.rest);
    Assoc(PutBytes(id.value), PutOptBlock(argv.value), argv.rest);
    assert b == RequestHead(r) + argv.rest;
    if argv.rest != [] {
      var context := TakeOptStr(argv.rest);
      if |context.rest| == 8 {
        var mark := TakeU64(context.rest);
        assert mark.rest == [];
        assert context.rest == PutU64(mark.value);
      } else {
        assert context.rest == [];
        assert argv.rest == PutOptStr(context.value);
      }
    }
  }

  lemma ShortForms(r: ExecSessionRequest)
    ensures Shortened(RequestHead(r) + PutOptStr(r.context), EncodeRequest(r), 8)
    ensures r.context.None? ==> Shortened(RequestHead(r), EncodeRequest(r), 9)
  {
    Assoc(RequestHead(r), PutOptStr(r.context), PutU64(r.renderedBytes));
  }

  /** The full encoding, or one of the two short forms older clients send. */
  predicate FormOf(r: ExecSessionRequest, b: seq<Byte>) {
    || b == EncodeRequest(r)
    || (r.renderedBytes == 0 && Shortened(b, EncodeRequest(r), 8))
    || (r.renderedBytes == 0 && r.context.None? && Shortened(b, EncodeRequest(r), 9))
  }

  lemma DecodedForm(r: ExecSessionRequest, b: seq<Byte>)
    requires DecodeRequest(b) == Some(r)
    ensures RequestFits(r) && r.sessionId != [] && FormOf(r, b)
  {
    DecodeRequestSound(b);
    ShortForms(r);
  }

  /** A byte string has one form of each length. */
  lemma SameShortened(a: seq<Byte>, b: seq<Byte>, full: seq<Byte>, n: nat)
    requires Shortened(a, full, n) && Shortened(b, full, n)
    ensures a == b
  {
  }

  lemma FormDecodes(r: ExecSessionRequest, b: seq<Byte>)
    requires RequestFits(r) && r.sessionId != [] && FormOf(r, b)
    ensures DecodeRequest(b) == Some(r)
  {
    ShortForms(r);
    if b == EncodeRequest(r) {
      DecodeEncodeRequest(r);
    } else if Shortened(b, EncodeRequest(r), 8) {
      SameShortened(b, RequestHead(r) + PutOptStr(r.context), EncodeRequest(r), 8);
      DecodeWithoutWatermark(r);
    } else {
      SameShortened(b, RequestHead(r), EncodeRequest(r), 9);
      DecodeHeadOnly(r);
    }
  }

  /**
   The exact preimage of every request: its full encoding, that encoding without the
   watermark when the watermark is zero, and without watermark and context flag when
   there is no context either.
   */
  lemma RequestPreimage(r: ExecSessionRequest, b: seq<Byte>)
    ensures DecodeRequest(b) == Some(r) <==>
            RequestFits(r) && r.sessionId != [] && FormOf(r, b)
  {
    if DecodeRequest(b) == Some(r) { DecodedForm(r, b); }
    if RequestFits(r) && r.sessionId != [] && FormOf(r, b) { FormDecodes(r, b); }
  }

  /** What the length fields can hold; and the id is not empty. */
  predicate RequestSized(r: ExecSessionRequest) {
    && 0 < |r.sessionId| < 0x1_0000_0000
    && (r.argv.Some? ==> ArgvSized(r.argv.value) && ArgvSize(r.argv.value) < 0x1_0000_0000)
    && (r.context.Some? ==> |r.context.value| < 0x1_0000_0000)
  }

  /**
   A request laid out in full; without its watermark if that is zero; and without its
   context flag as well if there is no context.
   */
  predicate RequestAccepted(b: seq<Byte>, r: ExecSessionRequest) {
    || RequestLayout(b, r)
    || (r.renderedBytes == 0 && RequestLayout(b + Zeros(8), r))
    || (r.renderedBytes == 0 && r.context.None? && RequestLayout(b + Zeros(9), r))
  }

  lemma ShortenedByZeros(b: seq<Byte>, full: seq<Byte>, head: seq<Byte>, n: nat)
    requires full == head + Zeros(n)
    ensures Shortened(b, full, n) <==> b + Zeros(n) == full
  {
    assert full[..|full| - n] == head;
    assert (b + Zeros(n))[..|b|] == b;
  }

  lemma EndsWithZeros(r: ExecSessionRequest)
    requires r.renderedBytes == 0
    ensures EncodeRequest(r) == RequestHead(r) + PutOptStr(r.context) + Zeros(8)
    ensures r.context.None? ==> EncodeRequest(r) == RequestHead(r) + Zeros(9)
  {
    PutZero();
    Assoc(RequestHead(r), PutOptStr(r.context), Zeros(8));
    assert [0] + Zeros(8) == Zeros(9);
  }

  lemma WithoutWatermark(r: ExecSessionRequest, b: seq<Byte>)
    requires r.renderedBytes == 0
    ensures Shortened(b, EncodeRequest(r), 8) <==> RequestLayout(b + Zeros(8), r)
  {
    EndsWithZeros(r);
    ShortenedByZeros(b, EncodeRequest(r), RequestHead(r) + PutOptStr(r.context), 8);
    RequestBytes(r, b + Zeros(8));
  }

  lemma WithoutContextFlag(r: ExecSessionRequest, b: seq<Byte>)
    requires r.renderedBytes == 0 && r.context.None?
    ensures Shortened(b, EncodeRequest(r), 9) <==> RequestLayout(b + Zeros(9), r)
  {
    EndsWithZeros(r);
    ShortenedByZeros(b, EncodeRequest(r), RequestHead(r), 9);
    RequestBytes(r, b + Zeros(9));
  }

  lemma RequestSizedFits(r: ExecSessionRequest)
    ensures RequestSized(r) <==> RequestFits(r) && r.sessionId != []
  {
    if r.argv.Some? { ArgvIff([], 0, r.argv.value); }
  }

  lemma FormIff(r: ExecSessionRequest, b: seq<Byte>)
    ensures FormOf(r, b) <==> RequestAccepted(b, r)
  {
    RequestBytes(r, b);
    if r.renderedBytes == 0 {
      WithoutWatermark(r, b);
      if r.context.None? { WithoutContextFlag(r, b); }
    }
  }

  /** What the decoder accepts, by the positions of the bytes. */
  lemma RequestAcceptedIff(r: ExecSessionRequest, b: seq<Byte>)
    ensures DecodeRequest(b) == Some(r) <==> RequestSized(r) && RequestAccepted(b, r)
  {
    RequestPreimage(r, b);
    RequestSizedFits(r);
    FormIff(r, b);
  }

  /** A request survives the round trip if and only if its lengths fit and its id is not empty. */
  lemma RequestRoundTrip(r: ExecSessionRequest)
    ensures DecodeRequest(EncodeRequest(r)) == Some(r) <==> RequestFits(r) && r.sessionId != []
  {
    RequestPreimage(r, EncodeRequest(r));
  }

  // ---------------------------------------------------------------------------
  // Shared console request
  // ---------------------------------------------------------------------------

  /** `SharedConsoleRequest::from_bytes`: the watermark, or 0 for a client that sends none. */
  function DecodeShared(b: seq<Byte>): Option<U64> {
    if b == [] then Some(0)
    else if |b| == 8 then
      var n := TakeU64(b);
      if n.Ok? then Some(n.value) else None
    else None
  }

  /** A watermark is read only from its eight bytes, and zero also from nothing. */
  lemma SharedPreimage(n: U64, b: seq<Byte>)
    ensures DecodeShared(b) == Some(n) <==> (|b| == 8 && U64At(b, 0, n)) || (n == 0 && b == [])
  {
    AtStart(b, PutU64(n));
    U64Iff(b, 0, n);
    TakePutU64(n, []);
    assert PutU64(n) + [] == PutU64(n);
  }

  // ---------------------------------------------------------------------------
  // Session lists
  // ---------------------------------------------------------------------------

  datatype ExecSessionInfo =
    ExecSessionInfo(sessionId: Str, argv: seq<Str>, context: Option<Str>, attached: bool, exitCode: Option<U32>)

  function PutBool(x: bool): seq<Byte> { [if x then 1 else 0] }

  function TakeBool(b: seq<Byte>): (r: Parsed<bool>)
    ensures r.Ok? ==> b == PutBool(r.value) + r.rest
  {
    var flag := TakeByte(b);
    if flag.Err? || flag.value > 1 then Err else Ok(flag.value == 1, flag.rest)
  }

  lemma TakePutBool(x: bool, rest: seq<Byte>)
    ensures TakeBool(PutBool(x) + rest) == Ok(x, rest)
  {
    TakePutByte(if x then 1 else 0, rest);
  }

  function PutOptU32(o: Option<U32>): seq<Byte> {
    match o case None => [0] case Some(n) => [1] + PutU32(n)
  }

  function TakeOptU32(b: seq<Byte>): (r: Parsed<Option<U32>>)
    ensures r.Ok? ==> b == PutOptU32(r.value) + r.rest
  {
    var flag := TakeByte(b);
    if flag.Err? then Err
    else if flag.value == 0 then Ok(None, flag.rest)
    else if flag.value == 1 then
      var n := TakeU32(flag.rest);
      if n.Err? then Err else
      Assoc([1], PutU32(n.value), n.rest);
      Ok(Some(n.value), n.rest)
    else Err
  }

  lemma TakePutOptU32(o: Option<U32>, rest: seq<Byte>)
    ensures TakeOptU32(PutOptU32(o) + rest) == Ok(o, rest)
  {
    match o {
      case None => TakePutByte(0, rest);
      case Some(n) =>
        Assoc([1], PutU32(n), rest);
        TakePutByte(1, PutU32(n) + rest);
        TakePutU32(n, rest);
    }
  }

  predicate InfoFits(i: ExecSessionInfo) {
    && i.sessionId != [] && |i.sessionId| < U32_LIMIT
    && BlockFits(i.argv) && OptStrFits(i.context)
  }

  /** Everything but the context. */
  function InfoHead(i: ExecSessionInfo): seq<Byte> {
    PutBytes(i.sessionId) + (PutBool(i.attached) + (PutOptU32(i.exitCode) + PutBlock(i.argv)))
  }

  function EncodeInfo(i: ExecSessionInfo): seq<Byte> {
    InfoHead(i) + PutOptStr(i.context)
  }

  /** The bytes of a session: its id, whether it is attached, its exit code, its vector, its context. */
  predicate InfoAt(b: seq<Byte>, p: nat, i: ExecSessionInfo) {
    StatusAt(b, p, i) && VectorAt(b, p + ArgvStart(i), i)
  }

  predicate StatusAt(b: seq<Byte>, p: nat, i: ExecSessionInfo) {
    && BytesAt(b, p, i.sessionId) && FlagAt(b, p + FlagStart(i), i.attached)
    && ExitAt(b, p + ExitStart(i), i.exitCode)
  }

  predicate VectorAt(b: seq<Byte>, p: nat, i: ExecSessionInfo) {
    BlockAt(b, p, i.argv) && OptStrAt(b, p + BlockSize(i.argv), i.context)
  }

  predicate FlagAt(b: seq<Byte>, p: nat, x: bool) { ByteAt(b, p, if x then 1 else 0) }

  /** Where in a session its flag, its exit code and its vector begin. */
  function FlagStart(i: ExecSessionInfo): nat { 4 + |i.sessionId| }

  function ExitStart(i: ExecSessionInfo): nat { FlagStart(i) + 1 }

  function ArgvStart(i: ExecSessionInfo): nat { ExitStart(i) + ExitSize(i.exitCode) }

  function InfoSize(i: ExecSessionInfo): nat { ArgvStart(i) + BlockSize(i.argv) + OptStrSize(i.context) }

  predicate ExitAt(b: seq<Byte>, p: nat, o: Option<U32>) {
    match o case None => ByteAt(b, p, 0) case Some(code) => ByteAt(b, p, 1) && U32At(b, p + 1, code)
  }

  function ExitSize(o: Option<U32>): nat { match o case None => 1 case Some(_) => 5 }

  lemma ExitIff(b: seq<Byte>, p: nat, o: Option<U32>)
    ensures At(b, p, PutOptU32(o)) <==> ExitAt(b, p, o)
    ensures |PutOptU32(o)| == ExitSize(o)
  {
    match o {
      case None => ByteIff(b, p, 0);
      case Some(code) =>
        AtPair(b, p, p + 1, [1], PutU32(code));
        ByteIff(b, p, 1);
        U32Iff(b, p + 1, code);
    }
  }

  lemma FlagIff(b: seq<Byte>, p: nat, x: bool)
    ensures At(b, p, PutBool(x)) <==> FlagAt(b, p, x)
  {
    ByteIff(b, p, if x then 1 else 0);
  }

  /** The two halves of a session. */
  function StatusBytes(i: ExecSessionInfo): seq<Byte> {
    PutBytes(i.sessionId) + (PutBool(i.attached) + PutOptU32(i.exitCode))
  }

  function VectorBytes(i: ExecSessionInfo): seq<Byte> { PutBlock(i.argv) + PutOptStr(i.context) }

  lemma InfoHalves(i: ExecSessionInfo)
    ensures EncodeInfo(i) == StatusBytes(i) + VectorBytes(i)
  {
    var id, flag, exit, argv := PutBytes(i.sessionId), PutBool(i.attached), PutOptU32(i.exitCode), PutBlock(i.argv);
    Assoc(flag, exit, argv);
    Assoc(id, flag + exit, argv);
    Assoc(StatusBytes(i), argv, PutOptStr(i.context));
  }

  lemma StatusIff(b: seq<Byte>, p: nat, i: ExecSessionInfo)
    ensures At(b, p, StatusBytes(i)) <==> StatusAt(b, p, i)
    ensures |StatusBytes(i)| == ArgvStart(i)
  {
    BytesIff(b, p, i.sessionId);
    FlagIff(b, p + FlagStart(i), i.attached);
    ExitIff(b, p + ExitStart(i), i.exitCode);
    AtPair(b, p, p + FlagStart(i), PutBytes(i.sessionId), PutBool(i.attached) + PutOptU32(i.exitCode));
    AtPair(b, p + FlagStart(i), p + ExitStart(i), PutBool(i.attached), PutOptU32(i.exitCode));
  }

  lemma VectorIff(b: seq<Byte>, p: nat, i: ExecSessionInfo)
    ensures At(b, p, VectorBytes(i)) <==> VectorAt(b, p, i)
    ensures |VectorBytes(i)| == BlockSize(i.argv) + OptStrSize(i.context)
  {
    BlockIff(b, p, i.argv);
    OptStrIff(b, p + BlockSize(i.argv), i.context);
    AtPair(b, p, p + BlockSize(i.argv), PutBlock(i.argv), PutOptStr(i.context));
  }

  lemma InfoIff(b: seq<Byte>, p: nat, i: ExecSessionInfo)
    ensures At(b, p, EncodeInfo(i)) <==> InfoAt(b, p, i)
    ensures |EncodeInfo(i)| == InfoSize(i)
  {
    InfoHalves(i);
    StatusIff(b, p, i);
    VectorIff(b, p + ArgvStart(i), i);
    AtPair(b, p, p + ArgvStart(i), StatusBytes(i), VectorBytes(i));
  }

  function TakeInfoHead(b: seq<Byte>): (r: Parsed<ExecSessionInfo>)
    ensures r.Ok? ==> InfoFits(r.value) && r.value.context.None? && b == InfoHead(r.value) + r.rest
  {
    var id := TakeStr(b);
    if id.Err? || id.value == [] || |id.rest| < 2 then Err else
    var attached := TakeBool(id.rest);
    if attached.Err? then Err else
    var exit := TakeOptU32(attached.rest);
    if exit.Err? then Err else
    var argv := TakeBlock(exit.rest);
    if argv.Err? then Err else
    var info := ExecSessionInfo(id.value, argv.value, None, attached.value, exit.value);
    HeadAssoc(info, argv.rest);
    Ok(info, argv.rest)
  }

  lemma HeadAssoc(i: ExecSessionInfo, rest: seq<Byte>)
    ensures InfoHead(i) + rest ==
            PutBytes(i.sessionId) + (PutBool(i.attached) + (PutOptU32(i.exitCode) + (PutBlock(i.argv) + rest)))
  {
    var argv := PutBlock(i.argv);
    var exit := PutOptU32(i.exitCode) + argv;
    var attached := PutBool(i.attached) + exit;
    Assoc(PutBytes(i.sessionId), attached, rest);
    Assoc(PutBool(i.attached), exit, rest);
    Assoc(PutOptU32(i.exitCode), argv, rest);
  }

  lemma TakePutInfoHead(i: ExecSessionInfo, rest: seq<Byte>)
    requires InfoFits(i)
    ensures TakeInfoHead(InfoHead(i) + rest) == Ok(i.(context := None), rest)
  {
    var argv := PutBlock(i.argv) + rest;
    var exit := PutOptU32(i.exitCode) + argv;
    HeadAssoc(i, rest);
    TakePutStr(i.sessionId, PutBool(i.attached) + exit);
    TakePutBool(i.attached, exit);
    TakePutOptU32(i.exitCode, argv);
    TakePutBlock(i.argv, rest);
  }

  /** `ExecSessionInfo::decode`: at the very end of the input the context may be missing. */
  function TakeInfo(b: seq<Byte>): (r: Parsed<ExecSessionInfo>)
    ensures r.Ok? ==> && InfoFits(r.value)
                      && (|| b == EncodeInfo(r.value) + r.rest
                          || (r.rest == [] && r.value.context.None? && b == InfoHead(r.value)))
  {
    var head := TakeInfoHead(b);
    if head.Err? then Err
    else if head.rest == [] then Ok(head.value, []) else
    var context := TakeOptStr(head.rest);
    if context.Err? then Err else
    Assoc(InfoHead(head.value), PutOptStr(context.value), context.rest);
    Ok(head.value.(context := context.value), context.rest)
  }

  lemma TakePutInfo(i: ExecSessionInfo, rest: seq<Byte>)
    requires InfoFits(i)
    ensures TakeInfo(EncodeInfo(i) + rest) == Ok(i, rest)
  {
    Assoc(InfoHead(i), PutOptStr(i.context), rest);
    TakePutInfoHead(i, PutOptStr(i.context) + rest);
    TakePutOptStr(i.context, rest);
  }

  lemma TakeInfoWithoutContext(i: ExecSessionInfo)
    requires InfoFits(i) && i.context.None?
    ensures TakeInfo(InfoHead(i)) == Ok(i, []) && EncodeInfo(i) == InfoHead(i) + [0]
  {
    TakePutInfoHead(i, []);
    assert InfoHead(i) + [] == InfoHead(i);
  }

  /** The element codec of a session list. */
  function InfoCodec(): Codec<ExecSessionInfo> {
    Codec(TakeInfo, EncodeInfo, InfoHead, InfoFits, (i: ExecSessionInfo) => i.context.None?)
  }

  lemma InfoCodecIsLawful()
    ensures Lawful(InfoCodec())
  {
    var c := InfoCodec();
    forall b: seq<Byte> | c.take(b).Ok? ensures Accepts(c, b, c.take(b).value, c.take(b).rest) {
    }
    forall i: ExecSessionInfo, rest: seq<Byte> | c.fits(i) ensures c.take(c.full(i) + rest) == Ok(i, rest) {
      TakePutInfo(i, rest);
    }
    forall i: ExecSessionInfo | c.fits(i) && c.mayShorten(i)
      ensures c.take(c.short(i)) == Ok(i, []) && c.full(i) == c.short(i) + [0]
    {
      TakeInfoWithoutContext(i);
    }
  }

  predicate ListFits(sessions: seq<ExecSessionInfo>) { CountFits(InfoCodec(), sessions) }

  predicate LastHasNoContext(sessions: seq<ExecSessionInfo>) {
    sessions != [] && sessions[|sessions| - 1].context.None?
  }

  function EncodeList(sessions: seq<ExecSessionInfo>): seq<Byte> { EncodeCounted(InfoCodec(), sessions) }

  function DecodeList(b: seq<Byte>): Option<seq<ExecSessionInfo>> { DecodeCounted(InfoCodec(), b) }

  /** The bytes of a list: the number of sessions modulo 2^32, and then the sessions. */
  predicate ListLayout(b: seq<Byte>, sessions: seq<ExecSessionInfo>) {
    CountedAt(InfoAt, InfoSize, b, 0, sessions) && |b| == 4 + TotalSize(InfoSize, sessions)
  }

  lemma ListBytes(sessions: seq<ExecSessionInfo>, b: seq<Byte>)
    ensures b == EncodeList(sessions) <==> ListLayout(b, sessions)
  {
    forall q: nat, i: ExecSessionInfo ensures Placed(InfoCodec(), InfoAt, InfoSize, b, q, i) {
      InfoIff(b, q, i);
    }
    AtStart(b, EncodeList(sessions));
    CountedIff(InfoCodec(), InfoAt, InfoSize, b, 0, sessions);
  }

  /** What the length and count fields can hold; and every id is non-empty. */
  predicate ListSized(sessions: seq<ExecSessionInfo>) {
    |sessions| < 0x1_0000_0000 && forall k :: 0 <= k < |sessions| ==> InfoSized(sessions[k])
  }

  predicate InfoSized(i: ExecSessionInfo) {
    && 0 < |i.sessionId| < 0x1_0000_0000
    && ArgvSized(i.argv) && ArgvSize(i.argv) < 0x1_0000_0000
    && (i.context.Some? ==> |i.context.value| < 0x1_0000_0000)
  }

  lemma InfoSizedFits(i: ExecSessionInfo)
    ensures InfoSized(i) <==> InfoFits(i)
  {
    ArgvIff([], 0, i.argv);
  }

  /** The decoder accepts a list laid out in full, or without the last context flag if that says no context. */
  lemma ListAccepted(sessions: seq<ExecSessionInfo>, b: seq<Byte>)
    ensures DecodeList(b) == Some(sessions) <==>
            && ListSized(sessions)
            && (ListLayout(b, sessions) || (LastHasNoContext(sessions) && ListLayout(b + [0], sessions)))
  {
    ListPreimage(sessions, b);
    ListBytes(sessions, b);
    ListBytes(sessions, b + [0]);
    SizedFits(sessions);
    if ListFits(sessions) && LastHasNoContext(sessions) {
      EndsWithFlag(sessions);
      ShortenedByFlag(b, EncodeList(sessions));
    }
  }

  lemma SizedFits(sessions: seq<ExecSessionInfo>)
    ensures ListSized(sessions) <==> ListFits(sessions)
  {
    forall k | 0 <= k < |sessions| ensures InfoSized(sessions[k]) <==> InfoFits(sessions[k]) {
      InfoSizedFits(sessions[k]);
    }
  }

  lemma EndsWithFlag(sessions: seq<ExecSessionInfo>)
    requires ListFits(sessions) && LastHasNoContext(sessions)
    ensures var full := EncodeList(sessions); full != [] && full[|full| - 1] == 0
  {
    InfoCodecIsLawful();
    DecodeShortCounted(InfoCodec(), sessions);
  }

  /**
   The exact preimage of every list: its full encoding, and that encoding without
   its last byte when the last session has no context.
   */
  lemma ListPreimage(sessions: seq<ExecSessionInfo>, b: seq<Byte>)
    ensures DecodeList(b) == Some(sessions) <==>
            && ListFits(sessions)
            && (|| b == EncodeList(sessions)
                || (LastHasNoContext(sessions) && Shortened(b, EncodeList(sessions), 1)))
  {
    InfoCodecIsLawful();
    CountedPreimage(InfoCodec(), sessions, b);
  }

  /** A list survives the round trip if and only if every id is non-empty and every length fits. */
  lemma ListRoundTrip(sessions: seq<ExecSessionInfo>)
    ensures DecodeList(EncodeList(sessions)) == Some(sessions) <==> ListFits(sessions)
  {
    ListPreimage(sessions, EncodeList(sessions));
  }

  /** `ExecSessionList::to_bytes`. */
  method EncodeExecSessionList(sessions: seq<ExecSessionInfo>) returns (out: seq<Byte>)
    ensures out == EncodeList(sessions)
    ensures ListLayout(out, sessions)
  {
    out := PutCounted(InfoCodec(), sessions);
    ListBytes(sessions, out);
  }

  /** `ExecSessionList::from_bytes`. */
  method DecodeExecSessionList(data: seq<Byte>) returns (r: Option<seq<ExecSessionInfo>>)
    ensures r == DecodeList(data)
    ensures forall sessions :: r == Some(sessions) <==>
              && ListSized(sessions)
              && (ListLayout(data, sessions) || (LastHasNoContext(sessions) && ListLayout(data + [0], sessions)))
  {
    r := DecodeLoop(InfoCodec(), data);
    forall sessions: seq<ExecSessionInfo>
      ensures r == Some(sessions) <==>
              && ListSized(sessions)
              && (ListLayout(data, sessions) || (LastHasNoContext(sessions) && ListLayout(data + [0], sessions)))
    {
      ListAccepted(sessions, data);
    }
  }
}
