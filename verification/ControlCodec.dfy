/**
 The control stream (crates/protocol/src/lib.rs:62-293): attestation and setup
 payloads, control messages, and their frames.
 */
module ControlCodec {
  import opened Prelude
  import opened Wire
  import opened Frames
  import opened Stream

  datatype VmState = Cold | Ready

  datatype RuntimeStatus = NotStarted | SystemInit | FallbackInit

  datatype AttestationPayload =
    AttestationPayload(protocolVersion: U16, state: VmState, runtimeStatus: RuntimeStatus, jwt: Str)

  datatype RootfsSource = NoRootfs | Inline(data: seq<Byte>) | Url(url: Str)

  datatype SetupRequest = SetupRequest(accessToken: Str, rootfs: RootfsSource)

  datatype ControlMessage =
    | RequestAttestation
    | Attestation(payload: AttestationPayload)
    | Setup(request: SetupRequest)
    | SetupComplete
    | Error(message: Str)

  const CONTROL_REQUEST_ATTESTATION: Byte := 0x01
  const CONTROL_ATTESTATION: Byte := 0x02
  const CONTROL_SETUP_REQUEST: Byte := 0x03
  const CONTROL_SETUP_COMPLETE: Byte := 0x04
  const CONTROL_ERROR: Byte := 0x05

  // ---------------------------------------------------------------------------
  // Attestation payload
  // ---------------------------------------------------------------------------

  function VmStateByte(s: VmState): Byte { match s case Cold => 0x00 case Ready => 0x01 }

  function RuntimeStatusByte(s: RuntimeStatus): Byte {
    match s case NotStarted => 0x00 case SystemInit => 0x01 case FallbackInit => 0x02
  }

  function VmStateFrom(b: Byte): (r: Option<VmState>)
    ensures r.Some? ==> VmStateByte(r.value) == b
    ensures forall s :: VmStateByte(s) == b ==> r == Some(s)
  {
    if b == 0x00 then Some(Cold) else if b == 0x01 then Some(Ready) else None
  }

  function RuntimeStatusFrom(b: Byte): (r: Option<RuntimeStatus>)
    ensures r.Some? ==> RuntimeStatusByte(r.value) == b
    ensures forall s :: RuntimeStatusByte(s) == b ==> r == Some(s)
  {
    if b == 0x00 then Some(NotStarted) else if b == 0x01 then Some(SystemInit)
    else if b == 0x02 then Some(FallbackInit) else None
  }

  /** The values whose lengths fit the length fields they are written to. */
  predicate AttestationFits(a: AttestationPayload) {
    |a.jwt| < U32_LIMIT
  }

  function EncodeAttestation(a: AttestationPayload): seq<Byte> {
    PutU16(a.protocolVersion) + ([VmStateByte(a.state)] + ([RuntimeStatusByte(a.runtimeStatus)] + PutBytes(a.jwt)))
  }

  /**
   The bytes of an attestation: the version in two bytes, the state (0 is cold, 1 ready),
   the runtime status (0 is not started, 1 the system's init, 2 the fallback), the token.
   */
  predicate AttestationLayout(b: seq<Byte>, a: AttestationPayload) {
    && U16At(b, 0, a.protocolVersion)
    && ByteAt(b, 2, match a.state case Cold => 0 case Ready => 1)
    && ByteAt(b, 3, match a.runtimeStatus case NotStarted => 0 case SystemInit => 1 case FallbackInit => 2)
    && BytesAt(b, 4, a.jwt) && |b| == 8 + |a.jwt|
  }

  lemma AttestationBytes(a: AttestationPayload, b: seq<Byte>)
    ensures b == EncodeAttestation(a) <==> AttestationLayout(b, a)
  {
    var s, t, jwt := VmStateByte(a.state), RuntimeStatusByte(a.runtimeStatus), PutBytes(a.jwt);
    AtStart(b, EncodeAttestation(a));
    AtPair(b, 0, 2, PutU16(a.protocolVersion), [s] + ([t] + jwt));
    AtPair(b, 2, 3, [s], [t] + jwt);
    AtPair(b, 3, 4, [t], jwt);
    U16Iff(b, 0, a.protocolVersion);
    ByteIff(b, 2, s);
    ByteIff(b, 3, t);
    BytesIff(b, 4, a.jwt);
  }

  function TakeVmState(b: seq<Byte>): (r: Parsed<VmState>)
    ensures r.Ok? ==> b == [VmStateByte(r.value)] + r.rest
  {
    var x := TakeByte(b);
    if x.Err? || VmStateFrom(x.value).None? then Err else Ok(VmStateFrom(x.value).value, x.rest)
  }

  function TakeRuntimeStatus(b: seq<Byte>): (r: Parsed<RuntimeStatus>)
    ensures r.Ok? ==> b == [RuntimeStatusByte(r.value)] + r.rest
  {
    var x := TakeByte(b);
    if x.Err? || RuntimeStatusFrom(x.value).None? then Err else Ok(RuntimeStatusFrom(x.value).value, x.rest)
  }

  /** The token is everything after its length, which must be exactly that. */
  function TakeToken(b: seq<Byte>): (r: Option<Str>)
    ensures r.Some? ==> |r.value| < U32_LIMIT && b == PutBytes(r.value)
  {
    var len := TakeU32(b);
    if len.Err? || |len.rest| != len.value || !ValidUtf8(len.rest) then None else
    assert AsU32(|len.rest|) == |len.rest|;
    Some(len.rest)
  }

  function DecodeAttestation(b: seq<Byte>): (r: Option<AttestationPayload>)
    ensures r.Some? ==> AttestationFits(r.value) && b == EncodeAttestation(r.value)
  {
    if |b| < 8 then None else
    var version := TakeU16(b);
    if version.Err? then None else
    var state := TakeVmState(version.rest);
    if state.Err? then None else
    var status := TakeRuntimeStatus(state.rest);
    if status.Err? then None else
    var jwt := TakeToken(status.rest);
    if jwt.None? then None else
    Some(AttestationPayload(version.value, state.value, status.value, jwt.value))
  }

  lemma DecodeEncodeAttestation(a: AttestationPayload)
    requires AttestationFits(a)
    ensures DecodeAttestation(EncodeAttestation(a)) == Some(a)
  {
    var s, t, jwt := VmStateByte(a.state), RuntimeStatusByte(a.runtimeStatus), PutBytes(a.jwt);
    TakePutU16(a.protocolVersion, [s] + ([t] + jwt));
    TakePutByte(s, [t] + jwt);
    TakePutByte(t, jwt);
    assert AsU32(|a.jwt|) == |a.jwt|;
    TakePutU32(|a.jwt|, a.jwt);
  }

  /** Decoding succeeds exactly on the encoding of a value that fits. */
  lemma AttestationTwoSided(a: AttestationPayload, b: seq<Byte>)
    ensures DecodeAttestation(b) == Some(a) <==> AttestationFits(a) && b == EncodeAttestation(a)
    ensures DecodeAttestation(b) == Some(a) <==> AttestationFits(a) && AttestationLayout(b, a)
  {
    AttestationBytes(a, b);
    if AttestationFits(a) { DecodeEncodeAttestation(a); }
  }

  // ---------------------------------------------------------------------------
  // Setup request
  // ---------------------------------------------------------------------------

  predicate RootfsFits(r: RootfsSource) {
    match r
    case NoRootfs => true
    case Inline(data) => |data| < U32_LIMIT
    case Url(url) => |url| < U32_LIMIT
  }

  function EncodeRootfs(r: RootfsSource): seq<Byte> {
    match r
    case NoRootfs => [0x00]
    case Inline(data) => [0x01] + PutBytes(data)
    case Url(url) => [0x02] + PutBytes(url)
  }

  /** A byte for the kind (0 is none, 1 inline, 2 a URL), and then the archive or the URL. */
  predicate RootfsAt(b: seq<Byte>, p: nat, r: RootfsSource) {
    match r
    case NoRootfs => ByteAt(b, p, 0)
    case Inline(data) => ByteAt(b, p, 1) && BytesAt(b, p + 1, data)
    case Url(url) => ByteAt(b, p, 2) && BytesAt(b, p + 1, url)
  }

  function RootfsSize(r: RootfsSource): nat {
    match r case NoRootfs => 1 case Inline(data) => 5 + |data| case Url(url) => 5 + |url|
  }

  lemma RootfsIff(b: seq<Byte>, p: nat, r: RootfsSource)
    ensures At(b, p, EncodeRootfs(r)) <==> RootfsAt(b, p, r)
    ensures |EncodeRootfs(r)| == RootfsSize(r)
  {
    match r {
      case NoRootfs => ByteIff(b, p, 0);
      case Inline(data) =>
        AtPair(b, p, p + 1, [0x01], PutBytes(data));
        ByteIff(b, p, 1);
        BytesIff(b, p + 1, data);
      case Url(url) =>
        AtPair(b, p, p + 1, [0x02], PutBytes(url));
        ByteIff(b, p, 2);
        BytesIff(b, p + 1, url);
    }
  }

  function TakeRootfs(b: seq<Byte>): (r: Parsed<RootfsSource>)
    ensures r.Ok? ==> RootfsFits(r.value) && b == EncodeRootfs(r.value) + r.rest
  {
    var kind := TakeByte(b);
    if kind.Err? then Err
    else if kind.value == 0x00 then Ok(NoRootfs, kind.rest)
    else if kind.value == 0x01 then
      var data := TakeBytes(kind.rest);
      if data.Err? then Err else
      Assoc([0x01], PutBytes(data.value), data.rest);
      Ok(Inline(data.value), data.rest)
    else if kind.value == 0x02 then
      var url := TakeStr(kind.rest);
      if url.Err? then Err else
      Assoc([0x02], PutBytes(url.value), url.rest);
      Ok(Url(url.value), url.rest)
    else Err
  }

  lemma TakePutRootfs(r: RootfsSource, rest: seq<Byte>)
    requires RootfsFits(r)
    ensures TakeRootfs(EncodeRootfs(r) + rest) == Ok(r, rest)
  {
    match r {
      case NoRootfs =>
        TakePutByte(0x00, rest);
      case Inline(data) =>
        Assoc([0x01], PutBytes(data), rest);
        TakePutByte(0x01, PutBytes(data) + rest);
        TakePutBytes(data, rest);
      case Url(url) =>
        Assoc([0x02], PutBytes(url), rest);
        TakePutByte(0x02, PutBytes(url) + rest);
        TakePutStr(url, rest);
    }
  }

  predicate SetupFits(r: SetupRequest) {
    |r.accessToken| < U32_LIMIT && RootfsFits(r.rootfs)
  }

  function EncodeSetup(r: SetupRequest): seq<Byte> {
    PutBytes(r.accessToken) + EncodeRootfs(r.rootfs)
  }

  /** The bytes of a setup request: the token and then the source. */
  predicate SetupLayout(b: seq<Byte>, r: SetupRequest) {
    var p := 4 + |r.accessToken|;
    BytesAt(b, 0, r.accessToken) && RootfsAt(b, p, r.rootfs) && |b| == p + RootfsSize(r.rootfs)
  }

  lemma SetupBytes(r: SetupRequest, b: seq<Byte>)
    ensures b == EncodeSetup(r) <==> SetupLayout(b, r)
  {
    AtStart(b, EncodeSetup(r));
    BytesIff(b, 0, r.accessToken);
    AtPair(b, 0, 4 + |r.accessToken|, PutBytes(r.accessToken), EncodeRootfs(r.rootfs));
    RootfsIff(b, 4 + |r.accessToken|, r.rootfs);
  }

  function DecodeSetup(b: seq<Byte>): (r: Option<SetupRequest>)
    ensures r.Some? ==> SetupFits(r.value) && b == EncodeSetup(r.value)
  {
    var token := TakeStr(b);
    if token.Err? then None else
    var rootfs := TakeRootfs(token.rest);
    if rootfs.Err? || rootfs.rest != [] then None
    else Some(SetupRequest(token.value, rootfs.value))
  }

  lemma SetupTwoSided(r: SetupRequest, b: seq<Byte>)
    ensures DecodeSetup(b) == Some(r) <==> SetupFits(r) && b == EncodeSetup(r)
    ensures DecodeSetup(b) == Some(r) <==> SetupFits(r) && SetupLayout(b, r)
  {
    SetupBytes(r, b);
    if SetupFits(r) && b == EncodeSetup(r) {
      TakePutStr(r.accessToken, EncodeRootfs(r.rootfs));
      TakePutRootfs(r.rootfs, []);
      assert EncodeRootfs(r.rootfs) + [] == EncodeRootfs(r.rootfs);
    }
  }

  // ---------------------------------------------------------------------------
  // Messages
  // ---------------------------------------------------------------------------

  predicate MessageFits(m: ControlMessage) {
    match m
    case Attestation(a) => AttestationFits(a)
    case Setup(r) => SetupFits(r)
    case _ => true
  }

  function ToFrame(m: ControlMessage): Frame
    requires MessageFits(m)
  {
    match m
    case RequestAttestation => Frame(CONTROL_REQUEST_ATTESTATION, [])
    case Attestation(a) => Frame(CONTROL_ATTESTATION, EncodeAttestation(a))
    case Setup(r) => Frame(CONTROL_SETUP_REQUEST, EncodeSetup(r))
    case SetupComplete => Frame(CONTROL_SETUP_COMPLETE, [])
    case Error(message) => Frame(CONTROL_ERROR, message)
  }

  function FromFrame(f: Frame): (r: Option<ControlMessage>)
    ensures r.Some? ==> MessageFits(r.value) && f == ToFrame(r.value)
  {
    if f.ty == CONTROL_REQUEST_ATTESTATION then
      if f.payload == [] then Some(RequestAttestation) else None
    else if f.ty == CONTROL_ATTESTATION then
      var a := DecodeAttestation(f.payload);
      if a.None? then None else Some(Attestation(a.value))
    else if f.ty == CONTROL_SETUP_REQUEST then
      var r := DecodeSetup(f.payload);
      if r.None? then None else Some(Setup(r.value))
    else if f.ty == CONTROL_SETUP_COMPLETE then
      if f.payload == [] then Some(SetupComplete) else None
    else if f.ty == CONTROL_ERROR then
      if ValidUtf8(f.payload) then Some(Error(f.payload)) else None
    else None
  }

  /** The type of the frame of each message, and what its payload holds. */
  predicate MessageLayout(f: Frame, m: ControlMessage) {
    match m
    case RequestAttestation => f.ty == 1 && f.payload == []
    case Attestation(a) => f.ty == 2 && AttestationLayout(f.payload, a)
    case Setup(r) => f.ty == 3 && SetupLayout(f.payload, r)
    case SetupComplete => f.ty == 4 && f.payload == []
    case Error(message) => f.ty == 5 && f.payload == message
  }

  lemma MessageBytes(m: ControlMessage, f: Frame)
    requires MessageFits(m)
    ensures f == ToFrame(m) <==> MessageLayout(f, m)
  {
    match m {
      case Attestation(a) => AttestationBytes(a, f.payload);
      case Setup(r) => SetupBytes(r, f.payload);
      case _ =>
    }
  }

  /** A frame is a message exactly when it is that message's own frame, which its bytes decide. */
  lemma MessageTwoSided(m: ControlMessage, f: Frame)
    ensures FromFrame(f) == Some(m) <==> MessageFits(m) && f == ToFrame(m)
    ensures FromFrame(f) == Some(m) <==> MessageFits(m) && MessageLayout(f, m)
  {
    if MessageFits(m) { MessageBytes(m, f); }
    match m {
      case Attestation(a) => AttestationTwoSided(a, f.payload);
      case Setup(r) => SetupTwoSided(r, f.payload);
      case _ =>
    }
  }

  // ---------------------------------------------------------------------------
  // The stream
  // ---------------------------------------------------------------------------

  function ToFrames(ms: seq<ControlMessage>): seq<Frame>
    requires forall i :: 0 <= i < |ms| ==> MessageFits(ms[i])
  {
    seq(|ms|, i requires 0 <= i < |ms| => ToFrame(ms[i]))
  }

  function FromFrames(fs: seq<Frame>): seq<Option<ControlMessage>> {
    seq(|fs|, i requires 0 <= i < |fs| => FromFrame(fs[i]))
  }

  /** What one peer writes is what the other reads, and a cut of the stream loses only a suffix. */
  lemma ControlStream(ms: seq<ControlMessage>, n: nat)
    requires forall i :: 0 <= i < |ms| ==> MessageFits(ms[i]) && Fits(ToFrame(ms[i]))
    requires n <= |WriteAll(FrameFormat(), ToFrames(ms))|
    ensures var got := FromFrames(ReadAll(FrameFormat(), WriteAll(FrameFormat(), ToFrames(ms))[..n]));
            && |got| == Whole(FrameFormat(), ToFrames(ms), n)
            && (n == |WriteAll(FrameFormat(), ToFrames(ms))| ==> |got| == |ms|)
            && forall i :: 0 <= i < |got| ==> got[i] == Some(ms[i])
  {
    CutLosesFrames(ToFrames(ms), n);
    EverythingArrives(FrameFormat(), ToFrames(ms));
    forall i | 0 <= i < |ms| ensures FromFrame(ToFrame(ms[i])) == Some(ms[i]) {
      MessageTwoSided(ms[i], ToFrame(ms[i]));
    }
  }
}
