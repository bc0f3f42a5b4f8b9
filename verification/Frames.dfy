/**
 Framing of the control and console streams (crates/protocol/src/lib.rs:62-109 and
 295-342): one type byte, a 32-bit length, the payload.
 */
module Frames {
  import opened Prelude
  import opened Wire
  import opened Stream

  datatype Frame = Frame(ty: Byte, payload: seq<Byte>)

  predicate Fits(f: Frame) { |f.payload| < U32_LIMIT }

  /** `write_to`. */
  function Write(f: Frame): seq<Byte> {
    [f.ty] + PutBytes(f.payload)
  }

  /** The bytes of a frame: its type, the length of its payload modulo 2^32, its payload. */
  predicate FrameLayout(b: seq<Byte>, f: Frame) {
    ByteAt(b, 0, f.ty) && BytesAt(b, 1, f.payload) && |b| == 5 + |f.payload|
  }

  lemma FrameBytes(f: Frame, b: seq<Byte>)
    ensures b == Write(f) <==> FrameLayout(b, f)
  {
    AtStart(b, Write(f));
    AtPair(b, 0, 1, [f.ty], PutBytes(f.payload));
    ByteIff(b, 0, f.ty);
    BytesIff(b, 1, f.payload);
  }

  /** `read_from`, on everything the stream will ever deliver. */
  function Read(b: seq<Byte>): (r: Parsed<Frame>)
    ensures r.Ok? ==> Fits(r.value) && b == Write(r.value) + r.rest
  {
    var ty := TakeByte(b);
    if ty.Err? then Err else
    var payload := TakeBytes(ty.rest);
    if payload.Err? then Err else
    Assoc([ty.value], PutBytes(payload.value), payload.rest);
    Ok(Frame(ty.value, payload.value), payload.rest)
  }

  lemma ReadWrite(f: Frame, rest: seq<Byte>)
    requires Fits(f)
    ensures Read(Write(f) + rest) == Ok(f, rest)
  {
    Assoc([f.ty], PutBytes(f.payload), rest);
    TakePutByte(f.ty, PutBytes(f.payload) + rest);
    TakePutBytes(f.payload, rest);
  }

  /** More bytes do not change a frame that has already been read. */
  lemma ReadMonotone(b: seq<Byte>, more: seq<Byte>)
    requires Read(b).Ok?
    ensures Read(b + more) == Ok(Read(b).value, Read(b).rest + more)
  {
    var r := Read(b);
    Assoc(Write(r.value), r.rest, more);
    ReadWrite(r.value, r.rest + more);
  }

  /** No proper prefix of a frame reads as a frame. */
  lemma TruncatedFrameFails(f: Frame, n: nat)
    requires Fits(f) && n < |Write(f)|
    ensures Read(Write(f)[..n]).Err?
  {
    var w := Write(f);
    assert w[..n] + w[n..] == w && w + [] == w;
    ReadWrite(f, []);
    if Read(w[..n]).Ok? { ReadMonotone(w[..n], w[n..]); }
  }

  /** Frames as items of a stream. */
  function FrameFormat(): Format<Frame> { Format(Read, Write, Fits) }

  lemma FramesAreFramed()
    ensures Framed(FrameFormat())
  {
    var format := FrameFormat();
    forall f: Frame, rest: seq<Byte> | format.fits(f) ensures ReadsBack(format, f, rest) {
      ReadWrite(f, rest);
    }
    forall f: Frame, n: nat | format.fits(f) ensures FailsShort(format, f, n) {
      if n < |Write(f)| { TruncatedFrameFails(f, n); }
    }
  }

  /** Cutting the stream of any sequence of frames anywhere loses exactly a suffix of the frames. */
  lemma CutLosesFrames(frames: seq<Frame>, n: nat)
    requires (forall f :: f in frames ==> Fits(f)) && n <= |WriteAll(FrameFormat(), frames)|
    ensures ReadAll(FrameFormat(), WriteAll(FrameFormat(), frames)[..n]) == frames[..Whole(FrameFormat(), frames, n)]
  {
    FramesAreFramed();
    CutLosesASuffix(FrameFormat(), frames, n);
  }

  /** Reading the concatenation of any sequence of written frames returns that sequence. */
  lemma ReadAllWriteAll(frames: seq<Frame>)
    requires forall f :: f in frames ==> Fits(f)
    ensures ReadAll(FrameFormat(), WriteAll(FrameFormat(), frames)) == frames
  {
    var b := WriteAll(FrameFormat(), frames);
    CutLosesFrames(frames, |b|);
    EverythingArrives(FrameFormat(), frames);
    WholeSlice(b);
    WholeSlice(frames);
  }
}
