/**
 The client side of console output: the frame loops of `run_session` and
 `run_exec_streaming`, and the reconnect loops that carry the watermark from one
 connection to the next (crates/client/src/console.rs and quic.rs). Module
 ConsoleProtocol composes the same steps with the server's.
 */
module ConsoleClient {
  import opened Prelude
  import opened ConsoleBuffer

  /**
   A frame read from the stream and how many of its bytes the local write managed
   before failing, or an exit frame whose payload does not decode.
   */
  datatype Incoming = Incoming(frame: ConsoleFrame, written: nat) | BadExit

  /** How the read after the last frame fails: a lost connection is worth another one, other errors are not. */
  datatype Ending = Lost | Broken

  /** One connection; a stream that cannot be opened has no frames. */
  datatype Session = Session(frames: seq<Incoming>, ending: Ending)

  datatype Outcome = Exited(code: nat) | Disconnected | Failed

  function Payload(x: Incoming): seq<Byte> {
    if x.Incoming? && x.frame.Data? then x.frame.payload else []
  }

  /** A data frame whose payload was written completely, or a frame of another kind that is not an exit. */
  predicate Rendered(x: Incoming) {
    x.Incoming? && !x.frame.Exit? && (x.frame.Data? ==> |x.frame.payload| <= x.written)
  }

  function Payloads(frames: seq<Incoming>, n: nat): seq<Byte>
    requires n <= |frames|
  {
    if n == 0 then [] else Payloads(frames, n - 1) + Payload(frames[n - 1])
  }

  /** How many frames of a connection are rendered before the first that is not. */
  function Completed(frames: seq<Incoming>): (n: nat)
    ensures n <= |frames| && (forall i :: 0 <= i < n ==> Rendered(frames[i])) && (n < |frames| ==> !Rendered(frames[n]))
  {
    if frames == [] || !Rendered(frames[0]) then 0 else 1 + Completed(frames[1..])
  }

  /** The watermark after the first `n` frames of a connection have been written in full. */
  function Advance(watermark: nat, frames: seq<Incoming>, n: nat): nat
    requires n <= |frames|
  {
    Min(watermark + |Payloads(frames, n)|, U64_MAX)
  }

  /** The bytes of the frame after the rendered ones that reach the local output all the same. */
  function Partial(frames: seq<Incoming>, n: nat): seq<Byte>
    requires n == Completed(frames)
  {
    if n < |frames| && frames[n].Incoming? && frames[n].frame.Data? then
      frames[n].frame.payload[..frames[n].written]
    else
      []
  }

  /** `wait_for_exit`: the first exit frame decides, and every read error is an error. */
  function ExitAmong(frames: seq<Incoming>): Outcome {
    if frames == [] then Failed
    else if frames[0].BadExit? then Failed
    else if frames[0].frame.Exit? then Exited(frames[0].frame.code)
    else ExitAmong(frames[1..])
  }

  /**
   How a connection ends. A local write that fails is taken for a lost connection by
   the interactive loop; the streaming loop waits for the exit when its receiver is gone.
   */
  function OutcomeOf(session: Session, streaming: bool): Outcome {
    var n := Completed(session.frames);
    if n == |session.frames| then if session.ending.Lost? then Disconnected else Failed
    else if session.frames[n].BadExit? then Failed
    else if session.frames[n].frame.Exit? then Exited(session.frames[n].frame.code)
    else if streaming then ExitAmong(session.frames[n + 1..])
    else Disconnected
  }

  // ---------------------------------------------------------------------------
  // What the frames say, whatever the loops do
  // ---------------------------------------------------------------------------

  /** The frame is no exit and, if it is data, all of it was written. */
  ghost predicate PassesBy(x: Incoming) {
    x.Incoming? && !x.frame.Exit? && (x.frame.Data? ==> x.written >= |x.frame.payload|)
  }

  /** A loop goes past the first `n` frames and not past the next, if there is one. */
  ghost predicate StopsAt(frames: seq<Incoming>, n: nat) {
    && n <= |frames| && (forall i :: 0 <= i < n ==> PassesBy(frames[i]))
    && (n < |frames| ==>
          frames[n].BadExit? || frames[n].frame.Exit?
          || (frames[n].frame.Data? && frames[n].written < |frames[n].frame.payload|))
  }

  /** The first exit frame from the `m`-th on is the `k`-th, or there is none. */
  ghost predicate FirstExit(frames: seq<Incoming>, m: nat, k: nat) {
    && m <= k <= |frames| && (forall j :: m <= j < k ==> frames[j].Incoming? && !frames[j].frame.Exit?)
    && (k < |frames| ==> frames[k].BadExit? || frames[k].frame.Exit?)
  }

  /** What the `k`-th frame says if it is the exit that decides; without one, or with a bad one, that is an error. */
  ghost predicate DecidedBy(frames: seq<Incoming>, k: nat, outcome: Outcome) {
    if k < |frames| && frames[k].Incoming? && frames[k].frame.Exit? then outcome == Exited(frames[k].frame.code)
    else outcome == Failed
  }

  /** The first exit frame from the `m`-th on decides. */
  ghost predicate Awaited(frames: seq<Incoming>, m: nat, outcome: Outcome) {
    forall k: nat :: FirstExit(frames, m, k) ==> DecidedBy(frames, k, outcome)
  }

  /**
   How a connection whose loop stops at the `n`-th frame ends. Where the frames run out,
   a lost connection is a disconnect and every other error an error. An exit frame gives
   its code. A local write that fails is a disconnect, or when streaming leaves it to
   the first exit frame after it.
   */
  ghost predicate ConcludesAt(session: Session, streaming: bool, n: nat, outcome: Outcome)
    requires StopsAt(session.frames, n)
  {
    if n == |session.frames| then outcome == if session.ending == Lost then Disconnected else Failed
    else if session.frames[n].BadExit? || session.frames[n].frame.Exit? then DecidedBy(session.frames, n, outcome)
    else if streaming then Awaited(session.frames, n + 1, outcome)
    else outcome == Disconnected
  }

  /** How a connection ends, read off its frames. */
  ghost predicate Concludes(session: Session, streaming: bool, outcome: Outcome) {
    forall n: nat :: StopsAt(session.frames, n) ==> ConcludesAt(session, streaming, n, outcome)
  }

  lemma StopsAtCompleted(frames: seq<Incoming>, n: nat)
    ensures StopsAt(frames, n) <==> n == Completed(frames)
  {
    var m := Completed(frames);
    assert forall i :: 0 <= i < |frames| ==> (PassesBy(frames[i]) <==> Rendered(frames[i]));
    assert n < m ==> Rendered(frames[n]);
    if StopsAt(frames, n) { assert forall i :: 0 <= i < n ==> Rendered(frames[i]); }
  }

  lemma {:induction false} FirstExitDecides(frames: seq<Incoming>, m: nat, k: nat)
    requires FirstExit(frames, m, k)
    ensures DecidedBy(frames, k, ExitAmong(frames[m..]))
    decreases k - m
  {
    if m < k {
      assert frames[m..][0] == frames[m] && frames[m..][1..] == frames[m + 1..];
      FirstExitDecides(frames, m + 1, k);
    } else if k < |frames| {
      assert frames[m..][0] == frames[k];
    }
  }

  lemma ExitIsAwaited(frames: seq<Incoming>, m: nat)
    requires m <= |frames|
    ensures Awaited(frames, m, ExitAmong(frames[m..]))
  {
    forall k: nat | FirstExit(frames, m, k) ensures DecidedBy(frames, k, ExitAmong(frames[m..])) {
      FirstExitDecides(frames, m, k);
    }
  }

  lemma OutcomeConcludesAt(session: Session, streaming: bool, n: nat)
    requires StopsAt(session.frames, n)
    ensures ConcludesAt(session, streaming, n, OutcomeOf(session, streaming))
  {
    StopsAtCompleted(session.frames, n);
    if n < |session.frames| && streaming { ExitIsAwaited(session.frames, n + 1); }
  }

  lemma OutcomeConcludes(session: Session, streaming: bool)
    ensures Concludes(session, streaming, OutcomeOf(session, streaming))
  {
    forall n: nat | StopsAt(session.frames, n)
      ensures ConcludesAt(session, streaming, n, OutcomeOf(session, streaming))
    {
      OutcomeConcludesAt(session, streaming, n);
    }
  }

  /** Writing one more frame in full moves the watermark by its payload. */
  lemma AdvanceOne(watermark: nat, frames: seq<Incoming>, n: nat)
    requires n < |frames| && watermark <= U64_MAX
    ensures Advance(watermark, frames, n + 1) == SaturatingAdd(Advance(watermark, frames, n), |Payload(frames[n])|)
  {
  }

  lemma CompletedAt(frames: seq<Incoming>, n: nat)
    requires n <= Completed(frames)
    ensures n < |frames| && Rendered(frames[n]) ==> n < Completed(frames)
    ensures n == |frames| || !Rendered(frames[n]) ==> n == Completed(frames)
  {
  }

  /**
   `run_session` once the stream is open. The watermark counts exactly the bytes of the
   frames that were written completely; a write that fails half way leaves bytes on the
   screen that the watermark does not count, and is reported as a lost connection.
   */
  method RunSession(session: Session, rendered0: nat) returns (outcome: Outcome, rendered: nat, output: seq<Byte>)
    requires rendered0 <= U64_MAX
    ensures outcome == OutcomeOf(session, false) && Concludes(session, false, outcome)
    ensures rendered == Advance(rendered0, session.frames, Completed(session.frames))
    ensures var n := Completed(session.frames);
            output == Payloads(session.frames, n) + Partial(session.frames, n)
  {
    var frames, n := session.frames, 0;
    rendered, output := rendered0, [];
    while n < |frames| && Rendered(frames[n])
      invariant 0 <= n <= Completed(frames)
      invariant rendered == Advance(rendered0, frames, n) && output == Payloads(frames, n)
    {
      AdvanceOne(rendered0, frames, n);
      CompletedAt(frames, n);
      if frames[n].frame.Data? {
        output := output + frames[n].frame.payload;
        rendered := SaturatingAdd(rendered, |frames[n].frame.payload|);
      }
      n := n + 1;
    }
    CompletedAt(frames, n);
    if n == |frames| {
      outcome := if session.ending.Lost? then Disconnected else Failed;
    } else if frames[n].BadExit? {
      outcome := Failed;
    } else if frames[n].frame.Exit? {
      outcome := Exited(frames[n].frame.code);
    } else {
      output := output + frames[n].frame.payload[..frames[n].written];
      outcome := Disconnected;
    }
    OutcomeConcludes(session, false);
  }

  /** `wait_for_exit`. */
  method WaitForExit(frames: seq<Incoming>) returns (outcome: Outcome)
    ensures outcome == ExitAmong(frames)
    ensures Awaited(frames, 0, outcome)
  {
    var n := 0;
    ExitIsAwaited(frames, 0);
    WholeSlice(frames);
    while n < |frames| && frames[n].Incoming? && !frames[n].frame.Exit?
      invariant 0 <= n <= |frames| && ExitAmong(frames[n..]) == ExitAmong(frames)
    {
      assert frames[n..][1..] == frames[n + 1..];
      n := n + 1;
    }
    outcome := if n < |frames| && frames[n].Incoming? then Exited(frames[n].frame.code) else Failed;
  }

  /** `run_exec_streaming` once the stream is open: a payload is passed on whole, or the receiver is gone. */
  method RunExecStreaming(session: Session, rendered0: nat) returns (outcome: Outcome, rendered: nat)
    requires rendered0 <= U64_MAX
    ensures outcome == OutcomeOf(session, true) && Concludes(session, true, outcome)
    ensures rendered == Advance(rendered0, session.frames, Completed(session.frames))
  {
    var frames, n := session.frames, 0;
    rendered := rendered0;
    while n < |frames| && Rendered(frames[n])
      invariant 0 <= n <= Completed(frames)
      invariant rendered == Advance(rendered0, frames, n)
    {
      AdvanceOne(rendered0, frames, n);
      CompletedAt(frames, n);
      if frames[n].frame.Data? {
        rendered := SaturatingAdd(rendered, |frames[n].frame.payload|);
      }
      n := n + 1;
    }
    CompletedAt(frames, n);
    if n == |frames| {
      outcome := if session.ending.Lost? then Disconnected else Failed;
    } else if frames[n].BadExit? {
      outcome := Failed;
    } else if frames[n].frame.Exit? {
      outcome := Exited(frames[n].frame.code);
    } else {
      outcome := WaitForExit(frames[n + 1..]);
    }
    OutcomeConcludes(session, true);
  }

  // ---------------------------------------------------------------------------
  // Reconnecting
  // ---------------------------------------------------------------------------

  /** What `connect` returns: an error that is not worth retrying, or a connection. */
  datatype Attempt = NoConnection | Connected(session: Session)

  /** How the reconnect loop ends; `Open` is a loop that is still going when the attempts run out. */
  datatype Ended = WithCode(code: nat) | WithError | Open

  /** How an attempt ends the loop, if it does. */
  function EndOf(a: Attempt, streaming: bool): Ended {
    if a.NoConnection? then WithError
    else match OutcomeOf(a.session, streaming)
      case Exited(code) => WithCode(code)
      case Failed => WithError
      case Disconnected => Open
  }

  /** The `n`-th frame is data that was not written in full. */
  ghost predicate CutShort(frames: seq<Incoming>, n: nat) {
    n < |frames| && frames[n].Incoming? && frames[n].frame.Data?
  }

  /** The connection was lost, or its local write failed and the loop takes that for a lost connection. */
  ghost predicate WasLost(a: Attempt, streaming: bool) {
    && a.Connected?
    && exists n: nat ::
         && StopsAt(a.session.frames, n)
         && if n == |a.session.frames| then a.session.ending == Lost else !streaming && CutShort(a.session.frames, n)
  }

  /** The exit frame that decides the attempt: the one the loop stops at, or when streaming the first after that. */
  ghost predicate Decides(frames: seq<Incoming>, streaming: bool, n: nat, k: nat) {
    StopsAt(frames, n) && (k == n || (streaming && CutShort(frames, n) && FirstExit(frames, n + 1, k)))
  }

  ghost predicate CarriesExit(a: Attempt, streaming: bool, code: nat) {
    && a.Connected?
    && exists n: nat, k: nat ::
         && Decides(a.session.frames, streaming, n, k) && k < |a.session.frames|
         && a.session.frames[k].Incoming? && a.session.frames[k].frame == Exit(code)
  }

  /** What an attempt does to the loop, read off its frames. */
  ghost predicate Settles(a: Attempt, streaming: bool, end: Ended) {
    && (end == Open <==> WasLost(a, streaming))
    && (forall code: nat :: end == WithCode(code) <==> CarriesExit(a, streaming, code))
  }

  lemma {:induction false} SomeFirstExit(frames: seq<Incoming>, m: nat) returns (k: nat)
    requires m <= |frames|
    ensures FirstExit(frames, m, k)
    decreases |frames| - m
  {
    if m == |frames| || frames[m].BadExit? || frames[m].frame.Exit? {
      k := m;
    } else {
      k := SomeFirstExit(frames, m + 1);
    }
  }

  lemma OneFirstExit(frames: seq<Incoming>, m: nat, k: nat, l: nat)
    requires FirstExit(frames, m, k) && FirstExit(frames, m, l)
    ensures k == l
  {
  }

  lemma LostIff(a: Attempt, streaming: bool)
    ensures EndOf(a, streaming) == Open <==> WasLost(a, streaming)
  {
    if a.Connected? {
      var frames, n := a.session.frames, Completed(a.session.frames);
      forall m: nat ensures StopsAt(frames, m) <==> m == n { StopsAtCompleted(frames, m); }
      assert StopsAt(frames, n);
      if n < |frames| {
        var k := SomeFirstExit(frames, n + 1);
        FirstExitDecides(frames, n + 1, k);
      }
    }
  }

  /** The frame that decides an attempt says how it ends. */
  lemma DecidesEnd(a: Attempt, streaming: bool, n: nat, k: nat)
    requires a.Connected? && Decides(a.session.frames, streaming, n, k) && k < |a.session.frames|
    requires a.session.frames[k].Incoming? && a.session.frames[k].frame.Exit?
    ensures EndOf(a, streaming) == WithCode(a.session.frames[k].frame.code)
  {
    StopsAtCompleted(a.session.frames, n);
    if k != n { FirstExitDecides(a.session.frames, n + 1, k); }
  }

  lemma CodeIff(a: Attempt, streaming: bool, code: nat)
    ensures EndOf(a, streaming) == WithCode(code) <==> CarriesExit(a, streaming, code)
  {
    if CarriesExit(a, streaming, code) {
      var n: nat, k: nat :| Decides(a.session.frames, streaming, n, k) && k < |a.session.frames|
        && a.session.frames[k].Incoming? && a.session.frames[k].frame == Exit(code);
      DecidesEnd(a, streaming, n, k);
    }
    if EndOf(a, streaming) == WithCode(code) {
      var frames, n := a.session.frames, Completed(a.session.frames);
      StopsAtCompleted(frames, n);
      var k := n;
      if CutShort(frames, n) {
        k := SomeFirstExit(frames, n + 1);
        FirstExitDecides(frames, n + 1, k);
      }
      assert Decides(frames, streaming, n, k);
    }
  }

  lemma EndSettles(a: Attempt, streaming: bool)
    ensures Settles(a, streaming, EndOf(a, streaming))
  {
    LostIff(a, streaming);
    forall code: nat ensures EndOf(a, streaming) == WithCode(code) <==> CarriesExit(a, streaming, code) {
      CodeIff(a, streaming, code);
    }
  }

  /** How many attempts the loop makes: up to the first that ends it. */
  function Made(attempts: seq<Attempt>, streaming: bool): (n: nat)
    ensures n <= |attempts| && (forall k :: 0 <= k < n - 1 ==> EndOf(attempts[k], streaming).Open?)
    ensures n < |attempts| ==> n > 0 && !EndOf(attempts[n - 1], streaming).Open?
  {
    if attempts == [] then 0
    else if !EndOf(attempts[0], streaming).Open? then 1
    else 1 + Made(attempts[1..], streaming)
  }

  /** The watermark before attempt `n`. */
  function WatermarkAt(attempts: seq<Attempt>, n: nat): nat
    requires n <= |attempts|
  {
    if n == 0 then 0
    else
      var before, a := WatermarkAt(attempts, n - 1), attempts[n - 1];
      if a.NoConnection? then before else Advance(before, a.session.frames, Completed(a.session.frames))
  }

  lemma WatermarkFits(attempts: seq<Attempt>, n: nat)
    requires n <= |attempts|
    ensures WatermarkAt(attempts, n) <= U64_MAX
  {
  }

  /** Every connection resumes from what those before it wrote in full. */
  ghost predicate Resumes(watermarks: seq<nat>, attempts: seq<Attempt>) {
    && |watermarks| <= |attempts|
    && forall k {:trigger watermarks[k]} :: 0 <= k < |watermarks| ==> watermarks[k] == WatermarkAt(attempts, k)
  }

  lemma {:induction false} ResumeOnce(watermarks: seq<nat>, attempts: seq<Attempt>)
    requires Resumes(watermarks, attempts) && |watermarks| < |attempts|
    ensures Resumes(watermarks + [WatermarkAt(attempts, |watermarks|)], attempts)
  {
  }

  lemma MadeStep(attempts: seq<Attempt>, streaming: bool, n: nat)
    requires n < Made(attempts, streaming)
    ensures EndOf(attempts[n], streaming).Open? && n + 1 < |attempts| ==> n + 1 < Made(attempts, streaming)
    ensures EndOf(attempts[n], streaming).Open? && n + 1 == |attempts| ==> Made(attempts, streaming) == n + 1
    ensures !EndOf(attempts[n], streaming).Open? ==> Made(attempts, streaming) == n + 1
  {
  }

  /** Each watermark is the one before it and the bytes that connection wrote in full. */
  ghost predicate Counts(watermarks: seq<nat>, attempts: seq<Attempt>) {
    && |watermarks| <= |attempts| && (watermarks != [] ==> watermarks[0] == 0)
    && forall k, n: nat {:trigger watermarks[k], StopsAt(attempts[k].session.frames, n)} ::
         0 <= k < |watermarks| - 1 && attempts[k].Connected? && StopsAt(attempts[k].session.frames, n) ==>
           watermarks[k + 1] == Min(watermarks[k] + |Payloads(attempts[k].session.frames, n)|, U64_MAX)
  }

  lemma ResumesCounts(watermarks: seq<nat>, attempts: seq<Attempt>)
    requires Resumes(watermarks, attempts)
    ensures Counts(watermarks, attempts)
  {
    forall k, n: nat | 0 <= k < |watermarks| - 1 && attempts[k].Connected? && StopsAt(attempts[k].session.frames, n)
      ensures watermarks[k + 1] == Min(watermarks[k] + |Payloads(attempts[k].session.frames, n)|, U64_MAX)
    {
      StopsAtCompleted(attempts[k].session.frames, n);
      assert watermarks[k + 1] == WatermarkAt(attempts, k + 1) && watermarks[k] == WatermarkAt(attempts, k);
    }
  }

  /** The loop goes on exactly after a lost connection, and ends as its last attempt settles it. */
  ghost predicate GoesOn(attempts: seq<Attempt>, streaming: bool, made: nat, end: Ended) {
    && made <= |attempts| && (attempts != [] ==> made > 0)
    && (forall k :: 0 <= k < made && k + 1 < |attempts| ==> (k + 1 < made <==> WasLost(attempts[k], streaming)))
    && (if made == 0 then end == Open else Settles(attempts[made - 1], streaming, end))
  }

  lemma MadeGoesOn(attempts: seq<Attempt>, streaming: bool)
    ensures var made := Made(attempts, streaming);
            GoesOn(attempts, streaming, made, if made == 0 then Open else EndOf(attempts[made - 1], streaming))
  {
    var made := Made(attempts, streaming);
    forall k | 0 <= k < made ensures Settles(attempts[k], streaming, EndOf(attempts[k], streaming)) {
      EndSettles(attempts[k], streaming);
    }
  }

  /**
   `run_console_with_reconnect` and its exec variants: connect, run the session, and on a
   lost connection start over with the watermark reached so far. Connection `k` asks the
   server to resume from `watermarks[k]`. The loop ends at the first exit frame, the
   first error of a session that is not a lost connection, or the first error of
   `connect`, and nowhere else; `reached` is the watermark there.
   */
  method RunWithReconnect(attempts: seq<Attempt>, streaming: bool)
    returns (end: Ended, watermarks: seq<nat>, reached: nat)
    ensures |watermarks| == Made(attempts, streaming) && Resumes(watermarks, attempts)
    ensures reached == WatermarkAt(attempts, |watermarks|)
    ensures end == if |watermarks| == 0 then Open else EndOf(attempts[|watermarks| - 1], streaming)
    ensures GoesOn(attempts, streaming, |watermarks|, end) && Counts(watermarks, attempts)
  {
    end, watermarks, reached := Open, [], 0;
    while |watermarks| < |attempts| && end.Open?
      invariant Underway(attempts, streaming, watermarks, reached, end)
    {
      WatermarkFits(attempts, |watermarks|);
      var asked := reached;
      end, reached := TryOnce(attempts[|watermarks|], streaming, asked);
      UnderwayMore(attempts, streaming, watermarks, reached, end);
      watermarks := watermarks + [asked];
    }
    MadeGoesOn(attempts, streaming);
    ResumesCounts(watermarks, attempts);
  }

  /** Where the reconnect loop stands. */
  ghost predicate Underway(attempts: seq<Attempt>, streaming: bool, watermarks: seq<nat>, reached: nat, end: Ended) {
    && |watermarks| <= Made(attempts, streaming) && Resumes(watermarks, attempts)
    && reached == WatermarkAt(attempts, |watermarks|)
    && (end == if watermarks == [] then Open else EndOf(attempts[|watermarks| - 1], streaming))
    && (if end.Open? && |watermarks| < |attempts| then |watermarks| < Made(attempts, streaming)
        else |watermarks| == Made(attempts, streaming))
  }

  lemma UnderwayMore(attempts: seq<Attempt>, streaming: bool, watermarks: seq<nat>, reached: nat, end: Ended)
    requires |watermarks| < Made(attempts, streaming) && Resumes(watermarks, attempts)
    requires reached == WatermarkAt(attempts, |watermarks| + 1) && end == EndOf(attempts[|watermarks|], streaming)
    ensures Underway(attempts, streaming, watermarks + [WatermarkAt(attempts, |watermarks|)], reached, end)
  {
    MadeStep(attempts, streaming, |watermarks|);
    ResumeOnce(watermarks, attempts);
  }

  /** One turn of the reconnect loop. */
  method TryOnce(a: Attempt, streaming: bool, rendered0: nat) returns (end: Ended, rendered: nat)
    requires rendered0 <= U64_MAX
    ensures end == EndOf(a, streaming)
    ensures a.NoConnection? ==> rendered == rendered0
    ensures a.Connected? ==> rendered == Advance(rendered0, a.session.frames, Completed(a.session.frames))
  {
    if a.NoConnection? { return WithError, rendered0; }
    var outcome, output;
    if streaming {
      outcome, rendered := RunExecStreaming(a.session, rendered0);
    } else {
      outcome, rendered, output := RunSession(a.session, rendered0);
    }
    end := match outcome case Exited(code) => WithCode(code) case Failed => WithError case Disconnected => Open;
  }
}
