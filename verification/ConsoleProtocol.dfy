/**
 Resumable console output as a distributed protocol: one session log on the
 server, a bounded window over it, one client that attaches, loses its
 connection and reattaches with the watermark `rendered_bytes`
 (crates/init/src/forward.rs, crates/client/src/console.rs and quic.rs).

 The window is `TailStart`/`Tail` of the log: module ConsoleBuffer proves that
 the server's buffer is exactly that.
 */
module ConsoleProtocol {
  import opened Prelude
  import opened ConsoleBuffer
  import Client = ConsoleClient

  /**
   A data frame on the wire. Only `payload` is transmitted. `start` is the
   absolute offset of its first byte, `cut` the oldest offset retained when it was
   copied out of the window, and `gap` says that the window had by then moved past
   the offset the copy was asked for.
   */
  datatype Frame = Frame(start: nat, payload: seq<Byte>, cut: nat, gap: bool)

  /** What the server does next for the attachment. */
  datatype Pc = ReadExit | AwaitChange | Finished

  datatype Stream =
    | Closed
    | Requested
    | Open(cursor: nat, pc: Pc, wire: seq<Frame>, exitSent: bool)

  /** One byte written to the client's terminal, with its absolute offset and the cut of its frame. */
  datatype Shown = Shown(offset: nat, value: Byte, cut: nat)

  datatype State = State(
    log: seq<Byte>,        // everything the process has printed
    exited: bool,
    rendered: nat,         // the client's watermark
    screen: seq<Shown>,    // everything the client has written locally
    stream: Stream,
    done: bool,            // the client has returned
    gapShown: bool,        // a frame cut after an overrun has been shown
    partial: nat           // bytes written locally by writes that then failed
  )

  const INIT := State([], false, 0, [], Closed, false, false, 0)

  datatype Action =
    | Push(payload: seq<Byte>)   // the process prints
    | ProcessExit
    | Connect                    // the client opens a stream and sends its watermark
    | Attach                     // the server subscribes and sends the replay
    | Notify                     // the server sends a snapshot
    | CheckExit                  // the server looks at the exit code after sending
    | Deliver                    // the client reads, writes and counts one frame
    | WriteFails(k: nat)         // the local write fails after k bytes of a frame
    | DeliverExit
    | Disconnect                 // the connection is lost with whatever is in flight
    | Quit                       // the client gives up with an error

  ghost predicate IsShown(screen: seq<Shown>, n: nat, i: nat)
    requires n <= |screen|
  {
    exists q :: 0 <= q < n && screen[q].offset == i
  }

  function Cut(log: seq<Byte>, limit: nat, from: nat): Frame {
    var start := Clamp(from, TailStart(log, limit), |log|);
    Frame(start, Retained(log, limit, from), TailStart(log, limit), from < TailStart(log, limit))
  }

  /** Empty snapshots are not sent. */
  function Send(wire: seq<Frame>, f: Frame): seq<Frame> {
    if f.payload == [] then wire else wire + [f]
  }

  function Render(f: Frame, k: nat): seq<Shown>
    requires k <= |f.payload|
  {
    seq(k, i requires 0 <= i < k => Shown(f.start + i, f.payload[i], f.cut))
  }

  /** One atomic step; an action that is not enabled changes nothing. */
  function Do(limit: nat, s: State, a: Action): State {
    match a
    case Push(payload) =>
      if |s.log| + |payload| <= U64_MAX then s.(log := s.log + payload) else s
    case ProcessExit => s.(exited := true)
    case Connect =>
      if s.stream.Closed? && !s.done then s.(stream := Requested) else s
    case Attach =>
      if s.stream.Requested? then
        s.(stream := Open(|s.log|, ReadExit, Send([], Cut(s.log, limit, s.rendered)), false))
      else s
    case Notify =>
      if s.stream.Open? && s.stream.pc == AwaitChange then
        s.(stream := s.stream.(cursor := |s.log|, pc := ReadExit,
                               wire := Send(s.stream.wire, Cut(s.log, limit, s.stream.cursor))))
      else s
    case CheckExit =>
      if s.stream.Open? && s.stream.pc == ReadExit then
        if s.exited then s.(stream := s.stream.(pc := Finished, exitSent := true))
        else s.(stream := s.stream.(pc := AwaitChange))
      else s
    case Deliver =>
      if s.stream.Open? && s.stream.wire != [] then
        var f := s.stream.wire[0];
        s.(screen := s.screen + Render(f, |f.payload|),
           rendered := SaturatingAdd(s.rendered, |f.payload|),
           gapShown := s.gapShown || f.gap,
           stream := s.stream.(wire := s.stream.wire[1..]))
      else s
    case WriteFails(k) =>
      if s.stream.Open? && s.stream.wire != [] && k < |s.stream.wire[0].payload| then
        s.(screen := s.screen + Render(s.stream.wire[0], k), partial := s.partial + k, stream := Closed)
      else s
    case DeliverExit =>
      if s.stream.Open? && s.stream.wire == [] && s.stream.exitSent then s.(stream := Closed, done := true) else s
    case Disconnect => s.(stream := Closed)
    case Quit => s.(stream := Closed, done := true)
  }

  function RunFrom(limit: nat, s: State, actions: seq<Action>): State {
    if actions == [] then s
    else Do(limit, RunFrom(limit, s, actions[..|actions| - 1]), actions[|actions| - 1])
  }

  /** The state after any sequence of actions, in any interleaving. */
  function Run(limit: nat, actions: seq<Action>): State {
    RunFrom(limit, INIT, actions)
  }

  // ---------------------------------------------------------------------------
  // Invariant
  // ---------------------------------------------------------------------------

  function End(f: Frame): nat { f.start + |f.payload| }

  /** Absolute end offset of the last byte shown. */
  function LastEnd(screen: seq<Shown>): nat {
    if screen == [] then 0 else screen[|screen| - 1].offset + 1
  }

  ghost predicate OnWire(wire: seq<Frame>, n: nat, i: nat)
    requires n <= |wire|
  {
    exists j :: 0 <= j < n && wire[j].start <= i < End(wire[j])
  }

  /** Every shown byte is the log's, and everything before it was shown earlier or had been evicted when it was cut. */
  ghost predicate ScreenOk(log: seq<Byte>, screen: seq<Shown>, oldest: nat) {
    && (forall p :: 0 <= p < |screen| ==>
          screen[p].offset < |log| && screen[p].value == log[screen[p].offset] && screen[p].cut <= oldest)
    && NothingSkipped(screen)
  }

  ghost predicate NothingSkipped(screen: seq<Shown>) {
    forall p, i: nat {:trigger IsShown(screen, p, i)} ::
      0 <= p < |screen| && i < screen[p].offset ==> i < screen[p].cut || IsShown(screen, p, i)
  }

  ghost predicate FrameOk(log: seq<Byte>, f: Frame, oldest: nat) {
    && f.payload != []
    && End(f) <= |log|
    && f.payload == log[f.start..End(f)]
    && f.cut <= oldest
  }

  /** Everything before `x` is on the screen, on the first `n` frames of the wire, or evicted before `evicted`. */
  ghost predicate Covered(screen: seq<Shown>, wire: seq<Frame>, n: nat, x: nat, evicted: nat)
    requires n <= |wire|
  {
    forall i: nat {:trigger OnWire(wire, n, i)} :: i < x ==>
      i < evicted || IsShown(screen, |screen|, i) || OnWire(wire, n, i)
  }

  /** Where frame `j` may start: after the frame before it, or after the watermark. */
  function Before(rendered: nat, wire: seq<Frame>, j: nat): nat
    requires j <= |wire|
  {
    if j == 0 then rendered else End(wire[j - 1])
  }

  ghost predicate FramesOk(log: seq<Byte>, wire: seq<Frame>, oldest: nat) {
    forall j :: 0 <= j < |wire| ==> FrameOk(log, wire[j], oldest)
  }

  ghost predicate AllCovered(screen: seq<Shown>, wire: seq<Frame>, cursor: nat, oldest: nat) {
    && (forall j :: 0 <= j < |wire| ==> Covered(screen, wire, j, wire[j].start, wire[j].cut))
    && Covered(screen, wire, |wire|, cursor, oldest)
  }

  ghost predicate InOrder(before: nat, f: Frame) {
    if f.gap then before < f.start else before <= f.start
  }

  ghost predicate Ordered(rendered: nat, wire: seq<Frame>, cursor: nat) {
    && (forall j {:trigger Before(rendered, wire, j)} :: 0 <= j < |wire| ==>
        InOrder(Before(rendered, wire, j), wire[j]))
    && Before(rendered, wire, |wire|) <= cursor
  }

  ghost predicate WireOk(s: State, wire: seq<Frame>, cursor: nat, oldest: nat) {
    && cursor <= |s.log|
    && FramesOk(s.log, wire, oldest)
    && AllCovered(s.screen, wire, cursor, oldest)
    && Ordered(s.rendered, wire, cursor)
  }

  ghost predicate Inv(limit: nat, s: State) {
    && |s.log| <= U64_MAX
    && ScreenOk(s.log, s.screen, TailStart(s.log, limit))
    && s.rendered <= LastEnd(s.screen)
    && (s.stream.Open? ==> WireOk(s, s.stream.wire, s.stream.cursor, TailStart(s.log, limit)))
  }

  // ---------------------------------------------------------------------------
  // Every step keeps it
  // ---------------------------------------------------------------------------

  lemma ShownGrows(screen: seq<Shown>, more: seq<Shown>, n: nat, m: nat, i: nat)
    requires n <= |screen| && n <= m <= |screen + more|
    requires IsShown(screen, n, i)
    ensures IsShown(screen + more, m, i)
  {
    var q :| 0 <= q < n && screen[q].offset == i;
    assert (screen + more)[q].offset == i;
  }

  /** Writing the first `k` bytes of a frame whose past is covered skips nothing. */
  lemma RenderSkipsNothing(log: seq<Byte>, screen: seq<Shown>, f: Frame, k: nat, oldest: nat)
    requires ScreenOk(log, screen, oldest) && FrameOk(log, f, oldest) && k <= |f.payload|
    requires forall i: nat :: i < f.start ==> i < f.cut || IsShown(screen, |screen|, i)
    ensures ScreenOk(log, screen + Render(f, k), oldest)
  {
    var more := Render(f, k);
    var screen' := screen + more;
    forall p, i: nat | 0 <= p < |screen'| && i < screen'[p].offset
      ensures i < screen'[p].cut || IsShown(screen', p, i)
    {
      if p < |screen| {
        assert i < screen[p].cut || IsShown(screen, p, i);
        if IsShown(screen, p, i) { ShownGrows(screen, more, p, p, i); }
      } else if i < f.start {
        if IsShown(screen, |screen|, i) { ShownGrows(screen, more, |screen|, p, i); }
      } else {
        assert screen'[|screen| + (i - f.start)].offset == i;
      }
    }
  }

  /** Every byte of a frame is on the screen once the frame has been written. */
  lemma RenderShows(screen: seq<Shown>, f: Frame, i: nat)
    requires f.start <= i < End(f)
    ensures var screen' := screen + Render(f, |f.payload|);
            IsShown(screen', |screen'|, i)
  {
    var screen' := screen + Render(f, |f.payload|);
    assert screen'[|screen| + (i - f.start)].offset == i;
  }

  /** The first frame on the wire is covered by the screen alone. */
  lemma HeadCovered(limit: nat, s: State)
    requires Inv(limit, s) && s.stream.Open? && s.stream.wire != []
    ensures var f := s.stream.wire[0];
            forall i: nat :: i < f.start ==> i < f.cut || IsShown(s.screen, |s.screen|, i)
  {
    var wire := s.stream.wire;
    forall i: nat | i < wire[0].start ensures i < wire[0].cut || IsShown(s.screen, |s.screen|, i) {
      assert Covered(s.screen, wire, 0, wire[0].start, wire[0].cut);
      assert !OnWire(wire, 0, i);
    }
  }

  /** Coverage survives moving the head frame from the wire to the screen. */
  lemma DeliverCovers(screen: seq<Shown>, wire: seq<Frame>, n: nat, x: nat, evicted: nat)
    requires 0 < n <= |wire| && Covered(screen, wire, n, x, evicted)
    ensures Covered(screen + Render(wire[0], |wire[0].payload|), wire[1..], n - 1, x, evicted)
  {
    var more := Render(wire[0], |wire[0].payload|);
    var screen' := screen + more;
    forall i: nat | i < x
      ensures i < evicted || IsShown(screen', |screen'|, i) || OnWire(wire[1..], n - 1, i)
    {
      assert i < evicted || IsShown(screen, |screen|, i) || OnWire(wire, n, i);
      if IsShown(screen, |screen|, i) {
        ShownGrows(screen, more, |screen|, |screen'|, i);
      } else if OnWire(wire, n, i) {
        var j :| 0 <= j < n && wire[j].start <= i < End(wire[j]);
        if j == 0 { RenderShows(screen, wire[0], i); } else { assert wire[1..][j - 1] == wire[j]; }
      }
    }
  }

  lemma DeliverAllCovered(screen: seq<Shown>, wire: seq<Frame>, cursor: nat, oldest: nat)
    requires wire != [] && AllCovered(screen, wire, cursor, oldest)
    ensures AllCovered(screen + Render(wire[0], |wire[0].payload|), wire[1..], cursor, oldest)
  {
    DeliverCovers(screen, wire, |wire|, cursor, oldest);
    forall j | 0 <= j < |wire| - 1
      ensures Covered(screen + Render(wire[0], |wire[0].payload|), wire[1..], j, wire[1..][j].start, wire[1..][j].cut)
    {
      DeliverCovers(screen, wire, j + 1, wire[j + 1].start, wire[j + 1].cut);
    }
  }

  lemma DeliverOrdered(rendered: nat, wire: seq<Frame>, cursor: nat)
    requires wire != [] && Ordered(rendered, wire, cursor)
    ensures rendered <= wire[0].start && (wire[0].gap ==> rendered < wire[0].start)
    ensures Ordered(rendered + |wire[0].payload|, wire[1..], cursor)
  {
    var rendered' := rendered + |wire[0].payload|;
    assert Before(rendered, wire, 0) == rendered;
    assert InOrder(Before(rendered, wire, 0), wire[0]);
    var wire' := wire[1..];
    forall j | 0 <= j < |wire'| ensures InOrder(Before(rendered', wire', j), wire'[j]) {
      assert InOrder(Before(rendered, wire, j + 1), wire[j + 1]);
      assert wire'[j] == wire[j + 1] && (j > 0 ==> wire'[j - 1] == wire[j]);
    }
    if wire' != [] { assert wire'[|wire'| - 1] == wire[|wire| - 1]; }
  }

  lemma DeliverKeeps(limit: nat, s: State)
    requires Inv(limit, s) && s.stream.Open? && s.stream.wire != []
    ensures Inv(limit, Do(limit, s, Deliver))
  {
    var wire, oldest := s.stream.wire, TailStart(s.log, limit);
    var f := wire[0];
    HeadCovered(limit, s);
    RenderSkipsNothing(s.log, s.screen, f, |f.payload|, oldest);
    DeliverAllCovered(s.screen, wire, s.stream.cursor, oldest);
    DeliverOrdered(s.rendered, wire, s.stream.cursor);
    assert FrameOk(s.log, f, oldest);
    assert LastEnd(s.screen + Render(f, |f.payload|)) == End(f);
    assert SaturatingAdd(s.rendered, |f.payload|) == s.rendered + |f.payload|;
    assert FramesOk(s.log, wire[1..], oldest);
  }

  lemma WriteFailsKeeps(limit: nat, s: State, k: nat)
    requires Inv(limit, s)
    ensures Inv(limit, Do(limit, s, WriteFails(k)))
  {
    if s.stream.Open? && s.stream.wire != [] && k < |s.stream.wire[0].payload| {
      HeadCovered(limit, s);
      RenderSkipsNothing(s.log, s.screen, s.stream.wire[0], k, TailStart(s.log, limit));
      assert Before(s.rendered, s.stream.wire, 0) <= s.stream.wire[0].start;
    }
  }

  lemma PushKeeps(limit: nat, s: State, payload: seq<Byte>)
    requires Inv(limit, s)
    ensures Inv(limit, Do(limit, s, Push(payload)))
  {
    if |s.log| + |payload| <= U64_MAX && s.stream.Open? {
      var wire, log' := s.stream.wire, s.log + payload;
      forall j | 0 <= j < |wire| ensures FrameOk(log', wire[j], TailStart(log', limit)) {
        assert log'[wire[j].start..End(wire[j])] == s.log[wire[j].start..End(wire[j])];
      }
      forall i: nat | i < s.stream.cursor
        ensures i < TailStart(log', limit) || IsShown(s.screen, |s.screen|, i) || OnWire(wire, |wire|, i)
      {
        assert Covered(s.screen, wire, |wire|, s.stream.cursor, TailStart(s.log, limit));
      }
    }
  }

  /** Everything below the watermark has been shown or evicted. */
  lemma WatermarkCovered(limit: nat, s: State, i: nat)
    requires Inv(limit, s) && i < s.rendered
    ensures i < TailStart(s.log, limit) || IsShown(s.screen, |s.screen|, i)
  {
    var p := |s.screen| - 1;
    if i == s.screen[p].offset {
    } else {
      assert i < s.screen[p].cut || IsShown(s.screen, p, i);
      if IsShown(s.screen, p, i) { ShownGrows(s.screen, [], p, |s.screen|, i); assert s.screen + [] == s.screen; }
    }
  }

  lemma SendAllCovered(screen: seq<Shown>, wire: seq<Frame>, from: nat, f: Frame, oldest: nat)
    requires AllCovered(screen, wire, from, oldest)
    requires f.start <= Max(from, oldest) && f.cut == oldest
    ensures AllCovered(screen, Send(wire, f), End(f), oldest)
  {
    SendCovers(screen, wire, from, f, oldest);
    forall j | 0 <= j < |wire| ensures Covered(screen, Send(wire, f), j, wire[j].start, wire[j].cut) {
      SendCoversOld(screen, wire, f, j, wire[j].start, wire[j].cut);
    }
  }

  lemma SendOrdered(rendered: nat, wire: seq<Frame>, from: nat, f: Frame)
    requires Ordered(rendered, wire, from)
    requires InOrder(from, f)
    ensures Ordered(rendered, Send(wire, f), End(f))
  {
    if f.payload != [] {
      var wire' := wire + [f];
      forall j | 0 <= j < |wire'| ensures InOrder(Before(rendered, wire', j), wire'[j]) {
        if j < |wire| { assert InOrder(Before(rendered, wire, j), wire[j]); }
      }
    }
  }

  /** Appending a snapshot taken from `from` keeps the wire in order and covered. */
  lemma SendKeeps(limit: nat, s: State, wire: seq<Frame>, from: nat)
    requires WireOk(s, wire, from, TailStart(s.log, limit))
    ensures WireOk(s, Send(wire, Cut(s.log, limit, from)), |s.log|, TailStart(s.log, limit))
  {
    var f := Cut(s.log, limit, from);
    assert End(f) == |s.log| && f.payload == s.log[f.start..End(f)];
    SendAllCovered(s.screen, wire, from, f, TailStart(s.log, limit));
    SendOrdered(s.rendered, wire, from, f);
    assert FramesOk(s.log, Send(wire, f), TailStart(s.log, limit));
  }

  lemma SendCoversOld(screen: seq<Shown>, wire: seq<Frame>, f: Frame, n: nat, x: nat, evicted: nat)
    requires n <= |wire| && Covered(screen, wire, n, x, evicted)
    ensures Covered(screen, wire + [f], n, x, evicted) && Covered(screen, Send(wire, f), n, x, evicted)
  {
    forall i: nat | i < x && OnWire(wire, n, i) ensures OnWire(wire + [f], n, i) {
      var j :| 0 <= j < n && wire[j].start <= i < End(wire[j]);
      assert (wire + [f])[j] == wire[j];
    }
  }

  lemma SendCovers(screen: seq<Shown>, wire: seq<Frame>, from: nat, f: Frame, oldest: nat)
    requires Covered(screen, wire, |wire|, from, oldest)
    requires f.start <= Max(from, oldest) && f.cut == oldest
    ensures Covered(screen, Send(wire, f), |wire|, f.start, f.cut)
    ensures Covered(screen, Send(wire, f), |Send(wire, f)|, End(f), oldest)
  {
    var wire' := Send(wire, f);
    SendCoversOld(screen, wire, f, |wire|, from, oldest);
    forall i: nat | i < End(f)
      ensures i < oldest || IsShown(screen, |screen|, i) || OnWire(wire', |wire'|, i)
    {
      if i < f.start {
        assert i < oldest || IsShown(screen, |screen|, i) || OnWire(wire', |wire|, i);
      } else {
        assert wire'[|wire|] == f;
      }
    }
  }

  lemma AttachKeeps(limit: nat, s: State)
    requires Inv(limit, s)
    ensures Inv(limit, Do(limit, s, Attach))
  {
    if s.stream.Requested? {
      forall i: nat | i < s.rendered
        ensures i < TailStart(s.log, limit) || IsShown(s.screen, |s.screen|, i) || OnWire([], 0, i)
      {
        WatermarkCovered(limit, s, i);
      }
      SendKeeps(limit, s, [], s.rendered);
    }
  }

  lemma StepKeeps(limit: nat, s: State, a: Action)
    requires Inv(limit, s)
    ensures Inv(limit, Do(limit, s, a))
  {
    match a {
      case Push(payload) => PushKeeps(limit, s, payload);
      case Attach => AttachKeeps(limit, s);
      case Notify =>
        if s.stream.Open? { SendKeeps(limit, s, s.stream.wire, s.stream.cursor); }
      case Deliver =>
        if s.stream.Open? && s.stream.wire != [] { DeliverKeeps(limit, s); }
      case WriteFails(k) => WriteFailsKeeps(limit, s, k);
      case _ =>
    }
  }

  lemma {:induction false} RunKeeps(limit: nat, actions: seq<Action>)
    ensures Inv(limit, Run(limit, actions))
  {
    if actions != [] {
      RunKeeps(limit, actions[..|actions| - 1]);
      StepKeeps(limit, Run(limit, actions[..|actions| - 1]), actions[|actions| - 1]);
    }
  }

  // ---------------------------------------------------------------------------
  // Nothing retained is ever skipped
  // ---------------------------------------------------------------------------

  /**
   On every run, with any number of overruns, lost frames, failed local writes and
   reattachments: what the client shows is the log's, every byte that precedes a
   shown byte was shown before it or had already left the window when that byte was
   copied out, and the watermark never passes the end of the last shown byte.
   */
  lemma NoRetainedByteIsSkipped(limit: nat, actions: seq<Action>)
    ensures var s := Run(limit, actions);
            && (forall p :: 0 <= p < |s.screen| ==>
                  s.screen[p].offset < |s.log| && s.screen[p].value == s.log[s.screen[p].offset])
            && (forall p, i: nat {:trigger IsShown(s.screen, p, i)} ::
                  0 <= p < |s.screen| && i < s.screen[p].offset ==>
                  i < s.screen[p].cut <= TailStart(s.log, limit) || IsShown(s.screen, p, i))
            && s.rendered <= LastEnd(s.screen) <= |s.log|
  {
    RunKeeps(limit, actions);
    var s := Run(limit, actions);
    assert ScreenOk(s.log, s.screen, TailStart(s.log, limit));
    assert NothingSkipped(s.screen);
  }

  /** The actions after which the client no longer reads from the attachment. */
  predicate EndsAttachment(a: Action) {
    a.Disconnect? || a.Quit? || a.WriteFails?
  }

  /** As long as the attachment lives, its replay is the first thing shown. */
  ghost predicate ReplayFirst(before: seq<Shown>, replay: Frame, s: State) {
    || (s.screen == before && s.stream.Open? && s.stream.wire != [] && s.stream.wire[0] == replay)
    || before + Render(replay, |replay.payload|) <= s.screen
  }

  lemma {:induction false} ReplayComesFirst(limit: nat, s: State, more: seq<Action>)
    requires s.stream.Requested?
    requires forall a :: a in more ==> !EndsAttachment(a)
    requires Cut(s.log, limit, s.rendered).payload != []
    ensures ReplayFirst(s.screen, Cut(s.log, limit, s.rendered), RunFrom(limit, Do(limit, s, Attach), more))
  {
    if more != [] {
      var a, init := more[|more| - 1], more[..|more| - 1];
      assert a in more;
      ReplayComesFirst(limit, s, init);
      var f := Cut(s.log, limit, s.rendered);
      var t := RunFrom(limit, Do(limit, s, Attach), init);
      if a == Deliver && t.stream.Open? && t.stream.wire != [] {
        if s.screen + Render(f, |f.payload|) <= t.screen {
          assert t.screen <= Do(limit, t, a).screen;
        }
      }
    }
  }

  /**
   Every byte retained when the server attaches, and not shown yet, is shown before
   anything else this attachment delivers.
   */
  lemma AttachmentSkipsNothing(limit: nat, actions: seq<Action>, more: seq<Action>, i: nat)
    requires var s := Run(limit, actions);
             && s.stream.Requested?
             && TailStart(s.log, limit) <= i < |s.log|
             && !IsShown(s.screen, |s.screen|, i)
    requires forall a :: a in more ==> !EndsAttachment(a)
    ensures var s := Run(limit, actions);
            var t := RunFrom(limit, Do(limit, s, Attach), more);
            IsShown(t.screen, |t.screen|, i) || t.screen == s.screen
  {
    RunKeeps(limit, actions);
    var s := Run(limit, actions);
    var f := Cut(s.log, limit, s.rendered);
    if i < s.rendered { WatermarkCovered(limit, s, i); }
    assert f.start <= i < End(f);
    ReplayComesFirst(limit, s, more);
    var t := RunFrom(limit, Do(limit, s, Attach), more);
    var first := s.screen + Render(f, |f.payload|);
    if first <= t.screen {
      RenderShows(s.screen, f, i);
      ShownGrows(first, t.screen[|first|..], |first|, |t.screen|, i);
      assert first + t.screen[|first|..] == t.screen;
    }
  }

  // ---------------------------------------------------------------------------
  // Exact output, and exactly when
  // ---------------------------------------------------------------------------

  ghost predicate OffsetsExact(screen: seq<Shown>) {
    forall p :: 0 <= p < |screen| ==> screen[p].offset == p
  }

  ghost predicate Contiguous(rendered: nat, wire: seq<Frame>, gapShown: bool) {
    forall j {:trigger Before(rendered, wire, j)} :: 0 <= j < |wire| && !wire[j].gap && (j > 0 || !gapShown) ==>
      wire[j].start == Before(rendered, wire, j)
  }

  ghost predicate Exact(limit: nat, s: State) {
    && |s.screen| == s.rendered + s.partial
    && (!s.gapShown && s.partial == 0 ==> OffsetsExact(s.screen))
    && (s.gapShown && s.partial == 0 ==> !OffsetsExact(s.screen))
    && (s.stream.Open? && limit == 0 ==> s.stream.wire == [])
    && (s.stream.Open? && limit > 0 ==>
          && Contiguous(s.rendered, s.stream.wire, s.gapShown)
          && (s.stream.wire != [] || !s.gapShown ==>
              s.stream.cursor == Before(s.rendered, s.stream.wire, |s.stream.wire|)))
  }

  lemma CutIsContiguous(limit: nat, log: seq<Byte>, from: nat)
    requires from <= |log|
    ensures var f := Cut(log, limit, from);
            && (limit == 0 ==> f.payload == [])
            && (!f.gap ==> f.start == from)
            && (limit > 0 && f.payload == [] ==> from == |log|)
            && End(f) == |log|
  {
  }

  lemma SendExact(limit: nat, rendered: nat, wire: seq<Frame>, log: seq<Byte>, from: nat, gapShown: bool)
    requires limit > 0 && from <= |log|
    requires Contiguous(rendered, wire, gapShown)
    requires wire != [] || !gapShown ==> from == Before(rendered, wire, |wire|)
    ensures var wire' := Send(wire, Cut(log, limit, from));
            && Contiguous(rendered, wire', gapShown)
            && (wire' != [] || !gapShown ==> |log| == Before(rendered, wire', |wire'|))
  {
    var f := Cut(log, limit, from);
    CutIsContiguous(limit, log, from);
    if f.payload != [] {
      var wire' := wire + [f];
      forall j | 0 <= j < |wire'| && !wire'[j].gap && (j > 0 || !gapShown)
        ensures wire'[j].start == Before(rendered, wire', j)
      {
        if j < |wire| { assert wire[j].start == Before(rendered, wire, j); }
      }
    }
  }

  lemma DeliverExactWire(rendered: nat, wire: seq<Frame>, cursor: nat, gapShown: bool)
    requires wire != [] && Contiguous(rendered, wire, gapShown)
    requires cursor == Before(rendered, wire, |wire|)
    ensures !gapShown && !wire[0].gap ==> wire[0].start == rendered
    ensures var rendered', gapShown' := rendered + |wire[0].payload|, gapShown || wire[0].gap;
            && Contiguous(rendered', wire[1..], gapShown')
            && (wire[1..] != [] || !gapShown' ==> cursor == Before(rendered', wire[1..], |wire| - 1))
  {
    var wire' := wire[1..];
    var rendered', gapShown' := rendered + |wire[0].payload|, gapShown || wire[0].gap;
    if !gapShown && !wire[0].gap { assert wire[0].start == Before(rendered, wire, 0); }
    forall j | 0 <= j < |wire'| && !wire'[j].gap && (j > 0 || !gapShown')
      ensures wire'[j].start == Before(rendered', wire', j)
    {
      assert wire[j + 1].start == Before(rendered, wire, j + 1);
    }
  }

  lemma RenderExact(screen: seq<Shown>, f: Frame)
    requires f.payload != []
    ensures OffsetsExact(screen + Render(f, |f.payload|)) <==> OffsetsExact(screen) && f.start == |screen|
  {
    var screen' := screen + Render(f, |f.payload|);
    assert screen'[|screen|].offset == f.start;
    forall p | 0 <= p < |screen| ensures screen'[p] == screen[p] {
    }
  }

  lemma DeliverExact(limit: nat, s: State)
    requires Inv(limit, s) && Exact(limit, s) && s.stream.Open? && s.stream.wire != []
    ensures Exact(limit, Do(limit, s, Deliver))
  {
    var wire := s.stream.wire;
    var f := wire[0];
    assert FrameOk(s.log, f, TailStart(s.log, limit));
    DeliverOrdered(s.rendered, wire, s.stream.cursor);
    DeliverExactWire(s.rendered, wire, s.stream.cursor, s.gapShown);
    RenderExact(s.screen, f);
    assert SaturatingAdd(s.rendered, |f.payload|) == s.rendered + |f.payload|;
  }

  lemma SnapshotExact(limit: nat, s: State, wire: seq<Frame>, from: nat)
    requires Exact(limit, s.(stream := Open(from, AwaitChange, wire, false))) && from <= |s.log|
    ensures Exact(limit, s.(stream := Open(|s.log|, ReadExit, Send(wire, Cut(s.log, limit, from)), false)))
  {
    CutIsContiguous(limit, s.log, from);
    if limit > 0 { SendExact(limit, s.rendered, wire, s.log, from, s.gapShown); }
  }

  lemma WriteFailsExact(limit: nat, s: State, k: nat)
    requires Exact(limit, s)
    ensures Exact(limit, Do(limit, s, WriteFails(k)))
  {
    assert k == 0 && s.stream.Open? && s.stream.wire != [] ==> s.screen + Render(s.stream.wire[0], k) == s.screen;
  }

  /** The actions that leave screen, watermark and wire alone, or close the stream. */
  lemma QuietExact(limit: nat, s: State, a: Action)
    requires Exact(limit, s)
    requires !a.Attach? && !a.Notify? && !a.Deliver? && !a.WriteFails?
    ensures Exact(limit, Do(limit, s, a))
  {
  }

  lemma AttachExact(limit: nat, s: State)
    requires Exact(limit, s) && s.stream.Requested? && s.rendered <= |s.log|
    ensures Exact(limit, Do(limit, s, Attach))
  {
    assert Exact(limit, s.(stream := Open(s.rendered, AwaitChange, [], false)));
    SnapshotExact(limit, s, [], s.rendered);
  }

  lemma NotifyExact(limit: nat, s: State)
    requires Exact(limit, s) && s.stream.Open? && s.stream.pc == AwaitChange && s.stream.cursor <= |s.log|
    ensures Exact(limit, Do(limit, s, Notify))
  {
    assert Exact(limit, s.(stream := Open(s.stream.cursor, AwaitChange, s.stream.wire, false)));
    SnapshotExact(limit, s, s.stream.wire, s.stream.cursor);
  }

  lemma StepExact(limit: nat, s: State, a: Action)
    requires Inv(limit, s) && Exact(limit, s)
    ensures Exact(limit, Do(limit, s, a))
  {
    match a {
      case Attach => if s.stream.Requested? { WatermarkInLog(limit, s); AttachExact(limit, s); }
      case Notify => if s.stream.Open? && s.stream.pc == AwaitChange { NotifyExact(limit, s); }
      case Deliver =>
        if s.stream.Open? && s.stream.wire != [] { DeliverExact(limit, s); }
      case WriteFails(k) => WriteFailsExact(limit, s, k);
      case _ => QuietExact(limit, s, a);
    }
  }

  lemma WatermarkInLog(limit: nat, s: State)
    requires Inv(limit, s)
    ensures s.rendered <= |s.log|
  {
  }

  lemma {:induction false} RunExact(limit: nat, actions: seq<Action>)
    ensures Exact(limit, Run(limit, actions))
  {
    if actions != [] {
      RunExact(limit, actions[..|actions| - 1]);
      RunKeeps(limit, actions[..|actions| - 1]);
      StepExact(limit, Run(limit, actions[..|actions| - 1]), actions[|actions| - 1]);
    }
  }

  function Bytes(screen: seq<Shown>): seq<Byte> {
    seq(|screen|, p requires 0 <= p < |screen| => screen[p].value)
  }

  /** The client shows byte 0, byte 1, ... up to its watermark and nothing else. */
  ghost predicate ShowsPrefix(s: State) {
    |s.screen| == s.rendered && OffsetsExact(s.screen)
  }

  /**
   The rendered output is, offset by offset, the first `rendered` bytes of the log
   if and only if no frame cut after an overrun has been shown and no local write
   has failed half way.
   */
  lemma OutputIsExactIff(limit: nat, actions: seq<Action>)
    ensures var s := Run(limit, actions);
            && (ShowsPrefix(s) <==> !s.gapShown && s.partial == 0)
            && (ShowsPrefix(s) ==> s.rendered <= |s.log| && Bytes(s.screen) == s.log[..s.rendered])
  {
    RunExact(limit, actions);
    NoRetainedByteIsSkipped(limit, actions);
  }

  /** The window never overtakes the reader, and local writes succeed. */
  ghost predicate NeverOverrun(limit: nat, actions: seq<Action>) {
    actions == [] ||
    (var init, a := actions[..|actions| - 1], actions[|actions| - 1];
     var s := Run(limit, init);
     && NeverOverrun(limit, init)
     && (a == Attach && s.stream.Requested? ==> TailStart(s.log, limit) <= s.rendered)
     && (a == Notify && s.stream.Open? ==> TailStart(s.log, limit) <= s.stream.cursor)
     && !a.WriteFails?)
  }

  ghost predicate NoGaps(s: State) {
    && !s.gapShown && s.partial == 0
    && (s.stream.Open? ==> forall j :: 0 <= j < |s.stream.wire| ==> !s.stream.wire[j].gap)
  }

  lemma {:induction false} NeverOverrunHasNoGaps(limit: nat, actions: seq<Action>)
    requires NeverOverrun(limit, actions)
    ensures NoGaps(Run(limit, actions))
  {
    if actions != [] {
      NeverOverrunHasNoGaps(limit, actions[..|actions| - 1]);
    }
  }

  /**
   Across any number of reconnects, while the window is never overrun and local
   writes succeed, the output is exactly a prefix of the session log; and once the
   client has caught up it is the whole log.
   */
  lemma ReconnectsAreSeamless(limit: nat, actions: seq<Action>)
    requires NeverOverrun(limit, actions)
    ensures var s := Run(limit, actions);
            && s.rendered <= |s.log| && Bytes(s.screen) == s.log[..s.rendered]
            && (limit > 0 && s.stream.Open? && s.stream.wire == [] && s.stream.cursor == |s.log| ==>
                Bytes(s.screen) == s.log)
  {
    NeverOverrunHasNoGaps(limit, actions);
    OutputIsExactIff(limit, actions);
    RunExact(limit, actions);
    var s := Run(limit, actions);
    assert s.log[..|s.log|] == s.log;
  }

  /** A session that never prints more than the window holds is never overrun. */
  lemma {:induction false} SmallSessionsNeverOverrun(limit: nat, actions: seq<Action>)
    requires |Run(limit, actions).log| <= limit
    requires forall a :: a in actions ==> !a.WriteFails?
    ensures NeverOverrun(limit, actions)
  {
    if actions != [] {
      var init, a := actions[..|actions| - 1], actions[|actions| - 1];
      assert a in actions;
      assert |Run(limit, init).log| <= |Run(limit, actions).log|;
      SmallSessionsNeverOverrun(limit, init);
    }
  }

  // ---------------------------------------------------------------------------
  // The exit frame
  // ---------------------------------------------------------------------------

  /** The exit frame is sent once, after the process has exited, and nothing is sent after it. */
  ghost predicate ExitOk(s: State) {
    s.stream.Open? ==> (s.stream.exitSent <==> s.stream.pc == Finished) && (s.stream.exitSent ==> s.exited)
  }

  lemma {:induction false} RunExitOk(limit: nat, actions: seq<Action>)
    ensures ExitOk(Run(limit, actions))
  {
    if actions != [] { RunExitOk(limit, actions[..|actions| - 1]); }
  }

  /**
   When the client reads the exit frame it has been shown everything up to the server's
   last snapshot, except for what had left the window, and the server sends nothing more.
   */
  lemma ExitComesLast(limit: nat, actions: seq<Action>, i: nat)
    requires var s := Run(limit, actions); s.stream.Open? && s.stream.wire == [] && s.stream.exitSent
    ensures var s := Run(limit, actions);
            && s.exited && Do(limit, s, Notify) == s && Do(limit, s, CheckExit) == s && Do(limit, s, DeliverExit).done
            && (i < s.stream.cursor ==> i < TailStart(s.log, limit) || IsShown(s.screen, |s.screen|, i))
  {
    RunExitOk(limit, actions);
    RunKeeps(limit, actions);
    var s := Run(limit, actions);
    assert Covered(s.screen, [], 0, s.stream.cursor, TailStart(s.log, limit));
    if i < s.stream.cursor { assert !OnWire([], 0, i); }
  }

  /** So it has been shown the whole log if and only if nothing was printed after that snapshot. */
  lemma ExitShowsAllIff(limit: nat, actions: seq<Action>)
    requires NeverOverrun(limit, actions) && limit > 0
    requires var s := Run(limit, actions); s.stream.Open? && s.stream.wire == [] && s.stream.exitSent
    ensures var s := Run(limit, actions); Bytes(s.screen) == s.log <==> s.stream.cursor == |s.log|
  {
    ReconnectsAreSeamless(limit, actions);
    NeverOverrunHasNoGaps(limit, actions);
    RunExact(limit, actions);
    WholeSlice(Run(limit, actions).log);
  }

  /** Output printed between the snapshot and the look at the exit code is not shown before the client returns. */
  lemma LateOutputIsNotShown(limit: nat, log: seq<Byte>)
    requires 0 < |log| <= limit && |log| <= U64_MAX
    ensures var s := Run(limit, [Push([]), Connect, Attach] + [Push(log), ProcessExit, CheckExit, DeliverExit]);
            s.done && s.log == log && s.screen == [] && TailStart(s.log, limit) == 0
  {
    RunAttached(limit, []);
    FourSteps(limit, [Push([]), Connect, Attach], Push(log), ProcessExit, CheckExit, DeliverExit);
    WholeCut(limit, []);
    NothingAppended(log);
  }

  // ---------------------------------------------------------------------------
  // The failing side of the condition is reachable
  // ---------------------------------------------------------------------------

  lemma RunStep(limit: nat, actions: seq<Action>, a: Action)
    ensures Run(limit, actions + [a]) == Do(limit, Run(limit, actions), a)
  {
    Appended(actions, a);
  }

  /** The state in which a client has attached to a session that has printed `log` before anyone looked. */
  function Attached(limit: nat, log: seq<Byte>): State {
    INIT.(log := log, stream := Open(|log|, ReadExit, Send([], Cut(log, limit, 0)), false))
  }

  lemma RunAttached(limit: nat, log: seq<Byte>)
    requires |log| <= U64_MAX
    ensures Run(limit, [Push(log), Connect, Attach]) == Attached(limit, log)
  {
    RunStep(limit, [], Push(log));
    RunStep(limit, [Push(log)], Connect);
    RunStep(limit, [Push(log), Connect], Attach);
    assert [] + [Push(log)] == [Push(log)];
    assert [Push(log)] + [Connect] == [Push(log), Connect];
    assert [Push(log), Connect] + [Attach] == [Push(log), Connect, Attach];
    NothingAppended(log);
  }

  lemma FourSteps(limit: nat, actions: seq<Action>, a: Action, b: Action, c: Action, d: Action)
    ensures Run(limit, actions + [a, b, c, d]) ==
            Do(limit, Do(limit, Do(limit, Do(limit, Run(limit, actions), a), b), c), d)
  {
    RunStep(limit, actions, a);
    RunStep(limit, actions + [a], b);
    RunStep(limit, actions + [a] + [b], c);
    RunStep(limit, actions + [a] + [b] + [c], d);
    assert actions + [a] + [b] + [c] + [d] == actions + [a, b, c, d];
  }

  /** Everything is retained. */
  lemma WholeCut(limit: nat, log: seq<Byte>)
    requires |log| <= limit
    ensures Cut(log, limit, 0) == Frame(0, log, 0, false)
  {
    WholeSlice(log);
  }

  lemma RepeatedOutput(limit: nat, log: seq<Byte>, k: nat)
    requires 0 < k < |log| <= limit
    ensures var s := Attached(limit, log);
            var t := Do(limit, Do(limit, Do(limit, Do(limit, s, WriteFails(k)), Connect), Attach), Deliver);
            && t.partial == k && t.rendered == Min(|log|, U64_MAX)
            && t.screen == Render(Frame(0, log, 0, false), k) + Render(Frame(0, log, 0, false), |log|)
  {
    WholeCut(limit, log);
    NothingAppended(Render(Frame(0, log, 0, false), k));
    NothingAppended([Frame(0, log, 0, false)]);
  }

  /**
   A local write that fails after `k` bytes, and a client that reattaches: the screen
   shows those bytes twice, however small the session.
   */
  lemma FailedWriteRepeatsOutput(limit: nat, log: seq<Byte>, k: nat)
    requires 0 < k < |log| <= limit && |log| <= U64_MAX
    ensures var s := Run(limit, [Push(log), Connect, Attach] + [WriteFails(k), Connect, Attach, Deliver]);
            s.partial == k && s.rendered == |log| && Bytes(s.screen) == log[..k] + log && !ShowsPrefix(s)
  {
    RunAttached(limit, log);
    FourSteps(limit, [Push(log), Connect, Attach], WriteFails(k), Connect, Attach, Deliver);
    RepeatedOutput(limit, log, k);
    var f := Frame(0, log, 0, false);
    NothingAppended(Render(f, k));
    BytesOfRender([], f, k);
    BytesOfRender(Render(f, k), f, |log|);
    NothingAppended(log[..k]);
    WholeSlice(log);
    assert Bytes([]) == [];
  }

  /** A session that has printed more than the window holds before the client attaches: the output starts late. */
  lemma OverrunLeavesAGap(limit: nat, log: seq<Byte>)
    requires 0 < limit < |log| <= U64_MAX
    ensures var s := Run(limit, [Push(log), Connect, Attach] + [Deliver]);
            s.gapShown && s.partial == 0 && Bytes(s.screen) == Tail(log, limit) && !ShowsPrefix(s)
  {
    RunAttached(limit, log);
    RunStep(limit, [Push(log), Connect, Attach], Deliver);
    var f := Cut(log, limit, 0);
    NothingAppended([f]);
    NothingAppended(Render(f, limit));
    BytesOfRender([], f, limit);
    WholeSlice(f.payload);
    NothingAppended(f.payload);
    assert Bytes([]) == [];
    assert Render(f, limit)[0].offset == |log| - limit;
  }

  // ---------------------------------------------------------------------------
  // The actions are the turns of the loops
  // ---------------------------------------------------------------------------

  /** The frames as the client's loop reads them, each written in full. */
  function Arrivals(wire: seq<Frame>): seq<Client.Incoming> {
    seq(|wire|, i requires 0 <= i < |wire| => Client.Incoming(Data(wire[i].payload), |wire[i].payload|))
  }

  function Delivers(n: nat): seq<Action> { seq(n, _ => Deliver) }

  lemma BytesOfRender(screen: seq<Shown>, f: Frame, k: nat)
    requires k <= |f.payload|
    ensures Bytes(screen + Render(f, k)) == Bytes(screen) + f.payload[..k]
  {
  }

  lemma OneMoreDelivery(limit: nat, s: State, n: nat)
    requires n > 0
    ensures RunFrom(limit, s, Delivers(n)) == Do(limit, RunFrom(limit, s, Delivers(n - 1)), Deliver)
  {
    assert Delivers(n)[..n - 1] == Delivers(n - 1);
  }

  lemma DropOne(wire: seq<Frame>, n: nat)
    requires n < |wire|
    ensures wire[n..][0] == wire[n] && wire[n..][1..] == wire[n + 1..]
  {
  }

  lemma DeliverBytes(limit: nat, s: State)
    requires s.stream.Open? && s.stream.wire != []
    ensures Bytes(Do(limit, s, Deliver).screen) == Bytes(s.screen) + s.stream.wire[0].payload
  {
    var f := s.stream.wire[0];
    BytesOfRender(s.screen, f, |f.payload|);
    WholeSlice(f.payload);
  }

  /** `n` deliveries take `n` frames off the wire. */
  lemma {:induction false} DeliveriesDrain(limit: nat, s: State, n: nat)
    requires s.stream.Open? && n <= |s.stream.wire|
    ensures RunFrom(limit, s, Delivers(n)).stream == s.stream.(wire := s.stream.wire[n..])
    decreases n
  {
    if n == 0 {
      WholeSlice(s.stream.wire);
    } else {
      DeliveriesDrain(limit, s, n - 1);
      OneMoreDelivery(limit, s, n);
      DropOne(s.stream.wire, n - 1);
    }
  }

  /** `n` deliveries do to watermark and screen what `n` turns of the client's loop do. */
  lemma {:induction false} DeliveriesAreTurns(limit: nat, s: State, n: nat)
    requires s.stream.Open? && n <= |s.stream.wire| && s.rendered <= U64_MAX
    ensures var t, frames := RunFrom(limit, s, Delivers(n)), Arrivals(s.stream.wire);
            && t.rendered == Client.Advance(s.rendered, frames, n)
            && Bytes(t.screen) == Bytes(s.screen) + Client.Payloads(frames, n)
    decreases n
  {
    if n == 0 {
      NothingAppended(Bytes(s.screen));
    } else {
      var t, frames := RunFrom(limit, s, Delivers(n - 1)), Arrivals(s.stream.wire);
      var payload := s.stream.wire[n - 1].payload;
      DeliveriesAreTurns(limit, s, n - 1);
      DeliveriesDrain(limit, s, n - 1);
      OneMoreDelivery(limit, s, n);
      DropOne(s.stream.wire, n - 1);
      Client.AdvanceOne(s.rendered, frames, n - 1);
      DeliverBytes(limit, t);
      Associative(Bytes(s.screen), Client.Payloads(frames, n - 1), payload);
    }
  }

  /** A failing write is the last turn of a connection whose next frame is written in part. */
  lemma FailedWriteIsTheLastTurn(limit: nat, s: State, k: nat)
    requires s.stream.Open? && s.stream.wire != [] && k < |s.stream.wire[0].payload|
    ensures var frames := [Client.Incoming(Data(s.stream.wire[0].payload), k)];
            var t := Do(limit, s, WriteFails(k));
            && Client.Completed(frames) == 0
            && Client.OutcomeOf(Client.Session(frames, Client.Lost), false).Disconnected?
            && t.stream.Closed? && t.rendered == s.rendered
            && Bytes(t.screen) == Bytes(s.screen) + Client.Partial(frames, 0)
  {
    BytesOfRender(s.screen, s.stream.wire[0], k);
  }
}
