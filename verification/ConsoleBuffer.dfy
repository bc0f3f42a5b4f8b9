/**
 The bounded byte window that the server keeps over the unbounded output log of
 one console session (`BufferedConsoleState`, crates/init/src/forward.rs), and
 the loop that streams it to one attachment (`stream_console_output`).

 The log itself is never stored by the program: it appears below only in
 specifications, as the value every operation is measured against.
 */
module ConsoleBuffer {
  import opened Prelude

  function Clamp(x: nat, lo: nat, hi: nat): nat
    requires lo <= hi
  {
    if x < lo then lo else if x > hi then hi else x
  }

  /** The last `Min(limit, |log|)` bytes of a log. */
  function Tail(log: seq<Byte>, limit: nat): seq<Byte> {
    log[|log| - Min(limit, |log|)..]
  }

  /** Absolute offset of the oldest byte that a window of `limit` bytes still holds. */
  function TailStart(log: seq<Byte>, limit: nat): nat {
    |log| - Min(limit, |log|)
  }

  /** What a window of `limit` bytes still holds of the log from an offset on. */
  function Retained(log: seq<Byte>, limit: nat, offset: nat): seq<Byte> {
    log[Clamp(offset, TailStart(log, limit), |log|)..]
  }

  /** A window of `limit` bytes: as many as there are up to the limit, and the last ones. */
  lemma TailIff(log: seq<Byte>, limit: nat, window: seq<Byte>)
    ensures window == Tail(log, limit) <==>
            |window| == (if |log| < limit then |log| else limit) && log[..|log| - |window|] + window == log
  {
    var tail := Tail(log, limit);
    SplitAt(log, |log| - |tail|);
    if |window| == |tail| && log[..|log| - |window|] + window == log {
      assert log[|log| - |window|..] == window;
    }
  }

  /** The byte at `p` is retained exactly if it is among the last `limit` and not before the offset. */
  lemma RetainedIff(log: seq<Byte>, limit: nat, offset: nat, p: nat)
    requires p < |log|
    ensures var kept := Retained(log, limit, offset);
            && log[..|log| - |kept|] + kept == log
            && (|log| - |kept| <= p <==> offset <= p && |log| <= p + limit)
  {
    SplitAt(log, Clamp(offset, TailStart(log, limit), |log|));
  }

  /** What one snapshot of the window yields: the bytes, and the cursor to continue from. */
  datatype Replay = Replay(data: seq<Byte>, nextOffset: nat)

  /** Evicting before or after appending leaves the same window. */
  lemma TailOfTail(log: seq<Byte>, payload: seq<Byte>, limit: nat)
    ensures Tail(Tail(log, limit) + payload, limit) == Tail(log + payload, limit)
  {
    var kept := Tail(log, limit) + payload;
    var all := log + payload;
    assert Min(limit, |kept|) == Min(limit, |all|);
    assert kept == all[|all| - |kept|..];
  }

  lemma TailOfShort(s: seq<Byte>, limit: nat)
    requires |s| <= limit
    ensures Tail(s, limit) == s
  {
    assert s[0..] == s;
  }

  /** A payload that fills the window replaces all of it. */
  lemma TailOfLongPayload(kept: seq<Byte>, payload: seq<Byte>, limit: nat)
    requires limit <= |payload|
    ensures Tail(kept + payload, limit) == payload[|payload| - limit..]
  {
    var n := |payload| - limit;
    assert (kept + payload)[|kept| + n..] == payload[n..];
  }

  class BufferedConsoleState {
    var retainedStart: nat
    var nextOffset: nat
    var buffer: seq<Byte>

    /** The window is exactly the tail of `log`, with absolute offsets. */
    ghost predicate Refines(log: seq<Byte>, limit: nat)
      reads this
    {
      && buffer == Tail(log, limit)
      && retainedStart == TailStart(log, limit)
      && nextOffset == |log|
    }

    /** What holds of the counters on every run, saturated or not. */
    ghost predicate Valid()
      reads this
    {
      && retainedStart <= nextOffset <= U64_MAX
      && (nextOffset < U64_MAX ==> retainedStart + |buffer| == nextOffset)
    }

    constructor ()
      ensures Valid() && Refines([], 0)
      ensures buffer == [] && retainedStart == 0 && nextOffset == 0
    {
      retainedStart, nextOffset, buffer := 0, 0, [];
    }

    /**
     Appends `payload` and evicts what no longer fits. The contents are right on
     every input; the two offsets stay consistent while the counter does not saturate.
     */
    method Push(payload: seq<Byte>, limit: nat) returns (startOffset: nat)
      requires Valid() && limit <= U64_MAX
      modifies this
      ensures Valid()
      ensures startOffset == old(nextOffset)
      ensures buffer == Tail(old(buffer) + payload, limit)
      ensures nextOffset == SaturatingAdd(old(nextOffset), |payload|)
      ensures old(nextOffset) + |payload| <= U64_MAX && old(retainedStart + |buffer| == nextOffset)
              ==> retainedStart + |buffer| == nextOffset
    {
      startOffset := nextOffset;
      nextOffset := SaturatingAdd(nextOffset, |payload|);
      if limit == 0 {
        assert Tail(buffer + payload, 0) == [];
        buffer := [];
        retainedStart := nextOffset;
      } else if |payload| >= limit {
        TailOfLongPayload(buffer, payload, limit);
        buffer := payload[|payload| - limit..];
        retainedStart := nextOffset - |buffer|;
      } else {
        buffer := buffer + payload;
        if |buffer| > limit {
          var overflow := |buffer| - limit;
          buffer := buffer[overflow..];
          retainedStart := SaturatingAdd(retainedStart, overflow);
        } else {
          TailOfShort(buffer, limit);
        }
      }
    }

    /** `push_data`: the window goes on refining the log exactly while the log fits in 64 bits. */
    method PushData(payload: seq<Byte>, limit: nat, ghost log: seq<Byte>)
      requires Valid() && limit <= U64_MAX
      modifies this
      ensures Valid()
      ensures buffer == Tail(old(buffer) + payload, limit)
      ensures nextOffset == SaturatingAdd(old(nextOffset), |payload|)
      ensures old(Refines(log, limit)) ==> (Refines(log + payload, limit) <==> |log + payload| <= U64_MAX)
    {
      TailOfTail(log, payload, limit);
      var _ := Push(payload, limit);
    }

    /** Pushing a whole run of chunks leaves the tail of everything pushed. */
    method PushAll(chunks: seq<seq<Byte>>, limit: nat, ghost log: seq<Byte>)
      requires Valid() && Refines(log, limit) && limit <= U64_MAX
      modifies this
      ensures Valid()
      ensures buffer == Tail(log + Flatten(chunks), limit)
      ensures Refines(log + Flatten(chunks), limit) <==> |log + Flatten(chunks)| <= U64_MAX
    {
      assert log + [] == log;
      for i := 0 to |chunks|
        invariant Valid()
        invariant nextOffset == Min(|log + Flatten(chunks[..i])|, U64_MAX)
        invariant buffer == Tail(log + Flatten(chunks[..i]), limit)
        invariant |log + Flatten(chunks[..i])| <= U64_MAX ==> Refines(log + Flatten(chunks[..i]), limit)
      {
        ghost var sofar := log + Flatten(chunks[..i]);
        FlattenNext(chunks, i);
        assert sofar + chunks[i] == log + Flatten(chunks[..i + 1]);
        TailOfTail(sofar, chunks[i], limit);
        PushData(chunks[i], limit, sofar);
      }
      assert chunks[..|chunks|] == chunks;
    }

    /** `replay_from`: everything retained from the clamped offset on, and the new cursor. */
    method ReplayFrom(offset: nat, ghost log: seq<Byte>, ghost limit: nat) returns (r: Replay)
      requires Valid()
      ensures r.nextOffset == nextOffset
      ensures Refines(log, limit) ==> r.data == Retained(log, limit, offset)
    {
      var from := Clamp(offset, retainedStart, nextOffset);
      var skip := from - retainedStart;
      r := Replay(buffer[Min(skip, |buffer|)..], nextOffset);
    }

    /** `subscribe_from`: the snapshot a new attachment starts from. */
    method SubscribeFrom(rendered: nat, ghost log: seq<Byte>, ghost limit: nat) returns (r: Replay)
      requires Valid()
      ensures r.nextOffset == nextOffset
      ensures Refines(log, limit) ==> r.data == Retained(log, limit, rendered)
    {
      var next := nextOffset;
      var from := Clamp(rendered, retainedStart, next);
      var skip := from - retainedStart;
      r := Replay(buffer[Min(skip, |buffer|)..], next);
    }
  }

  lemma FlattenNext(chunks: seq<seq<Byte>>, i: nat)
    requires i < |chunks|
    ensures Flatten(chunks[..i + 1]) == Flatten(chunks[..i]) + chunks[i]
  {
    assert chunks[..i + 1][..i] == chunks[..i];
  }

  // ---------------------------------------------------------------------------
  // One attachment
  // ---------------------------------------------------------------------------

  /** Frames of other kinds are ignored by the client. */
  datatype ConsoleFrame = Data(payload: seq<Byte>) | Exit(code: nat) | Other

  /**
   What happens outside the streaming loop before it next wakes: chunks pushed by
   the process, a takeover by a newer attachment, the notifier being dropped, an exit
   code being recorded.
   */
  datatype Wake = Wake(pushed: seq<seq<Byte>>, takeover: bool, dropped: bool, exit: Option<nat>)

  /** The loop ends with this wake-up. */
  predicate Ends(wake: Wake) { wake.takeover || wake.dropped || wake.exit.Some? }

  /** A half-open range of absolute offsets. */
  datatype Slice = Slice(start: nat, end: nat)

  /** Slices of `log`, non-empty, in increasing order and never overlapping. */
  ghost predicate Increasing(slices: seq<Slice>, log: seq<Byte>) {
    && (forall i :: 0 <= i < |slices| ==> slices[i].start < slices[i].end <= |log|)
    && (forall i, j :: 0 <= i < j < |slices| ==> slices[i].end <= slices[j].start)
  }

  /** `frames` carries exactly the bytes of `slices`, in order, possibly followed by one exit frame. */
  ghost predicate Carries(frames: seq<ConsoleFrame>, slices: seq<Slice>, log: seq<Byte>)
    requires Increasing(slices, log)
  {
    && |slices| <= |frames| <= |slices| + 1
    && (forall i :: 0 <= i < |slices| ==> frames[i] == Data(log[slices[i].start..slices[i].end]))
    && (|frames| == |slices| + 1 ==> frames[|slices|].Exit?)
  }

  /** The session log after the chunks of the first `n` wake-ups. */
  ghost function LogAfter(log: seq<Byte>, wakes: seq<Wake>, n: nat): seq<Byte>
    requires n <= |wakes|
  {
    if n == 0 then log else LogAfter(log, wakes, n - 1) + Flatten(wakes[n - 1].pushed)
  }

  /** The slices after a snapshot from `start`: empty snapshots are not sent. */
  ghost function AddSlice(slices: seq<Slice>, start: nat, end: nat): seq<Slice> {
    if start < end then slices + [Slice(start, end)] else slices
  }

  /** How many wake-ups the loop sees: it stops at the first takeover, dropped notifier or exit. */
  ghost function Stop(wakes: seq<Wake>): (n: nat)
    ensures n <= |wakes|
    ensures forall k :: 0 <= k < n - 1 ==> !wakes[k].takeover && !wakes[k].dropped && wakes[k].exit.None?
    ensures n < |wakes| ==>
              n > 0 && (wakes[n - 1].takeover || wakes[n - 1].dropped || wakes[n - 1].exit.Some?)
    ensures wakes != [] ==> n > 0
  {
    if wakes == [] then 0 else if Ends(wakes[0]) then 1 else 1 + Stop(wakes[1..])
  }

  lemma StopStep(wakes: seq<Wake>, i: nat)
    requires i < Stop(wakes)
    ensures if Ends(wakes[i]) then Stop(wakes) == i + 1
            else i + 1 == |wakes| == Stop(wakes) || i + 1 < Stop(wakes)
  {
  }

  /** The slices sent and the cursor after `n` wake-ups: each sends what is retained from the cursor on. */
  ghost function Streamed(limit: nat, log: seq<Byte>, wakes: seq<Wake>, slices: seq<Slice>, cursor: nat,
                          n: nat): (seq<Slice>, nat)
    requires n <= |wakes|
  {
    if n == 0 then (slices, cursor)
    else
      var (before, from) := Streamed(limit, log, wakes, slices, cursor, n - 1);
      var log' := LogAfter(log, wakes, n);
      if wakes[n - 1].takeover then (before, from)
      else (AddSlice(before, Max(from, TailStart(log', limit)), |log'|), |log'|)
  }

  /** The exit frame that ends the stream, unless a newer attachment has taken over. */
  ghost function LastFrame(wakes: seq<Wake>, n: nat): seq<ConsoleFrame>
    requires n <= |wakes|
  {
    if n > 0 && !wakes[n - 1].takeover && wakes[n - 1].exit.Some? then [Exit(wakes[n - 1].exit.value)] else []
  }

  /** The stream ends with the code that was recorded, unless a newer attachment has taken over by then. */
  lemma LastFrameIff(wakes: seq<Wake>, n: nat, code: nat)
    requires 0 < n <= |wakes|
    ensures LastFrame(wakes, n) == [Exit(code)] <==> !wakes[n - 1].takeover && wakes[n - 1].exit == Some(code)
    ensures LastFrame(wakes, n) == [] <==> wakes[n - 1].takeover || wakes[n - 1].exit.None?
  {
  }

  ghost predicate Covered(slices: seq<Slice>, p: nat) {
    exists i :: 0 <= i < |slices| && slices[i].start <= p < slices[i].end
  }

  /** Everything sent so far is before the cursor, which is the end of the log. */
  lemma {:induction false} CursorIsEnd(limit: nat, log: seq<Byte>, wakes: seq<Wake>, slices: seq<Slice>, n: nat)
    requires n <= |wakes| && (forall j :: 0 <= j < n ==> !wakes[j].takeover)
    requires forall i :: 0 <= i < |slices| ==> slices[i].end <= |log|
    ensures var (all, cursor) := Streamed(limit, log, wakes, slices, |log|, n);
            cursor == |LogAfter(log, wakes, n)| && forall i :: 0 <= i < |all| ==> all[i].end <= cursor
  {
    if n > 0 {
      CursorIsEnd(limit, log, wakes, slices, n - 1);
      LogAfterGrows(log, wakes, n - 1, n);
    }
  }

  lemma CoveredByLast(slices: seq<Slice>, start: nat, end: nat, p: nat)
    ensures Covered(AddSlice(slices, start, end), p) <==> Covered(slices, p) || start <= p < end
  {
    var all := AddSlice(slices, start, end);
    if Covered(slices, p) {
      var i :| 0 <= i < |slices| && slices[i].start <= p < slices[i].end;
      assert all[i] == slices[i];
    }
    if start <= p < end { assert all[|slices|] == Slice(start, end); }
  }

  /**
   Which bytes reach an attachment: one that is pushed before the `k`-th wake-up is sent
   exactly if it is then still among the last `limit` bytes of the log.
   */
  lemma {:induction false} SentIffRetained(limit: nat, log: seq<Byte>, wakes: seq<Wake>, slices: seq<Slice>, n: nat,
                                           k: nat, p: nat)
    requires 0 < k <= n <= |wakes| && (forall j :: 0 <= j < n ==> !wakes[j].takeover)
    requires forall i :: 0 <= i < |slices| ==> slices[i].end <= |log|
    requires |LogAfter(log, wakes, k - 1)| <= p < |LogAfter(log, wakes, k)|
    ensures Covered(Streamed(limit, log, wakes, slices, |log|, n).0, p) <==> |LogAfter(log, wakes, k)| <= p + limit
    decreases n
  {
    var before, cursor := Streamed(limit, log, wakes, slices, |log|, n - 1).0, |LogAfter(log, wakes, n - 1)|;
    CursorIsEnd(limit, log, wakes, slices, n - 1);
    StreamedOnce(limit, log, wakes, slices, n);
    LogAfterGrows(log, wakes, k, n);
    CoveredNow(before, cursor, LogAfter(log, wakes, n), limit, p);
    if k < n {
      LogAfterGrows(log, wakes, k, n - 1);
      SentIffRetained(limit, log, wakes, slices, n - 1, k, p);
    }
  }

  lemma StreamedOnce(limit: nat, log: seq<Byte>, wakes: seq<Wake>, slices: seq<Slice>, n: nat)
    requires 0 < n <= |wakes| && (forall j :: 0 <= j < n ==> !wakes[j].takeover)
    requires forall i :: 0 <= i < |slices| ==> slices[i].end <= |log|
    ensures var before, cursor := Streamed(limit, log, wakes, slices, |log|, n - 1).0, |LogAfter(log, wakes, n - 1)|;
            var log' := LogAfter(log, wakes, n);
            Streamed(limit, log, wakes, slices, |log|, n).0 ==
            AddSlice(before, Max(cursor, TailStart(log', limit)), |log'|)
  {
    CursorIsEnd(limit, log, wakes, slices, n - 1);
  }

  /** What a snapshot from the cursor adds. */
  lemma CoveredNow(before: seq<Slice>, cursor: nat, log: seq<Byte>, limit: nat, p: nat)
    requires (forall i :: 0 <= i < |before| ==> before[i].end <= cursor) && p < |log|
    ensures var all := AddSlice(before, Max(cursor, TailStart(log, limit)), |log|);
            if p < cursor then Covered(all, p) <==> Covered(before, p) else Covered(all, p) <==> |log| <= p + limit
  {
    CoveredByLast(before, Max(cursor, TailStart(log, limit)), |log|, p);
  }

  lemma LogAfterGrows(log: seq<Byte>, wakes: seq<Wake>, m: nat, n: nat)
    requires m <= n <= |wakes|
    ensures |LogAfter(log, wakes, m)| <= |LogAfter(log, wakes, n)|
  {
  }

  /** `send_console_bytes`: empty payloads are not sent. */
  function SendBytes(sent: seq<ConsoleFrame>, payload: seq<Byte>): seq<ConsoleFrame> {
    if payload == [] then sent else sent + [Data(payload)]
  }

  /** Only data so far, all of it before `cursor`. */
  ghost predicate Streaming(frames: seq<ConsoleFrame>, slices: seq<Slice>, log: seq<Byte>, cursor: nat) {
    && Increasing(slices, log)
    && Carries(frames, slices, log)
    && |frames| == |slices|
    && cursor <= |log|
    && (forall i :: 0 <= i < |slices| ==> slices[i].end <= cursor)
  }

  lemma LogGrows(frames: seq<ConsoleFrame>, slices: seq<Slice>, log: seq<Byte>, cursor: nat, more: seq<Byte>)
    requires Streaming(frames, slices, log, cursor)
    ensures Streaming(frames, slices, log + more, cursor)
  {
    forall i | 0 <= i < |slices|
      ensures (log + more)[slices[i].start..slices[i].end] == log[slices[i].start..slices[i].end]
    {
    }
  }

  /** Sending the log suffix from `start`, if there is any, extends the slices by one. */
  lemma SendSuffix(frames: seq<ConsoleFrame>, slices: seq<Slice>, log: seq<Byte>, cursor: nat, start: nat)
    requires Streaming(frames, slices, log, cursor)
    requires cursor <= start <= |log|
    ensures Streaming(SendBytes(frames, log[start..]), AddSlice(slices, start, |log|), log, |log|)
  {
    if start < |log| {
      var frames', slices' := frames + [Data(log[start..])], slices + [Slice(start, |log|)];
      Appended(frames, Data(log[start..]));
      Appended(slices, Slice(start, |log|));
      assert log[start..|log|] == log[start..];
      forall i | 0 <= i < |slices'| ensures frames'[i] == Data(log[slices'[i].start..slices'[i].end]) {
        if i < |slices| { assert frames'[i] == frames[i] && slices'[i] == slices[i]; }
      }
    } else {
      assert log[start..] == [];
    }
  }

  /** What one attachment has put on the wire: increasing, disjoint log slices, then at most an exit frame. */
  ghost predicate Sent(frames: seq<ConsoleFrame>, slices: seq<Slice>, log: seq<Byte>) {
    Increasing(slices, log) && Carries(frames, slices, log)
  }

  /**
   One turn of the loop: the process pushes, then, unless a newer attachment has
   taken over, everything retained from the cursor on is sent and the cursor moves
   to the end of the log. The send fails if the stream takes no more frames.
   */
  method OnWake(output: BufferedConsoleState, limit: nat, wake: Wake, nextOffset: nat, sent: seq<ConsoleFrame>,
                capacity: nat, ghost slices: seq<Slice>, ghost log: seq<Byte>)
    returns (ok: bool, sent': seq<ConsoleFrame>, nextOffset': nat, ghost slices': seq<Slice>)
    requires output.Valid() && output.Refines(log, limit) && limit <= U64_MAX
    requires Streaming(sent, slices, log, nextOffset) && |sent| <= capacity
    requires |log + Flatten(wake.pushed)| <= U64_MAX
    modifies output
    ensures var log' := log + Flatten(wake.pushed);
            var full := if wake.takeover then slices
                        else AddSlice(slices, Max(nextOffset, TailStart(log', limit)), |log'|);
            && output.Valid() && output.Refines(log', limit)
            && Streaming(sent', slices', log', nextOffset')
            && (ok <==> |full| <= capacity)
            && (if ok then slices' == full && nextOffset' == if wake.takeover then nextOffset else |log'|
                else slices' == slices && nextOffset' == nextOffset)
  {
    output.PushAll(wake.pushed, limit, log);
    LogGrows(sent, slices, log, nextOffset, Flatten(wake.pushed));
    ghost var log' := log + Flatten(wake.pushed);
    ok, sent', nextOffset', slices' := true, sent, nextOffset, slices;
    if !wake.takeover {
      var snapshot := output.ReplayFrom(nextOffset, log', limit);
      ghost var start := Clamp(nextOffset, TailStart(log', limit), |log'|);
      if snapshot.data != [] && |sent| == capacity {
        return false, sent, nextOffset, slices;
      }
      SendSuffix(sent, slices, log', nextOffset, start);
      sent' := SendBytes(sent, snapshot.data);
      slices' := AddSlice(slices, start, |log'|);
      nextOffset' := snapshot.nextOffset;
    }
  }

  lemma SendExit(frames: seq<ConsoleFrame>, slices: seq<Slice>, log: seq<Byte>, cursor: nat, code: nat)
    requires Streaming(frames, slices, log, cursor)
    ensures Sent(frames, slices, log) && Sent(frames + [Exit(code)], slices, log)
  {
  }

  /**
   The first `capacity` frames of a transcript: all of it, or what a stream took before
   a write failed.
   */
  ghost predicate Delivered(sent: seq<ConsoleFrame>, slices: seq<Slice>, all: seq<Slice>, last: seq<ConsoleFrame>,
                            capacity: nat, log: seq<Byte>) {
    && Sent(sent, slices, log)
    && slices == all[..Min(capacity, |all|)]
    && sent[|slices|..] == last[..Min(capacity - |slices|, |last|)]
  }

  /** The end of the stream: the exit frame, if there is one and the stream still takes it. */
  method Finish(sent: seq<ConsoleFrame>, exit: Option<nat>, capacity: nat, ghost slices: seq<Slice>,
                ghost log: seq<Byte>, ghost cursor: nat)
    returns (ok: bool, sent': seq<ConsoleFrame>)
    requires Streaming(sent, slices, log, cursor) && |sent| <= capacity
    ensures var last := if exit.Some? then [Exit(exit.value)] else [];
            Delivered(sent', slices, slices, last, capacity, log) && (ok <==> |slices| + |last| <= capacity)
  {
    SendExit(sent, slices, log, cursor, if exit.Some? then exit.value else 0);
    assert slices[..|slices|] == slices;
    ok, sent' := true, sent;
    if exit.Some? {
      if |sent| == capacity {
        ok := false;
      } else {
        sent' := sent + [Exit(exit.value)];
      }
    }
  }

  /**
   The state of the loop after `i` wake-ups: everything was sent, or the last slice
   was one more than the stream took.
   */
  ghost predicate Looped(limit: nat, log0: seq<Byte>, wakes: seq<Wake>, slices0: seq<Slice>, cursor0: nat, i: nat,
                         capacity: nat, ok: bool, slices: seq<Slice>, cursor: nat)
    requires i <= |wakes|
  {
    var (all, from) := Streamed(limit, log0, wakes, slices0, cursor0, i);
    if ok then slices == all && cursor == from && |all| <= capacity
    else |all| == |slices| + 1 == capacity + 1 && slices == all[..capacity]
  }

  lemma LoopOnce(limit: nat, log0: seq<Byte>, wakes: seq<Wake>, slices0: seq<Slice>, cursor0: nat, i: nat,
                 capacity: nat, slices: seq<Slice>, cursor: nat, ok: bool, slices': seq<Slice>, cursor': nat)
    requires i < |wakes| && Looped(limit, log0, wakes, slices0, cursor0, i, capacity, true, slices, cursor)
    requires var log' := LogAfter(log0, wakes, i + 1);
             var full :=
               if wakes[i].takeover then slices else AddSlice(slices, Max(cursor, TailStart(log', limit)), |log'|);
             && (ok <==> |full| <= capacity)
             && (ok ==> slices' == full && cursor' == if wakes[i].takeover then cursor else |log'|)
             && (!ok ==> slices' == slices)
    ensures Looped(limit, log0, wakes, slices0, cursor0, i + 1, capacity, ok, slices', cursor')
  {
  }

  /** The `i`-th turn of the loop. */
  method Turn(output: BufferedConsoleState, limit: nat, nextOffset: nat, sent: seq<ConsoleFrame>, wakes: seq<Wake>,
              i: nat, capacity: nat, ghost slices: seq<Slice>, ghost slices0: seq<Slice>, ghost cursor0: nat,
              ghost log0: seq<Byte>)
    returns (ok: bool, sent': seq<ConsoleFrame>, nextOffset': nat, ghost slices': seq<Slice>)
    requires i < |wakes| && |LogAfter(log0, wakes, |wakes|)| <= U64_MAX && limit <= U64_MAX
    requires output.Valid() && output.Refines(LogAfter(log0, wakes, i), limit)
    requires Streaming(sent, slices, LogAfter(log0, wakes, i), nextOffset) && |sent| <= capacity
    requires Looped(limit, log0, wakes, slices0, cursor0, i, capacity, true, slices, nextOffset)
    modifies output
    ensures output.Valid() && output.Refines(LogAfter(log0, wakes, i + 1), limit)
    ensures Streaming(sent', slices', LogAfter(log0, wakes, i + 1), nextOffset')
    ensures Looped(limit, log0, wakes, slices0, cursor0, i + 1, capacity, ok, slices', nextOffset')
  {
    ghost var log := LogAfter(log0, wakes, i);
    LogAfterGrows(log0, wakes, i + 1, |wakes|);
    assert LogAfter(log0, wakes, i + 1) == log + Flatten(wakes[i].pushed);
    ok, sent', nextOffset', slices' := OnWake(output, limit, wakes[i], nextOffset, sent, capacity, slices, log);
    LoopOnce(limit, log0, wakes, slices0, cursor0, i, capacity, slices, nextOffset, ok, slices', nextOffset');
  }

  /** The loop of `stream_console_output`, entered with `sent` on the wire and the cursor at `nextOffset`. */
  method StreamLoop(output: BufferedConsoleState, limit: nat, nextOffset0: nat, sent0: seq<ConsoleFrame>,
                    wakes: seq<Wake>, capacity: nat, ghost slices0: seq<Slice>, ghost log0: seq<Byte>)
    returns (ok: bool, sent: seq<ConsoleFrame>, ghost slices: seq<Slice>, ghost consumed: nat)
    requires output.Valid() && output.Refines(log0, limit) && limit <= U64_MAX
    requires Streaming(sent0, slices0, log0, nextOffset0) && |sent0| <= capacity
    requires |LogAfter(log0, wakes, |wakes|)| <= U64_MAX
    modifies output
    ensures consumed <= Stop(wakes) && output.Refines(LogAfter(log0, wakes, consumed), limit)
    ensures ok ==> consumed == Stop(wakes)
    ensures var all, last := Streamed(limit, log0, wakes, slices0, nextOffset0, consumed).0, LastFrame(wakes, consumed);
            && Delivered(sent, slices, all, last, capacity, LogAfter(log0, wakes, consumed))
            && (ok <==> |all| + |last| <= capacity)
  {
    var nextOffset := nextOffset0;
    ok, sent, slices := true, sent0, slices0;
    var i: nat, stop, exited := 0, false, None;
    while i < |wakes| && !stop && ok
      invariant i <= Stop(wakes) && output.Valid() && output.Refines(LogAfter(log0, wakes, i), limit)
      invariant Streaming(sent, slices, LogAfter(log0, wakes, i), nextOffset) && |sent| <= capacity
      invariant Looped(limit, log0, wakes, slices0, nextOffset0, i, capacity, ok, slices, nextOffset)
      invariant stop ==> i == Stop(wakes)
      invariant !stop && ok ==> i == |wakes| || i < Stop(wakes)
      invariant exited == if i > 0 && !wakes[i - 1].takeover then wakes[i - 1].exit else None
    {
      StopStep(wakes, i);
      ok, sent, nextOffset, slices :=
        Turn(output, limit, nextOffset, sent, wakes, i, capacity, slices, slices0, nextOffset0, log0);
      exited := if wakes[i].takeover then None else wakes[i].exit;
      stop := Ends(wakes[i]);
      i := i + 1;
    }
    consumed := i;
    ghost var log := LogAfter(log0, wakes, i);
    if ok {
      ok, sent := Finish(sent, exited, capacity, slices, log, nextOffset);
    } else {
      SendExit(sent, slices, log, nextOffset, 0);
    }
  }

  /**
   `stream_console_output`: the replay, then one snapshot per wake-up, then the
   exit frame, until the stream fails or the loop ends. Whatever is pushed meanwhile,
   one attachment sends increasing, disjoint slices of the session log, the first of
   them starting at the clamped watermark.
   */
  method StreamConsoleOutput(output: BufferedConsoleState, limit: nat, subscription: Replay, exit: Option<nat>,
                             wakes: seq<Wake>, capacity: nat, ghost rendered: nat, ghost log0: seq<Byte>)
    returns (ok: bool, sent: seq<ConsoleFrame>, ghost slices: seq<Slice>, ghost consumed: nat)
    requires output.Valid() && output.Refines(log0, limit) && limit <= U64_MAX
    requires subscription == Replay(Retained(log0, limit, rendered), |log0|)
    requires |LogAfter(log0, wakes, |wakes|)| <= U64_MAX
    modifies output
    ensures consumed <= if exit.Some? then 0 else Stop(wakes)
    ensures output.Refines(LogAfter(log0, wakes, consumed), limit)
    ensures ok ==> consumed == if exit.Some? then 0 else Stop(wakes)
    ensures var from := Clamp(rendered, TailStart(log0, limit), |log0|);
            var all := Streamed(limit, log0, wakes, AddSlice([], from, |log0|), |log0|, consumed).0;
            var last := if exit.Some? then [Exit(exit.value)] else LastFrame(wakes, consumed);
            && Delivered(sent, slices, all, last, capacity, LogAfter(log0, wakes, consumed))
            && (ok <==> |all| + |last| <= capacity)
  {
    ghost var from := Clamp(rendered, TailStart(log0, limit), |log0|);
    if subscription.data != [] && capacity == 0 {
      return false, [], [], 0;
    }
    slices := AddSlice([], from, |log0|);
    sent := SendBytes([], subscription.data);
    SendSuffix([], [], log0, 0, from);
    if exit.Some? {
      consumed := 0;
      ok, sent := Finish(sent, exit, capacity, slices, log0, |log0|);
    } else {
      ok, sent, slices, consumed :=
        StreamLoop(output, limit, subscription.nextOffset, sent, wakes, capacity, slices, log0);
    }
  }
}
