/**
 The shared, reconnectable connection of the client
 (`ReconnectableConnection`, crates/client/src/quic.rs:31-142): any number of
 callers ask for a lease, at most one of them connects, and a lease is given up by
 whoever finds it dead.

 Callers interleave at their lock acquisitions. A caller that is attempting may
 also be cancelled: its future is dropped between the two critical sections.
 */
module Reconnect {
  import opened Prelude

  // ---------------------------------------------------------------------------
  // The state behind the lock
  // ---------------------------------------------------------------------------

  /** What `connect` finds when it takes the lock. */
  datatype Entry = Leased(generation: nat) | Wait | Attempt(connectedOnce: bool, reprovision: bool)

  datatype Shared = Shared(
    current: Option<nat>,   // generation of the current lease
    nextGeneration: nat,
    connectedOnce: bool,
    reconnecting: bool,
    reprovision: bool)

  function Fresh(reprovision: bool): Shared { Shared(None, 0, false, false, reprovision) }

  function Enter(s: Shared): (Shared, Entry) {
    if s.current.Some? then (s, Leased(s.current.value))
    else if s.reconnecting then (s, Wait)
    else (s.(reconnecting := true), Attempt(s.connectedOnce, s.reprovision))
  }

  function Succeed(s: Shared): Shared {
    Shared(Some(s.nextGeneration), s.nextGeneration + 1, true, false, false)
  }

  function Fail(s: Shared): Shared { s.(reconnecting := false) }

  function Invalidate(s: Shared, generation: nat): Shared {
    if s.current == Some(generation) then s.(current := None) else s
  }

  /** The fields of `ReconnectState` and the critical sections that update them. */
  class ReconnectState {
    var current: Option<nat>
    var nextGeneration: nat
    var connectedOnce: bool
    var reconnecting: bool
    var reprovision: bool

    function View(): Shared
      reads this
    {
      Shared(current, nextGeneration, connectedOnce, reconnecting, reprovision)
    }

    constructor (reprovision: bool)
      ensures View() == Fresh(reprovision)
    {
      current, nextGeneration, connectedOnce := None, 0, false;
      reconnecting, this.reprovision := false, reprovision;
    }

    method Connect() returns (entry: Entry)
      modifies this
      ensures (View(), entry) == Enter(old(View()))
    {
      if current.Some? {
        return Leased(current.value);
      }
      if reconnecting {
        return Wait;
      }
      reconnecting := true;
      return Attempt(connectedOnce, reprovision);
    }

    method ConnectSucceeded() returns (generation: nat)
      modifies this
      ensures View() == Succeed(old(View())) && generation == old(nextGeneration)
    {
      generation := nextGeneration;
      nextGeneration := nextGeneration + 1;
      connectedOnce := true;
      reprovision := false;
      reconnecting := false;
      current := Some(generation);
    }

    method ConnectFailed()
      modifies this`reconnecting
      ensures View() == Fail(old(View()))
    {
      reconnecting := false;
    }

    method InvalidateLease(generation: nat)
      modifies this`current
      ensures View() == Invalidate(old(View()), generation)
    {
      if current.Some? && current.value == generation {
        current := None;
      }
    }
  }

  // ---------------------------------------------------------------------------
  // All interleavings
  // ---------------------------------------------------------------------------

  datatype Event =
    | Started(connectedOnce: bool, reprovision: bool)
    | Issued(generation: nat)
    | Handed(generation: nat) // a caller gets the current lease
    | Failed
    | Dropped(generation: nat)

  datatype State = State(
    shared: Shared,
    inFlight: set<nat>,     // callers between the two critical sections of connect
    history: seq<Event>,
    abandoned: bool)        // an attempt has been cancelled

  datatype Action =
    | DoEnter(caller: nat)
    | DoSucceed(caller: nat)
    | DoFail(caller: nat)
    | DoInvalidate(generation: nat)
    | DoCancel(caller: nat)

  function Do(s: State, a: Action): State {
    match a
    case DoEnter(caller) =>
      if caller in s.inFlight then s else
      var (shared, entry) := Enter(s.shared);
      if entry.Attempt? then
        s.(shared := shared, inFlight := s.inFlight + {caller},
           history := s.history + [Started(entry.connectedOnce, entry.reprovision)])
      else if entry.Leased? then s.(history := s.history + [Handed(entry.generation)])
      else s
    case DoSucceed(caller) =>
      if caller !in s.inFlight then s else
      s.(shared := Succeed(s.shared), inFlight := s.inFlight - {caller},
         history := s.history + [Issued(s.shared.nextGeneration)])
    case DoFail(caller) =>
      if caller !in s.inFlight then s else
      s.(shared := Fail(s.shared), inFlight := s.inFlight - {caller}, history := s.history + [Failed])
    case DoInvalidate(generation) =>
      if s.shared.current == Some(generation) then
        s.(shared := Invalidate(s.shared, generation), history := s.history + [Dropped(generation)])
      else s.(shared := Invalidate(s.shared, generation))
    case DoCancel(caller) =>
      if caller !in s.inFlight then s else s.(inFlight := s.inFlight - {caller}, abandoned := true)
  }

  function RunFrom(s: State, actions: seq<Action>): State {
    if actions == [] then s else Do(RunFrom(s, actions[..|actions| - 1]), actions[|actions| - 1])
  }

  function Run(reprovision: bool, actions: seq<Action>): State {
    RunFrom(State(Fresh(reprovision), {}, [], false), actions)
  }

  function IssuedIn(history: seq<Event>): seq<nat> {
    if history == [] then [] else
    var init := IssuedIn(history[..|history| - 1]);
    if history[|history| - 1].Issued? then init + [history[|history| - 1].generation] else init
  }

  /** Attempts before the first success ask for what the user asked for; later ones never reprovision. */
  ghost predicate ReprovisionOnce(initial: bool, history: seq<Event>) {
    forall i :: 0 <= i < |history| && history[i].Started? ==>
      && history[i].connectedOnce == (IssuedIn(history[..i]) != [])
      && history[i].reprovision == (initial && IssuedIn(history[..i]) == [])
  }

  /** The lease issued last, unless it has been dropped since. */
  function CurrentIn(history: seq<Event>): Option<nat> {
    if history == [] then None else
    match history[|history| - 1]
    case Issued(generation) => Some(generation)
    case Dropped(_) => None
    case _ => CurrentIn(history[..|history| - 1])
  }

  /** Whoever is handed a lease gets the current one, and only the current one is dropped. */
  ghost predicate HandedCurrent(history: seq<Event>) {
    forall i :: 0 <= i < |history| && (history[i].Handed? || history[i].Dropped?) ==>
      CurrentIn(history[..i]) == Some(history[i].generation)
  }

  ghost predicate Inv(initial: bool, s: State) {
    && |s.inFlight| <= 1
    && (s.shared.reconnecting <==> s.inFlight != {} || s.abandoned)
    && (s.shared.current.Some? ==> !s.shared.reconnecting && s.shared.current.value == s.shared.nextGeneration - 1)
    && (s.abandoned ==> s.inFlight == {})
    && HistoryOk(initial, s.history, s.shared.nextGeneration)
    && s.shared.current == CurrentIn(s.history) && HandedCurrent(s.history)
    && s.shared.connectedOnce == (s.shared.nextGeneration > 0)
    && s.shared.reprovision == (initial && s.shared.nextGeneration == 0)
  }

  lemma IssuedSnoc(history: seq<Event>, e: Event)
    ensures IssuedIn(history + [e]) == if e.Issued? then IssuedIn(history) + [e.generation] else IssuedIn(history)
  {
    assert (history + [e])[..|history|] == history;
  }

  lemma ReprovisionSnoc(initial: bool, history: seq<Event>, e: Event)
    requires ReprovisionOnce(initial, history)
    requires e.Started? ==> e.reprovision == (initial && IssuedIn(history) == [])
    requires e.Started? ==> e.connectedOnce == (IssuedIn(history) != [])
    ensures ReprovisionOnce(initial, history + [e])
  {
    var history' := history + [e];
    forall i | 0 <= i < |history'| && history'[i].Started?
      ensures history'[i].reprovision == (initial && IssuedIn(history'[..i]) == [])
      ensures history'[i].connectedOnce == (IssuedIn(history'[..i]) != [])
    {
      assert history'[..i] == history[..i];
      assert history[..|history|] == history;
    }
  }

  lemma HandedSnoc(history: seq<Event>, e: Event)
    requires HandedCurrent(history)
    requires e.Handed? || e.Dropped? ==> CurrentIn(history) == Some(e.generation)
    ensures HandedCurrent(history + [e])
    ensures CurrentIn(history + [e]) ==
            if e.Issued? then Some(e.generation) else if e.Dropped? then None else CurrentIn(history)
  {
    var history' := history + [e];
    Appended(history, e);
    forall i | 0 <= i < |history'| && (history'[i].Handed? || history'[i].Dropped?)
      ensures CurrentIn(history'[..i]) == Some(history'[i].generation)
    {
      assert history'[..i] == history[..i];
      WholeSlice(history);
    }
  }

  /** The leases issued are numbered 0, 1, 2, ..., and reprovisioning ends with the first. */
  ghost predicate HistoryOk(initial: bool, history: seq<Event>, issued: nat) {
    && |IssuedIn(history)| == issued && (forall k :: 0 <= k < issued ==> IssuedIn(history)[k] == k)
    && ReprovisionOnce(initial, history)
  }

  lemma HistoryKeeps(initial: bool, history: seq<Event>, issued: nat, e: Event)
    requires HistoryOk(initial, history, issued)
    requires e.Issued? ==> e.generation == issued
    requires e.Started? ==> e.reprovision == (initial && issued == 0) && e.connectedOnce == (issued > 0)
    ensures HistoryOk(initial, history + [e], if e.Issued? then issued + 1 else issued)
  {
    IssuedSnoc(history, e);
    ReprovisionSnoc(initial, history, e);
  }

  lemma EnterKeeps(initial: bool, s: State, caller: nat)
    requires Inv(initial, s) && caller !in s.inFlight && Enter(s.shared).1.Attempt?
    ensures Inv(initial, Do(s, DoEnter(caller)))
  {
    var e := Started(s.shared.connectedOnce, s.shared.reprovision);
    HistoryKeeps(initial, s.history, s.shared.nextGeneration, e);
    HandedSnoc(s.history, e);
    assert s.inFlight == {};
    assert s.inFlight + {caller} == {caller};
  }

  lemma SucceedKeeps(initial: bool, s: State, caller: nat)
    requires Inv(initial, s) && caller in s.inFlight
    ensures Inv(initial, Do(s, DoSucceed(caller)))
  {
    OneOut(s.inFlight);
    HistoryKeeps(initial, s.history, s.shared.nextGeneration, Issued(s.shared.nextGeneration));
    HandedSnoc(s.history, Issued(s.shared.nextGeneration));
  }

  lemma FailKeeps(initial: bool, s: State, caller: nat)
    requires Inv(initial, s) && caller in s.inFlight
    ensures Inv(initial, Do(s, DoFail(caller)))
  {
    OneOut(s.inFlight);
    HistoryKeeps(initial, s.history, s.shared.nextGeneration, Failed);
    HandedSnoc(s.history, Failed);
  }

  lemma InvalidateKeeps(initial: bool, s: State, generation: nat)
    requires Inv(initial, s)
    ensures Inv(initial, Do(s, DoInvalidate(generation)))
  {
    HistoryKeeps(initial, s.history, s.shared.nextGeneration, Dropped(generation));
    if s.shared.current == Some(generation) { HandedSnoc(s.history, Dropped(generation)); }
  }

  /** A caller that finds a lease, or that somebody else is connecting. */
  lemma ShareKeeps(initial: bool, s: State, caller: nat)
    requires Inv(initial, s) && !Enter(s.shared).1.Attempt?
    ensures Inv(initial, Do(s, DoEnter(caller)))
  {
    var entry := Enter(s.shared).1;
    if entry.Leased? {
      HistoryKeeps(initial, s.history, s.shared.nextGeneration, Handed(entry.generation));
      HandedSnoc(s.history, Handed(entry.generation));
    }
  }

  lemma CancelKeeps(initial: bool, s: State, caller: nat)
    requires Inv(initial, s)
    ensures Inv(initial, Do(s, DoCancel(caller)))
  {
    OneOut(s.inFlight);
  }

  lemma StepKeeps(initial: bool, s: State, a: Action)
    requires Inv(initial, s)
    ensures Inv(initial, Do(s, a))
  {
    match a
    case DoEnter(caller) =>
      if !Enter(s.shared).1.Attempt? {
        ShareKeeps(initial, s, caller);
      } else if caller !in s.inFlight {
        EnterKeeps(initial, s, caller);
      }
    case DoSucceed(caller) => if caller in s.inFlight { SucceedKeeps(initial, s, caller); }
    case DoFail(caller) => if caller in s.inFlight { FailKeeps(initial, s, caller); }
    case DoInvalidate(generation) => InvalidateKeeps(initial, s, generation);
    case DoCancel(caller) => CancelKeeps(initial, s, caller);
  }

  lemma OneOut(xs: set<nat>)
    requires |xs| <= 1
    ensures forall x :: x in xs ==> xs - {x} == {}
  {
    forall x | x in xs ensures xs - {x} == {} {
      assert |xs - {x}| == 0;
    }
  }

  lemma {:induction false} RunKeeps(initial: bool, actions: seq<Action>)
    ensures Inv(initial, Run(initial, actions))
  {
    if actions != [] {
      RunKeeps(initial, actions[..|actions| - 1]);
      StepKeeps(initial, Run(initial, actions[..|actions| - 1]), actions[|actions| - 1]);
    }
  }

  /**
   On every interleaving, cancellations included: at most one attempt is in flight and
   never beside a current lease, the flag `reconnecting` is set exactly while one is
   (or after one was cancelled), the leases issued are numbered 0, 1, 2, ... and the
   current one is the last unless it has been dropped, whoever is handed a lease gets
   the current one, and no attempt after the first success reprovisions.
   */
  lemma SingleFlight(initial: bool, actions: seq<Action>)
    ensures var s := Run(initial, actions);
            && |s.inFlight| <= 1
            && (s.shared.reconnecting <==> s.inFlight != {} || s.abandoned)
            && (s.shared.current.Some? ==> s.inFlight == {})
            && |IssuedIn(s.history)| == s.shared.nextGeneration
            && (forall k :: 0 <= k < |IssuedIn(s.history)| ==> IssuedIn(s.history)[k] == k)
            && (s.shared.current.Some? ==> s.shared.current.value == |IssuedIn(s.history)| - 1)
            && s.shared.current == CurrentIn(s.history) && HandedCurrent(s.history)
            && ReprovisionOnce(initial, s.history)
  {
    RunKeeps(initial, actions);
  }

  /** A lease is replaced by nothing, and given up only for its own generation. */
  lemma OnlyItsOwnInvalidateDropsALease(initial: bool, actions: seq<Action>, a: Action)
    requires Run(initial, actions).shared.current.Some?
    ensures var s := Run(initial, actions);
            Do(s, a).shared.current == s.shared.current <==> a != DoInvalidate(s.shared.current.value)
  {
    RunKeeps(initial, actions);
  }

  /** A caller that asks gets the lease if there is one, waits if somebody is connecting, and connects otherwise. */
  lemma Asking(initial: bool, actions: seq<Action>, caller: nat)
    requires caller !in Run(initial, actions).inFlight
    ensures var s := Run(initial, actions);
            var s' := Do(s, DoEnter(caller));
            && s'.shared == s.shared.(reconnecting := s'.shared.reconnecting)
            && if s.shared.current.Some? then s'.history == s.history + [Handed(s.shared.current.value)]
               else if s.inFlight != {} || s.abandoned then s' == s
               else
                 && caller in s'.inFlight && |s'.history| == |s.history| + 1
                 && s'.history[|s.history|].Started?
  {
    RunKeeps(initial, actions);
  }

  /** The end of an attempt lets the next caller in, with a lease if it succeeded and without one if it failed. */
  lemma AttemptEnds(initial: bool, actions: seq<Action>, caller: nat)
    requires caller in Run(initial, actions).inFlight
    ensures var s := Run(initial, actions);
            var failed, succeeded := Do(s, DoFail(caller)), Do(s, DoSucceed(caller));
            && failed.inFlight == succeeded.inFlight == {}
            && !failed.shared.reconnecting && !succeeded.shared.reconnecting
            && failed.shared.current.None? && succeeded.shared.current == Some(|IssuedIn(s.history)|)
  {
    RunKeeps(initial, actions);
    OneOut(Run(initial, actions).inFlight);
  }

  /** Once an attempt has been cancelled nothing is ever issued again. */
  lemma {:induction false} CancelledIsForever(initial: bool, s: State, more: seq<Action>)
    requires Inv(initial, s) && s.abandoned
    ensures var t := RunFrom(s, more);
            t.abandoned && t.shared == s.shared && t.history == s.history && t.shared.current.None?
            && t.inFlight == {}
  {
    if more != [] { CancelledIsForever(initial, s, more[..|more| - 1]); }
  }

  /** Some continuation leads to a lease. */
  ghost predicate Connectable(s: State) {
    exists more :: RunFrom(s, more).shared.current.Some?
  }

  lemma WayToConnect(initial: bool, s: State) returns (more: seq<Action>)
    requires Inv(initial, s) && !s.abandoned
    ensures RunFrom(s, more).shared.current.Some?
  {
    if s.shared.current.Some? {
      more := [];
    } else if s.inFlight != {} {
      var caller :| caller in s.inFlight;
      OneStep(s, DoSucceed(caller));
      more := [DoSucceed(caller)];
    } else {
      TwoSteps(s, DoEnter(0), DoSucceed(0));
      more := [DoEnter(0), DoSucceed(0)];
    }
  }

  lemma NoWayAfterCancel(initial: bool, s: State)
    requires Inv(initial, s) && s.abandoned
    ensures !Connectable(s)
  {
    forall more ensures RunFrom(s, more).shared.current.None? {
      CancelledIsForever(initial, s, more);
    }
  }

  /** A lease can still be obtained if and only if no attempt has been cancelled in flight. */
  lemma ConnectableIff(initial: bool, actions: seq<Action>)
    ensures Connectable(Run(initial, actions)) <==> !Run(initial, actions).abandoned
  {
    RunKeeps(initial, actions);
    var s := Run(initial, actions);
    if s.abandoned {
      NoWayAfterCancel(initial, s);
    } else {
      var more := WayToConnect(initial, s);
    }
  }

  /** One caller that starts to connect and is cancelled is enough. */
  lemma OneCancelWedges(initial: bool, caller: nat)
    ensures var s := Run(initial, [DoEnter(caller), DoCancel(caller)]);
            s.abandoned && s.shared.reconnecting && !Connectable(s)
  {
    TwoSteps(Run(initial, []), DoEnter(caller), DoCancel(caller));
    ConnectableIff(initial, [DoEnter(caller), DoCancel(caller)]);
  }

  lemma OneStep(s: State, a: Action)
    ensures RunFrom(s, [a]) == Do(s, a)
  {
    assert RunFrom(s, [a][..0]) == s;
  }

  lemma TwoSteps(s: State, a: Action, b: Action)
    ensures RunFrom(s, [a, b]) == Do(Do(s, a), b)
  {
    assert [a, b][..1] == [a];
    OneStep(s, a);
  }
}
