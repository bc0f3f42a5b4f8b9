/**
 Persistent exec sessions (crates/init/src/forward.rs:123-344): a registry from
 session ids to session objects, and in each session the attachment that currently
 owns it. Generations tell a stale attachment from the one that took over.
 */
module ExecSessions {
  import opened Prelude

  // ---------------------------------------------------------------------------
  // What the critical sections do
  // ---------------------------------------------------------------------------

  /** A session object as far as attachments and the registry go. */
  datatype Object = Object(id: string, nextGeneration: nat, current: Option<nat>, exited: bool, stamped: bool)

  function NewObject(id: string): Object { Object(id, 0, None, false, false) }

  /** The next attachment takes over. */
  function TakenOver(o: Object): Object {
    o.(nextGeneration := o.nextGeneration + 1, current := Some(o.nextGeneration + 1))
  }

  /** An attachment gives the session up, unless it has been taken over. */
  function GivenUp(o: Object, generation: nat): Object {
    if o.current == Some(generation) then o.(current := None) else o
  }

  /** The registry without an id, if that id still stands for the given session. */
  function Removed<T(==)>(sessions: map<string, T>, id: string, session: T): map<string, T> {
    if id in sessions && sessions[id] == session then sessions - {id} else sessions
  }

  class CancellationToken {
    var cancelled: bool

    constructor ()
      ensures !cancelled
    {
      cancelled := false;
    }
  }

  class ExecSession {
    const sessionId: string
    var nextGeneration: nat
    var current: Option<nat>
    var token: CancellationToken
    var exitCode: Option<nat>
    var exitedAt: Option<nat>

    function View(): Object
      reads this
    {
      Object(sessionId, nextGeneration, current, exitCode.Some?, exitedAt.Some?)
    }

    constructor (sessionId: string)
      ensures View() == NewObject(sessionId) && fresh(token)
    {
      this.sessionId, nextGeneration, current := sessionId, 0, None;
      token := new CancellationToken();
      exitCode, exitedAt := None, None;
    }

    /** Takes the session over: whoever held it is told to stop. */
    method Attach() returns (generation: nat, takeover: CancellationToken)
      modifies this`nextGeneration, this`current, this`token, token
      ensures View() == TakenOver(old(View())) && Some(generation) == current
      ensures token == takeover && fresh(takeover) && !takeover.cancelled
      ensures old(token).cancelled == (old(token.cancelled) || old(current).Some?)
    {
      if current.Some? {
        token.cancelled := true;
      }
      nextGeneration := nextGeneration + 1;
      generation := nextGeneration;
      takeover := new CancellationToken();
      current, token := Some(generation), takeover;
    }

    /** Gives the session up, unless it has been taken over; says whether it has finished. */
    method Detach(generation: nat) returns (shouldRemove: bool)
      modifies this`current
      ensures View() == GivenUp(old(View()), generation)
      ensures shouldRemove == View().exited
    {
      if current.Some? && current.value == generation {
        current := None;
      }
      shouldRemove := exitCode.Some?;
    }
  }

  datatype Fetched = Session(session: ExecSession) | NotFound | EmptyCommand | SpawnFailed

  const COMPLETED_SESSION_TTL_SECS: nat := 60

  class ExecSessionManager {
    var sessions: map<string, ExecSession>

    constructor ()
      ensures sessions == map[]
    {
      sessions := map[];
    }

    /** The registry half of `attach_or_create`; `spawnOk` is the outcome of spawning the process. */
    method FindOrCreate(sessionId: string, argv: Option<seq<string>>, spawnOk: bool) returns (r: Fetched)
      modifies this
      ensures sessionId in old(sessions) ==> r == Session(old(sessions)[sessionId]) && sessions == old(sessions)
      ensures sessionId !in old(sessions) ==>
                if argv.None? then r == NotFound && sessions == old(sessions)
                else if argv.value == [] then r == EmptyCommand && sessions == old(sessions)
                else if !spawnOk then r == SpawnFailed && sessions == old(sessions)
                else r.Session? && fresh(r.session) && r.session.View() == NewObject(sessionId)
                     && sessions == old(sessions)[sessionId := r.session]
    {
      if sessionId in sessions {
        return Session(sessions[sessionId]);
      }
      if argv.None? {
        return NotFound;
      }
      if argv.value == [] {
        return EmptyCommand;
      }
      if !spawnOk {
        return SpawnFailed;
      }
      var session := new ExecSession(sessionId);
      sessions := sessions[sessionId := session];
      return Session(session);
    }

    method RemoveIfSame(sessionId: string, session: ExecSession)
      modifies this
      ensures sessions == Removed(old(sessions), sessionId, session)
      ensures sessions ==
              old(sessions) - set id | id in old(sessions) && id == sessionId && old(sessions)[id] == session
    {
      if sessionId in sessions && sessions[sessionId] == session {
        sessions := sessions - {sessionId};
      }
    }

    /** One round of `reap_completed_sessions` at time `now`. */
    method Reap(now: nat)
      modifies this
      ensures exists expired: set<string> :: sessions == old(sessions) - expired &&
                forall id :: id in old(sessions) ==>
                  var at := old(sessions)[id].exitedAt;
                  (id in expired <==> at.Some? && now - at.value >= COMPLETED_SESSION_TTL_SECS)
    {
      var expired := set id | id in sessions &&
        sessions[id].exitedAt.Some? && now - sessions[id].exitedAt.value >= COMPLETED_SESSION_TTL_SECS;
      sessions := sessions - expired;
    }
  }

  // ---------------------------------------------------------------------------
  // All interleavings
  // ---------------------------------------------------------------------------

  datatype Attachment = Attachment(session: nat, generation: nat, cancelled: bool, detached: bool)

  /** Session objects are named by the order of their creation. */
  datatype State = State(objects: seq<Object>, registry: map<string, nat>, attachments: seq<Attachment>)

  const INIT := State([], map[], [])

  datatype Action =
    | FindOrCreate(id: string)          // a request that may create, with a process that spawns
    | Attach(session: nat)               // second half of a request, however long after the first
    | Detach(attachment: nat)
    | RemoveIfSame(session: nat)         // second half of a detach that saw the exit code
    | Exit(session: nat)
    | Stamp(session: nat)                // exited_at is recorded after exit_code
    | Reap(due: set<nat>)                // the stamped objects whose time is up

  predicate Live(a: Attachment) { !a.cancelled && !a.detached }

  /** Cancels the attachment that `session` records as current, if any. */
  function CancelCurrent(attachments: seq<Attachment>, session: nat, current: Option<nat>): seq<Attachment> {
    seq(|attachments|, k requires 0 <= k < |attachments| =>
      if current == Some(attachments[k].generation) && attachments[k].session == session
      then attachments[k].(cancelled := true) else attachments[k])
  }

  function Do(s: State, a: Action): State {
    match a
    case FindOrCreate(id) =>
      if id in s.registry then s else
      s.(objects := s.objects + [NewObject(id)], registry := s.registry[id := |s.objects|])
    case Attach(o) =>
      if o >= |s.objects| then s else
      var object' := TakenOver(s.objects[o]);
      s.(objects := s.objects[o := object'],
         attachments := CancelCurrent(s.attachments, o, s.objects[o].current)
                        + [Attachment(o, object'.nextGeneration, false, false)])
    case Detach(k) =>
      if k >= |s.attachments| || s.attachments[k].session >= |s.objects| then s else
      var o := s.attachments[k].session;
      s.(attachments := s.attachments[k := s.attachments[k].(detached := true)],
         objects := s.objects[o := GivenUp(s.objects[o], s.attachments[k].generation)])
    case RemoveIfSame(o) =>
      if o < |s.objects| && s.objects[o].exited then s.(registry := Removed(s.registry, s.objects[o].id, o)) else s
    case Exit(o) =>
      if o < |s.objects| then s.(objects := s.objects[o := s.objects[o].(exited := true)]) else s
    case Stamp(o) =>
      if o < |s.objects| && s.objects[o].exited then
        s.(objects := s.objects[o := s.objects[o].(stamped := true)])
      else s
    case Reap(due) =>
      s.(registry := s.registry - Expired(s, due))
  }

  /** The ids of the sessions whose end has been recorded and whose time is up. */
  function Expired(s: State, due: set<nat>): set<string> {
    set id | id in s.registry && s.registry[id] in due && s.registry[id] < |s.objects|
        && s.objects[s.registry[id]].stamped
  }

  function Run(actions: seq<Action>): State {
    if actions == [] then INIT else Do(Run(actions[..|actions| - 1]), actions[|actions| - 1])
  }

  /** The registry maps ids to objects of that id, and a running object is registered. */
  ghost predicate RegistryOk(s: State) {
    && (forall id :: id in s.registry ==> s.registry[id] < |s.objects| && s.objects[s.registry[id]].id == id)
    && (forall o :: 0 <= o < |s.objects| && !s.objects[o].exited ==>
          s.objects[o].id in s.registry && s.registry[s.objects[o].id] == o)
    && (forall o :: 0 <= o < |s.objects| && s.objects[o].stamped ==> s.objects[o].exited)
  }

  /** Every attachment has its own generation, and the live ones are the recorded current ones. */
  ghost predicate AttachmentsOk(objects: seq<Object>, attachments: seq<Attachment>) {
    && (forall k :: 0 <= k < |attachments| ==>
          attachments[k].session < |objects|
              && attachments[k].generation <= objects[attachments[k].session].nextGeneration)
    && (forall j, k :: 0 <= j < k < |attachments| && attachments[j].session == attachments[k].session ==>
          attachments[j].generation < attachments[k].generation)
    && (forall k :: 0 <= k < |attachments| ==>
          (Live(attachments[k]) <==> objects[attachments[k].session].current == Some(attachments[k].generation)))
    && (forall o :: 0 <= o < |objects| && objects[o].current.Some? ==>
        objects[o].current.value <= objects[o].nextGeneration)
  }

  /** Creating an object, and taking finished ones out of the registry. */
  lemma RegistryChanges(s: State, a: Action)
    requires RegistryOk(s) && (a.FindOrCreate? || a.RemoveIfSame? || a.Reap?)
    ensures RegistryOk(Do(s, a))
  {
  }

  /** Changing one object without changing its id or reviving it. */
  lemma ObjectChanges(s: State, o: nat, object': Object, attachments: seq<Attachment>)
    requires RegistryOk(s) && o < |s.objects| && object'.id == s.objects[o].id
    requires (s.objects[o].exited ==> object'.exited) && (object'.stamped ==> object'.exited)
    ensures RegistryOk(State(s.objects[o := object'], s.registry, attachments))
  {
  }

  lemma RegistryStep(s: State, a: Action)
    requires RegistryOk(s)
    ensures RegistryOk(Do(s, a))
  {
    if a.FindOrCreate? || a.RemoveIfSame? || a.Reap? {
      RegistryChanges(s, a);
    } else {
      var s' := Do(s, a);
      var o :=
        if !a.Detach? then a.session
        else if a.attachment < |s.attachments| then s.attachments[a.attachment].session
        else 0;
      if o < |s.objects| {
        ObjectChanges(s, o, s'.objects[o], s'.attachments);
      }
    }
  }

  /** What an attach makes of one attachment: the one before it is cancelled, the new one is current. */
  lemma AttachAt(s: State, o: nat, k: nat)
    requires AttachmentsOk(s.objects, s.attachments) && o < |s.objects| && k <= |s.attachments|
    ensures var s' := Do(s, Attach(o));
            && |s'.attachments| == |s.attachments| + 1
            && (var a := s'.attachments[k];
                && a.session < |s'.objects| && a.generation <= s'.objects[a.session].nextGeneration
                && (Live(a) <==> s'.objects[a.session].current == Some(a.generation))
                && (if k < |s.attachments| then
                      a.session == s.attachments[k].session && a.generation == s.attachments[k].generation
                    else
                      a.session == o && a.generation == s.objects[o].nextGeneration + 1))
  {
    if k < |s.attachments| {
      var a := s.attachments[k];
      assert Live(a) <==> s.objects[a.session].current == Some(a.generation);
      assert Do(s, Attach(o)).attachments[k] == CancelCurrent(s.attachments, o, s.objects[o].current)[k];
    }
  }

  lemma AttachKeeps(s: State, o: nat)
    requires AttachmentsOk(s.objects, s.attachments) && o < |s.objects|
    ensures var s' := Do(s, Attach(o)); AttachmentsOk(s'.objects, s'.attachments)
  {
    var s' := Do(s, Attach(o));
    AttachAt(s, o, 0);
    forall k | 0 <= k < |s'.attachments|
      ensures s'.attachments[k].session < |s'.objects|
      ensures s'.attachments[k].generation <= s'.objects[s'.attachments[k].session].nextGeneration
      ensures Live(s'.attachments[k]) <==>
              s'.objects[s'.attachments[k].session].current == Some(s'.attachments[k].generation)
    {
      AttachAt(s, o, k);
    }
    forall j, k | 0 <= j < k < |s'.attachments| && s'.attachments[j].session == s'.attachments[k].session
      ensures s'.attachments[j].generation < s'.attachments[k].generation
    {
      AttachAt(s, o, j);
      AttachAt(s, o, k);
      assert s.attachments[j].generation <= s.objects[s.attachments[j].session].nextGeneration;
    }
  }

  lemma DetachKeeps(s: State, k: nat)
    requires AttachmentsOk(s.objects, s.attachments) && k < |s.attachments|
    ensures var s' := Do(s, Detach(k)); AttachmentsOk(s'.objects, s'.attachments)
  {
    var s' := Do(s, Detach(k));
    forall j | 0 <= j < |s'.attachments|
      ensures Live(s'.attachments[j]) <==>
              s'.objects[s'.attachments[j].session].current == Some(s'.attachments[j].generation)
    {
      assert Live(s.attachments[j]) <==>
             s.objects[s.attachments[j].session].current == Some(s.attachments[j].generation);
    }
  }

  lemma ObjectAddedKeeps(objects: seq<Object>, attachments: seq<Attachment>, object': Object)
    requires AttachmentsOk(objects, attachments) && object'.current.None?
    ensures AttachmentsOk(objects + [object'], attachments)
  {
    assert forall k :: 0 <= k < |attachments| ==>
      (objects + [object'])[attachments[k].session] == objects[attachments[k].session];
  }

  /** Recording an exit leaves the attachments alone. */
  lemma ExitKeeps(objects: seq<Object>, attachments: seq<Attachment>, o: nat, object': Object)
    requires AttachmentsOk(objects, attachments) && o < |objects|
    requires object'.current == objects[o].current && object'.nextGeneration == objects[o].nextGeneration
    ensures AttachmentsOk(objects[o := object'], attachments)
  {
    var objects' := objects[o := object'];
    assert forall p :: 0 <= p < |objects| ==>
      objects'[p].current == objects[p].current && objects'[p].nextGeneration == objects[p].nextGeneration;
  }

  lemma StepKeeps(s: State, a: Action)
    requires RegistryOk(s) && AttachmentsOk(s.objects, s.attachments)
    ensures var s' := Do(s, a); RegistryOk(s') && AttachmentsOk(s'.objects, s'.attachments)
  {
    RegistryStep(s, a);
    match a {
      case Attach(o) => if o < |s.objects| { AttachKeeps(s, o); }
      case Detach(k) => if k < |s.attachments| { DetachKeeps(s, k); }
      case FindOrCreate(id) => ObjectAddedKeeps(s.objects, s.attachments, NewObject(id));
      case Exit(o) => if o < |s.objects| { ExitKeeps(s.objects, s.attachments, o, s.objects[o].(exited := true)); }
      case Stamp(o) => if o < |s.objects| { ExitKeeps(s.objects, s.attachments, o, s.objects[o].(stamped := true)); }
      case _ =>
    }
  }

  lemma {:induction false} RunKeeps(actions: seq<Action>)
    ensures var s := Run(actions); RegistryOk(s) && AttachmentsOk(s.objects, s.attachments)
  {
    if actions != [] {
      RunKeeps(actions[..|actions| - 1]);
      StepKeeps(Run(actions[..|actions| - 1]), actions[|actions| - 1]);
    }
  }

  /**
   On every interleaving, an attachment that is neither detached nor cancelled is the
   one its session records as current; so no session ever has two.
   */
  lemma AtMostOneLiveAttachment(actions: seq<Action>, j: nat, k: nat)
    requires j < |Run(actions).attachments| && k < |Run(actions).attachments|
    ensures var s := Run(actions);
            var a, b := s.attachments[j], s.attachments[k];
            && a.session < |s.objects|
            && (Live(a) <==> s.objects[a.session].current == Some(a.generation))
            && (Live(a) && Live(b) && a.session == b.session ==> j == k)
  {
    RunKeeps(actions);
  }

  /** A detach touches its own attachment only: it never clears a newer one. */
  lemma StaleDetachIsHarmless(actions: seq<Action>, k: nat, j: nat)
    requires k < |Run(actions).attachments| && j < |Run(actions).attachments| && j != k
    ensures var s := Run(actions);
            var s' := Do(s, Detach(k));
            && s'.attachments[j] == s.attachments[j]
            && s.attachments[j].session < |s.objects| == |s'.objects|
            && (Live(s.attachments[j]) ==>
                  s'.objects[s.attachments[j].session].current == s.objects[s.attachments[j].session].current)
  {
    RunKeeps(actions);
  }

  /**
   No two running processes share a session id, and while the process of an id runs
   every request for that id finds it: whatever detaches, removals and reaps happen,
   only finished sessions leave the registry.
   */
  lemma OneRunningProcessPerId(actions: seq<Action>, o: nat, p: nat)
    requires o < |Run(actions).objects| && p < |Run(actions).objects|
    ensures var s := Run(actions);
            && (!s.objects[o].exited ==> s.objects[o].id in s.registry && s.registry[s.objects[o].id] == o)
            && (!s.objects[o].exited && !s.objects[p].exited && s.objects[o].id == s.objects[p].id ==> o == p)
            && (!s.objects[o].exited ==> Do(s, FindOrCreate(s.objects[o].id)) == s)
  {
    RunKeeps(actions);
  }

  /** An id stands for a new object after a request exactly if it stood for none before. */
  lemma RequestCreates(s: State, id: string)
    ensures var s' := Do(s, FindOrCreate(id));
            && id in s'.registry && s'.attachments == s.attachments
            && (id in s.registry ==> s' == s)
            && (id !in s.registry ==>
                  && s'.registry == s.registry[id := |s.objects|] && |s'.objects| == |s.objects| + 1
                  && s'.objects[..|s.objects|] == s.objects
                  && s'.objects[|s.objects|].id == id && s'.objects[|s.objects|].current.None?
                  && !s'.objects[|s.objects|].exited && !s'.objects[|s.objects|].stamped)
  {
    Appended(s.objects, NewObject(id));
  }

  /** An attach is live, whoever held the session is cancelled, and nobody else is touched. */
  lemma AttachTakesOver(actions: seq<Action>, o: nat, k: nat)
    requires o < |Run(actions).objects| && k < |Run(actions).attachments|
    ensures var s := Run(actions);
            var s' := Do(s, Attach(o));
            && |s'.attachments| == |s.attachments| + 1
            && (var mine := s'.attachments[|s.attachments|];
                mine.session == o && Live(mine) && s'.objects[o].current == Some(mine.generation))
            && s'.attachments[k] == s.attachments[k].(cancelled :=
                 s.attachments[k].cancelled || (Live(s.attachments[k]) && s.attachments[k].session == o))
            && s'.registry == s.registry
  {
    RunKeeps(actions);
    AttachAt(Run(actions), o, k);
    AttachAt(Run(actions), o, |Run(actions).attachments|);
  }

  /** A detach ends its own attachment, and frees the session if that was the current one. */
  lemma DetachEnds(actions: seq<Action>, k: nat)
    requires k < |Run(actions).attachments|
    ensures var s := Run(actions);
            var s' := Do(s, Detach(k));
            var a := s.attachments[k];
            && s'.attachments[k] == a.(detached := true) && !Live(s'.attachments[k])
            && a.session < |s.objects| == |s'.objects|
            && s'.objects[a.session] ==
               s.objects[a.session].(current := if Live(a) then None else s.objects[a.session].current)
            && s'.registry == s.registry
  {
    RunKeeps(actions);
  }

  /** A finished session that is still registered leaves the registry, and nothing else does. */
  lemma RemovalRemoves(actions: seq<Action>, o: nat, id: string)
    requires o < |Run(actions).objects|
    ensures var s := Run(actions);
            var s' := Do(s, RemoveIfSame(o));
            && (id in s'.registry <==> id in s.registry && !(s.registry[id] == o && s.objects[o].exited))
            && (id in s'.registry ==> s'.registry[id] == s.registry[id])
            && s'.objects == s.objects && s'.attachments == s.attachments
  {
    RunKeeps(actions);
  }

  /** A reap takes out the sessions whose end is recorded and whose time is up, and nothing else. */
  lemma ReapRemoves(s: State, due: set<nat>, id: string)
    requires RegistryOk(s)
    ensures var s' := Do(s, Reap(due));
            && (id in s'.registry <==>
                id in s.registry && !(s.registry[id] in due && s.objects[s.registry[id]].stamped))
            && (id in s'.registry ==> s'.registry[id] == s.registry[id])
            && s'.objects == s.objects && s'.attachments == s.attachments
  {
    if id in s.registry {
      assert id in Expired(s, due) <==> s.registry[id] in due && s.objects[s.registry[id]].stamped;
    }
  }

  /** The removal that follows a detach never removes another object re-created under the same id. */
  lemma RemovalSparesOtherObjects(actions: seq<Action>, o: nat, id: string)
    requires id in Run(actions).registry && Run(actions).registry[id] != o
    ensures var s := Run(actions);
            var s' := Do(s, RemoveIfSame(o));
            id in s'.registry && s'.registry[id] == s.registry[id]
  {
    RunKeeps(actions);
  }
}
