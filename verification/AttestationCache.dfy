/**
 The on-disk attestation cache (crates/client/src/cache.rs:45-170) and the check that
 uses it (crates/client/src/quic.rs:444-497 and 652-685). Client processes load whole
 snapshots, and write whole snapshots back, without coordinating.
 */
module AttestationCache {
  import opened Prelude

  datatype Key = Key(org: string, app: string, machineId: string, fingerprint: string)
  datatype Entry = Entry(key: Key, verifiedAt: nat, lastSeenAt: nat)

  datatype Config = Config(org: string, app: string)
  datatype Transport = Direct | Proxy(machineId: string)

  /** What a verified attestation token says. */
  datatype Claims = Claims(issuer: string, appName: string, machineId: string)

  // ---------------------------------------------------------------------------
  // Entries
  // ---------------------------------------------------------------------------

  /** `cache_entry_matches`. */
  predicate Matches(key: Key, cfg: Config, transport: Transport, fingerprint: string) {
    && key.org == cfg.org && key.app == cfg.app && key.fingerprint == fingerprint
    && (transport.Proxy? ==> key.machineId == transport.machineId)
  }

  /** `assert_org_and_app` and `assert_machine_id`. */
  predicate Attests(claims: Claims, cfg: Config, transport: Transport) {
    && claims.issuer == "https://oidc.fly.io/" + cfg.org && claims.appName == cfg.app
    && (transport.Proxy? ==> claims.machineId == transport.machineId)
  }

  function KeyOf(claims: Claims, cfg: Config, fingerprint: string): Key {
    Key(cfg.org, cfg.app, claims.machineId, fingerprint)
  }

  ghost predicate UniqueKeys(entries: seq<Entry>) {
    forall i, j :: 0 <= i < j < |entries| ==> entries[i].key != entries[j].key
  }

  ghost function Keys(entries: seq<Entry>): set<Key> { set e | e in entries :: e.key }

  /** The first entry whose key satisfies `p`; the number of entries if there is none. */
  function Find(entries: seq<Entry>, p: Key -> bool): (i: nat)
    ensures i <= |entries| && (i < |entries| ==> p(entries[i].key))
    ensures forall j :: 0 <= j < i ==> !p(entries[j].key)
  {
    if entries == [] || p(entries[0].key) then 0 else 1 + Find(entries[1..], p)
  }

  /** The entries after a verification is recorded. */
  function Recorded(entries: seq<Entry>, key: Key, now: nat): seq<Entry> {
    var i := Find(entries, k => k == key);
    if i < |entries| then entries[i := Entry(key, now, now)] else entries + [Entry(key, now, now)]
  }

  /** The entries after a hit on the `i`-th. */
  function Seen(entries: seq<Entry>, i: nat, now: nat): seq<Entry>
    requires i < |entries|
  {
    entries[i := entries[i].(lastSeenAt := now)]
  }

  datatype Verdict = Rejected | Cached | FullyVerified

  /** What a check makes of the entries, and its verdict. */
  function Checked(entries: seq<Entry>, cfg: Config, transport: Transport, fingerprint: string,
                   claims: Option<Claims>, now: Option<nat>): (seq<Entry>, Verdict) {
    var i := Find(entries, key => Matches(key, cfg, transport, fingerprint));
    if i < |entries| then (if now.Some? then Seen(entries, i, now.value) else entries, Cached)
    else if claims.Some? && Attests(claims.value, cfg, transport) then
      (if now.Some? then Recorded(entries, KeyOf(claims.value, cfg, fingerprint), now.value) else entries,
       FullyVerified)
    else (entries, Rejected)
  }

  /** Some entry is for the organisation, the application and the certificate, and for the machine behind a proxy. */
  ghost predicate Recognised(entries: seq<Entry>, cfg: Config, transport: Transport, fingerprint: string) {
    exists i :: 0 <= i < |entries|
      && entries[i].key.org == cfg.org && entries[i].key.app == cfg.app && entries[i].key.fingerprint == fingerprint
      && (transport.Direct? || entries[i].key.machineId == transport.machineId)
  }

  /** The token was issued for the organisation and the application, and for the machine behind a proxy. */
  ghost predicate IssuedFor(claims: Claims, cfg: Config, transport: Transport) {
    && claims.issuer == "https://oidc.fly.io/" + cfg.org && claims.appName == cfg.app
    && (transport.Direct? || claims.machineId == transport.machineId)
  }

  /** A check succeeds without the token exactly if an entry is for the connection, and otherwise if the token is. */
  lemma VerdictIff(entries: seq<Entry>, cfg: Config, transport: Transport, fingerprint: string,
                   claims: Option<Claims>, now: Option<nat>)
    ensures var verdict := Checked(entries, cfg, transport, fingerprint, claims, now).1;
            && (verdict.Cached? <==> Recognised(entries, cfg, transport, fingerprint))
            && (verdict.FullyVerified? <==>
                  && !Recognised(entries, cfg, transport, fingerprint)
                  && claims.Some? && IssuedFor(claims.value, cfg, transport))
  {
    var i := Find(entries, key => Matches(key, cfg, transport, fingerprint));
    if i < |entries| {
      assert Matches(entries[i].key, cfg, transport, fingerprint);
    } else {
      assert forall j :: 0 <= j < |entries| ==> !Matches(entries[j].key, cfg, transport, fingerprint);
    }
  }

  /**
   What a check records when there is a clock: a hit the time of the entry found, a
   verification one entry for what it verified. Every other entry is as it was.
   */
  lemma WhatIsRecorded(entries: seq<Entry>, cfg: Config, transport: Transport, fingerprint: string,
                       claims: Option<Claims>, now: nat)
    ensures var (entries', verdict) := Checked(entries, cfg, transport, fingerprint, claims, Some(now));
            && (verdict.Rejected? ==> entries' == entries)
            && (verdict.Cached? ==>
                  exists i :: (&& 0 <= i < |entries| && Recognised([entries[i]], cfg, transport, fingerprint)
                               && entries' == entries[i := Entry(entries[i].key, entries[i].verifiedAt, now)]))
            && (verdict.FullyVerified? ==>
                  var e := Entry(Key(cfg.org, cfg.app, claims.value.machineId, fingerprint), now, now);
                  || (entries' == entries + [e] && forall j :: 0 <= j < |entries| ==> entries[j].key != e.key)
                  || exists i :: 0 <= i < |entries| && entries[i].key == e.key && entries' == entries[i := e])
  {
    var i := Find(entries, key => Matches(key, cfg, transport, fingerprint));
    if i < |entries| {
      assert Matches([entries[i]][0].key, cfg, transport, fingerprint);
      assert Recognised([entries[i]], cfg, transport, fingerprint);
    }
  }

  /** What has been verified and recorded is recognised the next time. */
  lemma RecordedIsRecognised(entries: seq<Entry>, cfg: Config, transport: Transport, fingerprint: string,
                             claims: Option<Claims>, now: nat)
    requires Checked(entries, cfg, transport, fingerprint, claims, Some(now)).1.FullyVerified?
    ensures var entries' := Checked(entries, cfg, transport, fingerprint, claims, Some(now)).0;
            && Recognised(entries', cfg, transport, fingerprint)
            && Recognised(entries', cfg, Direct, fingerprint)
            && Recognised(entries', cfg, Proxy(claims.value.machineId), fingerprint)
  {
    var entries' := Checked(entries, cfg, transport, fingerprint, claims, Some(now)).0;
    var key := KeyOf(claims.value, cfg, fingerprint);
    var i := Find(entries, k => k == key);
    assert i < |entries'| && entries'[i].key == key;
  }

  /** Recording adds one key at most, and never a second entry for it. */
  lemma RecordedKeys(entries: seq<Entry>, key: Key, now: nat)
    requires UniqueKeys(entries)
    ensures UniqueKeys(Recorded(entries, key, now))
    ensures Keys(Recorded(entries, key, now)) == Keys(entries) + {key}
    ensures Entry(key, now, now) in Recorded(entries, key, now)
  {
    var i := Find(entries, k => k == key);
    var entries' := Recorded(entries, key, now);
    if i < |entries| {
      SameKeys(entries, i, Entry(key, now, now));
      assert entries[i] in entries && entries'[i] in entries';
    } else {
      assert forall e :: e in entries' <==> e in entries || e == Entry(key, now, now);
    }
  }

  lemma SameKeys(entries: seq<Entry>, i: nat, e: Entry)
    requires i < |entries| && e.key == entries[i].key
    ensures Keys(entries[i := e]) == Keys(entries)
    ensures UniqueKeys(entries) ==> UniqueKeys(entries[i := e])
  {
    var entries' := entries[i := e];
    assert forall j :: 0 <= j < |entries| ==> entries'[j].key == entries[j].key;
    assert forall j :: 0 <= j < |entries| ==> entries[j] in entries && entries'[j] in entries';
    forall k | k in Keys(entries) ensures k in Keys(entries') {
      var j :| 0 <= j < |entries| && entries[j].key == k;
    }
    forall k | k in Keys(entries') ensures k in Keys(entries) {
      var j :| 0 <= j < |entries'| && entries'[j].key == k;
    }
  }

  // ---------------------------------------------------------------------------
  // One process
  // ---------------------------------------------------------------------------

  /** The cache file: a whole snapshot, or nothing yet. */
  class CacheFile {
    var content: Option<seq<Entry>>
  }

  class Cache {
    const file: CacheFile
    var path: bool
    var entries: seq<Entry>

    /** `load_attestation_cache`: a file that cannot be read leaves a cache that is never written. */
    constructor Load(file: CacheFile, readable: bool)
      ensures this.file == file && path == readable
      ensures entries == if readable && file.content.Some? then file.content.value else []
    {
      this.file := file;
      path := readable;
      entries := if readable && file.content.Some? then file.content.value else [];
    }

    /** `lookup`: the first matching entry. */
    method Lookup(cfg: Config, transport: Transport, fingerprint: string) returns (i: Option<nat>)
      ensures i.Some? ==> i.value < |entries| && Matches(entries[i.value].key, cfg, transport, fingerprint)
      ensures forall j :: 0 <= j < (if i.Some? then i.value else |entries|) ==>
              !Matches(entries[j].key, cfg, transport, fingerprint)
    {
      var k := Find(entries, key => Matches(key, cfg, transport, fingerprint));
      i := if k < |entries| then Some(k) else None;
    }

    /** Write the whole snapshot, or fail and leave the file as it is. */
    method Persist() returns (ok: bool)
      modifies file
      ensures !path || !ok ==> file.content == old(file.content)
      ensures path && ok ==> file.content == Some(entries)
    {
      if !path { return true; }
      ok := *;
      if ok { file.content := Some(entries); }
    }

    /** `record_verified`; without a clock nothing is recorded. */
    method RecordVerified(key: Key, now: Option<nat>) returns (ok: bool)
      modifies this, file
      ensures path == old(path) && entries == if now.Some? then Recorded(old(entries), key, now.value) else old(entries)
      ensures file.content == old(file.content) || (path && file.content == Some(entries))
    {
      if now.None? { return false; }
      entries := Recorded(entries, key, now.value);
      ok := Persist();
    }

    /** `record_cache_hit` on the entry found. */
    method RecordHit(i: nat, now: Option<nat>) returns (ok: bool)
      requires i < |entries|
      modifies this, file
      ensures path == old(path) && entries == if now.Some? then Seen(old(entries), i, now.value) else old(entries)
      ensures file.content == old(file.content) || (path && file.content == Some(entries))
    {
      if now.None? { return false; }
      entries := Seen(entries, i, now.value);
      ok := Persist();
    }

    /**
     `validate_attestation` once the protocol version is accepted. `claims` is what a
     full verification of the token would return.
     */
    method Validate(cfg: Config, transport: Transport, fingerprint: string, claims: Option<Claims>, now: Option<nat>)
      returns (verdict: Verdict)
      modifies this, file
      ensures (entries, verdict) == Checked(old(entries), cfg, transport, fingerprint, claims, now)
      ensures verdict.Cached? <==> Recognised(old(entries), cfg, transport, fingerprint)
      ensures verdict.FullyVerified? <==>
                && !Recognised(old(entries), cfg, transport, fingerprint)
                && claims.Some? && IssuedFor(claims.value, cfg, transport)
      ensures path == old(path) && (file.content == old(file.content) || (path && file.content == Some(entries)))
    {
      VerdictIff(entries, cfg, transport, fingerprint, claims, now);
      var i := Lookup(cfg, transport, fingerprint);
      if i.Some? {
        var _ := RecordHit(i.value, now);
        return Cached;
      }
      if claims.None? || !Attests(claims.value, cfg, transport) { return Rejected; }
      var _ := RecordVerified(KeyOf(claims.value, cfg, fingerprint), now);
      return FullyVerified;
    }
  }

  // ---------------------------------------------------------------------------
  // Many processes
  // ---------------------------------------------------------------------------

  datatype Process = Process(path: bool, entries: seq<Entry>, dirty: bool)

  /** A token was verified, or a connection was accepted. */
  datatype Event =
    | Verified(claims: Claims, fingerprint: string)
    | Accepted(cfg: Config, transport: Transport, fingerprint: string)

  datatype State = State(file: Option<seq<Entry>>, processes: seq<Process>, history: seq<Event>)

  /**
   A process starts and loads; it checks a connection; it writes its snapshot. What
   the file, the clock and the token service do is part of the action.
   */
  datatype Step =
    | Load(readable: bool)
    | Check(p: nat, cfg: Config, transport: Transport, fingerprint: string, claims: Option<Claims>, now: Option<nat>)
    | Persist(p: nat, written: bool)

  const INIT: State := State(None, [], [])

  function Do(s: State, step: Step): State {
    match step
    case Load(readable) =>
      s.(processes := s.processes + [Process(readable, if readable && s.file.Some? then s.file.value else [], false)])
    case Persist(p, written) =>
      if p < |s.processes| && s.processes[p].dirty then
        var q := s.processes[p];
        s.(file := if q.path && written then Some(q.entries) else s.file,
           processes := s.processes[p := q.(dirty := false)])
      else s
    case Check(p, cfg, transport, fingerprint, claims, now) =>
      if p < |s.processes| then DoCheck(s, p, cfg, transport, fingerprint, claims, now) else s
  }

  function DoCheck(s: State, p: nat, cfg: Config, transport: Transport, fingerprint: string,
                   claims: Option<Claims>, now: Option<nat>): State
    requires p < |s.processes|
  {
    var q := s.processes[p];
    var (entries, verdict) := Checked(q.entries, cfg, transport, fingerprint, claims, now);
    var events :=
      match verdict
      case Rejected => []
      case Cached => [Accepted(cfg, transport, fingerprint)]
      case FullyVerified => [Verified(claims.value, fingerprint), Accepted(cfg, transport, fingerprint)];
    var dirty := q.dirty || (now.Some? && !verdict.Rejected?);
    s.(processes := s.processes[p := Process(q.path, entries, dirty)], history := s.history + events)
  }

  function Run(steps: seq<Step>): State {
    if steps == [] then INIT else Do(Run(steps[..|steps| - 1]), steps[|steps| - 1])
  }

  /** The verification vouches for connections with this configuration. */
  predicate Vouches(e: Event, cfg: Config, transport: Transport, fingerprint: string) {
    && e.Verified? && e.fingerprint == fingerprint
    && e.claims.issuer == "https://oidc.fly.io/" + cfg.org && e.claims.appName == cfg.app
    && (transport.Direct? || e.claims.machineId == transport.machineId)
  }

  /** Some verification in the history has this key. */
  ghost predicate Known(history: seq<Event>, key: Key) {
    exists e :: e in history && e.Verified? && e.fingerprint == key.fingerprint &&
                e.claims == Claims("https://oidc.fly.io/" + key.org, key.app, key.machineId)
  }

  ghost predicate Sound(history: seq<Event>, entries: seq<Entry>) {
    UniqueKeys(entries) && forall e :: e in entries ==> Known(history, e.key)
  }

  /** Every acceptance has a verification before it that vouches for it. */
  ghost predicate Justified(history: seq<Event>) {
    forall i :: 0 <= i < |history| && history[i].Accepted? ==>
      exists j :: 0 <= j < i && Vouches(history[j], history[i].cfg, history[i].transport, history[i].fingerprint)
  }

  ghost predicate Inv(s: State) {
    && Justified(s.history)
    && (s.file.Some? ==> Sound(s.history, s.file.value))
    && (forall p :: 0 <= p < |s.processes| ==> Sound(s.history, s.processes[p].entries))
  }

  lemma SoundLater(history: seq<Event>, more: seq<Event>, entries: seq<Entry>)
    requires Sound(history, entries)
    ensures Sound(history + more, entries)
  {
    forall e | e in entries ensures Known(history + more, e.key) {
      assert Known(history, e.key);
      var v :| v in history && v.Verified? && v.fingerprint == e.key.fingerprint &&
               v.claims == Claims("https://oidc.fly.io/" + e.key.org, e.key.app, e.key.machineId);
      assert v in history + more;
    }
  }

  lemma JustifiedLater(history: seq<Event>, e: Event)
    requires Justified(history)
    requires e.Accepted? ==> exists j :: 0 <= j < |history| && Vouches(history[j], e.cfg, e.transport, e.fingerprint)
    ensures Justified(history + [e])
  {
    var history' := history + [e];
    forall i | 0 <= i < |history'| && history'[i].Accepted?
      ensures exists j :: 0 <= j < i
                && Vouches(history'[j], history'[i].cfg, history'[i].transport, history'[i].fingerprint)
    {
      var j :| 0 <= j < i && j < |history| && Vouches(history[j], history'[i].cfg, history'[i].transport,
          history'[i].fingerprint);
      assert history'[j] == history[j];
    }
  }

  lemma HitIsVouched(history: seq<Event>, key: Key, cfg: Config, transport: Transport, fingerprint: string)
    requires Known(history, key) && Matches(key, cfg, transport, fingerprint)
    ensures exists j :: 0 <= j < |history| && Vouches(history[j], cfg, transport, fingerprint)
  {
    var v :| v in history && v.Verified? && v.fingerprint == key.fingerprint &&
             v.claims == Claims("https://oidc.fly.io/" + key.org, key.app, key.machineId);
    var j :| 0 <= j < |history| && history[j] == v;
    assert Vouches(history[j], cfg, transport, fingerprint);
  }

  lemma RecordedIsSound(history: seq<Event>, entries: seq<Entry>, claims: Claims, cfg: Config,
                        transport: Transport, fingerprint: string, now: nat)
    requires Sound(history, entries) && Attests(claims, cfg, transport) && Verified(claims, fingerprint) in history
    ensures Sound(history, Recorded(entries, KeyOf(claims, cfg, fingerprint), now))
  {
    var key := KeyOf(claims, cfg, fingerprint);
    RecordedKeys(entries, key, now);
    assert Known(history, key);
    forall e | e in Recorded(entries, key, now) ensures Known(history, e.key) {
      assert e.key in Keys(entries) + {key};
    }
  }

  lemma SeenIsSound(history: seq<Event>, entries: seq<Entry>, i: nat, now: nat)
    requires Sound(history, entries) && i < |entries|
    ensures Sound(history, Seen(entries, i, now))
  {
    SameKeys(entries, i, entries[i].(lastSeenAt := now));
    forall e | e in Seen(entries, i, now) ensures Known(history, e.key) {
      assert e.key in Keys(entries);
    }
  }

  lemma CheckKeeps(s: State, p: nat, cfg: Config, transport: Transport, fingerprint: string,
                   claims: Option<Claims>, now: Option<nat>)
    requires Inv(s) && p < |s.processes|
    ensures Inv(DoCheck(s, p, cfg, transport, fingerprint, claims, now))
  {
    var q := s.processes[p];
    var i := Find(q.entries, key => Matches(key, cfg, transport, fingerprint));
    var s' := DoCheck(s, p, cfg, transport, fingerprint, claims, now);
    var accepted := Accepted(cfg, transport, fingerprint);
    if i < |q.entries| {
      HitIsVouched(s.history, q.entries[i].key, cfg, transport, fingerprint);
      JustifiedLater(s.history, accepted);
      if now.Some? { SeenIsSound(s.history, q.entries, i, now.value); }
      AllLater(s, s'.processes, [accepted]);
    } else if claims.Some? && Attests(claims.value, cfg, transport) {
      var verified := Verified(claims.value, fingerprint);
      JustifiedLater(s.history, verified);
      assert Vouches((s.history + [verified])[|s.history|], cfg, transport, fingerprint);
      JustifiedLater(s.history + [verified], accepted);
      assert s.history + [verified] + [accepted] == s.history + [verified, accepted];
      AllLater(s, s.processes, [verified, accepted]);
      if now.Some? {
        RecordedIsSound(s'.history, q.entries, claims.value, cfg, transport, fingerprint, now.value);
      }
    } else {
      assert s.history + [] == s.history;
    }
  }

  lemma AllLater(s: State, processes: seq<Process>, more: seq<Event>)
    requires s.file.Some? ==> Sound(s.history, s.file.value)
    requires forall p :: 0 <= p < |processes| ==> Sound(s.history, processes[p].entries)
    ensures s.file.Some? ==> Sound(s.history + more, s.file.value)
    ensures forall p :: 0 <= p < |processes| ==> Sound(s.history + more, processes[p].entries)
  {
    if s.file.Some? { SoundLater(s.history, more, s.file.value); }
    forall p | 0 <= p < |processes| ensures Sound(s.history + more, processes[p].entries) {
      SoundLater(s.history, more, processes[p].entries);
    }
  }

  lemma {:induction false} RunKeeps(steps: seq<Step>)
    ensures Inv(Run(steps))
  {
    if steps != [] {
      var s, step := Run(steps[..|steps| - 1]), steps[|steps| - 1];
      RunKeeps(steps[..|steps| - 1]);
      if step.Check? && step.p < |s.processes| {
        CheckKeeps(s, step.p, step.cfg, step.transport, step.fingerprint, step.claims, step.now);
      }
    }
  }

  /**
   Whatever the processes do, no connection is accepted without an earlier full
   verification of the same organisation, application and certificate, and of the
   configured machine behind a proxy.
   */
  lemma EveryAcceptanceWasVerified(steps: seq<Step>, i: nat)
    requires i < |Run(steps).history| && Run(steps).history[i].Accepted?
    ensures var accepted := Run(steps).history[i];
            exists j :: 0 <= j < i && Vouches(Run(steps).history[j], accepted.cfg, accepted.transport,
                accepted.fingerprint)
  {
    RunKeeps(steps);
  }

  /** No snapshot, on disk or in memory, ever holds two entries for one key. */
  lemma KeysStayUnique(steps: seq<Step>, p: nat)
    ensures var s := Run(steps);
            (s.file.Some? ==> UniqueKeys(s.file.value)) && (p < |s.processes| ==> UniqueKeys(s.processes[p].entries))
  {
    RunKeeps(steps);
  }
}
