/**
 Creating the machines of a tenant (crates/admin/src/tenant.rs:33-318): volumes for
 the mounts that name one, then the machines, then the wait for them to start. A
 failure at any point is compensated by deleting what was created.
 */
module Tenant {
  import opened Prelude
  import opened MachineConfig

  // ---------------------------------------------------------------------------
  // The provider
  // ---------------------------------------------------------------------------

  datatype Machine = Machine(id: string, region: Option<string>, config: Json)
  datatype Volume = Volume(id: string, name: string, region: string, sizeGb: nat)

  /**
   The creations that were acknowledged, the machines seen to have started, and the
   deletes that were issued, in order. `late` records a machine deleted after a volume.
   */
  datatype Ledger = Ledger(
    machines: seq<Machine>,
    volumes: seq<Volume>,
    started: seq<string>,
    machineDeletes: seq<string>,
    volumeDeletes: seq<string>,
    late: bool)

  datatype Reply = Applied | Refused(status: nat) | Unreachable

  datatype Action = Stop | DeleteMachine | DeleteVolume
  datatype Disposition = AlreadyApplied | Retryable | Fatal

  /** `classify_machine_action_error`, with `None` for an error that is not a reply of the API. */
  function Classify(action: Action, status: Option<nat>): Disposition {
    match status
    case None => Fatal
    case Some(code) =>
      if code in {408, 429, 500, 502, 503, 504} then Retryable
      else if code == 404 then AlreadyApplied
      else if code in {409, 422} && action.Stop? then AlreadyApplied
      else Fatal
  }

  /** A delete counts as done if it was applied or there was nothing to delete. */
  predicate Gone(action: Action, reply: Reply) {
    match reply
    case Applied => true
    case Refused(code) => Classify(action, Some(code)).AlreadyApplied?
    case Unreachable => Classify(action, None).AlreadyApplied?
  }

  /** Conflicts do not count as deletions: the only refusal that does is "not found". */
  lemma GoneIff(action: Action, reply: Reply)
    requires !action.Stop?
    ensures Gone(action, reply) <==> reply.Applied? || reply == Refused(404)
  {
  }

  function VolumeIds(volumes: seq<Volume>): seq<string> {
    if volumes == [] then [] else VolumeIds(volumes[..|volumes| - 1]) + [volumes[|volumes| - 1].id]
  }

  ghost function MachineIds(machines: seq<Machine>): seq<string> {
    if machines == [] then [] else MachineIds(machines[..|machines| - 1]) + [machines[|machines| - 1].id]
  }

  /** What a client asks for: the rest of a request is passed on as it is. */
  datatype Request = Request(region: Option<string>, config: Json)

  function MachineOf(id: string, request: Request): Machine { Machine(id, request.region, request.config) }

  class Provider {
    /** A creation that is not acknowledged has not happened. */
    const reliable: bool
    var machines: set<string>
    var volumes: set<string>
    ghost var ledger: Ledger
    /** The deletes that were neither applied nor answered with "not found", in order. */
    ghost var refused: seq<string>
    /** How many creations and waits were not acknowledged. */
    ghost var denied: nat

    method CreateVolume(name: string, region: string, sizeGb: nat) returns (volume: Option<Volume>)
      modifies this`volumes, this`ledger, this`denied
      ensures denied == old(denied) + if volume.None? then 1 else 0
      ensures volume.None? ==> ledger == old(ledger) && (reliable ==> volumes == old(volumes))
      ensures volume.Some? ==>
                && volume.value == Volume(volume.value.id, name, region, sizeGb)
                && volume.value.id !in old(volumes) && volumes == old(volumes) + {volume.value.id}
                && ledger == old(ledger).(volumes := old(ledger.volumes) + [volume.value])
    {
      var id: string, ok: bool, applied: bool := *, *, *;
      volume := if ok && id !in volumes then Some(Volume(id, name, region, sizeGb)) else None;
      if volume.Some? {
        ledger := ledger.(volumes := ledger.volumes + [volume.value]);
      } else {
        denied := denied + 1;
      }
      if volume.Some? || (applied && !reliable) {
        volumes := volumes + {id};
      }
    }

    method CreateMachine(request: Request) returns (machine: Option<string>)
      modifies this`machines, this`ledger, this`denied
      ensures denied == old(denied) + if machine.None? then 1 else 0
      ensures machine.None? ==> ledger == old(ledger) && (reliable ==> machines == old(machines))
      ensures machine.Some? ==>
                && machine.value !in old(machines) && machines == old(machines) + {machine.value}
                && ledger == old(ledger).(machines := old(ledger.machines) + [MachineOf(machine.value, request)])
    {
      var id: string, ok: bool, applied: bool := *, *, *;
      machine := if ok && id !in machines then Some(id) else None;
      if machine.Some? {
        ledger := ledger.(machines := ledger.machines + [MachineOf(id, request)]);
      } else {
        denied := denied + 1;
      }
      if machine.Some? || (applied && !reliable) {
        machines := machines + {id};
      }
    }

    /** `wait_for_state` with the state "started". */
    method WaitStarted(id: string) returns (ok: bool)
      modifies this`ledger, this`denied
      ensures denied == old(denied) + if ok then 0 else 1
      ensures ledger == if ok then old(ledger).(started := old(ledger.started) + [id]) else old(ledger)
    {
      ok := *;
      if ok {
        ledger := ledger.(started := ledger.started + [id]);
      } else {
        denied := denied + 1;
      }
    }

    method DeleteMachine(id: string) returns (reply: Reply)
      modifies this`machines, this`ledger, this`refused
      ensures machines == old(machines) || machines == old(machines) - {id}
      ensures refused == if reply.Applied? || reply == Refused(404) then old(refused) else old(refused) + [id]
      ensures reply.Applied? || reply == Refused(404) ==> machines == old(machines) - {id}
      ensures ledger == old(ledger).(machineDeletes := old(ledger.machineDeletes) + [id],
                                     late := old(ledger.late) || old(ledger.volumeDeletes) != [])
    {
      var applied: bool;
      reply, applied := *, *;
      if reply.Applied? || reply == Refused(404) || applied {
        machines := machines - {id};
      }
      ledger := ledger.(machineDeletes := ledger.machineDeletes + [id],
          late := ledger.late || ledger.volumeDeletes != []);
      if !reply.Applied? && reply != Refused(404) {
        refused := refused + [id];
      }
    }

    method DeleteVolume(id: string) returns (reply: Reply)
      modifies this`volumes, this`ledger, this`refused
      ensures volumes == old(volumes) || volumes == old(volumes) - {id}
      ensures refused == if reply.Applied? || reply == Refused(404) then old(refused) else old(refused) + [id]
      ensures reply.Applied? || reply == Refused(404) ==> volumes == old(volumes) - {id}
      ensures ledger == old(ledger).(volumeDeletes := old(ledger.volumeDeletes) + [id])
    {
      var applied: bool;
      reply, applied := *, *;
      if reply.Applied? || reply == Refused(404) || applied {
        volumes := volumes - {id};
      }
      ledger := ledger.(volumeDeletes := ledger.volumeDeletes + [id]);
      if !reply.Applied? && reply != Refused(404) {
        refused := refused + [id];
      }
    }
  }

  // ---------------------------------------------------------------------------
  // Compensation
  // ---------------------------------------------------------------------------

  /** What was there is there, and what is there besides is among the given ids. */
  ghost predicate LeftOver(before: set<string>, after: set<string>, ids: seq<string>) {
    before <= after <= before + Elements(ids)
  }

  lemma LeftOverStep(before: set<string>, ids: seq<string>, k: nat, after: set<string>, after': set<string>,
                     errors: seq<string>, errors': seq<string>)
    requires k < |ids| && LeftOver(before - Elements(ids[..k]), after, errors)
    requires after' == after - {ids[k]} || (after' == after && errors' == errors + [ids[k]])
    requires errors' == errors || errors' == errors + [ids[k]]
    ensures LeftOver(before - Elements(ids[..k + 1]), after', errors')
  {
    TakeMore(ids, k);
    assert Elements(ids[..k + 1]) == Elements(ids[..k]) + {ids[k]};
    assert Elements(errors + [ids[k]]) == Elements(errors) + {ids[k]};
  }

  /**
   One delete per machine, in order, whatever happens to the ones before. The errors are
   exactly the deletes that were refused, and no other machine of these is left.
   */
  method CleanupMachines(client: Provider, ids: seq<string>) returns (errors: seq<string>)
    requires client.ledger.volumeDeletes == []
    modifies client`machines, client`ledger, client`refused
    ensures client.ledger == old(client.ledger).(machineDeletes := old(client.ledger.machineDeletes) + ids)
    ensures client.refused == old(client.refused) + errors && |errors| <= |ids|
    ensures LeftOver(old(client.machines) - Elements(ids), client.machines, errors)
  {
    errors := [];
    for k := 0 to |ids|
      invariant client.ledger == old(client.ledger).(machineDeletes := old(client.ledger.machineDeletes) + ids[..k])
      invariant client.refused == old(client.refused) + errors && |errors| <= k
      invariant LeftOver(old(client.machines) - Elements(ids[..k]), client.machines, errors)
    {
      ghost var before, failed := client.machines, errors;
      var reply := client.DeleteMachine(ids[k]);
      GoneIff(Action.DeleteMachine, reply);
      TakeMore(ids, k);
      if !Gone(Action.DeleteMachine, reply) {
        errors := errors + [ids[k]];
      }
      LeftOverStep(old(client.machines), ids, k, before, client.machines, failed, errors);
    }
    WholeSlice(ids);
  }

  method CleanupVolumes(client: Provider, ids: seq<string>) returns (errors: seq<string>)
    modifies client`volumes, client`ledger, client`refused
    ensures client.ledger == old(client.ledger).(volumeDeletes := old(client.ledger.volumeDeletes) + ids)
    ensures client.refused == old(client.refused) + errors && |errors| <= |ids|
    ensures LeftOver(old(client.volumes) - Elements(ids), client.volumes, errors)
  {
    errors := [];
    for k := 0 to |ids|
      invariant client.ledger == old(client.ledger).(volumeDeletes := old(client.ledger.volumeDeletes) + ids[..k])
      invariant client.refused == old(client.refused) + errors && |errors| <= k
      invariant LeftOver(old(client.volumes) - Elements(ids[..k]), client.volumes, errors)
    {
      ghost var before, failed := client.volumes, errors;
      var reply := client.DeleteVolume(ids[k]);
      GoneIff(Action.DeleteVolume, reply);
      TakeMore(ids, k);
      if !Gone(Action.DeleteVolume, reply) {
        errors := errors + [ids[k]];
      }
      LeftOverStep(old(client.volumes), ids, k, before, client.volumes, failed, errors);
    }
    WholeSlice(ids);
  }

  // ---------------------------------------------------------------------------
  // Mounts
  // ---------------------------------------------------------------------------

  const DEFAULT_VOLUME_SIZE_GIB: nat := 30

  /** Unicode White_Space. */
  predicate IsWhitespace(c: char) {
    || '\U{0009}' <= c <= '\U{000D}' || c == ' ' || c == '\U{0085}' || c == '\U{00A0}' || c == '\U{1680}'
    || '\U{2000}' <= c <= '\U{200A}' || c == '\U{2028}' || c == '\U{2029}' || c == '\U{202F}' || c == '\U{205F}'
    || c == '\U{3000}'
  }

  function TrimStart(s: string): string {
    if s != [] && IsWhitespace(s[0]) then TrimStart(s[1..]) else s
  }

  function TrimEnd(s: string): string {
    if s != [] && IsWhitespace(s[|s| - 1]) then TrimEnd(s[..|s| - 1]) else s
  }

  function Trim(s: string): string { TrimEnd(TrimStart(s)) }

  predicate Blank(s: string) { forall i :: 0 <= i < |s| ==> IsWhitespace(s[i]) }

  /** `t` is `s` without the white space around it. */
  ghost predicate Trimmed(s: string, t: string) {
    && (exists p, q :: 0 <= p <= q <= |s| && t == s[p..q] && Blank(s[..p]) && Blank(s[q..]))
    && (t != [] ==> !IsWhitespace(t[0]) && !IsWhitespace(t[|t| - 1]))
  }

  lemma BlankBoth(a: string, b: string)
    ensures Blank(a + b) <==> Blank(a) && Blank(b)
  {
    if Blank(a + b) {
      forall i | 0 <= i < |a| ensures IsWhitespace(a[i]) { assert a[i] == (a + b)[i]; }
      forall i | 0 <= i < |b| ensures IsWhitespace(b[i]) { assert b[i] == (a + b)[|a| + i]; }
    }
  }

  lemma {:induction false} TrimmedStart(s: string) returns (p: nat)
    ensures p <= |s| && TrimStart(s) == s[p..] && Blank(s[..p]) && (p < |s| ==> !IsWhitespace(s[p]))
  {
    if s != [] && IsWhitespace(s[0]) {
      var rest := s[1..];
      var q := TrimmedStart(rest);
      p := q + 1;
      assert rest[q..] == s[p..];
      assert s[..p] == [s[0]] + rest[..q];
      BlankBoth([s[0]], rest[..q]);
    } else {
      p := 0;
    }
  }

  lemma {:induction false} TrimmedEnd(s: string) returns (q: nat)
    ensures q <= |s| && TrimEnd(s) == s[..q] && Blank(s[q..]) && (q > 0 ==> !IsWhitespace(s[q - 1]))
  {
    if s != [] && IsWhitespace(s[|s| - 1]) {
      var n := |s| - 1;
      var rest := s[..n];
      q := TrimmedEnd(rest);
      assert rest[..q] == s[..q];
      assert s[q..] == rest[q..] + [s[n]];
      BlankBoth(rest[q..], [s[n]]);
    } else {
      q := |s|;
      WholeSlice(s);
    }
  }

  /** Trimming removes the white space around a string, and nothing is left exactly if there is nothing else. */
  lemma TrimIsTrimmed(s: string)
    ensures Trimmed(s, Trim(s)) && (Trim(s) == [] <==> Blank(s))
  {
    var p := TrimmedStart(s);
    var q := TrimmedEnd(s[p..]);
    assert s[p..][..q] == s[p..p + q] && s[p..][q..] == s[p + q..];
    assert Trim(s) == s[p..p + q];
    if q > 0 {
      assert Trim(s)[0] == s[p] && Trim(s)[q - 1] == s[p..][q - 1];
      assert !IsWhitespace(s[p]);
    } else {
      assert s == s[..p] + s[p..];
    }
  }

  /** The mount has a string at `key` that is more than white space. */
  ghost predicate Gives(m: Json, key: string) {
    m.Obj? && key in m.fields && m.fields[key].Str? && !Blank(m.fields[key].s)
  }

  /** The trimmed string at `key`, if there is one that is not blank. */
  function Text(m: Json, key: string): Option<string> {
    if m.Obj? && key in m.fields && m.fields[key].Str? && Trim(m.fields[key].s) != [] then
      Some(Trim(m.fields[key].s))
    else
      None
  }

  lemma TextIff(m: Json, key: string)
    ensures Text(m, key).Some? <==> Gives(m, key)
    ensures Text(m, key).Some? ==> Trimmed(m.fields[key].s, Text(m, key).value) && Text(m, key).value != []
  {
    if m.Obj? && key in m.fields && m.fields[key].Str? { TrimIsTrimmed(m.fields[key].s); }
  }

  /** A mount that gives only the name of its volume. */
  predicate NameOnly(m: Json) { Text(m, "volume").None? && Text(m, "name").Some? }

  /** A mount that gives neither, or is not an object. */
  predicate Malformed(m: Json) { Text(m, "volume").None? && Text(m, "name").None? }

  /** Which mounts get a volume, and which make a request invalid. */
  lemma MountIff(m: Json)
    ensures NameOnly(m) <==> !Gives(m, "volume") && Gives(m, "name")
    ensures Malformed(m) <==> !Gives(m, "volume") && !Gives(m, "name")
  {
    TextIff(m, "volume");
    TextIff(m, "name");
  }

  /** `size_gb` as the request carries it: the low 32 bits of the number given. */
  function SizeOf(m: Json): nat {
    if m.Obj? && "size_gb" in m.fields && m.fields["size_gb"].Num? && 0 <= m.fields["size_gb"].n <= U64_MAX
    then m.fields["size_gb"].n % U32_LIMIT
    else DEFAULT_VOLUME_SIZE_GIB
  }

  function WithVolume(m: Json, volume: string): Json
    requires m.Obj?
  {
    Obj(m.fields["volume" := Str(volume)])
  }

  /** The size of the volume for a mount: the low 32 bits of an unsigned 64-bit `size_gb`, or 30. */
  ghost predicate Sized(m: Json, size: nat)
    requires m.Obj?
  {
    var key := "size_gb";
    var given := key in m.fields && m.fields[key].Num? && 0 <= m.fields[key].n <= 0xFFFF_FFFF_FFFF_FFFF;
    (given ==> size == m.fields[key].n % 0x1_0000_0000) && (!given ==> size == 30)
  }

  /** The field `volume` is the given one, and every other field is as it was. */
  ghost predicate VolumeSet(m: Json, m': Json, volume: string) {
    && m.Obj? && m'.Obj? && m'.fields.Keys == m.fields.Keys + {"volume"} && m'.fields["volume"] == Str(volume)
    && forall k :: k in m.fields && k != "volume" ==> m'.fields[k] == m.fields[k]
  }

  /** The mount has `v` for its volume, which has the trimmed name, the size and the region asked for. */
  ghost predicate OwnVolume(m: Json, m': Json, v: Volume, region: string) {
    && VolumeSet(m, m', v.id) && "name" in m.fields && m.fields["name"].Str?
    && Trimmed(m.fields["name"].s, v.name) && v.name != [] && v.region == region && Sized(m, v.sizeGb)
  }

  lemma HasOwnVolume(m: Json, v: Volume, region: string)
    requires NameOnly(m) && v == Volume(v.id, Text(m, "name").value, region, SizeOf(m))
    ensures OwnVolume(m, WithVolume(m, v.id), v, region)
  {
    TextIff(m, "name");
  }

  /** `pending` lists the name-only mounts in order. */
  ghost predicate Pending(mounts: seq<Json>, pending: seq<nat>) {
    && (forall q :: 0 <= q < |pending| ==> pending[q] < |mounts| && NameOnly(mounts[pending[q]]))
    && (forall p, q :: 0 <= p < q < |pending| ==> pending[p] < pending[q])
    && (forall i :: 0 <= i < |mounts| && NameOnly(mounts[i]) ==> i in pending)
  }

  function NameOnlyIndices(mounts: seq<Json>): seq<nat> {
    if mounts == [] then []
    else
      var n := |mounts| - 1;
      NameOnlyIndices(mounts[..n]) + if NameOnly(mounts[n]) then [n] else []
  }

  lemma PendingOneMore(mounts: seq<Json>, pending: seq<nat>, m: Json)
    requires Pending(mounts, pending)
    ensures Pending(mounts + [m], pending + if NameOnly(m) then [|mounts|] else [])
  {
    var mounts', pending' := mounts + [m], pending + if NameOnly(m) then [|mounts|] else [];
    forall i | 0 <= i < |mounts'| && NameOnly(mounts'[i]) ensures i in pending' {
      if i < |mounts| {
        assert NameOnly(mounts[i]);
        assert i in pending;
      } else {
        assert pending'[|pending|] == i;
      }
    }
  }

  lemma {:induction false} IndicesArePending(mounts: seq<Json>)
    ensures Pending(mounts, NameOnlyIndices(mounts))
  {
    if mounts != [] {
      var n := |mounts| - 1;
      IndicesArePending(mounts[..n]);
      PendingOneMore(mounts[..n], NameOnlyIndices(mounts[..n]), mounts[n]);
      assert mounts == mounts[..n] + [mounts[n]];
    }
  }

  /** The first loop: every mount must say what it mounts. */
  method FindPending(mounts: seq<Json>) returns (ok: bool, pending: seq<nat>)
    ensures ok <==> forall i :: 0 <= i < |mounts| ==> !Malformed(mounts[i])
    ensures ok ==> pending == NameOnlyIndices(mounts)
  {
    pending := [];
    for i := 0 to |mounts|
      invariant forall j :: 0 <= j < i ==> !Malformed(mounts[j])
      invariant pending == NameOnlyIndices(mounts[..i])
    {
      if Malformed(mounts[i]) { return false, pending; }
      TakeMore(mounts, i);
      Appended(mounts[..i], mounts[i]);
      if NameOnly(mounts[i]) {
        pending := pending + [i];
      }
    }
    WholeSlice(mounts);
    ok := true;
  }

  /** The first mounts of `pending` have the given volumes, made to order; the other mounts are as before. */
  ghost predicate Filled(mounts: seq<Json>, mounts': seq<Json>, pending: seq<nat>, region: string, volumes: seq<Volume>)
    requires Pending(mounts, pending)
  {
    && |mounts'| == |mounts| && |volumes| <= |pending|
    && (forall q :: 0 <= q < |volumes| ==>
          var m := mounts[pending[q]];
          volumes[q] == Volume(volumes[q].id, Text(m, "name").value, region, SizeOf(m)) &&
          mounts'[pending[q]] == WithVolume(m, volumes[q].id))
    && (forall i :: 0 <= i < |mounts| && i !in pending[..|volumes|] ==> mounts'[i] == mounts[i])
  }

  /** Every mount of `pending` has its own of the volumes, and the other mounts are as before. */
  ghost predicate Owned(mounts: seq<Json>, mounts': seq<Json>, pending: seq<nat>, region: string, volumes: seq<Volume>)
    requires Pending(mounts, pending)
  {
    && |mounts'| == |mounts| && |volumes| == |pending|
    && (forall q :: 0 <= q < |pending| ==> OwnVolume(mounts[pending[q]], mounts'[pending[q]], volumes[q], region))
    && (forall i :: 0 <= i < |mounts| && i !in pending ==> mounts'[i] == mounts[i])
  }

  lemma FilledIsOwned(mounts: seq<Json>, mounts': seq<Json>, pending: seq<nat>, region: string, volumes: seq<Volume>)
    requires Pending(mounts, pending) && Filled(mounts, mounts', pending, region, volumes) && |volumes| == |pending|
    ensures Owned(mounts, mounts', pending, region, volumes)
  {
    WholeSlice(pending);
    forall q | 0 <= q < |pending| ensures OwnVolume(mounts[pending[q]], mounts'[pending[q]], volumes[q], region) {
      HasOwnVolume(mounts[pending[q]], volumes[q], region);
    }
  }

  ghost predicate Fresh(volumes: seq<Volume>, taken: set<string>) {
    && (forall q :: 0 <= q < |volumes| ==> volumes[q].id !in taken)
    && (forall p, q :: 0 <= p < q < |volumes| ==> volumes[p].id != volumes[q].id)
  }

  lemma FillOne(mounts: seq<Json>, mounts': seq<Json>, pending: seq<nat>, region: string, volumes: seq<Volume>,
                v: Volume)
    requires Pending(mounts, pending) && |volumes| < |pending| && Filled(mounts, mounts', pending, region, volumes)
    requires var m := mounts[pending[|volumes|]]; v == Volume(v.id, Text(m, "name").value, region, SizeOf(m))
    ensures mounts'[pending[|volumes|]] == mounts[pending[|volumes|]]
    ensures Filled(mounts, mounts'[pending[|volumes|] := WithVolume(mounts[pending[|volumes|]], v.id)], pending,
            region, volumes + [v])
  {
    var k := |volumes|;
    assert pending[..k + 1] == pending[..k] + [pending[k]];
    assert forall q :: 0 <= q < k ==> pending[q] != pending[k];
    assert pending[k] !in pending[..k];
  }

  /** Volumes made since the given state, if any call that fails has no effect. */
  ghost predicate Added(volumes0: set<string>, volumes': set<string>, made: seq<Volume>) {
    Fresh(made, volumes0) && volumes' == volumes0 + Elements(VolumeIds(made))
  }

  lemma AddOne(volumes0: set<string>, volumes: set<string>, made: seq<Volume>, v: Volume)
    requires Added(volumes0, volumes, made) && v.id !in volumes
    ensures Added(volumes0, volumes + {v.id}, made + [v])
    ensures VolumeIds(made + [v]) == VolumeIds(made) + [v.id]
  {
    assert (made + [v])[..|made|] == made;
    assert forall q :: 0 <= q < |made| ==> made[q].id in Elements(VolumeIds(made)) by {
      forall q | 0 <= q < |made| ensures made[q].id in Elements(VolumeIds(made)) { IdListed(made, q); }
    }
  }

  lemma {:induction false} IdListed(made: seq<Volume>, q: nat)
    requires q < |made|
    ensures |VolumeIds(made)| == |made| && VolumeIds(made)[q] == made[q].id
  {
    var n := |made| - 1;
    if q < n {
      IdListed(made[..n], q);
    } else if n > 0 {
      IdListed(made[..n], 0);
    }
  }

  lemma RemovedAll(volumes0: set<string>, volumes: set<string>, made: seq<Volume>)
    requires Added(volumes0, volumes, made)
    ensures volumes - Elements(VolumeIds(made)) == volumes0
  {
    forall id | id in Elements(VolumeIds(made)) ensures id !in volumes0 {
      var q :| 0 <= q < |VolumeIds(made)| && VolumeIds(made)[q] == id;
      IdsAndVolumes(made);
      IdListed(made, q);
    }
  }

  lemma {:induction false} IdsAndVolumes(made: seq<Volume>)
    ensures |VolumeIds(made)| == |made|
  {
    if made != [] { IdsAndVolumes(made[..|made| - 1]); }
  }

  /** `made` are volumes for the first name-only mounts, new since `volumes0`. */
  ghost predicate Filling(mounts: seq<Json>, mounts': seq<Json>, pending: seq<nat>, region: string, made: seq<Volume>,
                          volumes0: set<string>, volumes: set<string>) {
    Pending(mounts, pending) && Filled(mounts, mounts', pending, region, made) && Added(volumes0, volumes, made)
  }

  lemma FillNext(mounts: seq<Json>, mounts': seq<Json>, pending: seq<nat>, region: string, made: seq<Volume>,
                 volumes0: set<string>, volumes: set<string>, v: Volume)
    requires Filling(mounts, mounts', pending, region, made, volumes0, volumes) && |made| < |pending|
    requires
      var m := mounts[pending[|made|]];
      v == Volume(v.id, Text(m, "name").value, region, SizeOf(m)) && v.id !in volumes
    ensures Filling(mounts, mounts'[pending[|made|] := WithVolume(mounts[pending[|made|]], v.id)], pending, region,
                    made + [v], volumes0, volumes + {v.id})
  {
    FillOne(mounts, mounts', pending, region, made, v);
    AddOne(volumes0, volumes, made, v);
  }

  lemma AppendOne(a: seq<Volume>, b: seq<Volume>, v: Volume)
    ensures a + (b + [v]) == a + b + [v]
  {
  }

  /** The second loop. A creation that fails undoes the ones before it. */
  method FillMounts(client: Provider, mounts: seq<Json>, pending: seq<nat>, region: string)
    returns (ok: bool, mounts': seq<Json>, made: seq<Volume>, errors: seq<string>)
    requires Pending(mounts, pending)
    modifies client`volumes, client`ledger, client`refused, client`denied
    ensures ok <==> client.denied == old(client.denied)
    ensures client.denied >= old(client.denied)
    ensures client.refused == old(client.refused) + errors && (ok ==> errors == [])
    ensures ok ==> Owned(mounts, mounts', pending, region, made) && Added(old(client.volumes), client.volumes, made)
    ensures ok ==> client.ledger == old(client.ledger).(volumes := old(client.ledger.volumes) + made)
    ensures !ok ==>
              client.ledger == old(client.ledger).(volumes := old(client.ledger.volumes) + made,
                                                   volumeDeletes := old(client.ledger.volumeDeletes) + VolumeIds(made))
    ensures !ok && client.reliable ==> LeftOver(old(client.volumes), client.volumes, errors)
  {
    mounts', made, errors := mounts, [], [];
    NothingAppended(old(client.refused));
    for k := 0 to |pending|
      invariant client.refused == old(client.refused) && client.denied == old(client.denied) && |made| == k
      invariant Filling(mounts, mounts', pending, region, made, old(client.volumes), client.volumes)
      invariant client.ledger == old(client.ledger).(volumes := old(client.ledger.volumes) + made)
    {
      var m := mounts[pending[k]];
      ghost var volumes := client.volumes;
      var volume := client.CreateVolume(Text(m, "name").value, region, SizeOf(m));
      if volume.None? {
        RemovedAll(old(client.volumes), volumes, made);
        errors := CleanupVolumes(client, VolumeIds(made));
        return false, mounts', made, errors;
      }
      FillNext(mounts, mounts', pending, region, made, old(client.volumes), volumes, volume.value);
      mounts' := mounts'[pending[k] := WithVolume(m, volume.value.id)];
      AppendOne(old(client.ledger.volumes), made, volume.value);
      made := made + [volume.value];
    }
    FilledIsOwned(mounts, mounts', pending, region, made);
    ok := true;
  }

  // ---------------------------------------------------------------------------
  // One machine request
  // ---------------------------------------------------------------------------

  function RegionOf(request: Request): Option<string> {
    if request.region.Some? && Trim(request.region.value) != [] then Some(Trim(request.region.value)) else None
  }

  lemma RegionIff(request: Request)
    ensures RegionOf(request).Some? <==> request.region.Some? && !Blank(request.region.value)
    ensures RegionOf(request).Some? ==> Trimmed(request.region.value, RegionOf(request).value)
  {
    if request.region.Some? { TrimIsTrimmed(request.region.value); }
  }

  /** What the request must look like before anything is created for it. */
  ghost predicate Acceptable(request: Request) {
    request.config.Obj? && ("mounts" in request.config.fields ==>
      && request.config.fields["mounts"].Arr?
      && var mounts := request.config.fields["mounts"].items;
         && (forall i :: 0 <= i < |mounts| ==> !Malformed(mounts[i]))
         && (NameOnlyIndices(mounts) == [] || RegionOf(request).Some?))
  }

  /** Every mount gives a volume or a name, and the request a region if some mount gives only a name. */
  ghost predicate WellFormed(request: Request) {
    request.config.Obj? && ("mounts" in request.config.fields ==>
      && request.config.fields["mounts"].Arr?
      && var mounts := request.config.fields["mounts"].items;
         && (forall m :: m in mounts ==> Gives(m, "volume") || Gives(m, "name"))
         && ((exists m :: m in mounts && !Gives(m, "volume")) ==> request.region.Some? && !Blank(request.region.value)))
  }

  lemma AcceptableIff(request: Request)
    ensures Acceptable(request) <==> WellFormed(request)
  {
    RegionIff(request);
    if request.config.Obj? && "mounts" in request.config.fields && request.config.fields["mounts"].Arr? {
      var mounts := request.config.fields["mounts"].items;
      IndicesArePending(mounts);
      forall m | m in mounts
        ensures Malformed(m) <==> !Gives(m, "volume") && !Gives(m, "name")
        ensures NameOnly(m) <==> !Gives(m, "volume") && Gives(m, "name")
      {
        MountIff(m);
      }
      SomePending(mounts);
    }
  }

  lemma SomePending(mounts: seq<Json>)
    ensures NameOnlyIndices(mounts) == [] <==> forall m :: m in mounts ==> !NameOnly(m)
  {
    IndicesArePending(mounts);
    var pending := NameOnlyIndices(mounts);
    if pending == [] {
      forall m | m in mounts ensures !NameOnly(m) {
        var i :| 0 <= i < |mounts| && mounts[i] == m;
        assert NameOnly(mounts[i]) ==> i in pending;
      }
    } else {
      assert NameOnly(mounts[pending[0]]) && mounts[pending[0]] in mounts;
    }
  }

  /** The request with a volume of its own for each name-only mount. */
  ghost predicate Mounted(request: Request, request': Request, made: seq<Volume>)
    requires Acceptable(request)
  {
    if "mounts" !in request.config.fields then request' == request && made == []
    else
      && request'.config.Obj? && "mounts" in request'.config.fields && request'.config.fields["mounts"].Arr?
      && var mounts, mounts' := request.config.fields["mounts"].items, request'.config.fields["mounts"].items;
         IndicesArePending(mounts);
         && request' == request.(config := Obj(request.config.fields["mounts" := Arr(mounts')]))
         && Owned(mounts, mounts', NameOnlyIndices(mounts),
             if RegionOf(request).Some? then RegionOf(request).value else "", made)
  }

  /** A mount that gives a volume keeps it; any other gets one of the new volumes, made for it in the region. */
  lemma EachMountHasItsVolume(request: Request, request': Request, made: seq<Volume>, i: nat)
    requires Acceptable(request) && Mounted(request, request', made)
    requires "mounts" in request.config.fields && i < |request.config.fields["mounts"].items|
    ensures |request'.config.fields["mounts"].items| == |request.config.fields["mounts"].items|
    ensures var m, m' := request.config.fields["mounts"].items[i], request'.config.fields["mounts"].items[i];
            if Gives(m, "volume") then m' == m
            else request.region.Some? && exists q, region ::
                   0 <= q < |made| && Trimmed(request.region.value, region) && OwnVolume(m, m', made[q], region)
  {
    var mounts, mounts' := request.config.fields["mounts"].items, request'.config.fields["mounts"].items;
    var pending := NameOnlyIndices(mounts);
    IndicesArePending(mounts);
    MountIff(mounts[i]);
    RegionIff(request);
    if Gives(mounts[i], "volume") {
      assert !NameOnly(mounts[i]);
      assert i !in pending;
    } else {
      assert NameOnly(mounts[i]) && i in pending;
      var q :| 0 <= q < |pending| && pending[q] == i;
      assert OwnVolume(mounts[i], mounts'[i], made[q], RegionOf(request).value);
    }
  }

  /** The placeholder a dry run shows instead of a volume. */
  function Placeholders(mounts: seq<Json>, region: string): seq<Json> {
    seq(|mounts|, i requires 0 <= i < |mounts| =>
      if NameOnly(mounts[i]) then
        WithVolume(mounts[i], "<auto:" + Text(mounts[i], "name").value + "@" + region + ">")
      else
        mounts[i])
  }

  /** In a dry run a mount without a volume shows its trimmed name and the region instead. */
  ghost predicate Shown(m: Json, m': Json, region: string) {
    if Gives(m, "volume") then m' == m
    else exists name :: Gives(m, "name") && Trimmed(m.fields["name"].s, name) &&
           VolumeSet(m, m', "<auto:" + name + "@" + region + ">")
  }

  ghost predicate Previewed(request: Request, request': Request) {
    if !request.config.Obj? || "mounts" !in request.config.fields then request' == request
    else
      && request'.config.Obj? && "mounts" in request'.config.fields && request'.config.fields["mounts"].Arr?
      && request.config.fields["mounts"].Arr?
      && var mounts, mounts' := request.config.fields["mounts"].items, request'.config.fields["mounts"].items;
         && request' == request.(config := Obj(request.config.fields["mounts" := Arr(mounts')]))
         && |mounts'| == |mounts|
         && forall i :: 0 <= i < |mounts| ==>
              Shown(mounts[i], mounts'[i], if RegionOf(request).Some? then RegionOf(request).value else "")
  }

  lemma PlaceholdersAreShown(mounts: seq<Json>, region: string)
    requires forall i :: 0 <= i < |mounts| ==> !Malformed(mounts[i])
    ensures forall i :: 0 <= i < |mounts| ==> Shown(mounts[i], Placeholders(mounts, region)[i], region)
  {
    forall i | 0 <= i < |mounts| ensures Shown(mounts[i], Placeholders(mounts, region)[i], region) {
      MountIff(mounts[i]);
      TextIff(mounts[i], "name");
    }
  }

  method EnsureMountVolumes(client: Provider, request: Request, dryRun: bool)
    returns (ok: bool, request': Request, made: seq<Volume>, errors: seq<string>)
    modifies client`volumes, client`ledger, client`refused, client`denied
    ensures client.refused == old(client.refused) + errors && (ok ==> errors == [])
    ensures ok <==> Acceptable(request) && client.denied == old(client.denied)
    ensures client.denied >= old(client.denied)
    ensures ok ==> client.ledger == old(client.ledger).(volumes := old(client.ledger.volumes) + made)
    ensures ok ==> Added(old(client.volumes), client.volumes, made)
    ensures ok && !dryRun ==> Mounted(request, request', made)
    ensures ok && dryRun ==> Previewed(request, request')
    ensures !ok ==>
              client.ledger == old(client.ledger).(volumes := old(client.ledger.volumes) + made,
                                                   volumeDeletes := old(client.ledger.volumeDeletes) + VolumeIds(made))
    ensures !ok && client.reliable ==> LeftOver(old(client.volumes), client.volumes, errors)
    ensures dryRun ==> made == [] && client.volumes == old(client.volumes) && client.denied == old(client.denied)
  {
    request', made, errors := request, [], [];
    NothingAppended(old(client.refused));
    NothingAppended(old(client.ledger.volumes));
    NothingAppended(old(client.ledger.volumeDeletes));
    if !request.config.Obj? { return false, request, [], []; }
    if "mounts" !in request.config.fields { return true, request, [], []; }
    if !request.config.fields["mounts"].Arr? { return false, request, [], []; }
    var mounts := request.config.fields["mounts"].items;
    var fine, pending := FindPending(mounts);
    if !fine || (pending != [] && RegionOf(request).None?) { return false, request, [], []; }
    IndicesArePending(mounts);
    var region := if RegionOf(request).Some? then RegionOf(request).value else "";
    var mounts';
    if dryRun {
      mounts' := Placeholders(mounts, region);
      PlaceholdersAreShown(mounts, region);
      ok := true;
    } else {
      ok, mounts', made, errors := FillMounts(client, mounts, pending, region);
    }
    if ok {
      request' := request.(config := Obj(request.config.fields["mounts" := Arr(mounts')]));
    }
  }

  // ---------------------------------------------------------------------------
  // The whole tenant
  // ---------------------------------------------------------------------------

  /** One machine as the template renders it. */
  datatype Spec = Spec(region: Option<string>, config: Json, metadata: map<string, string>)

  /** The request for a machine, before its mounts are seen to. */
  function Tagged(spec: Spec, tenantId: string, template: string): Request
    requires spec.config.Obj?
  {
    var owned := spec.metadata["fly_vault.tenant_id" := tenantId]["fly_vault.managed_by" := "fly-vault-admin"];
    var metadata := owned["fly_vault.template" := template];
    Request(spec.region, WithMetadata(spec.config, metadata).value)
  }

  /**
   The machine carries the tenant, the manager and the template in its metadata, next to
   what the template gives, and its configuration is otherwise that of the template.
   */
  ghost predicate Labelled(spec: Spec, tenantId: string, template: string, request: Request) {
    && request.region == spec.region && spec.config.Obj? && request.config.Obj?
    && "metadata" in request.config.fields && request.config.fields["metadata"].Obj?
    && var labels := request.config.fields["metadata"].fields;
       var own := {"fly_vault.tenant_id", "fly_vault.managed_by", "fly_vault.template"};
       && labels.Keys == spec.metadata.Keys + own
       && labels["fly_vault.tenant_id"] == Str(tenantId)
       && labels["fly_vault.managed_by"] == Str("fly-vault-admin")
       && labels["fly_vault.template"] == Str(template)
       && (forall k :: k in spec.metadata && k !in own ==> labels[k] == Str(spec.metadata[k]))
       && (forall k :: k !in {"metadata", "mounts"} ==>
             (k in request.config.fields <==> k in spec.config.fields)
             && (k in spec.config.fields ==> request.config.fields[k] == spec.config.fields[k]))
  }

  lemma TaggedIsLabelled(spec: Spec, tenantId: string, template: string)
    requires spec.config.Obj?
    ensures Labelled(spec, tenantId, template, Tagged(spec, tenantId, template))
    ensures var tagged := Tagged(spec, tenantId, template).config;
            && ("mounts" in tagged.fields <==> "mounts" in spec.config.fields)
            && ("mounts" in spec.config.fields ==> tagged.fields["mounts"] == spec.config.fields["mounts"])
  {
    var m0 := spec.metadata;
    var m1 := m0["fly_vault.tenant_id" := tenantId];
    var m2 := m1["fly_vault.managed_by" := "fly-vault-admin"];
    var m3 := m2["fly_vault.template" := template];
    assert m3.Keys == m0.Keys + {"fly_vault.tenant_id", "fly_vault.managed_by", "fly_vault.template"};
    var labels := Tagged(spec, tenantId, template).config.fields["metadata"].fields;
    assert labels.Keys == m3.Keys;
    DistinctLabels();
  }

  lemma DistinctLabels()
    ensures "fly_vault.tenant_id" != "fly_vault.managed_by" && "fly_vault.managed_by" != "fly_vault.template"
    ensures "fly_vault.tenant_id" != "fly_vault.template"
  {
    assert "fly_vault.tenant_id"[10] == 't' && "fly_vault.managed_by"[10] == 'm';
    assert "fly_vault.tenant_id"[11] == 'e' && "fly_vault.template"[11] == 'e';
    assert |"fly_vault.tenant_id"| == 19 && |"fly_vault.template"| == 18;
  }

  /** A request depends on the template only through the region and the mounts. */
  lemma AcceptableSpec(spec: Spec, tenantId: string, template: string)
    requires spec.config.Obj?
    ensures Acceptable(Tagged(spec, tenantId, template)) <==> WellFormed(Request(spec.region, spec.config))
  {
    AcceptableIff(Tagged(spec, tenantId, template));
    TaggedIsLabelled(spec, tenantId, template);
  }

  lemma LabelsStay(spec: Spec, tenantId: string, template: string, request: Request, mounts: Json)
    requires Labelled(spec, tenantId, template, request)
    ensures Labelled(spec, tenantId, template,
                     request.(config := Obj(request.config.fields["mounts" := mounts])))
  {
    assert "mounts" != "metadata";
  }

  lemma {:induction false} VolumeIdsConcat(a: seq<Volume>, b: seq<Volume>)
    ensures VolumeIds(a + b) == VolumeIds(a) + VolumeIds(b)
  {
    if b == [] {
      NothingAppended(a);
      NothingAppended(VolumeIds(a));
    } else {
      var init, last := b[..|b| - 1], b[|b| - 1];
      SplitLast(b);
      VolumeIdsConcat(a, init);
      Associative(a, init, [last]);
      Appended(a + init, last);
      Associative(VolumeIds(a), VolumeIds(init), [last.id]);
    }
  }

  lemma AddMore(volumes0: set<string>, volumes: set<string>, volumes': set<string>, a: seq<Volume>, b: seq<Volume>)
    requires Added(volumes0, volumes, a) && Added(volumes, volumes', b)
    ensures Added(volumes0, volumes', a + b)
  {
    VolumeIdsConcat(a, b);
    assert Elements(VolumeIds(a) + VolumeIds(b)) == Elements(VolumeIds(a)) + Elements(VolumeIds(b));
    forall q | 0 <= q < |a| ensures a[q].id in volumes { IdListed(a, q); }
  }

  /** Machines made since the given state. */
  ghost predicate AddedMachines(machines0: set<string>, machines': set<string>, made: seq<Machine>) {
    && Elements(MachineIds(made)) !! machines0 && machines' == machines0 + Elements(MachineIds(made))
    && forall i, j :: 0 <= i < j < |MachineIds(made)| ==> MachineIds(made)[i] != MachineIds(made)[j]
  }

  lemma AddMachine(machines0: set<string>, machines: set<string>, made: seq<Machine>, m: Machine)
    requires AddedMachines(machines0, machines, made) && m.id !in machines
    ensures AddedMachines(machines0, machines + {m.id}, made + [m])
    ensures MachineIds(made + [m]) == MachineIds(made) + [m.id]
  {
    assert (made + [m])[..|made|] == made;
  }

  lemma RemovedMachines(machines0: set<string>, machines: set<string>, made: seq<Machine>)
    requires AddedMachines(machines0, machines, made)
    ensures machines - Elements(MachineIds(made)) == machines0
  {
  }

  const EMPTY: Ledger := Ledger([], [], [], [], [], false)

  /** Everything that was created has been deleted again, once, the machines first. */
  ghost predicate Compensated(ledger: Ledger) {
    && ledger.machineDeletes == MachineIds(ledger.machines)
    && multiset(ledger.volumeDeletes) == multiset(VolumeIds(ledger.volumes))
    && !ledger.late
  }

  /** The requests are the machines of the template, each mount with its own volume. */
  ghost predicate Prepared(specs: seq<Spec>, tenantId: string, template: string, requests: seq<Request>,
                           made: seq<seq<Volume>>)
    requires forall s :: s in specs ==> s.config.Obj?
  {
    |requests| == |made| <= |specs| &&
    forall i :: 0 <= i < |requests| ==>
      var request := Tagged(specs[i], tenantId, template);
      && Acceptable(request) && Mounted(request, requests[i], made[i])
      && Labelled(specs[i], tenantId, template, requests[i])
  }

  /** The requests a dry run shows. */
  ghost predicate Dry(specs: seq<Spec>, tenantId: string, template: string, requests: seq<Request>)
    requires forall s :: s in specs ==> s.config.Obj?
  {
    |requests| <= |specs| && forall i :: 0 <= i < |requests| ==>
      && Previewed(Tagged(specs[i], tenantId, template), requests[i])
      && Labelled(specs[i], tenantId, template, requests[i])
  }

  lemma StillLabelled(spec: Spec, tenantId: string, template: string, request: Request, made: seq<Volume>)
    requires spec.config.Obj?
    requires
      var tagged := Tagged(spec, tenantId, template);
      (Acceptable(tagged) && Mounted(tagged, request, made)) || Previewed(tagged, request)
    ensures Labelled(spec, tenantId, template, request)
  {
    var tagged := Tagged(spec, tenantId, template);
    TaggedIsLabelled(spec, tenantId, template);
    if "mounts" in tagged.config.fields {
      LabelsStay(spec, tenantId, template, tagged, request.config.fields["mounts"]);
    }
  }

  lemma PrepareOne(specs: seq<Spec>, tenantId: string, template: string, requests: seq<Request>,
                   made: seq<seq<Volume>>, request: Request, more: seq<Volume>)
    requires (forall s :: s in specs ==> s.config.Obj?) && |requests| < |specs|
    requires Prepared(specs, tenantId, template, requests, made)
    requires
      var tagged := Tagged(specs[|requests|], tenantId, template);
      Acceptable(tagged) && Mounted(tagged, request, more)
    ensures Prepared(specs, tenantId, template, requests + [request], made + [more])
  {
    StillLabelled(specs[|requests|], tenantId, template, request, more);
  }

  lemma DryOne(specs: seq<Spec>, tenantId: string, template: string, requests: seq<Request>, request: Request)
    requires (forall s :: s in specs ==> s.config.Obj?) && |requests| < |specs|
    requires Dry(specs, tenantId, template, requests)
    requires Previewed(Tagged(specs[|requests|], tenantId, template), request)
    ensures Dry(specs, tenantId, template, requests + [request])
  {
    StillLabelled(specs[|requests|], tenantId, template, request, []);
    var requests' := requests + [request];
    forall i | 0 <= i < |requests'|
      ensures Previewed(Tagged(specs[i], tenantId, template), requests'[i])
      ensures Labelled(specs[i], tenantId, template, requests'[i])
    {
      if i < |requests| { assert requests'[i] == requests[i]; } else { assert requests'[i] == request; }
    }
  }

  /** Every machine of the template can be asked for. */
  ghost predicate AllAcceptable(specs: seq<Spec>, tenantId: string, template: string)
    requires forall s :: s in specs ==> s.config.Obj?
  {
    forall i :: 0 <= i < |specs| ==> Acceptable(Tagged(specs[i], tenantId, template))
  }

  ghost predicate AllWellFormed(specs: seq<Spec>) {
    forall s :: s in specs ==> WellFormed(Request(s.region, s.config))
  }

  lemma AllAcceptableIff(specs: seq<Spec>, tenantId: string, template: string)
    requires forall s :: s in specs ==> s.config.Obj?
    ensures AllAcceptable(specs, tenantId, template) <==> AllWellFormed(specs)
  {
    forall i | 0 <= i < |specs|
      ensures Acceptable(Tagged(specs[i], tenantId, template)) <==>
              WellFormed(Request(specs[i].region, specs[i].config))
    {
      AcceptableSpec(specs[i], tenantId, template);
    }
  }

  /** What a failing preparation and the clean-up after it leave over. */
  lemma LeftOverTwice(volumes0: set<string>, volumes: set<string>, between: set<string>, volumes': set<string>,
                      ids: seq<string>, failed: seq<string>, others: seq<string>)
    requires volumes - Elements(ids) == volumes0 && LeftOver(volumes, between, failed)
    requires LeftOver(between - Elements(ids), volumes', others)
    ensures LeftOver(volumes0, volumes', failed + others)
  {
    assert Elements(failed + others) == Elements(failed) + Elements(others);
  }

  lemma AbandonedLedger(all: seq<Volume>, more: seq<Volume>)
    ensures Compensated(EMPTY.(volumes := all + more, volumeDeletes := VolumeIds(more) + VolumeIds(all)))
    ensures all == more == [] ==> VolumeIds(more) + VolumeIds(all) == [] && all + more == []
  {
    VolumeIdsConcat(all, more);
    assert multiset(VolumeIds(more) + VolumeIds(all)) == multiset(VolumeIds(all) + VolumeIds(more));
  }

  /** A request could not be prepared: the volumes of the ones before it are deleted. */
  method Abandon(client: Provider, volumeIds: seq<string>, failed: seq<string>, ghost volumes0: set<string>,
                 ghost volumes: set<string>, ghost all: seq<Volume>, ghost more: seq<Volume>)
    returns (errors: seq<string>)
    requires client.ledger == EMPTY.(volumes := all + more, volumeDeletes := VolumeIds(more))
    requires volumeIds == VolumeIds(all) && Added(volumes0, volumes, all)
    requires client.reliable ==> LeftOver(volumes, client.volumes, failed)
    modifies client`volumes, client`ledger, client`refused
    ensures forall before :: old(client.refused) == before + failed ==> client.refused == before + errors
    ensures |errors| <= |failed| + |volumeIds|
    ensures Compensated(client.ledger) && client.ledger.machines == []
    ensures client.reliable ==> LeftOver(volumes0, client.volumes, errors)
    ensures all == more == [] ==> client.ledger == EMPTY && client.volumes == old(client.volumes)
  {
    ghost var between := client.volumes;
    var others := CleanupVolumes(client, volumeIds);
    errors := failed + others;
    forall before | old(client.refused) == before + failed ensures client.refused == before + errors {
      Associative(before, failed, others);
    }
    AbandonedLedger(all, more);
    RemovedAll(volumes0, volumes, all);
    if client.reliable {
      LeftOverTwice(volumes0, volumes, between, client.volumes, volumeIds, failed, others);
    }
  }

  /** Where the first loop stands: the volumes made so far, and the requests they were made for. */
  ghost predicate Underway(specs: seq<Spec>, tenantId: string, template: string, dryRun: bool, i: nat,
                           requests: seq<Request>, made: seq<seq<Volume>>)
    requires i <= |specs| && forall s :: s in specs ==> s.config.Obj?
  {
    && (forall j :: 0 <= j < i ==> Acceptable(Tagged(specs[j], tenantId, template)))
    && (!dryRun ==> Prepared(specs, tenantId, template, requests, made) && |requests| == i)
    && (dryRun ==> Flatten(made) == [] && Dry(specs, tenantId, template, requests) && |requests| == i)
  }

  lemma UnderwayMore(specs: seq<Spec>, tenantId: string, template: string, dryRun: bool, i: nat,
                     requests: seq<Request>, made: seq<seq<Volume>>, request: Request, more: seq<Volume>)
    requires i < |specs| && forall s :: s in specs ==> s.config.Obj?
    requires Underway(specs, tenantId, template, dryRun, i, requests, made)
    requires Acceptable(Tagged(specs[i], tenantId, template)) && (dryRun ==> more == [])
    requires !dryRun ==> Mounted(Tagged(specs[i], tenantId, template), request, more)
    requires dryRun ==> Previewed(Tagged(specs[i], tenantId, template), request)
    ensures Underway(specs, tenantId, template, dryRun, i + 1, requests + [request], made + [more])
  {
    FlattenOne(made, more);
    if dryRun {
      DryOne(specs, tenantId, template, requests, request);
    } else {
      PrepareOne(specs, tenantId, template, requests, made, request, more);
    }
  }

  /** The first loop of `create_tenant`. */
  method Prepare(client: Provider, specs: seq<Spec>, tenantId: string, template: string, dryRun: bool)
    returns (ok: bool, requests: seq<Request>, volumeIds: seq<string>, errors: seq<string>,
             ghost made: seq<seq<Volume>>)
    requires client.ledger == EMPTY && forall s :: s in specs ==> s.config.Obj?
    modifies client`volumes, client`ledger, client`refused, client`denied
    ensures ok <==> AllAcceptable(specs, tenantId, template) && client.denied == old(client.denied)
    ensures client.denied >= old(client.denied) && (dryRun ==> client.denied == old(client.denied))
    ensures client.refused == old(client.refused) + errors && (ok ==> errors == [])
    ensures ok ==> client.ledger == EMPTY.(volumes := Flatten(made)) && volumeIds == VolumeIds(Flatten(made))
    ensures ok ==> Added(old(client.volumes), client.volumes, Flatten(made))
    ensures ok ==> |requests| == |specs|
    ensures ok && !dryRun ==> Prepared(specs, tenantId, template, requests, made)
    ensures ok && dryRun ==> Dry(specs, tenantId, template, requests)
    ensures !ok ==> Compensated(client.ledger) && client.ledger.machines == []
    ensures !ok && client.reliable ==> LeftOver(old(client.volumes), client.volumes, errors)
    ensures dryRun ==> client.ledger == EMPTY && client.volumes == old(client.volumes)
  {
    requests, volumeIds, errors, made := [], [], [], [];
    NothingAppended(old(client.refused));
    for i := 0 to |specs|
      invariant client.refused == old(client.refused) && client.denied == old(client.denied)
      invariant client.ledger == EMPTY.(volumes := Flatten(made)) && volumeIds == VolumeIds(Flatten(made))
      invariant Added(old(client.volumes), client.volumes, Flatten(made))
      invariant Underway(specs, tenantId, template, dryRun, i, requests, made)
      invariant dryRun ==> client.volumes == old(client.volumes)
    {
      ghost var volumes := client.volumes;
      var fine, request, more, failed := EnsureMountVolumes(client, Tagged(specs[i], tenantId, template), dryRun);
      if !fine {
        errors := Abandon(client, volumeIds, failed, old(client.volumes), volumes, Flatten(made), more);
        return false, requests, volumeIds, errors, made;
      }
      UnderwayMore(specs, tenantId, template, dryRun, i, requests, made, request, more);
      FlattenOne(made, more);
      VolumeIdsConcat(Flatten(made), more);
      AddMore(old(client.volumes), volumes, client.volumes, Flatten(made), more);
      volumeIds := volumeIds + VolumeIds(more);
      requests := requests + [request];
      made := made + [more];
    }
    ok := true;
  }

  /** Delete the machines, then the volumes. */
  method Compensate(client: Provider, machineIds: seq<string>, volumeIds: seq<string>) returns (errors: seq<string>)
    requires client.ledger.machineDeletes == client.ledger.volumeDeletes == [] && !client.ledger.late
    requires machineIds == MachineIds(client.ledger.machines) && volumeIds == VolumeIds(client.ledger.volumes)
    modifies client`machines, client`volumes, client`ledger, client`refused
    ensures Compensated(client.ledger)
    ensures client.ledger.machines == old(client.ledger.machines) && client.ledger.volumes == old(client.ledger.volumes)
    ensures client.refused == old(client.refused) + errors
    ensures LeftOver(old(client.machines) - Elements(machineIds), client.machines, errors)
    ensures LeftOver(old(client.volumes) - Elements(volumeIds), client.volumes, errors)
  {
    var first := CleanupMachines(client, machineIds);
    var second := CleanupVolumes(client, volumeIds);
    errors := first + second;
    Associative(old(client.refused), first, second);
    assert Elements(errors) == Elements(first) + Elements(second);
  }

  /** The machines created are the ones requested so far. */
  ghost predicate Requested(ledger: Ledger, requests: seq<Request>, n: nat)
    requires n <= |requests|
  {
    |ledger.machines| == n && forall i :: 0 <= i < n ==>
      ledger.machines[i].config == requests[i].config && ledger.machines[i].region == requests[i].region
  }

  /**
   A created machine is the one the template gives: its region, its labels, its other
   fields, and each mount with its own volume or with the one made for it.
   */
  lemma MachineIsAsAsked(specs: seq<Spec>, tenantId: string, template: string, requests: seq<Request>,
                         made: seq<seq<Volume>>, ledger: Ledger, i: nat, j: nat)
    requires (forall s :: s in specs ==> s.config.Obj?) && |requests| == |specs|
    requires Prepared(specs, tenantId, template, requests, made) && Requested(ledger, requests, |requests|)
    requires i < |specs|
    ensures var config := ledger.machines[i].config;
            && Labelled(specs[i], tenantId, template, Request(ledger.machines[i].region, config))
            && ("mounts" in specs[i].config.fields ==>
                  && specs[i].config.fields["mounts"].Arr? && "mounts" in config.fields && config.fields["mounts"].Arr?
                  && var mounts, mounts' := specs[i].config.fields["mounts"].items, config.fields["mounts"].items;
                     && |mounts'| == |mounts|
                     && (j < |mounts| ==> MountIsAsAsked(specs[i], mounts[j], mounts'[j], made[i])))
  {
    TaggedIsLabelled(specs[i], tenantId, template);
    var request := Tagged(specs[i], tenantId, template);
    if "mounts" in specs[i].config.fields && j < |request.config.fields["mounts"].items| {
      EachMountHasItsVolume(request, requests[i], made[i], j);
    }
  }

  ghost predicate MountIsAsAsked(spec: Spec, m: Json, m': Json, made: seq<Volume>) {
    if Gives(m, "volume") then m' == m
    else spec.region.Some? && exists q, region ::
           0 <= q < |made| && Trimmed(spec.region.value, region) && OwnVolume(m, m', made[q], region)
  }

  lemma RequestOne(ledger: Ledger, requests: seq<Request>, n: nat, id: string)
    requires n < |requests| && Requested(ledger, requests, n)
    ensures Requested(ledger.(machines := ledger.machines + [MachineOf(id, requests[n])]), requests, n + 1)
  {
  }

  /** The second loop of `create_tenant`. */
  method CreateMachines(client: Provider, requests: seq<Request>, volumeIds: seq<string>)
    returns (ok: bool, machineIds: seq<string>, errors: seq<string>)
    requires client.ledger == EMPTY.(volumes := client.ledger.volumes) && volumeIds == VolumeIds(client.ledger.volumes)
    modifies client
    ensures ok ==> client.volumes == old(client.volumes)
    ensures ok ==> AddedMachines(old(client.machines), client.machines, client.ledger.machines)
    ensures ok ==> client.ledger == old(client.ledger).(machines := client.ledger.machines)
    ensures ok ==> machineIds == MachineIds(client.ledger.machines)
    ensures ok ==> Requested(client.ledger, requests, |requests|)
    ensures !ok ==> Compensated(client.ledger) && client.ledger.volumes == old(client.ledger.volumes)
    ensures ok <==> client.denied == old(client.denied)
    ensures client.denied >= old(client.denied)
    ensures client.refused == old(client.refused) + errors && (ok ==> errors == [])
    ensures !ok && client.reliable ==> LeftOver(old(client.machines), client.machines, errors)
    ensures !ok ==> LeftOver(old(client.volumes) - Elements(volumeIds), client.volumes, errors)
  {
    machineIds, errors := [], [];
    NothingAppended(old(client.refused));
    for i := 0 to |requests|
      invariant client.volumes == old(client.volumes) && client.refused == old(client.refused)
      invariant client.denied == old(client.denied)
      invariant AddedMachines(old(client.machines), client.machines, client.ledger.machines)
      invariant client.ledger == old(client.ledger).(machines := client.ledger.machines)
      invariant machineIds == MachineIds(client.ledger.machines)
      invariant Requested(client.ledger, requests, i)
    {
      ghost var before, machines := client.ledger, client.machines;
      var machine := client.CreateMachine(requests[i]);
      if machine.None? {
        RemovedMachines(old(client.machines), machines, before.machines);
        errors := Compensate(client, machineIds, volumeIds);
        return false, machineIds, errors;
      }
      AddMachine(old(client.machines), client.machines - {machine.value}, before.machines,
                 MachineOf(machine.value, requests[i]));
      RequestOne(before, requests, i, machine.value);
      machineIds := machineIds + [machine.value];
    }
    ok := true;
  }

  /** The wait for every machine to start, up to the first that does not. */
  method AwaitStarted(client: Provider, machineIds: seq<string>) returns (ok: bool)
    requires client.ledger.started == []
    modifies client`ledger, client`denied
    ensures ok <==> client.denied == old(client.denied)
    ensures client.denied >= old(client.denied)
    ensures client.ledger == old(client.ledger).(started := client.ledger.started)
    ensures ok ==> client.ledger.started == machineIds
  {
    ok := true;
    var k := 0;
    while k < |machineIds| && ok
      invariant 0 <= k <= |machineIds| && client.ledger == old(client.ledger).(started := client.ledger.started)
      invariant ok ==> client.ledger.started == machineIds[..k]
      invariant client.denied == old(client.denied) + if ok then 0 else 1
    {
      ok := client.WaitStarted(machineIds[k]);
      k := k + 1;
    }
  }

  /**
   `create_tenant` for a template whose configuration is a table. A failing run deletes
   what it created; what is left of it is what a delete was refused for, so if every
   delete is applied or answered with "not found" the inventory is as before. A run
   succeeds exactly if all requests are acceptable and every creation and wait is
   acknowledged; it then deletes nothing. A dry run calls nothing.
   */
  method CreateTenant(client: Provider, specs: seq<Spec>, tenantId: string, template: string, dryRun: bool)
    returns (ok: bool, errors: seq<string>, ghost requests: seq<Request>, ghost made: seq<seq<Volume>>)
    requires client.ledger == EMPTY && forall s :: s in specs ==> s.config.Obj?
    modifies client
    ensures ok ==> |requests| == |specs|
    ensures ok && dryRun ==> Dry(specs, tenantId, template, requests)
    ensures dryRun ==> client.ledger == EMPTY
    ensures dryRun ==> client.machines == old(client.machines) && client.volumes == old(client.volumes)
    ensures ok && !dryRun ==>
              && Prepared(specs, tenantId, template, requests, made)
              && client.ledger == EMPTY.(machines := client.ledger.machines, volumes := Flatten(made),
                                         started := MachineIds(client.ledger.machines))
              && Requested(client.ledger, requests, |requests|)
              && Added(old(client.volumes), client.volumes, Flatten(made))
              && AddedMachines(old(client.machines), client.machines, client.ledger.machines)
    ensures !ok ==> Compensated(client.ledger)
    ensures ok <==> AllWellFormed(specs) && client.denied == old(client.denied)
    ensures client.refused == old(client.refused) + errors && (ok ==> errors == [])
    ensures !ok && client.reliable ==>
              && LeftOver(old(client.machines), client.machines, errors)
              && LeftOver(old(client.volumes), client.volumes, errors)
    ensures !ok && client.reliable && client.refused == old(client.refused) ==>
              client.machines == old(client.machines) && client.volumes == old(client.volumes)
  {
    var reqs, volumeIds;
    ok, reqs, volumeIds, errors, made := Prepare(client, specs, tenantId, template, dryRun);
    requests := reqs;
    AllAcceptableIff(specs, tenantId, template);
    NoneRefused(old(client.refused), errors);
    if !ok || dryRun { return; }
    RemovedAll(old(client.volumes), client.volumes, Flatten(made));
    ok, errors := Launch(client, reqs, volumeIds);
    NoneRefused(old(client.refused), errors);
  }

  lemma NoneRefused(before: seq<string>, errors: seq<string>)
    ensures before == before + errors <==> errors == []
  {
    assert |before + errors| == |before| + |errors|;
    NothingAppended(before);
  }

  /** The machines are created and awaited, or deleted again with the volumes made for them. */
  method Launch(client: Provider, requests: seq<Request>, volumeIds: seq<string>)
    returns (ok: bool, errors: seq<string>)
    requires client.ledger == EMPTY.(volumes := client.ledger.volumes) && volumeIds == VolumeIds(client.ledger.volumes)
    modifies client
    ensures ok <==> client.denied == old(client.denied)
    ensures client.denied >= old(client.denied)
    ensures ok ==> client.volumes == old(client.volumes)
    ensures ok ==> AddedMachines(old(client.machines), client.machines, client.ledger.machines)
    ensures ok ==> client.ledger == old(client.ledger).(machines := client.ledger.machines,
                                                        started := MachineIds(client.ledger.machines))
    ensures ok ==> Requested(client.ledger, requests, |requests|)
    ensures !ok ==> Compensated(client.ledger)
    ensures client.refused == old(client.refused) + errors && (ok ==> errors == [])
    ensures !ok && client.reliable ==> LeftOver(old(client.machines), client.machines, errors)
    ensures !ok ==> LeftOver(old(client.volumes) - Elements(volumeIds), client.volumes, errors)
  {
    var machineIds;
    NothingAppended(old(client.refused));
    ok, machineIds, errors := CreateMachines(client, requests, volumeIds);
    if !ok { return; }
    ok := AwaitStarted(client, machineIds);
    if !ok {
      RemovedMachines(old(client.machines), client.machines, client.ledger.machines);
      errors := Compensate(client, machineIds, volumeIds);
    }
  }
}
