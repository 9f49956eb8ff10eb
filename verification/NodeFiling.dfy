/** The IDs of what a node keeps, advertises and serves. */
module NodeFiling {
  import opened Bytes
  import opened Seqs
  import opened Radix
  import opened Manifests
  import opened Assemblies
  import opened Stores
  import opened NodeProtocol
  import opened Scheduler
  import opened NodeState
  import opened NodeSteps
  import opened NodeInvariants
  import opened NodeSafety
  import opened NodeFrames
  import opened NodeOutcomes
  import opened NodeGate

  // ---- manifests stay in the directories of their IDs ---------------------------------

  lemma WriteFiled(disk: Disk, path: FilePath, file: File, w: WriteResult)
    requires Filed(disk)
    requires path.ObjectManifest? || path.PartialManifest? || path.KnownManifest? ==> file.Json? && file.manifest.id == path.id
    ensures Filed(WriteOn(disk, path, file, w))
  {}

  lemma {:induction false} RemoveFiled(disk: Disk, id: ID, order: seq<FilePath>)
    requires Filed(disk)
    ensures Filed(RemoveOn(disk, id, order))
  {
    if order != [] {
      RemoveFiled(disk, id, order[..|order| - 1]);
    }
  }

  lemma BeginFiled(disk: Disk, m: Manifest, w: WriteResult)
    requires Filed(disk)
    ensures Filed(BeginOn(disk, m, w).0)
  {
    WriteFiled(disk, PartialManifest(m.id), ToJson(m), w);
    hide Filed, LoadAll, SafeName, WriteOn;
  }

  lemma AddFiled(disk: Disk, p: Parts, index: nat, data: seq<byte>, w: WriteResult)
    requires Filed(disk) && p.Valid()
    ensures Filed(AddOn(disk, p, index, data, w).0)
  {
    WriteFiled(disk, PartialChunk(p.manifest.id, index), Plain(data), w);
    hide Filed, AddChunk, WriteOn;
  }

  lemma CommitFiled(sha: Hash, ed: Verifier, disk: Disk, p: Parts, w: seq<WriteResult>, order: seq<FilePath>)
    requires Filed(disk) && |w| == 3
    ensures Filed(CommitOn(sha, ed, disk, p, w, order).0)
  {
    hide Filed, SignatureHolds, RemoveOn, HasPartialFiles, WriteOn;
    var m := p.manifest;
    if ContentOf(sha, p).Ok? {
      var content := ContentOf(sha, p).value;
      WriteFiled(disk, ObjectContent(m.id), Plain(content), w[0]);
      var first := WriteOn(disk, ObjectContent(m.id), Plain(content), w[0]);
      WriteFiled(first, ObjectManifest(m.id), ToJson(m), w[1]);
      var second := WriteOn(first, ObjectManifest(m.id), ToJson(m), w[1]);
      WriteFiled(second, ObjectComplete(m.id), Plain(VERIFIED), w[2]);
      RemoveFiled(PublishOn(disk, m, content, w).0, m.id, order);
    }
  }

  lemma RestartFiled(disk: Disk, parts: Assembled, env: Env)
    requires Filed(disk)
    ensures Filed(Restarted(disk, parts, env).0)
  {
    hide Filed, RemoveOn, BeginOn, HasPartialFiles;
    RemoveFiled(disk, parts.manifest.id, env.order);
    BeginFiled(RemoveOn(disk, parts.manifest.id, env.order), parts.manifest, env.write(4));
  }

  lemma FinishFiled(c: Config, s: State, env: Env, id: ID, a: Acquisition, parts: Assembled, w: seq<WriteResult>,
                    spoiled: Disk -> (Disk, Option<Assembled>))
    requires |w| == 3 && id in s.table.entries && Filed(s.disk)
    requires forall d :: Filed(d) ==> Filed(spoiled(d).0)
    ensures Filed(Finish(c, s, env, id, a, parts, w, spoiled).disk)
  {
    CommitFiled(c.sha, c.ed, s.disk, parts, w, env.order);
    hide Filed, CommitOn, OwnStep, RemoveEntry, ClearInspected, Fail, Inventory;
  }

  lemma StartAssemblyFiled(c: Config, s: State, env: Env, id: ID, a: Acquisition, m: Manifest)
    requires id in s.table.entries && Filed(s.disk)
    ensures Filed(StartAssembly(c, s, env, id, a, m).disk)
  {
    hide Filed, BeginOn, Finish, RemoveOn, OwnStep, Fail;
    var (disk, begun) := BeginOn(s.disk, m, env.write(1));
    BeginFiled(s.disk, m, env.write(1));
    if begun.Ok? && begun.value.Whole() {
      forall d | Filed(d) ensures Filed(RemoveOn(d, id, env.order)) { RemoveFiled(d, id, env.order); }
      FinishFiled(c, s.(disk := disk), env, id, a.(assembly := Some(begun.value), manifest := None, manifestSource := 0),
                  begun.value, [env.write(2), env.write(3), env.write(4)], d => (RemoveOn(d, id, env.order), None));
    }
  }

  lemma JudgeFiled(c: Config, s: State, env: Env, id: ID, a: Acquisition, m: Manifest, source: NodeID)
    requires id in s.table.entries && Filed(s.disk)
    ensures Filed(Judge(c, s, env, id, a, m, source).disk)
  {
    hide Filed, StartAssembly, OwnStep, Fail, Accept, SignatureHolds, MarkInspected, RemoveEntry, ClearInspected, WriteOn, Encodable;
    var marked := s.(inspected := MarkInspected(s.inspected, m.id, source));
    WriteFiled(s.disk, KnownManifest(m.id), ToJson(m), env.write(0));
    StartAssemblyFiled(c, marked.(disk := SaveKnownOn(s.disk, m, env.write(0)).0), env, id, a, m);
  }

  lemma TakeFiled(c: Config, s: State, env: Env, id: ID, a: Acquisition, chunk: ChunkData)
    requires id in s.table.entries && a.assembly.Some? && Filed(s.disk)
    ensures Filed(TakeChunk(c, s, env, id, a, chunk).disk)
  {
    hide Filed, AddOn, Finish, Restarted, OwnStep;
    var (disk, added) := AddOn(s.disk, a.assembly.value, chunk.index, chunk.data, env.write(0));
    AddFiled(s.disk, a.assembly.value, chunk.index, chunk.data, env.write(0));
    if added.Ok? && added.value.Whole() {
      forall d | Filed(d) ensures Filed(Restarted(d, added.value, env).0) { RestartFiled(d, added.value, env); }
      FinishFiled(c, s.(disk := disk), env, id, a.(assembly := Some(added.value), wanted := a.wanted - {chunk.index}),
                  added.value, [env.write(1), env.write(2), env.write(3)], d => Restarted(d, added.value, env));
    }
  }

  lemma ReceiveFiled(c: Config, s: State, env: Env, p: Packet, pick: Option<ID>)
    requires Filed(s.disk)
    ensures Filed(Receive(c, s, env, p, pick).disk)
  {
    hide Filed, RootSummary, AcceptSummary, AcceptLeaf, ServeManifest, ServeSignature, ServeSummary, ServeChunks,
         Judge, TakeChunk, DecodeSignature, DecodeChunk, Manifests.DecodeManifest, Fail, OwnStep;
    if pick.Some? && pick.value in s.table.entries {
      var id, a := pick.value, s.table.entries[pick.value];
      if a.manifest.Some? && DecodeSignature(p.body).Some? {
        JudgeFiled(c, s, env, id, a, Signed(a.manifest.value, DecodeSignature(p.body).value), p.source);
      }
      if a.assembly.Some? && DecodeChunk(p.body).Some? {
        TakeFiled(c, s, env, id, a, DecodeChunk(p.body).value);
      }
    }
  }

  lemma TickKeepsDisk(c: Config, s: State, env: Env)
    ensures Tick(c, s, env).disk == s.disk
  {
    hide InitiateReconcile, ExpireJob, ExpireAcquisitions, Initiate, NextWork, HasOutstanding, SummaryOf, EncodeSummary, Jitter, Inventory, Outgoing;
  }

  /** What other processes put into the store is filed as well. */
  ghost predicate FiledEvent(e: Event) {
    e.Outside? ==> Filed(e.disk)
  }

  lemma StepFiled(c: Config, s: State, e: Event)
    requires Filed(s.disk) && FiledEvent(e)
    ensures Filed(Step(c, s, e).disk)
  {
    hide Filed, Receive, Tick, Decode;
    match e
    case Hear(env, data, pick) =>
      if Decode(data).Some? {
        ReceiveFiled(c, s, env, Decode(data).value, pick);
      }
    case Clock(env) => TickKeepsDisk(c, s, env);
    case Outside(_) =>
  }

  // ---- at the start -------------------------------------------------------------------

  lemma {:induction false} PartialsFiled(c: Config, s: State, env: Env, ids: seq<ID>)
    requires Filed(s.disk)
    ensures Filed(StartPartials(c, s, env, ids).disk)
  {
    hide Filed, StartPartial;
    if ids != [] {
      var n := |ids| - 1;
      PartialsFiled(c, s, env, ids[..n]);
      PartialFiled(c, StartPartials(c, s, env, ids[..n]), env, n, ids[n]);
    }
  }

  lemma PartialFiled(c: Config, s: State, env: Env, k: nat, id: ID)
    requires Filed(s.disk)
    ensures Filed(StartPartial(c, s, env, k, id).disk)
  {
    hide Filed, BeginOn, RemoveOn, Own, Accept, ReadManifest;
    if ReadManifest(s.disk, PartialManifest(id)).Some? {
      BeginFiled(s.disk, ReadManifest(s.disk, PartialManifest(id)).value, env.write(k));
    }
    var disk := LoadPartialOn(s.disk, id, env.write(k)).0;
    RemoveFiled(disk, id, env.order);
    OwnSame(s.(disk := disk), id, id);
    OwnSame(s.(disk := RemoveOn(disk, id, env.order)), id, id);
  }

  /** From a directory whose manifests are filed under their IDs, a node starts with one. */
  lemma StartFiled(c: Config, b: Boot)
    requires Filed(b.disk)
    ensures Filed(Booted(c, b).disk)
  {
    var blank := Blank(c, b.disk, b.tx, b.env);
    hide StartPartials, StartWanted, Inventory, Filed;
    PartialsFiled(c, blank, b.env, b.partials);
    WantedResumes(StartPartials(c, blank, b.env, b.partials), b.wanted, seq(16, _ => 0));
  }

  /** Opening other partial directories leaves the manifest of this one as it was; where
      there was none, one that names this ID may have come. */
  ghost predicate Leaves(a: Disk, b: Disk, id: ID) {
    var path := PartialManifest(id);
    if path in a then path in b && b[path] == a[path]
    else path in b ==> b[path].Json? && b[path].manifest.id == id
  }

  lemma BeginLeaves(disk: Disk, m: Manifest, w: WriteResult, id: ID)
    ensures Leaves(disk, BeginOn(disk, m, w).0, id)
  {
    hide LoadAll, SafeName;
  }

  lemma PartialLeaves(c: Config, s: State, env: Env, k: nat, other: ID, id: ID)
    requires other != id
    ensures Leaves(s.disk, StartPartial(c, s, env, k, other).disk, id)
  {
    hide BeginOn, RemoveOn, Own, Accept, ReadManifest;
    if ReadManifest(s.disk, PartialManifest(other)).Some? {
      BeginLeaves(s.disk, ReadManifest(s.disk, PartialManifest(other)).value, env.write(k), id);
    }
    var disk := LoadPartialOn(s.disk, other, env.write(k)).0;
    RemoveOnElsewhere(disk, other, env.order, PartialManifest(id));
    OwnSame(s.(disk := disk), other, other);
    OwnSame(s.(disk := RemoveOn(disk, other, env.order)), other, other);
  }

  lemma {:induction false} PartialsLeave(c: Config, s: State, env: Env, ids: seq<ID>, id: ID)
    requires id !in ids
    ensures Leaves(s.disk, StartPartials(c, s, env, ids).disk, id)
  {
    hide StartPartial;
    if ids != [] {
      var n := |ids| - 1;
      PartialsLeave(c, s, env, ids[..n], id);
      PartialLeaves(c, StartPartials(c, s, env, ids[..n]), env, n, ids[n], id);
    }
  }

  /** What the starting disk says of this directory: nothing, or a manifest that names its
      ID. */
  predicate NamesItself(disk: Disk, id: ID) {
    PartialManifest(id) in disk && disk[PartialManifest(id)].Json? ==> disk[PartialManifest(id)].manifest.id == id
  }

  /** What is resumed for an ID was read from the manifest on the starting disk, and carries
      that ID exactly if that file, where there is one, names it. */
  lemma StartNamed(c: Config, b: Boot, id: ID)
    requires Distinct(b.partials)
    requires id in Booted(c, b).table.entries && Booted(c, b).table.entries[id].assembly.Some?
    ensures var m := Booted(c, b).table.entries[id].assembly.value.manifest;
            && (PartialManifest(id) in b.disk ==> ReadManifest(b.disk, PartialManifest(id)) == Some(m))
            && (m.id == id <==> NamesItself(b.disk, id))
  {
    hide Booted, SignatureHolds, SignerAdmitted;
    StartResumes(c, b, id);
    var m := Booted(c, b).table.entries[id].assembly.value.manifest;
    var k: nat :| k < |b.partials| && b.partials[k] == id && ReadManifest(DiskAt(c, b, k), PartialManifest(id)) == Some(m);
    hide Encodable, Geometry, StartPartials;
    PartialsLeave(c, Blank(c, b.disk, b.tx, b.env), b.env, b.partials[..k], id);
  }

  /** So names are right at the start exactly if every directory that is resumed names
      itself. */
  lemma StartNames(c: Config, b: Boot)
    requires Distinct(b.partials)
    ensures var t := Booted(c, b);
            Named(t) <==> forall id :: id in t.table.entries && t.table.entries[id].assembly.Some? ==> NamesItself(b.disk, id)
  {
    hide Booted, NamesItself;
    var t := Booted(c, b);
    forall id | id in t.table.entries && t.table.entries[id].assembly.Some?
      ensures t.table.entries[id].assembly.value.manifest.id == id <==> NamesItself(b.disk, id) {
      StartNamed(c, b, id);
    }
  }

  /** A directory that a node starts from with an acquisition of `id` which assembles
      another publication: the partial manifest there names that one. */
  lemma MisfiledStart(c: Config, env: Env, tx: U16, id: ID) returns (b: Boot)
    requires id != c.sha([7])[..16] && env.write(0) == Written
    ensures !Filed(b.disk) && b.disk.Keys == {PartialManifest(id), Want(id)}
    ensures var t := Booted(c, b).table;
            id in t.entries && t.entries[id].assembly.Some? && t.entries[id].assembly.value.manifest.id == c.sha([7])[..16]
  {
    var m := OneOctet(c.sha, 1);
    var disk: Disk := map[PartialManifest(id) := Json(m), Want(id) := Plain([])];
    assert PartialManifest(id) in disk;
    b := Boot(disk, tx, env, [id], [], 0);
    assert [id][..0] == [];
    assert b.partials[..0] == [];
    hide Inventory;
    var blank := Blank(c, disk, tx, env);
    LoadsOther(c, disk, env, id);
    assert StartPartials(c, blank, env, [id]) == StartPartial(c, blank, env, 0, id);
  }

  lemma LoadsOther(c: Config, disk: Disk, env: Env, id: ID)
    requires id != c.sha([7])[..16] && env.write(0) == Written
    requires var m := OneOctet(c.sha, 1); disk == map[PartialManifest(id) := Json(m), Want(id) := Plain([])]
    ensures var (after, loaded) := LoadPartialOn(disk, id, env.write(0));
            loaded.Ok? && loaded.value.manifest == OneOctet(c.sha, 1) && Wanted(after, id)
  {
    var m := OneOctet(c.sha, 1);
    var after := disk[PartialManifest(m.id) := ToJson(m)];
    assert SafeName(m.filename);
    assert Loaded(after, m, 0) == Some(Fresh(m));
    assert Loaded(after, m, 1) == Some(Fresh(m));
  }

  // ---- runs ---------------------------------------------------------------------------

  /** Over whole runs: filed manifests stay filed, and names stay right. */
  lemma {:induction false} RunFiled(c: Config, states: seq<State>, events: seq<Event>, k: nat)
    requires Run(c, states, events) && k < |states| && Filed(states[0].disk)
    requires forall i :: 0 <= i < |events| ==> FiledEvent(events[i])
    ensures Filed(states[k].disk)
  {
    hide Step, Possible, Filed, FiledEvent;
    if k > 0 {
      RunFiled(c, states, events, k - 1);
      StepFiled(c, states[k - 1], events[k - 1]);
    }
  }

  lemma {:induction false} RunNamed(c: Config, states: seq<State>, events: seq<Event>, k: nat)
    requires Run(c, states, events) && Inv(c, states[0]) && Named(states[0]) && k < |states|
    ensures Named(states[k])
  {
    hide Step, Possible, Named, Inv;
    if k > 0 {
      RunNamed(c, states, events, k - 1);
      RunKeeps(c, states, events, k - 1);
      NamedKeeps(c, states[k - 1], events[k - 1]);
    }
  }

  // ---- commits ------------------------------------------------------------------------

  ghost predicate NewlyCommitted(s: State, t: State, id: ID) {
    id in s.table.entries && id !in t.table.entries && id in t.settled && t.settled[id] == Committed
  }

  /** Whatever event makes an acquisition end as committed: its object is complete then,
      with the length, hash and signature of its manifest, its ID is that of its
      content, and if the directory could be listed the inventory has it. */
  lemma CommittedIsVerified(c: Config, s: State, e: Event, id: ID)
    requires Inv(c, s) && Named(s) && Possible(c, s, e) && NewlyCommitted(s, Step(c, s, e), id)
    ensures var t := Step(c, s, e);
            CompleteOn(c.sha, c.ed, t.disk, id) && id == ContentID(c, t.disk, id) && (e.env.listing ==> id in t.inventory)
  {
    hide Inv, Named, Step, Possible, CompleteOn, ContentID;
    EndsForReason(c, s, e, id);
  }

  // ---- the inventory ------------------------------------------------------------------

  lemma TickLists(c: Config, s: State, env: Env)
    ensures Listing(c, s, Tick(c, s, env))
  {
    hide InitiateReconcile, ExpireJob, ExpireAcquisitions, Initiate, NextWork, HasOutstanding, SummaryOf, EncodeSummary, Jitter, Inventory, Outgoing;
  }

  lemma StepLists(c: Config, s: State, e: Event)
    ensures Listing(c, s, Step(c, s, e))
  {
    hide RootSummary, ServeManifest, ServeChunks, AcceptManifest, AcceptChunk, ServeSignature, AcceptSignature,
         ServeSummary, AcceptSummary, AcceptLeaf, Tick, Decode, Inventory;
    match e
    case Hear(env, data, pick) =>
      if Decode(data).Some? {
        assert Listing(c, s, Receive(c, s, env, Decode(data).value, pick));
      }
    case Clock(env) => TickLists(c, s, env);
    case Outside(_) =>
  }

  /** A node's inventory is what was complete, with right length, hash and signature, when
      the inventory was taken. */
  lemma {:induction false} InventoryWasComplete(c: Config, states: seq<State>, events: seq<Event>, k: nat)
    requires Run(c, states, events) && k < |states|
    requires states[0].inventory == Inventory(c.sha, c.ed, states[0].disk)
    ensures exists j :: 0 <= j <= k && Distinct(states[k].inventory)
              && forall id :: id in states[k].inventory <==> CompleteOn(c.sha, c.ed, states[j].disk, id)
  {
    hide Step, Possible, Inventory, CompleteOn;
    if k > 0 {
      InventoryWasComplete(c, states, events, k - 1);
      StepLists(c, states[k - 1], events[k - 1]);
    }
  }

  /** And as long as whatever else writes to the store files manifests under their IDs,
      every ID that is advertised is that of a content which was on disk. */
  lemma InventoryIDs(c: Config, states: seq<State>, events: seq<Event>, k: nat)
    requires Run(c, states, events) && k < |states|
    requires states[0].inventory == Inventory(c.sha, c.ed, states[0].disk)
    requires Filed(states[0].disk) && forall i :: 0 <= i < |events| ==> FiledEvent(events[i])
    ensures exists j :: 0 <= j <= k && forall id :: id in states[k].inventory <==>
              CompleteOn(c.sha, c.ed, states[j].disk, id) && id == ContentID(c, states[j].disk, id)
  {
    hide Run, Inventory, CompleteOn, ContentID, Filed, FiledEvent;
    InventoryWasComplete(c, states, events, k);
    var j :| 0 <= j <= k && forall id :: id in states[k].inventory <==> CompleteOn(c.sha, c.ed, states[j].disk, id);
    RunFiled(c, states, events, j);
    forall id | CompleteOn(c.sha, c.ed, states[j].disk, id) ensures id == ContentID(c, states[j].disk, id) {
      FiledContent(c, states[j].disk, id);
    }
  }

  lemma FiledContent(c: Config, disk: Disk, id: ID)
    requires CompleteOn(c.sha, c.ed, disk, id) && Filed(disk)
    ensures id == ContentID(c, disk, id)
  {
    CompleteDescribes(c.sha, c.ed, disk, id);
  }
}
