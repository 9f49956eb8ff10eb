/** What a node has complete stays complete: its inventory only grows, as long as nobody
    else writes to the store and no other content is committed over a complete object. */
module NodeStock {
  import opened Bytes
  import opened Seqs
  import opened Radix
  import opened Manifests
  import opened Assemblies
  import opened Stores
  import opened NodeProtocol
  import opened Scheduler
  import opened NodeState
  import opened NodeSteps
  import opened NodeInvariants
  import opened NodeSafety
  import opened NodeFrames
  import opened NodeOutcomes
  import opened NodeGate
  import opened NodeFiling
  import opened Restarts
  import opened NodeDurability
  import opened Coverage
  import opened CoverageRuns

  /** Whatever is advertised is complete on disk. */
  ghost predicate Stocked(c: Config, s: State) {
    forall id :: id in s.inventory ==> CompleteOn(c.sha, c.ed, s.disk, id)
  }

  /** If the object of this manifest is complete already, it has the same hash and length. */
  ghost predicate Agreeing(c: Config, disk: Disk, m: Manifest) {
    CompleteOn(c.sha, c.ed, disk, m.id) ==>
      disk[ObjectManifest(m.id)].manifest.sha == m.sha && disk[ObjectManifest(m.id)].manifest.length == m.length
  }

  /** The event is the node's own, and what it may commit agrees with what is complete. */
  ghost predicate Undisturbed(c: Config, s: State, e: Event) {
    && !e.Outside?
    && (forall id :: id in s.table.entries && s.table.entries[id].assembly.Some? ==>
          Agreeing(c, s.disk, s.table.entries[id].assembly.value.manifest))
    && forall id :: Judged(c, s, e, id).Some? ==> Agreeing(c, s.disk, Judged(c, s, e, id).value)
  }

  // ---- the object of one publication --------------------------------------------------

  /** Writes that are not to its object directory leave an object as it is. */
  ghost predicate SameObject(a: Disk, b: Disk, id: ID) {
    && (ObjectContent(id) in a <==> ObjectContent(id) in b) && (ObjectContent(id) in a ==> a[ObjectContent(id)] == b[ObjectContent(id)])
    && (ObjectManifest(id) in a <==> ObjectManifest(id) in b) && (ObjectManifest(id) in a ==> a[ObjectManifest(id)] == b[ObjectManifest(id)])
    && (ObjectComplete(id) in a <==> ObjectComplete(id) in b)
  }

  lemma SameComplete(c: Config, a: Disk, b: Disk, m: Manifest)
    requires SameObject(a, b, m.id)
    ensures CompleteOn(c.sha, c.ed, a, m.id) <==> CompleteOn(c.sha, c.ed, b, m.id)
    ensures Agreeing(c, a, m) <==> Agreeing(c, b, m)
  {
    hide SignatureHolds, Encodable, Geometry;
  }

  lemma RemoveSame(disk: Disk, id: ID, order: seq<FilePath>)
    ensures SameObject(disk, RemoveOn(disk, id, order), id)
  {
    RemoveOnElsewhere(disk, id, order, ObjectContent(id));
    RemoveOnElsewhere(disk, id, order, ObjectManifest(id));
    RemoveOnElsewhere(disk, id, order, ObjectComplete(id));
  }

  lemma BeginSame(disk: Disk, m: Manifest, w: WriteResult)
    ensures SameObject(disk, BeginOn(disk, m, w).0, m.id)
  {
    hide LoadAll, SafeName;
  }

  /** Publishing again what agrees leaves the object complete after every write. */
  lemma PublishStocks(c: Config, disk: Disk, p: Parts, content: seq<byte>, w: seq<WriteResult>)
    requires |w| == 3 && Storable(p.manifest) && SignatureHolds(c.ed, p.manifest)
    requires CompleteOn(c.sha, c.ed, disk, p.manifest.id) && Agreeing(c, disk, p.manifest)
    requires |content| == p.manifest.length && c.sha(content) == p.manifest.sha
    ensures CompleteOn(c.sha, c.ed, PublishOn(disk, p.manifest, content, w).0, p.manifest.id)
  {
    hide SignatureHolds, Encodable, Geometry, SafeName;
  }

  lemma WholeLength(p: Parts)
    requires p.Valid() && p.Whole() && Geometry(p.manifest)
    ensures |Joined(p.chunks)| == p.manifest.length
  {
    JoinedLength(p, |p.chunks|);
    assert p.chunks[..|p.chunks|] == p.chunks;
    ChunksCoverContent(p.manifest);
  }

  lemma CommitStocks(c: Config, disk: Disk, p: Parts, w: seq<WriteResult>, order: seq<FilePath>)
    requires p.Valid() && p.Whole() && Storable(p.manifest) && SignatureHolds(c.ed, p.manifest) && |w| == 3
    requires CompleteOn(c.sha, c.ed, disk, p.manifest.id) && Agreeing(c, disk, p.manifest)
    ensures CompleteOn(c.sha, c.ed, CommitOn(c.sha, c.ed, disk, p, w, order).0, p.manifest.id)
  {
    hide CompleteOn, SignatureHolds, PublishOn, RemoveOn, HasPartialFiles, Joined, Agreeing, SameObject, Encodable, Geometry, SafeName;
    if ContentOf(c.sha, p).Ok? {
      var content := Joined(p.chunks);
      WholeLength(p);
      PublishStocks(c, disk, p, content, w);
      var published := PublishOn(disk, p.manifest, content, w).0;
      RemoveSame(published, p.manifest.id, order);
      SameComplete(c, published, RemoveOn(published, p.manifest.id, order), p.manifest);
    }
  }

  /** The object of the acquisition stays complete, if it was and agrees. */
  ghost predicate OwnStock(c: Config, s: State, t: State, m: Manifest) {
    CompleteOn(c.sha, c.ed, s.disk, m.id) && Agreeing(c, s.disk, m) ==> CompleteOn(c.sha, c.ed, t.disk, m.id)
  }

  lemma FinishStocks(c: Config, s: State, env: Env, id: ID, a: Acquisition, parts: Assembled, w: seq<WriteResult>,
                     spoiled: Disk -> (Disk, Option<Assembled>))
    requires |w| == 3 && id in s.table.entries && parts.Whole() && Storable(parts.manifest) && SignatureHolds(c.ed, parts.manifest)
    requires forall d :: SameObject(d, spoiled(d).0, parts.manifest.id)
    ensures OwnStock(c, s, Finish(c, s, env, id, a, parts, w, spoiled), parts.manifest)
  {
    hide CompleteOn, SignatureHolds, CommitOn, OwnStep, Fail, RemoveEntry, ClearInspected, Inventory, Agreeing, SameObject, Storable;
    var m := parts.manifest;
    var (disk, r) := CommitOn(c.sha, c.ed, s.disk, parts, w, env.order);
    if CompleteOn(c.sha, c.ed, s.disk, m.id) && Agreeing(c, s.disk, m) {
      CommitStocks(c, s.disk, parts, w, env.order);
      SameComplete(c, disk, spoiled(disk).0, m);
      SettleEnds(Refresh(c, s.(disk := disk), env), id, Committed);
    }
  }

  lemma StartStocks(c: Config, s: State, env: Env, id: ID, a: Acquisition, m: Manifest)
    requires id in s.table.entries && m.id == id && Presentable(m) && Encodable(m) && SignatureHolds(c.ed, m)
    ensures OwnStock(c, s, StartAssembly(c, s, env, id, a, m), m)
  {
    hide BeginOn, Finish, RemoveOn, OwnStep, SafeName, Geometry, Encodable, SignatureHolds, Fail, CompleteOn, Agreeing, SameObject;
    BeginSame(s.disk, m, env.write(1));
    var (disk, begun) := BeginOn(s.disk, m, env.write(1));
    SameComplete(c, s.disk, disk, m);
    if begun.Ok? && begun.value.Whole() {
      forall d ensures SameObject(d, RemoveOn(d, id, env.order), id) { RemoveSame(d, id, env.order); }
      FinishStocks(c, s.(disk := disk), env, id, a.(assembly := Some(begun.value), manifest := None, manifestSource := 0), begun.value,
                   [env.write(2), env.write(3), env.write(4)], d => (RemoveOn(d, id, env.order), None));
    }
  }

  lemma SaveSame(disk: Disk, m: Manifest, w: WriteResult)
    ensures SameObject(disk, SaveKnownOn(disk, m, w).0, m.id)
  {
    hide Encodable;
  }

  lemma JudgeStocks(c: Config, s: State, env: Env, id: ID, a: Acquisition, m: Manifest, source: NodeID)
    requires id in s.table.entries && m.id == id && Presentable(m)
    ensures OwnStock(c, s, Judge(c, s, env, id, a, m, source), m)
  {
    hide Accept, StartAssembly, Fail, Settle, Encodable, Presentable, SignatureHolds, OwnStep, MarkInspected, SaveKnownOn, CompleteOn, Agreeing,
         SameObject;
    var marked := s.(inspected := MarkInspected(s.inspected, m.id, source));
    SettleEnds(marked, id, Settlement.Rejected);
    var (disk, saved) := SaveKnownOn(s.disk, m, env.write(0));
    SaveSame(s.disk, m, env.write(0));
    SameComplete(c, s.disk, disk, m);
    SettleEnds(marked.(disk := disk), id, Deferred);
    if SignatureHolds(c.ed, m) && saved {
      StartStocks(c, marked.(disk := disk), env, id, a, m);
    }
  }

  lemma AddSame(disk: Disk, p: Parts, index: nat, data: seq<byte>, w: WriteResult)
    requires p.Valid()
    ensures SameObject(disk, AddOn(disk, p, index, data, w).0, p.manifest.id)
  {
    hide AddChunk;
  }

  lemma RestartSame(disk: Disk, parts: Assembled, env: Env)
    ensures SameObject(disk, Restarted(disk, parts, env).0, parts.manifest.id)
  {
    hide RemoveOn, BeginOn, HasPartialFiles;
    RemoveSame(disk, parts.manifest.id, env.order);
    BeginSame(RemoveOn(disk, parts.manifest.id, env.order), parts.manifest, env.write(4));
  }

  lemma TakeStocks(c: Config, s: State, env: Env, id: ID, a: Acquisition, chunk: ChunkData)
    requires id in s.table.entries && a.assembly.Some? && Storable(a.assembly.value.manifest) && SignatureHolds(c.ed, a.assembly.value.manifest)
    ensures OwnStock(c, s, TakeChunk(c, s, env, id, a, chunk), a.assembly.value.manifest)
  {
    hide AddOn, Finish, Restarted, OwnStep, SignatureHolds, Storable, CompleteOn, Agreeing, SameObject;
    var m := a.assembly.value.manifest;
    AddSame(s.disk, a.assembly.value, chunk.index, chunk.data, env.write(0));
    var (disk, added) := AddOn(s.disk, a.assembly.value, chunk.index, chunk.data, env.write(0));
    SameComplete(c, s.disk, disk, m);
    if added.Ok? && added.value.Whole() {
      forall d ensures SameObject(d, Restarted(d, added.value, env).0, m.id) { RestartSame(d, added.value, env); }
      FinishStocks(c, s.(disk := disk), env, id, a.(assembly := Some(added.value), wanted := a.wanted - {chunk.index}), added.value,
                   [env.write(1), env.write(2), env.write(3)], d => Restarted(d, added.value, env));
    }
  }

  // ---- one step -----------------------------------------------------------------------

  /** No object that was complete is lost. */
  ghost predicate KeepsComplete(c: Config, a: Disk, b: Disk) {
    forall id :: CompleteOn(c.sha, c.ed, a, id) ==> CompleteOn(c.sha, c.ed, b, id)
  }

  lemma TouchesComplete(c: Config, a: Disk, b: Disk, id: ID, other: ID)
    requires Touches(a, b, id) && other != id && CompleteOn(c.sha, c.ed, a, other)
    ensures CompleteOn(c.sha, c.ed, b, other)
  {
    assert (ObjectComplete(other) in a <==> ObjectComplete(other) in b) && (ObjectManifest(other) in a <==> ObjectManifest(other) in b);
    assert ObjectContent(other) in a <==> ObjectContent(other) in b;
    hide SignatureHolds, Encodable, Geometry;
  }

  lemma OwnKeepsComplete(c: Config, s: State, t: State, m: Manifest)
    requires OwnStock(c, s, t, m) && Agreeing(c, s.disk, m) && Touches(s.disk, t.disk, m.id)
    ensures KeepsComplete(c, s.disk, t.disk)
  {
    hide CompleteOn, Agreeing, Touches;
    forall id | CompleteOn(c.sha, c.ed, s.disk, id) ensures CompleteOn(c.sha, c.ed, t.disk, id) {
      if id != m.id {
        TouchesComplete(c, s.disk, t.disk, m.id, id);
      }
    }
  }

  lemma SignatureStocks(c: Config, s: State, e: Event, id: ID)
    requires Inv(c, s) && Named(s) && AllDurable(c, s) && Judged(c, s, e, id).Some? && Agreeing(c, s.disk, Judged(c, s, e, id).value)
    ensures KeepsComplete(c, s.disk, Step(c, s, e).disk)
  {
    hide Inv, Named, AllDurable, Judge, DecodeSignature, Decode, OwnStep, Agreeing, CompleteOn, Touches, Safe, AcceptChunk, Presentable;
    var a, p := s.table.entries[id], Decode(e.data).value;
    var m := Signed(a.manifest.value, DecodeSignature(p.body).value);
    NamedPresentable(c, s, id, DecodeSignature(p.body).value);
    PickDurable(c, s, e.env, p, id);
    TouchesRefl(s.disk, id);
    JudgeStocks(c, s, e.env, id, a, m, p.source);
    OwnKeepsComplete(c, s, Step(c, s, e), m);
  }

  lemma ChunkStocks(c: Config, s: State, e: Event, id: ID)
    requires Inv(c, s) && Named(s) && AllDurable(c, s) && e.Hear? && Decode(e.data).Some? && Decode(e.data).value.kind == CHUNK
    requires e.pick == Some(id) && id in s.table.entries
    requires s.table.entries[id].assembly.Some? ==> Agreeing(c, s.disk, s.table.entries[id].assembly.value.manifest)
    ensures KeepsComplete(c, s.disk, Step(c, s, e).disk)
  {
    hide Inv, Named, AllDurable, TakeChunk, DecodeChunk, Decode, OwnStep, Agreeing, CompleteOn, Touches, Safe, LostTo, AcceptSignature, SignatureHolds, OnDisk,
         Storable;
    var a, p := s.table.entries[id], Decode(e.data).value;
    PickDurable(c, s, e.env, p, id);
    if a.waiting.ForChunks? && DecodeChunk(p.body).Some? {
      WaitingOnDisk(c, s, id);
      NamedManifest(s, id);
      TakeStocks(c, s, e.env, id, a, DecodeChunk(p.body).value);
      if AcceptChunk(c, s, e.env, p, Some(id)) != s {
        OwnKeepsComplete(c, s, TakeChunk(c, s, e.env, id, a, DecodeChunk(p.body).value), a.assembly.value.manifest);
      }
    }
  }

  lemma NamedManifest(s: State, id: ID)
    requires Named(s) && id in s.table.entries && s.table.entries[id].assembly.Some?
    ensures s.table.entries[id].assembly.value.manifest.id == id
  {}

  lemma OtherKeepsDisk(c: Config, s: State, e: Event)
    requires !e.Outside?
    requires e.Hear? && Decode(e.data).Some? ==>
               (Decode(e.data).value.kind != SIGNATURE && Decode(e.data).value.kind != CHUNK)
               || (Decode(e.data).value.kind == SIGNATURE && (e.pick.Some? ==> Judged(c, s, e, e.pick.value).None?))
               || (Decode(e.data).value.kind == CHUNK && (e.pick.Some? ==> e.pick.value !in s.table.entries))
    ensures Step(c, s, e).disk == s.disk
  {
    hide Decode, Tick, RootSummary, AcceptSummary, AcceptLeaf, ServeManifest, ServeSignature, ServeSummary, ServeChunks, AcceptManifest,
         Judge, TakeChunk, DecodeSignature, DecodeChunk, Fail, OwnStep;
    match e
    case Hear(env, data, pick) =>
      if Decode(data).Some? {
        ManifestKeepsDisk(c, s, env, Decode(data).value, pick);
      }
    case Clock(env) => TickKeepsDisk(c, s, env);
  }

  lemma ManifestKeepsDisk(c: Config, s: State, env: Env, p: Packet, pick: Option<ID>)
    ensures AcceptManifest(c, s, env, p, pick).disk == s.disk
  {
    hide Manifests.DecodeManifest, Fail, OwnStep;
  }

  lemma StepKeepsComplete(c: Config, s: State, e: Event)
    requires Inv(c, s) && Named(s) && AllDurable(c, s) && Undisturbed(c, s, e)
    ensures KeepsComplete(c, s.disk, Step(c, s, e).disk)
  {
    hide Inv, Named, AllDurable, Step, Judged, Agreeing, CompleteOn, Decode;
    if e.Hear? && Decode(e.data).Some? && Decode(e.data).value.kind == SIGNATURE && e.pick.Some? && Judged(c, s, e, e.pick.value).Some? {
      SignatureStocks(c, s, e, e.pick.value);
    } else if e.Hear? && Decode(e.data).Some? && Decode(e.data).value.kind == CHUNK && e.pick.Some? && e.pick.value in s.table.entries {
      ChunkStocks(c, s, e, e.pick.value);
    } else {
      OtherKeepsDisk(c, s, e);
    }
  }

  /** The inventory only grows. */
  lemma StockGrows(c: Config, s: State, e: Event)
    requires Inv(c, s) && Named(s) && AllDurable(c, s) && Stocked(c, s) && Undisturbed(c, s, e)
    ensures Grows(s, Step(c, s, e)) && Stocked(c, Step(c, s, e))
  {
    hide Inv, Named, AllDurable, Step, Undisturbed, CompleteOn, Inventory;
    StepKeepsComplete(c, s, e);
    StepLists(c, s, e);
  }

  /** So in every run in which nobody else writes to the store. */
  lemma {:induction false} RunGrows(c: Config, states: seq<State>, events: seq<Event>, k: nat)
    requires Run(c, states, events) && k < |states|
    requires Inv(c, states[0]) && Named(states[0]) && AllDurable(c, states[0]) && Stocked(c, states[0])
    requires forall i :: 0 <= i < |events| ==> Undisturbed(c, states[i], events[i])
    ensures Stocked(c, states[k]) && (k < |events| ==> Grows(states[k], states[k + 1]))
  {
    hide Inv, Named, AllDurable, Stocked, Step, Possible, Grows, Judged, Agreeing;
    if k > 0 {
      RunGrows(c, states, events, k - 1);
      RunKeeps(c, states, events, k - 1);
      RunNamed(c, states, events, k - 1);
      RunDurable(c, states, events, k - 1);
      StockGrows(c, states[k - 1], events[k - 1]);
    }
    if k < |events| {
      RunKeeps(c, states, events, k);
      RunNamed(c, states, events, k);
      RunDurable(c, states, events, k);
      StockGrows(c, states[k], events[k]);
    }
  }

  // ---- from the start -----------------------------------------------------------------

  lemma RemoveKeepsComplete(c: Config, disk: Disk, id: ID, order: seq<FilePath>, other: ID)
    ensures CompleteOn(c.sha, c.ed, RemoveOn(disk, id, order), other) <==> CompleteOn(c.sha, c.ed, disk, other)
  {
    RemoveOnElsewhere(disk, id, order, ObjectContent(other));
    RemoveOnElsewhere(disk, id, order, ObjectManifest(other));
    RemoveOnElsewhere(disk, id, order, ObjectComplete(other));
    hide RemoveOn, SignatureHolds, Encodable, Geometry;
  }

  lemma OpenKeepsComplete(c: Config, disk: Disk, id: ID, w: WriteResult, other: ID)
    ensures CompleteOn(c.sha, c.ed, LoadPartialOn(disk, id, w).0, other) <==> CompleteOn(c.sha, c.ed, disk, other)
  {
    hide LoadAll, SafeName, SignatureHolds, Encodable, Geometry;
  }

  lemma PartialStocked(c: Config, s: State, env: Env, k: nat, id: ID)
    requires Stocked(c, s)
    ensures Stocked(c, StartPartial(c, s, env, k, id))
  {
    hide LoadPartialOn, RemoveOn, Accept, CompleteOn, Storable;
    var disk := LoadPartialOn(s.disk, id, env.write(k)).0;
    forall other
      ensures CompleteOn(c.sha, c.ed, disk, other) <==> CompleteOn(c.sha, c.ed, s.disk, other)
      ensures CompleteOn(c.sha, c.ed, RemoveOn(disk, id, env.order), other) <==> CompleteOn(c.sha, c.ed, s.disk, other) {
      OpenKeepsComplete(c, s.disk, id, env.write(k), other);
      RemoveKeepsComplete(c, disk, id, env.order, other);
    }
  }

  lemma {:induction false} PartialsStocked(c: Config, s: State, env: Env, ids: seq<ID>)
    requires Stocked(c, s)
    ensures Stocked(c, StartPartials(c, s, env, ids))
  {
    hide StartPartial, Stocked;
    if ids != [] {
      var n := |ids| - 1;
      PartialsStocked(c, s, env, ids[..n]);
      PartialStocked(c, StartPartials(c, s, env, ids[..n]), env, n, ids[n]);
    }
  }

  lemma {:induction false} WantedStocked(c: Config, s: State, ids: seq<ID>)
    requires Stocked(c, s)
    ensures Stocked(c, StartWanted(s, ids)) && StartWanted(s, ids).peers == s.peers
  {
    hide CompleteOn, AddCandidate;
    if ids != [] {
      WantedStocked(c, s, ids[..|ids| - 1]);
    }
  }

  lemma {:induction false} PartialsNoPeers(c: Config, s: State, env: Env, ids: seq<ID>)
    ensures StartPartials(c, s, env, ids).peers == s.peers
  {
    if ids != [] {
      PartialsNoPeers(c, s, env, ids[..|ids| - 1]);
      hide LoadPartialOn, Accept, RemoveOn, StartPartials;
    }
  }

  /** A node starts with what is complete, and tracks nobody yet. */
  lemma BootStocked(c: Config, b: Boot)
    ensures Stocked(c, Booted(c, b)) && Booted(c, b).peers.generations == map[]
  {
    hide StartPartials, StartWanted, CompleteOn;
    var blank := Blank(c, b.disk, b.tx, b.env);
    PartialsStocked(c, blank, b.env, b.partials);
    PartialsNoPeers(c, blank, b.env, b.partials);
    WantedStocked(c, StartPartials(c, blank, b.env, b.partials), b.wanted);
  }

  /** No discovery is lost by a node that is left to itself: from its start, with a peer
      that answers what it was asked, as long as digests do not collide, there is room for
      one more packet, and nobody else writes to the store. */
  lemma NothingLostFromStart(c: Config, b: Boot, states: seq<State>, events: seq<Event>, k: nat, peer: NodeID, remote: seq<ID>)
    requires Run(c, states, events) && states[0] == Booted(c, b) && Named(states[0]) && k < |states|
    requires forall i :: 0 <= i < |events| ==>
               && HonestEvent(c, states[i], events[i], peer, remote) && NoCollision(c.sha, states[i].inventory, remote)
               && Roomy(states[i]) && Undisturbed(c, states[i], events[i])
    ensures Tracks(states[k], peer, InventoryGeneration(c.sha, remote)) ==>
              forall id :: id in remote ==> Accounted(c, states, events, k, peer, id)
  {
    hide Inv, Named, AllDurable, Stocked, Step, Possible, Booted, HonestEvent, NoCollision, Roomy, Undisturbed, InventoryGeneration, Accounted,
         Grows, AllCovered;
    StartsValid(c, b);
    BootDurable(c, b);
    BootStocked(c, b);
    forall i | 0 <= i < |events| ensures Grows(states[i], Step(c, states[i], events[i])) {
      RunGrows(c, states, events, i);
      assert states[i + 1] == Step(c, states[i], events[i]);
    }
    NothingLost(c, states, events, k, peer, remote);
  }
}
