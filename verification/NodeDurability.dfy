/** What a node has assembled is on its disk: over every run in which nobody else writes
    to the store, a restart finds again what was received. */
module NodeDurability {
  import opened Bytes
  import opened Seqs
  import opened Radix
  import opened Manifests
  import opened Assemblies
  import opened Stores
  import opened StoreOperations
  import opened NodeProtocol
  import opened Scheduler
  import opened NodeState
  import opened NodeSteps
  import opened NodeInvariants
  import opened NodeSafety
  import opened NodeFrames
  import opened NodeOutcomes
  import opened NodeGate
  import opened NodeFiling
  import opened Restarts
  import D = Demultiplexer

  /** The partial directory holds the assembly; or it is whole, and its object is complete
      already. */
  ghost predicate Safe(c: Config, disk: Disk, p: Parts) {
    OnDisk(disk, p) || (p.Whole() && CompleteOn(c.sha, c.ed, disk, p.manifest.id))
  }

  /** Or it is whole and its hash is wrong. In this case alone memory may be ahead of the
      disk. */
  ghost predicate Durable(c: Config, disk: Disk, p: Parts) {
    Safe(c, disk, p) || (p.Whole() && ContentOf(c.sha, p) == Err(HashMismatch))
  }

  ghost predicate AllDurable(c: Config, s: State) {
    forall id :: id in s.table.entries && s.table.entries[id].assembly.Some? ==> Durable(c, s.disk, s.table.entries[id].assembly.value)
  }

  // ---- files of other publications ----------------------------------------------------

  /** Equal outside the files of one publication. */
  ghost predicate Touches(a: Disk, b: Disk, id: ID) {
    forall p: FilePath :: p.id != id ==> (p in a <==> p in b) && (p in a ==> a[p] == b[p])
  }

  lemma TouchesTrans(a: Disk, b: Disk, d: Disk, id: ID)
    requires Touches(a, b, id) && Touches(b, d, id)
    ensures Touches(a, d, id)
  {}

  lemma TouchesKeeps(c: Config, a: Disk, b: Disk, id: ID, p: Parts)
    requires Touches(a, b, id) && p.manifest.id != id
    ensures Safe(c, a, p) ==> Safe(c, b, p)
    ensures Durable(c, a, p) ==> Durable(c, b, p)
  {
    var other := p.manifest.id;
    assert (ObjectComplete(other) in a <==> ObjectComplete(other) in b) && (ObjectManifest(other) in a <==> ObjectManifest(other) in b);
    assert (ObjectContent(other) in a <==> ObjectContent(other) in b) && (PartialManifest(other) in a <==> PartialManifest(other) in b);
    if OnDisk(a, p) {
      forall i: nat | i < |p.received| ensures ChunkOnDisk(b, p, i) {
        assert ChunkOnDisk(a, p, i);
        assert PartialChunk(other, i) in a <==> PartialChunk(other, i) in b;
      }
    }
    hide ContentOf, SignatureHolds;
  }

  lemma TouchesOnDisk(a: Disk, b: Disk, id: ID, p: Parts)
    requires Touches(a, b, id) && p.manifest.id != id && OnDisk(a, p)
    ensures OnDisk(b, p)
  {
    var other := p.manifest.id;
    assert PartialManifest(other) in a <==> PartialManifest(other) in b;
    forall i: nat | i < |p.received| ensures ChunkOnDisk(b, p, i) {
      assert ChunkOnDisk(a, p, i);
      assert PartialChunk(other, i) in a <==> PartialChunk(other, i) in b;
    }
  }

  lemma WriteTouches(disk: Disk, path: FilePath, file: File, w: WriteResult)
    ensures Touches(disk, WriteOn(disk, path, file, w), path.id)
  {}

  lemma RemoveTouches(disk: Disk, id: ID, order: seq<FilePath>)
    ensures Touches(disk, RemoveOn(disk, id, order), id)
  {
    forall p: FilePath | p.id != id
      ensures (p in disk <==> p in RemoveOn(disk, id, order)) && (p in disk ==> disk[p] == RemoveOn(disk, id, order)[p]) {
      RemoveOnElsewhere(disk, id, order, p);
    }
  }

  lemma BeginTouches(disk: Disk, m: Manifest, w: WriteResult)
    ensures Touches(disk, BeginOn(disk, m, w).0, m.id)
  {
    WriteTouches(disk, PartialManifest(m.id), ToJson(m), w);
    hide LoadAll, SafeName;
  }

  lemma CommitTouches(sha: Hash, ed: Verifier, disk: Disk, p: Parts, w: seq<WriteResult>, order: seq<FilePath>)
    requires |w| == 3
    ensures Touches(disk, CommitOn(sha, ed, disk, p, w, order).0, p.manifest.id)
  {
    hide Touches, SignatureHolds, RemoveOn, HasPartialFiles, WriteOn;
    var m := p.manifest;
    TouchesRefl(disk, m.id);
    if ContentOf(sha, p).Ok? {
      var content := ContentOf(sha, p).value;
      var first := WriteOn(disk, ObjectContent(m.id), Plain(content), w[0]);
      var second := WriteOn(first, ObjectManifest(m.id), ToJson(m), w[1]);
      var third := WriteOn(second, ObjectComplete(m.id), Plain(VERIFIED), w[2]);
      WriteTouches(disk, ObjectContent(m.id), Plain(content), w[0]);
      WriteTouches(first, ObjectManifest(m.id), ToJson(m), w[1]);
      WriteTouches(second, ObjectComplete(m.id), Plain(VERIFIED), w[2]);
      TouchesTrans(disk, first, second, m.id);
      TouchesTrans(disk, second, third, m.id);
      RemoveTouches(third, m.id, order);
      TouchesTrans(disk, third, RemoveOn(third, m.id, order), m.id);
    }
  }

  lemma TouchesRefl(disk: Disk, id: ID)
    ensures Touches(disk, disk, id)
  {}

  lemma RestartTouches(disk: Disk, parts: Assembled, env: Env)
    ensures Touches(disk, Restarted(disk, parts, env).0, parts.manifest.id)
  {
    hide Touches, RemoveOn, BeginOn, HasPartialFiles;
    var m := parts.manifest;
    RemoveTouches(disk, m.id, env.order);
    BeginTouches(RemoveOn(disk, m.id, env.order), m, env.write(4));
    TouchesTrans(disk, RemoveOn(disk, m.id, env.order), BeginOn(RemoveOn(disk, m.id, env.order), m, env.write(4)).0, m.id);
  }

  // ---- the publication itself ---------------------------------------------------------

  /** What a commit that fails leaves of a whole assembly. */
  lemma CommitDurable(c: Config, disk: Disk, p: Parts, w: seq<WriteResult>, order: seq<FilePath>)
    requires OnDisk(disk, p) && p.Whole() && Storable(p.manifest) && SignatureHolds(c.ed, p.manifest) && |w| == 3
    ensures var (after, r) := CommitOn(c.sha, c.ed, disk, p, w, order);
            && Safe(c, after, p)
            && (r == Err(WrongHash) ==> after == disk && ContentOf(c.sha, p) == Err(HashMismatch))
  {
    hide OnDisk, CompleteOn, SignatureHolds, Storable, HasPartialFiles, RemoveOn, Joined;
    var m := p.manifest;
    if ContentOf(c.sha, p).Ok? {
      var content := ContentOf(c.sha, p).value;
      PublishKeeps(disk, p, content, w);
      var published := PublishOn(disk, m, content, w).0;
      RemoveOnElsewhere(published, m.id, order, ObjectContent(m.id));
      RemoveOnElsewhere(published, m.id, order, ObjectManifest(m.id));
      RemoveOnElsewhere(published, m.id, order, ObjectComplete(m.id));
      if PublishOn(disk, m, content, w).1 {
        OnDiskValid(disk, p);
        PublishedAll(disk, m, content, w);
        CommittedIsComplete(c.sha, c.ed, RemoveOn(published, m.id, order), p);
      }
    }
  }

  lemma OnDiskValid(disk: Disk, p: Parts)
    requires OnDisk(disk, p)
    ensures p.Valid()
  {}

  lemma PublishedAll(disk: Disk, m: Manifest, content: seq<byte>, w: seq<WriteResult>)
    requires |w| == 3 && PublishOn(disk, m, content, w).1
    ensures var after := PublishOn(disk, m, content, w).0;
            && ObjectContent(m.id) in after && after[ObjectContent(m.id)] == Plain(content)
            && ObjectManifest(m.id) in after && after[ObjectManifest(m.id)] == ToJson(m) && ObjectComplete(m.id) in after
  {}

  lemma PublishKeeps(disk: Disk, p: Parts, content: seq<byte>, w: seq<WriteResult>)
    requires OnDisk(disk, p) && |w| == 3
    ensures OnDisk(PublishOn(disk, p.manifest, content, w).0, p)
  {
    hide OnDisk;
    var m := p.manifest;
    ObjectWriteKeepsPartial(disk, ObjectContent(m.id), Plain(content), p);
    var first := WriteOn(disk, ObjectContent(m.id), Plain(content), w[0]);
    ObjectWriteKeepsPartial(first, ObjectManifest(m.id), ToJson(m), p);
    var second := WriteOn(first, ObjectManifest(m.id), ToJson(m), w[1]);
    ObjectWriteKeepsPartial(second, ObjectComplete(m.id), Plain(VERIFIED), p);
  }

  /** Whatever becomes of this acquisition, only its own files change, and what it still
      assembles is safe, or lost by a restart. */
  ghost predicate OwnDurable(c: Config, s: State, t: State, id: ID, lost: Option<Assembled>) {
    && Touches(s.disk, t.disk, id)
    && (id in t.table.entries && t.table.entries[id].assembly.Some? ==>
          var p := t.table.entries[id].assembly.value; Safe(c, t.disk, p) || (lost == Some(p) && Durable(c, t.disk, p)))
  }

  lemma FinishDurable(c: Config, s: State, env: Env, id: ID, a: Acquisition, parts: Assembled, w: seq<WriteResult>,
                      spoiled: Disk -> (Disk, Option<Assembled>), lost: Option<Assembled>)
    requires |w| == 3 && id in s.table.entries && parts.manifest.id == id
    requires OnDisk(s.disk, parts) && parts.Whole() && Storable(parts.manifest) && SignatureHolds(c.ed, parts.manifest)
    requires Touches(s.disk, spoiled(s.disk).0, id)
    requires ContentOf(c.sha, parts) == Err(HashMismatch) && spoiled(s.disk).1.Some? ==>
               var p := spoiled(s.disk).1.value; Safe(c, spoiled(s.disk).0, p) || (lost == Some(p) && Durable(c, spoiled(s.disk).0, p))
    ensures OwnDurable(c, s, Finish(c, s, env, id, a, parts, w, spoiled), id, lost)
  {
    hide OnDisk, Storable, SignatureHolds, CommitOn, Touches, Safe, Durable, OwnStep, Backoff, Inventory, RemoveEntry, ClearInspected;
    CommitDurable(c, s.disk, parts, w, env.order);
    CommitTouches(c.sha, c.ed, s.disk, parts, w, env.order);
    var (disk, r) := CommitOn(c.sha, c.ed, s.disk, parts, w, env.order);
    SettleEnds(Refresh(c, s.(disk := disk), env), id, Committed);
    FailSame(a.(assembly := Some(parts)), env);
    FailSame(a.(assembly := spoiled(disk).1), env);
    hide Fail, Settle;
  }

  lemma StartDurable(c: Config, s: State, env: Env, id: ID, a: Acquisition, m: Manifest)
    requires id in s.table.entries && m.id == id && Presentable(m) && Encodable(m) && SignatureHolds(c.ed, m) && a.assembly.None?
    ensures OwnDurable(c, s, StartAssembly(c, s, env, id, a, m), id, None)
  {
    hide BeginOn, Finish, RemoveOn, OwnStep, SafeName, Geometry, Encodable, Touches, Safe, SignatureHolds, OnDisk, Backoff;
    BegunOnDisk(s.disk, m, env.write(1));
    BeginTouches(s.disk, m, env.write(1));
    FailSame(a, env);
    var (disk, begun) := BeginOn(s.disk, m, env.write(1));
    if begun.Ok? {
      var b := a.(assembly := Some(begun.value), manifest := None, manifestSource := 0);
      ProgressedSame(b, env);
      SafeOnDisk(c, disk, begun.value);
      if begun.value.Whole() {
        RemoveTouches(disk, id, env.order);
        var w := [env.write(2), env.write(3), env.write(4)];
        FinishDurable(c, s.(disk := disk), env, id, b, begun.value, w, d => (RemoveOn(d, id, env.order), None), None);
        TouchesTrans(s.disk, disk, Finish(c, s.(disk := disk), env, id, b, begun.value, w, d => (RemoveOn(d, id, env.order), None)).disk, id);
      }
    }
  }

  lemma SafeOnDisk(c: Config, disk: Disk, p: Parts)
    requires OnDisk(disk, p)
    ensures Safe(c, disk, p)
  {}

  lemma SaveTouches(disk: Disk, m: Manifest, w: WriteResult)
    ensures Touches(disk, SaveKnownOn(disk, m, w).0, m.id)
  {
    WriteTouches(disk, KnownManifest(m.id), ToJson(m), w);
    hide Encodable;
  }

  lemma JudgeDurable(c: Config, s: State, env: Env, id: ID, a: Acquisition, m: Manifest, source: NodeID)
    requires id in s.table.entries && s.table.entries[id] == a && a.assembly.None? && m.id == id && Presentable(m)
    ensures OwnDurable(c, s, Judge(c, s, env, id, a, m, source), id, None)
  {
    hide Accept, StartAssembly, Fail, Settle, Encodable, Presentable, SignatureHolds, OwnStep, MarkInspected, SaveKnownOn, Touches, Safe;
    var marked := s.(inspected := MarkInspected(s.inspected, m.id, source));
    TouchesRefl(s.disk, id);
    SettleEnds(marked, id, Settlement.Rejected);
    if SignatureHolds(c.ed, m) {
      var (disk, saved) := SaveKnownOn(s.disk, m, env.write(0));
      SaveTouches(s.disk, m, env.write(0));
      FailSame(a, env);
      SettleEnds(marked.(disk := disk), id, Deferred);
      if saved {
        StartDurable(c, marked.(disk := disk), env, id, a, m);
        TouchesTrans(s.disk, disk, StartAssembly(c, marked.(disk := disk), env, id, a, m).disk, id);
      }
    }
  }

  lemma AddDurable(disk: Disk, p: Parts, index: nat, data: seq<byte>, w: WriteResult)
    requires OnDisk(disk, p) && p.Valid()
    ensures var (after, added) := AddOn(disk, p, index, data, w);
            OnDisk(after, p) && (added.Ok? ==> OnDisk(after, added.value)) && Touches(disk, after, p.manifest.id)
  {
    WriteTouches(disk, PartialChunk(p.manifest.id, index), Plain(data), w);
    TouchesRefl(disk, p.manifest.id);
    hide OnDisk, Touches;
    if AddChunk(p, index, data).Ok? && !p.received[index] {
      ChunkWriteKeepsOld(disk, p, index, data);
    }
  }

  lemma TakeDurable(c: Config, s: State, env: Env, id: ID, a: Acquisition, chunk: ChunkData)
    requires id in s.table.entries && s.table.entries[id] == a && a.assembly.Some? && a.assembly.value.manifest.id == id
    requires Storable(a.assembly.value.manifest) && SignatureHolds(c.ed, a.assembly.value.manifest) && OnDisk(s.disk, a.assembly.value)
    ensures OwnDurable(c, s, TakeChunk(c, s, env, id, a, chunk), id, LostBy(c, s.disk, a.assembly.value, chunk, env))
  {
    hide AddOn, Finish, Restarted, OwnStep, Touches, Safe, SignatureHolds, OnDisk, Storable, LostBy;
    AddDurable(s.disk, a.assembly.value, chunk.index, chunk.data, env.write(0));
    var (disk, added) := AddOn(s.disk, a.assembly.value, chunk.index, chunk.data, env.write(0));
    SafeOnDisk(c, disk, a.assembly.value);
    if added.Ok? {
      var parts := added.value;
      SafeOnDisk(c, disk, parts);
      var b := a.(assembly := Some(parts), wanted := a.wanted - {chunk.index});
      ProgressedSame(b, env);
      if parts.Whole() {
        RestartTouches(disk, parts, env);
        if ContentOf(c.sha, parts) == Err(HashMismatch) {
          RestartLoses(c, s.disk, a.assembly.value, chunk, env);
        }
        var w := [env.write(1), env.write(2), env.write(3)];
        FinishDurable(c, s.(disk := disk), env, id, b, parts, w, d => Restarted(d, parts, env), LostBy(c, s.disk, a.assembly.value, chunk, env));
        TouchesTrans(s.disk, disk, Finish(c, s.(disk := disk), env, id, b, parts, w, d => Restarted(d, parts, env)).disk, id);
      }
    }
  }

  /** Starting over leaves what is on disk, or what the chunk lost. */
  lemma RestartLoses(c: Config, disk: Disk, before: Assembled, chunk: ChunkData, env: Env)
    requires OnDisk(disk, before)
    requires var added := AddOn(disk, before, chunk.index, chunk.data, env.write(0)).1;
             added.Ok? && added.value.Whole() && ContentOf(c.sha, added.value) == Err(HashMismatch)
    ensures var (stored, added) := AddOn(disk, before, chunk.index, chunk.data, env.write(0));
            var (after, left) := Restarted(stored, added.value, env);
            && left.Some?
            && (Safe(c, after, left.value) || (LostBy(c, disk, before, chunk, env) == left && Durable(c, after, left.value)))
            && (LostBy(c, disk, before, chunk, env).Some? ==> LostBy(c, disk, before, chunk, env) == left && !OnDisk(after, left.value))
  {
    hide AddOn, OnDisk, CompleteOn, ContentOf, RestartOn, Touched;
    AddDurable(disk, before, chunk.index, chunk.data, env.write(0));
    var (stored, added) := AddOn(disk, before, chunk.index, chunk.data, env.write(0));
    AddedSome(disk, before, chunk.index, chunk.data, env.write(0));
    RestartExact(stored, added.value, env);
  }

  lemma AddedSome(disk: Disk, p: Assembled, index: nat, data: seq<byte>, w: WriteResult)
    requires AddOn(disk, p, index, data, w).1.Ok?
    ensures index < |AddOn(disk, p, index, data, w).1.value.received|
  {}

  // ---- one step -----------------------------------------------------------------------

  /** An acquisition that waits for chunks is not whole, so it is on disk. */
  lemma WaitingOnDisk(c: Config, s: State, id: ID)
    requires Inv(c, s) && AllDurable(c, s) && id in s.table.entries && s.table.entries[id].waiting.ForChunks?
    ensures s.table.entries[id].assembly.Some? && OnDisk(s.disk, s.table.entries[id].assembly.value)
    ensures Storable(s.table.entries[id].assembly.value.manifest) && SignatureHolds(c.ed, s.table.entries[id].assembly.value.manifest)
  {
    hide Inv, OnDisk, Storable, SignatureHolds, ContentOf, CompleteOn;
    EntryValid(c, s, id);
    var a := s.table.entries[id];
    var i :| i in a.wanted;
    assert !a.assembly.value.received[i];
    assert Durable(c, s.disk, a.assembly.value);
  }

  /** The pick's own files change, if any do. */
  lemma PickDurable(c: Config, s: State, env: Env, p: Packet, id: ID)
    requires Inv(c, s) && Named(s) && AllDurable(c, s) && id in s.table.entries
    ensures var t := AcceptSignature(c, s, env, p, Some(id)); t == s || OwnDurable(c, s, t, id, None)
    ensures var t := AcceptChunk(c, s, env, p, Some(id)); t == s || OwnDurable(c, s, t, id, LostTo(c, s, env, p, id))
  {
    hide Inv, Judge, TakeChunk, DecodeSignature, DecodeChunk, OwnStep, OwnDurable, Fail, Backoff, Storable, SignatureHolds, OnDisk, Presentable,
         LostBy;
    EntryValid(c, s, id);
    var a := s.table.entries[id];
    if a.waiting.ForSignature? && a.manifest.Some? {
      if DecodeSignature(p.body).Some? {
        NamedPresentable(c, s, id, DecodeSignature(p.body).value);
        JudgeDurable(c, s, env, id, a, Signed(a.manifest.value, DecodeSignature(p.body).value), p.source);
      } else {
        FailDurable(c, s, env, id);
      }
    }
    if Brings(s, p, id) {
      WaitingOnDisk(c, s, id);
      TakeDurable(c, s, env, id, a, DecodeChunk(p.body).value);
    }
  }

  lemma FailDurable(c: Config, s: State, env: Env, id: ID)
    requires id in s.table.entries && s.table.entries[id].assembly.None?
    ensures OwnDurable(c, s, Put(s, id, Fail(s.table.entries[id], env)), id, None)
  {
    FailSame(s.table.entries[id], env);
    TouchesRefl(s.disk, id);
    hide Fail, Touches;
  }

  lemma NamedPresentable(c: Config, s: State, id: ID, signature: Option<Signature>)
    requires Inv(c, s) && id in s.table.entries && s.table.entries[id].waiting.ForSignature? && s.table.entries[id].manifest.Some?
    ensures s.table.entries[id].assembly.None?
    ensures var m := Signed(s.table.entries[id].manifest.value, signature); m.id == id && Presentable(m)
  {
    EntryValid(c, s, id);
    hide Inv;
    SignedPresentable(s.table.entries[id].manifest.value, signature);
  }

  lemma ReceiveKeepsDisk(c: Config, s: State, env: Env, p: Packet, pick: Option<ID>)
    requires p.kind != SIGNATURE && p.kind != CHUNK
    ensures Receive(c, s, env, p, pick).disk == s.disk
  {
    hide RootSummary, AcceptSummary, AcceptLeaf, ServeManifest, ServeSignature, ServeSummary, ServeChunks, Manifests.DecodeManifest, Fail, OwnStep;
  }

  /** What the step works on: nothing, or one waiting acquisition and its files. */
  ghost predicate WorksOn(c: Config, s: State, t: State, own: Option<ID>, lost: Option<Assembled>) {
    && (forall id :: own != Some(id) ==> SameAssembly(s.table, t.table, id))
    && match own
       case None => t.disk == s.disk
       case Some(id) => Waits(s.table, id) && OwnDurable(c, s, t, id, lost)
  }

  lemma ReceiveWorks(c: Config, s: State, e: Event, p: Packet) returns (own: Option<ID>)
    requires Inv(c, s) && Named(s) && AllDurable(c, s) && e.Hear? && Decode(e.data) == Some(p)
    ensures WorksOn(c, s, Receive(c, s, e.env, p, e.pick), own, if own.Some? then LostAt(c, s, e, own.value) else None)
  {
    hide Inv, Named, AllDurable, RootSummary, AcceptSummary, AcceptLeaf, ServeManifest, ServeSignature, ServeSummary, ServeChunks,
         AcceptSignature, AcceptChunk, AcceptManifest, OwnStep, OwnDurable, SameAssembly, LostTo, Decode;
    var t := Receive(c, s, e.env, p, e.pick);
    own := None;
    if p.kind != SIGNATURE && p.kind != CHUNK {
      ReceiveKeepsDisk(c, s, e.env, p, e.pick);
      forall id ensures SameAssembly(s.table, t.table, id) { ReceiveSame(c, s, e.env, p, e.pick, id); }
    } else if t != s {
      assert e.pick.Some? && Waits(s.table, e.pick.value);
      own := e.pick;
      PickDurable(c, s, e.env, p, own.value);
      forall id | own != Some(id) ensures SameAssembly(s.table, t.table, id) { ReceiveSame(c, s, e.env, p, e.pick, id); }
    } else {
      forall id ensures SameAssembly(s.table, t.table, id) { AlwaysSame(s.table, id); }
    }
  }

  lemma StepWorks(c: Config, s: State, e: Event) returns (own: Option<ID>)
    requires Inv(c, s) && Named(s) && AllDurable(c, s) && !e.Outside?
    ensures WorksOn(c, s, Step(c, s, e), own, if own.Some? then LostAt(c, s, e, own.value) else None)
  {
    hide Inv, Named, AllDurable, Receive, Tick, Decode, SameAssembly, OwnDurable, LostAt;
    own := None;
    match e
    case Hear(env, data, pick) =>
      if Decode(data).Some? {
        own := ReceiveWorks(c, s, e, Decode(data).value);
      } else {
        forall id ensures SameAssembly(s.table, s.table, id) { AlwaysSame(s.table, id); }
      }
    case Clock(env) =>
      TickKeepsDisk(c, s, env);
      forall id ensures SameAssembly(s.table, Tick(c, s, env).table, id) { TickSame(c, s, env, id); }
  }

  lemma StepDurable(c: Config, s: State, e: Event)
    requires Inv(c, s) && Named(s) && AllDurable(c, s) && !e.Outside?
    ensures AllDurable(c, Step(c, s, e))
  {
    hide Inv, Step, Safe, Touches, LostAt;
    var own := StepWorks(c, s, e);
    var t := Step(c, s, e);
    forall id | id in t.table.entries && t.table.entries[id].assembly.Some? ensures Durable(c, t.disk, t.table.entries[id].assembly.value) {
      assert own == Some(id) || SameAssembly(s.table, t.table, id);
      if own.Some? && own.value != id {
        TouchesKeeps(c, s.disk, t.disk, own.value, s.table.entries[id].assembly.value);
      }
    }
  }

  // ---- what a restart loses -----------------------------------------------------------

  /** An assembly that is safe stays so, and a new one is, unless a restart loses it. */
  lemma StepSafe(c: Config, s: State, e: Event, id: ID)
    requires Inv(c, s) && Named(s) && AllDurable(c, s) && !e.Outside?
    requires id in Step(c, s, e).table.entries && Step(c, s, e).table.entries[id].assembly.Some?
    requires id in s.table.entries && s.table.entries[id].assembly.Some? ==> Safe(c, s.disk, s.table.entries[id].assembly.value)
    ensures Safe(c, Step(c, s, e).disk, Step(c, s, e).table.entries[id].assembly.value) || LostAt(c, s, e, id).Some?
  {
    hide Inv, Step, Safe, Durable, Touches, LostAt, AllDurable;
    var own := StepWorks(c, s, e);
    assert own == Some(id) || SameAssembly(s.table, Step(c, s, e).table, id);
    if own.Some? && own.value != id {
      TouchesKeeps(c, s.disk, Step(c, s, e).disk, own.value, s.table.entries[id].assembly.value);
    }
  }

  lemma WholeIdle(c: Config, s: State, id: ID)
    requires Inv(c, s) && id in s.table.entries && s.table.entries[id].assembly.Some? && s.table.entries[id].assembly.value.Whole()
    ensures !Waits(s.table, id)
  {
    EntryValid(c, s, id);
    hide Inv;
  }

  /** An assembly that is whole in memory rests: a commit that failed is not tried again
      before the next start, and its files stay as they are. */
  lemma WholeRests(c: Config, s: State, e: Event, id: ID)
    requires Inv(c, s) && Named(s) && AllDurable(c, s) && !e.Outside?
    requires id in s.table.entries && s.table.entries[id].assembly.Some? && s.table.entries[id].assembly.value.Whole()
    ensures var p, t := s.table.entries[id].assembly.value, Step(c, s, e);
            && id in t.table.entries && t.table.entries[id].assembly == Some(p)
            && (OnDisk(t.disk, p) <==> OnDisk(s.disk, p))
  {
    hide Inv, Step, Safe, Durable, LostAt, AllDurable, OnDisk;
    WholeIdle(c, s, id);
    var own := StepWorks(c, s, e);
    assert SameAssembly(s.table, Step(c, s, e).table, id);
    if own.Some? {
      var p := s.table.entries[id].assembly.value;
      assert Touches(Step(c, s, e).disk, s.disk, own.value);
      if OnDisk(s.disk, p) { TouchesOnDisk(s.disk, Step(c, s, e).disk, own.value, p); }
      if OnDisk(Step(c, s, e).disk, p) { TouchesOnDisk(Step(c, s, e).disk, s.disk, own.value, p); }
    }
  }

  /** A restart that loses an assembly leaves it in memory, whole, and not on the disk. */
  lemma StepLoses(c: Config, s: State, e: Event, id: ID)
    requires Inv(c, s) && Named(s) && AllDurable(c, s) && LostAt(c, s, e, id).Some?
    ensures var p, t := LostAt(c, s, e, id).value, Step(c, s, e);
            && id in t.table.entries && t.table.entries[id].assembly == Some(p) && p.Whole() && !OnDisk(t.disk, p)
  {
    hide Inv, AllDurable, TakeChunk, DecodeChunk, Decode, OwnStep, OnDisk, LostBy, ContentOf;
    var p := Decode(e.data).value;
    WaitingOnDisk(c, s, id);
    TakeLoses(c, s, e.env, id, s.table.entries[id], DecodeChunk(p.body).value);
  }

  lemma TakeLoses(c: Config, s: State, env: Env, id: ID, a: Acquisition, chunk: ChunkData)
    requires id in s.table.entries && a.assembly.Some? && OnDisk(s.disk, a.assembly.value)
    requires LostBy(c, s.disk, a.assembly.value, chunk, env).Some?
    ensures var p, t := LostBy(c, s.disk, a.assembly.value, chunk, env).value, TakeChunk(c, s, env, id, a, chunk);
            id in t.table.entries && t.table.entries[id].assembly == Some(p) && !OnDisk(t.disk, p)
  {
    hide AddOn, OwnStep, OnDisk, Restarted, RestartOn, ContentOf, Backoff;
    RestartLoses(c, s.disk, a.assembly.value, chunk, env);
    var (stored, added) := AddOn(s.disk, a.assembly.value, chunk.index, chunk.data, env.write(0));
    hide LostBy;
    var left := Restarted(stored, added.value, env).1;
    FailSame(a.(assembly := left, wanted := a.wanted - {chunk.index}), env);
    hide Fail;
  }

  // ---- the start ----------------------------------------------------------------------

  /** What was loaded and is on disk loads again. */
  lemma LoadsAgain(disk: Disk, p: Parts, w: WriteResult)
    requires OnDisk(disk, p) && Storable(p.manifest)
    ensures LoadPartialOn(disk, p.manifest.id, w).1.Ok?
  {
    LoadedExactly(disk, p, p.manifest.chunkCount);
    hide Loaded;
  }

  /** What is assembled under its own ID is on disk. */
  ghost predicate StartsDurable(s: State) {
    forall id :: id in s.table.entries && s.table.entries[id].assembly.Some? && s.table.entries[id].assembly.value.manifest.id == id ==>
      var p := s.table.entries[id].assembly.value; Storable(p.manifest) && OnDisk(s.disk, p)
  }

  lemma PartialDurable(c: Config, s: State, env: Env, k: nat, id: ID)
    requires StartsDurable(s)
    ensures StartsDurable(StartPartial(c, s, env, k, id))
  {
    hide LoadPartialOn, RemoveOn, Accept, Own, OnDisk, Storable, Touches;
    var (disk, loaded) := LoadPartialOn(s.disk, id, env.write(k));
    LoadedPartial(s.disk, id, env.write(k));
    var t := StartPartial(c, s, env, k, id);
    forall other | other in t.table.entries && t.table.entries[other].assembly.Some? && t.table.entries[other].assembly.value.manifest.id == other
      ensures var p := t.table.entries[other].assembly.value; Storable(p.manifest) && OnDisk(t.disk, p) {
      OwnSame(s.(disk := disk), id, other);
      OwnSame(s.(disk := RemoveOn(disk, id, env.order)), id, other);
      if other in s.table.entries && s.table.entries[other].assembly == t.table.entries[other].assembly {
        var p := s.table.entries[other].assembly.value;
        OpenedKeeps(s.disk, id, env.write(k), p);
        if loaded.Err? && other == id {
          LoadsAgain(s.disk, p, env.write(k));
        } else if loaded.Err? {
          RemoveTouches(disk, id, env.order);
          TouchesOnDisk(disk, RemoveOn(disk, id, env.order), id, p);
        }
      }
    }
  }

  /** Opening a partial directory yields what is on disk then, whatever it names. */
  lemma LoadedPartial(disk: Disk, id: ID, w: WriteResult)
    ensures var (after, loaded) := LoadPartialOn(disk, id, w); loaded.Ok? ==> Storable(loaded.value.manifest) && OnDisk(after, loaded.value)
  {
    hide OnDisk, SafeName, Loaded;
    if ReadManifest(disk, PartialManifest(id)).Some? {
      BegunOnDisk(disk, ReadManifest(disk, PartialManifest(id)).value, w);
    }
  }

  lemma OpenedKeeps(disk: Disk, id: ID, w: WriteResult, p: Parts)
    requires OnDisk(disk, p)
    ensures OnDisk(LoadPartialOn(disk, id, w).0, p)
  {
    hide LoadAll, SafeName, ReadManifest;
    var after := LoadPartialOn(disk, id, w).0;
    forall i: nat | i < |p.received| ensures ChunkOnDisk(after, p, i) {
      assert ChunkOnDisk(disk, p, i);
    }
  }

  lemma {:induction false} PartialsDurable(c: Config, s: State, env: Env, ids: seq<ID>)
    requires StartsDurable(s)
    ensures StartsDurable(StartPartials(c, s, env, ids))
  {
    hide StartPartial, StartsDurable;
    if ids != [] {
      var n := |ids| - 1;
      PartialsDurable(c, s, env, ids[..n]);
      PartialDurable(c, StartPartials(c, s, env, ids[..n]), env, n, ids[n]);
    }
  }

  lemma BootSafe(c: Config, b: Boot, id: ID)
    requires Named(Booted(c, b)) && id in Booted(c, b).table.entries && Booted(c, b).table.entries[id].assembly.Some?
    ensures Safe(c, Booted(c, b).disk, Booted(c, b).table.entries[id].assembly.value)
  {
    var blank := Blank(c, b.disk, b.tx, b.env);
    assert StartsDurable(blank);
    hide StartPartials, StartWanted, Inventory, OnDisk, Storable, Booted;
    PartialsDurable(c, blank, b.env, b.partials);
    BootedResumes(c, b, id);
  }

  lemma BootedResumes(c: Config, b: Boot, id: ID)
    ensures var s, t := StartPartials(c, Blank(c, b.disk, b.tx, b.env), b.env, b.partials), Booted(c, b);
            t.disk == s.disk && (id in t.table.entries && t.table.entries[id].assembly.Some? ==>
              id in s.table.entries && s.table.entries[id].assembly == t.table.entries[id].assembly)
  {
    hide StartPartials, StartWanted, Inventory;
    WantedResumes(StartPartials(c, Blank(c, b.disk, b.tx, b.env), b.env, b.partials), b.wanted, id);
  }

  lemma BootDurable(c: Config, b: Boot)
    requires Named(Booted(c, b))
    ensures AllDurable(c, Booted(c, b))
  {
    hide Booted, Safe;
    var t := Booted(c, b);
    forall id | id in t.table.entries && t.table.entries[id].assembly.Some? ensures Durable(c, t.disk, t.table.entries[id].assembly.value) {
      BootSafe(c, b, id);
    }
  }

  // ---- runs ---------------------------------------------------------------------------

  lemma {:induction false} RunDurable(c: Config, states: seq<State>, events: seq<Event>, k: nat)
    requires Run(c, states, events) && k < |states|
    requires Inv(c, states[0]) && Named(states[0]) && AllDurable(c, states[0])
    requires forall i :: 0 <= i < |events| ==> !events[i].Outside?
    ensures AllDurable(c, states[k])
  {
    hide Inv, Named, AllDurable, Step, Possible;
    if k > 0 {
      RunDurable(c, states, events, k - 1);
      RunKeeps(c, states, events, k - 1);
      RunNamed(c, states, events, k - 1);
      StepDurable(c, states[k - 1], events[k - 1]);
    }
  }

  /** An event so far lost the assembly. */
  ghost predicate LostBefore(c: Config, states: seq<State>, events: seq<Event>, k: nat, id: ID)
    requires k <= |events| < |states|
  {
    exists j :: 0 <= j < k && LostAt(c, states[j], events[j], id).Some?
  }

  /** What was not lost is safe; what was lost stays in memory, whole, and off the disk. */
  lemma {:induction false} RunSafe(c: Config, b: Boot, states: seq<State>, events: seq<Event>, k: nat, id: ID)
    requires Run(c, states, events) && states[0] == Booted(c, b) && Named(states[0]) && k < |states|
    requires forall i :: 0 <= i < |events| ==> !events[i].Outside?
    ensures LostBefore(c, states, events, k, id) ==>
              && id in states[k].table.entries && states[k].table.entries[id].assembly.Some?
              && var p := states[k].table.entries[id].assembly.value; p.Whole() && !OnDisk(states[k].disk, p)
    ensures !LostBefore(c, states, events, k, id) && id in states[k].table.entries && states[k].table.entries[id].assembly.Some? ==>
              Safe(c, states[k].disk, states[k].table.entries[id].assembly.value)
  {
    hide Inv, Named, AllDurable, Step, Possible, Booted, OnDisk, Safe, LostAt;
    if k == 0 {
      if id in states[0].table.entries && states[0].table.entries[id].assembly.Some? {
        BootSafe(c, b, id);
      }
    } else {
      RunSafe(c, b, states, events, k - 1, id);
      StartsValid(c, b);
      BootDurable(c, b);
      RunDurable(c, states, events, k - 1);
      RunKeeps(c, states, events, k - 1);
      RunNamed(c, states, events, k - 1);
      if LostBefore(c, states, events, k - 1, id) {
        WholeRests(c, states[k - 1], events[k - 1], id);
      } else if LostAt(c, states[k - 1], events[k - 1], id).Some? {
        StepLoses(c, states[k - 1], events[k - 1], id);
      } else if id in states[k].table.entries && states[k].table.entries[id].assembly.Some? {
        StepSafe(c, states[k - 1], events[k - 1], id);
      }
    }
  }

  /** A start from this disk finds again what is assembled here, and perhaps more. */
  ghost predicate Found(disk: Disk, p: Parts) {
    var q := LoadPartialFrom(disk, p.manifest.id);
    q.Some? && Extends(q.value, p)
  }

  lemma FoundExact(disk: Disk, p: Assembled)
    requires Storable(p.manifest)
    ensures Found(disk, p) <==> OnDisk(disk, p)
  {
    hide OnDisk, Loaded;
    if OnDisk(disk, p) {
      hide Storable;
      ResumeExtends(disk, p);
    }
    if Found(disk, p) {
      var q := LoadPartialFrom(disk, p.manifest.id).value;
      LoadedIsOnDisk(disk, p.manifest, q, p.manifest.chunkCount);
      ExtendedOnDisk(disk, q, p);
    }
  }

  lemma ExtendedOnDisk(disk: Disk, q: Parts, p: Parts)
    requires OnDisk(disk, q) && Extends(q, p) && p.Valid()
    ensures OnDisk(disk, p)
  {
    forall i: nat | i < |p.received| ensures ChunkOnDisk(disk, p, i) {
      assert ChunkOnDisk(disk, q, i);
    }
  }

  /** A restart at any moment between two events finds again what was assembled, and
      perhaps more, or the object is complete, exactly as long as no event has lost it: a
      chunk that made it whole with a wrong hash, whose restart failed half-way. */
  lemma NothingForgotten(c: Config, b: Boot, states: seq<State>, events: seq<Event>, k: nat, id: ID)
    requires Run(c, states, events) && states[0] == Booted(c, b) && Named(states[0]) && k < |states|
    requires forall i :: 0 <= i < |events| ==> !events[i].Outside?
    requires id in states[k].table.entries && states[k].table.entries[id].assembly.Some?
    ensures var p, disk := states[k].table.entries[id].assembly.value, states[k].disk;
            && p.manifest.id == id
            && (LostBefore(c, states, events, k, id) ==> !Found(disk, p))
            && (!LostBefore(c, states, events, k, id) ==> Found(disk, p) || (p.Whole() && CompleteOn(c.sha, c.ed, disk, id)))
  {
    hide Inv, Named, Step, Possible, Booted, OnDisk, CompleteOn, Found, LostBefore, Storable;
    StartsValid(c, b);
    RunSafe(c, b, states, events, k, id);
    RunNamed(c, states, events, k);
    RunKeeps(c, states, events, k);
    EntryStorable(c, states[k], id);
    NamedManifestID(states[k], id);
    FoundExact(states[k].disk, states[k].table.entries[id].assembly.value);
  }

  lemma NamedManifestID(s: State, id: ID)
    requires Named(s) && id in s.table.entries && s.table.entries[id].assembly.Some?
    ensures s.table.entries[id].assembly.value.manifest.id == id
  {}

  // ---- a loss -------------------------------------------------------------------------

  /** A publication of one octet whose manifest gives a hash that the octet does not have. */
  function Spoilt(sha: Hash): Manifest {
    var other: Bytes32 := [if sha([7])[0] == 0 then 1 else 0] + sha([7])[1..];
    Manifest(1, other[..16], [97], 1, other, 1, 1, None)
  }

  /** A node that waits for the only chunk of it, its partial directory begun. */
  function Awaiting(m: Manifest): State {
    State(Table(map[m.id := D.Sought(m, Fresh(m))], [m.id], 0), Jobs([], None), Peers(map[], []), Inspected(map[], []), 5, false, 0, [],
          map[PartialManifest(m.id) := Json(m)], [], map[], 0)
  }

  lemma AwaitingValid(c: Config, m: Manifest)
    requires Storable(m) && m.signature.None? && m.chunkCount == 1
    ensures var s := Awaiting(m); Inv(c, s) && Named(s) && AllDurable(c, s)
  {
    var s := Awaiting(m);
    assert OnDisk(s.disk, Fresh(m));
    hide Storable, OnDisk;
    assert WantedValid(Fresh(m).received, {0}) by {
      assert 0 % WINDOW == 0;
    }
    hide WantedValid, Safe;
    assert Safe(c, s.disk, Fresh(m)) by { SafeOnDisk(c, s.disk, Fresh(m)); }
    assert TableValid(s.table);
    assert OneExchange(s.table, s.jobs, s.tx);
  }

  /** The chunk that completes it is lost if the removal stops behind the manifest. */
  lemma SpoiltLost(c: Config, env: Env)
    requires env.write(0) == Written && env.order == [PartialManifest(Spoilt(c.sha).id)]
    ensures var m := Spoilt(c.sha);
            && LostBy(c, map[PartialManifest(m.id) := Json(m)], Fresh(m), ChunkData(0, [7]), env).Some?
            && Storable(m)
  {
    var m := Spoilt(c.sha);
    var disk: Disk := map[PartialManifest(m.id) := Json(m)];
    var (stored, added) := AddOn(disk, Fresh(m), 0, [7], env.write(0));
    assert added.Ok? && added.value.Whole();
    var p := added.value;
    assert p.chunks == [[7]] && p.chunks[..0] == [];
    assert Joined(p.chunks) == [7];
    assert m.sha[0] != c.sha([7])[0];
    RemovesNamed(stored, m.id, env.order, PartialChunk(m.id, 0));
    var removed := RemoveOn(stored, m.id, env.order);
    assert PartialChunk(m.id, 0) in removed && IsPartialOf(PartialChunk(m.id, 0), m.id);
  }

  /** Such a loss: from a valid state whose disk is in step with memory, one chunk
      makes an assembly whole with a wrong hash; the manifest is removed and the chunk is
      not, so memory holds it all and the next start would find nothing. */
  lemma LosingStep(c: Config, base: Env) returns (s: State, id: ID, e: Event)
    requires c.id != 1 && c.id != BROADCAST && base.write(0) == Written
    ensures Inv(c, s) && Named(s) && AllDurable(c, s) && Possible(c, s, e)
    ensures e.Hear? && e.env == base.(order := [PartialManifest(id)]) && LostAt(c, s, e, id).Some?
    ensures var p, t := LostAt(c, s, e, id).value, Step(c, s, e);
            id in t.table.entries && t.table.entries[id].assembly == Some(p) && p.Whole() && !OnDisk(t.disk, p)
  {
    hide Inv, Named, AllDurable, Step, LostBy, Decode, DecodeChunk, Storable, OnDisk;
    var m := Spoilt(c.sha);
    id := m.id;
    s := Awaiting(m);
    var env := base.(order := [PartialManifest(id)]);
    var packet := D.OnlyChunk(c);
    NodeProtocol.DecodeEncode(packet);
    e := Hear(env, Encode(packet).value, Some(id));
    SpoiltLost(c, env);
    AwaitingValid(c, m);
    assert LostTo(c, s, env, packet, id).Some?;
    StepLoses(c, s, e, id);
  }
}
