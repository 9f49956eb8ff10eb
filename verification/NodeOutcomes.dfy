/** What a signature or a chunk makes of its acquisition, and for what reason an
    acquisition ends. */
module NodeOutcomes {
  import opened Bytes
  import opened Seqs
  import opened Radix
  import opened Manifests
  import opened Assemblies
  import opened Stores
  import opened NodeProtocol
  import opened Scheduler
  import opened NodeState
  import opened NodeSteps
  import opened NodeInvariants
  import opened NodeSafety
  import opened NodeFrames

  // ---- commits ------------------------------------------------------------------------

  lemma {:induction false} RemoveOnElsewhere(disk: Disk, id: ID, order: seq<FilePath>, p: FilePath)
    requires !IsPartialOf(p, id)
    ensures (p in RemoveOn(disk, id, order) <==> p in disk) && (p in disk ==> RemoveOn(disk, id, order)[p] == disk[p])
  {
    if order != [] {
      RemoveOnElsewhere(disk, id, order[..|order| - 1], p);
    }
  }

  /** The object of this manifest is complete, and nothing of its partial directory is
      left. */
  ghost predicate Kept(sha: Hash, ed: Verifier, disk: Disk, m: Manifest) {
    && CompleteOn(sha, ed, disk, m.id) && disk[ObjectManifest(m.id)] == ToJson(m)
    && !HasPartialFiles(disk, m.id)
  }

  /** A commit that succeeds leaves the object complete, with the assembled content
      under the manifest's own hash, and nothing of the partial directory. */
  lemma CommitCompletes(sha: Hash, ed: Verifier, disk: Disk, p: Parts, w: seq<WriteResult>, order: seq<FilePath>)
    requires p.Valid() && Storable(p.manifest) && |w| == 3
    requires CommitOn(sha, ed, disk, p, w, order).1.Ok?
    ensures var after := CommitOn(sha, ed, disk, p, w, order).0;
            && Kept(sha, ed, after, p.manifest)
            && after[ObjectContent(p.manifest.id)] == Plain(Joined(p.chunks))
            && sha(Joined(p.chunks)) == p.manifest.sha
  {
    hide CompleteOn, SignatureHolds, Storable, HasPartialFiles;
    var id := p.manifest.id;
    var content := ContentOf(sha, p).value;
    var published := PublishOn(disk, p.manifest, content, w).0;
    RemoveOnElsewhere(published, id, order, ObjectContent(id));
    RemoveOnElsewhere(published, id, order, ObjectManifest(id));
    RemoveOnElsewhere(published, id, order, ObjectComplete(id));
    CommittedIsComplete(sha, ed, CommitOn(sha, ed, disk, p, w, order).0, p);
  }

  /** What is kept carries the ID of its content. */
  lemma KeptID(sha: Hash, ed: Verifier, disk: Disk, m: Manifest)
    requires Kept(sha, ed, disk, m)
    ensures m.id == sha(disk[ObjectContent(m.id)].bytes)[..16]
  {
    CompleteID(sha, ed, disk, m.id);
    hide CompleteOn, HasPartialFiles;
  }

  // ---- where an acquisition with this manifest has got to -----------------------------

  /** It goes on with this manifest, or with nothing; or it has ended, as committed. */
  ghost predicate Lands(c: Config, t: State, env: Env, id: ID, m: Manifest) {
    if id in t.table.entries
    then t.table.entries[id].assembly.Some? ==> t.table.entries[id].assembly.value.manifest == m
    else id in t.settled && t.settled[id] == Committed && Kept(c.sha, c.ed, t.disk, m) && (env.listing ==> m.id in t.inventory)
  }

  lemma SettleEnds(s: State, id: ID, why: Settlement)
    ensures var t := Settle(s, id, why);
            id !in t.table.entries && id in t.settled && t.settled[id] == why && t.disk == s.disk && t.inventory == s.inventory
  {
    hide RemoveFirst;
  }

  lemma FinishLands(c: Config, s: State, env: Env, id: ID, a: Acquisition, parts: Assembled, w: seq<WriteResult>,
                    spoiled: Disk -> (Disk, Option<Assembled>))
    requires |w| == 3 && Storable(parts.manifest) && id in s.table.entries
    requires forall d :: spoiled(d).1.Some? ==> spoiled(d).1.value.manifest == parts.manifest
    ensures Lands(c, Finish(c, s, env, id, a, parts, w, spoiled), env, id, parts.manifest)
  {
    hide CompleteOn, Storable, Joined, CommitOn, Settle, OwnStep, HasPartialFiles, Backoff;
    var (disk, r) := CommitOn(c.sha, c.ed, s.disk, parts, w, env.order);
    if r.Ok? {
      CommitCompletes(c.sha, c.ed, s.disk, parts, w, env.order);
      SettleEnds(Refresh(c, s.(disk := disk), env), id, Committed);
    }
  }

  lemma StartLands(c: Config, s: State, env: Env, id: ID, a: Acquisition, m: Manifest)
    requires id in s.table.entries && m.id == id && Presentable(m) && Encodable(m) && a.assembly.None?
    ensures Lands(c, StartAssembly(c, s, env, id, a, m), env, id, m)
  {
    hide Progressed, BeginOn, Finish, RemoveOn, Kept, Encodable, SafeName, Geometry, OwnStep, Backoff;
    var (disk, begun) := BeginOn(s.disk, m, env.write(1));
    if begun.Ok? && begun.value.Whole() {
      var b := a.(assembly := Some(begun.value), manifest := None, manifestSource := 0);
      var w := [env.write(2), env.write(3), env.write(4)];
      FinishLands(c, s.(disk := disk), env, id, b, begun.value, w, d => (RemoveOn(d, id, env.order), None));
    }
    hide Fail;
    assert Progressed(a.(assembly := None), env).assembly == None by { ProgressedSame(a.(assembly := None), env); }
    if begun.Ok? {
      ProgressedSame(a.(assembly := Some(begun.value), manifest := None, manifestSource := 0), env);
    }
    FailSame(a, env);
  }

  lemma ProgressedSame(a: Acquisition, env: Env)
    ensures Progressed(a, env).assembly == a.assembly
  {}

  lemma FailSame(a: Acquisition, env: Env)
    ensures Fail(a, env).assembly == a.assembly
  {
    hide Backoff;
  }

  // ---- what the policy said -----------------------------------------------------------

  /** The policy over what the disk says: the signature holds; and the publication is
      wanted, or the signer passes and, unless work had begun, the size. */
  ghost predicate Passed(c: Config, disk: Disk, id: ID, m: Manifest) {
    && SignatureHolds(c.ed, m)
    && (|| Wanted(disk, id)
        || (SignerAdmitted(c.policy, m)
            && (HasPartial(disk, id) || (c.policy.hasMaxSize ==> m.length <= c.policy.maxAutoSize))))
  }

  /** The manifest that a reply completes: the staged one with the signature that an
      event brings for it. */
  ghost function Judged(c: Config, s: State, e: Event, id: ID): Option<Manifest> {
    if !e.Hear? || e.pick != Some(id) || Decode(e.data).None? || id !in s.table.entries then None
    else
      var p, a := Decode(e.data).value, s.table.entries[id];
      if p.source == c.id || p.destination != c.id || c.id == BROADCAST || p.kind != SIGNATURE then None
      else if !a.waiting.ForSignature? || a.manifest.None? || DecodeSignature(p.body).None? then None
      else Some(Signed(a.manifest.value, DecodeSignature(p.body).value))
  }

  /** What becomes of an acquisition whose manifest is complete. */
  ghost predicate Outcome(c: Config, s: State, t: State, env: Env, id: ID, m: Manifest) {
    if id !in t.table.entries && id in t.settled && t.settled[id] == Settlement.Rejected then !SignatureHolds(c.ed, m)
    else if id !in t.table.entries && id in t.settled && t.settled[id] == Deferred
    then SignatureHolds(c.ed, m) && !Passed(c, s.disk, id, m)
         && KnownManifest(id) in t.disk && t.disk[KnownManifest(id)] == ToJson(m)
    else (id in t.table.entries && t.table.entries[id].assembly.None?) || (Passed(c, s.disk, id, m) && Lands(c, t, env, id, m))
  }

  lemma SavedKnown(disk: Disk, m: Manifest, w: WriteResult)
    ensures var (after, saved) := SaveKnownOn(disk, m, w);
            && HasPartial(after, m.id) == HasPartial(disk, m.id) && Wanted(after, m.id) == Wanted(disk, m.id)
            && (saved ==> KnownManifest(m.id) in after && after[KnownManifest(m.id)] == ToJson(m))
  {}

  lemma DecideOutcome(c: Config, s: State, env: Env, id: ID, a: Acquisition, m: Manifest)
    requires id in s.table.entries && s.table.entries[id] == a && a.assembly.None? && m.id == id && Presentable(m)
    requires SignatureHolds(c.ed, m)
    ensures Outcome(c, s, Decide(c, s, env, id, a, m), env, id, m)
  {
    hide SaveKnownOn, Accept, StartAssembly, Fail, Settle, Kept, Encodable, Presentable, SignatureHolds, OwnStep, SignerAdmitted;
    var (disk, saved) := SaveKnownOn(s.disk, m, env.write(0));
    SavedKnown(s.disk, m, env.write(0));
    AcceptExact(c.ed, c.policy, m, HasPartial(disk, id), Wanted(disk, id));
    FailSame(a, env);
    SettleEnds(s.(disk := disk), id, Deferred);
    if saved && Accept(c.ed, c.policy, m, HasPartial(disk, id), Wanted(disk, id)) {
      StartLands(c, s.(disk := disk), env, id, a, m);
    }
  }

  lemma JudgeOutcome(c: Config, s: State, env: Env, id: ID, a: Acquisition, m: Manifest, source: NodeID)
    requires id in s.table.entries && s.table.entries[id] == a && a.assembly.None? && m.id == id && Presentable(m)
    ensures Outcome(c, s, Judge(c, s, env, id, a, m, source), env, id, m)
  {
    hide Decide, Settle, MarkInspected, Presentable, SignatureHolds, OwnStep, Passed, Lands;
    var marked := s.(inspected := MarkInspected(s.inspected, m.id, source));
    SettleEnds(marked, id, Settlement.Rejected);
    if SignatureHolds(c.ed, m) {
      DecideOutcome(c, marked, env, id, a, m);
    }
  }

  lemma TakeLands(c: Config, s: State, env: Env, id: ID, a: Acquisition, chunk: ChunkData)
    requires id in s.table.entries && s.table.entries[id] == a && a.assembly.Some? && Storable(a.assembly.value.manifest)
    ensures Lands(c, TakeChunk(c, s, env, id, a, chunk), env, id, a.assembly.value.manifest)
  {
    hide AddOn, Finish, Restarted, Kept, Storable, OwnStep;
    var (disk, added) := AddOn(s.disk, a.assembly.value, chunk.index, chunk.data, env.write(0));
    if added.Ok? {
      var b := a.(assembly := Some(added.value), wanted := a.wanted - {chunk.index});
      if added.value.Whole() {
        RestartedManifest(added.value, env);
        FinishLands(c, s.(disk := disk), env, id, b, added.value, [env.write(1), env.write(2), env.write(3)],
                    d => Restarted(d, added.value, env));
      }
    }
  }

  // ---- one step -----------------------------------------------------------------------

  /** What is assembled for an ID carries that ID. */
  ghost predicate Named(s: State) {
    forall id :: id in s.table.entries && s.table.entries[id].assembly.Some? ==> s.table.entries[id].assembly.value.manifest.id == id
  }

  /** The acquisition is the same, or an event brought its signature, or a chunk. */
  lemma SignatureOutcome(c: Config, s: State, e: Event, id: ID)
    requires Inv(c, s) && e.Hear? && Decode(e.data).Some? && e.pick == Some(id)
    requires Possible(c, s, e)
    ensures var p := Decode(e.data).value;
            p.kind == SIGNATURE ==>
              match Judged(c, s, e, id)
              case Some(m) => m.id == id && Outcome(c, s, Step(c, s, e), e.env, id, m)
              case None => SameAssembly(s.table, Step(c, s, e).table, id)
  {
    hide Inv, Judge, DecodeSignature, Outcome, Decode, OwnStep, Backoff, Chosen;
    var p := Decode(e.data).value;
    if p.kind == SIGNATURE && id in s.table.entries && Judged(c, s, e, id).Some? {
      EntryValid(c, s, id);
      var a := s.table.entries[id];
      var signature := DecodeSignature(p.body).value;
      SignedPresentable(a.manifest.value, signature);
      JudgeOutcome(c, s, e.env, id, a, Signed(a.manifest.value, signature), p.source);
    }
  }

  lemma ChunkOutcome(c: Config, s: State, e: Event, id: ID)
    requires Inv(c, s) && e.Hear? && Decode(e.data).Some? && e.pick == Some(id) && Decode(e.data).value.kind == CHUNK
    ensures var t := Step(c, s, e);
            SameAssembly(s.table, t.table, id)
            || (id in s.table.entries && s.table.entries[id].assembly.Some? && Lands(c, t, e.env, id, s.table.entries[id].assembly.value.manifest))
  {
    hide Inv, TakeChunk, DecodeChunk, Lands, Decode, OwnStep;
    if id in s.table.entries && s.table.entries[id].assembly.Some? && DecodeChunk(Decode(e.data).value.body).Some? {
      EntryValid(c, s, id);
      TakeLands(c, s, e.env, id, s.table.entries[id], DecodeChunk(Decode(e.data).value.body).value);
    }
  }

  lemma OtherSame(c: Config, s: State, e: Event, id: ID)
    requires e.Hear? && Decode(e.data).Some? ==>
               e.pick != Some(id) || (Decode(e.data).value.kind != SIGNATURE && Decode(e.data).value.kind != CHUNK)
    ensures SameAssembly(s.table, Step(c, s, e).table, id)
  {
    hide Receive, Tick, Decode, SameAssembly;
    AlwaysSame(s.table, id);
    match e
    case Hear(env, data, pick) =>
      if Decode(data).Some? {
        ReceiveSame(c, s, env, Decode(data).value, pick, id);
      }
    case Clock(env) => TickSame(c, s, env, id);
    case Outside(_) => assert Step(c, s, e).table == s.table;
  }

  /** The gate at one step: whatever is assembled was assembled before, or has just
      passed the policy, by what the disk said. */
  lemma AssembledFrom(c: Config, s: State, e: Event, id: ID)
    requires Inv(c, s) && Possible(c, s, e)
    requires var t := Step(c, s, e); id in t.table.entries && t.table.entries[id].assembly.Some?
    ensures var m := Step(c, s, e).table.entries[id].assembly.value.manifest;
            || (id in s.table.entries && s.table.entries[id].assembly.Some? && s.table.entries[id].assembly.value.manifest == m)
            || (Judged(c, s, e, id) == Some(m) && m.id == id && Passed(c, s.disk, id, m))
  {
    hide Inv, Step, Possible, Passed, Judged, Kept;
    if e.Hear? && Decode(e.data).Some? && e.pick == Some(id) && Decode(e.data).value.kind == SIGNATURE {
      SignatureOutcome(c, s, e, id);
    } else if e.Hear? && Decode(e.data).Some? && e.pick == Some(id) && Decode(e.data).value.kind == CHUNK {
      ChunkOutcome(c, s, e, id);
    } else {
      OtherSame(c, s, e, id);
    }
  }

  lemma NamedKeeps(c: Config, s: State, e: Event)
    requires Inv(c, s) && Possible(c, s, e) && Named(s)
    ensures Named(Step(c, s, e))
  {
    hide Inv, Step, Possible, Passed, Judged;
    var t := Step(c, s, e);
    forall id | id in t.table.entries && t.table.entries[id].assembly.Some?
      ensures t.table.entries[id].assembly.value.manifest.id == id {
      AssembledFrom(c, s, e, id);
    }
  }

  // ---- reasons ------------------------------------------------------------------------

  /** Why an acquisition ends, in terms of what the event and the disk said. */
  ghost predicate Reason(c: Config, s: State, e: Event, id: ID, why: Settlement) {
    match why
    case Rejected => Judged(c, s, e, id).Some? && !SignatureHolds(c.ed, Judged(c, s, e, id).value)
    case Deferred =>
      && Judged(c, s, e, id).Some?
      && var m, disk := Judged(c, s, e, id).value, Step(c, s, e).disk;
         SignatureHolds(c.ed, m) && !Passed(c, s.disk, id, m) && KnownManifest(id) in disk && disk[KnownManifest(id)] == ToJson(m)
    case Committed => CompleteOn(c.sha, c.ed, Step(c, s, e).disk, id) && id == ContentID(c, Step(c, s, e).disk, id)
    case AlreadyComplete => false
    case KnownDeferred => false
  }

  /** The ID of the content that an object holds. */
  ghost function ContentID(c: Config, disk: Disk, id: ID): seq<byte>
    requires CompleteOn(c.sha, c.ed, disk, id)
  {
    c.sha(disk[ObjectContent(id)].bytes)[..16]
  }

  lemma LandsCommitted(c: Config, t: State, env: Env, id: ID, m: Manifest)
    requires Lands(c, t, env, id, m) && id !in t.table.entries && m.id == id
    ensures id in t.settled && t.settled[id] == Committed && CompleteOn(c.sha, c.ed, t.disk, id) && id == ContentID(c, t.disk, id)
    ensures env.listing ==> id in t.inventory
  {
    KeptID(c.sha, c.ed, t.disk, m);
    hide CompleteOn, HasPartialFiles;
  }

  /** An acquisition ends for a reason that holds, and its record says which. */
  lemma EndsForReason(c: Config, s: State, e: Event, id: ID)
    requires Inv(c, s) && Possible(c, s, e) && Named(s)
    requires id in s.table.entries && id !in Step(c, s, e).table.entries
    ensures var t := Step(c, s, e);
            && id in t.settled && Reason(c, s, e, id, t.settled[id])
            && (t.settled[id] == Committed && e.env.listing ==> id in t.inventory)
  {
    hide Inv, Step, Possible, Passed, Judged, CompleteOn, HasKnown, HasPartial, Wanted, SourceInspected, SignatureHolds, Lands;
    var t := Step(c, s, e);
    if e.Hear? && Decode(e.data).Some? && e.pick == Some(id) && Decode(e.data).value.kind == SIGNATURE {
      SignatureOutcome(c, s, e, id);
      if Judged(c, s, e, id).Some? && Lands(c, t, e.env, id, Judged(c, s, e, id).value) {
        LandsCommitted(c, t, e.env, id, Judged(c, s, e, id).value);
      }
    } else if e.Hear? && Decode(e.data).Some? && e.pick == Some(id) && Decode(e.data).value.kind == CHUNK {
      ChunkOutcome(c, s, e, id);
      LandsCommitted(c, t, e.env, id, s.table.entries[id].assembly.value.manifest);
    } else {
      OtherSame(c, s, e, id);
    }
  }

  // ---- inspected sources --------------------------------------------------------------

  lemma ClearedFewer(i: Inspected, cleared: ID, id: ID, source: NodeID)
    ensures SourceInspected(ClearInspected(i, cleared), id, source) ==> SourceInspected(i, id, source)
  {
    hide RemoveFirst;
  }

  lemma MarkedOne(i: Inspected, marked: ID, from_: NodeID, id: ID, source: NodeID)
    requires InspectedValid(i)
    ensures SourceInspected(MarkInspected(i, marked, from_), id, source) ==>
              SourceInspected(i, id, source) || (id == marked && source == from_)
  {
    RoomForKeeps(i, marked);
    hide InspectedValid;
  }

  /** Ending an acquisition forgets its ID or nothing. */
  ghost predicate Forgets(s: State, t: State, id: ID) {
    t.inspected == s.inspected || t.inspected == ClearInspected(s.inspected, id)
  }

  lemma FinishForgets(c: Config, s: State, env: Env, id: ID, a: Acquisition, parts: Assembled, w: seq<WriteResult>,
                      spoiled: Disk -> (Disk, Option<Assembled>))
    requires |w| == 3 && id in s.table.entries
    ensures Forgets(s, Finish(c, s, env, id, a, parts, w, spoiled), id)
  {
    hide CommitOn, OwnStep, RemoveEntry, ClearInspected, Fail, Inventory;
  }

  lemma DecideForgets(c: Config, s: State, env: Env, id: ID, a: Acquisition, m: Manifest)
    requires id in s.table.entries
    ensures Forgets(s, Decide(c, s, env, id, a, m), id)
  {
    hide SaveKnownOn, Accept, BeginOn, Finish, RemoveOn, RemoveEntry, ClearInspected, OwnStep, Fail, Progressed;
    var (disk, _) := SaveKnownOn(s.disk, m, env.write(0));
    var (after, begun) := BeginOn(disk, m, env.write(1));
    if begun.Ok? && begun.value.Whole() {
      FinishForgets(c, s.(disk := after), env, id, a.(assembly := Some(begun.value), manifest := None, manifestSource := 0),
                    begun.value, [env.write(2), env.write(3), env.write(4)], d => (RemoveOn(d, id, env.order), None));
    }
  }

  lemma TakeForgets(c: Config, s: State, env: Env, id: ID, a: Acquisition, chunk: ChunkData)
    requires a.assembly.Some? && id in s.table.entries
    ensures Forgets(s, TakeChunk(c, s, env, id, a, chunk), id)
  {
    hide AddOn, Finish, Restarted, ClearInspected, OwnStep;
    var (disk, added) := AddOn(s.disk, a.assembly.value, chunk.index, chunk.data, env.write(0));
    if added.Ok? && added.value.Whole() {
      FinishForgets(c, s.(disk := disk), env, id, a.(assembly := Some(added.value), wanted := a.wanted - {chunk.index}),
                    added.value, [env.write(1), env.write(2), env.write(3)], d => Restarted(d, added.value, env));
    }
  }

  lemma JudgeInspects(c: Config, s: State, env: Env, id: ID, a: Acquisition, m: Manifest, source: NodeID, other: ID, from_: NodeID)
    requires id in s.table.entries && m.id == id && InspectedValid(s.inspected)
    ensures SourceInspected(Judge(c, s, env, id, a, m, source).inspected, other, from_) ==>
              SourceInspected(s.inspected, other, from_) || (other == id && from_ == source)
  {
    hide SignatureHolds, Decide, MarkInspected, ClearInspected, OwnStep, SourceInspected, InspectedValid, RemoveEntry;
    var marked := s.(inspected := MarkInspected(s.inspected, m.id, source));
    MarkedOne(s.inspected, id, source, other, from_);
    ClearedFewer(marked.inspected, id, other, from_);
    DecideForgets(c, marked, env, id, a, m);
  }

  /** A source counts as inspected only after a signature from it completed a manifest. */
  lemma InspectedFrom(c: Config, s: State, e: Event, id: ID, source: NodeID)
    requires Inv(c, s) && Possible(c, s, e) && SourceInspected(Step(c, s, e).inspected, id, source)
    ensures SourceInspected(s.inspected, id, source) || (Judged(c, s, e, id).Some? && Decode(e.data).value.source == source)
  {
    hide Inv, Receive, Tick, Decode, SourceInspected, Judged;
    match e
    case Hear(env, data, pick) =>
      if Decode(data).Some? {
        HearInspects(c, s, e, Decode(data).value, id, source);
      }
    case Clock(env) => TickInspects(c, s, env);
    case Outside(_) =>
  }

  lemma TickInspects(c: Config, s: State, env: Env)
    ensures Tick(c, s, env).inspected == s.inspected
  {
    hide InitiateReconcile, ExpireJob, ExpireAcquisitions, Initiate, NextWork, HasOutstanding, SummaryOf, EncodeSummary, Jitter, Inventory, Outgoing;
  }

  lemma HearInspects(c: Config, s: State, e: Event, p: Packet, id: ID, source: NodeID)
    requires Inv(c, s) && e.Hear? && Decode(e.data) == Some(p) && Chosen(s.table, p, e.pick)
    requires SourceInspected(Receive(c, s, e.env, p, e.pick).inspected, id, source)
    ensures SourceInspected(s.inspected, id, source) || (Judged(c, s, e, id).Some? && p.source == source)
  {
    hide Inv, RootSummary, AcceptSummary, AcceptLeaf, ServeManifest, ServeSignature, ServeSummary, ServeChunks, AcceptSignature,
         AcceptChunk, AcceptManifest, DecodeSignature, Decode, OwnStep, SourceInspected, Chosen;
    SignatureInspects(c, s, e.env, p, e.pick, id, source);
    ChunkInspects(c, s, e.env, p, e.pick, id, source);
    ManifestInspects(c, s, e.env, p, e.pick);
  }

  lemma SignatureInspects(c: Config, s: State, env: Env, p: Packet, pick: Option<ID>, id: ID, source: NodeID)
    requires Inv(c, s)
    ensures SourceInspected(AcceptSignature(c, s, env, p, pick).inspected, id, source) ==>
              || SourceInspected(s.inspected, id, source)
              || (pick == Some(id) && id in s.table.entries && s.table.entries[id].waiting.ForSignature?
                  && s.table.entries[id].manifest.Some? && DecodeSignature(p.body).Some? && p.source == source)
  {
    hide Inv, Judge, DecodeSignature, OwnStep, Fail, SourceInspected;
    InspectedStays(c, s);
    if pick.Some? && pick.value in s.table.entries && DecodeSignature(p.body).Some? {
      var key, a := pick.value, s.table.entries[pick.value];
      EntryValid(c, s, key);
      if a.waiting.ForSignature? {
        JudgeInspects(c, s, env, key, a, Signed(a.manifest.value, DecodeSignature(p.body).value), p.source, id, source);
      }
    }
  }

  lemma ManifestInspects(c: Config, s: State, env: Env, p: Packet, pick: Option<ID>)
    ensures AcceptManifest(c, s, env, p, pick).inspected == s.inspected
  {
    hide Manifests.DecodeManifest, Fail, OwnStep;
  }

  lemma ChunkInspects(c: Config, s: State, env: Env, p: Packet, pick: Option<ID>, id: ID, source: NodeID)
    ensures SourceInspected(AcceptChunk(c, s, env, p, pick).inspected, id, source) ==> SourceInspected(s.inspected, id, source)
  {
    hide TakeChunk, DecodeChunk, OwnStep, SourceInspected, ClearInspected;
    if pick.Some? && pick.value in s.table.entries && DecodeChunk(p.body).Some? {
      var key, a := pick.value, s.table.entries[pick.value];
      if a.assembly.Some? {
        TakeForgets(c, s, env, key, a, DecodeChunk(p.body).value);
        ClearedFewer(s.inspected, key, id, source);
      }
    }
  }

  lemma InspectedStays(c: Config, s: State)
    requires Inv(c, s)
    ensures InspectedValid(s.inspected)
  {}

  lemma {:induction false} InspectedJudged(c: Config, states: seq<State>, events: seq<Event>, k: nat, id: ID, source: NodeID)
    requires Run(c, states, events) && Inv(c, states[0]) && k < |states|
    requires SourceInspected(states[k].inspected, id, source) && !SourceInspected(states[0].inspected, id, source)
    ensures exists j :: 0 <= j < k && Judged(c, states[j], events[j], id).Some? && Decode(events[j].data).value.source == source
  {
    hide Inv, Step, Possible, Judged, SourceInspected, Decode;
    if k > 0 {
      RunKeeps(c, states, events, k - 1);
      InspectedFrom(c, states[k - 1], events[k - 1], id, source);
      if SourceInspected(states[k - 1].inspected, id, source) {
        InspectedJudged(c, states, events, k - 1, id, source);
      }
    }
  }
}
