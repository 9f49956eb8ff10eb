/** The nodes that an acquisition may ask: none is forgotten as long as it is there. */
module NodeSources {
  import opened Bytes
  import opened Seqs
  import opened Radix
  import opened Manifests
  import opened Assemblies
  import opened Stores
  import opened NodeProtocol
  import opened Scheduler
  import opened NodeState
  import opened NodeSteps
  import opened NodeInvariants
  import opened NodeSafety

  /** The acquisition may ask this node, or has as many others as it keeps. The ID 0, which
      no node has, is not kept. */
  predicate MayAsk(t: Table, peer: NodeID, id: ID) {
    id in t.entries && (peer in t.entries[id].sources || |t.entries[id].sources| >= MAX_SOURCES || peer == 0)
  }

  predicate SameSources(t: Table, u: Table, id: ID) {
    id in t.entries && id in u.entries ==> t.entries[id].sources <= u.entries[id].sources
  }

  lemma SelfSources(t: Table, id: ID)
    ensures SameSources(t, t, id)
  {}

  lemma StillAsks(t: Table, u: Table, peer: NodeID, id: ID)
    requires MayAsk(t, peer, id) && SameSources(t, u, id) && (id in t.entries ==> id in u.entries)
    ensures MayAsk(u, peer, id)
  {}

  // ---- candidates ---------------------------------------------------------------------

  lemma AddedSource(a: Acquisition, source: NodeID)
    requires source != 0
    ensures var b := AddSource(a, source);
            a.sources <= b.sources && (source in b.sources || |b.sources| >= MAX_SOURCES)
  {}

  lemma MoreSources(a: Acquisition, source: NodeID)
    ensures a.sources <= AddSource(a, source).sources
  {}

  /** A candidate that is made or found for a node may ask it, or has eight others. A new
      one is idle, and due at that time. */
  lemma AddAtAsks(s: State, id: ID, source: NodeID, when: Time)
    ensures var t := AddAt(s, id, source, when);
            && (MayAsk(t.table, source, id) || t.drops > s.drops)
            && (id in t.table.entries && id !in s.table.entries ==>
                  var a := t.table.entries[id]; a.waiting.Idle? && a.nextAttempt == when && (source != 0 ==> a.sources == [source]))
  {
    hide AddCandidate, AddSource;
    if AddCandidate(s.table, id, source).Some? {
      AddCandidateEntries(s.table, id, source);
      if source != 0 {
        AddedSource(if id in s.table.entries then s.table.entries[id] else NEW_ACQUISITION, source);
      }
      NewSource(source);
    }
  }

  lemma NewSource(source: NodeID)
    ensures AddSource(NEW_ACQUISITION, source) == NEW_ACQUISITION.(sources := if source == 0 then [] else [source])
  {}

  lemma AddAtSources(s: State, other: ID, source: NodeID, when: Time, id: ID)
    ensures SameSources(s.table, AddAt(s, other, source, when).table, id)
  {
    hide AddCandidate, AddSource;
    if AddCandidate(s.table, other, source).Some? {
      AddCandidateEntries(s.table, other, source);
      MoreSources(if other in s.table.entries then s.table.entries[other] else NEW_ACQUISITION, source);
    }
  }

  lemma ConsiderSources(c: Config, s: State, env: Env, k: nat, other: ID, source: NodeID, id: ID)
    ensures SameSources(s.table, Consider(c, s, env, k, other, source).table, id)
  {
    hide AddAt, CompleteOn, HasKnown, SourceInspected, SameSources;
    SelfSources(s.table, id);
    AddAtSources(s, other, source, env.now, id);
    AddAtSources(s, other, source, env.now + Draw(env, k, 500 * MILLISECOND), id);
  }

  lemma {:induction false} ConsiderAllSources(c: Config, s: State, env: Env, ids: seq<ID>, source: NodeID, id: ID)
    ensures SameSources(s.table, ConsiderAll(c, s, env, ids, source).table, id)
  {
    hide Consider;
    if ids != [] {
      var n := |ids| - 1;
      ConsiderAllSources(c, s, env, ids[..n], source, id);
      ConsiderSources(c, ConsiderAll(c, s, env, ids[..n], source), env, n, ids[n], source, id);
    }
  }

  lemma LeafSources(c: Config, s: State, env: Env, p: Packet, id: ID)
    ensures SameSources(s.table, AcceptLeaf(c, s, env, p).table, id)
  {
    hide DecodeLeaf, Missing, ConsiderAll;
    if Answers(s, p) && DecodeLeaf(p.body).Some? {
      ConsiderAllSources(c, s.(jobs := s.jobs.(active := None)), env, Missing(s.inventory, DecodeLeaf(p.body).value.ids), p.source, id);
    }
  }

  /** Nothing but the sources has changed, and a time at which the next attempt is due only
      where there was none. */
  predicate Undisturbed(a: Acquisition, b: Acquisition) {
    && b.(sources := a.sources, nextAttempt := a.nextAttempt) == a && (a.nextAttempt != 0 ==> b.nextAttempt == a.nextAttempt)
  }

  lemma AddAtDisturbs(s: State, other: ID, source: NodeID, when: Time, id: ID)
    requires id in s.table.entries
    ensures var t := AddAt(s, other, source, when).table; id in t.entries && Undisturbed(s.table.entries[id], t.entries[id])
  {}

  lemma ConsiderDisturbs(c: Config, s: State, env: Env, k: nat, other: ID, source: NodeID, id: ID)
    requires id in s.table.entries
    ensures var t := Consider(c, s, env, k, other, source).table; id in t.entries && Undisturbed(s.table.entries[id], t.entries[id])
  {
    hide AddAt, CompleteOn, HasKnown, HasPartial, Wanted, SourceInspected, Undisturbed;
    AddAtDisturbs(s, other, source, env.now, id);
    AddAtDisturbs(s, other, source, env.now + Draw(env, k, 500 * MILLISECOND), id);
    Calm(s.table.entries[id]);
  }

  lemma Calm(a: Acquisition)
    ensures Undisturbed(a, a)
  {}

  lemma {:induction false} ConsiderAllDisturbs(c: Config, s: State, env: Env, ids: seq<ID>, source: NodeID, id: ID)
    requires id in s.table.entries
    ensures var t := ConsiderAll(c, s, env, ids, source).table; id in t.entries && Undisturbed(s.table.entries[id], t.entries[id])
  {
    hide Consider;
    if ids != [] {
      var n := |ids| - 1;
      ConsiderAllDisturbs(c, s, env, ids[..n], source, id);
      ConsiderDisturbs(c, ConsiderAll(c, s, env, ids[..n], source), env, n, ids[n], source, id);
    }
  }

  /** Hearing of a publication again disturbs no acquisition: a wait is not cut short, and a
      request that is outstanding stays so. */
  lemma LeafDisturbsNothing(c: Config, s: State, env: Env, p: Packet, id: ID)
    requires id in s.table.entries
    ensures var t := AcceptLeaf(c, s, env, p).table; id in t.entries && Undisturbed(s.table.entries[id], t.entries[id])
  {
    hide DecodeLeaf, Missing, ConsiderAll;
    if Answers(s, p) && DecodeLeaf(p.body).Some? {
      ConsiderAllDisturbs(c, s.(jobs := s.jobs.(active := None)), env, Missing(s.inventory, DecodeLeaf(p.body).value.ids), p.source, id);
    }
  }

  // ---- replies ------------------------------------------------------------------------

  lemma OtherSources(c: Config, s: State, t: State, other: ID, id: ID)
    requires OwnStep(c, s, t, other) && other != id
    ensures SameSources(s.table, t.table, id)
  {
    hide RemoveFirst, Inventory;
  }

  lemma FinishSources(c: Config, s: State, env: Env, id: ID, a: Acquisition, parts: Assembled, w: seq<WriteResult>,
                      spoiled: Disk -> (Disk, Option<Assembled>))
    requires |w| == 3 && id in s.table.entries && s.table.entries[id].sources == a.sources
    ensures SameSources(s.table, Finish(c, s, env, id, a, parts, w, spoiled).table, id)
  {
    hide CommitOn, OwnStep, RemoveFirst, ClearInspected, Backoff, Inventory;
  }

  lemma TakeSources(c: Config, s: State, env: Env, id: ID, a: Acquisition, chunk: ChunkData)
    requires id in s.table.entries && s.table.entries[id] == a && a.assembly.Some?
    ensures SameSources(s.table, TakeChunk(c, s, env, id, a, chunk).table, id)
  {
    hide AddOn, Finish, Restarted, OwnStep;
    var (disk, added) := AddOn(s.disk, a.assembly.value, chunk.index, chunk.data, env.write(0));
    if added.Ok? && added.value.Whole() {
      FinishSources(c, s.(disk := disk), env, id, a.(assembly := Some(added.value), wanted := a.wanted - {chunk.index}),
                    added.value, [env.write(1), env.write(2), env.write(3)], d => Restarted(d, added.value, env));
    }
  }

  lemma StartSources(c: Config, s: State, env: Env, id: ID, a: Acquisition, m: Manifest)
    requires id in s.table.entries && s.table.entries[id] == a
    ensures SameSources(s.table, StartAssembly(c, s, env, id, a, m).table, id)
  {
    hide BeginOn, Finish, RemoveOn, OwnStep, Backoff;
    var (disk, begun) := BeginOn(s.disk, m, env.write(1));
    if begun.Ok? && begun.value.Whole() {
      FinishSources(c, s.(disk := disk), env, id, a.(assembly := Some(begun.value), manifest := None, manifestSource := 0),
                    begun.value, [env.write(2), env.write(3), env.write(4)], d => (RemoveOn(d, id, env.order), None));
    }
  }

  lemma JudgeSources(c: Config, s: State, env: Env, id: ID, a: Acquisition, m: Manifest, source: NodeID)
    requires id in s.table.entries && s.table.entries[id] == a
    ensures SameSources(s.table, Judge(c, s, env, id, a, m, source).table, id)
  {
    hide Accept, StartAssembly, SignatureHolds, OwnStep, MarkInspected, ClearInspected, SaveKnownOn, RemoveFirst, Backoff;
    var marked := s.(inspected := MarkInspected(s.inspected, m.id, source));
    StartSources(c, marked.(disk := SaveKnownOn(s.disk, m, env.write(0)).0), env, id, a, m);
  }

  lemma OwnSources(c: Config, s: State, env: Env, p: Packet, id: ID)
    requires id in s.table.entries
    ensures SameSources(s.table, AcceptSignature(c, s, env, p, Some(id)).table, id)
    ensures SameSources(s.table, AcceptChunk(c, s, env, p, Some(id)).table, id)
    ensures SameSources(s.table, AcceptManifest(c, s, env, p, Some(id)).table, id)
  {
    hide Judge, TakeChunk, DecodeSignature, DecodeChunk, Manifests.DecodeManifest, OwnStep, Backoff;
    var a := s.table.entries[id];
    if a.manifest.Some? && DecodeSignature(p.body).Some? {
      JudgeSources(c, s, env, id, a, Signed(a.manifest.value, DecodeSignature(p.body).value), p.source);
    }
    if a.assembly.Some? && DecodeChunk(p.body).Some? {
      TakeSources(c, s, env, id, a, DecodeChunk(p.body).value);
    }
  }

  lemma ReceiveSources(c: Config, s: State, env: Env, p: Packet, pick: Option<ID>, id: ID)
    ensures SameSources(s.table, Receive(c, s, env, p, pick).table, id)
  {
    hide RootSummary, AcceptSummary, AcceptLeaf, AcceptManifest, AcceptChunk, AcceptSignature, ServeManifest,
         ServeSignature, ServeSummary, ServeChunks, OwnStep, SameSources;
    SelfSources(s.table, id);
    LeafSources(c, s, env, p, id);
    var t := Receive(c, s, env, p, pick);
    if pick == Some(id) && id in s.table.entries {
      OwnSources(c, s, env, p, id);
    } else if pick.Some? && pick.value != id && OwnStep(c, s, t, pick.value) {
      OtherSources(c, s, t, pick.value, id);
    }
  }

  // ---- ticks --------------------------------------------------------------------------

  lemma InitiateSources(c: Config, s: State, env: Env, other: ID, id: ID)
    requires other in s.table.entries && |s.table.entries[other].sources| > 0
    ensures SameSources(s.table, Initiate(c, s, env, other).table, id)
  {
    hide Outgoing, BatchFrom, Bitmap, SourceOf, Backoff;
  }

  lemma ExpireSources(s: State, env: Env, id: ID)
    ensures SameSources(s.table, ExpireAcquisitions(s, env).table, id)
  {
    hide Backoff;
  }

  lemma WorkSources(c: Config, s: State, env: Env, id: ID)
    ensures SameSources(s.table, WorkOrReconcile(c, s, env).table, id)
  {
    hide InitiateReconcile, Initiate, NextWork;
    match NextWork(s.table, env.now, 0)
    case Some(i) => InitiateSources(c, s.(table := s.table.(cursor := (i + 1) % |s.table.order|)), env, s.table.order[i], id);
    case None =>
  }

  lemma TickSources(c: Config, s: State, env: Env, id: ID)
    ensures SameSources(s.table, Tick(c, s, env).table, id)
  {
    hide InitiateReconcile, WorkOrReconcile, ExpireJob, ExpireAcquisitions, HasOutstanding, SummaryOf, EncodeSummary, Jitter, Inventory, Outgoing;
    ExpireSources(s, env, id);
    var u := ExpireJob(ExpireAcquisitions(s, env), env);
    WorkSources(c, u, env, id);
    WorkSources(c, InitiateReconcile(c, u, env).0, env, id);
  }

  /** An acquisition keeps every node that it may ask, in order, as long as it is there. */
  lemma StepSources(c: Config, s: State, e: Event, id: ID)
    ensures SameSources(s.table, Step(c, s, e).table, id)
  {
    hide Receive, Tick, Decode, SameSources;
    SelfSources(s.table, id);
    match e
    case Hear(env, data, pick) =>
      if Decode(data).Some? {
        ReceiveSources(c, s, env, Decode(data).value, pick, id);
      }
    case Clock(env) => TickSources(c, s, env, id);
    case Outside(_) =>
  }
}
