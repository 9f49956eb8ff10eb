/** What the steps of a node leave alone: the assemblies of other acquisitions, and the
    files of other publications. */
module NodeFrames {
  import opened Bytes
  import opened Seqs
  import opened Radix
  import opened Manifests
  import opened Assemblies
  import opened Stores
  import opened NodeProtocol
  import opened Scheduler
  import opened NodeState
  import opened NodeSteps
  import opened NodeInvariants
  import opened NodeSafety

  // ---- assemblies ---------------------------------------------------------------------

  /** What is assembled for this ID stays; an acquisition that is new has nothing yet. */
  predicate SameAssembly(t: Table, u: Table, id: ID) {
    && (id in t.entries ==> id in u.entries && u.entries[id].assembly == t.entries[id].assembly)
    && (id !in t.entries && id in u.entries ==> u.entries[id].assembly.None?)
  }

  lemma AddAtSame(s: State, other: ID, source: NodeID, when: Time, id: ID)
    ensures SameAssembly(s.table, AddAt(s, other, source, when).table, id)
  {
    hide AddCandidate, AddSource;
    if AddCandidate(s.table, other, source).Some? {
      AddCandidateEntries(s.table, other, source);
      AddSourceSame(if other in s.table.entries then s.table.entries[other] else NEW_ACQUISITION, source);
    }
  }

  lemma ConsiderSame(c: Config, s: State, env: Env, k: nat, other: ID, source: NodeID, id: ID)
    ensures SameAssembly(s.table, Consider(c, s, env, k, other, source).table, id)
  {
    hide CompleteOn, HasKnown, SourceInspected, AddAt;
    AddAtSame(s, other, source, env.now, id);
    AddAtSame(s, other, source, env.now + Draw(env, k, 500 * MILLISECOND), id);
  }

  lemma {:induction false} ConsiderAllSame(c: Config, s: State, env: Env, ids: seq<ID>, source: NodeID, id: ID)
    ensures SameAssembly(s.table, ConsiderAll(c, s, env, ids, source).table, id)
  {
    hide Consider;
    if ids != [] {
      var n := |ids| - 1;
      ConsiderAllSame(c, s, env, ids[..n], source, id);
      ConsiderSame(c, ConsiderAll(c, s, env, ids[..n], source), env, n, ids[n], source, id);
    }
  }

  lemma LeafSame(c: Config, s: State, env: Env, p: Packet, id: ID)
    ensures SameAssembly(s.table, AcceptLeaf(c, s, env, p).table, id)
  {
    hide DecodeLeaf, Missing, ConsiderAll;
    if Answers(s, p) && DecodeLeaf(p.body).Some? {
      ConsiderAllSame(c, s.(jobs := s.jobs.(active := None)), env, Missing(s.inventory, DecodeLeaf(p.body).value.ids), p.source, id);
    }
  }

  lemma InitiateSame(c: Config, s: State, env: Env, other: ID, id: ID)
    requires other in s.table.entries && |s.table.entries[other].sources| > 0
    ensures SameAssembly(s.table, Initiate(c, s, env, other).table, id)
  {
    hide Outgoing, BatchFrom, Bitmap, SourceOf, Backoff;
  }

  lemma ExpireSame(s: State, env: Env, id: ID)
    ensures SameAssembly(s.table, ExpireAcquisitions(s, env).table, id)
  {
    hide Backoff;
  }

  lemma WorkSame(c: Config, s: State, env: Env, id: ID)
    ensures SameAssembly(s.table, WorkOrReconcile(c, s, env).table, id)
  {
    hide InitiateReconcile, Initiate, NextWork;
    match NextWork(s.table, env.now, 0)
    case Some(i) => InitiateSame(c, s.(table := s.table.(cursor := (i + 1) % |s.table.order|)), env, s.table.order[i], id);
    case None =>
  }

  lemma TickSame(c: Config, s: State, env: Env, id: ID)
    ensures SameAssembly(s.table, Tick(c, s, env).table, id)
  {
    hide InitiateReconcile, WorkOrReconcile, ExpireJob, ExpireAcquisitions, HasOutstanding, SummaryOf, EncodeSummary, Jitter, Inventory, Outgoing;
    ExpireSame(s, env, id);
    var e := ExpireJob(ExpireAcquisitions(s, env), env);
    WorkSame(c, e, env, id);
    WorkSame(c, InitiateReconcile(c, e, env).0, env, id);
  }

  lemma OwnStepSame(c: Config, s: State, t: State, other: ID, id: ID)
    requires OwnStep(c, s, t, other) && other != id
    ensures SameAssembly(s.table, t.table, id)
  {
    hide RemoveFirst, Inventory;
  }

  lemma ManifestSame(c: Config, s: State, env: Env, p: Packet, pick: Option<ID>, id: ID)
    ensures SameAssembly(s.table, AcceptManifest(c, s, env, p, pick).table, id)
  {
    hide Manifests.DecodeManifest, Backoff, OwnStep;
  }

  /** Only a signature or a chunk for the acquisition itself touches its assembly. */
  lemma ReceiveSame(c: Config, s: State, env: Env, p: Packet, pick: Option<ID>, id: ID)
    requires pick != Some(id) || (p.kind != SIGNATURE && p.kind != CHUNK)
    ensures SameAssembly(s.table, Receive(c, s, env, p, pick).table, id)
  {
    hide RootSummary, AcceptSummary, AcceptLeaf, AcceptManifest, AcceptChunk, AcceptSignature, ServeManifest,
         ServeSignature, ServeSummary, ServeChunks, OwnStep, SameAssembly;
    assert SameAssembly(s.table, s.table, id) by { AlwaysSame(s.table, id); }
    LeafSame(c, s, env, p, id);
    ManifestSame(c, s, env, p, pick, id);
    var t := Receive(c, s, env, p, pick);
    if pick.Some? && pick.value != id && OwnStep(c, s, t, pick.value) {
      OwnStepSame(c, s, t, pick.value, id);
    }
  }

  lemma AlwaysSame(t: Table, id: ID)
    ensures SameAssembly(t, t, id)
  {}
}
