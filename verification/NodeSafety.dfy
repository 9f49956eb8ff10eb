/** Every step of a node keeps the invariant, so every state that it reaches has it. */
module NodeSafety {
  import opened Bytes
  import opened Seqs
  import opened Radix
  import opened Manifests
  import opened Assemblies
  import opened Stores
  import opened NodeProtocol
  import opened Scheduler
  import opened NodeState
  import opened NodeSteps
  import opened NodeInvariants

  // ---- sending ------------------------------------------------------------------------

  lemma TransmitKeeps(c: Config, s: State, packet: Option<Packet>)
    requires Inv(c, s) && SentValid(packet)
    ensures Inv(c, Transmit(s, packet))
  {
    hide SentValid, TableValid, OneExchange, Gated, JobsValid, PeersValid, InspectedValid;
  }

  lemma ReplyKeeps(c: Config, s: State, p: Packet, kind: byte, body: Option<seq<byte>>)
    requires Inv(c, s) && kind != GET_CHUNKS
    ensures Inv(c, Reply(c, s, p, kind, body))
  {
    var packet := Outgoing(c, kind, p.source, p.transaction, body);
    if packet.Some? {
      hide Inv;
      TransmitKeeps(c, s, packet);
    }
  }

  lemma ServeKeeps(c: Config, s: State, env: Env, p: Packet)
    requires Inv(c, s)
    ensures Inv(c, ServeManifest(c, s, p)) && Inv(c, ServeSignature(c, s, p)) && Inv(c, ServeSummary(c, s, p))
    ensures Inv(c, ServeChunks(c, s, env, p))
  {
    hide Inv, Reply, Asked, AnswerFor, DecodePrefix, CompleteOn, ServeBits;
    if Asked(c, s, p).Some? {
      ReplyKeeps(c, s, p, MANIFEST, Manifests.EncodeManifest(Asked(c, s, p).value));
      ReplyKeeps(c, s, p, SIGNATURE, Some(EncodeSignature(Asked(c, s, p).value.signature)));
    }
    if DecodePrefix(p.body).Some? && |DecodePrefix(p.body).value.prefix| <= DEPTH {
      var (kind, body) := AnswerFor(c.sha, s.inventory, DecodePrefix(p.body).value.prefix);
      ReplyKeeps(c, s, p, kind, body);
    }
    if DecodeChunkRequest(p.body).Some? {
      ServeBitsSent(c, s.disk, env, DecodeChunkRequest(p.body).value, p, WINDOW);
      SendingKeeps(c, s, ServeBits(c, s.disk, env, DecodeChunkRequest(p.body).value, p, WINDOW).sent);
    }
  }

  lemma {:induction false} ServeBitsSent(c: Config, disk: Disk, env: Env, asked: ChunkRequest, p: Packet, n: nat)
    requires n <= WINDOW
    ensures forall k :: 0 <= k < |ServeBits(c, disk, env, asked, p, n).sent| ==>
              var packet := ServeBits(c, disk, env, asked, p, n).sent[k];
              packet.kind == CHUNK && Encode(packet).Some?
  {
    hide ReadChunkFrom, EncodeChunk, Encode, ToBits;
    if n > 0 {
      ServeBitsSent(c, disk, env, asked, p, n - 1);
    }
  }

  lemma SendingKeeps(c: Config, s: State, packets: seq<Packet>)
    requires Inv(c, s)
    requires forall k :: 0 <= k < |packets| ==> packets[k].kind == CHUNK && Encode(packets[k]).Some?
    ensures Inv(c, s.(sent := s.sent + Sending(packets)))
  {
    hide TableValid, OneExchange, Gated, JobsValid, PeersValid, InspectedValid, Encode;
    var more := Sending(packets);
    assert forall k :: 0 <= k < |more| ==> SentValid(more[k]);
    hide SentValid;
  }

  // ---- reconciliation -----------------------------------------------------------------

  lemma JobsChange(c: Config, s: State, jobs: Jobs)
    requires Inv(c, s) && JobsValid(jobs, s.peers) && jobs.active.None?
    ensures Inv(c, s.(jobs := jobs))
  {
    hide TableValid, Gated, JobsValid, PeersValid, InspectedValid, AllSentValid;
  }

  /** The children that a summary of prefix p makes a node ask for. */
  lemma DifferingDepth(local: RadixSummary, remote: RadixSummary)
    requires |remote.prefix| < DEPTH
    ensures forall q :: q in DifferingChildren(local, remote) ==> 1 <= |q| <= DEPTH
  {
    forall q | q in DifferingChildren(local, remote) ensures 1 <= |q| <= DEPTH {
      InDifferingUpTo(local, remote, RADIX_CHILDREN, q);
    }
  }

  lemma RootSummaryKeeps(c: Config, s: State, env: Env, p: Packet)
    requires Inv(c, s)
    ensures Inv(c, RootSummary(c, s, env, p))
  {
    hide JobsValid, PeersValid, EnqueueAll, Track, DifferingChildren, SummaryOf, DecodeSummary, Waits,
         TableValid, Gated, InspectedValid, AllSentValid;
    if DecodeSummary(p.body).Some? && DecodeSummary(p.body).value.prefix == [] {
      var remote := DecodeSummary(p.body).value;
      var (peers, jobs) := Track(s.peers, s.jobs, p.source, remote.generation);
      TrackKeeps(s.peers, s.jobs, p.source, remote.generation);
      var differing := DifferingChildren(SummaryOf(c.sha, s.inventory, []), remote);
      DifferingDepth(SummaryOf(c.sha, s.inventory, []), remote);
      EnqueueAllKeeps(s.(peers := peers, jobs := jobs), env, p.source, remote.generation, differing);
    }
  }

  lemma SummaryDepth(body: seq<byte>)
    ensures DecodeSummary(body).Some? ==> |DecodeSummary(body).value.prefix| < DEPTH
  {}

  lemma JobsOfActive(j: Jobs, p: Peers)
    requires JobsValid(j, p) && j.active.Some?
    ensures JobValid(j.active.value, p) && JobsValid(j.(active := None), p)
  {}

  lemma AcceptSummaryKeeps(c: Config, s: State, env: Env, p: Packet)
    requires Inv(c, s)
    ensures Inv(c, AcceptSummary(c, s, env, p))
  {
    hide JobsValid, PeersValid, EnqueueAll, DifferingChildren, SummaryOf, DecodeSummary, TableValid, OneExchange,
         Gated, InspectedValid, AllSentValid;
    if Answers(s, p) {
      var job := s.jobs.active.value;
      JobsOfActive(s.jobs, s.peers);
      JobsChange(c, s, s.jobs.(active := None));
      if DecodeSummary(p.body).Some? && DecodeSummary(p.body).value.prefix == job.prefix {
        var remote := DecodeSummary(p.body).value;
        SummaryDepth(p.body);
        var local := SummaryOf(c.sha, s.inventory, job.prefix);
        DifferingDepth(local, remote);
        EnqueueAllKeeps(s, env, job.peer, job.generation, DifferingChildren(local, remote));
        var next := EnqueueAll(s, env, job.peer, job.generation, DifferingChildren(local, remote));
        JobsOfActive(next.jobs, s.peers);
        JobsChange(c, s, next.jobs.(active := None));
      }
    }
  }

  lemma AddCandidateEntries(t: Table, id: ID, source: NodeID)
    requires AddCandidate(t, id, source).Some?
    ensures var u := AddCandidate(t, id, source).value;
            forall other :: other in u.entries ==>
              u.entries[other] == if other != id then t.entries[other]
                                  else AddSource(if id in t.entries then t.entries[id] else NEW_ACQUISITION, source)
  {
    hide AddSource;
  }

  lemma AddCandidateExchange(c: Config, t: Table, j: Jobs, tx: U16, id: ID, source: NodeID)
    requires OneExchange(t, j, tx) && Gated(c, t) && AddCandidate(t, id, source).Some?
    ensures var u := AddCandidate(t, id, source).value; OneExchange(u, j, tx) && Gated(c, u)
  {
    hide AddCandidate, SignatureHolds, AddSource;
    AddCandidateEntries(t, id, source);
    var u := AddCandidate(t, id, source).value;
    forall other | other in u.entries
      ensures other !in t.entries ==> u.entries[other].waiting.Idle? && u.entries[other].assembly.None?
      ensures other in t.entries ==> SameButSources(t.entries[other], u.entries[other]) {
      AddSourceSame(if other in t.entries then t.entries[other] else NEW_ACQUISITION, source);
    }
    assert forall other :: Waits(u, other) ==> Waits(t, other);
  }

  /** Equal but for the sources. */
  predicate SameButSources(a: Acquisition, b: Acquisition) {
    b == a.(sources := b.sources)
  }

  lemma AddSourceSame(a: Acquisition, source: NodeID)
    ensures SameButSources(a, AddSource(a, source))
  {}

  lemma AddAtKeeps(c: Config, s: State, id: ID, source: NodeID, when: Time)
    requires Inv(c, s)
    ensures Inv(c, AddAt(s, id, source, when))
  {
    if AddCandidate(s.table, id, source).Some? {
      var t := AddCandidate(s.table, id, source).value;
      AddCandidateKeeps(s.table, id, source);
      AddCandidateExchange(c, s.table, s.jobs, s.tx, id, source);
      var a := t.entries[id];
      assert AcquisitionValid(id, a);
      assert a.assembly.Some? ==> SignatureHolds(c.ed, a.assembly.value.manifest);
      hide JobsValid, PeersValid, TableValid, OneExchange, Gated, InspectedValid, AllSentValid, AddCandidate, WantedValid;
      assert Inv(c, s.(table := t));
      PutKeeps(c, s.(table := t), id, if a.nextAttempt == 0 then a.(nextAttempt := when) else a);
    }
  }

  lemma ConsiderKeeps(c: Config, s: State, env: Env, k: nat, id: ID, source: NodeID)
    requires Inv(c, s)
    ensures Inv(c, Consider(c, s, env, k, id, source))
  {
    hide JobsValid, PeersValid, TableValid, OneExchange, Gated, InspectedValid, AllSentValid, AddAt, CompleteOn, HasKnown;
    AddAtKeeps(c, s, id, source, env.now);
    AddAtKeeps(c, s, id, source, env.now + Draw(env, k, 500 * MILLISECOND));
  }

  lemma {:induction false} ConsiderAllKeeps(c: Config, s: State, env: Env, ids: seq<ID>, source: NodeID)
    requires Inv(c, s)
    ensures Inv(c, ConsiderAll(c, s, env, ids, source))
  {
    hide Inv, Consider;
    if ids != [] {
      var n := |ids| - 1;
      ConsiderAllKeeps(c, s, env, ids[..n], source);
      ConsiderKeeps(c, ConsiderAll(c, s, env, ids[..n], source), env, n, ids[n], source);
    }
  }

  lemma AcceptLeafKeeps(c: Config, s: State, env: Env, p: Packet)
    requires Inv(c, s)
    ensures Inv(c, AcceptLeaf(c, s, env, p))
  {
    if Answers(s, p) {
      JobsOfActive(s.jobs, s.peers);
      JobsChange(c, s, s.jobs.(active := None));
      hide Inv, ConsiderAll, DecodeLeaf, Missing;
      if DecodeLeaf(p.body).Some? {
        ConsiderAllKeeps(c, s.(jobs := s.jobs.(active := None)), env, Missing(s.inventory, DecodeLeaf(p.body).value.ids), p.source);
      }
    }
  }

  /** Taking a job out, and putting it back or keeping it as the active one. */
  lemma JobTaken(j: Jobs, p: Peers, i: nat, job: Job)
    requires JobsValid(j, p) && i < |j.queue| && j.active.None?
    requires SameWork(job, j.queue[i]) && job.generation == j.queue[i].generation
    ensures var rest := j.queue[..i] + j.queue[i + 1..];
            JobsValid(Jobs(rest, None), p) && JobsValid(Jobs(rest, Some(job)), p) && JobsValid(Jobs(rest + [job], None), p)
  {
    var rest := j.queue[..i] + j.queue[i + 1..];
    forall k | 0 <= k < |rest| ensures JobValid(rest[k], p) && !SameWork(rest[k], job) {
      var l := if k < i then k else k + 1;
      assert rest[k] == j.queue[l] && !SameWork(j.queue[if k < i then k else i], j.queue[if k < i then i else k + 1]);
    }
    NoRepeatsWithout(j.queue, i);
    NoRepeatsSnoc(rest, job);
    hide SameWork, NoRepeats;
  }

  lemma NoRepeatsWithout(q: seq<Job>, i: nat)
    requires NoRepeats(q) && i < |q|
    ensures NoRepeats(q[..i] + q[i + 1..])
  {
    hide SameWork;
  }

  lemma SummaryRequestFits(c: Config, job: Job, tx: U16)
    requires |job.prefix| <= DEPTH
    ensures SentValid(Outgoing(c, SUMMARY_REQUEST, job.peer, tx, EncodePrefix(job.generation, job.prefix)))
  {}

  lemma TakenKeeps(c: Config, s: State, tx: U16, jobs: Jobs)
    requires Inv(c, s) && JobsValid(jobs, s.peers) && (jobs.active.Some? ==> jobs.active.value.transaction == tx)
    requires forall id :: !Waits(s.table, id)
    ensures Inv(c, s.(tx := tx, jobs := jobs))
  {
    hide TableValid, Gated, JobsValid, PeersValid, InspectedValid, AllSentValid, Waits;
  }

  lemma InitiateReconcileKeeps(c: Config, s: State, env: Env)
    requires Inv(c, s)
    ensures Inv(c, InitiateReconcile(c, s, env).0)
    ensures InitiateReconcile(c, s, env).1 || InitiateReconcile(c, s, env).0 == s
  {
    hide Inv, JobsValid, EncodePrefix, Outgoing, JobValid, SentValid, Retried, HasOutstanding, Waits, FirstDue;
    var i := FirstDue(s.jobs.queue, env.now);
    if s.jobs.active.None? && !HasOutstanding(s.table) && i < |s.jobs.queue| {
      InvJobs(c, s);
      RetriedSame(s.jobs.queue[i].(transaction := NextTransaction(s.tx)), env);
      var job := s.jobs.queue[i].(transaction := NextTransaction(s.tx));
      JobAt(s.jobs, s.peers, i);
      JobTaken(s.jobs, s.peers, i, Retried(job, env));
      JobTaken(s.jobs, s.peers, i, job.(deadline := env.later + c.responseTimeout));
      NoneWaits(s.table);
      SummaryRequestFits(c, job, job.transaction);
      var packet := Outgoing(c, SUMMARY_REQUEST, job.peer, job.transaction, EncodePrefix(job.generation, job.prefix));
      SentIsSome(packet);
      var rest := Rest(s.jobs.queue, i);
      var jobs := if env.sendOk(0) then Jobs(rest, Some(job.(deadline := env.later + c.responseTimeout)))
                  else Jobs(rest + [Retried(job, env)], None);
      TakenKeeps(c, s, job.transaction, jobs);
      TransmitKeeps(c, s.(tx := job.transaction, jobs := jobs), packet);
    }
  }

  lemma InvJobs(c: Config, s: State)
    requires Inv(c, s)
    ensures JobsValid(s.jobs, s.peers)
  {}

  lemma RetriedSame(job: Job, env: Env)
    ensures SameWork(Retried(job, env), job) && Retried(job, env).generation == job.generation
  {}

  lemma SentIsSome(packet: Option<Packet>)
    requires SentValid(packet)
    ensures packet.Some?
  {}

  lemma JobAt(j: Jobs, p: Peers, i: nat)
    requires JobsValid(j, p) && i < |j.queue|
    ensures JobValid(j.queue[i], p) && |j.queue[i].prefix| <= DEPTH
  {}

  lemma NoneWaits(t: Table)
    requires !HasOutstanding(t)
    ensures forall id :: !Waits(t, id)
  {}

  // ---- acquisitions -------------------------------------------------------------------

  /** A failed acquisition stays valid and stops waiting. */
  lemma PutFailKeeps(c: Config, s: State, id: ID, a: Acquisition, env: Env)
    requires Inv(c, s) && id in s.table.entries && AcquisitionValid(id, Fail(a, env))
    requires a.assembly.Some? ==> SignatureHolds(c.ed, a.assembly.value.manifest)
    ensures Inv(c, Put(s, id, Fail(a, env)))
  {
    hide Inv, AcquisitionValid, SignatureHolds;
    PutKeeps(c, s, id, Fail(a, env));
  }

  lemma EntryValid(c: Config, s: State, id: ID)
    requires Inv(c, s) && id in s.table.entries
    ensures AcquisitionValid(id, s.table.entries[id])
    ensures s.table.entries[id].assembly.Some? ==> SignatureHolds(c.ed, s.table.entries[id].assembly.value.manifest)
  {
    hide AcquisitionValid, SignatureHolds, Accept;
  }

  lemma DecodedGeometry(id: ID, body: seq<byte>)
    ensures Manifests.DecodeManifest(id, body).Some? ==>
              var m := Manifests.DecodeManifest(id, body).value; m.id == id && Geometry(m)
  {
    if Manifests.DecodeManifest(id, body).Some? {
      EncodeOfDecode(id, body);
    }
  }

  lemma AcceptManifestKeeps(c: Config, s: State, env: Env, p: Packet, pick: Option<ID>)
    requires Inv(c, s) && (pick.Some? ==> RepliesTo(s.table, p, pick.value))
    ensures Inv(c, AcceptManifest(c, s, env, p, pick))
  {
    hide Inv, Manifests.DecodeManifest, Geometry, WantedValid, SignatureHolds, Distinct, Fail, Put;
    if pick.Some? && s.table.entries[pick.value].waiting.ForManifest? {
      var id, a := pick.value, s.table.entries[pick.value];
      EntryValid(c, s, id);
      FailKeeps(id, a, env);
      DecodedGeometry(id, p.body);
      match Manifests.DecodeManifest(id, p.body)
      case None => PutFailKeeps(c, s, id, a, env);
      case Some(m) =>
        PutKeeps(c, s, id, a.(manifest := Some(m), manifestSource := p.source, waiting := Idle, activeSource := 0,
                              nextAttempt := env.now + PAUSE));
    }
  }

  lemma RefreshKeeps(c: Config, s: State, env: Env)
    requires Inv(c, s)
    ensures Inv(c, Refresh(c, s, env))
  {
    hide TableValid, OneExchange, Gated, JobsValid, PeersValid, InspectedValid, AllSentValid, Inventory;
  }

  lemma DiskIrrelevant(c: Config, s: State, disk: Disk)
    requires Inv(c, s)
    ensures Inv(c, s.(disk := disk))
  {
    hide TableValid, OneExchange, Gated, JobsValid, PeersValid, InspectedValid, AllSentValid;
  }

  lemma FinishKeeps(c: Config, s: State, env: Env, id: ID, a: Acquisition, parts: Assembled, w: seq<WriteResult>,
                    spoiled: Disk -> (Disk, Option<Assembled>))
    requires Inv(c, s) && id in s.table.entries && |w| == 3
    requires SourcesValid(a) && (a.waiting.ForSignature? || a.manifest.None?)
    requires Storable(parts.manifest) && SignatureHolds(c.ed, parts.manifest)
    requires forall d :: spoiled(d).1.Some? ==> spoiled(d).1.value.manifest == parts.manifest
    ensures Inv(c, Finish(c, s, env, id, a, parts, w, spoiled))
  {
    hide Inv, CommitOn, SignatureHolds, Refresh, Settle, Storable;
    var (disk, r) := CommitOn(c.sha, c.ed, s.disk, parts, w, env.order);
    DiskIrrelevant(c, s, disk);
    if r.Ok? {
      RefreshKeeps(c, s.(disk := disk), env);
      SettleKeeps(c, Refresh(c, s.(disk := disk), env), id, Committed);
    } else if r.error.WrongHash? {
      var (after, left) := spoiled(disk);
      DiskIrrelevant(c, s, after);
      FailOf(id, a.(assembly := left), env);
      PutFailKeeps(c, s.(disk := after), id, a.(assembly := left), env);
    } else {
      FailOf(id, a.(assembly := Some(parts)), env);
      PutFailKeeps(c, s.(disk := disk), id, a.(assembly := Some(parts)), env);
    }
  }

  ghost predicate Presentable(m: Manifest) {
    (m.version == 1 || m.version == SIGNED_MANIFEST_VERSION) && Geometry(m)
  }

  lemma StartAssemblyKeeps(c: Config, s: State, env: Env, id: ID, a: Acquisition, m: Manifest)
    requires Inv(c, s) && id in s.table.entries && s.table.entries[id] == a
    requires a.waiting.ForSignature? && m.id == id && SignatureHolds(c.ed, m) && Presentable(m) && Encodable(m)
    ensures Inv(c, StartAssembly(c, s, env, id, a, m))
  {
    EntryValid(c, s, id);
    FailKeeps(id, a, env);
    hide Inv, BeginOn, SignatureHolds, Finish, RemoveOn, SourcesValid, Geometry, Encodable, SafeName;
    var (disk, begun) := BeginOn(s.disk, m, env.write(1));
    DiskIrrelevant(c, s, disk);
    match begun
    case Err(_) => PutFailKeeps(c, s.(disk := disk), id, a, env);
    case Ok(parts) =>
      var b := a.(assembly := Some(parts), manifest := None, manifestSource := 0);
      if parts.Whole() {
        FinishKeeps(c, s.(disk := disk), env, id, b, parts, [env.write(2), env.write(3), env.write(4)],
                    d => (RemoveOn(d, id, env.order), None));
      } else {
        PutKeeps(c, s.(disk := disk), id, Progressed(b, env));
      }
  }

  lemma DecideKeeps(c: Config, s: State, env: Env, id: ID, a: Acquisition, m: Manifest)
    requires Inv(c, s) && id in s.table.entries && s.table.entries[id] == a
    requires a.waiting.ForSignature? && m.id == id && Presentable(m)
    ensures Inv(c, Decide(c, s, env, id, a, m))
  {
    EntryValid(c, s, id);
    FailKeeps(id, a, env);
    hide Inv, SaveKnownOn, Accept, StartAssembly, SignatureHolds, AcquisitionValid, Settle, Presentable, Encodable;
    var (disk, saved) := SaveKnownOn(s.disk, m, env.write(0));
    var known := s.(disk := disk);
    DiskIrrelevant(c, s, disk);
    var partial_, wanted := HasPartial(disk, m.id), Wanted(disk, m.id);
    if !saved {
      PutFailKeeps(c, known, id, a, env);
    } else if !Accept(c.ed, c.policy, m, partial_, wanted) {
      SettleKeeps(c, known, id, Deferred);
    } else {
      AcceptExact(c.ed, c.policy, m, partial_, wanted);
      StartAssemblyKeeps(c, known, env, id, a, m);
    }
  }

  lemma MarkKeeps(c: Config, s: State, id: ID, source: NodeID)
    requires Inv(c, s)
    ensures Inv(c, s.(inspected := MarkInspected(s.inspected, id, source)))
  {
    MarkInspectedKeeps(s.inspected, id, source);
    hide TableValid, OneExchange, Gated, JobsValid, PeersValid, InspectedValid, AllSentValid, MarkInspected;
  }

  lemma SignedPresentable(m: Manifest, signature: Option<Signature>)
    requires Geometry(m)
    ensures Presentable(Signed(m, signature)) && Signed(m, signature).id == m.id
  {}

  lemma JudgeKeeps(c: Config, s: State, env: Env, id: ID, a: Acquisition, m: Manifest, source: NodeID)
    requires Inv(c, s) && id in s.table.entries && s.table.entries[id] == a
    requires a.waiting.ForSignature? && m.id == id && Presentable(m)
    ensures Inv(c, Judge(c, s, env, id, a, m, source))
  {
    hide Inv, SignatureHolds, Decide, Settle, MarkInspected, Presentable;
    var marked := s.(inspected := MarkInspected(s.inspected, m.id, source));
    MarkKeeps(c, s, m.id, source);
    if !SignatureHolds(c.ed, m) {
      SettleKeeps(c, marked, id, Settlement.Rejected);
    } else {
      DecideKeeps(c, marked, env, id, a, m);
    }
  }

  lemma AcceptSignatureKeeps(c: Config, s: State, env: Env, p: Packet, pick: Option<ID>)
    requires Inv(c, s) && (pick.Some? ==> RepliesTo(s.table, p, pick.value))
    ensures Inv(c, AcceptSignature(c, s, env, p, pick))
  {
    hide Inv, DecodeSignature, Judge, SignatureHolds, Geometry, WantedValid, Distinct;
    if pick.Some? && s.table.entries[pick.value].waiting.ForSignature? && s.table.entries[pick.value].manifest.Some? {
      var id, a := pick.value, s.table.entries[pick.value];
      EntryValid(c, s, id);
      FailKeeps(id, a, env);
      match DecodeSignature(p.body)
      case None => PutFailKeeps(c, s, id, a, env);
      case Some(signature) =>
        SignedPresentable(a.manifest.value, signature);
        JudgeKeeps(c, s, env, id, a, Signed(a.manifest.value, signature), p.source);
    }
  }

  /** What is still wanted after a chunk arrived is still missing. */
  lemma WantedShrinks(p: Parts, q: Parts, wanted: set<nat>, index: nat, data: seq<byte>)
    requires p.Valid() && AddChunk(p, index, data) == Ok(q) && WantedValid(p.received, wanted)
    ensures wanted - {index} != {} ==> WantedValid(q.received, wanted - {index})
  {
    assert wanted - {index} <= wanted;
    if index in wanted {
      assert |wanted - {index}| == |wanted| - 1;
    }
  }

  lemma TakeChunkKeeps(c: Config, s: State, env: Env, id: ID, a: Acquisition, chunk: ChunkData)
    requires Inv(c, s) && id in s.table.entries && s.table.entries[id] == a
    requires a.waiting.ForChunks? && a.assembly.Some? && chunk.index in a.wanted
    ensures Inv(c, TakeChunk(c, s, env, id, a, chunk))
  {
    EntryValid(c, s, id);
    var (disk, added) := AddOn(s.disk, a.assembly.value, chunk.index, chunk.data, env.write(0));
    DiskIrrelevant(c, s, disk);
    if added.Ok? {
      var parts := added.value;
      WantedShrinks(a.assembly.value, parts, a.wanted, chunk.index, chunk.data);
      hide Inv, AddOn, Finish, WantedValid, SignatureHolds, Restarted, SourcesValid, Storable;
      var b := a.(assembly := Some(parts), wanted := a.wanted - {chunk.index});
      if parts.Whole() {
        RestartedManifest(parts, env);
        FinishKeeps(c, s.(disk := disk), env, id, b, parts, [env.write(1), env.write(2), env.write(3)], d => Restarted(d, parts, env));
      } else {
        PutKeeps(c, s.(disk := disk), id, if b.wanted == {} then Progressed(b, env) else b);
      }
    }
  }

  lemma RestartedManifest(parts: Assembled, env: Env)
    ensures forall d :: Restarted(d, parts, env).1.Some? && Restarted(d, parts, env).1.value.manifest == parts.manifest
  {
    hide RestartOn;
  }

  lemma AcceptChunkKeeps(c: Config, s: State, env: Env, p: Packet, pick: Option<ID>)
    requires Inv(c, s)
    ensures Inv(c, AcceptChunk(c, s, env, p, pick))
  {
    hide Inv, TakeChunk, DecodeChunk;
    if pick.Some? && pick.value in s.table.entries && DecodeChunk(p.body).Some? {
      var id, a := pick.value, s.table.entries[pick.value];
      var chunk := DecodeChunk(p.body).value;
      if a.waiting.ForChunks? && a.assembly.Some? && chunk.index in a.wanted {
        TakeChunkKeeps(c, s, env, id, a, chunk);
      }
    }
  }

  // ---- initiating ---------------------------------------------------------------------

  /** The request goes out and its acquisition waits, or fails at once. */
  lemma AskKeeps(c: Config, s: State, env: Env, id: ID, a: Acquisition, kind: byte, body: Option<seq<byte>>, next: Waiting)
    requires Inv(c, s) && id in s.table.entries && s.jobs.active.None? && (forall other :: !Waits(s.table, other))
    requires a.transaction == s.tx && !next.Idle? && a.waiting.Idle?
    requires SentValid(Outgoing(c, kind, a.activeSource, a.transaction, body))
    requires AcquisitionValid(id, a.(waiting := next)) && AcquisitionValid(id, a.(wanted := {}))
    requires a.assembly.Some? ==> SignatureHolds(c.ed, a.assembly.value.manifest)
    ensures Inv(c, Ask(c, s, env, id, a, kind, body, next))
  {
    hide Inv, SentValid, Outgoing, SignatureHolds, AcquisitionValid, Fail, Waits;
    var packet := Outgoing(c, kind, a.activeSource, a.transaction, body);
    FailKeeps(id, a.(wanted := {}), env);
    FailForgetsWanted(a, env);
    DeadlineIrrelevant(id, a.(waiting := next), env.later + c.responseTimeout);
    TransmitKeeps(c, s, packet);
    if env.sendOk(0) {
      PutKeeps(c, Transmit(s, packet), id, a.(waiting := next, deadline := env.later + c.responseTimeout));
    } else {
      PutFailKeeps(c, Transmit(s, packet), id, a, env);
    }
  }

  lemma FailForgetsWanted(a: Acquisition, env: Env)
    ensures Fail(a, env) == Fail(a.(wanted := {}), env)
  {}

  lemma DeadlineIrrelevant(id: ID, a: Acquisition, deadline: Time)
    requires AcquisitionValid(id, a)
    ensures AcquisitionValid(id, a.(deadline := deadline))
  {
    hide WantedValid, Distinct, Geometry;
  }

  /** What a node asks for fits a request: the encoding error that it ignores cannot
      occur, and the request names the acquisition. */
  lemma ChunkRequestFits(c: Config, id: ID, base: nat, wanted: set<nat>, destination: NodeID, tx: U16)
    requires |wanted| <= MAX_CHUNK_BATCH
    ensures var packet := Outgoing(c, GET_CHUNKS, destination, tx, EncodeChunkRequest(ChunkRequestFor(id, base, wanted)));
            SentValid(packet) && DecodeChunkRequest(packet.value.body) == Some(ChunkRequestFor(id, base, wanted))
  {
    var request := ChunkRequestFor(id, base, wanted);
    BitmapBits(base, wanted);
    ChunkRequestExact(EncodeChunkRequest(request).value, request);
    hide Bitmap, WantedBits, ToBits, Ones, DecodeChunkRequest, ToLE, PacketHeader;
  }

  lemma GrantValid(received: seq<bool>, start: nat, most: BatchSize)
    requires BatchFrom(received, start).indexes != []
    ensures var grant := Grant(BatchFrom(received, start), most);
            grant != [] && |SetOf(grant)| <= MAX_CHUNK_BATCH && WantedValid(received, SetOf(grant))
  {
    BatchExact(received, start);
    hide BatchFrom;
    var batch := BatchFrom(received, start);
    var grant := Grant(batch, most);
    SetOfSize(grant);
    assert grant[0] in SetOf(grant);
    assert forall i :: i in grant ==> i in batch.indexes;
  }

  lemma AskChunksKeeps(c: Config, s: State, env: Env, id: ID, a: Acquisition)
    requires Inv(c, s) && id in s.table.entries && s.jobs.active.None? && (forall other :: !Waits(s.table, other))
    requires a.transaction == s.tx && a.waiting.Idle? && AcquisitionValid(id, a) && a.activeSource != 0
    requires a.assembly.Some? && SignatureHolds(c.ed, a.assembly.value.manifest)
    ensures Inv(c, AskChunks(c, s, env, id, a))
  {
    hide Inv, SentValid, Outgoing, SignatureHolds, WantedValid, Distinct, Ask, BatchFrom, EncodeChunkRequest, Grant;
    var batch := BatchFrom(a.assembly.value.received, a.cursor);
    if batch.indexes == [] {
      PutKeeps(c, s, id, a);
    } else {
      GrantValid(a.assembly.value.received, a.cursor, env.batch);
      var grant := Grant(batch, env.batch);
      ChunkRequestFits(c, id, batch.base, SetOf(grant), a.activeSource, a.transaction);
      AskKeeps(c, s, env, id, a.(wanted := SetOf(grant), cursor := grant[|grant| - 1] + 1), GET_CHUNKS,
               EncodeChunkRequest(ChunkRequestFor(id, batch.base, SetOf(grant))), ForChunks);
    }
  }

  lemma AddressedValid(id: ID, a: Acquisition, tx: U16)
    requires AcquisitionValid(id, a) && |a.sources| > 0 && a.waiting.Idle?
    ensures AcquisitionValid(id, Addressed(a, tx)) && Addressed(a, tx).activeSource != 0
    ensures a.manifest.Some? ==> Addressed(a, tx).activeSource == a.manifestSource
  {
    hide WantedValid, Geometry, Distinct;
  }

  lemma IDRequestFits(c: Config, kind: byte, id: ID, destination: NodeID, tx: U16)
    requires kind != GET_CHUNKS
    ensures SentValid(Outgoing(c, kind, destination, tx, Some(id)))
  {}

  lemma NewTransaction(c: Config, s: State, tx: U16)
    requires Inv(c, s) && s.jobs.active.None? && forall other :: !Waits(s.table, other)
    ensures Inv(c, s.(tx := tx))
  {
    hide TableValid, Gated, JobsValid, PeersValid, InspectedValid, AllSentValid, Waits;
  }

  lemma InitiateKeeps(c: Config, s: State, env: Env, id: ID)
    requires Inv(c, s) && s.jobs.active.None? && !HasOutstanding(s.table)
    requires id in s.table.entries && |s.table.entries[id].sources| > 0
    ensures Inv(c, Initiate(c, s, env, id))
  {
    NoneWaits(s.table);
    assert !Waits(s.table, id);
    var tx := NextTransaction(s.tx);
    var begun := s.(tx := tx);
    NewTransaction(c, s, tx);
    EntryValid(c, s, id);
    AddressedValid(id, s.table.entries[id], tx);
    hide Inv, SignatureHolds, WantedValid, SourcesValid, Ask, AskChunks, SentValid, Outgoing, Geometry, SourceOf;
    var a := Addressed(s.table.entries[id], tx);
    if a.assembly.Some? {
      AskChunksKeeps(c, begun, env, id, a);
    } else if a.manifest.Some? {
      IDRequestFits(c, GET_SIGNATURE, id, a.activeSource, tx);
      AskKeeps(c, begun, env, id, a, GET_SIGNATURE, Some(id), ForSignature);
    } else {
      IDRequestFits(c, GET_MANIFEST, id, a.activeSource, tx);
      AskKeeps(c, begun, env, id, a, GET_MANIFEST, Some(id), ForManifest);
    }
  }

  // ---- the clock ----------------------------------------------------------------------

  lemma ExpiredTableValid(s: State, env: Env)
    requires TableValid(s.table)
    ensures TableValid(ExpireAcquisitions(s, env).table)
  {
    hide AcquisitionValid, Expired, Distinct;
    forall id | id in s.table.entries ensures AcquisitionValid(id, Expired(s.table.entries[id], env)) {
      ExpiredValid(id, s.table.entries[id], env);
    }
  }

  lemma ExpiredValid(id: ID, a: Acquisition, env: Env)
    requires AcquisitionValid(id, a)
    ensures AcquisitionValid(id, Expired(a, env))
  {
    FailKeeps(id, a, env);
  }

  lemma ExpireAcquisitionsKeeps(c: Config, s: State, env: Env)
    requires Inv(c, s)
    ensures Inv(c, ExpireAcquisitions(s, env))
  {
    hide TableValid, SignatureHolds, JobsValid, PeersValid, InspectedValid, AllSentValid, Distinct;
    ExpiredTableValid(s, env);
    var t := ExpireAcquisitions(s, env).table;
    assert forall id :: id in t.entries ==>
      id in s.table.entries && t.entries[id].assembly == s.table.entries[id].assembly
      && t.entries[id].transaction == s.table.entries[id].transaction;
    assert forall id :: Waits(t, id) ==> Waits(s.table, id);
    hide Expired;
  }

  lemma ExpireJobKeeps(c: Config, s: State, env: Env)
    requires Inv(c, s)
    ensures Inv(c, ExpireJob(s, env))
  {
    if s.jobs.active.Some? {
      JobsOfActive(s.jobs, s.peers);
      JobsChange(c, s, s.jobs.(active := None));
      if |s.jobs.queue| < MAX_RECONCILE_JOBS {
        NoRepeatsSnoc(s.jobs.queue, Retried(s.jobs.active.value, env));
        var again := Jobs(s.jobs.queue + [Retried(s.jobs.active.value, env)], None);
        assert JobsValid(again, s.peers) by { hide NoRepeats; }
        JobsChange(c, s, again);
      }
    }
    hide TableValid, OneExchange, Gated, JobsValid, PeersValid, InspectedValid, AllSentValid, Retried;
  }

  lemma RootSummaryFits(c: Config, inventory: seq<ID>)
    ensures SentValid(Outgoing(c, SUMMARY, BROADCAST, 0, EncodeSummary(SummaryOf(c.sha, inventory, []))))
  {
    var summary := SummaryOf(c.sha, inventory, []);
    SummaryExact([], summary);
    hide SummaryOf, EncodeEntries, EncodePrefix;
  }

  lemma AdvertiseKeeps(c: Config, s: State, env: Env)
    requires Inv(c, s)
    ensures Inv(c, Advertise(c, s, env))
  {
    var next := env.now + Jitter(c.advertiseInterval, env.random(1));
    ClockIrrelevant(c, s, next, s.preferReconcile);
    var told := Refresh(c, s, env);
    RefreshKeeps(c, s, env);
    RootSummaryFits(c, told.inventory);
    hide Inv, SentValid, Outgoing, EncodeSummary, SummaryOf, Jitter, Refresh;
    var after := Transmit(told, Outgoing(c, SUMMARY, BROADCAST, 0, EncodeSummary(SummaryOf(c.sha, told.inventory, []))));
    TransmitKeeps(c, told, Outgoing(c, SUMMARY, BROADCAST, 0, EncodeSummary(SummaryOf(c.sha, told.inventory, []))));
    ClockIrrelevant(c, after, next, after.preferReconcile);
    assert after.(nextAdvertise := next) == after.(nextAdvertise := next, preferReconcile := after.preferReconcile);
  }

  lemma ClockIrrelevant(c: Config, s: State, next: Time, prefer: bool)
    requires Inv(c, s)
    ensures Inv(c, s.(nextAdvertise := next, preferReconcile := prefer))
    ensures Inv(c, s.(preferReconcile := prefer)) && Inv(c, s.(nextAdvertise := next))
  {
    hide TableValid, OneExchange, Gated, JobsValid, PeersValid, InspectedValid, AllSentValid;
  }

  lemma TurnKeeps(c: Config, s: State, i: nat)
    requires Inv(c, s) && i < |s.table.order|
    ensures Inv(c, s.(table := s.table.(cursor := (i + 1) % |s.table.order|)))
  {
    hide AcquisitionValid, JobsValid, PeersValid, InspectedValid, AllSentValid, SignatureHolds, Distinct;
    var t := s.table.(cursor := (i + 1) % |s.table.order|);
    assert t.cursor < |t.order|;
    assert TableValid(t);
    assert forall id :: Waits(t, id) <==> Waits(s.table, id);
  }

  lemma WorkOrReconcileKeeps(c: Config, s: State, env: Env)
    requires Inv(c, s) && s.jobs.active.None? && !HasOutstanding(s.table)
    ensures Inv(c, WorkOrReconcile(c, s, env))
  {
    hide Inv, InitiateReconcile, Initiate, NextWork;
    match NextWork(s.table, env.now, 0)
    case Some(i) =>
      var turned := s.(table := s.table.(cursor := (i + 1) % |s.table.order|));
      TurnKeeps(c, s, i);
      var id := s.table.order[i];
      assert Ready(s.table, id, env.now);
      InitiateKeeps(c, turned, env, id);
      var next := Initiate(c, turned, env, id);
      ClockIrrelevant(c, next, next.nextAdvertise, true);
    case None =>
      InitiateReconcileKeeps(c, s, env);
      var next := InitiateReconcile(c, s, env).0;
      ClockIrrelevant(c, next, next.nextAdvertise, false);
  }

  lemma TickKeeps(c: Config, s: State, env: Env)
    requires Inv(c, s)
    ensures Inv(c, Tick(c, s, env))
  {
    hide Inv, InitiateReconcile, WorkOrReconcile, Advertise, ExpireJob, ExpireAcquisitions, HasOutstanding;
    ExpireAcquisitionsKeeps(c, s, env);
    ExpireJobKeeps(c, ExpireAcquisitions(s, env), env);
    var t := ExpireJob(ExpireAcquisitions(s, env), env);
    if env.canInitiate && t.jobs.active.None? && !HasOutstanding(t.table) {
      AdvertiseKeeps(c, t, env);
      InitiateReconcileKeeps(c, t, env);
      var next := InitiateReconcile(c, t, env).0;
      ClockIrrelevant(c, next, next.nextAdvertise, false);
      WorkOrReconcileKeeps(c, t, env);
    }
  }

  // ---- runs ---------------------------------------------------------------------------

  lemma ReceiveKeeps(c: Config, s: State, env: Env, p: Packet, pick: Option<ID>)
    requires Inv(c, s) && Chosen(s.table, p, pick)
    ensures Inv(c, Receive(c, s, env, p, pick))
  {
    hide Inv, RootSummary, ServeManifest, ServeChunks, AcceptManifest, AcceptChunk, ServeSignature, AcceptSignature,
         ServeSummary, AcceptSummary, AcceptLeaf;
    RootSummaryKeeps(c, s, env, p);
    ServeKeeps(c, s, env, p);
    AcceptManifestKeeps(c, s, env, p, pick);
    AcceptChunkKeeps(c, s, env, p, pick);
    AcceptSignatureKeeps(c, s, env, p, pick);
    AcceptSummaryKeeps(c, s, env, p);
    AcceptLeafKeeps(c, s, env, p);
  }

  lemma StepKeeps(c: Config, s: State, e: Event)
    requires Inv(c, s) && Possible(c, s, e)
    ensures Inv(c, Step(c, s, e))
  {
    hide Inv, Receive, Tick, Decode;
    match e
    case Hear(env, data, pick) =>
      if Decode(data).Some? {
        ReceiveKeeps(c, s, env, Decode(data).value, pick);
      }
    case Clock(env) => TickKeeps(c, s, env);
    case Outside(disk) => DiskIrrelevant(c, s, disk);
  }

  /** Whatever is heard, whenever the clock ticks, and whatever fails. */
  lemma {:induction false} RunKeeps(c: Config, states: seq<State>, events: seq<Event>, k: nat)
    requires Run(c, states, events) && Inv(c, states[0]) && k < |states|
    ensures Inv(c, states[k])
  {
    hide Inv, Step, Possible;
    if k > 0 {
      RunKeeps(c, states, events, k - 1);
      StepKeeps(c, states[k - 1], events[k - 1]);
    }
  }
}
