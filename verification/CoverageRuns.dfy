/** Coverage over whole runs: it survives every other packet, timeouts, failed sends,
    repeated roots and local commits. */
module CoverageRuns {
  import opened Bytes
  import opened Seqs
  import opened Radix
  import opened Manifests
  import opened Assemblies
  import opened Stores
  import opened NodeProtocol
  import opened Scheduler
  import opened NodeState
  import opened NodeSteps
  import opened NodeInvariants
  import opened NodeSafety
  import opened NodeFrames
  import opened NodeOutcomes
  import opened NodeSources
  import opened NodeFiling
  import opened Coverage

  /** Whatever a job of the peer covered is still covered, or known by now. */
  ghost predicate CoverKept(s: State, t: State, peer: NodeID, remote: seq<ID>) {
    forall id :: id in remote && JobCovers(s.jobs, peer, id) ==> Known(t, peer, id) || JobCovers(t.jobs, peer, id)
  }

  /** No complete object disappears from the inventory. */
  ghost predicate Grows(s: State, t: State) {
    forall id :: id in s.inventory ==> id in t.inventory
  }

  // ---- packets ------------------------------------------------------------------------

  lemma TrackKeepsOthers(p: Peers, j: Jobs, source: NodeID, generation: U32, peer: NodeID, id: ID)
    requires peer != source && peer in Track(p, j, source, generation).0.generations
    ensures peer in p.generations && p.generations[peer] == Track(p, j, source, generation).0.generations[peer]
    ensures JobCovers(j, peer, id) ==> JobCovers(Track(p, j, source, generation).1, peer, id)
  {
    hide JobCovers, DropJobs, RemoveFirst;
    if JobCovers(j, peer, id) {
      var (kept, jobs) := if source in p.generations then (p.(order := RemoveFirst(p.order, source)), j) else Evict(p, j);
      if source !in p.generations && |p.order| >= MAX_TRACKED_PEERS {
        assert p.order[0] != peer;
        DropKeepsOthers(j, p.order[0], peer, id);
      }
      assert JobCovers(jobs, peer, id);
      DropKeepsOthers(jobs, source, peer, id);
    }
  }

  lemma RootOfAnother(c: Config, s: State, env: Env, p: Packet, peer: NodeID, remote: seq<ID>, generation: U32)
    requires p.source != peer && Tracks(RootSummary(c, s, env, p), peer, generation)
    ensures Tracks(s, peer, generation) && CoverKept(s, RootSummary(c, s, env, p), peer, remote)
  {
    hide JobCovers, DecodeSummary, Track, SummaryOf, DifferingChildren, EnqueueAll;
    if DecodeSummary(p.body).Some? && DecodeSummary(p.body).value.prefix == [] {
      var heard := DecodeSummary(p.body).value;
      var (peers, jobs) := Track(s.peers, s.jobs, p.source, heard.generation);
      var t := RootSummary(c, s, env, p);
      TrackKeepsOthers(s.peers, s.jobs, p.source, heard.generation, peer, seq(16, _ => 0));
      forall id | JobCovers(s.jobs, peer, id) ensures JobCovers(t.jobs, peer, id) {
        TrackKeepsOthers(s.peers, s.jobs, p.source, heard.generation, peer, id);
        LongerCovers(jobs, t.jobs, peer, id);
      }
    }
  }

  lemma QueueCovers(j: Jobs, k: Jobs, peer: NodeID, id: ID)
    requires j.queue <= k.queue && JobCovers(j, peer, id) && !(j.active.Some? && Asks(j.active.value, peer, id))
    ensures JobCovers(k, peer, id)
  {
    hide Asks;
    var i :| 0 <= i < |j.queue| && Asks(j.queue[i], peer, id);
    assert k.queue[i] == j.queue[i];
  }

  lemma ActiveValid(c: Config, s: State)
    requires Inv(c, s) && s.jobs.active.Some?
    ensures JobValid(s.jobs.active.value, s.peers)
  {}

  /** What an honest answer is, by its kind. */
  lemma AnswerKinds(sha: Hash, ids: seq<ID>, prefix: Prefix, kind: byte, body: seq<byte>)
    requires |prefix| <= DEPTH && AnswerFor(sha, ids, prefix) == (kind, Some(body))
    ensures kind == SUMMARY ==> EncodeSummary(SummaryOf(sha, ids, prefix)) == Some(body)
    ensures kind == LEAF ==> EncodeLeaf(LeafOf(sha, ids, prefix)) == Some(body)
  {
    hide EncodeSummary, EncodeLeaf, SummaryOf, LeafOf;
  }

  lemma SummaryKeepsCover(c: Config, s: State, env: Env, p: Packet, peer: NodeID, remote: seq<ID>)
    requires Inv(c, s) && HonestPacket(c, s, p, peer, remote) && p.destination == c.id != BROADCAST && p.kind == SUMMARY
    requires NoCollision(c.sha, s.inventory, remote) && Tracks(s, peer, InventoryGeneration(c.sha, remote))
    requires AcceptSummary(c, s, env, p).drops == s.drops
    ensures CoverKept(s, AcceptSummary(c, s, env, p), peer, remote)
  {
    if Answers(s, p) {
      ActiveValid(c, s);
      hide Inv, NoCollision, InventoryGeneration, AnswerFor, AcceptSummary, JobCovers, Under, EncodeSummary, SummaryOf;
      var job := s.jobs.active.value;
      var t := AcceptSummary(c, s, env, p);
      SummaryQueue(c, s, env, p);
      if p.source == peer {
        AnswerKinds(c.sha, remote, job.prefix, p.kind, p.body);
      }
      forall id | id in remote && JobCovers(s.jobs, peer, id) ensures Known(t, peer, id) || JobCovers(t.jobs, peer, id) {
        if Asks(job, peer, id) {
          SummaryCovers(c, s, env, p, remote, id);
        } else {
          QueueCovers(s.jobs, t.jobs, peer, id);
        }
      }
    }
  }

  lemma SummaryQueue(c: Config, s: State, env: Env, p: Packet)
    ensures s.jobs.queue <= AcceptSummary(c, s, env, p).jobs.queue
  {
    hide DecodeSummary, SummaryOf, DifferingChildren, EnqueueAll;
  }

  lemma LeafKeepsCover(c: Config, s: State, env: Env, p: Packet, peer: NodeID, remote: seq<ID>)
    requires Inv(c, s) && HonestPacket(c, s, p, peer, remote) && p.destination == c.id != BROADCAST && p.kind == LEAF
    requires Tracks(s, peer, InventoryGeneration(c.sha, remote))
    requires AcceptLeaf(c, s, env, p).drops == s.drops
    ensures var t := AcceptLeaf(c, s, env, p);
            forall id :: id in remote && JobCovers(s.jobs, peer, id) ==>
              Known(t, peer, id) || JobCovers(t.jobs, peer, id) || (Names(s, p, peer, id) && LeafReason(c, s, id, peer))
  {
    LeafQueue(c, s, env, p);
    if Answers(s, p) {
      ActiveValid(c, s);
      hide Inv, InventoryGeneration, AnswerFor, AcceptLeaf, JobCovers, Under, EncodeLeaf, LeafOf, Known, LeafReason, Names;
      var job := s.jobs.active.value;
      var t := AcceptLeaf(c, s, env, p);
      if p.source == peer {
        AnswerKinds(c.sha, remote, job.prefix, p.kind, p.body);
      }
      forall id | id in remote && JobCovers(s.jobs, peer, id)
        ensures Known(t, peer, id) || JobCovers(t.jobs, peer, id) || (Names(s, p, peer, id) && LeafReason(c, s, id, peer)) {
        if Asks(job, peer, id) {
          LeafCovers(c, s, env, p, remote, id);
        } else {
          QueueCovers(s.jobs, t.jobs, peer, id);
        }
      }
    }
  }

  lemma LeafQueue(c: Config, s: State, env: Env, p: Packet)
    ensures s.jobs.queue <= AcceptLeaf(c, s, env, p).jobs.queue
    ensures !Answers(s, p) ==> AcceptLeaf(c, s, env, p) == s
  {
    hide DecodeLeaf, Missing, ConsiderAll;
  }

  // ---- the clock ----------------------------------------------------------------------

  lemma ExpireCovers(s: State, env: Env, peer: NodeID, id: ID)
    requires JobCovers(s.jobs, peer, id) && ExpireJob(s, env).drops == s.drops
    ensures JobCovers(ExpireJob(s, env).jobs, peer, id)
  {
    hide Under;
    var t := ExpireJob(s, env);
    if t.jobs != s.jobs {
      if Asks(s.jobs.active.value, peer, id) {
        assert Asks(t.jobs.queue[|s.jobs.queue|], peer, id);
      } else {
        QueueCovers(s.jobs, t.jobs, peer, id);
      }
    }
  }

  lemma ReconcileCovers(c: Config, s: State, env: Env, peer: NodeID, id: ID)
    requires Inv(c, s) && JobCovers(s.jobs, peer, id)
    ensures JobCovers(InitiateReconcile(c, s, env).0.jobs, peer, id)
  {
    hide Inv, EncodePrefix, Outgoing, HasOutstanding, Under, FirstDue, SentValid;
    var i := FirstDue(s.jobs.queue, env.now);
    if s.jobs.active.None? && !HasOutstanding(s.table) && i < |s.jobs.queue| {
      InvJobs(c, s);
      JobAt(s.jobs, s.peers, i);
      var job := s.jobs.queue[i].(transaction := NextTransaction(s.tx));
      SummaryRequestFits(c, job, job.transaction);
      var packet := Outgoing(c, SUMMARY_REQUEST, job.peer, job.transaction, EncodePrefix(job.generation, job.prefix));
      SentIsSome(packet);
      var t := InitiateReconcile(c, s, env).0;
      var rest := s.jobs.queue[..i] + s.jobs.queue[i + 1..];
      assert rest <= t.jobs.queue;
      var k :| 0 <= k < |s.jobs.queue| && Asks(s.jobs.queue[k], peer, id);
      if k == i {
        assert env.sendOk(0) ==> Asks(t.jobs.active.value, peer, id);
        assert !env.sendOk(0) ==> Asks(t.jobs.queue[|rest|], peer, id);
      } else {
        var l := if k < i then k else k - 1;
        assert rest[l] == s.jobs.queue[k] && t.jobs.queue[l] == rest[l];
      }
    }
  }

  lemma WorkParts(c: Config, s: State, env: Env)
    ensures var t := WorkOrReconcile(c, s, env);
            && t.peers == s.peers && t.drops == s.drops && t.settled == s.settled && t.table.entries.Keys == s.table.entries.Keys
            && (t.jobs == s.jobs || t.jobs == InitiateReconcile(c, s, env).0.jobs)
  {
    hide InitiateReconcile, Initiate, NextWork;
  }

  lemma TickParts(c: Config, s: State, env: Env)
    ensures var t, e := Tick(c, s, env), ExpireJob(ExpireAcquisitions(s, env), env);
            && t.peers == s.peers && t.drops == e.drops && t.settled == s.settled && t.table.entries.Keys == s.table.entries.Keys
            && (t.jobs == e.jobs || t.jobs == InitiateReconcile(c, e, env).0.jobs
                || t.jobs == InitiateReconcile(c, InitiateReconcile(c, e, env).0, env).0.jobs)
  {
    hide InitiateReconcile, WorkOrReconcile, ExpireJob, ExpireAcquisitions, HasOutstanding, SummaryOf, EncodeSummary, Jitter, Inventory, Outgoing;
    var e := ExpireJob(ExpireAcquisitions(s, env), env);
    WorkParts(c, e, env);
    WorkParts(c, InitiateReconcile(c, e, env).0, env);
  }

  lemma TickKeepsCover(c: Config, s: State, env: Env, peer: NodeID, remote: seq<ID>)
    requires Inv(c, s) && Tick(c, s, env).drops == s.drops
    ensures CoverKept(s, Tick(c, s, env), peer, remote)
  {
    TickParts(c, s, env);
    hide Inv, JobCovers, InitiateReconcile, ExpireJob, ExpireAcquisitions, Tick, Known;
    var a := ExpireAcquisitions(s, env);
    var e := ExpireJob(a, env);
    ExpireAcquisitionsKeeps(c, s, env);
    ExpireJobKeeps(c, a, env);
    InitiateReconcileKeeps(c, e, env);
    var r := InitiateReconcile(c, e, env).0;
    forall id | id in remote && JobCovers(s.jobs, peer, id) ensures JobCovers(Tick(c, s, env).jobs, peer, id) {
      ExpireCovers(a, env, peer, id);
      ReconcileCovers(c, e, env, peer, id);
      ReconcileCovers(c, r, env, peer, id);
    }
  }

  // ---- room ---------------------------------------------------------------------------

  lemma {:induction false} EnqueueAllFits(s: State, env: Env, peer: NodeID, generation: U32, prefixes: seq<Prefix>)
    requires |s.jobs.queue| + |prefixes| <= MAX_RECONCILE_JOBS
    ensures var t := EnqueueAll(s, env, peer, generation, prefixes);
            t.drops == s.drops && |t.jobs.queue| <= |s.jobs.queue| + |prefixes|
  {
    hide Queued;
    if prefixes != [] {
      EnqueueAllFits(s, env, peer, generation, prefixes[..|prefixes| - 1]);
    }
  }

  lemma TrackShortens(p: Peers, j: Jobs, source: NodeID, generation: U32)
    ensures |Track(p, j, source, generation).1.queue| <= |j.queue|
  {
    hide RemoveFirst;
  }

  /** With 240 jobs or fewer in the queue a root summary always finds room, and makes
      the node track its peer. */
  lemma RootFits(c: Config, s: State, env: Env, p: Packet, summary: RadixSummary)
    requires PeersValid(s.peers) && JobsValid(s.jobs, s.peers) && |s.jobs.queue| + RADIX_CHILDREN <= MAX_RECONCILE_JOBS
    requires DecodeSummary(p.body) == Some(summary) && summary.prefix == []
    ensures var t := RootSummary(c, s, env, p); t.drops == s.drops && Tracks(t, p.source, summary.generation)
  {
    hide PeersValid, JobsValid, SummaryOf, DecodeSummary, Track, EnqueueAll, DifferingUpTo;
    var (peers, jobs) := Track(s.peers, s.jobs, p.source, summary.generation);
    TrackKeeps(s.peers, s.jobs, p.source, summary.generation);
    TrackShortens(s.peers, s.jobs, p.source, summary.generation);
    var local := SummaryOf(c.sha, s.inventory, []);
    FewDiffering(local, summary, RADIX_CHILDREN);
    EnqueueAllFits(s.(peers := peers, jobs := jobs), env, p.source, summary.generation, DifferingChildren(local, summary));
  }

  /** First contact: an honest root summary that finds room leaves its peer tracked and
      everything covered. */
  lemma FirstContact(c: Config, s: State, env: Env, p: Packet, remote: seq<ID>)
    requires PeersValid(s.peers) && JobsValid(s.jobs, s.peers) && |s.jobs.queue| + RADIX_CHILDREN <= MAX_RECONCILE_JOBS
    requires EncodeSummary(SummaryOf(c.sha, remote, [])) == Some(p.body) && NoCollision(c.sha, s.inventory, remote)
    ensures var t := RootSummary(c, s, env, p);
            t.drops == s.drops && Tracks(t, p.source, InventoryGeneration(c.sha, remote)) && AllCovered(t, p.source, remote)
  {
    hide PeersValid, JobsValid, EncodeSummary, DecodeSummary, RootSummary, NoCollision, InventoryGeneration, AllCovered, Tracks, ChildrenOf;
    DecodesSummary(p.body, SummaryOf(c.sha, remote, []));
    RootFits(c, s, env, p, SummaryOf(c.sha, remote, []));
    RootCovers(c, s, env, p, remote);
  }

  lemma AddAtFits(s: State, id: ID, source: NodeID, when: Time)
    requires |s.table.entries| < MAX_ACQUISITIONS
    ensures AddAt(s, id, source, when).drops == s.drops && |AddAt(s, id, source, when).table.entries| <= |s.table.entries| + 1
  {
    hide AddSource;
    var u := AddAt(s, id, source, when).table;
    assert u.entries.Keys == s.table.entries.Keys + {id};
    assert |u.entries.Keys| == |u.entries| && |s.table.entries.Keys| == |s.table.entries|;
  }

  lemma {:induction false} ConsiderAllFits(c: Config, s: State, env: Env, ids: seq<ID>, source: NodeID)
    requires |s.table.entries| + |ids| <= MAX_ACQUISITIONS
    ensures var t := ConsiderAll(c, s, env, ids, source);
            t.drops == s.drops && |t.table.entries| <= |s.table.entries| + |ids|
  {
    hide AddAt, CompleteOn, HasKnown, SourceInspected;
    if ids != [] {
      var n := |ids| - 1;
      ConsiderAllFits(c, s, env, ids[..n], source);
      AddAtFits(ConsiderAll(c, s, env, ids[..n], source), ids[n], source, env.now);
      AddAtFits(ConsiderAll(c, s, env, ids[..n], source), ids[n], source, env.now + Draw(env, n, 500 * MILLISECOND));
    }
  }

  lemma LeafIsSmall(body: seq<byte>)
    ensures DecodeLeaf(body).Some? ==> |DecodeLeaf(body).value.ids| <= LEAF_THRESHOLD
  {
    if DecodeLeaf(body).Some? {
      LeafExact(body, DecodeLeaf(body).value);
    }
  }

  lemma MissingIsFewer(local: seq<ID>, leaf: seq<ID>)
    ensures |Missing(local, leaf)| <= |leaf|
  {}

  /** Room for one more packet: sixteen jobs and ten candidates. */
  predicate Roomy(s: State) {
    |s.jobs.queue| + RADIX_CHILDREN <= MAX_RECONCILE_JOBS && |s.table.entries| + LEAF_THRESHOLD <= MAX_ACQUISITIONS
  }

  lemma RootSuffices(c: Config, s: State, env: Env, p: Packet)
    requires Inv(c, s) && Roomy(s)
    ensures RootSummary(c, s, env, p).drops == s.drops
  {
    hide PeersValid, JobsValid, TableValid, OneExchange, Gated, InspectedValid, AllSentValid, RootSummary, DecodeSummary;
    if DecodeSummary(p.body).Some? && DecodeSummary(p.body).value.prefix == [] {
      RootFits(c, s, env, p, DecodeSummary(p.body).value);
    } else {
      NoRoot(c, s, env, p);
    }
  }

  lemma NoRoot(c: Config, s: State, env: Env, p: Packet)
    requires DecodeSummary(p.body).None? || DecodeSummary(p.body).value.prefix != []
    ensures RootSummary(c, s, env, p) == s
  {
    hide DecodeSummary;
  }

  lemma SummarySuffices(c: Config, s: State, env: Env, p: Packet)
    requires Roomy(s)
    ensures AcceptSummary(c, s, env, p).drops == s.drops
  {
    hide DecodeSummary, SummaryOf, EnqueueAll, DifferingUpTo;
    if Answers(s, p) && DecodeSummary(p.body).Some? && |s.jobs.active.value.prefix| <= DEPTH {
      var job, remote := s.jobs.active.value, DecodeSummary(p.body).value;
      var local := SummaryOf(c.sha, s.inventory, job.prefix);
      FewDiffering(local, remote, RADIX_CHILDREN);
      EnqueueAllFits(s, env, job.peer, job.generation, DifferingChildren(local, remote));
    }
  }

  lemma LeafSuffices(c: Config, s: State, env: Env, p: Packet)
    requires Roomy(s)
    ensures AcceptLeaf(c, s, env, p).drops == s.drops
  {
    hide DecodeLeaf, ConsiderAll, Missing;
    if Answers(s, p) && DecodeLeaf(p.body).Some? {
      var ids := DecodeLeaf(p.body).value.ids;
      LeafIsSmall(p.body);
      MissingIsFewer(s.inventory, ids);
      ConsiderAllFits(c, s.(jobs := s.jobs.(active := None)), env, Missing(s.inventory, ids), p.source);
    }
  }

  /** With that room nothing is dropped, whatever happens next. */
  lemma RoomSuffices(c: Config, s: State, e: Event)
    requires Inv(c, s) && Roomy(s)
    ensures Step(c, s, e).drops == s.drops
  {
    hide Inv, RootSummary, ServeManifest, ServeChunks, AcceptManifest, AcceptChunk, ServeSignature, AcceptSignature,
         ServeSummary, AcceptSummary, AcceptLeaf, Tick, Decode, RemoveEntry, Listing;
    match e
    case Hear(env, data, pick) =>
      if Decode(data).Some? {
        var p := Decode(data).value;
        RootSuffices(c, s, env, p);
        SummarySuffices(c, s, env, p);
        LeafSuffices(c, s, env, p);
      }
    case Clock(env) => TickParts(c, s, env);
    case Outside(_) =>
  }

  // ---- steps and runs -----------------------------------------------------------------

  /** The peer is honest, digests do not collide between the two inventories, the node
      loses no complete object, and there is room, or at least nothing lacks it. */
  ghost predicate GoodStep(c: Config, s: State, e: Event, peer: NodeID, remote: seq<ID>) {
    && HonestEvent(c, s, e, peer, remote) && NoCollision(c.sha, s.inventory, remote)
    && Grows(s, Step(c, s, e)) && (Roomy(s) || Step(c, s, e).drops == s.drops)
  }

  /** After an event an ID that was known is known still, or was dealt with in it. */
  lemma Remembered(c: Config, s: State, e: Event, peer: NodeID, id: ID)
    requires Inv(c, s) && Named(s) && Possible(c, s, e) && Grows(s, Step(c, s, e)) && Known(s, peer, id)
    ensures Known(Step(c, s, e), peer, id) || Dealt(c, s, e, peer, id)
  {
    hide Inv, Named, Possible, Step, Reason;
    StepSources(c, s, e, id);
    if id in s.table.entries && id !in Step(c, s, e).table.entries {
      EndsForReason(c, s, e, id);
      assert Ended(c, s, e, id);
    }
  }

  lemma PassedOver(c: Config, s: State, e: Event, peer: NodeID, id: ID)
    requires e.Hear? && Decode(e.data).Some? && Decode(e.data).value.destination == c.id
    requires Names(s, Decode(e.data).value, peer, id) && LeafReason(c, s, id, peer)
    ensures Dealt(c, s, e, peer, id)
  {
    hide Names, LeafReason, Decode, Ended;
  }

  /** Whatever a job of the peer covered is still covered, or known, or was dealt with. */
  ghost predicate CoverHeld(c: Config, s: State, e: Event, peer: NodeID, remote: seq<ID>) {
    var t := Step(c, s, e);
    forall id :: id in remote && JobCovers(s.jobs, peer, id) ==> Known(t, peer, id) || JobCovers(t.jobs, peer, id) || Dealt(c, s, e, peer, id)
  }

  /** Everything is covered afresh, or the peer was tracked before and what was covered
      then still is, or was dealt with. */
  ghost predicate CoverGoesOn(c: Config, s: State, e: Event, peer: NodeID, remote: seq<ID>) {
    || AllCovered(Step(c, s, e), peer, remote)
    || (Tracks(s, peer, InventoryGeneration(c.sha, remote)) && CoverHeld(c, s, e, peer, remote))
  }

  lemma SameJobs(s: State, t: State, peer: NodeID, remote: seq<ID>)
    requires t.jobs == s.jobs
    ensures CoverKept(s, t, peer, remote)
  {}

  lemma HeardCovers(c: Config, s: State, e: Event, p: Packet, peer: NodeID, remote: seq<ID>)
    requires Inv(c, s) && e.Hear? && Decode(e.data) == Some(p) && HonestPacket(c, s, p, peer, remote)
    requires NoCollision(c.sha, s.inventory, remote) && Step(c, s, e).drops == s.drops
    requires Tracks(Step(c, s, e), peer, InventoryGeneration(c.sha, remote))
    ensures CoverGoesOn(c, s, e, peer, remote)
  {
    hide Inv, NoCollision, InventoryGeneration, RootSummary, AcceptSummary, AcceptLeaf, AcceptManifest, AcceptChunk, AcceptSignature,
         ServeManifest, ServeSignature, ServeSummary, ServeChunks, JobCovers, AnswerFor, EncodeSummary, SummaryOf, RemoveEntry, Listing,
         AllCovered, Decode, LeafReason, Names, Dealt, Known, Tracks;
    var t := Step(c, s, e);
    assert t == Receive(c, s, e.env, p, e.pick);
    var generation := InventoryGeneration(c.sha, remote);
    if t.jobs == s.jobs && t.peers == s.peers {
      TracksSame(s, t, peer, generation);
      SameJobs(s, t, peer, remote);
    } else if p.destination == BROADCAST && p.source == peer {
      RootCovers(c, s, e.env, p, remote);
    } else if p.destination == BROADCAST {
      RootOfAnother(c, s, e.env, p, peer, remote, generation);
    } else if p.kind == SUMMARY {
      TracksSame(s, t, peer, generation);
      SummaryKeepsCover(c, s, e.env, p, peer, remote);
    } else {
      TracksSame(s, t, peer, generation);
      LeafKeepsCover(c, s, e.env, p, peer, remote);
      forall id | Names(s, p, peer, id) && LeafReason(c, s, id, peer) ensures Dealt(c, s, e, peer, id) {
        PassedOver(c, s, e, peer, id);
      }
    }
  }

  lemma TracksSame(s: State, t: State, peer: NodeID, generation: U32)
    requires t.peers == s.peers
    ensures Tracks(t, peer, generation) <==> Tracks(s, peer, generation)
  {}

  lemma StepCovers(c: Config, s: State, e: Event, peer: NodeID, remote: seq<ID>)
    requires Inv(c, s) && GoodStep(c, s, e, peer, remote)
    requires Tracks(Step(c, s, e), peer, InventoryGeneration(c.sha, remote))
    ensures CoverGoesOn(c, s, e, peer, remote)
  {
    if Roomy(s) { RoomSuffices(c, s, e); }
    hide Inv, NoCollision, InventoryGeneration, Tick, HonestPacket, JobCovers, CoverGoesOn, Tracks, Known, Dealt, Receive, Roomy, Decode;
    match e
    case Hear(env, data, pick) =>
      if Decode(data).Some? {
        HeardCovers(c, s, e, Decode(data).value, peer, remote);
      } else {
        Unchanged(c, s, e, peer, remote);
      }
    case Clock(env) =>
      TickParts(c, s, env);
      TracksSame(s, Tick(c, s, env), peer, InventoryGeneration(c.sha, remote));
      TickKeepsCover(c, s, env, peer, remote);
      GoesOn(c, s, e, peer, remote);
    case Outside(disk) => Unchanged(c, s, e, peer, remote);
  }

  lemma GoesOn(c: Config, s: State, e: Event, peer: NodeID, remote: seq<ID>)
    requires Tracks(s, peer, InventoryGeneration(c.sha, remote)) && CoverKept(s, Step(c, s, e), peer, remote)
    ensures CoverGoesOn(c, s, e, peer, remote)
  {
    hide Step, JobCovers, Known, Dealt, Tracks, AllCovered;
  }

  lemma Unchanged(c: Config, s: State, e: Event, peer: NodeID, remote: seq<ID>)
    requires Step(c, s, e).jobs == s.jobs && Step(c, s, e).peers == s.peers
    requires Tracks(Step(c, s, e), peer, InventoryGeneration(c.sha, remote))
    ensures CoverGoesOn(c, s, e, peer, remote)
  {
    hide Step;
    SameJobs(s, Step(c, s, e), peer, remote);
    TracksSame(s, Step(c, s, e), peer, InventoryGeneration(c.sha, remote));
    GoesOn(c, s, e, peer, remote);
  }

  /** While the node tracks the peer at its generation, everything is covered. */
  ghost predicate Covers(c: Config, s: State, peer: NodeID, remote: seq<ID>) {
    Tracks(s, peer, InventoryGeneration(c.sha, remote)) ==> AllCovered(s, peer, remote)
  }

  /** In state k the node has the ID, works on it, or still asks for a prefix that covers
      it; or one of the events so far dealt with it, for a reason that held then. */
  ghost predicate Accounted(c: Config, states: seq<State>, events: seq<Event>, k: nat, peer: NodeID, id: ID)
    requires k <= |events| < |states|
  {
    || Known(states[k], peer, id) || JobCovers(states[k].jobs, peer, id)
    || exists j :: 0 <= j < k && Dealt(c, states[j], events[j], peer, id)
  }

  lemma AccountedStep(c: Config, states: seq<State>, events: seq<Event>, k: nat, peer: NodeID, remote: seq<ID>, id: ID)
    requires Run(c, states, events) && k < |events| && id in remote
    requires Inv(c, states[k]) && Named(states[k]) && Grows(states[k], states[k + 1])
    requires CoverGoesOn(c, states[k], events[k], peer, remote)
    requires Tracks(states[k], peer, InventoryGeneration(c.sha, remote)) ==> Accounted(c, states, events, k, peer, id)
    ensures Accounted(c, states, events, k + 1, peer, id)
  {
    hide Inv, Named, Step, Possible, Known, JobCovers, Dealt, InventoryGeneration, Tracks, Grows;
    if !AllCovered(states[k + 1], peer, remote) {
      if Known(states[k], peer, id) {
        Remembered(c, states[k], events[k], peer, id);
      }
      if j :| 0 <= j < k && Dealt(c, states[j], events[j], peer, id) {
        assert Dealt(c, states[j], events[j], peer, id);
      }
    }
  }

  /** No discovery is lost. From a state in which everything the peer holds is covered,
      or in which the peer is not tracked yet, every later state in which it is tracked
      accounts for all of it. */
  lemma {:induction false} NothingLost(c: Config, states: seq<State>, events: seq<Event>, k: nat, peer: NodeID, remote: seq<ID>)
    requires Run(c, states, events) && Inv(c, states[0]) && Named(states[0]) && k < |states|
    requires forall i :: 0 <= i < |events| ==> GoodStep(c, states[i], events[i], peer, remote)
    requires Covers(c, states[0], peer, remote)
    ensures Tracks(states[k], peer, InventoryGeneration(c.sha, remote)) ==>
              forall id :: id in remote ==> Accounted(c, states, events, k, peer, id)
  {
    hide Inv, Named, Step, Possible, Known, JobCovers, Dealt, InventoryGeneration, Tracks, CoverGoesOn, HonestEvent, NoCollision, Roomy;
    if k > 0 && Tracks(states[k], peer, InventoryGeneration(c.sha, remote)) {
      NothingLost(c, states, events, k - 1, peer, remote);
      RunKeeps(c, states, events, k - 1);
      RunNamed(c, states, events, k - 1);
      assert GoodStep(c, states[k - 1], events[k - 1], peer, remote);
      StepCovers(c, states[k - 1], events[k - 1], peer, remote);
      forall id | id in remote ensures Accounted(c, states, events, k, peer, id) {
        AccountedStep(c, states, events, k - 1, peer, remote, id);
      }
    }
  }

  /** A walk that came to its end has found everything: with no job of the peer left,
      each of its IDs is in the inventory, a candidate, or was dealt with for a reason. */
  lemma FinishedWalk(c: Config, states: seq<State>, events: seq<Event>, k: nat, peer: NodeID, remote: seq<ID>, id: ID)
    requires Run(c, states, events) && Inv(c, states[0]) && Named(states[0]) && k < |states|
    requires forall i :: 0 <= i < |events| ==> GoodStep(c, states[i], events[i], peer, remote)
    requires Covers(c, states[0], peer, remote) && Tracks(states[k], peer, InventoryGeneration(c.sha, remote))
    requires forall i :: 0 <= i < |states[k].jobs.queue| ==> states[k].jobs.queue[i].peer != peer
    requires states[k].jobs.active.Some? ==> states[k].jobs.active.value.peer != peer
    requires id in remote
    ensures Known(states[k], peer, id)
            || exists j :: 0 <= j < k && Dealt(c, states[j], events[j], peer, id)
  {
    hide Inv, Named, Run, GoodStep, InventoryGeneration, Dealt, Under;
    NothingLost(c, states, events, k, peer, remote);
  }
}
