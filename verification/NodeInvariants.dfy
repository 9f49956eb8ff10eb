/** What holds in every state that a node reaches, whatever packets arrive, whenever
    the clock ticks, and whatever fails: bookkeeping, one exchange at a time, the
    phases of an acquisition, and the policy gate. */
module NodeInvariants {
  import opened Bytes
  import opened Seqs
  import opened Radix
  import opened Manifests
  import opened Assemblies
  import opened Stores
  import opened NodeProtocol
  import opened Scheduler
  import opened NodeState
  import opened NodeSteps

  // ---- the invariant ------------------------------------------------------------------

  ghost predicate WantedValid(received: seq<bool>, wanted: set<nat>) {
    && wanted != {} && |wanted| <= MAX_CHUNK_BATCH
    && exists base: nat :: base % WINDOW == 0 &&
         forall i :: i in wanted ==> base <= i < base + WINDOW && i < |received| && !received[i]
  }

  /** What an acquisition that waits for a reply holds, and what it asked whom. */
  ghost predicate PhaseValid(a: Acquisition) {
    match a.waiting
    case Idle => a.wanted == {}
    case ForManifest => a.wanted == {} && a.assembly.None? && a.manifest.None? && a.activeSource != 0
    case ForSignature => a.wanted == {} && a.assembly.None? && a.manifest.Some? && a.activeSource == a.manifestSource
    case ForChunks => a.assembly.Some? && a.activeSource != 0 && WantedValid(a.assembly.value.received, a.wanted)
  }

  ghost predicate SourcesValid(a: Acquisition) {
    Distinct(a.sources) && |a.sources| <= MAX_SOURCES && 0 !in a.sources
  }

  ghost predicate AcquisitionValid(id: ID, a: Acquisition) {
    && SourcesValid(a) && PhaseValid(a)
    && !(a.assembly.Some? && a.manifest.Some?)
    && (a.assembly.Some? ==> Storable(a.assembly.value.manifest))
    && (a.manifest.Some? ==> a.manifest.value.id == id && Geometry(a.manifest.value) && a.manifestSource != 0)
  }

  /** The order lists the acquisitions, each once. */
  ghost predicate TableValid(t: Table) {
    && Distinct(t.order) && (forall id :: id in t.order <==> id in t.entries)
    && (t.cursor == 0 || t.cursor < |t.order|)
    && forall id :: id in t.entries ==> AcquisitionValid(id, t.entries[id])
  }

  /** At most one request of the node's own has no answer yet, and the transaction
      counter is its number. */
  ghost predicate OneExchange(t: Table, j: Jobs, tx: U16) {
    && (forall a, b :: Waits(t, a) && Waits(t, b) ==> a == b)
    && (forall id :: Waits(t, id) ==> t.entries[id].transaction == tx && j.active.None?)
    && (j.active.Some? ==> j.active.value.transaction == tx)
  }

  ghost predicate JobValid(job: Job, p: Peers) {
    && job.peer in p.generations && p.generations[job.peer] == job.generation
    && 1 <= |job.prefix| <= DEPTH
  }

  predicate SameWork(a: Job, b: Job) {
    a.peer == b.peer && a.prefix == b.prefix
  }

  ghost predicate JobsValid(j: Jobs, p: Peers) {
    && |j.queue| <= MAX_RECONCILE_JOBS
    && (forall k :: 0 <= k < |j.queue| ==> JobValid(j.queue[k], p))
    && NoRepeats(j.queue)
    && (j.active.Some? ==> JobValid(j.active.value, p) && forall k :: 0 <= k < |j.queue| ==> !SameWork(j.queue[k], j.active.value))
  }

  ghost predicate PeersValid(p: Peers) {
    && Distinct(p.order) && |p.order| <= MAX_TRACKED_PEERS
    && forall peer :: peer in p.order <==> peer in p.generations
  }

  ghost predicate InspectedValid(i: Inspected) {
    && Distinct(i.order) && |i.order| <= MAX_INSPECTED_IDS
    && (forall id :: id in i.order <==> id in i.sources)
    && forall id :: id in i.sources ==> |i.sources[id]| <= MAX_SOURCES
  }

  /** What is being assembled has no signature, or one that holds. */
  ghost predicate Gated(c: Config, t: Table) {
    forall id :: id in t.entries && t.entries[id].assembly.Some? ==> SignatureHolds(c.ed, t.entries[id].assembly.value.manifest)
  }

  /** A packet was handed over, not the empty one of an ignored encoding error, and a
      request for chunks can be read. */
  ghost predicate SentValid(packet: Option<Packet>) {
    && packet.Some? && Encode(packet.value).Some?
    && (packet.value.kind == GET_CHUNKS ==> DecodeChunkRequest(packet.value.body).Some?)
  }

  ghost predicate AllSentValid(sent: seq<Option<Packet>>) {
    forall k :: 0 <= k < |sent| ==> SentValid(sent[k])
  }

  ghost predicate Inv(c: Config, s: State) {
    && TableValid(s.table)
    && OneExchange(s.table, s.jobs, s.tx)
    && JobsValid(s.jobs, s.peers)
    && PeersValid(s.peers)
    && InspectedValid(s.inspected)
    && Gated(c, s.table)
    && AllSentValid(s.sent)
    && Distinct(s.inventory)
  }

  // ---- single acquisitions ------------------------------------------------------------

  lemma FailKeeps(id: ID, a: Acquisition, env: Env)
    requires AcquisitionValid(id, a)
    ensures AcquisitionValid(id, Fail(a, env))
    ensures Fail(a, env).waiting.Idle? && Fail(a, env).assembly == a.assembly
  {
    hide WantedValid;
  }

  /** A failed exchange leaves no partial phase behind, whatever the acquisition
      held when it failed. */
  lemma FailOf(id: ID, a: Acquisition, env: Env)
    requires SourcesValid(a)
    requires !(a.assembly.Some? && Fail(a, env).manifest.Some?)
    requires a.assembly.Some? ==> Storable(a.assembly.value.manifest)
    requires Fail(a, env).manifest.Some? ==> a.manifest.value.id == id && Geometry(a.manifest.value) && a.manifestSource != 0
    ensures AcquisitionValid(id, Fail(a, env))
  {}

  // ---- the table ----------------------------------------------------------------------

  /** An acquisition may be replaced by one that is idle, or that waits where it
      waited before, or that waits when nothing else does. */
  ghost predicate MayBecome(s: State, id: ID, a: Acquisition) {
    || a.waiting.Idle?
    || (Waits(s.table, id) && a.transaction == s.table.entries[id].transaction)
    || (s.jobs.active.None? && a.transaction == s.tx && forall other :: !Waits(s.table, other))
  }

  lemma PutKeepsExchange(s: State, id: ID, a: Acquisition)
    requires id in s.table.entries && OneExchange(s.table, s.jobs, s.tx) && MayBecome(s, id, a)
    ensures var t := Put(s, id, a); OneExchange(t.table, t.jobs, t.tx)
  {
    var t := Put(s, id, a);
    assert forall other :: other != id ==> (Waits(t.table, other) <==> Waits(s.table, other));
  }

  lemma TableReplaces(t: Table, id: ID, a: Acquisition)
    requires TableValid(t) && id in t.entries && AcquisitionValid(id, a)
    ensures TableValid(t.(entries := t.entries[id := a]))
  {
    hide AcquisitionValid, Distinct;
  }

  lemma TableAdds(t: Table, id: ID, a: Acquisition)
    requires TableValid(t) && id !in t.entries && AcquisitionValid(id, a)
    ensures TableValid(Table(t.entries[id := a], t.order + [id], t.cursor))
  {
    hide AcquisitionValid;
    DistinctConcat(t.order, [id]);
    hide Distinct;
  }

  lemma GateReplaces(c: Config, t: Table, id: ID, a: Acquisition)
    requires Gated(c, t) && (a.assembly.Some? ==> SignatureHolds(c.ed, a.assembly.value.manifest))
    ensures Gated(c, t.(entries := t.entries[id := a]))
  {
    hide SignatureHolds;
  }

  lemma PutKeeps(c: Config, s: State, id: ID, a: Acquisition)
    requires Inv(c, s) && id in s.table.entries && MayBecome(s, id, a) && AcquisitionValid(id, a)
    requires a.assembly.Some? ==> SignatureHolds(c.ed, a.assembly.value.manifest)
    ensures Inv(c, Put(s, id, a))
  {
    PutKeepsExchange(s, id, a);
    TableReplaces(s.table, id, a);
    GateReplaces(c, s.table, id, a);
    hide TableValid, Gated, AcquisitionValid, MayBecome, JobsValid, PeersValid, InspectedValid, AllSentValid, OneExchange;
  }

  lemma AddCandidateKeeps(t: Table, id: ID, source: NodeID)
    requires TableValid(t)
    ensures AddCandidate(t, id, source).Some? ==> TableValid(AddCandidate(t, id, source).value)
  {
    if id in t.entries {
      AddedSourceValid(id, t.entries[id], source);
      TableReplaces(t, id, AddSource(t.entries[id], source));
    } else {
      AddedSourceValid(id, NEW_ACQUISITION, source);
      TableAdds(t, id, AddSource(NEW_ACQUISITION, source));
    }
    hide TableValid, AcquisitionValid, AddSource;
  }

  lemma AddedSourceValid(id: ID, a: Acquisition, source: NodeID)
    requires AcquisitionValid(id, a)
    ensures AcquisitionValid(id, AddSource(a, source))
  {
    hide WantedValid;
  }

  lemma RemoveEntryKeeps(t: Table, id: ID)
    requires TableValid(t)
    ensures TableValid(RemoveEntry(t, id))
  {
    RemoveFirstDistinct(t.order, id);
    hide AcquisitionValid, RemoveFirst, Distinct;
  }

  lemma RemoveEntryExchange(c: Config, t: Table, j: Jobs, tx: U16, id: ID)
    requires OneExchange(t, j, tx) && Gated(c, t)
    ensures OneExchange(RemoveEntry(t, id), j, tx) && Gated(c, RemoveEntry(t, id))
  {
    hide SignatureHolds, RemoveFirst;
    var u := RemoveEntry(t, id);
    assert forall other :: Waits(u, other) ==> Waits(t, other) && u.entries[other] == t.entries[other];
  }

  lemma SettleKeeps(c: Config, s: State, id: ID, why: Settlement)
    requires Inv(c, s)
    ensures Inv(c, Settle(s, id, why))
  {
    RemoveEntryKeeps(s.table, id);
    RemoveEntryExchange(c, s.table, s.jobs, s.tx, id);
    ClearInspectedKeeps(s.inspected, id);
    hide TableValid, OneExchange, Gated, JobsValid, PeersValid, InspectedValid, AllSentValid, RemoveEntry, ClearInspected;
  }

  // ---- inspected sources --------------------------------------------------------------

  lemma ClearInspectedKeeps(i: Inspected, id: ID)
    requires InspectedValid(i)
    ensures InspectedValid(ClearInspected(i, id))
  {
    RemoveFirstDistinct(i.order, id);
    hide RemoveFirst;
  }

  lemma RoomForKeeps(i: Inspected, id: ID)
    requires InspectedValid(i)
    ensures InspectedValid(RoomFor(i, id)) && id in RoomFor(i, id).sources
  {
    if id !in i.sources && |i.order| >= MAX_INSPECTED_IDS {
      var kept := Inspected(i.sources - {i.order[0]}, i.order[1..]);
      assert i.order == [i.order[0]] + i.order[1..];
      assert InspectedValid(kept) && |kept.order| < MAX_INSPECTED_IDS && id !in kept.order;
    }
  }

  lemma MarkInspectedKeeps(i: Inspected, id: ID, source: NodeID)
    requires InspectedValid(i)
    ensures InspectedValid(MarkInspected(i, id, source))
  {
    RoomForKeeps(i, id);
    hide RoomFor;
  }

  // ---- jobs and peers -----------------------------------------------------------------

  lemma EnqueueKeeps(s: State, peer: NodeID, generation: U32, prefix: Prefix, when: Time)
    requires JobsValid(s.jobs, s.peers)
    requires peer in s.peers.generations && s.peers.generations[peer] == generation && 1 <= |prefix| <= DEPTH
    ensures JobsValid(Enqueue(s, peer, generation, prefix, when).jobs, s.peers)
  {
    var q := s.jobs.queue;
    assert forall k :: 0 <= k < |q| && q[k].peer == peer && q[k].prefix == prefix ==> q[k].generation == generation;
  }

  lemma {:induction false} EnqueueAllKeeps(s: State, env: Env, peer: NodeID, generation: U32, prefixes: seq<Prefix>)
    requires JobsValid(s.jobs, s.peers)
    requires peer in s.peers.generations && s.peers.generations[peer] == generation
    requires forall q :: q in prefixes ==> 1 <= |q| <= DEPTH
    ensures JobsValid(EnqueueAll(s, env, peer, generation, prefixes).jobs, s.peers)
  {
    hide JobsValid, Enqueue, Queued;
    if prefixes != [] {
      var n := |prefixes| - 1;
      EnqueueAllKeeps(s, env, peer, generation, prefixes[..n]);
      EnqueueKeeps(EnqueueAll(s, env, peer, generation, prefixes[..n]), peer, generation, prefixes[n],
                   env.now + Draw(env, n, 750 * MILLISECOND));
    }
  }

  ghost predicate NoRepeats(q: seq<Job>) {
    forall k, l :: 0 <= k < l < |q| ==> !SameWork(q[k], q[l])
  }

  lemma NoRepeatsSnoc(q: seq<Job>, job: Job)
    requires NoRepeats(q) && forall k :: 0 <= k < |q| ==> !SameWork(q[k], job)
    ensures NoRepeats(q + [job])
  {}

  /** Dropping keeps a part of the queue in order. */
  lemma {:induction false} FilterKeepsPairs(f: Job -> bool, q: seq<Job>)
    requires NoRepeats(q)
    ensures NoRepeats(Filter(f, q))
  {
    if q != [] {
      var front, last := q[..|q| - 1], q[|q| - 1];
      FilterKeepsPairs(f, front);
      var r := Filter(f, front);
      hide SameWork;
      forall i | 0 <= i < |r| ensures !SameWork(r[i], last) {
        assert r[i] in front;
        var k :| 0 <= k < |front| && front[k] == r[i];
        assert !SameWork(q[k], q[|q| - 1]);
      }
      NoRepeatsSnoc(r, last);
      hide NoRepeats;
    }
  }

  lemma DropJobsKeeps(j: Jobs, p: Peers, peer: NodeID)
    requires JobsValid(j, p)
    ensures JobsValid(DropJobs(j, peer), p)
    ensures forall k :: 0 <= k < |DropJobs(j, peer).queue| ==> DropJobs(j, peer).queue[k].peer != peer
    ensures DropJobs(j, peer).active.Some? ==> DropJobs(j, peer).active.value.peer != peer
  {
    var f := (job: Job) => job.peer != peer;
    FilterKeepsPairs(f, j.queue);
    var r := Filter(f, j.queue);
    hide SameWork, JobValid, Filter, NoRepeats;
    assert DropJobs(j, peer).queue == r;
    forall k | 0 <= k < |r|
      ensures r[k].peer != peer && JobValid(r[k], p) && (j.active.Some? ==> !SameWork(r[k], j.active.value)) {
      assert r[k] in r;
      var i :| 0 <= i < |j.queue| && j.queue[i] == r[k];
    }
  }

  /** Jobs of other peers do not mind what becomes of this one. */
  lemma JobsOfOthers(j: Jobs, p: Peers, q: Peers, peer: NodeID)
    requires JobsValid(j, p)
    requires forall k :: 0 <= k < |j.queue| ==> j.queue[k].peer != peer
    requires j.active.Some? ==> j.active.value.peer != peer
    requires forall other :: other != peer && other in p.generations ==> other in q.generations && q.generations[other] == p.generations[other]
    ensures JobsValid(j, q)
  {
    hide SameWork;
  }

  lemma EvictKeeps(p: Peers, j: Jobs)
    requires PeersValid(p) && JobsValid(j, p)
    ensures var (q, k) := Evict(p, j);
            PeersValid(q) && JobsValid(k, q) && |q.order| < MAX_TRACKED_PEERS
            && (forall peer :: peer in q.generations ==> peer in p.generations && q.generations[peer] == p.generations[peer])
  {
    if |p.order| >= MAX_TRACKED_PEERS {
      var (q, k) := Evict(p, j);
      assert p.order == [p.order[0]] + p.order[1..];
      DropJobsKeeps(j, p, p.order[0]);
      JobsOfOthers(k, p, q, p.order[0]);
      hide JobsValid;
      assert PeersValid(q);
    }
  }

  /** A peer about to be listed, again or for the first time. */
  ghost predicate AboutToList(kept: Peers, source: NodeID) {
    && Distinct(kept.order) && |kept.order| < MAX_TRACKED_PEERS && source !in kept.order
    && forall peer :: peer != source ==> (peer in kept.order <==> peer in kept.generations)
  }

  lemma ForgetsPlace(p: Peers, j: Jobs, source: NodeID)
    requires PeersValid(p) && JobsValid(j, p) && source in p.generations
    ensures var kept := p.(order := RemoveFirst(p.order, source)); AboutToList(kept, source) && JobsValid(j, kept)
  {
    RemoveFirstDistinct(p.order, source);
    hide RemoveFirst, NoRepeats, SameWork, Distinct;
  }

  lemma StaysListed(kept: Peers, j: Jobs, source: NodeID)
    requires AboutToList(kept, source) && JobsValid(j, kept) && source in kept.generations
    ensures var q := Peers(kept.generations, kept.order + [source]); PeersValid(q) && JobsValid(j, q)
  {
    hide NoRepeats, SameWork;
  }

  lemma StartsOver(kept: Peers, j: Jobs, source: NodeID, generation: U32)
    requires AboutToList(kept, source) && JobsValid(j, kept)
    ensures var q := Peers(kept.generations[source := generation], kept.order + [source]);
            PeersValid(q) && JobsValid(DropJobs(j, source), q)
    ensures DropJobs(j, source).active.Some? ==> DropJobs(j, source).active == j.active
  {
    DropJobsKeeps(j, kept, source);
    var q := Peers(kept.generations[source := generation], kept.order + [source]);
    hide JobsValid, Filter;
    JobsOfOthers(DropJobs(j, source), kept, q, source);
  }

  lemma EvictedRoom(p: Peers, j: Jobs, source: NodeID)
    requires PeersValid(p) && JobsValid(j, p) && source !in p.generations
    ensures var (q, k) := Evict(p, j);
            AboutToList(q, source) && JobsValid(k, q) && source !in q.generations && (k.active.Some? ==> k.active == j.active)
  {
    EvictKeeps(p, j);
    hide DropJobs, JobsValid, Distinct;
    if |p.order| >= MAX_TRACKED_PEERS {
      DropsActive(j, p.order[0]);
    }
  }

  lemma DropsActive(j: Jobs, peer: NodeID)
    ensures DropJobs(j, peer).active.Some? ==> DropJobs(j, peer).active == j.active
  {
    hide Filter;
  }

  lemma TrackKeeps(p: Peers, j: Jobs, source: NodeID, generation: U32)
    requires PeersValid(p) && JobsValid(j, p)
    ensures var (q, k) := Track(p, j, source, generation);
            && PeersValid(q) && JobsValid(k, q)
            && source in q.generations && q.generations[source] == generation
            && (k.active.Some? ==> k.active == j.active)
  {
    hide RemoveFirst, Evict, DropJobs, JobsValid, PeersValid, AboutToList;
    if source in p.generations {
      var kept := p.(order := RemoveFirst(p.order, source));
      ForgetsPlace(p, j, source);
      StartsOver(kept, j, source, generation);
      StaysListed(kept, j, source);
    } else {
      EvictedRoom(p, j, source);
      StartsOver(Evict(p, j).0, Evict(p, j).1, source, generation);
    }
  }
}
