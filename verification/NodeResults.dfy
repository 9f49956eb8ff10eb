/** How a node starts, and what its invariant means for replies, exchanges and tables. */
module NodeResults {
  import opened Bytes
  import opened Seqs
  import opened Radix
  import opened Manifests
  import opened Assemblies
  import opened Stores
  import opened NodeProtocol
  import opened Scheduler
  import opened NodeState
  import opened NodeSteps
  import opened NodeInvariants
  import opened NodeSafety

  // ---- start --------------------------------------------------------------------------

  /** A node starts with acquisitions that have asked nobody yet. */
  ghost predicate Quiet(s: State) {
    forall id :: id in s.table.entries ==>
      s.table.entries[id].waiting.Idle? && s.table.entries[id].manifest.None? && s.table.entries[id].sources == []
      && s.table.entries[id].wanted == {}
  }

  lemma OwnQuiet(s: State, id: ID)
    requires Quiet(s)
    ensures Quiet(Own(s, id)) && id in Own(s, id).table.entries && Own(s, id) == s.(table := Own(s, id).table)
  {}

  lemma OwnKeeps(c: Config, s: State, id: ID)
    requires Inv(c, s) && Quiet(s)
    ensures Inv(c, Own(s, id)) && Quiet(Own(s, id)) && id in Own(s, id).table.entries
    ensures Own(s, id) == s.(table := Own(s, id).table)
  {
    OwnQuiet(s, id);
    hide Quiet, AddCandidate, AddSource;
    AddCandidateKeeps(s.table, id, 0);
    AddCandidateExchange(c, s.table, s.jobs, s.tx, id, 0);
    hide TableValid, OneExchange, Gated, JobsValid, PeersValid, InspectedValid, AllSentValid;
  }

  lemma StartPartialKeeps(c: Config, s: State, env: Env, k: nat, id: ID)
    requires Inv(c, s) && Quiet(s)
    ensures var t := StartPartial(c, s, env, k, id); Inv(c, t) && Quiet(t)
  {
    hide Inv, LoadPartialOn, RemoveOn, Accept, Own;
    var (disk, loaded) := LoadPartialOn(s.disk, id, env.write(k));
    match loaded
    case Err(_) =>
      DiskIrrelevant(c, s, RemoveOn(disk, id, env.order));
      OwnKeeps(c, s.(disk := RemoveOn(disk, id, env.order)), id);
    case Ok(parts) =>
      DiskIrrelevant(c, s, disk);
      if Accept(c.ed, c.policy, parts.manifest, true, Wanted(disk, id)) {
        AcceptExact(c.ed, c.policy, parts.manifest, true, Wanted(disk, id));
        OwnKeeps(c, s.(disk := disk), id);
        var t := Own(s.(disk := disk), id);
        EntryValid(c, t, id);
        PutKeeps(c, t, id, t.table.entries[id].(assembly := Some(parts)));
      }
  }

  lemma {:induction false} StartPartialsKeeps(c: Config, s: State, env: Env, ids: seq<ID>)
    requires Inv(c, s) && Quiet(s)
    ensures var t := StartPartials(c, s, env, ids); Inv(c, t) && Quiet(t)
  {
    hide Inv, StartPartial, Quiet;
    if ids != [] {
      var n := |ids| - 1;
      StartPartialsKeeps(c, s, env, ids[..n]);
      StartPartialKeeps(c, StartPartials(c, s, env, ids[..n]), env, n, ids[n]);
    }
  }

  lemma {:induction false} StartWantedKeeps(c: Config, s: State, ids: seq<ID>)
    requires Inv(c, s) && Quiet(s)
    ensures Inv(c, StartWanted(s, ids)) && Quiet(StartWanted(s, ids))
  {
    hide Inv, Own, Quiet;
    if ids != [] {
      StartWantedKeeps(c, s, ids[..|ids| - 1]);
      OwnKeeps(c, StartWanted(s, ids[..|ids| - 1]), ids[|ids| - 1]);
    }
  }

  /** A node starts well from any directory, whatever its files say. */
  lemma StartKeeps(c: Config, disk: Disk, tx: U16, env: Env, partials: seq<ID>, wanted: seq<ID>, delay: Time)
    ensures Inv(c, Start(c, disk, tx, env, partials, wanted, delay))
  {
    var blank := Blank(c, disk, tx, env);
    assert Inv(c, blank) && Quiet(blank);
    hide Inv, StartPartials, StartWanted, Blank;
    StartPartialsKeeps(c, blank, env, partials);
    var s := StartPartials(c, blank, env, partials);
    StartWantedKeeps(c, s, wanted);
    var t := StartWanted(s, wanted);
    ClockIrrelevant(c, t, env.now + delay, t.preferReconcile);
  }

  /** Safety of whole runs: from any start, through any packets, ticks, outside
      changes of the store and failures. */
  lemma Reachable(c: Config, disk: Disk, tx: U16, env: Env, partials: seq<ID>, wanted: seq<ID>, delay: Time,
                  states: seq<State>, events: seq<Event>, k: nat)
    requires Run(c, states, events) && states[0] == Start(c, disk, tx, env, partials, wanted, delay) && k < |states|
    ensures Inv(c, states[k])
  {
    hide Inv, Run, Start;
    StartKeeps(c, disk, tx, env, partials, wanted, delay);
    RunKeeps(c, states, events, k);
  }

  // ---- replies ------------------------------------------------------------------------

  predicate IsReply(kind: byte) {
    kind == MANIFEST || kind == SIGNATURE || kind == CHUNK || kind == SUMMARY || kind == LEAF
  }

  /** A reply moves only the exchange it belongs to, and that exchange is the one
      with the current transaction: a reply with any other number, however it came
      to match an acquisition of the past, changes nothing at all. */
  lemma StaleReplyIgnored(c: Config, s: State, env: Env, p: Packet, pick: Option<ID>)
    requires Inv(c, s) && Chosen(s.table, p, pick) && IsReply(p.kind) && p.destination == c.id != BROADCAST
    requires p.transaction != s.tx
    ensures Receive(c, s, env, p, pick) == s
  {
    if pick.Some? {
      assert !Waits(s.table, pick.value);
    }
    hide TableValid, JobsValid, PeersValid, InspectedValid, AllSentValid, Gated, TakeChunk, Decide, EnqueueAll, ConsiderAll,
         DecodeSummary, DecodeLeaf, Manifests.DecodeManifest, DecodeSignature, DecodeChunk;
  }

  /** A packet of the node's own, or for another node, changes nothing; and of what is
      broadcast only summaries are heard. */
  lemma OthersIgnored(c: Config, s: State, env: Env, p: Packet, pick: Option<ID>)
    requires p.source == c.id || (p.destination != c.id && (p.destination != BROADCAST || p.kind != SUMMARY))
    ensures Receive(c, s, env, p, pick) == s
  {}

  ghost predicate SameEntry(t: Table, u: Table, id: ID) {
    (id in t.entries <==> id in u.entries) && (id in t.entries ==> t.entries[id] == u.entries[id])
  }

  /** A manifest, signature or chunk that does anything belongs to the one waiting
      acquisition, comes from the node that was asked with the current transaction,
      and leaves every other acquisition, every job and every peer as they were. */
  lemma ReplyTouchesOne(c: Config, s: State, env: Env, p: Packet, pick: Option<ID>)
    requires Inv(c, s) && Chosen(s.table, p, pick) && p.destination == c.id != BROADCAST
    requires p.kind == MANIFEST || p.kind == SIGNATURE || p.kind == CHUNK
    ensures var t := Receive(c, s, env, p, pick);
            t != s ==>
              && pick.Some? && Waits(s.table, pick.value)
              && p.source == s.table.entries[pick.value].activeSource && p.transaction == s.tx
              && (forall other :: other != pick.value ==> SameEntry(s.table, t.table, other))
              && t.jobs == s.jobs && t.peers == s.peers && t.tx == s.tx && t.sent == s.sent
  {
    hide Inv, AcceptManifest, AcceptSignature, AcceptChunk, RemoveFirst, Inventory;
    if Receive(c, s, env, p, pick) != s && p.transaction != s.tx {
      StaleReplyIgnored(c, s, env, p, pick);
    }
  }

  // ---- the invariant, read ------------------------------------------------------------

  /** Never two exchanges of the node's own: acquisitions that wait and the active
      reconciliation together are at most one, and its number is the counter's. */
  lemma AtMostOneOutstanding(c: Config, s: State)
    requires Inv(c, s)
    ensures |set id | id in s.table.entries && Waits(s.table, id)| + (if s.jobs.active.Some? then 1 else 0) <= 1
    ensures forall id :: Waits(s.table, id) ==> s.table.entries[id].transaction == s.tx && s.table.entries[id].activeSource != 0
    ensures s.jobs.active.Some? ==> s.jobs.active.value.transaction == s.tx
  {
    var waiting := set id | id in s.table.entries && Waits(s.table, id);
    if id :| id in waiting {
      assert forall other :: other in waiting ==> other == id;
      assert waiting == {id};
    }
    forall id | Waits(s.table, id) ensures s.table.entries[id].activeSource != 0 {
      EntryValid(c, s, id);
    }
    hide TableValid, JobsValid, PeersValid, InspectedValid, Gated, AllSentValid, Geometry, Distinct, WantedValid;
  }

  /** What each phase of an acquisition has in hand. */
  lemma Phases(c: Config, s: State, id: ID)
    requires Inv(c, s) && id in s.table.entries
    ensures var a := s.table.entries[id];
            && !(a.assembly.Some? && a.manifest.Some?)
            && (a.waiting.ForManifest? ==> a.assembly.None? && a.manifest.None?)
            && (a.waiting.ForSignature? ==> a.assembly.None? && a.manifest.Some? && a.manifest.value.id == id
                                            && a.activeSource == a.manifestSource != 0)
            && (a.waiting.ForChunks? ==>
                  && a.assembly.Some? && !a.assembly.value.Whole() && 1 <= |a.wanted| <= MAX_CHUNK_BATCH
                  && (forall i :: i in a.wanted ==> i < |a.assembly.value.received| && !a.assembly.value.received[i])
                  && exists base :: base % WINDOW == 0 && forall i :: i in a.wanted ==> base <= i < base + WINDOW)
            && (!a.waiting.ForChunks? ==> a.wanted == {})
  {
    EntryValid(c, s, id);
    hide Inv, Geometry, Storable, Distinct;
    var a := s.table.entries[id];
    if a.waiting.ForChunks? {
      var i :| i in a.wanted;
      assert !a.assembly.value.received[i];
    }
  }

  /** Tables that list each other, bounded, and jobs that agree with them. */
  lemma Coherence(c: Config, s: State)
    requires Inv(c, s)
    ensures |s.table.order| == |s.table.entries| && (forall id :: id in s.table.order <==> id in s.table.entries)
    ensures |s.peers.order| == |s.peers.generations| <= MAX_TRACKED_PEERS
    ensures |s.jobs.queue| <= MAX_RECONCILE_JOBS
    ensures forall job :: job in s.jobs.queue || s.jobs.active == Some(job) ==>
              job.peer in s.peers.generations && s.peers.generations[job.peer] == job.generation && 1 <= |job.prefix| <= DEPTH
    ensures forall k, l :: 0 <= k < l < |s.jobs.queue| ==> !SameWork(s.jobs.queue[k], s.jobs.queue[l])
    ensures s.jobs.active.Some? ==> forall k :: 0 <= k < |s.jobs.queue| ==> !SameWork(s.jobs.queue[k], s.jobs.active.value)
  {
    DistinctSize(s.table.order);
    assert SetOf(s.table.order) == s.table.entries.Keys && |s.table.entries.Keys| == |s.table.entries|;
    DistinctSize(s.peers.order);
    assert SetOf(s.peers.order) == s.peers.generations.Keys && |s.peers.generations.Keys| == |s.peers.generations|;
    hide AcquisitionValid, InspectedValid, Gated, AllSentValid, SameWork, OneExchange;
  }
}
