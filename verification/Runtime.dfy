/** The node as an object (internal/node/runtime.go): the fields of the runtime and the
    methods that update them, each proved to do what NodeSteps says. */
module Runtimes {
  import opened Bytes
  import opened Seqs
  import opened Radix
  import opened Manifests
  import opened Assemblies
  import opened Stores
  import opened NodeProtocol
  import opened Scheduler
  import opened NodeState
  import opened NodeInvariants
  import NodeSteps
  import NodeSafety
  import NodeResults
  import StoreOperations

  class Runtime {
    const config: Config
    var acquisitions: map<ID, Acquisition>
    var order: seq<ID>
    var workCursor: nat
    var nextAdvertise: Time
    var tx: U16
    var reconcileQueue: seq<Job>
    var reconcileActive: Option<Job>
    var preferReconcile: bool
    var peerGenerations: map<NodeID, U32>
    var peerOrder: seq<NodeID>
    var inspectedSources: map<ID, set<NodeID>>
    var inspectedOrder: seq<ID>
    var completeIDs: seq<ID>
    var disk: Disk
    ghost var sent: seq<Option<Packet>>
    ghost var settled: map<ID, Settlement>
    ghost var drops: nat

    ghost function Value(): State
      reads this
    {
      State(Table(acquisitions, order, workCursor), Jobs(reconcileQueue, reconcileActive), Peers(peerGenerations, peerOrder),
            Inspected(inspectedSources, inspectedOrder), tx, preferReconcile, nextAdvertise, completeIDs, disk,
            sent, settled, drops)
    }

    ghost predicate Valid()
      reads this
    {
      Inv(config, Value())
    }

    // ---- small operations -------------------------------------------------------------

    method Send(packet: Option<Packet>)
      modifies this`sent
      ensures Value() == Transmit(old(Value()), packet)
    {
      sent := sent + [packet];
    }

    method Reply(to_: Packet, kind: byte, body: Option<seq<byte>>)
      modifies this`sent
      ensures Value() == NodeState.Reply(config, old(Value()), to_, kind, body)
    {
      var packet := Outgoing(config, kind, to_.source, to_.transaction, body);
      if packet.Some? {
        Send(packet);
      }
    }

    method Store(id: ID, a: Acquisition)
      modifies this`acquisitions
      ensures Value() == Put(old(Value()), id, a)
    {
      acquisitions := acquisitions[id := a];
    }

    method HasOutstandingAcquisition() returns (some: bool)
      ensures some == HasOutstanding(Value().table)
    {
      var left := acquisitions.Keys;
      while left != {}
        invariant left <= acquisitions.Keys
        invariant forall id :: id in acquisitions && id !in left ==> acquisitions[id].waiting.Idle?
        decreases left
      {
        var id :| id in left;
        left := left - {id};
        if !acquisitions[id].waiting.Idle? {
          return true;
        }
      }
      return false;
    }

    /** Any acquisition that a reply matches. */
    method Active(p: Packet) returns (pick: Option<ID>)
      ensures NodeSteps.Chosen(Value().table, p, pick)
    {
      var left := acquisitions.Keys;
      while left != {}
        invariant left <= acquisitions.Keys
        invariant forall id :: id in acquisitions && id !in left ==> !NodeSteps.RepliesTo(Value().table, p, id)
        decreases left
      {
        var id :| id in left;
        left := left - {id};
        if acquisitions[id].transaction == p.transaction && acquisitions[id].activeSource == p.source {
          return Some(id);
        }
      }
      return None;
    }

    method DropReconciliation(peer: NodeID)
      modifies this`reconcileQueue, this`reconcileActive
      ensures Jobs(reconcileQueue, reconcileActive) == DropJobs(old(Jobs(reconcileQueue, reconcileActive)), peer)
    {
      if reconcileActive.Some? && reconcileActive.value.peer == peer {
        reconcileActive := None;
      }
      reconcileQueue := WithoutPeer(reconcileQueue, peer);
    }

    method QueueReconciliation(peer: NodeID, generation: U32, prefix: Prefix, when: Time)
      modifies this`reconcileQueue, this`drops
      ensures Value() == Enqueue(old(Value()), peer, generation, prefix, when)
    {
      if |reconcileQueue| >= MAX_RECONCILE_JOBS {
        if !Queued(Jobs(reconcileQueue, reconcileActive), peer, generation, prefix) {
          drops := drops + 1;
        }
        return;
      }
      if reconcileActive.Some? && reconcileActive.value.peer == peer && reconcileActive.value.prefix == prefix {
        return;
      }
      for i := 0 to |reconcileQueue|
        invariant forall k :: 0 <= k < i ==>
          !(reconcileQueue[k].peer == peer && reconcileQueue[k].generation == generation && reconcileQueue[k].prefix == prefix)
      {
        var job := reconcileQueue[i];
        if job.peer == peer && job.generation == generation && job.prefix == prefix {
          return;
        }
      }
      reconcileQueue := reconcileQueue + [Job(peer, generation, prefix, 0, when, 0, 0)];
    }

    method QueueAll(env: Env, peer: NodeID, generation: U32, prefixes: seq<Prefix>)
      modifies this`reconcileQueue, this`drops
      ensures Value() == EnqueueAll(old(Value()), env, peer, generation, prefixes)
    {
      hide Enqueue;
      for i := 0 to |prefixes|
        invariant Value() == EnqueueAll(old(Value()), env, peer, generation, prefixes[..i])
      {
        assert prefixes[..i + 1][..i] == prefixes[..i];
        QueueReconciliation(peer, generation, prefixes[i], env.now + Draw(env, i, 750 * MILLISECOND));
      }
      assert prefixes[..|prefixes|] == prefixes;
    }

    method AddCandidate(id: ID, source: NodeID) returns (found: bool)
      modifies this`acquisitions, this`order
      ensures match NodeState.AddCandidate(old(Table(acquisitions, order, workCursor)), id, source)
              case Some(t) => found && Table(acquisitions, order, workCursor) == t
              case None => !found && acquisitions == old(acquisitions) && order == old(order)
    {
      if id !in acquisitions {
        if source != 0 && |acquisitions| >= MAX_ACQUISITIONS {
          return false;
        }
        acquisitions := acquisitions[id := NEW_ACQUISITION];
        order := order + [id];
      }
      var a := acquisitions[id];
      if source != 0 && source !in a.sources && |a.sources| < MAX_SOURCES {
        acquisitions := acquisitions[id := a.(sources := a.sources + [source])];
      }
      return true;
    }

    method RemoveOrder(id: ID)
      modifies this`order, this`workCursor
      ensures order == RemoveFirst(old(order), id)
      ensures workCursor == if id in old(order) && old(workCursor) >= |order| then 0 else old(workCursor)
    {
      for i := 0 to |order|
        invariant order == old(order) && workCursor == old(workCursor) && id !in order[..i]
      {
        if order[i] == id {
          FindAt(order, id, i);
          order := order[..i] + order[i + 1..];
          if workCursor >= |order| {
            workCursor := 0;
          }
          return;
        }
      }
      assert order[..|order|] == order;
    }

    method ClearInspected(id: ID)
      modifies this`inspectedSources, this`inspectedOrder
      ensures Inspected(inspectedSources, inspectedOrder) == NodeState.ClearInspected(old(Inspected(inspectedSources, inspectedOrder)), id)
    {
      inspectedSources := inspectedSources - {id};
      for i := 0 to |inspectedOrder|
        invariant inspectedOrder == old(inspectedOrder) && id !in inspectedOrder[..i]
      {
        if inspectedOrder[i] == id {
          FindAt(inspectedOrder, id, i);
          inspectedOrder := inspectedOrder[..i] + inspectedOrder[i + 1..];
          return;
        }
      }
      assert inspectedOrder[..|inspectedOrder|] == inspectedOrder;
    }

    method MarkSourceInspected(id: ID, source: NodeID)
      modifies this`inspectedSources, this`inspectedOrder
      ensures Inspected(inspectedSources, inspectedOrder) == MarkInspected(old(Inspected(inspectedSources, inspectedOrder)), id, source)
    {
      if id !in inspectedSources {
        if |inspectedOrder| >= MAX_INSPECTED_IDS {
          var evicted := inspectedOrder[0];
          inspectedOrder := inspectedOrder[1..];
          inspectedSources := inspectedSources - {evicted};
        }
        inspectedSources := inspectedSources[id := {}];
        inspectedOrder := inspectedOrder + [id];
      }
      if |inspectedSources[id]| < MAX_SOURCES {
        inspectedSources := inspectedSources[id := inspectedSources[id] + {source}];
      }
    }

    method RemoveAcquisition(id: ID)
      modifies this`acquisitions, this`order, this`workCursor
      ensures Table(acquisitions, order, workCursor) == RemoveEntry(old(Table(acquisitions, order, workCursor)), id)
    {
      hide RemoveFirst;
      acquisitions := acquisitions - {id};
      RemoveOrder(id);
    }

    /** Ends an acquisition. */
    method Remove(id: ID, why: Settlement)
      modifies this`acquisitions, this`order, this`workCursor, this`inspectedSources, this`inspectedOrder, this`settled
      ensures Value() == Settle(old(Value()), id, why)
    {
      hide NodeState.ClearInspected, RemoveEntry;
      if !why.Deferred? {
        ClearInspected(id);
      }
      RemoveAcquisition(id);
      settled := settled[id := why];
    }

    method RefreshInventory(env: Env)
      modifies this`completeIDs
      ensures Value() == NodeSteps.Refresh(config, old(Value()), env)
    {
      if env.listing {
        completeIDs := StoreOperations.ListComplete(config.sha, config.ed, disk);
      }
    }

    // ---- reconciliation ---------------------------------------------------------------

    method TrackPeer(source: NodeID, generation: U32)
      modifies this`peerGenerations, this`peerOrder, this`reconcileQueue, this`reconcileActive
      ensures (Peers(peerGenerations, peerOrder), Jobs(reconcileQueue, reconcileActive))
              == NodeSteps.Track(old(Peers(peerGenerations, peerOrder)), old(Jobs(reconcileQueue, reconcileActive)), source, generation)
    {
      hide DropJobs;
      var known := source in peerGenerations;
      var same := known && peerGenerations[source] == generation;
      if !known {
        if |peerOrder| >= MAX_TRACKED_PEERS {
          var evicted := peerOrder[0];
          peerOrder := peerOrder[1..];
          peerGenerations := peerGenerations - {evicted};
          DropReconciliation(evicted);
        }
      } else {
        ForgetPlace(source);
      }
      peerOrder := peerOrder + [source];
      if !same {
        DropReconciliation(source);
        peerGenerations := peerGenerations[source := generation];
      }
    }

    method ForgetPlace(source: NodeID)
      modifies this`peerOrder
      ensures peerOrder == RemoveFirst(old(peerOrder), source)
    {
      for i := 0 to |peerOrder|
        invariant peerOrder == old(peerOrder) && source !in peerOrder[..i]
      {
        if peerOrder[i] == source {
          FindAt(peerOrder, source, i);
          peerOrder := peerOrder[..i] + peerOrder[i + 1..];
          return;
        }
      }
      assert peerOrder[..|peerOrder|] == peerOrder;
    }

    method HandleRootSummary(env: Env, p: Packet)
      modifies this`peerGenerations, this`peerOrder, this`reconcileQueue, this`reconcileActive, this`drops
      ensures Value() == NodeSteps.RootSummary(config, old(Value()), env, p)
    {
      hide SummaryOf, DifferingChildren, NodeSteps.Track, EnqueueAll, DecodeSummary;
      var decoded := DecodeSummary(p.body);
      if decoded.None? || decoded.value.prefix != [] {
        return;
      }
      var remote := decoded.value;
      var local := BuildSummary(config.sha, completeIDs, []);
      TrackPeer(p.source, remote.generation);
      var prefixes := CollectDiffering(local, remote);
      QueueAll(env, p.source, remote.generation, prefixes);
    }

    method ServeSummary(p: Packet)
      modifies this`sent
      ensures Value() == NodeSteps.ServeSummary(config, old(Value()), p)
    {
      hide SummaryOf, LeafOf, Bucket, EncodeLeaf, EncodeSummary, DecodePrefix, InventoryGeneration, NodeState.Reply;
      var decoded := DecodePrefix(p.body);
      if decoded.None? || |decoded.value.prefix| > DEPTH {
        return;
      }
      var asked := decoded.value;
      if InventoryGeneration(config.sha, completeIDs) != asked.generation {
        return;
      }
      var bucket := FilterPrefix(completeIDs, asked.prefix);
      if |bucket| <= LEAF_THRESHOLD {
        Reply(p, LEAF, EncodeLeaf(LeafOf(config.sha, completeIDs, asked.prefix)));
      } else {
        var summary := BuildSummary(config.sha, completeIDs, asked.prefix);
        Reply(p, SUMMARY, EncodeSummary(summary));
      }
    }

    method AcceptSummary(env: Env, p: Packet)
      modifies this`reconcileQueue, this`reconcileActive, this`drops
      ensures Value() == NodeSteps.AcceptSummary(config, old(Value()), env, p)
    {
      hide SummaryOf, DifferingChildren, EnqueueAll, DecodeSummary;
      if reconcileActive.None? || reconcileActive.value.peer != p.source || reconcileActive.value.transaction != p.transaction {
        return;
      }
      var job := reconcileActive.value;
      var decoded := DecodeSummary(p.body);
      if decoded.None? || decoded.value.generation != job.generation || decoded.value.prefix != job.prefix || |job.prefix| > DEPTH {
        reconcileActive := None;
        return;
      }
      var local := BuildSummary(config.sha, completeIDs, job.prefix);
      var prefixes := CollectDiffering(local, decoded.value);
      QueueAll(env, job.peer, job.generation, prefixes);
      reconcileActive := None;
    }

    method AddAt(id: ID, source: NodeID, when: Time)
      modifies this`acquisitions, this`order, this`drops
      ensures Value() == NodeSteps.AddAt(old(Value()), id, source, when)
    {
      hide NodeState.AddCandidate;
      var found := AddCandidate(id, source);
      if !found {
        drops := drops + 1;
        return;
      }
      var a := acquisitions[id];
      if a.nextAttempt == 0 {
        a := a.(nextAttempt := when);
      }
      Store(id, a);
    }

    method Consider(env: Env, k: nat, id: ID, source: NodeID)
      modifies this`acquisitions, this`order, this`settled, this`drops
      ensures Value() == NodeSteps.Consider(config, old(Value()), env, k, id, source)
    {
      hide NodeSteps.AddAt, CompleteOn, Stores.HasKnown;
      if CompleteOn(config.sha, config.ed, disk, id) {
        settled := settled[id := AlreadyComplete];
      } else if Stores.HasKnown(disk, id) {
        if HasPartial(disk, id) || Wanted(disk, id) {
          AddAt(id, source, env.now);
        } else if !(id in inspectedSources && source in inspectedSources[id]) {
          AddAt(id, source, env.now);
        } else {
          settled := settled[id := KnownDeferred];
        }
      } else {
        AddAt(id, source, env.now + Draw(env, k, 500 * MILLISECOND));
      }
    }

    method AcceptLeaf(env: Env, p: Packet)
      modifies this`reconcileActive, this`acquisitions, this`order, this`settled, this`drops
      ensures Value() == NodeSteps.AcceptLeaf(config, old(Value()), env, p)
    {
      hide NodeSteps.Consider, Missing, DecodeLeaf;
      if reconcileActive.None? || reconcileActive.value.peer != p.source || reconcileActive.value.transaction != p.transaction {
        return;
      }
      var job := reconcileActive.value;
      reconcileActive := None;
      var decoded := DecodeLeaf(p.body);
      if decoded.None? || decoded.value.generation != job.generation || decoded.value.prefix != job.prefix {
        return;
      }
      var ids := MissingIDs(completeIDs, decoded.value);
      ghost var idle := Value();
      for i := 0 to |ids|
        invariant Value() == NodeSteps.ConsiderAll(config, idle, env, ids[..i], p.source)
      {
        assert ids[..i + 1][..i] == ids[..i];
        Consider(env, i, ids[i], p.source);
      }
      assert ids[..|ids|] == ids;
    }

    method InitiateReconcile(env: Env) returns (done: bool)
      modifies this`reconcileQueue, this`reconcileActive, this`tx, this`sent
      ensures (Value(), done) == NodeSteps.InitiateReconcile(config, old(Value()), env)
    {
      hide HasOutstanding, NodeSteps.StartJob;
      var busy := HasOutstandingAcquisition();
      if reconcileActive.Some? || busy {
        return false;
      }
      for i := 0 to |reconcileQueue|
        invariant Value() == old(Value())
        invariant forall j :: 0 <= j < i ==> env.now < reconcileQueue[j].nextAttempt
      {
        if env.now >= reconcileQueue[i].nextAttempt {
          assert FirstDue(reconcileQueue, env.now) == i;
          done := StartJob(env, i);
          return;
        }
      }
      return false;
    }

    method StartJob(env: Env, i: nat) returns (done: bool)
      requires i < |reconcileQueue| && reconcileActive.None?
      modifies this`reconcileQueue, this`reconcileActive, this`tx, this`sent
      ensures (Value(), done) == NodeSteps.StartJob(config, old(Value()), env, i)
    {
      hide EncodePrefix, Outgoing, Retried, NextTransaction, Transmit, NodeSteps.Rest;
      tx := NextTransaction(tx);
      var job := reconcileQueue[i].(transaction := tx);
      reconcileQueue := NodeSteps.Rest(reconcileQueue, i);
      var packet := Outgoing(config, SUMMARY_REQUEST, job.peer, tx, EncodePrefix(job.generation, job.prefix));
      if packet.None? {
        return false;
      }
      if env.sendOk(0) {
        reconcileActive := Some(job.(deadline := env.later + config.responseTimeout));
      } else {
        reconcileQueue := reconcileQueue + [Retried(job, env)];
      }
      Send(packet);
      return true;
    }

    // ---- serving ----------------------------------------------------------------------

    method ServeManifest(p: Packet)
      modifies this`sent
      ensures Value() == NodeSteps.ServeManifest(config, old(Value()), p)
    {
      hide DecodeIDBody, CompleteOn, ReadManifest, Manifests.EncodeManifest, NodeState.Reply;
      var id := DecodeIDBody(p.body);
      if id.None? || !CompleteOn(config.sha, config.ed, disk, id.value) {
        return;
      }
      var m := ReadManifest(disk, ObjectManifest(id.value));
      if m.None? {
        return;
      }
      Reply(p, MANIFEST, Manifests.EncodeManifest(m.value));
    }

    method ServeSignature(p: Packet)
      modifies this`sent
      ensures Value() == NodeSteps.ServeSignature(config, old(Value()), p)
    {
      hide DecodeIDBody, CompleteOn, ReadManifest, EncodeSignature, NodeState.Reply;
      var id := DecodeIDBody(p.body);
      if id.None? || !CompleteOn(config.sha, config.ed, disk, id.value) {
        return;
      }
      var m := ReadManifest(disk, ObjectManifest(id.value));
      if m.None? {
        return;
      }
      Reply(p, SIGNATURE, Some(EncodeSignature(m.value.signature)));
    }

    method ServeChunks(env: Env, p: Packet)
      modifies this`sent
      ensures Value() == NodeSteps.ServeChunks(config, old(Value()), env, p)
    {
      hide CompleteOn, ReadChunkFrom, EncodeChunk, Outgoing, DecodeChunkRequest, NodeSteps.ChunkReply, ToBits;
      var decoded := DecodeChunkRequest(p.body);
      if decoded.None? || !CompleteOn(config.sha, config.ed, disk, decoded.value.id) {
        return;
      }
      var asked := decoded.value;
      var remaining, bit := MAX_CHUNK_BATCH, 0;
      while bit < WINDOW && remaining > 0
        invariant bit <= WINDOW
        invariant remaining == NodeSteps.ServeBits(config, disk, env, asked, p, bit).remaining
        invariant Value() == old(Value()).(sent := old(sent) + NodeSteps.Sending(NodeSteps.ServeBits(config, disk, env, asked, p, bit).sent))
      {
        if ToBits(asked.bitmap, WINDOW)[bit] {
          var packet := NodeSteps.ChunkReply(config, disk, asked, p, bit);
          if packet.Some? {
            SendingSnoc(NodeSteps.ServeBits(config, disk, env, asked, p, bit).sent, packet.value);
            Send(packet);
            if env.sendOk(bit) {
              remaining := remaining - 1;
            }
          }
        }
        bit := bit + 1;
      }
      ServeBitsStop(config, disk, env, asked, p, bit, WINDOW);
    }

    // ---- acquisition ------------------------------------------------------------------

    method AcceptManifest(env: Env, p: Packet, pick: Option<ID>)
      modifies this`acquisitions
      ensures Value() == NodeSteps.AcceptManifest(config, old(Value()), env, p, pick)
    {
      hide Manifests.DecodeManifest, Fail;
      if pick.None? || pick.value !in acquisitions || !acquisitions[pick.value].waiting.ForManifest? {
        return;
      }
      var a := acquisitions[pick.value];
      var manifest := Manifests.DecodeManifest(pick.value, p.body);
      if manifest.None? {
        Store(pick.value, Fail(a, env));
        return;
      }
      a := a.(manifest := manifest, manifestSource := p.source, waiting := Idle, activeSource := 0);
      a := a.(nextAttempt := env.now + PAUSE);
      Store(pick.value, a);
    }

    method Finish(env: Env, id: ID, a: Acquisition, parts: Assembled, w: seq<WriteResult>, spoiled: Disk -> (Disk, Option<Assembled>))
      requires |w| == 3 && id in acquisitions
      modifies this
      ensures Value() == NodeSteps.Finish(config, old(Value()), env, id, a, parts, w, spoiled)
    {
      hide CommitOn, Fail, Settle, Put, NodeSteps.OwnStep, Inventory;
      var (after, r) := CommitOn(config.sha, config.ed, disk, parts, w, env.order);
      disk := after;
      if r.Ok? {
        RefreshInventory(env);
        Remove(id, Committed);
      } else if r.error.WrongHash? {
        var (restored, left) := spoiled(disk);
        disk := restored;
        Store(id, Fail(a.(assembly := left), env));
      } else {
        Store(id, Fail(a.(assembly := Some(parts)), env));
      }
    }

    method StartAssembly(env: Env, id: ID, a: Acquisition, m: Manifest)
      requires id in acquisitions
      modifies this
      ensures Value() == NodeSteps.StartAssembly(config, old(Value()), env, id, a, m)
    {
      hide BeginOn, RemoveOn, Fail, Put, NodeSteps.Finish, NodeSteps.Progressed, NodeSteps.OwnStep;
      var (after, begun) := BeginOn(disk, m, env.write(1));
      disk := after;
      if begun.Err? {
        Store(id, Fail(a, env));
        return;
      }
      var b := a.(assembly := Some(begun.value), manifest := None, manifestSource := 0);
      if begun.value.Whole() {
        Finish(env, id, b, begun.value, [env.write(2), env.write(3), env.write(4)], d => (RemoveOn(d, id, env.order), None));
      } else {
        Store(id, NodeSteps.Progressed(b, env));
      }
    }

    method Decide(env: Env, id: ID, a: Acquisition, m: Manifest)
      requires id in acquisitions
      modifies this
      ensures Value() == NodeSteps.Decide(config, old(Value()), env, id, a, m)
    {
      hide SaveKnownOn, Accept, Fail, Put, Settle, NodeSteps.StartAssembly, NodeSteps.OwnStep;
      var (after, saved) := SaveKnownOn(disk, m, env.write(0));
      disk := after;
      if !saved {
        Store(id, Fail(a, env));
        return;
      }
      var partial_, wanted := HasPartial(disk, m.id), Wanted(disk, m.id);
      if !Accept(config.ed, config.policy, m, partial_, wanted) {
        Remove(id, Deferred);
        return;
      }
      StartAssembly(env, id, a, m);
    }

    method AcceptSignature(env: Env, p: Packet, pick: Option<ID>)
      modifies this
      ensures Value() == NodeSteps.AcceptSignature(config, old(Value()), env, p, pick)
    {
      hide DecodeSignature, Fail, Put, NodeSteps.Judge, NodeSteps.OwnStep;
      if pick.None? || pick.value !in acquisitions {
        return;
      }
      var id, a := pick.value, acquisitions[pick.value];
      if !a.waiting.ForSignature? || a.manifest.None? {
        return;
      }
      var signature := DecodeSignature(p.body);
      if signature.None? {
        Store(id, Fail(a, env));
        return;
      }
      Judge(env, id, a, NodeSteps.Signed(a.manifest.value, signature.value), p.source);
    }

    method Judge(env: Env, id: ID, a: Acquisition, m: Manifest, source: NodeID)
      requires id in acquisitions
      modifies this
      ensures Value() == NodeSteps.Judge(config, old(Value()), env, id, a, m, source)
    {
      hide SignatureHolds, Settle, MarkInspected, NodeSteps.Decide, NodeSteps.OwnStep;
      MarkSourceInspected(m.id, source);
      if !SignatureHolds(config.ed, m) {
        Remove(id, Settlement.Rejected);
        return;
      }
      Decide(env, id, a, m);
    }

    method AcceptChunk(env: Env, p: Packet, pick: Option<ID>)
      modifies this
      ensures Value() == NodeSteps.AcceptChunk(config, old(Value()), env, p, pick)
    {
      hide DecodeChunk, AddOn, NodeSteps.Finish, NodeSteps.Restarted, NodeSteps.Progressed, Put, NodeSteps.OwnStep;
      if pick.None? || pick.value !in acquisitions {
        return;
      }
      var id, a := pick.value, acquisitions[pick.value];
      var chunk := DecodeChunk(p.body);
      if !a.waiting.ForChunks? || a.assembly.None? || chunk.None? || chunk.value.index !in a.wanted {
        return;
      }
      var (after, added) := AddOn(disk, a.assembly.value, chunk.value.index, chunk.value.data, env.write(0));
      disk := after;
      if added.Err? {
        return;
      }
      var parts := added.value;
      a := a.(assembly := Some(parts), wanted := a.wanted - {chunk.value.index});
      if parts.Whole() {
        Finish(env, id, a, parts, [env.write(1), env.write(2), env.write(3)], d => NodeSteps.Restarted(d, parts, env));
        return;
      }
      if a.wanted == {} {
        a := NodeSteps.Progressed(a, env);
      }
      Store(id, a);
    }

    // ---- initiating -------------------------------------------------------------------

    /** The next acquisition that is ready, cyclically from the cursor. */
    method NextWork(now: Time) returns (next: Option<ID>)
      modifies this`workCursor
      ensures match NodeState.NextWork(old(Value().table), now, 0)
              case Some(i) => next == Some(order[i]) && workCursor == (i + 1) % |order|
              case None => next == None && workCursor == old(workCursor)
    {
      if |order| == 0 {
        return None;
      }
      for offset := 0 to |order|
        invariant Value() == old(Value())
        invariant NodeState.NextWork(old(Value().table), now, 0) == NodeState.NextWork(old(Value().table), now, offset)
      {
        var i := Cyclic(workCursor, offset, |order|);
        if order[i] in acquisitions {
          var a := acquisitions[order[i]];
          if a.waiting.Idle? && |a.sources| > 0 && now >= a.nextAttempt {
            workCursor := (i + 1) % |order|;
            return Some(order[i]);
          }
        }
      }
      return None;
    }

    method Ask(env: Env, id: ID, a: Acquisition, kind: byte, body: Option<seq<byte>>, next: Waiting)
      modifies this`acquisitions, this`sent
      ensures Value() == NodeSteps.Ask(config, old(Value()), env, id, a, kind, body, next)
    {
      hide Outgoing, Fail;
      Send(Outgoing(config, kind, a.activeSource, a.transaction, body));
      if !env.sendOk(0) {
        Store(id, Fail(a, env));
        return;
      }
      Store(id, a.(waiting := next, deadline := env.later + config.responseTimeout));
    }

    method AskChunks(env: Env, id: ID, a0: Acquisition)
      requires a0.assembly.Some?
      modifies this`acquisitions, this`sent
      ensures Value() == NodeSteps.AskChunks(config, old(Value()), env, id, a0)
    {
      hide BatchFrom, EncodeChunkRequest, NodeSteps.Ask, Bitmap;
      var a := a0;
      var base, _, indexes := MissingBatch(a.assembly.value.received, a.cursor);
      if |indexes| == 0 {
        Store(id, a);
        return;
      }
      BatchExact(a.assembly.value.received, a.cursor);
      var grant := NodeSteps.Grant(Batch(base, indexes), env.batch);
      assert forall i :: i in grant ==> i in indexes;
      var wanted, bitmap := NameChunks(base, grant);
      a := a.(wanted := wanted, cursor := grant[|grant| - 1] + 1);
      Ask(env, id, a, GET_CHUNKS, EncodeChunkRequest(ChunkRequest(id, base % 0x1_0000, bitmap)), ForChunks);
    }

    method Initiate(env: Env, id: ID)
      requires id in acquisitions && |acquisitions[id].sources| > 0
      modifies this`acquisitions, this`tx, this`sent
      ensures Value() == NodeSteps.Initiate(config, old(Value()), env, id)
    {
      hide NodeSteps.Ask, NodeSteps.AskChunks, NextTransaction;
      var a := acquisitions[id];
      var source := a.sources[a.sourceCursor % |a.sources|];
      if a.manifest.Some? && a.manifestSource != 0 {
        source := a.manifestSource;
      } else {
        a := a.(sourceCursor := (a.sourceCursor + 1) % |a.sources|);
      }
      tx := NextTransaction(tx);
      a := a.(activeSource := source, transaction := tx);
      if a.assembly.Some? {
        AskChunks(env, id, a);
      } else if a.manifest.Some? {
        Ask(env, id, a, GET_SIGNATURE, Some(id), ForSignature);
      } else {
        Ask(env, id, a, GET_MANIFEST, Some(id), ForManifest);
      }
    }

    // ---- the clock --------------------------------------------------------------------

    /** Requests without an answer fail. */
    method ExpireAcquisitions(env: Env)
      modifies this`acquisitions
      ensures Value() == NodeSteps.ExpireAcquisitions(old(Value()), env)
    {
      hide Fail;
      ghost var before := acquisitions;
      var left := acquisitions.Keys;
      while left != {}
        invariant left <= before.Keys && acquisitions.Keys == before.Keys
        invariant forall id :: id in before ==> acquisitions[id] == if id in left then before[id] else NodeSteps.Expired(before[id], env)
        decreases left
      {
        var id :| id in left;
        left := left - {id};
        var a := acquisitions[id];
        if !a.waiting.Idle? && env.now > a.deadline {
          acquisitions := acquisitions[id := Fail(a, env)];
        }
      }
      assert acquisitions == map id | id in before :: NodeSteps.Expired(before[id], env);
    }

    method ExpireJob(env: Env)
      modifies this`reconcileQueue, this`reconcileActive, this`drops
      ensures Value() == NodeSteps.ExpireJob(old(Value()), env)
    {
      hide Retried;
      if reconcileActive.Some? && env.now > reconcileActive.value.deadline {
        var job := Retried(reconcileActive.value, env);
        reconcileActive := None;
        if |reconcileQueue| < MAX_RECONCILE_JOBS {
          reconcileQueue := reconcileQueue + [job];
        } else {
          drops := drops + 1;
        }
      }
    }

    method Advertise(env: Env)
      modifies this`completeIDs, this`sent, this`nextAdvertise
      ensures Value() == NodeSteps.Advertise(config, old(Value()), env)
    {
      hide SummaryOf, EncodeSummary, Outgoing, Inventory, Jitter;
      RefreshInventory(env);
      if env.listing {
        var summary := BuildSummary(config.sha, completeIDs, []);
        Send(Outgoing(config, SUMMARY, BROADCAST, 0, EncodeSummary(summary)));
      }
      nextAdvertise := env.now + Jitter(config.advertiseInterval, env.random(1));
    }

    method WorkOrReconcile(env: Env)
      modifies this`acquisitions, this`workCursor, this`tx, this`sent, this`reconcileQueue, this`reconcileActive, this`preferReconcile
      ensures Value() == NodeSteps.WorkOrReconcile(config, old(Value()), env)
    {
      hide NodeSteps.InitiateReconcile, NodeSteps.Initiate, NodeState.NextWork;
      var next := NextWork(env.now);
      if next.Some? {
        Initiate(env, next.value);
        preferReconcile := true;
        return;
      }
      var done := InitiateReconcile(env);
      if done {
        preferReconcile := false;
      }
    }

    method Tick(env: Env)
      modifies this
      ensures Value() == NodeSteps.Tick(config, old(Value()), env)
    {
      hide NodeSteps.ExpireJob, NodeSteps.ExpireAcquisitions, NodeSteps.Proceed;
      ExpireAcquisitions(env);
      ExpireJob(env);
      Proceed(env);
    }

    method Proceed(env: Env)
      modifies this
      ensures Value() == NodeSteps.Proceed(config, old(Value()), env)
    {
      hide NodeSteps.InitiateReconcile, NodeSteps.WorkOrReconcile, NodeSteps.Advertise, HasOutstanding;
      var busy := HasOutstandingAcquisition();
      if !env.canInitiate || reconcileActive.Some? || busy {
        return;
      }
      if env.now >= nextAdvertise {
        Advertise(env);
        return;
      }
      if preferReconcile {
        var done := InitiateReconcile(env);
        if done {
          preferReconcile := false;
          return;
        }
      }
      WorkOrReconcile(env);
    }

    // ---- packets and ticks ------------------------------------------------------------

    method Dispatch(env: Env, p: Packet, pick: Option<ID>)
      modifies this
      ensures Value() == NodeSteps.Receive(config, old(Value()), env, p, pick)
    {
      hide NodeSteps.RootSummary, NodeSteps.ServeManifest, NodeSteps.ServeChunks, NodeSteps.AcceptManifest, NodeSteps.AcceptChunk,
           NodeSteps.ServeSignature, NodeSteps.AcceptSignature, NodeSteps.ServeSummary, NodeSteps.AcceptSummary, NodeSteps.AcceptLeaf;
      if p.source == config.id {
        return;
      }
      if p.destination != BROADCAST && p.destination != config.id {
        return;
      }
      if p.destination == BROADCAST {
        if p.kind == SUMMARY {
          HandleRootSummary(env, p);
        }
        return;
      }
      if p.kind == GET_MANIFEST {
        ServeManifest(p);
      } else if p.kind == GET_CHUNKS {
        ServeChunks(env, p);
      } else if p.kind == MANIFEST {
        AcceptManifest(env, p, pick);
      } else if p.kind == CHUNK {
        AcceptChunk(env, p, pick);
      } else if p.kind == GET_SIGNATURE {
        ServeSignature(p);
      } else if p.kind == SIGNATURE {
        AcceptSignature(env, p, pick);
      } else if p.kind == SUMMARY_REQUEST {
        ServeSummary(p);
      } else if p.kind == SUMMARY {
        AcceptSummary(env, p);
      } else if p.kind == LEAF {
        AcceptLeaf(env, p);
      }
    }

    /** Any octets may come from the radio; the node stays valid and takes a step. */
    method HandleIncoming(env: Env, data: seq<byte>) returns (ghost pick: Option<ID>)
      requires Valid()
      modifies this
      ensures Valid()
      ensures NodeSteps.Possible(config, old(Value()), NodeSteps.Hear(env, data, pick))
      ensures Value() == NodeSteps.Step(config, old(Value()), NodeSteps.Hear(env, data, pick))
    {
      hide Inv, Decode, NodeSteps.Receive, NodeSteps.Tick, NodeSteps.Chosen;
      pick := None;
      var decoded := Decode(data);
      if decoded.None? {
        return;
      }
      var found := Active(decoded.value);
      pick := found;
      NodeSafety.ReceiveKeeps(config, Value(), env, decoded.value, found);
      Dispatch(env, decoded.value, found);
    }

    method OnTick(env: Env)
      requires Valid()
      modifies this
      ensures Valid()
      ensures Value() == NodeSteps.Step(config, old(Value()), NodeSteps.Clock(env))
    {
      hide Inv, NodeSteps.Receive, NodeSteps.Tick, Decode;
      NodeSafety.TickKeeps(config, Value(), env);
      Tick(env);
    }

    // ---- start ------------------------------------------------------------------------

    /** A node starts from the directory as it is, with the partial and the wanted
        publications that it finds there. */
    constructor (config: Config, disk: Disk, tx: U16, env: Env, partials: seq<ID>, wanted: seq<ID>, delay: Time)
      requires config.id != 0 && config.id != BROADCAST
      ensures Valid()
      ensures this.config == config && Value() == NodeSteps.Start(config, disk, tx, env, partials, wanted, delay)
    {
      this.config, this.disk, this.tx := config, disk, tx;
      acquisitions, order, workCursor, nextAdvertise := map[], [], 0, 0;
      reconcileQueue, reconcileActive, preferReconcile := [], None, false;
      peerGenerations, peerOrder := map[], [];
      inspectedSources, inspectedOrder := map[], [];
      completeIDs := [];
      sent, settled, drops := [], map[], 0;
      new;
      hide Inv, Inventory, NodeSteps.StartPartials, NodeSteps.StartWanted, CompleteOn;
      completeIDs := StoreOperations.ListComplete(config.sha, config.ed, disk);
      LoadWork(env, partials, wanted, delay);
      NodeResults.StartKeeps(config, disk, tx, env, partials, wanted, delay);
    }

    /** Takes up what an earlier process left behind and what is wanted. */
    method LoadWork(env: Env, partials: seq<ID>, wanted: seq<ID>, delay: Time)
      modifies this`acquisitions, this`order, this`disk, this`nextAdvertise
      ensures Value() == NodeSteps.StartWanted(NodeSteps.StartPartials(config, old(Value()), env, partials), wanted).(nextAdvertise := env.now + delay)
    {
      hide NodeSteps.StartPartials, NodeSteps.StartWanted;
      LoadPartials(env, partials);
      LoadWanted(wanted);
      nextAdvertise := env.now + delay;
    }

    method LoadPartials(env: Env, partials: seq<ID>)
      modifies this`acquisitions, this`order, this`disk
      ensures Value() == NodeSteps.StartPartials(config, old(Value()), env, partials)
    {
      hide NodeSteps.StartPartial;
      for i := 0 to |partials|
        invariant Value() == NodeSteps.StartPartials(config, old(Value()), env, partials[..i])
      {
        assert partials[..i + 1][..i] == partials[..i];
        StartPartial(env, i, partials[i]);
      }
      assert partials[..|partials|] == partials;
    }

    method LoadWanted(wanted: seq<ID>)
      modifies this`acquisitions, this`order
      ensures Value() == NodeSteps.StartWanted(old(Value()), wanted)
    {
      hide NodeSteps.Own;
      for i := 0 to |wanted|
        invariant Value() == NodeSteps.StartWanted(old(Value()), wanted[..i])
      {
        assert wanted[..i + 1][..i] == wanted[..i];
        Own(wanted[i]);
      }
      assert wanted[..|wanted|] == wanted;
    }

    method Own(id: ID)
      modifies this`acquisitions, this`order
      ensures Value() == NodeSteps.Own(old(Value()), id)
    {
      var _ := AddCandidate(id, 0);
    }

    method StartPartial(env: Env, k: nat, id: ID)
      modifies this`acquisitions, this`order, this`disk
      ensures Value() == NodeSteps.StartPartial(config, old(Value()), env, k, id)
    {
      hide LoadPartialOn, RemoveOn, Accept;
      var (after, loaded) := LoadPartialOn(disk, id, env.write(k));
      disk := after;
      if loaded.Err? {
        disk := RemoveOn(disk, id, env.order);
        Own(id);
        return;
      }
      var parts := loaded.value;
      var wanted := Wanted(disk, id);
      if !Accept(config.ed, config.policy, parts.manifest, true, wanted) {
        return;
      }
      Own(id);
      Store(id, acquisitions[id].(assembly := Some(parts)));
    }
  }

  method WithoutPeer(queue: seq<Job>, peer: NodeID) returns (out: seq<Job>)
    ensures out == Filter((job: Job) => job.peer != peer, queue)
  {
    ghost var others := (job: Job) => job.peer != peer;
    out := [];
    for i := 0 to |queue|
      invariant out == Filter(others, queue[..i])
    {
      FilterSnoc(others, queue, i);
      if queue[i].peer != peer {
        out := out + [queue[i]];
      }
    }
    assert queue[..|queue|] == queue;
  }

  /** The wanted set and the bitmap of a grant, index by index. */
  method NameChunks(base: nat, grant: seq<nat>) returns (wanted: set<nat>, bitmap: byte)
    requires forall j, k :: 0 <= j < k < |grant| ==> grant[j] < grant[k]
    requires forall i :: i in grant ==> base <= i < base + WINDOW
    ensures wanted == SetOf(grant) && bitmap == Bitmap(base, wanted)
  {
    hide Bitmap, Pow2;
    wanted, bitmap := {}, 0;
    BitmapOfNone(base);
    for k := 0 to |grant|
      invariant wanted == SetOf(grant[..k]) && bitmap == Bitmap(base, wanted)
    {
      assert grant[k] in grant;
      BitmapWith(base, wanted, grant[k]);
      AddToSet(grant[..k], grant[k]);
      assert grant[..k + 1] == grant[..k] + [grant[k]];
      bitmap := bitmap + Pow2(grant[k] - base);
      wanted := wanted + {grant[k]};
    }
    assert grant[..|grant|] == grant;
  }

  lemma SendingSnoc(packets: seq<Packet>, p: Packet)
    ensures NodeSteps.Sending(packets + [p]) == NodeSteps.Sending(packets) + [Some(p)]
  {}

  /** With no grant left, the remaining bits are not served. */
  lemma {:induction false} ServeBitsStop(c: Config, disk: Disk, env: Env, asked: ChunkRequest, p: Packet, n: nat, end: nat)
    requires n <= end <= WINDOW && (n == end || NodeSteps.ServeBits(c, disk, env, asked, p, n).remaining == 0)
    ensures NodeSteps.ServeBits(c, disk, env, asked, p, end) == NodeSteps.ServeBits(c, disk, env, asked, p, n)
  {
    hide NodeSteps.ChunkReply, ToBits;
    if n < end {
      ServeBitsStop(c, disk, env, asked, p, n, end - 1);
    }
  }
}
