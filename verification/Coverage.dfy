/** No discovery is lost: while an honest peer is tracked, everything it holds is in
    the inventory, a candidate, below a prefix still to be asked for, or was dealt with
    for a reason. */
module Coverage {
  import opened Bytes
  import opened Seqs
  import opened Radix
  import opened RadixWalk
  import opened Manifests
  import opened Assemblies
  import opened Stores
  import opened NodeProtocol
  import opened Scheduler
  import opened NodeState
  import opened NodeSteps
  import opened NodeInvariants
  import opened NodeSafety
  import opened NodeOutcomes
  import opened NodeSources

  // ---- what is covered ----------------------------------------------------------------

  ghost predicate Asks(job: Job, peer: NodeID, id: ID) {
    job.peer == peer && |job.prefix| <= DEPTH && Under(id, job.prefix)
  }

  ghost predicate JobCovers(j: Jobs, peer: NodeID, id: ID) {
    (j.active.Some? && Asks(j.active.value, peer, id)) || exists k :: 0 <= k < |j.queue| && Asks(j.queue[k], peer, id)
  }

  /** The node has the ID; or it works on it, and may ask this peer for it or as many others
      as it keeps. */
  ghost predicate Known(s: State, peer: NodeID, id: ID) {
    id in s.inventory || MayAsk(s.table, peer, id)
  }

  /** Why an ID of a leaf is not made a candidate. */
  ghost predicate LeafReason(c: Config, s: State, id: ID, source: NodeID) {
    || CompleteOn(c.sha, c.ed, s.disk, id)
    || (HasKnown(s.disk, id) && !HasPartial(s.disk, id) && !Wanted(s.disk, id) && SourceInspected(s.inspected, id, source))
  }

  /** The packet is the peer's answer to the active job, whose prefix covers the ID, and a
      leaf that names it. */
  ghost predicate Names(s: State, p: Packet, peer: NodeID, id: ID) {
    && Answers(s, p) && p.source == peer && p.kind == LEAF && Asks(s.jobs.active.value, peer, id)
    && DecodeLeaf(p.body).Some?
    && var job, leaf := s.jobs.active.value, DecodeLeaf(p.body).value;
       leaf.generation == job.generation && leaf.prefix == job.prefix && id in leaf.ids
  }

  ghost predicate NamedByLeaf(c: Config, s: State, e: Event, peer: NodeID, id: ID) {
    e.Hear? && Decode(e.data).Some? && Decode(e.data).value.destination == c.id && Names(s, Decode(e.data).value, peer, id)
  }

  ghost predicate Ended(c: Config, s: State, e: Event, id: ID) {
    var t := Step(c, s, e);
    id in s.table.entries && id !in t.table.entries && id in t.settled && Reason(c, s, e, id, t.settled[id])
  }

  /** The event dealt with an ID of the peer: its acquisition ended, because its signature
      did not hold, because the policy did not pass it or because it was committed; or the
      peer, asked for a prefix of the ID, named it in a leaf, and it was complete, or known
      and this peer inspected before. */
  ghost predicate Dealt(c: Config, s: State, e: Event, peer: NodeID, id: ID) {
    || Ended(c, s, e, id)
    || (NamedByLeaf(c, s, e, peer, id) && LeafReason(c, s, id, peer))
  }

  ghost predicate AllCovered(s: State, peer: NodeID, remote: seq<ID>) {
    forall id :: id in remote ==> Known(s, peer, id) || JobCovers(s.jobs, peer, id)
  }

  ghost predicate Tracks(s: State, peer: NodeID, generation: U32) {
    peer in s.peers.generations && s.peers.generations[peer] == generation
  }

  // ---- an honest peer -----------------------------------------------------------------

  /** What a peer with a fixed inventory sends: its root summary, and to a request the
      answer for the prefix that was asked for. */
  ghost predicate HonestPacket(c: Config, s: State, p: Packet, peer: NodeID, remote: seq<ID>) {
    p.source == peer ==>
      && (p.destination == BROADCAST && p.kind == SUMMARY ==> EncodeSummary(SummaryOf(c.sha, remote, [])) == Some(p.body))
      && (p.destination == c.id != BROADCAST && (p.kind == SUMMARY || p.kind == LEAF) && Answers(s, p)
          && |s.jobs.active.value.prefix| <= DEPTH ==>
            AnswerFor(c.sha, remote, s.jobs.active.value.prefix) == (p.kind, Some(p.body)))
  }

  ghost predicate HonestEvent(c: Config, s: State, e: Event, peer: NodeID, remote: seq<ID>) {
    e.Hear? && Decode(e.data).Some? ==> HonestPacket(c, s, Decode(e.data).value, peer, remote)
  }

  /** Every prefix has an answer, and it fits a packet. */
  lemma AnswerFits(sha: Hash, ids: seq<ID>, prefix: Prefix)
    requires Distinct(ids) && |prefix| <= DEPTH
    ensures AnswerFor(sha, ids, prefix).1.Some? && |AnswerFor(sha, ids, prefix).1.value| <= MAX_BODY
  {
    hide InventoryGeneration, Bucket, ChildrenOf, Sorted, EncodePrefix, EncodeEntries, Join;
    if |prefix| == DEPTH {
      FullDepthIsLeaf(ids, prefix);
    }
    LeafExact([], LeafOf(sha, ids, prefix));
    SummaryExact([], SummaryOf(sha, ids, prefix));
  }

  /** A node with this inventory is such a peer: it answers every request that names
      its generation, once, to the requester, under the request's number. */
  lemma NodesAreHonest(c: Config, s: State, p: Packet, asked: Prefixed)
    requires Distinct(s.inventory) && DecodePrefix(p.body) == Some(asked)
    requires asked.generation == InventoryGeneration(c.sha, s.inventory) && |asked.prefix| <= DEPTH
    ensures var (kind, body) := AnswerFor(c.sha, s.inventory, asked.prefix);
            && body.Some?
            && ServeSummary(c, s, p) == Transmit(s, Some(Packet(kind, c.id, p.source, p.transaction, body.value)))
  {
    hide DecodePrefix, InventoryGeneration, AnswerFor;
    AnswerFits(c.sha, s.inventory, asked.prefix);
  }

  /** A request that names the generation of some inventory is answered exactly if that of
      the node starts with the same four octets: one whose inventory has changed since stays
      silent. */
  lemma AnswersExact(c: Config, s: State, p: Packet, asked: Prefixed, ids: seq<ID>)
    requires Distinct(s.inventory) && DecodePrefix(p.body) == Some(asked)
    requires asked.generation == InventoryGeneration(c.sha, ids) && |asked.prefix| <= DEPTH
    ensures ServeSummary(c, s, p) != s <==> SameStart(c.sha, s.inventory, ids, 4)
  {
    DigestExact(c.sha, s.inventory, ids);
    hide DecodePrefix, InventoryGeneration, SameStart;
    if SameStart(c.sha, s.inventory, ids, 4) {
      NodesAreHonest(c, s, p, asked);
    }
  }

  /** The IDs of an inventory that a prefix covers. */
  ghost function Within(ids: seq<ID>, prefix: Prefix): set<ID>
    requires |prefix| <= DEPTH
  {
    set id | id in ids && Under(id, prefix)
  }

  lemma BucketWithin(ids: seq<ID>, prefix: Prefix)
    requires Distinct(ids) && |prefix| <= DEPTH
    ensures var bucket := Bucket(ids, prefix);
            SetOf(Sorted(bucket)) == Within(ids, prefix) && Distinct(Sorted(bucket)) && |bucket| == |Within(ids, prefix)|
  {
    FilterDistinct(id => Under(id, prefix), ids);
    var bucket := Bucket(ids, prefix);
    hide Under;
    SortedKeeps(bucket);
    DistinctSetSize(bucket);
    assert SetOf(bucket) == Within(ids, prefix);
  }

  lemma SortedKeeps(ids: seq<ID>)
    ensures SetOf(Sorted(ids)) == SetOf(ids) && (Distinct(ids) ==> Distinct(Sorted(ids)))
  {
    hide Sorted;
    MultisetSameElements(ids, Sorted(ids));
    if Distinct(ids) {
      forall x ensures multiset(Sorted(ids))[x] <= 1 { DistinctMultiset(ids, x); }
      OnceEachDistinct(Sorted(ids));
    }
  }

  /** What the answer to a request says: where the prefix covers at most ten IDs a leaf that
      names exactly them, and otherwise a summary. */
  lemma AnswersWhole(c: Config, s: State, p: Packet, asked: Prefixed)
    requires Distinct(s.inventory) && DecodePrefix(p.body) == Some(asked)
    requires asked.generation == InventoryGeneration(c.sha, s.inventory) && |asked.prefix| <= DEPTH
    ensures var t, under := ServeSummary(c, s, p), Within(s.inventory, asked.prefix);
            && |t.sent| == |s.sent| + 1 && t.sent[|s.sent|].Some?
            && var q := t.sent[|s.sent|].value;
               && q.source == c.id && q.destination == p.source && q.transaction == p.transaction
               && if |under| <= 10 then
                    q.kind == LEAF && DecodeLeaf(q.body).Some?
                    && var leaf := DecodeLeaf(q.body).value;
                       leaf.generation == asked.generation && leaf.prefix == asked.prefix && Distinct(leaf.ids) && SetOf(leaf.ids) == under
                  else q.kind == SUMMARY && DecodeSummary(q.body) == Some(SummaryOf(c.sha, s.inventory, asked.prefix))
  {
    NodesAreHonest(c, s, p, asked);
    BucketWithin(s.inventory, asked.prefix);
    AnswerFits(c.sha, s.inventory, asked.prefix);
    hide DecodePrefix, InventoryGeneration, Under, Bucket, Sorted, EncodeLeaf, DecodeLeaf, EncodeSummary, DecodeSummary, Within, ChildrenOf, ServeSummary, Distinct, SetOf;
    var (kind, body) := AnswerFor(c.sha, s.inventory, asked.prefix);
    if kind == LEAF {
      DecodesLeaf(body.value, LeafOf(c.sha, s.inventory, asked.prefix));
    } else {
      DecodesSummary(body.value, SummaryOf(c.sha, s.inventory, asked.prefix));
    }
  }

  // ---- jobs ---------------------------------------------------------------------------

  lemma QueuedCovers(j: Jobs, peer: NodeID, generation: U32, prefix: Prefix, id: ID)
    requires Queued(j, peer, generation, prefix) && |prefix| <= DEPTH && Under(id, prefix)
    ensures JobCovers(j, peer, id)
  {
    hide Under;
    if !(j.active.Some? && j.active.value.peer == peer && j.active.value.prefix == prefix) {
      var k :| 0 <= k < |j.queue| && j.queue[k].peer == peer && j.queue[k].generation == generation && j.queue[k].prefix == prefix;
      assert Asks(j.queue[k], peer, id);
    }
  }

  lemma LongerCovers(j: Jobs, k: Jobs, peer: NodeID, id: ID)
    requires j.queue <= k.queue && j.active == k.active && JobCovers(j, peer, id)
    ensures JobCovers(k, peer, id)
  {
    hide Asks;
    if i :| 0 <= i < |j.queue| && Asks(j.queue[i], peer, id) {
      assert k.queue[i] == j.queue[i];
    }
  }

  lemma DropKeepsOthers(j: Jobs, other: NodeID, peer: NodeID, id: ID)
    requires other != peer && JobCovers(j, peer, id)
    ensures JobCovers(DropJobs(j, other), peer, id)
  {
    hide Under, Filter;
    var f := (job: Job) => job.peer != other;
    if i :| 0 <= i < |j.queue| && Asks(j.queue[i], peer, id) {
      var r := DropJobs(j, other).queue;
      assert j.queue[i] in r;
      var k :| 0 <= k < |r| && r[k] == j.queue[i];
      assert Asks(r[k], peer, id);
    }
  }

  lemma QueuedStays(j: Jobs, k: Jobs, peer: NodeID, generation: U32, prefix: Prefix)
    requires j.queue <= k.queue && j.active == k.active && Queued(j, peer, generation, prefix)
    ensures Queued(k, peer, generation, prefix)
  {
    if i :| 0 <= i < |j.queue| && j.queue[i].peer == peer && j.queue[i].generation == generation && j.queue[i].prefix == prefix {
      assert k.queue[i] == j.queue[i];
    }
  }

  /** Every prefix is queued unless room ran out. */
  lemma {:induction false} EnqueueAllQueues(s: State, env: Env, peer: NodeID, generation: U32, prefixes: seq<Prefix>, q: Prefix)
    requires q in prefixes && EnqueueAll(s, env, peer, generation, prefixes).drops == s.drops
    ensures Queued(EnqueueAll(s, env, peer, generation, prefixes).jobs, peer, generation, q)
  {
    hide Queued;
    var n := |prefixes| - 1;
    var front := EnqueueAll(s, env, peer, generation, prefixes[..n]);
    if q in prefixes[..n] {
      EnqueueAllQueues(s, env, peer, generation, prefixes[..n], q);
      QueuedStays(front.jobs, EnqueueAll(s, env, peer, generation, prefixes).jobs, peer, generation, q);
    } else {
      assert q == prefixes[n];
    }
  }

  /** What is queued anew asks for one of the prefixes, and is due within three quarters of
      a second. */
  lemma {:induction false} EnqueuedSoon(s: State, env: Env, peer: NodeID, generation: U32, prefixes: seq<Prefix>)
    ensures var q := EnqueueAll(s, env, peer, generation, prefixes).jobs.queue;
            s.jobs.queue <= q && forall k :: |s.jobs.queue| <= k < |q| ==>
              q[k].peer == peer && q[k].generation == generation && q[k].prefix in prefixes && q[k].failures == 0
              && env.now <= q[k].nextAttempt <= env.now + 750 * MILLISECOND
  {
    hide Queued;
    if prefixes != [] {
      EnqueuedSoon(s, env, peer, generation, prefixes[..|prefixes| - 1]);
    }
  }

  // ---- one level of the walk ----------------------------------------------------------

  /** An ID that only the peer holds lies below a child that the summaries name. */
  lemma ChildNamed(sha: Hash, local: seq<ID>, remote: seq<ID>, prefix: Prefix, id: ID)
    requires |prefix| < DEPTH && Under(id, prefix) && id in remote && id !in local
    requires NoCollision(sha, local, remote)
    ensures var child := Path(id)[..|prefix| + 1];
            child in DifferingChildren(SummaryOf(sha, local, prefix), SummaryOf(sha, remote, prefix)) && Under(id, child)
  {
    hide Bucket, EntriesDiffer, SummaryOf, DifferingChildren, DigestIDs;
    var child := Path(id)[..|prefix| + 1];
    UnderPath(id, prefix);
    UnderPath(id, child);
    assert child[..|prefix|] == Path(id)[..|prefix|];
    assert NoCollisionAt(sha, local, remote, child);
    hide Under, NoCollision, NoCollisionAt, Path;
    DifferenceShows(sha, local, remote, child, id);
    WalkFollowsSummaries(sha, local, remote, prefix, child);
  }

  lemma DecodesSummary(body: seq<byte>, summary: RadixSummary)
    requires EncodeSummary(summary) == Some(body)
    ensures DecodeSummary(body) == Some(summary) && |summary.prefix| < DEPTH
  {
    SummaryExact(body, summary);
    hide EncodePrefix, EncodeEntries, DecodePrefixWithTail, DecodeEntries;
  }

  lemma DecodesLeaf(body: seq<byte>, leaf: RadixLeaf)
    requires EncodeLeaf(leaf) == Some(body)
    ensures DecodeLeaf(body) == Some(leaf)
  {
    LeafExact(body, leaf);
    hide DecodeLeaf, EncodeLeaf;
  }

  /** A root summary of the peer covers everything, whatever was known before. */
  lemma RootCovers(c: Config, s: State, env: Env, p: Packet, remote: seq<ID>)
    requires EncodeSummary(SummaryOf(c.sha, remote, [])) == Some(p.body)
    requires NoCollision(c.sha, s.inventory, remote)
    requires RootSummary(c, s, env, p).drops == s.drops
    ensures AllCovered(RootSummary(c, s, env, p), p.source, remote)
  {
    hide NoCollision, SummaryOf, DecodeSummary, EncodeSummary, Track, JobCovers, DifferingChildren, EnqueueAll;
    var summary := SummaryOf(c.sha, remote, []);
    assert summary.prefix == [] by { RootPrefix(c.sha, remote); }
    DecodesSummary(p.body, summary);
    var t := RootSummary(c, s, env, p);
    var (peers, jobs) := Track(s.peers, s.jobs, p.source, summary.generation);
    var local := SummaryOf(c.sha, s.inventory, []);
    forall id | id in remote && !Known(t, p.source, id) ensures JobCovers(t.jobs, p.source, id) {
      UnderRoot(id);
      ChildNamed(c.sha, s.inventory, remote, [], id);
      ChildQueued(s.(peers := peers, jobs := jobs), env, p.source, summary.generation, DifferingChildren(local, summary), Path(id)[..1], id);
    }
  }

  lemma RootPrefix(sha: Hash, ids: seq<ID>)
    ensures SummaryOf(sha, ids, []).prefix == []
  {}

  lemma ChildQueued(s: State, env: Env, peer: NodeID, generation: U32, prefixes: seq<Prefix>, child: Prefix, id: ID)
    requires child in prefixes && |child| <= DEPTH && Under(id, child)
    requires EnqueueAll(s, env, peer, generation, prefixes).drops == s.drops
    ensures JobCovers(EnqueueAll(s, env, peer, generation, prefixes).jobs, peer, id)
  {
    hide EnqueueAll, Queued, JobCovers, Under;
    EnqueueAllQueues(s, env, peer, generation, prefixes, child);
    QueuedCovers(EnqueueAll(s, env, peer, generation, prefixes).jobs, peer, generation, child, id);
  }

  lemma UnderRoot(id: ID)
    ensures Under(id, [])
  {}

  /** The answer to a prefix covers what the prefix covered: a summary by its
      children, a leaf by the IDs themselves. */
  lemma SummaryCovers(c: Config, s: State, env: Env, p: Packet, remote: seq<ID>, id: ID)
    requires Answers(s, p) && |s.jobs.active.value.prefix| <= DEPTH
    requires s.jobs.active.value.generation == InventoryGeneration(c.sha, remote)
    requires EncodeSummary(SummaryOf(c.sha, remote, s.jobs.active.value.prefix)) == Some(p.body)
    requires NoCollision(c.sha, s.inventory, remote)
    requires AcceptSummary(c, s, env, p).drops == s.drops
    requires id in remote && Under(id, s.jobs.active.value.prefix)
    ensures id in s.inventory || JobCovers(AcceptSummary(c, s, env, p).jobs, p.source, id)
  {
    hide NoCollision, ChildrenOf, InventoryGeneration, DecodeSummary, EncodeSummary, Queued, DifferingChildren, Under, EnqueueAll, Asks;
    var job := s.jobs.active.value;
    var summary := SummaryOf(c.sha, remote, job.prefix);
    DecodesSummary(p.body, summary);
    var local := SummaryOf(c.sha, s.inventory, job.prefix);
    var next := EnqueueAll(s, env, job.peer, job.generation, DifferingChildren(local, summary));
    if id !in s.inventory {
      ChildNamed(c.sha, s.inventory, remote, job.prefix, id);
      var child := Path(id)[..|job.prefix| + 1];
      EnqueueAllQueues(s, env, job.peer, job.generation, DifferingChildren(local, summary), child);
      DeeperCovers(next.jobs, job.peer, job.generation, child, id);
    }
  }

  /** A queued job that is not the active one stays when that one is done. */
  lemma DeeperCovers(j: Jobs, peer: NodeID, generation: U32, prefix: Prefix, id: ID)
    requires Queued(j, peer, generation, prefix) && j.active.Some? && |prefix| > |j.active.value.prefix|
    requires |prefix| <= DEPTH && Under(id, prefix)
    ensures JobCovers(j.(active := None), peer, id)
  {
    QueuedCovers(j.(active := None), peer, generation, prefix, id);
  }

  lemma {:induction false} ConsiderAllKnows(c: Config, s: State, env: Env, ids: seq<ID>, source: NodeID, id: ID)
    requires id in ids && ConsiderAll(c, s, env, ids, source).drops == s.drops
    ensures MayAsk(ConsiderAll(c, s, env, ids, source).table, source, id) || LeafReason(c, s, id, source)
  {
    hide CompleteOn, HasKnown, HasPartial, Wanted, SourceInspected, Consider, MayAsk;
    var n := |ids| - 1;
    var front := ConsiderAll(c, s, env, ids[..n], source);
    ConsiderKnows(c, front, env, n, ids[n], source);
    if id in ids[..n] {
      ConsiderAllKnows(c, s, env, ids[..n], source, id);
      ConsiderSources(c, front, env, n, ids[n], source, id);
      if MayAsk(front.table, source, id) {
        StillAsks(front.table, Consider(c, front, env, n, ids[n], source).table, source, id);
      }
    } else {
      assert id == ids[n];
    }
  }

  /** An ID of a leaf is passed over exactly if there is a reason, and becomes otherwise a
      candidate that may ask the node which named it, or room ran out. A new candidate is
      due within half a second. */
  lemma ConsiderKnows(c: Config, s: State, env: Env, k: nat, id: ID, source: NodeID)
    ensures var t := Consider(c, s, env, k, id, source);
            && (MayAsk(t.table, source, id) || LeafReason(c, s, id, source) || t.drops > s.drops)
            && (id in t.table.entries && id !in s.table.entries ==>
                  var a := t.table.entries[id];
                  a.waiting.Idle? && (source != 0 ==> a.sources == [source]) && env.now <= a.nextAttempt <= env.now + 500 * MILLISECOND)
            && (if LeafReason(c, s, id, source)
                then t.table == s.table && id in t.settled && t.settled == s.settled[id := t.settled[id]]
                     && t.settled[id] == (if CompleteOn(c.sha, c.ed, s.disk, id) then AlreadyComplete else KnownDeferred)
                else t.settled == s.settled)
  {
    hide CompleteOn, HasKnown, SourceInspected, AddAt, MayAsk;
    AddAtAsks(s, id, source, env.now);
    AddAtAsks(s, id, source, env.now + Draw(env, k, 500 * MILLISECOND));
  }

  lemma LeafCovers(c: Config, s: State, env: Env, p: Packet, remote: seq<ID>, id: ID)
    requires Answers(s, p) && |s.jobs.active.value.prefix| <= DEPTH
    requires s.jobs.active.value.generation == InventoryGeneration(c.sha, remote)
    requires EncodeLeaf(LeafOf(c.sha, remote, s.jobs.active.value.prefix)) == Some(p.body)
    requires AcceptLeaf(c, s, env, p).drops == s.drops && p.kind == LEAF
    requires id in remote && Under(id, s.jobs.active.value.prefix)
    ensures Names(s, p, p.source, id)
    ensures Known(AcceptLeaf(c, s, env, p), p.source, id) || LeafReason(c, s, id, p.source)
  {
    hide InventoryGeneration, DecodeLeaf, EncodeLeaf, Under, ConsiderAll, Bucket, Sorted, Missing, CompleteOn, HasKnown;
    var prefix := s.jobs.active.value.prefix;
    var leaf := LeafOf(c.sha, remote, prefix);
    DecodesLeaf(p.body, leaf);
    MultisetSameElements(Bucket(remote, prefix), leaf.ids);
    if id !in s.inventory {
      ConsiderAllKnows(c, s.(jobs := s.jobs.(active := None)), env, Missing(s.inventory, leaf.ids), p.source, id);
    }
  }
}
