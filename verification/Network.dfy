/** Where honest answers come from: a peer answers requests that were really sent, and
    as long as no number is used twice an answer belongs to the request that is
    outstanding. */
module Network {
  import opened Bytes
  import opened Seqs
  import opened Radix
  import opened Manifests
  import opened Assemblies
  import opened Stores
  import opened NodeProtocol
  import opened Scheduler
  import opened NodeState
  import opened NodeSteps
  import opened NodeInvariants
  import opened NodeSafety
  import opened NodeOutcomes
  import opened NodeSources
  import opened Numbering
  import opened Coverage
  import opened CoverageRuns

  // ---- the outstanding request was sent -----------------------------------------------

  function RequestOf(c: Config, job: Job): Option<Packet> {
    Outgoing(c, SUMMARY_REQUEST, job.peer, job.transaction, EncodePrefix(job.generation, job.prefix))
  }

  ghost predicate ActiveSent(c: Config, s: State) {
    s.jobs.active.Some? ==> RequestOf(c, s.jobs.active.value) in s.sent
  }

  /** A request says which prefix of which generation it asks for. */
  lemma RequestReads(c: Config, job: Job)
    requires |job.prefix| <= DEPTH
    ensures var q := RequestOf(c, job);
            && q.Some? && q.value.kind == SUMMARY_REQUEST && q.value.source == c.id
            && q.value.destination == job.peer && q.value.transaction == job.transaction
            && DecodePrefix(q.value.body) == Some(Prefixed(job.generation, job.prefix))
  {
    hide DecodePrefix, ToLE, Pack, PacketHeader;
    SummaryRequestExact(EncodePrefix(job.generation, job.prefix).value, Prefixed(job.generation, job.prefix));
  }

  /** The active job is as it was, or gone. */
  ghost predicate SameOrNone(s: State, t: State) {
    s.sent <= t.sent && (t.jobs.active.Some? ==> t.jobs.active == s.jobs.active)
  }

  lemma StillSent(c: Config, s: State, t: State)
    requires ActiveSent(c, s) && SameOrNone(s, t)
    ensures ActiveSent(c, t)
  {
    hide RequestOf;
  }

  lemma TrackKeepsActive(p: Peers, j: Jobs, source: NodeID, generation: U32)
    ensures var k := Track(p, j, source, generation).1; k.active.Some? ==> k.active == j.active
  {
    hide DropJobs, RemoveFirst;
    if |p.order| > 0 {
      DropsActive(j, p.order[0]);
      DropsActive(DropJobs(j, p.order[0]), source);
    }
    DropsActive(j, source);
  }

  lemma HearSame(c: Config, s: State, env: Env, p: Packet, pick: Option<ID>)
    ensures SameOrNone(s, Receive(c, s, env, p, pick))
  {
    RootActive(c, s, env, p);
    LeafActive(c, s, env, p);
    hide RootSummary, ServeManifest, ServeChunks, AcceptManifest, AcceptChunk, ServeSignature, AcceptSignature,
         ServeSummary, AcceptSummary, AcceptLeaf, RemoveEntry, Listing;
  }

  lemma RootActive(c: Config, s: State, env: Env, p: Packet)
    ensures SameOrNone(s, RootSummary(c, s, env, p)) && SameOrNone(s, AcceptSummary(c, s, env, p))
  {
    hide DecodeSummary, SummaryOf, DifferingChildren, EnqueueAll, Track;
    if DecodeSummary(p.body).Some? {
      TrackKeepsActive(s.peers, s.jobs, p.source, DecodeSummary(p.body).value.generation);
    }
  }

  lemma LeafActive(c: Config, s: State, env: Env, p: Packet)
    ensures SameOrNone(s, AcceptLeaf(c, s, env, p))
  {
    hide DecodeLeaf, Missing, ConsiderAll;
  }

  lemma ReconcileSent(c: Config, s: State, env: Env)
    requires ActiveSent(c, s)
    ensures ActiveSent(c, InitiateReconcile(c, s, env).0)
  {
    hide FirstDue, HasOutstanding, EncodePrefix, Outgoing, Retried;
  }

  lemma WorkSent(c: Config, s: State, env: Env)
    requires ActiveSent(c, s)
    ensures ActiveSent(c, WorkOrReconcile(c, s, env))
  {
    ReconcileSent(c, s, env);
    hide InitiateReconcile, Initiate, NextWork, RequestOf;
  }

  lemma TickSent(c: Config, s: State, env: Env)
    requires ActiveSent(c, s)
    ensures ActiveSent(c, Tick(c, s, env))
  {
    hide InitiateReconcile, WorkOrReconcile, ExpireAcquisitions, HasOutstanding, SummaryOf, EncodeSummary, Jitter, Inventory, RequestOf, Retried,
         Outgoing;
    var t := ExpireJob(ExpireAcquisitions(s, env), env);
    assert ActiveSent(c, t);
    ReconcileSent(c, t, env);
    WorkSent(c, t, env);
    WorkSent(c, InitiateReconcile(c, t, env).0, env);
  }

  lemma StepSent(c: Config, s: State, e: Event)
    requires ActiveSent(c, s)
    ensures ActiveSent(c, Step(c, s, e))
  {
    hide Receive, Tick, Decode, RequestOf;
    match e
    case Hear(env, data, pick) =>
      if Decode(data).Some? {
        HearSame(c, s, env, Decode(data).value, pick);
        StillSent(c, s, Step(c, s, e));
      }
    case Clock(env) => TickSent(c, s, env);
    case Outside(_) =>
  }

  // ---- numbers ------------------------------------------------------------------------

  predicate IsRequest(q: Option<Packet>) {
    q.Some? && q.value.kind == SUMMARY_REQUEST
  }

  /** A step sends no request, or the counter moves on by one and the one packet that is
      sent has its number. */
  ghost predicate Counts(s: State, t: State) {
    || (t.tx == s.tx && s.sent <= t.sent && forall i :: |s.sent| <= i < |t.sent| ==> !IsRequest(t.sent[i]))
    || (t.tx == NextTransaction(s.tx)
        && (t.sent == s.sent
            || (|t.sent| == |s.sent| + 1 && s.sent <= t.sent
                && (IsRequest(t.sent[|s.sent|]) ==> t.sent[|s.sent|].value.transaction == t.tx))))
  }

  lemma HearCounts(c: Config, s: State, env: Env, p: Packet, pick: Option<ID>)
    ensures Counts(s, Receive(c, s, env, p, pick))
  {
    ServeCounts(c, s, env, p);
    hide RootSummary, ServeManifest, ServeChunks, AcceptManifest, AcceptChunk, ServeSignature, AcceptSignature,
         ServeSummary, AcceptSummary, AcceptLeaf, RemoveEntry, Listing;
  }

  lemma ServeCounts(c: Config, s: State, env: Env, p: Packet)
    ensures Counts(s, ServeManifest(c, s, p)) && Counts(s, ServeSignature(c, s, p))
    ensures Counts(s, ServeChunks(c, s, env, p)) && Counts(s, ServeSummary(c, s, p))
  {
    hide DecodePrefix, InventoryGeneration, EncodeLeaf, EncodeSummary, LeafOf, SummaryOf, Bucket, NodeSteps.Asked, Manifests.EncodeManifest,
         EncodeSignature, DecodeChunkRequest, CompleteOn, ServeBits;
    if DecodeChunkRequest(p.body).Some? {
      ChunksOnly(c, s.disk, env, DecodeChunkRequest(p.body).value, p, WINDOW);
    }
  }

  lemma {:induction false} ChunksOnly(c: Config, disk: Disk, env: Env, asked: ChunkRequest, p: Packet, n: nat)
    requires n <= WINDOW
    ensures forall q :: q in ServeBits(c, disk, env, asked, p, n).sent ==> q.kind == CHUNK
  {
    hide EncodeChunk, ToBits;
    if n > 0 {
      ChunksOnly(c, disk, env, asked, p, n - 1);
    }
  }

  predicate Shallow(j: Jobs) {
    forall k :: 0 <= k < |j.queue| ==> |j.queue[k].prefix| <= DEPTH
  }

  lemma ReconcileCounts(c: Config, s: State, env: Env)
    requires Shallow(s.jobs)
    ensures var (t, done) := InitiateReconcile(c, s, env); Counts(s, t) && (!done ==> t == s)
  {
    hide EncodePrefix, Outgoing, Retried, HasOutstanding;
    var i := FirstDue(s.jobs.queue, env.now);
    if i < |s.jobs.queue| {
      RequestReads(c, s.jobs.queue[i].(transaction := NextTransaction(s.tx)));
    }
  }

  lemma InitiateCounts(c: Config, s: State, env: Env, id: ID)
    requires id in s.table.entries && |s.table.entries[id].sources| > 0
    ensures Counts(s, Initiate(c, s, env, id))
  {
    hide Addressed, BatchFrom, Fail, Bitmap, EncodeChunkRequest;
  }

  lemma CountsLike(s: State, t: State, u: State, v: State)
    requires Counts(s, t) && u.tx == s.tx && u.sent == s.sent && v.tx == t.tx && v.sent == t.sent
    ensures Counts(u, v)
  {
    hide IsRequest;
  }

  lemma WorkCounts(c: Config, s: State, env: Env)
    requires Shallow(s.jobs)
    ensures Counts(s, WorkOrReconcile(c, s, env))
  {
    hide InitiateReconcile, Initiate, Shallow, Counts;
    match NextWork(s.table, env.now, 0)
    case Some(i) =>
      var turned := s.(table := s.table.(cursor := (i + 1) % |s.table.order|));
      InitiateCounts(c, turned, env, s.table.order[i]);
      CountsLike(turned, Initiate(c, turned, env, s.table.order[i]), s, WorkOrReconcile(c, s, env));
    case None =>
      ReconcileCounts(c, s, env);
      CountsLike(s, InitiateReconcile(c, s, env).0, s, WorkOrReconcile(c, s, env));
  }

  lemma ExpiredShallow(c: Config, s: State, env: Env)
    requires Inv(c, s)
    ensures Shallow(ExpireJob(ExpireAcquisitions(s, env), env).jobs)
  {
    hide TableValid, OneExchange, PeersValid, InspectedValid, Gated, AllSentValid, NoRepeats, ExpireAcquisitions;
  }

  lemma AdvertiseCounts(c: Config, s: State, env: Env)
    ensures Counts(s, Advertise(c, s, env))
  {
    hide SummaryOf, EncodeSummary, Jitter, Inventory;
  }

  lemma ProceedCounts(c: Config, s: State, env: Env)
    requires Shallow(s.jobs)
    ensures Counts(s, Proceed(c, s, env))
  {
    hide InitiateReconcile, WorkOrReconcile, Advertise, HasOutstanding, Shallow, Counts;
    CountsSelf(s);
    AdvertiseCounts(c, s, env);
    ReconcileCounts(c, s, env);
    WorkCounts(c, s, env);
    CountsLike(s, InitiateReconcile(c, s, env).0, s, InitiateReconcile(c, s, env).0.(preferReconcile := false));
  }

  lemma CountsSelf(s: State)
    ensures Counts(s, s)
  {}

  lemma TickCounts(c: Config, s: State, env: Env)
    requires Inv(c, s)
    ensures Counts(s, Tick(c, s, env))
  {
    hide Inv, Proceed, ExpireAcquisitions, ExpireJob, Shallow, Counts;
    var t := ExpireJob(ExpireAcquisitions(s, env), env);
    ExpiredShallow(c, s, env);
    ProceedCounts(c, t, env);
    CountsLike(t, Proceed(c, t, env), s, Tick(c, s, env));
  }

  lemma StepCounts(c: Config, s: State, e: Event)
    requires Inv(c, s)
    ensures Counts(s, Step(c, s, e))
  {
    hide Inv, Receive, Tick, Decode;
    match e
    case Hear(env, data, pick) =>
      if Decode(data).Some? {
        HearCounts(c, s, env, Decode(data).value, pick);
      }
    case Clock(env) => TickCounts(c, s, env);
    case Outside(_) =>
  }

  /** Every request has the number of one of the first n turns. */
  ghost predicate Numbered(sent: seq<Option<Packet>>, first: U16, n: nat) {
    forall i :: 0 <= i < |sent| && IsRequest(sent[i]) ==> OfTurn(sent[i].value.transaction, first, n)
  }

  ghost predicate NumberedOnce(sent: seq<Option<Packet>>) {
    forall i, j :: 0 <= i < j < |sent| && IsRequest(sent[i]) && IsRequest(sent[j]) ==>
      sent[i].value.transaction != sent[j].value.transaction
  }

  lemma TurnNumbered(s: State, t: State, first: U16, n: nat)
    requires Counts(s, t) && s.tx == Number(first, n) && Numbered(s.sent, first, n) && NumberedOnce(s.sent)
    requires t.tx != s.tx ==> n + 1 <= 0x1_0000
    ensures var m := if t.tx == s.tx then n else n + 1;
            t.tx == Number(first, m) && Numbered(t.sent, first, m) && NumberedOnce(t.sent)
  {
    if t.tx != s.tx {
      assert t.tx == Number(first, n + 1);
      forall i | 0 <= i < |s.sent| && IsRequest(s.sent[i]) ensures s.sent[i].value.transaction != t.tx && OfTurn(s.sent[i].value.transaction, first, n + 1) {
        var m: nat :| 1 <= m <= n && s.sent[i].value.transaction == Number(first, m);
        NumbersDiffer(first, m, n + 1);
      }
      assert OfTurn(t.tx, first, n + 1);
      assert forall i :: 0 <= i < |s.sent| ==> t.sent[i] == s.sent[i];
    } else {
      assert forall i :: 0 <= i < |s.sent| ==> t.sent[i] == s.sent[i];
    }
  }

  /** Until the counter has been round once, every request has a number of its own. */
  lemma {:induction false} EarlyNumbers(c: Config, states: seq<State>, events: seq<Event>, k: nat)
    requires Run(c, states, events) && Inv(c, states[0]) && k < |states|
    requires (forall q :: q in states[0].sent ==> !IsRequest(q)) && Turns(states, k) <= 0x1_0000
    ensures states[k].tx == Number(states[0].tx, Turns(states, k))
    ensures Numbered(states[k].sent, states[0].tx, Turns(states, k)) && NumberedOnce(states[k].sent)
  {
    hide Inv, Step, Possible, OfTurn;
    if k > 0 {
      hide IsRequest, Number, Numbered, NumberedOnce, Counts;
      EarlyNumbers(c, states, events, k - 1);
      RunKeeps(c, states, events, k - 1);
      StepCounts(c, states[k - 1], events[k - 1]);
      TurnNumbered(states[k - 1], states[k], states[0].tx, Turns(states, k - 1));
    }
  }

  // ---- a network that makes nothing up ------------------------------------------------

  /** The k-th packet sent asks this peer for a prefix, under this number. */
  ghost predicate Asked(sent: seq<Option<Packet>>, k: nat, peer: NodeID, transaction: U16) {
    && k < |sent| && sent[k].Some? && sent[k].value.kind == SUMMARY_REQUEST
    && sent[k].value.destination == peer && sent[k].value.transaction == transaction
  }

  /** No number is used for two different requests to the peer. */
  ghost predicate NumbersOnce(sent: seq<Option<Packet>>, peer: NodeID) {
    forall k: nat, l: nat, transaction :: Asked(sent, k, peer, transaction) && Asked(sent, l, peer, transaction) ==> sent[k] == sent[l]
  }

  /** The packet answers a request that was sent, out of this inventory. */
  ghost predicate AnswersSent(c: Config, sent: seq<Option<Packet>>, p: Packet, peer: NodeID, remote: seq<ID>) {
    exists k: nat :: Asked(sent, k, peer, p.transaction) && Answered(c, sent[k].value, p, remote)
  }

  ghost predicate Answered(c: Config, q: Packet, p: Packet, remote: seq<ID>) {
    && DecodePrefix(q.body).Some? && |DecodePrefix(q.body).value.prefix| <= DEPTH
    && AnswerFor(c.sha, remote, DecodePrefix(q.body).value.prefix) == (p.kind, Some(p.body))
  }

  /** Roots are the peer's root; whatever else it says answers a request that was sent. */
  ghost predicate NetworkPacket(c: Config, s: State, p: Packet, peer: NodeID, remote: seq<ID>) {
    p.source == peer ==>
      && (p.destination == BROADCAST && p.kind == SUMMARY ==> EncodeSummary(SummaryOf(c.sha, remote, [])) == Some(p.body))
      && (p.destination == c.id != BROADCAST && (p.kind == SUMMARY || p.kind == LEAF) ==> AnswersSent(c, s.sent, p, peer, remote))
  }

  /** A node that hears a request of ours answers it in this sense, for its own inventory. */
  lemma NodesAnswerRequests(c: Config, sent: seq<Option<Packet>>, k: nat, cp: Config, v: State)
    requires cp.sha == c.sha && Distinct(v.inventory)
    requires k < |sent| && sent[k].Some? && sent[k].value.kind == SUMMARY_REQUEST
    requires sent[k].value.source == c.id && sent[k].value.destination == cp.id
    requires DecodePrefix(sent[k].value.body).Some? && |DecodePrefix(sent[k].value.body).value.prefix| <= DEPTH
    requires DecodePrefix(sent[k].value.body).value.generation == InventoryGeneration(cp.sha, v.inventory)
    ensures var t := ServeSummary(cp, v, sent[k].value);
            && |t.sent| == |v.sent| + 1 && t.sent[|v.sent|].Some?
            && var p := t.sent[|v.sent|].value;
               && p.source == cp.id && p.destination == c.id && p.transaction == sent[k].value.transaction
               && AnswersSent(c, sent, p, cp.id, v.inventory)
  {
    hide DecodePrefix, InventoryGeneration, AnswerFor, ServeSummary;
    var q := sent[k].value;
    NodesAreHonest(cp, v, q, DecodePrefix(q.body).value);
    var p := ServeSummary(cp, v, q).sent[|v.sent|].value;
    assert Asked(sent, k, cp.id, p.transaction) && Answered(c, q, p, v.inventory);
  }

  /** An answer that matches the outstanding request answers that request. */
  lemma NetworkIsHonest(c: Config, s: State, p: Packet, peer: NodeID, remote: seq<ID>)
    requires Inv(c, s) && ActiveSent(c, s) && NumbersOnce(s.sent, peer) && NetworkPacket(c, s, p, peer, remote)
    ensures HonestPacket(c, s, p, peer, remote)
  {
    hide AnswerFor, EncodeSummary, SummaryOf, DecodePrefix, RequestOf;
    if p.source == peer && p.destination == c.id != BROADCAST && (p.kind == SUMMARY || p.kind == LEAF) && Answers(s, p) {
      var job := s.jobs.active.value;
      ActiveValid(c, s);
      hide Inv;
      RequestReads(c, job);
      var l: nat :| l < |s.sent| && s.sent[l] == RequestOf(c, job);
      var k: nat :| Asked(s.sent, k, peer, p.transaction) && Answered(c, s.sent[k].value, p, remote);
      assert Asked(s.sent, l, peer, p.transaction);
    }
  }

  ghost predicate NetworkEvent(c: Config, s: State, e: Event, peer: NodeID, remote: seq<ID>) {
    && (e.Hear? && Decode(e.data).Some? ==> NetworkPacket(c, s, Decode(e.data).value, peer, remote))
    && NoCollision(c.sha, s.inventory, remote)
    && Grows(s, Step(c, s, e)) && (Roomy(s) || Step(c, s, e).drops == s.drops)
  }

  lemma NetworkStep(c: Config, s: State, e: Event, peer: NodeID, remote: seq<ID>)
    requires Inv(c, s) && ActiveSent(c, s) && NumbersOnce(s.sent, peer) && NetworkEvent(c, s, e, peer, remote)
    ensures GoodStep(c, s, e, peer, remote)
  {
    hide Inv, Step, Decode, NoCollision, HonestPacket, NetworkPacket, NumbersOnce, ActiveSent, Roomy;
    if e.Hear? && Decode(e.data).Some? {
      NetworkIsHonest(c, s, Decode(e.data).value, peer, remote);
    }
  }

  lemma {:induction false} NetworkRun(c: Config, states: seq<State>, events: seq<Event>, k: nat, peer: NodeID, remote: seq<ID>)
    requires Run(c, states, events) && Inv(c, states[0]) && ActiveSent(c, states[0]) && k < |states|
    requires forall i :: 0 <= i < |events| ==> NumbersOnce(states[i].sent, peer) && NetworkEvent(c, states[i], events[i], peer, remote)
    ensures ActiveSent(c, states[k]) && (k < |events| ==> GoodStep(c, states[k], events[k], peer, remote))
  {
    hide Inv, Step, Possible, NetworkEvent, NumbersOnce, ActiveSent, GoodStep;
    if k > 0 {
      NetworkRun(c, states, events, k - 1, peer, remote);
      StepSent(c, states[k - 1], events[k - 1]);
    }
    RunKeeps(c, states, events, k);
    if k < |events| {
      NetworkStep(c, states[k], events[k], peer, remote);
    }
  }

  /** No discovery is lost among nodes: with a peer that answers what it was asked, from
      an inventory that stays, over any run in which everything may be delayed, lost,
      repeated or reordered, as long as no number is used for two requests to it. */
  lemma NothingLostWithNumbers(c: Config, states: seq<State>, events: seq<Event>, k: nat, peer: NodeID, remote: seq<ID>)
    requires Run(c, states, events) && Inv(c, states[0]) && Named(states[0]) && ActiveSent(c, states[0]) && k < |states|
    requires forall i :: 0 <= i < |events| ==> NumbersOnce(states[i].sent, peer) && NetworkEvent(c, states[i], events[i], peer, remote)
    requires Covers(c, states[0], peer, remote)
    ensures Tracks(states[k], peer, InventoryGeneration(c.sha, remote)) ==>
              forall id :: id in remote ==> Accounted(c, states, events, k, peer, id)
  {
    hide Inv, Named, Step, Possible, NetworkEvent, NumbersOnce, Covers, ActiveSent, GoodStep, Tracks, Accounted, InventoryGeneration;
    forall i | 0 <= i < |events| ensures GoodStep(c, states[i], events[i], peer, remote) {
      NetworkRun(c, states, events, i, peer, remote);
    }
    NothingLost(c, states, events, k, peer, remote);
  }

  lemma OnceForPeer(sent: seq<Option<Packet>>, peer: NodeID)
    requires NumberedOnce(sent)
    ensures NumbersOnce(sent, peer)
  {
    forall k: nat, l: nat, transaction | Asked(sent, k, peer, transaction) && Asked(sent, l, peer, transaction) ensures sent[k] == sent[l] {
      assert IsRequest(sent[k]) && IsRequest(sent[l]);
    }
  }

  /** And that is so, from a state that has asked nobody yet, until the counter has been
      round once. */
  lemma NothingLostAmongNodes(c: Config, states: seq<State>, events: seq<Event>, k: nat, peer: NodeID, remote: seq<ID>)
    requires Run(c, states, events) && Inv(c, states[0]) && Named(states[0]) && k < |states|
    requires states[0].jobs.active.None? && (forall q :: q in states[0].sent ==> !IsRequest(q)) && Turns(states, |events|) <= 0x1_0000
    requires forall i :: 0 <= i < |events| ==> NetworkEvent(c, states[i], events[i], peer, remote)
    requires Covers(c, states[0], peer, remote)
    ensures Tracks(states[k], peer, InventoryGeneration(c.sha, remote)) ==>
              forall id :: id in remote ==> Accounted(c, states, events, k, peer, id)
  {
    hide Inv, Named, Run, NetworkEvent, NumbersOnce, NumberedOnce, Numbered, Number, Covers, Tracks, Accounted, InventoryGeneration, Turns, IsRequest;
    assert |states| == |events| + 1 by { RunLength(c, states, events); }
    forall i | 0 <= i < |events| ensures NumbersOnce(states[i].sent, peer) {
      TurnsGrow(states, i, |events|);
      EarlyNumbers(c, states, events, i);
      OnceForPeer(states[i].sent, peer);
    }
    NothingLostWithNumbers(c, states, events, k, peer, remote);
  }

  lemma RunLength(c: Config, states: seq<State>, events: seq<Event>)
    requires Run(c, states, events)
    ensures |states| == |events| + 1
  {}

  // ---- a number used again ------------------------------------------------------------

  /** Every request to the peer under the number of the outstanding one has its answer. */
  ghost predicate SameAnswers(c: Config, s: State, peer: NodeID, remote: seq<ID>)
    requires s.jobs.active.Some? && |s.jobs.active.value.prefix| <= DEPTH
  {
    var job := s.jobs.active.value;
    forall k: nat :: Asked(s.sent, k, peer, job.transaction) ==> AnswersLike(c, s.sent[k].value, job.prefix, remote)
  }

  ghost predicate AnswersLike(c: Config, q: Packet, prefix: Prefix, remote: seq<ID>)
    requires |prefix| <= DEPTH
  {
    DecodePrefix(q.body).Some? && |DecodePrefix(q.body).value.prefix| <= DEPTH ==>
      AnswerFor(c.sha, remote, DecodePrefix(q.body).value.prefix) == AnswerFor(c.sha, remote, prefix)
  }

  /** The exact condition. Whatever the network delivers, what the node takes for the answer
      to its request is that answer, if and only if every request that it sent to the peer
      under the same number has the same one. */
  lemma NumbersExact(c: Config, s: State, peer: NodeID, remote: seq<ID>)
    requires c.id != BROADCAST && Distinct(remote)
    requires s.jobs.active.Some? && s.jobs.active.value.peer == peer && |s.jobs.active.value.prefix| <= DEPTH
    ensures SameAnswers(c, s, peer, remote) <==> forall p :: NetworkPacket(c, s, p, peer, remote) ==> HonestPacket(c, s, p, peer, remote)
  {
    hide AnswerFor, EncodeSummary, SummaryOf, DecodePrefix;
    var job := s.jobs.active.value;
    if SameAnswers(c, s, peer, remote) {
      forall p | NetworkPacket(c, s, p, peer, remote) ensures HonestPacket(c, s, p, peer, remote) {}
    } else {
      var k: nat :| Asked(s.sent, k, peer, job.transaction) && !AnswersLike(c, s.sent[k].value, job.prefix, remote);
      var asked := DecodePrefix(s.sent[k].value.body).value.prefix;
      AnswerFits(c.sha, remote, asked);
      var (kind, body) := AnswerFor(c.sha, remote, asked);
      var p := Packet(kind, peer, c.id, job.transaction, body.value);
      assert Answered(c, s.sent[k].value, p, remote);
      assert NetworkPacket(c, s, p, peer, remote) && !HonestPacket(c, s, p, peer, remote);
    }
  }

  /** A peer with one ID, and a node that asked it for the children 3 and 2 under one
      number, a round of the counter apart. */
  function Reusing(c: Config, generation: U32): State {
    var job := Job(1, generation, [2], 0, 0, 5, 0);
    State(Table(map[], [], 0), Jobs([], Some(job)), Peers(map[1 := generation], [1]), Inspected(map[], []), 5, false, 0, [],
          map[], [RequestOf(c, job.(prefix := [3])), RequestOf(c, job)], map[], 0)
  }

  const SOLE_ID: ID := [32] + seq(15, _ => 0)

  lemma ReusingValid(c: Config, generation: U32)
    ensures var s := Reusing(c, generation); Inv(c, s) && ActiveSent(c, s) && JobCovers(s.jobs, 1, SOLE_ID)
  {
    hide EncodePrefix, DecodePrefix, Encode;
    var s := Reusing(c, generation);
    RequestReads(c, s.jobs.active.value);
    RequestReads(c, s.jobs.active.value.(prefix := [3]));
    assert Under(SOLE_ID, [2]);
    hide Under;
    assert RequestOf(c, s.jobs.active.value) == s.sent[1];
  }

  lemma SmallLeaf(c: Config, prefix: Prefix) returns (body: seq<byte>)
    requires |prefix| <= DEPTH
    ensures AnswerFor(c.sha, [SOLE_ID], prefix) == (LEAF, Some(body)) && |body| <= MAX_BODY
    ensures DecodeLeaf(body).Some? && DecodeLeaf(body).value.prefix == prefix
  {
    hide InventoryGeneration, EncodeLeaf, DecodeLeaf, Sorted, Under;
    assert Distinct([SOLE_ID]);
    AnswerFits(c.sha, [SOLE_ID], prefix);
    assert |Bucket([SOLE_ID], prefix)| <= 1;
    body := AnswerFor(c.sha, [SOLE_ID], prefix).1.value;
    DecodesLeaf(body, LeafOf(c.sha, [SOLE_ID], prefix));
  }

  /** What a number used twice costs: the answer to the old request ends the new one, and
      the ID that this one covered is lost. */
  lemma ReusedNumber(c: Config, env: Env) returns (s: State, e: Event)
    requires c.id != BROADCAST && c.id != 1
    ensures Inv(c, s) && ActiveSent(c, s) && Tracks(s, 1, InventoryGeneration(c.sha, [SOLE_ID])) && JobCovers(s.jobs, 1, SOLE_ID)
    ensures e.Hear? && Decode(e.data).Some? && NetworkPacket(c, s, Decode(e.data).value, 1, [SOLE_ID]) && Possible(c, s, e)
    ensures var t := Step(c, s, e); !Known(t, 1, SOLE_ID) && !JobCovers(t.jobs, 1, SOLE_ID) && !Dealt(c, s, e, 1, SOLE_ID)
  {
    hide InventoryGeneration, Inv, Decode, DecodeLeaf, DecodePrefix, AnswerFor, EncodePrefix, Under, ConsiderAll, LeafReason;
    s := Reusing(c, InventoryGeneration(c.sha, [SOLE_ID]));
    ReusingValid(c, InventoryGeneration(c.sha, [SOLE_ID]));
    var job := s.jobs.active.value;
    var body := SmallLeaf(c, [3]);
    var p := Packet(LEAF, 1, c.id, 5, body);
    DecodeEncode(p);
    e := Hear(env, Encode(p).value, None);
    RequestReads(c, job.(prefix := [3]));
    hide RequestOf, Encode;
    assert Asked(s.sent, 0, 1, 5) && Answered(c, s.sent[0].value, p, [SOLE_ID]);
  }
}
