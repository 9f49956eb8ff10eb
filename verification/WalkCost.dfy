/** What a reconciliation of two inventories that stay costs the node: at most 32
    answered requests for each ID that exactly one side holds. */
module WalkCost {
  import opened Bytes
  import opened Seqs
  import opened Radix
  import opened RadixWalk
  import opened Manifests
  import opened Assemblies
  import opened Stores
  import opened NodeProtocol
  import opened Scheduler
  import opened NodeState
  import opened NodeSteps
  import opened NodeInvariants
  import opened NodeSafety
  import opened Coverage
  import opened CoverageRuns
  import opened WalkProgress

  // ---- the price of a prefix ----------------------------------------------------------

  /** One request for each level from the prefix down, for each ID below it that exactly
      one side holds. */
  ghost function Cost(local: seq<ID>, remote: seq<ID>, prefix: Prefix): nat {
    if |prefix| <= DEPTH then (DEPTH + 1 - |prefix|) * |DifferenceUnder(local, remote, prefix)| else 0
  }

  ghost function Costs(local: seq<ID>, remote: seq<ID>): Price {
    (prefix: Prefix) => Cost(local, remote, prefix)
  }

  /** The part of the difference below the first children. */
  ghost function DifferenceBelow(local: seq<ID>, remote: seq<ID>, prefix: Prefix, to: nat): set<ID>
    requires |prefix| < DEPTH
  {
    set id | id in Difference(local, remote) && Under(id, prefix) && NibbleAt(id, |prefix|) < to
  }

  lemma OneChildMore(local: seq<ID>, remote: seq<ID>, prefix: Prefix, to: nat)
    requires |prefix| < DEPTH && to < RADIX_CHILDREN
    ensures |DifferenceBelow(local, remote, prefix, to + 1)|
            == |DifferenceBelow(local, remote, prefix, to)| + |DifferenceUnder(local, remote, prefix + [to])|
  {
    var p := prefix + [to];
    var here, earlier := DifferenceUnder(local, remote, p), DifferenceBelow(local, remote, prefix, to);
    forall id: ID ensures Under(id, p) <==> Under(id, prefix) && NibbleAt(id, |prefix|) == to {
      if Under(id, p) {
        forall d | 0 <= d < |prefix| ensures NibbleAt(id, d) == prefix[d] { assert p[d] == prefix[d]; }
        assert NibbleAt(id, |prefix|) == p[|prefix|];
      }
    }
    assert DifferenceBelow(local, remote, prefix, to + 1) == earlier + here;
    assert earlier * here == {};
  }

  lemma TotalSnoc(w: Price, prefixes: seq<Prefix>, q: Prefix)
    ensures Total(w, prefixes + [q]) == Total(w, prefixes) + w(q)
  {
    assert (prefixes + [q])[..|prefixes|] == prefixes;
  }

  lemma ChildCost(local: seq<ID>, remote: seq<ID>, q: Prefix)
    requires 1 <= |q| <= DEPTH
    ensures Cost(local, remote, q) == (DEPTH + 1 - |q|) * |DifferenceUnder(local, remote, q)|
  {}

  /** The children that two summaries name cost no more than their levels for the
      difference below them. */
  lemma {:induction false} ChildrenCost(l: RadixSummary, r: RadixSummary, local: seq<ID>, remote: seq<ID>, prefix: Prefix, to: nat)
    requires |prefix| < DEPTH && to <= RADIX_CHILDREN && r.prefix == prefix
    ensures Total(Costs(local, remote), DifferingUpTo(l, r, to)) <= (DEPTH - |prefix|) * |DifferenceBelow(local, remote, prefix, to)|
  {
    hide DifferenceUnder, DifferenceBelow, Total, Cost;
    if to == 0 {
      assert Total(Costs(local, remote), []) == 0 by { NoTotal(Costs(local, remote)); }
    } else {
      var n := to - 1;
      ChildrenCost(l, r, local, remote, prefix, n);
      OneChildMore(local, remote, prefix, n);
      var q := prefix + [n];
      ChildCost(local, remote, q);
      TotalSnoc(Costs(local, remote), DifferingUpTo(l, r, n), q);
      assert DifferingUpTo(l, r, n) + [] == DifferingUpTo(l, r, n);
      Distribute(DEPTH - |prefix|, |DifferenceBelow(local, remote, prefix, n)|, |DifferenceUnder(local, remote, q)|);
    }
  }

  lemma NoTotal(w: Price)
    ensures Total(w, []) == 0
  {}

  lemma BelowAll(local: seq<ID>, remote: seq<ID>, prefix: Prefix)
    requires |prefix| < DEPTH
    ensures DifferenceBelow(local, remote, prefix, RADIX_CHILDREN) == DifferenceUnder(local, remote, prefix)
  {}

  lemma DescentCost(l: RadixSummary, r: RadixSummary, local: seq<ID>, remote: seq<ID>, prefix: Prefix)
    requires |prefix| < DEPTH && r.prefix == prefix
    ensures Total(Costs(local, remote), DifferingChildren(l, r)) <= (DEPTH - |prefix|) * |DifferenceUnder(local, remote, prefix)|
  {
    hide DifferenceUnder, DifferenceBelow, Total, DifferingUpTo, Costs;
    ChildrenCost(l, r, local, remote, prefix, RADIX_CHILDREN);
    BelowAll(local, remote, prefix);
    NoTotal(Costs(local, remote));
  }

  // ---- every request covers a difference ----------------------------------------------

  ghost predicate Differs(local: seq<ID>, remote: seq<ID>, prefix: Prefix) {
    |prefix| <= DEPTH && DifferenceUnder(local, remote, prefix) != {}
  }

  /** A job of the peer asks for this prefix. */
  ghost predicate HasJob(j: Jobs, peer: NodeID, prefix: Prefix) {
    || (j.active.Some? && j.active.value.peer == peer && j.active.value.prefix == prefix)
    || exists k :: 0 <= k < |j.queue| && j.queue[k].peer == peer && j.queue[k].prefix == prefix
  }

  /** No job of the peer is idle: each covers an ID that exactly one side holds. */
  ghost predicate JobsDiffer(j: Jobs, peer: NodeID, local: seq<ID>, remote: seq<ID>) {
    forall prefix :: HasJob(j, peer, prefix) ==> Differs(local, remote, prefix)
  }

  /** No job of the peer is new. */
  ghost predicate NoNewJob(j: Jobs, k: Jobs, peer: NodeID) {
    forall prefix :: HasJob(k, peer, prefix) ==> HasJob(j, peer, prefix)
  }

  lemma DropNoNew(j: Jobs, other: NodeID, peer: NodeID)
    ensures NoNewJob(j, DropJobs(j, other), peer)
  {
    var r := DropJobs(j, other);
    forall prefix | HasJob(r, peer, prefix) ensures HasJob(j, peer, prefix) {
      if k :| 0 <= k < |r.queue| && r.queue[k].peer == peer && r.queue[k].prefix == prefix {
        assert r.queue[k] in r.queue;
        var i :| 0 <= i < |j.queue| && j.queue[i] == r.queue[k];
      }
    }
  }

  lemma TrackNoNew(p: Peers, j: Jobs, source: NodeID, generation: U32, peer: NodeID)
    ensures NoNewJob(j, Track(p, j, source, generation).1, peer)
  {
    hide DropJobs, RemoveFirst, HasJob;
    if |p.order| > 0 {
      DropNoNew(j, p.order[0], peer);
      DropNoNew(DropJobs(j, p.order[0]), source, peer);
    }
    DropNoNew(j, source, peer);
  }

  lemma {:induction false} EnqueuedAre(s: State, env: Env, source: NodeID, generation: U32, prefixes: seq<Prefix>, peer: NodeID, prefix: Prefix)
    requires HasJob(EnqueueAll(s, env, source, generation, prefixes).jobs, peer, prefix)
    ensures HasJob(s.jobs, peer, prefix) || (peer == source && prefix in prefixes)
  {
    hide Queued;
    if prefixes != [] {
      var n := |prefixes| - 1;
      var front := EnqueueAll(s, env, source, generation, prefixes[..n]);
      var all := EnqueueAll(s, env, source, generation, prefixes);
      if HasJob(front.jobs, peer, prefix) {
        EnqueuedAre(s, env, source, generation, prefixes[..n], peer, prefix);
      } else {
        EnqueuedOne(front, source, generation, prefixes[n], env.now + Draw(env, n, 750 * MILLISECOND), peer, prefix);
        assert prefixes[n] in prefixes;
      }
    }
  }

  lemma EnqueuedOne(s: State, source: NodeID, generation: U32, q: Prefix, when: Time, peer: NodeID, prefix: Prefix)
    requires HasJob(Enqueue(s, source, generation, q, when).jobs, peer, prefix)
    ensures HasJob(s.jobs, peer, prefix) || (peer == source && prefix == q)
  {
    hide Queued;
    var t := Enqueue(s, source, generation, q, when);
    if k :| 0 <= k < |t.jobs.queue| && t.jobs.queue[k].peer == peer && t.jobs.queue[k].prefix == prefix {
      if k < |s.jobs.queue| {
        assert s.jobs.queue[k] == t.jobs.queue[k];
      }
    }
  }

  /** The children that two honest summaries name cover differences. */
  lemma ChildrenDiffer(sha: Hash, local: seq<ID>, remote: seq<ID>, prefix: Prefix)
    requires Distinct(local) && Distinct(remote) && |prefix| < DEPTH
    ensures forall q :: q in DifferingChildren(SummaryOf(sha, local, prefix), SummaryOf(sha, remote, prefix)) ==> Differs(local, remote, q)
  {
    hide SummaryOf, DifferingChildren, EntriesDiffer, DifferenceUnder, Bucket;
    forall q | q in DifferingChildren(SummaryOf(sha, local, prefix), SummaryOf(sha, remote, prefix)) ensures Differs(local, remote, q) {
      WalkFollowsSummaries(sha, local, remote, prefix, q);
      DifferingCoversDifference(sha, local, remote, q);
    }
  }

  lemma RootDiffers(c: Config, s: State, env: Env, p: Packet, peer: NodeID, remote: seq<ID>)
    requires Distinct(s.inventory) && Distinct(remote) && JobsDiffer(s.jobs, peer, s.inventory, remote)
    requires p.source == peer ==> EncodeSummary(SummaryOf(c.sha, remote, [])) == Some(p.body)
    ensures JobsDiffer(RootSummary(c, s, env, p).jobs, peer, s.inventory, remote)
  {
    hide DecodeSummary, EncodeSummary, SummaryOf, DifferingChildren, EnqueueAll, Track, HasJob, Differs;
    if DecodeSummary(p.body).Some? && DecodeSummary(p.body).value.prefix == [] {
      var heard := DecodeSummary(p.body).value;
      var (peers, jobs) := Track(s.peers, s.jobs, p.source, heard.generation);
      TrackNoNew(s.peers, s.jobs, p.source, heard.generation, peer);
      var prefixes := DifferingChildren(SummaryOf(c.sha, s.inventory, []), heard);
      if p.source == peer {
        DecodesSummary(p.body, SummaryOf(c.sha, remote, []));
        ChildrenDiffer(c.sha, s.inventory, remote, []);
      }
      var t := RootSummary(c, s, env, p);
      forall prefix | HasJob(t.jobs, peer, prefix) ensures Differs(s.inventory, remote, prefix) {
        EnqueuedAre(s.(peers := peers, jobs := jobs), env, p.source, heard.generation, prefixes, peer, prefix);
      }
    }
  }

  lemma ActiveGone(j: Jobs, peer: NodeID, prefix: Prefix)
    requires HasJob(j.(active := None), peer, prefix)
    ensures HasJob(j, peer, prefix)
  {}

  /** What an honest summary answers is the remote inventory's summary of that prefix. */
  lemma HonestSummary(c: Config, s: State, p: Packet, peer: NodeID, remote: seq<ID>)
    requires HonestPacket(c, s, p, peer, remote) && p.destination == c.id != BROADCAST && p.kind == SUMMARY && AnswersPeer(s, p, peer)
    ensures var prefix := s.jobs.active.value.prefix;
            |prefix| < DEPTH && DecodeSummary(p.body) == Some(SummaryOf(c.sha, remote, prefix)) && SummaryOf(c.sha, remote, prefix).prefix == prefix
  {
    var prefix := s.jobs.active.value.prefix;
    AnswerKinds(c.sha, remote, prefix, p.kind, p.body);
    SummaryPrefix(c.sha, remote, prefix);
    hide AnswerFor, EncodeSummary, SummaryOf, DecodeSummary;
    DecodesSummary(p.body, SummaryOf(c.sha, remote, prefix));
  }

  lemma SummaryPrefix(sha: Hash, ids: seq<ID>, prefix: Prefix)
    requires |prefix| <= DEPTH
    ensures SummaryOf(sha, ids, prefix).prefix == prefix
  {}

  lemma InventoryDistinct(c: Config, s: State)
    requires Inv(c, s)
    ensures Distinct(s.inventory)
  {
    hide TableValid, OneExchange, JobsValid, PeersValid, InspectedValid, Gated, AllSentValid, Distinct;
  }

  lemma SummaryDiffers(c: Config, s: State, env: Env, p: Packet, peer: NodeID, remote: seq<ID>)
    requires Inv(c, s) && Distinct(remote) && JobsDiffer(s.jobs, peer, s.inventory, remote)
    requires HonestPacket(c, s, p, peer, remote) && p.destination == c.id != BROADCAST && p.kind == SUMMARY
    ensures JobsDiffer(AcceptSummary(c, s, env, p).jobs, peer, s.inventory, remote)
  {
    hide Inv, HonestPacket, DecodeSummary, SummaryOf, DifferingChildren, EnqueueAll, HasJob, Differs, Distinct;
    if Answers(s, p) {
      ActiveValid(c, s);
      InventoryDistinct(c, s);
      var job, t := s.jobs.active.value, AcceptSummary(c, s, env, p);
      if p.source == peer {
        HonestSummary(c, s, p, peer, remote);
        ChildrenDiffer(c.sha, s.inventory, remote, job.prefix);
      }
      forall prefix | HasJob(t.jobs, peer, prefix) ensures Differs(s.inventory, remote, prefix) {
        if t.jobs == s.jobs.(active := None) {
          ActiveGone(s.jobs, peer, prefix);
        } else {
          var heard := DecodeSummary(p.body).value;
          var prefixes := DifferingChildren(SummaryOf(c.sha, s.inventory, job.prefix), heard);
          var next := EnqueueAll(s, env, job.peer, job.generation, prefixes);
          ActiveGone(next.jobs, peer, prefix);
          EnqueuedAre(s, env, job.peer, job.generation, prefixes, peer, prefix);
        }
      }
    }
  }

  lemma LeafNoNew(c: Config, s: State, env: Env, p: Packet, peer: NodeID)
    ensures NoNewJob(s.jobs, AcceptLeaf(c, s, env, p).jobs, peer)
  {
    hide DecodeLeaf, Missing, ConsiderAll;
  }

  lemma ExpireNoNew(s: State, env: Env, peer: NodeID)
    ensures NoNewJob(s.jobs, ExpireJob(s, env).jobs, peer)
  {
    var t := ExpireJob(s, env);
    forall prefix | HasJob(t.jobs, peer, prefix) ensures HasJob(s.jobs, peer, prefix) {
      if k :| 0 <= k < |t.jobs.queue| && t.jobs.queue[k].peer == peer && t.jobs.queue[k].prefix == prefix {
        if k < |s.jobs.queue| {
          assert s.jobs.queue[k] == t.jobs.queue[k];
        }
      }
    }
  }

  lemma ReconcileNoNew(c: Config, s: State, env: Env, peer: NodeID)
    ensures NoNewJob(s.jobs, InitiateReconcile(c, s, env).0.jobs, peer)
  {
    hide EncodePrefix, Outgoing, HasOutstanding, FirstDue;
    var i := FirstDue(s.jobs.queue, env.now);
    if s.jobs.active.None? && !HasOutstanding(s.table) && i < |s.jobs.queue| {
      var t := InitiateReconcile(c, s, env).0;
      var rest := Rest(s.jobs.queue, i);
      forall prefix | HasJob(t.jobs, peer, prefix) ensures HasJob(s.jobs, peer, prefix) {
        if k :| 0 <= k < |t.jobs.queue| && t.jobs.queue[k].peer == peer && t.jobs.queue[k].prefix == prefix {
          if k < |rest| {
            assert rest[k] == s.jobs.queue[if k < i then k else k + 1];
          } else {
            assert s.jobs.queue[i].peer == peer;
          }
        }
      }
    }
  }

  lemma TickNoNew(c: Config, s: State, env: Env, peer: NodeID)
    ensures NoNewJob(s.jobs, Tick(c, s, env).jobs, peer)
  {
    TickParts(c, s, env);
    hide HasJob, InitiateReconcile, ExpireJob, ExpireAcquisitions, Tick;
    var e := ExpireJob(ExpireAcquisitions(s, env), env);
    ExpireNoNew(ExpireAcquisitions(s, env), env, peer);
    ReconcileNoNew(c, e, env, peer);
    ReconcileNoNew(c, InitiateReconcile(c, e, env).0, env, peer);
  }

  lemma HearDiffers(c: Config, s: State, env: Env, p: Packet, pick: Option<ID>, peer: NodeID, remote: seq<ID>)
    requires Inv(c, s) && Distinct(remote) && JobsDiffer(s.jobs, peer, s.inventory, remote) && HonestPacket(c, s, p, peer, remote)
    ensures JobsDiffer(Receive(c, s, env, p, pick).jobs, peer, s.inventory, remote)
  {
    hide Inv, RootSummary, ServeManifest, ServeChunks, AcceptManifest, AcceptChunk, ServeSignature, AcceptSignature,
         ServeSummary, AcceptSummary, AcceptLeaf, RemoveEntry, Listing, HasJob, Differs, EncodeSummary, SummaryOf, AnswerFor, Distinct;
    InventoryDistinct(c, s);
    LeafNoNew(c, s, env, p, peer);
    if p.destination == BROADCAST && p.kind == SUMMARY {
      RootDiffers(c, s, env, p, peer, remote);
    } else if p.destination == c.id != BROADCAST && p.kind == SUMMARY {
      SummaryDiffers(c, s, env, p, peer, remote);
    }
  }

  /** With an honest peer and inventories that stay, every job of the peer covers an ID
      that exactly one side holds, in every state. */
  lemma StepDiffers(c: Config, s: State, e: Event, peer: NodeID, remote: seq<ID>)
    requires Inv(c, s) && Distinct(remote) && JobsDiffer(s.jobs, peer, s.inventory, remote) && HonestEvent(c, s, e, peer, remote)
    ensures JobsDiffer(Step(c, s, e).jobs, peer, s.inventory, remote)
  {
    hide Inv, Receive, Tick, Decode, HasJob, Differs, HonestPacket;
    match e
    case Hear(env, data, pick) =>
      if Decode(data).Some? {
        HearDiffers(c, s, env, Decode(data).value, pick, peer, remote);
      }
    case Clock(env) => TickNoNew(c, s, env, peer);
    case Outside(_) =>
  }

  // ---- the cost over runs -------------------------------------------------------------

  /** By this price honest answers are light. */
  lemma HonestIsLight(c: Config, s: State, p: Packet, peer: NodeID, remote: seq<ID>)
    requires HonestPacket(c, s, p, peer, remote) && JobsDiffer(s.jobs, peer, s.inventory, remote)
    requires p.destination == c.id != BROADCAST && (p.kind == SUMMARY || p.kind == LEAF)
    ensures p.kind == SUMMARY ==> Light(Costs(s.inventory, remote), c, s, p, peer)
    ensures AnswersPeer(s, p, peer) ==> Cost(s.inventory, remote, s.jobs.active.value.prefix) >= 1
  {
    hide HonestPacket, DecodeSummary, SummaryOf, DifferingChildren, Total, DifferenceUnder;
    if AnswersPeer(s, p, peer) {
      var prefix := s.jobs.active.value.prefix;
      assert HasJob(s.jobs, peer, prefix);
      assert Differs(s.inventory, remote, prefix);
      SomeCost(s.inventory, remote, prefix);
      if p.kind == SUMMARY {
        HonestSummary(c, s, p, peer, remote);
        DescentCost(SummaryOf(c.sha, s.inventory, prefix), SummaryOf(c.sha, remote, prefix), s.inventory, remote, prefix);
      }
    }
  }

  /** A prefix that covers a difference costs one request more than its children. */
  lemma SomeCost(local: seq<ID>, remote: seq<ID>, prefix: Prefix)
    requires Differs(local, remote, prefix)
    ensures Cost(local, remote, prefix) >= 1
    ensures |prefix| < DEPTH ==> (DEPTH - |prefix|) * |DifferenceUnder(local, remote, prefix)| < Cost(local, remote, prefix)
  {
    hide DifferenceUnder;
    var n := |DifferenceUnder(local, remote, prefix)|;
    Distribute(n, DEPTH - |prefix|, 1);
  }

  /** Answers and root summaries so far of one peer. */
  function RootsOf(events: seq<Event>, k: nat, peer: NodeID): nat
    requires k <= |events|
  {
    if k == 0 then 0 else RootsOf(events, k - 1, peer) + if IsRootOf(events[k - 1], peer) then 1 else 0
  }

  lemma WholeDifference(local: seq<ID>, remote: seq<ID>)
    ensures DifferenceUnder(local, remote, []) == Difference(local, remote)
  {}

  /** One event: an answer costs one request of what was left; a root summary adds at most
      32 for each ID of the difference; nothing else adds any. */
  lemma StepCost(c: Config, s: State, e: Event, peer: NodeID, remote: seq<ID>)
    requires Inv(c, s) && JobsDiffer(s.jobs, peer, s.inventory, remote) && HonestEvent(c, s, e, peer, remote)
    ensures var w := Costs(s.inventory, remote);
            WorkLeft(w, Step(c, s, e).jobs, peer) + (if IsAnswerOf(c, s, e, peer) then 1 else 0)
            <= WorkLeft(w, s.jobs, peer) + (if IsRootOf(e, peer) then DEPTH * |Difference(s.inventory, remote)| else 0)
  {
    hide Inv, WorkLeft, Receive, Tick, Decode, Light, HonestPacket, Costs, Difference, AnswersPeer;
    var w := Costs(s.inventory, remote);
    match e
    case Hear(env, data, pick) =>
      if Decode(data).Some? {
        HearCost(c, s, env, Decode(data).value, pick, peer, remote);
      }
    case Clock(env) => TickWork(w, c, s, env, peer);
    case Outside(_) =>
  }

  lemma HearCost(c: Config, s: State, env: Env, p: Packet, pick: Option<ID>, peer: NodeID, remote: seq<ID>)
    requires Inv(c, s) && JobsDiffer(s.jobs, peer, s.inventory, remote) && HonestPacket(c, s, p, peer, remote)
    ensures var w := Costs(s.inventory, remote);
            var t := Receive(c, s, env, p, pick);
            var answer := p.destination == c.id != BROADCAST && p.source != c.id && (p.kind == SUMMARY || p.kind == LEAF) && AnswersPeer(s, p, peer);
            WorkLeft(w, t.jobs, peer) + (if answer then 1 else 0)
            <= WorkLeft(w, s.jobs, peer)
               + (if p.source == peer && p.destination == BROADCAST then DEPTH * |Difference(s.inventory, remote)| else 0)
  {
    hide Inv, WorkLeft, RootSummary, AcceptSummary, AcceptLeaf, AcceptManifest, AcceptChunk, AcceptSignature, JobsDiffer,
         ServeManifest, ServeSignature, ServeSummary, ServeChunks, RemoveEntry, Listing, Light, HonestPacket, Costs, Difference, Cost, AnswersPeer;
    var w := Costs(s.inventory, remote);
    if p.destination == BROADCAST {
      if p.kind == SUMMARY { RootCost(c, s, env, p, peer, remote); }
    } else if p.destination == c.id && (p.kind == SUMMARY || p.kind == LEAF) {
      HonestIsLight(c, s, p, peer, remote);
      if p.kind == SUMMARY {
        SummaryUses(w, c, s, env, p, peer);
      } else {
        LeafCost(c, s, env, p, peer, remote);
      }
    }
  }

  lemma LeafCost(c: Config, s: State, env: Env, p: Packet, peer: NodeID, remote: seq<ID>)
    requires AnswersPeer(s, p, peer) ==> Cost(s.inventory, remote, s.jobs.active.value.prefix) >= 1
    ensures var w := Costs(s.inventory, remote);
            WorkLeft(w, AcceptLeaf(c, s, env, p).jobs, peer) + (if AnswersPeer(s, p, peer) then 1 else 0) <= WorkLeft(w, s.jobs, peer)
  {
    hide DecodeLeaf, Missing, ConsiderAll, QueueWork, Cost;
  }

  lemma RootCost(c: Config, s: State, env: Env, p: Packet, peer: NodeID, remote: seq<ID>)
    ensures var w := Costs(s.inventory, remote);
            WorkLeft(w, RootSummary(c, s, env, p).jobs, peer)
            <= WorkLeft(w, s.jobs, peer) + (if p.source == peer then DEPTH * |Difference(s.inventory, remote)| else 0)
  {
    hide WorkLeft, RootSummary, DecodeSummary, SummaryOf, DifferingChildren, Total, Costs, DifferenceUnder, Difference;
    RootWork(Costs(s.inventory, remote), c, s, env, p, peer);
    WholeDifference(s.inventory, remote);
    if DecodeSummary(p.body).Some? && DecodeSummary(p.body).value.prefix == [] {
      DescentCost(SummaryOf(c.sha, s.inventory, []), DecodeSummary(p.body).value, s.inventory, remote, []);
    }
  }

  lemma OneRootMore(roots: nat, cost: nat)
    ensures (roots + 1) * cost == roots * cost + cost
  {}

  /** The cost of reconciling with an honest peer: over every run in which both
      inventories stay, the node sees at most 32 answers to its requests for each ID that
      exactly one side holds and for each root summary, beyond what was left before; and
      it never asks for a prefix that covers no such ID. */
  lemma {:induction false} ReconciliationCost(c: Config, states: seq<State>, events: seq<Event>, k: nat, peer: NodeID, local: seq<ID>, remote: seq<ID>)
    requires Run(c, states, events) && Inv(c, states[0]) && k <= |events| && Distinct(remote)
    requires forall i :: 0 <= i < k ==> states[i].inventory == local && HonestEvent(c, states[i], events[i], peer, remote)
    requires JobsDiffer(states[0].jobs, peer, local, remote)
    ensures JobsDiffer(states[k].jobs, peer, local, remote)
    ensures AnswersOf(c, states, events, k, peer) + WorkLeft(Costs(local, remote), states[k].jobs, peer)
            <= WorkLeft(Costs(local, remote), states[0].jobs, peer) + RootsOf(events, k, peer) * (DEPTH * |Difference(local, remote)|)
  {
    hide Inv, WorkLeft, Step, Possible, IsAnswerOf, IsRootOf, HonestEvent, JobsDiffer, Difference, Costs, Distinct;
    if k > 0 {
      ReconciliationCost(c, states, events, k - 1, peer, local, remote);
      RunKeeps(c, states, events, k - 1);
      assert states[k - 1].inventory == local;
      StepDiffers(c, states[k - 1], events[k - 1], peer, remote);
      StepCost(c, states[k - 1], events[k - 1], peer, remote);
      OneRootMore(RootsOf(events, k - 1, peer), DEPTH * |Difference(local, remote)|);
    }
  }

  ghost predicate NoJobs(j: Jobs, peer: NodeID) {
    (forall k :: 0 <= k < |j.queue| ==> j.queue[k].peer != peer) && (j.active.Some? ==> j.active.value.peer != peer)
  }

  lemma NoJobsNoWork(w: Price, j: Jobs, peer: NodeID)
    requires NoJobs(j, peer)
    ensures WorkLeft(w, j, peer) == 0 && forall prefix :: !HasJob(j, peer, prefix)
  {
    NoPeerNoWork(w, j.queue, peer);
    hide QueueWork;
  }

  lemma {:induction false} NoPeerNoWork(w: Price, q: seq<Job>, peer: NodeID)
    requires forall k :: 0 <= k < |q| ==> q[k].peer != peer
    ensures QueueWork(w, q, peer) == 0
  {
    if q != [] {
      NoPeerNoWork(w, q[..|q| - 1], peer);
    }
  }

  /** One reconciliation, from a root summary to the next: at most 32 answered requests
      for each ID that exactly one side holds. */
  lemma OneReconciliation(c: Config, states: seq<State>, events: seq<Event>, k: nat, peer: NodeID, local: seq<ID>, remote: seq<ID>)
    requires Run(c, states, events) && Inv(c, states[0]) && k <= |events| && Distinct(remote)
    requires forall i :: 0 <= i < k ==> states[i].inventory == local && HonestEvent(c, states[i], events[i], peer, remote)
    requires NoJobs(states[0].jobs, peer) && RootsOf(events, k, peer) <= 1
    ensures AnswersOf(c, states, events, k, peer) <= DEPTH * |Difference(local, remote)|
  {
    hide Inv, Step, Possible, IsAnswerOf, HonestEvent, HasJob, NoJobs, Difference, Costs, Distinct, AnswersOf, WorkLeft, RootsOf;
    NoJobsNoWork(Costs(local, remote), states[0].jobs, peer);
    ReconciliationCost(c, states, events, k, peer, local, remote);
    var cost := DEPTH * |Difference(local, remote)|;
    assert RootsOf(events, k, peer) * cost <= cost;
  }
}
