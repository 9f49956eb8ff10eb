/** The walk as the node runs it comes to an end: at any price of prefixes by which the
    children that an answer names cost less than their parent, every answer uses up work,
    and only a new root summary of the peer adds any. */
module WalkProgress {
  import opened Bytes
  import opened Seqs
  import opened Radix
  import opened Manifests
  import opened Assemblies
  import opened Stores
  import opened NodeProtocol
  import opened Scheduler
  import opened NodeState
  import opened NodeSteps
  import opened NodeInvariants
  import opened NodeSafety
  import opened CoverageRuns

  /** What asking for a prefix may still cost, itself and what lies below it included. */
  type Price = Prefix -> nat

  function PriceOf(w: Price, job: Job, peer: NodeID): nat {
    if job.peer == peer then w(job.prefix) else 0
  }

  function QueueWork(w: Price, q: seq<Job>, peer: NodeID): nat {
    if q == [] then 0 else QueueWork(w, q[..|q| - 1], peer) + PriceOf(w, q[|q| - 1], peer)
  }

  /** The work that the jobs of a peer stand for. */
  function WorkLeft(w: Price, j: Jobs, peer: NodeID): nat {
    QueueWork(w, j.queue, peer) + if j.active.Some? then PriceOf(w, j.active.value, peer) else 0
  }

  function Total(w: Price, prefixes: seq<Prefix>): nat {
    if prefixes == [] then 0 else Total(w, prefixes[..|prefixes| - 1]) + w(prefixes[|prefixes| - 1])
  }

  lemma QueueWorkSnoc(w: Price, q: seq<Job>, job: Job, peer: NodeID)
    ensures QueueWork(w, q + [job], peer) == QueueWork(w, q, peer) + PriceOf(w, job, peer)
  {
    assert (q + [job])[..|q|] == q;
  }

  lemma {:induction false} QueueWorkConcat(w: Price, a: seq<Job>, b: seq<Job>, peer: NodeID)
    ensures QueueWork(w, a + b, peer) == QueueWork(w, a, peer) + QueueWork(w, b, peer)
  {
    if b == [] {
      assert a + b == a;
    } else {
      var n := |b| - 1;
      QueueWorkConcat(w, a, b[..n], peer);
      assert (a + b)[..|a + b| - 1] == a + b[..n];
    }
  }

  lemma QueueWorkWithout(w: Price, q: seq<Job>, i: nat, peer: NodeID)
    requires i < |q|
    ensures QueueWork(w, q, peer) == QueueWork(w, q[..i] + q[i + 1..], peer) + PriceOf(w, q[i], peer)
  {
    hide PriceOf;
    assert q == q[..i + 1] + q[i + 1..] && q[..i + 1][..i] == q[..i];
    QueueWorkConcat(w, q[..i + 1], q[i + 1..], peer);
    QueueWorkConcat(w, q[..i], q[i + 1..], peer);
  }

  lemma {:induction false} QueueWorkFilter(w: Price, f: Job -> bool, q: seq<Job>, peer: NodeID)
    ensures QueueWork(w, Filter(f, q), peer) <= QueueWork(w, q, peer)
  {
    hide PriceOf;
    if q == [] {
      assert Filter(f, q) == [];
    } else {
      var n := |q| - 1;
      QueueWorkFilter(w, f, q[..n], peer);
      QueueWorkSnoc(w, Filter(f, q[..n]), q[n], peer);
      assert Filter(f, q) == if f(q[n]) then Filter(f, q[..n]) + [q[n]] else Filter(f, q[..n]);
      assert QueueWork(w, q, peer) == QueueWork(w, q[..n], peer) + PriceOf(w, q[n], peer);
    }
  }

  lemma DropWork(w: Price, j: Jobs, other: NodeID, peer: NodeID)
    ensures WorkLeft(w, DropJobs(j, other), peer) <= WorkLeft(w, j, peer)
  {
    QueueWorkFilter(w, (job: Job) => job.peer != other, j.queue, peer);
  }

  lemma EnqueueWork(w: Price, s: State, source: NodeID, generation: U32, prefix: Prefix, when: Time, peer: NodeID)
    ensures QueueWork(w, Enqueue(s, source, generation, prefix, when).jobs.queue, peer)
            <= QueueWork(w, s.jobs.queue, peer) + (if source == peer then w(prefix) else 0)
  {
    hide Queued, QueueWork;
    QueueWorkSnoc(w, s.jobs.queue, Job(source, generation, prefix, 0, when, 0, 0), peer);
  }

  lemma {:induction false} EnqueueAllWork(w: Price, s: State, env: Env, source: NodeID, generation: U32, prefixes: seq<Prefix>, peer: NodeID)
    ensures QueueWork(w, EnqueueAll(s, env, source, generation, prefixes).jobs.queue, peer)
            <= QueueWork(w, s.jobs.queue, peer) + (if source == peer then Total(w, prefixes) else 0)
  {
    hide Enqueue, QueueWork;
    if prefixes != [] {
      var n := |prefixes| - 1;
      EnqueueAllWork(w, s, env, source, generation, prefixes[..n], peer);
      EnqueueWork(w, EnqueueAll(s, env, source, generation, prefixes[..n]), source, generation, prefixes[n],
                  env.now + Draw(env, n, 750 * MILLISECOND), peer);
    }
  }

  // ---- answers ------------------------------------------------------------------------

  /** The packet answers the active job, which is one of the peer's. */
  predicate AnswersPeer(s: State, p: Packet, peer: NodeID) {
    Answers(s, p) && p.source == peer && |s.jobs.active.value.prefix| <= DEPTH
  }

  /** The children that the packet makes a node ask for cost less than the prefix that it
      answers. */
  predicate Light(w: Price, c: Config, s: State, p: Packet, peer: NodeID) {
    AnswersPeer(s, p, peer) ==>
      var prefix := s.jobs.active.value.prefix;
      w(prefix) >= 1
      && (DecodeSummary(p.body).Some? && DecodeSummary(p.body).value.prefix == prefix ==>
            Total(w, DifferingChildren(SummaryOf(c.sha, s.inventory, prefix), DecodeSummary(p.body).value)) < w(prefix))
  }

  /** Such an answer leaves less work than there was. */
  lemma SummaryUses(w: Price, c: Config, s: State, env: Env, p: Packet, peer: NodeID)
    requires Light(w, c, s, p, peer)
    ensures AnswersPeer(s, p, peer) ==> WorkLeft(w, AcceptSummary(c, s, env, p).jobs, peer) < WorkLeft(w, s.jobs, peer)
    ensures WorkLeft(w, AcceptSummary(c, s, env, p).jobs, peer) <= WorkLeft(w, s.jobs, peer)
  {
    hide DecodeSummary, SummaryOf, DifferingChildren, EnqueueAll, QueueWork, Total;
    if Answers(s, p) && DecodeSummary(p.body).Some? && |s.jobs.active.value.prefix| <= DEPTH {
      var job, remote := s.jobs.active.value, DecodeSummary(p.body).value;
      EnqueueAllWork(w, s, env, job.peer, job.generation, DifferingChildren(SummaryOf(c.sha, s.inventory, job.prefix), remote), peer);
    }
  }

  lemma LeafUses(w: Price, c: Config, s: State, env: Env, p: Packet, peer: NodeID)
    requires Light(w, c, s, p, peer)
    ensures AnswersPeer(s, p, peer) ==> WorkLeft(w, AcceptLeaf(c, s, env, p).jobs, peer) < WorkLeft(w, s.jobs, peer)
    ensures WorkLeft(w, AcceptLeaf(c, s, env, p).jobs, peer) <= WorkLeft(w, s.jobs, peer)
  {
    hide DecodeLeaf, Missing, ConsiderAll, DecodeSummary, SummaryOf, DifferingChildren, Total, QueueWork;
  }

  // ---- everything else ----------------------------------------------------------------

  lemma EvictWork(w: Price, p: Peers, j: Jobs, peer: NodeID)
    ensures WorkLeft(w, Evict(p, j).1, peer) <= WorkLeft(w, j, peer)
  {
    if |p.order| >= MAX_TRACKED_PEERS {
      DropWork(w, j, p.order[0], peer);
    }
  }

  lemma TrackWork(w: Price, p: Peers, j: Jobs, source: NodeID, generation: U32, peer: NodeID)
    ensures WorkLeft(w, Track(p, j, source, generation).1, peer) <= WorkLeft(w, j, peer)
  {
    hide Evict, WorkLeft, DropJobs, RemoveFirst;
    EvictWork(w, p, j, peer);
    DropWork(w, j, source, peer);
    DropWork(w, Evict(p, j).1, source, peer);
  }

  /** A root summary adds what the children that it names cost, to its own peer. */
  lemma RootWork(w: Price, c: Config, s: State, env: Env, p: Packet, peer: NodeID)
    ensures WorkLeft(w, RootSummary(c, s, env, p).jobs, peer)
            <= WorkLeft(w, s.jobs, peer)
               + if p.source == peer && DecodeSummary(p.body).Some? && DecodeSummary(p.body).value.prefix == []
                 then Total(w, DifferingChildren(SummaryOf(c.sha, s.inventory, []), DecodeSummary(p.body).value)) else 0
  {
    hide DecodeSummary, SummaryOf, EnqueueAll, Track, DifferingChildren, Total, QueueWork;
    if DecodeSummary(p.body).Some? && DecodeSummary(p.body).value.prefix == [] {
      var remote := DecodeSummary(p.body).value;
      var (peers, jobs) := Track(s.peers, s.jobs, p.source, remote.generation);
      TrackWork(w, s.peers, s.jobs, p.source, remote.generation, peer);
      EnqueueAllWork(w, s.(peers := peers, jobs := jobs), env, p.source, remote.generation,
                     DifferingChildren(SummaryOf(c.sha, s.inventory, []), remote), peer);
    }
  }

  lemma ExpireWork(w: Price, s: State, env: Env, peer: NodeID)
    ensures WorkLeft(w, ExpireJob(s, env).jobs, peer) <= WorkLeft(w, s.jobs, peer)
  {
    if s.jobs.active.Some? {
      QueueWorkSnoc(w, s.jobs.queue, Retried(s.jobs.active.value, env), peer);
    }
  }

  lemma ReconcileWork(w: Price, c: Config, s: State, env: Env, peer: NodeID)
    ensures WorkLeft(w, InitiateReconcile(c, s, env).0.jobs, peer) <= WorkLeft(w, s.jobs, peer)
  {
    hide EncodePrefix, Outgoing, HasOutstanding, FirstDue, QueueWork;
    var i := FirstDue(s.jobs.queue, env.now);
    if s.jobs.active.None? && !HasOutstanding(s.table) && i < |s.jobs.queue| {
      var job := s.jobs.queue[i].(transaction := NextTransaction(s.tx));
      var rest := s.jobs.queue[..i] + s.jobs.queue[i + 1..];
      QueueWorkWithout(w, s.jobs.queue, i, peer);
      QueueWorkSnoc(w, rest, Retried(job, env), peer);
    }
  }

  lemma TickWork(w: Price, c: Config, s: State, env: Env, peer: NodeID)
    ensures WorkLeft(w, Tick(c, s, env).jobs, peer) <= WorkLeft(w, s.jobs, peer)
  {
    TickParts(c, s, env);
    hide WorkLeft, InitiateReconcile, ExpireJob, ExpireAcquisitions, Tick;
    var e := ExpireJob(ExpireAcquisitions(s, env), env);
    ExpireWork(w, ExpireAcquisitions(s, env), env, peer);
    ReconcileWork(w, c, e, env, peer);
    ReconcileWork(w, c, InitiateReconcile(c, e, env).0, env, peer);
  }

  /** The event is a root summary of the peer. */
  predicate IsRootOf(e: Event, peer: NodeID) {
    e.Hear? && Decode(e.data).Some? && Decode(e.data).value.source == peer && Decode(e.data).value.destination == BROADCAST
  }

  /** The event is an answer that the node takes for its active job with the peer. */
  predicate IsAnswerOf(c: Config, s: State, e: Event, peer: NodeID) {
    && e.Hear? && Decode(e.data).Some?
    && var p := Decode(e.data).value;
       && p.destination == c.id != BROADCAST && p.source != c.id && (p.kind == SUMMARY || p.kind == LEAF)
       && AnswersPeer(s, p, peer)
  }

  lemma ReceiveWork(w: Price, c: Config, s: State, env: Env, p: Packet, pick: Option<ID>, peer: NodeID)
    requires !(p.source == peer && p.destination == BROADCAST) && Light(w, c, s, p, peer)
    ensures WorkLeft(w, Receive(c, s, env, p, pick).jobs, peer) <= WorkLeft(w, s.jobs, peer)
    ensures p.destination == c.id != BROADCAST && p.source != c.id && (p.kind == SUMMARY || p.kind == LEAF) && AnswersPeer(s, p, peer) ==>
              WorkLeft(w, Receive(c, s, env, p, pick).jobs, peer) < WorkLeft(w, s.jobs, peer)
  {
    hide WorkLeft, RootSummary, AcceptSummary, AcceptLeaf, AcceptManifest, AcceptChunk, AcceptSignature,
         ServeManifest, ServeSignature, ServeSummary, ServeChunks, RemoveEntry, Listing, Light, DecodeSummary, SummaryOf,
         DifferingChildren, Total;
    SummaryUses(w, c, s, env, p, peer);
    LeafUses(w, c, s, env, p, peer);
    RootWork(w, c, s, env, p, peer);
  }

  ghost predicate LightEvent(w: Price, c: Config, s: State, e: Event, peer: NodeID) {
    e.Hear? && Decode(e.data).Some? ==> Light(w, c, s, Decode(e.data).value, peer)
  }

  lemma StepWork(w: Price, c: Config, s: State, e: Event, peer: NodeID)
    requires !IsRootOf(e, peer) && LightEvent(w, c, s, e, peer)
    ensures WorkLeft(w, Step(c, s, e).jobs, peer) + (if IsAnswerOf(c, s, e, peer) then 1 else 0) <= WorkLeft(w, s.jobs, peer)
  {
    hide WorkLeft, Receive, Tick, Decode, AnswersPeer, Light;
    match e
    case Hear(env, data, pick) =>
      if Decode(data).Some? {
        ReceiveWork(w, c, s, env, Decode(data).value, pick, peer);
      }
    case Clock(env) => TickWork(w, c, s, env, peer);
    case Outside(_) =>
  }

  function AnswersOf(c: Config, states: seq<State>, events: seq<Event>, k: nat, peer: NodeID): nat
    requires k <= |events| < |states|
  {
    if k == 0 then 0 else
      AnswersOf(c, states, events, k - 1, peer) + if IsAnswerOf(c, states[k - 1], events[k - 1], peer) then 1 else 0
  }

  // ---- by depth -----------------------------------------------------------------------

  /** What a prefix may cost whoever answers: itself and all that may lie below it. */
  function Weight(depth: nat): (w: nat)
    requires depth <= DEPTH
    ensures w >= 1
    decreases DEPTH - depth
  {
    if depth == DEPTH then 1 else 17 * Weight(depth + 1)
  }

  function ByDepth(prefix: Prefix): nat {
    if |prefix| <= DEPTH then Weight(|prefix|) else 0
  }

  function Times(n: nat, w: nat): nat {
    if n == 0 then 0 else Times(n - 1, w) + w
  }

  lemma {:induction false} TimesIs(n: nat, w: nat)
    ensures Times(n, w) == n * w
  {
    if n > 0 {
      TimesIs(n - 1, w);
      assert n * w == (n - 1) * w + w;
    }
  }

  lemma {:induction false} TimesGrows(n: nat, m: nat, w: nat)
    requires n <= m
    ensures Times(n, w) <= Times(m, w)
  {
    if n < m {
      TimesGrows(n, m - 1, w);
    }
  }

  lemma {:induction false} TotalByDepth(prefixes: seq<Prefix>, depth: nat)
    requires depth <= DEPTH && forall q :: q in prefixes ==> |q| == depth
    ensures Total(ByDepth, prefixes) == Times(|prefixes|, Weight(depth))
  {
    hide Weight;
    if prefixes != [] {
      TotalByDepth(prefixes[..|prefixes| - 1], depth);
      assert prefixes[|prefixes| - 1] in prefixes;
    }
  }

  lemma ChildrenWeighLess(n: nat, depth: nat)
    requires n <= RADIX_CHILDREN && depth < DEPTH
    ensures Times(n, Weight(depth + 1)) < Weight(depth)
  {
    var w := Weight(depth + 1);
    TimesGrows(n, 16, w);
    TimesIs(16, w);
    assert Weight(depth) == 17 * w;
  }

  /** By this price every answer is light, whatever it says. */
  lemma DepthIsLight(c: Config, s: State, p: Packet, peer: NodeID)
    ensures Light(ByDepth, c, s, p, peer)
  {
    hide DecodeSummary, SummaryOf, DifferingUpTo, Weight, Total;
    if AnswersPeer(s, p, peer) && DecodeSummary(p.body).Some? && DecodeSummary(p.body).value.prefix == s.jobs.active.value.prefix {
      var prefix, remote := s.jobs.active.value.prefix, DecodeSummary(p.body).value;
      SummaryDepth(p.body);
      var local := SummaryOf(c.sha, s.inventory, prefix);
      FewDiffering(local, remote, RADIX_CHILDREN);
      TotalByDepth(DifferingChildren(local, remote), |prefix| + 1);
      ChildrenWeighLess(|DifferingChildren(local, remote)|, |prefix|);
    }
  }

  /** Termination: between two root summaries of a peer, no run sees more answers to
      its jobs than the work that was there, whatever the answers say and however
      often requests are lost and repeated. */
  lemma {:induction false} WalkEnds(c: Config, states: seq<State>, events: seq<Event>, k: nat, peer: NodeID)
    requires Run(c, states, events) && k <= |events|
    requires forall i :: 0 <= i < k ==> !IsRootOf(events[i], peer)
    ensures AnswersOf(c, states, events, k, peer) + WorkLeft(ByDepth, states[k].jobs, peer) <= WorkLeft(ByDepth, states[0].jobs, peer)
  {
    hide WorkLeft, Step, Possible, IsAnswerOf, IsRootOf, Light, Decode;
    if k > 0 {
      WalkEnds(c, states, events, k - 1, peer);
      var s, e := states[k - 1], events[k - 1];
      if e.Hear? && Decode(e.data).Some? {
        DepthIsLight(c, s, Decode(e.data).value, peer);
      }
      StepWork(ByDepth, c, s, e, peer);
    }
  }

  /** Work is left exactly while the peer has a job. */
  lemma NoWorkNoJobs(c: Config, s: State, peer: NodeID)
    requires Inv(c, s)
    ensures WorkLeft(ByDepth, s.jobs, peer) == 0 <==>
            (s.jobs.active.Some? ==> s.jobs.active.value.peer != peer)
            && forall i :: 0 <= i < |s.jobs.queue| ==> s.jobs.queue[i].peer != peer
  {
    InvJobs(c, s);
    NoQueueWork(s.jobs.queue, peer);
    hide Inv, Weight, NoRepeats, QueueWork;
  }

  lemma {:induction false} NoQueueWork(q: seq<Job>, peer: NodeID)
    requires forall i :: 0 <= i < |q| ==> |q[i].prefix| <= DEPTH
    ensures QueueWork(ByDepth, q, peer) == 0 <==> forall i :: 0 <= i < |q| ==> q[i].peer != peer
  {
    hide Weight;
    if q != [] {
      NoQueueWork(q[..|q| - 1], peer);
    }
  }
}
