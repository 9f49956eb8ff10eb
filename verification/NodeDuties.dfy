/** What a node has to do at a tick: end what has had no answer, advertise what it has, and
    ask for what is due. */
module NodeDuties {
  import opened Bytes
  import opened Seqs
  import opened Radix
  import opened Manifests
  import opened Assemblies
  import opened Stores
  import opened NodeProtocol
  import opened Scheduler
  import opened NodeState
  import opened NodeSteps
  import opened NodeInvariants
  import opened NodeSafety
  import opened Fairness
  import opened Coverage
  import Network

  // ---- deadlines ----------------------------------------------------------------------

  /** An exchange that failed: nobody is asked, and the next attempt is due after a wait
      that grows with the failures, and half of it at most on top. */
  ghost predicate Failed(a: Acquisition, b: Acquisition, now: Time) {
    && b.waiting.Idle? && b.activeSource == 0 && b.wanted == {} && b.assembly == a.assembly && b.sources == a.sources
    && b.failures == a.failures + 1
    && now + Backoff(b.failures) <= b.nextAttempt <= now + Backoff(b.failures) + Backoff(b.failures) / 2
    && b.manifest == (if a.waiting.ForSignature? then None else a.manifest)
  }

  lemma FailFails(a: Acquisition, env: Env)
    ensures Failed(a, Fail(a, env), env.now)
  {
    hide Backoff;
  }

  /** Every wait in that range can be drawn, so that nodes which failed together need not try
      again together. */
  lemma AnyWaitDrawn(a: Acquisition, env: Env, wait: nat)
    requires Backoff(a.failures + 1) <= wait <= Backoff(a.failures + 1) + Backoff(a.failures + 1) / 2
    ensures var draws := env.(random := _ => wait - Backoff(a.failures + 1)); Fail(a, draws).nextAttempt == env.now + wait
  {
    var base := Backoff(a.failures + 1);
    var draws := env.(random := _ => wait - base);
    SmallDraw(wait - base, base / 2);
    hide Backoff, Draw;
    Drawn(draws, base / 2);
  }

  lemma Drawn(env: Env, most: nat)
    ensures Draw(env, 0, most) == env.random(0) % (most + 1)
  {}

  lemma SmallDraw(v: nat, most: nat)
    requires v <= most
    ensures v % (most + 1) == v
  {}

  /** A tick ends a request exactly if its deadline has passed; the acquisition then rests
      for a while. */
  lemma ExpiresExactly(c: Config, s: State, env: Env, id: ID)
    requires id in s.table.entries && !s.table.entries[id].waiting.Idle?
    ensures var t := Settling(s, env).table;
            && id in t.entries
            && if env.now > s.table.entries[id].deadline then Failed(s.table.entries[id], t.entries[id], env.now)
               else t.entries[id] == s.table.entries[id]
  {
    FailFails(s.table.entries[id], env);
    hide Failed, Fail;
  }

  /** So after a tick nobody waits for an answer whose time had run out before it. */
  lemma NobodyWaitsLonger(c: Config, s: State, env: Env, id: ID)
    requires Inv(c, s) && Waits(s.table, id) && env.now > s.table.entries[id].deadline
    ensures var t := Tick(c, s, env).table; id in t.entries && Failed(s.table.entries[id], t.entries[id], env.now)
  {
    ExpiresExactly(c, s, env, id);
    NotReady(Settling(s, env).table, s.table.entries[id], id, env.now);
    hide Inv, ExpireAcquisitions, ExpireJob, Failed, Ready, Proceed;
    ProceedLeaves(c, Settling(s, env), env, id);
  }

  lemma NotReady(t: Table, a: Acquisition, id: ID, now: Time)
    requires id in t.entries && Failed(a, t.entries[id], now)
    ensures !Ready(t, id, now)
  {
    hide Backoff;
  }

  lemma SettlingKeeps(c: Config, s: State, env: Env)
    requires Inv(c, s)
    ensures Inv(c, Settling(s, env))
  {
    hide Inv, ExpireAcquisitions, ExpireJob;
    ExpireAcquisitionsKeeps(c, s, env);
    ExpireJobKeeps(c, ExpireAcquisitions(s, env), env);
  }

  lemma OthersStay(c: Config, s: State, env: Env, own: ID, id: ID)
    requires own in s.table.entries && |s.table.entries[own].sources| > 0 && own != id && id in s.table.entries
    ensures id in Initiate(c, s, env, own).table.entries && Initiate(c, s, env, own).table.entries[id] == s.table.entries[id]
  {
    hide Outgoing, BatchFrom, Bitmap, SourceOf, Backoff;
  }

  lemma WorkLeaves(c: Config, u: State, env: Env, id: ID)
    requires id in u.table.entries && !Ready(u.table, id, env.now)
    ensures var t := WorkOrReconcile(c, u, env).table; id in t.entries && t.entries[id] == u.table.entries[id]
  {
    hide InitiateReconcile, Initiate, NextWork;
    match NextWork(u.table, env.now, 0)
    case Some(i) => OthersStay(c, u.(table := u.table.(cursor := (i + 1) % |u.table.order|)), env, u.table.order[i], id);
    case None =>
  }

  /** Only an acquisition that is ready is worked on. */
  lemma ProceedLeaves(c: Config, u: State, env: Env, id: ID)
    requires id in u.table.entries && !Ready(u.table, id, env.now)
    ensures var t := Proceed(c, u, env).table; id in t.entries && t.entries[id] == u.table.entries[id]
  {
    hide InitiateReconcile, WorkOrReconcile, Advertise, HasOutstanding, Ready;
    AdvertiseTable(c, u, env);
    WorkLeaves(c, u, env, id);
    WorkLeaves(c, InitiateReconcile(c, u, env).0, env, id);
  }

  lemma AdvertiseTable(c: Config, u: State, env: Env)
    ensures Advertise(c, u, env).table == u.table
  {
    hide SummaryOf, EncodeSummary, Jitter, Inventory, Outgoing;
  }

  /** A reconciliation request is given up exactly if its deadline has passed; the job then
      waits at the end of the queue for another try, if there is room. */
  lemma JobExpiresExactly(s: State, env: Env)
    requires s.jobs.active.Some?
    ensures var job, t := s.jobs.active.value, Settling(s, env);
            if env.now <= job.deadline then t.jobs == s.jobs
            else t.jobs.active.None?
                 && if |s.jobs.queue| >= MAX_RECONCILE_JOBS then t.jobs.queue == s.jobs.queue && t.drops == s.drops + 1
                    else |t.jobs.queue| == |s.jobs.queue| + 1 && t.jobs.queue[..|s.jobs.queue|] == s.jobs.queue
                         && RetriedLater(job, t.jobs.queue[|s.jobs.queue|], env.now)
  {
    RetriedWaits(s.jobs.active.value, env);
    hide Retried, RetriedLater, ExpireAcquisitions;
  }

  ghost predicate RetriedLater(job: Job, again: Job, now: Time) {
    && again.peer == job.peer && again.generation == job.generation && again.prefix == job.prefix && again.failures == job.failures + 1
    && now + Backoff(again.failures) <= again.nextAttempt <= now + Backoff(again.failures) + Backoff(again.failures) / 2
  }

  lemma RetriedWaits(job: Job, env: Env)
    ensures RetriedLater(job, Retried(job, env), env.now)
  {
    hide Backoff;
  }

  // ---- answers ------------------------------------------------------------------------

  /** An answer to the reconciliation request that is outstanding. */
  ghost predicate AnswersJob(c: Config, s: State, p: Packet) {
    p.source != c.id && p.destination == c.id != BROADCAST && (p.kind == SUMMARY || p.kind == LEAF) && Answers(s, p)
  }

  /** The generation and the prefix that it speaks of. */
  function SpeaksOf(p: Packet): Option<Prefixed> {
    if p.kind == SUMMARY then
      match DecodeSummary(p.body) case None => None case Some(r) => Some(Prefixed(r.generation, r.prefix))
    else
      match DecodeLeaf(p.body) case None => None case Some(l) => Some(Prefixed(l.generation, l.prefix))
  }

  /** Every answer ends the request. One that is malformed, or speaks of another generation
      or prefix than was asked for, changes nothing else: the walk goes no further there. */
  lemma OtherGenerationsDropped(c: Config, s: State, env: Env, p: Packet, pick: Option<ID>)
    requires AnswersJob(c, s, p)
    ensures var t := Receive(c, s, env, p, pick);
            && t.jobs.active.None?
            && (SpeaksOf(p) != Some(Prefixed(s.jobs.active.value.generation, s.jobs.active.value.prefix)) ==>
                  t == s.(jobs := s.jobs.(active := None)))
  {
    hide DecodeSummary, DecodeLeaf, EnqueueAll, ConsiderAll, Missing, SummaryOf, DifferingChildren;
  }

  /** A malformed manifest or signature is no answer: the exchange has failed. */
  lemma MalformedFails(c: Config, s: State, env: Env, p: Packet, id: ID)
    requires p.source != c.id && p.destination == c.id != BROADCAST && id in s.table.entries
    requires (p.kind == MANIFEST && s.table.entries[id].waiting.ForManifest? && DecodeManifest(id, p.body).None?)
          || (p.kind == SIGNATURE && s.table.entries[id].waiting.ForSignature? && s.table.entries[id].manifest.Some? && DecodeSignature(p.body).None?)
    ensures var t := Receive(c, s, env, p, Some(id)); t == Put(s, id, t.table.entries[id]) && Failed(s.table.entries[id], t.table.entries[id], env.now)
  {
    FailFails(s.table.entries[id], env);
    hide DecodeManifest, DecodeSignature, Fail, Failed;
  }

  // ---- advertising --------------------------------------------------------------------

  /** Nothing is outstanding and the node may send. */
  predicate Free(u: State, env: Env) {
    env.canInitiate && u.jobs.active.None? && !HasOutstanding(u.table)
  }

  /** When its time has come, a free node lists its directory and broadcasts the root
      summary of what it found; whoever hears it is told the truth. */
  lemma Advertises(c: Config, s: State, env: Env)
    requires Inv(c, s) && Free(Settling(s, env), env) && env.now >= s.nextAdvertise && env.listing
    ensures var t := Tick(c, s, env);
            && t.inventory == Inventory(c.sha, c.ed, s.disk)
            && |t.sent| == |s.sent| + 1 && t.sent[..|s.sent|] == s.sent && t.sent[|s.sent|].Some?
            && var p := t.sent[|s.sent|].value;
               && p.kind == SUMMARY && p.source == c.id && p.destination == BROADCAST && Encode(p).Some?
               && DecodeSummary(p.body) == Some(SummaryOf(c.sha, Inventory(c.sha, c.ed, s.disk), []))
               && forall other: Config, v: State :: other.sha == c.sha && other.id != BROADCAST ==>
                    HonestPacket(other, v, p, c.id, Inventory(c.sha, c.ed, s.disk))
    ensures var interval := c.advertiseInterval;
            env.now + interval - interval / 5 <= Tick(c, s, env).nextAdvertise <= env.now + interval + interval / 5
  {
    hide ExpireAcquisitions, ExpireJob, HasOutstanding, Inventory, SummaryOf, Jitter, PacketHeader;
    var ids := Inventory(c.sha, c.ed, s.disk);
    RootPrefix(c.sha, ids);
    SummaryExact([], SummaryOf(c.sha, ids, []));
    DecodesSummary(EncodeSummary(SummaryOf(c.sha, ids, [])).value, SummaryOf(c.sha, ids, []));
    hide EncodeSummary, DecodeSummary, AnswerFor, Answers;
  }

  // ---- asking -------------------------------------------------------------------------

  /** A job is due: some queued one may go out. */
  predicate JobDue(u: State, env: Env) {
    exists k :: 0 <= k < |u.jobs.queue| && u.jobs.queue[k].nextAttempt <= env.now
  }

  predicate WorkDue(u: State, env: Env) {
    exists k :: 0 <= k < |u.table.order| && Ready(u.table, u.table.order[k], env.now)
  }

  lemma JobFound(u: State, env: Env)
    ensures JobDue(u, env) <==> FirstDue(u.jobs.queue, env.now) < |u.jobs.queue|
  {
    var i := FirstDue(u.jobs.queue, env.now);
    if i < |u.jobs.queue| {
      assert u.jobs.queue[i].nextAttempt <= env.now;
    }
  }

  lemma WorkFound(u: State, env: Env)
    requires u.table.order != [] ==> u.table.cursor < |u.table.order|
    ensures WorkDue(u, env) <==> NextWork(u.table, env.now, 0).Some?
  {
    hide Ready, NextWork;
    if k :| 0 <= k < |u.table.order| && Ready(u.table, u.table.order[k], env.now) {
      SelectionCloser(u.table, env.now, k);
    }
    if NextWork(u.table, env.now, 0).Some? {
      var i := NextWork(u.table, env.now, 0).value;
      assert Ready(u.table, u.table.order[i], env.now);
    }
  }

  /** The next number goes to a job: the first that is due leaves the queue, and its request
      is sent; it is outstanding then, or, where sending failed, waits for another try. */
  ghost predicate AsksJob(c: Config, u: State, t: State, env: Env) {
    exists i :: 0 <= i < |u.jobs.queue| && u.jobs.queue[i].nextAttempt <= env.now
      && (forall k :: 0 <= k < i ==> u.jobs.queue[k].nextAttempt > env.now)
      && JobGoes(c, u, t, env, i)
  }

  ghost predicate JobGoes(c: Config, u: State, t: State, env: Env, i: nat)
    requires i < |u.jobs.queue|
  {
    var job := u.jobs.queue[i];
    var rest := u.jobs.queue[..i] + u.jobs.queue[i + 1..];
    && t.tx == NextTransaction(u.tx) && t.table == u.table
    && t.sent == u.sent + [Network.RequestOf(c, job.(transaction := t.tx))] && t.sent[|u.sent|].Some?
    && if env.sendOk(0)
       then t.jobs == Jobs(rest, Some(job.(transaction := t.tx, deadline := env.later + c.responseTimeout)))
       else t.jobs.active.None? && |t.jobs.queue| == |rest| + 1 && t.jobs.queue[..|rest|] == rest
            && RetriedLater(job.(transaction := t.tx), t.jobs.queue[|rest|], env.now)
  }

  /** The next number goes to the acquisition whose turn it is. */
  ghost predicate AsksWork(c: Config, u: State, t: State, env: Env) {
    && t.tx == NextTransaction(u.tx) && t.jobs == u.jobs
    && NextWork(u.table, env.now, 0).Some?
    && var i := NextWork(u.table, env.now, 0).value;
       t.table.cursor == (i + 1) % |u.table.order| && u.table.order[i] in t.table.entries
       && t.table.entries[u.table.order[i]].sources == u.table.entries[u.table.order[i]].sources
  }

  lemma StartsJob(c: Config, u: State, env: Env)
    requires JobDue(u, env) && Free(u, env) && Network.Shallow(u.jobs)
    ensures var (t, done) := InitiateReconcile(c, u, env); done && AsksJob(c, u, t, env)
  {
    JobFound(u, env);
    var i := FirstDue(u.jobs.queue, env.now);
    var job := u.jobs.queue[i].(transaction := NextTransaction(u.tx));
    Network.RequestReads(c, job);
    RetriedWaits(job, env);
    hide EncodePrefix, Outgoing, Retried, RetriedLater, HasOutstanding, FirstDue, DecodePrefix;
    assert JobGoes(c, u, InitiateReconcile(c, u, env).0, env, i);
  }

  lemma NoJob(c: Config, u: State, env: Env)
    requires !JobDue(u, env)
    ensures InitiateReconcile(c, u, env) == (u, false)
  {
    JobFound(u, env);
    hide FirstDue, HasOutstanding, StartJob;
  }

  lemma StartsWork(c: Config, u: State, env: Env)
    requires NextWork(u.table, env.now, 0).Some?
    ensures AsksWork(c, u, WorkOrReconcile(c, u, env), env) && WorkOrReconcile(c, u, env).preferReconcile
  {
    hide NextWork, Outgoing, BatchFrom, Bitmap, SourceOf, Backoff, InitiateReconcile, Ready;
    var i := NextWork(u.table, env.now, 0).value;
    ReadyHere(u.table, env.now);
  }

  lemma ReadyHere(t: Table, now: Time)
    requires NextWork(t, now, 0).Some?
    ensures var id := t.order[NextWork(t, now, 0).value]; id in t.entries && |t.entries[id].sources| > 0
  {
    hide NextWork;
  }

  /** A free node whose advertisement is not due asks for something at a tick if anything is
      due, and rests otherwise: a job or an acquisition, in turns where both are due. */
  lemma AsksInTurns(c: Config, s: State, env: Env)
    requires Inv(c, s) && Free(Settling(s, env), env) && env.now < s.nextAdvertise
    ensures var u, t := Settling(s, env), Tick(c, s, env);
            && (if JobDue(u, env) && (s.preferReconcile || !WorkDue(u, env)) then AsksJob(c, u, t, env) && !t.preferReconcile
                else if WorkDue(u, env) then AsksWork(c, u, t, env) && t.preferReconcile
                else t == u)
  {
    var u := Settling(s, env);
    SettlingKeeps(c, s, env);
    Network.ExpiredShallow(c, s, env);
    CursorFits(c, u);
    SettlingClock(s, env);
    hide Inv, Settling, AsksJob, AsksWork, JobDue, WorkDue, Network.Shallow, Free, Proceed;
    ProceedsInTurns(c, u, env);
  }

  lemma SettlingClock(s: State, env: Env)
    ensures Settling(s, env).preferReconcile == s.preferReconcile && Settling(s, env).nextAdvertise == s.nextAdvertise
  {
    hide ExpireAcquisitions, ExpireJob;
  }

  lemma ProceedsInTurns(c: Config, u: State, env: Env)
    requires Free(u, env) && env.now < u.nextAdvertise && Network.Shallow(u.jobs)
    requires u.table.order != [] ==> u.table.cursor < |u.table.order|
    ensures var t := Proceed(c, u, env);
            && (if JobDue(u, env) && (u.preferReconcile || !WorkDue(u, env)) then AsksJob(c, u, t, env) && !t.preferReconcile
                else if WorkDue(u, env) then AsksWork(c, u, t, env) && t.preferReconcile
                else t == u)
  {
    WorkFound(u, env);
    if JobDue(u, env) {
      StartsJob(c, u, env);
      Preferring(c, u, InitiateReconcile(c, u, env).0, env);
    } else {
      NoJob(c, u, env);
    }
    if WorkDue(u, env) { StartsWork(c, u, env); }
    hide HasOutstanding, InitiateReconcile, Initiate, NextWork, AsksJob, AsksWork, JobDue, WorkDue, Network.Shallow, Advertise;
  }

  lemma Preferring(c: Config, u: State, t: State, env: Env)
    requires AsksJob(c, u, t, env)
    ensures AsksJob(c, u, t.(preferReconcile := false), env)
  {
    hide Network.RequestOf, RetriedLater;
    var i :| 0 <= i < |u.jobs.queue| && u.jobs.queue[i].nextAttempt <= env.now
      && (forall k :: 0 <= k < i ==> u.jobs.queue[k].nextAttempt > env.now) && JobGoes(c, u, t, env, i);
    assert JobGoes(c, u, t.(preferReconcile := false), env, i);
  }

  lemma CursorFits(c: Config, s: State)
    requires Inv(c, s)
    ensures s.table.order != [] ==> s.table.cursor < |s.table.order|
  {}

  // ---- peers --------------------------------------------------------------------------

  /** Hearing a root makes its peer the one heard last, at its generation. Of the others
      exactly the one heard longest ago is forgotten, where a new peer finds no room. */
  lemma RemembersPeers(p: Peers, j: Jobs, source: NodeID, generation: U32, other: NodeID)
    requires PeersValid(p)
    ensures var q := Track(p, j, source, generation).0;
            && source in q.generations && q.generations[source] == generation && q.order != [] && q.order[|q.order| - 1] == source
            && (other != source ==>
                  && (other in q.generations <==>
                        other in p.generations && !(source !in p.generations && |p.order| >= MAX_TRACKED_PEERS && other == p.order[0]))
                  && (other in q.generations ==> q.generations[other] == p.generations[other]))
  {
    hide DropJobs, RemoveFirst;
    if source !in p.generations && |p.order| >= MAX_TRACKED_PEERS {
      assert p.order[0] in p.order;
    }
  }
}
