/** Every step of a node (internal/node/runtime.go) as a function of its state:
    what an incoming packet and a clock tick do. */
module NodeSteps {
  import opened Bytes
  import opened Seqs
  import opened Radix
  import opened Manifests
  import opened Assemblies
  import opened Stores
  import opened NodeProtocol
  import opened Scheduler
  import opened NodeState

  // ---- reconciliation -----------------------------------------------------------------

  function Evict(p: Peers, j: Jobs): (Peers, Jobs) {
    if |p.order| < MAX_TRACKED_PEERS then (p, j)
    else (Peers(p.generations - {p.order[0]}, p.order[1..]), DropJobs(j, p.order[0]))
  }

  /** A root summary refreshes its peer; a new peer or generation starts over. */
  function Track(p: Peers, j: Jobs, source: NodeID, generation: U32): (Peers, Jobs) {
    var known := source in p.generations;
    var (kept, jobs) := if known then (p.(order := RemoveFirst(p.order, source)), j) else Evict(p, j);
    var order := kept.order + [source];
    if known && p.generations[source] == generation then (Peers(kept.generations, order), jobs)
    else (Peers(kept.generations[source := generation], order), DropJobs(jobs, source))
  }

  function RootSummary(c: Config, s: State, env: Env, p: Packet): (r: State)
    ensures r == s.(peers := r.peers, jobs := r.jobs, drops := r.drops)
  {
    match DecodeSummary(p.body)
    case None => s
    case Some(remote) =>
      if remote.prefix != [] then s else
        var (peers, jobs) := Track(s.peers, s.jobs, p.source, remote.generation);
        EnqueueAll(s.(peers := peers, jobs := jobs), env, p.source, remote.generation,
                   DifferingChildren(SummaryOf(c.sha, s.inventory, []), remote))
  }

  predicate Answers(s: State, p: Packet) {
    s.jobs.active.Some? && s.jobs.active.value.peer == p.source && s.jobs.active.value.transaction == p.transaction
  }

  function AcceptSummary(c: Config, s: State, env: Env, p: Packet): (r: State)
    ensures r == s.(jobs := r.jobs, drops := r.drops)
  {
    if !Answers(s, p) then s else
      var job := s.jobs.active.value;
      var idle := s.(jobs := s.jobs.(active := None));
      match DecodeSummary(p.body)
      case None => idle
      case Some(remote) =>
        if remote.generation != job.generation || remote.prefix != job.prefix || |job.prefix| > DEPTH then idle
        else
          var next := EnqueueAll(s, env, job.peer, job.generation, DifferingChildren(SummaryOf(c.sha, s.inventory, job.prefix), remote));
          next.(jobs := next.jobs.(active := None))
  }

  function AddAt(s: State, id: ID, source: NodeID, when: Time): (r: State)
    ensures r == s.(table := r.table, drops := r.drops) && s.drops <= r.drops && Grown(s.table, r.table)
  {
    match AddCandidate(s.table, id, source)
    case None => s.(drops := s.drops + 1)
    case Some(t) =>
      var a := t.entries[id];
      Put(s.(table := t), id, if a.nextAttempt == 0 then a.(nextAttempt := when) else a)
  }

  /** What is done about one ID of a leaf that the inventory lacks. */
  function Consider(c: Config, s: State, env: Env, k: nat, id: ID, source: NodeID): (r: State)
    ensures r == s.(table := r.table, settled := r.settled, drops := r.drops) && s.drops <= r.drops && Grown(s.table, r.table)
  {
    if CompleteOn(c.sha, c.ed, s.disk, id) then s.(settled := s.settled[id := AlreadyComplete])
    else if !HasKnown(s.disk, id) then AddAt(s, id, source, env.now + Draw(env, k, 500 * MILLISECOND))
    else if HasPartial(s.disk, id) || Wanted(s.disk, id) || !SourceInspected(s.inspected, id, source)
    then AddAt(s, id, source, env.now)
    else s.(settled := s.settled[id := KnownDeferred])
  }

  function ConsiderAll(c: Config, s: State, env: Env, ids: seq<ID>, source: NodeID): (r: State)
    ensures r == s.(table := r.table, settled := r.settled, drops := r.drops) && s.drops <= r.drops && Grown(s.table, r.table)
  {
    if ids == [] then s else
      var n := |ids| - 1;
      Consider(c, ConsiderAll(c, s, env, ids[..n], source), env, n, ids[n], source)
  }

  function AcceptLeaf(c: Config, s: State, env: Env, p: Packet): (r: State)
    ensures r == s.(jobs := r.jobs, table := r.table, settled := r.settled, drops := r.drops) && Grown(s.table, r.table)
  {
    if !Answers(s, p) then s else
      var job := s.jobs.active.value;
      var idle := s.(jobs := s.jobs.(active := None));
      match DecodeLeaf(p.body)
      case None => idle
      case Some(leaf) =>
        if leaf.generation != job.generation || leaf.prefix != job.prefix then idle
        else ConsiderAll(c, idle, env, Missing(s.inventory, leaf.ids), p.source)
  }

  /** The queue without its job i. */
  function Rest(queue: seq<Job>, i: nat): seq<Job>
    requires i < |queue|
  {
    queue[..i] + queue[i + 1..]
  }

  /** Job i goes out under a new number; it waits for its answer or, if it could not be
      sent, for another try. */
  function StartJob(c: Config, s: State, env: Env, i: nat): (r: (State, bool))
    requires i < |s.jobs.queue|
    ensures r.0 == s.(tx := r.0.tx, jobs := r.0.jobs, sent := r.0.sent) && s.sent <= r.0.sent
  {
    var tx := NextTransaction(s.tx);
    var job := s.jobs.queue[i].(transaction := tx);
    var rest := Rest(s.jobs.queue, i);
    var packet := Outgoing(c, SUMMARY_REQUEST, job.peer, tx, EncodePrefix(job.generation, job.prefix));
    if packet.None? then (s.(tx := tx, jobs := Jobs(rest, None)), false)
    else
      var jobs := if env.sendOk(0) then Jobs(rest, Some(job.(deadline := env.later + c.responseTimeout)))
                  else Jobs(rest + [Retried(job, env)], None);
      (Transmit(s.(tx := tx, jobs := jobs), packet), true)
  }

  /** Whether anything was done, and what. */
  function InitiateReconcile(c: Config, s: State, env: Env): (r: (State, bool))
    ensures r.0 == s.(tx := r.0.tx, jobs := r.0.jobs, sent := r.0.sent) && s.sent <= r.0.sent
  {
    if s.jobs.active.Some? || HasOutstanding(s.table) then (s, false) else
      var i := FirstDue(s.jobs.queue, env.now);
      if i == |s.jobs.queue| then (s, false) else StartJob(c, s, env, i)
  }

  // ---- serving ------------------------------------------------------------------------

  /** The answer that an inventory gives to a prefix: a leaf if its bucket is small,
      otherwise a summary. */
  function AnswerFor(sha: Hash, ids: seq<ID>, prefix: Prefix): (r: (byte, Option<seq<byte>>))
    requires |prefix| <= DEPTH
    ensures r.0 == LEAF || r.0 == SUMMARY
  {
    if |Bucket(ids, prefix)| <= LEAF_THRESHOLD then (LEAF, EncodeLeaf(LeafOf(sha, ids, prefix)))
    else (SUMMARY, EncodeSummary(SummaryOf(sha, ids, prefix)))
  }

  function ServeSummary(c: Config, s: State, p: Packet): (r: State)
    ensures r == s.(sent := r.sent) && s.sent <= r.sent
  {
    match DecodePrefix(p.body)
    case None => s
    case Some(asked) =>
      if InventoryGeneration(c.sha, s.inventory) != asked.generation || |asked.prefix| > DEPTH then s
      else
        var (kind, body) := AnswerFor(c.sha, s.inventory, asked.prefix);
        Reply(c, s, p, kind, body)
  }

  /** The manifest of a complete object that a packet asks about. */
  function Asked(c: Config, s: State, p: Packet): Option<Manifest> {
    match DecodeIDBody(p.body)
    case None => None
    case Some(id) => if CompleteOn(c.sha, c.ed, s.disk, id) then ReadManifest(s.disk, ObjectManifest(id)) else None
  }

  function ServeManifest(c: Config, s: State, p: Packet): (r: State)
    ensures r == s.(sent := r.sent) && s.sent <= r.sent
  {
    match Asked(c, s, p)
    case None => s
    case Some(m) => Reply(c, s, p, MANIFEST, Manifests.EncodeManifest(m))
  }

  function ServeSignature(c: Config, s: State, p: Packet): (r: State)
    ensures r == s.(sent := r.sent) && s.sent <= r.sent
  {
    match Asked(c, s, p)
    case None => s
    case Some(m) => Reply(c, s, p, SIGNATURE, Some(EncodeSignature(m.signature)))
  }

  datatype Served = Served(sent: seq<Packet>, remaining: nat)

  /** The chunk that bit `bit` of a request stands for; the index is 16-bit. */
  function ChunkReply(c: Config, disk: Disk, asked: ChunkRequest, p: Packet, bit: nat): Option<Packet> {
    var index := (asked.base + bit) % 0x1_0000;
    match ReadChunkFrom(disk, asked.id, index)
    case Err(_) => None
    case Ok(data) => Outgoing(c, CHUNK, p.source, p.transaction, EncodeChunk(ChunkData(index, data)))
  }

  function ServeBits(c: Config, disk: Disk, env: Env, asked: ChunkRequest, p: Packet, n: nat): (r: Served)
    requires n <= WINDOW
    ensures r.remaining <= MAX_CHUNK_BATCH
  {
    if n == 0 then Served([], MAX_CHUNK_BATCH) else
      var done := ServeBits(c, disk, env, asked, p, n - 1);
      if done.remaining == 0 || !ToBits(asked.bitmap, WINDOW)[n - 1] then done else
        match ChunkReply(c, disk, asked, p, n - 1)
        case None => done
        case Some(packet) => Served(done.sent + [packet], if env.sendOk(n - 1) then done.remaining - 1 else done.remaining)
  }

  function Sending(packets: seq<Packet>): (r: seq<Option<Packet>>)
    ensures |r| == |packets|
  {
    seq(|packets|, i requires 0 <= i < |packets| => Some(packets[i]))
  }

  function ServeChunks(c: Config, s: State, env: Env, p: Packet): (r: State)
    ensures r == s.(sent := r.sent) && s.sent <= r.sent
  {
    match DecodeChunkRequest(p.body)
    case None => s
    case Some(asked) =>
      if !CompleteOn(c.sha, c.ed, s.disk, asked.id) then s
      else s.(sent := s.sent + Sending(ServeBits(c, s.disk, env, asked, p, WINDOW).sent))
  }

  // ---- acquisition --------------------------------------------------------------------

  /** A reply belongs to an acquisition by transaction and source. */
  predicate RepliesTo(t: Table, p: Packet, id: ID) {
    id in t.entries && t.entries[id].transaction == p.transaction && t.entries[id].activeSource == p.source
  }

  /** The acquisition that a reply is taken to belong to: any match. */
  ghost predicate Chosen(t: Table, p: Packet, pick: Option<ID>) {
    match pick
    case Some(id) => RepliesTo(t, p, id)
    case None => forall id :: !RepliesTo(t, p, id)
  }

  ghost function AcceptManifest(c: Config, s: State, env: Env, p: Packet, pick: Option<ID>): (r: State)
    ensures r == s || (pick.Some? && Waits(s.table, pick.value) && OwnStep(c, s, r, pick.value))
  {
    if pick.None? || pick.value !in s.table.entries || !s.table.entries[pick.value].waiting.ForManifest? then s else
      var a := s.table.entries[pick.value];
      match Manifests.DecodeManifest(pick.value, p.body)
      case None => Put(s, pick.value, Fail(a, env))
      case Some(m) =>
        Put(s, pick.value, a.(manifest := Some(m), manifestSource := p.source, waiting := Idle, activeSource := 0,
                              nextAttempt := env.now + PAUSE))
  }

  /** The inventory is as it was, or lists exactly what is complete now. */
  ghost predicate Listing(c: Config, s: State, t: State) {
    t.inventory == s.inventory || t.inventory == Inventory(c.sha, c.ed, t.disk)
  }

  /** What the steps of one acquisition may do: replace its entry, or settle it; the
      other acquisitions, the jobs, the peers and what was sent stay. */
  ghost predicate OwnStep(c: Config, s: State, t: State, id: ID) {
    && t == s.(table := t.table, inspected := t.inspected, inventory := t.inventory, disk := t.disk,
               settled := t.settled)
    && (|| (id in t.settled && t.table == RemoveEntry(s.table, id))
        || (id in t.table.entries && t.table == s.table.(entries := s.table.entries[id := t.table.entries[id]])))
    && s.settled.Keys <= t.settled.Keys && Listing(c, s, t)
  }

  ghost function Refresh(c: Config, s: State, env: Env): State {
    if env.listing then s.(inventory := Inventory(c.sha, c.ed, s.disk)) else s
  }

  /** Commits the assembly of an acquisition. `spoiled` is what becomes of the
      acquisition, and of the disk, when the hash is wrong. */
  ghost function Finish(c: Config, s: State, env: Env, id: ID, a: Acquisition, parts: Assembled, w: seq<WriteResult>,
                        spoiled: Disk -> (Disk, Option<Assembled>)): (r: State)
    requires |w| == 3 && id in s.table.entries
    ensures OwnStep(c, s, r, id)
  {
    var (disk, r) := CommitOn(c.sha, c.ed, s.disk, parts, w, env.order);
    if r.Ok? then Settle(Refresh(c, s.(disk := disk), env), id, Committed)
    else if r.error.WrongHash? then
      var (after, left) := spoiled(disk);
      Put(s.(disk := after), id, Fail(a.(assembly := left), env))
    else Put(s.(disk := disk), id, Fail(a.(assembly := Some(parts)), env))
  }

  function Progressed(a: Acquisition, env: Env): Acquisition {
    a.(waiting := Idle, failures := 0, nextAttempt := env.now + PAUSE)
  }

  /** After a signature, whether good or absent, a manifest is complete. */
  function Signed(m: Manifest, signature: Option<Signature>): Manifest {
    m.(signature := signature, version := if signature.Some? then SIGNED_MANIFEST_VERSION else 1)
  }

  ghost function StartAssembly(c: Config, s: State, env: Env, id: ID, a: Acquisition, m: Manifest): (r: State)
    requires id in s.table.entries
    ensures OwnStep(c, s, r, id)
  {
    var (disk, begun) := BeginOn(s.disk, m, env.write(1));
    var holding := s.(disk := disk);
    match begun
    case Err(_) => Put(holding, id, Fail(a, env))
    case Ok(parts) =>
      var b := a.(assembly := Some(parts), manifest := None, manifestSource := 0);
      if parts.Whole()
      then Finish(c, holding, env, id, b, parts, [env.write(2), env.write(3), env.write(4)],
                  d => (RemoveOn(d, id, env.order), None))
      else Put(holding, id, Progressed(b, env))
  }

  ghost function Decide(c: Config, s: State, env: Env, id: ID, a: Acquisition, m: Manifest): (r: State)
    requires id in s.table.entries
    ensures OwnStep(c, s, r, id)
  {
    var (disk, saved) := SaveKnownOn(s.disk, m, env.write(0));
    var known := s.(disk := disk);
    var partial_, wanted := HasPartial(disk, m.id), Wanted(disk, m.id);
    if !saved then Put(known, id, Fail(a, env))
    else if !Accept(c.ed, c.policy, m, partial_, wanted) then Settle(known, id, Deferred)
    else StartAssembly(c, known, env, id, a, m)
  }

  /** A signature that is there but does not hold ends the acquisition. */
  ghost function Judge(c: Config, s: State, env: Env, id: ID, a: Acquisition, m: Manifest, source: NodeID): (r: State)
    requires id in s.table.entries
    ensures OwnStep(c, s, r, id)
  {
    var marked := s.(inspected := MarkInspected(s.inspected, m.id, source));
    if !SignatureHolds(c.ed, m) then Settle(marked, id, Settlement.Rejected) else Decide(c, marked, env, id, a, m)
  }

  ghost function AcceptSignature(c: Config, s: State, env: Env, p: Packet, pick: Option<ID>): (r: State)
    ensures r == s || (pick.Some? && Waits(s.table, pick.value) && OwnStep(c, s, r, pick.value))
  {
    if pick.None? || pick.value !in s.table.entries then s else
      var id, a := pick.value, s.table.entries[pick.value];
      if !a.waiting.ForSignature? || a.manifest.None? then s else
        match DecodeSignature(p.body)
        case None => Put(s, id, Fail(a, env))
        case Some(signature) => Judge(c, s, env, id, a, Signed(a.manifest.value, signature), p.source)
  }

  ghost function AcceptChunk(c: Config, s: State, env: Env, p: Packet, pick: Option<ID>): (r: State)
    ensures r == s || (pick.Some? && Waits(s.table, pick.value) && OwnStep(c, s, r, pick.value))
  {
    if pick.None? || pick.value !in s.table.entries then s else
      var id, a := pick.value, s.table.entries[pick.value];
      match DecodeChunk(p.body)
      case None => s
      case Some(chunk) =>
        if !a.waiting.ForChunks? || a.assembly.None? || chunk.index !in a.wanted then s
        else TakeChunk(c, s, env, id, a, chunk)
  }

  ghost function TakeChunk(c: Config, s: State, env: Env, id: ID, a: Acquisition, chunk: ChunkData): (r: State)
    requires a.assembly.Some? && id in s.table.entries
    ensures OwnStep(c, s, r, id)
  {
    var (disk, added) := AddOn(s.disk, a.assembly.value, chunk.index, chunk.data, env.write(0));
    var stored := s.(disk := disk);
    match added
    case Err(_) => stored
    case Ok(parts) =>
      var b := a.(assembly := Some(parts), wanted := a.wanted - {chunk.index});
      if parts.Whole()
      then Finish(c, stored, env, id, b, parts, [env.write(1), env.write(2), env.write(3)],
                  d => Restarted(d, parts, env))
      else Put(stored, id, if b.wanted == {} then Progressed(b, env) else b)
  }

  /** A corrupt assembly starts over, or stays if it cannot. */
  function Restarted(disk: Disk, parts: Assembled, env: Env): (Disk, Option<Assembled>) {
    var (after, r) := RestartOn(disk, parts.manifest, env.order, env.write(4));
    (after, match r case Ok(p) => Some(p) case Err(_) => Some(parts))
  }

  // ---- initiating ---------------------------------------------------------------------

  /** The source to ask: the one a staged manifest came from, else the next in turn. */
  function SourceOf(a: Acquisition): NodeID
    requires |a.sources| > 0
  {
    if a.manifest.Some? && a.manifestSource != 0 then a.manifestSource else a.sources[a.sourceCursor % |a.sources|]
  }

  function Addressed(a: Acquisition, tx: U16): Acquisition
    requires |a.sources| > 0
  {
    a.(activeSource := SourceOf(a), transaction := tx,
       sourceCursor := if a.manifest.Some? && a.manifestSource != 0 then a.sourceCursor else (a.sourceCursor + 1) % |a.sources|)
  }

  /** Sends a request and waits for its reply, or fails. */
  function Ask(c: Config, s: State, env: Env, id: ID, a: Acquisition, kind: byte, body: Option<seq<byte>>, next: Waiting): (r: State)
    ensures r == s.(tx := r.tx, sent := r.sent, table := s.table.(entries := r.table.entries)) && s.sent <= r.sent
    ensures id in s.table.entries ==> r.table.entries.Keys == s.table.entries.Keys
  {
    var packet := Outgoing(c, kind, a.activeSource, a.transaction, body);
    Put(Transmit(s, packet), id,
        if env.sendOk(0) then a.(waiting := next, deadline := env.later + c.responseTimeout) else Fail(a, env))
  }

  function Grant(batch: Batch, most: BatchSize): seq<nat> {
    batch.indexes[..if most < |batch.indexes| then most else |batch.indexes|]
  }

  function ChunkRequestFor(id: ID, base: nat, wanted: set<nat>): ChunkRequest {
    ChunkRequest(id, base % 0x1_0000, Bitmap(base, wanted))
  }

  function AskChunks(c: Config, s: State, env: Env, id: ID, a: Acquisition): (r: State)
    requires a.assembly.Some?
    ensures r == s.(tx := r.tx, sent := r.sent, table := s.table.(entries := r.table.entries)) && s.sent <= r.sent
    ensures id in s.table.entries ==> r.table.entries.Keys == s.table.entries.Keys
  {
    var batch := BatchFrom(a.assembly.value.received, a.cursor);
    if batch.indexes == [] then Put(s, id, a) else
      var grant := Grant(batch, env.batch);
      Ask(c, s, env, id, a.(wanted := SetOf(grant), cursor := grant[|grant| - 1] + 1), GET_CHUNKS,
          EncodeChunkRequest(ChunkRequestFor(id, batch.base, SetOf(grant))), ForChunks)
  }

  function Initiate(c: Config, s: State, env: Env, id: ID): (r: State)
    requires id in s.table.entries && |s.table.entries[id].sources| > 0
    ensures r == s.(tx := r.tx, sent := r.sent, table := s.table.(entries := r.table.entries)) && s.sent <= r.sent
    ensures id in s.table.entries ==> r.table.entries.Keys == s.table.entries.Keys
  {
    var tx := NextTransaction(s.tx);
    var a := Addressed(s.table.entries[id], tx);
    var begun := s.(tx := tx);
    if a.assembly.Some? then AskChunks(c, begun, env, id, a)
    else if a.manifest.Some? then Ask(c, begun, env, id, a, GET_SIGNATURE, Some(id), ForSignature)
    else Ask(c, begun, env, id, a, GET_MANIFEST, Some(id), ForManifest)
  }

  // ---- the clock ----------------------------------------------------------------------

  function Expired(a: Acquisition, env: Env): Acquisition {
    if !a.waiting.Idle? && env.now > a.deadline then Fail(a, env) else a
  }

  /** Requests without an answer fail. At most one is outstanding, so one draw does. */
  function ExpireAcquisitions(s: State, env: Env): (r: State)
    ensures r == s.(table := s.table.(entries := r.table.entries)) && r.table.entries.Keys == s.table.entries.Keys
  {
    s.(table := s.table.(entries := map id | id in s.table.entries :: Expired(s.table.entries[id], env)))
  }

  function ExpireJob(s: State, env: Env): (r: State)
    ensures r == s.(jobs := r.jobs, drops := r.drops)
  {
    if s.jobs.active.None? || env.now <= s.jobs.active.value.deadline then s
    else if |s.jobs.queue| < MAX_RECONCILE_JOBS
    then s.(jobs := Jobs(s.jobs.queue + [Retried(s.jobs.active.value, env)], None))
    else s.(jobs := s.jobs.(active := None), drops := s.drops + 1)
  }

  ghost function Advertise(c: Config, s: State, env: Env): State {
    var next := env.now + Jitter(c.advertiseInterval, env.random(1));
    var fresh_ := Refresh(c, s, env);
    if !env.listing then s.(nextAdvertise := next)
    else Transmit(fresh_, Outgoing(c, SUMMARY, BROADCAST, 0, EncodeSummary(SummaryOf(c.sha, fresh_.inventory, [])))).(nextAdvertise := next)
  }

  /** The next acquisition in turn, or else a reconciliation. */
  function WorkOrReconcile(c: Config, s: State, env: Env): State {
    match NextWork(s.table, env.now, 0)
    case Some(i) =>
      var id := s.table.order[i];
      var turned := s.(table := s.table.(cursor := (i + 1) % |s.table.order|));
      Initiate(c, turned, env, id).(preferReconcile := true)
    case None =>
      var (next, done) := InitiateReconcile(c, s, env);
      if done then next.(preferReconcile := false) else next
  }

  /** What a node does when nothing is outstanding and it may send. */
  ghost function Proceed(c: Config, s: State, env: Env): State {
    if !env.canInitiate || s.jobs.active.Some? || HasOutstanding(s.table) then s
    else if env.now >= s.nextAdvertise then Advertise(c, s, env)
    else if s.preferReconcile then
      var (next, done) := InitiateReconcile(c, s, env);
      if done then next.(preferReconcile := false) else WorkOrReconcile(c, next, env)
    else WorkOrReconcile(c, s, env)
  }

  ghost function Tick(c: Config, s: State, env: Env): State {
    Proceed(c, ExpireJob(ExpireAcquisitions(s, env), env), env)
  }

  // ---- packets ------------------------------------------------------------------------

  /** What one packet does. `pick` is the acquisition that the node finds for it. */
  ghost function Receive(c: Config, s: State, env: Env, p: Packet, pick: Option<ID>): State {
    if p.source == c.id || (p.destination != BROADCAST && p.destination != c.id) then s
    else if p.destination == BROADCAST then
      if p.kind == SUMMARY then RootSummary(c, s, env, p) else s
    else if p.kind == GET_MANIFEST then ServeManifest(c, s, p)
    else if p.kind == GET_CHUNKS then ServeChunks(c, s, env, p)
    else if p.kind == MANIFEST then AcceptManifest(c, s, env, p, pick)
    else if p.kind == CHUNK then AcceptChunk(c, s, env, p, pick)
    else if p.kind == GET_SIGNATURE then ServeSignature(c, s, p)
    else if p.kind == SIGNATURE then AcceptSignature(c, s, env, p, pick)
    else if p.kind == SUMMARY_REQUEST then ServeSummary(c, s, p)
    else if p.kind == SUMMARY then AcceptSummary(c, s, env, p)
    else if p.kind == LEAF then AcceptLeaf(c, s, env, p)
    else s
  }

  // ---- runs ---------------------------------------------------------------------------

  /** What can happen to a node: octets from the radio, a tick, or another process
      changing the store. */
  datatype Event =
    | Hear(env: Env, data: seq<byte>, pick: Option<ID>)
    | Clock(env: Env)
    | Outside(disk: Disk)

  /** The node finds some match whenever there is one. */
  ghost predicate Possible(c: Config, s: State, e: Event) {
    e.Hear? && Decode(e.data).Some? ==> Chosen(s.table, Decode(e.data).value, e.pick)
  }

  ghost function Step(c: Config, s: State, e: Event): State {
    match e
    case Hear(env, data, pick) =>
      (match Decode(data)
       case None => s
       case Some(p) => Receive(c, s, env, p, pick))
    case Clock(env) => Tick(c, s, env)
    case Outside(disk) => s.(disk := disk)
  }

  /** states[k + 1] is what event k makes of states[k]. */
  ghost predicate Run(c: Config, states: seq<State>, events: seq<Event>) {
    && |states| == |events| + 1
    && forall k :: 0 <= k < |events| ==> Possible(c, states[k], events[k]) && states[k + 1] == Step(c, states[k], events[k])
  }

  // ---- start --------------------------------------------------------------------------

  ghost function Blank(c: Config, disk: Disk, tx: U16, env: Env): State {
    State(Table(map[], [], 0), Jobs([], None), Peers(map[], []), Inspected(map[], []), tx, false, 0,
          Inventory(c.sha, c.ed, disk), disk, [], map[], 0)
  }

  function Own(s: State, id: ID): State {
    s.(table := AddCandidate(s.table, id, 0).value)
  }

  /** Work that an earlier process left behind, unless the policy now defers it. */
  function StartPartial(c: Config, s: State, env: Env, k: nat, id: ID): State {
    var (disk, loaded) := LoadPartialOn(s.disk, id, env.write(k));
    match loaded
    case Err(_) => Own(s.(disk := RemoveOn(disk, id, env.order)), id)
    case Ok(parts) =>
      var wanted := Wanted(disk, id);
      if !Accept(c.ed, c.policy, parts.manifest, true, wanted) then s.(disk := disk) else
        var t := Own(s.(disk := disk), id);
        Put(t, id, t.table.entries[id].(assembly := Some(parts)))
  }

  function StartPartials(c: Config, s: State, env: Env, ids: seq<ID>): State {
    if ids == [] then s else
      var n := |ids| - 1;
      StartPartial(c, StartPartials(c, s, env, ids[..n]), env, n, ids[n])
  }

  function StartWanted(s: State, ids: seq<ID>): State {
    if ids == [] then s else Own(StartWanted(s, ids[..|ids| - 1]), ids[|ids| - 1])
  }

  /** The state in which a node starts, given the partial and the wanted
      publications that it finds and the first transaction number. */
  ghost function Start(c: Config, disk: Disk, tx: U16, env: Env, partials: seq<ID>, wanted: seq<ID>, delay: Time): State {
    StartWanted(StartPartials(c, Blank(c, disk, tx, env), env, partials), wanted).(nextAdvertise := env.now + delay)
  }
}
