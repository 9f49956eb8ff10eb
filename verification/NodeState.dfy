/** The state of a node (internal/node/runtime.go) and what its small operations do
    to it. Time, randomness, the radio's answers and the store's failures come in
    with each event; nothing else is left open. */
module NodeState {
  import opened Bytes
  import opened Seqs
  import opened Radix
  import opened Manifests
  import opened Assemblies
  import opened Stores
  import opened NodeProtocol
  import opened Scheduler

  type Time = nat

  const MAX_TRACKED_PEERS := 64
  const MAX_RECONCILE_JOBS := 256
  const MAX_ACQUISITIONS := 256
  const MAX_INSPECTED_IDS := 256
  const MAX_SOURCES := 8
  const PAUSE := 100 * MILLISECOND

  // ---- data ---------------------------------------------------------------------------

  datatype Config = Config(sha: Hash, ed: Verifier, id: NodeID, policy: AcquisitionPolicy,
                           responseTimeout: Time, advertiseInterval: Time)

  type BatchSize = n: int | 1 <= n <= MAX_CHUNK_BATCH witness 1

  /** What one event finds outside the node: the time before and after sending, the
      k-th random draw, send and write, whether the controller lets the node
      initiate and how many chunks it grants, the order in which a directory is
      removed, and whether the object directory can be listed. */
  datatype Env = Env(now: Time, later: Time, random: nat -> nat, sendOk: nat -> bool, write: nat -> WriteResult,
                     canInitiate: bool, batch: BatchSize, order: seq<FilePath>, listing: bool)

  /** A draw between zero and `most`. */
  function Draw(env: Env, k: nat, most: nat): (d: nat)
    ensures d <= most
  {
    env.random(k) % (most + 1)
  }

  type Assembled = p: Parts | p.Valid()
    witness Parts(Manifest(1, seq(16, _ => 0), [], 0, seq(32, _ => 0), 1, 0, None), [], [])

  datatype Waiting = Idle | ForManifest | ForSignature | ForChunks

  datatype Acquisition = Acquisition(
    sources: seq<NodeID>, sourceCursor: nat, activeSource: NodeID, assembly: Option<Assembled>, failures: nat,
    nextAttempt: Time, cursor: nat, transaction: U16, waiting: Waiting, deadline: Time, wanted: set<nat>,
    manifest: Option<Manifest>, manifestSource: NodeID)

  const NEW_ACQUISITION := Acquisition([], 0, 0, None, 0, 0, 0, 0, Idle, 0, {}, None, 0)

  datatype Table = Table(entries: map<ID, Acquisition>, order: seq<ID>, cursor: nat)

  datatype Job = Job(peer: NodeID, generation: U32, prefix: Prefix, failures: nat, nextAttempt: Time,
                     transaction: U16, deadline: Time)

  datatype Jobs = Jobs(queue: seq<Job>, active: Option<Job>)

  datatype Peers = Peers(generations: map<NodeID, U32>, order: seq<NodeID>)

  datatype Inspected = Inspected(sources: map<ID, set<NodeID>>, order: seq<ID>)

  /** Why an ID is not, or no longer, pursued. */
  datatype Settlement = AlreadyComplete | KnownDeferred | Committed | Deferred | Rejected

  /** The last three components only record: packets handed to the radio (None for
      the empty packet that an ignored encoding error would send), IDs settled, and how
      often a job or a candidate was dropped for lack of room. */
  datatype State = State(
    table: Table, jobs: Jobs, peers: Peers, inspected: Inspected, tx: U16, preferReconcile: bool,
    nextAdvertise: Time, inventory: seq<ID>, disk: Disk,
    sent: seq<Option<Packet>>, settled: map<ID, Settlement>, drops: nat)

  // ---- acquisitions -------------------------------------------------------------------

  function Put(s: State, id: ID, a: Acquisition): State {
    s.(table := s.table.(entries := s.table.entries[id := a]))
  }

  function Fail(a: Acquisition, env: Env): Acquisition {
    var base := Backoff(a.failures + 1);
    var staged := if a.waiting.ForSignature? then a.(manifest := None, manifestSource := 0) else a;
    staged.(waiting := Idle, wanted := {}, activeSource := 0, failures := a.failures + 1,
            nextAttempt := env.now + base + Draw(env, 0, base / 2))
  }

  function AddSource(a: Acquisition, source: NodeID): Acquisition {
    if source != 0 && source !in a.sources && |a.sources| < MAX_SOURCES then a.(sources := a.sources + [source]) else a
  }

  /** More acquisitions behind the ones there were. */
  predicate Grown(t: Table, u: Table) {
    t.order <= u.order && t.cursor == u.cursor && t.entries.Keys <= u.entries.Keys
  }

  /** None: the table is full. Work of the node's own, with source 0, always fits. */
  function AddCandidate(t: Table, id: ID, source: NodeID): (r: Option<Table>)
    ensures r.Some? ==> Grown(t, r.value) && r.value.entries.Keys == t.entries.Keys + {id}
  {
    if id in t.entries then Some(t.(entries := t.entries[id := AddSource(t.entries[id], source)]))
    else if source != 0 && |t.entries| >= MAX_ACQUISITIONS then None
    else Some(Table(t.entries[id := AddSource(NEW_ACQUISITION, source)], t.order + [id], t.cursor))
  }

  function RemoveEntry(t: Table, id: ID): Table {
    var order := RemoveFirst(t.order, id);
    Table(t.entries - {id}, order, if id in t.order && t.cursor >= |order| then 0 else t.cursor)
  }

  /** Ends an acquisition. */
  function Settle(s: State, id: ID, why: Settlement): State {
    s.(table := RemoveEntry(s.table, id), settled := s.settled[id := why],
       inspected := if why.Deferred? then s.inspected else ClearInspected(s.inspected, id))
  }

  predicate Ready(t: Table, id: ID, now: Time) {
    && id in t.entries
    && t.entries[id].waiting.Idle? && |t.entries[id].sources| > 0 && now >= t.entries[id].nextAttempt
  }

  /** The place of the next acquisition to work on, cyclically from the cursor. */
  function NextWork(t: Table, now: Time, offset: nat): (r: Option<nat>)
    requires offset <= |t.order|
    ensures r.Some? ==> r.value < |t.order| && Ready(t, t.order[r.value], now)
    decreases |t.order| - offset
  {
    if offset == |t.order| then None
    else
      var i := Cyclic(t.cursor, offset, |t.order|);
      if Ready(t, t.order[i], now) then Some(i) else NextWork(t, now, offset + 1)
  }

  predicate Waits(t: Table, id: ID) {
    id in t.entries && !t.entries[id].waiting.Idle?
  }

  predicate HasOutstanding(t: Table) {
    exists id :: id in t.entries && !t.entries[id].waiting.Idle?
  }

  // ---- inspected sources --------------------------------------------------------------

  predicate SourceInspected(i: Inspected, id: ID, source: NodeID) {
    id in i.sources && source in i.sources[id]
  }

  function RoomFor(i: Inspected, id: ID): Inspected {
    if id in i.sources then i else
      var kept := if |i.order| >= MAX_INSPECTED_IDS then Inspected(i.sources - {i.order[0]}, i.order[1..]) else i;
      Inspected(kept.sources[id := {}], kept.order + [id])
  }

  function MarkInspected(i: Inspected, id: ID, source: NodeID): Inspected {
    var room := RoomFor(i, id);
    if |room.sources[id]| < MAX_SOURCES then room.(sources := room.sources[id := room.sources[id] + {source}]) else room
  }

  function ClearInspected(i: Inspected, id: ID): Inspected {
    Inspected(i.sources - {id}, RemoveFirst(i.order, id))
  }

  // ---- reconciliation jobs ------------------------------------------------------------

  /** The job is there already, so asking again would be idle. */
  predicate Queued(j: Jobs, peer: NodeID, generation: U32, prefix: Prefix) {
    || (j.active.Some? && j.active.value.peer == peer && j.active.value.prefix == prefix)
    || exists k :: 0 <= k < |j.queue| && j.queue[k].peer == peer && j.queue[k].generation == generation && j.queue[k].prefix == prefix
  }

  function Enqueue(s: State, peer: NodeID, generation: U32, prefix: Prefix, when: Time): (r: State)
    ensures r == s.(jobs := s.jobs.(queue := r.jobs.queue), drops := r.drops)
    ensures s.jobs.queue <= r.jobs.queue && s.drops <= r.drops
    ensures Queued(r.jobs, peer, generation, prefix) || r.drops > s.drops
  {
    assert forall q: seq<Job>, job: Job :: (q + [job])[|q|] == job;
    if Queued(s.jobs, peer, generation, prefix) then s
    else if |s.jobs.queue| >= MAX_RECONCILE_JOBS then s.(drops := s.drops + 1)
    else s.(jobs := s.jobs.(queue := s.jobs.queue + [Job(peer, generation, prefix, 0, when, 0, 0)]))
  }

  function EnqueueAll(s: State, env: Env, peer: NodeID, generation: U32, prefixes: seq<Prefix>): (r: State)
    ensures r == s.(jobs := s.jobs.(queue := r.jobs.queue), drops := r.drops)
    ensures s.jobs.queue <= r.jobs.queue && s.drops <= r.drops
  {
    if prefixes == [] then s else
      var n := |prefixes| - 1;
      Enqueue(EnqueueAll(s, env, peer, generation, prefixes[..n]), peer, generation, prefixes[n],
              env.now + Draw(env, n, 750 * MILLISECOND))
  }

  function DropJobs(j: Jobs, peer: NodeID): Jobs {
    Jobs(Filter((job: Job) => job.peer != peer, j.queue),
         if j.active.Some? && j.active.value.peer == peer then None else j.active)
  }

  function Retried(job: Job, env: Env): Job {
    var base := Backoff(job.failures + 1);
    job.(failures := job.failures + 1, nextAttempt := env.now + base + Draw(env, 0, base / 2))
  }

  /** The first queued job whose time has come, or the length. */
  function FirstDue(queue: seq<Job>, now: Time): (i: nat)
    ensures i <= |queue|
    ensures i < |queue| ==> now >= queue[i].nextAttempt
    ensures forall j :: 0 <= j < i ==> now < queue[j].nextAttempt
  {
    if queue == [] then 0 else if now >= queue[0].nextAttempt then 0 else 1 + FirstDue(queue[1..], now)
  }

  // ---- packets ------------------------------------------------------------------------

  function NextTransaction(tx: U16): U16 {
    if tx == 0xffff then 0 else tx + 1
  }

  /** The packet to send, if its body could be encoded and fits. */
  function Outgoing(c: Config, kind: byte, destination: NodeID, transaction: U16, body: Option<seq<byte>>): (r: Option<Packet>)
    ensures r.Some? ==> Encode(r.value).Some?
  {
    if body.None? || |body.value| > MAX_BODY then None
    else Some(Packet(kind, c.id, destination, transaction, body.value))
  }

  function Transmit(s: State, packet: Option<Packet>): State {
    s.(sent := s.sent + [packet])
  }

  function Reply(c: Config, s: State, to_: Packet, kind: byte, body: Option<seq<byte>>): (r: State)
    ensures r == s.(sent := r.sent) && s.sent <= r.sent
  {
    var packet := Outgoing(c, kind, to_.source, to_.transaction, body);
    if packet.None? then s else Transmit(s, packet)
  }
}
