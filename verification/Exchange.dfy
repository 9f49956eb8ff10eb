/** One exchange between two nodes: a turn asks for chunks, the node asked answers from a
    complete object, and the answers come back. */
module Exchanges {
  import opened Bytes
  import opened Seqs
  import opened Radix
  import opened Manifests
  import opened Assemblies
  import opened Stores
  import opened NodeProtocol
  import opened Scheduler
  import opened NodeState
  import opened NodeSteps
  import opened NodeInvariants
  import opened NodeSafety
  import opened NodeFrames
  import opened NodeOutcomes
  import opened Fairness
  import opened Transfer
  import opened TransferRuns
  import opened Demultiplexer

  // ---- the request --------------------------------------------------------------------

  ghost predicate SameGeometry(m: Manifest, n: Manifest) {
    m.length == n.length && m.chunkSize == n.chunkSize && m.chunkCount == n.chunkCount
  }

  lemma SameSlices(m: Manifest, n: Manifest, content: seq<byte>, i: nat)
    requires Geometry(m) && Geometry(n) && SameGeometry(m, n) && |content| == m.length && i < m.chunkCount
    ensures Slice(m, content, i) == Slice(n, content, i)
  {}

  /** The request that a node sends names exactly the chunks that it then waits for. */
  ghost predicate Requests(ask: ChunkRequest, id: ID, wanted: set<nat>) {
    && ask.id == id && Ones(ToBits(ask.bitmap, WINDOW)) <= MAX_CHUNK_BATCH && ask.base + WINDOW <= 0x1_0000
    && (forall i :: i in wanted ==> ask.base <= i < ask.base + WINDOW)
    && forall bit: nat :: bit < WINDOW ==> (AsksBit(ask, bit) <==> ask.base + bit in wanted)
  }

  lemma BitsOfRequest(id: ID, base: nat, wanted: set<nat>)
    requires base + WINDOW <= 0x1_0000 && |wanted| <= MAX_CHUNK_BATCH && forall i :: i in wanted ==> base <= i < base + WINDOW
    ensures Requests(ChunkRequestFor(id, base, wanted), id, wanted)
    ensures EncodeChunkRequest(ChunkRequestFor(id, base, wanted)).Some?
  {
    BitmapBits(base, wanted);
    hide Bitmap, ToBits, Ones;
  }

  lemma AskedChunks(c: Config, s: State, env: Env, id: ID, a: Acquisition)
    requires a.assembly.Some? && a.waiting.Idle? && !a.assembly.value.Whole() && Storable(a.assembly.value.manifest) && env.sendOk(0)
    ensures var t := AskChunks(c, s, env, id, a);
            && id in t.table.entries && t == s.(sent := t.sent, table := s.table.(entries := s.table.entries[id := t.table.entries[id]]))
            && var b := t.table.entries[id];
               && b.waiting.ForChunks? && b.assembly == a.assembly && b.activeSource == a.activeSource && b.transaction == a.transaction
               && b.deadline == env.later + c.responseTimeout
               && |t.sent| == |s.sent| + 1 && t.sent[|s.sent|].Some?
               && IsRequest(c, t.sent[|s.sent|].value, id, a.activeSource, a.transaction, b.wanted)
  {
    hide BatchFrom, Bitmap, Requests, DecodeChunkRequest, EncodeChunkRequest, Storable, WantedValid, Ones, ToBits, Grant, Pow256, PacketHeader, Encode;
    GrantedRequest(id, a.assembly.value, a.cursor, env.batch);
    OutgoingEncodes(c, GET_CHUNKS, a.activeSource, a.transaction,
                    EncodeChunkRequest(ChunkRequestFor(id, BatchFrom(a.assembly.value.received, a.cursor).base,
                                                       SetOf(Grant(BatchFrom(a.assembly.value.received, a.cursor), env.batch)))));
  }

  lemma OutgoingEncodes(c: Config, kind: byte, destination: NodeID, tx: U16, body: Option<seq<byte>>)
    ensures Outgoing(c, kind, destination, tx, body).Some? ==> Encode(Outgoing(c, kind, destination, tx, body).value).Some?
  {}

  /** The packet asks this node, under this number, for these chunks. */
  ghost predicate IsRequest(c: Config, q: Packet, id: ID, destination: NodeID, tx: U16, wanted: set<nat>): (r: bool)
    ensures r ==> DecodeChunkRequest(q.body).Some?
  {
    && q.kind == GET_CHUNKS && q.source == c.id && q.destination == destination && q.transaction == tx && Encode(q).Some?
    && DecodeChunkRequest(q.body).Some? && Requests(DecodeChunkRequest(q.body).value, id, wanted)
  }

  lemma GrantedRequest(id: ID, parts: Parts, start: nat, most: BatchSize)
    requires parts.Valid() && !parts.Whole() && Storable(parts.manifest)
    ensures var batch := BatchFrom(parts.received, start);
            && batch.indexes != []
            && var wanted := SetOf(Grant(batch, most));
               var body := EncodeChunkRequest(ChunkRequestFor(id, batch.base, wanted));
               && body.Some? && |body.value| <= MAX_BODY
               && DecodeChunkRequest(body.value).Some? && Requests(DecodeChunkRequest(body.value).value, id, wanted)
  {
    BatchExact(parts.received, start);
    hide BatchFrom, Bitmap, Requests, DecodeChunkRequest, Storable, Takes, WantedValid, Ones, ToBits;
    var batch := BatchFrom(parts.received, start);
    GrantValid(parts.received, start, most);
    var grant := Grant(batch, most);
    assert forall i :: i in grant ==> i in batch.indexes;
    assert grant[0] in grant;
    WindowFits(parts, batch.base, grant[0]);
    BitsOfRequest(id, batch.base, SetOf(grant));
    var request := ChunkRequestFor(id, batch.base, SetOf(grant));
    ChunkRequestExact(EncodeChunkRequest(request).value, request);
  }

  /** A turn with an assembly sends a request if and only if a chunk is missing: what is
      whole but could not be committed is not tried again by a turn. */
  lemma AsksIffMissing(c: Config, s: State, env: Env, id: ID)
    requires id in s.table.entries && |s.table.entries[id].sources| > 0 && s.table.entries[id].assembly.Some?
    ensures |Initiate(c, s, env, id).sent| == |s.sent| + if s.table.entries[id].assembly.value.Whole() then 0 else 1
    ensures s.table.entries[id].assembly.value.Whole() ==>
              Initiate(c, s, env, id).table.entries[id].waiting == s.table.entries[id].waiting
  {
    var a := Addressed(s.table.entries[id], NextTransaction(s.tx));
    BatchExact(a.assembly.value.received, a.cursor);
    hide BatchFrom, Outgoing, EncodeChunkRequest, Bitmap, Fail, SourceOf, Grant, Takes;
  }

  /** Which chunks a turn asks for: of the window where the first missing one from the cursor
      on lies, the lowest missing ones, as many as the controller grants; and the cursor
      comes to stand behind them. */
  lemma AsksOnward(c: Config, s: State, env: Env, id: ID, i: nat)
    requires id in s.table.entries && |s.table.entries[id].sources| > 0 && s.table.entries[id].assembly.Some? && env.sendOk(0)
    requires NextMissing(s.table.entries[id].assembly.value.received, s.table.entries[id].cursor, i)
    ensures var b := Initiate(c, s, env, id).table.entries[id];
            b.waiting.ForChunks? && LowestMissing(s.table.entries[id].assembly.value.received, i, b.wanted, env.batch, b.cursor)
  {
    var a := s.table.entries[id];
    GrantedLowest(a.assembly.value.received, a.cursor, env.batch, i);
    hide BatchFrom, Outgoing, EncodeChunkRequest, Bitmap, Fail, SourceOf, Grant, LowestMissing, NextMissing;
  }

  /** In the same window of eight. */
  predicate Together(i: nat, k: nat) {
    i / WINDOW == k / WINDOW
  }

  /** The lowest missing indices in the window of i, `most` of them or all, and the place
      behind the last one. */
  ghost predicate LowestMissing(received: seq<bool>, i: nat, wanted: set<nat>, most: nat, behind: nat) {
    && (forall k :: k in wanted ==> k < |received| && !received[k] && Together(i, k))
    && (forall j: nat :: j < |received| && !received[j] && Together(i, j) && (j < behind || |wanted| < most) ==> j in wanted)
    && |wanted| <= most && behind > 0 && behind - 1 in wanted && forall k :: k in wanted ==> k < behind
  }

  lemma SameWindow(base: nat, i: nat, k: nat)
    requires base % WINDOW == 0 && base <= i < base + WINDOW
    ensures base <= k < base + WINDOW <==> Together(i, k)
  {}

  lemma GrantShape(received: seq<bool>, start: nat, most: BatchSize)
    requires BatchFrom(received, start).indexes != []
    ensures var grant := Grant(BatchFrom(received, start), most);
            grant != [] && |SetOf(grant)| == |grant| <= most && grant[|grant| - 1] in grant
            && forall k :: k in grant ==> k <= grant[|grant| - 1]
  {
    BatchExact(received, start);
    hide BatchFrom, Takes;
    var grant := Grant(BatchFrom(received, start), most);
    DistinctSetSize(grant);
  }

  lemma GrantLow(received: seq<bool>, start: nat, most: BatchSize, i: nat, j: nat)
    requires NextMissing(received, start, i) && BatchFrom(received, start).indexes != []
    ensures var grant := Grant(BatchFrom(received, start), most);
            && (j in grant ==> j < |received| && !received[j] && Together(i, j))
            && (j < |received| && !received[j] && Together(i, j) && (j < grant[|grant| - 1] || |grant| < most) ==> j in grant)
  {
    BatchWindow(received, start, i);
    BatchExact(received, start);
    var batch := BatchFrom(received, start);
    SameWindow(batch.base, i, j);
    hide BatchFrom, NextMissing, Together;
    var grant := Grant(batch, most);
    assert forall k :: 0 <= k < |grant| ==> grant[k] == batch.indexes[k];
    assert j in grant ==> j in batch.indexes;
    if j < |received| && !received[j] && Together(i, j) && (j < grant[|grant| - 1] || |grant| < most) {
      assert Takes(batch.indexes, j);
      assert grant[|grant| - 1] in batch.indexes;
    }
  }

  ghost predicate Lowest(received: seq<bool>, i: nat, grant: seq<nat>, most: nat)
    requires grant != []
  {
    && (forall j :: j in grant ==> j < |received| && !received[j] && Together(i, j))
    && (forall j: nat :: j < |received| && !received[j] && Together(i, j) && (j < grant[|grant| - 1] || |grant| < most) ==> j in grant)
  }

  lemma LowestAsSet(received: seq<bool>, i: nat, grant: seq<nat>, most: nat)
    requires grant != [] && |SetOf(grant)| == |grant| <= most && Lowest(received, i, grant, most)
    requires grant[|grant| - 1] in grant && forall k :: k in grant ==> k <= grant[|grant| - 1]
    ensures LowestMissing(received, i, SetOf(grant), most, grant[|grant| - 1] + 1)
  {
    hide Together;
  }

  lemma GrantedLowest(received: seq<bool>, start: nat, most: BatchSize, i: nat)
    requires NextMissing(received, start, i)
    ensures var batch := BatchFrom(received, start);
            && batch.indexes != []
            && var grant := Grant(batch, most);
               grant != [] && LowestMissing(received, i, SetOf(grant), most, grant[|grant| - 1] + 1)
  {
    BatchWindow(received, start, i);
    GrantShape(received, start, most);
    hide BatchFrom, Grant, NextMissing, LowestMissing;
    GrantIsLowest(received, start, most, i);
    LowestAsSet(received, i, Grant(BatchFrom(received, start), most), most);
  }

  lemma GrantIsLowest(received: seq<bool>, start: nat, most: BatchSize, i: nat)
    requires NextMissing(received, start, i) && BatchFrom(received, start).indexes != []
    requires Grant(BatchFrom(received, start), most) != []
    ensures Lowest(received, i, Grant(BatchFrom(received, start), most), most)
  {
    var grant := Grant(BatchFrom(received, start), most);
    hide BatchFrom, Grant, NextMissing, Together;
    forall j: nat
      ensures j in grant ==> j < |received| && !received[j] && Together(i, j)
      ensures j < |received| && !received[j] && Together(i, j) && (j < grant[|grant| - 1] || |grant| < most) ==> j in grant
    {
      GrantLow(received, start, most, i, j);
    }
  }

  lemma WindowFits(parts: Parts, base: nat, i: nat)
    requires Storable(parts.manifest) && parts.Valid() && base % WINDOW == 0 && base <= i < |parts.received|
    ensures base + WINDOW <= 0x1_0000
  {}

  // ---- the answers --------------------------------------------------------------------

  /** A packet with an honest chunk of this content. */
  ghost predicate Carries(p: Packet, m: Manifest, content: seq<byte>): (r: bool)
    ensures r ==> DecodeChunk(p.body).Some?
  {
    && Geometry(m) && |content| == m.length && DecodeChunk(p.body).Some?
    && var chunk := DecodeChunk(p.body).value;
       chunk.index < m.chunkCount && chunk.data == Slice(m, content, chunk.index)
  }

  /** The object that another node holds, and the part of it that is asked for. */
  ghost predicate Holds(cs: Config, disk: Disk, ask: ChunkRequest, id: ID, wanted: set<nat>, m: Manifest, content: seq<byte>) {
    && Requests(ask, id, wanted) && Geometry(m) && |content| == m.length && (forall i :: i in wanted ==> i < m.chunkCount)
    && CompleteOn(cs.sha, cs.ed, disk, id) && disk[ObjectContent(id)] == Plain(content)
    && SameGeometry(m, disk[ObjectManifest(id)].manifest)
  }

  lemma ReplyCarries(cs: Config, disk: Disk, ask: ChunkRequest, q: Packet, id: ID, wanted: set<nat>, m: Manifest, content: seq<byte>, bit: nat)
    requires Holds(cs, disk, ask, id, wanted, m, content) && bit < WINDOW && AsksBit(ask, bit)
    ensures var packet := ChunkReply(cs, disk, ask, q, bit);
            packet.Some? && Carries(packet.value, m, content) && DecodeChunk(packet.value.body).value.index == ask.base + bit
  {
    var n := disk[ObjectManifest(id)].manifest;
    assert ask.base + bit in wanted && Geometry(n);
    ReplyIsSlice(cs, disk, ask, q, bit);
    hide CompleteOn, ChunkReply, DecodeChunk, Geometry, Slice, ToBits, Ones;
    SameSlices(m, n, content, ask.base + bit);
  }

  lemma RequestBits(ask: ChunkRequest, id: ID, wanted: set<nat>)
    requires Requests(ask, id, wanted)
    ensures Ones(ToBits(ask.bitmap, WINDOW)) <= MAX_CHUNK_BATCH
    ensures forall i :: i in wanted ==> ask.base <= i < ask.base + WINDOW && AsksBit(ask, i - ask.base)
  {
    hide ToBits, Ones, AsksBit;
  }


  /** Everything asked for is among the answers, and each answer is honest. */
  lemma AnswersCarry(cs: Config, disk: Disk, env: Env, ask: ChunkRequest, q: Packet, id: ID, wanted: set<nat>, m: Manifest, content: seq<byte>)
    requires Holds(cs, disk, ask, id, wanted, m, content)
    ensures var out := ServeBits(cs, disk, env, ask, q, WINDOW).sent;
            (forall p :: p in out ==> Carries(p, m, content) && p.kind == CHUNK && p.source == cs.id && p.destination == q.source
                                      && p.transaction == q.transaction && Encode(p).Some?)
            && forall i :: i in wanted ==> exists p :: p in out && Carries(p, m, content) && DecodeChunk(p.body).value.index == i
  {
    hide Holds, ServeBits, Carries, Encode, DecodeChunk;
    var out := ServeBits(cs, disk, env, ask, q, WINDOW).sent;
    forall p | p in out
      ensures Carries(p, m, content) && p.kind == CHUNK && p.source == cs.id && p.destination == q.source
              && p.transaction == q.transaction && Encode(p).Some? {
      OutCarries(cs, disk, env, ask, q, id, wanted, m, content, p);
    }
    forall i | i in wanted ensures exists p :: p in out && Carries(p, m, content) && DecodeChunk(p.body).value.index == i {
      IndexServed(cs, disk, env, ask, q, id, wanted, m, content, i);
    }
  }

  lemma OutCarries(cs: Config, disk: Disk, env: Env, ask: ChunkRequest, q: Packet, id: ID, wanted: set<nat>, m: Manifest, content: seq<byte>, packet: Packet)
    requires Holds(cs, disk, ask, id, wanted, m, content) && packet in ServeBits(cs, disk, env, ask, q, WINDOW).sent
    ensures Carries(packet, m, content) && packet.kind == CHUNK && packet.source == cs.id && packet.destination == q.source
            && packet.transaction == q.transaction && Encode(packet).Some?
  {
    hide Holds, ServeBits, ChunkReply, Carries, AsksBit, Encode;
    var bit := ServesOnlyBits(cs, disk, env, ask, q, WINDOW, packet);
    ReplyCarries(cs, disk, ask, q, id, wanted, m, content, bit);
    ReplyAddressed(cs, disk, ask, q, bit);
  }

  lemma ReplyAddressed(cs: Config, disk: Disk, ask: ChunkRequest, q: Packet, bit: nat)
    ensures var packet := ChunkReply(cs, disk, ask, q, bit);
            packet.Some? ==>
              packet.value.kind == CHUNK && packet.value.source == cs.id && packet.value.destination == q.source
              && packet.value.transaction == q.transaction && Encode(packet.value).Some?
  {
    hide ReadChunkFrom, EncodeChunk, Encode;
  }

  lemma HoldsRequests(cs: Config, disk: Disk, ask: ChunkRequest, id: ID, wanted: set<nat>, m: Manifest, content: seq<byte>)
    requires Holds(cs, disk, ask, id, wanted, m, content)
    ensures Requests(ask, id, wanted)
  {}

  lemma IndexServed(cs: Config, disk: Disk, env: Env, ask: ChunkRequest, q: Packet, id: ID, wanted: set<nat>, m: Manifest, content: seq<byte>, i: nat)
    requires Holds(cs, disk, ask, id, wanted, m, content) && i in wanted
    ensures exists p :: p in ServeBits(cs, disk, env, ask, q, WINDOW).sent && Carries(p, m, content) && DecodeChunk(p.body).value.index == i
  {
    hide Holds, ServeBits, ChunkReply, Carries, AsksBit, Requests, DecodeChunk, Ones, ToBits;
    HoldsRequests(cs, disk, ask, id, wanted, m, content);
    RequestBits(ask, id, wanted);
    ServesEveryBit(cs, disk, env, ask, q, WINDOW, i - ask.base);
    ReplyCarries(cs, disk, ask, q, id, wanted, m, content, i - ask.base);
    var p := ChunkReply(cs, disk, ask, q, i - ask.base).value;
    assert p in ServeBits(cs, disk, env, ask, q, WINDOW).sent && Carries(p, m, content) && DecodeChunk(p.body).value.index == i;
  }

  /** The node that is asked hears the request and sends its answers; nothing else
      changes there. */
  lemma ServerAnswers(cs: Config, v: State, served: Env, pick: Option<ID>, q: Packet, ask: ChunkRequest)
    requires Encode(q).Some? && q.kind == GET_CHUNKS && q.source != cs.id && q.destination == cs.id != BROADCAST
    requires DecodeChunkRequest(q.body) == Some(ask) && CompleteOn(cs.sha, cs.ed, v.disk, ask.id)
    ensures Step(cs, v, Hear(served, Encode(q).value, pick))
            == v.(sent := v.sent + Sending(ServeBits(cs, v.disk, served, ask, q, WINDOW).sent))
  {
    DecodeEncode(q);
    hide CompleteOn, ServeBits, DecodeChunkRequest, Encode, Decode, PacketHeader;
    ReceivesRequest(cs, v, served, q, pick);
  }

  lemma ReceivesRequest(cs: Config, v: State, served: Env, q: Packet, pick: Option<ID>)
    requires q.kind == GET_CHUNKS && q.source != cs.id && q.destination == cs.id != BROADCAST
    ensures Receive(cs, v, served, q, pick) == ServeChunks(cs, v, served, q)
  {
    hide ServeChunks;
  }

  // ---- the turn -----------------------------------------------------------------------

  /** A selection starts the exchange of the acquisition at its place. */
  lemma SelectedStarts(c: Config, r: State, e: Event, pos: nat)
    requires Inv(c, r) && Selected(c, r, e) == Some(pos)
    ensures var t := Settling(r, e.env);
            && Inv(c, t) && !HasOutstanding(t.table) && t.jobs.active.None?
            && t == r.(table := t.table, jobs := t.jobs, drops := t.drops) && t.table.order == r.table.order
            && pos < |t.table.order| && Ready(t.table, t.table.order[pos], e.env.now)
            && Step(c, r, e) == Initiate(c, t.(table := t.table.(cursor := (pos + 1) % |t.table.order|)), e.env, t.table.order[pos]).(preferReconcile := true)
  {
    hide Inv, InitiateReconcile, Initiate, NextWork, HasOutstanding, ExpireJob, ExpireAcquisitions, Advertise, Ready;
    var t := Settling(r, e.env);
    ExpireAcquisitionsKeeps(c, r, e.env);
    ExpireJobKeeps(c, ExpireAcquisitions(r, e.env), e.env);
    InitiateReconcileKeeps(c, t, e.env);
    OrderStays(r, e.env);
  }

  lemma SelectedOnTicks(c: Config, r: State, e: Event)
    ensures Selected(c, r, e).Some? ==> e.Clock?
  {}

  lemma OrderStays(r: State, env: Env)
    ensures ExpireAcquisitions(r, env).table.order == r.table.order
  {
    hide Expired;
  }

  /** What settling leaves of the entries: the same, or a failed exchange. */
  lemma SettledEntry(r: State, env: Env, other: ID)
    ensures var t := Settling(r, env);
            && (other in t.table.entries <==> other in r.table.entries)
            && (other in r.table.entries ==>
                  t.table.entries[other].assembly == r.table.entries[other].assembly
                  && (t.table.entries[other] == r.table.entries[other] || t.table.entries[other].activeSource == 0))
  {
    hide Backoff;
  }

  /** A turn of an acquisition that has chunks missing asks its next source for some of
      them. */
  lemma TurnAsks(c: Config, r: State, e: Event, pos: nat, id: ID)
    requires Inv(c, r) && Selected(c, r, e) == Some(pos) && e.env.sendOk(0) && id == r.table.order[pos]
    requires id in r.table.entries && r.table.entries[id].assembly.Some? && !r.table.entries[id].assembly.value.Whole()
    ensures var t, asking := Settling(r, e.env), Step(c, r, e);
            && id in t.table.entries && |t.table.entries[id].sources| > 0 && id in asking.table.entries
            && asking.disk == r.disk
            && (forall other :: other != id && other in asking.table.entries ==>
                  other in t.table.entries && asking.table.entries[other] == t.table.entries[other])
            && var b := asking.table.entries[id];
               && b.waiting.ForChunks? && b.assembly == r.table.entries[id].assembly && b.activeSource == SourceOf(t.table.entries[id])
               && b.transaction == NextTransaction(r.tx) && b.deadline == e.env.later + c.responseTimeout
               && |asking.sent| == |r.sent| + 1 && asking.sent[|r.sent|].Some?
               && IsRequest(c, asking.sent[|r.sent|].value, id, b.activeSource, b.transaction, b.wanted)
  {
    hide Inv, AskChunks, SourceOf, Storable, HasOutstanding, Settling, Step, IsRequest, Selected;
    SelectedOnTicks(c, r, e);
    SelectedStarts(c, r, e, pos);
    var t := Settling(r, e.env);
    SettledEntry(r, e.env, id);
    EntryValid(c, t, id);
    EntryStorableHere(c, t, id);
    var turned := t.(table := t.table.(cursor := (pos + 1) % |t.table.order|), tx := NextTransaction(t.tx));
    AskedChunks(c, turned, e.env, id, Addressed(t.table.entries[id], NextTransaction(t.tx)));
  }

  lemma EntryStorableHere(c: Config, s: State, id: ID)
    requires Inv(c, s) && id in s.table.entries && s.table.entries[id].assembly.Some?
    ensures Storable(s.table.entries[id].assembly.value.manifest)
  {
    EntryValid(c, s, id);
    hide Inv, Storable;
  }

  // ---- the whole exchange -------------------------------------------------------------

  /** The content is complete at the node that is asked, with the same chunks. */
  ghost predicate Offers(cs: Config, v: State, id: ID, m: Manifest, content: seq<byte>) {
    && CompleteOn(cs.sha, cs.ed, v.disk, id) && v.disk[ObjectContent(id)] == Plain(content)
    && SameGeometry(m, v.disk[ObjectManifest(id)].manifest)
  }

  /** This packet was heard and could be stored. */
  ghost predicate Arrives(events: seq<Event>, k: nat, p: Packet)
    requires k <= |events|
  {
    exists i :: 1 <= i < k && events[i].Hear? && Encode(p) == Some(events[i].data) && events[i].env.write(0) == Written
  }

  lemma ArrivedLands(c: Config, events: seq<Event>, k: nat, p: Packet, source: NodeID, tx: U16)
    requires 1 <= k <= |events| && Arrives(events, k, p)
    requires p.kind == CHUNK && p.source == source != c.id && p.transaction == tx && p.destination == c.id != BROADCAST
    requires DecodeChunk(p.body).Some?
    ensures DecodeChunk(p.body).value.index as nat in Landed(c, events[1..k], source, tx)
  {
    var i :| 1 <= i < k && events[i].Hear? && Encode(p) == Some(events[i].data) && events[i].env.write(0) == Written;
    DecodeEncode(p);
    hide Decode, DecodeChunk, PacketHeader;
    assert events[1..k][i - 1] == events[i];
    assert IsAnswer(c, events[i], source, tx) && Index(events[i]) == DecodeChunk(p.body).value.index;
  }

  /** The node that was asked answers with all that was asked for. */
  lemma AskedAnswers(c: Config, q: Packet, id: ID, tx: U16, wanted: set<nat>, m: Manifest, content: seq<byte>,
                     cs: Config, v: State, served: Env, pick: Option<ID>) returns (out: seq<Packet>)
    requires IsRequest(c, q, id, cs.id, tx, wanted) && cs.id != c.id && cs.id != BROADCAST
    requires Offers(cs, v, id, m, content) && Geometry(m) && |content| == m.length && forall i :: i in wanted ==> i < m.chunkCount
    ensures Step(cs, v, Hear(served, Encode(q).value, pick)) == v.(sent := v.sent + Sending(out))
    ensures forall p :: p in out ==> Carries(p, m, content) && p.kind == CHUNK && p.source == cs.id && p.destination == c.id
                                     && p.transaction == tx && Encode(p).Some?
    ensures forall i :: i in wanted ==> exists p :: p in out && Carries(p, m, content) && DecodeChunk(p.body).value.index == i
  {
    hide CompleteOn, ServeBits, Carries, Geometry, Encode, DecodeChunk, DecodeChunkRequest, Step, Requests;
    var ask := DecodeChunkRequest(q.body).value;
    assert ask.id == id by { RequestsID(ask, id, wanted); }
    ServerAnswers(cs, v, served, pick, q, ask);
    AnswersCarry(cs, v.disk, served, ask, q, id, wanted, m, content);
    out := ServeBits(cs, v.disk, served, ask, q, WINDOW).sent;
  }

  lemma RequestsID(ask: ChunkRequest, id: ID, wanted: set<nat>)
    requires Requests(ask, id, wanted)
    ensures ask.id == id
  {}

  /** The first event is a turn of this acquisition, which asks a node that has the content
      complete. */
  ghost predicate TurnTo(c: Config, states: seq<State>, events: seq<Event>, pos: nat, id: ID, content: seq<byte>, cs: Config, v: State) {
    && Run(c, states, events) && events != [] && Inv(c, states[0])
    && Selected(c, states[0], events[0]) == Some(pos) && events[0].env.sendOk(0) && pos < |states[0].table.order| && id == states[0].table.order[pos]
    && Faithful(c, states[0], id, content) && !states[0].table.entries[id].assembly.value.Whole()
    && id in Settling(states[0], events[0].env).table.entries && |Settling(states[0], events[0].env).table.entries[id].sources| > 0
    && cs.id == SourceOf(Settling(states[0], events[0].env).table.entries[id]) && cs.id != c.id && cs.id != BROADCAST && c.id != BROADCAST
    && Offers(cs, v, id, states[0].table.entries[id].assembly.value.manifest, content)
  }

  /** An exchange within the first k events: that turn; no other acquisition was asked under
      the next number at that source; what is heard of the content is honest, the deadline
      does not pass, and whatever the node that is asked answers is heard and stored. */
  ghost predicate Exchanged(c: Config, states: seq<State>, events: seq<Event>, k: nat, pos: nat, id: ID, content: seq<byte>,
                            cs: Config, v: State, served: Env, pick: Option<ID>) {
    && TurnTo(c, states, events, pos, id, content, cs, v) && 1 <= k < |states|
    && Sole(states[0].table, id, cs.id, NextTransaction(states[0].tx))
    && (forall i :: 1 <= i < k ==>
          HonestSources(states[i], events[i], id, content)
          && (events[i].Clock? ==> events[i].env.now <= events[0].env.later + c.responseTimeout))
    && (|states[1].sent| > 0 && states[1].sent[|states[1].sent| - 1].Some? && Encode(states[1].sent[|states[1].sent| - 1].value).Some? ==>
          var heard := Step(cs, v, Hear(served, Encode(states[1].sent[|states[1].sent| - 1].value).value, pick));
          forall n, p :: |v.sent| <= n < |heard.sent| && heard.sent[n] == Some(p) ==> Arrives(events, k, p))
  }

  /** A whole exchange between two nodes. A turn asks the source whose turn it is; if that
      node has the content complete, it hears the request and answers it; and in every
      run that follows in which each answer is heard and stored before the deadline, all
      that was asked for arrives, or the content is complete. No other acquisition may
      have been asked under the next number at that source. */
  lemma FullExchange(c: Config, states: seq<State>, events: seq<Event>, k: nat, pos: nat, id: ID, content: seq<byte>,
                     cs: Config, v: State, served: Env, pick: Option<ID>)
    requires Exchanged(c, states, events, k, pos, id, content, cs, v, served, pick)
    ensures |states[1].sent| == |states[0].sent| + 1 && states[1].sent[|states[0].sent|].Some? && id in states[1].table.entries
    ensures var wanted := states[1].table.entries[id].wanted;
            && IsRequest(c, states[1].sent[|states[0].sent|].value, id, cs.id, NextTransaction(states[0].tx), wanted)
            && wanted != {} && wanted * Got(states[0].table.entries[id].assembly.value) == {}
            && Gained(c, states, k, id, content, Got(states[0].table.entries[id].assembly.value), wanted)
  {
    hide Inv, Step, Selected, Settling, SourceOf, Possible, IsRequest, Requests, Offers, Agrees, Describes, HonestSources, Landed, Got, Gained, Arrives,
         Sole, Storable, Encode, Carries, DecodeChunk;
    var r, e := states[0], events[0];
    assert Possible(c, r, e) && states[1] == Step(c, r, e);
    TurnAsks(c, r, e, pos, id);
    var asking := states[1];
    FaithfulFrom(c, r, asking, id, content);
    StepKeeps(c, r, e);
    WantedMissing(c, asking, id);
    SelectedOnTicks(c, r, e);
    SoleAfter(c, r, e, asking, id, cs.id);
    FaithfulParts(c, asking, id, content);
    var b := asking.table.entries[id];
    var m := b.assembly.value.manifest;
    var q := asking.sent[|r.sent|].value;
    RequestEncodes(c, q, id, cs.id, b.transaction, b.wanted);
    var out := AskedAnswers(c, q, id, b.transaction, b.wanted, m, content, cs, v, served, pick);
    forall p | p in out ensures Arrives(events, k, p) {
      var n :| 0 <= n < |out| && out[n] == p;
      assert (v.sent + Sending(out))[|v.sent| + n] == Some(p);
    }
    forall i | i in b.wanted ensures i in Landed(c, events[1..k], cs.id, b.transaction) {
      var p :| p in out && Carries(p, m, content) && DecodeChunk(p.body).value.index == i;
      ArrivedLands(c, events, k, p, cs.id, b.transaction);
    }
    RestOfRun(c, states, events);
    assert events[1..][..k - 1] == events[1..k];
    ExchangeShrinks(c, states[1..], events[1..], k - 1, id, content);
    GainedLater(c, states, k, id, content, Got(b.assembly.value), b.wanted);
  }

  lemma RequestEncodes(c: Config, q: Packet, id: ID, destination: NodeID, tx: U16, wanted: set<nat>)
    requires IsRequest(c, q, id, destination, tx, wanted)
    ensures Encode(q).Some?
  {}

  lemma GainedLater(c: Config, states: seq<State>, k: nat, id: ID, content: seq<byte>, before: set<nat>, wanted: set<nat>)
    requires 1 <= k < |states| && Gained(c, states[1..], k - 1, id, content, before, wanted)
    ensures Gained(c, states, k, id, content, before, wanted)
  {
    hide Faithful, Completed, Got;
    if j :| 0 <= j < k - 1 && Completed(c, states[1..][j], states[1..][j + 1], id, content) {
      assert Completed(c, states[j + 1], states[j + 2], id, content);
    }
  }

  /** Settling only makes fewer acquisitions match. */
  lemma SoleAfter(c: Config, r: State, e: Event, asking: State, id: ID, source: NodeID)
    requires e.Clock? && Sole(r.table, id, source, NextTransaction(r.tx)) && source != 0
    requires forall other :: other != id && other in asking.table.entries ==>
               other in Settling(r, e.env).table.entries && asking.table.entries[other] == Settling(r, e.env).table.entries[other]
    ensures Sole(asking.table, id, source, NextTransaction(r.tx))
  {
    hide Settling;
    forall other | other in asking.table.entries && asking.table.entries[other].transaction == NextTransaction(r.tx)
                   && asking.table.entries[other].activeSource == source
      ensures other == id {
      SettledEntry(r, e.env, other);
    }
  }
}
