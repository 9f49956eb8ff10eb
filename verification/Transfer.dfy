/** A publication on its way from one node to another: what a complete object
    answers, what lost, repeated and reordered answers do to an assembly, and what is
    committed in the end. */
module Transfer {
  import opened Bytes
  import opened Seqs
  import opened Radix
  import opened Manifests
  import opened Assemblies
  import opened Stores
  import opened NodeProtocol
  import opened Scheduler
  import opened NodeState
  import opened NodeSteps
  import opened NodeInvariants
  import opened NodeSafety
  import opened NodeOutcomes
  import opened NodeFiling

  // ---- serving ------------------------------------------------------------------------

  /** Bit b of a request asks for index base + b. */
  ghost predicate AsksBit(asked: ChunkRequest, bit: nat) {
    bit < WINDOW && ToBits(asked.bitmap, WINDOW)[bit]
  }

  lemma {:induction false} OnesConcat(a: seq<bool>, b: seq<bool>)
    ensures Ones(a + b) == Ones(a) + Ones(b)
  {
    if a == [] {
      assert a + b == b;
    } else {
      OnesConcat(a[1..], b);
      assert (a + b)[1..] == a[1..] + b;
    }
  }

  /** The grant is never used up before the request is: at most four bits are set. */
  lemma {:induction false} ServesEveryBit(c: Config, disk: Disk, env: Env, asked: ChunkRequest, p: Packet, n: nat, bit: nat)
    requires n <= WINDOW && Ones(ToBits(asked.bitmap, WINDOW)) <= MAX_CHUNK_BATCH
    ensures ServeBits(c, disk, env, asked, p, n).remaining + Ones(ToBits(asked.bitmap, WINDOW)[..n]) >= MAX_CHUNK_BATCH
    ensures bit < n && AsksBit(asked, bit) && ChunkReply(c, disk, asked, p, bit).Some? ==>
              ChunkReply(c, disk, asked, p, bit).value in ServeBits(c, disk, env, asked, p, n).sent
  {
    hide ChunkReply, ToBits, Ones;
    var bits := ToBits(asked.bitmap, WINDOW);
    if n > 0 {
      ServesEveryBit(c, disk, env, asked, p, n - 1, bit);
      assert bits[..n] == bits[..n - 1] + [bits[n - 1]];
      OnesConcat(bits[..n - 1], [bits[n - 1]]);
      assert bits == bits[..n] + bits[n..];
      OnesConcat(bits[..n], bits[n..]);
      assert Ones([bits[n - 1]]) == if bits[n - 1] then 1 else 0 by { OneBit(bits[n - 1]); }
      if AsksBit(asked, n - 1) {
        assert ServeBits(c, disk, env, asked, p, n - 1).remaining > 0;
      }
    } else {
      assert Ones(bits[..0]) == 0 by { NoBit(bits); }
    }
  }

  /** Nothing is served that was not asked for. */
  lemma {:induction false} ServesOnlyBits(c: Config, disk: Disk, env: Env, asked: ChunkRequest, p: Packet, n: nat, packet: Packet) returns (bit: nat)
    requires n <= WINDOW && packet in ServeBits(c, disk, env, asked, p, n).sent
    ensures bit < n && AsksBit(asked, bit) && ChunkReply(c, disk, asked, p, bit) == Some(packet)
  {
    hide ChunkReply, ToBits;
    if packet in ServeBits(c, disk, env, asked, p, n - 1).sent {
      bit := ServesOnlyBits(c, disk, env, asked, p, n - 1, packet);
    } else {
      bit := n - 1;
    }
  }

  lemma OneBit(b: bool)
    ensures Ones([b]) == if b then 1 else 0
  {}

  lemma NoBit(bits: seq<bool>)
    ensures Ones(bits[..0]) == 0
  {}

  /** What a complete object says to one bit of a request: its slice at that index. */
  lemma ReplyIsSlice(c: Config, disk: Disk, asked: ChunkRequest, p: Packet, bit: nat)
    requires CompleteOn(c.sha, c.ed, disk, asked.id) && asked.base + bit < 0x1_0000
    ensures var m, content := disk[ObjectManifest(asked.id)].manifest, disk[ObjectContent(asked.id)].bytes;
            var index := asked.base + bit;
            if index >= m.chunkCount then ChunkReply(c, disk, asked, p, bit).None?
            else
              var packet := ChunkReply(c, disk, asked, p, bit);
              && packet.Some? && packet.value.kind == CHUNK && packet.value.source == c.id
              && packet.value.destination == p.source && packet.value.transaction == p.transaction
              && DecodeChunk(packet.value.body) == Some(ChunkData(index, Slice(m, content, index)))
  {
    var m, content := disk[ObjectManifest(asked.id)].manifest, disk[ObjectContent(asked.id)].bytes;
    var index := asked.base + bit;
    ReadChunkSlice(c.sha, c.ed, disk, asked.id, index);
    hide CompleteOn, ReadChunkFrom, Slice, PacketHeader, ToLE;
    if index < m.chunkCount {
      ChunkBounds(m, index);
      var chunk := ChunkData(index, Slice(m, content, index));
      ChunkExact(EncodeChunk(chunk).value, chunk);
    }
  }

  /** A node answers about complete objects only; on a filed disk their IDs are those of
      their contents. */
  lemma ServesOnlyComplete(c: Config, s: State, env: Env, p: Packet, pick: Option<ID>)
    requires p.kind == GET_MANIFEST || p.kind == GET_SIGNATURE || p.kind == GET_CHUNKS
    requires Receive(c, s, env, p, pick) != s
    ensures var asked := if p.kind == GET_CHUNKS
                         then if DecodeChunkRequest(p.body).Some? then Some(DecodeChunkRequest(p.body).value.id) else None
                         else DecodeIDBody(p.body);
            asked.Some? && CompleteOn(c.sha, c.ed, s.disk, asked.value)
            && (Filed(s.disk) ==> asked.value == ContentID(c, s.disk, asked.value))
            && Receive(c, s, env, p, pick) == s.(sent := Receive(c, s, env, p, pick).sent)
  {
    hide CompleteOn, DecodeChunkRequest, ServeBits, ReadManifest, Reply, EncodeSignature, Manifests.EncodeManifest, ContentID, Filed;
    forall id | CompleteOn(c.sha, c.ed, s.disk, id) && Filed(s.disk) ensures id == ContentID(c, s.disk, id) {
      FiledContent(c, s.disk, id);
    }
  }

  /** Manifest and signature travel in two packets. What a complete object answers puts
      its manifest together again, exactly unless it claims the signed version
      without a signature. */
  lemma ManifestTravels(sha: Hash, ed: Verifier, disk: Disk, id: ID)
    requires CompleteOn(sha, ed, disk, id) && Filed(disk)
    ensures var m := disk[ObjectManifest(id)].manifest;
            var body := Manifests.EncodeManifest(m);
            && body.Some? && |body.value| <= MAX_BODY
            && Manifests.DecodeManifest(id, body.value) == Some(Base(m))
            && DecodeSignature(EncodeSignature(m.signature)) == Some(m.signature)
            && (Signed(Base(m), m.signature) == m <==> (m.version == SIGNED_MANIFEST_VERSION ==> m.signature.Some?))
  {
    var m := disk[ObjectManifest(id)].manifest;
    DecodeOfEncode(m);
    SignatureExact(EncodeSignature(m.signature), m.signature);
    hide Body, Manifests.DecodeManifest, EncodeSignature, DecodeSignature;
  }

  /** A complete object whose manifest claims the signed version without a signature: it
      arrives as version 1. */
  lemma UnsignedVersionTwo(sha: Hash, ed: Verifier) returns (disk: Disk, id: ID)
    ensures CompleteOn(sha, ed, disk, id) && Filed(disk)
    ensures var m := disk[ObjectManifest(id)].manifest;
            m.version == SIGNED_MANIFEST_VERSION && m.signature == None && Signed(Base(m), m.signature) == m.(version := 1) != m
  {
    id := sha([7])[..16];
    disk := OneObject(sha, SIGNED_MANIFEST_VERSION, id);
    Misfiled(sha, ed, SIGNED_MANIFEST_VERSION, id);
  }

  // ---- what an honest chunk does ------------------------------------------------------

  /** The acquisition works on a description of the content under its own ID, and
      whatever it has is the content's. */
  ghost predicate Faithful(c: Config, s: State, id: ID, content: seq<byte>) {
    && id in s.table.entries && s.table.entries[id].assembly.Some?
    && var parts := s.table.entries[id].assembly.value;
       parts.manifest.id == id && Describes(c.sha, parts.manifest, content) && Agrees(parts, content)
  }

  /** The content is on disk, complete. */
  ghost predicate Delivered(c: Config, s: State, id: ID, content: seq<byte>) {
    CompleteOn(c.sha, c.ed, s.disk, id) && s.disk[ObjectContent(id)] == Plain(content)
  }

  lemma AddKeepsAgreement(p: Parts, content: seq<byte>, index: nat, data: seq<byte>)
    requires Geometry(p.manifest) && |content| == p.manifest.length && Agrees(p, content)
    requires index < p.manifest.chunkCount ==> data == Slice(p.manifest, content, index)
    requires AddChunk(p, index, data).Ok?
    ensures Agrees(AddChunk(p, index, data).value, content)
  {
    hide Geometry, Slice;
  }

  /** Honest chunks never add up to a wrong hash. */
  lemma FaithfulWhole(sha: Hash, p: Parts, content: seq<byte>)
    requires Describes(sha, p.manifest, content) && Agrees(p, content) && p.Whole()
    ensures ContentOf(sha, p) == Ok(content)
  {
    WholeJoins(p, content);
  }

  lemma FinishFaithful(c: Config, s: State, env: Env, id: ID, a: Acquisition, parts: Assembled, w: seq<WriteResult>,
                       spoiled: Disk -> (Disk, Option<Assembled>), content: seq<byte>)
    requires |w| == 3 && id in s.table.entries && parts.manifest.id == id && Storable(parts.manifest)
    requires Describes(c.sha, parts.manifest, content) && Agrees(parts, content) && parts.Whole()
    ensures var t := Finish(c, s, env, id, a, parts, w, spoiled);
            if id in t.table.entries then Faithful(c, t, id, content) else Delivered(c, t, id, content)
  {
    FaithfulWhole(c.sha, parts, content);
    var (disk, r) := CommitOn(c.sha, c.ed, s.disk, parts, w, env.order);
    if r.Ok? {
      CommitCompletes(c.sha, c.ed, s.disk, parts, w, env.order);
    }
    CommitErrors(c.sha, c.ed, s.disk, parts, w, env.order, content);
    hide CommitOn, CompleteOn, Describes, Agrees, Storable, Refresh, Settle, Joined;
    assert Joined(parts.chunks) == content;
    SettleRemoves(Refresh(c, s.(disk := disk), env), id);
  }

  lemma SettleRemoves(s: State, id: ID)
    ensures id !in Settle(s, id, Committed).table.entries && Settle(s, id, Committed).disk == s.disk
  {
    hide RemoveFirst;
  }

  lemma CommitErrors(sha: Hash, ed: Verifier, disk: Disk, p: Parts, w: seq<WriteResult>, order: seq<FilePath>, content: seq<byte>)
    requires |w| == 3 && ContentOf(sha, p) == Ok(content)
    ensures CommitOn(sha, ed, disk, p, w, order).1 != Err(WrongHash)
    ensures Joined(p.chunks) == content
  {
    hide SignatureHolds, PublishOn, RemoveOn, HasPartialFiles;
  }

  /** A chunk for this acquisition carries its slice of the content. */
  ghost predicate HonestChunk(s: State, p: Packet, pick: Option<ID>, id: ID, content: seq<byte>) {
    p.kind == CHUNK && pick == Some(id) && id in s.table.entries && s.table.entries[id].assembly.Some? && DecodeChunk(p.body).Some? ==>
      var m, chunk := s.table.entries[id].assembly.value.manifest, DecodeChunk(p.body).value;
      Geometry(m) && |content| == m.length && chunk.index < m.chunkCount ==> chunk.data == Slice(m, content, chunk.index)
  }

  lemma TakeFaithful(c: Config, s: State, env: Env, id: ID, a: Acquisition, chunk: ChunkData, content: seq<byte>)
    requires Inv(c, s) && Faithful(c, s, id, content) && s.table.entries[id] == a && a.waiting.ForChunks? && chunk.index in a.wanted
    requires var m := a.assembly.value.manifest; chunk.index < m.chunkCount ==> chunk.data == Slice(m, content, chunk.index)
    ensures var t := TakeChunk(c, s, env, id, a, chunk);
            if id in t.table.entries then Faithful(c, t, id, content) else Delivered(c, t, id, content)
  {
    EntryValid(c, s, id);
    var parts := a.assembly.value;
    if AddChunk(parts, chunk.index, chunk.data).Ok? {
      AddKeepsAgreement(parts, content, chunk.index, chunk.data);
    }
    var (disk, added) := AddOn(s.disk, parts, chunk.index, chunk.data, env.write(0));
    if added.Ok? {
      var b := a.(assembly := Some(added.value), wanted := a.wanted - {chunk.index});
      hide Inv, Describes, Agrees, AddOn, Finish, Restarted, Storable, CompleteOn, Geometry, Slice, AddChunk, AcquisitionValid;
      if added.value.Whole() {
        FinishFaithful(c, s.(disk := disk), env, id, b, added.value, [env.write(1), env.write(2), env.write(3)],
                       d => Restarted(d, added.value, env), content);
      }
    }
  }

  lemma ChunkFaithful(c: Config, s: State, env: Env, p: Packet, pick: Option<ID>, id: ID, content: seq<byte>)
    requires Inv(c, s) && Faithful(c, s, id, content) && p.kind == CHUNK && HonestChunk(s, p, pick, id, content)
    ensures var t := AcceptChunk(c, s, env, p, pick);
            if id in t.table.entries then Faithful(c, t, id, content) else Delivered(c, t, id, content)
  {
    hide Inv, DecodeChunk, TakeChunk, Slice, Agrees, CompleteOn, RemoveFirst, Inventory;
    if pick == Some(id) && DecodeChunk(p.body).Some? {
      var a, chunk := s.table.entries[id], DecodeChunk(p.body).value;
      if a.waiting.ForChunks? && chunk.index in a.wanted {
        TakeFaithful(c, s, env, id, a, chunk, content);
      }
    }
  }
}
