/** What the answers to a request for chunks bring, through the node's own choice of the
    acquisition that a reply belongs to. */
module Demultiplexer {
  import opened Bytes
  import opened Seqs
  import opened Radix
  import opened Manifests
  import opened Assemblies
  import opened Stores
  import opened NodeProtocol
  import opened Scheduler
  import opened NodeState
  import opened NodeSteps
  import opened NodeInvariants
  import opened NodeSafety
  import opened NodeFrames
  import opened NodeOutcomes
  import opened Transfer
  import opened TransferRuns

  // ---- what has arrived ---------------------------------------------------------------

  ghost function Got(p: Parts): set<nat> {
    set i | 0 <= i < |p.received| && p.received[i]
  }

  lemma GotAfter(p: Parts, index: nat, data: seq<byte>)
    requires p.Valid() && AddChunk(p, index, data).Ok?
    ensures Got(AddChunk(p, index, data).value) == Got(p) + {index}
  {}

  lemma WholeGot(p: Parts, wanted: set<nat>)
    requires p.Whole() && forall i :: i in wanted ==> i < |p.received|
    ensures wanted <= Got(p)
  {}

  /** What was asked for is missing, and something was asked for. */
  lemma WantedMissing(c: Config, s: State, id: ID)
    requires Inv(c, s) && id in s.table.entries && s.table.entries[id].waiting.ForChunks?
    ensures var a := s.table.entries[id];
            && a.wanted != {} && a.assembly.Some? && a.wanted * Got(a.assembly.value) == {} && !a.assembly.value.Whole()
            && |a.assembly.value.received| == a.assembly.value.manifest.chunkCount
            && a.activeSource != 0 && a.transaction == s.tx
            && forall i :: i in a.wanted ==> i < |a.assembly.value.received|
  {
    EntryValid(c, s, id);
    ExchangeNumber(c, s, id);
    hide Inv;
    var a := s.table.entries[id];
    var i :| i in a.wanted;
    assert !a.assembly.value.received[i];
  }

  lemma ExchangeNumber(c: Config, s: State, id: ID)
    requires Inv(c, s) && Waits(s.table, id)
    ensures s.table.entries[id].transaction == s.tx && s.jobs.active.None? && forall other :: Waits(s.table, other) ==> other == id
  {}

  // ---- answers ------------------------------------------------------------------------

  /** A chunk for this node from the source asked, under the number asked with. */
  ghost predicate IsAnswer(c: Config, e: Event, source: NodeID, tx: U16): (r: bool)
    ensures r ==> e.Hear? && Decode(e.data).Some? && Decode(e.data).value.kind == CHUNK && DecodeChunk(Decode(e.data).value.body).Some?
  {
    && e.Hear? && Decode(e.data).Some?
    && var p := Decode(e.data).value;
       && p.kind == CHUNK && p.source == source != c.id && p.transaction == tx && p.destination == c.id != BROADCAST
       && DecodeChunk(p.body).Some?
  }

  function Index(e: Event): nat
    requires e.Hear? && Decode(e.data).Some? && DecodeChunk(Decode(e.data).value.body).Some?
  {
    DecodeChunk(Decode(e.data).value.body).value.index
  }

  /** The index of an answer that could be stored. */
  ghost function LandedBy(c: Config, e: Event, source: NodeID, tx: U16): set<nat> {
    if IsAnswer(c, e, source, tx) && e.env.write(0) == Written then {Index(e)} else {}
  }

  /** The indices of the answers among the events that could be stored. */
  ghost function Landed(c: Config, events: seq<Event>, source: NodeID, tx: U16): set<nat> {
    set e | e in events && IsAnswer(c, e, source, tx) && e.env.write(0) == Written :: Index(e)
  }

  lemma LandedSnoc(c: Config, events: seq<Event>, e: Event, source: NodeID, tx: U16)
    ensures Landed(c, events + [e], source, tx)
            == Landed(c, events, source, tx) + LandedBy(c, e, source, tx)
  {
    hide IsAnswer, Decode, DecodeChunk;
    var all := events + [e];
    assert forall x :: x in all <==> x in events || x == e;
  }

  // ---- another acquisition with the same number and source ----------------------------

  /** No other acquisition was last asked under this number at this source. */
  ghost predicate Sole(t: Table, id: ID, source: NodeID, tx: U16) {
    forall other :: other in t.entries && t.entries[other].transaction == tx && t.entries[other].activeSource == source ==> other == id
  }

  lemma SoleChoice(c: Config, s: State, e: Event, id: ID, source: NodeID, tx: U16)
    requires Possible(c, s, e) && IsAnswer(c, e, source, tx) && Sole(s.table, id, source, tx)
    requires id in s.table.entries && s.table.entries[id].transaction == tx && s.table.entries[id].activeSource == source
    ensures e.pick == Some(id)
  {
    hide Decode, DecodeChunk;
    assert RepliesTo(s.table, Decode(e.data).value, id);
  }

  // ---- one event of an exchange -------------------------------------------------------

  /** The request stands: its answers are waited for, and what has landed has arrived. */
  ghost predicate Stands(s: State, id: ID, source: NodeID, tx: U16, deadline: Time, wanted: set<nat>, landed: set<nat>)
    requires id in s.table.entries && s.table.entries[id].assembly.Some?
  {
    var a := s.table.entries[id];
    && a.waiting.ForChunks? && a.activeSource == source && a.transaction == tx && a.deadline == deadline
    && wanted * landed <= Got(a.assembly.value) && a.wanted == wanted - landed && Sole(s.table, id, source, tx)
  }

  /** What had arrived is still there; and all that was asked for is, or the request
      stands. */
  ghost predicate Ongoing(c: Config, s: State, id: ID, content: seq<byte>, source: NodeID, tx: U16, deadline: Time,
                          before: set<nat>, wanted: set<nat>, landed: set<nat>) {
    && Faithful(c, s, id, content)
    && before <= Got(s.table.entries[id].assembly.value)
    && (forall i :: i in wanted ==> i < |s.table.entries[id].assembly.value.received|)
    && (wanted <= Got(s.table.entries[id].assembly.value) || Stands(s, id, source, tx, deadline, wanted, landed))
  }

  lemma HonestFits(p: Parts, index: nat, data: seq<byte>, content: seq<byte>)
    requires p.Valid() && Geometry(p.manifest) && |content| == p.manifest.length && Agrees(p, content)
    requires index < p.manifest.chunkCount && data == Slice(p.manifest, content, index)
    ensures AddChunk(p, index, data).Ok?
  {
    ChunkBounds(p.manifest, index);
  }

  lemma FaithfulParts(c: Config, s: State, id: ID, content: seq<byte>)
    requires Faithful(c, s, id, content)
    ensures var p := s.table.entries[id].assembly.value;
            p.Valid() && Geometry(p.manifest) && |content| == p.manifest.length && Describes(c.sha, p.manifest, content) && Agrees(p, content)
  {}

  /** Taking a wanted chunk that fits, if it can be stored. */
  lemma TakeAdds(c: Config, s: State, env: Env, id: ID, a: Acquisition, chunk: ChunkData)
    requires id in s.table.entries && s.table.entries[id] == a && a.assembly.Some?
    requires AddChunk(a.assembly.value, chunk.index, chunk.data).Ok? && !a.assembly.value.received[chunk.index]
    requires ContentOf(c.sha, AddChunk(a.assembly.value, chunk.index, chunk.data).value) != Err(HashMismatch)
    ensures var q := AddChunk(a.assembly.value, chunk.index, chunk.data).value;
            var t := TakeChunk(c, s, env, id, a, chunk);
            if env.write(0) != Written then t.table == s.table
            else if q.Whole() then id in t.table.entries ==> t.table.entries[id].assembly == Some(q)
            else
              var b := a.(assembly := Some(q), wanted := a.wanted - {chunk.index});
              t.table == s.table.(entries := s.table.entries[id := if b.wanted == {} then Progressed(b, env) else b])
  {
    hide Finish, Restarted, Joined, OwnStep;
    var q := AddChunk(a.assembly.value, chunk.index, chunk.data).value;
    if env.write(0) == Written && q.Whole() {
      var disk := AddOn(s.disk, a.assembly.value, chunk.index, chunk.data, env.write(0)).0;
      FinishHolds(c, s.(disk := disk), env, id, a.(assembly := Some(q), wanted := a.wanted - {chunk.index}), q,
                  [env.write(1), env.write(2), env.write(3)], d => Restarted(d, q, env));
    }
  }

  lemma FinishHolds(c: Config, s: State, env: Env, id: ID, a: Acquisition, parts: Assembled, w: seq<WriteResult>,
                    spoiled: Disk -> (Disk, Option<Assembled>))
    requires |w| == 3 && id in s.table.entries && parts.Whole() && ContentOf(c.sha, parts).Ok?
    ensures var t := Finish(c, s, env, id, a, parts, w, spoiled);
            id in t.table.entries ==> t.table.entries[id].assembly == Some(parts)
  {
    hide CommitOn, OwnStep, Joined, Inventory, ContentOf;
    CommitErrors(c.sha, c.ed, s.disk, parts, w, env.order, ContentOf(c.sha, parts).value);
    var (disk, _) := CommitOn(c.sha, c.ed, s.disk, parts, w, env.order);
    hide RemoveEntry;
    SettleRemoves(Refresh(c, s.(disk := disk), env), id);
    FailSame(a.(assembly := Some(parts)), env);
  }

  lemma NotMismatched(c: Config, s: State, id: ID, content: seq<byte>, index: nat, data: seq<byte>)
    requires Faithful(c, s, id, content)
    requires var p := s.table.entries[id].assembly.value;
             && AddChunk(p, index, data).Ok?
             && (index < p.manifest.chunkCount ==>
                   Geometry(p.manifest) && |content| == p.manifest.length && data == Slice(p.manifest, content, index))
    ensures ContentOf(c.sha, AddChunk(s.table.entries[id].assembly.value, index, data).value) != Err(HashMismatch)
  {
    hide Slice, Geometry, Joined;
    FaithfulParts(c, s, id, content);
    var p := s.table.entries[id].assembly.value;
    AddKeepsAgreement(p, content, index, data);
    var q := AddChunk(p, index, data).value;
    if q.Whole() {
      FaithfulWhole(c.sha, q, content);
    }
  }

  /** While a node waits for chunks, nothing but a chunk for that acquisition and its
      deadline touch the table. */
  lemma WaitingRests(c: Config, s: State, e: Event, id: ID)
    requires Inv(c, s) && id in s.table.entries && s.table.entries[id].waiting.ForChunks?
    requires e.Clock? ==> e.env.now <= s.table.entries[id].deadline
    requires e.Hear? && Decode(e.data).Some? ==> e.pick != Some(id) || Decode(e.data).value.kind != CHUNK
    ensures Step(c, s, e).table == s.table
  {
    hide Inv, Receive, Tick, Decode;
    ExchangeNumber(c, s, id);
    EntryAssembly(c, s, id);
    match e
    case Hear(env, data, pick) =>
      if Decode(data).Some? {
        HearingRests(c, s, env, Decode(data).value, pick, id);
      }
    case Clock(env) => TickRests(c, s, env, id);
    case Outside(_) =>
  }

  lemma EntryAssembly(c: Config, s: State, id: ID)
    requires Inv(c, s) && id in s.table.entries && s.table.entries[id].waiting.ForChunks?
    ensures s.table.entries[id].assembly.Some?
  {
    EntryValid(c, s, id);
    hide Inv;
  }

  lemma HearingRests(c: Config, s: State, env: Env, p: Packet, pick: Option<ID>, id: ID)
    requires Inv(c, s) && id in s.table.entries && s.table.entries[id].waiting.ForChunks? && s.table.entries[id].assembly.Some?
    requires s.jobs.active.None? && forall other :: Waits(s.table, other) ==> other == id
    requires pick != Some(id) || p.kind != CHUNK
    ensures Receive(c, s, env, p, pick).table == s.table
  {
    hide Inv, RootSummary, AcceptSummary, ServeManifest, ServeSignature, ServeSummary, ServeChunks, AcceptManifest, AcceptSignature,
         AcceptChunk, OwnStep, DecodeLeaf, ConsiderAll;
    PastManifest(c, s, env, p, id);
  }

  lemma TickRests(c: Config, s: State, env: Env, id: ID)
    requires id in s.table.entries && s.table.entries[id].waiting.ForChunks? && env.now <= s.table.entries[id].deadline
    requires forall other :: Waits(s.table, other) ==> other == id
    ensures Tick(c, s, env).table == s.table
  {
    hide InitiateReconcile, WorkOrReconcile, Advertise, Fail, ExpireJob;
    forall other | other in s.table.entries ensures Expired(s.table.entries[other], env) == s.table.entries[other] {
      assert Waits(s.table, other) ==> other == id;
    }
    assert ExpireAcquisitions(s, env).table.entries == s.table.entries;
    assert HasOutstanding(s.table);
  }

  /** A chunk that is picked for the acquisition whose answers are waited for. */
  lemma ChunkStep(c: Config, s: State, e: Event, id: ID)
    requires Inv(c, s) && Possible(c, s, e) && e.Hear? && Decode(e.data).Some? && Decode(e.data).value.kind == CHUNK && e.pick == Some(id)
    requires id in s.table.entries && s.table.entries[id].waiting.ForChunks?
    ensures var a, t := s.table.entries[id], Step(c, s, e);
            if !IsAnswer(c, e, a.activeSource, a.transaction) || Index(e) !in a.wanted then t == s
            else t == TakeChunk(c, s, e.env, id, a, DecodeChunk(Decode(e.data).value.body).value)
  {
    hide Inv, TakeChunk, DecodeChunk, Decode, AcceptChunk, Step, Chosen;
    EntryAssembly(c, s, id);
    var p := Decode(e.data).value;
    HearsChunk(c, s, e, p);
    ChoosesReply(c, s, e, p, id);
    PicksChunk(c, s, e.env, p, id);
  }

  lemma HearsChunk(c: Config, s: State, e: Event, p: Packet)
    requires e.Hear? && Decode(e.data) == Some(p) && p.kind == CHUNK
    ensures Step(c, s, e) == if p.source != c.id && p.destination == c.id != BROADCAST then AcceptChunk(c, s, e.env, p, e.pick) else s
  {
    hide AcceptChunk, Decode;
  }

  lemma ChoosesReply(c: Config, s: State, e: Event, p: Packet, id: ID)
    requires Possible(c, s, e) && e.Hear? && Decode(e.data) == Some(p) && e.pick == Some(id)
    ensures RepliesTo(s.table, p, id)
  {
    hide Decode;
  }

  lemma PicksChunk(c: Config, s: State, env: Env, p: Packet, id: ID)
    requires id in s.table.entries && s.table.entries[id].waiting.ForChunks? && s.table.entries[id].assembly.Some?
    ensures var a := s.table.entries[id];
            AcceptChunk(c, s, env, p, Some(id)) ==
            if DecodeChunk(p.body).Some? && DecodeChunk(p.body).value.index in a.wanted
            then TakeChunk(c, s, env, id, a, DecodeChunk(p.body).value) else s
  {
    hide TakeChunk, DecodeChunk, OwnStep;
  }

  lemma ExchangeStep(c: Config, s: State, e: Event, id: ID, content: seq<byte>, source: NodeID, tx: U16, deadline: Time,
                     before: set<nat>, wanted: set<nat>, landed: set<nat>)
    requires Inv(c, s) && Possible(c, s, e) && Ongoing(c, s, id, content, source, tx, deadline, before, wanted, landed)
    requires HonestSources(s, e, id, content) && (e.Clock? ==> e.env.now <= deadline)
    requires id in Step(c, s, e).table.entries
    ensures Ongoing(c, Step(c, s, e), id, content, source, tx, deadline, before, wanted, landed + LandedBy(c, e, source, tx))
  {
    hide Inv, Step, Possible, Agrees, Describes, IsAnswer, Index, Got, HonestSources, Stands;
    StepFaithful(c, s, e, id, content);
    ManifestStays(c, s, e, id);
    if wanted <= Got(s.table.entries[id].assembly.value) {
      GotStays(c, s, e, id, content);
    } else {
      StandsStep(c, s, e, id, content, source, tx, deadline, before, wanted, landed);
    }
  }

  lemma ManifestStays(c: Config, s: State, e: Event, id: ID)
    requires Inv(c, s) && Possible(c, s, e) && id in s.table.entries && s.table.entries[id].assembly.Some?
    requires id in Step(c, s, e).table.entries && Step(c, s, e).table.entries[id].assembly.Some?
    ensures var p, q := s.table.entries[id].assembly.value, Step(c, s, e).table.entries[id].assembly.value;
            q.manifest == p.manifest && |q.received| == |p.received|
  {
    hide Step, Inv, Possible, Passed;
    AssembledFrom(c, s, e, id);
    EntryValid(c, s, id);
  }

  /** What has arrived stays. */
  lemma GotStays(c: Config, s: State, e: Event, id: ID, content: seq<byte>)
    requires Inv(c, s) && Possible(c, s, e) && Faithful(c, s, id, content) && HonestSources(s, e, id, content)
    requires id in Step(c, s, e).table.entries
    ensures Step(c, s, e).table.entries[id].assembly.Some?
    ensures Got(s.table.entries[id].assembly.value) <= Got(Step(c, s, e).table.entries[id].assembly.value)
  {
    hide Inv, Step, Possible, Agrees, Describes, Got, HonestSources, Index, IsAnswer, Decode;
    StepFaithful(c, s, e, id, content);
    if e.Hear? && Decode(e.data).Some? && e.pick == Some(id) && Decode(e.data).value.kind == CHUNK {
      if s.table.entries[id].waiting.ForChunks? {
        ChunkStep(c, s, e, id);
        if IsAnswer(c, e, s.table.entries[id].activeSource, s.table.entries[id].transaction) && Index(e) in s.table.entries[id].wanted {
          TakeStays(c, s, e, id, content);
        }
      } else {
        NotWaiting(c, s, e, id);
      }
    } else if e.Hear? && Decode(e.data).Some? && e.pick == Some(id) && Decode(e.data).value.kind == SIGNATURE {
      SignaturePast(c, s, e, id);
    } else {
      OtherSame(c, s, e, id);
    }
  }

  lemma NotWaiting(c: Config, s: State, e: Event, id: ID)
    requires e.Hear? && Decode(e.data).Some? && e.pick == Some(id) && Decode(e.data).value.kind == CHUNK
    requires id in s.table.entries && !s.table.entries[id].waiting.ForChunks?
    ensures Step(c, s, e) == s
  {
    hide Step, Decode, DecodeChunk, OwnStep;
    HearsChunk(c, s, e, Decode(e.data).value);
  }

  lemma SignaturePast(c: Config, s: State, e: Event, id: ID)
    requires Inv(c, s) && e.Hear? && Decode(e.data).Some? && e.pick == Some(id) && Decode(e.data).value.kind == SIGNATURE
    requires id in s.table.entries && s.table.entries[id].assembly.Some?
    ensures Step(c, s, e) == s
  {
    hide Inv, Decode, AcceptSignature;
    PastManifest(c, s, e.env, Decode(e.data).value, id);
  }

  /** An honest wanted chunk fits, was missing, and spoils no hash. */
  lemma TakeReady(c: Config, s: State, e: Event, id: ID, content: seq<byte>)
    requires Inv(c, s) && Faithful(c, s, id, content) && HonestSources(s, e, id, content) && e.Hear? && e.pick == Some(id)
    requires var a := s.table.entries[id];
             a.waiting.ForChunks? && IsAnswer(c, e, a.activeSource, a.transaction) && Index(e) in a.wanted
    ensures var p, chunk := s.table.entries[id].assembly.value, DecodeChunk(Decode(e.data).value.body).value;
            && AddChunk(p, chunk.index, chunk.data).Ok? && !p.received[chunk.index]
            && ContentOf(c.sha, AddChunk(p, chunk.index, chunk.data).value) != Err(HashMismatch)
            && Got(AddChunk(p, chunk.index, chunk.data).value) == Got(p) + {chunk.index}
            && AddChunk(p, chunk.index, chunk.data).value.received != p.received
  {
    hide Inv, Describes, Agrees, Geometry, Slice, Decode, DecodeChunk, AddChunk, ContentOf;
    WantedMissing(c, s, id);
    FaithfulParts(c, s, id, content);
    var p, chunk := s.table.entries[id].assembly.value, DecodeChunk(Decode(e.data).value.body).value;
    assert chunk.index !in s.table.entries[id].wanted * Got(p);
    HonestFits(p, chunk.index, chunk.data, content);
    NotMismatched(c, s, id, content, chunk.index, chunk.data);
    GotAfter(p, chunk.index, chunk.data);
    assert chunk.index in Got(AddChunk(p, chunk.index, chunk.data).value);
  }

  lemma TakeStays(c: Config, s: State, e: Event, id: ID, content: seq<byte>)
    requires Inv(c, s) && Faithful(c, s, id, content) && HonestSources(s, e, id, content) && e.Hear? && e.pick == Some(id)
    requires var a := s.table.entries[id];
             a.waiting.ForChunks? && IsAnswer(c, e, a.activeSource, a.transaction) && Index(e) in a.wanted
    ensures var a := s.table.entries[id];
            var t := TakeChunk(c, s, e.env, id, a, DecodeChunk(Decode(e.data).value.body).value);
            id in t.table.entries ==> t.table.entries[id].assembly.Some? && Got(a.assembly.value) <= Got(t.table.entries[id].assembly.value)
  {
    hide Inv, Describes, Agrees, Geometry, Slice, Decode, DecodeChunk, AddChunk, ContentOf, TakeChunk, Got, HonestSources;
    TakeReady(c, s, e, id, content);
    TakeAdds(c, s, e.env, id, s.table.entries[id], DecodeChunk(Decode(e.data).value.body).value);
  }

  lemma StandsStep(c: Config, s: State, e: Event, id: ID, content: seq<byte>, source: NodeID, tx: U16, deadline: Time,
                   before: set<nat>, wanted: set<nat>, landed: set<nat>)
    requires Inv(c, s) && Possible(c, s, e) && Faithful(c, s, id, content) && HonestSources(s, e, id, content)
    requires before <= Got(s.table.entries[id].assembly.value) && Stands(s, id, source, tx, deadline, wanted, landed)
    requires e.Clock? ==> e.env.now <= deadline
    requires forall i :: i in wanted ==> i < |s.table.entries[id].assembly.value.received|
    requires id in Step(c, s, e).table.entries && Faithful(c, Step(c, s, e), id, content)
    ensures var t := Step(c, s, e);
            before <= Got(t.table.entries[id].assembly.value)
            && (wanted <= Got(t.table.entries[id].assembly.value) || Stands(t, id, source, tx, deadline, wanted, landed + LandedBy(c, e, source, tx)))
  {
    hide Inv, Step, Possible, Agrees, Describes, IsAnswer, Index, Got, HonestSources, Decode, Sole;
    if IsAnswer(c, e, source, tx) {
      SoleChoice(c, s, e, id, source, tx);
    }
    if e.Hear? && Decode(e.data).Some? && e.pick == Some(id) && Decode(e.data).value.kind == CHUNK {
      ChunkStep(c, s, e, id);
      if IsAnswer(c, e, source, tx) && Index(e) in s.table.entries[id].wanted {
        TakeStands(c, s, e, id, content, source, tx, deadline, wanted, landed);
      } else if IsAnswer(c, e, source, tx) {
        LandedAgain(s.table.entries[id].wanted, wanted, landed, Index(e));
      }
    } else {
      WaitingRests(c, s, e, id);
    }
  }

  /** An answer to what is no longer wanted changes nothing. */
  lemma LandedAgain(left: set<nat>, wanted: set<nat>, landed: set<nat>, index: nat)
    requires left == wanted - landed && index !in left
    ensures left == wanted - (landed + {index}) && wanted * (landed + {index}) == wanted * landed
  {}

  lemma TakeStands(c: Config, s: State, e: Event, id: ID, content: seq<byte>, source: NodeID, tx: U16, deadline: Time,
                   wanted: set<nat>, landed: set<nat>)
    requires Inv(c, s) && Faithful(c, s, id, content) && HonestSources(s, e, id, content) && e.Hear? && e.pick == Some(id)
    requires Stands(s, id, source, tx, deadline, wanted, landed) && IsAnswer(c, e, source, tx) && Index(e) in s.table.entries[id].wanted
    requires forall i :: i in wanted ==> i < |s.table.entries[id].assembly.value.received|
    ensures var a := s.table.entries[id];
            var t := TakeChunk(c, s, e.env, id, a, DecodeChunk(Decode(e.data).value.body).value);
            id in t.table.entries ==>
              && t.table.entries[id].assembly.Some?
              && Got(a.assembly.value) <= Got(t.table.entries[id].assembly.value)
              && (wanted <= Got(t.table.entries[id].assembly.value)
                  || Stands(t, id, source, tx, deadline, wanted, landed + LandedBy(c, e, source, tx)))
  {
    hide Inv, Describes, Agrees, Geometry, Slice, Decode, DecodeChunk, ContentOf, TakeChunk, Got, HonestSources, IsAnswer, AddChunk, Sole, Faithful;
    FaithfulSome(c, s, id, content);
    TakeReady(c, s, e, id, content);
    var a, chunk := s.table.entries[id], DecodeChunk(Decode(e.data).value.body).value;
    TakeAdds(c, s, e.env, id, a, chunk);
    var q := AddChunk(a.assembly.value, chunk.index, chunk.data).value;
    if e.env.write(0) == Written {
      if q.Whole() {
        SameLength(a.assembly.value, chunk.index, chunk.data);
        WholeGot(q, wanted);
      } else {
        TakenOne(a.wanted, wanted, landed, chunk.index, Got(a.assembly.value));
        SoleStays(s.table, id, source, tx, TakeChunk(c, s, e.env, id, a, chunk).table);
      }
    } else {
      assert landed + {} == landed;
      SoleStays(s.table, id, source, tx, TakeChunk(c, s, e.env, id, a, chunk).table);
    }
  }

  lemma FaithfulSome(c: Config, s: State, id: ID, content: seq<byte>)
    requires Faithful(c, s, id, content)
    ensures id in s.table.entries && s.table.entries[id].assembly.Some?
  {}

  lemma SameLength(p: Parts, index: nat, data: seq<byte>)
    requires p.Valid() && AddChunk(p, index, data).Ok?
    ensures |AddChunk(p, index, data).value.received| == |p.received|
  {}

  lemma SoleStays(t: Table, id: ID, source: NodeID, tx: U16, u: Table)
    requires Sole(t, id, source, tx)
    requires forall other :: other != id && other in u.entries ==> other in t.entries && u.entries[other] == t.entries[other]
    ensures Sole(u, id, source, tx)
  {}

  lemma TakenOne(left: set<nat>, wanted: set<nat>, landed: set<nat>, index: nat, got: set<nat>)
    requires left == wanted - landed && wanted * landed <= got
    ensures left - {index} == wanted - (landed + {index}) && wanted * (landed + {index}) <= got + {index}
    ensures left - {index} == {} ==> wanted <= got + {index}
  {
    assert forall i :: i in wanted ==> i in left || i in wanted * landed;
  }

  // ---- whole runs ---------------------------------------------------------------------

  /** By state k all that was asked for has arrived as well, or the acquisition has ended
      with the content complete on disk. */
  ghost predicate Gained(c: Config, states: seq<State>, k: nat, id: ID, content: seq<byte>, before: set<nat>, wanted: set<nat>)
    requires k < |states|
  {
    || (Faithful(c, states[k], id, content) && before + wanted <= Got(states[k].table.entries[id].assembly.value))
    || exists j :: 0 <= j < k && Completed(c, states[j], states[j + 1], id, content)
  }

  lemma {:induction false} ExchangeRun(c: Config, states: seq<State>, events: seq<Event>, k: nat, id: ID, content: seq<byte>,
                                       source: NodeID, tx: U16, deadline: Time, before: set<nat>, wanted: set<nat>)
    requires Run(c, states, events) && Inv(c, states[0]) && k < |states|
    requires Ongoing(c, states[0], id, content, source, tx, deadline, before, wanted, {})
    requires forall i :: 0 <= i < k ==> HonestSources(states[i], events[i], id, content) && (events[i].Clock? ==> events[i].env.now <= deadline)
    ensures Ongoing(c, states[k], id, content, source, tx, deadline, before, wanted, Landed(c, events[..k], source, tx))
            || exists j :: 0 <= j < k && Completed(c, states[j], states[j + 1], id, content)
  {
    hide Inv, Step, Possible, HonestSources, Landed, LandedBy, Completed, Ongoing;
    if k == 0 {
      NothingLanded(c, events[..0], source, tx);
    } else {
      ExchangeRun(c, states, events, k - 1, id, content, source, tx, deadline, before, wanted);
      if Ongoing(c, states[k - 1], id, content, source, tx, deadline, before, wanted, Landed(c, events[..k - 1], source, tx)) {
        RunKeeps(c, states, events, k - 1);
        assert events[..k] == events[..k - 1] + [events[k - 1]];
        LandedSnoc(c, events[..k - 1], events[k - 1], source, tx);
        ExchangeGoesOn(c, states[k - 1], events[k - 1], id, content, source, tx, deadline, before, wanted, Landed(c, events[..k - 1], source, tx));
      }
    }
  }

  lemma NothingLanded(c: Config, events: seq<Event>, source: NodeID, tx: U16)
    requires events == []
    ensures Landed(c, events, source, tx) == {}
  {}

  lemma ExchangeGoesOn(c: Config, s: State, e: Event, id: ID, content: seq<byte>, source: NodeID, tx: U16, deadline: Time,
                       before: set<nat>, wanted: set<nat>, landed: set<nat>)
    requires Inv(c, s) && Possible(c, s, e) && Ongoing(c, s, id, content, source, tx, deadline, before, wanted, landed)
    requires HonestSources(s, e, id, content) && (e.Clock? ==> e.env.now <= deadline)
    ensures Ongoing(c, Step(c, s, e), id, content, source, tx, deadline, before, wanted, landed + LandedBy(c, e, source, tx))
            || Completed(c, s, Step(c, s, e), id, content)
  {
    hide Inv, Step, Possible, HonestSources, LandedBy, Faithful, Stands, Delivered;
    FaithfulSome(c, s, id, content);
    if id in Step(c, s, e).table.entries {
      ExchangeStep(c, s, e, id, content, source, tx, deadline, before, wanted, landed);
    } else {
      StepFaithful(c, s, e, id, content);
    }
  }

  /** The request of an acquisition: its answers are waited for, nothing has landed yet,
      and no other acquisition can be taken for it. */
  lemma RequestStands(c: Config, s: State, id: ID, content: seq<byte>)
    requires Inv(c, s) && Faithful(c, s, id, content) && s.table.entries[id].waiting.ForChunks?
    requires var a := s.table.entries[id]; Sole(s.table, id, a.activeSource, a.transaction)
    ensures var a := s.table.entries[id];
            Ongoing(c, s, id, content, a.activeSource, a.transaction, a.deadline, Got(a.assembly.value), a.wanted, {})
  {
    WantedMissing(c, s, id);
    hide Inv, Agrees, Describes, Got, Sole;
  }

  /** A fully answered request strictly enlarges what has arrived. Over any run in which
      its deadline does not pass, through whatever else is heard and in whatever order,
      number and choice of acquisition the answers come, all that was asked for arrives,
      or the content is complete, as long as no other acquisition was last asked under
      that number at that source. */
  lemma ExchangeShrinks(c: Config, states: seq<State>, events: seq<Event>, k: nat, id: ID, content: seq<byte>)
    requires Run(c, states, events) && Inv(c, states[0]) && k < |states|
    requires Faithful(c, states[0], id, content) && states[0].table.entries[id].waiting.ForChunks?
    requires var a := states[0].table.entries[id];
             && Sole(states[0].table, id, a.activeSource, a.transaction)
             && (forall i :: 0 <= i < k ==> HonestSources(states[i], events[i], id, content) && (events[i].Clock? ==> events[i].env.now <= a.deadline))
             && a.wanted <= Landed(c, events[..k], a.activeSource, a.transaction)
    ensures var a := states[0].table.entries[id];
            && Gained(c, states, k, id, content, Got(a.assembly.value), a.wanted)
            && a.wanted != {} && a.wanted * Got(a.assembly.value) == {}
  {
    hide Inv, Step, Possible, HonestSources, Landed, Completed, Got, Sole, Agrees, Describes;
    var a := states[0].table.entries[id];
    var before := Got(a.assembly.value);
    WantedMissing(c, states[0], id);
    RequestStands(c, states[0], id, content);
    ExchangeRun(c, states, events, k, id, content, a.activeSource, a.transaction, a.deadline, before, a.wanted);
    var landed := Landed(c, events[..k], a.activeSource, a.transaction);
    if Ongoing(c, states[k], id, content, a.activeSource, a.transaction, a.deadline, before, a.wanted, landed) {
      RunKeeps(c, states, events, k);
      if states[k].table.entries[id].waiting.ForChunks? {
        WantedMissing(c, states[k], id);
      }
      assert a.wanted - landed == {};
    }
  }

  // ---- the condition is exact ---------------------------------------------------------

  /** The same octets in the same surroundings, whichever acquisition is chosen. */
  ghost predicate Rehears(events: seq<Event>, heard: seq<Event>) {
    && |events| == |heard|
    && forall i :: 0 <= i < |heard| ==> events[i].Hear? && heard[i].Hear? && events[i].env == heard[i].env && events[i].data == heard[i].data
  }

  /** Honest answers to the request, each of which can be stored. */
  ghost predicate GoodAnswers(c: Config, heard: seq<Event>, source: NodeID, tx: U16, m: Manifest, content: seq<byte>) {
    && Geometry(m) && |content| == m.length
    && forall i :: 0 <= i < |heard| ==>
         && IsAnswer(c, heard[i], source, tx) && heard[i].env.write(0) == Written
         && var chunk := DecodeChunk(Decode(heard[i].data).value.body).value;
            chunk.index < m.chunkCount && chunk.data == Slice(m, content, chunk.index)
  }

  lemma RehearsLanded(c: Config, events: seq<Event>, heard: seq<Event>, source: NodeID, tx: U16)
    requires Rehears(events, heard)
    ensures Landed(c, events, source, tx) == Landed(c, heard, source, tx)
  {
    hide Decode, DecodeChunk;
    forall x ensures x in Landed(c, events, source, tx) <==> x in Landed(c, heard, source, tx) {
      if x in Landed(c, events, source, tx) {
        var e :| e in events && IsAnswer(c, e, source, tx) && e.env.write(0) == Written && x == Index(e);
        var i :| 0 <= i < |events| && events[i] == e;
        assert IsAnswer(c, heard[i], source, tx) && Index(heard[i]) == x && heard[i] in heard;
      }
      if x in Landed(c, heard, source, tx) {
        var e :| e in heard && IsAnswer(c, e, source, tx) && e.env.write(0) == Written && x == Index(e);
        var i :| 0 <= i < |heard| && heard[i] == e;
        assert IsAnswer(c, events[i], source, tx) && Index(events[i]) == x && events[i] in events;
      }
    }
  }

  /** While only answers are heard, the manifest that is worked on stays. */
  lemma {:induction false} AnswersKeepManifest(c: Config, states: seq<State>, events: seq<Event>, k: nat, id: ID, m: Manifest, source: NodeID, tx: U16)
    requires Run(c, states, events) && Inv(c, states[0]) && k < |states|
    requires forall i :: 0 <= i < |events| ==> IsAnswer(c, events[i], source, tx)
    requires id in states[0].table.entries && states[0].table.entries[id].assembly.Some? && states[0].table.entries[id].assembly.value.manifest == m
    ensures id in states[k].table.entries && states[k].table.entries[id].assembly.Some? ==> states[k].table.entries[id].assembly.value.manifest == m
  {
    hide Step, Inv, Possible, IsAnswer, Passed, Decode;
    if k > 0 && id in states[k].table.entries && states[k].table.entries[id].assembly.Some? {
      AnswersKeepManifest(c, states, events, k - 1, id, m, source, tx);
      RunKeeps(c, states, events, k - 1);
      AssembledFrom(c, states[k - 1], events[k - 1], id);
      assert IsAnswer(c, events[k - 1], source, tx);
    }
  }

  lemma AnswersHonest(c: Config, s: State, e: Event, id: ID, m: Manifest, content: seq<byte>)
    requires e.Hear? && Decode(e.data).Some? && DecodeChunk(Decode(e.data).value.body).Some?
    requires var chunk := DecodeChunk(Decode(e.data).value.body).value;
             Geometry(m) && |content| == m.length && chunk.index < m.chunkCount && chunk.data == Slice(m, content, chunk.index)
    requires id in s.table.entries && s.table.entries[id].assembly.Some? ==> s.table.entries[id].assembly.value.manifest == m
    ensures HonestSources(s, e, id, content)
  {
    hide Decode, DecodeChunk, Geometry, Slice;
  }

  lemma GoodAnswersGain(c: Config, s: State, id: ID, content: seq<byte>, heard: seq<Event>, states: seq<State>, events: seq<Event>)
    requires Inv(c, s) && Faithful(c, s, id, content) && s.table.entries[id].waiting.ForChunks?
    requires var a := s.table.entries[id];
             && Sole(s.table, id, a.activeSource, a.transaction)
             && GoodAnswers(c, heard, a.activeSource, a.transaction, a.assembly.value.manifest, content)
             && a.wanted <= Landed(c, heard, a.activeSource, a.transaction)
    requires Run(c, states, events) && states[0] == s && Rehears(events, heard)
    ensures Gained(c, states, |heard|, id, content, Got(s.table.entries[id].assembly.value), s.table.entries[id].wanted)
  {
    hide Inv, Step, Possible, HonestSources, Landed, Got, Sole, Faithful, Gained, Decode, DecodeChunk, Geometry, Slice;
    FaithfulSome(c, s, id, content);
    var a := s.table.entries[id];
    var m := a.assembly.value.manifest;
    forall i | 0 <= i < |events| ensures IsAnswer(c, events[i], a.activeSource, a.transaction) {
      assert IsAnswer(c, heard[i], a.activeSource, a.transaction);
    }
    hide IsAnswer;
    forall i | 0 <= i < |events| ensures HonestSources(states[i], events[i], id, content) {
      AnswersKeepManifest(c, states, events, i, id, m, a.activeSource, a.transaction);
      assert IsAnswer(c, heard[i], a.activeSource, a.transaction);
      AnswersHonest(c, states[i], events[i], id, m, content);
    }
    RehearsLanded(c, events, heard, a.activeSource, a.transaction);
    assert events[..|heard|] == events;
    ExchangeShrinks(c, states, events, |heard|, id, content);
  }

  /** The same answers, each taken for the other acquisition. */
  ghost function Mistaken(heard: seq<Event>, other: ID): (r: seq<Event>)
    requires forall i :: 0 <= i < |heard| ==> heard[i].Hear?
    ensures Rehears(r, heard) && forall i :: 0 <= i < |r| ==> r[i] == Hear(heard[i].env, heard[i].data, Some(other))
  {
    seq(|heard|, i requires 0 <= i < |heard| => Hear(heard[i].env, heard[i].data, Some(other)))
  }

  lemma RestingRun(c: Config, s: State, events: seq<Event>)
    requires forall i :: 0 <= i < |events| ==> Possible(c, s, events[i]) && Step(c, s, events[i]) == s
    ensures Run(c, seq(|events| + 1, _ => s), events)
  {
    hide Step, Possible;
  }

  lemma AllAnswers(c: Config, heard: seq<Event>, source: NodeID, tx: U16, m: Manifest, content: seq<byte>)
    requires GoodAnswers(c, heard, source, tx, m, content)
    ensures forall i :: 0 <= i < |heard| ==> IsAnswer(c, heard[i], source, tx)
  {
    hide IsAnswer, Decode, DecodeChunk, Slice, Geometry;
  }

  /** A namesake swallows every answer: it may be chosen each time, and nothing happens. */
  lemma NamesakeSwallows(c: Config, s: State, id: ID, content: seq<byte>, heard: seq<Event>, other: ID) returns (states: seq<State>, events: seq<Event>)
    requires Inv(c, s) && Faithful(c, s, id, content) && s.table.entries[id].waiting.ForChunks?
    requires var a := s.table.entries[id];
             && GoodAnswers(c, heard, a.activeSource, a.transaction, a.assembly.value.manifest, content)
             && other != id && other in s.table.entries
             && s.table.entries[other].transaction == a.transaction && s.table.entries[other].activeSource == a.activeSource
    ensures Run(c, states, events) && states[0] == s && Rehears(events, heard) && |states| == |heard| + 1
    ensures forall k :: 0 <= k < |states| ==> states[k] == s
    ensures !Gained(c, states, |heard|, id, content, Got(s.table.entries[id].assembly.value), s.table.entries[id].wanted)
  {
    hide Inv, Step, Possible, Got, IsAnswer, GoodAnswers, Gained, Faithful, Run, Rehears;
    FaithfulSome(c, s, id, content);
    var a := s.table.entries[id];
    AllAnswers(c, heard, a.activeSource, a.transaction, a.assembly.value.manifest, content);
    events := Mistaken(heard, other);
    SameCount(events, heard);
    forall i | 0 <= i < |events| ensures Possible(c, s, events[i]) && Step(c, s, events[i]) == s {
      SwallowsOne(c, s, heard[i], id, other);
    }
    states := seq(|events| + 1, _ => s);
    RestingRun(c, s, events);
    NothingGained(c, s, states, |heard|, id, content);
  }

  lemma SameCount(events: seq<Event>, heard: seq<Event>)
    requires Rehears(events, heard)
    ensures |events| == |heard|
  {}

  lemma NothingGained(c: Config, s: State, states: seq<State>, k: nat, id: ID, content: seq<byte>)
    requires Inv(c, s) && id in s.table.entries && s.table.entries[id].waiting.ForChunks? && s.table.entries[id].assembly.Some?
    requires k < |states| && forall i :: 0 <= i < |states| ==> states[i] == s
    ensures !Gained(c, states, k, id, content, Got(s.table.entries[id].assembly.value), s.table.entries[id].wanted)
  {
    hide Inv, Got, Delivered, Describes, Agrees;
    var a := s.table.entries[id];
    WantedMissing(c, s, id);
    var w :| w in a.wanted;
    assert w !in a.wanted * Got(a.assembly.value);
  }

  lemma SwallowsOne(c: Config, s: State, heard: Event, id: ID, other: ID)
    requires Inv(c, s) && id in s.table.entries && s.table.entries[id].waiting.ForChunks? && other != id && other in s.table.entries
    requires var a := s.table.entries[id]; s.table.entries[other].transaction == a.transaction && s.table.entries[other].activeSource == a.activeSource
    requires var a := s.table.entries[id]; IsAnswer(c, heard, a.activeSource, a.transaction)
    ensures var e := Hear(heard.env, heard.data, Some(other)); Possible(c, s, e) && Step(c, s, e) == s
  {
    hide Inv, Decode, DecodeChunk, TakeChunk, OwnStep, Step;
    ExchangeNumber(c, s, id);
    var e := Hear(heard.env, heard.data, Some(other));
    HearsChunk(c, s, e, Decode(heard.data).value);
    assert !Waits(s.table, other);
  }

  /** The exact condition. Honest answers that cover a request bring all that it asked for
      in every run that hears them, whichever acquisition is chosen for each of them, if
      and only if no other acquisition was last asked under the same number at the same
      source. */
  lemma ExchangeExact(c: Config, s: State, id: ID, content: seq<byte>, heard: seq<Event>)
    requires Inv(c, s) && Faithful(c, s, id, content) && s.table.entries[id].waiting.ForChunks?
    requires var a := s.table.entries[id];
             && GoodAnswers(c, heard, a.activeSource, a.transaction, a.assembly.value.manifest, content)
             && a.wanted <= Landed(c, heard, a.activeSource, a.transaction)
    ensures var a := s.table.entries[id];
            Sole(s.table, id, a.activeSource, a.transaction) <==>
            forall states, events :: Run(c, states, events) && states[0] == s && Rehears(events, heard) ==>
              Gained(c, states, |heard|, id, content, Got(a.assembly.value), a.wanted)
  {
    hide Inv, Step, Possible, Landed, Got, Faithful, Gained, GoodAnswers;
    FaithfulSome(c, s, id, content);
    var a := s.table.entries[id];
    if Sole(s.table, id, a.activeSource, a.transaction) {
      forall states, events | Run(c, states, events) && states[0] == s && Rehears(events, heard)
        ensures Gained(c, states, |heard|, id, content, Got(a.assembly.value), a.wanted) {
        GoodAnswersGain(c, s, id, content, heard, states, events);
      }
    } else {
      var other :| other in s.table.entries && s.table.entries[other].transaction == a.transaction
        && s.table.entries[other].activeSource == a.activeSource && other != id;
      var states, events := NamesakeSwallows(c, s, id, content, heard, other);
    }
  }

  // ---- a pair of namesakes ------------------------------------------------------------

  function Sought(m: Manifest, parts: Assembled): Acquisition {
    Acquisition([1], 0, 1, Some(parts), 0, 0, 0, 5, ForChunks, 0, {0}, None, 0)
  }

  function Idling(): Acquisition {
    Acquisition([1], 0, 1, None, 0, 0, 0, 5, Idle, 0, {}, None, 0)
  }

  /** A node that waits for the only chunk of `id`, and an acquisition of the past that
      was asked under the same number at the same source, one round of the counter ago. */
  function Pair(m: Manifest, parts: Assembled, stale: ID): State
    requires stale != m.id
  {
    State(Table(map[m.id := Sought(m, parts), stale := Idling()], [m.id, stale], 0), Jobs([], None), Peers(map[], []),
          Inspected(map[], []), 5, false, 0, [], map[], [], map[], 0)
  }

  lemma PairValid(c: Config, m: Manifest, parts: Assembled, stale: ID)
    requires stale != m.id && Storable(m) && m.signature.None? && parts.manifest == m && |parts.received| == 1 && !parts.received[0]
    ensures Inv(c, Pair(m, parts, stale))
  {
    hide Storable;
    var s := Pair(m, parts, stale);
    assert WantedValid(parts.received, {0}) by {
      assert 0 % WINDOW == 0;
    }
    hide WantedValid;
    assert TableValid(s.table);
    assert forall id :: Waits(s.table, id) ==> id == m.id;
    assert OneExchange(s.table, s.jobs, s.tx);
  }

  function Other(id: ID): (other: ID)
    ensures other != id
  {
    if id[0] == 0 then [1] + seq(15, _ => 0) else seq(16, _ => 0)
  }

  lemma OnlyChunk(c: Config) returns (p: Packet)
    requires c.id != BROADCAST
    ensures var m := OneOctet(c.sha, 1);
            && Geometry(m) && p.kind == CHUNK && p.source == 1 && p.destination == c.id && p.transaction == 5
            && Encode(p).Some? && DecodeChunk(p.body) == Some(ChunkData(0, [7])) && Slice(m, [7], 0) == [7]
  {
    hide DecodeChunk, PacketHeader;
    var chunk := ChunkData(0, [7]);
    ChunkExact(EncodeChunk(chunk).value, chunk);
    p := Packet(CHUNK, 1, c.id, 5, EncodeChunk(chunk).value);
  }

  /** Such a pair: a good answer to everything that was asked for may be taken for the
      other acquisition, and then changes nothing. */
  lemma StalePair(c: Config, env: Env) returns (s: State, id: ID, stale: ID, heard: Event)
    requires c.id != 1 && c.id != BROADCAST && env.write(0) == Written
    ensures Inv(c, s) && Faithful(c, s, id, [7]) && s.table.entries[id].waiting.ForChunks? && stale != id
    ensures var a := s.table.entries[id];
            && GoodAnswers(c, [heard], a.activeSource, a.transaction, a.assembly.value.manifest, [7])
            && a.wanted <= Landed(c, [heard], a.activeSource, a.transaction)
            && !Sole(s.table, id, a.activeSource, a.transaction)
    ensures var e := Hear(env, heard.data, Some(stale)); heard.env == env && Possible(c, s, e) && Step(c, s, e) == s
  {
    hide Inv, Step, Possible, Faithful, GoodAnswers, Landed, Sole, IsAnswer;
    var m := OneOctet(c.sha, 1);
    id, stale := m.id, Other(m.id);
    var parts := Fresh(m);
    s := Pair(m, parts, stale);
    PairValid(c, m, parts, stale);
    PairWaits(c, stale);
    heard := OnlyAnswer(c, env, id);
    SwallowsOne(c, s, heard, id, stale);
  }

  lemma PairWaits(c: Config, stale: ID)
    requires stale != OneOctet(c.sha, 1).id
    ensures var m := OneOctet(c.sha, 1);
            var s := Pair(m, Fresh(m), stale);
            Faithful(c, s, m.id, [7]) && !Sole(s.table, m.id, 1, 5)
  {
    var m := OneOctet(c.sha, 1);
    var s := Pair(m, Fresh(m), stale);
    assert s.table.entries[stale] == Idling();
  }

  lemma OnlyAnswer(c: Config, env: Env, id: ID) returns (heard: Event)
    requires c.id != 1 && c.id != BROADCAST && env.write(0) == Written
    ensures heard.Hear? && heard.env == env && IsAnswer(c, heard, 1, 5)
    ensures GoodAnswers(c, [heard], 1, 5, OneOctet(c.sha, 1), [7]) && {0} <= Landed(c, [heard], 1, 5)
  {
    hide DecodeChunk, Decode, PacketHeader, Slice, Geometry;
    var p := OnlyChunk(c);
    DecodeEncode(p);
    heard := Hear(env, Encode(p).value, Some(id));
    assert IsAnswer(c, heard, 1, 5);
    assert heard in [heard] && Index(heard) == 0;
  }
}
