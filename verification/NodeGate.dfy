/** The policy gate over whole runs, what a node asks for, and the IDs of what it keeps
    and advertises. */
module NodeGate {
  import opened Bytes
  import opened Seqs
  import opened Radix
  import opened Manifests
  import opened Assemblies
  import opened Stores
  import opened NodeProtocol
  import opened Scheduler
  import opened NodeState
  import opened NodeSteps
  import opened NodeInvariants
  import opened NodeSafety
  import opened NodeResults
  import opened NodeFrames
  import opened NodeOutcomes

  // ---- how a node starts --------------------------------------------------------------

  /** What a node finds when it starts. */
  datatype Boot = Boot(disk: Disk, tx: U16, env: Env, partials: seq<ID>, wanted: seq<ID>, delay: Time)

  ghost function Booted(c: Config, b: Boot): State {
    Start(c, b.disk, b.tx, b.env, b.partials, b.wanted, b.delay)
  }

  /** The disk when the k-th partial directory is opened. */
  ghost function DiskAt(c: Config, b: Boot, k: nat): Disk
    requires k <= |b.partials|
  {
    StartPartials(c, Blank(c, b.disk, b.tx, b.env), b.env, b.partials[..k]).disk
  }

  /** Work begun earlier, resumed: its manifest was read from the partial directory of
      this ID, its signature holds, and it is wanted or its signer passes. */
  ghost predicate Resumed(c: Config, b: Boot, id: ID, m: Manifest) {
    && SignatureHolds(c.ed, m) && (Wanted(b.disk, id) || SignerAdmitted(c.policy, m))
    && exists k: nat :: k < |b.partials| && b.partials[k] == id && ReadManifest(DiskAt(c, b, k), PartialManifest(id)) == Some(m)
  }

  lemma {:induction false} RemoveOnWants(disk: Disk, id: ID, order: seq<FilePath>, other: ID)
    ensures Wanted(RemoveOn(disk, id, order), other) == Wanted(disk, other)
  {
    RemoveOnElsewhere(disk, id, order, Want(other));
  }

  lemma LoadPartialWants(disk: Disk, id: ID, w: WriteResult, other: ID)
    ensures Wanted(LoadPartialOn(disk, id, w).0, other) == Wanted(disk, other)
    ensures LoadPartialOn(disk, id, w).1.Ok? ==>
              ReadManifest(disk, PartialManifest(id)) == Some(LoadPartialOn(disk, id, w).1.value.manifest)
  {
    hide Loaded, SafeName, ReadManifest;
  }

  lemma OwnSame(s: State, id: ID, other: ID)
    ensures var t := Own(s, id);
            (other in s.table.entries ==> other in t.table.entries && t.table.entries[other].assembly == s.table.entries[other].assembly)
            && (other in t.table.entries && other !in s.table.entries ==> t.table.entries[other].assembly.None?)
            && t.disk == s.disk && id in t.table.entries
  {}

  lemma PartialResumes(c: Config, s: State, env: Env, k: nat, id: ID, other: ID)
    ensures var t := StartPartial(c, s, env, k, id);
            && Wanted(t.disk, other) == Wanted(s.disk, other)
            && (other in t.table.entries && t.table.entries[other].assembly.Some? ==>
                  var m := t.table.entries[other].assembly.value.manifest;
                  || (other in s.table.entries && s.table.entries[other].assembly == t.table.entries[other].assembly)
                  || (other == id && ReadManifest(s.disk, PartialManifest(id)) == Some(m)
                      && SignatureHolds(c.ed, m) && (Wanted(s.disk, id) || SignerAdmitted(c.policy, m))))
  {
    hide LoadPartialOn, RemoveOn, Accept, Own, ReadManifest, SignatureHolds, SignerAdmitted, Wanted;
    var (disk, loaded) := LoadPartialOn(s.disk, id, env.write(k));
    LoadPartialWants(s.disk, id, env.write(k), other);
    LoadPartialWants(s.disk, id, env.write(k), id);
    match loaded
    case Err(_) =>
      RemoveOnWants(disk, id, env.order, other);
      OwnSame(s.(disk := RemoveOn(disk, id, env.order)), id, other);
    case Ok(parts) =>
      AcceptExact(c.ed, c.policy, parts.manifest, true, Wanted(disk, id));
      OwnSame(s.(disk := disk), id, other);
  }

  lemma {:induction false} PartialsResume(c: Config, s: State, env: Env, ids: seq<ID>, id: ID)
    requires s.table.entries == map[]
    ensures var t := StartPartials(c, s, env, ids);
            && Wanted(t.disk, id) == Wanted(s.disk, id)
            && (id in t.table.entries && t.table.entries[id].assembly.Some? ==>
                  var m := t.table.entries[id].assembly.value.manifest;
                  && SignatureHolds(c.ed, m) && (Wanted(s.disk, id) || SignerAdmitted(c.policy, m))
                  && exists k: nat :: k < |ids| && ids[k] == id
                       && ReadManifest(StartPartials(c, s, env, ids[..k]).disk, PartialManifest(id)) == Some(m))
  {
    hide StartPartial, SignatureHolds, SignerAdmitted, ReadManifest, Wanted;
    if ids != [] {
      var n := |ids| - 1;
      var before, t := StartPartials(c, s, env, ids[..n]), StartPartials(c, s, env, ids);
      PartialsResume(c, s, env, ids[..n], id);
      PartialResumes(c, before, env, n, ids[n], id);
      PartialResumes(c, before, env, n, ids[n], ids[n]);
      if id in t.table.entries && t.table.entries[id].assembly.Some? {
        var m := t.table.entries[id].assembly.value.manifest;
        if id in before.table.entries && before.table.entries[id].assembly == t.table.entries[id].assembly {
          var k: nat :| k < n && ids[..n][k] == id
            && ReadManifest(StartPartials(c, s, env, ids[..n][..k]).disk, PartialManifest(id)) == Some(m);
          assert ids[..n][..k] == ids[..k] && ids[k] == id;
        } else {
          assert ids[n] == id;
        }
      }
    }
  }

  lemma {:induction false} WantedResumes(s: State, ids: seq<ID>, id: ID)
    ensures var t := StartWanted(s, ids);
            t.disk == s.disk && (id in t.table.entries && t.table.entries[id].assembly.Some? ==>
              id in s.table.entries && s.table.entries[id].assembly == t.table.entries[id].assembly)
  {
    hide Own;
    if ids != [] {
      WantedResumes(s, ids[..|ids| - 1], id);
      OwnSame(StartWanted(s, ids[..|ids| - 1]), ids[|ids| - 1], id);
    }
  }

  /** The gate at the start: what is assembled was read and admitted there. */
  lemma StartResumes(c: Config, b: Boot, id: ID)
    requires id in Booted(c, b).table.entries && Booted(c, b).table.entries[id].assembly.Some?
    ensures Resumed(c, b, id, Booted(c, b).table.entries[id].assembly.value.manifest)
  {
    hide StartPartials, StartWanted, Inventory, ReadManifest, SignatureHolds, SignerAdmitted, Wanted;
    var blank := Blank(c, b.disk, b.tx, b.env);
    PartialsResume(c, blank, b.env, b.partials, id);
    WantedResumes(StartPartials(c, blank, b.env, b.partials), b.wanted, id);
  }

  // ---- the gate -----------------------------------------------------------------------

  /** Where what is assembled for an ID in state k comes from: a resumed directory, or a
      step at which a signature completed its manifest and the policy passed it by what
      the disk said then. */
  ghost predicate Justified(c: Config, b: Boot, states: seq<State>, events: seq<Event>, k: nat, id: ID, m: Manifest)
    requires k <= |events| < |states|
  {
    || Resumed(c, b, id, m)
    || (m.id == id && exists j :: 0 <= j < k && Judged(c, states[j], events[j], id) == Some(m) && Passed(c, states[j].disk, id, m))
  }

  /** Nothing is assembled that the policy did not admit, in any state of any run. */
  lemma {:induction false} AssembledOnlyIfAdmitted(c: Config, b: Boot, states: seq<State>, events: seq<Event>, k: nat, id: ID)
    requires Run(c, states, events) && states[0] == Booted(c, b) && k < |states|
    requires id in states[k].table.entries && states[k].table.entries[id].assembly.Some?
    ensures var m := states[k].table.entries[id].assembly.value.manifest;
            Storable(m) && Justified(c, b, states, events, k, id, m)
  {
    hide Step, Possible, Booted, Passed, Judged, Resumed, Inv, Storable;
    StartsValid(c, b);
    RunKeeps(c, states, events, k);
    EntryStorable(c, states[k], id);
    if k == 0 {
      StartResumes(c, b, id);
    } else {
      RunKeeps(c, states, events, k - 1);
      AssembledFrom(c, states[k - 1], events[k - 1], id);
      if id in states[k - 1].table.entries && states[k - 1].table.entries[id].assembly.Some? {
        AssembledOnlyIfAdmitted(c, b, states, events, k - 1, id);
      }
    }
  }

  lemma StartsValid(c: Config, b: Boot)
    ensures Inv(c, Booted(c, b))
  {
    hide Inv, Start;
    StartKeeps(c, b.disk, b.tx, b.env, b.partials, b.wanted, b.delay);
  }

  lemma EntryStorable(c: Config, s: State, id: ID)
    requires Inv(c, s) && id in s.table.entries && s.table.entries[id].assembly.Some?
    ensures Storable(s.table.entries[id].assembly.value.manifest)
  {
    EntryValid(c, s, id);
    hide Inv, Storable;
  }

  // ---- requests for chunks ------------------------------------------------------------

  /** The request is for a publication that is being assembled and not whole. */
  ghost predicate AsksFor(t: Table, p: Packet) {
    && DecodeChunkRequest(p.body).Some?
    && var id := DecodeChunkRequest(p.body).value.id;
       id in t.entries && t.entries[id].assembly.Some? && !t.entries[id].assembly.value.Whole()
  }

  /** Every request for chunks among the packets that were sent between two states. */
  ghost predicate AsksBetween(s: State, t: State) {
    && s.sent <= t.sent
    && forall n :: |s.sent| <= n < |t.sent| && t.sent[n].Some? && t.sent[n].value.kind == GET_CHUNKS ==>
         AsksFor(s.table, t.sent[n].value)
  }

  lemma ReplyAsksNothing(c: Config, s: State, p: Packet, kind: byte, body: Option<seq<byte>>)
    requires kind != GET_CHUNKS
    ensures AsksBetween(s, Reply(c, s, p, kind, body))
  {
    hide AsksFor;
  }

  lemma ServesAskNothing(c: Config, s: State, env: Env, p: Packet)
    ensures AsksBetween(s, ServeManifest(c, s, p)) && AsksBetween(s, ServeSignature(c, s, p)) && AsksBetween(s, ServeSummary(c, s, p))
    ensures AsksBetween(s, ServeChunks(c, s, env, p))
  {
    hide Reply, Asked, AnswerFor, DecodePrefix, CompleteOn, ServeBits, AsksFor, DecodeChunkRequest, Encode;
    if Asked(c, s, p).Some? {
      ReplyAsksNothing(c, s, p, MANIFEST, Manifests.EncodeManifest(Asked(c, s, p).value));
      ReplyAsksNothing(c, s, p, SIGNATURE, Some(EncodeSignature(Asked(c, s, p).value.signature)));
    }
    if DecodePrefix(p.body).Some? && |DecodePrefix(p.body).value.prefix| <= DEPTH {
      var (kind, body) := AnswerFor(c.sha, s.inventory, DecodePrefix(p.body).value.prefix);
      ReplyAsksNothing(c, s, p, kind, body);
    }
    if DecodeChunkRequest(p.body).Some? {
      ServeBitsSent(c, s.disk, env, DecodeChunkRequest(p.body).value, p, WINDOW);
    }
  }

  lemma HearingAsksNothing(c: Config, s: State, env: Env, p: Packet, pick: Option<ID>)
    ensures AsksBetween(s, Receive(c, s, env, p, pick))
  {
    hide RootSummary, AcceptSummary, AcceptLeaf, AcceptManifest, AcceptChunk, AcceptSignature, ServeManifest,
         ServeSignature, ServeSummary, ServeChunks, AsksFor, Listing;
    ServesAskNothing(c, s, env, p);
  }

  lemma AskChunksFor(c: Config, s: State, env: Env, id: ID, a: Acquisition)
    requires id in s.table.entries && s.table.entries[id].assembly == a.assembly && a.assembly.Some?
    ensures AsksBetween(s, AskChunks(c, s, env, id, a))
  {
    hide BatchFrom, Bitmap, EncodeChunkRequest, DecodeChunkRequest, Outgoing, Fail, Grant, SentValid;
    var received := a.assembly.value.received;
    BatchExact(received, a.cursor);
    var batch := BatchFrom(received, a.cursor);
    if batch.indexes != [] {
      GrantValid(received, a.cursor, env.batch);
      var wanted := SetOf(Grant(batch, env.batch));
      ChunkRequestFits(c, id, batch.base, wanted, a.activeSource, a.transaction);
      assert batch.indexes[0] in batch.indexes;
    }
  }

  lemma InitiateAsks(c: Config, s: State, env: Env, id: ID)
    requires id in s.table.entries && |s.table.entries[id].sources| > 0
    ensures AsksBetween(s, Initiate(c, s, env, id))
  {
    hide AskChunks, Outgoing, Fail, SourceOf, AsksFor;
    var tx := NextTransaction(s.tx);
    var a := Addressed(s.table.entries[id], tx);
    if a.assembly.Some? {
      AskChunksFor(c, s.(tx := tx), env, id, a);
    } else {
      OtherKinds(c, GET_SIGNATURE, a.activeSource, a.transaction, Some(id));
      OtherKinds(c, GET_MANIFEST, a.activeSource, a.transaction, Some(id));
    }
  }

  lemma OtherKinds(c: Config, kind: byte, destination: NodeID, tx: U16, body: Option<seq<byte>>)
    ensures Outgoing(c, kind, destination, tx, body).Some? ==> Outgoing(c, kind, destination, tx, body).value.kind == kind
  {}

  lemma ReconcileAsks(c: Config, s: State, env: Env)
    ensures AsksBetween(s, InitiateReconcile(c, s, env).0) && InitiateReconcile(c, s, env).0.table == s.table
  {
    hide EncodePrefix, HasOutstanding, FirstDue, Retried, AsksFor, Encode;
  }

  lemma WorkAsks(c: Config, s: State, env: Env)
    ensures AsksBetween(s, WorkOrReconcile(c, s, env))
  {
    hide InitiateReconcile, Initiate, NextWork, AsksFor;
    ReconcileAsks(c, s, env);
    match NextWork(s.table, env.now, 0)
    case Some(i) =>
      var turned := s.(table := s.table.(cursor := (i + 1) % |s.table.order|));
      InitiateAsks(c, turned, env, s.table.order[i]);
      AsksAlike(turned.table, s.table);
    case None =>
  }

  lemma AsksAlike(t: Table, u: Table)
    requires t.entries.Keys == u.entries.Keys && forall id :: id in t.entries ==> t.entries[id].assembly == u.entries[id].assembly
    ensures forall p :: AsksFor(t, p) <==> AsksFor(u, p)
  {
    hide DecodeChunkRequest;
  }

  lemma ProceedAsks(c: Config, s: State, env: Env)
    ensures AsksBetween(s, Proceed(c, s, env))
  {
    hide InitiateReconcile, WorkOrReconcile, HasOutstanding, SummaryOf, EncodeSummary, Jitter, Inventory, Outgoing, AsksFor;
    ReconcileAsks(c, s, env);
    WorkAsks(c, s, env);
    WorkAsks(c, InitiateReconcile(c, s, env).0, env);
    OtherKinds(c, SUMMARY, BROADCAST, 0, EncodeSummary(SummaryOf(c.sha, Refresh(c, s, env).inventory, [])));
  }

  lemma TickAsks(c: Config, s: State, env: Env)
    ensures AsksBetween(s, Tick(c, s, env))
  {
    hide Proceed, ExpireJob, ExpireAcquisitions, AsksFor;
    var e := ExpireJob(ExpireAcquisitions(s, env), env);
    ProceedAsks(c, e, env);
    forall id | id in s.table.entries ensures e.table.entries[id].assembly == s.table.entries[id].assembly {
      ExpireSame(s, env, id);
    }
    AsksAlike(e.table, s.table);
  }

  lemma StepAsks(c: Config, s: State, e: Event)
    ensures AsksBetween(s, Step(c, s, e))
  {
    hide Receive, Tick, Decode, AsksFor;
    match e
    case Hear(env, data, pick) =>
      if Decode(data).Some? {
        HearingAsksNothing(c, s, env, Decode(data).value, pick);
      }
    case Clock(env) => TickAsks(c, s, env);
    case Outside(_) =>
  }

  /** The n-th packet went out at step j. */
  ghost predicate SentAt(states: seq<State>, j: nat, n: nat) {
    j + 1 < |states| && |states[j].sent| <= n < |states[j + 1].sent|
  }

  lemma {:induction false} SentSometime(c: Config, states: seq<State>, events: seq<Event>, k: nat, n: nat) returns (j: nat)
    requires Run(c, states, events) && k < |states| && |states[0].sent| <= n < |states[k].sent|
    ensures j < k && SentAt(states, j, n) && states[j + 1].sent[n] == states[k].sent[n]
  {
    hide Step, Possible, AsksFor;
    StepAsks(c, states[k - 1], events[k - 1]);
    if n < |states[k - 1].sent| {
      j := SentSometime(c, states, events, k - 1, n);
    } else {
      j := k - 1;
    }
  }

  /** Nobody is ever asked for chunks but of what was being assembled when the request
      went out, and so had passed the policy before. */
  lemma ChunksOnlyIfAdmitted(c: Config, b: Boot, states: seq<State>, events: seq<Event>, k: nat, n: nat)
    requires Run(c, states, events) && states[0] == Booted(c, b) && k < |states|
    requires n < |states[k].sent| && states[k].sent[n].Some? && states[k].sent[n].value.kind == GET_CHUNKS
    ensures exists j: nat :: j < k && SentAt(states, j, n) && AsksFor(states[j].table, states[k].sent[n].value)
              && var id := DecodeChunkRequest(states[k].sent[n].value.body).value.id;
                 Justified(c, b, states, events, j, id, states[j].table.entries[id].assembly.value.manifest)
  {
    hide Step, Possible, Booted, Justified, DecodeChunkRequest;
    StartSilent(c, b);
    var j := SentSometime(c, states, events, k, n);
    StepAsks(c, states[j], events[j]);
    assert AsksFor(states[j].table, states[k].sent[n].value);
    AssembledOnlyIfAdmitted(c, b, states, events, j, DecodeChunkRequest(states[k].sent[n].value.body).value.id);
  }

  lemma {:induction false} PartialsSilent(c: Config, s: State, env: Env, ids: seq<ID>)
    ensures StartPartials(c, s, env, ids).sent == s.sent
  {
    if ids != [] {
      PartialsSilent(c, s, env, ids[..|ids| - 1]);
      hide LoadPartialOn, Accept, RemoveOn, StartPartials;
    }
  }

  lemma {:induction false} WantedSilent(s: State, ids: seq<ID>)
    ensures StartWanted(s, ids).sent == s.sent
  {
    if ids != [] {
      WantedSilent(s, ids[..|ids| - 1]);
    }
  }

  lemma StartSilent(c: Config, b: Boot)
    ensures Booted(c, b).sent == []
  {
    hide StartPartials, StartWanted, Inventory;
    var blank := Blank(c, b.disk, b.tx, b.env);
    PartialsSilent(c, blank, b.env, b.partials);
    WantedSilent(StartPartials(c, blank, b.env, b.partials), b.wanted);
  }
}
