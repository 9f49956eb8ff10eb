/** Transfers over whole runs, and what one exchange between two nodes brings. */
module TransferRuns {
  import opened Bytes
  import opened Seqs
  import opened Radix
  import opened Manifests
  import opened Assemblies
  import opened Stores
  import opened NodeProtocol
  import opened Scheduler
  import opened NodeState
  import opened NodeSteps
  import opened NodeInvariants
  import opened NodeSafety
  import opened NodeFrames
  import opened NodeOutcomes
  import opened Transfer

  lemma FaithfulFrom(c: Config, s: State, t: State, id: ID, content: seq<byte>)
    requires Faithful(c, s, id, content) && SameAssembly(s.table, t.table, id)
    ensures Faithful(c, t, id, content)
  {}

  /** An acquisition with an assembly never waits for a manifest or a signature. */
  lemma PastManifest(c: Config, s: State, env: Env, p: Packet, id: ID)
    requires Inv(c, s) && id in s.table.entries && s.table.entries[id].assembly.Some?
    ensures AcceptManifest(c, s, env, p, Some(id)) == s && AcceptSignature(c, s, env, p, Some(id)) == s
  {
    EntryValid(c, s, id);
    hide Inv;
  }

  lemma ReceiveFaithful(c: Config, s: State, env: Env, p: Packet, pick: Option<ID>, id: ID, content: seq<byte>)
    requires Inv(c, s) && Faithful(c, s, id, content) && HonestChunk(s, p, pick, id, content)
    ensures var t := Receive(c, s, env, p, pick);
            if id in t.table.entries then Faithful(c, t, id, content) else Delivered(c, t, id, content)
  {
    hide Inv, RootSummary, AcceptSummary, AcceptLeaf, AcceptManifest, AcceptChunk, AcceptSignature, ServeManifest,
         ServeSignature, ServeSummary, ServeChunks, OwnStep, Agrees, Describes, Slice, HonestChunk, Delivered;
    var t := Receive(c, s, env, p, pick);
    LeafSame(c, s, env, p, id);
    PastManifest(c, s, env, p, id);
    if p.kind == CHUNK {
      ChunkFaithful(c, s, env, p, pick, id, content);
      FaithfulFrom(c, s, s, id, content);
    }
    if pick.Some? && pick.value != id && OwnStep(c, s, t, pick.value) {
      OwnStepSame(c, s, t, pick.value, id);
    }
    if SameAssembly(s.table, t.table, id) {
      FaithfulFrom(c, s, t, id, content);
    }
  }

  /** Every chunk that is taken for this acquisition is the content's, whoever sent it. */
  ghost predicate HonestSources(s: State, e: Event, id: ID, content: seq<byte>) {
    e.Hear? && Decode(e.data).Some? ==> HonestChunk(s, Decode(e.data).value, e.pick, id, content)
  }

  lemma StepFaithful(c: Config, s: State, e: Event, id: ID, content: seq<byte>)
    requires Inv(c, s) && Faithful(c, s, id, content) && HonestSources(s, e, id, content)
    ensures var t := Step(c, s, e);
            if id in t.table.entries then Faithful(c, t, id, content) else Delivered(c, t, id, content)
  {
    hide Inv, Receive, Tick, Decode, Agrees, Describes, Delivered, HonestChunk;
    match e
    case Hear(env, data, pick) =>
      if Decode(data).Some? {
        ReceiveFaithful(c, s, env, Decode(data).value, pick, id, content);
      }
    case Clock(env) =>
      TickSame(c, s, env, id);
      FaithfulFrom(c, s, Tick(c, s, env), id, content);
    case Outside(_) =>
  }

  /** The acquisition ended in this step, with the content complete on disk. */
  ghost predicate Completed(c: Config, s: State, t: State, id: ID, content: seq<byte>) {
    id in s.table.entries && id !in t.table.entries && Delivered(c, t, id, content)
  }

  /** End to end: through losses, repetitions, reordering, other traffic, timeouts and
      failed writes, what has arrived stays the content's, and when the acquisition
      ends the store holds exactly the content, complete. */
  lemma {:induction false} EndToEnd(c: Config, states: seq<State>, events: seq<Event>, k: nat, id: ID, content: seq<byte>)
    requires Run(c, states, events) && Inv(c, states[0]) && k < |states|
    requires Faithful(c, states[0], id, content)
    requires forall i :: 0 <= i < |events| ==> HonestSources(states[i], events[i], id, content)
    ensures Faithful(c, states[k], id, content) || exists j :: 0 <= j < k && Completed(c, states[j], states[j + 1], id, content)
  {
    hide Inv, Step, Possible, HonestSources, Agrees, Describes, Delivered;
    if k > 0 {
      EndToEnd(c, states, events, k - 1, id, content);
      if Faithful(c, states[k - 1], id, content) {
        RunKeeps(c, states, events, k - 1);
        StepFaithful(c, states[k - 1], events[k - 1], id, content);
        assert !Faithful(c, states[k], id, content) ==> Completed(c, states[k - 1], states[k], id, content);
      }
    }
  }

  // ---- from the signature on ----------------------------------------------------------

  lemma BeginsFresh(disk: Disk, m: Manifest, w: WriteResult)
    requires forall p :: p in disk ==> !IsPartialOf(p, m.id)
    ensures BeginOn(disk, m, w).1.Ok? <==> SafeName(m.filename) && w.Written?
    ensures BeginOn(disk, m, w).1.Ok? ==> BeginOn(disk, m, w).1.value == Fresh(m)
  {
    hide SafeName;
    assert !(PartialManifest(m.id) in disk);
    LoadedNothing(disk[PartialManifest(m.id) := ToJson(m)], m, m.chunkCount);
    hide Loaded;
  }

  lemma FreshAgrees(m: Manifest, content: seq<byte>)
    requires Geometry(m) && |content| == m.length
    ensures Agrees(Fresh(m), content)
  {
    hide Geometry, Slice;
  }

  /** What is begun afresh is faithful to whatever content its manifest describes, or is
      an empty content that is complete at once. */
  lemma StartFaithful(c: Config, s: State, env: Env, id: ID, a: Acquisition, m: Manifest, content: seq<byte>)
    requires id in s.table.entries && m.id == id && Presentable(m) && Encodable(m) && Describes(c.sha, m, content)
    requires a.assembly.None? && forall p :: p in s.disk ==> !IsPartialOf(p, id)
    ensures var t := StartAssembly(c, s, env, id, a, m);
            if SafeName(m.filename) && env.write(1).Written?
            then if id in t.table.entries then Faithful(c, t, id, content) else Delivered(c, t, id, content)
            else id in t.table.entries && t.table.entries[id].assembly.None?
  {
    hide BeginOn, Finish, RemoveOn, OwnStep, SafeName, Geometry, Encodable, Describes, Agrees, Backoff;
    BeginsFresh(s.disk, m, env.write(1));
    DescribesGeometry(c, m, content);
    FreshAgrees(m, content);
    FailSame(a, env);
    var (disk, begun) := BeginOn(s.disk, m, env.write(1));
    if begun.Ok? {
      var b := a.(assembly := Some(begun.value), manifest := None, manifestSource := 0);
      ProgressedSame(b, env);
      if begun.value.Whole() {
        FinishFaithful(c, s.(disk := disk), env, id, b, begun.value, [env.write(2), env.write(3), env.write(4)],
                       d => (RemoveOn(d, id, env.order), None), content);
      }
    }
  }

  lemma DescribesGeometry(c: Config, m: Manifest, content: seq<byte>)
    requires Describes(c.sha, m, content)
    ensures Geometry(m) && |content| == m.length
  {}

  /** The signature that completes a manifest starts a transfer: with nothing of it on
      disk before, and with its writes, the acquisition becomes faithful to the content
      that the manifest describes exactly when the policy passes it and it can be stored;
      otherwise it has no assembly or ends. */
  lemma SignatureStarts(c: Config, s: State, e: Event, id: ID, content: seq<byte>)
    requires Inv(c, s) && Possible(c, s, e) && Judged(c, s, e, id).Some?
    requires Describes(c.sha, Judged(c, s, e, id).value, content) && forall p :: p in s.disk ==> !IsPartialOf(p, id)
    requires e.env.write(0).Written? && e.env.write(1).Written?
    ensures var m, t := Judged(c, s, e, id).value, Step(c, s, e);
            if Passed(c, s.disk, id, m) && Encodable(m) && SafeName(m.filename)
            then if id in t.table.entries then Faithful(c, t, id, content) else Completed(c, s, t, id, content)
            else id in t.table.entries ==> t.table.entries[id].assembly.None?
  {
    hide Inv, Judge, DecodeSignature, Decode, OwnStep, Backoff, Chosen, Describes, Encodable, SafeName, Geometry, Faithful, Delivered, Passed;
    EntryValid(c, s, id);
    var a, p := s.table.entries[id], Decode(e.data).value;
    var signature := DecodeSignature(p.body).value;
    SignedPresentable(a.manifest.value, signature);
    JudgeStarts(c, s, e.env, id, a, Signed(a.manifest.value, signature), p.source, content);
  }

  lemma JudgeStarts(c: Config, s: State, env: Env, id: ID, a: Acquisition, m: Manifest, source: NodeID, content: seq<byte>)
    requires id in s.table.entries && s.table.entries[id] == a && a.assembly.None? && m.id == id && Presentable(m)
    requires Describes(c.sha, m, content) && forall p :: p in s.disk ==> !IsPartialOf(p, id)
    requires env.write(0).Written? && env.write(1).Written?
    ensures var t := Judge(c, s, env, id, a, m, source);
            if Passed(c, s.disk, id, m) && Encodable(m) && SafeName(m.filename)
            then if id in t.table.entries then Faithful(c, t, id, content) else Delivered(c, t, id, content)
            else id in t.table.entries ==> t.table.entries[id].assembly.None?
  {
    hide Accept, StartAssembly, Fail, Settle, Encodable, Presentable, SignatureHolds, OwnStep, SignerAdmitted, Describes, SafeName,
         Faithful, Delivered, MarkInspected, SaveKnownOn;
    var marked := s.(inspected := MarkInspected(s.inspected, m.id, source));
    SettleEnds(marked, id, Settlement.Rejected);
    var (disk, saved) := SaveKnownOn(s.disk, m, env.write(0));
    SavedKnown(s.disk, m, env.write(0));
    SavedElsewhere(s.disk, m, env.write(0));
    AcceptExact(c.ed, c.policy, m, HasPartial(disk, id), Wanted(disk, id));
    FailSame(a, env);
    SettleEnds(marked.(disk := disk), id, Deferred);
    if saved {
      StartFaithful(c, marked.(disk := disk), env, id, a, m, content);
    }
  }

  lemma SavedElsewhere(disk: Disk, m: Manifest, w: WriteResult)
    requires w.Written?
    ensures SaveKnownOn(disk, m, w).1 <==> Encodable(m)
    ensures (forall p :: p in disk ==> !IsPartialOf(p, m.id)) ==> forall p :: p in SaveKnownOn(disk, m, w).0 ==> !IsPartialOf(p, m.id)
  {
    hide Encodable;
  }

  lemma RestOfRun(c: Config, states: seq<State>, events: seq<Event>)
    requires Run(c, states, events) && events != []
    ensures Run(c, states[1..], events[1..])
  {
    hide Step, Possible;
  }

  /** The whole way: from the signature that the policy passes, over every run in which
      the chunks taken are the content's, to exactly the content, complete. */
  lemma FromSignature(c: Config, states: seq<State>, events: seq<Event>, k: nat, id: ID, content: seq<byte>)
    requires Run(c, states, events) && Inv(c, states[0]) && 1 <= k < |states| && Judged(c, states[0], events[0], id).Some?
    requires var m := Judged(c, states[0], events[0], id).value;
             Describes(c.sha, m, content) && Passed(c, states[0].disk, id, m) && Encodable(m) && SafeName(m.filename)
    requires (forall p :: p in states[0].disk ==> !IsPartialOf(p, id)) && events[0].env.write(0).Written? && events[0].env.write(1).Written?
    requires forall i :: 1 <= i < |events| ==> HonestSources(states[i], events[i], id, content)
    ensures Faithful(c, states[k], id, content) || exists j :: 0 <= j < k && Completed(c, states[j], states[j + 1], id, content)
  {
    hide Inv, Step, Judged, Describes, Passed, Encodable, SafeName, Possible, Faithful, Delivered, HonestSources;
    assert states[1] == Step(c, states[0], events[0]) && Possible(c, states[0], events[0]);
    SignatureStarts(c, states[0], events[0], id, content);
    if id in states[1].table.entries {
      StepKeeps(c, states[0], events[0]);
      RestOfRun(c, states, events);
      EndToEnd(c, states[1..], events[1..], k - 1, id, content);
      if j :| 0 <= j < k - 1 && Completed(c, states[1..][j], states[1..][j + 1], id, content) {
        assert Completed(c, states[j + 1], states[j + 2], id, content);
      }
    }
  }
}
