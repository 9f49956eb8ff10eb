/** What a signature and a last chunk lead to, both ways: not only for which reason an
    acquisition ends, but that it does. */
module NodeVerdicts {
  import opened Bytes
  import opened Seqs
  import opened Radix
  import opened Manifests
  import opened Assemblies
  import opened Stores
  import opened NodeProtocol
  import opened Scheduler
  import opened NodeState
  import opened NodeSteps
  import opened NodeInvariants
  import opened NodeSafety
  import opened NodeFrames
  import opened NodeOutcomes
  import opened Restarts

  // ---- inspected sources --------------------------------------------------------------

  /** A source that was marked is remembered, or as many others are. */
  lemma MarkRemembers(i: Inspected, id: ID, source: NodeID)
    ensures var j := MarkInspected(i, id, source);
            SourceInspected(j, id, source) || (id in j.sources && |j.sources[id]| >= MAX_SOURCES)
  {}

  /** Marking forgets nothing, unless room has to be made for a new ID: then exactly the
      oldest. */
  lemma MarkForgetsOldest(i: Inspected, id: ID, source: NodeID, other: ID, from_: NodeID)
    requires InspectedValid(i) && SourceInspected(i, other, from_)
    ensures SourceInspected(MarkInspected(i, id, source), other, from_) <==>
              !(id !in i.sources && |i.order| >= MAX_INSPECTED_IDS && other == i.order[0])
  {
    if id !in i.sources && |i.order| >= MAX_INSPECTED_IDS {
      assert i.order[0] in i.order;
    }
  }

  // ---- signatures ---------------------------------------------------------------------

  /** The metadata can be saved, or is there already. */
  predicate Saves(disk: Disk, m: Manifest, w: WriteResult) {
    Encodable(m) && (w.Written? || (KnownManifest(m.id) in disk && disk[KnownManifest(m.id)] == ToJson(m)))
  }

  lemma SavesExact(disk: Disk, m: Manifest, w: WriteResult)
    ensures SaveKnownOn(disk, m, w).1 <==> Saves(disk, m, w)
  {
    hide Encodable;
  }

  /** What the signature that completes a manifest leads to. One that does not hold ends the
      acquisition as rejected, without a trace on disk; one that holds over a manifest which
      the policy does not pass ends it as deferred, the source remembered, once the metadata
      is saved; and otherwise its partial directory is opened. */
  ghost predicate Verdict(c: Config, s: State, t: State, env: Env, id: ID, m: Manifest, source: NodeID) {
    if !SignatureHolds(c.ed, m) then
      id !in t.table.entries && id in t.settled && t.settled[id] == Settlement.Rejected && t.disk == s.disk && id !in t.inspected.sources
    else if !Saves(s.disk, m, env.write(0)) then
      id in t.table.entries && t.table.entries[id].assembly.None?
    else if !Passed(c, s.disk, id, m) then
      id !in t.table.entries && id in t.settled && t.settled[id] == Deferred
      && (SourceInspected(t.inspected, id, source) || (id in t.inspected.sources && |t.inspected.sources[id]| >= MAX_SOURCES))
    else Begun(c, t, SaveKnownOn(s.disk, m, env.write(0)).0, env, id, m)
  }

  /** After progress the next attempt is due in a tenth of a second, and earlier failures are
      forgotten. */
  predicate GoesOnSoon(a: Acquisition, env: Env) {
    a.waiting.Idle? && a.failures == 0 && a.nextAttempt == env.now + 100 * MILLISECOND
  }

  /** What the partial directory of a publication that is passed leads to. Where it cannot be
      opened the acquisition waits for another attempt; what it holds is gone on with; and if
      it holds the whole of it already, that is committed at once, unless something hinders
      the commit, or removed if its hash is wrong. */
  ghost predicate Begun(c: Config, t: State, disk: Disk, env: Env, id: ID, m: Manifest) {
    var (holding, r) := BeginOn(disk, m, env.write(1));
    if r.Err? || (r.value.Whole() && ContentOf(c.sha, r.value).Err?) then id in t.table.entries && t.table.entries[id].assembly.None?
    else if !r.value.Whole() then
      id in t.table.entries && t.table.entries[id].assembly == Some(r.value) && GoesOnSoon(t.table.entries[id], env)
    else if Hindered(holding, id, [env.write(2), env.write(3), env.write(4)], env.order) then
      id in t.table.entries && t.table.entries[id].assembly == Some(r.value)
    else id !in t.table.entries && id in t.settled && t.settled[id] == Committed
  }

  lemma StartBegun(c: Config, s: State, env: Env, id: ID, a: Acquisition, m: Manifest)
    requires id in s.table.entries && a.assembly.None? && m.id == id && SignatureHolds(c.ed, m)
    ensures Begun(c, StartAssembly(c, s, env, id, a, m), s.disk, env, id, m)
  {
    hide CommitOn, BeginOn, OwnStep, ContentOf, SignatureHolds, Hindered, Settle, Backoff, Inventory, RemoveOn, Fail;
    var (disk, begun) := BeginOn(s.disk, m, env.write(1));
    FailSame(a, env);
    if begun.Ok? && begun.value.Whole() {
      var parts := begun.value;
      var w := [env.write(2), env.write(3), env.write(4)];
      CommitExact(c.sha, c.ed, disk, parts, w, env.order);
      WholeCommit(c.sha, c.ed, disk, parts, w, env.order);
      var (after, r) := CommitOn(c.sha, c.ed, disk, parts, w, env.order);
      SettleEnds(Refresh(c, s.(disk := disk).(disk := after), env), id, Committed);
      var b := a.(assembly := Some(parts), manifest := None, manifestSource := 0);
      FailSame(b.(assembly := None), env);
      FailSame(b, env);
    }
  }

  lemma WholeCommit(sha: Hash, ed: Verifier, disk: Disk, p: Parts, w: seq<WriteResult>, order: seq<FilePath>)
    requires |w| == 3 && p.Whole()
    ensures CommitOn(sha, ed, disk, p, w, order).1 == Err(WrongHash) <==> ContentOf(sha, p).Err?
  {
    hide SignatureHolds, RemoveOn, HasPartialFiles, PublishOn, Joined;
  }

  lemma DecideVerdict(c: Config, s: State, env: Env, id: ID, a: Acquisition, m: Manifest)
    requires id in s.table.entries && s.table.entries[id] == a && a.assembly.None? && m.id == id && Presentable(m)
    requires SignatureHolds(c.ed, m)
    ensures var t := Decide(c, s, env, id, a, m);
            if !Saves(s.disk, m, env.write(0)) then id in t.table.entries && t.table.entries[id].assembly.None?
            else if !Passed(c, s.disk, id, m) then
              id !in t.table.entries && id in t.settled && t.settled[id] == Deferred && t.inspected == s.inspected
            else Begun(c, t, SaveKnownOn(s.disk, m, env.write(0)).0, env, id, m)
  {
    hide Begun, SaveKnownOn, Accept, StartAssembly, Fail, RemoveFirst, Kept, Saves, Encodable, Presentable, SignatureHolds, OwnStep, SignerAdmitted;
    SavesExact(s.disk, m, env.write(0));
    var (disk, saved) := SaveKnownOn(s.disk, m, env.write(0));
    SavedKnown(s.disk, m, env.write(0));
    AcceptExact(c.ed, c.policy, m, HasPartial(disk, id), Wanted(disk, id));
    FailSame(a, env);
    if saved && Accept(c.ed, c.policy, m, HasPartial(disk, id), Wanted(disk, id)) {
      StartBegun(c, s.(disk := disk), env, id, a, m);
    }
  }

  lemma JudgeVerdict(c: Config, s: State, env: Env, id: ID, a: Acquisition, m: Manifest, source: NodeID)
    requires id in s.table.entries && s.table.entries[id] == a && a.assembly.None? && m.id == id && Presentable(m)
    ensures Verdict(c, s, Judge(c, s, env, id, a, m, source), env, id, m, source)
  {
    hide Begun, SaveKnownOn, Decide, MarkInspected, Presentable, SignatureHolds, OwnStep, Passed, Saves, SourceInspected, RemoveFirst;
    var marked := s.(inspected := MarkInspected(s.inspected, m.id, source));
    MarkRemembers(s.inspected, id, source);
    if SignatureHolds(c.ed, m) {
      DecideVerdict(c, marked, env, id, a, m);
    }
  }

  lemma JudgedExactly(c: Config, s: State, e: Event, id: ID)
    requires Inv(c, s) && Possible(c, s, e) && Judged(c, s, e, id).Some?
    ensures Verdict(c, s, Step(c, s, e), e.env, id, Judged(c, s, e, id).value, Decode(e.data).value.source)
  {
    hide Inv, Judge, DecodeSignature, Verdict, Decode, OwnStep, Backoff, Chosen;
    EntryValid(c, s, id);
    var a, p := s.table.entries[id], Decode(e.data).value;
    var signature := DecodeSignature(p.body).value;
    SignedPresentable(a.manifest.value, signature);
    JudgeVerdict(c, s, e.env, id, a, Signed(a.manifest.value, signature), p.source);
  }

  // ---- commits ------------------------------------------------------------------------

  /** An awaited manifest is staged with its source, and the next attempt, for its signature,
      is due in a tenth of a second. */
  lemma ManifestStaged(c: Config, s: State, env: Env, p: Packet, id: ID)
    requires id in s.table.entries && s.table.entries[id].waiting.ForManifest? && DecodeManifest(id, p.body).Some?
    ensures var a, b := s.table.entries[id], AcceptManifest(c, s, env, p, Some(id)).table.entries[id];
            b.manifest == DecodeManifest(id, p.body) && b.manifestSource == p.source && b.waiting.Idle? && b.assembly == a.assembly
            && b.sources == a.sources && b.failures == a.failures && b.nextAttempt == env.now + 100 * MILLISECOND
  {
    hide DecodeManifest;
  }

  /** What one awaited chunk leads to that is not the last one missing: once it is stored it
      is in the assembly and no longer waited for, and behind the last one that was asked for
      the acquisition goes on soon; if it cannot be stored the request stays as it is. */
  lemma ChunkTaken(c: Config, s: State, env: Env, p: Packet, id: ID)
    requires id in s.table.entries && s.table.entries[id].waiting.ForChunks? && s.table.entries[id].assembly.Some?
    requires DecodeChunk(p.body).Some? && DecodeChunk(p.body).value.index in s.table.entries[id].wanted
    requires var parts, chunk := s.table.entries[id].assembly.value, DecodeChunk(p.body).value;
             && AddChunk(parts, chunk.index, chunk.data).Ok? && !parts.received[chunk.index]
             && !AddChunk(parts, chunk.index, chunk.data).value.Whole()
    ensures var a, chunk := s.table.entries[id], DecodeChunk(p.body).value;
            var t := AcceptChunk(c, s, env, p, Some(id));
            var b := t.table.entries[id];
            if env.write(0).Written? then
              && b.assembly == Some(AddChunk(a.assembly.value, chunk.index, chunk.data).value) && b.wanted == a.wanted - {chunk.index}
              && PartialChunk(a.assembly.value.manifest.id, chunk.index) in t.disk
              && t.disk[PartialChunk(a.assembly.value.manifest.id, chunk.index)] == Plain(chunk.data)
              && if b.wanted == {} then GoesOnSoon(b, env) else b.waiting == a.waiting && b.deadline == a.deadline
            else b == a
  {
    hide DecodeChunk, AddChunk, OwnStep, Finish;
  }

  /** The event brings the last chunk of an assembly whose hash is right. */
  ghost predicate Completes(c: Config, s: State, e: Event, id: ID) {
    && e.Hear? && Decode(e.data).Some? && e.pick == Some(id) && e.env.write(0).Written?
    && var p := Decode(e.data).value;
       && p.source != c.id && p.destination == c.id != BROADCAST && p.kind == CHUNK && Brings(s, p, id)
       && var parts, chunk := s.table.entries[id].assembly.value, DecodeChunk(p.body).value;
          AddChunk(parts, chunk.index, chunk.data).Ok? && !parts.received[chunk.index]
          && ContentOf(c.sha, AddChunk(parts, chunk.index, chunk.data).value).Ok?
  }

  /** What keeps the commit of that assembly from its end. */
  ghost predicate HinderedAt(c: Config, s: State, e: Event, id: ID) {
    && Completes(c, s, e, id)
    && var parts, chunk := s.table.entries[id].assembly.value, DecodeChunk(Decode(e.data).value.body).value;
       Hindered(AddOn(s.disk, parts, chunk.index, chunk.data, e.env.write(0)).0, parts.manifest.id,
                [e.env.write(1), e.env.write(2), e.env.write(3)], e.env.order)
  }

  /** The last chunk ends the acquisition as committed exactly if nothing hinders the
      commit; otherwise the whole assembly stays in memory. */
  lemma LastChunk(c: Config, s: State, e: Event, id: ID)
    requires Inv(c, s) && Completes(c, s, e, id)
    ensures var t := Step(c, s, e);
            if HinderedAt(c, s, e, id) then id in t.table.entries && t.table.entries[id].assembly.Some? && t.table.entries[id].assembly.value.Whole()
            else id !in t.table.entries && id in t.settled && t.settled[id] == Committed
  {
    EntryValid(c, s, id);
    hide Inv, TakeChunk, DecodeChunk, Decode, OwnStep, AddChunk, ContentOf, SignatureHolds, Hindered, AddOn;
    var a, chunk := s.table.entries[id], DecodeChunk(Decode(e.data).value.body).value;
    TakesLast(c, s, e.env, id, a, chunk);
    Hears(c, s, e, id);
  }

  lemma Hears(c: Config, s: State, e: Event, id: ID)
    requires Completes(c, s, e, id)
    ensures Step(c, s, e) == TakeChunk(c, s, e.env, id, s.table.entries[id], DecodeChunk(Decode(e.data).value.body).value)
  {
    hide TakeChunk, DecodeChunk, Decode, OwnStep, AddChunk, ContentOf;
  }

  lemma WholeContent(sha: Hash, p: Parts)
    requires ContentOf(sha, p).Ok?
    ensures p.Whole()
  {}

  lemma TakesLast(c: Config, s: State, env: Env, id: ID, a: Acquisition, chunk: ChunkData)
    requires id in s.table.entries && a.assembly.Some? && env.write(0).Written? && SignatureHolds(c.ed, a.assembly.value.manifest)
    requires AddChunk(a.assembly.value, chunk.index, chunk.data).Ok? && !a.assembly.value.received[chunk.index]
    requires ContentOf(c.sha, AddChunk(a.assembly.value, chunk.index, chunk.data).value).Ok?
    ensures var t := TakeChunk(c, s, env, id, a, chunk);
            var stored := AddOn(s.disk, a.assembly.value, chunk.index, chunk.data, env.write(0)).0;
            if Hindered(stored, a.assembly.value.manifest.id, [env.write(1), env.write(2), env.write(3)], env.order)
            then id in t.table.entries && t.table.entries[id].assembly == Some(AddChunk(a.assembly.value, chunk.index, chunk.data).value)
                 && AddChunk(a.assembly.value, chunk.index, chunk.data).value.Whole()
            else id !in t.table.entries && id in t.settled && t.settled[id] == Committed
  {
    hide CommitOn, OwnStep, ContentOf, SignatureHolds, Hindered, Restarted, Settle, Backoff, Inventory, WriteOn;
    var q := AddChunk(a.assembly.value, chunk.index, chunk.data).value;
    var (stored, added) := AddOn(s.disk, a.assembly.value, chunk.index, chunk.data, env.write(0));
    assert added == Ok(q);
    WholeContent(c.sha, q);
    var w := [env.write(1), env.write(2), env.write(3)];
    CommitExact(c.sha, c.ed, stored, q, w, env.order);
    NotWrongHash(c.sha, c.ed, stored, q, w, env.order);
    var (disk, r) := CommitOn(c.sha, c.ed, stored, q, w, env.order);
    SettleEnds(Refresh(c, s.(disk := stored).(disk := disk), env), id, Committed);
    FailSame(a.(wanted := a.wanted - {chunk.index}, assembly := Some(q)), env);
    hide AddChunk, Fail, AddOn;
  }

  lemma NotWrongHash(sha: Hash, ed: Verifier, disk: Disk, p: Parts, w: seq<WriteResult>, order: seq<FilePath>)
    requires |w| == 3 && ContentOf(sha, p).Ok?
    ensures CommitOn(sha, ed, disk, p, w, order).1 != Err(WrongHash)
  {
    hide ContentOf, SignatureHolds, RemoveOn, HasPartialFiles, PublishOn;
  }
}
