/** A crash inside an event: between any two file operations that a signature or a chunk
    makes a node do, what was assembled before can be found again. */
module Crashes {
  import opened Bytes
  import opened Seqs
  import opened Radix
  import opened Manifests
  import opened Assemblies
  import opened Stores
  import opened StoreOperations
  import opened NodeProtocol
  import opened Scheduler
  import opened NodeState
  import opened NodeSteps
  import opened NodeInvariants
  import opened NodeSafety
  import opened NodeOutcomes
  import opened NodeGate
  import opened NodeFiling
  import opened Restarts
  import opened NodeDurability

  // ---- the disks in between -----------------------------------------------------------

  /** A removal that got as far as the first n files. */
  ghost predicate Removing(disk: Disk, id: ID, order: seq<FilePath>, d: Disk) {
    exists n: nat :: n <= |order| && d == RemoveOn(disk, id, order[..n])
  }

  /** Content, manifest, mark, and then the partial files one by one. */
  ghost predicate Committing(c: Config, disk: Disk, p: Parts, w: seq<WriteResult>, order: seq<FilePath>, d: Disk)
    requires |w| == 3
  {
    || d == disk
    || (ContentOf(c.sha, p).Ok? && SignatureHolds(c.ed, p.manifest)
        && var id := p.manifest.id;
           var first := WriteOn(disk, ObjectContent(id), Plain(ContentOf(c.sha, p).value), w[0]);
           var second := WriteOn(first, ObjectManifest(id), ToJson(p.manifest), w[1]);
           var third := WriteOn(second, ObjectComplete(id), Plain(VERIFIED), w[2]);
           || d == first
           || (w[0].Written? && d == second)
           || (w[0].Written? && w[1].Written? && d == third)
           || (w[0].Written? && w[1].Written? && w[2].Written? && Removing(third, id, order, d)))
  }

  /** A chunk is stored; the last one missing commits, or starts the assembly over. */
  ghost predicate Taking(c: Config, disk: Disk, before: Assembled, chunk: ChunkData, env: Env, d: Disk) {
    var (stored, added) := AddOn(disk, before, chunk.index, chunk.data, env.write(0));
    || d == disk || d == stored
    || (added.Ok? && added.value.Whole()
        && (|| Committing(c, stored, added.value, [env.write(1), env.write(2), env.write(3)], env.order, d)
            || (ContentOf(c.sha, added.value) == Err(HashMismatch)
                && (Removing(stored, before.manifest.id, env.order, d)
                    || d == RestartOn(stored, before.manifest, env.order, env.write(4)).0))))
  }

  /** A manifest is saved as known, its partial directory begun, and what is whole already
      committed or removed. */
  ghost predicate Judging(c: Config, disk: Disk, m: Manifest, env: Env, d: Disk) {
    || d == disk
    || (SignatureHolds(c.ed, m)
        && var (known, saved) := SaveKnownOn(disk, m, env.write(0));
           || d == known
           || (saved && Accept(c.ed, c.policy, m, HasPartial(known, m.id), Wanted(known, m.id))
               && var (holding, begun) := BeginOn(known, m, env.write(1));
                  || d == holding
                  || (begun.Ok? && begun.value.Whole()
                      && (|| Committing(c, holding, begun.value, [env.write(2), env.write(3), env.write(4)], env.order, d)
                          || (ContentOf(c.sha, begun.value) == Err(HashMismatch) && Removing(holding, m.id, env.order, d))))))
  }

  /** A disk that a crash inside this event may leave. */
  ghost predicate MayLeave(c: Config, s: State, e: Event, d: Disk) {
    || d == s.disk
    || (e.Hear? && Decode(e.data).Some? && e.pick.Some? && e.pick.value in s.table.entries
        && var p, id := Decode(e.data).value, e.pick.value;
           && p.source != c.id && p.destination == c.id != BROADCAST
           && (|| (p.kind == SIGNATURE && Judged(c, s, e, id).Some? && Judging(c, s.disk, Judged(c, s, e, id).value, e.env, d))
               || (p.kind == CHUNK && Brings(s, p, id)
                   && Taking(c, s.disk, s.table.entries[id].assembly.value, DecodeChunk(p.body).value, e.env, d))))
  }

  // ---- the last of them is what the event makes of the disk ---------------------------

  lemma RemovingLast(disk: Disk, id: ID, order: seq<FilePath>)
    ensures Removing(disk, id, order, RemoveOn(disk, id, order))
  {
    assert order[..|order|] == order;
  }

  lemma CommittingLast(c: Config, disk: Disk, p: Parts, w: seq<WriteResult>, order: seq<FilePath>)
    requires |w| == 3
    ensures Committing(c, disk, p, w, order, CommitOn(c.sha, c.ed, disk, p, w, order).0)
  {
    hide SignatureHolds, RemoveOn, HasPartialFiles, WriteOn, ContentOf, Removing;
    if ContentOf(c.sha, p).Ok? && PublishOn(disk, p.manifest, ContentOf(c.sha, p).value, w).1 {
      RemovingLast(PublishOn(disk, p.manifest, ContentOf(c.sha, p).value, w).0, p.manifest.id, order);
    }
  }

  lemma MismatchKeeps(c: Config, disk: Disk, p: Parts, w: seq<WriteResult>, order: seq<FilePath>)
    requires |w| == 3 && CommitOn(c.sha, c.ed, disk, p, w, order).1 == Err(WrongHash)
    ensures CommitOn(c.sha, c.ed, disk, p, w, order).0 == disk && ContentOf(c.sha, p) == Err(HashMismatch)
  {
    hide SignatureHolds, RemoveOn, HasPartialFiles, PublishOn, ContentOf;
  }

  lemma FinishDisk(c: Config, s: State, env: Env, id: ID, a: Acquisition, parts: Assembled, w: seq<WriteResult>,
                   spoiled: Disk -> (Disk, Option<Assembled>))
    requires |w| == 3 && id in s.table.entries
    ensures var d := Finish(c, s, env, id, a, parts, w, spoiled).disk;
            || Committing(c, s.disk, parts, w, env.order, d)
            || (ContentOf(c.sha, parts) == Err(HashMismatch) && d == spoiled(s.disk).0)
  {
    hide CommitOn, Committing, OwnStep, RemoveEntry, ClearInspected, Fail, Inventory, ContentOf;
    CommittingLast(c, s.disk, parts, w, env.order);
    if CommitOn(c.sha, c.ed, s.disk, parts, w, env.order).1 == Err(WrongHash) {
      MismatchKeeps(c, s.disk, parts, w, env.order);
    }
  }

  lemma TakingLast(c: Config, s: State, env: Env, id: ID, a: Acquisition, chunk: ChunkData)
    requires id in s.table.entries && a.assembly.Some?
    ensures Taking(c, s.disk, a.assembly.value, chunk, env, TakeChunk(c, s, env, id, a, chunk).disk)
  {
    hide AddOn, Finish, RestartOn, OwnStep, Committing, Removing, ContentOf;
    var (disk, added) := AddOn(s.disk, a.assembly.value, chunk.index, chunk.data, env.write(0));
    if added.Ok? && added.value.Whole() {
      FinishDisk(c, s.(disk := disk), env, id, a.(assembly := Some(added.value), wanted := a.wanted - {chunk.index}),
                 added.value, [env.write(1), env.write(2), env.write(3)], d => Restarted(d, added.value, env));
    }
  }

  lemma JudgingLast(c: Config, s: State, env: Env, id: ID, a: Acquisition, m: Manifest, source: NodeID)
    requires id in s.table.entries && m.id == id
    ensures Judging(c, s.disk, m, env, Judge(c, s, env, id, a, m, source).disk)
  {
    hide SaveKnownOn, BeginOn, Finish, Accept, SignatureHolds, OwnStep, MarkInspected, RemoveEntry, ClearInspected, Fail, Progressed,
         Committing, Removing, RemoveOn, ContentOf;
    var marked := s.(inspected := MarkInspected(s.inspected, m.id, source));
    var known := SaveKnownOn(s.disk, m, env.write(0)).0;
    var (holding, begun) := BeginOn(known, m, env.write(1));
    if begun.Ok? && begun.value.Whole() {
      FinishDisk(c, marked.(disk := known).(disk := holding), env, id, a.(assembly := Some(begun.value), manifest := None, manifestSource := 0),
                 begun.value, [env.write(2), env.write(3), env.write(4)], d => (RemoveOn(d, id, env.order), None));
      RemovingLast(holding, id, env.order);
    }
  }

  /** What an event makes of the disk is one of those. */
  lemma StepLeaves(c: Config, s: State, e: Event)
    requires Inv(c, s) && !e.Outside?
    ensures MayLeave(c, s, e, Step(c, s, e).disk)
  {
    hide Inv, Tick, Decode, Judging, Taking, RootSummary, AcceptSummary, AcceptLeaf, ServeManifest, ServeSignature, ServeSummary, ServeChunks,
         Manifests.DecodeManifest, DecodeSignature, DecodeChunk, Judge, TakeChunk, Fail, OwnStep;
    match e
    case Hear(env, data, pick) =>
      if Decode(data).Some? && pick.Some? && pick.value in s.table.entries {
        var p, id, a := Decode(data).value, pick.value, s.table.entries[pick.value];
        if a.waiting.ForSignature? && a.manifest.Some? && DecodeSignature(p.body).Some? {
          NamedPresentable(c, s, id, DecodeSignature(p.body).value);
          JudgingLast(c, s, env, id, a, Signed(a.manifest.value, DecodeSignature(p.body).value), p.source);
        }
        if Brings(s, p, id) {
          TakingLast(c, s, env, id, a, DecodeChunk(p.body).value);
        }
      }
    case Clock(env) => TickKeepsDisk(c, s, env);
  }

  // ---- other publications -------------------------------------------------------------

  lemma RemovingTouches(disk: Disk, id: ID, order: seq<FilePath>, d: Disk)
    requires Removing(disk, id, order, d)
    ensures Touches(disk, d, id)
  {
    var n: nat :| n <= |order| && d == RemoveOn(disk, id, order[..n]);
    RemoveTouches(disk, id, order[..n]);
  }

  lemma CommittingTouches(c: Config, disk: Disk, p: Parts, w: seq<WriteResult>, order: seq<FilePath>, d: Disk)
    requires |w| == 3 && Committing(c, disk, p, w, order, d)
    ensures Touches(disk, d, p.manifest.id)
  {
    hide Touches, SignatureHolds, WriteOn, Removing;
    var id := p.manifest.id;
    TouchesRefl(disk, id);
    if d != disk {
      var content := ContentOf(c.sha, p).value;
      hide ContentOf;
      var first := WriteOn(disk, ObjectContent(id), Plain(content), w[0]);
      var second := WriteOn(first, ObjectManifest(id), ToJson(p.manifest), w[1]);
      var third := WriteOn(second, ObjectComplete(id), Plain(VERIFIED), w[2]);
      WriteTouches(disk, ObjectContent(id), Plain(content), w[0]);
      WriteTouches(first, ObjectManifest(id), ToJson(p.manifest), w[1]);
      WriteTouches(second, ObjectComplete(id), Plain(VERIFIED), w[2]);
      TouchesTrans(disk, first, second, id);
      TouchesTrans(disk, second, third, id);
      if Removing(third, id, order, d) {
        RemovingTouches(third, id, order, d);
        TouchesTrans(disk, third, d, id);
      }
    }
  }

  lemma JudgingTouches(c: Config, disk: Disk, m: Manifest, env: Env, d: Disk)
    requires Judging(c, disk, m, env, d)
    ensures Touches(disk, d, m.id)
  {
    hide Touches, SignatureHolds, SaveKnownOn, BeginOn, Accept, Committing, Removing, ContentOf;
    TouchesRefl(disk, m.id);
    SaveTouches(disk, m, env.write(0));
    var known := SaveKnownOn(disk, m, env.write(0)).0;
    var (holding, begun) := BeginOn(known, m, env.write(1));
    BeginTouches(known, m, env.write(1));
    TouchesTrans(disk, known, holding, m.id);
    if d != disk && d != known && d != holding {
      if Committing(c, holding, begun.value, [env.write(2), env.write(3), env.write(4)], env.order, d) {
        CommittingTouches(c, holding, begun.value, [env.write(2), env.write(3), env.write(4)], env.order, d);
      } else {
        RemovingTouches(holding, m.id, env.order, d);
      }
      TouchesTrans(disk, holding, d, m.id);
    }
  }

  lemma RestartTouchesOnly(disk: Disk, m: Manifest, env: Env)
    ensures Touches(disk, RestartOn(disk, m, env.order, env.write(4)).0, m.id)
  {
    hide Touches, RemoveOn, BeginOn, HasPartialFiles;
    RemoveTouches(disk, m.id, env.order);
    BeginTouches(RemoveOn(disk, m.id, env.order), m, env.write(4));
    TouchesTrans(disk, RemoveOn(disk, m.id, env.order), BeginOn(RemoveOn(disk, m.id, env.order), m, env.write(4)).0, m.id);
  }

  lemma TakingTouches(c: Config, disk: Disk, before: Assembled, chunk: ChunkData, env: Env, d: Disk)
    requires Taking(c, disk, before, chunk, env, d) && OnDisk(disk, before)
    ensures Touches(disk, d, before.manifest.id)
  {
    hide Touches, AddOn, Committing, Removing, RestartOn, ContentOf, OnDisk;
    var id := before.manifest.id;
    AddDurable(disk, before, chunk.index, chunk.data, env.write(0));
    TouchesRefl(disk, id);
    var (stored, added) := AddOn(disk, before, chunk.index, chunk.data, env.write(0));
    if d != disk && d != stored {
      var w := [env.write(1), env.write(2), env.write(3)];
      if Committing(c, stored, added.value, w, env.order, d) {
        CommittingTouches(c, stored, added.value, w, env.order, d);
      } else if Removing(stored, id, env.order, d) {
        RemovingTouches(stored, id, env.order, d);
      } else {
        RestartTouchesOnly(stored, before.manifest, env);
      }
      TouchesTrans(disk, stored, d, id);
    }
  }

  // ---- the publication itself ---------------------------------------------------------

  /** Every disk of a commit holds the assembly or its complete object. */
  lemma CommittingSafe(c: Config, disk: Disk, p: Parts, w: seq<WriteResult>, order: seq<FilePath>, d: Disk)
    requires |w| == 3 && Committing(c, disk, p, w, order, d)
    requires OnDisk(disk, p) && p.Whole() && Storable(p.manifest) && SignatureHolds(c.ed, p.manifest)
    ensures Safe(c, d, p)
  {
    hide OnDisk, CompleteOn, SignatureHolds, Storable, RemoveOn, Joined;
    if d != disk {
      var m, content := p.manifest, ContentOf(c.sha, p).value;
      ObjectWriteKeepsPartial(disk, ObjectContent(m.id), Plain(content), p);
      var first := WriteOn(disk, ObjectContent(m.id), Plain(content), w[0]);
      ObjectWriteKeepsPartial(first, ObjectManifest(m.id), ToJson(m), p);
      var second := WriteOn(first, ObjectManifest(m.id), ToJson(m), w[1]);
      ObjectWriteKeepsPartial(second, ObjectComplete(m.id), Plain(VERIFIED), p);
      var third := WriteOn(second, ObjectComplete(m.id), Plain(VERIFIED), w[2]);
      if d != first && d != second && d != third {
        var n: nat :| n <= |order| && d == RemoveOn(third, m.id, order[..n]);
        RemoveOnElsewhere(third, m.id, order[..n], ObjectContent(m.id));
        RemoveOnElsewhere(third, m.id, order[..n], ObjectManifest(m.id));
        RemoveOnElsewhere(third, m.id, order[..n], ObjectComplete(m.id));
        OnDiskValid(disk, p);
        CommittedIsComplete(c.sha, c.ed, d, p);
      }
    }
  }

  /** The chunk makes the assembly whole, with a wrong hash. */
  ghost predicate Spoils(c: Config, disk: Disk, before: Assembled, chunk: ChunkData, env: Env) {
    var added := AddOn(disk, before, chunk.index, chunk.data, env.write(0)).1;
    added.Ok? && added.value.Whole() && ContentOf(c.sha, added.value) == Err(HashMismatch)
  }

  lemma AddExtends(disk: Disk, p: Assembled, index: nat, data: seq<byte>, w: WriteResult)
    requires AddOn(disk, p, index, data, w).1.Ok?
    ensures Extends(AddOn(disk, p, index, data, w).1.value, p)
  {}

  lemma TakingSafe(c: Config, disk: Disk, before: Assembled, chunk: ChunkData, env: Env, d: Disk)
    requires Taking(c, disk, before, chunk, env, d)
    requires OnDisk(disk, before) && Storable(before.manifest) && SignatureHolds(c.ed, before.manifest)
    ensures Recoverable(c.sha, c.ed, d, before) || Spoils(c, disk, before, chunk, env)
  {
    hide AddOn, Committing, Removing, RestartOn, ContentOf, OnDisk, CompleteOn, SignatureHolds, Storable;
    AddDurable(disk, before, chunk.index, chunk.data, env.write(0));
    var (stored, added) := AddOn(disk, before, chunk.index, chunk.data, env.write(0));
    if d != disk && d != stored && !Spoils(c, disk, before, chunk, env) {
      AddExtends(disk, before, chunk.index, chunk.data, env.write(0));
      CommittingSafe(c, stored, added.value, [env.write(1), env.write(2), env.write(3)], env.order, d);
      if OnDisk(d, added.value) {
        ExtendedOnDisk(d, added.value, before);
      }
    }
  }

  // ---- inside any event ---------------------------------------------------------------

  ghost predicate SpoilsAt(c: Config, s: State, e: Event, id: ID) {
    && e.Hear? && Decode(e.data).Some? && e.pick == Some(id) && Brings(s, Decode(e.data).value, id)
    && Spoils(c, s.disk, s.table.entries[id].assembly.value, DecodeChunk(Decode(e.data).value.body).value, e.env)
  }

  lemma SafeRecovers(c: Config, disk: Disk, p: Parts)
    requires Safe(c, disk, p)
    ensures Recoverable(c.sha, c.ed, disk, p)
  {
    hide OnDisk, CompleteOn;
  }

  /** Wherever in an event the node stops: what was safe before it is on the disk that is
      left, or its object is complete, unless the event itself makes it whole with a wrong
      hash. */
  lemma CrashSafe(c: Config, s: State, e: Event, d: Disk, id: ID)
    requires Inv(c, s) && Named(s) && AllDurable(c, s) && !e.Outside? && MayLeave(c, s, e, d)
    requires id in s.table.entries && s.table.entries[id].assembly.Some? && Safe(c, s.disk, s.table.entries[id].assembly.value)
    ensures Recoverable(c.sha, c.ed, d, s.table.entries[id].assembly.value) || SpoilsAt(c, s, e, id)
  {
    hide Inv, Named, AllDurable, Decode, DecodeChunk, Judging, Taking, Judged, Safe, OnDisk, Recoverable, Spoils, Touches, Storable, SignatureHolds;
    var a := s.table.entries[id];
    SafeRecovers(c, s.disk, a.assembly.value);
    if d != s.disk {
      var p, own := Decode(e.data).value, e.pick.value;
      if p.kind == SIGNATURE {
        JudgedOwn(c, s, e, own);
        JudgingTouches(c, s.disk, Judged(c, s, e, own).value, e.env, d);
        OthersRecover(c, s, d, own, id);
      } else {
        WaitingOnDisk(c, s, own);
        NamedManifestID(s, own);
        var before, chunk := s.table.entries[own].assembly.value, DecodeChunk(p.body).value;
        if own == id {
          TakingSafe(c, s.disk, before, chunk, e.env, d);
        } else {
          TakingTouches(c, s.disk, before, chunk, e.env, d);
          OthersRecover(c, s, d, own, id);
        }
      }
    }
  }

  lemma JudgedOwn(c: Config, s: State, e: Event, own: ID)
    requires Inv(c, s) && Judged(c, s, e, own).Some?
    ensures Judged(c, s, e, own).value.id == own && s.table.entries[own].assembly.None?
  {
    hide Inv, DecodeSignature, Decode;
    NamedPresentable(c, s, own, DecodeSignature(Decode(e.data).value.body).value);
  }

  lemma OthersRecover(c: Config, s: State, d: Disk, own: ID, id: ID)
    requires Named(s) && Touches(s.disk, d, own) && own != id
    requires id in s.table.entries && s.table.entries[id].assembly.Some? && Safe(c, s.disk, s.table.entries[id].assembly.value)
    ensures Recoverable(c.sha, c.ed, d, s.table.entries[id].assembly.value)
  {
    hide Safe, Recoverable, Touches;
    TouchesKeeps(c, s.disk, d, own, s.table.entries[id].assembly.value);
    SafeRecovers(c, d, s.table.entries[id].assembly.value);
  }

  /** Over whole runs: wherever a node stops, the next start finds again what was assembled
      before the event that was under way, and perhaps more, or its object is complete;
      except for what that event made whole with a wrong hash, and what was lost before. */
  lemma CrashForgetsNothing(c: Config, b: Boot, states: seq<State>, events: seq<Event>, k: nat, d: Disk, id: ID)
    requires Run(c, states, events) && states[0] == Booted(c, b) && Named(states[0]) && k < |events|
    requires (forall i :: 0 <= i < |events| ==> !events[i].Outside?) && MayLeave(c, states[k], events[k], d)
    requires id in states[k].table.entries && states[k].table.entries[id].assembly.Some?
    requires !LostBefore(c, states, events, k, id) && !SpoilsAt(c, states[k], events[k], id)
    ensures Found(d, states[k].table.entries[id].assembly.value) || CompleteOn(c.sha, c.ed, d, id)
  {
    hide Inv, Named, AllDurable, Step, Possible, Booted, OnDisk, Safe, CompleteOn, Found, LostBefore, MayLeave, SpoilsAt, Storable;
    StartsValid(c, b);
    BootDurable(c, b);
    RunDurable(c, states, events, k);
    RunKeeps(c, states, events, k);
    RunNamed(c, states, events, k);
    RunSafe(c, b, states, events, k, id);
    CrashSafe(c, states[k], events[k], d, id);
    EntryStorable(c, states[k], id);
    NamedManifestID(states[k], id);
    FoundExact(d, states[k].table.entries[id].assembly.value);
  }
}
