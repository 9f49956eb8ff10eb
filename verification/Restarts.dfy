/** Assemblies that are whole and have the wrong hash: when starting one over leaves memory
    and disk in step. */
module Restarts {
  import opened Bytes
  import opened Seqs
  import opened Radix
  import opened Manifests
  import opened Assemblies
  import opened Stores
  import opened StoreOperations
  import opened NodeProtocol
  import opened Scheduler
  import opened NodeState
  import opened NodeSteps
  import opened NodeInvariants
  import opened NodeSafety
  import opened NodeOutcomes

  // ---- on the disk --------------------------------------------------------------------

  /** The removal got as far as a file of the assembly. */
  ghost predicate Touched(order: seq<FilePath>, p: Parts) {
    || PartialManifest(p.manifest.id) in order
    || exists i: nat :: i < |p.received| && PartialChunk(p.manifest.id, i) in order
  }

  lemma BegunOnDisk(disk: Disk, m: Manifest, w: WriteResult)
    ensures BeginOn(disk, m, w).1.Ok? ==> OnDisk(BeginOn(disk, m, w).0, BeginOn(disk, m, w).1.value)
  {
    hide OnDisk, SafeName, Loaded;
    var (after, begun) := BeginOn(disk, m, w);
    if begun.Ok? {
      LoadedIsOnDisk(after, m, begun.value, m.chunkCount);
    }
  }

  lemma UntouchedStays(disk: Disk, p: Parts, order: seq<FilePath>)
    requires OnDisk(disk, p) && !Touched(order, p)
    ensures OnDisk(RemoveOn(disk, p.manifest.id, order), p) && HasPartialFiles(RemoveOn(disk, p.manifest.id, order), p.manifest.id)
  {
    hide RemoveOn;
    var id := p.manifest.id;
    var after := RemoveOn(disk, id, order);
    RemovesNamed(disk, id, order, PartialManifest(id));
    assert PartialManifest(id) in after && IsPartialOf(PartialManifest(id), id);
    forall i: nat | i < |p.received| ensures ChunkOnDisk(after, p, i) {
      assert ChunkOnDisk(disk, p, i);
      RemovesNamed(disk, id, order, PartialChunk(id, i));
    }
  }

  /** Starting over an assembly that is on disk: what memory holds then is on disk if and
      only if the restart succeeded, or failed before it removed a file of the assembly. */
  lemma RestartExact(disk: Disk, parts: Assembled, env: Env)
    requires OnDisk(disk, parts) && parts.Whole() && |parts.received| > 0
    ensures var (after, left) := Restarted(disk, parts, env);
            && left.Some?
            && (OnDisk(after, left.value) <==>
                  RestartOn(disk, parts.manifest, env.order, env.write(4)).1.Ok? || !Touched(env.order, parts))
  {
    hide RemoveOn, LoadAll, SafeName, HasPartialFiles;
    var m, id := parts.manifest, parts.manifest.id;
    var removed := RemoveOn(disk, id, env.order);
    var (after, left) := Restarted(disk, parts, env);
    BegunOnDisk(removed, m, env.write(4));
    if !Touched(env.order, parts) {
      UntouchedStays(disk, parts, env.order);
    } else if RestartOn(disk, m, env.order, env.write(4)).1.Err? {
      if HasPartialFiles(removed, id) {
        TouchedLost(disk, parts, env.order);
      } else {
        EmptiedLost(removed, parts, env.write(4));
      }
    }
  }

  lemma TouchedLost(disk: Disk, p: Parts, order: seq<FilePath>)
    requires OnDisk(disk, p) && p.Whole() && Touched(order, p)
    ensures !OnDisk(RemoveOn(disk, p.manifest.id, order), p)
  {
    hide RemoveOn;
    var id := p.manifest.id;
    var after := RemoveOn(disk, id, order);
    RemovesNamed(disk, id, order, PartialManifest(id));
    if PartialManifest(id) !in order {
      var i: nat :| i < |p.received| && PartialChunk(id, i) in order;
      RemovesNamed(disk, id, order, PartialChunk(id, i));
      assert OnDisk(after, p) ==> ChunkOnDisk(after, p, i);
    }
  }

  lemma EmptiedLost(disk: Disk, p: Parts, w: WriteResult)
    requires p.Valid() && p.Whole() && |p.received| > 0 && !HasPartialFiles(disk, p.manifest.id)
    ensures !OnDisk(BeginOn(disk, p.manifest, w).0, p)
  {
    hide LoadAll, SafeName;
    var id := p.manifest.id;
    assert IsPartialOf(PartialChunk(id, 0), id);
    var after := BeginOn(disk, p.manifest, w).0;
    assert OnDisk(after, p) ==> ChunkOnDisk(after, p, 0);
  }

  // ---- at a step ----------------------------------------------------------------------

  /** The packet brings a chunk that this acquisition waits for. */
  ghost predicate Brings(s: State, p: Packet, id: ID) {
    && id in s.table.entries && s.table.entries[id].waiting.ForChunks? && s.table.entries[id].assembly.Some?
    && DecodeChunk(p.body).Some? && DecodeChunk(p.body).value.index in s.table.entries[id].wanted
  }

  /** What a chunk leaves in memory alone: the assembly is whole, its hash is wrong, and the
      restart failed after it had removed a file of it. */
  ghost function LostBy(c: Config, disk: Disk, before: Assembled, chunk: ChunkData, env: Env): (r: Option<Assembled>)
    ensures r.Some? ==> r.value.Whole() && ContentOf(c.sha, r.value) == Err(HashMismatch) && r.value.manifest == before.manifest
  {
    hide AddChunk;
    var (stored, added) := AddOn(disk, before, chunk.index, chunk.data, env.write(0));
    if added.Ok? && added.value.Whole() && ContentOf(c.sha, added.value) == Err(HashMismatch)
       && RestartOn(stored, added.value.manifest, env.order, env.write(4)).1.Err? && Touched(env.order, added.value)
    then Some(added.value) else None
  }

  ghost function LostTo(c: Config, s: State, env: Env, p: Packet, id: ID): Option<Assembled> {
    if Brings(s, p, id) then LostBy(c, s.disk, s.table.entries[id].assembly.value, DecodeChunk(p.body).value, env) else None
  }

  /** What an event leaves in memory alone, if it brings such a chunk. */
  ghost function LostAt(c: Config, s: State, e: Event, id: ID): Option<Assembled> {
    if !e.Hear? || e.pick != Some(id) || Decode(e.data).None? then None
    else
      var p := Decode(e.data).value;
      if p.source != c.id && p.destination == c.id != BROADCAST && p.kind == CHUNK then LostTo(c, s, e.env, p, id) else None
  }
}
