/** The operations of the store, each proved against what a disk holds before,
    during and after it. */
module StoreOperations {
  import opened Bytes
  import opened Seqs
  import opened Manifests
  import opened Assemblies
  import opened Stores
  import Radix

  /** Equal outside the partial directory of one publication. */
  ghost predicate SameElsewhere(a: Disk, b: Disk, id: ID) {
    forall p: FilePath :: !IsPartialOf(p, id) ==> (p in a <==> p in b) && (p in a ==> a[p] == b[p])
  }

  /** Equal outside the object directory of one publication. */
  ghost predicate ObjectsOnly(a: Disk, b: Disk, id: ID) {
    forall p: FilePath :: !((p.ObjectContent? || p.ObjectManifest? || p.ObjectComplete?) && p.id == id) ==>
      (p in a <==> p in b) && (p in a ==> a[p] == b[p])
  }

  /** Writing the three object files, in whatever state the object directory was,
      does not touch what the partial directory holds. */
  lemma ObjectWriteKeepsPartial(disk: Disk, path: FilePath, file: File, p: Parts)
    requires OnDisk(disk, p) && (path.ObjectContent? || path.ObjectManifest? || path.ObjectComplete?)
    ensures OnDisk(disk[path := file], p)
  {
    var after := disk[path := file];
    forall i: nat | i < |p.received| ensures ChunkOnDisk(after, p, i) {
      assert ChunkOnDisk(disk, p, i);
    }
  }

  /** A chunk of the right length may be written over what is not yet received. */
  lemma ChunkWriteKeepsOld(disk: Disk, p: Parts, index: nat, data: seq<byte>)
    requires OnDisk(disk, p) && index < |p.received| && !p.received[index] && |data| == ChunkLength(p.manifest, index)
    ensures OnDisk(disk[PartialChunk(p.manifest.id, index) := Plain(data)], p)
    ensures AddChunk(p, index, data).Ok?
    ensures OnDisk(disk[PartialChunk(p.manifest.id, index) := Plain(data)], AddChunk(p, index, data).value)
  {
    var after := disk[PartialChunk(p.manifest.id, index) := Plain(data)];
    var q := AddChunk(p, index, data).value;
    forall i: nat | i < |p.received| ensures ChunkOnDisk(after, p, i) && ChunkOnDisk(after, q, i) {
      assert ChunkOnDisk(disk, p, i);
    }
  }

  lemma CompleteElsewhere(sha: Hash, ed: Verifier, a: Disk, b: Disk, id: ID, other: ID)
    requires SameElsewhere(a, b, id)
    ensures CompleteOn(sha, ed, a, other) <==> CompleteOn(sha, ed, b, other)
  {
    assert !IsPartialOf(ObjectComplete(other), id) && !IsPartialOf(ObjectManifest(other), id) && !IsPartialOf(ObjectContent(other), id);
  }

  /** An assembly object for an assembly value, or the same error. */
  ghost predicate SameResult(r: Result<Assembly, StoreError>, v: Result<Parts, StoreError>)
    reads if r.Ok? then {r.value, r.value.chunks, r.value.received} else {}
  {
    match r
    case Ok(assembly) => v == Ok(assembly.State())
    case Err(e) => v == Err(e)
  }

  /** A manifest goes into a directory of its own ID. */
  predicate Fits(path: FilePath, file: File) {
    path.ObjectManifest? || path.PartialManifest? || path.KnownManifest? ==> file.Json? && file.manifest.id == path.id
  }

  // ---- what publishing a file takes -----------------------------------------------------

  /** The partial files that publishing makes. */
  predicate Makes(m: Manifest, p: FilePath) {
    p.id == m.id && (p.PartialManifest? || (p.PartialChunk? && p.index < m.chunkCount))
  }

  predicate ChunkWritten(writes: nat -> WriteResult, i: nat) {
    writes(4 + i).Written?
  }

  /** Nothing keeps a new publication from being stored: its name is safe, its signature
      holds, every write succeeds, and every partial file that there was or that is made on
      the way is removed. */
  ghost predicate Publishable(ed: Verifier, disk: Disk, m: Manifest, writes: nat -> WriteResult, order: seq<FilePath>) {
    && SafeName(m.filename) && SignatureHolds(ed, m)
    && (forall k :: 0 <= k < 4 + m.chunkCount ==> writes(k).Written?)
    && (forall p :: IsPartialOf(p, m.id) && (p in disk || Makes(m, p)) ==> p in order)
  }

  lemma {:induction false} LoadedFresh(disk: Disk, m: Manifest, n: nat)
    requires n <= m.chunkCount && forall i: nat :: PartialChunk(m.id, i) !in disk
    ensures LoadAll(disk, m) == Ok(Fresh(m))
  {
    LoadedNothing(disk, m, m.chunkCount);
  }

  /** Starting over succeeds exactly if every partial file is removed, the name is safe and
      the manifest is written; its file is then the only one. */
  lemma RestartTakes(disk: Disk, m: Manifest, order: seq<FilePath>, w: WriteResult)
    ensures RestartOn(disk, m, order, w).1.Ok? <==>
              SafeName(m.filename) && w.Written? && forall p :: p in disk && IsPartialOf(p, m.id) ==> p in order
    ensures RestartOn(disk, m, order, w).1.Ok? ==>
              forall p :: IsPartialOf(p, m.id) ==> (p in RestartOn(disk, m, order, w).0 <==> p == PartialManifest(m.id))
  {
    hide SafeName, RemoveOn, LoadAll;
    var after := RemoveOn(disk, m.id, order);
    forall p | IsPartialOf(p, m.id) ensures p in after <==> p in disk && p !in order {
      RemovesNamed(disk, m.id, order, p);
    }
    assert IsPartialOf(PartialManifest(m.id), m.id);
    assert forall i: nat :: IsPartialOf(PartialChunk(m.id, i), m.id);
    if !HasPartialFiles(after, m.id) {
      LoadedFresh(WriteOn(after, PartialManifest(m.id), ToJson(m), w), m, 0);
    }
  }

  /** The files of the first n chunks of a publication have come to its others. */
  ghost predicate ChunksAdded(a: Disk, b: Disk, m: Manifest, n: nat) {
    forall p :: IsPartialOf(p, m.id) ==> (p in b <==> p in a || (p.PartialChunk? && p.index < n))
  }

  lemma StoredExactly(ed: Verifier, before: Disk, stored: Disk, m: Manifest, writes: nat -> WriteResult, order: seq<FilePath>)
    requires SafeName(m.filename) && writes(0).Written? && forall p :: p in before && IsPartialOf(p, m.id) ==> p in order
    requires forall k: nat :: k < m.chunkCount ==> ChunkWritten(writes, k)
    requires forall p :: IsPartialOf(p, m.id) ==> (p in stored <==> Makes(m, p))
    ensures Publishable(ed, before, m, writes, order) <==>
              SignatureHolds(ed, m) && !Hindered(stored, m.id, [writes(1), writes(2), writes(3)], order)
  {
    hide SafeName, SignatureHolds;
    if SignatureHolds(ed, m) && !Hindered(stored, m.id, [writes(1), writes(2), writes(3)], order) {
      forall k | 0 <= k < 4 + m.chunkCount ensures writes(k).Written? {
        if k >= 4 { assert ChunkWritten(writes, k - 4); }
      }
      forall p | IsPartialOf(p, m.id) && (p in before || Makes(m, p)) ensures p in order {}
    }
    if Publishable(ed, before, m, writes, order) {
      assert forall k :: 0 <= k < 4 + m.chunkCount ==> writes(k).Written?;
      forall p | p in stored && IsPartialOf(p, m.id) ensures p in order { assert Makes(m, p); }
    }
  }

  /** A mark that is new stands beside the content and the manifest that it marks. */
  ghost predicate MarkedLast(a: Disk, b: Disk, m: Manifest, content: seq<byte>) {
    ObjectComplete(m.id) in b && ObjectComplete(m.id) !in a ==>
      && ObjectContent(m.id) in b && b[ObjectContent(m.id)] == Plain(content)
      && ObjectManifest(m.id) in b && b[ObjectManifest(m.id)] == ToJson(m)
  }

  class Store {
    const sha: Hash
    const ed: Verifier
    var disk: Disk
    /** Every disk a crash could have left so far, the current one last. */
    ghost var trace: seq<Disk>

    ghost predicate Valid()
      reads this
    {
      trace != [] && trace[|trace| - 1] == disk
    }

    constructor (sha: Hash, ed: Verifier, disk: Disk)
      ensures Valid() && this.disk == disk && this.sha == sha && this.ed == ed
    {
      this.sha, this.ed, this.disk, trace := sha, ed, disk, [disk];
    }

    method WriteAtomic(path: FilePath, file: File, w: WriteResult) returns (ok: bool)
      requires Valid()
      modifies this
      ensures Valid() && ok == w.Written?
      ensures Fits(path, file) && Filed(old(disk)) ==> Filed(disk)
      ensures disk == if w.NotWritten? then old(disk) else old(disk)[path := file]
      ensures trace == old(trace) + if w.NotWritten? then [] else [disk]
    {
      if w.NotWritten? {
        return false;
      }
      disk := disk[path := file];
      trace := trace + [disk];
      return w.Written?;
    }

    /** Removes a partial directory file by file, in any order; a failure leaves a
        part of it. */
    method RemovePartial(id: ID, order: seq<FilePath>) returns (ok: bool)
      requires Valid()
      modifies this
      ensures Valid() && old(trace) <= trace
      ensures Filed(old(disk)) ==> Filed(disk)
      ensures SameElsewhere(old(disk), disk, id)
      ensures forall k :: |old(trace)| <= k < |trace| ==> SameElsewhere(old(disk), trace[k], id)
      ensures disk == RemoveOn(old(disk), id, order)
      ensures forall p :: p in disk ==> p in old(disk) && disk[p] == old(disk)[p]
      ensures ok <==> !HasPartialFiles(disk, id)
    {
      for i := 0 to |order|
        invariant Valid() && old(trace) <= trace && (Filed(old(disk)) ==> Filed(disk))
        invariant SameElsewhere(old(disk), disk, id)
        invariant forall k :: |old(trace)| <= k < |trace| ==> SameElsewhere(old(disk), trace[k], id)
        invariant disk == RemoveOn(old(disk), id, order[..i])
        invariant forall p :: p in disk ==> p in old(disk) && disk[p] == old(disk)[p]
      {
        assert order[..i + 1][..i] == order[..i];
        if IsPartialOf(order[i], id) {
          disk := disk - {order[i]};
          trace := trace + [disk];
        }
      }
      assert order[..|order|] == order;
      var left := set p | p in disk && IsPartialOf(p, id);
      assert forall p :: p in disk && IsPartialOf(p, id) ==> p in left;
      return left == {};
    }

    /** Opens the partial directory of a manifest and reads what it holds. */
    method Begin(m: Manifest, w: WriteResult) returns (r: Result<Assembly, StoreError>)
      requires Valid()
      modifies this
      ensures Valid() && old(trace) <= trace
      ensures Filed(old(disk)) ==> Filed(disk)
      ensures forall k :: |old(trace)| <= k < |trace| ==> trace[k] == old(disk)[PartialManifest(m.id) := ToJson(m)]
      ensures disk == BeginOn(old(disk), m, w).0 && SameResult(r, BeginOn(old(disk), m, w).1)
      ensures r.Ok? ==>
                && fresh(r.value) && fresh(r.value.chunks) && fresh(r.value.received)
                && Loaded(disk, m, m.chunkCount) == Some(r.value.State())
                && OnDisk(disk, r.value.State()) && SafeName(m.filename)
    {
      if !SafeName(m.filename) {
        return Err(StoreError.Malformed);
      }
      var path := PartialManifest(m.id);
      if path in disk {
        if disk[path] != ToJson(m) {
          return Err(Conflict);
        }
      } else {
        var ok := WriteAtomic(path, ToJson(m), w);
        if !ok {
          return Err(IoError);
        }
      }
      hide OnDisk;
      r := LoadChunks(m);
    }

    /** Reads the chunk files of a partial directory. */
    method LoadChunks(m: Manifest) returns (r: Result<Assembly, StoreError>)
      requires PartialManifest(m.id) in disk && disk[PartialManifest(m.id)] == ToJson(m)
      ensures SameResult(r, LoadAll(disk, m))
      ensures r.Ok? ==>
                && fresh(r.value) && fresh(r.value.chunks) && fresh(r.value.received)
                && Loaded(disk, m, m.chunkCount) == Some(r.value.State())
                && OnDisk(disk, r.value.State())
    {
      hide OnDisk;
      var assembly := new Assembly(m);
      for i := 0 to m.chunkCount
        modifies assembly.chunks, assembly.received
        invariant assembly.Valid() && Loaded(disk, m, i) == Some(assembly.State())
      {
        LoadedStops(disk, m, i + 1, m.chunkCount);
        var chunk := PartialChunk(m.id, i);
        if chunk in disk {
          if disk[chunk].Json? {
            return Err(StoreError.Malformed);
          }
          var added := assembly.Add(i, disk[chunk].bytes);
          if added.Err? {
            return Err(StoreError.Malformed);
          }
        }
      }
      LoadedIsOnDisk(disk, m, assembly.State(), m.chunkCount);
      return Ok(assembly);
    }

    /** Adds a chunk in memory and on disk, or neither: memory never runs ahead of
        the disk, and every disk in between still holds the old assembly. */
    method Add(assembly: Assembly, index: U16, data: seq<byte>, w: WriteResult) returns (r: Result<(), StoreError>)
      requires Valid() && assembly.Valid()
      modifies this, assembly.chunks, assembly.received
      ensures Valid() && assembly.Valid() && old(trace) <= trace
      ensures Filed(old(disk)) ==> Filed(disk)
      ensures disk == old(AddOn(disk, assembly.State(), index, data, w)).0
      ensures match old(AddOn(disk, assembly.State(), index, data, w)).1
              case Ok(after) => r.Ok? && assembly.State() == after
              case Err(e) => r == Err(e) && assembly.State() == old(assembly.State())
      ensures old(OnDisk(disk, assembly.State())) ==>
                OnDisk(disk, assembly.State())
                && forall k :: |old(trace)| <= k < |trace| ==> OnDisk(trace[k], old(assembly.State()))
    {
      hide OnDisk;
      if index < assembly.received.Length && assembly.received[index] {
        var again := assembly.Add(index, data);
        return if again.Ok? then Ok(()) else Err(StoreError.Malformed);
      }
      ghost var before := assembly.State();
      var added := assembly.Add(index, data);
      if added.Err? {
        return Err(StoreError.Malformed);
      }
      if OnDisk(disk, before) {
        ChunkWriteKeepsOld(disk, before, index, data);
      }
      var ok := WriteAtomic(PartialChunk(assembly.manifest.id, index), Plain(data), w);
      if !ok {
        assembly.Forget(index);
        assert assembly.State() == before;
        return Err(IoError);
      }
      return Ok(());
    }

    /** Publishes a whole assembly: content, manifest, mark, and only then the end of
        the partial directory. Whatever write or removal a crash follows, the
        assembly can be resumed or the object is complete. */
    method Commit(assembly: Assembly, w: seq<WriteResult>, order: seq<FilePath>) returns (r: Result<(), StoreError>)
      requires Valid() && assembly.Valid() && |w| == 3
      modifies this
      ensures Valid() && old(trace) <= trace
      ensures Filed(old(disk)) ==> Filed(disk)
      ensures (disk, r) == CommitOn(sha, ed, old(disk), assembly.State(), w, order)
      ensures r.Ok? ==>
                var id, content := assembly.manifest.id, ContentOf(sha, assembly.State());
                && content.Ok? && SignatureHolds(ed, assembly.manifest)
                && ObjectContent(id) in disk && disk[ObjectContent(id)] == Plain(content.value)
                && ObjectManifest(id) in disk && disk[ObjectManifest(id)] == ToJson(assembly.manifest)
                && (Storable(assembly.manifest) ==> CompleteOn(sha, ed, disk, id))
                && !HasPartialFiles(disk, id)
      ensures forall k :: |old(trace)| <= k < |trace| && ContentOf(sha, assembly.State()).Ok? ==>
                MarkedLast(old(disk), trace[k], assembly.manifest, ContentOf(sha, assembly.State()).value)
      ensures OnDisk(old(disk), assembly.State()) && Storable(assembly.manifest) ==>
                forall k :: |old(trace)| <= k < |trace| ==> Recoverable(sha, ed, trace[k], assembly.State())
    {
      hide OnDisk, CompleteOn, ContentOf, SignatureHolds, Storable;
      ghost var p := assembly.State();
      var content := assembly.Content(sha);
      if content.Err? {
        return Err(if content.error.HashMismatch? then WrongHash else StoreError.Malformed);
      }
      if !SignatureHolds(ed, assembly.manifest) {
        return Err(BadSignature);
      }
      var id := assembly.manifest.id;
      var ok := Publish(p, assembly.manifest, content.value, w);
      if !ok {
        return Err(IoError);
      }
      if Storable(assembly.manifest) {
        CommittedIsComplete(sha, ed, disk, p);
      }
      ghost var complete := disk;
      ok := RemovePartial(id, order);
      CompleteElsewhere(sha, ed, complete, disk, id, id);
      forall k | 0 <= k < |trace| && SameElsewhere(complete, trace[k], id)
        ensures CompleteOn(sha, ed, complete, id) ==> CompleteOn(sha, ed, trace[k], id) {
        CompleteElsewhere(sha, ed, complete, trace[k], id, id);
      }
      if !ok {
        return Err(IoError);
      }
      return Ok(());
    }

    /** The three object files, the mark last. */
    method Publish(ghost p: Parts, m: Manifest, content: seq<byte>, w: seq<WriteResult>) returns (ok: bool)
      requires Valid() && p.manifest == m && |w| == 3
      modifies this
      ensures Valid() && old(trace) <= trace
      ensures Filed(old(disk)) ==> Filed(disk)
      ensures (disk, ok) == PublishOn(old(disk), m, content, w)
      ensures ok ==> disk == old(disk)[ObjectContent(m.id) := Plain(content)][ObjectManifest(m.id) := ToJson(m)][ObjectComplete(m.id) := Plain(VERIFIED)]
      ensures ObjectsOnly(old(disk), disk, m.id)
      ensures forall k :: |old(trace)| <= k < |trace| ==> MarkedLast(old(disk), trace[k], m, content)
      ensures OnDisk(old(disk), p) ==> forall k :: |old(trace)| <= k < |trace| ==> OnDisk(trace[k], p)
    {
      hide OnDisk, Filed;
      ok := PublishFile(p, ObjectContent(m.id), Plain(content), w[0]);
      if !ok {
        return;
      }
      ok := PublishFile(p, ObjectManifest(m.id), ToJson(m), w[1]);
      if !ok {
        return;
      }
      ok := PublishFile(p, ObjectComplete(m.id), Plain(VERIFIED), w[2]);
    }

    method PublishFile(ghost p: Parts, path: FilePath, file: File, w: WriteResult) returns (ok: bool)
      requires Valid() && (path.ObjectContent? || path.ObjectManifest? || path.ObjectComplete?)
      modifies this
      ensures Valid() && ok == w.Written?
      ensures Fits(path, file) && Filed(old(disk)) ==> Filed(disk)
      ensures disk == if w.NotWritten? then old(disk) else old(disk)[path := file]
      ensures trace == old(trace) + if w.NotWritten? then [] else [disk]
      ensures OnDisk(old(disk), p) ==> OnDisk(disk, p)
    {
      hide OnDisk;
      if OnDisk(disk, p) {
        ObjectWriteKeepsPartial(disk, path, file, p);
      }
      ok := WriteAtomic(path, file, w);
    }

    /** Starts over: no chunk of an earlier attempt is left. */
    method Restart(m: Manifest, order: seq<FilePath>, w: WriteResult) returns (r: Result<Assembly, StoreError>)
      requires Valid()
      modifies this
      ensures Valid() && old(trace) <= trace
      ensures Filed(old(disk)) ==> Filed(disk)
      ensures SameElsewhere(old(disk), disk, m.id)
      ensures disk == RestartOn(old(disk), m, order, w).0 && SameResult(r, RestartOn(old(disk), m, order, w).1)
      ensures r.Ok? ==>
                && fresh(r.value) && fresh(r.value.chunks) && fresh(r.value.received)
                && r.value.State() == Fresh(m) && OnDisk(disk, r.value.State()) && SafeName(m.filename)
    {
      hide OnDisk;
      var ok := RemovePartial(m.id, order);
      if !ok {
        return Err(IoError);
      }
      r := Begin(m, w);
      if r.Ok? {
        LoadedNothing(disk, m, m.chunkCount);
      }
    }

    /** Metadata of a publication is kept before any decision about it. */
    method SaveKnown(m: Manifest, w: WriteResult) returns (r: Result<(), StoreError>)
      requires Valid()
      modifies this
      ensures Valid() && old(trace) <= trace
      ensures Filed(old(disk)) ==> Filed(disk)
      ensures r.Ok? ==> Encodable(m) && KnownManifest(m.id) in disk && disk[KnownManifest(m.id)] == ToJson(m)
      ensures !Encodable(m) ==> r.Err?
      ensures (disk, r.Ok?) == SaveKnownOn(old(disk), m, w)
    {
      if !Encodable(m) {
        return Err(StoreError.Malformed);
      }
      var path := KnownManifest(m.id);
      if path in disk && disk[path] == ToJson(m) {
        return Ok(());
      }
      var ok := WriteAtomic(path, ToJson(m), w);
      return if ok then Ok(()) else Err(IoError);
    }

    method IDs() returns (ids: seq<ID>)
      ensures ids == Inventory(sha, ed, disk)
    {
      ids := ListComplete(sha, ed, disk);
    }

    /** Publishes a local file: split, stored chunk by chunk, committed. A signature
        of the canonical bytes, if there is one, comes with the call. */
    method AddFileSigned(content: seq<byte>, filename: seq<byte>, signature: Option<Signature>, writes: nat -> WriteResult, order: seq<FilePath>)
      returns (r: Result<Manifest, StoreError>)
      requires Valid()
      modifies this
      ensures Valid()
      ensures |content| > MAX_CHUNKS * CHUNK_DATA_SIZE ==> r == Err(TooLarge) && disk == old(disk)
      ensures |content| <= MAX_CHUNKS * CHUNK_DATA_SIZE ==>
                var m := ManifestOf(sha, content, filename, signature);
                if |filename| > MAX_FILENAME_BYTES then r == Err(StoreError.Malformed) && disk == old(disk)
                else if old(CompleteOn(sha, ed, disk, m.id)) then
                  var there := old(ReadManifest(disk, ObjectManifest(m.id))).value;
                  disk == old(disk)
                  && r == if there.sha == m.sha && there.length == |content| && there.filename == filename then Ok(there) else Err(Conflict)
                else (r == Ok(m) <==> Publishable(ed, old(disk), m, writes, order)) && (r.Ok? ==> r == Ok(m))
      ensures r.Ok? ==>
                var id := r.value.id;
                && id == sha(content)[..16] && r.value.sha == sha(content)
                && r.value.length == |content| && r.value.filename == filename
                && CompleteOn(sha, ed, disk, id)
                && (old(CompleteOn(sha, ed, disk, sha(content)[..16])) ||
                    (disk[ObjectContent(id)] == Plain(content) && disk[ObjectManifest(id)] == Json(r.value)
                     && r.value.signature == signature))
    {
      if |content| > MAX_CHUNKS * CHUNK_DATA_SIZE {
        return Err(TooLarge);
      }
      var m := ManifestOf(sha, content, filename, signature);
      ManifestOfGeometry(sha, content, filename, signature);
      if !Encodable(m) || (signature.Some? && CanonicalManifest(m).None?) {
        return Err(StoreError.Malformed);
      }
      if CompleteOn(sha, ed, disk, m.id) {
        var existing := ReadManifest(disk, ObjectManifest(m.id)).value;
        if existing.sha != m.sha || existing.length != m.length || existing.filename != m.filename {
          return Err(Conflict);
        }
        return Ok(existing);
      }
      var stored := StoreNew(m, content, writes, order);
      return if stored.Ok? then Ok(m) else Err(stored.error);
    }

    method StoreNew(m: Manifest, content: seq<byte>, writes: nat -> WriteResult, order: seq<FilePath>) returns (r: Result<(), StoreError>)
      requires Valid()
      requires Describes(sha, m, content) && m.chunkSize == CHUNK_DATA_SIZE && Encodable(m)
      requires m.version == 1 || m.version == SIGNED_MANIFEST_VERSION
      modifies this
      ensures Valid()
      ensures r.Ok? <==> Publishable(ed, old(disk), m, writes, order)
      ensures r.Ok? ==>
                && CompleteOn(sha, ed, disk, m.id)
                && disk[ObjectContent(m.id)] == Plain(content) && disk[ObjectManifest(m.id)] == Json(m)
    {
      hide OnDisk, CompleteOn, SignatureHolds, Recoverable, SameElsewhere, Loaded, Slice, Agrees, RestartOn, CommitOn, SafeName, Encodable;
      RestartTakes(disk, m, order, writes(0));
      var started := Restart(m, order, writes(0));
      if started.Err? {
        return Err(started.error);
      }
      var assembly := started.value;
      var filled := Fill(assembly, content, writes);
      if filled.Err? {
        return Err(filled.error);
      }
      WholeJoins(assembly.State(), content);
      ghost var stored := disk;
      CommitExact(sha, ed, stored, assembly.State(), [writes(1), writes(2), writes(3)], order);
      r := Commit(assembly, [writes(1), writes(2), writes(3)], order);
      StoredExactly(ed, old(disk), stored, m, writes, order);
    }

    /** Adds the content chunk by chunk. */
    method Fill(assembly: Assembly, content: seq<byte>, writes: nat -> WriteResult) returns (r: Result<(), StoreError>)
      requires Valid() && assembly.State() == Fresh(assembly.manifest)
      requires Describes(sha, assembly.manifest, content) && assembly.manifest.chunkSize == CHUNK_DATA_SIZE
      modifies this, assembly.chunks, assembly.received
      ensures Valid() && assembly.Valid()
      ensures r.Ok? ==> Agrees(assembly.State(), content) && assembly.State().Whole()
      ensures r.Ok? <==> forall k: nat :: k < assembly.manifest.chunkCount ==> ChunkWritten(writes, k)
      ensures r.Ok? ==> ChunksAdded(old(disk), disk, assembly.manifest, assembly.manifest.chunkCount)
    {
      hide OnDisk;
      var m := assembly.manifest;
      var i, start := 0, 0;
      while start < |content|
        invariant Valid() && start == i * CHUNK_DATA_SIZE
        invariant i <= m.chunkCount && (start >= |content| <==> i == m.chunkCount)
        invariant Agrees(assembly.State(), content)
        invariant forall k: nat :: k < i ==> ChunkWritten(writes, k)
        invariant ChunksAdded(old(disk), disk, m, i)
        invariant forall j :: 0 <= j < |assembly.State().received| ==> assembly.State().received[j] == (j < i)
        decreases |content| - start
      {
        ChunkBounds(m, i);
        var end := if start + CHUNK_DATA_SIZE < |content| then start + CHUNK_DATA_SIZE else |content|;
        var data := content[start..end];
        assert data == Slice(m, content, i);
        var added := Add(assembly, i, data, writes(4 + i));
        assert ChunkWritten(writes, i) <==> added.Ok?;
        if added.Err? {
          return Err(added.error);
        }
        i, start := i + 1, start + CHUNK_DATA_SIZE;
      }
      return Ok(());
    }
  }

  method ListComplete(sha: Hash, ed: Verifier, disk: Disk) returns (ids: seq<ID>)
    ensures ids == Inventory(sha, ed, disk)
  {
    hide SignatureHolds;
    var left := set p | p in disk && p.ObjectComplete? :: p.id;
    assert forall id :: CompleteOn(sha, ed, disk, id) ==> ObjectComplete(id) in disk && id in left;
    ghost var all := left;
    var found: seq<ID> := [];
    while left != {}
      invariant left <= all
      invariant Distinct(found) && forall id :: id in found <==> id in all - left && CompleteOn(sha, ed, disk, id)
      decreases left
    {
      hide CompleteOn, Radix.IsSorted;
      var id :| id in left;
      left := left - {id};
      if CompleteOn(sha, ed, disk, id) {
        found := found + [id];
      }
    }
    ids := Radix.Sorted(found);
    MultisetSameElements(found, ids);
    hide CompleteOn;
    InventoryUnique(sha, ed, disk, ids);
  }

  /** The manifest of a local file. */
  function ManifestOf(sha: Hash, content: seq<byte>, filename: seq<byte>, signature: Option<Signature>): Manifest
    requires |content| <= MAX_CHUNKS * CHUNK_DATA_SIZE
  {
    Manifest(if signature.Some? then SIGNED_MANIFEST_VERSION else 1, sha(content)[..16], filename, |content|, sha(content),
             CHUNK_DATA_SIZE, if |content| > 0 then (|content| + CHUNK_DATA_SIZE - 1) / CHUNK_DATA_SIZE else 0, signature)
  }

  lemma ManifestOfGeometry(sha: Hash, content: seq<byte>, filename: seq<byte>, signature: Option<Signature>)
    requires |content| <= MAX_CHUNKS * CHUNK_DATA_SIZE
    ensures Describes(sha, ManifestOf(sha, content, filename, signature), content)
  {}

  lemma {:induction false} LoadedStops(disk: Disk, m: Manifest, n: nat, end: nat)
    requires n <= end <= m.chunkCount
    ensures Loaded(disk, m, end).Some? ==> Loaded(disk, m, n).Some?
    decreases end
  {
    if n < end {
      LoadedStops(disk, m, n, end - 1);
    }
  }

  lemma LoadedIsOnDisk(disk: Disk, m: Manifest, p: Parts, n: nat)
    requires n == m.chunkCount && Loaded(disk, m, n) == Some(p)
    requires PartialManifest(m.id) in disk && disk[PartialManifest(m.id)] == ToJson(m)
    ensures OnDisk(disk, p)
  {
    forall i: nat | i < |p.received| ensures ChunkOnDisk(disk, p, i) {
      LoadedChunk(disk, m, p, n, i);
    }
  }

  lemma {:induction false} LoadedChunk(disk: Disk, m: Manifest, p: Parts, n: nat, i: nat)
    requires i < n <= m.chunkCount && Loaded(disk, m, n) == Some(p)
    decreases n
    ensures ChunkOnDisk(disk, p, i)
  {
    if i < n - 1 {
      LoadedChunk(disk, m, Loaded(disk, m, n - 1).value, n - 1, i);
    }
  }
}
