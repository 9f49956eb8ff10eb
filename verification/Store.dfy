/** The publication store (internal/publication/store.go) over a map from paths to
    files. A write replaces one file atomically; a crash can come between any two
    writes or removals, so every disk that a crash could leave behind is kept in
    `trace`. */
module Stores {
  import opened Bytes
  import opened Manifests
  import opened Assemblies
  import opened Seqs
  import Radix

  datatype FilePath =
    | ObjectContent(id: ID)
    | ObjectManifest(id: ID)
    | ObjectComplete(id: ID)
    | PartialManifest(id: ID)
    | PartialChunk(id: ID, index: nat)
    | KnownManifest(id: ID)
    | Want(id: ID)

  /** File contents; the JSON form of a manifest is taken to be invertible. */
  datatype File = Plain(bytes: seq<byte>) | Json(manifest: Manifest)

  type Disk = map<FilePath, File>

  /** A write succeeds, fails without effect, or fails after the rename. */
  datatype WriteResult = Written | NotWritten | WrittenButFailed

  datatype StoreError = IoError | Malformed | Conflict | BadSignature | WrongHash | TooLarge

  const VERIFIED: seq<byte> := [118, 101, 114, 105, 102, 105, 101, 100, 10]

  function ToJson(m: Manifest): File {
    Json(if m.version == 0 then m.(version := 1) else m)
  }

  /** What readManifest makes of a file. */
  function ReadManifest(disk: Disk, path: FilePath): Option<Manifest> {
    if path !in disk || disk[path].Plain? then None
    else
      var m := disk[path].manifest;
      if (m.version == 1 || m.version == SIGNED_MANIFEST_VERSION) && Encodable(m) && Geometry(m) then Some(m) else None
  }

  /** ReadManifest checks a manifest by encoding it and decoding the result. */
  lemma ReadManifestDecodes(m: Manifest)
    ensures Encodable(m) && Geometry(m) <==>
            EncodeManifest(m).Some? && DecodeManifest(m.id, EncodeManifest(m).value) == Some(Base(m))
  {
    if Encodable(m) {
      DecodeOfEncode(m);
    }
    hide Body, DecodeManifest;
  }

  /** filepath.Base(name) == name, and neither empty nor a dot. */
  predicate SafeName(name: seq<byte>) {
    && name != [] && name != [46]
    && (47 in name ==> name == [47])
  }

  /** The last element of a path: what is left behind the last slash once slashes at the end
      are gone, "." for the empty path and "/" for slashes alone. */
  function LastElement(path: seq<byte>): seq<byte> {
    if path == [] then [46]
    else
      var s := WithoutSlashes(path);
      if s == [] then [47] else BehindSlash(s)
  }

  function WithoutSlashes(path: seq<byte>): (r: seq<byte>)
    ensures r <= path && (r != [] ==> r[|r| - 1] != 47)
    ensures r == [] ==> forall i :: 0 <= i < |path| ==> path[i] == 47
  {
    if path != [] && path[|path| - 1] == 47 then WithoutSlashes(path[..|path| - 1]) else path
  }

  function BehindSlash(path: seq<byte>): (r: seq<byte>)
    ensures 47 !in r && |r| <= |path| && r == path[|path| - |r|..]
    ensures 47 !in path ==> r == path
  {
    if path == [] || path[|path| - 1] == 47 then []
    else
      var r := BehindSlash(path[..|path| - 1]);
      assert path == path[..|path| - 1] + [path[|path| - 1]];
      r + [path[|path| - 1]]
  }

  /** A name is safe exactly if it is its own last element, and names no directory by a
      dot. */
  lemma SafeNameExact(name: seq<byte>)
    ensures SafeName(name) <==> LastElement(name) == name && name != [46]
  {
    if name != [] {
      var s := WithoutSlashes(name);
      if s == name {
        assert 47 in name ==> BehindSlash(name) != name;
      } else if name == [47] {
        assert WithoutSlashes([47][..0]) == [];
      } else {
        assert |s| < |name|;
        assert name[|name| - 1] == 47;
      }
    }
  }

  // ---- what a disk holds ---------------------------------------------------------------

  predicate CompleteOn(sha: Hash, ed: Verifier, disk: Disk, id: ID) {
    && ObjectComplete(id) in disk
    && ReadManifest(disk, ObjectManifest(id)).Some?
    && var m := ReadManifest(disk, ObjectManifest(id)).value;
       && SignatureHolds(ed, m)
       && ObjectContent(id) in disk && disk[ObjectContent(id)].Plain?
       && |disk[ObjectContent(id)].bytes| == m.length
       && sha(disk[ObjectContent(id)].bytes) == m.sha
  }

  /** Manifest files belong to the directory they are in. */
  ghost predicate Filed(disk: Disk) {
    forall p <- disk ::
      (p.ObjectManifest? || p.PartialManifest? || p.KnownManifest? ==> disk[p].Json? && disk[p].manifest.id == p.id)
  }

  /** The partial directory holds the assembly: its manifest and every received
      chunk. It may hold more chunks, if they have the right length. */
  ghost predicate OnDisk(disk: Disk, p: Parts) {
    var id := p.manifest.id;
    && p.Valid()
    && PartialManifest(id) in disk && disk[PartialManifest(id)] == ToJson(p.manifest)
    && forall i: nat :: i < |p.received| ==> ChunkOnDisk(disk, p, i)
  }

  ghost predicate ChunkOnDisk(disk: Disk, p: Parts, i: nat)
    requires p.Valid() && i < |p.received|
  {
    var path := PartialChunk(p.manifest.id, i);
    && (p.received[i] ==> path in disk && disk[path] == Plain(p.chunks[i]))
    && (path in disk ==> disk[path].Plain? && |disk[path].bytes| == ChunkLength(p.manifest, i))
  }

  /** p holds at least what q holds. */
  ghost predicate Extends(p: Parts, q: Parts) {
    && p.manifest == q.manifest && |p.received| == |q.received| && |p.chunks| == |q.chunks|
    && |p.chunks| == |p.received|
    && forall i :: 0 <= i < |p.received| ==> q.received[i] ==> p.received[i] && p.chunks[i] == q.chunks[i]
  }

  /** The assembly that the chunk files below index n make up; a file of the wrong
      length spoils it. */
  function Loaded(disk: Disk, m: Manifest, n: nat): (r: Option<Parts>)
    requires n <= m.chunkCount
    ensures r.Some? ==> r.value.Valid() && r.value.manifest == m
                        && forall i :: n <= i < m.chunkCount ==> !r.value.received[i]
  {
    if n == 0 then Some(Fresh(m)) else
      match Loaded(disk, m, n - 1)
      case None => None
      case Some(p) =>
        var path := PartialChunk(m.id, n - 1);
        if path !in disk then Some(p)
        else if disk[path].Json? then None
        else
          match AddChunk(p, n - 1, disk[path].bytes)
          case Ok(q) => Some(q)
          case Err(_) => None
  }

  /** What LoadPartial finds after a restart. */
  function LoadPartialFrom(disk: Disk, id: ID): Option<Parts> {
    match ReadManifest(disk, PartialManifest(id))
    case None => None
    case Some(m) => if !SafeName(m.filename) then None else Loaded(disk, m, m.chunkCount)
  }

  /** Loading reads back every chunk that is there. */
  lemma {:induction false} LoadedExactly(disk: Disk, p: Parts, n: nat)
    requires OnDisk(disk, p) && n <= p.manifest.chunkCount
    ensures var r := Loaded(disk, p.manifest, n);
            r.Some? && forall i: nat :: i < n ==>
              (r.value.received[i] <==> PartialChunk(p.manifest.id, i) in disk)
              && (r.value.received[i] ==> disk[PartialChunk(p.manifest.id, i)] == Plain(r.value.chunks[i]))
  {
    if n > 0 {
      LoadedExactly(disk, p, n - 1);
      assert ChunkOnDisk(disk, p, n - 1);
    }
  }

  /** An empty directory loads to an assembly without chunks. */
  lemma {:induction false} LoadedNothing(disk: Disk, m: Manifest, n: nat)
    requires n <= m.chunkCount && forall i: nat :: PartialChunk(m.id, i) !in disk
    ensures Loaded(disk, m, n) == Some(Fresh(m))
  {
    if n > 0 {
      LoadedNothing(disk, m, n - 1);
    }
  }

  ghost predicate Storable(m: Manifest) {
    && (m.version == 1 || m.version == SIGNED_MANIFEST_VERSION)
    && Encodable(m) && Geometry(m) && SafeName(m.filename)
  }

  /** Resume: a disk that holds an assembly gives back, after a restart, an assembly
      with the same manifest and at least the same chunks. */
  lemma ResumeExtends(disk: Disk, p: Parts)
    requires OnDisk(disk, p) && Storable(p.manifest)
    ensures LoadPartialFrom(disk, p.manifest.id).Some?
    ensures Extends(LoadPartialFrom(disk, p.manifest.id).value, p)
    ensures OnDisk(disk, LoadPartialFrom(disk, p.manifest.id).value)
  {
    LoadedExactly(disk, p, p.manifest.chunkCount);
    var q := LoadPartialFrom(disk, p.manifest.id).value;
    forall i: nat | i < |p.received| ensures p.received[i] ==> q.received[i] && p.chunks[i] == q.chunks[i] {
      assert ChunkOnDisk(disk, p, i);
    }
    forall i: nat | i < |q.received| ensures ChunkOnDisk(disk, q, i) {
      assert ChunkOnDisk(disk, p, i);
    }
  }

  /** The disks a crash may leave while an assembly is worked on. */
  ghost predicate Recoverable(sha: Hash, ed: Verifier, disk: Disk, p: Parts) {
    OnDisk(disk, p) || CompleteOn(sha, ed, disk, p.manifest.id)
  }

  // ---- operations ---------------------------------------------------------------------

  predicate IsPartialOf(p: FilePath, id: ID) {
    (p.PartialManifest? || p.PartialChunk?) && p.id == id
  }

  predicate HasPartialFiles(disk: Disk, id: ID) {
    exists p :: p in disk && IsPartialOf(p, id)
  }

  function WriteOn(disk: Disk, path: FilePath, file: File, w: WriteResult): Disk {
    if w.NotWritten? then disk else disk[path := file]
  }

  /** What removing the partial files named by `order` leaves. */
  function RemoveOn(disk: Disk, id: ID, order: seq<FilePath>): Disk {
    if order == [] then disk else
      var rest := RemoveOn(disk, id, order[..|order| - 1]);
      var last := order[|order| - 1];
      if IsPartialOf(last, id) then rest - {last} else rest
  }

  function LoadAll(disk: Disk, m: Manifest): (r: Result<Parts, StoreError>)
    ensures r.Ok? ==> r.value.Valid() && r.value.manifest == m
  {
    match Loaded(disk, m, m.chunkCount)
    case None => Err(Malformed)
    case Some(p) => Ok(p)
  }

  function BeginOn(disk: Disk, m: Manifest, w: WriteResult): (r: (Disk, Result<Parts, StoreError>))
    ensures r.1.Ok? ==> r.1.value.Valid() && r.1.value.manifest == m && SafeName(m.filename)
  {
    var path := PartialManifest(m.id);
    if !SafeName(m.filename) then (disk, Err(Malformed))
    else if path in disk then (disk, if disk[path] != ToJson(m) then Err(Conflict) else LoadAll(disk, m))
    else
      var after := WriteOn(disk, path, ToJson(m), w);
      (after, if w.Written? then LoadAll(after, m) else Err(IoError))
  }

  function AddOn(disk: Disk, p: Parts, index: nat, data: seq<byte>, w: WriteResult): (r: (Disk, Result<Parts, StoreError>))
    requires p.Valid()
    ensures r.1.Ok? ==> r.1.value.Valid() && r.1.value.manifest == p.manifest
  {
    match AddChunk(p, index, data)
    case Err(_) => (disk, Err(Malformed))
    case Ok(q) =>
      if p.received[index] then (disk, Ok(q))
      else (WriteOn(disk, PartialChunk(p.manifest.id, index), Plain(data), w), if w.Written? then Ok(q) else Err(IoError))
  }

  /** Content, manifest, mark; the rest is not written once a write failed. */
  function PublishOn(disk: Disk, m: Manifest, content: seq<byte>, w: seq<WriteResult>): (Disk, bool)
    requires |w| == 3
  {
    var first := WriteOn(disk, ObjectContent(m.id), Plain(content), w[0]);
    if !w[0].Written? then (first, false) else
      var second := WriteOn(first, ObjectManifest(m.id), ToJson(m), w[1]);
      if !w[1].Written? then (second, false) else
        (WriteOn(second, ObjectComplete(m.id), Plain(VERIFIED), w[2]), w[2].Written?)
  }

  function CommitOn(sha: Hash, ed: Verifier, disk: Disk, p: Parts, w: seq<WriteResult>, order: seq<FilePath>): (Disk, Result<(), StoreError>)
    requires |w| == 3
  {
    match ContentOf(sha, p)
    case Err(e) => (disk, Err(if e.HashMismatch? then WrongHash else Malformed))
    case Ok(content) =>
      if !SignatureHolds(ed, p.manifest) then (disk, Err(BadSignature)) else
        var published := PublishOn(disk, p.manifest, content, w);
        if !published.1 then (published.0, Err(IoError)) else
          var after := RemoveOn(published.0, p.manifest.id, order);
          (after, if HasPartialFiles(after, p.manifest.id) then Err(IoError) else Ok(()))
  }

  function RestartOn(disk: Disk, m: Manifest, order: seq<FilePath>, w: WriteResult): (r: (Disk, Result<Parts, StoreError>))
    ensures r.1.Ok? ==> r.1.value.Valid() && r.1.value.manifest == m
  {
    var after := RemoveOn(disk, m.id, order);
    if HasPartialFiles(after, m.id) then (after, Err(IoError)) else BeginOn(after, m, w)
  }

  function SaveKnownOn(disk: Disk, m: Manifest, w: WriteResult): (r: (Disk, bool))
    ensures r.1 ==> Encodable(m)
  {
    var path := KnownManifest(m.id);
    if !Encodable(m) then (disk, false)
    else if path in disk && disk[path] == ToJson(m) then (disk, true)
    else (WriteOn(disk, path, ToJson(m), w), w.Written?)
  }

  function LoadPartialOn(disk: Disk, id: ID, w: WriteResult): (r: (Disk, Result<Parts, StoreError>))
    ensures r.1.Ok? ==> r.1.value.Valid() && Storable(r.1.value.manifest)
  {
    match ReadManifest(disk, PartialManifest(id))
    case None => (disk, Err(Malformed))
    case Some(m) => BeginOn(disk, m, w)
  }

  predicate HasPartial(disk: Disk, id: ID) {
    PartialManifest(id) in disk
  }

  predicate HasKnown(disk: Disk, id: ID) {
    ReadManifest(disk, KnownManifest(id)).Some? && ReadManifest(disk, KnownManifest(id)).value.id == id
  }

  predicate Wanted(disk: Disk, id: ID) {
    Want(id) in disk
  }

  /** A publication that has been begun counts as such, and one without files does not. */
  lemma BegunCounts(disk: Disk, p: Parts, id: ID)
    ensures OnDisk(disk, p) ==> HasPartial(disk, p.manifest.id)
    ensures !HasPartialFiles(disk, id) ==> !HasPartial(disk, id)
  {
    assert IsPartialOf(PartialManifest(id), id);
  }

  /** Whoever wants a publication gets it whatever the policy, as long as its signature
      holds. */
  lemma WantAdmits(ed: Verifier, policy: AcquisitionPolicy, disk: Disk, m: Manifest, note: File, begun: bool)
    ensures Accept(ed, policy, m, begun, Wanted(disk[Want(m.id) := note], m.id)) <==> SignatureHolds(ed, m)
  {
    AcceptExact(ed, policy, m, begun, true);
    hide SignatureHolds, Accept;
  }

  /** What has been saved is known, and a file under its name that is not its manifest is
      not. */
  lemma KnownOnceSaved(disk: Disk, m: Manifest, w: WriteResult, file: File)
    requires Storable(m)
    ensures SaveKnownOn(disk, m, w).1 ==> HasKnown(SaveKnownOn(disk, m, w).0, m.id)
    ensures HasKnown(disk[KnownManifest(m.id) := file], m.id) ==> file.Json? && file.manifest.id == m.id && Geometry(file.manifest)
  {
    hide Encodable, Geometry;
  }

  /** The sorted list without duplicates of a finite set of IDs. */
  ghost function Listed(ids: set<ID>): (r: seq<ID>)
    ensures Distinct(r) && Radix.IsSorted(r) && SetOf(r) == ids
  {
    ListedExists(ids);
    var r: seq<ID> :| Distinct(r) && Radix.IsSorted(r) && SetOf(r) == ids;
    r
  }

  lemma {:induction false} ListedExists(ids: set<ID>)
    ensures exists r: seq<ID> :: Distinct(r) && Radix.IsSorted(r) && SetOf(r) == ids
  {
    if ids == {} {
      assert SetOf<ID>([]) == ids;
      assert Radix.IsSorted([]);
    } else {
      var id :| id in ids;
      ListedExists(ids - {id});
      var r: seq<ID> :| Distinct(r) && Radix.IsSorted(r) && SetOf(r) == ids - {id};
      DistinctConcat([id], r);
      var all := Radix.Sorted([id] + r);
      MultisetSameElements([id] + r, all);
      SortedHasAll(ids, id, r, all);
    }
  }

  lemma SortedHasAll(ids: set<ID>, id: ID, r: seq<ID>, all: seq<ID>)
    requires id in ids && SetOf(r) == ids - {id}
    requires forall x :: x in [id] + r <==> x in all
    ensures SetOf(all) == ids
  {
    forall x ensures x in SetOf(all) <==> x in ids {
      assert x in r <==> x in SetOf(r);
      assert x in [id] + r <==> x == id || x in r;
    }
  }

  ghost function CompleteSet(sha: Hash, ed: Verifier, disk: Disk): (r: set<ID>)
    ensures forall id :: id in r <==> CompleteOn(sha, ed, disk, id)
  {
    var marked := set p | p in disk && p.ObjectComplete? :: p.id;
    assert forall id :: CompleteOn(sha, ed, disk, id) ==> ObjectComplete(id) in disk && id in marked;
    set id | id in marked && CompleteOn(sha, ed, disk, id)
  }

  /** The inventory: exactly the complete publications, each once, in ID order. */
  ghost function Inventory(sha: Hash, ed: Verifier, disk: Disk): (r: seq<ID>)
    ensures Distinct(r) && forall id :: id in r <==> CompleteOn(sha, ed, disk, id)
  {
    var r := Listed(CompleteSet(sha, ed, disk));
    assert forall id :: id in r <==> id in SetOf(r);
    r
  }

  lemma InventoryUnique(sha: Hash, ed: Verifier, disk: Disk, r: seq<ID>)
    requires Distinct(r) && Radix.IsSorted(r) && forall id :: id in r <==> CompleteOn(sha, ed, disk, id)
    ensures r == Inventory(sha, ed, disk)
  {
    var l := Listed(CompleteSet(sha, ed, disk));
    hide CompleteOn;
    assert SetOf(r) == CompleteSet(sha, ed, disk);
    DistinctSameSet(r, l);
    Radix.SortedUnique(r, l);
  }

  lemma {:induction false} JoinedLength(p: Parts, n: nat)
    requires p.Valid() && p.Whole() && Geometry(p.manifest) && n <= |p.chunks|
    ensures |Joined(p.chunks[..n])| == TotalLength(p.manifest, n)
  {
    if n > 0 {
      JoinedLength(p, n - 1);
      assert p.chunks[..n][..n - 1] == p.chunks[..n - 1];
    }
  }

  lemma CommittedIsComplete(sha: Hash, ed: Verifier, disk: Disk, p: Parts)
    requires p.Valid() && Storable(p.manifest) && SignatureHolds(ed, p.manifest)
    requires ContentOf(sha, p).Ok?
    requires var id := p.manifest.id;
             && ObjectContent(id) in disk && disk[ObjectContent(id)] == Plain(ContentOf(sha, p).value)
             && ObjectManifest(id) in disk && disk[ObjectManifest(id)] == ToJson(p.manifest)
             && ObjectComplete(id) in disk
    ensures CompleteOn(sha, ed, disk, p.manifest.id)
  {
    JoinedLength(p, |p.chunks|);
    assert p.chunks[..|p.chunks|] == p.chunks;
    ChunksCoverContent(p.manifest);
  }

  /** Removing takes exactly the partial files that the order names. */
  lemma {:induction false} RemovesNamed(disk: Disk, id: ID, order: seq<FilePath>, p: FilePath)
    requires IsPartialOf(p, id)
    ensures p in RemoveOn(disk, id, order) <==> p in disk && p !in order
    ensures p in RemoveOn(disk, id, order) ==> RemoveOn(disk, id, order)[p] == disk[p]
  {
    if order != [] {
      var n := |order| - 1;
      RemovesNamed(disk, id, order[..n], p);
      assert order == order[..n] + [order[n]];
    }
  }

  /** Something keeps a commit from its end: a write that fails, or a file of the partial
      directory that is not removed. */
  ghost predicate Hindered(disk: Disk, id: ID, w: seq<WriteResult>, order: seq<FilePath>)
    requires |w| == 3
  {
    !w[0].Written? || !w[1].Written? || !w[2].Written? || exists f :: f in disk && IsPartialOf(f, id) && f !in order
  }

  lemma PublishedPartials(disk: Disk, m: Manifest, content: seq<byte>, w: seq<WriteResult>, f: FilePath)
    requires |w| == 3 && IsPartialOf(f, m.id)
    ensures f in PublishOn(disk, m, content, w).0 <==> f in disk
  {}

  /** A commit succeeds exactly if the content is whole with the right hash, the signature
      holds, and nothing hinders it. */
  lemma CommitExact(sha: Hash, ed: Verifier, disk: Disk, p: Parts, w: seq<WriteResult>, order: seq<FilePath>)
    requires |w| == 3
    ensures CommitOn(sha, ed, disk, p, w, order).1.Ok? <==>
              ContentOf(sha, p).Ok? && SignatureHolds(ed, p.manifest) && !Hindered(disk, p.manifest.id, w, order)
  {
    hide ContentOf, SignatureHolds, RemoveOn;
    var id := p.manifest.id;
    if ContentOf(sha, p).Ok? && SignatureHolds(ed, p.manifest) {
      var content := ContentOf(sha, p).value;
      var (published, written) := PublishOn(disk, p.manifest, content, w);
      assert written <==> w[0].Written? && w[1].Written? && w[2].Written?;
      if written {
        LeftBehind(disk, published, p.manifest, content, w, order);
      }
    }
  }

  lemma LeftBehind(disk: Disk, published: Disk, m: Manifest, content: seq<byte>, w: seq<WriteResult>, order: seq<FilePath>)
    requires |w| == 3 && published == PublishOn(disk, m, content, w).0
    ensures HasPartialFiles(RemoveOn(published, m.id, order), m.id) <==> exists f :: f in disk && IsPartialOf(f, m.id) && f !in order
  {
    hide RemoveOn, PublishOn;
    var after := RemoveOn(published, m.id, order);
    if f :| f in disk && IsPartialOf(f, m.id) && f !in order {
      PublishedPartials(disk, m, content, w, f);
      RemovesNamed(published, m.id, order, f);
      assert f in after && IsPartialOf(f, m.id);
    }
    if f :| f in after && IsPartialOf(f, m.id) {
      RemovesNamed(published, m.id, order, f);
      PublishedPartials(disk, m, content, w, f);
      assert f in disk && IsPartialOf(f, m.id) && f !in order;
    }
  }

  // ---- serving ------------------------------------------------------------------------

  function ReadChunkFrom(disk: Disk, id: ID, index: nat): Result<seq<byte>, StoreError> {
    match ReadManifest(disk, ObjectManifest(id))
    case None => Err(IoError)
    case Some(m) =>
      if index >= m.chunkCount then Err(Malformed)
      else if ObjectContent(id) !in disk || disk[ObjectContent(id)].Json? then Err(IoError)
      else
        var content := disk[ObjectContent(id)].bytes;
        var from, n := index * m.chunkSize, ChunkLength(m, index);
        if n < 0 || from + n > |content| then Err(IoError) else Ok(content[from..from + n])
  }

  /** A complete object is content that its manifest describes. */
  lemma CompleteDescribes(sha: Hash, ed: Verifier, disk: Disk, id: ID)
    requires CompleteOn(sha, ed, disk, id) && Filed(disk)
    ensures var m := disk[ObjectManifest(id)].manifest;
            var content := disk[ObjectContent(id)].bytes;
            && Describes(sha, m, content) && SignatureHolds(ed, m)
            && m.id == id == sha(content)[..16]
  {}

  /** The exact condition for the ID: an object that is complete under an ID has the ID of
      its content if and only if its manifest names that ID. */
  lemma CompleteID(sha: Hash, ed: Verifier, disk: Disk, id: ID)
    requires CompleteOn(sha, ed, disk, id)
    ensures id == sha(disk[ObjectContent(id)].bytes)[..16] <==> disk[ObjectManifest(id)].manifest.id == id
  {}

  /** An object of one octet, under any ID and with any version. */
  function OneOctet(sha: Hash, version: U16): Manifest {
    Manifest(version, sha([7])[..16], [97], 1, sha([7]), 1, 1, None)
  }

  function OneObject(sha: Hash, version: U16, id: ID): Disk {
    map[ObjectContent(id) := Plain([7]), ObjectManifest(id) := Json(OneOctet(sha, version)), ObjectComplete(id) := Plain(VERIFIED)]
  }

  /** It is complete, also where it does not belong: validating an object does not compare
      its manifest's ID with the directory. */
  lemma Misfiled(sha: Hash, ed: Verifier, version: U16, id: ID)
    requires version == 1 || version == SIGNED_MANIFEST_VERSION
    ensures CompleteOn(sha, ed, OneObject(sha, version, id), id)
    ensures Filed(OneObject(sha, version, id)) <==> id == sha([7])[..16]
  {
    var disk := OneObject(sha, version, id);
    assert ObjectManifest(id) in disk;
    assert |disk[ObjectContent(id)].bytes| == 1;
  }

  /** A complete object serves exactly the slices of its content. */
  lemma ReadChunkSlice(sha: Hash, ed: Verifier, disk: Disk, id: ID, index: nat)
    requires CompleteOn(sha, ed, disk, id)
    ensures var m := disk[ObjectManifest(id)].manifest;
            ReadChunkFrom(disk, id, index) ==
            if index >= m.chunkCount then Err(Malformed)
            else Ok(Slice(m, disk[ObjectContent(id)].bytes, index))
  {
    var m := disk[ObjectManifest(id)].manifest;
    if index < m.chunkCount {
      ChunkBounds(m, index);
    }
  }

  function ServedUpTo(disk: Disk, id: ID, n: nat): seq<byte>
    requires forall i: nat :: i < n ==> ReadChunkFrom(disk, id, i).Ok?
  {
    if n == 0 then [] else ServedUpTo(disk, id, n - 1) + ReadChunkFrom(disk, id, n - 1).value
  }

  /** Reading all chunks of a complete object in order gives its content. */
  lemma ServedIsContent(sha: Hash, ed: Verifier, disk: Disk, id: ID)
    requires CompleteOn(sha, ed, disk, id)
    ensures var m := disk[ObjectManifest(id)].manifest;
            (forall i: nat :: i < m.chunkCount ==> ReadChunkFrom(disk, id, i).Ok?)
            && ServedUpTo(disk, id, m.chunkCount) == disk[ObjectContent(id)].bytes
  {
    var m := disk[ObjectManifest(id)].manifest;
    var content := disk[ObjectContent(id)].bytes;
    forall i: nat | i < m.chunkCount ensures ReadChunkFrom(disk, id, i).Ok? {
      ReadChunkSlice(sha, ed, disk, id, i);
    }
    ServedPrefix(sha, ed, disk, id, m.chunkCount);
    assert content[..|content|] == content;
  }

  lemma {:induction false} ServedPrefix(sha: Hash, ed: Verifier, disk: Disk, id: ID, n: nat)
    requires CompleteOn(sha, ed, disk, id) && n <= disk[ObjectManifest(id)].manifest.chunkCount
    requires forall i: nat :: i < n ==> ReadChunkFrom(disk, id, i).Ok?
    ensures var m := disk[ObjectManifest(id)].manifest;
            ServedUpTo(disk, id, n) == disk[ObjectContent(id)].bytes[..Covered(m, n)]
  {
    hide ReadChunkFrom;
    var m := disk[ObjectManifest(id)].manifest;
    var content := disk[ObjectContent(id)].bytes;
    if n > 0 {
      ServedPrefix(sha, ed, disk, id, n - 1);
      ReadChunkSlice(sha, ed, disk, id, n - 1);
      ChunkBounds(m, n - 1);
      var from := Offset(m, n - 1);
      var to := from + ChunkLength(m, n - 1);
      assert content[..from] + content[from..to] == content[..to];
    } else if m.chunkCount > 0 {
      assert Offset(m, 0) == 0;
    }
  }
}
