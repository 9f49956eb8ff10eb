/** Chunk assembly (internal/publication/assembly.go): what was received of a
    publication, and when it is whole. */
module Assemblies {
  import opened Bytes
  import opened Manifests

  datatype AssemblyError = Rejected | Incomplete | HashMismatch

  /** The value of an assembly. */
  datatype Parts = Parts(manifest: Manifest, chunks: seq<seq<byte>>, received: seq<bool>) {
    predicate Valid() {
      && |chunks| == |received| == manifest.chunkCount
      && forall i :: 0 <= i < |chunks| ==>
           if received[i] then |chunks[i]| == ChunkLength(manifest, i) else chunks[i] == []
    }

    predicate Whole() {
      forall i :: 0 <= i < |received| ==> received[i]
    }
  }

  function Fresh(m: Manifest): (p: Parts)
    ensures p.Valid() && p.manifest == m
    ensures forall i :: 0 <= i < |p.received| ==> !p.received[i]
  {
    Parts(m, seq(m.chunkCount, _ => []), seq(m.chunkCount, _ => false))
  }

  /** Adding a chunk: the length must fit its place, and what is already there must
      not be contradicted. */
  function AddChunk(p: Parts, index: nat, data: seq<byte>): (r: Result<Parts, AssemblyError>)
    requires p.Valid()
    ensures r.Ok? ==> r.value.Valid() && r.value.manifest == p.manifest
  {
    if index >= |p.chunks| || |data| != ChunkLength(p.manifest, index) then Err(Rejected)
    else if p.received[index] then if p.chunks[index] != data then Err(Rejected) else Ok(p)
    else Ok(p.(chunks := p.chunks[index := data], received := p.received[index := true]))
  }

  /** A chunk is taken exactly if it ends where the next one begins, or the content ends, and
      contradicts nothing; it is then held, and nothing else has changed. */
  lemma AddExact(p: Parts, index: nat, data: seq<byte>)
    requires p.Valid()
    ensures AddChunk(p, index, data).Ok? <==>
              && index < |p.received| && (p.received[index] ==> p.chunks[index] == data)
              && index * p.manifest.chunkSize + |data| ==
                   if index == |p.received| - 1 then p.manifest.length else index * p.manifest.chunkSize + p.manifest.chunkSize
    ensures AddChunk(p, index, data).Ok? ==>
              var q := AddChunk(p, index, data).value;
              && q.manifest == p.manifest && q.received[index] && q.chunks[index] == data
              && forall k :: 0 <= k < |p.received| && k != index ==> q.received[k] == p.received[k] && q.chunks[k] == p.chunks[k]
  {}

  function MissingUpTo(received: seq<bool>, n: nat): (r: seq<nat>)
    requires n <= |received|
    ensures forall i :: i in r <==> 0 <= i < n && !received[i]
    ensures forall a, b :: 0 <= a < b < |r| ==> r[a] < r[b]
  {
    if n == 0 then [] else
      var r := MissingUpTo(received, n - 1);
      if received[n - 1] then r else
        assert forall a :: 0 <= a < |r| ==> r[a] in r;
        r + [n - 1]
  }

  /** The indices not received, ascending. */
  function MissingOf(received: seq<bool>): seq<nat> {
    MissingUpTo(received, |received|)
  }

  lemma WholeIffNoneMissing(p: Parts)
    requires p.Valid()
    ensures p.Whole() <==> MissingOf(p.received) == []
  {
    var missing := MissingOf(p.received);
    if missing != [] {
      assert missing[0] in missing;
    }
    forall i | 0 <= i < |p.received| ensures p.received[i] <==> i !in missing {}
  }

  function Joined(chunks: seq<seq<byte>>): seq<byte> {
    if chunks == [] then [] else Joined(chunks[..|chunks| - 1]) + chunks[|chunks| - 1]
  }

  // ---- slices of the source ---------------------------------------------------------

  /** A manifest that describes the content. */
  ghost predicate Describes(sha: Hash, m: Manifest, content: seq<byte>) {
    Geometry(m) && |content| == m.length && sha(content) == m.sha
  }

  /** The part of the content that chunk i stands for. */
  function Slice(m: Manifest, content: seq<byte>, i: nat): (r: seq<byte>)
    requires Geometry(m) && |content| == m.length && i < m.chunkCount
    ensures |r| == ChunkLength(m, i)
  {
    ChunkBounds(m, i);
    content[Offset(m, i)..Offset(m, i) + ChunkLength(m, i)]
  }

  /** Whatever was received is the corresponding slice of the content. */
  ghost predicate Agrees(p: Parts, content: seq<byte>)
    requires Geometry(p.manifest) && |content| == p.manifest.length
  {
    && p.Valid()
    && forall i :: 0 <= i < |p.received| ==> p.received[i] ==> p.chunks[i] == Slice(p.manifest, content, i)
  }

  /** How much of the content the first n chunks make up. */
  function Covered(m: Manifest, n: nat): (c: nat)
    requires Geometry(m) && n <= m.chunkCount
    ensures c <= m.length
  {
    if n == m.chunkCount then m.length else
      ChunkBounds(m, n);
      Offset(m, n)
  }

  lemma {:induction false} JoinedPrefix(m: Manifest, content: seq<byte>, chunks: seq<seq<byte>>)
    requires Geometry(m) && |content| == m.length && |chunks| <= m.chunkCount
    requires forall i :: 0 <= i < |chunks| ==> chunks[i] == Slice(m, content, i)
    ensures Joined(chunks) == content[..Covered(m, |chunks|)]
  {
    var n := |chunks|;
    if n > 0 {
      ChunkBounds(m, n - 1);
      JoinedPrefix(m, content, chunks[..n - 1]);
      var from := Offset(m, n - 1);
      var to := from + ChunkLength(m, n - 1);
      assert content[..from] + content[from..to] == content[..to];
    } else if m.chunkCount > 0 {
      assert Offset(m, 0) == 0;
    }
  }

  /** A whole assembly of honest chunks joins to the content. */
  lemma WholeJoins(p: Parts, content: seq<byte>)
    requires Geometry(p.manifest) && |content| == p.manifest.length
    requires Agrees(p, content) && p.Whole()
    ensures Joined(p.chunks) == content
  {
    JoinedPrefix(p.manifest, content, p.chunks);
    assert content[..|content|] == content;
  }

  // ---- the assembly object ------------------------------------------------------------

  class Assembly {
    const manifest: Manifest
    const chunks: array<seq<byte>>
    const received: array<bool>

    ghost function State(): Parts
      reads this, chunks, received
    {
      Parts(manifest, chunks[..], received[..])
    }

    ghost predicate Valid()
      reads this, chunks, received
    {
      State().Valid()
    }

    constructor (m: Manifest)
      ensures Valid() && State() == Fresh(m)
      ensures fresh(chunks) && fresh(received)
    {
      manifest := m;
      chunks := new seq<byte>[m.chunkCount](_ => []);
      received := new bool[m.chunkCount](_ => false);
      new;
      assert chunks[..] == seq(m.chunkCount, _ => []);
      assert received[..] == seq(m.chunkCount, _ => false);
    }

    method Add(index: U16, data: seq<byte>) returns (r: Result<(), AssemblyError>)
      requires Valid()
      modifies chunks, received
      ensures Valid()
      ensures match old(AddChunk(State(), index, data))
              case Ok(after) => r.Ok? && State() == after
              case Err(e) => r == Err(e) && State() == old(State())
    {
      if index >= chunks.Length {
        return Err(Rejected);
      }
      var expected: int := manifest.chunkSize;
      if index == chunks.Length - 1 {
        expected := manifest.length - index * manifest.chunkSize;
      }
      if |data| != expected {
        return Err(Rejected);
      }
      if received[index] {
        if chunks[index] != data {
          return Err(Rejected);
        }
        return Ok(());
      }
      chunks[index] := data;
      received[index] := true;
      return Ok(());
    }

    /** Takes back a chunk that could not be stored. */
    method Forget(index: nat)
      requires Valid() && index < chunks.Length
      modifies chunks, received
      ensures Valid()
      ensures State() == old(State()).(chunks := old(chunks[..])[index := []], received := old(received[..])[index := false])
    {
      chunks[index] := [];
      received[index] := false;
    }

    method Missing() returns (out: seq<nat>)
      ensures out == MissingOf(received[..])
    {
      out := [];
      for i := 0 to received.Length
        invariant out == MissingUpTo(received[..], i)
      {
        if !received[i] {
          out := out + [i];
        }
      }
    }

    method Complete() returns (whole: bool)
      requires Valid()
      ensures whole <==> State().Whole()
    {
      var missing := Missing();
      WholeIffNoneMissing(State());
      return |missing| == 0;
    }

    /** The content, once it is whole and has the right hash. */
    method Content(sha: Hash) returns (r: Result<seq<byte>, AssemblyError>)
      requires Valid()
      ensures r == ContentOf(sha, State())
    {
      var whole := Complete();
      if !whole {
        return Err(Incomplete);
      }
      var content: seq<byte> := [];
      for i := 0 to chunks.Length
        invariant content == Joined(chunks[..i])
      {
        assert chunks[..i + 1][..i] == chunks[..i];
        content := content + chunks[i];
      }
      assert chunks[..chunks.Length] == chunks[..];
      if sha(content) != manifest.sha {
        return Err(HashMismatch);
      }
      return Ok(content);
    }
  }

  function ContentOf(sha: Hash, p: Parts): Result<seq<byte>, AssemblyError> {
    if !p.Whole() then Err(Incomplete)
    else if sha(Joined(p.chunks)) != p.manifest.sha then Err(HashMismatch)
    else Ok(Joined(p.chunks))
  }
}
