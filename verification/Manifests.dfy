/** Publication manifests: the wire body and its chunk geometry
    (internal/publication/protocol.go), the bytes that are signed
    (internal/publication/signing.go) and the admission policy
    (internal/node/policy.go). */
module Manifests {
  import opened Bytes

  const CHUNK_DATA_SIZE := 178
  const MAX_FILENAME_BYTES := 135
  const MAX_CHUNKS := 1424
  const SIGNED_MANIFEST_VERSION: U16 := 2

  datatype Signature = Signature(publicKey: Bytes32, value: Bytes64)

  datatype Manifest = Manifest(version: U16, id: ID, filename: seq<byte>, length: U64, sha: Bytes32,
                               chunkSize: U16, chunkCount: U16, signature: Option<Signature>)

  predicate IDMatchesHash(id: ID, hash: Bytes32) {
    id == hash[..16]
  }

  // ---- the body --------------------------------------------------------------------

  predicate Encodable(m: Manifest) {
    && |m.filename| <= MAX_FILENAME_BYTES
    && 0 < m.chunkSize <= CHUNK_DATA_SIZE
    && m.chunkCount <= MAX_CHUNKS
    && IDMatchesHash(m.id, m.sha)
  }

  function Body(m: Manifest): (r: seq<byte>)
    requires |m.filename| < 256
    ensures |r| == 45 + |m.filename|
  {
    ToLE(m.length, 8) + m.sha + ToLE(m.chunkSize, 2) + ToLE(m.chunkCount, 2) + [|m.filename|] + m.filename
  }

  function EncodeManifest(m: Manifest): Option<seq<byte>> {
    if !Encodable(m) then None else Some(Body(m))
  }

  function ExpectedCount(length: nat, chunkSize: nat): nat
    requires chunkSize > 0
  {
    if length > 0 then (length - 1) / chunkSize + 1 else 0
  }

  /** The chunk geometry that the decoder insists on. */
  predicate Geometry(m: Manifest) {
    && 0 < m.chunkSize <= CHUNK_DATA_SIZE
    && m.chunkCount <= MAX_CHUNKS
    && m.length <= MAX_CHUNKS * m.chunkSize
    && m.chunkCount == ExpectedCount(m.length, m.chunkSize)
  }

  function DecodeManifest(id: ID, body: seq<byte>): Option<Manifest> {
    if |body| < 45 || body[44] != |body| - 45 then None
    else
      var m := Manifest(1, id, body[45..], U64At(body, 0), body[8..40], U16At(body, 40), U16At(body, 42), None);
      if m.chunkSize == 0 || m.chunkSize > CHUNK_DATA_SIZE || m.chunkCount > MAX_CHUNKS
         || m.length > MAX_CHUNKS * m.chunkSize || !IDMatchesHash(id, m.sha) then None
      else if m.chunkCount != ExpectedCount(m.length, m.chunkSize) then None
      else Some(m)
  }

  /** The version and signature travel apart from the body. */
  function Base(m: Manifest): Manifest {
    m.(version := 1, signature := None)
  }

  lemma BodySlices(m: Manifest)
    requires |m.filename| < 256
    ensures var b := Body(m);
            b[0..8] == ToLE(m.length, 8) && b[8..40] == m.sha && b[40..42] == ToLE(m.chunkSize, 2)
            && b[42..44] == ToLE(m.chunkCount, 2) && b[44] == |m.filename| && b[45..] == m.filename
  {
    hide ToLE;
  }

  lemma BodyFields(m: Manifest)
    requires |m.filename| < 256
    ensures var b := Body(m);
            U64At(b, 0) == m.length && b[8..40] == m.sha && U16At(b, 40) == m.chunkSize
            && U16At(b, 42) == m.chunkCount && b[44] == |m.filename| && b[45..] == m.filename
  {
    BodySlices(m);
    Pow256Of8();
    FromToLE(m.length, 8);
    FromToLE(m.chunkSize, 2);
    FromToLE(m.chunkCount, 2);
    hide ToLE, FromLE, Pow256, Body;
  }

  /** Encoding never checks the geometry; decoding does. What was encoded decodes
      back exactly when the geometry is right, and to nothing otherwise. */
  lemma DecodeOfEncode(m: Manifest)
    requires Encodable(m)
    ensures DecodeManifest(m.id, Body(m)) == if Geometry(m) then Some(Base(m)) else None
  {
    BodyFields(m);
    hide Body, ToLE, FromLE, Pow256, U64At, U16At;
  }

  lemma BodyOfFields(body: seq<byte>)
    requires |body| >= 45
    ensures body == ToLE(U64At(body, 0), 8) + body[8..40] + ToLE(U16At(body, 40), 2) + ToLE(U16At(body, 42), 2)
                    + [body[44]] + body[45..]
  {
    ToFromLE(body[0..8]);
    ToFromLE(body[40..42]);
    ToFromLE(body[42..44]);
    hide ToLE, FromLE;
    assert body == body[0..8] + body[8..40] + body[40..42] + body[42..44] + [body[44]] + body[45..];
  }

  /** An accepted body is the encoding of the manifest it yields, unless its file
      name is longer than the encoder admits; those manifests cannot be encoded. */
  lemma EncodeOfDecode(id: ID, body: seq<byte>)
    requires DecodeManifest(id, body).Some?
    ensures var m := DecodeManifest(id, body).value;
            m.id == id && Geometry(m) && IDMatchesHash(m.id, m.sha) && Base(m) == m
            && EncodeManifest(m) == if |m.filename| <= MAX_FILENAME_BYTES then Some(body) else None
  {
    BodyOfFields(body);
    hide ToLE, FromLE, U64At, U16At;
  }

  /** The manifest of an empty publication with this file name. */
  function EmptyFile(name: seq<byte>): Manifest {
    Manifest(1, seq(16, _ => 0), name, 0, seq(32, _ => 0), 1, 0, None)
  }

  /** File names of 136 to 141 octets: a body of at most 186 octets, as much as a packet
      holds, that decodes to a manifest which cannot be encoded. */
  lemma LongNames(name: seq<byte>)
    requires MAX_FILENAME_BYTES < |name| <= 141
    ensures |Body(EmptyFile(name))| <= 186
    ensures DecodeManifest(EmptyFile(name).id, Body(EmptyFile(name))) == Some(EmptyFile(name)) && EncodeManifest(EmptyFile(name)) == None
  {
    BodyFields(EmptyFile(name));
    hide Body, ToLE, FromLE, Pow256, U64At, U16At;
  }

  // ---- chunks ----------------------------------------------------------------------

  /** The length that chunk i must have. */
  function ChunkLength(m: Manifest, i: nat): int {
    if i == m.chunkCount - 1 then m.length - i * m.chunkSize else m.chunkSize
  }

  /** Where chunk i starts in the content. */
  function Offset(m: Manifest, i: nat): nat {
    i * m.chunkSize
  }

  lemma QuotientBounds(a: nat, d: nat)
    requires d > 0
    ensures (a / d) * d <= a < (a / d) * d + d
  {}

  lemma MulMonotone(a: nat, b: nat, c: nat)
    requires a <= b
    ensures a * c <= b * c
  {}

  /** Valid geometry: every chunk is nonempty and no longer than the chunk size,
      the chunks follow each other without gap, and the last one ends the content. */
  lemma ChunkBounds(m: Manifest, i: nat)
    requires Geometry(m) && i < m.chunkCount
    ensures 1 <= ChunkLength(m, i) <= m.chunkSize
    ensures Offset(m, i) + ChunkLength(m, i) == if i == m.chunkCount - 1 then m.length else Offset(m, i + 1)
    ensures Offset(m, i) + ChunkLength(m, i) <= m.length
  {
    QuotientBounds(m.length - 1, m.chunkSize);
    var last := m.chunkCount - 1;
    if i < last {
      MulMonotone(i + 1, last, m.chunkSize);
      assert (i + 1) * m.chunkSize == i * m.chunkSize + m.chunkSize;
    }
  }

  function TotalLength(m: Manifest, n: nat): int {
    if n == 0 then 0 else TotalLength(m, n - 1) + ChunkLength(m, n - 1)
  }

  lemma {:induction false} TotalIsOffset(m: Manifest, n: nat)
    requires Geometry(m) && n <= m.chunkCount
    ensures TotalLength(m, n) == if n == m.chunkCount then m.length else Offset(m, n)
  {
    if n > 0 {
      TotalIsOffset(m, n - 1);
      ChunkBounds(m, n - 1);
    }
  }

  /** The expected lengths add up to the content length, at most 253,472 octets. */
  lemma ChunksCoverContent(m: Manifest)
    requires Geometry(m)
    ensures TotalLength(m, m.chunkCount) == m.length <= 253472
  {
    TotalIsOffset(m, m.chunkCount);
    MulMonotone(m.chunkSize, CHUNK_DATA_SIZE, MAX_CHUNKS);
  }

  // ---- signed bytes ------------------------------------------------------------------

  /** ASCII GHOSTCACHE-MANIFEST and a zero. */
  const DOMAIN: seq<byte> := [71, 72, 79, 83, 84, 67, 65, 67, 72, 69, 45, 77, 65, 78, 73, 70, 69, 83, 84, 0]

  function CanonicalManifest(m: Manifest): Option<seq<byte>> {
    if |m.filename| > MAX_FILENAME_BYTES || m.version != SIGNED_MANIFEST_VERSION then None
    else Some(DOMAIN + ToLE(m.version, 2) + m.id + m.sha + ToLE(m.length, 8) + ToLE(m.chunkSize, 2)
              + ToLE(m.chunkCount, 2) + ToLE(|m.filename|, 2) + m.filename)
  }

  lemma CanonicalFields(m: Manifest)
    requires CanonicalManifest(m).Some?
    ensures var b := CanonicalManifest(m).value;
            |b| == 84 + |m.filename| && b[22..38] == m.id && b[38..70] == m.sha && b[70..78] == ToLE(m.length, 8)
            && b[78..80] == ToLE(m.chunkSize, 2) && b[80..82] == ToLE(m.chunkCount, 2) && b[84..] == m.filename
  {
    hide ToLE;
    assert |DOMAIN| == 20;
  }

  /** The signed bytes determine everything but the signature, so a signature binds
      ID, hash, length, geometry and file name at once. */
  lemma CanonicalInjective(m: Manifest, n: Manifest)
    requires CanonicalManifest(m).Some? && CanonicalManifest(m) == CanonicalManifest(n)
    ensures Base(m) == Base(n) && m.version == n.version
  {
    CanonicalFields(m);
    CanonicalFields(n);
    Pow256Of8();
    FromToLE(m.length, 8);
    FromToLE(n.length, 8);
    FromToLE(m.chunkSize, 2);
    FromToLE(n.chunkSize, 2);
    FromToLE(m.chunkCount, 2);
    FromToLE(n.chunkCount, 2);
    hide ToLE, FromLE, Pow256, CanonicalManifest;
  }

  /** Ed25519 verification stays uninterpreted. */
  type Verifier = (Bytes32, seq<byte>, Bytes64) -> bool

  /** No signature, or one that verifies over the canonical bytes. */
  predicate SignatureHolds(ed: Verifier, m: Manifest) {
    match m.signature
    case None => true
    case Some(signature) =>
      var canonical := CanonicalManifest(m);
      canonical.Some? && ed(signature.publicKey, canonical.value, signature.value)
  }

  /** A signature binds what it signs: under a key and signature that verify over one
      message only, every manifest whose signature holds says the same. */
  lemma SignatureBinds(ed: Verifier, m: Manifest, n: Manifest)
    requires m.signature.Some? && m.signature == n.signature && SignatureHolds(ed, m) && SignatureHolds(ed, n)
    requires forall x, y :: ed(m.signature.value.publicKey, x, m.signature.value.value) && ed(m.signature.value.publicKey, y, m.signature.value.value) ==> x == y
    ensures m == n && m.version == SIGNED_MANIFEST_VERSION
  {
    CanonicalInjective(m, n);
    hide CanonicalManifest;
  }

  // ---- policy ----------------------------------------------------------------------

  datatype SignaturePolicy = Permissive | Required | Trusted

  datatype AcquisitionPolicy = AcquisitionPolicy(maxAutoSize: U64, hasMaxSize: bool, signature: SignaturePolicy,
                                                 trust: Option<Bytes32 -> bool>)

  predicate Accept(ed: Verifier, p: AcquisitionPolicy, m: Manifest, partial_: bool, wanted: bool) {
    if m.signature.Some? && !SignatureHolds(ed, m) then false
    else if wanted then true
    else if !partial_ && p.hasMaxSize && m.length > p.maxAutoSize then false
    else
      match p.signature
      case Required => m.signature.Some?
      case Trusted => m.signature.Some? && p.trust.Some? && p.trust.value(m.signature.value.publicKey)
      case Permissive => true
  }

  /** How much a policy asks of the signer. */
  predicate SignerAdmitted(p: AcquisitionPolicy, m: Manifest) {
    && (p.signature != Permissive ==> m.signature.Some?)
    && (p.signature == Trusted ==> m.signature.Some? && p.trust.Some? && p.trust.value(m.signature.value.publicKey))
  }

  /** The policy in one line: a bad signature is never admitted; beyond that a
      manual want admits everything, and without it both the size and the signer
      must pass, where work already begun is exempt from the size. */
  lemma AcceptExact(ed: Verifier, p: AcquisitionPolicy, m: Manifest, partial_: bool, wanted: bool)
    ensures Accept(ed, p, m, partial_, wanted) <==>
            SignatureHolds(ed, m)
            && (wanted || (SignerAdmitted(p, m) && (partial_ || (p.hasMaxSize ==> m.length <= p.maxAutoSize))))
  {
    hide CanonicalManifest;
  }
}
