/** The Ghost Node protocol, version 3 (internal/node/protocol.go): the envelope and
    the body of every message, encoders and decoders. */
module NodeProtocol {
  import opened Bytes
  import opened Radix
  import opened Manifests

  const VERSION: byte := 3
  const MAX_PACKET_SIZE := 200
  const HEADER_SIZE := 14
  const MAX_BODY := MAX_PACKET_SIZE - HEADER_SIZE
  const MAX_CHUNK_BATCH := 4
  const BROADCAST: NodeID := 0xffff_ffff

  type NodeID = U32

  const GET_MANIFEST: byte := 2
  const MANIFEST: byte := 3
  const GET_CHUNKS: byte := 4
  const CHUNK: byte := 5
  const SUMMARY_REQUEST: byte := 7
  const SUMMARY: byte := 8
  const LEAF: byte := 9
  const GET_SIGNATURE: byte := 10
  const SIGNATURE: byte := 11

  datatype Packet = Packet(kind: byte, source: NodeID, destination: NodeID, transaction: U16, body: seq<byte>)

  // ---- the envelope -----------------------------------------------------------------

  function PacketHeader(p: Packet): (r: seq<byte>)
    ensures |r| == HEADER_SIZE
  {
    [71, 78, VERSION, p.kind] + ToLE(p.source, 4) + ToLE(p.destination, 4) + ToLE(p.transaction, 2)
  }

  function Encode(p: Packet): Option<seq<byte>> {
    if |p.body| + HEADER_SIZE > MAX_PACKET_SIZE then None else Some(PacketHeader(p) + p.body)
  }

  function Decode(b: seq<byte>): Option<Packet> {
    if |b| < HEADER_SIZE || |b| > MAX_PACKET_SIZE || b[0] != 71 || b[1] != 78 || b[2] != VERSION then None
    else Some(Packet(b[3], U32At(b, 4), U32At(b, 8), U16At(b, 12), b[14..]))
  }

  lemma HeaderSlices(p: Packet)
    ensures var b := PacketHeader(p) + p.body;
            b[4..8] == ToLE(p.source, 4) && b[8..12] == ToLE(p.destination, 4) && b[12..14] == ToLE(p.transaction, 2)
            && b[14..] == p.body
  {
    hide ToLE;
  }

  lemma DecodeEncode(p: Packet)
    requires |p.body| <= MAX_BODY
    ensures Decode(PacketHeader(p) + p.body) == Some(p)
  {
    HeaderSlices(p);
    Pow256Of8();
    FromToLE(p.source, 4);
    FromToLE(p.destination, 4);
    FromToLE(p.transaction, 2);
    hide ToLE, FromLE, Pow256;
  }

  lemma EncodeDecode(b: seq<byte>)
    requires Decode(b).Some?
    ensures Encode(Decode(b).value) == Some(b)
  {
    hide ToLE, FromLE, Pow256;
    ToFromLE(b[4..8]);
    ToFromLE(b[8..12]);
    ToFromLE(b[12..14]);
    assert b[..4] == [71, 78, VERSION, b[3]];
    assert b == b[..4] + b[4..8] + b[8..12] + b[12..14] + b[14..];
  }

  /** Packets and their bytes correspond one to one. */
  lemma EnvelopeExact(b: seq<byte>, p: Packet)
    ensures Decode(b) == Some(p) <==> Encode(p) == Some(b)
  {
    if Decode(b) == Some(p) {
      EncodeDecode(b);
      assert Encode(p) == Some(b);
    } else if Encode(p) == Some(b) {
      DecodeEncode(p);
    }
  }

  // ---- prefixes ---------------------------------------------------------------------

  /** Two nibbles in an octet. */
  function Pair(high: int, low: int): byte
    requires 0 <= high < 16 && 0 <= low < 16
  {
    high * 16 + low
  }

  /** Two nibbles an octet, the first one high; an odd last nibble is padded. */
  function Pack(prefix: Prefix): (r: seq<byte>)
    ensures |r| == (|prefix| + 1) / 2
  {
    if prefix == [] then []
    else if |prefix| == 1 then [Pair(prefix[0], 0)]
    else [Pair(prefix[0], prefix[1])] + Pack(prefix[2..])
  }

  function Unpack(packed: seq<byte>, depth: nat): (r: Prefix)
    requires |packed| == (depth + 1) / 2
    ensures |r| == depth
  {
    if depth == 0 then []
    else if depth == 1 then [packed[0] / 16]
    else [packed[0] / 16, packed[0] % 16] + Unpack(packed[1..], depth - 2)
  }

  lemma {:induction false} UnpackPack(prefix: Prefix)
    ensures Unpack(Pack(prefix), |prefix|) == prefix
    ensures |prefix| % 2 == 1 ==> Pack(prefix)[|prefix| / 2] % 16 == 0
  {
    if |prefix| > 1 {
      UnpackPack(prefix[2..]);
      assert Pack(prefix)[1..] == Pack(prefix[2..]);
      assert prefix == [prefix[0], prefix[1]] + prefix[2..];
    }
  }

  lemma {:induction false} PackUnpack(packed: seq<byte>, depth: nat)
    requires |packed| == (depth + 1) / 2
    requires depth % 2 == 1 ==> packed[depth / 2] % 16 == 0
    ensures Pack(Unpack(packed, depth)) == packed
  {
    if depth > 1 {
      PackUnpack(packed[1..], depth - 2);
      assert Unpack(packed, depth)[2..] == Unpack(packed[1..], depth - 2);
      assert packed == [packed[0]] + packed[1..];
    }
  }

  function EncodePrefix(generation: U32, prefix: Prefix): Option<seq<byte>> {
    if |prefix| > DEPTH then None else Some(ToLE(generation, 4) + [|prefix|] + Pack(prefix))
  }

  datatype Prefixed = Prefixed(generation: U32, prefix: Prefix)

  function DecodePrefixWithTail(body: seq<byte>, tail: nat): Option<Prefixed> {
    if |body| < 5 then None
    else
      var depth: int := body[4];
      if depth > DEPTH || |body| != 5 + (depth + 1) / 2 + tail then None
      else if depth % 2 == 1 && body[5 + depth / 2] % 16 != 0 then None
      else Some(Prefixed(U32At(body, 0), Unpack(body[5..5 + (depth + 1) / 2], depth)))
  }

  function DecodePrefix(body: seq<byte>): Option<Prefixed> {
    if |body| < 5 then None
    else
      var depth: int := body[4];
      var required := 5 + (depth + 1) / 2;
      if required > |body| then None else DecodePrefixWithTail(body, |body| - required)
  }

  /** A prefix with a tail is read back exactly, and only what was written is read. */
  lemma PrefixWithTailExact(body: seq<byte>, tail: seq<byte>, p: Prefixed)
    ensures DecodePrefixWithTail(body, |tail|) == Some(p) && body[|body| - |tail|..] == tail <==>
            EncodePrefix(p.generation, p.prefix).Some? && body == EncodePrefix(p.generation, p.prefix).value + tail
  {
    if EncodePrefix(p.generation, p.prefix).Some? && body == EncodePrefix(p.generation, p.prefix).value + tail {
      PrefixReadsBack(p, tail);
    }
    if DecodePrefixWithTail(body, |tail|) == Some(p) && body[|body| - |tail|..] == tail {
      PrefixIsWritten(body, |tail|);
      assert body == body[..|body| - |tail|] + tail;
    }
  }

  lemma PrefixReadsBack(p: Prefixed, tail: seq<byte>)
    requires |p.prefix| <= DEPTH
    ensures var head := EncodePrefix(p.generation, p.prefix).value;
            DecodePrefixWithTail(head + tail, |tail|) == Some(p) && (head + tail)[|head|..] == tail
  {
    UnpackPack(p.prefix);
    Pow256Of8();
    FromToLE(p.generation, 4);
    hide ToLE, FromLE, Pow256, Pack, Unpack;
    var depth := |p.prefix|;
    var body := EncodePrefix(p.generation, p.prefix).value + tail;
    assert body[0..4] == ToLE(p.generation, 4);
    assert body[5..5 + (depth + 1) / 2] == Pack(p.prefix);
    assert depth % 2 == 1 ==> body[5 + depth / 2] == Pack(p.prefix)[depth / 2];
  }

  lemma PrefixIsWritten(body: seq<byte>, tail: nat)
    requires DecodePrefixWithTail(body, tail).Some?
    ensures tail <= |body|
    ensures var p := DecodePrefixWithTail(body, tail).value;
            EncodePrefix(p.generation, p.prefix) == Some(body[..|body| - tail])
  {
    hide ToLE, FromLE, Pow256, Pack, Unpack;
    var depth: int := body[4];
    var packed := body[5..5 + (depth + 1) / 2];
    assert depth % 2 == 1 ==> packed[depth / 2] == body[5 + depth / 2];
    PackUnpack(packed, depth);
    ToFromLE(body[0..4]);
    assert body[..|body| - tail] == body[0..4] + [body[4]] + packed;
  }

  /** A summary request is read exactly when its encoding starts the body: trailing
      octets are tolerated, nothing else is. */
  lemma SummaryRequestExact(body: seq<byte>, p: Prefixed)
    ensures DecodePrefix(body) == Some(p) <==>
            EncodePrefix(p.generation, p.prefix).Some? && EncodePrefix(p.generation, p.prefix).value <= body
  {
    if EncodePrefix(p.generation, p.prefix).Some? && EncodePrefix(p.generation, p.prefix).value <= body {
      var head := EncodePrefix(p.generation, p.prefix).value;
      PrefixReadsBack(p, body[|head|..]);
      assert body == head + body[|head|..];
      assert body[4] == |p.prefix|;
    }
    if DecodePrefix(body) == Some(p) {
      var depth: int := body[4];
      PrefixIsWritten(body, |body| - (5 + (depth + 1) / 2));
    }
  }

  // ---- summaries --------------------------------------------------------------------

  const ENTRY_SIZE := 10

  function EncodeEntries(entries: seq<ChildDigest>): (r: seq<byte>)
    ensures |r| == ENTRY_SIZE * |entries|
  {
    if entries == [] then [] else
      ToLE(entries[0].count, 2) + ToLE(entries[0].digest, 8) + EncodeEntries(entries[1..])
  }

  function DecodeEntries(b: seq<byte>, n: nat): (r: seq<ChildDigest>)
    requires |b| == ENTRY_SIZE * n
    ensures |r| == n
  {
    if n == 0 then [] else [ChildDigest(U16At(b, 0), U64At(b, 2))] + DecodeEntries(b[ENTRY_SIZE..], n - 1)
  }

  lemma EntryReadsBack(e: ChildDigest, rest: seq<byte>)
    ensures var b := ToLE(e.count, 2) + ToLE(e.digest, 8) + rest;
            U16At(b, 0) == e.count && U64At(b, 2) == e.digest && b[ENTRY_SIZE..] == rest
  {
    Pow256Of8();
    FromToLE(e.count, 2);
    FromToLE(e.digest, 8);
    hide ToLE, FromLE, Pow256;
    var b := ToLE(e.count, 2) + ToLE(e.digest, 8) + rest;
    assert b[0..2] == ToLE(e.count, 2) && b[2..10] == ToLE(e.digest, 8);
  }

  lemma EntryIsWritten(b: seq<byte>)
    requires |b| >= ENTRY_SIZE
    ensures b == ToLE(U16At(b, 0), 2) + ToLE(U64At(b, 2), 8) + b[ENTRY_SIZE..]
  {
    ToFromLE(b[0..2]);
    ToFromLE(b[2..10]);
    hide ToLE, FromLE;
    assert b == b[0..2] + b[2..10] + b[10..];
  }

  lemma {:induction false} DecodeEncodeEntries(entries: seq<ChildDigest>)
    ensures DecodeEntries(EncodeEntries(entries), |entries|) == entries
  {
    hide ToLE, U16At, U64At;
    if entries != [] {
      DecodeEncodeEntries(entries[1..]);
      EntryReadsBack(entries[0], EncodeEntries(entries[1..]));
      assert entries == [entries[0]] + entries[1..];
    }
  }

  lemma {:induction false} EncodeDecodeEntries(b: seq<byte>, n: nat)
    requires |b| == ENTRY_SIZE * n
    ensures EncodeEntries(DecodeEntries(b, n)) == b
  {
    hide ToLE, U16At, U64At;
    if n > 0 {
      EncodeDecodeEntries(b[ENTRY_SIZE..], n - 1);
      EntryIsWritten(b);
      assert DecodeEntries(b, n)[1..] == DecodeEntries(b[ENTRY_SIZE..], n - 1);
    }
  }

  const SUMMARY_TAIL := ENTRY_SIZE * RADIX_CHILDREN

  function EncodeSummary(s: RadixSummary): Option<seq<byte>> {
    if |s.prefix| >= DEPTH then None
    else Some(EncodePrefix(s.generation, s.prefix).value + EncodeEntries(s.children))
  }

  function DecodeSummary(body: seq<byte>): Option<RadixSummary> {
    match DecodePrefixWithTail(body, SUMMARY_TAIL)
    case None => None
    case Some(p) =>
      if |p.prefix| >= DEPTH then None
      else Some(RadixSummary(p.generation, p.prefix, DecodeEntries(body[|body| - SUMMARY_TAIL..], RADIX_CHILDREN)))
  }

  /** Summaries and their bodies correspond one to one, and fit a packet. */
  lemma SummaryExact(body: seq<byte>, s: RadixSummary)
    ensures DecodeSummary(body) == Some(s) <==> EncodeSummary(s) == Some(body)
    ensures EncodeSummary(s).Some? ==> |EncodeSummary(s).value| <= MAX_BODY - 5
  {
    var tail := EncodeEntries(s.children);
    PrefixWithTailExact(body, tail, Prefixed(s.generation, s.prefix));
    DecodeEncodeEntries(s.children);
    if DecodeSummary(body) == Some(s) {
      EncodeDecodeEntries(body[|body| - SUMMARY_TAIL..], RADIX_CHILDREN);
    }
    hide DecodePrefixWithTail, EncodeEntries, DecodeEntries, Pack, ToLE;
  }

  // ---- leaves -----------------------------------------------------------------------

  function Split(b: seq<byte>, n: nat): (r: seq<ID>)
    requires |b| == 16 * n
    ensures |r| == n
  {
    if n == 0 then [] else [b[..16]] + Split(b[16..], n - 1)
  }

  lemma {:induction false} SplitJoin(ids: seq<ID>)
    ensures Split(Join(ids), |ids|) == ids
  {
    if ids != [] {
      SplitJoin(ids[1..]);
      assert Join(ids)[..16] == ids[0] && Join(ids)[16..] == Join(ids[1..]);
      assert ids == [ids[0]] + ids[1..];
    }
  }

  lemma {:induction false} JoinSplit(b: seq<byte>, n: nat)
    requires |b| == 16 * n
    ensures Join(Split(b, n)) == b
  {
    if n > 0 {
      JoinSplit(b[16..], n - 1);
      assert Split(b, n)[1..] == Split(b[16..], n - 1);
      assert b == b[..16] + b[16..];
    }
  }

  function EncodeLeaf(l: RadixLeaf): Option<seq<byte>> {
    if |l.ids| > LEAF_THRESHOLD || |l.prefix| > DEPTH then None
    else Some(EncodePrefix(l.generation, l.prefix).value + ([|l.ids|] + Join(l.ids)))
  }

  function DecodeLeaf(body: seq<byte>): Option<RadixLeaf> {
    if |body| < 6 then None
    else
      match DecodePrefix(body)
      case None => None
      case Some(p) =>
        var offset := 5 + (|p.prefix| + 1) / 2;
        if offset >= |body| then None
        else
          var count := body[offset];
          if count > LEAF_THRESHOLD || |body| != offset + 1 + count * 16 then None
          else Some(RadixLeaf(p.generation, p.prefix, Split(body[offset + 1..], count)))
  }

  lemma LeafReadsBack(l: RadixLeaf)
    requires EncodeLeaf(l).Some?
    ensures DecodeLeaf(EncodeLeaf(l).value) == Some(l)
    ensures |EncodeLeaf(l).value| <= MAX_BODY - 4
  {
    var body := EncodeLeaf(l).value;
    var head := EncodePrefix(l.generation, l.prefix).value;
    assert head <= body;
    SummaryRequestExact(body, Prefixed(l.generation, l.prefix));
    SplitJoin(l.ids);
    hide DecodePrefix, Pack, ToLE, Join, Split;
    assert body[|head|] == |l.ids| && body[|head| + 1..] == Join(l.ids);
  }

  lemma LeafIsWritten(body: seq<byte>)
    requires DecodeLeaf(body).Some?
    ensures EncodeLeaf(DecodeLeaf(body).value) == Some(body)
  {
    var p := DecodePrefix(body).value;
    SummaryRequestExact(body, p);
    hide DecodePrefix;
    var offset := 5 + (|p.prefix| + 1) / 2;
    var count: int := body[offset];
    JoinSplit(body[offset + 1..], count);
    hide Pack, ToLE, Join, Split;
    assert EncodePrefix(p.generation, p.prefix).value == body[..offset];
    SplitThree(body, offset);
  }

  lemma SplitThree(b: seq<byte>, k: nat)
    requires k < |b|
    ensures b == b[..k] + ([b[k]] + b[k + 1..])
  {}

  /** Leaves and their bodies correspond one to one, and fit a packet. */
  lemma LeafExact(body: seq<byte>, l: RadixLeaf)
    ensures DecodeLeaf(body) == Some(l) <==> EncodeLeaf(l) == Some(body)
    ensures EncodeLeaf(l).Some? ==> |EncodeLeaf(l).value| <= MAX_BODY - 4
  {
    if EncodeLeaf(l).Some? {
      LeafReadsBack(l);
    }
    if DecodeLeaf(body) == Some(l) {
      LeafIsWritten(body);
    }
    hide DecodeLeaf, EncodeLeaf;
  }

  // ---- chunks -----------------------------------------------------------------------

  /** The n low bits of v, lowest first. */
  function ToBits(v: nat, n: nat): (s: seq<bool>)
    ensures |s| == n
  {
    if n == 0 then [] else [v % 2 == 1] + ToBits(v / 2, n - 1)
  }

  function FromBits(s: seq<bool>): nat {
    if s == [] then 0 else (if s[0] then 1 else 0) + 2 * FromBits(s[1..])
  }

  function Ones(s: seq<bool>): (n: nat)
    ensures n <= |s|
  {
    if s == [] then 0 else (if s[0] then 1 else 0) + Ones(s[1..])
  }

  lemma {:induction false} BitsRoundTrip(s: seq<bool>)
    ensures ToBits(FromBits(s), |s|) == s
  {
    if s != [] {
      BitsRoundTrip(s[1..]);
      assert s == [s[0]] + s[1..];
    }
  }

  lemma FromBitsByte(s: seq<bool>)
    requires |s| == 8
    ensures FromBits(s) < 256
  {
    FromBitsBound(s);
    assert Pow2(8) == 256;
  }

  function Pow2(n: nat): nat {
    if n == 0 then 1 else 2 * Pow2(n - 1)
  }

  lemma {:induction false} FromBitsBound(s: seq<bool>)
    ensures FromBits(s) < Pow2(|s|)
  {
    if s != [] {
      FromBitsBound(s[1..]);
    }
  }

  datatype ChunkRequest = ChunkRequest(id: ID, base: U16, bitmap: byte)

  function EncodeChunkRequest(r: ChunkRequest): Option<seq<byte>> {
    if Ones(ToBits(r.bitmap, 8)) > MAX_CHUNK_BATCH then None else Some(r.id + ToLE(r.base, 2) + [r.bitmap])
  }

  function DecodeChunkRequest(body: seq<byte>): Option<ChunkRequest> {
    if |body| != 19 || Ones(ToBits(body[18], 8)) > MAX_CHUNK_BATCH then None
    else Some(ChunkRequest(body[..16], U16At(body, 16), body[18]))
  }

  lemma ChunkRequestExact(body: seq<byte>, r: ChunkRequest)
    ensures DecodeChunkRequest(body) == Some(r) <==> EncodeChunkRequest(r) == Some(body)
  {
    Pow256Of8();
    FromToLE(r.base, 2);
    if |body| == 19 {
      ToFromLE(body[16..18]);
      assert body == body[..16] + body[16..18] + [body[18]];
    }
    hide ToLE, FromLE, Pow256, Ones, ToBits;
    var b := r.id + ToLE(r.base, 2) + [r.bitmap];
    assert b[..16] == r.id && b[16..18] == ToLE(r.base, 2) && b[18] == r.bitmap;
  }

  datatype ChunkData = ChunkData(index: U16, data: seq<byte>)

  function EncodeChunk(c: ChunkData): Option<seq<byte>> {
    if |c.data| > CHUNK_DATA_SIZE then None else Some(ToLE(c.index, 2) + c.data)
  }

  function DecodeChunk(body: seq<byte>): Option<ChunkData> {
    if |body| < 2 || |body| - 2 > CHUNK_DATA_SIZE then None else Some(ChunkData(U16At(body, 0), body[2..]))
  }

  lemma ChunkExact(body: seq<byte>, c: ChunkData)
    ensures DecodeChunk(body) == Some(c) <==> EncodeChunk(c) == Some(body)
  {
    Pow256Of8();
    FromToLE(c.index, 2);
    if |body| >= 2 {
      ToFromLE(body[0..2]);
      assert body == body[0..2] + body[2..];
    }
    hide ToLE, FromLE, Pow256;
    var b := ToLE(c.index, 2) + c.data;
    assert b[0..2] == ToLE(c.index, 2) && b[2..] == c.data;
  }

  // ---- signatures -------------------------------------------------------------------

  function EncodeSignature(s: Option<Signature>): seq<byte> {
    match s
    case None => [0]
    case Some(signature) => [1] + signature.publicKey + signature.value
  }

  /** None: malformed. */
  function DecodeSignature(body: seq<byte>): Option<Option<Signature>> {
    if |body| < 1 then None
    else if body[0] == 0 then if |body| != 1 then None else Some(None)
    else if body[0] != 1 || |body| != 97 then None
    else Some(Some(Signature(body[1..33], body[33..97])))
  }

  lemma SignatureExact(body: seq<byte>, s: Option<Signature>)
    ensures DecodeSignature(body) == Some(s) <==> EncodeSignature(s) == body
  {
    if |body| == 97 {
      assert body == [body[0]] + body[1..33] + body[33..97];
    }
    if s.Some? {
      var b := EncodeSignature(s);
      assert b[1..33] == s.value.publicKey && b[33..97] == s.value.value;
    }
    if |body| == 1 {
      assert body == [body[0]];
    }
  }

  function DecodeIDBody(body: seq<byte>): Option<ID> {
    if |body| != 16 then None else Some(body)
  }

  // ---- the loops --------------------------------------------------------------------

  method Bits(v: byte) returns (n: nat)
    ensures n == Ones(ToBits(v, 8))
  {
    n := 0;
    var rest: nat, left: nat := v, 8;
    assert rest < Pow2(left) by { assert Pow2(4) == 16; }
    while rest > 0
      invariant rest < Pow2(left)
      invariant n + Ones(ToBits(rest, left)) == Ones(ToBits(v, 8))
      decreases rest
    {
      assert left > 0 by { assert Pow2(0) == 1; }
      n := n + rest % 2;
      assert ToBits(rest, left)[1..] == ToBits(rest / 2, left - 1);
      rest, left := rest / 2, left - 1;
    }
    NoOnes(left);
  }

  lemma {:induction false} NoOnes(n: nat)
    ensures Ones(ToBits(0, n)) == 0
  {
    if n > 0 {
      NoOnes(n - 1);
      assert ToBits(0, n)[1..] == ToBits(0, n - 1);
    }
  }

  /** Nibble by nibble: an even one opens an octet, an odd one fills it. */
  method BuildPrefix(generation: U32, prefix: Prefix) returns (r: Option<seq<byte>>)
    ensures r == EncodePrefix(generation, prefix)
  {
    if |prefix| > DEPTH {
      return None;
    }
    hide ToLE, Pair, Pack;
    var packed: seq<byte> := [];
    assert Pack(prefix[..0]) == [];
    for i := 0 to |prefix|
      invariant packed == Pack(prefix[..i])
    {
      PackNext(prefix, i);
      if i % 2 == 0 {
        packed := packed + [Pair(prefix[i], 0)];
      } else {
        packed := packed[i / 2 := Pair(packed[i / 2] / 16, prefix[i])];
      }
    }
    assert prefix[..|prefix|] == prefix;
    return Some(ToLE(generation, 4) + [|prefix|] + packed);
  }

  lemma PackNext(prefix: Prefix, i: nat)
    requires i < |prefix|
    ensures var before, after := Pack(prefix[..i]), Pack(prefix[..i + 1]);
            if i % 2 == 0 then after == before + [Pair(prefix[i], 0)]
            else after == before[i / 2 := Pair(before[i / 2] / 16, prefix[i])]
  {
    PackSnoc(prefix[..i], prefix[i]);
    assert prefix[..i] + [prefix[i]] == prefix[..i + 1];
  }

  lemma {:induction false} PackSnoc(p: Prefix, x: Nibble)
    ensures if |p| % 2 == 0 then Pack(p + [x]) == Pack(p) + [Pair(x, 0)]
            else Pack(p + [x]) == Pack(p)[|p| / 2 := Pair(Pack(p)[|p| / 2] / 16, x)]
  {
    if |p| > 1 {
      PackSnoc(p[2..], x);
      assert (p + [x])[2..] == p[2..] + [x];
    }
  }
}
