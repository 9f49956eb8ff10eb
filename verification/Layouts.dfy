/** Where every field of every format stands, octet by octet, as the protocol documents
    tabulate it (docs/protocol.md, docs/node-protocol.md, docs/signing.md,
    docs/publication-protocol.md). A reader that was built from those tables alone reads
    exactly what the decoders read. */
module Layouts {
  import opened Bytes
  import opened Radix
  import opened Manifests
  import opened NodeProtocol
  import Frames
  import Receipts
  import Firmware
  import FirmwareCodec

  // ---- numbers ------------------------------------------------------------------------

  ghost function Little2(b: seq<byte>, i: nat): nat
    requires i + 2 <= |b|
  {
    b[i] as int + 0x100 * (b[i + 1] as int)
  }

  ghost function Little4(b: seq<byte>, i: nat): nat
    requires i + 4 <= |b|
  {
    Little2(b, i) + 0x1_0000 * Little2(b, i + 2)
  }

  ghost function Little8(b: seq<byte>, i: nat): nat
    requires i + 8 <= |b|
  {
    Little4(b, i) + 0x1_0000_0000 * Little4(b, i + 4)
  }

  lemma TwoOctets(b: seq<byte>, i: nat)
    requires i + 2 <= |b|
    ensures FromLE(b[i..i + 2]) == Little2(b, i)
  {
    var s := b[i..i + 2];
    assert s[1..] == [b[i + 1]] && s[1..][1..] == [];
  }

  lemma FourOctets(b: seq<byte>, i: nat)
    requires i + 4 <= |b|
    ensures FromLE(b[i..i + 4]) == Little4(b, i)
  {
    TwoOctets(b, i);
    TwoOctets(b, i + 2);
    LowOctetsFirst(b[i..i + 2], b[i + 2..i + 4]);
    Pow256Of8();
    hide FromLE, Pow256, Little2;
    assert b[i..i + 4] == b[i..i + 2] + b[i + 2..i + 4];
  }

  lemma EightOctets(b: seq<byte>, i: nat)
    requires i + 8 <= |b|
    ensures FromLE(b[i..i + 8]) == Little8(b, i)
  {
    FourOctets(b, i);
    FourOctets(b, i + 4);
    LowOctetsFirst(b[i..i + 4], b[i + 4..i + 8]);
    Pow256Of8();
    hide FromLE, Pow256, Little4;
    assert b[i..i + 8] == b[i..i + 4] + b[i + 4..i + 8];
  }

  // ---- the serial line ----------------------------------------------------------------

  ghost predicate IsFrame(crc: Frames.Crc, raw: seq<byte>, f: Frames.Frame) {
    var n := |f.payload|;
    && n <= 512 && |raw| == 8 + n + 4
    && raw[0] as char == 'G' && raw[1] as char == 'C' && raw[2] == 1 && raw[3] == f.kind
    && Little2(raw, 4) == f.sequence && Little2(raw, 6) == n && raw[8..8 + n] == f.payload
    && Little4(raw, 8 + n) == crc(raw[..8 + n])
  }

  /** The modem's frame. */
  lemma FrameLayout(crc: Frames.Crc, raw: seq<byte>, f: Frames.Frame)
    ensures Frames.ParseRaw(crc, raw) == Ok(f) <==> IsFrame(crc, raw, f)
  {
    if |raw| >= 12 {
      TwoOctets(raw, 4);
      TwoOctets(raw, 6);
      FourOctets(raw, |raw| - 4);
    }
    hide FromLE, Little2, Little4;
  }

  ghost predicate IsMarked(raw: seq<byte>) {
    |raw| >= 12 && raw[0] as char == 'G' && raw[1] as char == 'C'
  }

  /** Which error the host reports for a raw frame: another version before a wrong checksum,
      and everything else as malformed. */
  lemma FrameErrors(crc: Frames.Crc, raw: seq<byte>)
    ensures Frames.ParseRaw(crc, raw) == Err(Frames.BadVersion) <==> IsMarked(raw) && raw[2] != 1
    ensures Frames.ParseRaw(crc, raw) == Err(Frames.BadCrc) <==>
              && IsMarked(raw) && raw[2] == 1 && Little2(raw, 6) == |raw| - 12 <= 512
              && Little4(raw, |raw| - 4) != crc(raw[..|raw| - 4])
  {
    if |raw| >= 12 {
      TwoOctets(raw, 6);
      FourOctets(raw, |raw| - 4);
    }
    hide FromLE, Little2, Little4;
  }

  /** What the modem makes of a raw frame: it answers another version under the number of the
      frame, obeys what the host would read, and ignores everything else. */
  lemma CommandLayout(crc: Frames.Crc, raw: seq<byte>, f: Frames.Frame, sequence: U16)
    ensures FirmwareCodec.Validate(crc, raw) == FirmwareCodec.Accepted(f) <==> IsFrame(crc, raw, f)
    ensures FirmwareCodec.Validate(crc, raw) == FirmwareCodec.WrongVersion(sequence) <==>
              IsMarked(raw) && raw[2] != 1 && Little2(raw, 4) == sequence
  {
    if |raw| >= 12 {
      TwoOctets(raw, 4);
      TwoOctets(raw, 6);
      FourOctets(raw, |raw| - 4);
    }
    hide FromLE, Little2, Little4;
  }

  // ---- the envelope -------------------------------------------------------------------

  ghost predicate IsPacket(b: seq<byte>, p: Packet) {
    && |b| == 14 + |p.body| <= 200
    && b[0] as char == 'G' && b[1] as char == 'N' && b[2] == 3 && b[3] == p.kind
    && Little4(b, 4) == p.source && Little4(b, 8) == p.destination && Little2(b, 12) == p.transaction && b[14..] == p.body
  }

  lemma PacketLayout(b: seq<byte>, p: Packet)
    ensures Decode(b) == Some(p) <==> IsPacket(b, p)
  {
    if |b| >= 14 {
      FourOctets(b, 4);
      FourOctets(b, 8);
      TwoOctets(b, 12);
    }
    hide FromLE, Little2, Little4;
  }

  // ---- prefixes, summaries, leaves ----------------------------------------------------

  /** The low half of the last octet, where no nibble stands. */
  ghost predicate Padded(packed: seq<byte>, depth: nat)
    requires |packed| == (depth + 1) / 2
  {
    depth % 2 == 1 ==> packed[depth / 2] % 16 == 0
  }

  /** Nibble k stands in octet k / 2, the even ones high. */
  ghost predicate IsPacked(packed: seq<byte>, prefix: Prefix)
    requires |packed| == (|prefix| + 1) / 2
  {
    && (forall k :: 0 <= k < |prefix| ==> prefix[k] == if k % 2 == 0 then packed[k / 2] / 16 else packed[k / 2] % 16)
    && Padded(packed, |prefix|)
  }

  ghost predicate IsPrefixed(b: seq<byte>, generation: U32, prefix: Prefix) {
    var n := (|prefix| + 1) / 2;
    && |prefix| <= 32 && 5 + n <= |b|
    && Little4(b, 0) == generation && b[4] == |prefix| && IsPacked(b[5..5 + n], prefix)
  }

  lemma {:induction false} NibbleAt(packed: seq<byte>, depth: nat, k: nat)
    requires |packed| == (depth + 1) / 2 && k < depth
    ensures Unpack(packed, depth)[k] == if k % 2 == 0 then packed[k / 2] / 16 else packed[k / 2] % 16
  {
    if k >= 2 {
      NibbleAt(packed[1..], depth - 2, k - 2);
    }
  }

  lemma OddNibble(b: seq<byte>, depth: nat)
    requires 5 + (depth + 1) / 2 <= |b|
    ensures Padded(b[5..5 + (depth + 1) / 2], depth) <==> (depth % 2 == 1 ==> b[5 + depth / 2] % 16 == 0)
  {}

  lemma PackedExact(packed: seq<byte>, prefix: Prefix)
    requires |packed| == (|prefix| + 1) / 2
    ensures Padded(packed, |prefix|) && Unpack(packed, |prefix|) == prefix <==> IsPacked(packed, prefix)
  {
    forall k | 0 <= k < |prefix|
      ensures Unpack(packed, |prefix|)[k] == if k % 2 == 0 then packed[k / 2] / 16 else packed[k / 2] % 16
    {
      NibbleAt(packed, |prefix|, k);
    }
    hide Unpack;
  }

  lemma TailLayout(b: seq<byte>, tail: nat, p: Prefixed)
    ensures DecodePrefixWithTail(b, tail) == Some(p) <==>
            IsPrefixed(b, p.generation, p.prefix) && |b| == 5 + (|p.prefix| + 1) / 2 + tail
  {
    hide FromLE, Little4, Unpack, IsPacked, Padded;
    if |b| < 5 || b[4] != |p.prefix| || |b| != 5 + (|p.prefix| + 1) / 2 + tail {
      assert DecodePrefixWithTail(b, tail) != Some(p);
    } else {
      FourOctets(b, 0);
      OddNibble(b, |p.prefix|);
      PackedExact(b[5..5 + (|p.prefix| + 1) / 2], p.prefix);
    }
  }

  /** The request for a summary; what follows the prefix is not read. */
  lemma RequestLayout(b: seq<byte>, p: Prefixed)
    ensures DecodePrefix(b) == Some(p) <==> IsPrefixed(b, p.generation, p.prefix)
  {
    if |b| >= 5 {
      var required: int := 5 + (b[4] as int + 1) / 2;
      if required <= |b| {
        TailLayout(b, |b| - required, p);
      }
    }
    hide DecodePrefixWithTail, IsPacked, Little4;
  }

  ghost predicate IsSummary(b: seq<byte>, s: RadixSummary) {
    var at := 5 + (|s.prefix| + 1) / 2;
    && IsPrefixed(b, s.generation, s.prefix) && |s.prefix| < 32 && |b| == at + 160
    && forall k :: 0 <= k < 16 ==> Little2(b, at + 10 * k) == s.children[k].count && Little8(b, at + 10 * k + 2) == s.children[k].digest
  }

  lemma {:induction false} EntryAt(b: seq<byte>, n: nat, k: nat)
    requires |b| == 10 * n && k < n
    ensures var e := DecodeEntries(b, n)[k]; e.count == Little2(b, 10 * k) && e.digest == Little8(b, 10 * k + 2)
  {
    if k == 0 {
      TwoOctets(b, 0);
      EightOctets(b, 2);
      hide FromLE, Little2, Little8;
    } else {
      EntryAt(b[10..], n - 1, k - 1);
      hide U16At, U64At;
    }
  }

  lemma EntriesExactly(b: seq<byte>, at: nat, children: seq<ChildDigest>)
    requires |b| == at + 160 && |children| == 16
    ensures DecodeEntries(b[at..], 16) == children <==>
            forall k :: 0 <= k < 16 ==> Little2(b, at + 10 * k) == children[k].count && Little8(b, at + 10 * k + 2) == children[k].digest
  {
    forall k | 0 <= k < 16
      ensures var e := DecodeEntries(b[at..], 16)[k]; e.count == Little2(b, at + 10 * k) && e.digest == Little8(b, at + 10 * k + 2)
    {
      EntryAt(b[at..], 16, k);
    }
    hide DecodeEntries, Little2, Little8;
  }

  /** A count of two octets and a digest of eight for each of the sixteen children. */
  lemma SummaryLayout(b: seq<byte>, s: RadixSummary)
    ensures DecodeSummary(b) == Some(s) <==> IsSummary(b, s)
  {
    hide DecodePrefixWithTail, DecodeEntries, IsPrefixed, Little2, Little8;
    TailLayout(b, 160, Prefixed(s.generation, s.prefix));
    var at := 5 + (|s.prefix| + 1) / 2;
    if |b| == at + 160 {
      EntriesExactly(b, at, s.children);
    }
  }

  ghost predicate IsLeaf(b: seq<byte>, l: RadixLeaf) {
    var at := 5 + (|l.prefix| + 1) / 2;
    && IsPrefixed(b, l.generation, l.prefix) && |l.ids| <= 10 && |b| == at + 1 + 16 * |l.ids| && b[at] == |l.ids|
    && forall k :: 0 <= k < |l.ids| ==> b[at + 1 + 16 * k..at + 1 + 16 * k + 16] == l.ids[k]
  }

  lemma {:induction false} IDAt(b: seq<byte>, n: nat, k: nat)
    requires |b| == 16 * n && k < n
    ensures Split(b, n)[k] == b[16 * k..16 * k + 16]
  {
    if k > 0 {
      IDAt(b[16..], n - 1, k - 1);
      assert b[16..][16 * (k - 1)..16 * (k - 1) + 16] == b[16 * k..16 * k + 16];
    }
  }

  lemma IDsExactly(b: seq<byte>, at: nat, ids: seq<ID>)
    requires |b| == at + 16 * |ids|
    ensures Split(b[at..], |ids|) == ids <==> forall k :: 0 <= k < |ids| ==> b[at + 16 * k..at + 16 * k + 16] == ids[k]
  {
    forall k | 0 <= k < |ids| ensures Split(b[at..], |ids|)[k] == b[at + 16 * k..at + 16 * k + 16] {
      IDAt(b[at..], |ids|, k);
      assert b[at..][16 * k..16 * k + 16] == b[at + 16 * k..at + 16 * k + 16];
    }
    hide Split;
  }

  /** A count of one octet, and the IDs. */
  lemma LeafLayout(b: seq<byte>, l: RadixLeaf)
    ensures DecodeLeaf(b) == Some(l) <==> IsLeaf(b, l)
  {
    RequestLayout(b, Prefixed(l.generation, l.prefix));
    var at := 5 + (|l.prefix| + 1) / 2;
    if |b| == at + 1 + 16 * |l.ids| {
      IDsExactly(b, at + 1, l.ids);
    }
    hide DecodePrefix, Split, IsPacked, Little4;
  }

  // ---- publications -------------------------------------------------------------------

  ghost predicate IsManifest(id: ID, b: seq<byte>, m: Manifest) {
    && |b| == 45 + |m.filename|
    && Little8(b, 0) == m.length && b[8..40] == m.sha && Little2(b, 40) == m.chunkSize && Little2(b, 42) == m.chunkCount
    && b[44] == |m.filename| && b[45..] == m.filename
    && m.id == id == m.sha[..16] && m.version == 1 && m.signature.None?
  }

  /** How many chunks of a size hold so much content. */
  ghost predicate Fits(m: Manifest) {
    && 1 <= m.chunkSize <= 178 && m.chunkCount <= 1424
    && m.length <= m.chunkCount * m.chunkSize
    && (m.length > 0 ==> m.length > (m.chunkCount - 1) * m.chunkSize)
    && (m.length == 0 ==> m.chunkCount == 0)
  }

  lemma CountExact(length: nat, size: nat, count: nat)
    requires size > 0
    ensures count == ExpectedCount(length, size) <==>
            length <= count * size && (length > 0 ==> length > (count - 1) * size) && (length == 0 ==> count == 0)
  {
    if length > 0 {
      var q := (length - 1) / size;
      QuotientBounds(length - 1, size);
      assert q * size <= length - 1 < (q + 1) * size;
      if count > q + 1 { MulMonotone(q + 1, count - 1, size); }
      if count < q + 1 { MulMonotone(count, q, size); }
    }
  }

  lemma FitsExact(m: Manifest)
    ensures Geometry(m) <==> Fits(m)
  {
    if m.chunkSize > 0 {
      CountExact(m.length, m.chunkSize, m.chunkCount);
      if m.chunkCount <= 1424 { MulMonotone(m.chunkCount, 1424, m.chunkSize); }
    }
    hide ExpectedCount;
  }

  /** The body of a manifest, with as many chunks as its content needs. */
  lemma ManifestLayout(id: ID, b: seq<byte>, m: Manifest)
    ensures DecodeManifest(id, b) == Some(m) <==> IsManifest(id, b, m) && Fits(m)
  {
    FitsExact(m);
    if |b| >= 45 {
      EightOctets(b, 0);
      TwoOctets(b, 40);
      TwoOctets(b, 42);
    }
    hide FromLE, Little2, Little8, ExpectedCount, Fits;
  }

  lemma ChunkLayout(b: seq<byte>, c: ChunkData)
    ensures DecodeChunk(b) == Some(c) <==> 2 <= |b| <= 180 && Little2(b, 0) == c.index && b[2..] == c.data
  {
    if |b| >= 2 { TwoOctets(b, 0); }
    hide FromLE, Little2;
  }

  lemma SignatureLayout(b: seq<byte>, s: Option<Signature>)
    ensures DecodeSignature(b) == Some(s) <==>
            match s
            case None => b == [0]
            case Some(k) => |b| == 97 && b[0] == 1 && b[1..33] == k.publicKey && b[33..97] == k.value
  {}

  // ---- signatures and receipts --------------------------------------------------------

  ghost predicate IsSigned(m: Manifest, b: seq<byte>) {
    && m.version == 2 && |m.filename| <= 135 && |b| == 84 + |m.filename|
    && (forall k :: 0 <= k < 19 ==> b[k] as char == "GHOSTCACHE-MANIFEST"[k]) && b[19] == 0
    && Little2(b, 20) == 2 && b[22..38] == m.id && b[38..70] == m.sha && Little8(b, 70) == m.length
    && Little2(b, 78) == m.chunkSize && Little2(b, 80) == m.chunkCount && Little2(b, 82) == |m.filename| && b[84..] == m.filename
  }

  lemma Tag(b: seq<byte>)
    requires |b| >= 20
    ensures b[..20] == DOMAIN <==> (forall k :: 0 <= k < 19 ==> b[k] as char == "GHOSTCACHE-MANIFEST"[k]) && b[19] == 0
  {
    var text := "GHOSTCACHE-MANIFEST";
    assert forall k :: 0 <= k < 19 ==> DOMAIN[k] as char == text[k];
    if b[..20] == DOMAIN {
      forall k | 0 <= k < 20 ensures b[k] == DOMAIN[k] { assert b[..20][k] == b[k]; }
    }
    if (forall k :: 0 <= k < 19 ==> b[k] as char == text[k]) && b[19] == 0 {
      forall k | 0 <= k < 20 ensures b[..20][k] == DOMAIN[k] {
        if k < 19 { assert b[k] as char == text[k]; }
      }
    }
  }

  lemma SignedFields(m: Manifest)
    requires CanonicalManifest(m).Some?
    ensures IsSigned(m, CanonicalManifest(m).value)
  {
    var b := CanonicalManifest(m).value;
    assert b[..20] == DOMAIN && b[20..22] == ToLE(2, 2) && b[82..84] == ToLE(|m.filename|, 2) by { hide ToLE; }
    Tag(b);
    CanonicalFields(m);
    Pow256Of8();
    FromToLE(2, 2);
    FromToLE(m.length, 8);
    FromToLE(m.chunkSize, 2);
    FromToLE(m.chunkCount, 2);
    FromToLE(|m.filename|, 2);
    hide ToLE, FromLE, Pow256, CanonicalManifest, Little2, Little8;
    TwoOctets(b, 20);
    EightOctets(b, 70);
    TwoOctets(b, 78);
    TwoOctets(b, 80);
    TwoOctets(b, 82);
  }

  lemma SignedWhole(m: Manifest, b: seq<byte>)
    requires IsSigned(m, b)
    ensures CanonicalManifest(m) == Some(b)
  {
    Tag(b);
    TwoOctets(b, 20);
    EightOctets(b, 70);
    TwoOctets(b, 78);
    TwoOctets(b, 80);
    TwoOctets(b, 82);
    ToFromLE(b[20..22]);
    ToFromLE(b[70..78]);
    ToFromLE(b[78..80]);
    ToFromLE(b[80..82]);
    ToFromLE(b[82..84]);
    hide ToLE, FromLE, Little2, Little8;
    assert b == b[..20] + b[20..22] + b[22..38] + b[38..70] + b[70..78] + b[78..80] + b[80..82] + b[82..84] + b[84..];
  }

  /** The bytes that are signed. */
  lemma SignedLayout(m: Manifest, b: seq<byte>)
    ensures CanonicalManifest(m) == Some(b) <==> IsSigned(m, b)
  {
    if CanonicalManifest(m) == Some(b) { SignedFields(m); }
    hide CanonicalManifest;
    if IsSigned(m, b) { SignedWhole(m, b); }
  }

  /** Bit k of a number, the lowest one first. */
  ghost predicate Bit(v: nat, k: nat) {
    if k == 0 then v % 2 == 1 else Bit(v / 2, k - 1)
  }

  lemma {:induction false} BitAt(v: nat, n: nat, k: nat)
    requires k < n
    ensures ToBits(v, n)[k] == Bit(v, k)
  {
    if k > 0 { BitAt(v / 2, n - 1, k - 1); }
  }

  lemma FirstFlags(b: seq<byte>, n: nat, k: nat)
    requires |b| == (n + 7) / 8 && k < n && k < 8
    ensures Receipts.UnpackBits(b, n)[k] == Bit(b[0], k)
  {
    BitAt(b[0], if n <= 8 then n else 8, k);
    hide ToBits, Bit;
  }

  lemma Later(b: seq<byte>, k: nat)
    requires 8 <= k && k / 8 < |b|
    ensures k / 8 == (k - 8) / 8 + 1 && k % 8 == (k - 8) % 8 && b[1..][(k - 8) / 8] == b[k / 8]
  {}

  lemma {:induction false} FlagAt(b: seq<byte>, n: nat, k: nat)
    requires |b| == (n + 7) / 8 && k < n
    ensures Receipts.UnpackBits(b, n)[k] == Bit(b[k / 8], k % 8)
  {
    hide ToBits, Bit;
    if k < 8 {
      FirstFlags(b, n, k);
    } else {
      assert n > 8 && |b[1..]| == (n - 8 + 7) / 8;
      FlagAt(b[1..], n - 8, k - 8);
      Later(b, k);
    }
  }

  ghost predicate Flags(b: seq<byte>, received: seq<bool>)
    requires |b| == 2 + (|received| + 7) / 8
  {
    forall k :: 0 <= k < |received| ==> (received[k] <==> Bit(b[2 + k / 8], k % 8))
  }

  lemma FlagsExactly(b: seq<byte>, received: seq<bool>)
    requires |b| == 2 + (|received| + 7) / 8
    ensures Receipts.UnpackBits(b[2..], |received|) == received <==> Flags(b, received)
  {
    hide Receipts.UnpackBits, Bit;
    var r := Receipts.UnpackBits(b[2..], |received|);
    forall k | 0 <= k < |received| ensures r[k] == Bit(b[2 + k / 8], k % 8) {
      FlagAt(b[2..], |received|, k);
    }
  }

  /** A count, and a bit for each chunk. */
  lemma ReceiptLayout(b: seq<byte>, received: seq<bool>)
    ensures Receipts.DecodeReceipt(b) == Some(received) <==>
            |received| <= 1424 && |b| == 2 + (|received| + 7) / 8 && Little2(b, 0) == |received| && Flags(b, received)
  {
    if |b| >= 2 { TwoOctets(b, 0); }
    hide Receipts.UnpackBits, FromLE, Little2, Flags;
    if |b| == 2 + (|received| + 7) / 8 { FlagsExactly(b, received); }
  }

  /** Which chunks a request asks for: the bit of an index is its distance from the base. */
  lemma ChunkRequestLayout(b: seq<byte>, r: ChunkRequest, k: nat)
    requires k < 8
    ensures DecodeChunkRequest(b) == Some(r) <==>
            |b| == 19 && b[..16] == r.id && Little2(b, 16) == r.base && b[18] == r.bitmap && Ones(ToBits(r.bitmap, 8)) <= 4
    ensures ToBits(r.bitmap, 8)[k] == Bit(r.bitmap, k)
  {
    if |b| == 19 { TwoOctets(b, 16); }
    BitAt(r.bitmap, 8, k);
    hide FromLE, Little2, Ones, ToBits, Bit;
  }

  ghost predicate IsConfig(b: seq<byte>, c: Firmware.RadioConfig) {
    && |b| == 15 && Little4(b, 0) == c.frequency && Little4(b, 4) == c.bandwidth && b[8] == c.spreadingFactor
    && b[9] == c.codingRate && b[10] == c.power && Little2(b, 11) == c.preamble && b[13] == c.syncWord && b[14] == 0
  }

  /** The radio parameters: two floats, three octets, the preamble, the sync word and a zero. */
  lemma ConfigLayout(b: seq<byte>, c: Firmware.RadioConfig)
    ensures Firmware.EncodeConfig(c) == b <==> IsConfig(b, c)
  {
    Firmware.ConfigTravels(c, 0, Firmware.Receiving, 0);
    var e := Firmware.EncodeConfig(c);
    assert e[14] == 0;
    ConfigReads(e);
    hide Firmware.EncodeConfig;
    if IsConfig(b, c) {
      ConfigReads(b);
      ConfigWhole(b);
    }
  }

  lemma ConfigReads(b: seq<byte>)
    requires |b| == 15
    ensures b[14] == 0 ==> IsConfig(b, Firmware.DecodeConfig(b))
    ensures forall c :: IsConfig(b, c) ==> c == Firmware.DecodeConfig(b)
  {
    FourOctets(b, 0);
    FourOctets(b, 4);
    TwoOctets(b, 11);
    hide FromLE, Little2, Little4;
  }

  lemma ConfigWhole(b: seq<byte>)
    requires |b| == 15 && b[14] == 0
    ensures Firmware.EncodeConfig(Firmware.DecodeConfig(b)) == b
  {
    ToFromLE(b[0..4]);
    ToFromLE(b[4..8]);
    ToFromLE(b[11..13]);
    hide ToLE, FromLE;
    assert b == b[0..4] + b[4..8] + [b[8], b[9], b[10]] + b[11..13] + [b[13], b[14]];
  }
}
