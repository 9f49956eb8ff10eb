/** The receipt of the one-hop transfer: which chunks have arrived, a bit each
    (internal/publication/protocol.go). */
module Receipts {
  import opened Bytes
  import opened Manifests
  import opened NodeProtocol

  /** Eight flags an octet, the first one lowest. */
  function PackBits(s: seq<bool>): (r: seq<byte>)
    ensures |r| == (|s| + 7) / 8
  {
    if s == [] then []
    else if |s| <= 8 then [Octet(s)]
    else [Octet(s[..8])] + PackBits(s[8..])
  }

  function Octet(s: seq<bool>): byte
    requires |s| <= 8
  {
    FromBitsLess(s);
    FromBits(s)
  }

  function UnpackBits(b: seq<byte>, n: nat): (r: seq<bool>)
    requires |b| == (n + 7) / 8
    ensures |r| == n
  {
    if n == 0 then []
    else if n <= 8 then ToBits(b[0], n)
    else ToBits(b[0], 8) + UnpackBits(b[1..], n - 8)
  }

  lemma FromBitsLess(s: seq<bool>)
    requires |s| <= 8
    ensures FromBits(s) < Pow2(|s|) <= 256
  {
    FromBitsBound(s);
    Pow2Grows(|s|, 8);
    assert Pow2(8) == 256;
  }

  lemma {:induction false} Pow2Grows(m: nat, n: nat)
    requires m <= n
    ensures Pow2(m) <= Pow2(n)
  {
    if m < n {
      Pow2Grows(m, n - 1);
    }
  }

  function EncodeReceipt(chunkCount: U16, received: seq<bool>): Option<seq<byte>> {
    if chunkCount != |received| || chunkCount > MAX_CHUNKS then None else Some(ToLE(chunkCount, 2) + PackBits(received))
  }

  function DecodeReceipt(body: seq<byte>): Option<seq<bool>> {
    if |body| < 2 then None
    else
      var count := U16At(body, 0);
      if count > MAX_CHUNKS || |body| != 2 + (count + 7) / 8 then None else Some(UnpackBits(body[2..], count))
  }

  /** The bits of the last octet that stand for no chunk. */
  predicate NoPadding(b: seq<byte>, n: nat)
    requires |b| == (n + 7) / 8
  {
    n % 8 != 0 ==> b[|b| - 1] < Pow2(n % 8)
  }

  lemma {:induction false} UnpackPack(s: seq<bool>)
    ensures UnpackBits(PackBits(s), |s|) == s
    ensures NoPadding(PackBits(s), |s|)
  {
    hide ToBits, FromBits, Pow2;
    if 0 < |s| <= 8 {
      BitsRoundTrip(s);
      FromBitsLess(s);
    } else if s != [] {
      BitsRoundTrip(s[..8]);
      UnpackPack(s[8..]);
      hide Octet;
      assert PackBits(s)[1..] == PackBits(s[8..]);
      assert s == s[..8] + s[8..];
      PaddingLater(PackBits(s), |s|);
    }
  }

  lemma PaddingLater(b: seq<byte>, n: nat)
    requires n > 8 && |b| == (n + 7) / 8
    ensures NoPadding(b, n) <==> NoPadding(b[1..], n - 8)
  {
    hide Pow2;
    assert (n - 8) % 8 == n % 8;
  }

  lemma {:induction false} BitsOfNumber(v: nat, n: nat)
    requires v < Pow2(n)
    ensures FromBits(ToBits(v, n)) == v
  {
    if n > 0 {
      BitsOfNumber(v / 2, n - 1);
      assert ToBits(v, n)[1..] == ToBits(v / 2, n - 1);
    }
  }

  lemma {:induction false} PackUnpack(b: seq<byte>, n: nat)
    requires |b| == (n + 7) / 8
    ensures PackBits(UnpackBits(b, n)) == b <==> NoPadding(b, n)
  {
    hide ToBits, FromBits, Pow2;
    if PackBits(UnpackBits(b, n)) == b {
      UnpackPack(UnpackBits(b, n));
    } else if n <= 8 {
      if n > 0 && NoPadding(b, n) {
        assert Pow2(8) == 256 by { EightBits(); }
        BitsOfNumber(b[0], n);
      }
    } else {
      EightBits();
      BitsOfNumber(b[0], 8);
      PackUnpack(b[1..], n - 8);
      PaddingLater(b, n);
      var r := UnpackBits(b, n);
      assert r[..8] == ToBits(b[0], 8) && r[8..] == UnpackBits(b[1..], n - 8);
      assert b == [b[0]] + b[1..];
    }
  }

  lemma EightBits()
    ensures Pow2(8) == 256
  {}

  /** What was encoded decodes back, within a packet of 200 octets. */
  lemma ReceiptReadsBack(chunkCount: U16, received: seq<bool>)
    requires EncodeReceipt(chunkCount, received).Some?
    ensures DecodeReceipt(EncodeReceipt(chunkCount, received).value) == Some(received)
    ensures |EncodeReceipt(chunkCount, received).value| <= 180
  {
    UnpackPack(received);
    Pow256Of8();
    FromToLE(chunkCount, 2);
    hide ToLE, FromLE, Pow256, PackBits, UnpackBits;
    var body := EncodeReceipt(chunkCount, received).value;
    assert body[0..2] == ToLE(chunkCount, 2) && body[2..] == PackBits(received);
  }

  /** The decoder does not look at the padding: an accepted body is the encoding of
      what it says exactly when the unused bits of its last octet are clear. */
  lemma ReceiptIsWritten(body: seq<byte>)
    requires DecodeReceipt(body).Some?
    ensures var received := DecodeReceipt(body).value;
            EncodeReceipt(|received|, received) == Some(body) <==> NoPadding(body[2..], |received|)
  {
    var count := U16At(body, 0);
    PackUnpack(body[2..], count);
    ToFromLE(body[0..2]);
    hide ToLE, FromLE, Pow256, PackBits, UnpackBits, NoPadding;
    assert body == body[0..2] + body[2..];
    var again := ToLE(count, 2) + PackBits(UnpackBits(body[2..], count));
    assert again[2..] == PackBits(UnpackBits(body[2..], count));
  }

  /** A receipt for three chunks whose padding is set says the same as one without. */
  lemma PaddingIsIgnored()
    ensures DecodeReceipt([3, 0, 0xf8]) == Some([false, false, false]) == DecodeReceipt([3, 0, 0])
  {
    assert FromLE([3, 0]) == 3;
    assert [3, 0, 0xf8][0..2] == [3, 0] == [3, 0, 0][0..2];
    assert ToBits(0xf8, 3) == [false, false, false] == ToBits(0, 3);
  }

  // ---- the loops ------------------------------------------------------------------------

  /** One more flag: a new octet, or one more bit of the last one. */
  ghost predicate OneMore(before: seq<byte>, after: seq<byte>, n: nat, bit: bool)
    requires |before| == (n + 7) / 8
  {
    var value := if bit then Pow2(n % 8) else 0;
    if n % 8 == 0 then after == before + [value]
    else before[n / 8] + value < 256 && after == before[n / 8 := before[n / 8] + value]
  }

  lemma PackFew(s: seq<bool>)
    requires 0 < |s| <= 8
    ensures FromBits(s) < 256 && PackBits(s) == [FromBits(s)]
  {
    hide FromBits, Pow2;
    FromBitsLess(s);
  }

  lemma PackFirst(bit: bool)
    ensures OneMore(PackBits([]), PackBits([bit]), 0, bit)
  {
    hide PackBits, FromBits;
    PackNothing();
    PackFew([bit]);
    FromNoBits();
    FromBitsSnoc([], bit);
    assert [] + [bit] == [bit];
    hide Pow2;
  }

  lemma PackSnocShort(s: seq<bool>, bit: bool)
    requires 0 < |s| < 8
    ensures OneMore(PackBits(s), PackBits(s + [bit]), |s|, bit)
  {
    hide PackBits, FromBits, Pow2, OneMore;
    FromBitsSnoc(s, bit);
    PackFew(s);
    PackFew(s + [bit]);
    OneOctet(PackBits(s), PackBits(s + [bit]), |s|, bit);
  }

  lemma OneOctet(before: seq<byte>, after: seq<byte>, n: nat, bit: bool)
    requires 0 < n < 8 && |before| == |after| == 1 && after[0] == before[0] + if bit then Pow2(n) else 0
    ensures OneMore(before, after, n, bit)
  {
    hide Pow2;
    assert n / 8 == 0 && n % 8 == n;
    assert before[0 := after[0]] == after;
  }

  lemma PackSnocEight(s: seq<bool>, bit: bool)
    requires |s| == 8
    ensures OneMore(PackBits(s), PackBits(s + [bit]), |s|, bit)
  {
    hide FromBits, Pow2;
    FromNoBits();
    FromBitsSnoc([], bit);
    assert [] + [bit] == [bit];
    assert (s + [bit])[..8] == s && (s + [bit])[8..] == [bit];
  }

  lemma {:induction false} PackSnoc(s: seq<bool>, bit: bool)
    ensures OneMore(PackBits(s), PackBits(s + [bit]), |s|, bit)
  {
    if s == [] {
      assert s + [bit] == [bit];
      PackFirst(bit);
    } else if |s| < 8 {
      PackSnocShort(s, bit);
    } else if |s| == 8 {
      PackSnocEight(s, bit);
    } else {
      hide Octet, OneMore;
      PackSnoc(s[8..], bit);
      assert (s + [bit])[..8] == s[..8] && (s + [bit])[8..] == s[8..] + [bit];
      OctetsLater(Octet(s[..8]), PackBits(s[8..]), PackBits(s[8..] + [bit]), |s| - 8, bit);
    }
  }

  lemma OctetsLater(first: byte, before: seq<byte>, after: seq<byte>, n: nat, bit: bool)
    requires n > 0 && |before| == (n + 7) / 8 && OneMore(before, after, n, bit)
    ensures OneMore([first] + before, [first] + after, n + 8, bit)
  {
    hide Pow2;
    assert (n + 8) % 8 == n % 8 && (n + 8) / 8 == n / 8 + 1;
    if n % 8 == 0 {
      assert [first] + after == ([first] + before) + [if bit then Pow2(n % 8) else 0];
    }
  }

  lemma FromNoBits()
    ensures FromBits([]) == 0 && Pow2(0) == 1
  {}

  lemma {:induction false} FromBitsSnoc(s: seq<bool>, bit: bool)
    ensures FromBits(s + [bit]) == FromBits(s) + if bit then Pow2(|s|) else 0
  {
    if s != [] {
      FromBitsSnoc(s[1..], bit);
      assert (s + [bit])[1..] == s[1..] + [bit];
    }
  }

  method BuildReceipt(chunkCount: U16, received: seq<bool>) returns (body: Option<seq<byte>>)
    ensures body == EncodeReceipt(chunkCount, received)
  {
    if chunkCount != |received| || chunkCount > MAX_CHUNKS {
      return None;
    }
    hide PackBits, Pow2, ToLE;
    var packed: seq<byte> := [];
    assert PackBits(received[..0]) == [] by { PackNothing(); }
    for i := 0 to |received|
      invariant packed == PackBits(received[..i])
    {
      PackSnoc(received[..i], received[i]);
      assert received[..i] + [received[i]] == received[..i + 1];
      if i % 8 == 0 {
        packed := packed + [0];
      }
      if received[i] {
        packed := packed[i / 8 := packed[i / 8] + Pow2(i % 8)];
      }
    }
    assert received[..|received|] == received;
    return Some(ToLE(chunkCount, 2) + packed);
  }

  lemma PackNothing()
    ensures PackBits([]) == []
  {}
}
