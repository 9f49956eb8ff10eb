/** Octets, the fixed-width unsigned integers of the wire formats, and the
    little-endian codec that every format of the repository shares. */
module Bytes {

  datatype Option<+T> = None | Some(value: T)
  datatype Result<+T, +E> = Ok(value: T) | Err(error: E)

  type byte = b: int | 0 <= b < 256
  type U16 = v: int | 0 <= v < 0x1_0000
  type U32 = v: int | 0 <= v < 0x1_0000_0000
  type U64 = v: int | 0 <= v < 0x1_0000_0000_0000_0000

  type Bytes32 = s: seq<byte> | |s| == 32 witness seq(32, _ => 0)
  /** A publication ID: the first 128 bits of the content hash. */
  type ID = s: seq<byte> | |s| == 16 witness seq(16, _ => 0)
  type Bytes64 = s: seq<byte> | |s| == 64 witness seq(64, _ => 0)

  /** A hash with 32 octets of output. SHA-256 stays uninterpreted: every result
      that mentions it holds for each such function. */
  type Hash = seq<byte> -> Bytes32

  function Pow256(n: nat): (r: nat)
    ensures r > 0
  {
    if n == 0 then 1 else 256 * Pow256(n - 1)
  }

  /** The n low octets of v, least significant first. */
  function ToLE(v: nat, n: nat): (s: seq<byte>)
    ensures |s| == n
  {
    if n == 0 then [] else [v % 256] + ToLE(v / 256, n - 1)
  }

  function FromLE(s: seq<byte>): (v: nat)
    ensures v < Pow256(|s|)
  {
    if s == [] then 0 else s[0] + 256 * FromLE(s[1..])
  }

  lemma {:induction false} FromToLE(v: nat, n: nat)
    requires v < Pow256(n)
    ensures FromLE(ToLE(v, n)) == v
  {
    if n > 0 {
      FromToLE(v / 256, n - 1);
      assert ToLE(v, n)[1..] == ToLE(v / 256, n - 1);
    }
  }

  lemma {:induction false} ToFromLE(s: seq<byte>)
    ensures ToLE(FromLE(s), |s|) == s
  {
    if s != [] {
      ToFromLE(s[1..]);
      assert FromLE(s) % 256 == s[0] && FromLE(s) / 256 == FromLE(s[1..]);
      assert s == [s[0]] + s[1..];
    }
  }

  /** The octets in front are the low ones. */
  lemma {:induction false} LowOctetsFirst(low: seq<byte>, high: seq<byte>)
    ensures FromLE(low + high) == FromLE(low) + Pow256(|low|) * FromLE(high)
    ensures |low| == 1 ==> FromLE(low) == low[0]
  {
    if low == [] {
      assert low + high == high;
    } else {
      LowOctetsFirst(low[1..], high);
      assert (low + high)[1..] == low[1..] + high;
      var p, h, l := Pow256(|low| - 1), FromLE(high), FromLE(low[1..]);
      assert Pow256(|low|) == 256 * p;
      assert FromLE(low) == low[0] + 256 * l;
      assert FromLE(low + high) == low[0] + 256 * FromLE(low[1..] + high);
      hide FromLE, Pow256;
      Scaled(p, h);
    }
  }

  lemma Scaled(p: nat, h: nat)
    ensures 256 * (p * h) == (256 * p) * h
  {}

  function U16At(s: seq<byte>, i: nat): U16
    requires i + 2 <= |s|
  {
    assert Pow256(2) == 0x1_0000;
    FromLE(s[i..i + 2])
  }

  function U32At(s: seq<byte>, i: nat): U32
    requires i + 4 <= |s|
  {
    assert Pow256(4) == 0x1_0000_0000 by { assert Pow256(2) == 0x1_0000; }
    FromLE(s[i..i + 4])
  }

  function U64At(s: seq<byte>, i: nat): U64
    requires i + 8 <= |s|
  {
    Pow256Of8();
    FromLE(s[i..i + 8])
  }

  lemma Pow256Of8()
    ensures Pow256(2) == 0x1_0000
    ensures Pow256(4) == 0x1_0000_0000
    ensures Pow256(8) == 0x1_0000_0000_0000_0000
  {
    assert Pow256(2) == 0x1_0000;
    assert Pow256(4) == 0x1_0000_0000;
    assert Pow256(6) == 0x1_0000_0000_0000;
  }

  /** Writes s into the buffer at an offset and nowhere else. */
  method CopyInto(a: array<byte>, at: nat, s: seq<byte>)
    requires at + |s| <= a.Length
    modifies a
    ensures a[..at] == old(a[..at])
    ensures a[at..at + |s|] == s
    ensures a[at + |s|..] == old(a[at + |s|..])
  {
    forall i | 0 <= i < |s| {
      a[at + i] := s[i];
    }
  }
}
