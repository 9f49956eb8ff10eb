/** Consistent overhead byte stuffing (internal/modem/protocol.go): a byte string
    becomes blocks of at most 254 nonzero octets, each led by its length plus one,
    so that the zero octet is free to delimit frames. */
module Cobs {
  import opened Bytes

  predicate NoZero(s: seq<byte>) {
    forall i :: 0 <= i < |s| ==> s[i] != 0
  }

  const MAX_RUN := 254

  /** Length of the leading run of nonzero octets, at most `cap`. */
  function RunLength(s: seq<byte>, cap: nat): (n: nat)
    ensures n <= cap && n <= |s|
    ensures NoZero(s[..n])
    ensures n < cap && n < |s| ==> s[n] == 0
  {
    if cap == 0 || s == [] || s[0] == 0 then 0 else 1 + RunLength(s[1..], cap - 1)
  }

  /** The encoding, block by block. */
  function Encode(src: seq<byte>): (dst: seq<byte>)
    ensures |dst| > |src|
  {
    var n := RunLength(src, MAX_RUN);
    if n == MAX_RUN then [255] + src[..n] + Encode(src[n..])
    else if n == |src| then [n + 1] + src
    else [n + 1] + src[..n] + Encode(src[n + 1..])
  }

  /** What one block stands for: its run, and the zero it was split at. */
  function Block(code: byte, run: seq<byte>, last: bool): seq<byte> {
    run + if code != 255 && !last then [0] else []
  }

  function Prepend(dst: seq<byte>, rest: Option<seq<byte>>): Option<seq<byte>> {
    match rest
    case None => None
    case Some(s) => Some(dst + s)
  }

  /** The decoding of zero or more blocks; a block that ends early is an error. */
  function DecodeBlocks(src: seq<byte>): Option<seq<byte>> {
    if src == [] then Some([])
    else
      var code := src[0];
      if code == 0 || code > |src| then None
      else Prepend(Block(code, src[1..code], code == |src|), DecodeBlocks(src[code..]))
  }

  lemma DecodeStep(code: byte, run: seq<byte>, rest: seq<byte>)
    requires code == |run| + 1
    ensures DecodeBlocks([code] + run + rest) == Prepend(Block(code, run, rest == []), DecodeBlocks(rest))
  {
    var src := [code] + run + rest;
    assert src[1..code] == run && src[code..] == rest;
  }

  function Decode(src: seq<byte>): Option<seq<byte>> {
    if src == [] then None else DecodeBlocks(src)
  }

  // ---- how a run closes --------------------------------------------------------

  lemma RunStep(s: seq<byte>, cap: nat)
    requires cap > 0 && s != [] && s[0] != 0
    ensures RunLength(s, cap) == 1 + RunLength(s[1..], cap - 1)
  {}

  lemma {:induction false} RunPrefix(run: seq<byte>, rest: seq<byte>, cap: nat)
    requires NoZero(run) && |run| <= cap
    ensures RunLength(run + rest, cap) == |run| + RunLength(rest, cap - |run|)
  {
    hide RunLength;
    if run == [] {
      assert run + rest == rest;
    } else {
      RunPrefix(run[1..], rest, cap - 1);
      assert (run + rest)[1..] == run[1..] + rest;
      RunStep(run + rest, cap);
    }
  }

  lemma EncodeFull(run: seq<byte>, rest: seq<byte>)
    requires NoZero(run) && |run| == MAX_RUN
    ensures Encode(run + rest) == [255] + run + Encode(rest)
  {
    RunPrefix(run, rest, MAX_RUN);
    assert (run + rest)[..MAX_RUN] == run && (run + rest)[MAX_RUN..] == rest;
  }

  lemma EncodeZero(run: seq<byte>, rest: seq<byte>)
    requires NoZero(run) && |run| < MAX_RUN
    ensures Encode(run + [0] + rest) == [|run| + 1] + run + Encode(rest)
  {
    var src := run + [0] + rest;
    RunPrefix(run, [0] + rest, MAX_RUN);
    assert src == run + ([0] + rest);
    assert src[..|run|] == run && src[|run| + 1..] == rest;
  }

  lemma EncodeEnd(run: seq<byte>)
    requires NoZero(run) && |run| < MAX_RUN
    ensures Encode(run) == [|run| + 1] + run
  {
    hide RunLength, Encode;
    RunPrefix(run, [], MAX_RUN);
    assert run + [] == run;
    assert RunLength(run, MAX_RUN) == |run|;
    EncodeFirstBlock(run);
  }

  // ---- what the encoding promises --------------------------------------------

  lemma {:induction false} EncodeHasNoZero(src: seq<byte>)
    ensures NoZero(Encode(src))
  {
    var n := RunLength(src, MAX_RUN);
    if n == MAX_RUN {
      EncodeHasNoZero(src[n..]);
    } else if n < |src| {
      EncodeHasNoZero(src[n + 1..]);
    } else {
      assert src[..n] == src;
    }
  }

  /** One octet of overhead for every 254, plus one. */
  lemma {:induction false} EncodeBound(src: seq<byte>)
    ensures |Encode(src)| <= |src| + |src| / MAX_RUN + 1
  {
    var n := RunLength(src, MAX_RUN);
    if n == MAX_RUN {
      EncodeBound(src[n..]);
      assert (|src| - MAX_RUN) / MAX_RUN == |src| / MAX_RUN - 1;
    } else if n < |src| {
      EncodeBound(src[n + 1..]);
    }
  }

  lemma {:induction false} DecodeEncode(src: seq<byte>)
    ensures DecodeBlocks(Encode(src)) == Some(src)
  {
    hide DecodeBlocks, Encode;
    var n := RunLength(src, MAX_RUN);
    EncodeFirstBlock(src);
    if n == MAX_RUN {
      DecodeEncode(src[n..]);
      DecodeStep(255, src[..n], Encode(src[n..]));
      assert src[..n] + [] + src[n..] == src;
    } else if n == |src| {
      DecodeStep(n + 1, src, []);
      DecodeNothing();
      assert [n + 1] + src + [] == [n + 1] + src;
      assert src + [] + [] == src;
    } else {
      DecodeEncode(src[n + 1..]);
      DecodeStep(n + 1, src[..n], Encode(src[n + 1..]));
      assert src[..n] + [0] + src[n + 1..] == src;
    }
  }

  lemma EncodeFirstBlock(src: seq<byte>)
    ensures var n := RunLength(src, MAX_RUN);
            Encode(src) == if n == MAX_RUN then [255] + src[..n] + Encode(src[n..])
                           else if n == |src| then [n + 1] + src
                           else [n + 1] + src[..n] + Encode(src[n + 1..])
  {}

  lemma DecodeNothing()
    ensures DecodeBlocks([]) == Some([])
  {}

  /** Which records the decoder accepts: every zero-free record that decodes is
      the encoding of the result, or that encoding without the empty last block
      that follows a full one. */
  lemma {:induction false} AcceptedRecords(src: seq<byte>)
    requires NoZero(src)
    ensures DecodeBlocks(src).Some? ==>
              var dst := Encode(DecodeBlocks(src).value);
              dst == src || dst == src + [1]
  {
    hide Encode, DecodeBlocks;
    if src == [] {
      EncodeEnd([]);
      DecodeNothing();
    } else if DecodeBlocks(src).Some? {
      SplitBlock(src);
      var code := src[0];
      AcceptedRecords(src[code..]);
      AcceptedBlock(code, src[1..code], src[code..]);
    }
  }

  lemma SplitBlock(src: seq<byte>)
    requires src != [] && NoZero(src) && DecodeBlocks(src).Some?
    ensures src[0] <= |src| && src == [src[0]] + src[1..src[0]] + src[src[0]..]
    ensures DecodeBlocks(src[src[0]..]).Some?
  {
    HeadThenRest(src, src[0]);
  }

  lemma HeadThenRest(s: seq<byte>, k: int)
    ensures 1 <= k <= |s| ==> s == [s[0]] + s[1..k] + s[k..]
  {}

  lemma AcceptedBlock(code: byte, run: seq<byte>, tail: seq<byte>)
    requires NoZero(run) && code == |run| + 1
    requires DecodeBlocks(tail).Some?
    requires var dst := Encode(DecodeBlocks(tail).value); dst == tail || dst == tail + [1]
    ensures var dst := Encode(DecodeBlocks([code] + run + tail).value);
            dst == [code] + run + tail || dst == [code] + run + tail + [1]
  {
    DecodeStep(code, run, tail);
    hide Encode, DecodeBlocks;
    var rest := DecodeBlocks(tail).value;
    ClosesAs(code, run, tail == [], rest) by {
      if tail == [] { DecodeNothing(); }
    }
    var head := [code] + run;
    if Encode(rest) == tail + [1] {
      assert head + (tail + [1]) == head + tail + [1];
    }
  }

  /** A block in front of a payload is a block in front of its encoding. */
  lemma ClosesAs(code: byte, run: seq<byte>, last: bool, rest: seq<byte>)
    requires NoZero(run) && code == |run| + 1
    requires last ==> rest == []
    ensures var dst := Encode(Block(code, run, last) + rest);
            dst == [code] + run + Encode(rest) || (last && dst == [code] + run)
  {
    hide Encode;
    if code == 255 {
      EncodeFull(run, rest);
      assert run + [] + rest == run + rest;
    } else if !last {
      EncodeZero(run, rest);
    } else {
      EncodeEnd(run);
      assert run + [] + rest == run;
    }
  }

  /** How many nonzero octets a byte string ends with. */
  function TrailingRun(s: seq<byte>): (n: nat)
    ensures n <= |s|
  {
    if s == [] || s[|s| - 1] == 0 then 0 else TrailingRun(s[..|s| - 1]) + 1
  }

  /** The last run fills its last block, so that the encoding closes with an empty one. */
  predicate EndsFull(s: seq<byte>) {
    TrailingRun(s) > 0 && TrailingRun(s) % MAX_RUN == 0
  }

  lemma {:induction false} TrailingAfter(head: seq<byte>, rest: seq<byte>)
    ensures TrailingRun(head + rest) == TrailingRun(rest) + if TrailingRun(rest) == |rest| then TrailingRun(head) else 0
  {
    if rest == [] {
      assert head + rest == head;
    } else {
      var n := |rest| - 1;
      TrailingAfter(head, rest[..n]);
      assert (head + rest)[..|head + rest| - 1] == head + rest[..n];
    }
  }

  lemma {:induction false} TrailingAll(run: seq<byte>)
    requires NoZero(run)
    ensures TrailingRun(run) == |run|
  {
    if run != [] {
      TrailingAll(run[..|run| - 1]);
    }
  }

  lemma ModAfter(t: nat)
    ensures (t + MAX_RUN) % MAX_RUN == t % MAX_RUN
  {}

  lemma FullAfterFull(run: seq<byte>, rest: seq<byte>)
    requires NoZero(run) && |run| == MAX_RUN
    ensures EndsFull(run + rest) <==> rest == [] || EndsFull(rest)
  {
    TrailingAfter(run, rest);
    TrailingAll(run);
    ModAfter(TrailingRun(rest));
    hide TrailingRun;
    if rest == [] {
      assert TrailingRun(rest) == 0;
    }
  }

  lemma FullAfterZero(run: seq<byte>, rest: seq<byte>)
    ensures EndsFull(run + [0] + rest) <==> EndsFull(rest)
  {
    TrailingAfter(run + [0], rest);
    assert TrailingRun(run + [0]) == 0;
    hide TrailingRun;
  }

  lemma FewNotFull(run: seq<byte>)
    requires NoZero(run) && |run| < MAX_RUN
    ensures !EndsFull(run)
  {
    TrailingAll(run);
    hide TrailingRun;
  }

  /** What a block and the rest of a byte string stand for. */
  function Closed(code: byte, run: seq<byte>): (s: seq<byte>)
    ensures |s| == |run| + if code == 255 then 0 else 1
  {
    run + if code == 255 then [] else [0]
  }

  lemma FullAfterBlock(code: byte, run: seq<byte>, rest: seq<byte>)
    requires NoZero(run) && code == |run| + 1
    ensures EndsFull(Closed(code, run) + rest) <==> EndsFull(rest) || (code == 255 && rest == [])
  {
    hide EndsFull;
    FewNotFull([]);
    if code == 255 {
      FullAfterFull(run, rest);
      assert Closed(code, run) + rest == run + rest;
    } else {
      FullAfterZero(run, rest);
    }
  }

  lemma ShortLast(code: byte, run: seq<byte>)
    requires code == |run| + 1
    ensures DecodeBlocks([code] + run) == Some(Closed(code, run)) <==> code == 255
  {
    hide DecodeBlocks;
    DecodeStep(code, run, []);
    DecodeNothing();
    assert [code] + run + [] == [code] + run;
    assert Block(code, run, true) + [] == run;
    assert code == 255 ==> Closed(code, run) == run;
  }

  /** A record without its last octet 1 says the same exactly when the last run fills its
      last block. */
  lemma {:induction false} ShortExact(s: seq<byte>, record: seq<byte>)
    requires record != [] && Encode(s) == record + [1]
    ensures DecodeBlocks(record) == Some(s) <==> EndsFull(s)
    decreases |s|, 1
  {
    hide Encode, DecodeBlocks, EndsFull;
    var n := RunLength(s, MAX_RUN);
    EncodeFirstBlock(s);
    if n == |s| < MAX_RUN {
      assert s[..n] == s;
      FewNotFull(s);
      ShortRun(s, record);
    } else if n == MAX_RUN {
      assert s == Closed(255, s[..n]) + s[n..];
      ShortBlock(255, s[..n], s[n..], record);
    } else {
      assert s == Closed(n + 1, s[..n]) + s[n + 1..];
      ShortBlock(n + 1, s[..n], s[n + 1..], record);
    }
  }

  lemma {:induction false} ShortBlock(code: byte, run: seq<byte>, rest: seq<byte>, record: seq<byte>)
    requires NoZero(run) && code == |run| + 1 && [code] + run + Encode(rest) == record + [1]
    ensures DecodeBlocks(record) == Some(Closed(code, run) + rest) <==> EndsFull(Closed(code, run) + rest)
    decreases |Closed(code, run)| + |rest|, 0
  {
    hide Encode, DecodeBlocks, EndsFull, Closed;
    FullAfterBlock(code, run, rest);
    WithoutLast(code, run, rest, record);
    FewNotFull([]);
    if rest == [] {
      ShortLast(code, run);
      assert Closed(code, run) + rest == Closed(code, run);
    } else {
      var left := record[|run| + 1..];
      ShortExact(rest, left);
      DecodeStep(code, run, left);
      assert Block(code, run, false) == Closed(code, run) by { BlockIsClosed(code, run); }
      SameTail(Closed(code, run), rest, DecodeBlocks(left));
    }
  }

  lemma BlockIsClosed(code: byte, run: seq<byte>)
    ensures Block(code, run, false) == Closed(code, run)
  {}

  lemma SameTail(head: seq<byte>, rest: seq<byte>, tail: Option<seq<byte>>)
    ensures Prepend(head, tail) == Some(head + rest) <==> tail == Some(rest)
  {
    if tail.Some? && head + tail.value == head + rest {
      assert tail.value == (head + tail.value)[|head|..] == (head + rest)[|head|..] == rest;
    }
  }

  /** A single block that lost its last octet does not decode. */
  lemma ShortRun(s: seq<byte>, record: seq<byte>)
    requires record != [] && record + [1] == [|s| + 1] + s && |s| < MAX_RUN
    ensures DecodeBlocks(record) == None
  {
    assert record[0] == (record + [1])[0] == |s| + 1 && |record| == |s|;
  }

  lemma WithoutLast(code: byte, run: seq<byte>, rest: seq<byte>, record: seq<byte>)
    requires [code] + run + Encode(rest) == record + [1]
    ensures |record| >= |run| + 1 && record == [code] + run + record[|run| + 1..]
    ensures Encode(rest) == record[|run| + 1..] + [1]
    ensures rest == [] ==> record == [code] + run
    ensures rest != [] ==> record[|run| + 1..] != []
  {
    var all := [code] + run + Encode(rest);
    var k := |run| + 1;
    EncodeNothing();
    hide Encode;
    assert Encode(rest) == all[k..] == (record + [1])[k..];
    assert record == all[..|record|];
    assert record[..k] == all[..k] == [code] + run;
  }

  lemma EncodeNothing()
    ensures Encode([]) == [1]
  {
    EncodeEnd([]);
  }

  lemma {:induction false} EndsInOne(s: seq<byte>)
    requires EndsFull(s)
    ensures var r := Encode(s); |r| > 0 && r[|r| - 1] == 1
  {
    hide Encode, EndsFull;
    var n := RunLength(s, MAX_RUN);
    EncodeFirstBlock(s);
    EncodeNothing();
    if n == MAX_RUN {
      FullAfterFull(s[..n], s[n..]);
      assert s == s[..n] + s[n..];
      if s[n..] != [] {
        EndsInOne(s[n..]);
      }
    } else if n == |s| {
      assert s[..n] == s;
      FewNotFull(s);
    } else {
      FullAfterZero(s[..n], s[n + 1..]);
      assert s == s[..n] + [0] + s[n + 1..];
      EndsInOne(s[n + 1..]);
    }
  }

  /** The whole language of the decoder: a zero-free record decodes to s exactly when it
      is the encoding of s, or that without the empty last block after a full one. */
  lemma DecodesExactly(x: seq<byte>, s: seq<byte>)
    requires NoZero(x)
    ensures Decode(x) == Some(s) <==> x != [] && (Encode(s) == x || (Encode(s) == x + [1] && EndsFull(s)))
  {
    hide Encode, DecodeBlocks, EndsFull;
    if x != [] {
      AcceptedRecords(x);
      DecodeEncode(s);
      if Encode(s) == x + [1] {
        ShortExact(s, x);
        assert x + [1] != x;
      }
    }
  }

  /** So no two payloads share a record, and a payload has at most two records: its
      encoding and, if its last run fills its last block, that without the octet 1. */
  lemma RecordsDetermined(x: seq<byte>, y: seq<byte>)
    requires NoZero(x) && NoZero(y)
    requires Decode(x).Some? && Decode(x) == Decode(y)
    ensures x == y || ((x == y + [1] || y == x + [1]) && EndsFull(Decode(x).value))
  {
    hide Encode, Decode, EndsFull;
    DecodesExactly(x, Decode(x).value);
    DecodesExactly(y, Decode(x).value);
    if x + [1] == y + [1] {
      assert x == (x + [1])[..|x|] && y == (y + [1])[..|y|];
    }
  }

  // ---- the loops of the host ---------------------------------------------------

  /** Finished blocks, then the encoding of the open run and the rest. */
  ghost predicate Encodes(src: seq<byte>, i: nat, done: seq<byte>, run: seq<byte>)
    requires i <= |src|
  {
    NoZero(run) && |run| < MAX_RUN && done + Encode(run + src[i..]) == Encode(src)
  }

  lemma EncodesStart(src: seq<byte>)
    ensures Encodes(src, 0, [], [])
  {
    assert [] + src[0..] == src;
  }

  lemma EncodesZero(src: seq<byte>, i: nat, done: seq<byte>, run: seq<byte>)
    requires i < |src| && src[i] == 0 && Encodes(src, i, done, run)
    ensures Encodes(src, i + 1, done + [|run| + 1] + run, [])
  {
    hide Encode;
    assert run + src[i..] == run + [0] + src[i + 1..];
    EncodeZero(run, src[i + 1..]);
    assert [] + src[i + 1..] == src[i + 1..];
  }

  lemma EncodesByte(src: seq<byte>, i: nat, done: seq<byte>, run: seq<byte>)
    requires i < |src| && src[i] != 0 && Encodes(src, i, done, run)
    ensures |run| + 1 < MAX_RUN ==> Encodes(src, i + 1, done, run + [src[i]])
    ensures |run| + 1 == MAX_RUN ==> Encodes(src, i + 1, done + [255] + (run + [src[i]]), [])
  {
    hide Encode;
    var grown := run + [src[i]];
    assert run + src[i..] == grown + src[i + 1..];
    if |grown| == MAX_RUN {
      EncodeFull(grown, src[i + 1..]);
      assert [] + src[i + 1..] == src[i + 1..];
    }
  }

  lemma EncodesEnd(src: seq<byte>, done: seq<byte>, run: seq<byte>)
    requires Encodes(src, |src|, done, run)
    ensures Encode(src) == done + [|run| + 1] + run
  {
    hide Encode, NoZero;
    assert run + src[|src|..] == run;
    EncodeEnd(run);
    assert done + ([|run| + 1] + run) == done + [|run| + 1] + run;
  }

  method CobsEncode(src: seq<byte>) returns (dst: seq<byte>)
    ensures dst == Encode(src)
    ensures |dst| <= |src| + |src| / 254 + 1
  {
    hide Encode, Encodes, NoZero;
    dst := [0];
    var codeIndex: nat, code: byte := 0, 1;
    ghost var done: seq<byte>, run: seq<byte> := [], [];
    EncodesStart(src);
    for i := 0 to |src|
      invariant dst == done + [0] + run && codeIndex == |done|
      invariant code == |run| + 1 && |run| < MAX_RUN
      invariant Encodes(src, i, done, run)
    {
      var b := src[i];
      if b == 0 {
        EncodesZero(src, i, done, run);
        dst := dst[codeIndex := code];
        codeIndex := |dst|;
        dst := dst + [0];
        code := 1;
        done, run := done + [|run| + 1] + run, [];
      } else {
        EncodesByte(src, i, done, run);
        dst := dst + [b];
        code := code + 1;
        run := run + [b];
        if code == 255 {
          dst := dst[codeIndex := code];
          codeIndex := |dst|;
          dst := dst + [0];
          code := 1;
          done, run := done + [255] + run, [];
        }
      }
    }
    EncodesEnd(src, done, run);
    dst := dst[codeIndex := code];
    EncodeBound(src);
  }

  /** What is left to decode at `index`, appended to what is decoded so far. */
  ghost predicate Resumes(src: seq<byte>, index: nat, dst: seq<byte>)
    requires index <= |src|
  {
    DecodeBlocks(src) == Prepend(dst, DecodeBlocks(src[index..]))
  }

  lemma ResumeError(src: seq<byte>, index: nat, dst: seq<byte>)
    requires index < |src| && Resumes(src, index, dst)
    requires src[index] == 0 || index + src[index] > |src|
    ensures DecodeBlocks(src) == None
  {
    assert src[index..][0] == src[index];
  }

  lemma ResumeBlock(src: seq<byte>, index: nat, dst: seq<byte>)
    requires index < |src| && Resumes(src, index, dst)
    requires src[index] != 0 && index + src[index] <= |src|
    ensures var end := index + src[index];
            Resumes(src, end, dst + Block(src[index], src[index + 1..end], end == |src|))
  {
    hide DecodeBlocks;
    var end := index + src[index];
    var run := src[index + 1..end];
    DecodeStep(src[index], run, src[end..]);
    assert src[index..] == [src[index]] + run + src[end..];
    if DecodeBlocks(src[end..]).Some? {
      assert dst + (Block(src[index], run, end == |src|) + DecodeBlocks(src[end..]).value)
          == dst + Block(src[index], run, end == |src|) + DecodeBlocks(src[end..]).value;
    }
  }

  method CobsDecode(src: seq<byte>) returns (r: Option<seq<byte>>)
    ensures r == Decode(src)
  {
    hide Resumes, DecodeBlocks;
    if |src| == 0 {
      return None;
    }
    var dst: seq<byte> := [];
    var index := 0;
    assert Resumes(src, 0, []) by { ResumeStart(src); }
    while index < |src|
      invariant 0 <= index <= |src|
      invariant Resumes(src, index, dst)
    {
      var code := src[index];
      if code == 0 || index + code > |src| + 1 {
        ResumeError(src, index, dst);
        return None;
      }
      index := index + 1;
      var end := index + code - 1;
      if end > |src| {
        ResumeError(src, index - 1, dst);
        return None;
      }
      ResumeBlock(src, index - 1, dst);
      ghost var before, run := dst, src[index..end];
      dst := dst + src[index..end];
      index := end;
      if code != 255 && index < |src| {
        dst := dst + [0];
      }
      assert dst == before + Block(code, run, end == |src|);
    }
    ResumeEnd(src, dst);
    return Some(dst);
  }

  lemma ResumeStart(src: seq<byte>)
    ensures Resumes(src, 0, [])
  {
    hide DecodeBlocks;
    assert src[0..] == src;
    if DecodeBlocks(src).Some? {
      assert [] + DecodeBlocks(src).value == DecodeBlocks(src).value;
    }
  }

  lemma ResumeEnd(src: seq<byte>, dst: seq<byte>)
    requires Resumes(src, |src|, dst)
    ensures DecodeBlocks(src) == Some(dst)
  {
    assert dst + [] == dst;
  }
}
