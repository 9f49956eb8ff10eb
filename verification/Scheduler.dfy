/** What to ask for next and how long to wait (internal/node/scheduler.go). Times
    are in nanoseconds. */
module Scheduler {
  import opened Bytes
  import opened Seqs
  import opened NodeProtocol

  const MILLISECOND := 1_000_000
  const SECOND := 1000 * MILLISECOND
  /** Chunks that one request bitmap can name. */
  const WINDOW := 8

  function Backoff(failures: int): (wait: nat)
    ensures SECOND <= wait <= 32 * SECOND
  {
    BackoffBound(failures);
    SECOND * Pow2(if failures < 0 then 0 else if failures > 5 then 5 else failures)
  }

  lemma BackoffBound(failures: int)
    ensures 1 <= Pow2(if failures < 0 then 0 else if failures > 5 then 5 else failures) <= 32
  {
    assert Pow2(0) == 1 && Pow2(1) == 2 && Pow2(2) == 4 && Pow2(3) == 8 && Pow2(4) == 16 && Pow2(5) == 32;
  }

  /** An interval within a fifth of the nominal one; `random` is any draw. */
  function Jitter(interval: nat, random: nat): (wait: nat)
    ensures interval - interval / 5 <= wait <= interval + interval / 5
  {
    var spread := interval / 5;
    interval - spread + random % (2 * spread + 1)
  }

  /** The wait starts at a second, doubles with each failure, and stays at thirty-two. */
  lemma BackoffDoubles(failures: nat)
    ensures Backoff(0) == SECOND
    ensures Backoff(failures + 1) == if Backoff(failures) == 32 * SECOND then 32 * SECOND else 2 * Backoff(failures)
  {
    assert Pow2(0) == 1 && Pow2(1) == 2 && Pow2(2) == 4 && Pow2(3) == 8 && Pow2(4) == 16 && Pow2(5) == 32;
  }

  /** Any interval within a fifth may come about. */
  lemma JitterReaches(interval: nat, wait: nat) returns (random: nat)
    requires interval - interval / 5 <= wait <= interval + interval / 5
    ensures Jitter(interval, random) == wait
  {
    random := wait - (interval - interval / 5);
  }

  // ---- batches ------------------------------------------------------------------------

  /** The place `offset` steps after `start` on a circle of n. */
  function Cyclic(start: nat, offset: nat, n: nat): (i: nat)
    requires n > 0
    ensures i < n
  {
    (start + offset) % n
  }

  /** How many steps after `start` the place i comes. */
  function Distance(start: nat, i: nat, n: nat): (d: nat)
    requires i < n
    ensures d < n
  {
    if start % n <= i then i - start % n else i + n - start % n
  }

  lemma MulAtLeast(d: int, n: int)
    requires n > 0
    ensures d >= 1 ==> d * n >= n
    ensures d <= -1 ==> d * n <= -n
  {}

  lemma ModUnique(m: nat, q: int, r: nat, n: nat)
    requires n > 0 && r < n && m == q * n + r
    ensures m % n == r
  {
    var d := m / n - q;
    assert m == (m / n) * n + m % n;
    assert d * n == r - m % n;
    MulAtLeast(d, n);
  }

  lemma CyclicDistance(start: nat, i: nat, n: nat)
    requires i < n
    ensures Cyclic(start, Distance(start, i, n), n) == i
  {
    var q := start / n;
    assert start == q * n + start % n;
    if start % n <= i {
      ModUnique(start + Distance(start, i, n), q, i, n);
    } else {
      assert start + Distance(start, i, n) == (q + 1) * n + i;
      ModUnique(start + Distance(start, i, n), q + 1, i, n);
    }
  }

  /** The first index not received, cyclically from `start`, leaving out the first
      `offset` places. */
  function FirstMissing(received: seq<bool>, start: nat, offset: nat): (r: Option<nat>)
    requires offset <= |received|
    ensures r.Some? ==> r.value < |received| && !received[r.value]
    decreases |received| - offset
  {
    if offset == |received| then None
    else
      var i := Cyclic(start, offset, |received|);
      if received[i] then FirstMissing(received, start, offset + 1) else Some(i)
  }

  /** The lowest indices not received among the first `bits` of a window, at most
      a batch of them. */
  function WindowMissing(received: seq<bool>, base: nat, bits: nat): (r: seq<nat>)
    ensures |r| <= MAX_CHUNK_BATCH
    ensures forall k :: 0 <= k < |r| ==> base <= r[k] < base + bits && r[k] < |received| && !received[r[k]]
    ensures forall j, k :: 0 <= j < k < |r| ==> r[j] < r[k]
  {
    if bits == 0 then [] else
      var r := WindowMissing(received, base, bits - 1);
      var i := base + bits - 1;
      if i < |received| && |r| < MAX_CHUNK_BATCH && !received[i] then r + [i] else r
  }

  /** The multiple of eight at or below i. */
  function WindowStart(i: nat): (base: nat)
    ensures base % WINDOW == 0 && base <= i < base + WINDOW
  {
    i / WINDOW * WINDOW
  }

  /** i is in the batch, or the batch is full of lower indices. */
  ghost predicate Takes(indexes: seq<nat>, i: nat) {
    i in indexes || (|indexes| == MAX_CHUNK_BATCH && forall k :: k in indexes ==> k < i)
  }

  datatype Batch = Batch(base: nat, indexes: seq<nat>)

  /** What MissingBatch selects. */
  function BatchFrom(received: seq<bool>, start: nat): Batch {
    match FirstMissing(received, start, 0)
    case None => Batch(0, [])
    case Some(i) => Batch(WindowStart(i), WindowMissing(received, WindowStart(i), WINDOW))
  }

  lemma {:induction false} FoundBy(received: seq<bool>, start: nat, offset: nat, distance: nat)
    requires offset <= distance < |received| && !received[Cyclic(start, distance, |received|)]
    ensures FirstMissing(received, start, offset).Some?
    decreases |received| - offset
  {
    if offset < distance {
      FoundBy(received, start, offset + 1, distance);
    }
  }

  lemma {:induction false} WindowTakes(received: seq<bool>, base: nat, bits: nat, i: nat)
    requires base <= i < base + bits && i < |received| && !received[i]
    ensures Takes(WindowMissing(received, base, bits), i)
  {
    if i < base + bits - 1 {
      WindowTakes(received, base, bits - 1, i);
    }
  }

  /** A batch is the lowest missing indices, at most four, of one window that starts
      at a multiple of eight; it is empty exactly when nothing is missing. */
  lemma BatchExact(received: seq<bool>, start: nat)
    ensures var b := BatchFrom(received, start);
            && (b.indexes == [] <==> forall i :: 0 <= i < |received| ==> received[i])
            && b.base % WINDOW == 0 && |b.indexes| <= MAX_CHUNK_BATCH
            && (forall j, k :: 0 <= j < k < |b.indexes| ==> b.indexes[j] < b.indexes[k])
            && (forall i :: i in b.indexes ==> b.base <= i < b.base + WINDOW && i < |received| && !received[i])
            && (b.indexes != [] ==>
                  forall i :: b.base <= i < b.base + WINDOW && i < |received| && !received[i] ==> Takes(b.indexes, i))
  {
    if i: nat :| i < |received| && !received[i] {
      CyclicDistance(start, i, |received|);
      FoundBy(received, start, 0, Distance(start, i, |received|));
      BatchOf(received, start);
    }
  }

  lemma BatchOf(received: seq<bool>, start: nat)
    requires FirstMissing(received, start, 0).Some?
    ensures var b := BatchFrom(received, start);
            && b.indexes != [] && b.base % WINDOW == 0
            && (forall i :: b.base <= i < b.base + WINDOW && i < |received| && !received[i] ==> Takes(b.indexes, i))
  {
    var b := BatchFrom(received, start);
    var first := FirstMissing(received, start, 0).value;
    hide WindowMissing, FirstMissing, WindowStart;
    WindowTakes(received, b.base, WINDOW, first);
    assert b.indexes != [] by {
      assert Takes(b.indexes, first);
    }
    hide Takes;
    forall i | b.base <= i < b.base + WINDOW && i < |received| && !received[i] ensures Takes(b.indexes, i) {
      WindowTakes(received, b.base, WINDOW, i);
    }
  }

  /** i is missing, and nothing is from `start` on up to it, around the end. */
  predicate NextMissing(received: seq<bool>, start: nat, i: nat) {
    && i < |received| && !received[i]
    && var k := start % |received|;
       if k <= i then forall j :: k <= j < i ==> received[j]
       else (forall j :: k <= j < |received| ==> received[j]) && (forall j :: 0 <= j < i ==> received[j])
  }

  lemma CyclicValue(start: nat, d: nat, n: nat)
    requires d < n
    ensures Cyclic(start, d, n) == if start % n + d < n then start % n + d else start % n + d - n
  {
    var q := start / n;
    assert start == q * n + start % n;
    if start % n + d < n {
      ModUnique(start + d, q, start % n + d, n);
    } else {
      assert start + d == (q + 1) * n + (start % n + d - n);
      ModUnique(start + d, q + 1, start % n + d - n, n);
    }
  }

  lemma {:induction false} FoundFirst(received: seq<bool>, start: nat, offset: nat, i: nat)
    requires NextMissing(received, start, i) && offset <= Distance(start, i, |received|)
    ensures FirstMissing(received, start, offset) == Some(i)
    decreases |received| - offset
  {
    CyclicValue(start, offset, |received|);
    CyclicDistance(start, i, |received|);
    if offset < Distance(start, i, |received|) {
      assert received[Cyclic(start, offset, |received|)];
      FoundFirst(received, start, offset + 1, i);
    }
  }

  /** The window is that of the first missing index from `start` on. */
  lemma BatchWindow(received: seq<bool>, start: nat, i: nat)
    requires NextMissing(received, start, i)
    ensures var b := BatchFrom(received, start); b.indexes != [] && b.base % WINDOW == 0 && b.base <= i < b.base + WINDOW
  {
    FoundFirst(received, start, 0, i);
    BatchOf(received, start);
    hide FirstMissing, WindowMissing, NextMissing, Takes;
  }

  // ---- bitmaps ------------------------------------------------------------------------

  function WantedBits(base: nat, wanted: set<nat>, n: nat): (s: seq<bool>)
    ensures |s| == n
  {
    seq(n, b requires 0 <= b < n => base + b in wanted)
  }

  function Bitmap(base: nat, wanted: set<nat>): byte {
    FromBitsByte(WantedBits(base, wanted, WINDOW));
    FromBits(WantedBits(base, wanted, WINDOW))
  }

  lemma BitmapBits(base: nat, wanted: set<nat>)
    ensures ToBits(Bitmap(base, wanted), WINDOW) == WantedBits(base, wanted, WINDOW)
    ensures Ones(ToBits(Bitmap(base, wanted), WINDOW)) <= |wanted|
  {
    BitsRoundTrip(WantedBits(base, wanted, WINDOW));
    OnesBound(base, wanted, WINDOW);
  }

  lemma {:induction false} OnesBound(base: nat, wanted: set<nat>, n: nat)
    ensures Ones(WantedBits(base, wanted, n)) <= |wanted|
    decreases n
  {
    if n > 0 {
      var rest := wanted - {base};
      assert WantedBits(base, wanted, n)[1..] == WantedBits(base + 1, rest, n - 1);
      OnesBound(base + 1, rest, n - 1);
    }
  }

  lemma {:induction false} SetBit(s: seq<bool>, k: nat)
    requires k < |s| && !s[k]
    ensures FromBits(s[k := true]) == FromBits(s) + Pow2(k)
  {
    if k > 0 {
      SetBit(s[1..], k - 1);
      assert s[k := true][1..] == s[1..][k - 1 := true];
    } else {
      assert s[k := true][1..] == s[1..];
    }
  }

  lemma {:induction false} NoBits(n: nat)
    ensures FromBits(seq(n, _ => false)) == 0
  {
    if n > 0 {
      NoBits(n - 1);
      assert seq(n, _ => false)[1..] == seq(n - 1, _ => false);
    }
  }

  lemma BitmapOfNone(base: nat)
    ensures Bitmap(base, {}) == 0
  {
    NoBits(WINDOW);
    assert WantedBits(base, {}, WINDOW) == seq(WINDOW, _ => false);
  }

  lemma BitmapWith(base: nat, wanted: set<nat>, i: nat)
    requires base <= i < base + WINDOW && i !in wanted
    ensures Bitmap(base, wanted + {i}) == Bitmap(base, wanted) + Pow2(i - base)
  {
    var s := WantedBits(base, wanted, WINDOW);
    SetBit(s, i - base);
    assert s[i - base := true] == WantedBits(base, wanted + {i}, WINDOW);
  }

  // ---- the loop -----------------------------------------------------------------------

  /** Chunk counts are 16-bit, so no index is truncated. */
  method MissingBatch(received: seq<bool>, start: nat) returns (base: nat, bitmap: byte, indexes: seq<nat>)
    ensures Batch(base, indexes) == BatchFrom(received, start)
    ensures bitmap == Bitmap(base, SetOf(indexes))
  {
    hide Bitmap;
    BitmapOfNone(0);
    assert SetOf<nat>([]) == {};
    if |received| == 0 {
      return 0, 0, [];
    }
    for offset := 0 to |received|
      invariant FirstMissing(received, start, 0) == FirstMissing(received, start, offset)
    {
      var i := Cyclic(start, offset, |received|);
      if !received[i] {
        base := WindowStart(i);
        bitmap, indexes := CollectWindow(received, base);
        return;
      }
    }
    return 0, 0, [];
  }

  method CollectWindow(received: seq<bool>, base: nat) returns (bitmap: byte, indexes: seq<nat>)
    ensures indexes == WindowMissing(received, base, WINDOW)
    ensures bitmap == Bitmap(base, SetOf(indexes))
  {
    hide Bitmap, Pow2;
    BitmapOfNone(base);
    bitmap, indexes := 0, [];
    assert SetOf(indexes) == {};
    for bit := 0 to WINDOW
      invariant indexes == WindowMissing(received, base, bit)
      invariant bitmap == Bitmap(base, SetOf(indexes))
    {
      var i := base + bit;
      if i < |received| && |indexes| < MAX_CHUNK_BATCH && !received[i] {
        BitmapWith(base, SetOf(indexes), i);
        AddToSet(indexes, i);
        bitmap := bitmap + Pow2(bit);
        indexes := indexes + [i];
      }
    }
  }

  lemma AddToSet(s: seq<nat>, i: nat)
    ensures SetOf(s + [i]) == SetOf(s) + {i}
  {}
}
