/** Radix summaries of an inventory (internal/node/radix.go): publication IDs
    grouped by hexadecimal prefix, one (count, digest) pair a child. Functions
    say what each operation computes; the methods at the end are the loops. */
module Radix {
  import opened Bytes
  import opened Seqs

  type Nibble = n: int | 0 <= n < 16
  type Prefix = seq<Nibble>

  const RADIX_CHILDREN := 16
  const LEAF_THRESHOLD := 10
  /** Number of nibbles of an ID. */
  const DEPTH := 32

  datatype ChildDigest = ChildDigest(count: U16, digest: U64)
  type Children = s: seq<ChildDigest> | |s| == RADIX_CHILDREN witness seq(RADIX_CHILDREN, _ => ChildDigest(0, 0))
  datatype RadixSummary = RadixSummary(generation: U32, prefix: Prefix, children: Children)
  datatype RadixLeaf = RadixLeaf(generation: U32, prefix: Prefix, ids: seq<ID>)

  function NibbleAt(id: ID, depth: nat): Nibble
    requires depth < DEPTH
  {
    if depth % 2 == 0 then id[depth / 2] / 16 else id[depth / 2] % 16
  }

  /** The whole path of an ID from the root. */
  function Path(id: ID): (p: Prefix)
    ensures |p| == DEPTH
  {
    seq(DEPTH, d requires 0 <= d < DEPTH => NibbleAt(id, d))
  }

  predicate Under(id: ID, prefix: Prefix)
    requires |prefix| <= DEPTH
  {
    forall d :: 0 <= d < |prefix| ==> NibbleAt(id, d) == prefix[d]
  }

  // ---- order ---------------------------------------------------------------

  /** Byte-string order, the comparison that IDs are sorted by. */
  predicate Leq(a: seq<byte>, b: seq<byte>) {
    a == [] || (b != [] && (a[0] < b[0] || (a[0] == b[0] && Leq(a[1..], b[1..]))))
  }

  lemma LeqTotal(a: seq<byte>, b: seq<byte>)
    ensures Leq(a, b) || Leq(b, a)
  {}

  lemma LeqAntisymmetric(a: seq<byte>, b: seq<byte>)
    requires Leq(a, b) && Leq(b, a)
    ensures a == b
  {
    if a != [] {
      LeqAntisymmetric(a[1..], b[1..]);
      assert a == [a[0]] + a[1..] && b == [b[0]] + b[1..];
    }
  }

  lemma LeqTransitive(a: seq<byte>, b: seq<byte>, c: seq<byte>)
    requires Leq(a, b) && Leq(b, c)
    ensures Leq(a, c)
  {}

  /** Where two strings first differ the smaller octet comes first; a prefix comes before
      what it begins. */
  lemma {:induction false} LeqExact(a: seq<byte>, b: seq<byte>)
    ensures Leq(a, b) <==> a <= b || exists k :: 0 <= k < |a| && k < |b| && a[..k] == b[..k] && a[k] < b[k]
  {
    if a != [] && b != [] {
      LeqExact(a[1..], b[1..]);
      assert a <= b <==> a[0] == b[0] && a[1..] <= b[1..];
      if k :| 0 <= k < |a| && k < |b| && a[..k] == b[..k] && a[k] < b[k] {
        if k > 0 {
          assert a[0] == a[..k][0] && b[0] == b[..k][0];
          assert a[1..][..k - 1] == a[..k][1..] && b[1..][..k - 1] == b[..k][1..];
          assert a[1..][k - 1] < b[1..][k - 1];
        }
      }
      if a[0] < b[0] {
        assert a[..0] == b[..0];
      }
      if j :| 0 <= j < |a[1..]| && j < |b[1..]| && a[1..][..j] == b[1..][..j] && a[1..][j] < b[1..][j] {
        if a[0] == b[0] {
          assert a[..j + 1] == [a[0]] + a[1..][..j] && b[..j + 1] == [b[0]] + b[1..][..j];
          assert a[j + 1] < b[j + 1];
        }
      }
    }
  }

  predicate IsSorted(s: seq<ID>) {
    forall i, j :: 0 <= i < j < |s| ==> Leq(s[i], s[j])
  }

  function Insert(x: ID, s: seq<ID>): (r: seq<ID>)
    ensures multiset(r) == multiset(s) + multiset{x}
    ensures IsSorted(s) ==> IsSorted(r)
  {
    if s == [] || Leq(x, s[0]) then
      assert IsSorted(s) ==> IsSorted([x] + s) by { InsertFront(x, s); }
      [x] + s
    else
      var t := Insert(x, s[1..]);
      assert s == [s[0]] + s[1..];
      assert IsSorted(s) ==> IsSorted([s[0]] + t) by { InsertBack(x, s, t); }
      [s[0]] + t
  }

  lemma InsertFront(x: ID, s: seq<ID>)
    requires s == [] || Leq(x, s[0])
    ensures IsSorted(s) ==> IsSorted([x] + s)
  {
    if IsSorted(s) {
      forall j | 0 <= j < |s| ensures Leq(x, s[j]) {
        if j > 0 { LeqTransitive(x, s[0], s[j]); }
      }
    }
  }

  lemma InsertBack(x: ID, s: seq<ID>, t: seq<ID>)
    requires s != [] && !Leq(x, s[0])
    requires multiset(t) == multiset(s[1..]) + multiset{x}
    requires IsSorted(s[1..]) ==> IsSorted(t)
    ensures IsSorted(s) ==> IsSorted([s[0]] + t)
  {
    if IsSorted(s) {
      forall j | 0 <= j < |t| ensures Leq(s[0], t[j]) {
        assert t[j] in multiset(t);
        if t[j] == x {
          LeqTotal(x, s[0]);
        } else {
          assert t[j] in multiset(s[1..]);
          assert t[j] in s[1..];
        }
      }
    }
  }

  /** The IDs in byte order, duplicates kept. */
  function Sorted(ids: seq<ID>): (r: seq<ID>)
    ensures multiset(r) == multiset(ids)
    ensures IsSorted(r)
    ensures |r| == |ids|
  {
    if ids == [] then [] else
      assert ids == [ids[0]] + ids[1..];
      var r := Insert(ids[0], Sorted(ids[1..]));
      assert |multiset(r)| == |multiset(ids)|;
      r
  }

  lemma SortedHead(a: seq<ID>, b: seq<ID>)
    requires IsSorted(a) && IsSorted(b) && multiset(a) == multiset(b) && a != [] && b != []
    ensures a[0] == b[0]
  {
    hide Leq;
    assert a[0] in multiset(b) && b[0] in multiset(a);
    var i :| 0 <= i < |a| && a[i] == b[0];
    var j :| 0 <= j < |b| && b[j] == a[0];
    if a[0] != b[0] {
      LeqAntisymmetric(a[0], b[0]);
    }
  }

  lemma {:induction false} SortedUnique(a: seq<ID>, b: seq<ID>)
    requires IsSorted(a) && IsSorted(b) && multiset(a) == multiset(b)
    ensures a == b
  {
    hide Leq;
    assert |a| == |multiset(a)| == |multiset(b)| == |b|;
    if a != [] {
      SortedHead(a, b);
      TailMultiset(a);
      TailMultiset(b);
      SortedUnique(a[1..], b[1..]);
      assert a == [a[0]] + a[1..] && b == [b[0]] + b[1..];
    }
  }

  lemma TailMultiset(s: seq<ID>)
    requires s != []
    ensures multiset(s[1..]) == multiset(s) - multiset{s[0]}
  {
    assert s == [s[0]] + s[1..];
  }

  /** Sorting forgets the order of the inventory. */
  lemma SortedPermutation(a: seq<ID>, b: seq<ID>)
    requires multiset(a) == multiset(b)
    ensures Sorted(a) == Sorted(b)
  {
    SortedUnique(Sorted(a), Sorted(b));
  }

  // ---- buckets and digests -------------------------------------------------

  /** The IDs under a prefix, in inventory order. */
  function Bucket(ids: seq<ID>, prefix: Prefix): (r: seq<ID>)
    requires |prefix| <= DEPTH
    ensures forall x :: x in r <==> x in ids && Under(x, prefix)
    ensures Distinct(ids) ==> Distinct(r)
  {
    assert Distinct(ids) ==> Distinct(Filter(id => Under(id, prefix), ids)) by {
      if Distinct(ids) { FilterDistinct(id => Under(id, prefix), ids); }
    }
    Filter(id => Under(id, prefix), ids)
  }

  function Join(ids: seq<ID>): (r: seq<byte>)
    ensures |r| == 16 * |ids|
  {
    if ids == [] then [] else ids[0] + Join(ids[1..])
  }

  lemma {:induction false} JoinInjective(a: seq<ID>, b: seq<ID>)
    requires Join(a) == Join(b)
    ensures a == b
  {
    assert |a| == |b|;
    if a != [] {
      assert Join(a)[..16] == a[0] && Join(b)[..16] == b[0];
      assert Join(a)[16..] == Join(a[1..]) && Join(b)[16..] == Join(b[1..]);
      JoinInjective(a[1..], b[1..]);
      assert a == [a[0]] + a[1..] && b == [b[0]] + b[1..];
    }
  }

  function DigestIDs(sha: Hash, ids: seq<ID>): U64 {
    U64At(sha(Join(Sorted(ids))), 0)
  }

  function InventoryGeneration(sha: Hash, ids: seq<ID>): U32 {
    U32At(sha(Join(Sorted(ids))), 0)
  }

  /** The summary entry of one child bucket; the count saturates. */
  function Entry(sha: Hash, ids: seq<ID>, prefix: Prefix): ChildDigest
    requires |prefix| <= DEPTH
  {
    var bucket := Bucket(ids, prefix);
    ChildDigest(if |bucket| > 65535 then 65535 else |bucket|, DigestIDs(sha, bucket))
  }

  function ChildrenOf(sha: Hash, ids: seq<ID>, prefix: Prefix): (r: Children)
    requires |prefix| < DEPTH
    ensures forall c :: 0 <= c < RADIX_CHILDREN ==> r[c] == Entry(sha, ids, prefix + [c])
  {
    seq(RADIX_CHILDREN, c requires 0 <= c < RADIX_CHILDREN => Entry(sha, ids, prefix + [c]))
  }

  function SummaryOf(sha: Hash, ids: seq<ID>, prefix: Prefix): RadixSummary
    requires |prefix| <= DEPTH
  {
    RadixSummary(InventoryGeneration(sha, ids), prefix,
                 if |prefix| >= DEPTH then seq(RADIX_CHILDREN, _ => ChildDigest(0, 0))
                 else ChildrenOf(sha, ids, prefix))
  }

  function LeafOf(sha: Hash, ids: seq<ID>, prefix: Prefix): RadixLeaf
    requires |prefix| <= DEPTH
  {
    RadixLeaf(InventoryGeneration(sha, ids), prefix, Sorted(Bucket(ids, prefix)))
  }

  /** The first children, up to `to`, whose entries differ, as prefixes. */
  function DifferingUpTo(local: RadixSummary, remote: RadixSummary, to: nat): (r: seq<Prefix>)
    requires to <= RADIX_CHILDREN
  {
    if to == 0 then [] else
      DifferingUpTo(local, remote, to - 1)
      + if local.children[to - 1] != remote.children[to - 1] then [remote.prefix + [to - 1]] else []
  }

  lemma {:induction false} InDifferingUpTo(local: RadixSummary, remote: RadixSummary, to: nat, q: Prefix)
    requires to <= RADIX_CHILDREN
    ensures q in DifferingUpTo(local, remote, to) <==>
            |q| == |remote.prefix| + 1 && q[..|remote.prefix|] == remote.prefix
            && q[|remote.prefix|] < to && local.children[q[|remote.prefix|]] != remote.children[q[|remote.prefix|]]
  {
    if to > 0 {
      InDifferingUpTo(local, remote, to - 1, q);
      var last := remote.prefix + [to - 1];
      if |q| == |remote.prefix| + 1 && q[..|remote.prefix|] == remote.prefix {
        assert q == remote.prefix + [q[|remote.prefix|]];
      }
      assert last[..|remote.prefix|] == remote.prefix;
    }
  }

  lemma {:induction false} FewDiffering(local: RadixSummary, remote: RadixSummary, to_: nat)
    requires to_ <= RADIX_CHILDREN
    ensures |DifferingUpTo(local, remote, to_)| <= to_
    ensures forall q :: q in DifferingUpTo(local, remote, to_) ==> |q| == |remote.prefix| + 1
  {
    if to_ > 0 {
      FewDiffering(local, remote, to_ - 1);
    }
  }

  function DifferingChildren(local: RadixSummary, remote: RadixSummary): seq<Prefix> {
    if local.prefix != remote.prefix then [] else DifferingUpTo(local, remote, RADIX_CHILDREN)
  }

  /** Leaf IDs the local inventory lacks, in leaf order. */
  function Missing(local: seq<ID>, leaf: seq<ID>): (r: seq<ID>)
    ensures forall x :: x in r <==> x in leaf && x !in local
    ensures Distinct(leaf) ==> Distinct(r)
  {
    assert Distinct(leaf) ==> Distinct(Filter(id => id !in local, leaf)) by {
      if Distinct(leaf) { FilterDistinct(id => id !in local, leaf); }
    }
    Filter(id => id !in local, leaf)
  }

  // ---- summaries as evidence about sets --------------------------------------

  /** Two inventories with the same IDs, in whatever order, have the same
      generation, entries, summaries and leaves. */
  lemma SummaryIgnoresOrder(sha: Hash, a: seq<ID>, b: seq<ID>, prefix: Prefix)
    requires multiset(a) == multiset(b)
    requires |prefix| <= DEPTH
    ensures InventoryGeneration(sha, a) == InventoryGeneration(sha, b)
    ensures SummaryOf(sha, a, prefix) == SummaryOf(sha, b, prefix)
    ensures LeafOf(sha, a, prefix) == LeafOf(sha, b, prefix)
  {
    SortedPermutation(a, b);
    BucketPermutation(a, b, prefix);
    SortedPermutation(Bucket(a, prefix), Bucket(b, prefix));
    ChildrenIgnoreOrder(sha, a, b, prefix);
  }

  lemma ChildrenIgnoreOrder(sha: Hash, a: seq<ID>, b: seq<ID>, prefix: Prefix)
    requires multiset(a) == multiset(b)
    requires |prefix| <= DEPTH
    ensures SummaryOf(sha, a, prefix).children == SummaryOf(sha, b, prefix).children
  {
    if |prefix| < DEPTH {
      var x, y := SummaryOf(sha, a, prefix).children, SummaryOf(sha, b, prefix).children;
      forall c | 0 <= c < RADIX_CHILDREN ensures x[c] == y[c] {
        BucketPermutation(a, b, prefix + [c]);
        EntryOfBucket(sha, a, b, prefix + [c]);
      }
    }
  }

  lemma BucketPermutation(a: seq<ID>, b: seq<ID>, prefix: Prefix)
    requires multiset(a) == multiset(b)
    requires |prefix| <= DEPTH
    ensures multiset(Bucket(a, prefix)) == multiset(Bucket(b, prefix))
  {
    FilterPermutation(id => Under(id, prefix), a, b);
  }

  lemma EntryOfBucket(sha: Hash, a: seq<ID>, b: seq<ID>, prefix: Prefix)
    requires |prefix| <= DEPTH
    requires multiset(Bucket(a, prefix)) == multiset(Bucket(b, prefix))
    ensures Entry(sha, a, prefix) == Entry(sha, b, prefix)
  {
    SortedPermutation(Bucket(a, prefix), Bucket(b, prefix));
    assert |multiset(Bucket(a, prefix))| == |multiset(Bucket(b, prefix))|;
  }

  /** Differing entries prove a difference, whatever the hash does. */
  lemma EntriesDifferImpliesSetsDiffer(sha: Hash, a: seq<ID>, b: seq<ID>, prefix: Prefix)
    requires |prefix| <= DEPTH
    requires Distinct(a) && Distinct(b)
    requires Entry(sha, a, prefix) != Entry(sha, b, prefix)
    ensures SetOf(Bucket(a, prefix)) != SetOf(Bucket(b, prefix))
  {
    if SetOf(Bucket(a, prefix)) == SetOf(Bucket(b, prefix)) {
      DistinctSameSet(Bucket(a, prefix), Bucket(b, prefix));
      EntryOfBucket(sha, a, b, prefix);
    }
  }

  /** The n octets that a hash value starts with are equal for two lists of IDs in byte
      order. */
  predicate SameStart(sha: Hash, a: seq<ID>, b: seq<ID>, n: nat)
    requires n <= 32
  {
    sha(Join(Sorted(a)))[..n] == sha(Join(Sorted(b)))[..n]
  }

  /** Digests compare eight octets of the hash, generations four, and nothing else. */
  lemma DigestExact(sha: Hash, a: seq<ID>, b: seq<ID>)
    ensures DigestIDs(sha, a) == DigestIDs(sha, b) <==> SameStart(sha, a, b, 8)
    ensures InventoryGeneration(sha, a) == InventoryGeneration(sha, b) <==> SameStart(sha, a, b, 4)
  {
    hide Sorted, Join, ToLE, FromLE;
    var x, y := sha(Join(Sorted(a))), sha(Join(Sorted(b)));
    ToFromLE(x[0..8]);
    ToFromLE(y[0..8]);
    ToFromLE(x[0..4]);
    ToFromLE(y[0..4]);
  }

  /** Entries agree exactly if the saturated counts and eight octets of the hash of the
      IDs in byte order do. */
  lemma EntriesExact(sha: Hash, a: seq<ID>, b: seq<ID>, prefix: Prefix)
    requires |prefix| <= DEPTH
    ensures Entry(sha, a, prefix) == Entry(sha, b, prefix) <==>
              && (|Bucket(a, prefix)| == |Bucket(b, prefix)| || (|Bucket(a, prefix)| >= 65535 && |Bucket(b, prefix)| >= 65535))
              && SameStart(sha, Bucket(a, prefix), Bucket(b, prefix), 8)
  {
    DigestExact(sha, Bucket(a, prefix), Bucket(b, prefix));
    hide DigestIDs, Bucket, SameStart;
  }

  /** The hash does not collide, in the octets that a digest keeps, on the two byte strings
      compared at a prefix. */
  ghost predicate NoCollisionAt(sha: Hash, a: seq<ID>, b: seq<ID>, prefix: Prefix)
    requires |prefix| <= DEPTH
  {
    var x, y := Join(Sorted(Bucket(a, prefix))), Join(Sorted(Bucket(b, prefix)));
    sha(x)[..8] == sha(y)[..8] ==> x == y
  }

  ghost predicate NoCollision(sha: Hash, a: seq<ID>, b: seq<ID>) {
    forall p: Prefix :: |p| <= DEPTH ==> NoCollisionAt(sha, a, b, p)
  }

  /** Without a collision, equal entries prove equal buckets. */
  lemma EntriesEqualImpliesSetsEqual(sha: Hash, a: seq<ID>, b: seq<ID>, prefix: Prefix)
    requires |prefix| <= DEPTH
    requires NoCollisionAt(sha, a, b, prefix)
    requires Entry(sha, a, prefix) == Entry(sha, b, prefix)
    ensures SetOf(Bucket(a, prefix)) == SetOf(Bucket(b, prefix))
  {
    EntriesExact(sha, a, b, prefix);
    SameIDs(Bucket(a, prefix), Bucket(b, prefix));
  }

  lemma SameIDs(a: seq<ID>, b: seq<ID>)
    requires Join(Sorted(a)) == Join(Sorted(b))
    ensures SetOf(a) == SetOf(b)
  {
    JoinInjective(Sorted(a), Sorted(b));
    MultisetSameElements(a, Sorted(a));
    MultisetSameElements(b, Sorted(b));
  }

  /** Equal generations prove equal inventories, if four octets of the hash do not collide
      on the two byte strings. */
  lemma GenerationsEqualImpliesSetsEqual(sha: Hash, a: seq<ID>, b: seq<ID>)
    requires var x, y := Join(Sorted(a)), Join(Sorted(b)); sha(x)[..4] == sha(y)[..4] ==> x == y
    requires InventoryGeneration(sha, a) == InventoryGeneration(sha, b)
    ensures SetOf(a) == SetOf(b)
  {
    DigestExact(sha, a, b);
    SameIDs(a, b);
  }

  // ---- paths -----------------------------------------------------------------

  lemma UnderPath(id: ID, prefix: Prefix)
    requires |prefix| <= DEPTH
    ensures Under(id, prefix) <==> prefix == Path(id)[..|prefix|]
  {
    if prefix == Path(id)[..|prefix|] {
      forall d | 0 <= d < |prefix| ensures NibbleAt(id, d) == prefix[d] {
        assert prefix[d] == Path(id)[..|prefix|][d];
      }
    }
  }

  /** Thirty-two nibbles determine the ID. */
  lemma PathInjective(a: ID, b: ID)
    requires Path(a) == Path(b)
    ensures a == b
  {
    forall i | 0 <= i < 16 ensures a[i] == b[i] {
      assert Path(a)[2 * i] == a[i] / 16 && Path(b)[2 * i] == b[i] / 16;
      assert Path(a)[2 * i + 1] == a[i] % 16 && Path(b)[2 * i + 1] == b[i] % 16;
    }
  }

  /** A full-depth prefix holds at most one ID of a duplicate-free inventory, so
      it is always answered by a leaf. */
  lemma FullDepthIsLeaf(ids: seq<ID>, prefix: Prefix)
    requires |prefix| == DEPTH && Distinct(ids)
    ensures |Bucket(ids, prefix)| <= 1
  {
    var b := Bucket(ids, prefix);
    if |b| >= 2 {
      assert b[0] in b && b[1] in b;
      UnderPath(b[0], prefix);
      UnderPath(b[1], prefix);
      PathInjective(b[0], b[1]);
    }
  }

  // ---- the loops ---------------------------------------------------------------

  method Matches(id: ID, prefix: Prefix) returns (match_: bool)
    requires |prefix| <= DEPTH
    ensures match_ <==> Under(id, prefix)
  {
    for depth := 0 to |prefix|
      invariant forall d :: 0 <= d < depth ==> NibbleAt(id, d) == prefix[d]
    {
      if NibbleAt(id, depth) != prefix[depth] {
        return false;
      }
    }
    return true;
  }

  method FilterPrefix(ids: seq<ID>, prefix: Prefix) returns (out: seq<ID>)
    requires |prefix| <= DEPTH
    ensures out == Sorted(Bucket(ids, prefix))
  {
    hide Sorted, Under;
    ghost var under := (id: ID) => Under(id, prefix);
    var kept: seq<ID> := [];
    for i := 0 to |ids|
      invariant kept == Filter(under, ids[..i])
    {
      var match_ := Matches(ids[i], prefix);
      FilterSnoc(under, ids, i);
      if match_ {
        kept := kept + [ids[i]];
      }
    }
    assert ids[..|ids|] == ids;
    out := Sorted(kept);
  }

  method ChildEntry(sha: Hash, ids: seq<ID>, prefix: Prefix) returns (entry: ChildDigest)
    requires |prefix| <= DEPTH
    ensures entry == Entry(sha, ids, prefix)
  {
    var bucket := FilterPrefix(ids, prefix);
    var count := |bucket|;
    if count > 65535 {
      count := 65535;
    }
    SortedPermutation(bucket, Bucket(ids, prefix));
    entry := ChildDigest(count, DigestIDs(sha, bucket));
  }

  method BuildChildren(sha: Hash, ids: seq<ID>, prefix: Prefix) returns (children: Children)
    requires |prefix| < DEPTH
    ensures children == ChildrenOf(sha, ids, prefix)
  {
    hide ChildrenOf, Entry;
    ghost var expected := ChildrenOf(sha, ids, prefix);
    var entries: seq<ChildDigest> := [];
    var child: nat := 0;
    while child < RADIX_CHILDREN
      invariant child <= RADIX_CHILDREN && |entries| == child
      invariant forall c :: 0 <= c < child ==> entries[c] == expected[c]
    {
      var entry := ChildEntry(sha, ids, prefix + [child]);
      assert entry == expected[child];
      entries := entries + [entry];
      child := child + 1;
    }
    children := entries;
    assert children == expected;
  }

  method BuildSummary(sha: Hash, ids: seq<ID>, prefix: Prefix) returns (summary: RadixSummary)
    requires |prefix| <= DEPTH
    ensures summary == SummaryOf(sha, ids, prefix)
  {
    var generation := InventoryGeneration(sha, ids);
    if |prefix| >= DEPTH {
      return RadixSummary(generation, prefix, seq(RADIX_CHILDREN, _ => ChildDigest(0, 0)));
    }
    var children := BuildChildren(sha, ids, prefix);
    summary := RadixSummary(generation, prefix, children);
  }

  method CollectDiffering(local: RadixSummary, remote: RadixSummary) returns (out: seq<Prefix>)
    ensures out == DifferingChildren(local, remote)
  {
    if local.prefix != remote.prefix {
      return [];
    }
    out := [];
    for child := 0 to RADIX_CHILDREN
      invariant out == DifferingUpTo(local, remote, child)
    {
      if local.children[child] != remote.children[child] {
        out := out + [remote.prefix + [child]];
      }
    }
  }

  lemma MissingNothing(local: seq<ID>)
    ensures Missing(local, []) == []
  {}

  lemma MissingSnoc(local: seq<ID>, leaf: seq<ID>, i: nat)
    requires i < |leaf|
    ensures Missing(local, leaf[..i + 1]) == Missing(local, leaf[..i]) + if leaf[i] !in local then [leaf[i]] else []
  {
    hide Filter;
    FilterSnoc(id => id !in local, leaf, i);
  }

  method MissingIDs(local: seq<ID>, leaf: RadixLeaf) returns (missing: seq<ID>)
    ensures missing == Missing(local, leaf.ids)
  {
    hide Missing, Filter;
    var have := SetOf(local);
    missing := [];
    assert Missing(local, leaf.ids[..0]) == [] by { MissingNothing(local); }
    for i := 0 to |leaf.ids|
      invariant missing == Missing(local, leaf.ids[..i])
    {
      MissingSnoc(local, leaf.ids, i);
      if leaf.ids[i] !in have {
        missing := missing + [leaf.ids[i]];
      }
    }
    assert leaf.ids[..|leaf.ids|] == leaf.ids;
  }
}
