/** The reconciliation walk as a whole: from the root summary of a remote
    inventory down its differing children to leaves of concrete IDs. It is a
    fast form of plain set difference; this module says how exact and how cheap. */
module RadixWalk {
  import opened Bytes
  import opened Seqs
  import opened Radix

  // ---- the walk --------------------------------------------------------------

  /** What the requester learns from asking for `prefix`: a leaf if the remote
      bucket is small, otherwise a summary whose differing children are asked
      for in turn. A full-depth prefix that is no leaf has no answer. */
  function Walk(sha: Hash, local: seq<ID>, remote: seq<ID>, prefix: Prefix): seq<ID>
    requires |prefix| <= DEPTH
    decreases DEPTH - |prefix|, RADIX_CHILDREN + 1
  {
    if |Bucket(remote, prefix)| <= LEAF_THRESHOLD then Missing(local, LeafOf(sha, remote, prefix).ids)
    else if |prefix| == DEPTH then []
    else WalkChildren(sha, local, remote, prefix, 0)
  }

  function WalkChildren(sha: Hash, local: seq<ID>, remote: seq<ID>, prefix: Prefix, from: nat): seq<ID>
    requires |prefix| < DEPTH && from <= RADIX_CHILDREN
    decreases DEPTH - |prefix|, RADIX_CHILDREN - from
  {
    if from == RADIX_CHILDREN then []
    else
      (if EntriesDiffer(sha, local, remote, prefix + [from]) then Walk(sha, local, remote, prefix + [from]) else [])
      + WalkChildren(sha, local, remote, prefix, from + 1)
  }

  predicate EntriesDiffer(sha: Hash, local: seq<ID>, remote: seq<ID>, prefix: Prefix)
    requires |prefix| <= DEPTH
  {
    Entry(sha, local, prefix) != Entry(sha, remote, prefix)
  }

  /** The whole reconciliation; the root is always answered by a summary. */
  function Reconcile(sha: Hash, local: seq<ID>, remote: seq<ID>): seq<ID> {
    WalkChildren(sha, local, remote, [], 0)
  }

  /** The children the walk descends into are the ones the summaries name. */
  lemma WalkFollowsSummaries(sha: Hash, local: seq<ID>, remote: seq<ID>, prefix: Prefix, q: Prefix)
    requires |prefix| < DEPTH
    ensures q in DifferingChildren(SummaryOf(sha, local, prefix), SummaryOf(sha, remote, prefix)) <==>
            |q| == |prefix| + 1 && prefix == q[..|prefix|] && EntriesDiffer(sha, local, remote, q)
  {
    hide Entry;
    var l, r := SummaryOf(sha, local, prefix), SummaryOf(sha, remote, prefix);
    InDifferingUpTo(l, r, RADIX_CHILDREN, q);
    if |q| == |prefix| + 1 && prefix == q[..|prefix|] {
      var c: nat := q[|prefix|];
      assert q == prefix + [c];
      assert l.children[c] == Entry(sha, local, q) && r.children[c] == Entry(sha, remote, q);
    }
  }

  // ---- exactness -------------------------------------------------------------

  /** The descent towards `id` asks for its prefix of length k: the root always
      names depth 1, and deeper prefixes are named where the remote bucket above
      is too large for a leaf. */
  ghost predicate Consulted(remote: seq<ID>, id: ID, from: nat, k: nat)
    requires from < k <= DEPTH
  {
    k == from + 1 || |Bucket(remote, Path(id)[..k - 1])| > LEAF_THRESHOLD
  }

  ghost predicate DiffersTowards(sha: Hash, local: seq<ID>, remote: seq<ID>, id: ID, from: nat)
    requires from <= DEPTH
  {
    forall k :: from < k <= DEPTH && Consulted(remote, id, from, k) ==> EntriesDiffer(sha, local, remote, Path(id)[..k])
  }

  lemma BucketShrinks(ids: seq<ID>, p: Prefix, q: Prefix)
    requires |p| <= |q| <= DEPTH && p == q[..|p|]
    ensures |Bucket(ids, q)| <= |Bucket(ids, p)|
  {
    forall id: ID ensures Under(id, q) ==> Under(id, p) { UnderShorter(id, p, q); }
    FilterShrinks(id => Under(id, p), id => Under(id, q), ids);
  }

  lemma UnderShorter(id: ID, p: Prefix, q: Prefix)
    requires |p| <= |q| <= DEPTH && p == q[..|p|]
    ensures Under(id, q) ==> Under(id, p)
  {
    UnderPath(id, p);
    UnderPath(id, q);
    assert Path(id)[..|q|][..|p|] == Path(id)[..|p|];
  }

  /** Membership in the children's part of a walk is decided by the one child
      that lies on the path of the ID. */
  lemma {:induction false} InWalkChildren(sha: Hash, local: seq<ID>, remote: seq<ID>, prefix: Prefix, from: nat, id: ID)
    requires |prefix| < DEPTH && from <= RADIX_CHILDREN
    requires Distinct(remote)
    ensures id in WalkChildren(sha, local, remote, prefix, from) <==>
            Under(id, prefix) && NibbleAt(id, |prefix|) >= from
            && EntriesDiffer(sha, local, remote, Path(id)[..|prefix| + 1])
            && id in Walk(sha, local, remote, Path(id)[..|prefix| + 1])
    decreases DEPTH - |prefix|, RADIX_CHILDREN - from
  {
    hide EntriesDiffer, Bucket, Sorted;
    UnderPath(id, prefix);
    if from < RADIX_CHILDREN {
      InWalkChildren(sha, local, remote, prefix, from + 1, id);
      var q := prefix + [from];
      UnderPath(id, q);
      assert q[..|prefix|] == prefix;
      if Under(id, prefix) && NibbleAt(id, |prefix|) == from {
        assert Path(id)[..|q|] == q;
      } else if EntriesDiffer(sha, local, remote, q) {
        WalkStaysUnder(sha, local, remote, q, id);
        assert Under(id, q) ==> Under(id, prefix) by {
          forall d | 0 <= d < |prefix| ensures q[d] == prefix[d] {}
        }
      }
    }
  }

  /** With no assumption on the hash: whatever a walk yields is held by the
      remote, lacked locally, and under the prefix asked for. */
  lemma {:induction false} WalkStaysUnder(sha: Hash, local: seq<ID>, remote: seq<ID>, prefix: Prefix, id: ID)
    requires |prefix| <= DEPTH
    requires Distinct(remote)
    ensures id in Walk(sha, local, remote, prefix) ==> Under(id, prefix) && id in remote && id !in local
    decreases DEPTH - |prefix|, RADIX_CHILDREN + 1
  {
    hide EntriesDiffer, Bucket, Sorted;
    MultisetSameElements(Bucket(remote, prefix), Sorted(Bucket(remote, prefix)));
    if |Bucket(remote, prefix)| > LEAF_THRESHOLD && |prefix| < DEPTH {
      InWalkChildren(sha, local, remote, prefix, 0, id);
      WalkStaysUnder(sha, local, remote, Path(id)[..|prefix| + 1], id);
    }
  }

  /** Below a requested prefix the walk yields an ID exactly when the remote
      holds it, the local side lacks it, and no consulted entry on its path hides
      the difference. */
  lemma {:induction false} WalkExact(sha: Hash, local: seq<ID>, remote: seq<ID>, k: nat, id: ID)
    requires k <= DEPTH
    requires Distinct(remote)
    ensures id in Walk(sha, local, remote, Path(id)[..k]) <==>
            id in remote && id !in local
            && (|Bucket(remote, Path(id)[..k])| > LEAF_THRESHOLD ==> DiffersTowards(sha, local, remote, id, k))
    decreases DEPTH - k
  {
    hide EntriesDiffer, Bucket, Sorted;
    var p := Path(id)[..k];
    UnderPath(id, p);
    MultisetSameElements(Bucket(remote, p), Sorted(Bucket(remote, p)));
    if |Bucket(remote, p)| > LEAF_THRESHOLD {
      if k == DEPTH {
        FullDepthIsLeaf(remote, p);
      } else {
        InWalkChildren(sha, local, remote, p, 0, id);
        WalkExact(sha, local, remote, k + 1, id);
        DiffersStep(sha, local, remote, id, k);
      }
    }
  }

  lemma DiffersStep(sha: Hash, local: seq<ID>, remote: seq<ID>, id: ID, k: nat)
    requires k < DEPTH
    ensures DiffersTowards(sha, local, remote, id, k) <==>
            EntriesDiffer(sha, local, remote, Path(id)[..k + 1])
            && (|Bucket(remote, Path(id)[..k + 1])| > LEAF_THRESHOLD ==> DiffersTowards(sha, local, remote, id, k + 1))
  {
    hide EntriesDiffer, Bucket;
    assert Consulted(remote, id, k, k + 1);
    if |Bucket(remote, Path(id)[..k + 1])| > LEAF_THRESHOLD {
      assert k + 2 <= DEPTH ==> Consulted(remote, id, k, k + 2);
      forall j | k + 1 < j <= DEPTH ensures Consulted(remote, id, k, j) <==> Consulted(remote, id, k + 1, j) {}
      if DiffersTowards(sha, local, remote, id, k) {
        forall j | k + 1 < j <= DEPTH && Consulted(remote, id, k + 1, j)
          ensures EntriesDiffer(sha, local, remote, Path(id)[..j]) { assert Consulted(remote, id, k, j); }
      }
    } else {
      forall j | k + 1 < j <= DEPTH ensures !Consulted(remote, id, k, j) {
        assert Path(id)[..k + 1] == Path(id)[..j - 1][..k + 1];
        BucketShrinks(remote, Path(id)[..k + 1], Path(id)[..j - 1]);
      }
    }
  }

  /** Exactly which missing IDs one reconciliation finds, for every hash: those
      with no digest collision at a consulted prefix of their path. */
  lemma ReconcileExact(sha: Hash, local: seq<ID>, remote: seq<ID>, id: ID)
    requires Distinct(remote)
    ensures id in Reconcile(sha, local, remote) <==>
            id in remote && id !in local && DiffersTowards(sha, local, remote, id, 0)
  {
    hide EntriesDiffer, Bucket, Walk, DiffersTowards;
    InWalkChildren(sha, local, remote, [], 0, id);
    WalkExact(sha, local, remote, 1, id);
    DiffersStep(sha, local, remote, id, 0);
  }

  /** Without collisions the walk is set difference. */
  lemma ReconcileIsDifference(sha: Hash, local: seq<ID>, remote: seq<ID>)
    requires Distinct(local) && Distinct(remote)
    requires NoCollision(sha, local, remote)
    ensures SetOf(Reconcile(sha, local, remote)) == SetOf(remote) - SetOf(local)
    ensures Distinct(Reconcile(sha, local, remote))
  {
    hide EntriesDiffer, Bucket, Reconcile, DiffersTowards, NoCollision, WalkChildren;
    assert Distinct(Reconcile(sha, local, remote)) by { ReconcileDistinct(sha, local, remote); }
    forall id: ID ensures id in Reconcile(sha, local, remote) <==> id in remote && id !in local {
      ReconcileExact(sha, local, remote, id);
      if id in remote && id !in local {
        DifferenceUnhidden(sha, local, remote, id);
      }
    }
  }

  lemma ReconcileDistinct(sha: Hash, local: seq<ID>, remote: seq<ID>)
    requires Distinct(remote)
    ensures Distinct(Reconcile(sha, local, remote))
  {
    WalkChildrenDistinct(sha, local, remote, [], 0);
  }

  lemma DifferenceUnhidden(sha: Hash, local: seq<ID>, remote: seq<ID>, id: ID)
    requires NoCollision(sha, local, remote)
    requires id in remote && id !in local
    ensures DiffersTowards(sha, local, remote, id, 0)
  {
    hide EntriesDiffer, Bucket, Consulted;
    forall k | 0 < k <= DEPTH ensures EntriesDiffer(sha, local, remote, Path(id)[..k]) {
      DifferenceShows(sha, local, remote, Path(id)[..k], id);
    }
  }

  /** An ID that one side lacks makes every entry on its path differ. */
  lemma DifferenceShows(sha: Hash, local: seq<ID>, remote: seq<ID>, prefix: Prefix, id: ID)
    requires |prefix| <= DEPTH && prefix == Path(id)[..|prefix|]
    requires NoCollisionAt(sha, local, remote, prefix)
    requires id in remote && id !in local
    ensures EntriesDiffer(sha, local, remote, prefix)
  {
    UnderPath(id, prefix);
    var l, r := SetOf(Bucket(local, prefix)), SetOf(Bucket(remote, prefix));
    assert id in r && id !in l;
    if !EntriesDiffer(sha, local, remote, prefix) {
      EntriesEqualImpliesSetsEqual(sha, local, remote, prefix);
    }
  }

  // ---- no repeats --------------------------------------------------------------

  lemma {:induction false} WalkDistinct(sha: Hash, local: seq<ID>, remote: seq<ID>, prefix: Prefix)
    requires |prefix| <= DEPTH && Distinct(remote)
    ensures Distinct(Walk(sha, local, remote, prefix))
    decreases DEPTH - |prefix|, RADIX_CHILDREN + 1
  {
    hide EntriesDiffer, Bucket, Sorted;
    if |Bucket(remote, prefix)| <= LEAF_THRESHOLD {
      MultisetSameElements(Bucket(remote, prefix), Sorted(Bucket(remote, prefix)));
    } else if |prefix| < DEPTH {
      WalkChildrenDistinct(sha, local, remote, prefix, 0);
    }
  }

  lemma {:induction false} WalkChildrenDistinct(sha: Hash, local: seq<ID>, remote: seq<ID>, prefix: Prefix, from: nat)
    requires |prefix| < DEPTH && from <= RADIX_CHILDREN && Distinct(remote)
    ensures Distinct(WalkChildren(sha, local, remote, prefix, from))
    decreases DEPTH - |prefix|, RADIX_CHILDREN - from
  {
    hide EntriesDiffer, Bucket, Sorted;
    if from < RADIX_CHILDREN {
      var q := prefix + [from];
      WalkDistinct(sha, local, remote, q);
      WalkChildrenDistinct(sha, local, remote, prefix, from + 1);
      var here := if EntriesDiffer(sha, local, remote, q) then Walk(sha, local, remote, q) else [];
      var rest := WalkChildren(sha, local, remote, prefix, from + 1);
      forall id | id in here ensures id !in rest {
        WalkStaysUnder(sha, local, remote, q, id);
        assert NibbleAt(id, |prefix|) == q[|prefix|] == from;
        InWalkChildren(sha, local, remote, prefix, from + 1, id);
      }
      DistinctConcat(here, rest);
    }
  }

  // ---- cost ------------------------------------------------------------------

  /** Every prefix asked for while walking below `prefix`, itself included. */
  function Requests(sha: Hash, local: seq<ID>, remote: seq<ID>, prefix: Prefix): seq<Prefix>
    requires |prefix| <= DEPTH
    decreases DEPTH - |prefix|, RADIX_CHILDREN + 1
  {
    [prefix] + if |Bucket(remote, prefix)| <= LEAF_THRESHOLD || |prefix| == DEPTH then []
               else RequestsChildren(sha, local, remote, prefix, 0)
  }

  function RequestsChildren(sha: Hash, local: seq<ID>, remote: seq<ID>, prefix: Prefix, from: nat): seq<Prefix>
    requires |prefix| < DEPTH && from <= RADIX_CHILDREN
    decreases DEPTH - |prefix|, RADIX_CHILDREN - from
  {
    if from == RADIX_CHILDREN then []
    else
      (if EntriesDiffer(sha, local, remote, prefix + [from]) then Requests(sha, local, remote, prefix + [from]) else [])
      + RequestsChildren(sha, local, remote, prefix, from + 1)
  }

  /** IDs that exactly one side holds. */
  ghost function Difference(local: seq<ID>, remote: seq<ID>): set<ID> {
    (SetOf(remote) - SetOf(local)) + (SetOf(local) - SetOf(remote))
  }

  ghost function DifferenceUnder(local: seq<ID>, remote: seq<ID>, prefix: Prefix): set<ID>
    requires |prefix| <= DEPTH
  {
    set id | id in Difference(local, remote) && Under(id, prefix)
  }

  /** The part of the difference below children `from` and later. */
  ghost function DifferenceFrom(local: seq<ID>, remote: seq<ID>, prefix: Prefix, from: nat): set<ID>
    requires |prefix| < DEPTH
  {
    set id | id in Difference(local, remote) && Under(id, prefix) && NibbleAt(id, |prefix|) >= from
  }

  /** A request is never wasted: it covers an ID that only one side holds. */
  lemma DifferingCoversDifference(sha: Hash, local: seq<ID>, remote: seq<ID>, prefix: Prefix)
    requires |prefix| <= DEPTH
    requires Distinct(local) && Distinct(remote)
    requires EntriesDiffer(sha, local, remote, prefix)
    ensures DifferenceUnder(local, remote, prefix) != {}
  {
    EntriesDifferImpliesSetsDiffer(sha, local, remote, prefix);
    var a, b := SetOf(Bucket(local, prefix)), SetOf(Bucket(remote, prefix));
    var id: ID :| (id in a) != (id in b);
    assert id in DifferenceUnder(local, remote, prefix);
  }

  lemma {:induction false} EveryRequestCovers(sha: Hash, local: seq<ID>, remote: seq<ID>, prefix: Prefix, q: Prefix)
    requires |prefix| <= DEPTH
    requires Distinct(local) && Distinct(remote)
    requires DifferenceUnder(local, remote, prefix) != {}
    requires q in Requests(sha, local, remote, prefix)
    ensures |prefix| <= |q| <= DEPTH && q[..|prefix|] == prefix
    ensures DifferenceUnder(local, remote, q) != {}
    decreases DEPTH - |prefix|, RADIX_CHILDREN + 1
  {
    hide EntriesDiffer, Bucket, Sorted;
    if q != prefix {
      EveryChildRequestCovers(sha, local, remote, prefix, 0, q);
    }
  }

  lemma {:induction false} EveryChildRequestCovers(sha: Hash, local: seq<ID>, remote: seq<ID>, prefix: Prefix, from: nat, q: Prefix)
    requires |prefix| < DEPTH && from <= RADIX_CHILDREN
    requires Distinct(local) && Distinct(remote)
    requires q in RequestsChildren(sha, local, remote, prefix, from)
    ensures |prefix| < |q| <= DEPTH && q[..|prefix|] == prefix && q[|prefix|] >= from
    ensures DifferenceUnder(local, remote, q) != {}
    decreases DEPTH - |prefix|, RADIX_CHILDREN - from
  {
    hide EntriesDiffer, Bucket, Sorted;
    var p := prefix + [from];
    if EntriesDiffer(sha, local, remote, p) && q in Requests(sha, local, remote, p) {
      DifferingCoversDifference(sha, local, remote, p);
      EveryRequestCovers(sha, local, remote, p, q);
      assert q[..|prefix|] == q[..|p|][..|prefix|] == prefix;
      assert q[|prefix|] == q[..|p|][|prefix|] == from;
    } else {
      EveryChildRequestCovers(sha, local, remote, prefix, from + 1, q);
    }
  }

  /** No prefix is asked for twice. */
  lemma {:induction false} RequestsDistinct(sha: Hash, local: seq<ID>, remote: seq<ID>, prefix: Prefix)
    requires |prefix| <= DEPTH
    requires Distinct(local) && Distinct(remote)
    requires DifferenceUnder(local, remote, prefix) != {}
    ensures Distinct(Requests(sha, local, remote, prefix))
    decreases DEPTH - |prefix|, RADIX_CHILDREN + 1
  {
    hide EntriesDiffer, Bucket, Sorted;
    if |Bucket(remote, prefix)| > LEAF_THRESHOLD && |prefix| < DEPTH {
      ChildRequestsDistinct(sha, local, remote, prefix, 0);
      var rest := RequestsChildren(sha, local, remote, prefix, 0);
      if prefix in rest {
        EveryChildRequestCovers(sha, local, remote, prefix, 0, prefix);
      }
      DistinctConcat([prefix], rest);
    }
  }

  lemma {:induction false} ChildRequestsDistinct(sha: Hash, local: seq<ID>, remote: seq<ID>, prefix: Prefix, from: nat)
    requires |prefix| < DEPTH && from <= RADIX_CHILDREN
    requires Distinct(local) && Distinct(remote)
    ensures Distinct(RequestsChildren(sha, local, remote, prefix, from))
    decreases DEPTH - |prefix|, RADIX_CHILDREN - from
  {
    hide EntriesDiffer, Bucket, Sorted;
    if from < RADIX_CHILDREN {
      var p := prefix + [from];
      ChildRequestsDistinct(sha, local, remote, prefix, from + 1);
      if EntriesDiffer(sha, local, remote, p) {
        DifferingCoversDifference(sha, local, remote, p);
        RequestsDistinct(sha, local, remote, p);
        var here, rest := Requests(sha, local, remote, p), RequestsChildren(sha, local, remote, prefix, from + 1);
        forall q | q in here ensures q !in rest {
          if q in rest {
            EveryRequestCovers(sha, local, remote, p, q);
            EveryChildRequestCovers(sha, local, remote, prefix, from + 1, q);
          }
        }
        DistinctConcat(here, rest);
      }
    }
  }

  /** Distinct prefixes of one depth cover disjoint sets of IDs. */
  lemma SameDepthDisjoint(p: Prefix, q: Prefix, id: ID)
    requires |p| == |q| <= DEPTH && p != q
    ensures !(Under(id, p) && Under(id, q))
  {
    UnderPath(id, p);
    UnderPath(id, q);
  }

  lemma {:induction false} RequestCount(sha: Hash, local: seq<ID>, remote: seq<ID>, prefix: Prefix)
    requires |prefix| <= DEPTH
    requires Distinct(local) && Distinct(remote)
    requires DifferenceUnder(local, remote, prefix) != {}
    ensures |Requests(sha, local, remote, prefix)| <= (DEPTH + 1 - |prefix|) * |DifferenceUnder(local, remote, prefix)|
    decreases DEPTH - |prefix|, RADIX_CHILDREN + 1
  {
    hide EntriesDiffer, Bucket, Sorted, DifferenceUnder, DifferenceFrom;
    var d := DifferenceUnder(local, remote, prefix);
    if |Bucket(remote, prefix)| <= LEAF_THRESHOLD || |prefix| == DEPTH {
      MulGrows(DEPTH + 1 - |prefix|, |d|);
    } else {
      ChildRequestCount(sha, local, remote, prefix, 0);
      DifferenceFromZero(local, remote, prefix);
      MulGrows(1, |d|);
      Distribute(|d|, DEPTH - |prefix|, 1);
    }
  }

  lemma DifferenceFromZero(local: seq<ID>, remote: seq<ID>, prefix: Prefix)
    requires |prefix| < DEPTH
    ensures DifferenceFrom(local, remote, prefix, 0) == DifferenceUnder(local, remote, prefix)
  {}

  lemma Distribute(a: nat, b: nat, c: nat)
    ensures (b + c) * a == b * a + c * a
    ensures a * (b + c) == a * b + a * c
  {}

  lemma MulGrows(a: int, b: int)
    requires a >= 1 && b >= 1
    ensures a * b >= 1
  {
    assert a * b >= 1 * b;
  }

  lemma {:induction false} ChildRequestCount(sha: Hash, local: seq<ID>, remote: seq<ID>, prefix: Prefix, from: nat)
    requires |prefix| < DEPTH && from <= RADIX_CHILDREN
    requires Distinct(local) && Distinct(remote)
    ensures |RequestsChildren(sha, local, remote, prefix, from)| <= (DEPTH - |prefix|) * |DifferenceFrom(local, remote, prefix, from)|
    decreases DEPTH - |prefix|, RADIX_CHILDREN - from
  {
    hide EntriesDiffer, Bucket, Sorted, DifferenceUnder, DifferenceFrom;
    if from < RADIX_CHILDREN {
      var p := prefix + [from];
      ChildRequestCount(sha, local, remote, prefix, from + 1);
      var here, later := DifferenceUnder(local, remote, p), DifferenceFrom(local, remote, prefix, from + 1);
      SplitDifference(local, remote, prefix, from);
      Distribute(DEPTH - |prefix|, |here|, |later|);
      if EntriesDiffer(sha, local, remote, p) {
        DifferingCoversDifference(sha, local, remote, p);
        RequestCount(sha, local, remote, p);
      }
    }
  }

  lemma SplitDifference(local: seq<ID>, remote: seq<ID>, prefix: Prefix, from: nat)
    requires |prefix| < DEPTH && from < RADIX_CHILDREN
    ensures |DifferenceFrom(local, remote, prefix, from)|
            == |DifferenceUnder(local, remote, prefix + [from])| + |DifferenceFrom(local, remote, prefix, from + 1)|
  {
    var p := prefix + [from];
    var here, later := DifferenceUnder(local, remote, p), DifferenceFrom(local, remote, prefix, from + 1);
    forall id: ID ensures Under(id, p) <==> Under(id, prefix) && NibbleAt(id, |prefix|) == from {
      if Under(id, p) {
        forall d | 0 <= d < |prefix| ensures NibbleAt(id, d) == prefix[d] { assert p[d] == prefix[d]; }
        assert NibbleAt(id, |prefix|) == p[|prefix|];
      }
    }
    assert DifferenceFrom(local, remote, prefix, from) == here + later;
    assert here * later == {};
  }

  /** The whole cost, for every hash: at most 32 requests for each ID that one
      side lacks, and none between equal inventories. No request repeats, and
      each covers a difference. */
  lemma ReconcileCost(sha: Hash, local: seq<ID>, remote: seq<ID>)
    requires Distinct(local) && Distinct(remote)
    ensures |RequestsChildren(sha, local, remote, [], 0)| <= DEPTH * |Difference(local, remote)|
    ensures Distinct(RequestsChildren(sha, local, remote, [], 0))
    ensures forall q :: q in RequestsChildren(sha, local, remote, [], 0) ==>
                          1 <= |q| <= DEPTH && DifferenceUnder(local, remote, q) != {}
  {
    hide EntriesDiffer, Bucket, RequestsChildren;
    ChildRequestCount(sha, local, remote, [], 0);
    assert DifferenceFrom(local, remote, [], 0) == Difference(local, remote);
    ChildRequestsDistinct(sha, local, remote, [], 0);
    forall q | q in RequestsChildren(sha, local, remote, [], 0)
      ensures 1 <= |q| <= DEPTH && DifferenceUnder(local, remote, q) != {} {
      EveryChildRequestCovers(sha, local, remote, [], 0, q);
    }
  }
}
