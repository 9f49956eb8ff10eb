/** How far the table of acquisitions can grow, and the one way past its cap. */
module NodeBounds {
  import opened Bytes
  import opened Seqs
  import opened Radix
  import opened Manifests
  import opened Assemblies
  import opened Stores
  import opened NodeProtocol
  import opened Scheduler
  import opened NodeState
  import opened NodeSteps
  import opened NodeInvariants
  import opened NodeSafety

  // ---- the table of acquisitions ------------------------------------------------------

  function Larger(a: nat, b: nat): nat {
    if a < b then b else a
  }

  ghost predicate NoNewKeys(t: Table, u: Table) {
    u.entries.Keys <= t.entries.Keys
  }

  lemma FewerKeys(t: Table, u: Table)
    requires NoNewKeys(t, u)
    ensures |u.entries| <= |t.entries|
  {
    SubsetSize(u.entries.Keys, t.entries.Keys);
    assert |u.entries.Keys| == |u.entries| && |t.entries.Keys| == |t.entries|;
  }

  lemma {:induction false} SubsetSize<T>(a: set<T>, b: set<T>)
    requires a <= b
    ensures |a| <= |b|
  {
    if a != {} {
      var x :| x in a;
      SubsetSize(a - {x}, b - {x});
    }
  }

  /** The table outgrows its cap exactly when a new ID comes from source 0, which the
      cap does not apply to. */
  lemma AddCandidateBound(t: Table, id: ID, source: NodeID)
    ensures AddCandidate(t, id, source).Some? ==>
              (|AddCandidate(t, id, source).value.entries| > Larger(MAX_ACQUISITIONS, |t.entries|) <==>
               source == 0 && id !in t.entries && |t.entries| >= MAX_ACQUISITIONS)
    ensures AddCandidate(t, id, source).None? <==> source != 0 && id !in t.entries && |t.entries| >= MAX_ACQUISITIONS
  {
    if AddCandidate(t, id, source).Some? {
      var u := AddCandidate(t, id, source).value;
      assert u.entries.Keys == t.entries.Keys + {id};
      assert |u.entries.Keys| == |u.entries| && |t.entries.Keys| == |t.entries|;
    }
  }

  lemma ConsiderBound(c: Config, s: State, env: Env, k: nat, id: ID, source: NodeID)
    requires source != 0
    ensures |Consider(c, s, env, k, id, source).table.entries| <= Larger(MAX_ACQUISITIONS, |s.table.entries|)
  {
    hide CompleteOn, HasKnown, AddCandidate;
    AddCandidateBound(s.table, id, source);
    if AddCandidate(s.table, id, source).Some? {
      PutBound(s, id, source, env.now);
      PutBound(s, id, source, env.now + Draw(env, k, 500 * MILLISECOND));
    }
  }

  lemma PutBound(s: State, id: ID, source: NodeID, when: Time)
    requires AddCandidate(s.table, id, source).Some?
    ensures |AddAt(s, id, source, when).table.entries| == |AddCandidate(s.table, id, source).value.entries|
  {
    var t := AddCandidate(s.table, id, source).value;
    var u := AddAt(s, id, source, when).table;
    assert u.entries.Keys == t.entries.Keys;
    assert |u.entries.Keys| == |u.entries| && |t.entries.Keys| == |t.entries|;
  }

  lemma {:induction false} ConsiderAllBound(c: Config, s: State, env: Env, ids: seq<ID>, source: NodeID)
    requires source != 0
    ensures |ConsiderAll(c, s, env, ids, source).table.entries| <= Larger(MAX_ACQUISITIONS, |s.table.entries|)
  {
    hide Consider;
    if ids != [] {
      var n := |ids| - 1;
      ConsiderAllBound(c, s, env, ids[..n], source);
      ConsiderBound(c, ConsiderAll(c, s, env, ids[..n], source), env, n, ids[n], source);
    }
  }

  lemma OwnStepShrinks(c: Config, s: State, t: State, id: ID)
    requires OwnStep(c, s, t, id) && id in s.table.entries
    ensures |t.table.entries| <= |s.table.entries|
  {
    hide RemoveFirst, Inventory;
    FewerKeys(s.table, t.table);
  }

  lemma TickShrinks(c: Config, s: State, env: Env)
    ensures NoNewKeys(s.table, Tick(c, s, env).table)
  {
    hide InitiateReconcile, ExpireJob, ExpireAcquisitions, Initiate, NextWork, HasOutstanding, SummaryOf, EncodeSummary, Jitter, Inventory;
  }

  lemma ReceiveBound(c: Config, s: State, env: Env, p: Packet, pick: Option<ID>)
    requires p.source != 0
    ensures |Receive(c, s, env, p, pick).table.entries| <= Larger(MAX_ACQUISITIONS, |s.table.entries|)
  {
    hide RootSummary, ServeManifest, ServeChunks, AcceptManifest, AcceptChunk, ServeSignature, AcceptSignature,
         ServeSummary, AcceptSummary, AcceptLeaf;
    LeafBound(c, s, env, p);
    hide OwnStep;
    var t := Receive(c, s, env, p, pick);
    if pick.Some? && Waits(s.table, pick.value) && OwnStep(c, s, t, pick.value) {
      OwnStepShrinks(c, s, t, pick.value);
    }
  }

  lemma LeafBound(c: Config, s: State, env: Env, p: Packet)
    requires p.source != 0
    ensures |AcceptLeaf(c, s, env, p).table.entries| <= Larger(MAX_ACQUISITIONS, |s.table.entries|)
  {
    hide ConsiderAll, DecodeLeaf, Missing;
    if Answers(s, p) && DecodeLeaf(p.body).Some? {
      ConsiderAllBound(c, s.(jobs := s.jobs.(active := None)), env, Missing(s.inventory, DecodeLeaf(p.body).value.ids), p.source);
    }
  }

  /** No packet of this event claims source 0. */
  predicate Sourced(e: Event) {
    e.Hear? && Decode(e.data).Some? ==> Decode(e.data).value.source != 0
  }

  lemma StepBound(c: Config, s: State, e: Event)
    requires Sourced(e)
    ensures |Step(c, s, e).table.entries| <= Larger(MAX_ACQUISITIONS, |s.table.entries|)
  {
    hide Receive, Tick, Decode, NoNewKeys;
    match e
    case Hear(env, data, pick) =>
      if Decode(data).Some? {
        ReceiveBound(c, s, env, Decode(data).value, pick);
      }
    case Clock(env) =>
      TickShrinks(c, s, env);
      FewerKeys(s.table, Tick(c, s, env).table);
    case Outside(_) =>
  }

  /** The number of acquisitions never exceeds 256, or what the node started with. */
  lemma {:induction false} RunBound(c: Config, states: seq<State>, events: seq<Event>, k: nat)
    requires Run(c, states, events) && k < |states|
    requires forall i :: 0 <= i < |events| ==> Sourced(events[i])
    ensures |states[k].table.entries| <= Larger(MAX_ACQUISITIONS, |states[0].table.entries|)
  {
    hide Step, Possible, Sourced;
    if k > 0 {
      RunBound(c, states, events, k - 1);
      StepBound(c, states[k - 1], events[k - 1]);
    }
  }

  // ---- the cap fails for source 0 -----------------------------------------------------

  function Numbered(k: nat): (id: ID)
    requires k < 256
    ensures id[0] == k && id[1] == 0
  {
    [k] + seq(15, _ => 0)
  }

  /** A table of n candidates, all from source 1. */
  function Crowd(n: nat): (t: Table)
    requires n <= 256
    ensures |t.entries| == n && forall id :: id in t.entries ==> exists k :: 0 <= k < n && id == Numbered(k)
  {
    if n == 0 then Table(map[], [], 0) else
      var t := Crowd(n - 1);
      assert Numbered(n - 1) !in t.entries by { NumberedDiffer(n - 1); }
      AddCandidateBound(t, Numbered(n - 1), 1);
      OneMore(t, Numbered(n - 1));
      AddCandidate(t, Numbered(n - 1), 1).value
  }

  lemma NumberedDiffer(n: nat)
    requires n < 256
    ensures forall k :: 0 <= k < n ==> Numbered(k) != Numbered(n)
  {
    assert forall k :: 0 <= k < n ==> Numbered(k)[0] == k;
  }

  lemma OneMore(t: Table, id: ID)
    requires id !in t.entries && |t.entries| < MAX_ACQUISITIONS
    ensures |AddCandidate(t, id, 1).value.entries| == |t.entries| + 1
    ensures forall other :: other in AddCandidate(t, id, 1).value.entries ==> other == id || other in t.entries
  {
    var u := AddCandidate(t, id, 1).value;
    assert u.entries.Keys == t.entries.Keys + {id};
    assert |u.entries.Keys| == |u.entries| && |t.entries.Keys| == |t.entries|;
  }

  ghost predicate Untouched(t: Table) {
    forall id :: id in t.entries ==> t.entries[id].waiting.Idle? && t.entries[id].assembly.None?
  }

  lemma {:induction false} CrowdValid(n: nat)
    requires n <= 256
    ensures TableValid(Crowd(n)) && Untouched(Crowd(n))
  {
    if n > 0 {
      CrowdValid(n - 1);
      var t := Crowd(n - 1);
      AddCandidateBound(t, Numbered(n - 1), 1);
      assert Crowd(n) == AddCandidate(t, Numbered(n - 1), 1).value;
      hide TableValid, Crowd, AddCandidate, Untouched;
      AddCandidateKeeps(t, Numbered(n - 1), 1);
      UntouchedStep(t, Numbered(n - 1));
    }
  }

  lemma UntouchedStep(t: Table, id: ID)
    requires Untouched(t)
    ensures AddCandidate(t, id, 1).Some? ==> Untouched(AddCandidate(t, id, 1).value)
  {}

  lemma CrowdOf(n: nat) returns (t: Table)
    requires n <= 256
    ensures |t.entries| == n && TableValid(t) && Untouched(t) && Stranger() !in t.entries
  {
    t := Crowd(n);
    CrowdValid(n);
    hide Crowd, TableValid;
    assert forall k :: 0 <= k < n ==> Numbered(k)[1] == 0;
  }

  /** A table and a reconciliation with the node that calls itself 0. */
  function Facing(t: Table): State {
    State(t, Jobs([], Some(Job(0, 7, [15], 0, 0, 0, 0))), Peers(map[0 := 7], [0]), Inspected(map[], []),
          0, false, 0, [], map[], [], map[], 0)
  }

  lemma FacingValid(c: Config, t: Table)
    requires TableValid(t) && Untouched(t)
    ensures Inv(c, Facing(t))
  {
    hide TableValid;
  }

  function Stranger(): ID {
    seq(16, _ => 255)
  }

  function StrangerLeaf(): RadixLeaf {
    RadixLeaf(7, [15], [Stranger()])
  }

  /** With the table full, a leaf from source 0 adds a 257th acquisition. */
  lemma SourceZeroOverflows(c: Config, env: Env) returns (s: State, e: Event)
    requires c.id != 0 && c.id != BROADCAST
    ensures Inv(c, s) && Possible(c, s, e) && !Sourced(e)
    ensures |s.table.entries| == MAX_ACQUISITIONS && |Step(c, s, e).table.entries| == MAX_ACQUISITIONS + 1
  {
    hide TableValid, Untouched, Inv, Possible, Step, Sourced, EncodeLeaf;
    var crowd := CrowdOf(MAX_ACQUISITIONS);
    s := Facing(crowd);
    FacingValid(c, crowd);
    assert EncodeLeaf(StrangerLeaf()).Some? by { StrangerFits(); }
    e := LeafFromZero(c, env, s, StrangerLeaf(), Stranger());
  }

  lemma StrangerFits()
    ensures EncodeLeaf(StrangerLeaf()).Some?
  {}

  /** Any leaf from source 0 that answers the active job and names one unknown ID adds
      it, full or not. */
  lemma LeafFromZero(c: Config, env: Env, s: State, leaf: RadixLeaf, id: ID) returns (e: Event)
    requires c.id != 0 && c.id != BROADCAST && EncodeLeaf(leaf).Some? && leaf.ids == [id]
    requires s.jobs.active.Some? && s.jobs.active.value.peer == 0
    requires leaf.generation == s.jobs.active.value.generation && leaf.prefix == s.jobs.active.value.prefix
    requires s.inventory == [] && s.disk == map[] && id !in s.table.entries
    ensures Possible(c, s, e) && !Sourced(e)
    ensures |Step(c, s, e).table.entries| == |s.table.entries| + 1
  {
    hide EncodeLeaf, DecodeLeaf, Decode, PacketHeader, AcceptLeaf, Receive, Tick;
    LeafReadsBack(leaf);
    var p := Packet(LEAF, 0, c.id, s.jobs.active.value.transaction, EncodeLeaf(leaf).value);
    DecodeEncode(p);
    var pick: Option<ID> := None;
    if x: ID :| RepliesTo(s.table, p, x) {
      pick := Some(x);
    }
    e := Hear(env, PacketHeader(p) + p.body, pick);
    LeafAdds(c, s, env, p, leaf, id);
    LeafReceived(c, s, env, p, pick);
  }

  lemma LeafReceived(c: Config, s: State, env: Env, p: Packet, pick: Option<ID>)
    requires p.kind == LEAF && p.source != c.id && p.destination == c.id != BROADCAST
    ensures Receive(c, s, env, p, pick) == AcceptLeaf(c, s, env, p)
  {}

  lemma MissingOne(id: ID)
    ensures Missing([], [id]) == [id]
  {
    assert [id][..0] == [];
  }

  lemma ConsiderNew(c: Config, s: State, env: Env, id: ID)
    requires s.disk == map[] && id !in s.table.entries
    ensures |ConsiderAll(c, s, env, [id], 0).table.entries| == |s.table.entries| + 1
  {
    assert [id][..0] == [];
    assert ConsiderAll(c, s, env, [id], 0) == Consider(c, s, env, 0, id, 0);
    PutBound(s, id, 0, env.now + Draw(env, 0, 500 * MILLISECOND));
    var u := AddCandidate(s.table, id, 0).value;
    assert u.entries.Keys == s.table.entries.Keys + {id};
    assert |u.entries.Keys| == |u.entries| && |s.table.entries.Keys| == |s.table.entries|;
  }

  lemma LeafAdds(c: Config, s: State, env: Env, p: Packet, leaf: RadixLeaf, id: ID)
    requires Answers(s, p) && p.source == 0 && DecodeLeaf(p.body) == Some(leaf) && leaf.ids == [id]
    requires leaf.generation == s.jobs.active.value.generation && leaf.prefix == s.jobs.active.value.prefix
    requires s.inventory == [] && s.disk == map[] && id !in s.table.entries
    ensures |AcceptLeaf(c, s, env, p).table.entries| == |s.table.entries| + 1
  {
    MissingOne(id);
    ConsiderNew(c, s.(jobs := s.jobs.(active := None)), env, id);
    hide DecodeLeaf, ConsiderAll, Missing;
  }
}
