/** Acquisitions that were last asked under one number at one source: when there are none,
    and how the transaction counter makes them. */
module Namesakes {
  import opened Bytes
  import opened Seqs
  import opened Radix
  import opened Manifests
  import opened Assemblies
  import opened Stores
  import opened NodeProtocol
  import opened Scheduler
  import opened NodeState
  import opened NodeSteps
  import opened NodeInvariants
  import opened NodeSafety
  import opened NodeResults
  import opened NodeGate
  import opened NodeFrames
  import opened NodeOutcomes
  import opened Numbering
  import opened Demultiplexer
  import Network

  // ---- which acquisition a number goes to ---------------------------------------------

  /** An acquisition asks nobody, or was last asked as before. */
  ghost predicate SameNumber(t: Table, u: Table, id: ID) {
    id in u.entries && u.entries[id].activeSource != 0 ==>
      id in t.entries && u.entries[id].transaction == t.entries[id].transaction && u.entries[id].activeSource == t.entries[id].activeSource
  }

  lemma SameNumberTrans(t: Table, u: Table, v: Table, id: ID)
    requires SameNumber(t, u, id) && SameNumber(u, v, id)
    ensures SameNumber(t, v, id)
  {}

  lemma AddAtNumber(s: State, other: ID, source: NodeID, when: Time, id: ID)
    ensures SameNumber(s.table, AddAt(s, other, source, when).table, id)
  {
    hide AddCandidate, AddSource;
    if AddCandidate(s.table, other, source).Some? {
      AddCandidateEntries(s.table, other, source);
      AddSourceSame(if other in s.table.entries then s.table.entries[other] else NEW_ACQUISITION, source);
    }
  }

  lemma {:induction false} ConsiderAllNumber(c: Config, s: State, env: Env, ids: seq<ID>, source: NodeID, id: ID)
    ensures SameNumber(s.table, ConsiderAll(c, s, env, ids, source).table, id)
  {
    hide AddAt, CompleteOn, HasKnown, SourceInspected, SameNumber;
    SelfNumber(s.table, id);
    if ids != [] {
      var n := |ids| - 1;
      var front := ConsiderAll(c, s, env, ids[..n], source);
      ConsiderAllNumber(c, s, env, ids[..n], source, id);
      SelfNumber(front.table, id);
      AddAtNumber(front, ids[n], source, env.now, id);
      AddAtNumber(front, ids[n], source, env.now + Draw(env, n, 500 * MILLISECOND), id);
      SameNumberTrans(s.table, front.table, Consider(c, front, env, n, ids[n], source).table, id);
    }
  }

  lemma SelfNumber(t: Table, id: ID)
    ensures SameNumber(t, t, id)
  {}

  lemma LeafNumber(c: Config, s: State, env: Env, p: Packet, id: ID)
    ensures SameNumber(s.table, AcceptLeaf(c, s, env, p).table, id)
  {
    hide DecodeLeaf, Missing, ConsiderAll;
    if Answers(s, p) && DecodeLeaf(p.body).Some? {
      ConsiderAllNumber(c, s.(jobs := s.jobs.(active := None)), env, Missing(s.inventory, DecodeLeaf(p.body).value.ids), p.source, id);
    }
  }

  lemma OtherNumber(c: Config, s: State, t: State, other: ID, id: ID)
    requires OwnStep(c, s, t, other) && other != id
    ensures SameNumber(s.table, t.table, id)
  {
    hide RemoveFirst, Inventory;
  }

  lemma FinishNumber(c: Config, s: State, env: Env, id: ID, a: Acquisition, parts: Assembled, w: seq<WriteResult>,
                     spoiled: Disk -> (Disk, Option<Assembled>))
    requires |w| == 3 && id in s.table.entries
    ensures SameNumber(s.table, Finish(c, s, env, id, a, parts, w, spoiled).table, id)
  {
    hide CommitOn, OwnStep, RemoveFirst, ClearInspected, Backoff, Inventory;
  }

  lemma TakeNumber(c: Config, s: State, env: Env, id: ID, a: Acquisition, chunk: ChunkData)
    requires id in s.table.entries && s.table.entries[id] == a && a.assembly.Some?
    ensures SameNumber(s.table, TakeChunk(c, s, env, id, a, chunk).table, id)
  {
    hide AddOn, Finish, Restarted, OwnStep;
    var (disk, added) := AddOn(s.disk, a.assembly.value, chunk.index, chunk.data, env.write(0));
    if added.Ok? && added.value.Whole() {
      FinishNumber(c, s.(disk := disk), env, id, a.(assembly := Some(added.value), wanted := a.wanted - {chunk.index}),
                   added.value, [env.write(1), env.write(2), env.write(3)], d => Restarted(d, added.value, env));
    }
  }

  lemma StartNumber(c: Config, s: State, env: Env, id: ID, a: Acquisition, m: Manifest)
    requires id in s.table.entries && s.table.entries[id] == a
    ensures SameNumber(s.table, StartAssembly(c, s, env, id, a, m).table, id)
  {
    hide BeginOn, Finish, RemoveOn, OwnStep, Backoff;
    var (disk, begun) := BeginOn(s.disk, m, env.write(1));
    if begun.Ok? && begun.value.Whole() {
      FinishNumber(c, s.(disk := disk), env, id, a.(assembly := Some(begun.value), manifest := None, manifestSource := 0),
                   begun.value, [env.write(2), env.write(3), env.write(4)], d => (RemoveOn(d, id, env.order), None));
    }
  }

  lemma JudgeNumber(c: Config, s: State, env: Env, id: ID, a: Acquisition, m: Manifest, source: NodeID)
    requires id in s.table.entries && s.table.entries[id] == a
    ensures SameNumber(s.table, Judge(c, s, env, id, a, m, source).table, id)
  {
    hide Accept, StartAssembly, SignatureHolds, OwnStep, MarkInspected, ClearInspected, SaveKnownOn, RemoveFirst, Backoff;
    var marked := s.(inspected := MarkInspected(s.inspected, m.id, source));
    StartNumber(c, marked.(disk := SaveKnownOn(s.disk, m, env.write(0)).0), env, id, a, m);
  }

  lemma OwnNumber(c: Config, s: State, env: Env, p: Packet, id: ID)
    requires id in s.table.entries
    ensures SameNumber(s.table, AcceptSignature(c, s, env, p, Some(id)).table, id)
    ensures SameNumber(s.table, AcceptChunk(c, s, env, p, Some(id)).table, id)
    ensures SameNumber(s.table, AcceptManifest(c, s, env, p, Some(id)).table, id)
  {
    hide Judge, TakeChunk, DecodeSignature, DecodeChunk, Manifests.DecodeManifest, OwnStep, Backoff;
    var a := s.table.entries[id];
    if a.manifest.Some? && DecodeSignature(p.body).Some? {
      JudgeNumber(c, s, env, id, a, Signed(a.manifest.value, DecodeSignature(p.body).value), p.source);
    }
    if a.assembly.Some? && DecodeChunk(p.body).Some? {
      TakeNumber(c, s, env, id, a, DecodeChunk(p.body).value);
    }
  }

  /** What is heard gives no number to anybody. */
  lemma ReceiveNumber(c: Config, s: State, env: Env, p: Packet, pick: Option<ID>, id: ID)
    ensures SameNumber(s.table, Receive(c, s, env, p, pick).table, id)
  {
    hide RootSummary, AcceptSummary, AcceptLeaf, AcceptManifest, AcceptChunk, AcceptSignature, ServeManifest,
         ServeSignature, ServeSummary, ServeChunks, OwnStep, SameNumber;
    SelfNumber(s.table, id);
    LeafNumber(c, s, env, p, id);
    var t := Receive(c, s, env, p, pick);
    if pick == Some(id) && id in s.table.entries {
      OwnNumber(c, s, env, p, id);
    } else if pick.Some? && pick.value != id && OwnStep(c, s, t, pick.value) {
      OtherNumber(c, s, t, pick.value, id);
    }
  }

  /** This acquisition alone may have been asked under the present number. */
  ghost predicate NumbersOnly(s: State, t: State, own: ID) {
    && (own in t.table.entries && t.table.entries[own].activeSource != 0 ==> t.table.entries[own].transaction == t.tx)
    && forall id :: id != own ==> SameNumber(s.table, t.table, id)
  }

  /** No acquisition gets a number, or the counter moves on and one does. */
  ghost predicate Renumbers(s: State, t: State) {
    || (forall id :: SameNumber(s.table, t.table, id))
    || (t.tx == NextTransaction(s.tx) && exists own :: NumbersOnly(s, t, own))
  }

  lemma InitiateNumber(c: Config, s: State, env: Env, own: ID)
    requires own in s.table.entries && |s.table.entries[own].sources| > 0
    ensures NumbersOnly(s, Initiate(c, s, env, own), own) && Initiate(c, s, env, own).tx == NextTransaction(s.tx)
  {
    hide Outgoing, BatchFrom, Bitmap, SourceOf, Backoff;
  }

  lemma ExpireNumber(s: State, env: Env, id: ID)
    ensures SameNumber(s.table, ExpireAcquisitions(s, env).table, id)
  {
    hide Backoff;
  }

  lemma WorkNumbers(c: Config, s: State, env: Env)
    ensures Renumbers(s, WorkOrReconcile(c, s, env))
  {
    hide InitiateReconcile, Initiate, NextWork, SameNumber;
    forall id ensures SameNumber(s.table, s.table, id) { SelfNumber(s.table, id); }
    match NextWork(s.table, env.now, 0)
    case Some(i) =>
      var turned := s.(table := s.table.(cursor := (i + 1) % |s.table.order|));
      InitiateNumber(c, turned, env, s.table.order[i]);
      TurnedNumbers(s, turned, WorkOrReconcile(c, s, env), s.table.order[i]);
    case None =>
  }

  lemma TurnedNumbers(s: State, u: State, t: State, own: ID)
    requires u.table.entries == s.table.entries && NumbersOnly(u, t, own)
    ensures NumbersOnly(s, t, own)
  {
    forall id | id != own ensures SameNumber(s.table, t.table, id) {
      assert SameNumber(u.table, t.table, id);
    }
  }

  lemma TickNumbers(c: Config, s: State, env: Env)
    requires Inv(c, s)
    ensures Renumbers(s, Tick(c, s, env))
  {
    var u := ExpireJob(ExpireAcquisitions(s, env), env);
    Network.ExpiredShallow(c, s, env);
    Network.ReconcileCounts(c, u, env);
    WorkNumbers(c, u, env);
    hide Inv, InitiateReconcile, WorkOrReconcile, HasOutstanding, SummaryOf, EncodeSummary, Jitter, Inventory, Outgoing, ExpireAcquisitions,
         SameNumber, Network.Counts, Network.Shallow;
    forall id ensures SameNumber(s.table, u.table, id) && SameNumber(u.table, u.table, id) {
      ExpireNumber(s, env, id);
      SelfNumber(u.table, id);
    }
    assert Renumbers(u, Tick(c, s, env));
    ExpiredNumbers(s, u, Tick(c, s, env));
  }

  lemma ExpiredNumbers(s: State, u: State, t: State)
    requires u.tx == s.tx && Renumbers(u, t) && forall id :: SameNumber(s.table, u.table, id)
    ensures Renumbers(s, t)
  {
    hide SameNumber;
    forall id | SameNumber(u.table, t.table, id) ensures SameNumber(s.table, t.table, id) {
      SameNumberTrans(s.table, u.table, t.table, id);
    }
    if own :| NumbersOnly(u, t, own) {
      assert NumbersOnly(s, t, own);
    }
  }

  lemma StepNumbers(c: Config, s: State, e: Event)
    requires Inv(c, s)
    ensures Renumbers(s, Step(c, s, e))
  {
    hide Inv, Receive, Tick, Decode, SameNumber;
    forall id ensures SameNumber(s.table, s.table, id) { SelfNumber(s.table, id); }
    match e
    case Hear(env, data, pick) =>
      if Decode(data).Some? {
        forall id ensures SameNumber(s.table, Step(c, s, e).table, id) {
          ReceiveNumber(c, s, env, Decode(data).value, pick, id);
        }
      }
    case Clock(env) => TickNumbers(c, s, env);
    case Outside(_) =>
  }

  // ---- the first round of the counter -------------------------------------------------

  /** Whoever is asked was asked under the number of one of the first n turns, and nobody
      else was. */
  ghost predicate Apart(t: Table, first: U16, n: nat) {
    && (forall id :: id in t.entries && t.entries[id].activeSource != 0 ==> OfTurn(t.entries[id].transaction, first, n))
    && forall id, other :: id in t.entries && other in t.entries && id != other
                           && t.entries[id].activeSource != 0 && t.entries[other].activeSource != 0 ==>
         t.entries[id].transaction != t.entries[other].transaction
  }

  lemma MoreTurns(transaction: U16, first: U16, n: nat)
    requires OfTurn(transaction, first, n)
    ensures OfTurn(transaction, first, n + 1)
    ensures n < 0x1_0000 ==> transaction != Number(first, n + 1)
  {
    var m: nat :| 1 <= m <= n && transaction == Number(first, m);
    if n < 0x1_0000 {
      NumbersDiffer(first, m, n + 1);
    }
  }

  lemma StaysApart(s: State, t: State, first: U16, n: nat)
    requires Renumbers(s, t) && Apart(s.table, first, n) && s.tx == Number(first, n)
    requires t.tx == s.tx || (t.tx == NextTransaction(s.tx) && n < 0x1_0000)
    ensures var m := if t.tx == s.tx then n else n + 1; t.tx == Number(first, m) && Apart(t.table, first, m)
  {
    hide OfTurn;
    forall id | id in s.table.entries && s.table.entries[id].activeSource != 0
      ensures t.tx != s.tx ==> OfTurn(s.table.entries[id].transaction, first, n + 1) && s.table.entries[id].transaction != t.tx {
      MoreTurns(s.table.entries[id].transaction, first, n);
    }
    if t.tx != s.tx {
      assert OfTurn(t.tx, first, n + 1) by { Latest(first, n + 1); }
    }
    if forall id :: SameNumber(s.table, t.table, id) {
      assert forall id :: id in t.table.entries ==> SameNumber(s.table, t.table, id);
    } else {
      var own :| NumbersOnly(s, t, own);
      assert forall id :: id in t.table.entries && id != own ==> SameNumber(s.table, t.table, id);
    }
  }

  lemma Latest(first: U16, n: nat)
    requires n >= 1
    ensures OfTurn(Number(first, n), first, n)
  {}

  lemma {:induction false} EarlyApart(c: Config, states: seq<State>, events: seq<Event>, k: nat)
    requires Run(c, states, events) && Inv(c, states[0]) && k < |states|
    requires (forall id :: id in states[0].table.entries ==> states[0].table.entries[id].activeSource == 0) && Turns(states, k) <= 0x1_0000
    ensures states[k].tx == Number(states[0].tx, Turns(states, k)) && Apart(states[k].table, states[0].tx, Turns(states, k))
  {
    hide Inv, Step, Possible;
    if k > 0 {
      hide Number, Apart, Network.Counts, Renumbers;
      EarlyApart(c, states, events, k - 1);
      RunKeeps(c, states, events, k - 1);
      StepNumbers(c, states[k - 1], events[k - 1]);
      NextOrSame(c, states[k - 1], events[k - 1]);
      StaysApart(states[k - 1], states[k], states[0].tx, Turns(states, k - 1));
    }
  }

  lemma NextOrSame(c: Config, s: State, e: Event)
    requires Inv(c, s)
    ensures Step(c, s, e).tx == s.tx || Step(c, s, e).tx == NextTransaction(s.tx)
  {
    hide Inv, Step;
    Network.StepCounts(c, s, e);
  }

  /** Until the counter has been round once, nobody has a namesake: the number that an
      acquisition was last asked under is its own, and the next one is new. */
  lemma EarlySole(c: Config, states: seq<State>, events: seq<Event>, k: nat, id: ID, source: NodeID)
    requires Run(c, states, events) && Inv(c, states[0]) && k < |states|
    requires (forall other :: other in states[0].table.entries ==> states[0].table.entries[other].activeSource == 0) && Turns(states, k) < 0x1_0000
    requires source != 0
    ensures Sole(states[k].table, id, source, NextTransaction(states[k].tx))
    ensures id in states[k].table.entries && states[k].table.entries[id].activeSource == source ==>
              Sole(states[k].table, id, source, states[k].table.entries[id].transaction)
  {
    hide Inv, Run, Apart, Sole, Turns, Number, NextTransaction;
    EarlyApart(c, states, events, k);
    ApartSole(states[k].table, states[0].tx, Turns(states, k), id, source);
    assert NextTransaction(states[k].tx) == Number(states[0].tx, Turns(states, k) + 1) by { NextNumber(states[0].tx, Turns(states, k)); }
  }

  lemma NextNumber(first: U16, n: nat)
    ensures NextTransaction(Number(first, n)) == Number(first, n + 1)
  {}

  lemma ApartSole(t: Table, first: U16, n: nat, id: ID, source: NodeID)
    requires Apart(t, first, n) && n < 0x1_0000 && source != 0
    ensures Sole(t, id, source, Number(first, n + 1))
    ensures id in t.entries && t.entries[id].activeSource == source ==> Sole(t, id, source, t.entries[id].transaction)
  {
    hide OfTurn, Number;
    forall other | other in t.entries && t.entries[other].activeSource == source ensures t.entries[other].transaction != Number(first, n + 1) {
      MoreTurns(t.entries[other].transaction, first, n);
    }
  }

  /** A node that starts has asked nobody. */
  lemma BootedAsks(c: Config, b: Boot, id: ID)
    requires id in Booted(c, b).table.entries
    ensures Booted(c, b).table.entries[id].activeSource == 0
  {
    var blank := Blank(c, b.disk, b.tx, b.env);
    hide StartPartials, StartWanted, Inventory;
    PartialsNumber(c, blank, b.env, b.partials, id);
    WantedNumber(StartPartials(c, blank, b.env, b.partials), b.wanted, id);
  }

  lemma OwnKeepsNumber(s: State, own: ID, id: ID)
    ensures SameNumber(s.table, Own(s, own).table, id)
  {}

  lemma {:induction false} PartialsNumber(c: Config, s: State, env: Env, ids: seq<ID>, id: ID)
    ensures SameNumber(s.table, StartPartials(c, s, env, ids).table, id)
  {
    hide StartPartial, SameNumber;
    SelfNumber(s.table, id);
    if ids != [] {
      var n := |ids| - 1;
      var front := StartPartials(c, s, env, ids[..n]);
      PartialsNumber(c, s, env, ids[..n], id);
      PartialNumber(c, front, env, n, ids[n], id);
      SameNumberTrans(s.table, front.table, StartPartials(c, s, env, ids).table, id);
    }
  }

  lemma PartialNumber(c: Config, s: State, env: Env, k: nat, own: ID, id: ID)
    ensures SameNumber(s.table, StartPartial(c, s, env, k, own).table, id)
  {
    hide LoadPartialOn, RemoveOn, Accept, Own;
    var disk := LoadPartialOn(s.disk, own, env.write(k)).0;
    OwnKeepsNumber(s.(disk := disk), own, id);
    OwnKeepsNumber(s.(disk := RemoveOn(disk, own, env.order)), own, id);
    OwnSame(s.(disk := disk), own, id);
  }

  lemma {:induction false} WantedNumber(s: State, ids: seq<ID>, id: ID)
    ensures SameNumber(s.table, StartWanted(s, ids).table, id)
  {
    hide Own, SameNumber;
    SelfNumber(s.table, id);
    if ids != [] {
      var front := StartWanted(s, ids[..|ids| - 1]);
      WantedNumber(s, ids[..|ids| - 1], id);
      OwnKeepsNumber(front, ids[|ids| - 1], id);
      SameNumberTrans(s.table, front.table, StartWanted(s, ids).table, id);
    }
  }
}
