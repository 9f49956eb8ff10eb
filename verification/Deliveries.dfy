/** From exchange to exchange: after at most as many as there are chunks missing, all of the
    content is there. */
module Deliveries {
  import opened Bytes
  import opened Seqs
  import opened Radix
  import opened Manifests
  import opened Assemblies
  import opened Stores
  import opened NodeProtocol
  import opened Scheduler
  import opened NodeState
  import opened NodeSteps
  import opened NodeInvariants
  import opened NodeSafety
  import opened NodeFrames
  import opened NodeOutcomes
  import opened NodeVerdicts
  import opened Fairness
  import opened Transfer
  import opened TransferRuns
  import opened Demultiplexer
  import opened Exchanges

  // ---- how much has arrived -----------------------------------------------------------

  ghost function Upto(n: nat): (r: set<nat>)
    ensures |r| == n && forall i :: i in r <==> 0 <= i < n
  {
    if n == 0 then {} else Upto(n - 1) + {n - 1}
  }

  /** The number of chunks that have arrived. */
  ghost function Arrived(p: Parts): (n: nat)
    ensures n <= |p.received| && (n == |p.received| ==> p.Whole())
  {
    GotCount(p);
    |Got(p)|
  }

  lemma Smaller(a: set<nat>, b: set<nat>)
    requires a <= b
    ensures |a| <= |b| && (|a| == |b| ==> a == b)
  {
    assert b == a + (b - a);
  }

  lemma GotCount(p: Parts)
    ensures |Got(p)| <= |p.received| && (|Got(p)| == |p.received| ==> p.Whole())
  {
    Smaller(Got(p), Upto(|p.received|));
    if |Got(p)| == |p.received| {
      forall i | 0 <= i < |p.received| ensures p.received[i] {
        assert i in Upto(|p.received|);
      }
    }
  }

  lemma MoreArrived(p: Parts, q: Parts, wanted: set<nat>)
    requires Got(p) + wanted <= Got(q)
    ensures Arrived(p) <= Arrived(q)
    ensures wanted != {} && wanted * Got(p) == {} ==> Arrived(p) < Arrived(q)
  {
    Smaller(Got(p), Got(q));
    if i :| i in wanted {
      assert i in Got(q) && (i in Got(p) ==> i in wanted * Got(p));
    }
  }

  /** The acquisition has ended by state k, with the content complete. */
  ghost predicate CompletedBy(c: Config, states: seq<State>, k: nat, id: ID, content: seq<byte>)
    requires k < |states|
  {
    exists j :: 0 <= j < k && Completed(c, states[j], states[j + 1], id, content)
  }

  /** By state k at least n of the content's chunks have arrived. */
  ghost predicate Holds(c: Config, states: seq<State>, k: nat, id: ID, content: seq<byte>, size: nat, n: int)
    requires k < |states|
  {
    Faithful(c, states[k], id, content) && var p := states[k].table.entries[id].assembly.value; |p.received| == size && Arrived(p) >= n
  }

  ghost predicate HonestRun(states: seq<State>, events: seq<Event>, id: ID, content: seq<byte>) {
    |states| == |events| + 1 && forall i :: 0 <= i < |events| ==> HonestSources(states[i], events[i], id, content)
  }

  // ---- between exchanges --------------------------------------------------------------

  lemma StepHolds(c: Config, states: seq<State>, events: seq<Event>, k: nat, id: ID, content: seq<byte>, size: nat, n: int)
    requires Run(c, states, events) && k < |events| && Inv(c, states[k]) && HonestSources(states[k], events[k], id, content)
    requires Holds(c, states, k, id, content, size, n)
    ensures CompletedBy(c, states, k + 1, id, content) || Holds(c, states, k + 1, id, content, size, n)
  {
    hide Inv, Step, Possible, HonestSources, Agrees, Describes, Got, Arrived, Delivered;
    var s, e := states[k], events[k];
    StepFaithful(c, s, e, id, content);
    if id in states[k + 1].table.entries {
      GotStays(c, s, e, id, content);
      ManifestStays(c, s, e, id);
      MoreArrived(s.table.entries[id].assembly.value, states[k + 1].table.entries[id].assembly.value, {});
    } else {
      assert Completed(c, states[k], states[k + 1], id, content);
    }
  }

  /** What has arrived stays, until the content is complete. */
  lemma {:induction false} HoldsOn(c: Config, states: seq<State>, events: seq<Event>, j: nat, k: nat, id: ID, content: seq<byte>, size: nat, n: int)
    requires Run(c, states, events) && Inv(c, states[0]) && HonestRun(states, events, id, content) && j <= k < |states|
    requires Holds(c, states, j, id, content, size, n)
    ensures CompletedBy(c, states, k, id, content) || Holds(c, states, k, id, content, size, n)
  {
    hide Inv, Step, Possible, HonestSources, Holds, Completed;
    if j < k {
      HoldsOn(c, states, events, j, k - 1, id, content, size, n);
      if Holds(c, states, k - 1, id, content, size, n) {
        RunKeeps(c, states, events, k - 1);
        StepHolds(c, states, events, k - 1, id, content, size, n);
      }
    }
  }

  // ---- exchanges ----------------------------------------------------------------------

  ghost predicate Unfinished(s: State, id: ID) {
    id in s.table.entries && s.table.entries[id].assembly.Some? && !s.table.entries[id].assembly.value.Whole()
  }

  ghost predicate ExchangedAt(c: Config, states: seq<State>, events: seq<Event>, j: nat, k: nat, pos: nat, id: ID, content: seq<byte>,
                              cs: Config, v: State, served: Env, pick: Option<ID>)
    requires |states| == |events| + 1 && j < k < |states|
  {
    Exchanged(c, states[j..], events[j..], k - j, pos, id, content, cs, v, served, pick)
  }

  /** Events j to k make up an exchange of this acquisition with some node. */
  ghost predicate Answered(c: Config, states: seq<State>, events: seq<Event>, j: nat, k: nat, id: ID, content: seq<byte>)
    requires |states| == |events| + 1
  {
    j < k < |states| && exists pos, cs, v, served, pick :: ExchangedAt(c, states, events, j, k, pos, id, content, cs, v, served, pick)
  }

  lemma GainedHolds(c: Config, states: seq<State>, j: nat, k: nat, id: ID, content: seq<byte>, size: nat, n: int, wanted: set<nat>)
    requires j < k < |states| && Holds(c, states, j, id, content, size, n)
    requires Gained(c, states[j..], k - j, id, content, Got(states[j].table.entries[id].assembly.value), wanted)
    requires wanted != {} && wanted * Got(states[j].table.entries[id].assembly.value) == {}
    requires Holds(c, states, k, id, content, size, n)
    ensures CompletedBy(c, states, k, id, content) || Holds(c, states, k, id, content, size, n + 1)
  {
    hide Agrees, Describes, Got, Arrived, Delivered, Completed;
    assert states[j..][k - j] == states[k];
    var p, q := states[j].table.entries[id].assembly.value, states[k].table.entries[id].assembly.value;
    if i :| 0 <= i < k - j && Completed(c, states[j..][i], states[j..][i + 1], id, content) {
      assert Completed(c, states[j + i], states[j + i + 1], id, content);
    } else {
      MoreArrived(p, q, wanted);
    }
  }

  /** An exchange brings at least one chunk. */
  lemma AnsweredHolds(c: Config, states: seq<State>, events: seq<Event>, j: nat, k: nat, id: ID, content: seq<byte>, size: nat, n: int)
    requires Run(c, states, events) && Inv(c, states[0]) && HonestRun(states, events, id, content)
    requires Answered(c, states, events, j, k, id, content) && Holds(c, states, j, id, content, size, n)
    ensures CompletedBy(c, states, k, id, content) || Holds(c, states, k, id, content, size, n + 1)
  {
    hide Run, Inv, Exchanged, Holds, Got, Gained, HonestSources, CompletedBy;
    var pos, cs, v, served, pick :| ExchangedAt(c, states, events, j, k, pos, id, content, cs, v, served, pick);
    FullExchange(c, states[j..], events[j..], k - j, pos, id, content, cs, v, served, pick);
    HoldsOn(c, states, events, j, k, id, content, size, n);
    if Holds(c, states, k, id, content, size, n) {
      HoldsSome(c, states, j, id, content, size, n);
      GainedHolds(c, states, j, k, id, content, size, n, states[j..][1].table.entries[id].wanted);
    }
  }

  lemma HoldsSome(c: Config, states: seq<State>, k: nat, id: ID, content: seq<byte>, size: nat, n: int)
    requires k < |states| && Holds(c, states, k, id, content, size, n)
    ensures id in states[k].table.entries && states[k].table.entries[id].assembly.Some?
  {}

  // ---- all of them --------------------------------------------------------------------

  /** Visits follow each other in the run, and each of them is an exchange if there is
      something left to ask for when it begins. */
  ghost predicate Visits(c: Config, states: seq<State>, events: seq<Event>, visits: seq<(nat, nat)>, id: ID, content: seq<byte>) {
    && |states| == |events| + 1
    && (forall n :: 0 <= n < |visits| ==> visits[n].0 < visits[n].1 < |states|)
    && (forall n :: 1 <= n < |visits| ==> visits[n - 1].1 <= visits[n].0)
    && forall n :: 0 <= n < |visits| && Unfinished(states[visits[n].0], id) ==>
         Answered(c, states, events, visits[n].0, visits[n].1, id, content)
  }

  /** Each visit brings a chunk, until none is missing. */
  lemma {:induction false} VisitsBring(c: Config, states: seq<State>, events: seq<Event>, visits: seq<(nat, nat)>, n: nat, id: ID, content: seq<byte>,
                                       size: nat, first: nat)
    requires Run(c, states, events) && Inv(c, states[0]) && HonestRun(states, events, id, content)
    requires Visits(c, states, events, visits, id, content) && n <= |visits|
    requires Holds(c, states, 0, id, content, size, first) && first + n <= size
    ensures var k := if n == 0 then 0 else visits[n - 1].1;
            CompletedBy(c, states, k, id, content) || Holds(c, states, k, id, content, size, first + n)
  {
    hide Run, Inv, HonestRun, Holds, CompletedBy, Answered, Unfinished;
    if n > 0 {
      VisitsBring(c, states, events, visits, n - 1, id, content, size, first);
      var end, j, k := if n == 1 then 0 else visits[n - 2].1, visits[n - 1].0, visits[n - 1].1;
      if CompletedBy(c, states, end, id, content) {
        CompletedLater(c, states, end, k, id, content);
      } else {
        HoldsOn(c, states, events, end, j, id, content, size, first + n - 1);
        if CompletedBy(c, states, j, id, content) {
          CompletedLater(c, states, j, k, id, content);
        } else if Unfinished(states[j], id) {
          AnsweredHolds(c, states, events, j, k, id, content, size, first + n - 1);
        } else {
          FinishedHolds(c, states, j, id, content, size, first + n - 1, first + n);
          HoldsOn(c, states, events, j, k, id, content, size, first + n);
        }
      }
    }
  }

  lemma CompletedLater(c: Config, states: seq<State>, j: nat, k: nat, id: ID, content: seq<byte>)
    requires j <= k < |states| && CompletedBy(c, states, j, id, content)
    ensures CompletedBy(c, states, k, id, content)
  {
    hide Completed;
  }

  /** A whole assembly holds every chunk. */
  lemma FinishedHolds(c: Config, states: seq<State>, k: nat, id: ID, content: seq<byte>, size: nat, n: int, m: nat)
    requires k < |states| && Holds(c, states, k, id, content, size, n) && !Unfinished(states[k], id) && m <= size
    ensures Holds(c, states, k, id, content, size, m)
  {
    hide Agrees, Describes, Got;
    WholeArrived(states[k].table.entries[id].assembly.value);
  }

  lemma WholeArrived(p: Parts)
    requires p.Whole()
    ensures Arrived(p) == |p.received|
  {
    assert Upto(|p.received|) <= Got(p);
    Smaller(Upto(|p.received|), Got(p));
  }

  // ---- what becomes of it ---------------------------------------------------------------

  /** An assembly of the content that becomes whole and stays was hindered in its commit. */
  lemma BecomesWhole(c: Config, s: State, e: Event, id: ID, content: seq<byte>)
    requires Inv(c, s) && Possible(c, s, e) && Faithful(c, s, id, content) && HonestSources(s, e, id, content)
    requires !s.table.entries[id].assembly.value.Whole()
    requires id in Step(c, s, e).table.entries && Step(c, s, e).table.entries[id].assembly.Some?
    requires Step(c, s, e).table.entries[id].assembly.value.Whole()
    ensures HinderedAt(c, s, e, id)
  {
    hide Inv, Step, Possible, Agrees, Describes, HonestSources, Index, IsAnswer, Decode, Faithful, Passed, ContentOf, Completes;
    FaithfulSome(c, s, id, content);
    if e.Hear? && Decode(e.data).Some? && e.pick == Some(id) && Decode(e.data).value.kind == CHUNK {
      if !s.table.entries[id].waiting.ForChunks? {
        NotWaiting(c, s, e, id);
      } else {
        ChunkStep(c, s, e, id);
        LastOfIt(c, s, e, id, content);
      }
    } else if e.Hear? && Decode(e.data).Some? && e.pick == Some(id) && Decode(e.data).value.kind == SIGNATURE {
      SignaturePast(c, s, e, id);
    } else {
      OtherSame(c, s, e, id);
    }
  }

  lemma LastOfIt(c: Config, s: State, e: Event, id: ID, content: seq<byte>)
    requires Inv(c, s) && Possible(c, s, e) && Faithful(c, s, id, content) && HonestSources(s, e, id, content)
    requires e.Hear? && Decode(e.data).Some? && e.pick == Some(id) && s.table.entries[id].waiting.ForChunks?
    requires var a := s.table.entries[id]; IsAnswer(c, e, a.activeSource, a.transaction) && Index(e) in a.wanted
    requires !s.table.entries[id].assembly.value.Whole()
    requires var a, chunk := s.table.entries[id], DecodeChunk(Decode(e.data).value.body).value;
             var t := TakeChunk(c, s, e.env, id, a, chunk);
             t == Step(c, s, e) && id in t.table.entries && t.table.entries[id].assembly.Some? && t.table.entries[id].assembly.value.Whole()
    ensures HinderedAt(c, s, e, id)
  {
    hide Inv, Step, Possible, Agrees, Describes, HonestSources, Decode, DecodeChunk, Faithful, TakeChunk, AddChunk, OwnStep, Hindered, AddOn;
    FaithfulSome(c, s, id, content);
    TakeReady(c, s, e, id, content);
    var a, chunk := s.table.entries[id], DecodeChunk(Decode(e.data).value.body).value;
    TakeAdds(c, s, e.env, id, a, chunk);
    var q := AddChunk(a.assembly.value, chunk.index, chunk.data).value;
    assert e.env.write(0).Written? && q.Whole();
    WholeOk(c.sha, q);
    hide ContentOf;
    assert Completes(c, s, e, id);
    LastChunk(c, s, e, id);
  }

  lemma WholeOk(sha: Hash, p: Parts)
    requires p.Whole() && ContentOf(sha, p) != Err(HashMismatch)
    ensures ContentOf(sha, p).Ok?
  {}

  /** Some event of the run was the last chunk, and something hindered its commit. */
  ghost predicate HinderedBy(c: Config, states: seq<State>, events: seq<Event>, k: nat, id: ID)
    requires k <= |events| < |states|
  {
    exists j :: 0 <= j < k && HinderedAt(c, states[j], events[j], id)
  }

  lemma {:induction false} WholeWasHindered(c: Config, states: seq<State>, events: seq<Event>, k: nat, id: ID, content: seq<byte>)
    requires Run(c, states, events) && Inv(c, states[0]) && HonestRun(states, events, id, content) && k <= |events|
    requires Faithful(c, states[0], id, content) && Faithful(c, states[k], id, content) && !CompletedBy(c, states, k, id, content)
    requires states[k].table.entries[id].assembly.value.Whole()
    ensures states[0].table.entries[id].assembly.value.Whole() || HinderedBy(c, states, events, k, id)
  {
    hide Inv, Step, Possible, HonestSources, Agrees, Describes, HinderedAt, Completed;
    if k > 0 {
      EndToEnd(c, states, events, k - 1, id, content);
      assert Faithful(c, states[k - 1], id, content);
      if states[k - 1].table.entries[id].assembly.value.Whole() {
        WholeWasHindered(c, states, events, k - 1, id, content);
      } else {
        RunKeeps(c, states, events, k - 1);
        BecomesWhole(c, states[k - 1], events[k - 1], id, content);
      }
    }
  }

  /** All of the content is there: complete on disk; or, where something hindered the commit
      or had done so before, it is what the assembly joins to. */
  ghost predicate AllArrived(c: Config, states: seq<State>, events: seq<Event>, id: ID, content: seq<byte>)
    requires |states| == |events| + 1
  {
    || CompletedBy(c, states, |events|, id, content)
    || (Faithful(c, states[|events|], id, content)
        && (var p := states[|events|].table.entries[id].assembly.value; p.Whole() && Joined(p.chunks) == content)
        && (HinderedBy(c, states, events, |events|, id)
            || (id in states[0].table.entries && states[0].table.entries[id].assembly.Some? && states[0].table.entries[id].assembly.value.Whole())))
  }

  /** Everything arrives. From a state in which what has arrived is the content's, over any
      run in which what is heard of it is honest, after as many exchanges as there were
      chunks missing all of the content is there. */
  lemma ContentArrives(c: Config, states: seq<State>, events: seq<Event>, visits: seq<(nat, nat)>, id: ID, content: seq<byte>)
    requires Run(c, states, events) && Inv(c, states[0]) && HonestRun(states, events, id, content)
    requires Faithful(c, states[0], id, content) && Visits(c, states, events, visits, id, content)
    requires var p := states[0].table.entries[id].assembly.value; |visits| >= |p.received| - Arrived(p)
    ensures AllArrived(c, states, events, id, content)
  {
    hide Run, Inv, HonestSources, CompletedBy, Agrees, Describes, Got, Visits, Joined, HinderedBy;
    var p := states[0].table.entries[id].assembly.value;
    var n := |p.received| - Arrived(p);
    VisitsBring(c, states, events, visits, n, id, content, |p.received|, Arrived(p));
    VisitsEnd(c, states, events, visits, n, id, content);
    var k := if n == 0 then 0 else visits[n - 1].1;
    if CompletedBy(c, states, k, id, content) {
      CompletedLater(c, states, k, |events|, id, content);
    } else {
      HoldsOn(c, states, events, k, |events|, id, content, |p.received|, |p.received|);
      if !CompletedBy(c, states, |events|, id, content) {
        FaithfulParts(c, states[|events|], id, content);
        WholeJoins(states[|events|].table.entries[id].assembly.value, content);
        WholeWasHindered(c, states, events, |events|, id, content);
      }
    }
  }

  lemma VisitsEnd(c: Config, states: seq<State>, events: seq<Event>, visits: seq<(nat, nat)>, n: nat, id: ID, content: seq<byte>)
    requires Visits(c, states, events, visits, id, content) && n <= |visits|
    ensures n > 0 ==> visits[n - 1].1 <= |events|
  {}

  // ---- turn by turn -------------------------------------------------------------------

  /** No turn of the acquisition begins between events j and k. */
  ghost predicate NoTurnBetween(c: Config, states: seq<State>, events: seq<Event>, pos: nat, j: nat, k: nat)
    requires |states| == |events| + 1
  {
    forall i :: j < i < k && i < |events| ==> Selected(c, states[i], events[i]) != Some(pos)
  }

  /** Every turn of the acquisition, as long as something is missing, is an exchange that is
      over before its next one. */
  ghost predicate TurnsAnswered(c: Config, states: seq<State>, events: seq<Event>, pos: nat, id: ID, content: seq<byte>)
    requires |states| == |events| + 1
  {
    forall j :: 0 <= j < |events| && Selected(c, states[j], events[j]) == Some(pos) && Unfinished(states[j], id) ==>
      exists k: nat :: Answered(c, states, events, j, k, id, content) && NoTurnBetween(c, states, events, pos, j, k)
  }

  /** The turns among the first k events, as visits. */
  lemma {:induction false} TurnVisits(c: Config, states: seq<State>, events: seq<Event>, pos: nat, k: nat, id: ID, content: seq<byte>)
    returns (visits: seq<(nat, nat)>)
    requires |states| == |events| + 1 && k <= |events| && TurnsAnswered(c, states, events, pos, id, content)
    ensures |visits| == OwnTurns(c, states, events, pos, k) && Visits(c, states, events, visits, id, content)
    ensures visits != [] ==> var (start, end) := visits[|visits| - 1]; start < k && NoTurnBetween(c, states, events, pos, start, end)
  {
    hide Selected, Answered, Unfinished, TurnsAnswered;
    visits := [];
    if k > 0 {
      visits := TurnVisits(c, states, events, pos, k - 1, id, content);
      if Selected(c, states[k - 1], events[k - 1]) == Some(pos) {
        var end := k;
        if Unfinished(states[k - 1], id) {
          end := TurnEnd(c, states, events, pos, k - 1, id, content);
        }
        visits := visits + [(k - 1, end)];
      }
    }
  }

  lemma TurnEnd(c: Config, states: seq<State>, events: seq<Event>, pos: nat, j: nat, id: ID, content: seq<byte>) returns (k: nat)
    requires |states| == |events| + 1 && j < |events| && TurnsAnswered(c, states, events, pos, id, content)
    requires Selected(c, states[j], events[j]) == Some(pos) && Unfinished(states[j], id)
    ensures j < k < |states| && Answered(c, states, events, j, k, id, content) && NoTurnBetween(c, states, events, pos, j, k)
  {
    hide Selected, ExchangedAt, NoTurnBetween, Unfinished;
    k :| Answered(c, states, events, j, k, id, content) && NoTurnBetween(c, states, events, pos, j, k);
  }

  ghost predicate Remains(states: seq<State>, id: ID) {
    forall j :: 0 <= j < |states| ==> id in states[j].table.entries
  }

  /** Everything arrives in turn. An acquisition that stays ready as long as it is there, and
      each of whose turns is answered, has all of the content within as many selections as
      there are chunks missing times acquisitions. */
  lemma ContentArrivesInTurn(c: Config, states: seq<State>, events: seq<Event>, pos: nat, id: ID, content: seq<byte>)
    requires Run(c, states, events) && Inv(c, states[0]) && HonestRun(states, events, id, content)
    requires Faithful(c, states[0], id, content)
    requires Remains(states, id) ==> StaysReady(c, states, events, pos)
    requires TurnsAnswered(c, states, events, pos, id, content)
    requires var p := states[0].table.entries[id].assembly.value;
             Selections(c, states, events, |events|) >= (|p.received| - Arrived(p)) * |states[0].table.order|
    ensures AllArrived(c, states, events, id, content)
  {
    hide Run, Inv, HonestSources, CompletedBy, Agrees, Describes, Got, Visits, Joined, TurnsAnswered, StaysReady, Selections, OwnTurns, Arrived,
         HinderedBy;
    var p := states[0].table.entries[id].assembly.value;
    if Remains(states, id) {
      TurnsCome(c, states, events, pos, |p.received| - Arrived(p));
      var visits := TurnVisits(c, states, events, pos, |events|, id, content);
      ContentArrives(c, states, events, visits, id, content);
    } else {
      var j :| 0 <= j < |states| && id !in states[j].table.entries;
      HoldsOn(c, states, events, 0, j, id, content, |p.received|, 0);
      CompletedLater(c, states, j, |events|, id, content);
    }
  }
}
