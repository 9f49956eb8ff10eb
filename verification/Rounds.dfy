/** How a pair of namesakes comes about: a run through a whole round of the transaction
    counter. */
module Rounds {
  import opened Bytes
  import opened Seqs
  import opened Radix
  import opened Manifests
  import opened Assemblies
  import opened Stores
  import opened NodeProtocol
  import opened Scheduler
  import opened NodeState
  import opened NodeSteps
  import opened NodeInvariants
  import opened NodeSafety
  import opened Fairness
  import opened Numbering
  import opened Transfer
  import opened Demultiplexer
  import opened Exchanges

  // ---- three acquisitions -------------------------------------------------------------

  /** A publication of one octet under any ID. */
  function OneChunk(id: ID): Manifest {
    Manifest(1, id, [97], 1, id + seq(16, _ => 0), 1, 1, None)
  }

  function Shifted(id: ID, n: byte): ID {
    id[0 := (id[0] + n) % 256]
  }

  function AllOf(m: Manifest): Parts {
    Parts(m, [[7]], [true])
  }

  /** Begun, with no chunk yet; last asked under `tx`, and due again at `due`. */
  function Begun(m: Manifest, source: NodeID, tx: U16, due: Time): Acquisition {
    Acquisition([1], 0, source, Some(Fresh(m)), 0, due, 0, tx, Idle, 0, {}, None, 0)
  }

  /** Whole, and not committed: it is always due, takes a number at each of its turns, and
      asks for nothing. */
  function Resting(m: Manifest, tx: U16): Acquisition
    requires AllOf(m).Valid()
  {
    Acquisition([1], 0, 1, Some(AllOf(m)), 0, 0, 0, tx, Idle, 0, {}, None, 0)
  }

  const NOW: Time := 50
  const LATER: Time := 60

  function Three(y: ID, a: Acquisition, x: ID, b: Acquisition, z: ID, d: Acquisition): Table {
    Table(map[y := a, x := b, z := d], [y, x, z], 0)
  }

  lemma ThreeValid(y: ID, a: Acquisition, x: ID, b: Acquisition, z: ID, d: Acquisition)
    requires y != x && x != z && y != z && AcquisitionValid(y, a) && AcquisitionValid(x, b) && AcquisitionValid(z, d)
    ensures TableValid(Three(y, a, x, b, z, d))
  {
    hide AcquisitionValid;
    assert Distinct(Three(y, a, x, b, z, d).order);
  }

  /** Of three that are idle, the last alone is due. */
  lemma ThreeNext(y: ID, a: Acquisition, x: ID, b: Acquisition, z: ID, d: Acquisition, env: Env)
    requires y != x && x != z && y != z && a.waiting.Idle? && b.waiting.Idle? && d.waiting.Idle? && |d.sources| > 0
    requires env.now < a.nextAttempt && env.now < b.nextAttempt && env.now >= d.nextAttempt
    ensures var t := Three(y, a, x, b, z, d); !HasOutstanding(t) && NextWork(t, env.now, 0) == Some(2)
  {
    var t := Three(y, a, x, b, z, d);
    assert NextWork(t, env.now, 2) == Some(2);
    assert NextWork(t, env.now, 1) == Some(2);
  }

  lemma IdleStays(s: State, env: Env)
    requires forall id :: id in s.table.entries ==> s.table.entries[id].waiting.Idle?
    ensures ExpireAcquisitions(s, env) == s
  {
    assert ExpireAcquisitions(s, env).table.entries == s.table.entries;
  }

  /** The first was asked under number 5 and has a pause, the second has asked nobody, the
      third rests. The counter has made k turns since. */
  function Turning(x: Manifest, k: nat): State {
    var y, z := Shifted(x.id, 1), Shifted(x.id, 2);
    assert AllOf(OneChunk(z)).Valid();
    State(Three(y, Begun(OneChunk(y), 1, 5, NOW + PAUSE), x.id, Begun(x, 0, 0, LATER),
                z, Resting(OneChunk(z), if k == 0 then 4 else Number(5, k))),
          Jobs([], None), Peers(map[], []), Inspected(map[], []), Number(5, k), true, 1000 * PAUSE, [], map[], [], map[], 0)
  }

  lemma ShiftedApart(id: ID)
    ensures Shifted(id, 1) != id && Shifted(id, 2) != id && Shifted(id, 1) != Shifted(id, 2)
  {
    assert Shifted(id, 1)[0] != id[0] && Shifted(id, 2)[0] != id[0] && Shifted(id, 1)[0] != Shifted(id, 2)[0];
  }

  lemma BegunValid(m: Manifest, source: NodeID, tx: U16, due: Time)
    requires Storable(m)
    ensures AcquisitionValid(m.id, Begun(m, source, tx, due))
  {
    hide Storable;
  }

  lemma RestingValid(m: Manifest, tx: U16)
    requires Storable(m) && AllOf(m).Valid()
    ensures AcquisitionValid(m.id, Resting(m, tx))
  {
    hide Storable;
  }

  lemma TurningValid(c: Config, x: Manifest, k: nat)
    requires Storable(x) && x.signature.None?
    ensures Inv(c, Turning(x, k))
  {
    ShiftedApart(x.id);
    var y, z := Shifted(x.id, 1), Shifted(x.id, 2);
    assert AllOf(OneChunk(z)).Valid();
    BegunValid(OneChunk(y), 1, 5, NOW + PAUSE);
    BegunValid(x, 0, 0, LATER);
    RestingValid(OneChunk(z), if k == 0 then 4 else Number(5, k));
    ThreeValid(y, Begun(OneChunk(y), 1, 5, NOW + PAUSE), x.id, Begun(x, 0, 0, LATER), z, Resting(OneChunk(z), if k == 0 then 4 else Number(5, k)));
    TurningRests(c, x, k);
    hide Shifted, Storable, TableValid, Number, Gated, OneExchange, Three;
  }

  lemma TurningRests(c: Config, x: Manifest, k: nat)
    requires x.signature.None?
    ensures var s := Turning(x, k); OneExchange(s.table, s.jobs, s.tx) && Gated(c, s.table)
    ensures forall id :: id in Turning(x, k).table.entries ==> Turning(x, k).table.entries[id].waiting.Idle?
  {
    hide Shifted, Number;
  }

  lemma NextInTurns(first: U16, n: nat)
    ensures NextTransaction(Number(first, n)) == Number(first, n + 1)
  {}

  lemma RestingTurn(c: Config, s: State, env: Env, z: ID, m: Manifest)
    requires AllOf(m).Valid() && z in s.table.entries && s.table.entries[z] == Resting(m, s.table.entries[z].transaction)
    ensures Initiate(c, s, env, z)
            == s.(tx := NextTransaction(s.tx), table := s.table.(entries := s.table.entries[z := Resting(m, NextTransaction(s.tx))]))
  {
    BatchExact([true], 0);
    hide BatchFrom, Bitmap, EncodeChunkRequest, Outgoing;
    assert (0 + 1) % 1 == 0;
  }

  lemma TurningNext(c: Config, x: Manifest, k: nat, env: Env)
    requires env.now == NOW && x.signature.None?
    ensures var s := Turning(x, k);
            ExpireAcquisitions(s, env) == s && !HasOutstanding(s.table) && NextWork(s.table, env.now, 0) == Some(2)
  {
    ShiftedApart(x.id);
    TurningRests(c, x, k);
    var y, z := Shifted(x.id, 1), Shifted(x.id, 2);
    assert AllOf(OneChunk(z)).Valid();
    ThreeNext(y, Begun(OneChunk(y), 1, 5, NOW + PAUSE), x.id, Begun(x, 0, 0, LATER),
              z, Resting(OneChunk(z), if k == 0 then 4 else Number(5, k)), env);
    hide Shifted, Number, Three, NextWork, HasOutstanding, ExpireAcquisitions;
    IdleStays(Turning(x, k), env);
  }

  lemma TickWorks(c: Config, s: State, env: Env, pos: nat)
    requires ExpireAcquisitions(s, env) == s && !HasOutstanding(s.table) && NextWork(s.table, env.now, 0) == Some(pos)
    requires s.jobs == Jobs([], None) && s.preferReconcile && env.canInitiate && env.now < s.nextAdvertise
    ensures Step(c, s, Clock(env))
            == Initiate(c, s.(table := s.table.(cursor := (pos + 1) % |s.table.order|)), env, s.table.order[pos])
  {
    hide NextWork, ExpireAcquisitions, HasOutstanding, Initiate;
  }

  /** A tick at which only the third is due gives it the next number. */
  lemma TurningTick(c: Config, x: Manifest, k: nat, env: Env)
    requires env.canInitiate && env.now == NOW && x.signature.None?
    ensures Step(c, Turning(x, k), Clock(env)) == Turning(x, k + 1)
  {
    ShiftedApart(x.id);
    TurningNext(c, x, k, env);
    NextInTurns(5, k);
    hide Shifted, Number, NextWork, ExpireAcquisitions, HasOutstanding, Initiate, Step;
    var s, z := Turning(x, k), Shifted(x.id, 2);
    TickWorks(c, s, env, 2);
    RestingTurn(c, s, env, z, OneChunk(z));
    assert Turning(x, k + 1).table.entries == s.table.entries[z := Resting(OneChunk(z), Number(5, k + 1))];
  }

  // ---- the round ----------------------------------------------------------------------

  lemma ThreeThen(y: ID, a: Acquisition, x: ID, b: Acquisition, z: ID, d: Acquisition, env: Env)
    requires y != x && x != z && y != z && a.waiting.Idle? && b.waiting.Idle? && d.waiting.Idle? && |b.sources| > 0
    requires env.now < a.nextAttempt && env.now >= b.nextAttempt
    ensures var t := Three(y, a, x, b, z, d); !HasOutstanding(t) && NextWork(t, env.now, 0) == Some(1)
  {
    var t := Three(y, a, x, b, z, d);
    assert NextWork(t, env.now, 1) == Some(1);
  }

  /** Then the second is due, and its turn has come. */
  lemma TurnComes(c: Config, x: Manifest, k: nat, env: Env)
    requires env.now == LATER && env.canInitiate && x.signature.None?
    ensures var s := Turning(x, k); Settling(s, env) == s && Selected(c, s, Clock(env)) == Some(1)
  {
    ShiftedApart(x.id);
    TurningRests(c, x, k);
    var y, z := Shifted(x.id, 1), Shifted(x.id, 2);
    assert AllOf(OneChunk(z)).Valid();
    ThreeThen(y, Begun(OneChunk(y), 1, 5, NOW + PAUSE), x.id, Begun(x, 0, 0, LATER),
              z, Resting(OneChunk(z), if k == 0 then 4 else Number(5, k)), env);
    hide Shifted, Number, Three, NextWork, HasOutstanding, ExpireAcquisitions;
    IdleStays(Turning(x, k), env);
  }

  lemma TurningEntries(x: Manifest, k: nat)
    ensures var s, y := Turning(x, k), Shifted(x.id, 1);
            && s.table.order[1] == x.id && x.id in s.table.entries && s.table.entries[x.id] == Begun(x, 0, 0, LATER)
            && y != x.id && y in s.table.entries && s.table.entries[y] == Begun(OneChunk(y), 1, 5, NOW + PAUSE)
  {
    ShiftedApart(x.id);
    hide Shifted, Number;
  }

  /** It is asked under the number of the first, at its source. */
  lemma PairComes(c: Config, x: Manifest, env: Env)
    requires env.now == LATER && env.canInitiate && env.sendOk(0) && Storable(x) && x.signature.None? && x.chunkCount == 1
    ensures var s, y := Step(c, Turning(x, 0xffff), Clock(env)), Shifted(x.id, 1);
            && x.id in s.table.entries && y in s.table.entries && y != x.id
            && var a, b := s.table.entries[x.id], s.table.entries[y];
               && a.waiting.ForChunks? && a.assembly == Some(Fresh(x)) && a.activeSource == 1 && a.transaction == 5
               && b.activeSource == 1 && b.transaction == 5
  {
    hide Shifted, Turning, Inv, Selected, Settling, Storable, Initiate, Step;
    var s, e := Turning(x, 0xffff), Clock(env);
    TurningValid(c, x, 0xffff);
    TurnComes(c, x, 0xffff, env);
    TurningEntries(x, 0xffff);
    LastNumber(x);
    assert !Fresh(x).received[0];
    TurnAsks(c, s, e, 1, x.id);
    TurnKeepsOthers(c, s, e, 1, Shifted(x.id, 1));
  }

  lemma LastNumber(x: Manifest)
    ensures NextTransaction(Turning(x, 0xffff).tx) == 5
  {
    hide Three, Shifted;
  }

  lemma TurnKeepsOthers(c: Config, s: State, e: Event, pos: nat, other: ID)
    requires Inv(c, s) && Selected(c, s, e) == Some(pos) && other in Settling(s, e.env).table.entries
    ensures other in Step(c, s, e).table.entries
  {
    hide Inv, Settling, Selected, Step, Initiate, HasOutstanding;
    SelectedStarts(c, s, e, pos);
  }

  lemma RoundRun(c: Config, x: Manifest, early: Env, late: Env) returns (states: seq<State>, events: seq<Event>)
    requires early.canInitiate && early.now == NOW && Storable(x) && x.signature.None?
    ensures |events| == 0x1_0000 && |states| == 0x1_0001 && Run(c, states, events) && forall i :: 0 <= i < |events| ==> events[i].Clock?
    ensures states[0] == Turning(x, 0) && states[|events|] == Step(c, Turning(x, 0xffff), Clock(late))
  {
    hide Step, Turning, Storable;
    var last := Step(c, Turning(x, 0xffff), Clock(late));
    states := seq(0x1_0001, k requires 0 <= k => if k <= 0xffff then Turning(x, k) else last);
    events := seq(0x1_0000, k requires 0 <= k => if k < 0xffff then Clock(early) else Clock(late));
    forall i | 0 <= i < |events| ensures Possible(c, states[i], events[i]) && states[i + 1] == Step(c, states[i], events[i]) {
      if i < 0xffff {
        TurningTick(c, x, i, early);
      }
    }
  }

  /** A run to such a pair. At its start nobody has a namesake: one acquisition has just been
      asked under number 5 and has a pause, another has asked nobody yet, and a third is whole
      and uncommitted. While the clock stands still, this one takes 65,535 numbers; the next
      is 5 again, and the second acquisition asks its source under it. A good answer to
      everything that it asked for may then be taken for the first, and changes nothing. */
  lemma StaleReached(c: Config, base: Env)
    returns (states: seq<State>, events: seq<Event>, id: ID, stale: ID, heard: Event)
    requires c.id != 1 && c.id != BROADCAST && base.canInitiate && base.sendOk(0) && base.write(0) == Written
    ensures Run(c, states, events) && |events| == 0x1_0000 && forall i :: 0 <= i < |events| ==> events[i].Clock?
    ensures Inv(c, states[0]) && Faithful(c, states[0], id, [7]) && states[0].table.entries[id].activeSource == 0
    ensures stale in states[0].table.entries && states[0].table.entries[stale].transaction == states[0].tx
    ensures var s := states[|events|];
            && Faithful(c, s, id, [7]) && s.table.entries[id].waiting.ForChunks? && stale != id
            && var a := s.table.entries[id];
               && GoodAnswers(c, [heard], a.activeSource, a.transaction, a.assembly.value.manifest, [7])
               && a.wanted <= Landed(c, [heard], a.activeSource, a.transaction)
               && var e := Hear(base, heard.data, Some(stale)); heard.env == base && Possible(c, s, e) && Step(c, s, e) == s
  {
    hide Inv, Step, Possible, Turning, GoodAnswers, Landed, IsAnswer, Storable, Shifted, Run;
    var x := OneOctet(c.sha, 1);
    OctetStorable(c);
    id, stale := x.id, Shifted(x.id, 1);
    states, events := RoundRun(c, x, base.(now := NOW), base.(now := LATER));
    TurningValid(c, x, 0);
    TurningEntries(x, 0);
    PairComes(c, x, base.(now := LATER));
    heard := OnlyAnswer(c, base, id);
    RunKeeps(c, states, events, |events|);
    WantedMissing(c, states[|events|], id);
    SwallowsOne(c, states[|events|], heard, id, stale);
    StartNumber(x);
  }

  lemma OctetStorable(c: Config)
    ensures var m := OneOctet(c.sha, 1); Storable(m) && Describes(c.sha, m, [7]) && Agrees(Fresh(m), [7])
  {}

  lemma StartNumber(x: Manifest)
    ensures Turning(x, 0).tx == 5
  {
    hide Three, Shifted;
  }
}
