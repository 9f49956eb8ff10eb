/** Round-robin service of acquisitions over whole runs. */
module Fairness {
  import opened Bytes
  import opened Seqs
  import opened Radix
  import opened Manifests
  import opened Assemblies
  import opened Stores
  import opened NodeProtocol
  import opened Scheduler
  import opened NodeState
  import opened NodeSteps
  import opened NodeInvariants
  import opened NodeSafety

  /** The state in which a tick decides what to start. */
  function Settling(s: State, env: Env): State {
    ExpireJob(ExpireAcquisitions(s, env), env)
  }

  /** The place of the acquisition that an event starts work on, if it does. */
  function Selected(c: Config, s: State, e: Event): Option<nat> {
    if !e.Clock? then None else
      var t := Settling(s, e.env);
      if !e.env.canInitiate || t.jobs.active.Some? || HasOutstanding(t.table) || e.env.now >= t.nextAdvertise then None
      else if t.preferReconcile && InitiateReconcile(c, t, e.env).1 then None
      else NextWork(t.table, e.env.now, 0)
  }

  // ---- one selection ------------------------------------------------------------------

  lemma {:induction false} NextWorkFirst(t: Table, now: Time, offset: nat, distance: nat)
    requires offset <= distance < |t.order| && Ready(t, t.order[Cyclic(t.cursor, distance, |t.order|)], now)
    ensures exists d :: offset <= d <= distance && NextWork(t, now, offset) == Some(Cyclic(t.cursor, d, |t.order|))
    decreases |t.order| - offset
  {
    hide Ready;
    if !Ready(t, t.order[Cyclic(t.cursor, offset, |t.order|)], now) {
      NextWorkFirst(t, now, offset + 1, distance);
    }
  }

  lemma PastCloser(cursor: nat, d: nat, pos: nat, n: nat)
    requires pos < n && cursor < n && d < Distance(cursor, pos, n)
    ensures Distance((Cyclic(cursor, d, n) + 1) % n, pos, n) == Distance(cursor, pos, n) - d - 1
  {
    var q := if cursor + d < n then 0 else 1;
    ModUnique(cursor + d, q, cursor + d - q * n, n);
    var i := Cyclic(cursor, d, n);
    var r := if i + 1 < n then 0 else 1;
    ModUnique(i + 1, r, i + 1 - r * n, n);
    ModUnique(cursor, 0, cursor, n);
    var next := (i + 1) % n;
    ModUnique(next, 0, next, n);
  }

  /** While an acquisition is ready, a selection takes it or comes closer to it. */
  lemma SelectionCloser(t: Table, now: Time, pos: nat)
    requires pos < |t.order| && t.cursor < |t.order| && Ready(t, t.order[pos], now)
    ensures NextWork(t, now, 0).Some?
    ensures var i := NextWork(t, now, 0).value;
            i == pos || Distance((i + 1) % |t.order|, pos, |t.order|) < Distance(t.cursor, pos, |t.order|)
  {
    var n := |t.order|;
    CyclicDistance(t.cursor, pos, n);
    NextWorkFirst(t, now, 0, Distance(t.cursor, pos, n));
    hide Ready, NextWork;
    var d :| 0 <= d <= Distance(t.cursor, pos, n) && NextWork(t, now, 0) == Some(Cyclic(t.cursor, d, n));
    if d < Distance(t.cursor, pos, n) {
      PastCloser(t.cursor, d, pos, n);
    }
  }

  // ---- the cursor ---------------------------------------------------------------------

  /** The order changed, or neither order nor cursor did. */
  ghost predicate CursorRests(t: Table, u: Table) {
    u.order != t.order || u.cursor == t.cursor
  }

  lemma RemoveMoves(t: Table, id: ID)
    requires id in t.order
    ensures RemoveEntry(t, id).order != t.order
  {
    assert |RemoveFirst(t.order, id)| < |t.order|;
  }

  lemma OwnStepRests(c: Config, s: State, t: State, id: ID)
    requires Inv(c, s) && OwnStep(c, s, t, id) && id in s.table.entries
    ensures CursorRests(s.table, t.table)
  {
    RemoveMoves(s.table, id);
    hide Inv, RemoveEntry, Inventory;
  }

  lemma HearRests(c: Config, s: State, env: Env, p: Packet, pick: Option<ID>)
    requires Inv(c, s)
    ensures CursorRests(s.table, Receive(c, s, env, p, pick).table)
  {
    hide Inv, RootSummary, ServeManifest, ServeChunks, AcceptManifest, AcceptChunk, ServeSignature, AcceptSignature,
         ServeSummary, AcceptSummary, AcceptLeaf;
    hide OwnStep;
    var t := Receive(c, s, env, p, pick);
    if pick.Some? && Waits(s.table, pick.value) && OwnStep(c, s, t, pick.value) {
      OwnStepRests(c, s, t, pick.value);
    }
  }

  /** A tick moves the cursor exactly when it selects, past the place selected. */
  lemma TickTurns(c: Config, s: State, env: Env)
    ensures var t, selected := Tick(c, s, env).table, Selected(c, s, Clock(env));
            t.order == s.table.order &&
            t.cursor == match selected case None => s.table.cursor case Some(i) => (i + 1) % |s.table.order|
  {
    hide InitiateReconcile, ExpireJob, ExpireAcquisitions, NextWork, HasOutstanding, Initiate, SummaryOf, EncodeSummary, Jitter, Inventory, Outgoing;
  }

  lemma StepTurns(c: Config, s: State, e: Event)
    requires Inv(c, s)
    ensures var t, selected := Step(c, s, e).table, Selected(c, s, e);
            t.order == s.table.order ==>
              t.cursor == match selected case None => s.table.cursor case Some(i) => (i + 1) % |s.table.order|
  {
    hide Inv, Receive, Tick, Decode;
    match e
    case Hear(env, data, pick) =>
      if Decode(data).Some? {
        HearRests(c, s, env, Decode(data).value, pick);
      }
    case Clock(env) => TickTurns(c, s, env);
    case Outside(_) =>
  }

  // ---- runs ---------------------------------------------------------------------------

  /** How many of the first k events started work on an acquisition. */
  function Selections(c: Config, states: seq<State>, events: seq<Event>, k: nat): nat
    requires k <= |events| < |states|
  {
    if k == 0 then 0 else
      Selections(c, states, events, k - 1) + if Selected(c, states[k - 1], events[k - 1]).Some? then 1 else 0
  }

  /** The order stays what it is, and the acquisition at `pos` is ready whenever
      something is selected. */
  ghost predicate StaysReady(c: Config, states: seq<State>, events: seq<Event>, pos: nat) {
    && |states| == |events| + 1 && pos < |states[0].table.order|
    && (forall j :: 0 <= j < |states| ==> states[j].table.order == states[0].table.order)
    && forall j :: 0 <= j < |events| && Selected(c, states[j], events[j]).Some? ==>
         ReadyAt(states[j], events[j], pos)
  }

  ghost predicate ReadyAt(s: State, e: Event, pos: nat) {
    e.Clock? && pos < |s.table.order| && Ready(Settling(s, e.env).table, s.table.order[pos], e.env.now)
  }

  lemma CursorInRange(c: Config, s: State)
    requires Inv(c, s) && s.table.order != []
    ensures s.table.cursor < |s.table.order|
  {}

  lemma SelectedCloser(c: Config, s: State, e: Event, pos: nat)
    requires Inv(c, s) && ReadyAt(s, e, pos) && Selected(c, s, e).Some?
    ensures var i, n := Selected(c, s, e).value, |s.table.order|;
            i == pos || Distance((i + 1) % n, pos, n) < Distance(s.table.cursor, pos, n)
  {
    hide Inv, NextWork, Distance, InitiateReconcile, Ready, ExpireJob, ExpireAcquisitions, HasOutstanding;
    CursorInRange(c, s);
    SelectionCloser(Settling(s, e.env).table, e.env.now, pos);
  }

  lemma {:induction false} Approaches(c: Config, states: seq<State>, events: seq<Event>, pos: nat, k: nat)
    requires Run(c, states, events) && Inv(c, states[0]) && StaysReady(c, states, events, pos) && k <= |events|
    requires forall j :: 0 <= j < k ==> Selected(c, states[j], events[j]) != Some(pos)
    ensures var n := |states[0].table.order|;
            Selections(c, states, events, k) + Distance(states[k].table.cursor, pos, n)
            <= Distance(states[0].table.cursor, pos, n)
  {
    hide Inv, Step, Possible, Selected, Distance, ReadyAt;
    if k > 0 {
      Approaches(c, states, events, pos, k - 1);
      RunKeeps(c, states, events, k - 1);
      StepTurns(c, states[k - 1], events[k - 1]);
      if Selected(c, states[k - 1], events[k - 1]).Some? {
        SelectedCloser(c, states[k - 1], events[k - 1], pos);
      }
    }
  }

  /** An acquisition that stays ready while the order stays the same is chosen within
      as many selections as there are acquisitions. */
  lemma RoundRobin(c: Config, states: seq<State>, events: seq<Event>, pos: nat, k: nat)
    requires Run(c, states, events) && Inv(c, states[0]) && StaysReady(c, states, events, pos) && k <= |events|
    requires Selections(c, states, events, k) >= |states[0].table.order|
    ensures exists j :: 0 <= j < k && Selected(c, states[j], events[j]) == Some(pos)
  {
    hide Inv, Step, Possible, Selected, Selections;
    if forall j :: 0 <= j < k ==> Selected(c, states[j], events[j]) != Some(pos) {
      Approaches(c, states, events, pos, k);
    }
  }

  /** How many of the first k events started work on the acquisition at `pos`. */
  function OwnTurns(c: Config, states: seq<State>, events: seq<Event>, pos: nat, k: nat): nat
    requires k <= |events| < |states|
  {
    if k == 0 then 0 else
      OwnTurns(c, states, events, pos, k - 1) + if Selected(c, states[k - 1], events[k - 1]) == Some(pos) then 1 else 0
  }

  ghost function Times(n: nat, m: nat): nat {
    n * m
  }

  lemma TimesNext(n: nat, m: nat)
    ensures Times(n, m + 1) == Times(n, m) + n
  {}

  lemma {:induction false} TurnsCount(c: Config, states: seq<State>, events: seq<Event>, pos: nat, k: nat)
    requires Run(c, states, events) && Inv(c, states[0]) && StaysReady(c, states, events, pos) && k <= |events|
    ensures var n := |states[0].table.order|;
            Selections(c, states, events, k) + Distance(states[k].table.cursor, pos, n)
            <= Distance(states[0].table.cursor, pos, n) + Times(n, OwnTurns(c, states, events, pos, k))
  {
    hide Inv, Step, Possible, Selected, Distance, ReadyAt, Times;
    if k > 0 {
      TurnsCount(c, states, events, pos, k - 1);
      RunKeeps(c, states, events, k - 1);
      StepTurns(c, states[k - 1], events[k - 1]);
      var n, own := |states[0].table.order|, OwnTurns(c, states, events, pos, k - 1);
      if Selected(c, states[k - 1], events[k - 1]) == Some(pos) {
        FullCircle(pos, n);
        TimesNext(n, own);
      } else if Selected(c, states[k - 1], events[k - 1]).Some? {
        SelectedCloser(c, states[k - 1], events[k - 1], pos);
      }
    }
  }

  lemma FullCircle(pos: nat, n: nat)
    requires pos < n
    ensures Distance((pos + 1) % n, pos, n) == n - 1
  {
    if pos + 1 == n {
      assert (pos + 1) % n == 0;
    }
  }

  /** And so on: within m times as many selections it is chosen m times. */
  lemma TurnsCome(c: Config, states: seq<State>, events: seq<Event>, pos: nat, m: nat)
    requires Run(c, states, events) && Inv(c, states[0]) && StaysReady(c, states, events, pos)
    requires Selections(c, states, events, |events|) >= m * |states[0].table.order|
    ensures OwnTurns(c, states, events, pos, |events|) >= m
  {
    hide Inv, Run, Selected, Selections, OwnTurns, ReadyAt, Distance;
    TurnsCount(c, states, events, pos, |events|);
    CursorInRange(c, states[0]);
    var n := |states[0].table.order|;
    DistanceBelow(states[0].table.cursor, pos, n);
    TurnsEnough(n, OwnTurns(c, states, events, pos, |events|), m, Distance(states[0].table.cursor, pos, n));
  }

  lemma TurnsEnough(n: nat, own: nat, m: nat, distance: nat)
    requires distance < n && m * n <= distance + n * own
    ensures own >= m
  {
    assert own + 1 <= m ==> (own + 1) * n <= m * n;
  }

  lemma DistanceBelow(cursor: nat, pos: nat, n: nat)
    requires cursor < n && pos < n
    ensures Distance(cursor, pos, n) < n
  {}

  // ---- sources ------------------------------------------------------------------------

  /** An acquisition after it has asked k times. */
  function AskedTimes(a: Acquisition, tx: U16, k: nat): (r: Acquisition)
    requires |a.sources| > 0
    ensures r.sources == a.sources && r.manifest == a.manifest && r.manifestSource == a.manifestSource
  {
    if k == 0 then a else Addressed(AskedTimes(a, tx, k - 1), tx)
  }

  lemma {:induction false} TurnAfter(a: Acquisition, tx: U16, k: nat)
    requires |a.sources| > 0 && a.manifest.None?
    ensures AskedTimes(a, tx, k).sourceCursor % |a.sources| == Cyclic(a.sourceCursor, k, |a.sources|)
  {
    var n := |a.sources|;
    if k > 0 {
      TurnAfter(a, tx, k - 1);
      var before := AskedTimes(a, tx, k - 1).sourceCursor;
      NextInTurn(before, n);
      NextInTurn(a.sourceCursor + k - 1, n);
    }
  }

  lemma NextInTurn(m: nat, n: nat)
    requires n > 0
    ensures (m + 1) % n == (m % n + 1) % n == ((m + 1) % n) % n
  {
    var q, r := m / n, m % n;
    assert m == q * n + r;
    if r + 1 < n {
      ModUnique(m + 1, q, r + 1, n);
    } else {
      assert m + 1 == (q + 1) * n + 0;
      ModUnique(m + 1, q + 1, 0, n);
      ModUnique(r + 1, 1, 0, n);
    }
  }

  /** Retries rotate: until a manifest is staged, an acquisition asks each of its
      sources within as many attempts as it has sources. */
  lemma SourcesTakeTurns(a: Acquisition, tx: U16, i: nat)
    requires a.manifest.None? && i < |a.sources|
    ensures exists k :: 0 <= k < |a.sources| && SourceOf(AskedTimes(a, tx, k)) == a.sources[i]
  {
    var k := Distance(a.sourceCursor, i, |a.sources|);
    CyclicDistance(a.sourceCursor, i, |a.sources|);
    TurnAfter(a, tx, k);
    assert SourceOf(AskedTimes(a, tx, k)) == a.sources[i];
  }
}
