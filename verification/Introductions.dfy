/** How an ID becomes an assembly: one exchange brings its manifest, another its
    signature. */
module Introductions {
  import opened Bytes
  import opened Seqs
  import opened Radix
  import opened Manifests
  import opened Assemblies
  import opened Stores
  import opened NodeProtocol
  import opened Scheduler
  import opened NodeState
  import opened NodeSteps
  import opened NodeInvariants
  import opened NodeSafety
  import opened NodeOutcomes
  import opened Fairness
  import opened Transfer
  import opened TransferRuns
  import opened Demultiplexer
  import opened Exchanges

  // ---- waiting ------------------------------------------------------------------------

  /** The event brings a reply from this node under this number. */
  ghost predicate ReplyFrom(c: Config, e: Event, source: NodeID, tx: U16) {
    && e.Hear? && Decode(e.data).Some?
    && var p := Decode(e.data).value;
       && p.source == source != c.id && p.transaction == tx && p.destination == c.id != BROADCAST
       && (p.kind == MANIFEST || p.kind == SIGNATURE || p.kind == CHUNK)
  }

  /** While a request stands, nothing but a reply to it and its deadline touch the table. */
  lemma WaitingStands(c: Config, s: State, e: Event, id: ID)
    requires Inv(c, s) && Waits(s.table, id) && Possible(c, s, e)
    requires !ReplyFrom(c, e, s.table.entries[id].activeSource, s.table.entries[id].transaction)
    requires e.Clock? ==> e.env.now <= s.table.entries[id].deadline
    ensures Step(c, s, e).table == s.table
  {
    ExchangeNumber(c, s, id);
    hide Inv, Receive, Tick, Decode;
    match e
    case Hear(env, data, pick) =>
      if Decode(data).Some? {
        HearingStands(c, s, e, Decode(data).value, id);
      }
    case Clock(env) => TickStands(c, s, env, id);
    case Outside(_) =>
  }

  lemma HearingStands(c: Config, s: State, e: Event, p: Packet, id: ID)
    requires e.Hear? && Decode(e.data) == Some(p) && Possible(c, s, e) && Waits(s.table, id)
    requires s.jobs.active.None? && forall other :: Waits(s.table, other) ==> other == id
    requires !ReplyFrom(c, e, s.table.entries[id].activeSource, s.table.entries[id].transaction)
    ensures Receive(c, s, e.env, p, e.pick).table == s.table
  {
    hide RootSummary, AcceptSummary, ServeManifest, ServeSignature, ServeSummary, ServeChunks, Decode, OwnStep, DecodeLeaf, ConsiderAll,
         Judge, TakeChunk, DecodeSignature, DecodeChunk, Manifests.DecodeManifest, Fail;
    if e.pick.Some? && e.pick.value != id {
      assert !Waits(s.table, e.pick.value);
    }
  }

  lemma TickStands(c: Config, s: State, env: Env, id: ID)
    requires Waits(s.table, id) && env.now <= s.table.entries[id].deadline
    requires forall other :: Waits(s.table, other) ==> other == id
    ensures Tick(c, s, env).table == s.table
  {
    hide InitiateReconcile, WorkOrReconcile, Advertise, Fail, ExpireJob;
    forall other | other in s.table.entries ensures Expired(s.table.entries[other], env) == s.table.entries[other] {
      assert Waits(s.table, other) ==> other == id;
    }
    assert ExpireAcquisitions(s, env).table.entries == s.table.entries;
    assert HasOutstanding(s.table);
  }

  lemma {:induction false} StandsUntil(c: Config, states: seq<State>, events: seq<Event>, k: nat, id: ID)
    requires Run(c, states, events) && 1 <= k < |states| && Inv(c, states[1]) && Waits(states[1].table, id)
    requires var a := states[1].table.entries[id];
             forall i :: 1 <= i < k ==>
               !ReplyFrom(c, events[i], a.activeSource, a.transaction) && (events[i].Clock? ==> events[i].env.now <= a.deadline)
    ensures Inv(c, states[k]) && states[k].table == states[1].table
  {
    hide Inv, Step, Possible, ReplyFrom;
    if k > 1 {
      StandsUntil(c, states, events, k - 1, id);
      StepKeeps(c, states[k - 1], events[k - 1]);
      WaitingStands(c, states[k - 1], events[k - 1], id);
    }
  }

  // ---- the request --------------------------------------------------------------------

  /** The packet asks this node about the ID, under this number. */
  ghost predicate AsksAbout(c: Config, q: Packet, kind: byte, id: ID, destination: NodeID, tx: U16) {
    q.kind == kind && q.source == c.id && q.destination == destination && q.transaction == tx && Encode(q).Some?
    && DecodeIDBody(q.body) == Some(id)
  }

  /** The first event is a turn of this acquisition, which has no assembly yet. */
  ghost predicate OpensTurn(c: Config, states: seq<State>, events: seq<Event>, pos: nat, id: ID) {
    && Run(c, states, events) && events != [] && events[0].Clock? && Inv(c, states[0])
    && Selected(c, states[0], events[0]) == Some(pos) && events[0].env.sendOk(0) && pos < |states[0].table.order| && id == states[0].table.order[pos]
    && id in Settling(states[0], events[0].env).table.entries && Settling(states[0], events[0].env).table.entries[id].assembly.None?
    && |Settling(states[0], events[0].env).table.entries[id].sources| > 0
  }

  /** It asks its source about the ID: for the manifest, or for the signature once a
      manifest is staged; and waits for that. */
  lemma TurnOpens(c: Config, states: seq<State>, events: seq<Event>, pos: nat, id: ID)
    requires OpensTurn(c, states, events, pos, id)
    ensures Inv(c, states[1]) && id in states[1].table.entries
    ensures var a, b := Settling(states[0], events[0].env).table.entries[id], states[1].table.entries[id];
            && b.waiting == (if a.manifest.Some? then ForSignature else ForManifest)
            && b.assembly.None? && b.manifest == a.manifest && b.manifestSource == a.manifestSource
            && b.activeSource == SourceOf(a) && b.transaction == NextTransaction(states[0].tx)
            && b.deadline == events[0].env.later + c.responseTimeout
            && |states[1].sent| == |states[0].sent| + 1 && states[1].sent[|states[0].sent|].Some?
            && AsksAbout(c, states[1].sent[|states[0].sent|].value, if a.manifest.Some? then GET_SIGNATURE else GET_MANIFEST,
                         id, SourceOf(a), NextTransaction(states[0].tx))
    ensures forall other :: other != id && other in states[1].table.entries ==>
              other in Settling(states[0], events[0].env).table.entries
              && states[1].table.entries[other] == Settling(states[0], events[0].env).table.entries[other]
    ensures states[1].disk == states[0].disk
  {
    hide Inv, SourceOf, HasOutstanding, Settling, Step, Selected, PacketHeader;
    SelectedOnTicks(c, states[0], events[0]);
    SelectedStarts(c, states[0], events[0], pos);
    assert Possible(c, states[0], events[0]) && states[1] == Step(c, states[0], events[0]);
    StepKeeps(c, states[0], events[0]);
    hide Possible, Run, Ready;
  }

  // ---- the node that is asked ---------------------------------------------------------

  /** It has the object complete, under the ID that its manifest names. */
  ghost predicate Presents(cs: Config, v: State, id: ID, m: Manifest) {
    CompleteOn(cs.sha, cs.ed, v.disk, id) && v.disk[ObjectManifest(id)].manifest == m && m.id == id
  }

  /** The packet answers with the manifest, or the signature, of the object. */
  ghost predicate TellsManifest(p: Packet, id: ID, m: Manifest) {
    p.kind == MANIFEST && Manifests.DecodeManifest(id, p.body) == Some(Base(m))
  }

  ghost predicate TellsSignature(p: Packet, m: Manifest) {
    p.kind == SIGNATURE && DecodeSignature(p.body) == Some(m.signature)
  }

  lemma PresentsTells(cs: Config, v: State, id: ID, m: Manifest)
    requires Presents(cs, v, id, m)
    ensures Manifests.EncodeManifest(m).Some? && |Manifests.EncodeManifest(m).value| <= MAX_BODY
    ensures Manifests.DecodeManifest(id, Manifests.EncodeManifest(m).value) == Some(Base(m))
    ensures DecodeSignature(EncodeSignature(m.signature)) == Some(m.signature) && |EncodeSignature(m.signature)| <= MAX_BODY
    ensures ReadManifest(v.disk, ObjectManifest(id)) == Some(m)
  {
    DecodeOfEncode(m);
    SignatureExact(EncodeSignature(m.signature), m.signature);
    hide Body, Manifests.DecodeManifest, DecodeSignature;
  }

  /** A node that has the object complete answers one packet, to the requester and under
      the request's number, and nothing else changes there. */
  lemma AskedTells(c: Config, cs: Config, v: State, served: Env, pick: Option<ID>, q: Packet, kind: byte, id: ID, tx: U16, m: Manifest)
    requires (kind == GET_MANIFEST || kind == GET_SIGNATURE) && AsksAbout(c, q, kind, id, cs.id, tx) && cs.id != c.id && cs.id != BROADCAST
    requires Presents(cs, v, id, m)
    ensures var w := Step(cs, v, Hear(served, Encode(q).value, pick));
            && w == v.(sent := w.sent) && |w.sent| == |v.sent| + 1 && w.sent[..|v.sent|] == v.sent && w.sent[|v.sent|].Some?
            && var p := w.sent[|v.sent|].value;
               && p.source == cs.id && p.destination == c.id && p.transaction == tx && Encode(p).Some?
               && if kind == GET_MANIFEST then TellsManifest(p, id, m) else TellsSignature(p, m)
  {
    PresentsTells(cs, v, id, m);
    DecodeEncode(q);
    hide CompleteOn, ReadManifest, Decode, PacketHeader, Manifests.EncodeManifest, Manifests.DecodeManifest, EncodeSignature, DecodeSignature;
    AsksServes(cs, v, served, pick, q);
  }

  lemma AsksServes(cs: Config, v: State, served: Env, pick: Option<ID>, q: Packet)
    requires q.source != cs.id && q.destination == cs.id != BROADCAST
    ensures q.kind == GET_MANIFEST ==> Receive(cs, v, served, q, pick) == ServeManifest(cs, v, q)
    ensures q.kind == GET_SIGNATURE ==> Receive(cs, v, served, q, pick) == ServeSignature(cs, v, q)
  {
    hide ServeManifest, ServeSignature;
  }

  // ---- the exchanges ------------------------------------------------------------------

  /** An exchange about an ID: a turn asks the node whose turn it is; that node has the
      object, hears the request and answers; and event k brings that answer, before the
      deadline and before any other reply from there under that number. No other acquisition
      was asked under it there. */
  ghost predicate Told(c: Config, states: seq<State>, events: seq<Event>, k: nat, pos: nat, id: ID, m: Manifest,
                       cs: Config, v: State, served: Env, pick: Option<ID>) {
    && OpensTurn(c, states, events, pos, id) && 1 <= k < |events|
    && cs.id == SourceOf(Settling(states[0], events[0].env).table.entries[id]) && cs.id != c.id && cs.id != BROADCAST && c.id != BROADCAST
    && Presents(cs, v, id, m) && Sole(states[0].table, id, cs.id, NextTransaction(states[0].tx))
    && (forall i :: 1 <= i < k ==>
          !ReplyFrom(c, events[i], cs.id, NextTransaction(states[0].tx))
          && (events[i].Clock? ==> events[i].env.now <= events[0].env.later + c.responseTimeout))
    && (|states[1].sent| > 0 && states[1].sent[|states[1].sent| - 1].Some? && Encode(states[1].sent[|states[1].sent| - 1].value).Some? ==>
          var w := Step(cs, v, Hear(served, Encode(states[1].sent[|states[1].sent| - 1].value).value, pick));
          |w.sent| > |v.sent| && w.sent[|v.sent|].Some? ==> events[k].Hear? && Encode(w.sent[|v.sent|].value) == Some(events[k].data))
  }

  /** The answer arrives where it was asked for. */
  lemma AnswerArrives(c: Config, states: seq<State>, events: seq<Event>, k: nat, pos: nat, id: ID, m: Manifest,
                      cs: Config, v: State, served: Env, pick: Option<ID>) returns (p: Packet)
    requires Told(c, states, events, k, pos, id, m, cs, v, served, pick)
    ensures 1 <= k < |events| == |states| - 1
    ensures Inv(c, states[k]) && Possible(c, states[k], events[k]) && states[k + 1] == Step(c, states[k], events[k])
    ensures id in states[1].table.entries && states[k].table == states[1].table
    ensures events[k].Hear? && Decode(events[k].data) == Some(p) && events[k].pick == Some(id)
    ensures p.source == cs.id && p.destination == c.id
    ensures var a := Settling(states[0], events[0].env).table.entries[id];
            && (a.manifest.None? ==> TellsManifest(p, id, m)) && (a.manifest.Some? ==> TellsSignature(p, m))
            && var b := states[1].table.entries[id];
               b.waiting == (if a.manifest.Some? then ForSignature else ForManifest)
               && b.assembly.None? && b.manifest == a.manifest && b.manifestSource == a.manifestSource
  {
    hide Inv, Step, Settling, SourceOf, Selected, Possible, Presents, TellsManifest, TellsSignature, AsksAbout, Sole, Encode, Decode, ReplyFrom;
    TurnOpens(c, states, events, pos, id);
    var a, b := Settling(states[0], events[0].env).table.entries[id], states[1].table.entries[id];
    var kind := if a.manifest.Some? then GET_SIGNATURE else GET_MANIFEST;
    var q := states[1].sent[|states[0].sent|].value;
    AboutEncodes(c, q, kind, id, cs.id, b.transaction);
    AskedTells(c, cs, v, served, pick, q, kind, id, b.transaction, m);
    p := Step(cs, v, Hear(served, Encode(q).value, pick)).sent[|v.sent|].value;
    EncodesBack(p);
    StandsUntil(c, states, events, k, id);
    SourceNotZero(c, states[1], id);
    SelectedOnTicks(c, states[0], events[0]);
    SoleAfter(c, states[0], events[0], states[1], id, cs.id);
    OnlyChoice(c, states[k], events[k], p, id);
  }

  lemma AboutEncodes(c: Config, q: Packet, kind: byte, id: ID, destination: NodeID, tx: U16)
    requires AsksAbout(c, q, kind, id, destination, tx)
    ensures Encode(q).Some?
  {}

  lemma EncodesBack(p: Packet)
    requires Encode(p).Some?
    ensures Decode(Encode(p).value) == Some(p)
  {
    DecodeEncode(p);
    hide Decode, PacketHeader;
  }

  lemma SourceNotZero(c: Config, s: State, id: ID)
    requires Inv(c, s) && Waits(s.table, id)
    ensures s.table.entries[id].activeSource != 0
  {
    EntryValid(c, s, id);
    hide Inv;
  }

  lemma OnlyChoice(c: Config, s: State, e: Event, p: Packet, id: ID)
    requires Possible(c, s, e) && e.Hear? && Decode(e.data) == Some(p) && id in s.table.entries
    requires s.table.entries[id].transaction == p.transaction && s.table.entries[id].activeSource == p.source
    requires Sole(s.table, id, p.source, p.transaction)
    ensures e.pick == Some(id)
  {
    hide Decode;
    assert RepliesTo(s.table, p, id);
  }

  /** The first exchange stages the manifest that the object has, with its source. */
  lemma ManifestExchange(c: Config, states: seq<State>, events: seq<Event>, k: nat, pos: nat, id: ID, m: Manifest,
                         cs: Config, v: State, served: Env, pick: Option<ID>)
    requires Told(c, states, events, k, pos, id, m, cs, v, served, pick)
    requires Settling(states[0], events[0].env).table.entries[id].manifest.None?
    ensures id in states[k + 1].table.entries
    ensures var b := states[k + 1].table.entries[id];
            b.waiting.Idle? && b.assembly.None? && b.manifest == Some(Base(m)) && b.manifestSource == cs.id
  {
    hide Inv, Step, Settling, SourceOf, Selected, Possible, Presents, Sole, Encode, Decode, ReplyFrom, OpensTurn;
    var p := AnswerArrives(c, states, events, k, pos, id, m, cs, v, served, pick);
    StagesManifest(c, states[k], events[k], p, id, m);
  }

  lemma StagesManifest(c: Config, s: State, e: Event, p: Packet, id: ID, m: Manifest)
    requires e.Hear? && Decode(e.data) == Some(p) && e.pick == Some(id) && TellsManifest(p, id, m)
    requires p.source != c.id && p.destination == c.id != BROADCAST
    requires id in s.table.entries && s.table.entries[id].waiting.ForManifest? && s.table.entries[id].assembly.None?
    ensures var t := Step(c, s, e);
            id in t.table.entries && var b := t.table.entries[id];
            b.waiting.Idle? && b.assembly.None? && b.manifest == Some(Base(m)) && b.manifestSource == p.source
  {
    hide Decode, Manifests.DecodeManifest, OwnStep;
  }

  /** The second one completes it with the signature that the object has. */
  lemma SignatureExchange(c: Config, states: seq<State>, events: seq<Event>, k: nat, pos: nat, id: ID, m: Manifest,
                          cs: Config, v: State, served: Env, pick: Option<ID>)
    requires Told(c, states, events, k, pos, id, m, cs, v, served, pick)
    requires Settling(states[0], events[0].env).table.entries[id].manifest == Some(Base(m))
    ensures Inv(c, states[k]) && Possible(c, states[k], events[k]) && states[k + 1] == Step(c, states[k], events[k])
    ensures Judged(c, states[k], events[k], id) == Some(Signed(Base(m), m.signature))
  {
    hide Inv, Step, Settling, SourceOf, Selected, Possible, Presents, Sole, Encode, Decode, ReplyFrom, OpensTurn, DecodeSignature;
    var p := AnswerArrives(c, states, events, k, pos, id, m, cs, v, served, pick);
  }

  /** The object that the other node has holds this content. */
  ghost predicate Offered(cs: Config, v: State, id: ID, m: Manifest, content: seq<byte>) {
    Presents(cs, v, id, m) && ObjectContent(id) in v.disk && v.disk[ObjectContent(id)] == Plain(content)
  }

  lemma OfferedDescribes(cs: Config, v: State, id: ID, m: Manifest, content: seq<byte>)
    requires Offered(cs, v, id, m, content)
    ensures Describes(cs.sha, Signed(Base(m), m.signature), content) && Encodable(Signed(Base(m), m.signature))
    ensures m.signature.Some? || m.version != SIGNED_MANIFEST_VERSION ==> Signed(Base(m), m.signature) == m
  {
    hide SafeName;
  }

  /** The acquisition is faithful to the content, or complete at once, exactly if the policy
      passes the manifest and its name is safe. */
  ghost predicate Begins(c: Config, s: State, t: State, id: ID, m: Manifest, content: seq<byte>) {
    if Passed(c, s.disk, id, m) && SafeName(m.filename)
    then if id in t.table.entries then Faithful(c, t, id, content) else Completed(c, s, t, id, content)
    else id in t.table.entries ==> t.table.entries[id].assembly.None?
  }

  /** What both of them are for: with nothing of it on disk before, the signature begins the
      assembly of the content that the other node has. */
  lemma Introduced(c: Config, states: seq<State>, events: seq<Event>, k: nat, pos: nat, id: ID, m: Manifest, content: seq<byte>,
                   cs: Config, v: State, served: Env, pick: Option<ID>)
    requires Told(c, states, events, k, pos, id, m, cs, v, served, pick) && c.sha == cs.sha && Offered(cs, v, id, m, content)
    requires Settling(states[0], events[0].env).table.entries[id].manifest == Some(Base(m))
    requires |states| == |events| + 1 && k < |events|
    requires (forall p :: p in states[k].disk ==> !IsPartialOf(p, id)) && events[k].Hear?
    requires events[k].env.write(0).Written? && events[k].env.write(1).Written?
    ensures Begins(c, states[k], states[k + 1], id, Signed(Base(m), m.signature), content)
  {
    hide Inv, Step, Possible, Judged, Passed, SafeName, Encodable, Describes, Faithful, Settling, SourceOf, Selected, Sole, OpensTurn, ReplyFrom,
         Completed, CompleteOn, Offered, Told;
    SignatureExchange(c, states, events, k, pos, id, m, cs, v, served, pick);
    OfferedDescribes(cs, v, id, m, content);
    SignatureStarts(c, states[k], events[k], id, content);
  }
}
