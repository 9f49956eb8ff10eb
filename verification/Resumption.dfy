/** What a node takes up again when it starts: everything that it finds, as far as the
    policy still passes it. */
module Resumption {
  import opened Bytes
  import opened Seqs
  import opened Radix
  import opened Manifests
  import opened Assemblies
  import opened Stores
  import opened NodeProtocol
  import opened Scheduler
  import opened NodeState
  import opened NodeSteps
  import opened NodeInvariants
  import opened NodeSafety
  import opened NodeOutcomes
  import opened NodeGate
  import opened NodeFiling
  import opened Restarts
  import opened NodeDurability

  // ---- the files of one publication ---------------------------------------------------

  ghost predicate SamePartial(a: Disk, b: Disk, id: ID) {
    forall f :: IsPartialOf(f, id) ==> (f in a <==> f in b) && (f in a ==> a[f] == b[f])
  }

  lemma SamePartialTrans(a: Disk, b: Disk, d: Disk, id: ID)
    requires SamePartial(a, b, id) && SamePartial(b, d, id)
    ensures SamePartial(a, d, id)
  {}

  lemma {:induction false} SameLoaded(a: Disk, b: Disk, m: Manifest, n: nat)
    requires SamePartial(a, b, m.id) && n <= m.chunkCount
    ensures Loaded(a, m, n) == Loaded(b, m, n)
  {
    if n > 0 {
      SameLoaded(a, b, m, n - 1);
      assert IsPartialOf(PartialChunk(m.id, n - 1), m.id);
    }
  }

  lemma SameResume(a: Disk, b: Disk, id: ID)
    requires SamePartial(a, b, id) && NamesItself(a, id)
    ensures LoadPartialFrom(a, id) == LoadPartialFrom(b, id) && NamesItself(b, id)
  {
    assert IsPartialOf(PartialManifest(id), id);
    hide Loaded, SafeName, Encodable, Geometry;
    if ReadManifest(a, PartialManifest(id)).Some? {
      var m := ReadManifest(a, PartialManifest(id)).value;
      SameLoaded(a, b, m, m.chunkCount);
    }
  }

  lemma OpenSame(disk: Disk, other: ID, w: WriteResult, id: ID)
    requires PartialManifest(id) in disk
    ensures SamePartial(disk, LoadPartialOn(disk, other, w).0, id)
  {
    hide LoadAll, SafeName, ReadManifest;
  }

  lemma RemoveSame(disk: Disk, other: ID, order: seq<FilePath>, id: ID)
    requires other != id
    ensures SamePartial(disk, RemoveOn(disk, other, order), id)
  {
    forall f | IsPartialOf(f, id) ensures (f in disk <==> f in RemoveOn(disk, other, order)) && (f in disk ==> disk[f] == RemoveOn(disk, other, order)[f]) {
      RemoveOnElsewhere(disk, other, order, f);
    }
  }

  // ---- one directory ------------------------------------------------------------------

  /** Opening a directory that names itself changes nothing, and yields what loads. */
  lemma OpensItself(disk: Disk, id: ID, w: WriteResult)
    requires NamesItself(disk, id)
    ensures var (after, loaded) := LoadPartialOn(disk, id, w);
            && after == disk
            && match LoadPartialFrom(disk, id)
               case None => loaded.Err?
               case Some(p) => loaded == Ok(p) && p.manifest.id == id
  {
    hide Loaded, SafeName, Encodable, Geometry;
  }

  /** What a node makes of a partial directory: what it holds is taken up again if the
      policy passes it; if nothing can be loaded the publication is pursued afresh. */
  ghost predicate TakenUp(c: Config, disk: Disk, t: Table, id: ID) {
    match LoadPartialFrom(disk, id)
    case None => id in t.entries && t.entries[id].assembly.None?
    case Some(p) =>
      if Accept(c.ed, c.policy, p.manifest, true, Wanted(disk, id)) then id in t.entries && t.entries[id].assembly == Some(p)
      else id in t.entries ==> t.entries[id].assembly.None?
  }

  lemma OpenWants(disk: Disk, id: ID, w: WriteResult, order: seq<FilePath>, other: ID)
    ensures Wanted(LoadPartialOn(disk, id, w).0, other) == Wanted(disk, other)
    ensures Wanted(RemoveOn(disk, id, order), other) == Wanted(disk, other)
  {
    LoadPartialWants(disk, id, w, other);
    RemoveOnWants(disk, id, order, other);
  }

  lemma OpensOwn(c: Config, s: State, env: Env, k: nat, id: ID)
    requires NamesItself(s.disk, id) && id !in s.table.entries
    ensures TakenUp(c, s.disk, StartPartial(c, s, env, k, id).table, id)
  {
    OpensItself(s.disk, id, env.write(k));
    hide LoadPartialOn, RemoveOn, Accept, LoadPartialFrom, NamesItself, Own;
    var (disk, loaded) := LoadPartialOn(s.disk, id, env.write(k));
    OwnSame(s.(disk := disk), id, id);
    OwnSame(s.(disk := RemoveOn(disk, id, env.order)), id, id);
  }

  lemma OpensOther(c: Config, s: State, env: Env, k: nat, other: ID, id: ID)
    requires other != id && PartialManifest(id) in s.disk
    ensures var t := StartPartial(c, s, env, k, other);
            && SamePartial(s.disk, t.disk, id) && Wanted(t.disk, id) == Wanted(s.disk, id)
            && (id in t.table.entries <==> id in s.table.entries)
            && (id in s.table.entries ==> t.table.entries[id].assembly == s.table.entries[id].assembly)
  {
    OpenSame(s.disk, other, env.write(k), id);
    var (disk, loaded) := LoadPartialOn(s.disk, other, env.write(k));
    RemoveSame(disk, other, env.order, id);
    SamePartialTrans(s.disk, disk, RemoveOn(disk, other, env.order), id);
    OpenWants(s.disk, other, env.write(k), env.order, id);
    OpenWants(disk, other, env.write(k), env.order, id);
    OwnOther(s.(disk := disk), other, id);
    OwnOther(s.(disk := RemoveOn(disk, other, env.order)), other, id);
    hide LoadPartialOn, RemoveOn, Accept, Own, SamePartial, Wanted;
  }

  lemma OwnOther(s: State, own: ID, id: ID)
    requires own != id
    ensures var t := Own(s, own);
            && (id in t.table.entries <==> id in s.table.entries) && t.disk == s.disk && own in t.table.entries
            && (id in s.table.entries ==> t.table.entries[id] == s.table.entries[id])
  {}

  // ---- all of them --------------------------------------------------------------------

  lemma {:induction false} OthersOpen(c: Config, s: State, env: Env, ids: seq<ID>, id: ID)
    requires id !in ids && PartialManifest(id) in s.disk && id !in s.table.entries
    ensures var t := StartPartials(c, s, env, ids);
            SamePartial(s.disk, t.disk, id) && PartialManifest(id) in t.disk && Wanted(t.disk, id) == Wanted(s.disk, id) && id !in t.table.entries
  {
    hide StartPartial, Wanted;
    assert IsPartialOf(PartialManifest(id), id);
    if ids != [] {
      var n := |ids| - 1;
      OthersOpen(c, s, env, ids[..n], id);
      OpensOther(c, StartPartials(c, s, env, ids[..n]), env, n, ids[n], id);
      SamePartialTrans(s.disk, StartPartials(c, s, env, ids[..n]).disk, StartPartials(c, s, env, ids).disk, id);
    }
  }

  lemma OthersKeep(c: Config, s: State, env: Env, k: nat, other: ID, id: ID)
    requires other != id
    ensures var t := StartPartial(c, s, env, k, other);
            && (id in t.table.entries <==> id in s.table.entries)
            && (id in s.table.entries ==> t.table.entries[id].assembly == s.table.entries[id].assembly)
  {
    var disk := LoadPartialOn(s.disk, other, env.write(k)).0;
    OwnOther(s.(disk := disk), other, id);
    OwnOther(s.(disk := RemoveOn(disk, other, env.order)), other, id);
    hide LoadPartialOn, RemoveOn, Accept, Own;
  }

  lemma SameTakenUp(c: Config, a: Disk, b: Disk, t: Table, id: ID)
    requires SamePartial(a, b, id) && NamesItself(a, id) && Wanted(a, id) == Wanted(b, id) && TakenUp(c, b, t, id)
    ensures TakenUp(c, a, t, id)
  {
    SameResume(a, b, id);
    hide LoadPartialFrom, Accept, SamePartial, NamesItself, Wanted;
  }

  lemma {:induction false} AllOpen(c: Config, s: State, env: Env, ids: seq<ID>, id: ID)
    requires Distinct(ids) && id in ids && NamesItself(s.disk, id) && PartialManifest(id) in s.disk && id !in s.table.entries
    ensures TakenUp(c, s.disk, StartPartials(c, s, env, ids).table, id)
  {
    hide StartPartial, TakenUp, NamesItself, SamePartial, Wanted;
    var n := |ids| - 1;
    var front := StartPartials(c, s, env, ids[..n]);
    if ids[n] == id {
      OthersOpen(c, s, env, ids[..n], id);
      SameResume(s.disk, front.disk, id);
      OpensOwn(c, front, env, n, id);
      SameTakenUp(c, s.disk, front.disk, StartPartials(c, s, env, ids).table, id);
    } else {
      AllOpen(c, s, env, ids[..n], id);
      OthersKeep(c, front, env, n, ids[n], id);
      StaysTakenUp(c, s.disk, front.table, StartPartials(c, s, env, ids).table, id);
    }
  }

  lemma StaysTakenUp(c: Config, disk: Disk, t: Table, u: Table, id: ID)
    requires TakenUp(c, disk, t, id)
    requires (id in t.entries <==> id in u.entries) && (id in t.entries ==> u.entries[id].assembly == t.entries[id].assembly)
    ensures TakenUp(c, disk, u, id)
  {
    hide LoadPartialFrom, Accept;
  }

  lemma {:induction false} WantedKeep(s: State, ids: seq<ID>, id: ID)
    ensures var t := StartWanted(s, ids).table;
            && (id in s.table.entries ==> id in t.entries && t.entries[id].assembly == s.table.entries[id].assembly)
            && (id in ids ==> id in t.entries) && (id in t.entries && id !in s.table.entries ==> t.entries[id].assembly.None?)
  {
    hide Own;
    if ids != [] {
      var n := |ids| - 1;
      WantedKeep(s, ids[..n], id);
      OwnSame(StartWanted(s, ids[..n]), ids[n], id);
    }
  }

  /** A node takes up again, from every partial directory that names itself, exactly what can
      be loaded, if the policy passes it now; where nothing can be loaded it pursues the
      publication afresh. */
  lemma TakesUp(c: Config, b: Boot, id: ID)
    requires Distinct(b.partials) && id in b.partials && NamesItself(b.disk, id) && PartialManifest(id) in b.disk
    ensures TakenUp(c, b.disk, Booted(c, b).table, id)
  {
    var blank := Blank(c, b.disk, b.tx, b.env);
    hide StartPartials, StartWanted, Inventory, NamesItself, LoadPartialFrom, Accept;
    AllOpen(c, blank, b.env, b.partials, id);
    WantedKeep(StartPartials(c, blank, b.env, b.partials), b.wanted, id);
  }

  /** Every wanted publication is pursued. */
  lemma PursuesWanted(c: Config, b: Boot, id: ID)
    requires id in b.wanted
    ensures id in Booted(c, b).table.entries
  {
    hide StartPartials, StartWanted, Inventory;
    WantedKeep(StartPartials(c, Blank(c, b.disk, b.tx, b.env), b.env, b.partials), b.wanted, id);
  }

  lemma {:induction false} PartialsSilent(c: Config, s: State, env: Env, ids: seq<ID>)
    ensures StartPartials(c, s, env, ids).sent == s.sent
  {
    hide LoadPartialOn, RemoveOn, Accept;
    if ids != [] {
      PartialsSilent(c, s, env, ids[..|ids| - 1]);
    }
  }

  lemma {:induction false} WantedSilent(s: State, ids: seq<ID>)
    ensures StartWanted(s, ids).sent == s.sent
  {
    if ids != [] {
      WantedSilent(s, ids[..|ids| - 1]);
    }
  }

  /** A node that starts has sent nothing, and advertises first when the delay is over that
      was drawn for it. */
  lemma SilentAtFirst(c: Config, b: Boot)
    ensures Booted(c, b).sent == [] && Booted(c, b).nextAdvertise == b.env.now + b.delay
  {
    PartialsSilent(c, Blank(c, b.disk, b.tx, b.env), b.env, b.partials);
    WantedSilent(StartPartials(c, Blank(c, b.disk, b.tx, b.env), b.env, b.partials), b.wanted);
    hide Inventory, StartPartials, StartWanted;
  }

  lemma FoundNames(disk: Disk, p: Parts)
    requires Found(disk, p)
    ensures NamesItself(disk, p.manifest.id) && PartialManifest(p.manifest.id) in disk
  {
    hide Loaded, SafeName;
  }

  /** A restart between any two events goes on where the node was: over every run in which
      nobody else writes to the store, with nothing lost and the object not complete yet, the
      next start from that disk assembles at least what was assembled, if its policy passes
      it. */
  lemma GoesOn(c: Config, b: Boot, states: seq<State>, events: seq<Event>, k: nat, id: ID, next: Boot)
    requires Run(c, states, events) && states[0] == Booted(c, b) && Named(states[0]) && k < |states|
    requires forall i :: 0 <= i < |events| ==> !events[i].Outside?
    requires id in states[k].table.entries && states[k].table.entries[id].assembly.Some?
    requires !LostBefore(c, states, events, k, id) && !CompleteOn(c.sha, c.ed, states[k].disk, id)
    requires next.disk == states[k].disk && Distinct(next.partials) && id in next.partials
    requires Accept(c.ed, c.policy, states[k].table.entries[id].assembly.value.manifest, true, Wanted(next.disk, id))
    ensures var t := Booted(c, next).table;
            id in t.entries && t.entries[id].assembly.Some? && Extends(t.entries[id].assembly.value, states[k].table.entries[id].assembly.value)
  {
    hide Inv, Named, Step, Possible, Booted, OnDisk, CompleteOn, LostBefore, Storable, NamesItself, Accept, LoadPartialFrom;
    NothingForgotten(c, b, states, events, k, id);
    var p := states[k].table.entries[id].assembly.value;
    FoundNames(next.disk, p);
    TakesUp(c, next, id);
  }
}
