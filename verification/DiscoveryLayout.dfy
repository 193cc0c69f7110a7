/** What a server with disjoint services adds: discovered services, included ones too, have disjoint
    handle ranges, so every handle is attributed to its owner. */
module DiscoveryLayout {
  import opened Widths
  import opened Attributes
  import opened ServiceTable
  import opened DiscoveryList
  import opened IncludeLoop
  import opened Queries
  import opened DiscoveryWalk
  import opened DiscoveryOrder

  /** A service as the server has it. */
  datatype Group = Group(first: u16, last: u16, uuid: Uuid)

  function GroupOf(s: Srv): Group { Group(s.hdr.handle, s.endGroup, s.uuid) }

  function TargetOf(i: Inc): Group { Group(i.first, i.last, i.uuid) }

  /** The server's services do not overlap. */
  ghost predicate Disjoint(gs: set<Group>) {
    (forall g :: g in gs ==> g.first <= g.last) &&
    forall a, b :: a in gs && b in gs && a != b ==> a.last < b.first || b.last < a.first
  }

  /** A result names services of the server, the primary ones in increasing order. */
  ghost predicate Names(gs: set<Group>, db: seq<DisSrv>, r: Result) {
    match r
    case SrvResult(first, last, u) =>
      Group(first, last, u) in gs && forall k :: 0 <= k < |db| ==> db[k].srv.endGroup < first
    case IncResult(_, first, last, u) => Group(first, last, u) in gs
    case _ => true
  }

  ghost predicate AllNamed(cfg: Config, gs: set<Group>, w: Walk, rs: seq<Result>)
    decreases |rs|
  {
    rs == [] || (Names(gs, w.db, rs[0]) && AllNamed(cfg, gs, Apply(cfg, w, rs[0]), rs[1..]))
  }

  // ----- Listed services are different services of the server -----

  ghost predicate TargetsIn(gs: set<Group>, incs: seq<Inc>) {
    forall i :: i in incs ==> TypedInc(i) && TargetOf(i) in gs
  }

  ghost predicate Placed(gs: set<Group>, db: seq<DisSrv>) {
    (forall k :: 0 <= k < |db| ==>
      TypedSrv(db[k].srv) && GroupOf(db[k].srv) in gs && TargetsIn(gs, db[k].incs)) &&
    forall j, k :: 0 <= j < k < |db| ==> GroupOf(db[j].srv) != GroupOf(db[k].srv)
  }

  lemma PlacedSame(gs: set<Group>, a: seq<DisSrv>, b: seq<DisSrv>)
    requires Placed(gs, a) && SameSrvs(a, b)
    ensures Placed(gs, b)
  {
    hide TargetsIn, TypedSrv;
  }

  lemma NothingPlaced(gs: set<Group>)
    ensures Placed(gs, [])
  {
  }

  lemma PlacedAdd(gs: set<Group>, db: seq<DisSrv>, d: DisSrv)
    requires Placed(gs, db) && TypedSrv(d.srv) && GroupOf(d.srv) in gs && d.incs == []
    requires forall k :: 0 <= k < |db| ==> GroupOf(db[k].srv) != GroupOf(d.srv)
    ensures Placed(gs, db + [d])
  {
    assert TargetsIn(gs, []);
    hide TargetsIn, TypedSrv;
  }

  lemma PlacedPut(gs: set<Group>, db: seq<DisSrv>, k: nat, d: DisSrv)
    requires Placed(gs, db) && k < |db| && d.srv == db[k].srv && TargetsIn(gs, d.incs)
    ensures Placed(gs, db[k := d])
  {
    hide TargetsIn, TypedSrv;
  }

  /** Two typed records point at the same service or at different ones. */
  lemma UnlistedIsNew(gs: set<Group>, db: seq<DisSrv>, i: Inc)
    requires Placed(gs, db) && TypedInc(i) && !Listed(db, i)
    ensures forall k :: 0 <= k < |db| ==> GroupOf(db[k].srv) != TargetOf(i)
  {
    forall k | 0 <= k < |db| ensures GroupOf(db[k].srv) != TargetOf(i) {
      assert !Points(i, db[k].srv);
    }
  }

  lemma {:induction false} IncludedPlaced(cfg: Config, gs: set<Group>, db: seq<DisSrv>, incs: seq<Inc>)
    requires Placed(gs, db) && TargetsIn(gs, incs)
    ensures Placed(gs, AddIncluded(cfg, db, incs))
    decreases |incs|
  {
    hide Placed, Listed, Wanted;
    if incs != [] {
      var i := incs[0];
      assert i in incs;
      if FindListed(db, i) < |db| {
        IncludedPlaced(cfg, gs, db, incs[1..]);
      } else if Wanted(cfg, i.uuid) {
        UnlistedIsNew(gs, db, i);
        PlacedAdd(gs, db, NewSecondary(cfg, db, i));
        IncludedPlaced(cfg, gs, db + [NewSecondary(cfg, db, i)], incs[1..]);
      }
    }
  }

  lemma {:induction false} SecondariesPlaced(cfg: Config, gs: set<Group>, db: seq<DisSrv>, work: seq<DisSrv>)
    requires Placed(gs, db) && forall k :: 0 <= k < |work| ==> TargetsIn(gs, work[k].incs)
    ensures Placed(gs, AddSecondaries(cfg, db, work))
    decreases |work|
  {
    hide Placed, TargetsIn, AddIncluded;
    if work != [] {
      IncludedPlaced(cfg, gs, db, work[0].incs);
      SecondariesPlaced(cfg, gs, AddIncluded(cfg, db, work[0].incs), work[1..]);
    }
  }

  lemma SecondaryPlaced(cfg: Config, gs: set<Group>, db: seq<DisSrv>)
    requires Placed(gs, db)
    ensures Placed(gs, AddSecondary(cfg, db))
  {
    hide AddSecondaries, TargetsIn;
    SecondariesPlaced(cfg, gs, db, db);
  }

  // ----- Every step of the walk keeps this -----

  lemma ApplyPlaced(cfg: Config, gs: set<Group>, w: Walk, r: Result)
    requires Disjoint(gs) && Placed(gs, w.db) && Names(gs, w.db, r)
    ensures Placed(gs, Apply(cfg, w, r).db)
  {
    hide Wanted;
    match r
    case SrvResult(first, last, u) =>
      if Wanted(cfg, u) {
        PrimaryIsNew(gs, w.db, Group(first, last, u));
        var v := Apply(cfg, w, r);
        PlacedAdd(gs, w.db, v.db[|w.db|]);
      }
    case _ =>
      if w.curr.Some? && w.curr.value < |w.db| {
        var v := Apply(cfg, w, r);
        assert TargetsIn(gs, w.db[w.curr.value].incs);
        PlacedPut(gs, w.db, w.curr.value, v.db[w.curr.value]);
      }
  }

  lemma PrimaryIsNew(gs: set<Group>, db: seq<DisSrv>, g: Group)
    requires Disjoint(gs) && Placed(gs, db) && g in gs && forall k :: 0 <= k < |db| ==> db[k].srv.endGroup < g.first
    ensures forall k :: 0 <= k < |db| ==> GroupOf(db[k].srv) != g
  {
    hide TargetsIn, TypedSrv;
  }

  lemma {:induction false} ApplyAllPlaced(cfg: Config, gs: set<Group>, w: Walk, rs: seq<Result>)
    requires Disjoint(gs) && Placed(gs, w.db) && AllNamed(cfg, gs, w, rs)
    ensures Placed(gs, ApplyAll(cfg, w, rs).db)
    decreases |rs|
  {
    hide Disjoint, Placed, Names, Apply;
    if rs != [] {
      ApplyPlaced(cfg, gs, w, rs[0]);
      ApplyAllPlaced(cfg, gs, Apply(cfg, w, rs[0]), rs[1..]);
    }
  }

  lemma AfterServicePlaced(cfg: Config, gs: set<Group>, w: Walk, accept: Answers)
    requires Placed(gs, w.db) && w.curr.Some? && w.curr.value < |w.db|
    ensures Placed(gs, AfterService(cfg, w, accept).db)
  {
    hide Placed, AddSecondary;
    NothingPlaced(gs);
    SecondaryPlaced(cfg, gs, w.db);
  }

  lemma NextDescPlaced(cfg: Config, gs: set<Group>, w: Walk, start: bool, accept: Answers)
    requires Placed(gs, w.db) && w.curr.Some? && w.curr.value < |w.db|
    ensures Placed(gs, NextDesc(cfg, w, start, accept).db)
  {
    hide Placed, AfterService, CloseFrom, StartOf, EndOf, To16;
    NothingPlaced(gs);
    var k := w.curr.value;
    var d := w.db[k];
    if d.chars == [] {
      AfterServicePlaced(cfg, gs, w, accept);
    } else {
      var from := if start then 0 else To16(d.cursor + 1);
      var at := if from < |d.chars| then from else |d.chars|;
      CloseKeepsLength(d.(cursor := from), at);
      var (e, j) := CloseFrom(d.(cursor := from), at);
      PlacedClosed(gs, w.db, k, e);
      AfterServicePlaced(cfg, gs, Update(w, e), accept);
      if j < 0x1_0000 { PlacedClosed(gs, w.db, k, e.(cursor := j)); }
    }
  }

  lemma PlacedClosed(gs: set<Group>, db: seq<DisSrv>, k: nat, e: DisSrv)
    requires Placed(gs, db) && k < |db| && e.srv == db[k].srv && e.incs == db[k].incs
    ensures Placed(gs, db[k := e])
  {
    PlacedSame(gs, db, db[k := e]);
  }

  lemma DonePlaced(cfg: Config, gs: set<Group>, w: Walk, accept: Answers)
    requires Placed(gs, w.db) && w.calls != []
    ensures Placed(gs, Done(cfg, w, accept).db)
  {
    hide Placed, NextDesc, AddSecondary;
    NothingPlaced(gs);
    SecondaryPlaced(cfg, gs, w.db);
    if w.curr.Some? && w.curr.value < |w.db| {
      NextDescPlaced(cfg, gs, w, true, accept);
      NextDescPlaced(cfg, gs, w, false, accept);
    }
  }

  // ----- Whole walks -----

  /** At every procedure of the walk the results name services of the server. */
  ghost predicate NamedWalk(cfg: Config, gs: set<Group>, w: Walk, s: Stack)
    requires WalkOk(cfg, w)
    decreases if w.state == Discovering then 1 else 0,
      Measure(w).stage, Measure(w).services, Measure(w).phase, Measure(w).chars
  {
    w.state == Discovering ==>
      (Discovers(cfg, w);
       Behaves(cfg, w, s) ==>
         (RoundOk(cfg, w, s);
          (!s.fails(w.calls) ==> AllNamed(cfg, gs, w, s.results(w.calls))) && NamedWalk(cfg, gs, Round(cfg, w, s), s)))
  }

  lemma RoundPlaced(cfg: Config, gs: set<Group>, w: Walk, s: Stack)
    requires w.calls != [] && Disjoint(gs) && Placed(gs, w.db)
    requires !s.fails(w.calls) ==> AllNamed(cfg, gs, w, s.results(w.calls))
    ensures Placed(gs, Round(cfg, w, s).db)
  {
    hide Placed, ApplyAll, Done, AllNamed, Disjoint;
    NothingPlaced(gs);
    if !s.fails(w.calls) {
      var v := ApplyAll(cfg, w, s.results(w.calls));
      ApplyAllPlaced(cfg, gs, w, s.results(w.calls));
      if v.calls != [] { DonePlaced(cfg, gs, v, s.accept); }
    }
  }

  lemma {:induction false} FinishPlaced(cfg: Config, gs: set<Group>, w: Walk, s: Stack)
    requires WalkOk(cfg, w) && Disjoint(gs) && Placed(gs, w.db) && NamedWalk(cfg, gs, w, s)
    ensures Finish(cfg, w, s).Some? ==> Placed(gs, Finish(cfg, w, s).value.db)
    decreases if w.state == Discovering then 1 else 0,
      Measure(w).stage, Measure(w).services, Measure(w).phase, Measure(w).chars
  {
    if w.state == Discovering {
      Discovers(cfg, w);
      if Behaves(cfg, w, s) {
        RoundOk(cfg, w, s);
        RoundPlaced(cfg, gs, w, s);
        hide WalkOk, Placed, Round, Measure, Behaves, AllNamed;
        FinishPlaced(cfg, gs, Round(cfg, w, s), s);
      }
    }
  }

  lemma PlacedDisjoint(gs: set<Group>, db: seq<DisSrv>)
    requires Disjoint(gs) && Placed(gs, db)
    ensures DisjointSrvs(Cache(db))
  {
    hide Cache, Cached, TargetsIn, TypedSrv;
    var cs := Cache(db);
    forall i, j, h | 0 <= i < j < |cs| ensures !(Spans(cs[i].srv, h) && Spans(cs[j].srv, h)) {
      CachedHead(db, i);
      CachedHead(db, j);
      var a, b := GroupOf(db[i].srv), GroupOf(db[j].srv);
      assert a in gs && b in gs && a != b;
    }
  }

  lemma CachedHead(db: seq<DisSrv>, i: nat)
    requires i < |db|
    ensures Cache(db)[i] == Cached(db[i]) && Cache(db)[i].srv == db[i].srv
  {
    hide Cache;
  }

  /** From a server whose services do not overlap, and that reports the primary ones in increasing
      order, any completed walk leaves services with disjoint ranges, the added secondary ones among
      them. */
  lemma DiscoveryDisjoint(cfg: Config, gs: set<Group>, s: Stack)
    requires Disjoint(gs) && WalkOk(cfg, Start(s.accept)) && NamedWalk(cfg, gs, Start(s.accept), s)
    ensures
      var r := Finish(cfg, Start(s.accept), s);
      r.Some? && r.value.state == Finished ==> DisjointSrvs(Cache(r.value.db))
  {
    hide Finish;
    var w := Start(s.accept);
    FinishPlaced(cfg, gs, w, s);
    var r := Finish(cfg, w, s);
    if r.Some? { PlacedDisjoint(gs, r.value.db); }
  }

  /** So after an orderly discovery every handle of a characteristic is looked up to its owner: to the
      service, and to the role it has in the one characteristic whose range holds it. */
  lemma DiscoveryAttributes(cfg: Config, gs: set<Group>, s: Stack, h: u16, k: nat, i: nat)
    requires Disjoint(gs) && WalkOk(cfg, Start(s.accept))
    requires NamedWalk(cfg, gs, Start(s.accept), s) && OrderlyWalk(cfg, Start(s.accept), s)
    requires Finish(cfg, Start(s.accept), s).Some? && Finish(cfg, Start(s.accept), s).value.state == Finished
    requires
      var cs := Cache(Finish(cfg, Start(s.accept), s).value.db);
      h != 0 && k < |cs| && CharTables(cs[k]) && OwnerAt(cs[k], h, i)
    ensures
      var cs := Cache(Finish(cfg, Start(s.accept), s).value.db);
      FindSrvAt(cs, h) == k && CharDesc(cs[k], h).Found? && NamesRole(CharDesc(cs[k], h).role, RowAtIndex(cs[k], i), h)
  {
    hide Finish, DisjointSrvs, Cache, Cached, OwnerAt, NamedWalk, OrderlyWalk, WalkOk, FindSrvAt, CharDesc, NamesRole, Partitioned;
    DiscoveryDisjoint(cfg, gs, s);
    OrderlyDiscoveryPartitions(cfg, s);
    WalkCovers(cfg, s);
    var db := Finish(cfg, Start(s.accept), s).value.db;
    CachedHead(db, k);
    assert db[k] in db;
    CachedRowsTyped(db, k);
    HandleAttribution(Cache(db), h, k, i);
  }

  lemma CachedRowsTyped(db: seq<DisSrv>, k: nat)
    requires ListOk(db) && k < |db|
    ensures TypedRows(Cached(db[k]).char16, Char16) && TypedRows(Cached(db[k]).char128, Char128)
  {
    hide Pick, CharRows;
    assert db[k] in db;
    var rs := CharRows(db[k].chars);
    forall r | r in rs ensures TypedRow(r) {
      var i :| 0 <= i < |rs| && rs[i] == r;
      assert db[k].chars[i] in db[k].chars;
    }
    PickMembers(rs, Char16);
    PickMembers(rs, Char128);
  }
}
