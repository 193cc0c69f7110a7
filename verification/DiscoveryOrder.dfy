/** What an orderly server adds: discovered characteristics partition their service's handles. */
module DiscoveryOrder {
  import opened Widths
  import opened Attributes
  import opened ServiceTable
  import opened DiscoveryList
  import opened Queries
  import opened DiscoveryWalk

  /** Value handles come in increasing order inside the service, each right behind its declaration;
      descriptors lie in the range that was asked for. */
  predicate Orderly(w: Walk, r: Result) {
    w.curr.Some? && w.curr.value < |w.db| ==>
      var d := w.db[w.curr.value];
      match r
      case CharResult(_, _, value, _) =>
        d.srv.hdr.handle < value <= d.srv.endGroup && value < 0xFFFF &&
        forall i :: 0 <= i < |d.chars| ==> d.chars[i].ch.value + 2 <= value
      case DescResult(handle, _) =>
        d.cursor < |d.chars| ==> StartOf(d.chars[d.cursor]) <= handle <= EndOf(d, d.cursor)
      case _ => true
  }

  predicate AllOrderly(cfg: Config, w: Walk, rs: seq<Result>)
    decreases |rs|
  {
    rs == [] || (Orderly(w, rs[0]) && AllOrderly(cfg, Apply(cfg, w, rs[0]), rs[1..]))
  }

  // ----- The order invariant -----

  ghost predicate NeatDescs(d: DisSrv) {
    forall i {:trigger EndOf(d, i)} :: 0 <= i < |d.chars| ==>
      var c := d.chars[i];
      c.ch.value < 0xFFFF &&
      (c.descEnd != 0 ==> c.ch.value < c.descEnd <= EndOf(d, i)) &&
      (c.cccd.handle != 0 ==> c.ch.value < c.cccd.handle <= c.descEnd)
  }

  ghost predicate NoDescs(d: DisSrv) {
    forall i :: 0 <= i < |d.chars| ==> d.chars[i].descEnd == 0 && d.chars[i].cccd.handle == 0
  }

  ghost predicate NeatSrv(d: DisSrv) {
    OrderedValues(d) && NeatDescs(d)
  }

  ghost predicate Neat(w: Walk) {
    (forall i :: 0 <= i < |w.db| ==> NeatSrv(w.db[i])) &&
    (w.calls != [] && w.calls[|w.calls|-1].Chars? && w.curr.Some? && w.curr.value < |w.db| ==> NoDescs(w.db[w.curr.value]))
  }

  lemma AddCharNeat(d: DisSrv, decl: u16, props: u16, value: u16, u: Uuid)
    requires NeatSrv(d) && NoDescs(d)
    requires d.srv.hdr.handle < value <= d.srv.endGroup && value < 0xFFFF
    requires forall i :: 0 <= i < |d.chars| ==> d.chars[i].ch.value + 2 <= value
    ensures NeatSrv(AddChar(d, decl, props, value, u)) && NoDescs(AddChar(d, decl, props, value, u))
  {
    var e := AddChar(d, decl, props, value, u);
    var n := |d.chars|;
    assert |e.chars| == n + 1 && e.chars[n].ch.value == value && e.chars[n].descEnd == 0;
    forall i | 0 <= i < n ensures e.chars[i] == d.chars[i] && d.chars[i].ch.value < 0xFFFF {
      assert EndOf(d, i) == EndOf(d, i);
    }
  }

  lemma AddDescNeat(d: DisSrv, handle: u16, u: Uuid)
    requires NeatSrv(d) && d.cursor < |d.chars|
    requires StartOf(d.chars[d.cursor]) <= handle <= EndOf(d, d.cursor)
    ensures NeatSrv(AddDesc(d, handle, u))
  {
    var e := AddDesc(d, handle, u);
    AddDescShape(d, handle, u);
    forall i | 0 <= i < |e.chars|
      ensures
        var c := e.chars[i];
        c.ch.value < 0xFFFF && (c.descEnd != 0 ==> c.ch.value < c.descEnd <= EndOf(e, i)) &&
        (c.cccd.handle != 0 ==> c.ch.value < c.cccd.handle <= c.descEnd)
    {
      assert EndOf(e, i) == EndOf(d, i);
    }
  }

  /** The rank of a running procedure says where results go. */
  lemma ApplyNeat(cfg: Config, w: Walk, r: Result)
    requires WalkOk(cfg, w) && w.state == Discovering && Neat(w)
    requires Fitting(w.calls[|w.calls|-1], r) && Orderly(w, r)
    ensures Neat(Apply(cfg, w, r))
  {
    hide ListOk, Bound, Visits, Progress, ClosedSrvs, Unvisited, NeatSrv, NoDescs, AddChar, AddDesc, AllPrimary, SecondaryFrom, ClosedChars;
    match r
    case SrvResult(first, last, u) =>
      if Wanted(cfg, u) { NewNeat(Apply(cfg, w, r).db[|w.db|]); }
    case IncResult(decl, first, last, u) => IncNeat(w.db[w.curr.value], decl, first, last, u);
    case CharResult(decl, props, value, u) => AddCharNeat(w.db[w.curr.value], decl, props, value, u);
    case DescResult(handle, u) => AddDescNeat(w.db[w.curr.value], handle, u);
  }

  lemma NewNeat(d: DisSrv)
    requires d.chars == []
    ensures NeatSrv(d) && NoDescs(d)
  {
  }

  lemma IncNeat(d: DisSrv, decl: u16, first: u16, last: u16, u: Uuid)
    requires NeatSrv(d)
    ensures NeatSrv(AddInclude(d, decl, first, last, u))
  {
    var e := AddInclude(d, decl, first, last, u);
    SameNeat(d, e);
  }

  /** Nothing in the order invariant depends on end handles, properties or includes. */
  lemma SameNeat(d: DisSrv, e: DisSrv)
    requires NeatSrv(d) && e.srv == d.srv && SameShape(d.chars, e.chars)
    requires forall i :: 0 <= i < |d.chars| ==> e.chars[i].descEnd == d.chars[i].descEnd && e.chars[i].cccd == d.chars[i].cccd
    ensures NeatSrv(e)
  {
    forall i | 0 <= i < |e.chars|
      ensures
        var c := e.chars[i];
        c.ch.value < 0xFFFF && (c.descEnd != 0 ==> c.ch.value < c.descEnd <= EndOf(e, i)) &&
        (c.cccd.handle != 0 ==> c.ch.value < c.cccd.handle <= c.descEnd)
    {
      assert EndOf(e, i) == EndOf(d, i);
    }
  }

  lemma {:induction false} ApplyAllNeat(cfg: Config, w: Walk, rs: seq<Result>)
    requires WalkOk(cfg, w) && w.state == Discovering && Neat(w)
    requires AllFitting(w.calls[|w.calls|-1], rs) && AllOrderly(cfg, w, rs)
    ensures Neat(ApplyAll(cfg, w, rs))
    decreases |rs|
  {
    hide WalkOk, Neat, Fitting, Apply, Orderly, Measure;
    if rs != [] {
      assert rs[0] in rs;
      ApplyOk(cfg, w, rs[0]);
      ApplyNeat(cfg, w, rs[0]);
      ApplyAllNeat(cfg, Apply(cfg, w, rs[0]), rs[1..]);
    }
  }

  // ----- Ends of procedures -----

  lemma {:induction false} CloseFromDescs(d: DisSrv, i: nat)
    requires i <= |d.chars|
    ensures
      var (e, j) := CloseFrom(d, i);
      |e.chars| == |d.chars| && j <= |d.chars| &&
      forall x :: 0 <= x < |d.chars| ==> e.chars[x].descEnd == d.chars[x].descEnd && e.chars[x].cccd == d.chars[x].cccd
    decreases |d.chars| - i
  {
    hide HasRoom, EndOf, Notifies, Silenced;
    if i < |d.chars| { CloseFromDescs(Close(d, i), i + 1); }
  }

  ghost predicate NeatDb(db: seq<DisSrv>) {
    forall i :: 0 <= i < |db| ==> NeatSrv(db[i])
  }

  lemma SecondaryNeat(cfg: Config, db: seq<DisSrv>)
    requires ListOk(db) && NeatDb(db)
    ensures var e := AddSecondary(cfg, db); |db| <= |e| && NeatDb(e) && forall i :: |db| <= i < |e| ==> NoDescs(e[i])
  {
    var e := AddSecondary(cfg, db);
    SecondaryClosure(cfg, db);
    hide ListOk, NeatSrv, AddSecondary, Closed, Closable, NoDescs;
    forall i | 0 <= i < |e| ensures NeatSrv(e[i]) && (i >= |db| ==> NoDescs(e[i])) {
      if i < |db| {
        assert e[..|db|][i] == e[i];
      } else {
        NewNeat(e[i]);
      }
    }
  }

  lemma AfterServiceNeat(cfg: Config, w: Walk, accept: Answers)
    requires ListOk(w.db) && NeatDb(w.db) && w.curr.Some? && w.curr.value < |w.db| && w.state == Discovering
    requires Unvisited(w.db, w.curr.value + 1)
    ensures Neat(AfterService(cfg, w, accept))
  {
    hide ListOk, NeatSrv, AddSecondary, NoDescs;
    SecondaryNeat(cfg, w.db);
    forall i | w.curr.value < i < |w.db| ensures NoDescs(w.db[i]) { NewNeat(w.db[i]); }
  }

  lemma DoneNeat(cfg: Config, w: Walk, accept: Answers)
    requires WalkOk(cfg, w) && w.state == Discovering && Neat(w)
    requires forall d :: d in w.db ==> |d.chars| <= 255
    ensures Neat(Done(cfg, w, accept))
  {
    hide ListOk, Bound, Visits, ClosedSrvs, Unvisited, AllPrimary, SecondaryFrom, ClosedChars, Progress, CloseFrom, AfterService, Neat, NextService, Ask;
    if Collecting(w) {
      CollectedNeat(cfg, w, accept);
    } else {
      var c, d := w.calls[|w.calls|-1], w.db[w.curr.value];
      assert d in w.db;
      if c.Relations? {
        RelationsNeat(cfg, w, accept);
      } else if d.chars == [] {
        NoCharsNeat(cfg, w, accept);
      } else {
        CloseNeat(cfg, w, if c.Chars? then 0 else d.cursor + 1, accept);
      }
    }
  }

  lemma RelationsNeat(cfg: Config, w: Walk, accept: Answers)
    requires WalkOk(cfg, w) && w.state == Discovering && AtService(w) && Neat(w) && w.calls[|w.calls|-1].Relations?
    ensures Neat(Done(cfg, w, accept))
  {
    hide ListOk, Bound, Visits, ClosedSrvs, Unvisited, AllPrimary, NeatSrv, NoDescs;
    NewNeat(w.db[w.curr.value]);
  }

  lemma NoCharsNeat(cfg: Config, w: Walk, accept: Answers)
    requires WalkOk(cfg, w) && w.state == Discovering && AtService(w) && Neat(w)
    ensures Neat(AfterService(cfg, w, accept))
  {
    hide ListOk, NeatSrv, NoDescs, AfterService;
    AfterServiceNeat(cfg, w, accept);
  }

  lemma CollectedNeat(cfg: Config, w: Walk, accept: Answers)
    requires WalkOk(cfg, w) && w.state == Discovering && Neat(w) && Collecting(w)
    ensures Neat(Done(cfg, w, accept))
  {
    hide NeatSrv, NoDescs;
    if w.db == [] { EmptyList(cfg); }
    hide ListOk, Bound, Unvisited, AllPrimary, AddSecondary;
  }

  lemma CloseNeatSrv(d: DisSrv, c: Call, from: u16)
    requires NeatSrv(d) && (c.Chars? || (c.Descs? && d.cursor < |d.chars| && ClosedChars(d, d.cursor + 1)))
    requires from == (if c.Chars? then 0 else d.cursor + 1) <= |d.chars|
    ensures
      var (e, j) := CloseFrom(d.(cursor := from), from);
      NeatSrv(e) && j <= |e.chars| == |d.chars| && e.srv == d.srv && e.spec == d.spec
  {
    var f := d.(cursor := from);
    CloseFromDescs(f, from);
    ClosedStart(d, c, from);
    CloseFromSpec(f, from);
    var (e, j) := CloseFrom(f, from);
    SameNeat(d, e);
  }

  lemma CloseNeat(cfg: Config, w: Walk, from: u16, accept: Answers)
    requires WalkOk(cfg, w) && w.state == Discovering && AtService(w) && Neat(w)
    requires w.calls[|w.calls|-1].Chars? || w.calls[|w.calls|-1].Descs?
    requires
      var d, c := w.db[w.curr.value], w.calls[|w.calls|-1];
      |d.chars| <= 255 && from == (if c.Chars? then 0 else d.cursor + 1) <= |d.chars|
    ensures
      var d := w.db[w.curr.value];
      var (e, j) := CloseFrom(d.(cursor := from), from);
      j <= |e.chars| <= 255 &&
      Neat(if j < |e.chars| then
          Ask(Update(w, e.(cursor := j)), Descs(StartOf(e.chars[j]), EndOf(e, j)), w.curr.value, accept)
        else AfterService(cfg, Update(w, e), accept))
  {
    hide ListOk, Bound, ClosedSrvs, AllPrimary, SecondaryFrom, Unvisited, Visits, CloseFrom, NeatSrv, NoDescs, ClosedChars, Progress, DisSrvOk, AfterService;
    var k := w.curr.value;
    var d, c := w.db[k], w.calls[|w.calls|-1];
    assert DisSrvOk(d) by { MemberListed(w.db, k); }
    CloseResult(d, c, from);
    CloseNeatSrv(d, c, from);
    var (e, j) := CloseFrom(d.(cursor := from), from);
    if j < |e.chars| {
      SameNeatCursor(e, j);
    } else {
      UpdateKeeps(cfg, w.db, k, e);
      AfterServiceNeat(cfg, Update(w, e), accept);
    }
  }

  lemma MemberListed(db: seq<DisSrv>, k: nat)
    requires ListOk(db) && k < |db|
    ensures DisSrvOk(db[k])
  {
    assert db[k] in db;
  }

  lemma SameNeatCursor(e: DisSrv, j: u16)
    requires NeatSrv(e)
    ensures NeatSrv(e.(cursor := j))
  {
    SameNeat(e, e.(cursor := j));
  }

  // ----- Orderly walks -----

  /** The server behaves in order at every procedure of the walk. */
  ghost predicate OrderlyWalk(cfg: Config, w: Walk, s: Stack)
    requires WalkOk(cfg, w)
    decreases if w.state == Discovering then 1 else 0,
      Measure(w).stage, Measure(w).services, Measure(w).phase, Measure(w).chars
  {
    w.state == Discovering ==>
      (Discovers(cfg, w);
       Behaves(cfg, w, s) ==>
         (RoundOk(cfg, w, s);
          (!s.fails(w.calls) ==> AllOrderly(cfg, w, s.results(w.calls))) && OrderlyWalk(cfg, Round(cfg, w, s), s)))
  }

  lemma {:induction false} FinishNeat(cfg: Config, w: Walk, s: Stack)
    requires WalkOk(cfg, w) && Neat(w) && OrderlyWalk(cfg, w, s)
    ensures Finish(cfg, w, s).Some? ==> Neat(Finish(cfg, w, s).value)
    decreases if w.state == Discovering then 1 else 0,
      Measure(w).stage, Measure(w).services, Measure(w).phase, Measure(w).chars
  {
    if w.state == Discovering {
      Discovers(cfg, w);
      if Behaves(cfg, w, s) {
        RoundOk(cfg, w, s);
        RoundNeat(cfg, w, s);
        hide WalkOk, Neat, Round, Measure, Behaves, AllOrderly;
        FinishNeat(cfg, Round(cfg, w, s), s);
      }
    }
  }

  lemma RoundNeat(cfg: Config, w: Walk, s: Stack)
    requires WalkOk(cfg, w) && w.state == Discovering && w.calls != [] && Behaves(cfg, w, s) && Neat(w)
    requires !s.fails(w.calls) ==> AllOrderly(cfg, w, s.results(w.calls))
    ensures Neat(Round(cfg, w, s))
  {
    hide WalkOk, ApplyAll, Done, AllFitting, AllOrderly, NeatSrv, NoDescs;
    if !s.fails(w.calls) {
      var rs := s.results(w.calls);
      ApplyAllOk(cfg, w, rs);
      ApplyAllNeat(cfg, w, rs);
      DoneNeat(cfg, ApplyAll(cfg, w, rs), s.accept);
    }
  }

  lemma NeatIsOrdered(d: DisSrv)
    requires NeatSrv(d) && ClosedChars(d, |d.chars|)
    ensures OrderedChars(d)
  {
    forall i | 0 <= i < |d.chars| ensures DescsInside(d.chars[i]) {
      assert d.chars[i].ch.last == EndOf(d, i);
    }
  }

  /** From an orderly server, a completed walk leaves every service with disjoint characteristic
      ranges inside the service, each CCCD in its own characteristic's range. */
  lemma OrderlyDiscoveryPartitions(cfg: Config, s: Stack)
    requires WalkOk(cfg, Start(s.accept)) && OrderlyWalk(cfg, Start(s.accept), s)
    ensures
      var r := Finish(cfg, Start(s.accept), s);
      r.Some? && r.value.state == Finished ==> forall d :: d in r.value.db ==> Partitioned(Cached(d))
  {
    var w := Start(s.accept);
    FinishNeat(cfg, w, s);
    var r := Finish(cfg, w, s);
    if r.Some? && r.value.state == Finished {
      hide NeatSrv, ClosedChars, Partitioned, Cached, ListOk, Bound, Visits, Finish;
      forall d | d in r.value.db ensures Partitioned(Cached(d)) {
        var i :| 0 <= i < |r.value.db| && r.value.db[i] == d;
        NeatIsOrdered(d);
        HandlePartition(d);
      }
    }
  }
}
