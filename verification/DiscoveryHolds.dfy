/** The list a completed walk leaves is what the stack reported, service by service and characteristic by
    characteristic, in the order of the reports. */
module DiscoveryHolds {
  import opened Widths
  import opened Attributes
  import opened ServiceTable
  import opened DiscoveryList
  import opened IncludeLoop
  import opened Queries
  import opened DiscoveryWalk

  // ----- The log -----

  /** A result, with the positions of the service and of the characteristic that were asked about. */
  datatype Entry = Entry(srv: nat, at: nat, r: Result)

  function Filed(w: Walk, r: Result): Entry {
    var k := if w.curr.Some? then w.curr.value else 0;
    Entry(k, if k < |w.db| then w.db[k].cursor else 0, r)
  }

  function Log(cfg: Config, w: Walk, rs: seq<Result>): seq<Entry>
    decreases |rs|
  {
    if rs == [] then [] else [Filed(w, rs[0])] + Log(cfg, Apply(cfg, w, rs[0]), rs[1..])
  }

  /** Everything reported from here to the end of the walk. */
  ghost function WalkLog(cfg: Config, w: Walk, s: Stack): seq<Entry>
    requires WalkOk(cfg, w)
    decreases if w.state == Discovering then 1 else 0,
      Measure(w).stage, Measure(w).services, Measure(w).phase, Measure(w).chars
  {
    if w.state != Discovering then []
    else
      Discovers(cfg, w);
      if !Behaves(cfg, w, s) then []
      else
        RoundOk(cfg, w, s);
        (if s.fails(w.calls) then [] else Log(cfg, w, s.results(w.calls))) + WalkLog(cfg, Round(cfg, w, s), s)
  }

  /** The primary services reported and wanted. */
  function SrvsIn(cfg: Config, log: seq<Entry>): seq<Result> {
    if log == [] then []
    else
      var e := log[|log|-1];
      SrvsIn(cfg, log[..|log|-1]) + if e.r.SrvResult? && Wanted(cfg, e.r.uuid) then [e.r] else []
  }

  function IncsIn(log: seq<Entry>, k: nat): seq<Result> {
    if log == [] then []
    else
      var e := log[|log|-1];
      IncsIn(log[..|log|-1], k) + if e.r.IncResult? && e.srv == k then [e.r] else []
  }

  function CharsIn(log: seq<Entry>, k: nat): seq<Result> {
    if log == [] then []
    else
      var e := log[|log|-1];
      CharsIn(log[..|log|-1], k) + if e.r.CharResult? && e.srv == k then [e.r] else []
  }

  predicate DescOf(e: Entry, k: nat, i: nat) { e.r.DescResult? && e.srv == k && e.at == i }

  /** The last CCCD reported for a characteristic, as a record of type 9, or one that is all zero. */
  function CccdIn(log: seq<Entry>, k: nat, i: nat): (h: Hdr)
    ensures h.inst == 0
  {
    if log == [] then Hdr(0, 0, 0)
    else
      var e := log[|log|-1];
      if DescOf(e, k, i) && e.r.uuid == Short(0x2902) then Hdr(9, 0, e.r.handle) else CccdIn(log[..|log|-1], k, i)
  }

  /** The highest descriptor reported for a characteristic, or 0. */
  function HighestIn(log: seq<Entry>, k: nat, i: nat): u16 {
    if log == [] then 0
    else
      var e, h := log[|log|-1], HighestIn(log[..|log|-1], k, i);
      if DescOf(e, k, i) && h < e.r.handle then e.r.handle else h
  }

  // ----- What the list holds -----

  /** The properties without the notify and the indicate bit. */
  predicate WithoutBits(q: u16, p: u16) {
    q / 64 == p / 64 && q / 16 % 4 == 0 && q % 16 == p % 16
  }

  /** The characteristic is the one reported, with its last CCCD and its highest descriptor; once it is
      fixed it keeps the notify and indicate bits exactly if there is room for a CCCD. */
  ghost predicate CharHolds(d: DisSrv, i: nat, r: Result, cccd: Hdr, highest: u16, fixed: bool)
    requires i < |d.chars|
  {
    var c := d.chars[i];
    r.CharResult? && c.ch.hdr.handle == r.decl && c.ch.value == r.value && c.ch.uuid == r.uuid &&
    c.cccd == cccd && c.descEnd == highest &&
    if fixed && !HasRoom(d, i) then WithoutBits(c.ch.props, r.props) else c.ch.props == r.props
  }

  ghost predicate IncHolds(i: Inc, r: Result) {
    r.IncResult? && i.hdr.handle == r.decl && i.first == r.first && i.last == r.last && i.uuid == r.uuid
  }

  /** One service holds what was reported for it; the first n characteristics are fixed. */
  ghost predicate SrvHolds(d: DisSrv, log: seq<Entry>, k: nat, n: nat) {
    |d.incs| == |IncsIn(log, k)| && |d.chars| == |CharsIn(log, k)| &&
    (forall i :: 0 <= i < |d.incs| ==> IncHolds(d.incs[i], IncsIn(log, k)[i])) &&
    forall i :: 0 <= i < |d.chars| ==>
      CharHolds(d, i, CharsIn(log, k)[i], CccdIn(log, k, i), HighestIn(log, k, i), i < n)
  }

  ghost predicate PrimaryHolds(s: Srv, r: Result) {
    r.SrvResult? && IsPrimary(s) && s.hdr.handle == r.first && s.endGroup == r.last && s.uuid == r.uuid
  }

  /** The primary services are those reported and wanted; all others are secondary. */
  ghost predicate SrvsHold(cfg: Config, db: seq<DisSrv>, log: seq<Entry>) {
    |SrvsIn(cfg, log)| <= |db| &&
    forall k :: 0 <= k < |db| ==>
      if k < |SrvsIn(cfg, log)| then PrimaryHolds(db[k].srv, SrvsIn(cfg, log)[k]) else IsSecondary(db[k].srv)
  }

  /** Results are filed under services and characteristics that are there. */
  ghost predicate FiledIn(db: seq<DisSrv>, log: seq<Entry>) {
    forall e :: e in log && !e.r.SrvResult? ==>
      e.srv < |db| && (e.r.DescResult? ==> e.at < |db[e.srv].chars|)
  }

  /** How many characteristics of service k are fixed, when service cur has n of them. */
  function FixedOf(db: seq<DisSrv>, k: nat, cur: nat, n: nat): nat
    requires k < |db|
  {
    if k < cur then |db[k].chars| else if k == cur then n else 0
  }

  ghost predicate DbHolds(cfg: Config, db: seq<DisSrv>, log: seq<Entry>, cur: nat, n: nat) {
    SrvsHold(cfg, db, log) && FiledIn(db, log) &&
    forall k :: 0 <= k < |db| ==> SrvHolds(db[k], log, k, FixedOf(db, k, cur, n))
  }

  // ----- One result -----

  lemma LogSnoc(cfg: Config, log: seq<Entry>, e: Entry, k: nat)
    ensures SrvsIn(cfg, log + [e]) == SrvsIn(cfg, log) + if e.r.SrvResult? && Wanted(cfg, e.r.uuid) then [e.r] else []
    ensures IncsIn(log + [e], k) == IncsIn(log, k) + if e.r.IncResult? && e.srv == k then [e.r] else []
    ensures CharsIn(log + [e], k) == CharsIn(log, k) + if e.r.CharResult? && e.srv == k then [e.r] else []
  {
    hide Wanted;
    assert (log + [e])[..|log|] == log;
  }

  lemma DescSnoc(log: seq<Entry>, e: Entry, k: nat, i: nat)
    ensures CccdIn(log + [e], k, i) == if DescOf(e, k, i) && e.r.uuid == Short(0x2902) then Hdr(9, 0, e.r.handle) else CccdIn(log, k, i)
    ensures HighestIn(log + [e], k, i) ==
      if DescOf(e, k, i) && HighestIn(log, k, i) < e.r.handle then e.r.handle else HighestIn(log, k, i)
  {
    assert (log + [e])[..|log|] == log;
  }

  lemma {:induction false} NothingFiled(log: seq<Entry>, k: nat, i: nat)
    requires forall e :: e in log ==> !DescOf(e, k, i)
    ensures CccdIn(log, k, i) == Hdr(0, 0, 0) && HighestIn(log, k, i) == 0
  {
    if log != [] {
      assert log[|log|-1] in log;
      NothingFiled(log[..|log|-1], k, i);
    }
  }

  lemma {:induction false} NothingOf(log: seq<Entry>, k: nat)
    requires forall e :: e in log ==> e.r.SrvResult? || e.srv != k
    ensures IncsIn(log, k) == [] && CharsIn(log, k) == []
  {
    if log != [] {
      assert log[|log|-1] in log;
      NothingOf(log[..|log|-1], k);
    }
  }

  /** A result filed elsewhere changes nothing a service holds. */
  lemma HoldsStill(cfg: Config, d: DisSrv, log: seq<Entry>, e: Entry, k: nat, n: nat)
    requires SrvHolds(d, log, k, n) && (e.r.SrvResult? || e.srv != k)
    ensures SrvHolds(d, log + [e], k, n)
  {
    hide CharHolds, IncHolds, Wanted;
    LogSnoc(cfg, log, e, k);
    forall i | 0 <= i < |d.chars|
      ensures CharHolds(d, i, CharsIn(log + [e], k)[i], CccdIn(log + [e], k, i), HighestIn(log + [e], k, i), i < n)
    {
      DescSnoc(log, e, k, i);
    }
  }

  lemma IncFiled(cfg: Config, d: DisSrv, log: seq<Entry>, e: Entry, n: nat)
    requires SrvHolds(d, log, e.srv, n) && e.r.IncResult?
    ensures SrvHolds(AddInclude(d, e.r.decl, e.r.first, e.r.last, e.r.uuid), log + [e], e.srv, n)
  {
    hide Wanted;
    var f := AddInclude(d, e.r.decl, e.r.first, e.r.last, e.r.uuid);
    LogSnoc(cfg, log, e, e.srv);
    forall i | 0 <= i < |f.chars|
      ensures CharHolds(f, i, CharsIn(log + [e], e.srv)[i], CccdIn(log + [e], e.srv, i), HighestIn(log + [e], e.srv, i), i < n)
    {
      DescSnoc(log, e, e.srv, i);
      assert CharHolds(d, i, CharsIn(log, e.srv)[i], CccdIn(log, e.srv, i), HighestIn(log, e.srv, i), i < n);
      assert EndOf(f, i) == EndOf(d, i);
    }
    hide CharHolds;
  }

  lemma CharFiled(cfg: Config, d: DisSrv, log: seq<Entry>, e: Entry)
    requires SrvHolds(d, log, e.srv, 0) && e.r.CharResult?
    requires forall x :: x in log && x.r.DescResult? && x.srv == e.srv ==> x.at < |d.chars|
    ensures SrvHolds(AddChar(d, e.r.decl, e.r.props, e.r.value, e.r.uuid), log + [e], e.srv, 0)
  {
    hide Wanted, CountChar, IncHolds, HasRoom, WithoutBits;
    var f := AddChar(d, e.r.decl, e.r.props, e.r.value, e.r.uuid);
    LogSnoc(cfg, log, e, e.srv);
    forall i | 0 <= i < |f.chars|
      ensures CharHolds(f, i, CharsIn(log + [e], e.srv)[i], CccdIn(log + [e], e.srv, i), HighestIn(log + [e], e.srv, i), i < 0)
    {
      DescSnoc(log, e, e.srv, i);
      if i < |d.chars| {
        assert CharHolds(d, i, CharsIn(log, e.srv)[i], CccdIn(log, e.srv, i), HighestIn(log, e.srv, i), i < 0);
        assert f.chars[i] == d.chars[i];
      } else {
        NothingFiled(log, e.srv, i);
      }
    }
  }

  lemma DescFiled(cfg: Config, d: DisSrv, log: seq<Entry>, e: Entry, n: nat)
    requires SrvHolds(d, log, e.srv, n) && e.r.DescResult? && e.at == d.cursor < |d.chars|
    ensures SrvHolds(AddDesc(d, e.r.handle, e.r.uuid), log + [e], e.srv, n)
  {
    hide Wanted, IncHolds, WithoutBits;
    var f := AddDesc(d, e.r.handle, e.r.uuid);
    AddDescShape(d, e.r.handle, e.r.uuid);
    LogSnoc(cfg, log, e, e.srv);
    forall i | 0 <= i < |f.chars|
      ensures CharHolds(f, i, CharsIn(log + [e], e.srv)[i], CccdIn(log + [e], e.srv, i), HighestIn(log + [e], e.srv, i), i < n)
    {
      DescSnoc(log, e, e.srv, i);
      assert CharHolds(d, i, CharsIn(log, e.srv)[i], CccdIn(log, e.srv, i), HighestIn(log, e.srv, i), i < n);
      assert EndOf(f, i) == EndOf(d, i) && StartOf(f.chars[i]) == StartOf(d.chars[i]);
    }
  }

  // ----- Closing -----

  lemma SilencedBits(p: u16)
    ensures WithoutBits(Silenced(p), p) && (!Notifies(p) ==> WithoutBits(p, p))
  {
    var b := p / 16 % 4;
    assert p == 64 * (p / 64) + 16 * b + p % 16;
  }

  lemma CloseHolds(d: DisSrv, log: seq<Entry>, k: nat, i: nat)
    requires SrvHolds(d, log, k, i) && i < |d.chars|
    ensures SrvHolds(Close(d, i), log, k, i + 1)
  {
    hide IncHolds, WithoutBits, Silenced, Notifies;
    var e := Close(d, i);
    CloseShape(d, i);
    SilencedBits(d.chars[i].ch.props);
    forall x | 0 <= x < |e.chars|
      ensures CharHolds(e, x, CharsIn(log, k)[x], CccdIn(log, k, x), HighestIn(log, k, x), x < i + 1)
    {
      assert CharHolds(d, x, CharsIn(log, k)[x], CccdIn(log, k, x), HighestIn(log, k, x), x < i);
      assert EndOf(e, x) == EndOf(d, x) && StartOf(e.chars[x]) == StartOf(d.chars[x]);
    }
  }

  lemma {:induction false} CloseFromHolds(d: DisSrv, log: seq<Entry>, k: nat, i: nat)
    requires SrvHolds(d, log, k, i) && i <= |d.chars|
    ensures
      var (e, j) := CloseFrom(d, i);
      e.srv == d.srv && |e.chars| == |d.chars| && i <= j <= |e.chars| &&
      SrvHolds(e, log, k, if j < |e.chars| then j + 1 else j)
    decreases |d.chars| - i
  {
    hide SrvHolds, HasRoom, EndOf;
    if i < |d.chars| {
      CloseHolds(d, log, k, i);
      if !HasRoom(d, i) { CloseFromHolds(Close(d, i), log, k, i + 1); }
    }
  }

  lemma CursorHolds(d: DisSrv, log: seq<Entry>, k: nat, n: nat, cursor: u16)
    requires SrvHolds(d, log, k, n)
    ensures SrvHolds(d.(cursor := cursor), log, k, n)
  {
    hide IncHolds, WithoutBits;
    var e := d.(cursor := cursor);
    forall x | 0 <= x < |e.chars|
      ensures CharHolds(e, x, CharsIn(log, k)[x], CccdIn(log, k, x), HighestIn(log, k, x), x < n)
    {
      assert CharHolds(d, x, CharsIn(log, k)[x], CccdIn(log, k, x), HighestIn(log, k, x), x < n);
      assert EndOf(e, x) == EndOf(d, x);
    }
  }

  // ----- The whole list -----

  /** The current service changes, all others stay. */
  lemma PutHolds(cfg: Config, db: seq<DisSrv>, log: seq<Entry>, cur: nat, n: nat, d: DisSrv, m: nat)
    requires DbHolds(cfg, db, log, cur, n) && cur < |db|
    requires d.srv == db[cur].srv && |d.chars| == |db[cur].chars| && SrvHolds(d, log, cur, m)
    ensures DbHolds(cfg, db[cur := d], log, cur, m)
  {
    hide SrvHolds, SrvsIn, PrimaryHolds;
    var e := db[cur := d];
    forall k | 0 <= k < |e| ensures SrvHolds(e[k], log, k, FixedOf(e, k, cur, m)) {
      if k != cur { assert SrvHolds(db[k], log, k, FixedOf(db, k, cur, n)); }
    }
  }

  /** A result about the current service. */
  lemma FileHolds(cfg: Config, db: seq<DisSrv>, log: seq<Entry>, cur: nat, n: nat, e: Entry, d: DisSrv)
    requires DbHolds(cfg, db, log, cur, n) && cur < |db| && e.srv == cur && !e.r.SrvResult?
    requires d.srv == db[cur].srv && |d.chars| >= |db[cur].chars| && (e.r.DescResult? ==> e.at < |d.chars|)
    requires SrvHolds(d, log + [e], cur, n)
    ensures DbHolds(cfg, db[cur := d], log + [e], cur, n)
  {
    hide SrvHolds, SrvsIn, PrimaryHolds, Wanted, IncsIn, CharsIn;
    var t := db[cur := d];
    LogSnoc(cfg, log, e, cur);
    forall k | 0 <= k < |t| ensures SrvHolds(t[k], log + [e], k, FixedOf(t, k, cur, n)) {
      if k != cur { HoldsStill(cfg, db[k], log, e, k, FixedOf(db, k, cur, n)); }
    }
  }

  /** Moving on once the current service is fixed, with further services that have nothing yet. */
  lemma MovedHolds(cfg: Config, db: seq<DisSrv>, log: seq<Entry>, cur: nat, n: nat, t: seq<DisSrv>, next: nat)
    requires DbHolds(cfg, db, log, cur, n) && |t| >= |db| && t[..|db|] == db && cur <= next <= |t|
    requires cur < |db| ==> n == |db[cur].chars|
    requires forall k :: 0 <= k < |t| && cur < k ==> t[k].chars == []
    requires forall k :: |db| <= k < |t| ==> IsSecondary(t[k].srv) && t[k].incs == [] && t[k].chars == []
    ensures DbHolds(cfg, t, log, next, if next < |t| && next == cur then n else 0)
  {
    hide SrvsIn, PrimaryHolds, CharHolds, IncHolds, IncsIn, CharsIn;
    var m := if next < |t| && next == cur then n else 0;
    forall k | 0 <= k < |t| ensures SrvHolds(t[k], log, k, FixedOf(t, k, next, m)) {
      if k < |db| {
        assert t[..|db|][k] == t[k];
        assert SrvHolds(db[k], log, k, FixedOf(db, k, cur, n));
      } else {
        NothingOf(log, k);
      }
    }
    forall e | e in log && !e.r.SrvResult? ensures e.srv < |t| && (e.r.DescResult? ==> e.at < |t[e.srv].chars|) {
      assert t[..|db|][e.srv] == t[e.srv];
    }
    forall k | 0 <= k < |t|
      ensures if k < |SrvsIn(cfg, log)| then PrimaryHolds(t[k].srv, SrvsIn(cfg, log)[k]) else IsSecondary(t[k].srv)
    {
      if k < |db| { assert t[..|db|][k] == t[k]; }
    }
  }

  // ----- The walk -----

  /** The service being asked about, and how many of its characteristics are fixed. */
  function Place(w: Walk): (nat, nat) {
    if w.state != Discovering then (|w.db|, 0)
    else if w.curr.None? || w.curr.value >= |w.db| || w.calls == [] then (0, 0)
    else (w.curr.value, if w.calls[|w.calls|-1].Descs? then w.db[w.curr.value].cursor + 1 else 0)
  }

  ghost predicate Holds(cfg: Config, w: Walk, log: seq<Entry>) {
    (w.state == Discovering || w.state == Finished) ==> DbHolds(cfg, w.db, log, Place(w).0, Place(w).1)
  }

  lemma BlankHolds(d: DisSrv, log: seq<Entry>, k: nat)
    requires d.chars == [] && d.incs == [] && forall e :: e in log ==> e.r.SrvResult? || e.srv != k
    ensures SrvHolds(d, log, k, 0)
  {
    hide CharHolds, IncHolds;
    NothingOf(log, k);
  }

  /** A service result leaves what the listed services hold. */
  lemma RestHolds(cfg: Config, db: seq<DisSrv>, log: seq<Entry>, e: Entry)
    requires DbHolds(cfg, db, log, 0, 0) && e.r.SrvResult?
    ensures FiledIn(db, log + [e]) && forall k :: 0 <= k < |db| ==> SrvHolds(db[k], log + [e], k, 0)
  {
    hide SrvHolds, SrvsHold;
    forall k | 0 <= k < |db| ensures SrvHolds(db[k], log + [e], k, 0) {
      assert SrvHolds(db[k], log, k, FixedOf(db, k, 0, 0));
      HoldsStill(cfg, db[k], log, e, k, 0);
    }
  }

  lemma WantedHolds(cfg: Config, db: seq<DisSrv>, log: seq<Entry>, e: Entry, d: DisSrv)
    requires DbHolds(cfg, db, log, 0, 0) && |SrvsIn(cfg, log)| == |db| && e.r.SrvResult? && Wanted(cfg, e.r.uuid)
    requires PrimaryHolds(d.srv, e.r) && d.chars == [] && d.incs == []
    ensures DbHolds(cfg, db + [d], log + [e], 0, 0)
  {
    hide SrvHolds, SrvsIn, Wanted, PrimaryHolds;
    RestHolds(cfg, db, log, e);
    LogSnoc(cfg, log, e, 0);
    BlankHolds(d, log + [e], |db|);
    var t := db + [d];
    forall k | 0 <= k < |t| ensures SrvHolds(t[k], log + [e], k, FixedOf(t, k, 0, 0)) {
      assert t[k] == if k < |db| then db[k] else d;
    }
  }

  lemma UnwantedHolds(cfg: Config, db: seq<DisSrv>, log: seq<Entry>, e: Entry)
    requires DbHolds(cfg, db, log, 0, 0) && e.r.SrvResult? && !Wanted(cfg, e.r.uuid)
    ensures DbHolds(cfg, db, log + [e], 0, 0)
  {
    hide SrvHolds, SrvsIn, Wanted, PrimaryHolds;
    RestHolds(cfg, db, log, e);
    LogSnoc(cfg, log, e, 0);
    assert SrvsIn(cfg, log) + [] == SrvsIn(cfg, log);
  }

  lemma SrvFiled(cfg: Config, w: Walk, log: seq<Entry>, r: Result)
    requires w.state == Discovering && Collecting(w) && Holds(cfg, w, log) && r.SrvResult?
    ensures Holds(cfg, Apply(cfg, w, r), log + [Filed(w, r)])
  {
    hide DbHolds, Unvisited, Wanted, SrvsHold;
    var e, v := Filed(w, r), Apply(cfg, w, r);
    CountedPrimaries(cfg, w, log);
    if Wanted(cfg, r.uuid) {
      WantedHolds(cfg, w.db, log, e, v.db[|w.db|]);
    } else {
      UnwantedHolds(cfg, w.db, log, e);
    }
  }

  lemma CountedPrimaries(cfg: Config, w: Walk, log: seq<Entry>)
    requires AllPrimary(w.db) && DbHolds(cfg, w.db, log, 0, 0)
    ensures |SrvsIn(cfg, log)| == |w.db|
  {
    hide SrvsHold, SrvHolds, FiledIn;
    AllPrimariesListed(cfg, w, log);
  }

  lemma AllPrimariesListed(cfg: Config, w: Walk, log: seq<Entry>)
    requires AllPrimary(w.db) && SrvsHold(cfg, w.db, log)
    ensures |SrvsIn(cfg, log)| == |w.db|
  {
    hide SrvsIn;
    var n := |SrvsIn(cfg, log)|;
    assert n < |w.db| ==> IsPrimary(w.db[n].srv);
  }

  lemma ApplyHolds(cfg: Config, w: Walk, log: seq<Entry>, r: Result)
    requires WalkOk(cfg, w) && w.state == Discovering && Fitting(w.calls[|w.calls|-1], r) && Holds(cfg, w, log)
    ensures Holds(cfg, Apply(cfg, w, r), log + [Filed(w, r)])
  {
    hide ListOk, Bound, Visits, Progress, ClosedSrvs, Unvisited, AllPrimary, SecondaryFrom, ClosedChars, DbHolds, SrvHolds, AddInclude, AddChar, AddDesc, AddPrimary, Wanted;
    if Collecting(w) {
      SrvFiled(cfg, w, log, r);
    } else {
      var k, e := w.curr.value, Filed(w, r);
      var d := w.db[k];
      var n := Place(w).1;
      HoldsAt(cfg, w.db, log, k, n);
      match r
      case IncResult(decl, first, last, u) =>
        IncFiled(cfg, d, log, e, n);
        AddedShape(d, r);
        FileHolds(cfg, w.db, log, k, n, e, AddInclude(d, decl, first, last, u));
      case CharResult(decl, props, value, u) =>
        CharFiled(cfg, d, log, e);
        AddedShape(d, r);
        FileHolds(cfg, w.db, log, k, n, e, AddChar(d, decl, props, value, u));
      case DescResult(handle, u) =>
        DescFiled(cfg, d, log, e, n);
        AddedShape(d, r);
        FileHolds(cfg, w.db, log, k, n, e, AddDesc(d, handle, u));
    }
  }

  lemma AddedShape(d: DisSrv, r: Result)
    ensures r.IncResult? ==> var f := AddInclude(d, r.decl, r.first, r.last, r.uuid); f.srv == d.srv && f.chars == d.chars && f.cursor == d.cursor
    ensures r.CharResult? ==> var f := AddChar(d, r.decl, r.props, r.value, r.uuid); f.srv == d.srv && |f.chars| == |d.chars| + 1 && f.cursor == d.cursor
    ensures r.DescResult? ==> var f := AddDesc(d, r.handle, r.uuid); f.srv == d.srv && |f.chars| == |d.chars| && f.cursor == d.cursor
  {
    hide CountChar;
  }

  lemma HoldsAt(cfg: Config, db: seq<DisSrv>, log: seq<Entry>, cur: nat, n: nat)
    requires DbHolds(cfg, db, log, cur, n) && cur < |db|
    ensures SrvHolds(db[cur], log, cur, n)
    ensures forall x :: x in log && x.r.DescResult? && x.srv == cur ==> x.at < |db[cur].chars|
  {
    hide SrvHolds, SrvsHold;
    assert FixedOf(db, cur, cur, n) == n;
  }

  lemma {:induction false} ApplyAllHolds(cfg: Config, w: Walk, log: seq<Entry>, rs: seq<Result>)
    requires WalkOk(cfg, w) && w.state == Discovering && AllFitting(w.calls[|w.calls|-1], rs) && Holds(cfg, w, log)
    ensures Holds(cfg, ApplyAll(cfg, w, rs), log + Log(cfg, w, rs))
    decreases |rs|
  {
    hide WalkOk, Holds, Fitting, Apply, Measure, Filed;
    if rs == [] {
      assert log + [] == log;
    } else {
      assert rs[0] in rs;
      ApplyOk(cfg, w, rs[0]);
      ApplyHolds(cfg, w, log, rs[0]);
      ApplyAllHolds(cfg, Apply(cfg, w, rs[0]), log + [Filed(w, rs[0])], rs[1..]);
      assert log + [Filed(w, rs[0])] + Log(cfg, Apply(cfg, w, rs[0]), rs[1..]) ==
        log + ([Filed(w, rs[0])] + Log(cfg, Apply(cfg, w, rs[0]), rs[1..]));
    }
  }

  // ----- Ends of procedures -----

  lemma AddedBlank(cfg: Config, db: seq<DisSrv>)
    requires ListOk(db)
    ensures
      var t := AddSecondary(cfg, db);
      |t| >= |db| && t[..|db|] == db &&
      forall k :: |db| <= k < |t| ==> IsSecondary(t[k].srv) && t[k].incs == [] && t[k].chars == []
  {
    hide ListOk, AddSecondary, Closed, Closable;
    SecondaryClosure(cfg, db);
  }

  lemma AfterHolds(cfg: Config, w: Walk, log: seq<Entry>, accept: Answers)
    requires ListOk(w.db) && w.state == Discovering && w.curr.Some? && w.curr.value < |w.db| && Unvisited(w.db, w.curr.value + 1)
    requires DbHolds(cfg, w.db, log, w.curr.value, |w.db[w.curr.value].chars|)
    ensures Holds(cfg, AfterService(cfg, w, accept), log)
  {
    hide ListOk, DbHolds, AddSecondary;
    var k := w.curr.value;
    var n, t := |w.db[k].chars|, AddSecondary(cfg, w.db);
    AddedBlank(cfg, w.db);
    assert w.db[..|w.db|] == w.db;
    if k + 1 <= |w.db| { MovedHolds(cfg, w.db, log, k, n, w.db, k + 1); }
    MovedHolds(cfg, w.db, log, k, n, w.db, |w.db|);
    MovedHolds(cfg, w.db, log, k, n, t, k + 1);
    MovedHolds(cfg, w.db, log, k, n, t, |t|);
  }

  lemma ServicesHold(cfg: Config, w: Walk, log: seq<Entry>, accept: Answers)
    requires WalkOk(cfg, w) && w.state == Discovering && Collecting(w) && Holds(cfg, w, log)
    ensures Holds(cfg, Done(cfg, w, accept), log)
  {
    hide ListOk, Bound, DbHolds, AllPrimary;
    if w.db == [] { EmptyList(cfg); }
    hide AddSecondary;
  }

  lemma CloseHoldsAll(cfg: Config, w: Walk, log: seq<Entry>, from: u16, accept: Answers)
    requires WalkOk(cfg, w) && w.state == Discovering && AtService(w) && Holds(cfg, w, log)
    requires w.calls[|w.calls|-1].Chars? || w.calls[|w.calls|-1].Descs?
    requires
      var d, c := w.db[w.curr.value], w.calls[|w.calls|-1];
      |d.chars| <= 255 && from == (if c.Chars? then 0 else d.cursor + 1) <= |d.chars|
    ensures
      var d := w.db[w.curr.value];
      var (e, j) := CloseFrom(d.(cursor := from), from);
      j <= |e.chars| <= 255 &&
      Holds(cfg, if j < |e.chars| then
          Ask(Update(w, e.(cursor := j)), Descs(StartOf(e.chars[j]), EndOf(e, j)), w.curr.value, accept)
        else AfterService(cfg, Update(w, e), accept), log)
  {
    hide ListOk, Bound, ClosedSrvs, AllPrimary, SecondaryFrom, Unvisited, Visits, CloseFrom, ClosedChars, Progress, DisSrvOk, AfterService, DbHolds, SrvHolds;
    var k := w.curr.value;
    var d, c := w.db[k], w.calls[|w.calls|-1];
    var n := Place(w).1;
    HoldsAt(cfg, w.db, log, k, n);
    CursorHolds(d, log, k, from, from);
    CloseFromHolds(d.(cursor := from), log, k, from);
    var (e, j) := CloseFrom(d.(cursor := from), from);
    if j < |e.chars| {
      CursorHolds(e, log, k, j + 1, j);
      PutHolds(cfg, w.db, log, k, n, e.(cursor := j), j + 1);
    } else {
      PutHolds(cfg, w.db, log, k, n, e, |e.chars|);
      ListedOk(w.db, k);
      CloseResult(d, c, from);
      UpdateKeeps(cfg, w.db, k, e);
      AfterHolds(cfg, Update(w, e), log, accept);
    }
  }

  lemma DoneHolds(cfg: Config, w: Walk, log: seq<Entry>, accept: Answers)
    requires WalkOk(cfg, w) && w.state == Discovering && Small(cfg, w) && Holds(cfg, w, log)
    ensures Holds(cfg, Done(cfg, w, accept), log)
  {
    hide ListOk, Bound, Visits, ClosedSrvs, Unvisited, AllPrimary, SecondaryFrom, ClosedChars, Progress, CloseFrom, AfterService, Holds, NextService, Ask, AllEnd, AddSecondary;
    if Collecting(w) {
      ServicesHold(cfg, w, log, accept);
    } else {
      var c, d := w.calls[|w.calls|-1], w.db[w.curr.value];
      assert d in w.db;
      if c.Relations? {
        RelationsHold(cfg, w, log, accept);
      } else if d.chars == [] {
        NoCharsHold(cfg, w, log, accept);
      } else {
        CloseHoldsAll(cfg, w, log, if c.Chars? then 0 else d.cursor + 1, accept);
      }
    }
  }

  lemma RelationsHold(cfg: Config, w: Walk, log: seq<Entry>, accept: Answers)
    requires WalkOk(cfg, w) && w.state == Discovering && AtService(w) && Holds(cfg, w, log) && w.calls[|w.calls|-1].Relations?
    ensures Holds(cfg, Done(cfg, w, accept), log)
  {
    hide ListOk, Bound, Visits, ClosedSrvs, Unvisited, AllPrimary, DbHolds, Progress;
  }

  lemma NoCharsHold(cfg: Config, w: Walk, log: seq<Entry>, accept: Answers)
    requires WalkOk(cfg, w) && w.state == Discovering && AtService(w) && Holds(cfg, w, log)
    requires w.db[w.curr.value].chars == [] && w.calls[|w.calls|-1].Chars?
    ensures Holds(cfg, AfterService(cfg, w, accept), log)
  {
    hide ListOk, DbHolds, AfterService, Visits, ClosedSrvs, Unvisited, AllPrimary, SecondaryFrom, Progress;
    AfterHolds(cfg, w, log, accept);
  }

  lemma RoundHolds(cfg: Config, w: Walk, log: seq<Entry>, s: Stack)
    requires WalkOk(cfg, w) && w.state == Discovering && w.calls != [] && Behaves(cfg, w, s) && Holds(cfg, w, log)
    ensures Holds(cfg, Round(cfg, w, s), log + if s.fails(w.calls) then [] else Log(cfg, w, s.results(w.calls)))
  {
    hide WalkOk, ApplyAll, Done, AllFitting, DbHolds, Small, Log;
    if !s.fails(w.calls) {
      var rs := s.results(w.calls);
      ApplyAllOk(cfg, w, rs);
      ApplyAllHolds(cfg, w, log, rs);
      DoneHolds(cfg, ApplyAll(cfg, w, rs), log + Log(cfg, w, rs), s.accept);
    }
  }

  lemma {:induction false} FinishHolds(cfg: Config, w: Walk, log: seq<Entry>, s: Stack)
    requires WalkOk(cfg, w) && Holds(cfg, w, log)
    ensures Finish(cfg, w, s).Some? ==> Holds(cfg, Finish(cfg, w, s).value, log + WalkLog(cfg, w, s))
    decreases if w.state == Discovering then 1 else 0,
      Measure(w).stage, Measure(w).services, Measure(w).phase, Measure(w).chars
  {
    hide WalkOk, Holds, Round, Measure, Behaves, Finish, WalkLog, Log;
    assert log + [] == log;
    Unrolled(cfg, w, s);
    if w.state == Discovering {
      Discovers(cfg, w);
      if Behaves(cfg, w, s) {
        RoundOk(cfg, w, s);
        RoundHolds(cfg, w, log, s);
        var now := if s.fails(w.calls) then [] else Log(cfg, w, s.results(w.calls));
        FinishHolds(cfg, Round(cfg, w, s), log + now, s);
        assert log + now + WalkLog(cfg, Round(cfg, w, s), s) == log + (now + WalkLog(cfg, Round(cfg, w, s), s));
      }
    }
  }

  /** One round of the walk and of its log. */
  lemma Unrolled(cfg: Config, w: Walk, s: Stack)
    requires WalkOk(cfg, w)
    ensures
      if w.state != Discovering then Finish(cfg, w, s) == Some(w) && WalkLog(cfg, w, s) == []
      else
        w.calls != [] &&
        if !Behaves(cfg, w, s) then Finish(cfg, w, s) == None
        else
          WalkOk(cfg, Round(cfg, w, s)) && Finish(cfg, w, s) == Finish(cfg, Round(cfg, w, s), s) &&
          WalkLog(cfg, w, s) == (if s.fails(w.calls) then [] else Log(cfg, w, s.results(w.calls))) + WalkLog(cfg, Round(cfg, w, s), s)
  {
    hide WalkOk, Round, Measure, Behaves, Log;
    if w.state == Discovering {
      Discovers(cfg, w);
      if Behaves(cfg, w, s) { RoundOk(cfg, w, s); }
    }
  }

  /** The discovery theorem.  The list of a completed walk starts with exactly the primary services
      reported and wanted, in the order reported, and goes on with secondary ones.  Every service holds
      exactly the includes and characteristics reported when it was asked about, in order; every
      characteristic the last CCCD and the highest descriptor reported for it, and its properties, but
      for the notify and indicate bits exactly where there is no room for a CCCD. */
  lemma DiscoveredExactly(cfg: Config, s: Stack)
    requires WalkOk(cfg, Start(s.accept))
    ensures
      var r, log := Finish(cfg, Start(s.accept), s), WalkLog(cfg, Start(s.accept), s);
      r.Some? && r.value.state == Finished ==>
        var db := r.value.db;
        SrvsHold(cfg, db, log) && forall k :: 0 <= k < |db| ==> SrvHolds(db[k], log, k, |db[k].chars|)
  {
    hide Finish, WalkLog, SrvHolds, SrvsHold;
    var w := Start(s.accept);
    StartHolds(cfg, s.accept);
    FinishHolds(cfg, w, [], s);
    var r, log := Finish(cfg, w, s), WalkLog(cfg, w, s);
    assert [] + log == log;
    if r.Some? && r.value.state == Finished {
      var db := r.value.db;
      forall k | 0 <= k < |db| ensures SrvHolds(db[k], log, k, |db[k].chars|) {
        assert SrvHolds(db[k], log, k, FixedOf(db, k, |db|, 0));
      }
    }
  }

  lemma StartHolds(cfg: Config, accept: Answers)
    ensures Holds(cfg, Start(accept), [])
  {
  }
}
