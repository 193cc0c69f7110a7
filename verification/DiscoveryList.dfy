/** The list discovery fills: adding services, includes, characteristics and descriptors, and the
    secondary services that includes point at. */
module DiscoveryList {
  import opened Widths
  import opened Attributes
  import opened ServiceTable

  /** What the client was configured with. */
  datatype Config = Config(registered: seq<Uuid>, registeredOnly: bool)

  /** Services with an unregistered UUID are skipped when only registered ones are wanted. */
  predicate Wanted(cfg: Config, u: Uuid) {
    cfg.registeredOnly ==> u in cfg.registered
  }

  // ----- Instance ids -----

  predicate SrvHas(s: Srv, u: Uuid) {
    (if u.Short? then Srv16(s.hdr.attrType) else Srv128(s.hdr.attrType)) && s.uuid == u
  }

  predicate CharHas(c: Char, u: Uuid) {
    c.hdr.attrType == (if u.Short? then CHAR16 else CHAR128) && c.uuid == u
  }

  function CountSrv(db: seq<DisSrv>, u: Uuid): nat {
    if db == [] then 0 else CountSrv(db[..|db|-1], u) + if SrvHas(db[|db|-1].srv, u) then 1 else 0
  }

  function CountChar(cs: seq<DisChar>, u: Uuid): nat {
    if cs == [] then 0 else CountChar(cs[..|cs|-1], u) + if CharHas(cs[|cs|-1].ch, u) then 1 else 0
  }

  /** Every service's instance id is the number of services before it with the same UUID. */
  ghost predicate KeyedSrvs(db: seq<DisSrv>) {
    forall i :: 0 <= i < |db| ==> db[i].srv.hdr.inst == To8(CountSrv(db[..i], db[i].srv.uuid))
  }

  ghost predicate KeyedChars(cs: seq<DisChar>) {
    forall i :: 0 <= i < |cs| ==> cs[i].ch.hdr.inst == To8(CountChar(cs[..i], cs[i].ch.uuid))
  }

  // ----- The list invariant -----

  /** The counters kept beside the queues agree with them, as far as 8 bits can tell. */
  ghost predicate CountersMatch(d: DisSrv) {
    var c := Cached(d);
    d.inc16Num == To8(|c.inc16|) && d.inc128Num == To8(|c.inc128|) &&
    d.char16Num == To8(|c.char16|) && d.char128Num == To8(|c.char128|)
  }

  ghost predicate DisSrvOk(d: DisSrv) {
    TypedSrv(d.srv) && CountersMatch(d) && KeyedChars(d.chars) &&
    (forall i :: i in d.incs ==> TypedInc(i)) &&
    (forall c :: c in d.chars ==> TypedChar(c.ch))
  }

  ghost predicate ListOk(db: seq<DisSrv>) {
    KeyedSrvs(db) && forall d :: d in db ==> DisSrvOk(d)
  }

  /** Every listed service is wanted and bound to its registered client, if there is one. */
  ghost predicate Bound(cfg: Config, db: seq<DisSrv>) {
    forall d :: d in db ==> Wanted(cfg, d.srv.uuid) && d.spec == FindSpec(cfg.registered, d.srv.uuid)
  }

  // ----- Adding what discovery reports -----

  function NewSrv(attrType: u8, inst: u8, first: u16, last: u16, u: Uuid, spec: Option<nat>): DisSrv {
    DisSrv(Srv(Hdr(attrType, inst, first), last, u), spec, 0, 0, 0, 0, [], [], 0)
  }

  function AddPrimary(cfg: Config, db: seq<DisSrv>, first: u16, last: u16, u: Uuid): seq<DisSrv> {
    if !Wanted(cfg, u) then db
    else
      db + [NewSrv(if u.Short? then PRIMARY16 else PRIMARY128, To8(CountSrv(db, u)), first, last, u,
        FindSpec(cfg.registered, u))]
  }

  function AddInclude(d: DisSrv, decl: u16, first: u16, last: u16, u: Uuid): DisSrv {
    var i := Inc(Hdr(if u.Short? then INCLUDE16 else INCLUDE128, 0, decl), first, last, u);
    if u.Short? then d.(incs := d.incs + [i], inc16Num := To8(d.inc16Num + 1))
    else d.(incs := d.incs + [i], inc128Num := To8(d.inc128Num + 1))
  }

  function AddChar(d: DisSrv, decl: u16, props: u16, value: u16, u: Uuid): DisSrv {
    var h := Hdr(if u.Short? then CHAR16 else CHAR128, To8(CountChar(d.chars, u)), decl);
    var c := DisChar(Char(h, props, value, u, 0), Hdr(0, 0, 0), 0);
    if u.Short? then d.(chars := d.chars + [c], char16Num := To8(d.char16Num + 1))
    else d.(chars := d.chars + [c], char128Num := To8(d.char128Num + 1))
  }

  const CCCD_UUID: u16 := 0x2902

  /** A descriptor reported for the characteristic at the cursor. */
  function AddDesc(d: DisSrv, handle: u16, u: Uuid): DisSrv {
    if d.cursor < |d.chars| then
      var c := d.chars[d.cursor];
      var cccd := if u == Short(CCCD_UUID) then c.cccd.(attrType := CCCD_DESC, handle := handle) else c.cccd;
      var descEnd := if c.descEnd < handle then handle else c.descEnd;
      d.(chars := d.chars[d.cursor := c.(cccd := cccd, descEnd := descEnd)])
    else d
  }

  // ----- Secondary services -----

  /** The service an include points at. */
  predicate Points(i: Inc, s: Srv) {
    (if i.hdr.attrType == INCLUDE16 then Srv16(s.hdr.attrType) else i.hdr.attrType == INCLUDE128 && Srv128(s.hdr.attrType)) &&
    i.uuid == s.uuid && i.first == s.hdr.handle && i.last == s.endGroup
  }

  ghost predicate Listed(db: seq<DisSrv>, i: Inc) {
    exists k :: 0 <= k < |db| && Points(i, db[k].srv)
  }

  function FindListed(db: seq<DisSrv>, i: Inc): (k: nat)
    ensures k <= |db|
    ensures k < |db| ==> Points(i, db[k].srv)
    ensures forall j :: 0 <= j < k ==> !Points(i, db[j].srv)
    ensures k < |db| <==> Listed(db, i)
  {
    if db == [] then 0
    else if Points(i, db[0].srv) then 0
    else
      var k := FindListed(db[1..], i);
      assert forall j :: 0 <= j < |db[1..]| ==> db[1..][j] == db[j+1];
      1 + k
  }

  function NewSecondary(cfg: Config, db: seq<DisSrv>, i: Inc): DisSrv {
    NewSrv(if i.uuid.Short? then SECONDARY16 else SECONDARY128, To8(CountSrv(db, i.uuid)), i.first, i.last, i.uuid,
      FindSpec(cfg.registered, i.uuid))
  }

  /** One service's includes: each unlisted one is added, up to the first that is not wanted. */
  function AddIncluded(cfg: Config, db: seq<DisSrv>, incs: seq<Inc>): seq<DisSrv>
    decreases |incs|
  {
    if incs == [] then db
    else if FindListed(db, incs[0]) < |db| then AddIncluded(cfg, db, incs[1..])
    else if !Wanted(cfg, incs[0].uuid) then db
    else AddIncluded(cfg, db + [NewSecondary(cfg, db, incs[0])], incs[1..])
  }

  /** The services of work, taken one by one, contribute what they include to db. */
  function AddSecondaries(cfg: Config, db: seq<DisSrv>, work: seq<DisSrv>): seq<DisSrv>
    decreases |work|
  {
    if work == [] then db else AddSecondaries(cfg, AddIncluded(cfg, db, work[0].incs), work[1..])
  }

  function AddSecondary(cfg: Config, db: seq<DisSrv>): seq<DisSrv> {
    AddSecondaries(cfg, db, db)
  }

  // ----- The invariant is kept -----

  lemma {:induction false} PickSnoc(rs: seq<Row>, r: Row, k: TableKind)
    ensures Pick(rs + [r], k) == Pick(rs, k) + if KindOf(r) == k then [r] else []
  {
    if rs == [] {
      assert rs + [r] == [r];
    } else {
      PickSnoc(rs[1..], r, k);
      assert (rs + [r])[1..] == rs[1..] + [r];
    }
  }

  lemma IncRowsSnoc(incs: seq<Inc>, i: Inc)
    ensures IncRows(incs + [i]) == IncRows(incs) + [IncRow(i)]
  {
  }

  lemma CharRowsSnoc(chars: seq<DisChar>, c: DisChar)
    ensures CharRows(chars + [c]) == CharRows(chars) + [Settle(c)]
  {
  }

  lemma Incremented(x: nat)
    ensures To8(To8(x) + 1) == To8(x + 1)
  {
  }

  lemma AddIncludeCounters(d: DisSrv, decl: u16, first: u16, last: u16, u: Uuid)
    requires CountersMatch(d)
    ensures CountersMatch(AddInclude(d, decl, first, last, u))
  {
    hide To8, Pick, IncRows, CharRows;
    var e := AddInclude(d, decl, first, last, u);
    var i := e.incs[|d.incs|];
    IncRowsSnoc(d.incs, i);
    PickSnoc(IncRows(d.incs), IncRow(i), Inc16);
    PickSnoc(IncRows(d.incs), IncRow(i), Inc128);
    Incremented(|Cached(d).inc16|);
    Incremented(|Cached(d).inc128|);
  }

  lemma AddIncludeOk(d: DisSrv, decl: u16, first: u16, last: u16, u: Uuid)
    requires DisSrvOk(d)
    ensures DisSrvOk(AddInclude(d, decl, first, last, u))
  {
    AddIncludeCounters(d, decl, first, last, u);
    hide CountersMatch, KeyedChars;
  }

  lemma AddCharCounters(d: DisSrv, decl: u16, props: u16, value: u16, u: Uuid)
    requires CountersMatch(d)
    ensures CountersMatch(AddChar(d, decl, props, value, u))
  {
    hide To8, Pick, IncRows, CharRows;
    var e := AddChar(d, decl, props, value, u);
    var c := e.chars[|d.chars|];
    CharRowsSnoc(d.chars, c);
    PickSnoc(CharRows(d.chars), Settle(c), Char16);
    PickSnoc(CharRows(d.chars), Settle(c), Char128);
    Incremented(|Cached(d).char16|);
    Incremented(|Cached(d).char128|);
  }

  lemma AddCharOk(d: DisSrv, decl: u16, props: u16, value: u16, u: Uuid)
    requires DisSrvOk(d)
    ensures DisSrvOk(AddChar(d, decl, props, value, u))
  {
    AddCharCounters(d, decl, props, value, u);
    hide CountersMatch, CountChar;
    var e := AddChar(d, decl, props, value, u);
    forall i | 0 <= i < |e.chars| ensures e.chars[i].ch.hdr.inst == To8(CountChar(e.chars[..i], e.chars[i].ch.uuid)) {
      assert e.chars[..i] == d.chars[..i];
      if i == |d.chars| { assert d.chars[..i] == d.chars; }
    }
  }

  /** Later discovery of a service changes neither its UUIDs nor its characteristics' ids. */
  ghost predicate SameShape(a: seq<DisChar>, b: seq<DisChar>) {
    |a| == |b| && forall i :: 0 <= i < |a| ==>
      a[i].ch.hdr == b[i].ch.hdr && a[i].ch.uuid == b[i].ch.uuid && a[i].ch.value == b[i].ch.value
  }

  lemma {:induction false} SameShapeCount(a: seq<DisChar>, b: seq<DisChar>, u: Uuid)
    requires SameShape(a, b)
    ensures CountChar(a, u) == CountChar(b, u)
  {
    if a != [] {
      SameShapeCount(a[..|a|-1], b[..|b|-1], u);
    }
  }

  lemma {:induction false} SameShapePick(a: seq<DisChar>, b: seq<DisChar>, k: TableKind)
    requires SameShape(a, b)
    ensures |Pick(CharRows(a), k)| == |Pick(CharRows(b), k)|
  {
    if a != [] {
      SameShapePick(a[1..], b[1..], k);
    }
  }

  lemma SameShapeOk(d: DisSrv, chars: seq<DisChar>, cursor: u16)
    requires DisSrvOk(d) && SameShape(d.chars, chars)
    ensures DisSrvOk(d.(chars := chars, cursor := cursor))
  {
    hide Pick, IncRows, CharRows, CountChar, To8;
    SameShapePick(d.chars, chars, Char16);
    SameShapePick(d.chars, chars, Char128);
    forall i | 0 <= i < |chars| ensures chars[i].ch.hdr.inst == To8(CountChar(chars[..i], chars[i].ch.uuid)) {
      assert d.chars[i].ch.uuid == chars[i].ch.uuid;
      SameShapeCount(d.chars[..i], chars[..i], chars[i].ch.uuid);
    }
    forall c | c in chars ensures TypedChar(c.ch) {
      var i :| 0 <= i < |chars| && chars[i] == c;
      assert d.chars[i] in d.chars;
    }
  }

  lemma NewSrvOk(db: seq<DisSrv>, attrType: u8, first: u16, last: u16, u: Uuid, spec: Option<nat>)
    requires ListOk(db)
    requires if u.Short? then Srv16(attrType) else Srv128(attrType)
    ensures ListOk(db + [NewSrv(attrType, To8(CountSrv(db, u)), first, last, u, spec)])
  {
    hide To8, CountSrv, DisSrvOk;
    var d := NewSrv(attrType, To8(CountSrv(db, u)), first, last, u, spec);
    var e := db + [d];
    NewSrvFine(attrType, To8(CountSrv(db, u)), first, last, u, spec);
    forall i | 0 <= i < |e| ensures e[i].srv.hdr.inst == To8(CountSrv(e[..i], e[i].srv.uuid)) {
      assert e[..i] == db[..i];
      if i == |db| { assert db[..i] == db; }
    }
  }

  lemma NewSrvFine(attrType: u8, inst: u8, first: u16, last: u16, u: Uuid, spec: Option<nat>)
    requires if u.Short? then Srv16(attrType) else Srv128(attrType)
    ensures DisSrvOk(NewSrv(attrType, inst, first, last, u, spec))
  {
  }

  lemma {:induction false} CountSrvSame(a: seq<DisSrv>, b: seq<DisSrv>, u: Uuid)
    requires |a| == |b| && forall i :: 0 <= i < |a| ==> a[i].srv == b[i].srv
    ensures CountSrv(a, u) == CountSrv(b, u)
  {
    if a != [] {
      CountSrvSame(a[..|a|-1], b[..|b|-1], u);
    }
  }

  /** Replacing one service's contents keeps the list. */
  lemma UpdateOk(db: seq<DisSrv>, i: nat, d: DisSrv)
    requires ListOk(db) && i < |db| && d.srv == db[i].srv && DisSrvOk(d)
    ensures ListOk(db[i := d])
  {
    var e := db[i := d];
    forall k | 0 <= k < |e| ensures e[k].srv.hdr.inst == To8(CountSrv(e[..k], e[k].srv.uuid)) {
      CountSrvSame(db[..k], e[..k], e[k].srv.uuid);
      assert db[k].srv == e[k].srv;
    }
    forall x | x in e ensures DisSrvOk(x) {
      if x != d { assert x in db; }
    }
  }

  // ----- Secondary service closure -----

  /** Includes only ever carry the two include types. */
  ghost predicate TypedIncs(incs: seq<Inc>) {
    forall i :: i in incs ==> TypedInc(i)
  }

  /** What the step may do to a list: append fresh, wanted, include-less services. */
  ghost predicate Extends(cfg: Config, a: seq<DisSrv>, b: seq<DisSrv>) {
    |a| <= |b| && a == b[..|a|] &&
    forall k :: |a| <= k < |b| ==>
      Wanted(cfg, b[k].srv.uuid) && b[k].spec == FindSpec(cfg.registered, b[k].srv.uuid) &&
      b[k].incs == [] && b[k].chars == [] && IsSecondary(b[k].srv) &&
      forall j :: 0 <= j < k ==> !SameService(b[j].srv, b[k].srv)
  }

  predicate SameService(s: Srv, t: Srv) {
    s.uuid == t.uuid && s.hdr.handle == t.hdr.handle && s.endGroup == t.endGroup
  }

  lemma ExtendsTrans(cfg: Config, a: seq<DisSrv>, b: seq<DisSrv>, c: seq<DisSrv>)
    requires Extends(cfg, a, b) && Extends(cfg, b, c)
    ensures Extends(cfg, a, c)
  {
    assert c[..|a|] == b[..|a|];
    assert forall k :: 0 <= k < |b| ==> c[k] == b[k];
  }

  lemma ListedGrows(cfg: Config, a: seq<DisSrv>, b: seq<DisSrv>, i: Inc)
    requires Extends(cfg, a, b)
    ensures Listed(a, i) ==> Listed(b, i)
    ensures Listed(b, i) && !Wanted(cfg, i.uuid) ==> Listed(a, i)
  {
    assert forall k :: 0 <= k < |a| ==> b[k] == a[k];
    if Listed(a, i) {
      var k :| 0 <= k < |a| && Points(i, a[k].srv);
      assert Points(i, b[k].srv);
    }
  }

  lemma AppendExtends(cfg: Config, db: seq<DisSrv>, i: Inc)
    requires ListOk(db) && TypedInc(i) && !Listed(db, i) && Wanted(cfg, i.uuid)
    ensures
      var e := db + [NewSecondary(cfg, db, i)];
      Extends(cfg, db, e) && ListOk(e) && Listed(e, i)
  {
    var e := db + [NewSecondary(cfg, db, i)];
    assert e[..|db|] == db;
    NewSrvOk(db, if i.uuid.Short? then SECONDARY16 else SECONDARY128, i.first, i.last, i.uuid, FindSpec(cfg.registered, i.uuid));
    assert Points(i, e[|db|].srv);
    forall j | 0 <= j < |db| ensures !SameService(db[j].srv, e[|db|].srv) {
      assert DisSrvOk(db[j]);
      assert !Points(i, db[j].srv);
    }
  }

  /** One service's includes are processed up to the first unlisted one that is not wanted. */
  lemma {:induction false} AddIncludedSpec(cfg: Config, db: seq<DisSrv>, incs: seq<Inc>)
    requires ListOk(db) && TypedIncs(incs)
    ensures var e := AddIncluded(cfg, db, incs); Extends(cfg, db, e) && ListOk(e)
    ensures (forall i :: i in incs ==> Listed(AddIncluded(cfg, db, incs), i))
            <==> (forall i :: i in incs ==> Listed(db, i) || Wanted(cfg, i.uuid))
    decreases |incs|
  {
    if incs != [] {
      var i := incs[0];
      var e := if Listed(db, i) then db else db + [NewSecondary(cfg, db, i)];
      assert TypedInc(i);
      if !Listed(db, i) && Wanted(cfg, i.uuid) { AppendExtends(cfg, db, i); }
      if Listed(db, i) || Wanted(cfg, i.uuid) {
        AddIncludedSpec(cfg, e, incs[1..]);
        var r := AddIncluded(cfg, db, incs);
        ExtendsTrans(cfg, db, e, r);
        forall x | x in incs ensures Listed(e, x) || Wanted(cfg, x.uuid) <==> Listed(db, x) || Wanted(cfg, x.uuid) {
          ListedGrows(cfg, db, e, x);
        }
        ListedGrows(cfg, e, r, i);
        assert forall x :: x in incs <==> x == i || x in incs[1..];
      } else {
        assert i in incs;
      }
    }
  }

  /** Processing the same includes again in a list grown this way adds nothing. */
  lemma {:induction false} AddIncludedAgain(cfg: Config, db: seq<DisSrv>, incs: seq<Inc>, e: seq<DisSrv>)
    requires ListOk(db) && TypedIncs(incs)
    requires Extends(cfg, AddIncluded(cfg, db, incs), e)
    ensures AddIncluded(cfg, e, incs) == e
    decreases |incs|
  {
    if incs != [] {
      var i := incs[0];
      assert TypedInc(i);
      AddIncludedSpec(cfg, db, incs);
      ExtendsTrans(cfg, db, AddIncluded(cfg, db, incs), e);
      ListedGrows(cfg, db, e, i);
      if Listed(db, i) {
        AddIncludedAgain(cfg, db, incs[1..], e);
      } else if Wanted(cfg, i.uuid) {
        AppendExtends(cfg, db, i);
        var d := db + [NewSecondary(cfg, db, i)];
        AddIncludedSpec(cfg, d, incs[1..]);
        ExtendsTrans(cfg, d, AddIncluded(cfg, db, incs), e);
        ListedGrows(cfg, d, e, i);
        AddIncludedAgain(cfg, d, incs[1..], e);
      }
    }
  }

  /** Every include of every service in work has its service in db. */
  ghost predicate Closed(db: seq<DisSrv>, work: seq<DisSrv>) {
    forall w, i :: w in work && i in w.incs ==> Listed(db, i)
  }

  /** Every include of every service in work is listed already, or may be added. */
  ghost predicate Closable(cfg: Config, db: seq<DisSrv>, work: seq<DisSrv>) {
    forall w, i :: w in work && i in w.incs ==> Listed(db, i) || Wanted(cfg, i.uuid)
  }

  lemma {:induction false} AddSecondariesSpec(cfg: Config, db: seq<DisSrv>, work: seq<DisSrv>)
    requires ListOk(db) && forall w :: w in work ==> TypedIncs(w.incs)
    ensures var e := AddSecondaries(cfg, db, work); Extends(cfg, db, e) && ListOk(e)
    ensures Closed(AddSecondaries(cfg, db, work), work) <==> Closable(cfg, db, work)
    decreases |work|
  {
    if work != [] {
      var w := work[0];
      assert w in work;
      var d := AddIncluded(cfg, db, w.incs);
      var e := AddSecondaries(cfg, db, work);
      AddIncludedSpec(cfg, db, w.incs);
      AddSecondariesSpec(cfg, d, work[1..]);
      ExtendsTrans(cfg, db, d, e);
      SplitClosed(cfg, db, d, e, work);
    }
  }

  lemma SplitClosed(cfg: Config, db: seq<DisSrv>, d: seq<DisSrv>, e: seq<DisSrv>, work: seq<DisSrv>)
    requires work != [] && Extends(cfg, db, d) && Extends(cfg, d, e) && Extends(cfg, db, e)
    requires (forall i :: i in work[0].incs ==> Listed(d, i)) <==> (forall i :: i in work[0].incs ==> Listed(db, i) || Wanted(cfg, i.uuid))
    requires Closed(e, work[1..]) <==> Closable(cfg, d, work[1..])
    ensures Closed(e, work) <==> Closable(cfg, db, work)
  {
    assert forall w :: w in work <==> w == work[0] || w in work[1..];
    forall i: Inc
      ensures Listed(d, i) ==> Listed(e, i)
      ensures Listed(d, i) || Wanted(cfg, i.uuid) <==> Listed(db, i) || Wanted(cfg, i.uuid)
      ensures Listed(e, i) ==> Listed(db, i) || Wanted(cfg, i.uuid)
    {
      ListedGrows(cfg, db, d, i);
      ListedGrows(cfg, d, e, i);
      ListedGrows(cfg, db, e, i);
    }
  }

  lemma {:induction false} AddSecondariesAgain(cfg: Config, db: seq<DisSrv>, work: seq<DisSrv>, e: seq<DisSrv>)
    requires ListOk(db) && forall w :: w in work ==> TypedIncs(w.incs)
    requires Extends(cfg, AddSecondaries(cfg, db, work), e)
    ensures AddSecondaries(cfg, e, work) == e
    decreases |work|
  {
    if work != [] {
      var w := work[0];
      assert w in work;
      var d := AddIncluded(cfg, db, w.incs);
      AddIncludedSpec(cfg, db, w.incs);
      AddSecondariesSpec(cfg, d, work[1..]);
      ExtendsTrans(cfg, d, AddSecondaries(cfg, db, work), e);
      AddIncludedAgain(cfg, db, w.incs, e);
      AddSecondariesAgain(cfg, d, work[1..], e);
    }
  }

  lemma {:induction false} AddSecondariesConcat(cfg: Config, db: seq<DisSrv>, a: seq<DisSrv>, b: seq<DisSrv>)
    ensures AddSecondaries(cfg, db, a + b) == AddSecondaries(cfg, AddSecondaries(cfg, db, a), b)
    decreases |a|
  {
    if a == [] {
      assert a + b == b;
    } else {
      assert (a + b)[1..] == a[1..] + b;
      AddSecondariesConcat(cfg, AddIncluded(cfg, db, a[0].incs), a[1..], b);
    }
  }

  lemma {:induction false} NothingIncluded(cfg: Config, db: seq<DisSrv>, work: seq<DisSrv>)
    requires forall w :: w in work ==> w.incs == []
    ensures AddSecondaries(cfg, db, work) == db
    decreases |work|
  {
    if work != [] {
      assert work[0] in work;
      NothingIncluded(cfg, db, work[1..]);
    }
  }

  lemma ExtendsBound(cfg: Config, a: seq<DisSrv>, b: seq<DisSrv>)
    requires Extends(cfg, a, b) && Bound(cfg, a)
    ensures Bound(cfg, b)
  {
    forall d | d in b ensures Wanted(cfg, d.srv.uuid) && d.spec == FindSpec(cfg.registered, d.srv.uuid) {
      var k :| 0 <= k < |b| && b[k] == d;
      if k < |a| { assert a[k] in a; }
    }
  }

  /** The closure theorem.  The step keeps what was listed as an unchanged prefix, appends only
      fresh secondary services, and a second step appends nothing.  Afterwards every include has a
      service with its UUID and handle range in the list exactly when every include was listed
      before or has a UUID the client wants. */
  lemma SecondaryClosure(cfg: Config, db: seq<DisSrv>)
    requires ListOk(db)
    ensures var e := AddSecondary(cfg, db); Extends(cfg, db, e) && ListOk(e)
    ensures AddSecondary(cfg, AddSecondary(cfg, db)) == AddSecondary(cfg, db)
    ensures Closed(AddSecondary(cfg, db), AddSecondary(cfg, db)) <==> Closable(cfg, db, db)
  {
    hide CountersMatch, KeyedChars, KeyedSrvs, Wanted, FindSpec, SameService, AddIncluded, AddSecondaries, Listed, TypedInc;
    var e := AddSecondary(cfg, db);
    forall w | w in db ensures TypedIncs(w.incs) { assert DisSrvOk(w); }
    AddSecondariesSpec(cfg, db, db);
    assert e == db + e[|db|..];
    assert forall w :: w in e[|db|..] ==> w.incs == [];
    assert Extends(cfg, e, e) by { assert e[..|e|] == e; }
    AddSecondariesAgain(cfg, db, db, e);
    AddSecondariesConcat(cfg, e, db, e[|db|..]);
    NothingIncluded(cfg, e, e[|db|..]);
    assert forall w :: w in e <==> w in db || w in e[|db|..];
  }

  // ----- Which includes end up listed -----

  /** Two includes that point at the same service. */
  predicate SameTarget(a: Inc, b: Inc) {
    a.uuid == b.uuid && a.first == b.first && a.last == b.last
  }

  /** The loop over a service's includes ends at this one. */
  ghost predicate Stops(cfg: Config, db: seq<DisSrv>, i: Inc) {
    !Wanted(cfg, i.uuid) && !Listed(db, i)
  }

  /** The k-th include is reached, and it points where i does. */
  ghost predicate ClaimsAt(cfg: Config, db: seq<DisSrv>, incs: seq<Inc>, i: Inc, k: nat) {
    k < |incs| && SameTarget(incs[k], i) && forall j :: 0 <= j < k ==> !Stops(cfg, db, incs[j])
  }

  ghost predicate Claims(cfg: Config, db: seq<DisSrv>, incs: seq<Inc>, i: Inc) {
    exists k: nat :: ClaimsAt(cfg, db, incs, i, k)
  }

  /** Some service reaches an include that points where i does. */
  ghost predicate Claimed(cfg: Config, db: seq<DisSrv>, work: seq<DisSrv>, i: Inc) {
    exists w :: w in work && Claims(cfg, db, w.incs, i)
  }

  lemma ClaimsGrown(cfg: Config, db: seq<DisSrv>, e: seq<DisSrv>, incs: seq<Inc>, i: Inc)
    requires Extends(cfg, db, e)
    ensures Claims(cfg, e, incs, i) <==> Claims(cfg, db, incs, i)
  {
    hide Extends, Wanted, Listed;
    forall x: Inc ensures Stops(cfg, e, x) <==> Stops(cfg, db, x) { ListedGrows(cfg, db, e, x); }
    forall k: nat ensures ClaimsAt(cfg, e, incs, i, k) <==> ClaimsAt(cfg, db, incs, i, k) {
    }
  }

  lemma ClaimsHead(cfg: Config, db: seq<DisSrv>, incs: seq<Inc>, i: Inc)
    requires incs != []
    ensures Claims(cfg, db, incs, i) <==>
      SameTarget(incs[0], i) || (!Stops(cfg, db, incs[0]) && Claims(cfg, db, incs[1..], i))
  {
    hide Stops;
    var t := incs[1..];
    if SameTarget(incs[0], i) {
      assert ClaimsAt(cfg, db, incs, i, 0);
    }
    if Claims(cfg, db, incs, i) {
      var k: nat :| ClaimsAt(cfg, db, incs, i, k);
      forall j | 0 <= j < k - 1 ensures !Stops(cfg, db, t[j]) { assert t[j] == incs[j+1]; }
      if k > 0 { assert ClaimsAt(cfg, db, t, i, k - 1); }
    }
    if !Stops(cfg, db, incs[0]) && Claims(cfg, db, t, i) {
      var k: nat :| ClaimsAt(cfg, db, t, i, k);
      forall j | 0 <= j < k + 1 ensures !Stops(cfg, db, incs[j]) {
        if j > 0 { assert incs[j] == t[j-1]; }
      }
      assert ClaimsAt(cfg, db, incs, i, k + 1);
    }
  }

  lemma AppendLists(cfg: Config, db: seq<DisSrv>, x: Inc, i: Inc)
    requires TypedInc(x) && TypedInc(i)
    ensures Listed(db + [NewSecondary(cfg, db, x)], i) <==> Listed(db, i) || SameTarget(x, i)
  {
    var e := db + [NewSecondary(cfg, db, x)];
    assert Points(i, e[|db|].srv) <==> SameTarget(x, i);
    forall k | 0 <= k < |db| ensures e[k] == db[k] {}
    if Listed(db, i) {
      var k :| 0 <= k < |db| && Points(i, db[k].srv);
      assert Points(i, e[k].srv);
    }
  }

  /** One service's includes: listed afterwards is what was listed before, and the wanted targets of
      the includes the loop reaches. */
  lemma {:induction false} AddIncludedExactly(cfg: Config, db: seq<DisSrv>, incs: seq<Inc>, i: Inc)
    requires ListOk(db) && TypedIncs(incs) && TypedInc(i)
    ensures Listed(AddIncluded(cfg, db, incs), i) <==> Listed(db, i) || (Wanted(cfg, i.uuid) && Claims(cfg, db, incs, i))
    decreases |incs|
  {
    hide ListOk, Extends, Wanted, Listed, Claims, NewSecondary;
    if incs == [] {
      NoClaims(cfg, db, i);
    } else {
      var x := incs[0];
      assert TypedInc(x);
      ClaimsHead(cfg, db, incs, i);
      if Listed(db, x) {
        AddIncludedExactly(cfg, db, incs[1..], i);
        if SameTarget(x, i) { ListedTarget(db, x, i); }
      } else if Wanted(cfg, x.uuid) {
        var e := db + [NewSecondary(cfg, db, x)];
        AppendExtends(cfg, db, x);
        AddIncludedExactly(cfg, e, incs[1..], i);
        AppendLists(cfg, db, x, i);
        ClaimsGrown(cfg, db, e, incs[1..], i);
      }
    }
  }

  lemma NoClaims(cfg: Config, db: seq<DisSrv>, i: Inc)
    ensures !Claims(cfg, db, [], i)
  {
  }

  lemma ListedTarget(db: seq<DisSrv>, x: Inc, i: Inc)
    requires TypedInc(x) && TypedInc(i) && SameTarget(x, i)
    ensures Listed(db, x) <==> Listed(db, i)
  {
    assert forall k :: 0 <= k < |db| ==> (Points(x, db[k].srv) <==> Points(i, db[k].srv));
  }

  lemma {:induction false} AddSecondariesExactly(cfg: Config, db: seq<DisSrv>, work: seq<DisSrv>, i: Inc)
    requires ListOk(db) && TypedInc(i) && forall w :: w in work ==> TypedIncs(w.incs)
    ensures Listed(AddSecondaries(cfg, db, work), i) <==> Listed(db, i) || (Wanted(cfg, i.uuid) && Claimed(cfg, db, work, i))
    decreases |work|
  {
    hide ListOk, Extends, Wanted, Listed, Claims, TypedIncs, AddIncluded;
    if work != [] {
      var w := work[0];
      assert w in work;
      var d := AddIncluded(cfg, db, w.incs);
      AddIncludedSpec(cfg, db, w.incs);
      AddIncludedExactly(cfg, db, w.incs, i);
      AddSecondariesExactly(cfg, d, work[1..], i);
      forall x ensures Claims(cfg, d, x, i) <==> Claims(cfg, db, x, i) { ClaimsGrown(cfg, db, d, x, i); }
      assert work == [w] + work[1..];
    }
  }

  /** What the early exit costs: the step lists exactly the services that were listed and the wanted
      ones some service's include reaches, that is, with no unlisted unwanted include before it. */
  lemma SecondaryExactly(cfg: Config, db: seq<DisSrv>, i: Inc)
    requires ListOk(db) && TypedInc(i)
    ensures Listed(AddSecondary(cfg, db), i) <==> Listed(db, i) || (Wanted(cfg, i.uuid) && Claimed(cfg, db, db, i))
  {
    forall w | w in db ensures TypedIncs(w.incs) { assert DisSrvOk(w); }
    AddSecondariesExactly(cfg, db, db, i);
  }

  /** Every wanted include of a listed service is listed afterwards. */
  ghost predicate WantedListed(cfg: Config, db: seq<DisSrv>, e: seq<DisSrv>) {
    forall w, i :: w in db && i in w.incs && Wanted(cfg, i.uuid) ==> Listed(e, i)
  }

  /** So no wanted include is lost exactly when each is listed already or reached by some service. */
  lemma WantedIncludes(cfg: Config, db: seq<DisSrv>)
    requires ListOk(db)
    ensures WantedListed(cfg, db, AddSecondary(cfg, db)) <==>
      (forall w, i :: w in db && i in w.incs && Wanted(cfg, i.uuid) ==> Listed(db, i) || Claimed(cfg, db, db, i))
  {
    hide Wanted, Listed, Claimed, AddSecondary;
    forall w, i | w in db && i in w.incs
      ensures Listed(AddSecondary(cfg, db), i) <==> Listed(db, i) || (Wanted(cfg, i.uuid) && Claimed(cfg, db, db, i))
    {
      assert DisSrvOk(w);
      SecondaryExactly(cfg, db, i);
    }
  }

  /** A service that includes an unwanted service and then a wanted one. */
  function LossyConfig(): Config { Config([Short(0x1812), Short(0x180F)], true) }

  function LossyFound(): DisSrv {
    NewSrv(PRIMARY16, 0, 1, 9, Short(0x1812), FindSpec(LossyConfig().registered, Short(0x1812)))
  }

  function LossySrv(): DisSrv {
    AddInclude(AddInclude(LossyFound(), 2, 20, 29, Short(0x180A)), 3, 30, 39, Short(0x180F))
  }

  lemma LossyReported()
    ensures AddPrimary(LossyConfig(), [], 1, 9, Short(0x1812)) == [LossyFound()]
  {
    hide FindSpec;
    assert LossyConfig().registered[0] == Short(0x1812);
  }

  lemma LossyListed()
    ensures ListOk([LossySrv()])
  {
    hide DisSrvOk, AddInclude;
    var spec := FindSpec(LossyConfig().registered, Short(0x1812));
    var found := LossyFound();
    NewSrvFine(PRIMARY16, 0, 1, 9, Short(0x1812), spec);
    AddIncludeOk(found, 2, 20, 29, Short(0x180A));
    AddIncludeOk(AddInclude(found, 2, 20, 29, Short(0x180A)), 3, 30, 39, Short(0x180F));
    OneKeyed();
  }

  lemma OneKeyed()
    ensures KeyedSrvs([LossySrv()])
  {
    assert [LossySrv()][..0] == [];
  }

  /** The wanted include behind the unwanted one is lost. */
  lemma WantedIncludeLost()
    ensures
      var cfg, d := LossyConfig(), LossySrv();
      AddPrimary(cfg, [], 1, 9, Short(0x1812)) == [LossyFound()] && ListOk([d]) &&
      |d.incs| == 2 && d.incs[1].uuid == Short(0x180F) && Wanted(cfg, d.incs[1].uuid) &&
      AddSecondary(cfg, [d]) == [d] && !Listed(AddSecondary(cfg, [d]), d.incs[1])
  {
    hide ListOk, FindSpec, AddPrimary;
    LossyListed();
    LossyReported();
    var cfg, d := LossyConfig(), LossySrv();
    assert cfg.registered[1] == Short(0x180F);
    var x, y := d.incs[0], d.incs[1];
    assert x.uuid == Short(0x180A) && y.uuid == Short(0x180F) && d.srv.uuid == Short(0x1812);
    assert FindListed([d], x) == 1 && FindListed([d], y) == 1;
    assert AddIncluded(cfg, [d], d.incs) == [d];
    assert AddSecondaries(cfg, [d], []) == [d];
    assert [d][1..] == [];
  }
}
