/** Configuring CCCDs: which requests the client makes, which answers it stores, and so what the CCCD
    table holds over whole runs of a link. */
module CccdConfig {
  import opened Widths
  import opened Attributes
  import opened ServiceTable
  import opened TableLoad
  import opened CccdTable
  import opened Queries
  import opened TableKeeps
  import S = Scheduler

  // ----- Which characteristics are configured -----

  /** The bits to write: what was asked for as far as the properties allow it; none if they allow
      nothing of it. */
  function CccdBits(props: u16, cfg: u8): (r: Option<u16>) {
    var notify, indicate := (props / 0x10) % 2 == 1, (props / 0x20) % 2 == 1;
    if !notify && !indicate then None
    else if cfg == 0 then Some(0)
    else
      var bits := (if cfg % 2 == 1 && notify then 1 else 0) + (if (cfg / 2) % 2 == 1 && indicate then 2 else 0);
      if bits != 0 then Some(bits) else None
  }

  /** The characteristic is asked for, has a CCCD, and allows some of the configuration. */
  predicate Chosen(r: Row, u: Option<Uuid>, cfg: u8) {
    HasCccd(r) && (u.None? || r.ch.uuid == u.value) && CccdBits(r.ch.props, cfg).Some?
  }

  /** The write that configures a chosen characteristic. */
  function WriteOf(r: Row, cfg: u8): Write {
    if r.CharRow? && CccdBits(r.ch.props, cfg).Some? then Write(r.cccd.handle, CccdBits(r.ch.props, cfg).value)
    else Write(0, 0)
  }

  function Selected(rs: seq<Row>, u: Option<Uuid>, cfg: u8): seq<Write> {
    if rs == [] then []
    else
      var r := rs[|rs|-1];
      Selected(rs[..|rs|-1], u, cfg) +
      if Chosen(r, u, cfg) then [WriteOf(r, cfg)] else []
  }

  /** A UUID is looked for among the characteristics of its width, no UUID among all. */
  function Enabling(c: CachedSrv, u: Option<Uuid>, cfg: u8): seq<Write> {
    (if u.None? || u.value.Short? then Selected(c.char16, u, cfg) else []) +
    (if u.None? || u.value.Long? then Selected(c.char128, u, cfg) else [])
  }

  // ----- Said of the entries themselves -----

  predicate MayNotify(props: u16) { props / 16 % 2 == 1 }

  predicate MayIndicate(props: u16) { props / 32 % 2 == 1 }

  /** The entry is to be configured: it has a CCCD, is asked for, allows notifying or indicating, and
      what is asked for is nothing or shares a bit with what it allows. */
  predicate Configures(r: Row, u: Option<Uuid>, cfg: u8) {
    r.CharRow? && r.cccd.handle != 0 && (u == None || u == Some(r.ch.uuid)) &&
    (MayNotify(r.ch.props) || MayIndicate(r.ch.props)) &&
    (cfg == 0 || (cfg % 2 == 1 && MayNotify(r.ch.props)) || (cfg / 2 % 2 == 1 && MayIndicate(r.ch.props)))
  }

  /** Bit 0 is set if notifications are asked for and allowed, bit 1 if indications are, and no other. */
  predicate RightBits(bits: u16, props: u16, cfg: u8) {
    bits < 4 && (bits % 2 == 1 <==> cfg % 2 == 1 && MayNotify(props)) &&
    (bits / 2 == 1 <==> cfg / 2 % 2 == 1 && MayIndicate(props))
  }

  predicate ConfiguredBy(r: Row, u: Option<Uuid>, cfg: u8, w: Write) {
    Configures(r, u, cfg) && w.handle == r.cccd.handle && RightBits(w.bits, r.ch.props, cfg)
  }

  /** The writes are those of the entries to be configured, one each and in order. */
  ghost predicate WritesAt(ws: seq<Write>, rs: seq<Row>, u: Option<Uuid>, cfg: u8, at: seq<nat>) {
    |at| == |ws| && Positions(at, |rs|) && (forall k :: 0 <= k < |at| ==> ConfiguredBy(rs[at[k]], u, cfg, ws[k])) &&
    forall i :: 0 <= i < |rs| && Configures(rs[i], u, cfg) ==> i in at
  }

  lemma ChosenConfigures(r: Row, u: Option<Uuid>, cfg: u8)
    ensures Chosen(r, u, cfg) <==> Configures(r, u, cfg)
    ensures Chosen(r, u, cfg) ==> ConfiguredBy(r, u, cfg, WriteOf(r, cfg))
  {
  }

  lemma {:induction false} SelectedAt(rs: seq<Row>, u: Option<Uuid>, cfg: u8) returns (at: seq<nat>)
    ensures WritesAt(Selected(rs, u, cfg), rs, u, cfg, at)
  {
    hide Chosen, WriteOf, Configures, ConfiguredBy, WritesAt;
    if rs == [] {
      at := [];
      NothingWritten(u, cfg);
    } else {
      var n := |rs| - 1;
      at := SelectedAt(rs[..n], u, cfg);
      ChosenConfigures(rs[n], u, cfg);
      WritesNext(Selected(rs[..n], u, cfg), rs, u, cfg, at, WriteOf(rs[n], cfg));
      assert Selected(rs[..n], u, cfg) + [] == Selected(rs[..n], u, cfg);
      if Chosen(rs[n], u, cfg) { at := at + [n]; }
    }
  }

  lemma NothingWritten(u: Option<Uuid>, cfg: u8)
    ensures WritesAt([], [], u, cfg, [])
  {
  }

  lemma WritesNext(ws: seq<Write>, rs: seq<Row>, u: Option<Uuid>, cfg: u8, at: seq<nat>, w: Write)
    requires rs != [] && WritesAt(ws, rs[..|rs|-1], u, cfg, at)
    requires Configures(rs[|rs|-1], u, cfg) ==> ConfiguredBy(rs[|rs|-1], u, cfg, w)
    ensures
      if Configures(rs[|rs|-1], u, cfg) then WritesAt(ws + [w], rs, u, cfg, at + [|rs| - 1]) else WritesAt(ws, rs, u, cfg, at)
  {
    hide Configures, ConfiguredBy;
    var n := |rs| - 1;
    var all := at + [n];
    forall i | 0 <= i < |rs| && Configures(rs[i], u, cfg) ensures i in all && (i < n ==> i in at) {
      if i < n {
        assert rs[..n][i] == rs[i];
        var k :| 0 <= k < |at| && at[k] == i;
        assert all[k] == i;
      } else {
        assert all[|at|] == i;
      }
    }
    forall k | 0 <= k < |at| ensures rs[..n][at[k]] == rs[at[k]] {}
  }

  lemma WritesJoin(v: seq<Write>, w: seq<Write>, rs: seq<Row>, ts: seq<Row>, u: Option<Uuid>, cfg: u8, at: seq<nat>, bt: seq<nat>) returns (all: seq<nat>)
    requires WritesAt(v, rs, u, cfg, at) && WritesAt(w, ts, u, cfg, bt)
    ensures WritesAt(v + w, rs + ts, u, cfg, all)
  {
    hide Configures, ConfiguredBy;
    var shifted := seq(|bt|, k requires 0 <= k < |bt| => |rs| + bt[k]);
    all := at + shifted;
    var rows := rs + ts;
    forall i | 0 <= i < |rows| && Configures(rows[i], u, cfg) ensures i in all {
      if i < |rs| {
        var k :| 0 <= k < |at| && at[k] == i;
        assert all[k] == i;
      } else {
        assert ts[i - |rs|] == rows[i];
        var k :| 0 <= k < |bt| && bt[k] == i - |rs|;
        assert all[|at| + k] == i;
      }
    }
    forall k | 0 <= k < |all|
      ensures all[k] < |rows| && ConfiguredBy(rows[all[k]], u, cfg, (v + w)[k])
    {
      if k < |at| { assert rows[all[k]] == rs[at[k]]; } else { assert rows[all[k]] == ts[bt[k - |at|]]; }
    }
  }

  lemma ConfiguredOnce(r: Row, u: Option<Uuid>, cfg: u8, w: Write)
    ensures ConfiguredBy(r, u, cfg, w) <==> Chosen(r, u, cfg) && w == WriteOf(r, cfg)
  {
  }

  /** A write is among those of a table exactly if it configures one of its entries. */
  lemma {:induction false} SelectedExactly(rs: seq<Row>, u: Option<Uuid>, cfg: u8, w: Write)
    ensures w in Selected(rs, u, cfg) <==> exists i :: 0 <= i < |rs| && ConfiguredBy(rs[i], u, cfg, w)
  {
    hide Chosen, WriteOf, ConfiguredBy;
    if rs != [] {
      var n := |rs| - 1;
      var init := rs[..n];
      SelectedExactly(init, u, cfg, w);
      ConfiguredOnce(rs[n], u, cfg, w);
      if w in Selected(init, u, cfg) {
        var i :| 0 <= i < n && ConfiguredBy(init[i], u, cfg, w);
        assert rs[i] == init[i];
      }
      if i :| 0 <= i < |rs| && ConfiguredBy(rs[i], u, cfg, w) {
        if i < n { assert init[i] == rs[i]; }
      }
    }
  }

  /** Only CCCDs of the database are written. */
  lemma EnablingWithin(cs: seq<CachedSrv>, c: CachedSrv, u: Option<Uuid>, cfg: u8, w: Write)
    requires c in cs && w in Enabling(c, u, cfg)
    ensures w.handle != 0 && w.handle in CccdHandles(cs)
  {
    hide RightBits, CccdHandles, Selected;
    SelectedExactly(c.char16, u, cfg, w);
    SelectedExactly(c.char128, u, cfg, w);
    if w in Selected(c.char16, u, cfg) {
      var i :| 0 <= i < |c.char16| && ConfiguredBy(c.char16[i], u, cfg, w);
      CccdHandlesHold(cs, c, c.char16[i]);
    } else {
      var i :| 0 <= i < |c.char128| && ConfiguredBy(c.char128[i], u, cfg, w);
      CccdHandlesHold(cs, c, c.char128[i]);
    }
  }

  /** In a table of entries of the other width none has the UUID. */
  lemma OtherWidth(rs: seq<Row>, k: TableKind, u: Option<Uuid>, cfg: u8)
    requires TypedRows(rs, k) && (k == Char16 || k == Char128) && u.Some? && (u.value.Long? <==> k == Char16)
    ensures WritesAt([], rs, u, cfg, [])
  {
    forall i | 0 <= i < |rs| ensures !Configures(rs[i], u, cfg) { assert rs[i] in rs; }
  }

  /** The configuration theorem: of a service's characteristics, exactly those are written that have a
      CCCD, are asked for and allow some of what is asked, one write each in table order to their own
      CCCD, with the notification and indication bits asked for and allowed. */
  lemma EnablingExactly(c: CachedSrv, u: Option<Uuid>, cfg: u8)
    requires TypedRows(c.char16, Char16) && TypedRows(c.char128, Char128)
    ensures exists at :: WritesAt(Enabling(c, u, cfg), c.char16 + c.char128, u, cfg, at)
  {
    hide WritesAt, Selected, TypedRows;
    var narrow := if u.None? || u.value.Short? then Selected(c.char16, u, cfg) else [];
    var wide := if u.None? || u.value.Long? then Selected(c.char128, u, cfg) else [];
    var at := SelectedAt(c.char16, u, cfg);
    var bt := SelectedAt(c.char128, u, cfg);
    if u.Some? && u.value.Long? {
      OtherWidth(c.char16, Char16, u, cfg);
      at := [];
    }
    if u.Some? && u.value.Short? {
      OtherWidth(c.char128, Char128, u, cfg);
      bt := [];
    }
    assert narrow + wide == Enabling(c, u, cfg);
    var all := WritesJoin(narrow, wide, c.char16, c.char128, u, cfg, at, bt);
  }

  // ----- The client of one link -----

  /** done: a database is there.  base is what the slots held when it came; stored is a trace of what
      was stored since. */
  datatype Client = Client(
    link: S.Link,
    db: seq<CachedSrv>,
    done: bool,
    keep: bool,
    slots: seq<Slot>,
    base: seq<Slot>,
    stored: seq<Write>)

  datatype Event =
    | Asked(rs: seq<S.NewReq>)
    | CccdAsked(srv: Uuid, inst: u8, ch: Option<Uuid>, cfg: u8)
    | OnLink(e: S.Event)
    | Discovered(db: seq<CachedSrv>)
    | Loaded(db: seq<CachedSrv>, saved: Option<seq<u8>>)

  function Requests(ws: seq<Write>): (rs: seq<S.NewReq>)
    ensures |rs| == |ws| && forall i :: 0 <= i < |ws| ==> rs[i] == S.NewReq(S.Cccd(ws[i].bits), ws[i].handle)
  {
    if ws == [] then [] else [S.NewReq(S.Cccd(ws[0].bits), ws[0].handle)] + Requests(ws[1..])
  }

  /** The writes to be requested, if a database is there and holds the service. */
  function Wanted(c: Client, srv: Uuid, inst: u8, ch: Option<Uuid>, cfg: u8): seq<Write> {
    if !c.done then []
    else
      var i := FindTag(SrvTags(c.db), srv, inst);
      if i < |c.db| then Enabling(c.db[i], ch, cfg) else []
  }

  function Enable(c: Client, srv: Uuid, inst: u8, ch: Option<Uuid>, cfg: u8, accept: S.Answers): Client {
    var ws := Wanted(c, srv, inst, ch, cfg);
    if ws == [] then c else c.(link := S.Submit(c.link, Requests(ws), accept))
  }

  /** A successful answer to a CCCD request has its bits stored. */
  function Answer(c: Client, handle: u16, cid: u16, isRead: bool, failed: bool): Client {
    var i := S.FindWaiting(c.link.waiting, handle, cid, isRead, failed);
    if i < |c.link.waiting| && c.link.waiting[i].kind.Cccd? && c.keep && !failed then
      var w := Write(c.link.waiting[i].handle, c.link.waiting[i].kind.bits);
      c.(slots := Store(c.slots, w.handle, w.bits), stored := c.stored + [w])
    else c
  }

  /** A restarted discovery and a released link lose the database and its slots. */
  function Lost(c: Client): Client {
    c.(db := [], done := false, slots := [], base := [], stored := [])
  }

  function OnBearer(c: Client, e: S.Event, accept: S.Answers): Client {
    var d := match e
      case Response(handle, cid, isRead, failed) => Answer(c, handle, cid, isRead, failed)
      case DiscoveryRestarted => Lost(c)
      case LinkReleased => Lost(c)
      case _ => c;
    d.(link := S.Step(c.link, e, accept))
  }

  /** A database comes, with empty slots or with those restored from storage. */
  function Got(c: Client, db: seq<CachedSrv>, saved: Option<seq<u8>>): Client {
    var slots := if c.keep then Restored(To8(CccdCount(db)), saved) else [];
    c.(db := db, done := true, slots := slots, base := slots, stored := [])
  }

  function Step(c: Client, e: Event, accept: S.Answers): Client {
    match e
    case Asked(rs) => c.(link := S.Submit(c.link, rs, accept))
    case CccdAsked(srv, inst, ch, cfg) => Enable(c, srv, inst, ch, cfg, accept)
    case OnLink(se) => OnBearer(c, se, accept)
    case Discovered(db) => Got(c, db, None)
    case Loaded(db, saved) => Got(c, db, saved)
  }

  /** Reads and writes asked for by the application are not CCCD requests; a database comes when
      there is none, with no more CCCDs than 8 bits count, and with values saved for the same one. */
  ghost predicate Legal(c: Client, e: Event) {
    match e
    case Asked(rs) => forall r :: r in rs ==> !r.kind.Cccd?
    case OnLink(se) => !se.Submitted?
    case Discovered(db) => !c.done && (c.keep ==> CccdCount(db) <= 255)
    case Loaded(db, saved) =>
      !c.done && (c.keep ==> CccdCount(db) <= 255 && (saved.Some? ==> SavedFor(db, saved.value)))
    case _ => true
  }

  /** Asking for a configuration without a database, or for a service it does not hold, does nothing.
      Otherwise exactly the writes of EnablingExactly are submitted as CCCD requests, in order. */
  lemma AskedExactly(c: Client, srv: Uuid, inst: u8, ch: Option<Uuid>, cfg: u8, accept: S.Answers)
      returns (ws: seq<Write>, rs: seq<S.NewReq>, at: seq<nat>)
    requires forall s :: s in c.db ==> TypedRows(s.char16, Char16) && TypedRows(s.char128, Char128)
    ensures
      var n := Step(c, CccdAsked(srv, inst, ch, cfg), accept);
      var i := FindTag(SrvTags(c.db), srv, inst);
      if !c.done || i >= |c.db| then n == c
      else
        WritesAt(ws, c.db[i].char16 + c.db[i].char128, ch, cfg, at) && |rs| == |ws| &&
        (forall k :: 0 <= k < |ws| ==> rs[k] == S.NewReq(S.Cccd(ws[k].bits), ws[k].handle)) &&
        n == if ws == [] then c else c.(link := S.Step(c.link, S.Submitted(rs), accept))
  {
    hide WritesAt, Enabling, TypedRows, S.Submit;
    ws, rs, at := [], [], [];
    var i := FindTag(SrvTags(c.db), srv, inst);
    if c.done && i < |c.db| {
      EnablingExactly(c.db[i], ch, cfg);
      ws := Enabling(c.db[i], ch, cfg);
      rs := Requests(ws);
      at :| WritesAt(ws, c.db[i].char16 + c.db[i].char128, ch, cfg, at);
    }
  }

  function Run(c: Client, es: seq<Event>, accept: S.Answers): Client
    decreases |es|
  {
    if es == [] then c else Run(Step(c, es[0], accept), es[1..], accept)
  }

  ghost predicate LegalRun(c: Client, es: seq<Event>, accept: S.Answers)
    decreases |es|
  {
    es == [] || (Legal(c, es[0]) && LegalRun(Step(c, es[0], accept), es[1..], accept))
  }

  predicate Initial(c: Client) {
    S.Initial(c.link) && c.db == [] && !c.done && c.slots == [] && c.base == [] && c.stored == []
  }

  // ----- CCCD requests only ever name CCCDs of the database -----

  /** The CCCD requests in the list name these handles. */
  ghost predicate Naming(rs: seq<S.Req>, hs: set<u16>) {
    forall r :: r in rs && r.kind.Cccd? ==> r.handle != 0 && r.handle in hs
  }

  ghost predicate LinkNames(l: S.Link, hs: set<u16>) {
    Naming(l.queued, hs) && Naming(l.waiting, hs)
  }

  /** The handles CCCD requests may name. */
  function Handles(c: Client): set<u16> { if c.done then CccdHandles(c.db) else {} }

  lemma OfferNames(l: S.Link, r: S.Req, accept: S.Answers, hs: set<u16>)
    requires LinkNames(l, hs) && Naming([r], hs)
    ensures LinkNames(S.Offer(l, r, accept), hs)
  {
    hide S.Need, To16;
    assert r in [r];
  }

  lemma {:induction false} DrainNames(l: S.Link, rest: seq<S.Req>, accept: S.Answers, hs: set<u16>)
    requires LinkNames(l, hs) && Naming(rest, hs)
    ensures LinkNames(S.Drain(l, rest, accept), hs)
    decreases |rest|
  {
    hide LinkNames, S.Offer;
    if rest != [] {
      OfferNames(l, rest[0], accept, hs);
      DrainNames(S.Offer(l, rest[0], accept), rest[1..], accept, hs);
    }
  }

  lemma DispatchNames(l: S.Link, accept: S.Answers, hs: set<u16>)
    requires LinkNames(l, hs)
    ensures LinkNames(S.Dispatch(l, accept), hs)
  {
    hide S.Drain;
    DrainNames(l.(queued := []), l.queued, accept, hs);
  }

  lemma {:induction false} NumberedNames(rs: seq<S.NewReq>, id: nat, hs: set<u16>)
    requires forall r :: r in rs && r.kind.Cccd? ==> r.handle != 0 && r.handle in hs
    ensures Naming(S.Numbered(rs, id), hs)
    decreases |rs|
  {
    if rs != [] { NumberedNames(rs[1..], id + 1, hs); }
  }

  lemma SubmitNames(l: S.Link, rs: seq<S.NewReq>, accept: S.Answers, hs: set<u16>)
    requires LinkNames(l, hs) && forall r :: r in rs && r.kind.Cccd? ==> r.handle != 0 && r.handle in hs
    ensures LinkNames(S.Submit(l, rs, accept), hs)
  {
    hide S.Dispatch, S.Numbered;
    NumberedNames(rs, l.nextId, hs);
    DispatchNames(S.Enqueue(l, rs), accept, hs);
  }

  lemma {:induction false} NotOnKeeps(w: seq<S.Req>, cid: u16)
    ensures forall r :: r in S.NotOn(w, cid) ==> r in w
  {
    if w != [] { NotOnKeeps(w[1..], cid); }
  }

  lemma LinkEventNames(l: S.Link, e: S.Event, accept: S.Answers, hs: set<u16>)
    requires LinkNames(l, hs) && !e.Submitted?
    ensures LinkNames(S.Step(l, e, accept), hs)
    ensures e.DiscoveryRestarted? || e.LinkReleased? ==> LinkNames(S.Step(l, e, accept), {})
  {
    hide S.Dispatch, S.Ended, S.LostOn, S.NotOn, To16;
    match e
    case Response(handle, cid, isRead, failed) =>
      var i := S.FindWaiting(l.waiting, handle, cid, isRead, failed);
      if i < |l.waiting| { DispatchNames(S.Finish(l, i), accept, hs); }
    case ChannelAdded(c, mtu) => DispatchNames(S.SetMtu(S.Allocate(l, c), c, mtu), accept, hs);
    case MtuUpdated(c, mtu) => DispatchNames(S.SetMtu(l, c, mtu), accept, hs);
    case ChannelDeleted(c) => NotOnKeeps(l.waiting, c);
    case DiscoveryRestarted =>
    case LinkReleased =>
  }

  // ----- The slots hold what was stored last -----

  ghost predicate SlotsHold(c: Client) {
    c.done && c.keep ==>
      SlotsFor(c.db, c.base) && c.slots == StoreAll(c.base, c.stored) &&
      forall w :: w in c.stored ==> w.handle != 0 && w.handle in CccdHandles(c.db)
  }

  ghost predicate ClientOk(c: Client) {
    LinkNames(c.link, Handles(c)) && SlotsHold(c)
  }

  lemma {:induction false} StoreLast(s: seq<Slot>, ws: seq<Write>, w: Write)
    ensures StoreAll(s, ws + [w]) == Store(StoreAll(s, ws), w.handle, w.bits)
    decreases |ws|
  {
    hide Store;
    if ws == [] {
      assert ws + [w] == [w];
    } else {
      assert (ws + [w])[1..] == ws[1..] + [w];
      StoreLast(Store(s, ws[0].handle, ws[0].bits), ws[1..], w);
    }
  }

  lemma AnswerHolds(c: Client, handle: u16, cid: u16, isRead: bool, failed: bool)
    requires ClientOk(c)
    ensures SlotsHold(Answer(c, handle, cid, isRead, failed))
  {
    hide CccdHandles, CccdCount, Store, StoreAll, SlotsOk, Within;
    var i := S.FindWaiting(c.link.waiting, handle, cid, isRead, failed);
    if i < |c.link.waiting| && c.link.waiting[i].kind.Cccd? && c.keep && !failed {
      var r := c.link.waiting[i];
      assert r in c.link.waiting;
      StoreLast(c.base, c.stored, Write(r.handle, r.kind.bits));
    }
  }

  lemma EnableOk(c: Client, srv: Uuid, inst: u8, ch: Option<Uuid>, cfg: u8, accept: S.Answers)
    requires ClientOk(c)
    ensures ClientOk(Enable(c, srv, inst, ch, cfg, accept))
  {
    hide S.Submit, SlotsHold, LinkNames, Enabling, CccdHandles;
    var ws := Wanted(c, srv, inst, ch, cfg);
    var rs := Requests(ws);
    forall r | r in rs ensures r.handle != 0 && r.handle in Handles(c) {
      var k :| 0 <= k < |rs| && rs[k] == r;
      assert ws[k] in ws;
      var i := FindTag(SrvTags(c.db), srv, inst);
      EnablingWithin(c.db, c.db[i], ch, cfg, ws[k]);
    }
    SubmitNames(c.link, rs, accept, Handles(c));
    SlotsSame(c, c.(link := S.Submit(c.link, rs, accept)));
  }

  lemma SlotsSame(c: Client, d: Client)
    requires SlotsHold(c) && d == c.(link := d.link)
    ensures SlotsHold(d)
  {
  }

  lemma StepOk(c: Client, e: Event, accept: S.Answers)
    requires ClientOk(c) && Legal(c, e)
    ensures ClientOk(Step(c, e, accept))
  {
    hide S.Submit, S.Step, SlotsHold, LinkNames, CccdHandles, Enable, SlotsFor, SavedFor, Got;
    match e
    case Asked(rs) =>
      SubmitNames(c.link, rs, accept, Handles(c));
      SlotsSame(c, Step(c, e, accept));
    case CccdAsked(srv, inst, ch, cfg) => EnableOk(c, srv, inst, ch, cfg, accept);
    case OnLink(se) =>
      LinkEventNames(c.link, se, accept, Handles(c));
      OnLinkHolds(c, se, accept);
    case Discovered(db) => GotOk(c, db, None);
    case Loaded(db, saved) => GotOk(c, db, saved);
  }

  lemma NamesGrow(l: S.Link, hs: set<u16>)
    requires LinkNames(l, {})
    ensures LinkNames(l, hs)
  {
  }

  lemma GotOk(c: Client, db: seq<CachedSrv>, saved: Option<seq<u8>>)
    requires ClientOk(c) && !c.done
    requires c.keep ==> CccdCount(db) <= 255 && (saved.Some? ==> SavedFor(db, saved.value))
    ensures ClientOk(Got(c, db, saved))
  {
    hide LinkNames, SlotsFor, CccdHandles, CccdCount, Restored, SavedFor;
    NamesGrow(c.link, CccdHandles(db));
    if c.keep { RestoredFor(db, saved); }
  }

  lemma OnLinkHolds(c: Client, e: S.Event, accept: S.Answers)
    requires ClientOk(c)
    ensures SlotsHold(OnBearer(c, e, accept))
  {
    hide S.Step, LinkNames, Answer;
    if e.Response? {
      var a := Answer(c, e.handle, e.cid, e.isRead, e.failed);
      AnswerHolds(c, e.handle, e.cid, e.isRead, e.failed);
      SlotsSame(a, a.(link := S.Step(c.link, e, accept)));
    } else if !e.DiscoveryRestarted? && !e.LinkReleased? {
      SlotsSame(c, c.(link := S.Step(c.link, e, accept)));
    }
  }

  lemma {:induction false} RunOk(c: Client, es: seq<Event>, accept: S.Answers)
    requires ClientOk(c) && LegalRun(c, es, accept)
    ensures ClientOk(Run(c, es, accept))
    decreases |es|
  {
    hide ClientOk, Step, Legal;
    if es != [] {
      StepOk(c, es[0], accept);
      RunOk(Step(c, es[0], accept), es[1..], accept);
    }
  }

  /** The CCCD theorem, over every run of a link, through discoveries and reconfigurations: whenever a
      database is there, every CCCD request under way names a CCCD of it, and every handle reads as
      last stored, or as it was when the database came. */
  lemma CccdReadsLastStored(c: Client, es: seq<Event>, accept: S.Answers, g: u16)
    requires Initial(c) && LegalRun(c, es, accept) && g != 0
    ensures
      var r := Run(c, es, accept);
      (forall q :: q in r.link.queued + r.link.waiting && q.kind.Cccd? ==> r.done && q.handle in CccdHandles(r.db)) &&
      (r.done && r.keep ==> Lookup(r.slots, g) == LastWritten(r.stored, g, Lookup(r.base, g)))
  {
    hide CccdHandles, CccdCount, StoreAll, LastWritten, Lookup, SlotsOk, Within, Step, Run, LegalRun;
    RunOk(c, es, accept);
    var r := Run(c, es, accept);
    if r.done && r.keep {
      NeverDrops(r.base, r.stored, CccdHandles(r.db), g);
    }
  }

  /** And what is stored comes from nothing but the successful answer to the CCCD request it names,
      which ResponseAttribution shows to be the one outstanding on that bearer. */
  lemma StoredByAnswer(c: Client, e: Event, accept: S.Answers)
    requires c.done && Legal(c, e)
    ensures
      var n := Step(c, e, accept);
      n.done ==>
        if e.OnLink? && e.e.Response? && !e.e.failed && c.keep &&
           (var i := S.FindWaiting(c.link.waiting, e.e.handle, e.e.cid, e.e.isRead, false);
            i < |c.link.waiting| && c.link.waiting[i].kind.Cccd?)
        then
          var q := c.link.waiting[S.FindWaiting(c.link.waiting, e.e.handle, e.e.cid, e.e.isRead, false)];
          n.stored == c.stored + [Write(q.handle, q.kind.bits)] && q.handle == e.e.handle && q.cid == e.e.cid && !e.e.isRead
        else n.stored == c.stored && n.slots == c.slots
  {
    hide S.Submit, S.Step, Store;
  }

  lemma {:induction false} StoreAllWithin(s: seq<Slot>, ws: seq<Write>, hs: set<u16>)
    requires SlotsOk(s) && Within(s, hs) && forall w :: w in ws ==> w.handle != 0 && w.handle in hs
    ensures SlotsOk(StoreAll(s, ws)) && Within(StoreAll(s, ws), hs) && |StoreAll(s, ws)| == |s|
    decreases |ws|
  {
    hide SlotsOk, Within, Store;
    if ws != [] {
      assert ws[0] in ws;
      StoreOk(s, ws[0].handle, ws[0].bits, hs);
      StoreAllWithin(Store(s, ws[0].handle, ws[0].bits), ws[1..], hs);
    }
  }

  /** What the slots hold after any run fits the database again, when it is saved and loaded. */
  lemma SavedSlots(c: Client, es: seq<Event>, accept: S.Answers)
    requires Initial(c) && LegalRun(c, es, accept)
    ensures var r := Run(c, es, accept); r.done && r.keep ==> SlotsFor(r.db, r.slots)
  {
    hide CccdHandles, CccdCount, StoreAll, SlotsOk, Within, Step, Run, LegalRun;
    RunOk(c, es, accept);
    var r := Run(c, es, accept);
    if r.done && r.keep { StoreAllWithin(r.base, r.stored, CccdHandles(r.db)); }
  }

  /** So the values of one link serve another: what any run leaves, saved as bytes and loaded for the
      same database by any client, is a legal load, and every handle reads the same. */
  lemma SavedThenLoaded(c: Client, es: seq<Event>, accept: S.Answers, d: Client, g: u16)
    requires Initial(c) && LegalRun(c, es, accept) && !d.done && d.keep
    ensures
      var r := Run(c, es, accept);
      r.done && r.keep ==>
        var e := Loaded(r.db, Some(SlotBytes(r.slots)));
        Legal(d, e) && Lookup(Step(d, e, accept).slots, g) == Lookup(r.slots, g)
  {
    hide CccdHandles, CccdCount, SlotsOk, Within, Run, LegalRun, SlotBytes, Restored, Lookup;
    SavedSlots(c, es, accept);
    var r := Run(c, es, accept);
    if r.done && r.keep {
      RestoredBack(To8(CccdCount(r.db)), r.slots);
      assert r.slots + Zeroed(0) == r.slots;
    }
  }

  /** A restarted discovery and a released link leave no database and no slots. */
  lemma DatabaseLost(c: Client, e: S.Event, accept: S.Answers)
    requires e.DiscoveryRestarted? || e.LinkReleased?
    ensures
      var n := Step(c, OnLink(e), accept);
      !n.done && n.db == [] && n.slots == [] && n.stored == [] && n.link == S.Step(c.link, e, accept)
  {
    hide S.Step;
  }

  /** A discovered database comes with every handle reading zero, a loaded one with the slots that were
      saved for it; without keeping there are none. */
  lemma DatabaseComes(c: Client, db: seq<CachedSrv>, s: seq<Slot>, accept: S.Answers, g: u16)
    requires c.keep && CccdCount(db) <= 255 && |s| <= CccdCount(db)
    ensures
      var n, v := Step(c, Discovered(db), accept), Step(c, Loaded(db, Some(SlotBytes(s))), accept);
      n.done && n.db == db && n.link == c.link && |n.slots| == CccdCount(db) && Lookup(n.slots, g) == 0 &&
      v == n.(slots := v.slots, base := v.slots) && |v.slots| == CccdCount(db) &&
      v.slots[..|s|] == s && forall k :: |s| <= k < |v.slots| ==> v.slots[k] == Slot(0, 0)
  {
    hide CccdCount, Restored, SlotBytes;
    NothingRestored(CccdCount(db));
    RestoredBack(CccdCount(db), s);
    NothingThere(CccdCount(db), g);
  }

  lemma NothingThere(n: nat, g: u16)
    ensures Lookup(Zeroed(n), g) == 0
  {
  }
}
