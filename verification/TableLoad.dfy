/** Loading a stored service table, and why it restores what was packed. */
module TableLoad {
  import opened Widths
  import opened Attributes
  import opened ServiceTable
  import opened DiscoveryList

  /** The numbers are the source's error indices.  Overrun marks the inputs on which the source would
      read past the end of the buffer; the model stops there. */
  datatype LoadError =
    | TableInUse        // 1
    | NoAddress         // 2
    | NoStorage         // 4
    | NothingStored     // 5
    | BadServiceType    // 7
    | NotRegistered     // 8
    | BadEntry(k: TableKind)  // 9, 10, 11, 12
    | Empty             // 14
    | Overrun

  datatype Parsed = Bad(error: LoadError) | Good(cbs: seq<SrvCb>, cccds: nat)

  datatype ParsedSrv = SrvBad(error: LoadError) | SrvGood(cb: SrvCb, next: nat, cccds: nat)

  function TypeOf(k: TableKind): u8 {
    match k
    case Inc16 => INCLUDE16
    case Inc128 => INCLUDE128
    case Char16 => CHAR16
    case Char128 => CHAR128
  }

  function RowType(r: Row): u8 {
    match r
    case IncRow(i) => i.hdr.attrType
    case CharRow(_, c) => c.hdr.attrType
  }

  function FirstMistyped(rs: seq<Row>, k: TableKind): (i: nat)
    ensures i <= |rs|
    ensures i < |rs| ==> RowType(rs[i]) != TypeOf(k)
    ensures forall j :: 0 <= j < i ==> RowType(rs[j]) == TypeOf(k)
  {
    if rs == [] || RowType(rs[0]) != TypeOf(k) then 0 else 1 + FirstMistyped(rs[1..], k)
  }

  function HasCccd(r: Row): bool {
    r.CharRow? && r.cccd.handle != 0
  }

  /** Characteristics with a CCCD. */
  function CccdRows(rs: seq<Row>): (n: nat)
    ensures n <= |rs|
  {
    if rs == [] then 0 else CccdRows(rs[..|rs|-1]) + if HasCccd(rs[|rs|-1]) then 1 else 0
  }

  function CccdCount(cs: seq<CachedSrv>): nat {
    if cs == [] then 0 else CccdRows(cs[0].char16) + CccdRows(cs[0].char128) + CccdCount(cs[1..])
  }

  /** One service at offset o: its control block and where the next service starts. */
  function ParseSrv(cfg: Config, t: seq<u8>, o: nat): (p: ParsedSrv)
    requires o < |t|
    ensures p.SrvGood? ==> o < p.next <= |t| && InTable(t, p.cb)
  {
    var n := SrvSize(t[o]);
    if !Srv16(t[o]) && !Srv128(t[o]) then SrvBad(BadServiceType)
    else if o + n + 4 > |t| then SrvBad(Overrun)
    else
      var u := SrvAt(t, o).uuid;
      var a, b, c, d := t[o+n], t[o+n+1], t[o+n+2], t[o+n+3];
      if !Wanted(cfg, u) then SrvBad(NotRegistered)
      else if NextAt(o, n, a, b, c, d) > |t| then SrvBad(Overrun)
      else
        var cb := CbAt(FindSpec(cfg.registered, u), o, n, a, b, c, d);
        var s := Read(t, cb);
        if FirstMistyped(s.inc16, Inc16) < |s.inc16| then SrvBad(BadEntry(Inc16))
        else if FirstMistyped(s.inc128, Inc128) < |s.inc128| then SrvBad(BadEntry(Inc128))
        else if FirstMistyped(s.char16, Char16) < |s.char16| then SrvBad(BadEntry(Char16))
        else if FirstMistyped(s.char128, Char128) < |s.char128| then SrvBad(BadEntry(Char128))
        else SrvGood(cb, NextAt(o, n, a, b, c, d), CccdRows(s.char16) + CccdRows(s.char128))
  }

  function Parse(cfg: Config, t: seq<u8>, o: nat): (p: Parsed)
    requires o <= |t|
    ensures p.Good? ==> AllInTable(t, p.cbs)
    decreases |t| - o
  {
    if o == |t| then Good([], 0)
    else
      var p := ParseSrv(cfg, t, o);
      if p.SrvBad? then Bad(p.error)
      else
        var q := Parse(cfg, t, p.next);
        if q.Bad? then q else Good([p.cb] + q.cbs, p.cccds + q.cccds)
  }

  // ----- Loading what was packed -----

  lemma TypedNotMistyped(rs: seq<Row>, k: TableKind)
    requires TypedRows(rs, k)
    ensures FirstMistyped(rs, k) == |rs|
  {
    forall i | 0 <= i < |rs| ensures RowType(rs[i]) == TypeOf(k) {
      assert rs[i] in rs;
    }
  }

  /** A cached service bound to this client's registrations. */
  predicate BoundSrv(cfg: Config, c: CachedSrv) {
    Wanted(cfg, c.srv.uuid) && c.spec == FindSpec(cfg.registered, c.srv.uuid)
  }

  lemma HoldsFour(t: seq<u8>, o: nat, b: seq<u8>)
    requires Holds(t, o, b) && |b| == 4
    ensures o + 4 <= |t| && t[o..o+4] == b
  {
    assert t[o+0] == b[0] && t[o+1] == b[1] && t[o+2] == b[2] && t[o+3] == b[3];
  }

  lemma PackedHeader(t: seq<u8>, o: nat, c: CachedSrv)
    requires TypedCached(c) && Holds(t, o, PackSrv(c))
    ensures
      var n := SrvSize(c.srv.hdr.attrType);
      o + n + 4 <= o + |PackSrv(c)| <= |t| && t[o] == c.srv.hdr.attrType && SrvAt(t, o) == c.srv &&
      t[o+n..o+n+4] == Counts(c)
  {
    assert o + |PackSrv(c)| <= |t|;
    hide Holds, SrvBytes, SrvAt, PackSrv, Tables;
    SplitSrv(t, o, c);
    PackSize(c, o);
    ReadSrv(t, o, c.srv);
    HoldsFour(t, o + SrvSize(c.srv.hdr.attrType), Counts(c));
  }

  lemma SmallCounts(c: CachedSrv)
    requires TypedCached(c)
    ensures Counts(c) == [|c.inc16|, |c.inc128|, |c.char16|, |c.char128|]
    ensures To8(|c.inc16|) == |c.inc16| && To8(|c.inc128|) == |c.inc128|
    ensures To8(|c.char16|) == |c.char16| && To8(|c.char128|) == |c.char128|
  {
  }

  /** The counts read back give the control block and end of the packed service. */
  lemma PackedCb(cfg: Config, t: seq<u8>, o: nat, c: CachedSrv)
    requires TypedCached(c) && BoundSrv(cfg, c) && Holds(t, o, PackSrv(c))
    ensures
      var n := SrvSize(c.srv.hdr.attrType);
      o + n + 4 <= |t| &&
      CbAt(FindSpec(cfg.registered, c.srv.uuid), o, n, t[o+n], t[o+n+1], t[o+n+2], t[o+n+3]) == LayoutOf(c, o) &&
      NextAt(o, n, t[o+n], t[o+n+1], t[o+n+2], t[o+n+3]) == o + |PackSrv(c)|
  {
    hide Holds, SrvBytes, SrvAt, PackSrv, To8, Counts, CbAt, NextAt;
    PackedHeader(t, o, c);
    PackSize(c, o);
    SmallCounts(c);
    hide TypedCached;
    var n := SrvSize(c.srv.hdr.attrType);
    var b := t[o+n..o+n+4];
    assert b[0] == t[o+n] && b[1] == t[o+n+1] && b[2] == t[o+n+2] && b[3] == t[o+n+3];
  }

  lemma NothingMistyped(c: CachedSrv)
    requires TypedCached(c)
    ensures FirstMistyped(c.inc16, Inc16) == |c.inc16| && FirstMistyped(c.inc128, Inc128) == |c.inc128|
    ensures FirstMistyped(c.char16, Char16) == |c.char16| && FirstMistyped(c.char128, Char128) == |c.char128|
  {
    TypedNotMistyped(c.inc16, Inc16);
    TypedNotMistyped(c.inc128, Inc128);
    TypedNotMistyped(c.char16, Char16);
    TypedNotMistyped(c.char128, Char128);
  }

  lemma ParsePackedSrv(cfg: Config, t: seq<u8>, o: nat, c: CachedSrv)
    requires TypedCached(c) && BoundSrv(cfg, c) && Holds(t, o, PackSrv(c)) && o < |t|
    ensures ParseSrv(cfg, t, o) ==
      SrvGood(LayoutOf(c, o), o + |PackSrv(c)|, CccdRows(c.char16) + CccdRows(c.char128))
  {
    hide Holds, PackSrv, SrvBytes, Read, InTable, SrvAt, FirstMistyped, CccdRows, TypedRows, CbAt, NextAt, LayoutOf, Counts;
    PackedHeader(t, o, c);
    PackedCb(cfg, t, o, c);
    ReadPackedSrv(t, o, c);
    NothingMistyped(c);
    assert TypedSrv(c.srv);
    hide TypedCached;
  }

  lemma {:induction false} ParsePacked(cfg: Config, t: seq<u8>, o: nat, cs: seq<CachedSrv>)
    requires forall c :: c in cs ==> TypedCached(c) && BoundSrv(cfg, c)
    requires Holds(t, o, Pack(cs)) && o + |Pack(cs)| == |t|
    ensures Parse(cfg, t, o) == Good(Layout(cs, o), CccdCount(cs))
    decreases |cs|
  {
    hide Holds, PackSrv, TypedCached, BoundSrv, ParseSrv, LayoutOf;
    if cs != [] {
      assert cs[0] in cs;
      HoldsSplit(t, o, PackSrv(cs[0]), Pack(cs[1..]));
      PackedHeader(t, o, cs[0]);
      ParsePackedSrv(cfg, t, o, cs[0]);
      ParsePacked(cfg, t, o + |PackSrv(cs[0])|, cs[1..]);
    }
  }

  // ----- From the discovered database -----

  /** What fits the table: 8-bit counts and list indices, 16-bit length. */
  ghost predicate Fits(db: seq<DisSrv>) {
    |db| <= 255 && |Pack(Cache(db))| <= 0xFFFF && forall d :: d in db ==> SmallSrv(Cached(d))
  }

  predicate SmallSrv(c: CachedSrv) {
    |c.inc16| <= 255 && |c.inc128| <= 255 && |c.char16| <= 255 && |c.char128| <= 255
  }

  lemma {:induction false} PickTyped(rs: seq<Row>, k: TableKind)
    requires forall r :: r in rs ==> TypedRow(r)
    ensures TypedRows(Pick(rs, k), k)
  {
    if rs != [] {
      PickTyped(rs[1..], k);
      assert rs[0] in rs;
    }
  }

  lemma CachedTyped(d: DisSrv)
    requires DisSrvOk(d) && SmallSrv(Cached(d))
    ensures TypedCached(Cached(d))
  {
    var inRows, chRows := IncRows(d.incs), CharRows(d.chars);
    forall r | r in inRows ensures TypedRow(r) {
      var i :| 0 <= i < |inRows| && inRows[i] == r;
      assert d.incs[i] in d.incs;
    }
    forall r | r in chRows ensures TypedRow(r) {
      var i :| 0 <= i < |chRows| && chRows[i] == r;
      assert d.chars[i] in d.chars;
    }
    hide IncRows, CharRows, Pick;
    PickTyped(inRows, Inc16);
    PickTyped(inRows, Inc128);
    PickTyped(chRows, Char16);
    PickTyped(chRows, Char128);
  }

  lemma CacheTyped(cfg: Config, db: seq<DisSrv>)
    requires ListOk(db) && Fits(db) && Bound(cfg, db)
    ensures forall c :: c in Cache(db) ==> TypedCached(c) && BoundSrv(cfg, c)
  {
    forall c | c in Cache(db) ensures TypedCached(c) && BoundSrv(cfg, c) {
      var i :| 0 <= i < |db| && Cache(db)[i] == c;
      assert db[i] in db && DisSrvOk(db[i]);
      CachedTyped(db[i]);
    }
  }

  /** The cache theorem.  Loading the bytes packed from a discovered database succeeds, ends exactly
      at the table's length, restores the control blocks and the CCCD count that packing produced,
      and reads as the discovered database itself. */
  lemma CacheRefinement(cfg: Config, db: seq<DisSrv>)
    requires ListOk(db) && Fits(db) && Bound(cfg, db)
    ensures
      var t, cbs := Pack(Cache(db)), Layout(Cache(db), 0);
      Parse(cfg, t, 0) == Good(cbs, CccdCount(Cache(db))) &&
      AllInTable(t, cbs) && ReadAll(t, cbs) == Cache(db)
  {
    var t := Pack(Cache(db));
    CacheTyped(cfg, db);
    ParsePacked(cfg, t, 0, Cache(db));
    ReadPacked(t, 0, Cache(db));
  }

  /** Different databases have different tables, so a stored table identifies its database. */
  lemma PackInjective(cfg: Config, a: seq<DisSrv>, b: seq<DisSrv>)
    requires ListOk(a) && Fits(a) && Bound(cfg, a)
    requires ListOk(b) && Fits(b) && Bound(cfg, b)
    requires Pack(Cache(a)) == Pack(Cache(b))
    ensures Cache(a) == Cache(b)
  {
    CacheRefinement(cfg, a);
    CacheRefinement(cfg, b);
  }
}
