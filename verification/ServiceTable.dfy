/** The packed service table: how a discovered database is laid out in bytes, and how it is read back.

    One service is its declaration, four counts, and four tables: 16-bit includes, 128-bit includes,
    16-bit characteristics, 128-bit characteristics.  All fields are little-endian. */
module ServiceTable {
  import opened Widths
  import opened Attributes

  // ----- The database as its readers see it -----

  datatype TableKind = Inc16 | Inc128 | Char16 | Char128

  /** One table entry.  A characteristic is stored behind its CCCD. */
  datatype Row = IncRow(inc: Inc) | CharRow(cccd: Hdr, ch: Char)

  datatype CachedSrv = CachedSrv(
    srv: Srv,
    spec: Option<nat>,
    inc16: seq<Row>, inc128: seq<Row>, char16: seq<Row>, char128: seq<Row>)

  function KindOf(r: Row): TableKind {
    match r
    case IncRow(i) => if i.uuid.Short? then Inc16 else Inc128
    case CharRow(_, c) => if c.uuid.Short? then Char16 else Char128
  }

  function Width(k: TableKind): nat {
    match k
    case Inc16 => 12
    case Inc128 => 24
    case Char16 => 16
    case Char128 => 32
  }

  /** Bytes taken by n entries of a kind. */
  function Span(n: nat, k: TableKind): nat {
    match k
    case Inc16 => 12 * n
    case Inc128 => 24 * n
    case Char16 => 16 * n
    case Char128 => 32 * n
  }

  predicate TypedRow(r: Row) {
    match r
    case IncRow(i) => TypedInc(i)
    case CharRow(_, c) => TypedChar(c)
  }

  ghost predicate TypedRows(rs: seq<Row>, k: TableKind) {
    forall r :: r in rs ==> KindOf(r) == k && TypedRow(r)
  }

  ghost predicate TypedCached(c: CachedSrv) {
    TypedSrv(c.srv) &&
    TypedRows(c.inc16, Inc16) && TypedRows(c.inc128, Inc128) &&
    TypedRows(c.char16, Char16) && TypedRows(c.char128, Char128) &&
    |c.inc16| <= 255 && |c.inc128| <= 255 && |c.char16| <= 255 && |c.char128| <= 255
  }

  // ----- Discovered database to cached database -----

  /** A characteristic ends at its last reported descriptor; with none reported, at its value. */
  function Settle(c: DisChar): Row {
    var last :=
      if c.descEnd == 0 then c.ch.value
      else if c.descEnd < c.ch.last then c.descEnd
      else c.ch.last;
    CharRow(c.cccd, c.ch.(last := last))
  }

  function IncRows(incs: seq<Inc>): (rs: seq<Row>)
    ensures |rs| == |incs| && forall i :: 0 <= i < |incs| ==> rs[i] == IncRow(incs[i])
  {
    if incs == [] then [] else [IncRow(incs[0])] + IncRows(incs[1..])
  }

  function CharRows(chars: seq<DisChar>): (rs: seq<Row>)
    ensures |rs| == |chars| && forall i :: 0 <= i < |chars| ==> rs[i] == Settle(chars[i])
  {
    if chars == [] then [] else [Settle(chars[0])] + CharRows(chars[1..])
  }

  /** The rows of one kind, in order. */
  function Pick(rs: seq<Row>, k: TableKind): (ps: seq<Row>)
    ensures |ps| <= |rs|
  {
    if rs == [] then [] else (if KindOf(rs[0]) == k then [rs[0]] else []) + Pick(rs[1..], k)
  }

  lemma {:induction false} PickMembers(rs: seq<Row>, k: TableKind)
    ensures forall r :: r in Pick(rs, k) <==> r in rs && KindOf(r) == k
  {
    if rs != [] {
      PickMembers(rs[1..], k);
      assert forall r :: r in rs <==> r == rs[0] || r in rs[1..];
    }
  }

  function Cached(d: DisSrv): CachedSrv {
    var inRows, chRows := IncRows(d.incs), CharRows(d.chars);
    CachedSrv(d.srv, d.spec, Pick(inRows, Inc16), Pick(inRows, Inc128), Pick(chRows, Char16), Pick(chRows, Char128))
  }

  function Cache(db: seq<DisSrv>): (cs: seq<CachedSrv>)
    ensures |cs| == |db| && forall i :: 0 <= i < |db| ==> cs[i] == Cached(db[i])
  {
    if db == [] then [] else [Cached(db[0])] + Cache(db[1..])
  }

  // ----- Bytes -----

  function Lo(x: u16): u8 { x % 0x100 }

  function Hi(x: u16): u8 { x / 0x100 }

  function SrvBytes(s: Srv): (b: seq<u8>)
    ensures |b| == if s.uuid.Short? then 8 else 24
  {
    var h, e := s.hdr, s.endGroup;
    match s.uuid
    case Short(v) => [h.attrType, h.inst, Lo(h.handle), Hi(h.handle), Lo(e), Hi(e), Lo(v), Hi(v)]
    case Long(b) => [h.attrType, h.inst, Lo(h.handle), Hi(h.handle), Lo(e), Hi(e), 0, 0] + b
  }

  function RowBytes(r: Row): (b: seq<u8>)
    ensures |b| == Width(KindOf(r))
  {
    match r
    case IncRow(i) => (
      var h := i.hdr;
      match i.uuid
      case Short(v) =>
        [h.attrType, h.inst, Lo(h.handle), Hi(h.handle), Lo(i.first), Hi(i.first), Lo(i.last), Hi(i.last), Lo(v), Hi(v), 0, 0]
      case Long(b) =>
        [h.attrType, h.inst, Lo(h.handle), Hi(h.handle), Lo(i.first), Hi(i.first), Lo(i.last), Hi(i.last)] + b)
    case CharRow(d, c) => (
      var h := c.hdr;
      match c.uuid
      case Short(v) =>
        [d.attrType, d.inst, Lo(d.handle), Hi(d.handle), h.attrType, h.inst, Lo(h.handle), Hi(h.handle),
         Lo(c.props), Hi(c.props), Lo(c.value), Hi(c.value), Lo(v), Hi(v), Lo(c.last), Hi(c.last)]
      case Long(b) =>
        [d.attrType, d.inst, Lo(d.handle), Hi(d.handle), h.attrType, h.inst, Lo(h.handle), Hi(h.handle),
         Lo(c.props), Hi(c.props), Lo(c.value), Hi(c.value)] + b + [Lo(c.last), Hi(c.last), 0, 0])
  }

  function TableBytes(rs: seq<Row>): seq<u8> {
    if rs == [] then [] else RowBytes(rs[0]) + TableBytes(rs[1..])
  }

  function Counts(c: CachedSrv): seq<u8> {
    [To8(|c.inc16|), To8(|c.inc128|), To8(|c.char16|), To8(|c.char128|)]
  }

  function PackSrv(c: CachedSrv): seq<u8> {
    SrvBytes(c.srv) + (Counts(c) + Tables(c))
  }

  function Tables(c: CachedSrv): seq<u8> {
    TableBytes(c.inc16) + (TableBytes(c.inc128) + (TableBytes(c.char16) + TableBytes(c.char128)))
  }

  function Pack(cs: seq<CachedSrv>): seq<u8> {
    if cs == [] then [] else PackSrv(cs[0]) + Pack(cs[1..])
  }

  // ----- Service control blocks: offsets into the table -----

  /** Offsets stand for the source's pointers into the table; an absent table is offset 0 (NULL). */
  datatype SrvCb = SrvCb(
    spec: Option<nat>,
    srv: nat,
    inc16: nat, inc128: nat, char16: nat, char128: nat,
    inc16Num: u8, inc128Num: u8, char16Num: u8, char128Num: u8)

  function SrvSize(attrType: u8): nat { if Srv16(attrType) then 8 else 24 }

  function Offset(at: nat, num: u8): nat { if num == 0 then 0 else at }

  /** The control block of a service whose bytes start at offset o. */
  function CbAt(spec: Option<nat>, o: nat, size: nat, a: u8, b: u8, c: u8, d: u8): SrvCb {
    var p := o + size + 4;
    var q := p + 12 * a;
    var r := q + 24 * b;
    var s := r + 16 * c;
    SrvCb(spec, o, Offset(p, a), Offset(q, b), Offset(r, c), Offset(s, d), a, b, c, d)
  }

  /** Where the service after this one starts. */
  function NextAt(o: nat, size: nat, a: u8, b: u8, c: u8, d: u8): nat {
    o + size + 4 + 12 * a + 24 * b + 16 * c + 32 * d
  }

  function LayoutOf(c: CachedSrv, o: nat): SrvCb {
    CbAt(c.spec, o, |SrvBytes(c.srv)|, To8(|c.inc16|), To8(|c.inc128|), To8(|c.char16|), To8(|c.char128|))
  }

  function Layout(cs: seq<CachedSrv>, o: nat): seq<SrvCb>
    decreases |cs|
  {
    if cs == [] then [] else [LayoutOf(cs[0], o)] + Layout(cs[1..], o + |PackSrv(cs[0])|)
  }

  // ----- Reading the table through control blocks -----

  function U16At(t: seq<u8>, o: nat): u16
    requires o + 2 <= |t|
  {
    var hi: int := t[o+1];
    t[o] + 0x100 * hi
  }

  function HdrAt(t: seq<u8>, o: nat): Hdr
    requires o + 4 <= |t|
  {
    Hdr(t[o], t[o+1], U16At(t, o + 2))
  }

  function UuidAt(t: seq<u8>, o: nat): Uuid
    requires o + 16 <= |t|
  {
    Long(t[o..o+16])
  }

  function SrvAt(t: seq<u8>, o: nat): Srv
    requires o + 8 <= |t| && o + SrvSize(t[o]) <= |t|
  {
    Srv(HdrAt(t, o), U16At(t, o + 4), if Srv16(t[o]) then Short(U16At(t, o + 6)) else UuidAt(t, o + 8))
  }

  function RowAt(t: seq<u8>, o: nat, k: TableKind): Row
    requires o + Width(k) <= |t|
  {
    match k
    case Inc16 => IncRow(Inc(HdrAt(t, o), U16At(t, o + 4), U16At(t, o + 6), Short(U16At(t, o + 8))))
    case Inc128 => IncRow(Inc(HdrAt(t, o), U16At(t, o + 4), U16At(t, o + 6), UuidAt(t, o + 8)))
    case Char16 =>
      CharRow(HdrAt(t, o),
        Char(HdrAt(t, o + 4), U16At(t, o + 8), U16At(t, o + 10), Short(U16At(t, o + 12)), U16At(t, o + 14)))
    case Char128 =>
      CharRow(HdrAt(t, o),
        Char(HdrAt(t, o + 4), U16At(t, o + 8), U16At(t, o + 10), UuidAt(t, o + 12), U16At(t, o + 28)))
  }

  function RowsAt(t: seq<u8>, o: nat, k: TableKind, n: nat): (rs: seq<Row>)
    requires n == 0 || o + Span(n, k) <= |t|
    ensures |rs| == n
    decreases n
  {
    if n == 0 then [] else
      [RowAt(t, o, k)] + RowsAt(t, o + Width(k), k, n - 1)
  }

  /** The control block points inside the table. */
  predicate InTable(t: seq<u8>, cb: SrvCb) {
    cb.srv + 8 <= |t| && cb.srv + SrvSize(t[cb.srv]) <= |t| &&
    cb.inc16 + cb.inc16Num * 12 <= |t| && cb.inc128 + cb.inc128Num * 24 <= |t| &&
    cb.char16 + cb.char16Num * 16 <= |t| && cb.char128 + cb.char128Num * 32 <= |t|
  }

  function Read(t: seq<u8>, cb: SrvCb): CachedSrv
    requires InTable(t, cb)
  {
    CachedSrv(SrvAt(t, cb.srv), cb.spec,
      RowsAt(t, cb.inc16, Inc16, cb.inc16Num), RowsAt(t, cb.inc128, Inc128, cb.inc128Num),
      RowsAt(t, cb.char16, Char16, cb.char16Num), RowsAt(t, cb.char128, Char128, cb.char128Num))
  }

  ghost predicate AllInTable(t: seq<u8>, cbs: seq<SrvCb>) {
    forall i :: 0 <= i < |cbs| ==> InTable(t, cbs[i])
  }

  function ReadAll(t: seq<u8>, cbs: seq<SrvCb>): (cs: seq<CachedSrv>)
    requires AllInTable(t, cbs)
    ensures |cs| == |cbs| && forall i :: 0 <= i < |cbs| ==> cs[i] == Read(t, cbs[i])
  {
    if cbs == [] then [] else
      assert forall i :: 0 <= i < |cbs[1..]| ==> cbs[1..][i] == cbs[i+1];
      [Read(t, cbs[0])] + ReadAll(t, cbs[1..])
  }

  // ----- Reading what was packed -----

  /** Table t holds these bytes at offset o. */
  ghost predicate Holds(t: seq<u8>, o: nat, b: seq<u8>) {
    o + |b| <= |t| && forall i :: 0 <= i < |b| ==> t[o+i] == b[i]
  }

  lemma HoldsSplit(t: seq<u8>, o: nat, a: seq<u8>, b: seq<u8>)
    requires Holds(t, o, a + b)
    ensures Holds(t, o, a) && Holds(t, o + |a|, b)
  {
    var s := a + b;
    forall i | 0 <= i < |a| ensures t[o+i] == a[i] { assert s[i] == a[i]; }
    forall i | 0 <= i < |b| ensures t[o+|a|+i] == b[i] { assert s[|a|+i] == b[i]; }
  }

  lemma HoldsJoin(t: seq<u8>, o: nat, a: seq<u8>, b: seq<u8>)
    requires Holds(t, o, a) && Holds(t, o + |a|, b)
    ensures Holds(t, o, a + b)
  {
    var s := a + b;
    forall i | 0 <= i < |s| ensures t[o+i] == s[i] {
      if i < |a| { assert s[i] == a[i]; } else { assert s[i] == b[i-|a|]; }
    }
  }

  /** Two bytes in a row read as the number they were written from. */
  lemma ReadU16(t: seq<u8>, o: nat, b: seq<u8>, i: nat, x: u16)
    requires Holds(t, o, b) && i + 2 <= |b| && b[i] == Lo(x) && b[i+1] == Hi(x)
    ensures U16At(t, o + i) == x
  {
    assert t[o+i] == b[i] && t[o+(i+1)] == b[i+1];
  }

  lemma ReadHdr(t: seq<u8>, o: nat, b: seq<u8>, i: nat, h: Hdr)
    requires Holds(t, o, b) && i + 4 <= |b|
    requires b[i] == h.attrType && b[i+1] == h.inst && b[i+2] == Lo(h.handle) && b[i+3] == Hi(h.handle)
    ensures HdrAt(t, o + i) == h
  {
    assert t[o+i] == b[i] && t[o+(i+1)] == b[i+1];
    ReadU16(t, o, b, i + 2, h.handle);
  }

  lemma ReadUuid(t: seq<u8>, o: nat, b: seq<u8>, i: nat, u: Uuid)
    requires Holds(t, o, b) && i + 16 <= |b| && u.Long? && forall k :: 0 <= k < 16 ==> b[i+k] == u.b[k]
    ensures UuidAt(t, o + i) == u
  {
    forall k | 0 <= k < 16 ensures t[o+i..o+i+16][k] == u.b[k] {
      assert t[o+(i+k)] == b[i+k];
    }
  }

  lemma ReadSrv(t: seq<u8>, o: nat, s: Srv)
    requires TypedSrv(s) && Holds(t, o, SrvBytes(s))
    ensures |SrvBytes(s)| == SrvSize(s.hdr.attrType) && t[o] == s.hdr.attrType && SrvAt(t, o) == s
  {
    var b := SrvBytes(s);
    ReadHdr(t, o, b, 0, s.hdr);
    ReadU16(t, o, b, 4, s.endGroup);
    match s.uuid
    case Short(v) => ReadU16(t, o, b, 6, v);
    case Long(_) => ReadUuid(t, o, b, 8, s.uuid);
  }

  lemma ReadInc(t: seq<u8>, o: nat, r: Row)
    requires r.IncRow? && Holds(t, o, RowBytes(r))
    ensures RowAt(t, o, KindOf(r)) == r
  {
    hide Holds;
    var b, i := RowBytes(r), r.inc;
    ReadHdr(t, o, b, 0, i.hdr);
    ReadU16(t, o, b, 4, i.first);
    ReadU16(t, o, b, 6, i.last);
    match i.uuid
    case Short(v) => ReadU16(t, o, b, 8, v);
    case Long(_) => ReadUuid(t, o, b, 8, i.uuid);
  }

  lemma ReadChar(t: seq<u8>, o: nat, r: Row)
    requires r.CharRow? && Holds(t, o, RowBytes(r))
    ensures RowAt(t, o, KindOf(r)) == r
  {
    hide Holds, HdrAt, U16At, UuidAt, RowBytes;
    ReadCharFront(t, o, r);
    if r.ch.uuid.Short? { ReadChar16(t, o, r); } else { ReadChar128(t, o, r); }
  }

  lemma ReadCharFront(t: seq<u8>, o: nat, r: Row)
    requires r.CharRow? && Holds(t, o, RowBytes(r))
    ensures HdrAt(t, o) == r.cccd && HdrAt(t, o + 4) == r.ch.hdr
    ensures U16At(t, o + 8) == r.ch.props && U16At(t, o + 10) == r.ch.value
  {
    hide Holds, HdrAt, U16At, Lo, Hi;
    var b := RowBytes(r);
    ReadHdr(t, o, b, 0, r.cccd);
    ReadHdr(t, o, b, 4, r.ch.hdr);
    ReadU16(t, o, b, 8, r.ch.props);
    ReadU16(t, o, b, 10, r.ch.value);
  }

  lemma ReadChar16(t: seq<u8>, o: nat, r: Row)
    requires r.CharRow? && r.ch.uuid.Short? && Holds(t, o, RowBytes(r))
    ensures U16At(t, o + 12) == r.ch.uuid.v && U16At(t, o + 14) == r.ch.last
  {
    hide Holds, U16At, Lo, Hi;
    ReadU16(t, o, RowBytes(r), 12, r.ch.uuid.v);
    ReadU16(t, o, RowBytes(r), 14, r.ch.last);
  }

  lemma ReadChar128(t: seq<u8>, o: nat, r: Row)
    requires r.CharRow? && r.ch.uuid.Long? && Holds(t, o, RowBytes(r))
    ensures UuidAt(t, o + 12) == r.ch.uuid && U16At(t, o + 28) == r.ch.last
  {
    hide Holds, U16At, UuidAt, Lo, Hi;
    ReadUuid(t, o, RowBytes(r), 12, r.ch.uuid);
    ReadU16(t, o, RowBytes(r), 28, r.ch.last);
  }

  lemma ReadRow(t: seq<u8>, o: nat, r: Row)
    requires Holds(t, o, RowBytes(r))
    ensures RowAt(t, o, KindOf(r)) == r
  {
    if r.IncRow? { ReadInc(t, o, r); } else { ReadChar(t, o, r); }
  }

  lemma {:induction false} ReadRows(t: seq<u8>, o: nat, rs: seq<Row>, k: TableKind)
    requires TypedRows(rs, k) && Holds(t, o, TableBytes(rs))
    ensures |TableBytes(rs)| == Span(|rs|, k)
    ensures RowsAt(t, o, k, |rs|) == rs
    decreases |rs|
  {
    hide RowAt, RowBytes;
    if rs != [] {
      assert rs[0] in rs;
      HoldsSplit(t, o, RowBytes(rs[0]), TableBytes(rs[1..]));
      ReadRow(t, o, rs[0]);
      ReadRows(t, o + Width(k), rs[1..], k);
    }
  }

  lemma {:induction false} TableSize(rs: seq<Row>, k: TableKind)
    requires forall r :: r in rs ==> KindOf(r) == k
    ensures |TableBytes(rs)| == Span(|rs|, k)
  {
    if rs != [] {
      assert rs[0] in rs;
      TableSize(rs[1..], k);
    }
  }

  /** The sizing pass: one service occupies its declaration, four counts and its table entries. */
  lemma PackSize(c: CachedSrv, o: nat)
    requires TypedCached(c)
    ensures o + |PackSrv(c)| ==
      NextAt(o, SrvSize(c.srv.hdr.attrType), |c.inc16|, |c.inc128|, |c.char16|, |c.char128|)
    ensures |SrvBytes(c.srv)| == SrvSize(c.srv.hdr.attrType)
  {
    hide SrvBytes, TableBytes;
    TableSize(c.inc16, Inc16);
    TableSize(c.inc128, Inc128);
    TableSize(c.char16, Char16);
    TableSize(c.char128, Char128);
  }

  lemma SplitTables(t: seq<u8>, p: nat, c: CachedSrv)
    requires TypedCached(c) && Holds(t, p, Tables(c))
    ensures
      Holds(t, p, TableBytes(c.inc16)) &&
      Holds(t, p + 12 * |c.inc16|, TableBytes(c.inc128)) &&
      Holds(t, p + 12 * |c.inc16| + 24 * |c.inc128|, TableBytes(c.char16)) &&
      Holds(t, p + 12 * |c.inc16| + 24 * |c.inc128| + 16 * |c.char16|, TableBytes(c.char128))
  {
    hide Holds, TableBytes;
    TableSize(c.inc16, Inc16);
    TableSize(c.inc128, Inc128);
    TableSize(c.char16, Char16);
    var chars := TableBytes(c.char16) + TableBytes(c.char128);
    HoldsSplit(t, p, TableBytes(c.inc16), TableBytes(c.inc128) + chars);
    HoldsSplit(t, p + 12 * |c.inc16|, TableBytes(c.inc128), chars);
    HoldsSplit(t, p + 12 * |c.inc16| + 24 * |c.inc128|, TableBytes(c.char16), TableBytes(c.char128));
  }

  /** One table, read through its control block entry. */
  lemma ReadTable(t: seq<u8>, p: nat, rs: seq<Row>, k: TableKind)
    requires TypedRows(rs, k) && |rs| <= 255 && Holds(t, p, TableBytes(rs))
    ensures Offset(p, To8(|rs|)) + Span(To8(|rs|), k) <= |t|
    ensures RowsAt(t, Offset(p, To8(|rs|)), k, To8(|rs|)) == rs
  {
    hide TypedRows, RowAt, TableBytes;
    ReadRows(t, p, rs, k);
    assert To8(|rs|) == |rs|;
  }

  /** The parts of a packed service, each where the control block says it is. */
  lemma SplitSrv(t: seq<u8>, o: nat, c: CachedSrv)
    requires TypedCached(c) && Holds(t, o, PackSrv(c))
    ensures Holds(t, o, SrvBytes(c.srv)) && |SrvBytes(c.srv)| == SrvSize(c.srv.hdr.attrType)
    ensures
      var n := SrvSize(c.srv.hdr.attrType);
      Holds(t, o + n, Counts(c)) && Holds(t, o + n + 4, Tables(c))
  {
    hide Holds, SrvBytes, TableBytes;
    PackSize(c, o);
    HoldsSplit(t, o, SrvBytes(c.srv), Counts(c) + Tables(c));
    HoldsSplit(t, o + SrvSize(c.srv.hdr.attrType), Counts(c), Tables(c));
  }

  lemma HoldsFits(t: seq<u8>, o: nat, b: seq<u8>)
    requires Holds(t, o, b)
    ensures o + |b| <= |t|
  {
  }

  lemma PackedInTable(t: seq<u8>, o: nat, c: CachedSrv)
    requires TypedCached(c) && Holds(t, o, PackSrv(c))
    ensures InTable(t, LayoutOf(c, o))
  {
    hide SrvBytes, SrvAt, PackSrv, Tables, TableBytes, Lo, Hi, Holds, HdrAt;
    SplitSrv(t, o, c);
    ReadSrv(t, o, c.srv);
    PackSize(c, o);
    HoldsFits(t, o, PackSrv(c));
  }

  lemma ReadPackedSrv(t: seq<u8>, o: nat, c: CachedSrv)
    requires TypedCached(c) && Holds(t, o, PackSrv(c))
    ensures InTable(t, LayoutOf(c, o)) && Read(t, LayoutOf(c, o)) == c
  {
    hide Holds, InTable, SrvBytes, SrvAt, PackSrv, Counts, Tables, TableBytes, RowsAt;
    PackedInTable(t, o, c);
    SplitSrv(t, o, c);
    ReadSrv(t, o, c.srv);
    var p := o + SrvSize(c.srv.hdr.attrType) + 4;
    SplitTables(t, p, c);
    ReadTable(t, p, c.inc16, Inc16);
    ReadTable(t, p + 12 * |c.inc16|, c.inc128, Inc128);
    ReadTable(t, p + 12 * |c.inc16| + 24 * |c.inc128|, c.char16, Char16);
    ReadTable(t, p + 12 * |c.inc16| + 24 * |c.inc128| + 16 * |c.char16|, c.char128, Char128);
  }

  /** Reading a packed database through its control blocks gives the database back. */
  lemma {:induction false} ReadPacked(t: seq<u8>, o: nat, cs: seq<CachedSrv>)
    requires (forall c :: c in cs ==> TypedCached(c)) && Holds(t, o, Pack(cs))
    ensures AllInTable(t, Layout(cs, o)) && ReadAll(t, Layout(cs, o)) == cs
    decreases |cs|
  {
    hide Holds, PackSrv, InTable, Read, LayoutOf, TypedCached;
    if cs != [] {
      assert cs[0] in cs;
      HoldsSplit(t, o, PackSrv(cs[0]), Pack(cs[1..]));
      ReadPackedSrv(t, o, cs[0]);
      ReadPacked(t, o + |PackSrv(cs[0])|, cs[1..]);
      assert Layout(cs, o)[1..] == Layout(cs[1..], o + |PackSrv(cs[0])|);
    }
  }
}
