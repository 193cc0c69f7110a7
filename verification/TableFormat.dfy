/** The bytes of the packed table, offset by offset, and what loading accepts. */
module TableFormat {
  import opened Widths
  import opened Attributes
  import opened ServiceTable
  import opened DiscoveryList
  import opened TableLoad

  // ----- Offsets -----

  /** Little-endian at offset o. */
  predicate Le16(b: seq<u8>, o: nat, x: u16) {
    o + 2 <= |b| && b[o] == x % 256 && b[o+1] == x / 256
  }

  predicate HdrBytes(b: seq<u8>, o: nat, h: Hdr) {
    o + 4 <= |b| && b[o] == h.attrType && b[o+1] == h.inst && Le16(b, o + 2, h.handle)
  }

  predicate Bytes(b: seq<u8>, o: nat, x: seq<u8>) {
    o + |x| <= |b| && b[o..o+|x|] == x
  }

  /** A service: type, instance, handle, end, and a UUID of 2 bytes at 6 or of 16 bytes at 8. */
  lemma SrvFormat(s: Srv)
    ensures
      var b := SrvBytes(s);
      HdrBytes(b, 0, s.hdr) && Le16(b, 4, s.endGroup) &&
      match s.uuid
      case Short(v) => |b| == 8 && Le16(b, 6, v)
      case Long(u) => |b| == 24 && Le16(b, 6, 0) && Bytes(b, 8, u)
  {
    if s.uuid.Long? { assert SrvBytes(s)[8..24] == s.uuid.b; }
  }

  /** An include: its header, the range at 4 and 6, and the UUID at 8. */
  lemma IncFormat(i: Inc)
    ensures
      var b := RowBytes(IncRow(i));
      HdrBytes(b, 0, i.hdr) && Le16(b, 4, i.first) && Le16(b, 6, i.last) &&
      match i.uuid
      case Short(v) => |b| == 12 && Le16(b, 8, v) && Le16(b, 10, 0)
      case Long(u) => |b| == 24 && Bytes(b, 8, u)
  {
    if i.uuid.Long? { assert RowBytes(IncRow(i))[8..24] == i.uuid.b; }
  }

  /** A characteristic: the CCCD's header, its own at 4, properties at 8, value at 10, the UUID at 12, and
      its end behind the UUID. */
  lemma CharFormat(d: Hdr, c: Char)
    ensures
      var b := RowBytes(CharRow(d, c));
      HdrBytes(b, 0, d) && HdrBytes(b, 4, c.hdr) && Le16(b, 8, c.props) && Le16(b, 10, c.value) &&
      match c.uuid
      case Short(v) => |b| == 16 && Le16(b, 12, v) && Le16(b, 14, c.last)
      case Long(u) => |b| == 32 && Bytes(b, 12, u) && Le16(b, 28, c.last) && Le16(b, 30, 0)
  {
    if c.uuid.Long? { assert RowBytes(CharRow(d, c))[12..28] == c.uuid.b; }
  }

  // ----- What loading accepts -----

  /** Where the service of this control block ends: behind its declaration, four counts and tables. */
  function EndAt(t: seq<u8>, cb: SrvCb): nat
    requires InTable(t, cb)
  {
    cb.srv + SrvSize(t[cb.srv]) + 4 + 12 * cb.inc16Num + 24 * cb.inc128Num + 16 * cb.char16Num + 32 * cb.char128Num
  }

  /** The services follow each other from o to the end of the table without gap. */
  predicate Chained(t: seq<u8>, o: nat, cbs: seq<SrvCb>)
    decreases |cbs|
  {
    if cbs == [] then o == |t| else InTable(t, cbs[0]) && cbs[0].srv == o && Chained(t, EndAt(t, cbs[0]), cbs[1..])
  }

  /** The service and all its entries have the types their places say, and it is bound to a client if it
      must be. */
  ghost predicate Sound(cfg: Config, c: CachedSrv) {
    TypedCached(c) && BoundSrv(cfg, c)
  }

  lemma RowsTyped(t: seq<u8>, o: nat, k: TableKind, n: u8)
    requires n == 0 || o + Span(n, k) <= |t|
    requires FirstMistyped(RowsAt(t, o, k, n), k) == n
    ensures TypedRows(RowsAt(t, o, k, n), k)
  {
    hide FirstMistyped;
    var rs := RowsAt(t, o, k, n);
    RowsOfKind(t, o, k, n);
    forall r | r in rs ensures KindOf(r) == k && TypedRow(r) {
      var i :| 0 <= i < |rs| && rs[i] == r;
      assert RowType(rs[i]) == TypeOf(k);
    }
  }

  lemma {:induction false} RowsOfKind(t: seq<u8>, o: nat, k: TableKind, n: nat)
    requires n == 0 || o + Span(n, k) <= |t|
    ensures forall r :: r in RowsAt(t, o, k, n) ==> KindOf(r) == k
    decreases n
  {
    if n > 0 { RowsOfKind(t, o + Width(k), k, n - 1); }
  }

  lemma SrvSound(cfg: Config, t: seq<u8>, o: nat)
    requires o < |t| && ParseSrv(cfg, t, o).SrvGood?
    ensures
      var p := ParseSrv(cfg, t, o);
      p.cb.srv == o && p.next == EndAt(t, p.cb) && Sound(cfg, Read(t, p.cb))
  {
    hide SrvAt, FindSpec, RowsAt, FirstMistyped, TypedRows, CccdRows, Wanted;
    var p := ParseSrv(cfg, t, o);
    var cb := p.cb;
    RowsTyped(t, cb.inc16, Inc16, cb.inc16Num);
    RowsTyped(t, cb.inc128, Inc128, cb.inc128Num);
    RowsTyped(t, cb.char16, Char16, cb.char16Num);
    RowsTyped(t, cb.char128, Char128, cb.char128Num);
    SrvTyped(t, o);
  }

  lemma SrvTyped(t: seq<u8>, o: nat)
    requires o + 8 <= |t| && o + SrvSize(t[o]) <= |t| && (Srv16(t[o]) || Srv128(t[o]))
    ensures TypedSrv(SrvAt(t, o))
  {
  }

  /** The loading theorem for any bytes: what is accepted is a gapless chain of services that fills the
      table, each wanted and bound to its client, with entries of the types their tables are for. */
  lemma {:induction false} LoadSound(cfg: Config, t: seq<u8>, o: nat)
    requires o <= |t| && Parse(cfg, t, o).Good?
    ensures
      var cbs := Parse(cfg, t, o).cbs;
      Chained(t, o, cbs) && forall i :: 0 <= i < |cbs| ==> Sound(cfg, Read(t, cbs[i]))
    decreases |t| - o
  {
    hide ParseSrv, Sound, Read, EndAt, InTable;
    if o < |t| {
      var p := ParseSrv(cfg, t, o);
      SrvSound(cfg, t, o);
      LoadSound(cfg, t, p.next);
      var rest := Parse(cfg, t, p.next).cbs;
      var cbs := Parse(cfg, t, o).cbs;
      assert cbs == [p.cb] + rest && cbs[1..] == rest;
    }
  }
}
