/** The service-table half of the per-link client record, updated in place: the discovery list, the
    packed table with its control blocks, and the CCCD slots. */
module Storage {
  import opened Widths
  import opened Attributes
  import opened ServiceTable
  import opened DiscoveryList
  import opened IncludeLoop
  import opened TableLoad
  import opened TableKeeps
  import opened CccdTable

  /** What the storage callback has to say about a peer: the data it keeps by address and by database
      hash.  The callback may succeed and still give no data. */
  datatype Keeper = NoPeer | NoCallback | Keeps(byPeer: Option<Option<seq<u8>>>, byHash: Option<Option<seq<u8>>>)

  datatype Fetched = Missing(error: LoadError) | Fetched(data: seq<u8>)

  /** The hash is only tried when the address is not known. */
  function Fetch(s: Keeper, hashCheck: bool): (f: Fetched)
    ensures f.Fetched? ==> s.Keeps?
    ensures f.Fetched? && s.byPeer.Some? ==> s.byPeer.value == Some(f.data)
    ensures f.Fetched? && s.byPeer.None? ==> hashCheck && s.byHash == Some(Some(f.data))
    ensures f.Missing? && s.Keeps? ==> f.error == NothingStored && (s.byPeer == None || s.byPeer == Some(None))
    ensures f.Missing? && s.Keeps? && s.byPeer == None && hashCheck ==> s.byHash == None || s.byHash == Some(None)
  {
    match s
    case NoPeer => Missing(NoAddress)
    case NoCallback => Missing(NoStorage)
    case Keeps(byPeer, byHash) =>
      var d := if byPeer.Some? then byPeer.value else if hashCheck && byHash.Some? then byHash.value else None;
      if d.Some? then Fetched(d.value) else Missing(NothingStored)
  }

  class Record {
    const cfg: Config
    const keepCccd: bool
    var disList: seq<DisSrv>
    var table: array?<u8>
    var tableLen: u16
    var srvList: seq<SrvCb>
    var cccdNum: u8
    var slots: array?<Slot>

    constructor (cfg: Config, keepCccd: bool)
      ensures Valid() && disList == [] && srvList == [] && table == null
      ensures this.cfg == cfg && this.keepCccd == keepCccd
    {
      this.cfg, this.keepCccd := cfg, keepCccd;
      disList, table, tableLen, srvList, cccdNum, slots := [], null, 0, [], 0, null;
    }

    /** The table, its length and its control blocks come and go together, and there are as many CCCD
        slots as the record says. */
    ghost predicate Valid()
      reads this, table
    {
      (slots != null ==> cccdNum == slots.Length) &&
      if table == null then tableLen == 0 && srvList == [] && slots == null
      else tableLen == table.Length && AllInTable(table[..], srvList)
    }

    /** The database every query reads. */
    ghost function View(): seq<CachedSrv>
      reads this, table
      requires Valid()
    {
      if table == null then [] else ReadAll(table[..], srvList)
    }

    // ----- Discovery list -----

    method GetSrvInstanceId(u: Uuid) returns (inst: u8)
      requires |disList| <= 255
      ensures inst == To8(CountSrv(disList, u))
    {
      inst := 0;
      var i := 0;
      while i < |disList|
        invariant i <= |disList| && inst == CountSrv(disList[..i], u) <= i
      {
        assert disList[..i+1][..i] == disList[..i];
        if SrvHas(disList[i].srv, u) {
          inst := To8(inst + 1);
        }
        i := i + 1;
      }
      assert disList[..i] == disList;
    }

    method AddPrimaryService(first: u16, last: u16, u: Uuid)
      requires |disList| <= 255
      modifies this`disList
      ensures disList == AddPrimary(cfg, old(disList), first, last, u)
    {
      var spec := FindSpec(cfg.registered, u);
      if spec.None? && cfg.registeredOnly {
        return;
      }
      var inst := GetSrvInstanceId(u);
      disList := disList + [NewSrv(if u.Short? then PRIMARY16 else PRIMARY128, inst, first, last, u, spec)];
    }

    method FindIncluded(i: Inc) returns (k: nat)
      requires |disList| <= 255
      ensures k == FindListed(disList, i)
    {
      k := 0;
      while k < |disList|
        invariant k <= |disList|
        invariant forall j :: 0 <= j < k ==> !Points(i, disList[j].srv)
      {
        if Points(i, disList[k].srv) {
          return;
        }
        k := k + 1;
      }
    }

    /** One service's includes: leaving the loop at the first include that is not wanted drops the
        service's remaining includes as well. */
    method AddIncludedServices(incs: seq<Inc>)
      requires ListOk(disList) && TypedIncs(incs) && |AddIncluded(cfg, disList, incs)| <= 255
      requires Ends(cfg, disList, incs)
      modifies this`disList
      ensures disList == AddIncluded(cfg, old(disList), incs)
      ensures ListOk(disList)
    {
      hide ListOk, AddIncluded, TypedIncs, Stops;
      AddIncludedSpec(cfg, disList, incs);
      IncludedEnd(cfg, incs);
      ghost var goal := AddIncluded(cfg, disList, incs);
      var j: u8 := 0;
      while j < |incs|
        invariant j <= |incs| && AddIncluded(cfg, disList, incs[j..]) == goal
        invariant |disList| <= |goal| <= 255
        invariant ListOk(disList) && EndsFrom(cfg, disList, incs, j)
        decreases |incs| - j
      {
        IncludedNext(cfg, disList, incs, j);
        ghost var before := disList;
        var i := incs[j];
        var k := FindIncluded(i);
        if k == |disList| {
          var spec := FindSpec(cfg.registered, i.uuid);
          if spec.None? && cfg.registeredOnly {
            break;
          }
          var inst := GetSrvInstanceId(i.uuid);
          disList := disList + [NewSrv(if i.uuid.Short? then SECONDARY16 else SECONDARY128, inst, i.first, i.last, i.uuid, spec)];
        }
        EndsNext(cfg, before, disList, incs, j);
        j := To8(j + 1);
      }
    }

    method AddSecondaryService() returns (isExist: bool)
      requires ListOk(disList) && |AddSecondary(cfg, disList)| <= 255 && AllEnd(cfg, disList, disList)
      modifies this`disList
      ensures disList == AddSecondary(cfg, old(disList))
      ensures isExist == (|disList| > |old(disList)|)
    {
      hide ListOk, Extends, AddSecondaries, AddIncluded, Ends;
      ghost var start, goal := disList, AddSecondary(cfg, disList);
      ExtendsSelf(cfg, disList);
      IncsTyped(disList);
      var n := |disList|;
      var i := 0;
      assert start[0..] == start;
      while i < n
        invariant i <= n == |start| && ListOk(disList)
        invariant start <= disList && AddSecondaries(cfg, disList, start[i..]) == goal
        invariant forall w :: w in start ==> TypedIncs(w.incs)
        invariant Extends(cfg, start, disList)
      {
        SecondaryStep(cfg, disList, start, i);
        EndsStill(cfg, disList, start, i);
        AddIncludedServices(disList[i].incs);
        i := i + 1;
      }
      assert disList == goal by { SecondaryEnd(cfg, disList, start[i..]); }
      isExist := |disList| > n;
    }

    // ----- Packing -----

    method SrvListRelease()
      modifies this
      ensures Valid() && table == null && srvList == [] && slots == null
      ensures disList == old(disList)
    {
      srvList := [];
      table := null;
      if slots != null {
        slots := null;
        cccdNum := 0;
      }
      tableLen := 0;
    }

    /** memcpy into the table. */
    method CopyIn(o: nat, b: seq<u8>)
      requires table != null && o + |b| <= table.Length
      modifies table
      ensures Holds(table[..], o, b)
      ensures forall k :: 0 <= k < table.Length && !(o <= k < o + |b|) ==> table[k] == old(table[k])
    {
      var i := 0;
      while i < |b|
        invariant i <= |b|
        invariant forall k :: 0 <= k < i ==> table[o+k] == b[k]
        invariant forall k :: 0 <= k < table.Length && !(o <= k < o + i) ==> table[k] == old(table[k])
      {
        table[o+i] := b[i];
        i := i + 1;
      }
    }

    /** Writes a row behind the n rows of a table, leaving another table as it was. */
    method PlaceRow(o: nat, n: nat, r: Row, k: TableKind, ghost rs: seq<Row>, ghost o': nat, ghost b': seq<u8>)
      requires table != null && KindOf(r) == k && n == |rs| && (forall x :: x in rs ==> KindOf(x) == k)
      requires o + Span(n + 1, k) <= table.Length && Holds(table[..], o, TableBytes(rs))
      requires Holds(table[..], o', b') && (o' + |b'| <= o + Span(n, k) || o + Span(n + 1, k) <= o')
      modifies table
      ensures Holds(table[..], o, TableBytes(rs + [r])) && Holds(table[..], o', b')
      ensures forall i :: 0 <= i < o + Span(n, k) ==> table[i] == old(table[i])
    {
      assert o' + |b'| <= table.Length;
      hide Holds, TableBytes, RowBytes;
      ghost var before := table[..];
      CopyIn(o + Span(n, k), RowBytes(r));
      AppendRow(before, table[..], o, rs, r, k);
      HoldsKept(before, table[..], o', b');
    }

    /** Distributes a queue over its two tables, the 16-bit one at p and the 128-bit one right after
        it at q, and counts the CCCDs it passes. */
    method FillTables(rows: seq<Row>, kn: TableKind, kw: TableKind, p: nat, q: nat, count: u8) returns (n: nat, w: nat, cccds: u8)
      requires table != null && kn != kw
      requires forall r :: r in rows ==> KindOf(r) == kn || KindOf(r) == kw
      requires q == p + Span(|Pick(rows, kn)|, kn) && q + Span(|Pick(rows, kw)|, kw) <= table.Length
      modifies table
      ensures n == |Pick(rows, kn)| && w == |Pick(rows, kw)|
      ensures Holds(table[..], p, TableBytes(Pick(rows, kn)))
      ensures Holds(table[..], q, TableBytes(Pick(rows, kw)))
      ensures forall k :: 0 <= k < p ==> table[k] == old(table[k])
      ensures cccds == AddCccds(count, rows)
    {
      hide Holds, Pick, TableBytes, RowBytes, AddCccds, To8, KindOf, Span;
      n, w, cccds := 0, 0, count;
      PickEmpty(kn);
      PickEmpty(kw);
      HoldsNothing(table[..], p);
      HoldsNothing(table[..], q);
      CccdNone(count);
      SpanGrows(0, |Pick(rows, kw)|, kw);
      var i := 0;
      assert rows[..0] == [];
      while i < |rows|
        invariant i <= |rows| && n == |Pick(rows[..i], kn)| && w == |Pick(rows[..i], kw)|
        invariant q + Span(w, kw) <= table.Length
        invariant Holds(table[..], p, TableBytes(Pick(rows[..i], kn)))
        invariant Holds(table[..], q, TableBytes(Pick(rows[..i], kw)))
        invariant forall k :: 0 <= k < p ==> table[k] == old(table[k])
        invariant cccds == AddCccds(count, rows[..i])
      {
        var r := rows[i];
        assert r in rows;
        CccdNext(rows, i, count);
        PickNext(rows, i, kn);
        PickNext(rows, i, kw);
        SpanGrows(n, |Pick(rows, kn)|, kn);
        SpanGrows(w, |Pick(rows, kw)|, kw);
        PickSize(rows[..i], kn);
        PickSize(rows[..i], kw);
        if KindOf(r) == kn {
          PlaceRow(p, n, r, kn, Pick(rows[..i], kn), q, TableBytes(Pick(rows[..i], kw)));
          n := n + 1;
        } else {
          PlaceRow(q, w, r, kw, Pick(rows[..i], kw), p, TableBytes(Pick(rows[..i], kn)));
          w := w + 1;
        }
        if HasCccd(r) {
          cccds := To8(cccds + 1);
        }
        i := i + 1;
      }
      assert rows[..i] == rows;
    }

    /** The declaration and the four counts. */
    method FillHeader(d: DisSrv, idx: nat) returns (next: nat)
      requires table != null && |SrvBytes(d.srv)| == SrvSize(d.srv.hdr.attrType)
      requires idx + |SrvBytes(d.srv)| + 4 <= table.Length
      modifies table
      ensures next == idx + |SrvBytes(d.srv)| + 4
      ensures Holds(table[..], idx, SrvBytes(d.srv) + [d.inc16Num, d.inc128Num, d.char16Num, d.char128Num])
      ensures forall k :: 0 <= k < idx ==> table[k] == old(table[k])
    {
      hide Holds, SrvBytes;
      var size := SrvSize(d.srv.hdr.attrType);
      ghost var counts := [d.inc16Num, d.inc128Num, d.char16Num, d.char128Num];
      CopyIn(idx, SrvBytes(d.srv));
      ghost var t := table[..];
      CopyIn(idx + size, [d.inc16Num, d.inc128Num, d.char16Num, d.char128Num]);
      HoldsKept(t, table[..], idx, SrvBytes(d.srv));
      HoldsJoin(table[..], idx, SrvBytes(d.srv), counts);
      next := idx + size + 4;
    }

    /** One queue into its two tables, behind what is already packed of the service. */
    method FillQueue(rows: seq<Row>, kn: TableKind, kw: TableKind, p: nat, q: nat, count: u8, ghost idx: nat, ghost done: seq<u8>)
        returns (n: nat, w: nat, cccds: u8)
      requires table != null && kn != kw && idx + |done| == p
      requires forall r :: r in rows ==> KindOf(r) == kn || KindOf(r) == kw
      requires q == p + Span(|Pick(rows, kn)|, kn) && q + Span(|Pick(rows, kw)|, kw) <= table.Length
      requires Holds(table[..], idx, done)
      modifies table
      ensures n == |Pick(rows, kn)| && w == |Pick(rows, kw)|
      ensures Holds(table[..], idx, done + (TableBytes(Pick(rows, kn)) + TableBytes(Pick(rows, kw))))
      ensures forall k :: 0 <= k < p ==> table[k] == old(table[k])
      ensures cccds == AddCccds(count, rows)
    {
      hide Holds, Pick, TableBytes, AddCccds, To8, KindOf;
      ghost var t := table[..];
      n, w, cccds := FillTables(rows, kn, kw, p, q, count);
      PickSize(rows, kn);
      HoldsKept(t, table[..], idx, done);
      HoldsJoin(table[..], p, TableBytes(Pick(rows, kn)), TableBytes(Pick(rows, kw)));
      HoldsJoin(table[..], idx, done, TableBytes(Pick(rows, kn)) + TableBytes(Pick(rows, kw)));
    }

    /** The declaration, the counts and the include tables. */
    method FillFront(d: DisSrv, idx: nat) returns (next: nat)
      requires table != null && |SrvBytes(d.srv)| == SrvSize(d.srv.hdr.attrType)
      requires d.inc16Num == |Pick(IncRows(d.incs), Inc16)| && d.inc128Num == |Pick(IncRows(d.incs), Inc128)|
      requires idx + |SrvBytes(d.srv)| + 4 + 12 * d.inc16Num + 24 * d.inc128Num <= table.Length
      modifies table
      ensures next == idx + |SrvBytes(d.srv)| + 4 + 12 * d.inc16Num + 24 * d.inc128Num == idx + |FrontBytes(d)|
      ensures Holds(table[..], idx, FrontBytes(d))
      ensures forall k :: 0 <= k < idx ==> table[k] == old(table[k])
    {
      hide Holds, SrvBytes, TableBytes, IncRows, Pick, KindOf, AddCccds, To8;
      var p := FillHeader(d, idx);
      var q := p + 12 * d.inc16Num;
      QueueKinds(d);
      PickSize(IncRows(d.incs), Inc16);
      PickSize(IncRows(d.incs), Inc128);
      var n16, n128, none := FillQueue(IncRows(d.incs), Inc16, Inc128, p, q, 0, idx, HeaderBytes(d));
      if d.inc16Num != n16 || d.inc128Num != n128 {
        assert false;  // error exit 4
      }
      next := q + 24 * d.inc128Num;
    }

    /** Packs one service at idx. */
    method FillSrv(d: DisSrv, idx: nat, count: u8) returns (cb: SrvCb, next: nat, cccds: u8)
      requires table != null && DisSrvOk(d) && SmallSrv(Cached(d))
      requires idx + |PackSrv(Cached(d))| <= table.Length
      modifies table
      ensures cb == LayoutOf(Cached(d), idx) && next == idx + |PackSrv(Cached(d))|
      ensures Holds(table[..], idx, PackSrv(Cached(d)))
      ensures forall k :: 0 <= k < idx ==> table[k] == old(table[k])
      ensures cccds == AddCccds(count, CharRows(d.chars))
      ensures InTable(table[..], cb) && KeepsSrv(d, Read(table[..], cb))
    {
      hide Holds, SrvBytes, TableBytes, PackSrv, CharRows, IncRows, DisSrvOk, LayoutOf, Pick, KindOf, To8, FrontBytes, CbAt, Cached, KeepsSrv, Read, InTable, TypedCached, AddCccds, SmallSrv;
      FillBounds(d, idx);
      CachedTyped(d);
      SrvKept(d);
      var r := FillFront(d, idx);
      var s := r + 16 * d.char16Num;
      QueueKinds(d);
      PickSize(CharRows(d.chars), Char16);
      PickSize(CharRows(d.chars), Char128);
      var c16, c128, num := FillQueue(CharRows(d.chars), Char16, Char128, r, s, count, idx, FrontBytes(d));
      if d.char16Num != c16 || d.char128Num != c128 {
        assert false;  // error exit 4
      }
      next := s + 32 * d.char128Num;
      cccds := num;
      cb := CbAt(d.spec, idx, SrvSize(d.srv.hdr.attrType), d.inc16Num, d.inc128Num, d.char16Num, d.char128Num);
      ReadPackedSrv(table[..], idx, Cached(d));
    }

    /** The sizing pass. */
    method TableSizeOf() returns (size: u16)
      requires ListOk(disList) && Fits(disList)
      ensures size == |Packed(disList)|
    {
      hide ListOk, Fits, Packed, DisSrvOk, SmallSrv, To16;
      NoWrap();
      size := 0;
      var i := 0;
      NothingPacked();
      assert disList[..0] == [];
      while i < |disList|
        invariant i <= |disList| && size == |Packed(disList[..i])|
      {
        var d := disList[i];
        SizeNext(disList, i);
        if Srv16(d.srv.hdr.attrType) {
          size := To16(size + 8);
        } else if Srv128(d.srv.hdr.attrType) {
          size := To16(size + 24);
        } else {
          assert false;  // error exit 1
        }
        size := To16(size + 12 * d.inc16Num);
        size := To16(size + 24 * d.inc128Num);
        size := To16(size + 16 * d.char16Num);
        size := To16(size + 32 * d.char128Num);
        size := To16(size + 4);
        i := i + 1;
      }
      assert disList[..i] == disList;
    }

    /** The fill pass, into a fresh table of the size computed before. */
    method FillTable() returns (idx: nat, count: u8)
      requires table != null && ListOk(disList) && Fits(disList) && table.Length == |Packed(disList)| && srvList == []
      modifies this`disList, this`srvList, table
      ensures disList == [] && srvList == Blocks(old(disList)) && table[..] == Packed(old(disList))
      ensures idx == table.Length && count == Cccds(old(disList))
    {
      hide ListOk, Fits, Packed, Blocks, Cccds, PackSrv, LayoutOf, DisSrvOk, SmallSrv, Holds, AddCccds, CharRows, Cached, KeepsSrv, Read, InTable;
      ghost var db, n := disList, 0;
      idx, count := 0, 0;
      NothingPacked();
      HoldsNothing(table[..], 0);
      assert db[..0] == [];
      while disList != []
        invariant n <= |db| && disList == db[n..] && idx == |Packed(db[..n])| <= table.Length
        invariant Holds(table[..], 0, Packed(db[..n])) && srvList == Blocks(db[..n]) && count == Cccds(db[..n])
        decreases |disList|
      {
        var d := disList[0];
        ghost var before, done := table[..], db[..n];
        SizeNext(db, n);
        SizeFromIsSize(d);
        assert db[..n+1] == done + [d];
        PackedSnoc(done, d);
        BlocksSnoc(done, d);
        CccdsSnoc(done, d);
        disList := disList[1..];
        var cb, next, num := FillSrv(d, idx, count);
        HoldsKept(before, table[..], 0, Packed(done));
        HoldsJoin(table[..], 0, Packed(done), PackSrv(Cached(d)));
        srvList := srvList + [cb];
        idx, count := next, num;
        n := n + 1;
        if idx > table.Length {
          assert false;  // error exit 5
        }
      }
      assert db[..n] == db;
      HoldsWhole(table[..], Packed(db));
    }

    /** Packs the discovered services and empties the discovery list.  Exits 1, 4, 5 and 6 of the
        source cannot be taken. */
    method SrvListGen() returns (ok: bool)
      requires Valid() && ListOk(disList) && Fits(disList)
      modifies this
      ensures ok && Valid() && disList == []
      ensures old(disList) == [] ==> table == null
      ensures old(disList) != [] ==>
        table != null && fresh(table) && table[..] == Pack(Cache(old(disList))) && srvList == Layout(Cache(old(disList)), 0)
      ensures View() == Cache(old(disList)) && KeepsDb(old(disList), View())
      ensures keepCccd ==> cccdNum == To8(WithCccd(old(disList))) && CccdCount(View()) == WithCccd(old(disList))
      ensures Slots() == if keepCccd then Restored(To8(CccdCount(View())), None) else []
      ensures slots == null || fresh(slots)
    {
      ghost var db := disList;
      hide ListOk, Fits, Cache, Pack, Layout, CccdCount, ReadAll, AllInTable, To8, Restored, KeepsDb, WithCccd;
      GenReads(db);
      CacheKeeps(db);
      FitsSize(db);
      if table != null {
        SrvListRelease();
      }
      var idx: nat, count: u8 := 0, 0;
      NothingPacked();
      if disList != [] {
        var size := TableSizeOf();
        table := new u8[size](_ => 0);
        tableLen := size;
        idx, count := FillTable();
      }
      if idx != tableLen {
        assert false;  // error exit 6
      }
      if keepCccd {
        cccdNum := count;
        NothingRestored(count);
        if cccdNum != 0 {
          slots := new Slot[cccdNum](_ => Slot(0, 0));
          assert slots[..] == Zeroed(cccdNum);
        }
      }
      ok := true;
    }

    // ----- Loading -----

    /** One table's entries: are they all of the table's type, and how many have a CCCD? */
    method CheckRows(t: seq<u8>, o: nat, k: TableKind, n: u8) returns (typed: bool, cccds: nat)
      requires o + Span(n, k) <= |t|
      ensures typed == (FirstMistyped(RowsAt(t, o, k, n), k) == n)
      ensures typed ==> cccds == CccdRows(RowsAt(t, o, k, n))
    {
      hide FirstMistyped, RowsAt, RowAt, CccdRows;
      ghost var rs := RowsAt(t, o, k, n);
      typed, cccds := true, 0;
      var j: nat := 0;
      NoCccds(rs);
      while j < n
        invariant j <= n && typed && cccds == CccdRows(rs[..j])
        invariant forall i :: 0 <= i < j ==> RowType(rs[i]) == TypeOf(k)
      {
        RowsAtIndex(t, o, k, n, j);
        var r := RowAt(t, o + Span(j, k), k);
        if RowType(r) != TypeOf(k) {
          typed := false;
          return;
        }
        CccdRowsNext(rs, j);
        if HasCccd(r) {
          cccds := cccds + 1;
        }
        j := j + 1;
      }
      assert rs[..j] == rs;
    }

    method LoadSrv(t: seq<u8>, o: nat) returns (p: ParsedSrv)
      requires o < |t|
      ensures p == ParseSrv(cfg, t, o)
    {
      hide RowsAt, RowAt, FirstMistyped, CccdRows, SrvAt, FindSpec, Srv16, Srv128;
      var n := SrvSize(t[o]);
      if !Srv16(t[o]) && !Srv128(t[o]) {
        return SrvBad(BadServiceType);
      }
      if o + n + 4 > |t| {
        return SrvBad(Overrun);
      }
      var u := SrvAt(t, o).uuid;
      var spec := FindSpec(cfg.registered, u);
      if spec.None? && cfg.registeredOnly {
        return SrvBad(NotRegistered);
      }
      var a, b, c, d := t[o+n], t[o+n+1], t[o+n+2], t[o+n+3];
      if NextAt(o, n, a, b, c, d) > |t| {
        return SrvBad(Overrun);
      }
      var cb := CbAt(spec, o, n, a, b, c, d);
      var typed, cccds := CheckRows(t, cb.inc16, Inc16, a);
      if !typed {
        return SrvBad(BadEntry(Inc16));
      }
      typed, cccds := CheckRows(t, cb.inc128, Inc128, b);
      if !typed {
        return SrvBad(BadEntry(Inc128));
      }
      var c16: nat;
      typed, c16 := CheckRows(t, cb.char16, Char16, c);
      if !typed {
        return SrvBad(BadEntry(Char16));
      }
      var c128: nat;
      typed, c128 := CheckRows(t, cb.char128, Char128, d);
      if !typed {
        return SrvBad(BadEntry(Char128));
      }
      p := SrvGood(cb, NextAt(o, n, a, b, c, d), c16 + c128);
    }

    /** The saved bytes are copied over zeroed slots if there are not too many. */
    method RestoreCccd(count: u8, saved: Option<seq<u8>>)
      requires slots == null
      modifies this`cccdNum, this`slots
      ensures cccdNum == count && Slots() == Restored(count, saved)
      ensures slots == null || (fresh(slots) && slots.Length == cccdNum)
    {
      cccdNum := count;
      if cccdNum != 0 {
        slots := new Slot[cccdNum](_ => Slot(0, 0));
        if saved.Some? && 0 < |saved.value| <= 4 * cccdNum {
          var b := saved.value + seq(4 * cccdNum - |saved.value|, _ => 0);
          forall i | 0 <= i < slots.Length {
            slots[i] := SlotAt(b, i);
          }
          assert slots[..] == Restored(count, saved);
        } else {
          NoneRestored(count, saved);
          assert slots[..] == Zeroed(cccdNum);
        }
      }
    }

    /** The bytes become the table, and its services get their control blocks; count is the number of
        CCCDs in 8 bits. */
    method LoadTable(t: seq<u8>) returns (error: Option<LoadError>, count: u8)
      requires Valid() && table == null && |t| <= 0xFFFF
      modifies this
      ensures Valid() && disList == old(disList) && slots == null
      ensures
        match Parse(cfg, t, 0)
        case Bad(e) => error == Some(e) && table == null
        case Good(cbs, n) =>
          if cbs == [] then error == Some(Empty) && table == null
          else error == None && table != null && table[..] == t && srvList == cbs && count == To8(n)
    {
      hide Parse, ParseSrv, ReadAll, Read, InTable, To8;
      tableLen, count := |t|, 0;
      table := new u8[|t|](i requires 0 <= i < |t| => t[i]);
      assert table[..] == t;
      ghost var goal := Parse(cfg, t, 0);
      ghost var total: nat := 0;
      var idx: nat := 0;
      SumWraps(0, 0);
      while idx < tableLen
        invariant idx <= tableLen == |t| && table != null && fresh(table) && table[..] == t && slots == null
        invariant goal == Rejoin(srvList, total, Parse(cfg, t, idx)) && count == To8(total)
        invariant AllInTable(t, srvList) && disList == old(disList)
        decreases tableLen - idx
      {
        ParseNext(cfg, t, idx);
        var p := LoadSrv(t, idx);
        if p.SrvBad? {
          SrvListRelease();
          return Some(p.error), count;
        }
        srvList := srvList + [p.cb];
        SumWraps(total, p.cccds);
        count := To8(count + p.cccds);
        total := total + p.cccds;
        idx := p.next;
      }
      ParseEnd(cfg, t);
      if srvList == [] {
        SrvListRelease();
        return Some(Empty), count;
      }
      error := None;
    }

    /** Restores the table from storage, and the CCCD values from what was saved. */
    method Load(hashCheck: bool, store: Keeper, saved: Option<seq<u8>>) returns (r: Option<LoadError>)
      requires Valid() && (Fetch(store, hashCheck).Fetched? ==> |Fetch(store, hashCheck).data| <= 0xFFFF)
      modifies this
      ensures Valid() && disList == old(disList)
      ensures old(table) != null ==> r == Some(TableInUse) && unchanged(this)
      ensures old(table) == null && Fetch(store, hashCheck).Missing? ==>
        r == Some(Fetch(store, hashCheck).error) && unchanged(this)
      ensures old(table) == null && Fetch(store, hashCheck).Fetched? ==>
        match Parse(cfg, Fetch(store, hashCheck).data, 0)
        case Bad(e) => r == Some(e) && table == null
        case Good(cbs, n) =>
          if cbs == [] then r == Some(Empty) && table == null
          else
            r == None && table != null && table[..] == Fetch(store, hashCheck).data && srvList == cbs &&
            (keepCccd ==> cccdNum == To8(n))
      ensures r == None ==> Slots() == if keepCccd then Restored(To8(CccdCount(View())), saved) else []
    {
      hide Parse, ReadAll, AllInTable, Restored, CccdCount, To8;
      if table != null {
        return Some(TableInUse);
      }
      var f := Fetch(store, hashCheck);
      if f.Missing? {
        return Some(f.error);
      }
      ParseCounts(cfg, f.data, 0);
      var count: u8;
      r, count := LoadTable(f.data);
      if r == None && keepCccd {
        RestoreCccd(count, saved);
      }
    }

    // ----- CCCD values -----

    ghost function Slots(): seq<Slot>
      reads this, slots
    {
      if slots == null then [] else slots[..]
    }

    method GetCccdData(handle: u16) returns (bits: u16)
      requires Valid()
      ensures bits == Lookup(Slots(), handle)
    {
      bits := 0;
      if slots != null {
        var i := 0;
        while i < slots.Length
          invariant i <= slots.Length && bits == 0
          invariant forall j :: 0 <= j < i ==> slots[..][j].handle != handle
        {
          if slots[i].handle == handle {
            assert slots[..][i] == slots[i];
            return slots[i].bits;
          }
          i := i + 1;
        }
      }
    }

    /** changed tells the caller to restart the timer that saves the values. */
    method SetCccdData(handle: u16, bits: u16) returns (changed: bool)
      requires Valid()
      modifies slots
      ensures Valid()
      ensures Slots() == if old(slots) == null then [] else Store(old(Slots()), handle, bits)
      ensures changed ==> slots != null
      ensures !changed ==> Slots() == old(Slots())
    {
      changed := false;
      if slots == null {
        return;
      }
      ghost var s := slots[..];
      var i := 0;
      while i < slots.Length
        invariant i <= slots.Length && slots[..] == s
        invariant forall j :: 0 <= j < i ==> s[j].handle != handle
      {
        if slots[i].handle == handle {
          assert FindSlot(s, handle) == i;
          if slots[i].bits == bits {
            assert Store(s, handle, bits) == s;
            return;
          }
          slots[i] := slots[i].(bits := bits);
          changed := true;
          assert slots[..] == s[i := Slot(handle, bits)];
          return;
        }
        i := i + 1;
      }
      i := 0;
      while i < slots.Length
        invariant i <= slots.Length && slots[..] == s
        invariant forall j :: 0 <= j < i ==> s[j].handle != 0
      {
        if slots[i].handle == 0 {
          assert FindSlot(s, 0) == i;
          slots[i] := Slot(handle, bits);
          changed := true;
          assert slots[..] == s[i := Slot(handle, bits)];
          return;
        }
        i := i + 1;
      }
    }
  }

  lemma IncsTyped(db: seq<DisSrv>)
    requires ListOk(db)
    ensures forall w :: w in db ==> TypedIncs(w.incs)
  {
    forall w | w in db ensures TypedIncs(w.incs) { assert DisSrvOk(w); }
  }

  /** Processing the i-th service keeps the earlier ones and does not outgrow the final list. */
  lemma SecondaryStep(cfg: Config, db: seq<DisSrv>, start: seq<DisSrv>, i: nat)
    requires ListOk(db) && start <= db && i < |start| && forall w :: w in start ==> TypedIncs(w.incs)
    ensures db[i] == start[i]
    ensures
      var d := AddIncluded(cfg, db, start[i].incs);
      var goal := AddSecondaries(cfg, db, start[i..]);
      start <= d && |d| <= |goal| && AddSecondaries(cfg, d, start[i+1..]) == goal
  {
    hide AddIncluded, ListOk, TypedIncs;
    var d := AddIncluded(cfg, db, start[i].incs);
    assert start[i..][1..] == start[i+1..];
    assert start[i] in start;
    AddIncludedSpec(cfg, db, start[i].incs);
    AddSecondariesSpec(cfg, d, start[i+1..]);
    assert d[..|start|] == db[..|start|];
  }

  /** The i-th loop ends, judged by the list it starts with, and leaves an extension of the first list. */
  lemma EndsStill(cfg: Config, db: seq<DisSrv>, start: seq<DisSrv>, i: nat)
    requires Extends(cfg, start, db) && AllEnd(cfg, start, start) && i < |start| && ListOk(db) && TypedIncs(start[i].incs)
    ensures Ends(cfg, db, start[i].incs) && Extends(cfg, start, AddIncluded(cfg, db, start[i].incs))
  {
    hide ListOk, TypedIncs, Ends, AddIncluded;
    assert start[i] in start;
    EndsGrown(cfg, start, db, start[i].incs);
    AddIncludedSpec(cfg, db, start[i].incs);
    ExtendsTrans(cfg, start, db, AddIncluded(cfg, db, start[i].incs));
  }

  lemma SecondaryEnd(cfg: Config, db: seq<DisSrv>, rest: seq<DisSrv>)
    requires rest == []
    ensures AddSecondaries(cfg, db, rest) == db
  {
  }

  lemma PickEmpty(k: TableKind)
    ensures Pick([], k) == [] && TableBytes(Pick([], k)) == []
  {
  }

  lemma HoldsNothing(t: seq<u8>, o: nat)
    requires o <= |t|
    ensures Holds(t, o, [])
  {
  }

  /** The 8-bit CCCD counter after passing these rows. */
  function AddCccds(count: u8, rows: seq<Row>): u8 {
    To8(count + CccdRows(rows))
  }

  lemma CccdNone(count: u8)
    ensures AddCccds(count, []) == count
  {
  }

  lemma CccdNext(rows: seq<Row>, i: nat, count: u8)
    requires i < |rows|
    ensures AddCccds(count, rows[..i+1]) ==
      if HasCccd(rows[i]) then To8(AddCccds(count, rows[..i]) + 1) else AddCccds(count, rows[..i])
  {
    assert rows[..i+1][..i] == rows[..i];
  }

  lemma SpanGrows(n: nat, m: nat, k: TableKind)
    ensures n <= m ==> Span(n, k) <= Span(m, k)
    ensures n + 1 <= m ==> Span(n + 1, k) <= Span(m, k)
    ensures Span(n, k) <= Span(n + 1, k) && Span(0, k) == 0
  {
  }

  lemma PickSize(rows: seq<Row>, k: TableKind)
    ensures forall r :: r in Pick(rows, k) ==> KindOf(r) == k
    ensures |TableBytes(Pick(rows, k))| == Span(|Pick(rows, k)|, k)
  {
    PickMembers(rows, k);
    TableSize(Pick(rows, k), k);
  }

  lemma PickNext(rows: seq<Row>, i: nat, k: TableKind)
    requires i < |rows|
    ensures Pick(rows[..i+1], k) == if KindOf(rows[i]) == k then Pick(rows[..i], k) + [rows[i]] else Pick(rows[..i], k)
    ensures |Pick(rows[..i+1], k)| <= |Pick(rows, k)|
  {
    assert rows[..i+1] == rows[..i] + [rows[i]];
    PickSnoc(rows[..i], rows[i], k);
    assert rows == rows[..i+1] + rows[i+1..];
    PickConcat(rows[..i+1], rows[i+1..], k);
  }

  lemma Regroup(x: seq<Row>, y: seq<Row>, z: seq<Row>)
    ensures x + y + z == x + (y + z)
  {
  }

  function Kept(r: Row, k: TableKind): seq<Row> {
    if KindOf(r) == k then [r] else []
  }

  lemma PickHead(rs: seq<Row>, k: TableKind)
    requires rs != []
    ensures Pick(rs, k) == Kept(rs[0], k) + Pick(rs[1..], k)
  {
    hide KindOf;
  }

  lemma {:induction false} PickConcat(a: seq<Row>, b: seq<Row>, k: TableKind)
    ensures Pick(a + b, k) == Pick(a, k) + Pick(b, k)
  {
    hide Pick, Kept;
    if a == [] {
      PickEmpty(k);
      assert a + b == b && Pick(a, k) + Pick(b, k) == Pick(b, k);
    } else {
      PickConcat(a[1..], b, k);
      PickConcatHead(a, b, k);
    }
  }

  lemma PickConcatHead(a: seq<Row>, b: seq<Row>, k: TableKind)
    requires a != [] && Pick(a[1..] + b, k) == Pick(a[1..], k) + Pick(b, k)
    ensures Pick(a + b, k) == Pick(a, k) + Pick(b, k)
  {
    hide Pick, Kept;
    PickHead(a, k);
    PickHead(a + b, k);
    assert (a + b)[1..] == a[1..] + b && (a + b)[0] == a[0];
    Regroup(Kept(a[0], k), Pick(a[1..], k), Pick(b, k));
  }

  lemma {:induction false} TableBytesSnoc(rs: seq<Row>, r: Row)
    ensures TableBytes(rs + [r]) == TableBytes(rs) + RowBytes(r)
  {
    hide RowBytes;
    if rs == [] {
      assert rs + [r] == [r];
    } else {
      TableBytesSnoc(rs[1..], r);
      assert (rs + [r])[1..] == rs[1..] + [r];
    }
  }

  lemma HoldsKept(t: seq<u8>, t': seq<u8>, o: nat, b: seq<u8>)
    requires Holds(t, o, b) && |t| == |t'|
    requires forall k :: o <= k < o + |b| ==> t'[k] == t[k]
    ensures Holds(t', o, b)
  {
  }

  /** Writing a row right behind a table extends the table. */
  lemma AppendRow(t: seq<u8>, t': seq<u8>, o: nat, rs: seq<Row>, r: Row, k: TableKind)
    requires Holds(t, o, TableBytes(rs)) && |t| == |t'| && KindOf(r) == k
    requires forall x :: x in rs ==> KindOf(x) == k
    requires Holds(t', o + Span(|rs|, k), RowBytes(r))
    requires forall i :: o <= i < o + Span(|rs|, k) ==> t'[i] == t[i]
    ensures Holds(t', o, TableBytes(rs + [r]))
  {
    hide Holds, TableBytes, RowBytes;
    TableSize(rs, k);
    TableBytesSnoc(rs, r);
    HoldsKept(t, t', o, TableBytes(rs));
    HoldsJoin(t', o, TableBytes(rs), RowBytes(r));
  }

  function HeaderBytes(d: DisSrv): seq<u8> {
    SrvBytes(d.srv) + [d.inc16Num, d.inc128Num, d.char16Num, d.char128Num]
  }

  function FrontBytes(d: DisSrv): seq<u8> {
    HeaderBytes(d) + (TableBytes(Pick(IncRows(d.incs), Inc16)) + TableBytes(Pick(IncRows(d.incs), Inc128)))
  }

  /** The counters kept during discovery place every part of the service inside its region. */
  lemma FillBounds(d: DisSrv, idx: nat)
    requires DisSrvOk(d) && SmallSrv(Cached(d))
    ensures
      var n := SrvSize(d.srv.hdr.attrType);
      |SrvBytes(d.srv)| == n &&
      idx + |PackSrv(Cached(d))| == idx + n + 4 + 12 * d.inc16Num + 24 * d.inc128Num + 16 * d.char16Num + 32 * d.char128Num &&
      LayoutOf(Cached(d), idx) == CbAt(d.spec, idx, n, d.inc16Num, d.inc128Num, d.char16Num, d.char128Num)
    ensures d.inc16Num == |Pick(IncRows(d.incs), Inc16)| && d.inc128Num == |Pick(IncRows(d.incs), Inc128)|
    ensures d.char16Num == |Pick(CharRows(d.chars), Char16)| && d.char128Num == |Pick(CharRows(d.chars), Char128)|
    ensures PackSrv(Cached(d)) ==
      FrontBytes(d) + (TableBytes(Pick(CharRows(d.chars), Char16)) + TableBytes(Pick(CharRows(d.chars), Char128)))
  {
    hide SrvBytes, Pick, TableBytes, PackSrv, CharRows, IncRows, LayoutOf;
    FillCounts(d);
    PackSize(Cached(d), idx);
    FillLayout(d, idx);
    FillOrder(d);
  }

  lemma FillCounts(d: DisSrv)
    requires DisSrvOk(d) && SmallSrv(Cached(d))
    ensures TypedCached(Cached(d))
    ensures d.inc16Num == |Pick(IncRows(d.incs), Inc16)| && d.inc128Num == |Pick(IncRows(d.incs), Inc128)|
    ensures d.char16Num == |Pick(CharRows(d.chars), Char16)| && d.char128Num == |Pick(CharRows(d.chars), Char128)|
  {
    hide Pick, CharRows, IncRows;
    CachedTyped(d);
  }

  lemma FillLayout(d: DisSrv, idx: nat)
    requires DisSrvOk(d) && SmallSrv(Cached(d))
    ensures LayoutOf(Cached(d), idx) ==
      CbAt(d.spec, idx, |SrvBytes(d.srv)|, d.inc16Num, d.inc128Num, d.char16Num, d.char128Num)
  {
    hide Pick, CharRows, IncRows, SrvBytes, DisSrvOk;
    FillCounts(d);
  }

  lemma FillOrder(d: DisSrv)
    requires DisSrvOk(d) && SmallSrv(Cached(d))
    ensures PackSrv(Cached(d)) ==
      FrontBytes(d) + (TableBytes(Pick(CharRows(d.chars), Char16)) + TableBytes(Pick(CharRows(d.chars), Char128)))
  {
    hide SrvBytes, Pick, TableBytes, PackSrv, CharRows, IncRows;
    PackOrder(Cached(d));
  }

  lemma PackOrder(c: CachedSrv)
    ensures PackSrv(c) ==
      SrvBytes(c.srv) + Counts(c) + (TableBytes(c.inc16) + TableBytes(c.inc128)) +
      (TableBytes(c.char16) + TableBytes(c.char128))
  {
    hide SrvBytes, TableBytes, Counts;
  }

  /** Bytes, control blocks and CCCD count that packing a list produces. */
  function Packed(db: seq<DisSrv>): seq<u8> { Pack(Cache(db)) }

  function Blocks(db: seq<DisSrv>): seq<SrvCb> { Layout(Cache(db), 0) }

  function Cccds(db: seq<DisSrv>): u8 { To8(CccdCount(Cache(db))) }

  lemma NothingPacked()
    ensures Packed([]) == [] && Blocks([]) == [] && Cccds([]) == 0
  {
  }

  lemma HoldsWhole(t: seq<u8>, b: seq<u8>)
    requires Holds(t, 0, b) && |t| == |b|
    ensures t == b
  {
    forall i | 0 <= i < |t| ensures t[i] == b[i] {
      assert t[0+i] == b[i];
    }
  }

  lemma {:induction false} PackConcat(a: seq<CachedSrv>, b: seq<CachedSrv>)
    ensures Pack(a + b) == Pack(a) + Pack(b)
  {
    hide PackSrv;
    if a == [] {
      assert a + b == b;
    } else {
      PackConcat(a[1..], b);
      assert (a + b)[1..] == a[1..] + b;
      assert PackSrv(a[0]) + Pack(a[1..]) + Pack(b) == PackSrv(a[0]) + (Pack(a[1..]) + Pack(b));
    }
  }

  lemma CacheConcat(a: seq<DisSrv>, b: seq<DisSrv>)
    ensures Cache(a + b) == Cache(a) + Cache(b)
  {
    hide Cache, Cached;
  }

  lemma PackOne(c: CachedSrv)
    ensures Pack([c]) == PackSrv(c)
  {
    hide PackSrv;
    assert [c][1..] == [];
  }

  lemma PackedSnoc(db: seq<DisSrv>, d: DisSrv)
    ensures Packed(db + [d]) == Packed(db) + PackSrv(Cached(d))
  {
    hide PackSrv, Cached;
    CacheConcat(db, [d]);
    PackConcat(Cache(db), Cache([d]));
    PackOne(Cached(d));
  }

  lemma PackedPrefix(db: seq<DisSrv>, n: nat)
    requires n <= |db|
    ensures |Packed(db[..n])| <= |Packed(db)|
  {
    assert db == db[..n] + db[n..];
    CacheConcat(db[..n], db[n..]);
    hide Cache, Pack;
    PackConcat(Cache(db[..n]), Cache(db[n..]));
  }

  lemma BlocksSnoc(db: seq<DisSrv>, d: DisSrv)
    ensures Blocks(db + [d]) == Blocks(db) + [LayoutOf(Cached(d), |Packed(db)|)]
  {
    hide LayoutOf, Cached, Layout, Pack;
    CacheSnoc(db, d);
    hide Cache;
    LayoutSnoc(Cache(db), Cached(d), 0);
  }

  lemma SumWraps(x: nat, y: nat)
    ensures To8(To8(x) + y) == To8(x + y) && To8(0) == 0
  {
  }

  lemma NoWrap()
    ensures forall x :: 0 <= x <= 0xFFFF ==> To16(x) == x
  {
  }

  lemma CacheSnoc(db: seq<DisSrv>, d: DisSrv)
    ensures Cache(db + [d]) == Cache(db) + [Cached(d)]
  {
    hide Cached;
    CacheConcat(db, [d]);
  }

  lemma CccdsSnoc(db: seq<DisSrv>, d: DisSrv)
    ensures Cccds(db + [d]) == AddCccds(Cccds(db), CharRows(d.chars))
  {
    hide CharRows, IncRows, CccdRows, CccdCount, Cache, Cached, To8;
    SrvCccds(d);
    CacheSnoc(db, d);
    CccdCountSnoc(Cache(db), Cached(d));
    SumWraps(CccdCount(Cache(db)), CccdRows(CharRows(d.chars)));
  }

  lemma {:induction false} LayoutSnoc(cs: seq<CachedSrv>, c: CachedSrv, o: nat)
    ensures Layout(cs + [c], o) == Layout(cs, o) + [LayoutOf(c, o + |Pack(cs)|)]
    decreases |cs|
  {
    hide PackSrv, LayoutOf, Layout, Pack;
    if cs == [] {
      LayoutNone(o);
      LayoutHead([c], o);
      LayoutNone(o + |PackSrv(c)|);
      assert cs + [c] == [c];
    } else {
      LayoutHead(cs, o);
      LayoutHead(cs + [c], o);
      LayoutSnoc(cs[1..], c, o + |PackSrv(cs[0])|);
      assert (cs + [c])[1..] == cs[1..] + [c];
    }
  }

  lemma LayoutNone(o: nat)
    ensures Layout([], o) == [] && Pack([]) == []
  {
  }

  lemma LayoutHead(cs: seq<CachedSrv>, o: nat)
    requires cs != []
    ensures Layout(cs, o) == [LayoutOf(cs[0], o)] + Layout(cs[1..], o + |PackSrv(cs[0])|)
    ensures |Pack(cs)| == |PackSrv(cs[0])| + |Pack(cs[1..])|
  {
    hide PackSrv, LayoutOf;
  }

  lemma {:induction false} CccdCountSnoc(cs: seq<CachedSrv>, c: CachedSrv)
    ensures CccdCount(cs + [c]) == CccdCount(cs) + CccdRows(c.char16) + CccdRows(c.char128)
  {
    hide CccdRows;
    if cs == [] {
      assert cs + [c] == [c];
    } else {
      CccdCountSnoc(cs[1..], c);
      assert (cs + [c])[1..] == cs[1..] + [c];
    }
  }

  lemma MemberOk(db: seq<DisSrv>, i: nat)
    requires ListOk(db) && Fits(db) && i < |db|
    ensures DisSrvOk(db[i]) && SmallSrv(Cached(db[i])) && TypedSrv(db[i].srv)
  {
    assert db[i] in db;
  }

  /** The bytes one service adds, from its type and its counters. */
  function SizeFrom(d: DisSrv): nat {
    SrvSize(d.srv.hdr.attrType) + 4 + 12 * d.inc16Num + 24 * d.inc128Num + 16 * d.char16Num + 32 * d.char128Num
  }

  lemma SizeFromIsSize(d: DisSrv)
    requires DisSrvOk(d) && SmallSrv(Cached(d))
    ensures |PackSrv(Cached(d))| == SizeFrom(d)
  {
    FillBounds(d, 0);
    hide PackSrv, FrontBytes, LayoutOf, CbAt, Cached, DisSrvOk, SmallSrv, SrvBytes;
  }

  lemma FitsSize(db: seq<DisSrv>)
    requires Fits(db)
    ensures |Packed(db)| <= 0xFFFF
  {
  }

  /** The sizing pass adds up what each service will occupy, and never wraps. */
  lemma SizeNext(db: seq<DisSrv>, i: nat)
    requires ListOk(db) && Fits(db) && i < |db|
    ensures DisSrvOk(db[i]) && SmallSrv(Cached(db[i])) && TypedSrv(db[i].srv)
    ensures |Packed(db[..i])| + SizeFrom(db[i]) == |Packed(db[..i+1])| <= |Packed(db)| <= 0xFFFF
  {
    hide ListOk, Fits, DisSrvOk, SmallSrv, PackSrv, Packed, Cached, SizeFrom, TypedSrv;
    FitsSize(db);
    MemberOk(db, i);
    SizeFromIsSize(db[i]);
    assert db[..i+1] == db[..i] + [db[i]];
    PackedSnoc(db[..i], db[i]);
    PackedPrefix(db, i + 1);
  }

  /** What was packed reads as the discovered database. */
  lemma GenReads(db: seq<DisSrv>)
    requires ListOk(db) && Fits(db)
    ensures
      var t, cbs := Pack(Cache(db)), Layout(Cache(db), 0);
      AllInTable(t, cbs) && ReadAll(t, cbs) == Cache(db)
  {
    forall c | c in Cache(db) ensures TypedCached(c) {
      var i :| 0 <= i < |db| && Cache(db)[i] == c;
      MemberOk(db, i);
      CachedTyped(db[i]);
    }
    ReadPacked(Pack(Cache(db)), 0, Cache(db));
  }

  lemma NoCccds(rs: seq<Row>)
    ensures CccdRows(rs[..0]) == 0
  {
  }

  lemma CccdRowsNext(rs: seq<Row>, j: nat)
    requires j < |rs|
    ensures CccdRows(rs[..j+1]) == CccdRows(rs[..j]) + if HasCccd(rs[j]) then 1 else 0
  {
    assert rs[..j+1][..j] == rs[..j];
  }

  lemma {:induction false} RowsAtIndex(t: seq<u8>, o: nat, k: TableKind, n: nat, j: nat)
    requires o + Span(n, k) <= |t| && j < n
    ensures RowsAt(t, o, k, n)[j] == RowAt(t, o + Span(j, k), k)
    decreases n
  {
    hide RowAt;
    if j > 0 {
      RowsAtIndex(t, o + Width(k), k, n - 1, j - 1);
      assert o + Width(k) + Span(j - 1, k) == o + Span(j, k);
    }
  }

  function Rejoin(done: seq<SrvCb>, n: nat, p: Parsed): Parsed {
    match p
    case Bad(e) => p
    case Good(cbs, m) => Good(done + cbs, n + m)
  }

  lemma ParseNext(cfg: Config, t: seq<u8>, o: nat)
    requires o < |t|
    ensures
      var p := ParseSrv(cfg, t, o);
      Parse(cfg, t, o) == if p.SrvBad? then Bad(p.error) else Rejoin([p.cb], p.cccds, Parse(cfg, t, p.next))
  {
    hide ParseSrv;
  }

  lemma NoneRestored(n: u8, saved: Option<seq<u8>>)
    requires saved.Some? ==> |saved.value| == 0 || |saved.value| > 4 * n
    ensures Restored(n, saved) == Zeroed(n)
  {
    if saved.Some? && |saved.value| == 0 {
      assert saved.value == SlotBytes([]);
      RestoredBack(n, []);
    }
  }

  /** The count that loading keeps is that of the database it restores. */
  lemma {:induction false} ParseCounts(cfg: Config, t: seq<u8>, o: nat)
    requires o <= |t|
    ensures var p := Parse(cfg, t, o); p.Good? ==> CccdCount(ReadAll(t, p.cbs)) == p.cccds
    decreases |t| - o
  {
    hide CccdRows, Read, InTable, ParseSrv;
    if o < |t| {
      var p := ParseSrv(cfg, t, o);
      if p.SrvGood? {
        SrvCounts(cfg, t, o);
        ParseCounts(cfg, t, p.next);
        var q := Parse(cfg, t, p.next);
        if q.Good? {
          var cs := ReadAll(t, [p.cb] + q.cbs);
          assert cs[0] == Read(t, p.cb) && cs[1..] == ReadAll(t, q.cbs);
        }
      }
    }
  }

  lemma SrvCounts(cfg: Config, t: seq<u8>, o: nat)
    requires o < |t| && ParseSrv(cfg, t, o).SrvGood?
    ensures
      var p := ParseSrv(cfg, t, o);
      p.cccds == CccdRows(Read(t, p.cb).char16) + CccdRows(Read(t, p.cb).char128)
  {
    hide CccdRows, Read, InTable, FirstMistyped, SrvAt, FindSpec, CbAt, NextAt;
  }

  lemma ParseEnd(cfg: Config, t: seq<u8>)
    ensures Parse(cfg, t, |t|) == Good([], 0)
  {
  }

  /** Loading the packed bytes of a nonempty database into a fresh record gives every query the
      answers it had right after discovery. */
  method PackThenLoad(a: Record, b: Record)
    requires a != b && a.Valid() && b.Valid() && a.cfg == b.cfg && a.keepCccd == b.keepCccd
    requires a.disList != [] && ListOk(a.disList) && Fits(a.disList) && Bound(a.cfg, a.disList)
    requires b.table == null
    modifies a, b
    ensures a.Valid() && b.Valid()
    ensures a.View() == Cache(old(a.disList)) && b.View() == a.View() && b.srvList == a.srvList
    ensures a.keepCccd ==> b.cccdNum == a.cccdNum
  {
    hide ListOk, Fits, Bound, Cache, Pack, Layout, CccdCount, ReadAll, AllInTable, Parse, To8, Restored;
    ghost var db := a.disList;
    CacheRefinement(a.cfg, db);
    var ok := a.SrvListGen();
    var t := a.table[..];
    var r := b.Load(false, Keeps(Some(Some(t)), None), None);
  }

  lemma SavedFits(s: seq<Slot>, n: u8)
    requires |s| == n
    ensures Restored(n, Some(SlotBytes(s))) == s
  {
    hide Restored, SlotBytes;
    RestoredBack(n, s);
    assert s + Zeroed(0) == s;
  }

  /** Saving a record's table and CCCD values and loading them into a fresh record gives the same
      database, and every handle reads the same bits. */
  method SaveThenLoad(a: Record, b: Record, ghost db: seq<DisSrv>)
    requires a != b && a.Valid() && b.Valid() && a.cfg == b.cfg && a.keepCccd && b.keepCccd
    requires db != [] && ListOk(db) && Fits(db) && Bound(a.cfg, db)
    requires a.table != null && a.table[..] == Pack(Cache(db))
    requires a.slots != null && a.cccdNum == To8(CccdCount(Cache(db)))
    requires b.table == null
    modifies b
    ensures a.Valid() && b.Valid() && b.View() == Cache(db)
    ensures b.Slots() == a.Slots() && forall h: u16 :: Lookup(b.Slots(), h) == Lookup(a.Slots(), h)
  {
    hide ListOk, Fits, Bound, Cache, Pack, Layout, CccdCount, ReadAll, AllInTable, Parse, To8, Restored, SlotBytes, Lookup;
    CacheRefinement(a.cfg, db);
    GenReads(db);
    var t := a.table[..];
    var s := a.slots[..];
    SavedFits(s, a.cccdNum);
    var r := b.Load(false, Keeps(Some(Some(t)), None), Some(SlotBytes(s)));
  }
}
