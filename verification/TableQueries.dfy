/** The queries, as loops over a record's service list and packed table.  Each is proved against the
    database the record stands for. */
module TableQueries {
  import opened Widths
  import opened Attributes
  import opened ServiceTable
  import opened DiscoveryList
  import opened Queries
  import opened Storage

  /** The record's table can be walked with 8-bit indices and holds typed services. */
  ghost predicate Walkable(r: Record)
    reads r, r.table
  {
    r.Valid() && |r.srvList| <= 255 && TypedSrvs(r.View())
  }

  lemma ViewAt(r: Record, i: nat)
    requires r.Valid() && i < |r.srvList|
    ensures r.table != null && InTable(r.table[..], r.srvList[i]) && |r.View()| == |r.srvList|
    ensures r.View()[i] == Read(r.table[..], r.srvList[i])
  {
  }

  /** The i-th service's declaration, read through its control block. */
  method SrvOf(r: Record, i: nat) returns (s: Srv)
    requires r.Valid() && i < |r.srvList|
    ensures i < |r.View()| && s == r.View()[i].srv
  {
    ViewAt(r, i);
    hide RowsAt;
    s := SrvAt(r.table[..], r.srvList[i].srv);
  }

  /** How many entries a service's characteristic table has, and one of them. */
  method CharNum(r: Record, i: nat, wide: bool) returns (n: u8)
    requires r.Valid() && i < |r.srvList|
    ensures i < |r.View()| && n == |CharTableOf(r.View()[i], wide)|
    ensures AllChars(CharTableOf(r.View()[i], wide))
  {
    ViewAt(r, i);
    var cb := r.srvList[i];
    RowsAtChars(r.table[..], cb.char16, Char16, cb.char16Num);
    RowsAtChars(r.table[..], cb.char128, Char128, cb.char128Num);
    n := if wide then cb.char128Num else cb.char16Num;
  }

  method CharOf(r: Record, i: nat, wide: bool, j: nat) returns (row: Row)
    requires r.Valid() && i < |r.srvList| && i < |r.View()| && j < |CharTableOf(r.View()[i], wide)|
    ensures row == CharTableOf(r.View()[i], wide)[j]
  {
    hide RowAt, RowsAt, Record.View, Record.Valid, Span, InTable;
    ViewAt(r, i);
    var cb := r.srvList[i];
    CharAt(r.table[..], cb, wide, j);
    var k := if wide then Char128 else Char16;
    var o := if wide then cb.char128 else cb.char16;
    row := RowAt(r.table[..], o + Span(j, k), k);
  }

  lemma CharAt(t: seq<u8>, cb: SrvCb, wide: bool, j: nat)
    requires InTable(t, cb) && j < if wide then cb.char128Num else cb.char16Num
    ensures
      var k := if wide then Char128 else Char16;
      var o := if wide then cb.char128 else cb.char16;
      j < |CharTableOf(Read(t, cb), wide)| &&
      o + Span(j, k) + Width(k) <= |t| && CharTableOf(Read(t, cb), wide)[j] == RowAt(t, o + Span(j, k), k)
  {
    hide RowAt, RowsAt, SrvAt;
    if wide {
      RowsAtIndex(t, cb.char128, Char128, cb.char128Num, j);
    } else {
      RowsAtIndex(t, cb.char16, Char16, cb.char16Num, j);
    }
  }

  function CharTableOf(c: CachedSrv, wide: bool): seq<Row> { if wide then c.char128 else c.char16 }

  lemma {:induction false} RowsAtChars(t: seq<u8>, o: nat, k: TableKind, n: nat)
    requires n == 0 || o + Span(n, k) <= |t|
    requires k == Char16 || k == Char128
    ensures AllChars(RowsAt(t, o, k, n))
    decreases n
  {
    hide HdrAt, U16At, UuidAt;
    if n > 0 { RowsAtChars(t, o + Width(k), k, n - 1); }
  }

  // ----- By UUID -----

  method GetSrvNum(r: Record, u: Uuid) returns (num: u8)
    requires Walkable(r)
    ensures num == CountTag(SrvTags(r.View()), u)
  {
    hide CountTag, SrvTags, SrvHas, TypedSrv, Record.View;
    ghost var cs := r.View();
    ghost var ts := SrvTags(cs);
    SameLength(r);
    CountNone(u);
    assert ts[..0] == [];
    num := 0;
    var i := 0;
    while i < |r.srvList|
      invariant i <= |r.srvList| == |cs| && num == CountTag(ts[..i], u)
    {
      HasIsEqual(cs, i, u);
      CountNext(ts, i, u);
      var s := SrvOf(r, i);
      if SrvHas(s, u) {
        num := To8(num + 1);
      }
      i := i + 1;
    }
    assert ts[..i] == ts;
  }

  lemma SameLength(r: Record)
    requires r.Valid()
    ensures |r.View()| == |r.srvList|
  {
  }

  method FindSrvByUuid(r: Record, u: Uuid, inst: u8) returns (i: nat)
    requires Walkable(r)
    ensures i == FindTag(SrvTags(r.View()), u, inst)
  {
    hide SrvTags, SrvHas, TypedSrv, Record.View;
    ghost var cs := r.View();
    SameLength(r);
    i := 0;
    while i < |r.srvList|
      invariant i <= |r.srvList| == |cs|
      invariant forall j :: 0 <= j < i ==> SrvTags(cs)[j] != Tag(u, inst)
    {
      HasIsEqual(cs, i, u);
      var s := SrvOf(r, i);
      if SrvHas(s, u) && s.hdr.inst == inst {
        return;
      }
      i := i + 1;
    }
  }

  method FindCharByUuid(r: Record, i: nat, u: Uuid, inst: u8) returns (j: nat)
    requires r.Valid() && i < |r.srvList|
    ensures i < |r.View()| && AllChars(CharTable(r.View()[i], u))
    ensures j == FindTag(CharTags(CharTable(r.View()[i], u)), u, inst)
  {
    hide Record.View, CharTags;
    var n := CharNum(r, i, u.Long?);
    ghost var rs := CharTable(r.View()[i], u);
    j := 0;
    while j < n
      invariant j <= n == |rs|
      invariant forall k :: 0 <= k < j ==> CharTags(rs)[k] != Tag(u, inst)
    {
      var row := CharOf(r, i, u.Long?, j);
      if row.ch.hdr.inst == inst && row.ch.uuid == u {
        return;
      }
      j := j + 1;
    }
  }

  /** done: the client has a database. */
  method GetCharNum(r: Record, done: bool, srv: Uuid, inst: u8, u: Uuid) returns (num: u8)
    requires Walkable(r)
    ensures
      var i := FindTag(SrvTags(r.View()), srv, inst);
      if !done || i == |r.View()| then num == 0
      else AllChars(CharTable(r.View()[i], u)) && num == CountTag(CharTags(CharTable(r.View()[i], u)), u)
  {
    hide CountTag, CharTags, SrvTags, Record.View;
    if !done {
      return 0;
    }
    SameLength(r);
    var i := FindSrvByUuid(r, srv, inst);
    if i == |r.srvList| {
      return 0;
    }
    var n := CharNum(r, i, u.Long?);
    ghost var rs := CharTable(r.View()[i], u);
    ghost var ts := CharTags(rs);
    CountNone(u);
    assert ts[..0] == [];
    num := 0;
    var j := 0;
    while j < n
      invariant j <= n == |rs| && num == CountTag(ts[..j], u)
    {
      CountNext(ts, j, u);
      var row := CharOf(r, i, u.Long?, j);
      if row.ch.uuid == u {
        num := To8(num + 1);
      }
      j := j + 1;
    }
    assert ts[..j] == ts;
  }

  // ----- By handle -----

  method FindSrvByHandle(r: Record, h: u16) returns (i: nat)
    requires r.Valid() && |r.srvList| <= 255
    ensures i == FindSrvAt(r.View(), h)
  {
    hide Record.View;
    SameLength(r);
    ghost var cs := r.View();
    i := 0;
    while i < |r.srvList|
      invariant i <= |r.srvList| == |cs| && forall j :: 0 <= j < i ==> !Spans(cs[j].srv, h)
    {
      var s := SrvOf(r, i);
      if h >= s.hdr.handle && h <= s.endGroup {
        return;
      }
      i := i + 1;
    }
  }

  /** The kind of a handle for one characteristic. */
  method RoleOf(row: Row, h: u16) returns (role: Role)
    requires row.CharRow?
    ensures role == RoleIn(row, h)
  {
    role := Unknown;
    if h == row.ch.value {
      role := Value;
    } else if h == row.cccd.handle {
      role := Cccd;
    } else if h > row.ch.value && h <= row.ch.last {
      role := Descriptor;
    }
  }

  /** The first entry of a table the handle plays a role in. */
  method FirstWithRole(r: Record, i: nat, wide: bool, h: u16) returns (k: nat, f: Found)
    requires r.Valid() && i < |r.srvList|
    ensures i < |r.View()| && AllChars(CharTableOf(r.View()[i], wide))
    ensures
      var rs := CharTableOf(r.View()[i], wide);
      k == FindRole(rs, h) && f == if k < |rs| then Found(RoleIn(rs[k], h), rs[k].ch) else NotFound
  {
    hide Record.View, RoleIn;
    var n := CharNum(r, i, wide);
    ghost var rs := CharTableOf(r.View()[i], wide);
    f := NotFound;
    k := 0;
    while k < n
      invariant k <= n == |rs| && f == NotFound
      invariant forall x :: 0 <= x < k ==> RoleIn(rs[x], h) == Unknown
    {
      var row := CharOf(r, i, wide, k);
      var role := RoleOf(row, h);
      if role != Unknown {
        f := Found(role, row.ch);
        return;
      }
      k := k + 1;
    }
  }

  /** The 128-bit table is searched even after a match in the 16-bit one, with the match still standing. */
  method FindCharDesc(r: Record, i: nat, h: u16) returns (f: Found)
    requires r.Valid() && i < |r.srvList|
    ensures i < |r.View()| && CharTables(r.View()[i]) && f == CharDesc(r.View()[i], h)
  {
    hide Record.View, RoleIn;
    var n16 := CharNum(r, i, false);
    var n128 := CharNum(r, i, true);
    ghost var c := r.View()[i];
    f := NotFound;
    if h != 0 {
      var k, first := FirstWithRole(r, i, false, h);
      f := first;
      var j := 0;
      while j < n128
        invariant j <= n128 == |c.char128| && f == first
        invariant j > 0 ==> f == NotFound
        invariant forall x :: 0 <= x < j ==> RoleIn(c.char128[x], h) == Unknown
      {
        var row := CharOf(r, i, true, j);
        var here := RoleOf(row, h);
        if here != Unknown {
          f := Found(here, row.ch);
          break;
        }
        if f.Found? {
          f := Found(f.role, row.ch);
          break;
        }
        j := j + 1;
      }
    }
  }
}
