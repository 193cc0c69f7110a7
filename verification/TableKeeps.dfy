/** What the cached database keeps of what was discovered, said of the discovered records themselves. */
module TableKeeps {
  import opened Widths
  import opened Attributes
  import opened ServiceTable
  import opened DiscoveryList
  import opened TableLoad

  /** The entry carries the characteristic and its CCCD.  It ends at the last descriptor reported, no
      further than the end computed for it; without descriptors, at its value. */
  ghost predicate KeepsChar(r: Row, c: DisChar) {
    r.CharRow? && r.cccd == c.cccd &&
    r.ch.hdr == c.ch.hdr && r.ch.props == c.ch.props && r.ch.value == c.ch.value && r.ch.uuid == c.ch.uuid &&
    (c.descEnd == 0 ==> r.ch.last == c.ch.value) &&
    (c.descEnd != 0 ==> r.ch.last <= c.descEnd && r.ch.last <= c.ch.last && (r.ch.last == c.descEnd || r.ch.last == c.ch.last))
  }

  /** Positions below n in increasing order. */
  ghost predicate Positions(at: seq<nat>, n: nat) {
    (forall k :: 0 <= k < |at| ==> at[k] < n) && forall j, k :: 0 <= j < k < |at| ==> at[j] < at[k]
  }

  /** The entries are the characteristics of one UUID width, each once and in order. */
  ghost predicate CharsAt(rs: seq<Row>, cs: seq<DisChar>, long: bool, at: seq<nat>) {
    Positions(at, |cs|) && |at| == |rs| &&
    (forall k :: 0 <= k < |at| ==> KeepsChar(rs[k], cs[at[k]]) && cs[at[k]].ch.uuid.Long? == long) &&
    forall i :: 0 <= i < |cs| && cs[i].ch.uuid.Long? == long ==> i in at
  }

  ghost predicate CharsKept(rs: seq<Row>, cs: seq<DisChar>, long: bool) {
    exists at :: CharsAt(rs, cs, long, at)
  }

  ghost predicate IncsAt(rs: seq<Row>, incs: seq<Inc>, long: bool, at: seq<nat>) {
    Positions(at, |incs|) && |at| == |rs| &&
    (forall k :: 0 <= k < |at| ==> rs[k] == IncRow(incs[at[k]]) && incs[at[k]].uuid.Long? == long) &&
    forall i :: 0 <= i < |incs| && incs[i].uuid.Long? == long ==> i in at
  }

  ghost predicate IncsKept(rs: seq<Row>, incs: seq<Inc>, long: bool) {
    exists at :: IncsAt(rs, incs, long, at)
  }

  ghost predicate KeepsSrv(d: DisSrv, c: CachedSrv) {
    c.srv == d.srv && c.spec == d.spec &&
    IncsKept(c.inc16, d.incs, false) && IncsKept(c.inc128, d.incs, true) &&
    CharsKept(c.char16, d.chars, false) && CharsKept(c.char128, d.chars, true)
  }

  /** The cached services are the discovered ones, in order, with all they have. */
  ghost predicate KeepsDb(db: seq<DisSrv>, cs: seq<CachedSrv>) {
    |cs| == |db| && forall i :: 0 <= i < |db| ==> KeepsSrv(db[i], cs[i])
  }

  /** How many of the discovered characteristics have a CCCD. */
  function CharsWithCccd(cs: seq<DisChar>): nat {
    if cs == [] then 0 else CharsWithCccd(cs[..|cs|-1]) + if cs[|cs|-1].cccd.handle != 0 then 1 else 0
  }

  function WithCccd(db: seq<DisSrv>): nat {
    if db == [] then 0 else CharsWithCccd(db[0].chars) + WithCccd(db[1..])
  }

  // ----- The split over the two tables keeps them -----

  lemma SettleKeeps(c: DisChar)
    ensures KeepsChar(Settle(c), c) && (KindOf(Settle(c)) == if c.ch.uuid.Long? then Char128 else Char16)
  {
  }

  lemma {:induction false} PickChars(cs: seq<DisChar>, k: TableKind) returns (at: seq<nat>)
    requires k == Char16 || k == Char128
    ensures CharsAt(Pick(CharRows(cs), k), cs, k == Char128, at)
  {
    hide KeepsChar, CharRows, CharsAt, Pick, Settle;
    if cs == [] {
      at := [];
      NoChars(k);
      NothingKept(k == Char128);
    } else {
      var n := |cs| - 1;
      at := PickChars(cs[..n], k);
      CharRowsLast(cs);
      PickSnoc(CharRows(cs[..n]), Settle(cs[n]), k);
      SettleKeeps(cs[n]);
      CharsNext(Pick(CharRows(cs[..n]), k), cs, k == Char128, at, Settle(cs[n]));
      assert Pick(CharRows(cs[..n]), k) + [] == Pick(CharRows(cs[..n]), k);
      if KindOf(Settle(cs[n])) == k { at := at + [n]; }
    }
  }

  /** One more characteristic is left out or put at the end. */
  lemma CharsNext(rs: seq<Row>, cs: seq<DisChar>, long: bool, at: seq<nat>, r: Row)
    requires cs != [] && CharsAt(rs, cs[..|cs|-1], long, at) && KeepsChar(r, cs[|cs|-1])
    ensures
      if cs[|cs|-1].ch.uuid.Long? == long then CharsAt(rs + [r], cs, long, at + [|cs| - 1]) else CharsAt(rs, cs, long, at)
  {
    hide KeepsChar;
    var n := |cs| - 1;
    var all := at + [n];
    forall i | 0 <= i < |cs| && cs[i].ch.uuid.Long? == long ensures i in all && (i < n ==> i in at) {
      if i < n {
        assert cs[..n][i] == cs[i];
        var k :| 0 <= k < |at| && at[k] == i;
        assert all[k] == i;
      } else {
        assert all[|at|] == i;
      }
    }
    assert forall k :: 0 <= k < |at| ==> cs[..n][at[k]] == cs[at[k]];
  }

  lemma NothingKept(long: bool)
    ensures CharsAt([], [], long, []) && IncsAt([], [], long, [])
  {
  }

  lemma NoChars(k: TableKind)
    ensures Pick(CharRows([]), k) == [] && Pick(IncRows([]), k) == []
  {
  }

  lemma CharRowsLast(cs: seq<DisChar>)
    requires cs != []
    ensures CharRows(cs) == CharRows(cs[..|cs|-1]) + [Settle(cs[|cs|-1])]
  {
    CharRowsSnoc(cs[..|cs|-1], cs[|cs|-1]);
    assert cs == cs[..|cs|-1] + [cs[|cs|-1]];
  }

  lemma {:induction false} PickIncs(incs: seq<Inc>, k: TableKind) returns (at: seq<nat>)
    requires k == Inc16 || k == Inc128
    ensures IncsAt(Pick(IncRows(incs), k), incs, k == Inc128, at)
  {
    hide IncRows, IncsAt, Pick;
    if incs == [] {
      at := [];
      NoChars(k);
      NothingKept(k == Inc128);
    } else {
      var n := |incs| - 1;
      at := PickIncs(incs[..n], k);
      IncRowsLast(incs);
      PickSnoc(IncRows(incs[..n]), IncRow(incs[n]), k);
      IncsNext(Pick(IncRows(incs[..n]), k), incs, k == Inc128, at);
      assert Pick(IncRows(incs[..n]), k) + [] == Pick(IncRows(incs[..n]), k);
      if KindOf(IncRow(incs[n])) == k { at := at + [n]; }
    }
  }

  lemma IncsNext(rs: seq<Row>, incs: seq<Inc>, long: bool, at: seq<nat>)
    requires incs != [] && IncsAt(rs, incs[..|incs|-1], long, at)
    ensures
      var n := |incs| - 1;
      if incs[n].uuid.Long? == long then IncsAt(rs + [IncRow(incs[n])], incs, long, at + [n]) else IncsAt(rs, incs, long, at)
  {
    var n := |incs| - 1;
    var all := at + [n];
    forall i | 0 <= i < |incs| && incs[i].uuid.Long? == long ensures i in all && (i < n ==> i in at) {
      if i < n {
        assert incs[..n][i] == incs[i];
        var k :| 0 <= k < |at| && at[k] == i;
        assert all[k] == i;
      } else {
        assert all[|at|] == i;
      }
    }
    assert forall k :: 0 <= k < |at| ==> incs[..n][at[k]] == incs[at[k]];
  }

  lemma IncRowsLast(incs: seq<Inc>)
    requires incs != []
    ensures IncRows(incs) == IncRows(incs[..|incs|-1]) + [IncRow(incs[|incs|-1])]
  {
    IncRowsSnoc(incs[..|incs|-1], incs[|incs|-1]);
    assert incs == incs[..|incs|-1] + [incs[|incs|-1]];
  }

  lemma SrvKept(d: DisSrv)
    ensures KeepsSrv(d, Cached(d))
  {
    hide Positions, KeepsChar, Pick, IncRows, CharRows, IncsAt, CharsAt;
    var a := PickIncs(d.incs, Inc16);
    var b := PickIncs(d.incs, Inc128);
    var p := PickChars(d.chars, Char16);
    var q := PickChars(d.chars, Char128);
  }

  // ----- Counting CCCDs -----

  lemma QueueKinds(d: DisSrv)
    ensures forall r :: r in IncRows(d.incs) ==> KindOf(r) == Inc16 || KindOf(r) == Inc128
    ensures forall r :: r in CharRows(d.chars) ==> KindOf(r) == Char16 || KindOf(r) == Char128
  {
  }

  lemma CccdRowsSnoc(rs: seq<Row>, r: Row)
    ensures CccdRows(rs + [r]) == CccdRows(rs) + if HasCccd(r) then 1 else 0
  {
    assert (rs + [r])[..|rs|] == rs;
  }

  /** Splitting the characteristics over the two tables keeps the number of CCCDs. */
  lemma {:induction false} CccdSplit(rs: seq<Row>)
    requires forall r :: r in rs ==> KindOf(r) == Char16 || KindOf(r) == Char128
    ensures CccdRows(rs) == CccdRows(Pick(rs, Char16)) + CccdRows(Pick(rs, Char128))
  {
    if rs != [] {
      var init, r := rs[..|rs|-1], rs[|rs|-1];
      assert rs == init + [r] && r in rs;
      CccdRowsSnoc(init, r);
      hide CccdRows, Pick, KindOf, HasCccd;
      CccdSplit(init);
      PickSnoc(init, r, Char16);
      PickSnoc(init, r, Char128);
      if KindOf(r) == Char16 {
        CccdRowsSnoc(Pick(init, Char16), r);
        assert Pick(rs, Char128) == Pick(init, Char128);
      } else {
        CccdRowsSnoc(Pick(init, Char128), r);
        assert Pick(rs, Char16) == Pick(init, Char16);
      }
    }
  }

  lemma SrvCccds(d: DisSrv)
    ensures CccdRows(CharRows(d.chars)) == CccdRows(Cached(d).char16) + CccdRows(Cached(d).char128)
  {
    QueueKinds(d);
    CccdSplit(CharRows(d.chars));
  }

  lemma {:induction false} CharsCounted(cs: seq<DisChar>)
    ensures CccdRows(CharRows(cs)) == CharsWithCccd(cs)
  {
    if cs != [] {
      var n := |cs| - 1;
      hide CharRows, CccdRows;
      CharsCounted(cs[..n]);
      CharRowsLast(cs);
      CccdRowsSnoc(CharRows(cs[..n]), Settle(cs[n]));
    } else {
      NoChars(Char16);
    }
  }

  lemma {:induction false} CccdsCounted(db: seq<DisSrv>)
    ensures CccdCount(Cache(db)) == WithCccd(db)
  {
    hide CharRows, CccdRows, CharsWithCccd, Cached;
    if db != [] {
      SrvCccds(db[0]);
      CharsCounted(db[0].chars);
      CccdsCounted(db[1..]);
    }
  }

  /** The keeping theorem: the cached database has the services of the list in order, and of each all
      includes and all characteristics with their CCCDs, split by UUID width and otherwise unchanged;
      the number of CCCDs is that of the discovered characteristics that have one. */
  lemma CacheKeeps(db: seq<DisSrv>)
    ensures KeepsDb(db, Cache(db)) && CccdCount(Cache(db)) == WithCccd(db)
  {
    hide KeepsSrv, Cached;
    CccdsCounted(db);
    forall i | 0 <= i < |db| ensures KeepsSrv(db[i], Cache(db)[i]) { SrvKept(db[i]); }
  }

  /** So what is packed and loaded again is the discovered database: loading succeeds, reads it back with
      all it has, and counts the characteristics that have a CCCD. */
  lemma LoadKeeps(cfg: Config, db: seq<DisSrv>)
    requires ListOk(db) && Fits(db) && Bound(cfg, db)
    ensures
      var p := Parse(cfg, Pack(Cache(db)), 0);
      p.Good? && KeepsDb(db, ReadAll(Pack(Cache(db)), p.cbs)) && p.cccds == WithCccd(db)
  {
    hide ListOk, Fits, Bound, Cache, Pack, Layout, Parse, ReadAll, KeepsDb, WithCccd, CccdCount;
    CacheRefinement(cfg, db);
    CacheKeeps(db);
  }
}
