/** The table of CCCD values: a fixed number of (handle, bits) slots used as a map. */
module CccdTable {
  import opened Widths
  import opened Attributes
  import opened ServiceTable
  import opened TableLoad

  datatype Slot = Slot(handle: u16, bits: u16)

  /** Index of the first slot with this handle, or |s|. */
  function FindSlot(s: seq<Slot>, h: u16): (i: nat)
    ensures i <= |s|
    ensures i < |s| ==> s[i].handle == h
    ensures forall j :: 0 <= j < i ==> s[j].handle != h
  {
    if s == [] || s[0].handle == h then 0 else 1 + FindSlot(s[1..], h)
  }

  /** Zero for a handle that was never written. */
  function Lookup(s: seq<Slot>, h: u16): u16 {
    var i := FindSlot(s, h);
    if i < |s| then s[i].bits else 0
  }

  /** Overwrites the handle's slot, or takes the first free one, or does nothing. */
  function Store(s: seq<Slot>, h: u16, bits: u16): seq<Slot> {
    var i, free := FindSlot(s, h), FindSlot(s, 0);
    if i < |s| then s[i := Slot(h, bits)]
    else if free < |s| then s[free := Slot(h, bits)]
    else s
  }

  /** Used slots have distinct handles and come first. */
  ghost predicate SlotsOk(s: seq<Slot>) {
    forall i, j :: 0 <= i < j < |s| ==> (s[j].handle != 0 ==> s[i].handle != 0 && s[i].handle != s[j].handle)
  }

  /** Every handle in use is a CCCD handle of the database. */
  ghost predicate Within(s: seq<Slot>, hs: set<u16>) {
    forall i :: 0 <= i < |s| && s[i].handle != 0 ==> s[i].handle in hs
  }

  lemma StoreOk(s: seq<Slot>, h: u16, bits: u16, hs: set<u16>)
    requires SlotsOk(s) && Within(s, hs) && h != 0 && h in hs
    ensures SlotsOk(Store(s, h, bits)) && Within(Store(s, h, bits), hs)
    ensures |Store(s, h, bits)| == |s|
  {
    var i, free := FindSlot(s, h), FindSlot(s, 0);
    if i == |s| && free < |s| {
      var t := Store(s, h, bits);
      forall j | free < j < |s| ensures s[j].handle == 0 {}
    }
  }

  lemma {:induction false} DistinctBound(s: seq<Slot>, hs: set<u16>)
    requires SlotsOk(s) && Within(s, hs) && forall i :: 0 <= i < |s| ==> s[i].handle != 0
    ensures |s| <= |hs|
  {
    if s != [] {
      var n := |s| - 1;
      var t := s[..n];
      assert forall i :: 0 <= i < n ==> t[i] == s[i];
      DistinctBound(t, hs - {s[n].handle});
    }
  }

  /** By pigeonhole: a table with a slot for every CCCD handle always has room for one of them. */
  lemma AlwaysRoom(s: seq<Slot>, h: u16, hs: set<u16>)
    requires SlotsOk(s) && Within(s, hs) && h in hs && |hs| <= |s|
    ensures FindSlot(s, h) < |s| || FindSlot(s, 0) < |s|
  {
    if FindSlot(s, h) == |s| && FindSlot(s, 0) == |s| {
      DistinctBound(s, hs - {h});
      assert false;
    }
  }

  /** Get after set: the handle reads back what was written and every other handle reads as before. */
  lemma StoreThenLookup(s: seq<Slot>, h: u16, bits: u16, hs: set<u16>, g: u16)
    requires SlotsOk(s) && Within(s, hs) && h != 0 && h in hs && |hs| <= |s| && g != 0
    ensures Lookup(Store(s, h, bits), g) == if g == h then bits else Lookup(s, g)
  {
    AlwaysRoom(s, h, hs);
    StoreOk(s, h, bits, hs);
    var t := Store(s, h, bits);
    var i := if FindSlot(s, h) < |s| then FindSlot(s, h) else FindSlot(s, 0);
    assert t == s[i := Slot(h, bits)];
    if g != h {
      var k := FindSlot(s, g);
      if k < |s| { assert t[k].handle == g; }
      var m := FindSlot(t, g);
      if m < |t| { assert s[m].handle == g; }
    } else {
      assert t[i].handle == h;
      var m := FindSlot(t, h);
      assert m <= i;
    }
  }

  // ----- Runs of writes -----

  datatype Write = Write(handle: u16, bits: u16)

  function StoreAll(s: seq<Slot>, ws: seq<Write>): seq<Slot>
    decreases |ws|
  {
    if ws == [] then s else StoreAll(Store(s, ws[0].handle, ws[0].bits), ws[1..])
  }

  /** What a map would hold: the last value written to the handle, else what was there. */
  function LastWritten(ws: seq<Write>, h: u16, initial: u16): u16
    decreases |ws|
  {
    if ws == [] then initial
    else LastWritten(ws[1..], h, if ws[0].handle == h then ws[0].bits else initial)
  }

  function Zeroed(n: nat): (s: seq<Slot>)
    ensures |s| == n && forall i :: 0 <= i < n ==> s[i] == Slot(0, 0)
  {
    seq(n, _ => Slot(0, 0))
  }

  lemma {:induction false} NeverDrops(s: seq<Slot>, ws: seq<Write>, hs: set<u16>, g: u16)
    requires SlotsOk(s) && Within(s, hs) && |hs| <= |s| && g != 0
    requires forall w :: w in ws ==> w.handle != 0 && w.handle in hs
    ensures Lookup(StoreAll(s, ws), g) == LastWritten(ws, g, Lookup(s, g))
    ensures SlotsOk(StoreAll(s, ws))
    decreases |ws|
  {
    if ws != [] {
      var w := ws[0];
      assert w in ws;
      StoreOk(s, w.handle, w.bits, hs);
      StoreThenLookup(s, w.handle, w.bits, hs, g);
      NeverDrops(Store(s, w.handle, w.bits), ws[1..], hs, g);
    }
  }

  // ----- The table is big enough for the database it was made for -----

  function RowHandles(rs: seq<Row>): (hs: set<u16>)
    ensures |hs| <= CccdRows(rs)
  {
    if rs == [] then {}
    else
      var r := rs[|rs|-1];
      RowHandles(rs[..|rs|-1]) + if HasCccd(r) then {r.cccd.handle} else {}
  }

  function CccdHandles(cs: seq<CachedSrv>): (hs: set<u16>)
    ensures |hs| <= CccdCount(cs)
  {
    if cs == [] then {} else RowHandles(cs[0].char16) + RowHandles(cs[0].char128) + CccdHandles(cs[1..])
  }

  lemma {:induction false} RowHandlesHold(rs: seq<Row>, i: nat)
    requires i < |rs| && HasCccd(rs[i])
    ensures rs[i].cccd.handle in RowHandles(rs)
  {
    if i < |rs| - 1 {
      RowHandlesHold(rs[..|rs|-1], i);
    }
  }

  /** Every CCCD in a characteristic table of the database is among its CCCD handles. */
  lemma {:induction false} CccdHandlesHold(cs: seq<CachedSrv>, c: CachedSrv, r: Row)
    requires c in cs && (r in c.char16 || r in c.char128) && HasCccd(r)
    ensures r.cccd.handle in CccdHandles(cs)
  {
    if c == cs[0] {
      if r in c.char16 {
        var i :| 0 <= i < |c.char16| && c.char16[i] == r;
        RowHandlesHold(c.char16, i);
      } else {
        var i :| 0 <= i < |c.char128| && c.char128[i] == r;
        RowHandlesHold(c.char128, i);
      }
    } else {
      CccdHandlesHold(cs[1..], c, r);
    }
  }

  lemma ZeroedReads(n: nat, g: u16)
    requires g != 0
    ensures Lookup(Zeroed(n), g) == 0 && SlotsOk(Zeroed(n)) && forall hs :: Within(Zeroed(n), hs)
  {
  }

  /** The CCCD theorem: a table sized by the count that packing or loading computed, written only
      through CCCD handles of the database, behaves as a map and drops no write. */
  lemma CccdTableIsAMap(cs: seq<CachedSrv>, ws: seq<Write>, g: u16)
    requires CccdCount(cs) <= 255 && g != 0
    requires forall w :: w in ws ==> w.handle != 0 && w.handle in CccdHandles(cs)
    ensures Lookup(StoreAll(Zeroed(To8(CccdCount(cs))), ws), g) == LastWritten(ws, g, 0)
  {
    hide CccdCount, CccdHandles, StoreAll, LastWritten, Lookup, SlotsOk, Within, Zeroed;
    ZeroedReads(CccdCount(cs), g);
    NeverDrops(Zeroed(CccdCount(cs)), ws, CccdHandles(cs), g);
  }

  // ----- Saving and restoring the slots -----

  function OneSlot(s: Slot): (b: seq<u8>)
    ensures |b| == 4
  {
    [Lo(s.handle), Hi(s.handle), Lo(s.bits), Hi(s.bits)]
  }

  function SlotBytes(s: seq<Slot>): (b: seq<u8>)
    ensures |b| == 4 * |s|
  {
    if s == [] then [] else OneSlot(s[0]) + SlotBytes(s[1..])
  }

  function SlotAt(b: seq<u8>, i: nat): Slot
    requires 4 * i + 4 <= |b|
  {
    Slot(U16At(b, 4 * i), U16At(b, 4 * i + 2))
  }

  /** n zeroed slots with the saved bytes over them; nothing is restored if they do not fit. */
  function Restored(n: u8, saved: Option<seq<u8>>): (s: seq<Slot>)
    ensures |s| == n
  {
    if saved.Some? && |saved.value| <= 4 * n then
      var b := saved.value + seq(4 * n - |saved.value|, _ => 0);
      seq(n, i requires 0 <= i < n => SlotAt(b, i))
    else Zeroed(n)
  }

  lemma SlotShift(x: seq<u8>, c: seq<u8>, i: nat)
    requires |x| == 4 && 4 * i + 4 <= |c|
    ensures SlotAt(x + c, i + 1) == SlotAt(c, i)
  {
    var b := x + c;
    assert b[4 * (i + 1)] == c[4 * i] && b[4 * (i + 1) + 1] == c[4 * i + 1];
    assert b[4 * (i + 1) + 2] == c[4 * i + 2] && b[4 * (i + 1) + 3] == c[4 * i + 3];
  }

  lemma SlotHead(s: Slot, c: seq<u8>)
    ensures SlotAt(OneSlot(s) + c, 0) == s
  {
    var b := OneSlot(s) + c;
    assert b[0] == Lo(s.handle) && b[1] == Hi(s.handle) && b[2] == Lo(s.bits) && b[3] == Hi(s.bits);
  }

  lemma {:induction false} SlotBack(s: seq<Slot>, rest: seq<u8>, i: nat)
    requires i < |s|
    ensures SlotAt(SlotBytes(s) + rest, i) == s[i]
  {
    hide SlotAt, OneSlot;
    var c := SlotBytes(s[1..]) + rest;
    assert SlotBytes(s) + rest == OneSlot(s[0]) + c;
    if i == 0 {
      SlotHead(s[0], c);
    } else {
      SlotBack(s[1..], rest, i - 1);
      SlotShift(OneSlot(s[0]), c, i - 1);
    }
  }

  /** Saved slots come back, followed by empty ones. */
  lemma RestoredBack(n: u8, s: seq<Slot>)
    requires |s| <= n
    ensures Restored(n, Some(SlotBytes(s))) == s + Zeroed(n - |s|)
  {
    hide SlotBytes;
    var z := seq(4 * n - 4 * |s|, _ => 0);
    var b := SlotBytes(s) + z;
    var r := Restored(n, Some(SlotBytes(s)));
    forall i | 0 <= i < n ensures r[i] == (s + Zeroed(n - |s|))[i] {
      assert r[i] == SlotAt(b, i);
      if i < |s| { SlotBack(s, z, i); }
    }
  }

  lemma NothingRestored(n: u8)
    ensures Restored(n, None) == Zeroed(n)
  {
  }

  /** Slots made for this database: as many as it has CCCDs, empty or saved for the same database. */
  ghost predicate SlotsFor(db: seq<CachedSrv>, slots: seq<Slot>) {
    CccdCount(db) <= 255 && |slots| == To8(CccdCount(db)) && SlotsOk(slots) && Within(slots, CccdHandles(db))
  }

  /** The bytes are those of well-formed slots that only hold handles of this database. */
  ghost predicate SavedFor(db: seq<CachedSrv>, b: seq<u8>) {
    exists s :: b == SlotBytes(s) && SlotsOk(s) && Within(s, CccdHandles(db))
  }

  /** The slots of a fresh table, or restored from bytes saved for its database, are made for it. */
  lemma RestoredFor(db: seq<CachedSrv>, saved: Option<seq<u8>>)
    requires CccdCount(db) <= 255 && (saved.Some? ==> SavedFor(db, saved.value))
    ensures SlotsFor(db, Restored(To8(CccdCount(db)), saved))
  {
    hide CccdCount, CccdHandles, SlotBytes, Restored;
    var n := CccdCount(db);
    if saved.Some? {
      var s :| saved.value == SlotBytes(s) && SlotsOk(s) && Within(s, CccdHandles(db));
      if |s| <= n {
        RestoredBack(n, s);
      } else {
        TooLong(n, saved.value);
      }
    } else {
      NothingRestored(n);
    }
  }

  lemma TooLong(n: u8, b: seq<u8>)
    requires |b| > 4 * n
    ensures Restored(n, Some(b)) == Zeroed(n)
  {
  }
}
