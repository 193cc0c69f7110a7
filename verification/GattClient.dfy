/** Configuring CCCDs on one link, in place: the requests go through the link's scheduler, their answers
    into the record's CCCD slots. */
module GattClient {
  import opened Widths
  import opened Attributes
  import opened ServiceTable
  import opened TableLoad
  import opened CccdTable
  import opened DiscoveryList
  import opened Queries
  import opened Storage
  import opened TableQueries
  import opened GattcLink
  import opened CccdConfig
  import S = Scheduler

  class Configurator {
    const link: Link
    const record: Record
    var done: bool
    ghost var base: seq<Slot>
    ghost var stored: seq<Write>

    constructor (link: Link, record: Record)
      ensures this.link == link && this.record == record && !done && base == [] && stored == []
    {
      this.link, this.record, done, base, stored := link, record, false, [], [];
    }

    ghost predicate Valid()
      reads this, link, record, record.table
    {
      link.Valid() && Walkable(record)
    }

    ghost function View(): Client
      reads this, link, record, record.table, record.slots
      requires record.Valid()
    {
      Client(link.View(), record.View(), done, record.keepCccd, record.Slots(), base, stored)
    }

    /** Discovery is complete: the database comes with empty slots. */
    method FinishDiscovery()
      requires record.Valid() && !done && ListOk(record.disList) && Fits(record.disList)
      modifies this, record
      ensures record.Valid() && View() == Got(old(View()), Cache(old(record.disList)), None)
    {
      hide ListOk, Fits, Cache, Pack, Layout, CccdCount, ReadAll, AllInTable, To8, Restored;
      var ok := record.SrvListGen();
      done := true;
      base, stored := record.Slots(), [];
    }

    /** The stored table comes instead, with the slots restored from what was saved. */
    method LoadFromStorage(hashCheck: bool, store: Keeper, saved: Option<seq<u8>>) returns (loaded: bool)
      requires record.Valid() && !done
      requires Fetch(store, hashCheck).Fetched? ==> |Fetch(store, hashCheck).data| <= 0xFFFF
      modifies this, record
      ensures record.Valid()
      ensures if loaded then View() == Got(old(View()), record.View(), saved) else !done && link.View() == old(link.View())
    {
      hide Parse, ReadAll, CccdCount, AllInTable, To8, Restored;
      var error := record.Load(hashCheck, store, saved);
      loaded := error == None;
      if loaded {
        done := true;
        base, stored := record.Slots(), [];
      }
    }

    /** One characteristic table: a request for each entry that is chosen. */
    method Select(i: nat, wide: bool, ch: Option<Uuid>, cfg: u8) returns (rs: seq<S.NewReq>)
      requires record.Valid() && i < |record.srvList|
      ensures i < |record.View()| && rs == Requests(Selected(CharTableOf(record.View()[i], wide), ch, cfg))
    {
      hide Record.View, CccdBits, Selected, Requests;
      var n := CharNum(record, i, wide);
      ghost var rows := CharTableOf(record.View()[i], wide);
      NoneSelected(ch, cfg);
      assert rows[..0] == [];
      rs := [];
      var j := 0;
      while j < n
        invariant j <= n == |rows| && rs == Requests(Selected(rows[..j], ch, cfg))
      {
        var row := CharOf(record, i, wide, j);
        SelectedNext(rows, j, ch, cfg);
        if ch.None? || row.ch.uuid == ch.value {
          if row.cccd.handle != 0 {
            var bits := CccdBits(row.ch.props, cfg);
            if bits.Some? {
              rs := rs + [S.NewReq(S.Cccd(bits.value), row.cccd.handle)];
            }
          }
        }
        j := j + 1;
      }
      assert rows[..j] == rows;
    }

    /** The requests that configure a service, or those of its characteristics with one UUID. */
    method Collect(i: nat, ch: Option<Uuid>, cfg: u8) returns (rs: seq<S.NewReq>)
      requires record.Valid() && i < |record.srvList|
      ensures i < |record.View()| && rs == Requests(Enabling(record.View()[i], ch, cfg))
    {
      hide Record.View, Selected, Requests;
      SameLength(record);
      var narrow, wide: seq<S.NewReq> := [], [];
      NoneSelected(ch, cfg);
      if ch.None? || ch.value.Short? {
        narrow := Select(i, false, ch, cfg);
      }
      if ch.None? || ch.value.Long? {
        wide := Select(i, true, ch, cfg);
      }
      rs := narrow + wide;
      ghost var c := record.View()[i];
      RequestsConcat(if ch.None? || ch.value.Short? then Selected(c.char16, ch, cfg) else [],
                     if ch.None? || ch.value.Long? then Selected(c.char128, ch, cfg) else []);
    }

    /** found tells whether the service is known. */
    method EnableCharCccd(srv: Uuid, inst: u8, ch: Option<Uuid>, cfg: u8, accept: S.Answers) returns (found: bool)
      requires Valid() && |link.reqList| + |CccdConfig.Wanted(View(), srv, inst, ch, cfg)| <= 255
      modifies link
      ensures Valid() && View() == Enable(old(View()), srv, inst, ch, cfg, accept)
      ensures found == (done && FindTag(SrvTags(record.View()), srv, inst) < |record.View()|)
    {
      hide Record.View, Record.Valid, Record.Slots, Walkable, Enabling, SrvTags, FindTag, S.Submit, Requests;
      WalkableValid(record);
      SameLength(record);
      if !done {
        return false;
      }
      var i := FindSrvByUuid(record, srv, inst);
      if i == |record.srvList| {
        return false;
      }
      var rs := Collect(i, ch, cfg);
      RequestsLength(CccdConfig.Wanted(View(), srv, inst, ch, cfg));
      if rs != [] {
        link.Submit(rs, accept);
      }
      found := true;
    }

    /** The answer to a write request: a CCCD's bits are stored if the server took them. */
    method HandleWriteResult(handle: u16, cid: u16, failed: bool, accept: S.Answers)
      requires Valid()
      modifies this`stored, link, record.slots
      ensures record.Valid() && link.Valid()
      ensures View() == OnBearer(old(View()), S.Response(handle, cid, false, failed), accept)
    {
      hide Record.View, S.Step, Store, S.Finish, S.Dispatch;
      var i := link.FindWaitRsp(handle, cid, false, failed);
      if i < |link.waitList| {
        var r := link.waitList[i];
        if r.kind.Cccd? && record.keepCccd && !failed {
          StoreNothing(r.handle, r.kind.bits);
          var changed := record.SetCccdData(r.handle, r.kind.bits);
          stored := stored + [Write(r.handle, r.kind.bits)];
        }
      }
      link.HandleResponse(handle, cid, false, failed, accept);
    }
  }

  lemma WalkableValid(r: Record)
    requires Walkable(r)
    ensures r.Valid()
  {
  }

  lemma StoreNothing(h: u16, bits: u16)
    ensures Store([], h, bits) == []
  {
  }

  lemma NoneSelected(ch: Option<Uuid>, cfg: u8)
    ensures Selected([], ch, cfg) == [] && Requests([]) == []
  {
  }

  lemma SelectedNext(rows: seq<Row>, j: nat, ch: Option<Uuid>, cfg: u8)
    requires j < |rows|
    ensures Selected(rows[..j+1], ch, cfg) ==
      Selected(rows[..j], ch, cfg) + if Chosen(rows[j], ch, cfg) then [WriteOf(rows[j], cfg)] else []
    ensures Requests(Selected(rows[..j+1], ch, cfg)) ==
      Requests(Selected(rows[..j], ch, cfg)) + Requests(if Chosen(rows[j], ch, cfg) then [WriteOf(rows[j], cfg)] else [])
    ensures Requests([WriteOf(rows[j], cfg)]) == [S.NewReq(S.Cccd(WriteOf(rows[j], cfg).bits), WriteOf(rows[j], cfg).handle)]
    ensures Requests([]) == []
  {
    hide CccdBits, WriteOf, Chosen;
    assert rows[..j+1][..j] == rows[..j];
    RequestsConcat(Selected(rows[..j], ch, cfg), if Chosen(rows[j], ch, cfg) then [WriteOf(rows[j], cfg)] else []);
  }

  lemma RequestsConcat(a: seq<Write>, b: seq<Write>)
    ensures Requests(a + b) == Requests(a) + Requests(b)
  {
    hide Requests;
  }

  lemma RequestsLength(ws: seq<Write>)
    ensures |Requests(ws)| == |ws|
  {
  }
}
