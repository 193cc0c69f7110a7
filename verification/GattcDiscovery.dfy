/** The discovery half of the client, updated in place on the per-link record. */
module GattcDiscovery {
  import opened Widths
  import opened Attributes
  import opened ServiceTable
  import opened DiscoveryList
  import opened IncludeLoop
  import opened Queries
  import opened TableLoad
  import opened CccdTable
  import opened Storage
  import W = DiscoveryWalk

  class Discovery {
    const record: Record
    var curr: Option<nat>
    var state: W.Outcome
    var calls: seq<W.Call>

    constructor (record: Record)
      ensures this.record == record && curr == None && state == W.Idle && calls == []
    {
      this.record, curr, state, calls := record, None, W.Idle, [];
    }

    ghost function View(): W.Walk
      reads this, record
    {
      W.Walk(record.disList, curr, state, calls)
    }

    /** What the last step meant for the walk: it failed, is complete, or has asked for procedure. */
    ghost predicate Came(v: W.Walk, ok: bool, cmpl: bool)
      reads this, record
    {
      if !ok then v == W.Fail(View())
      else if cmpl then v == W.Complete(View()) && curr == None
      else v == View()
    }

    /** Gives the stack a procedure; accept answers for it. */
    method Request(c: W.Call, k: nat, accept: W.Answers) returns (ok: bool)
      modifies this`calls, this`curr
      ensures ok == accept(|old(calls)|)
      ensures calls == (if ok then old(calls) + [c] else old(calls)) && curr == if ok then Some(k) else old(curr)
      ensures (if ok then View() else W.Fail(View())) == W.Ask(old(View()), c, k, accept)
    {
      ok := accept(|calls|);
      if ok {
        calls := calls + [c];
        curr := Some(k);
      }
    }

    method DisNextSecondaryService(accept: W.Answers) returns (ok: bool, cmpl: bool)
      modifies this`calls, this`curr
      ensures Came(W.NextSecondary(old(View()), accept), ok, cmpl)
    {
      cmpl := false;
      if curr.None? {
        return false, cmpl;
      }
      var k := curr.value + 1;
      if k < |record.disList| {
        var d := record.disList[k];
        if IsSecondary(d.srv) {
          ok := Request(W.Chars(d.srv.hdr.handle, d.srv.endGroup), k, accept);
          return;
        }
        return false, cmpl;
      }
      curr := None;
      return true, true;
    }

    method DisNextService(accept: W.Answers) returns (ok: bool, cmpl: bool)
      requires Roomy(record.cfg, record.disList)
      requires curr.Some? ==> curr.value < |record.disList|
      modifies this`calls, this`curr, record`disList
      ensures Came(W.NextService(record.cfg, old(View()), accept), ok, cmpl)
    {
      hide ListOk, AddSecondary;
      cmpl := false;
      var k := if curr.None? then 0 else curr.value + 1;
      if k < |record.disList| {
        var d := record.disList[k];
        ok := Request(W.Relations(d.srv.hdr.handle, d.srv.endGroup), k, accept);
        return;
      }
      var n := |record.disList|;
      SecondaryClosure(record.cfg, record.disList);
      var isExist := record.AddSecondaryService();
      if isExist {
        curr := if n == 0 then None else Some(n - 1);
        EmptyAddsNothing(record.cfg);
        ok, cmpl := DisNextSecondaryService(accept);
      } else {
        curr := None;
        ok, cmpl := true, true;
      }
    }

    /** The loop over the current service's characteristics from the cursor on: each gets its end
        handle, and the first with room for descriptors is asked about. */
    method CloseChars(k: nat, from: u16) returns (j: nat)
      requires k < |record.disList| && |record.disList[k].chars| <= 255 && from <= |record.disList[k].chars|
      modifies record`disList
      ensures
        var d := old(record.disList)[k];
        var (e, n) := W.CloseFrom(d.(cursor := from), from);
        j == n <= |e.chars| <= 255 && record.disList == old(record.disList)[k := e]
    {
      var d := record.disList[k].(cursor := from);
      ghost var goal := W.CloseFrom(d, from);
      W.CloseKeepsLength(d, from);
      j := from;
      while j < |d.chars|
        invariant from <= j <= |d.chars| <= 255 && W.CloseFrom(d, j) == goal
        decreases |d.chars| - j
      {
        var c := d.chars[j];
        var first := To16(c.ch.value + 1);
        var last: u16;
        if j == |d.chars| - 1 {
          last := d.srv.endGroup;
        } else {
          last := To16(d.chars[j+1].ch.value - 2);
        }
        var ch := c.ch.(last := last);
        if first > last {
          if W.Notifies(ch.props) {
            ch := ch.(props := W.Silenced(ch.props));
          }
        }
        ghost var before := d;
        d := d.(chars := d.chars[j := c.(ch := ch)]);
        assert d == W.Close(before, j);
        if first <= last {
          assert goal == (d, j);
          break;
        }
        j := j + 1;
      }
      record.disList := record.disList[k := d];
    }

    /** The current service is through: a secondary one follows a secondary one. */
    method DisAfterService(accept: W.Answers) returns (ok: bool, cmpl: bool)
      requires Roomy(record.cfg, record.disList) && curr.Some? && curr.value < |record.disList|
      modifies this`calls, this`curr, record`disList
      ensures Came(W.AfterService(record.cfg, old(View()), accept), ok, cmpl)
    {
      hide Roomy, W.NextSecondary, W.NextService;
      if IsPrimary(record.disList[curr.value].srv) {
        ok, cmpl := DisNextService(accept);
      } else {
        ok, cmpl := DisNextSecondaryService(accept);
      }
    }

    method DisNextDesc(start: bool, accept: W.Answers) returns (ok: bool, cmpl: bool)
      requires curr.Some? && curr.value < |record.disList| && |record.disList[curr.value].chars| <= 255
      requires !start ==> record.disList[curr.value].cursor < |record.disList[curr.value].chars|
      requires
        var d := record.disList[curr.value];
        Roomy(record.cfg, ClosedAt(record.disList, curr.value, if start then 0 else d.cursor + 1))
      modifies this`calls, this`curr, record`disList
      ensures Came(W.NextDesc(record.cfg, old(View()), start, accept), ok, cmpl)
    {
      hide Roomy, W.CloseFrom, W.AfterService, W.Ask, W.Fail, W.Complete, EndOf;
      cmpl := false;
      var k := curr.value;
      var d := record.disList[k];
      if d.chars != [] {
        var from: u16 := if start then 0 else d.cursor + 1;
        var j := CloseChars(k, from);
        var e := record.disList[k];
        if j < |e.chars| {
          var f := e.(cursor := j);
          var first := To16(e.chars[j].ch.value + 1);
          record.disList := record.disList[k := f];
          ok := Request(W.Descs(first, EndOf(e, j)), k, accept);
          assert record.disList == old(record.disList)[k := f];
          return;
        }
      }
      CloseKeepsSrv(d, start);
      ok, cmpl := DisAfterService(accept);
    }

    /** Asks for the next procedure after the one that is done. */
    method Advance(accept: W.Answers) returns (ok: bool, cmpl: bool)
      requires W.WalkOk(record.cfg, View()) && state == W.Discovering && W.Small(record.cfg, View())
      modifies this`calls, this`curr, record`disList
      ensures Came(W.Done(record.cfg, old(View()), accept), ok, cmpl)
    {
      hide Roomy, ClosedAt, W.Done, W.NextService, W.NextDesc, W.WalkOk, W.Small, W.Fail, W.Complete, W.Ask;
      ClosingOk(record.cfg, View());
      PendingIsPlaced(record.cfg, View());
      DoneCase(record.cfg, View(), accept);
      cmpl := false;
      var c := calls[|calls|-1];
      match c {
        case Services =>
          ok, cmpl := DisNextService(accept);
        case Relations(_, _) =>
          var d := record.disList[curr.value];
          ok := Request(W.Chars(d.srv.hdr.handle, d.srv.endGroup), curr.value, accept);
        case Chars(_, _) =>
          ok, cmpl := DisNextDesc(true, accept);
        case Descs(_, _) =>
          ok, cmpl := DisNextDesc(false, accept);
      }
    }

    /** The stack reports that the running procedure is done.  wrote is the table given to storage,
        report what the application is told: complete, failed, or nothing yet. */
    method HandleDone(accept: W.Answers) returns (wrote: Option<seq<u8>>, report: Option<bool>)
      requires record.Valid() && W.WalkOk(record.cfg, View()) && state == W.Discovering && W.Small(record.cfg, View())
      requires var v := W.Done(record.cfg, View(), accept); v.state == W.Finished ==> Fits(v.db)
      modifies this, record
      ensures record.Valid()
      ensures
        var v := W.Done(record.cfg, old(View()), accept);
        if v.state == W.Finished then
          state == W.Finished && calls == v.calls && record.disList == [] && record.View() == Cache(v.db) &&
          record.Slots() == (if record.keepCccd then Restored(To8(CccdCount(Cache(v.db))), None) else []) &&
          wrote == (if v.db == [] then None else Some(Pack(Cache(v.db)))) && report == Some(true)
        else
          View() == v && record.table == old(record.table) && record.srvList == old(record.srvList) &&
          wrote == None && report == if v.state == W.Failed then Some(false) else None
    {
      hide ListOk, AddSecondary, W.Done, Closing, W.WalkOk, W.Small, W.Advanced, Fits, Cache, Pack, Layout, CccdCount, AllInTable, ReadAll, To8, Restored;
      wrote, report := None, None;
      PendingIsPlaced(record.cfg, View());
      W.DoneOk(record.cfg, View(), accept);
      ghost var v := W.Done(record.cfg, View(), accept);
      DoneList(record.cfg, View(), accept);
      var ok, cmpl := Advance(accept);
      if !ok {
        state := W.Failed;
        curr := None;
        record.disList := [];
        report := Some(false);
      } else if cmpl {
        state := W.Finished;
        PackedNonEmpty(v.db);
        var generated := record.SrvListGen();
        if record.tableLen != 0 && record.table != null {
          wrote := Some(record.table[..]);
        }
        report := Some(true);
      }
    }

    method HandleFailed()
      modifies this, record`disList
      ensures View() == W.Fail(old(View()))
    {
      state := W.Failed;
      curr := None;
      record.disList := [];
    }

    /** The stack reports something it found. */
    method HandleResult(r: W.Result)
      requires |record.disList| <= 255
      requires curr.Some? ==> curr.value < |record.disList|
      modifies record`disList
      ensures View() == W.Apply(record.cfg, old(View()), r)
    {
      match r {
        case SrvResult(first, last, u) =>
          record.AddPrimaryService(first, last, u);
        case IncResult(decl, first, last, u) =>
          if curr.Some? {
            var k := curr.value;
            record.disList := record.disList[k := AddInclude(record.disList[k], decl, first, last, u)];
          }
        case CharResult(decl, props, value, u) =>
          if curr.Some? {
            var k := curr.value;
            record.disList := record.disList[k := AddChar(record.disList[k], decl, props, value, u)];
          }
        case DescResult(handle, u) =>
          if curr.Some? {
            var k := curr.value;
            record.disList := record.disList[k := AddDesc(record.disList[k], handle, u)];
          }
      }
    }

    /** A first discovery, or another one after a discovery has ended: the stored table is tried first
        if it is to be, and otherwise the services are asked for; the trace starts again. */
    method StartDiscovery(load: bool, hashCheck: bool, store: Keeper, saved: Option<seq<u8>>, accept: W.Answers)
        returns (loaded: bool)
      requires record.Valid() && record.disList == []
      requires Fetch(store, hashCheck).Fetched? ==> |Fetch(store, hashCheck).data| <= 0xFFFF
      modifies this, record
      ensures record.Valid() && record.disList == []
      ensures loaded == (load && old(record.table) == null && Loads(record.cfg, Fetch(store, hashCheck)))
      ensures
        if loaded then
          state == W.Finished && calls == old(calls) && record.View() == LoadedView(record.cfg, Fetch(store, hashCheck)) &&
          record.Slots() == if record.keepCccd then Restored(To8(CccdCount(record.View())), saved) else []
        else View() == W.Start(accept) && (old(record.table) != null ==> record.table == old(record.table))
    {
      hide Parse, ReadAll, Restored, CccdCount, AllInTable;
      if load {
        var error := record.Load(hashCheck, store, saved);
        if error == None {
          state := W.Finished;
          return true;
        }
      }
      loaded := false;
      state := W.Idle;
      curr := None;
      calls := [];
      var ok := accept(0);
      if ok {
        calls := [W.Services];
        state := W.Discovering;
      }
    }
  }

  /** What storage gives is a table with at least one service. */
  predicate Loads(cfg: Config, f: Fetched) {
    f.Fetched? && var p := Parse(cfg, f.data, 0); p.Good? && p.cbs != []
  }

  function LoadedView(cfg: Config, f: Fetched): seq<CachedSrv>
    requires Loads(cfg, f)
  {
    ReadAll(f.data, Parse(cfg, f.data, 0).cbs)
  }

  lemma PackedNonEmpty(db: seq<DisSrv>)
    ensures db != [] ==> |Pack(Cache(db))| >= 4
  {
    hide SrvBytes, Tables, Cached;
  }

  /** In a running walk the current service is in the list and the cursor on one of its characteristics. */
  lemma PendingIsPlaced(cfg: Config, w: W.Walk)
    requires W.WalkOk(cfg, w) && w.state == W.Discovering && W.Small(cfg, w)
    ensures w.calls != [] && |w.db| <= 255
    ensures w.calls[|w.calls|-1].Services? <==> w.curr.None?
    ensures w.curr.Some? ==> w.curr.value < |w.db| && |w.db[w.curr.value].chars| <= 255
    ensures w.calls[|w.calls|-1].Descs? ==> w.db[w.curr.value].cursor < |w.db[w.curr.value].chars|
  {
    if w.curr.Some? {
      assert w.db[w.curr.value] in w.db;
    }
  }

  /** The list the next step may have to close with secondary services. */
  ghost function Closing(w: W.Walk): seq<DisSrv>
    requires w.calls != []
  {
    var c := w.calls[|w.calls|-1];
    if w.curr.None? || w.curr.value >= |w.db| || !(c.Chars? || c.Descs?) then w.db
    else ClosedAt(w.db, w.curr.value, if c.Chars? then 0 else w.db[w.curr.value].cursor + 1)
  }

  /** The list once the characteristics of service k are closed from the given one on. */
  ghost function ClosedAt(db: seq<DisSrv>, k: nat, from: nat): seq<DisSrv>
    requires k < |db|
  {
    if db[k].chars == [] || from > |db[k].chars| || from > 0xFFFF then db
    else db[k := W.CloseFrom(db[k].(cursor := from), from).0]
  }

  /** The list is well formed and stays small when the included services are added. */
  ghost predicate Roomy(cfg: Config, db: seq<DisSrv>) {
    ListOk(db) && |AddSecondary(cfg, db)| <= 255 && AllEnd(cfg, db, db)
  }

  lemma DoneCase(cfg: Config, w: W.Walk, accept: W.Answers)
    requires w.calls != [] && (w.curr.Some? ==> w.curr.value < |w.db|)
    requires w.calls[|w.calls|-1].Services? <==> w.curr.None?
    ensures
      W.Done(cfg, w, accept) ==
      match w.calls[|w.calls|-1]
      case Services => W.NextService(cfg, w, accept)
      case Relations(_, _) =>
        var hdr := w.db[w.curr.value].srv;
        W.Ask(w, W.Chars(hdr.hdr.handle, hdr.endGroup), w.curr.value, accept)
      case Chars(_, _) => W.NextDesc(cfg, w, true, accept)
      case Descs(_, _) => W.NextDesc(cfg, w, false, accept)
  {
    hide W.NextService, W.NextDesc;
  }

  lemma ClosingOk(cfg: Config, w: W.Walk)
    requires W.WalkOk(cfg, w) && w.state == W.Discovering && W.Small(cfg, w)
    ensures Roomy(cfg, Closing(w))
  {
    hide W.Visits, W.Progress, W.ClosedSrvs, W.Unvisited, W.AllPrimary, W.SecondaryFrom, W.CloseFrom, W.DescCalls, W.ClosedChars, Bound, KeyedSrvs, DisSrvOk, AllEnd, AddSecondary, SameSrvs;
    ClosingSame(w);
    SameEnds(cfg, w.db, Closing(w));
    if w.curr.Some? {
      var c, d := w.calls[|w.calls|-1], w.db[w.curr.value];
      assert d in w.db;
      if c.Chars? || c.Descs? {
        var from: u16 := if c.Chars? then 0 else d.cursor + 1;
        W.CloseResult(d, c, from);
        UpdateOk(w.db, w.curr.value, W.CloseFrom(d.(cursor := from), from).0);
      }
    }
  }

  /** Closing characteristics changes neither services nor includes. */
  lemma ClosingSame(w: W.Walk)
    requires w.calls != []
    ensures SameSrvs(w.db, Closing(w))
  {
    if w.curr.Some? && w.curr.value < |w.db| {
      var c, d := w.calls[|w.calls|-1], w.db[w.curr.value];
      var from: nat := if c.Chars? then 0 else d.cursor + 1;
      if from <= |d.chars| && from <= 0xFFFF { W.CloseKeepsLength(d.(cursor := from), from); }
    }
  }

  lemma DoneList(cfg: Config, w: W.Walk, accept: W.Answers)
    requires w.calls != []
    requires W.Advanced(cfg, w, W.Done(cfg, w, accept))
    ensures ListOk(W.Done(cfg, w, accept).db)
  {
    hide W.Done;
  }

  lemma EmptyAddsNothing(cfg: Config)
    ensures AddSecondary(cfg, []) == []
  {
  }

  lemma CloseKeepsSrv(d: DisSrv, start: bool)
    requires !start ==> d.cursor < |d.chars| <= 255
    ensures
      var from: u16 := if start then 0 else d.cursor + 1;
      W.CloseFrom(d.(cursor := from), from).0.srv == d.srv
  {
    var from: u16 := if start then 0 else d.cursor + 1;
    W.CloseKeepsLength(d.(cursor := from), from);
  }
}
