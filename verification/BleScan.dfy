/** The shared scanner, updated in place.  Every method is proved against ScanMachine.  Merging
    walks the client list with an 8-bit index, hence the bound of 255 clients; finding a client follows
    the list's links. */
module BleScan {
  import opened Widths
  import opened ScanMerge
  import opened ScanMachine
  import M = ScanMachine

  class Manager {
    var clients: seq<Client>
    var param: Param
    var update: Progress
    var action: Action
    var seen: Gap
    var nextHdl: nat
    // The stack's side.
    var gap: Gap
    var running: Param
    var tries: nat

    constructor (unset: Param)
      ensures Initial(View())
    {
      clients, param, update, action, seen, nextHdl := [], unset, NoUpdate, Stopped, GapIdle, 0;
      gap, running, tries := GapIdle, unset, 0;
    }

    ghost function View(): Scan
      reads this
    {
      Scan(clients, param, update, action, seen, gap, running, nextHdl, tries)
    }

    method FindClient(hdl: nat) returns (i: nat)
      ensures i == FindHdl(clients, hdl)
    {
      i := 0;
      while i < |clients|
        invariant i <= |clients| && FindHdl(clients, hdl) == i + FindHdl(clients[i..], hdl)
      {
        if clients[i].hdl == hdl {
          return;
        }
        assert clients[i..][1..] == clients[i+1..];
        i := i + 1;
      }
    }

    // ----- Commands -----

    method ExtScanStop(accept: Answers) returns (ok: bool)
      modifies this`tries, this`gap
      ensures (View(), ok) == StopScan(old(View()), accept)
    {
      ok := accept(tries);
      tries := tries + 1;
      if ok {
        gap := GapStopping;
      }
    }

    method ExtScanStart(accept: Answers) returns (ok: bool)
      modifies this`tries, this`gap, this`running
      ensures (View(), ok) == StartScan(old(View()), accept)
    {
      ok := accept(tries);
      tries := tries + 1;
      if ok {
        gap, running := GapStarting, param;
      }
    }

    method CheckScanState(accept: Answers)
      modifies this`tries, this`gap, this`running, this`update
      ensures View() == CheckState(old(View()), accept)
    {
      if gap == GapScanning {
        if action == Paused || action == Stopped {
          var ignored := ExtScanStop(accept);
        } else if update == UpdateReq {
          var ok := ExtScanStop(accept);
          if ok {
            update := UpdateStop;
          }
        } else if update == UpdateStart {
          update := NoUpdate;
        }
      } else if gap == GapIdle {
        if action == Started {
          var ok := ExtScanStart(accept);
          if ok && update == UpdateStop {
            update := UpdateStart;
          }
        }
      }
    }

    // ----- Merging -----

    /** Joins a client's parameters for one PHY. */
    static method MergePhy(used: bool, a: PhyParam, uses: bool, b: PhyParam) returns (r: PhyParam)
      ensures r == JoinPhy(used, a, uses, b)
    {
      r := a;
      if uses {
        if !used {
          r := b;
        } else {
          if b.active {
            r := r.(active := true);
          }
          if b.interval < r.interval {
            r := r.(interval := b.interval, window := b.window);
          }
        }
      }
    }

    static method MergeOne(a: Param, b: Param) returns (r: Param)
      ensures r == Join(a, b)
    {
      hide JoinPhy, Has;
      r := MergeCommon(a, b);
      var m := MergePhy(Uses(a, PHY_1M), a.oneM, Uses(b, PHY_1M), b.oneM);
      var c := MergePhy(Uses(a, PHY_CODED), a.coded, Uses(b, PHY_CODED), b.coded);
      r := r.(oneM := m, coded := c, phys := r.phys | b.phys);
    }

    static method MergeCommon(a: Param, b: Param) returns (r: Param)
      ensures
        var j := Join(a, b);
        r == a.(own := j.own, duplicates := j.duplicates, policy := j.policy)
    {
      hide JoinPhy, Uses, Has;
      var own, duplicates, policy := a.own, a.duplicates, a.policy;
      if own != b.own {
        own := PUBLIC_ADDR;
      }
      if b.duplicates == DUPLICATES_OFF {
        duplicates := DUPLICATES_OFF;
      }
      if b.policy == POLICY_ANY {
        policy := POLICY_ANY;
      }
      r := a.(own := own, duplicates := duplicates, policy := policy);
    }

    /** Goes through the clients in order; what comes out covers every one of them. */
    method MergeParams() returns (r: Param)
      requires 0 < |clients| <= 255
      ensures r == Merge(Params(clients))
      ensures Covers(Params(clients), r)
    {
      hide Covers, Join, Params;
      ghost var ps := Params(clients);
      r := clients[0].param;
      assert ps[..1] == [ps[0]];
      var i: u8 := 1;
      while i < |clients|
        invariant 1 <= i <= |clients| == |ps| && r == Merge(ps[..i])
      {
        r := MergeOne(r, clients[i].param);
        assert ps[..i+1][..i] == ps[..i];
        i := i + 1;
      }
      assert ps[..i] == ps;
      MergeCovers(ps);
    }

    method UpdateParam() returns (changed: bool)
      requires 0 < |clients| <= 255
      modifies this`param, this`update
      ensures View() == ParamUpdate(old(View())) && changed == (param != old(param))
    {
      hide Merge, Params, Covers;
      var p := MergeParams();
      if param == p {
        return false;
      }
      param := p;
      if action == Started {
        if gap == GapScanning || gap == GapStarting {
          update := UpdateReq;
        }
      }
      return true;
    }

    // ----- What clients ask for -----

    method StartClient(p: Param, accept: Answers) returns (hdl: nat)
      requires |clients| < 255
      modifies this
      ensures View() == Start(old(View()), p, accept) && hdl == old(nextHdl)
    {
      hide Merge, Params, CheckState, ParamUpdate;
      hdl := nextHdl;
      clients := clients + [Client(hdl, p)];
      nextHdl := nextHdl + 1;
      if action != Paused {
        action := Started;
      }
      var changed := UpdateParam();
      CheckScanState(accept);
    }

    method StopClient(hdl: nat, accept: Answers) returns (found: bool)
      requires |clients| <= 255
      modifies this
      ensures View() == M.Stop(old(View()), hdl, accept) && found == (FindHdl(old(clients), hdl) < |old(clients)|)
    {
      hide Merge, Params, CheckState, ParamUpdate;
      var i := FindClient(hdl);
      if i == |clients| {
        return false;
      }
      clients := clients[..i] + clients[i+1..];
      if clients == [] {
        if action != Paused {
          action := Stopped;
        }
      } else {
        var changed := UpdateParam();
      }
      CheckScanState(accept);
      return true;
    }

    method SetParamByHdl(hdl: nat, p: Param, accept: Answers) returns (found: bool)
      requires |clients| <= 255
      modifies this
      ensures View() == SetParam(old(View()), hdl, p, accept) && found == (FindHdl(old(clients), hdl) < |old(clients)|)
    {
      hide Merge, Params, CheckState, ParamUpdate;
      var i := FindClient(hdl);
      if i == |clients| {
        return false;
      }
      clients := clients[i := clients[i].(param := p)];
      var changed := UpdateParam();
      CheckScanState(accept);
      return true;
    }

    method PauseScan(accept: Answers)
      modifies this`tries, this`gap, this`running, this`update, this`action
      ensures View() == Pause(old(View()), accept)
    {
      hide CheckState;
      if action != Paused {
        action := Paused;
        CheckScanState(accept);
      }
    }

    method ResumeScan(accept: Answers)
      modifies this`tries, this`gap, this`running, this`update, this`action
      ensures View() == Resume(old(View()), accept)
    {
      hide CheckState;
      if action == Paused {
        if clients == [] {
          action := Stopped;
        } else {
          action := Started;
        }
        CheckScanState(accept);
      }
    }

    method HandleScanState(g: Gap, accept: Answers)
      modifies this`tries, this`gap, this`running, this`update, this`seen
      ensures View() == HandleState(old(View()), g, accept)
    {
      hide CheckState;
      if seen != g {
        seen := g;
        CheckScanState(accept);
      }
    }
  }
}
