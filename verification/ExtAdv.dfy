/** The extended-advertising manager, updating its table of sets and its action queue in place.  Every
    method is proved against the function of the same name in AdvActions.  The size of the table is an
    8-bit number, so no index of it wraps. */
module ExtAdv {
  import opened Widths
  import opened AdvActions
  import A = AdvActions

  class Manager {
    const table: array<AdvSet>
    var queue: seq<Action>
    var ready: bool
    var issued: seq<Command>
    ghost var sent: seq<Action>
    ghost var taken: seq<Action>

    constructor (num: u8)
      ensures Initial(View()) && fresh(table) && table.Length == num
    {
      table := new AdvSet[num](_ => UNUSED);
      queue, ready, issued, sent, taken := [], false, [], [], [];
    }

    ghost function View(): Mgr
      reads this, table
    {
      Mgr(table[..], queue, ready, issued, sent, taken)
    }

    method FindByHandle(h: u8) returns (i: nat)
      ensures i == Find(table[..], h)
    {
      i := 0;
      while i < table.Length
        invariant i <= table.Length
        invariant Find(table[..], h) == i + Find(table[i..], h)
      {
        if table[i].isUsed && table[i].handle == h {
          return;
        }
        assert table[i..][1..] == table[i+1..];
        i := i + 1;
      }
    }

    method FindPendingAction() returns (found: bool)
      ensures found == HasPending(table[..])
    {
      var i := 0;
      while i < table.Length
        invariant i <= table.Length && forall j :: 0 <= j < i ==> !InFlight(table[j])
      {
        if table[i].isUsed && table[i].pending != NoPending {
          assert InFlight(table[..][i]);
          return true;
        }
        i := i + 1;
      }
      return false;
    }

    method Write(i: nat, s: AdvSet)
      requires i < table.Length
      modifies table
      ensures View() == Put(old(View()), i, s)
    {
      table[i] := s;
    }

    // ----- Commands -----

    /** Gives the stack a command. */
    method Command(a: Action, accept: Answers) returns (ok: bool)
      modifies this`issued
      ensures View() == Issue(old(View()), a, accept) && ok == accept(|old(issued)|)
    {
      ok := accept(|issued|);
      issued := issued + [A.Command(a, ok)];
    }

    method ActionStart(i: nat, duration: u16, accept: Answers) returns (ok: bool)
      requires i < table.Length
      modifies this`issued, table
      ensures View() == A.ActionStart(old(View()), i, duration, accept) && ok == accept(|old(issued)|)
    {
      ok := Command(Start(table[i].handle, duration), accept);
      if !ok {
        if table[i].enabled {
          Write(i, table[i].(enabled := false));
        } else {
          assert table[..] == table[..][i := table[i].(enabled := false)];
        }
      } else {
        Write(i, table[i].(pending := StartPending));
      }
    }

    method ActionStop(i: nat, cause: u8, accept: Answers) returns (ok: bool)
      requires i < table.Length
      modifies this`issued, table
      ensures View() == A.ActionStop(old(View()), i, cause, accept) && ok == accept(|old(issued)|)
    {
      ok := Command(Stop(table[i].handle, cause), accept);
      Write(i, table[i].(appCause := cause));
      if ok {
        Write(i, table[i].(pending := StopPending));
      }
    }

    method UpdateFlags(i: nat, flags: Flags) returns (f: Flags)
      requires i < table.Length
      ensures f == FullFlags(table[i], flags)
    {
      f := flags;
      if !table[i].paramSet {
        f := f | table[i].initFlags;
        f := f | SET_PARAS;
      }
    }

    method ActionUpdate(i: nat, flags: Flags, accept: Answers) returns (ok: bool)
      requires i < table.Length
      modifies this`issued, table
      ensures View() == A.ActionUpdate(old(View()), i, flags, accept) && ok == accept(|old(issued)|)
    {
      hide FullFlags;
      var f := UpdateFlags(i, flags);
      ok := Command(Update(table[i].handle, f), accept);
      if ok {
        var s := table[i].(pending := UpdatePending);
        if f & SET_PARAS != 0 {
          s := s.(paramSet := true, initFlags := 0);
        }
        Write(i, s);
      } else {
        assert table[..] == table[..][i := table[i]];
      }
    }

    // ----- The queue -----

    method SendMsg(a: Action) returns (r: Cause)
      modifies this`queue, this`sent, table
      ensures (View(), r) == Send(old(View()), a)
    {
      if |queue| >= QUEUE_MAX {
        return NoResource;
      }
      queue := queue + [a];
      sent := sent + [a];
      var i := FindByHandle(a.handle);
      if i < table.Length && (a.Start? || a.Stop?) {
        Write(i, table[i].(pendingNum := To8(table[i].pendingNum + 1)));
      }
      r := Success;
    }

    method CheckState(i: nat, cause: u16, changed: bool)
      requires i < table.Length
      modifies table
      ensures View() == Put(old(View()), i, A.CheckState(old(table[i]), cause, changed))
    {
      var s := table[i];
      var enabled := s.enabled;
      if changed {
        s := s.(pendingCause := cause);
      }
      if s.pendingNum == 0 {
        if s.state == Quiet {
          if s.pendingCause == CANCELLED_BY_HOST {
            if s.appCause != STOP_FOR_UPDATE {
              enabled := false;
            }
          } else {
            enabled := false;
          }
        }
      } else if s.state == Quiet && s.pendingCause == 0 {
        enabled := false;
      }
      Write(i, s.(enabled := enabled));
    }

    method Execute(a: Action, accept: Answers) returns (ok: bool)
      modifies this`issued, table
      ensures (View(), ok) == A.Execute(old(View()), a, accept)
    {
      hide A.ActionStart, A.ActionStop, A.ActionUpdate, A.CheckState, To8;
      var i := FindByHandle(a.handle);
      if i == table.Length {
        return false;
      }
      match a {
        case Start(_, duration) =>
          Write(i, table[i].(pendingNum := To8(table[i].pendingNum - 1)));
          if table[i].state != Quiet {
            return false;
          }
          ok := ActionStart(i, duration, accept);
        case Stop(_, cause) =>
          Write(i, table[i].(pendingNum := To8(table[i].pendingNum - 1)));
          if table[i].state != Advertising {
            return false;
          }
          ok := ActionStop(i, cause, accept);
        case Update(_, flags) =>
          ok := ActionUpdate(i, flags, accept);
      }
      if table[i].pendingNum == 0 && !ok && !a.Update? {
        CheckState(i, 0, false);
      }
    }

    method CheckNextStep(accept: Answers)
      modifies this`queue, this`issued, this`taken, table
      ensures View() == NextStep(old(View()), accept)
    {
      hide A.Execute;
      while queue != []
        invariant NextStep(View(), accept) == NextStep(old(View()), accept)
        decreases |queue|
      {
        var a := queue[0];
        taken := taken + [a];
        queue := queue[1..];
        var done := Execute(a, accept);
        if done {
          return;
        }
      }
    }

    /** Rotates the queue once, leaving out the given set's actions. */
    method DeletePendingActions(h: u8)
      requires |queue| <= QUEUE_MAX
      modifies this`queue
      ensures queue == Others(old(queue), h)
    {
      ghost var was := queue;
      var num, loop := |queue|, 0;
      assert was[0..] == was && Others(was[..0], h) == [];
      while loop < num
        invariant loop <= num == |was| && queue == was[loop..] + Others(was[..loop], h)
      {
        var a := queue[0];
        assert queue[1..] == was[loop+1..] + Others(was[..loop], h) && a == was[loop];
        queue := queue[1..];
        if a.handle != h {
          queue := queue + [a];
        }
        OthersNext(was, loop, h);
        loop := loop + 1;
      }
      assert was[..loop] == was;
    }

    // ----- What the application asks for -----

    method StartSetAdvParam(i: nat, flags: Flags, accept: Answers) returns (r: Cause)
      requires i < table.Length
      modifies this`queue, this`issued, this`sent, table
      ensures (View(), r) == StartSetting(old(View()), i, flags, accept)
    {
      hide Send, A.ActionUpdate;
      if !ready {
        return InvalidState;
      }
      var pending := FindPendingAction();
      if pending {
        r := SendMsg(Update(table[i].handle, flags));
        return;
      }
      var ok := ActionUpdate(i, flags, accept);
      r := if ok then Success else Refused;
    }

    method CreateAdv(h: u8, p: Setup) returns (r: Cause)
      modifies table
      ensures (View(), r) == Create(old(View()), h, p)
    {
      if h == NO_HANDLE {
        return NoResource;
      }
      var i := 0;
      while i < table.Length && table[i].isUsed
        invariant i <= table.Length && FirstUnused(table[..]) == i + FirstUnused(table[i..])
      {
        assert table[i..][1..] == table[i+1..];
        i := i + 1;
      }
      if i < table.Length {
        Write(i, table[i].(isUsed := true, handle := h, initFlags := InitFlags(p), own := p.own,
          intervalMin := To16(p.intervalMin), intervalMax := To16(p.intervalMax)));
      }
      r := Success;
    }

    method SetAdvData(h: u8, flags: Flags, accept: Answers) returns (r: Cause)
      modifies this`queue, this`issued, this`sent, table
      ensures (View(), r) == SetData(old(View()), h, flags, accept)
    {
      hide StartSetting;
      var i := FindByHandle(h);
      if i == table.Length {
        return NotFound;
      }
      r := StartSetAdvParam(i, flags, accept);
    }

    method StartNowOrLater(i: nat, duration: u16, accept: Answers) returns (r: Cause)
      requires i < table.Length
      modifies this`queue, this`issued, this`sent, table
      ensures (View(), r) == StartOrSend(old(View()), i, duration, accept)
    {
      hide Send, A.ActionStart;
      var pending := FindPendingAction();
      if pending {
        r := SendMsg(Start(table[i].handle, duration));
      } else {
        var ok := ActionStart(i, duration, accept);
        r := if ok then Success else Refused;
      }
    }

    method EnableAdv(h: u8, duration: u16, accept: Answers) returns (r: Cause)
      modifies this`queue, this`issued, this`sent, table
      ensures (View(), r) == Enable(old(View()), h, duration, accept)
    {
      hide StartSetting, StartOrSend;
      var i := FindByHandle(h);
      if i == table.Length {
        return NotFound;
      }
      if table[i].enabled {
        return InvalidState;
      }
      if !table[i].paramSet {
        var ignored := StartSetAdvParam(i, table[i].initFlags, accept);
      }
      r := StartNowOrLater(i, duration, accept);
      if r == Success {
        Write(i, table[i].(duration := duration, enabled := true));
      }
    }

    method StopNowOrLater(i: nat, cause: u8, accept: Answers) returns (r: Cause)
      requires i < table.Length
      modifies this`queue, this`issued, this`sent, table
      ensures (View(), r) == StopOrSend(old(View()), i, cause, accept)
    {
      hide Send, A.ActionStop;
      var pending := FindPendingAction();
      if pending {
        r := SendMsg(Stop(table[i].handle, cause));
      } else {
        var ok := ActionStop(i, cause, accept);
        r := if ok then Success else Refused;
      }
    }

    method DisableAdv(h: u8, cause: u8, accept: Answers) returns (r: Cause)
      modifies this`queue, this`issued, this`sent, table
      ensures (View(), r) == Disable(old(View()), h, cause, accept)
    {
      hide StopOrSend;
      var i := FindByHandle(h);
      if i == table.Length {
        return NotFound;
      }
      if !table[i].enabled {
        return InvalidState;
      }
      r := StopNowOrLater(i, cause, accept);
      if r == Success && cause != STOP_FOR_UPDATE {
        Write(i, table[i].(enabled := false));
      }
    }

    method DisableAll(cause: u8, accept: Answers)
      modifies this`queue, this`issued, this`sent, table
      ensures View() == DisableFrom(old(View()), 0, cause, accept)
    {
      hide Disable;
      var i := 0;
      while i < table.Length
        invariant i <= table.Length && DisableFrom(View(), i, cause, accept) == DisableFrom(old(View()), 0, cause, accept)
      {
        if table[i].isUsed && table[i].enabled {
          var ignored := DisableAdv(table[i].handle, cause, accept);
        }
        i := i + 1;
      }
    }

    method Reconfigure(i: nat, flags: Flags, accept: Answers) returns (r: Cause)
      requires i < table.Length && Find(table[..], table[i].handle) == i
      modifies this`queue, this`issued, this`sent, table
      ensures (View(), r) == A.Reconfigure(old(View()), i, flags, accept)
    {
      hide Send, StartSetting, Disable;
      if table[i].enabled {
        r := DisableAdv(table[i].handle, STOP_FOR_UPDATE, accept);
        r := StartSetAdvParam(i, flags, accept);
        r := SendMsg(Start(table[i].handle, table[i].duration));
      } else {
        r := StartSetAdvParam(i, flags, accept);
      }
    }

    method SetAdvParam(h: u8, own: OwnAddr, intervalMin: nat, intervalMax: nat, accept: Answers) returns (r: Cause)
      modifies this`queue, this`issued, this`sent, table
      ensures (View(), r) == SetParam(old(View()), h, own, intervalMin, intervalMax, accept)
    {
      hide A.Reconfigure, To16;
      var i := FindByHandle(h);
      if i == table.Length {
        return NotFound;
      }
      var s := table[i].(own := own, intervalMin := To16(intervalMin), intervalMax := To16(intervalMax));
      FindPut(table[..], i, s);
      Write(i, s);
      r := Reconfigure(i, SET_PARAS, accept);
      r := Success;
    }

    method SetRandomAddr(h: u8, accept: Answers) returns (r: Cause)
      modifies this`queue, this`issued, this`sent, table
      ensures (View(), r) == SetRandom(old(View()), h, accept)
    {
      hide A.Reconfigure;
      var i := FindByHandle(h);
      if i == table.Length {
        return NotFound;
      }
      if table[i].own == Public || table[i].own == RapOrPublic {
        return InvalidParam;
      }
      r := Reconfigure(i, SET_RANDOM, accept);
      r := Success;
    }

    method SetMultiParam(h: u8, random: bool, interval: u16, data: bool, scanRsp: bool, accept: Answers) returns (r: Cause)
      modifies this`queue, this`issued, this`sent, table
      ensures (View(), r) == SetMulti(old(View()), h, random, interval, data, scanRsp, accept)
    {
      hide A.Reconfigure, StartSetting, MultiFlags;
      var i := FindByHandle(h);
      if i == table.Length {
        return NotFound;
      }
      var f := CollectFlags(i, random, interval, data, scanRsp);
      if f == 0 {
        return InvalidParam;
      }
      if f & (SET_RANDOM | SET_PARAS) != 0 {
        r := Reconfigure(i, f, accept);
      } else {
        r := StartSetAdvParam(i, f, accept);
      }
      if r == Success {
        if f & SET_PARAS != 0 {
          Write(i, table[i].(paramSet := true));
        }
      }
    }

    method CollectFlags(i: nat, random: bool, interval: u16, data: bool, scanRsp: bool) returns (f: Flags)
      requires i < table.Length
      ensures f == MultiFlags(table[i], random, interval, data, scanRsp)
    {
      var s := table[i];
      f := s.initFlags;
      if random && (s.own == Random || s.own == RapOrRandom) {
        f := f | SET_RANDOM;
      }
      if interval <= s.intervalMin || interval >= s.intervalMax {
        f := f | SET_PARAS;
      }
      if data {
        f := f | SET_DATA;
      }
      if scanRsp {
        f := f | SET_SCAN_RSP;
      }
    }

    // ----- What the stack reports -----

    method Settle(i: nat, p: Pending)
      requires i < table.Length
      modifies table
      ensures View() == Put(old(View()), i, Settled(old(table[i]), p))
    {
      if table[i].pending == p {
        Write(i, table[i].(pending := NoPending));
      } else {
        assert table[..] == table[..][i := table[i]];
      }
    }

    method HandleAdvState(h: u8, new_: AdvState, cause: u16, accept: Answers)
      modifies this`queue, this`issued, this`taken, table
      ensures View() == HandleState(old(View()), h, new_, cause, accept)
    {
      hide NextStep, A.CheckState, Settled;
      var i := FindByHandle(h);
      if i < table.Length {
        var was := table[i].state;
        Write(i, table[i].(state := new_));
        CheckState(i, cause, true);
        ghost var now := A.CheckState(old(table[i]).(state := new_), cause, true);
        assert View() == Put(old(View()), i, now);
        if was == Starting {
          Settle(i, StartPending);
          assert View() == Put(old(View()), i, Settled(now, StartPending));
          CheckNextStep(accept);
        } else if was == Stopping {
          Settle(i, StopPending);
          assert View() == Put(old(View()), i, Settled(now, StopPending));
          CheckNextStep(accept);
        }
      }
    }

    method HandleSettingDone(h: u8, accept: Answers)
      modifies this`queue, this`issued, this`taken, table
      ensures View() == HandleSetting(old(View()), h, accept)
    {
      hide NextStep;
      var i := FindByHandle(h);
      if i < table.Length {
        Settle(i, UpdatePending);
      }
      CheckNextStep(accept);
    }

    method HandleConnState(h: u8)
      requires |queue| <= QUEUE_MAX
      modifies this`queue
      ensures View() == HandleConnected(old(View()), h)
    {
      var i := FindByHandle(h);
      if i < table.Length {
        DeletePendingActions(h);
      }
    }
  }

  lemma {:induction false} OthersNext(q: seq<Action>, i: nat, h: u8)
    requires i < |q|
    ensures Others(q[..i+1], h) == Others(q[..i], h) + if q[i].handle != h then [q[i]] else []
    decreases i
  {
    if i > 0 {
      OthersNext(q[1..], i - 1, h);
      assert q[..i+1][1..] == q[1..][..i] && q[..i][1..] == q[1..][..i-1];
    }
  }
}
