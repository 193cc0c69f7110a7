/** At most one command of the advertising manager is in flight, nothing waits while none is, and
    queued actions are carried out in the order they were sent. */
module AdvSerializer {
  import opened Widths
  import opened AdvActions

  // ----- Invariants -----

  ghost predicate AtMostOne(sets: seq<AdvSet>) {
    forall i, j :: 0 <= i < |sets| && 0 <= j < |sets| && InFlight(sets[i]) && InFlight(sets[j]) ==> i == j
  }

  /** A set is in a transient state only while the matching command is pending. */
  predicate Mirrored(s: AdvSet) {
    (s.state == Starting ==> s.pending == StartPending) &&
    (s.state == Stopping ==> s.pending == StopPending) &&
    (!s.isUsed ==> s.pending == NoPending)
  }

  ghost predicate AllMirrored(sets: seq<AdvSet>) {
    forall i :: 0 <= i < |sets| ==> Mirrored(sets[i])
  }

  ghost predicate Serial(m: Mgr) {
    AtMostOne(m.sets) && AllMirrored(m.sets) && |m.queue| <= QUEUE_MAX
  }

  /** Nothing waits in the queue unless a completion is to come. */
  predicate Live(m: Mgr) {
    m.queue == [] || HasPending(m.sets)
  }

  // ----- Changing one set -----

  lemma PutIdle(m: Mgr, i: nat, s: AdvSet)
    requires Serial(m) && !HasPending(m.sets) && i < |m.sets| && Mirrored(s)
    ensures Serial(Put(m, i, s)) && (HasPending(Put(m, i, s).sets) <==> InFlight(s))
  {
    var v := Put(m, i, s);
    assert v.sets[i] == s;
    forall j | 0 <= j < |m.sets| && j != i ensures !InFlight(v.sets[j]) {
      assert v.sets[j] == m.sets[j];
    }
  }

  lemma PutSame(m: Mgr, i: nat, s: AdvSet)
    requires Serial(m) && i < |m.sets| && Mirrored(s) && InFlight(s) == InFlight(m.sets[i])
    ensures Serial(Put(m, i, s)) && HasPending(Put(m, i, s).sets) == HasPending(m.sets)
  {
    var v := Put(m, i, s);
    forall j | 0 <= j < |m.sets| ensures InFlight(v.sets[j]) == InFlight(m.sets[j]) && Mirrored(v.sets[j]) {
    }
  }

  /** The one command in flight completes. */
  lemma PutDone(m: Mgr, i: nat, s: AdvSet)
    requires Serial(m) && i < |m.sets| && InFlight(m.sets[i]) && !InFlight(s) && Mirrored(s)
    ensures Serial(Put(m, i, s)) && !HasPending(Put(m, i, s).sets)
  {
    var v := Put(m, i, s);
    forall j | 0 <= j < |m.sets| ensures !InFlight(v.sets[j]) && Mirrored(v.sets[j]) {
    }
  }

  // ----- Commands and the queue -----

  lemma SendOk(m: Mgr, a: Action)
    requires Serial(m)
    ensures var (n, r) := Send(m, a);
      Serial(n) && HasPending(n.sets) == HasPending(m.sets) && |n.sets| == |m.sets| && n.issued == m.issued &&
      n.queue == (if |m.queue| < QUEUE_MAX then m.queue + [a] else m.queue)
  {
    var i := Find(m.sets, a.handle);
    if |m.queue| < QUEUE_MAX && i < |m.sets| && !a.Update? {
      PutSame(m.(queue := m.queue + [a], sent := m.sent + [a]), i, m.sets[i].(pendingNum := To8(m.sets[i].pendingNum + 1)));
    }
  }

  lemma SendSets(m: Mgr, a: Action, i: nat)
    requires i < |m.sets|
    ensures var n := Send(m, a).0;
      |n.sets| == |m.sets| && n.sets[i] == m.sets[i].(pendingNum := n.sets[i].pendingNum) && n.ready == m.ready
  {
  }

  lemma StartOk(m: Mgr, i: nat, duration: u16, accept: Answers)
    requires Serial(m) && !HasPending(m.sets) && i < |m.sets| && m.sets[i].isUsed
    ensures var n := ActionStart(m, i, duration, accept);
      Serial(n) && n.queue == m.queue && (HasPending(n.sets) <==> accept(|m.issued|))
  {
    Stable(m, i);
    var s := m.sets[i];
    PutIdle(Issue(m, Start(s.handle, duration), accept), i,
      if accept(|m.issued|) then s.(pending := StartPending) else s.(enabled := false));
  }

  lemma StopOk(m: Mgr, i: nat, cause: u8, accept: Answers)
    requires Serial(m) && !HasPending(m.sets) && i < |m.sets| && m.sets[i].isUsed
    ensures var n := ActionStop(m, i, cause, accept);
      Serial(n) && n.queue == m.queue && (HasPending(n.sets) <==> accept(|m.issued|))
  {
    Stable(m, i);
    var s := m.sets[i].(appCause := cause);
    PutIdle(Issue(m, Stop(s.handle, cause), accept), i,
      if accept(|m.issued|) then s.(pending := StopPending) else s);
  }

  lemma UpdateOk(m: Mgr, i: nat, flags: Flags, accept: Answers)
    requires Serial(m) && !HasPending(m.sets) && i < |m.sets| && m.sets[i].isUsed
    ensures var n := ActionUpdate(m, i, flags, accept);
      Serial(n) && n.queue == m.queue && (HasPending(n.sets) <==> accept(|m.issued|))
  {
    hide FullFlags;
    Stable(m, i);
    var s := m.sets[i];
    var f := FullFlags(s, flags);
    var params := f & SET_PARAS != 0;
    PutIdle(Issue(m, Update(s.handle, f), accept), i,
      if !accept(|m.issued|) then s
      else s.(pending := UpdatePending, paramSet := s.paramSet || params, initFlags := if params then 0 else s.initFlags));
  }

  /** With nothing in flight every set is in a stable state. */
  lemma Stable(m: Mgr, i: nat)
    requires Serial(m) && !HasPending(m.sets) && i < |m.sets|
    ensures m.sets[i].pending == NoPending && (m.sets[i].state == Quiet || m.sets[i].state == Advertising)
  {
    assert Mirrored(m.sets[i]) && !InFlight(m.sets[i]);
  }

  lemma UncountOk(m: Mgr, i: nat)
    requires Serial(m) && !HasPending(m.sets) && i < |m.sets|
    ensures Serial(Uncount(m, i)) && !HasPending(Uncount(m, i).sets)
  {
    PutSame(m, i, m.sets[i].(pendingNum := To8(m.sets[i].pendingNum - 1)));
  }

  lemma RecheckOk(m: Mgr, i: nat)
    requires Serial(m) && !HasPending(m.sets) && i < |m.sets|
    ensures Serial(Recheck(m, i)) && !HasPending(Recheck(m, i).sets)
  {
    PutSame(m, i, CheckState(m.sets[i], 0, false));
  }

  lemma ExecuteOk(m: Mgr, a: Action, accept: Answers)
    requires Serial(m) && !HasPending(m.sets)
    ensures var (n, done) := Execute(m, a, accept); Serial(n) && (HasPending(n.sets) <==> done)
  {
    hide Serial, HasPending, ActionStart, ActionStop, ActionUpdate, Recheck, CheckState, To8;
    var i := Find(m.sets, a.handle);
    if i < |m.sets| {
      if a.Update? {
        UpdateOk(m, i, a.flags, accept);
      } else {
        UncountOk(m, i);
        var n := Uncount(m, i);
        if a.Start? && n.sets[i].state == Quiet {
          StartOk(n, i, a.duration, accept);
          if !accept(|m.issued|) { RecheckOk(ActionStart(n, i, a.duration, accept), i); }
        } else if a.Stop? && n.sets[i].state == Advertising {
          StopOk(n, i, a.cause, accept);
          if !accept(|m.issued|) { RecheckOk(ActionStop(n, i, a.cause, accept), i); }
        }
      }
    }
  }

  /** After taking actions until one is accepted, either one is in flight or none is left; and none
      has been skipped or reordered. */
  lemma {:induction false} NextStepOk(m: Mgr, accept: Answers)
    requires Serial(m) && !HasPending(m.sets)
    ensures var n := NextStep(m, accept);
      Serial(n) && Live(n) && n.sent == m.sent && n.taken + n.queue == m.taken + m.queue &&
      (m.queue != [] ==> |n.taken| > |m.taken|)
    decreases |m.queue|
  {
    hide Execute, HasPending, AtMostOne, AllMirrored;
    if m.queue != [] {
      var t := Take(m);
      var (n, done) := Execute(t, m.queue[0], accept);
      ExecuteOk(t, m.queue[0], accept);
      assert t.taken + t.queue == m.taken + m.queue;
      if !done { NextStepOk(n, accept); }
    }
  }

  // ----- What the application asks for -----

  lemma StartSettingOk(m: Mgr, i: nat, flags: Flags, accept: Answers)
    requires Serial(m) && i < |m.sets| && m.sets[i].isUsed
    ensures var n := StartSetting(m, i, flags, accept).0;
      Serial(n) && (HasPending(n.sets) <==> HasPending(m.sets) || (m.ready && accept(|m.issued|))) &&
      (!HasPending(m.sets) ==> n.queue == m.queue)
  {
    hide AtMostOne, AllMirrored, HasPending, Send, ActionUpdate;
    if m.ready {
      if HasPending(m.sets) {
        SendOk(m, Update(m.sets[i].handle, flags));
      } else {
        UpdateOk(m, i, flags, accept);
      }
    }
  }

  lemma StartSettingUsed(m: Mgr, i: nat, flags: Flags, accept: Answers)
    requires i < |m.sets| && m.sets[i].isUsed
    ensures var n := StartSetting(m, i, flags, accept).0;
      n.sets[i].isUsed && n.sets[i].state == m.sets[i].state && n.ready == m.ready
  {
    hide FullFlags, HasPending;
    if m.ready && HasPending(m.sets) { SendSets(m, Update(m.sets[i].handle, flags), i); }
  }

  lemma StartOrSendOk(m: Mgr, i: nat, duration: u16, accept: Answers)
    requires Serial(m) && i < |m.sets| && m.sets[i].isUsed
    ensures var n := StartOrSend(m, i, duration, accept).0;
      Serial(n) && (HasPending(n.sets) <==> HasPending(m.sets) || accept(|m.issued|)) &&
      (!HasPending(m.sets) ==> n.queue == m.queue)
  {
    hide AtMostOne, AllMirrored, HasPending, Send, ActionStart;
    if HasPending(m.sets) {
      SendOk(m, Start(m.sets[i].handle, duration));
    } else {
      StartOk(m, i, duration, accept);
    }
  }

  lemma EnableOk(m: Mgr, h: u8, duration: u16, accept: Answers)
    requires Serial(m)
    ensures var n := Enable(m, h, duration, accept).0; Serial(n) && (Live(m) ==> Live(n))
  {
    hide AtMostOne, AllMirrored, HasPending, StartSetting, StartOrSend;
    var i := Find(m.sets, h);
    if i < |m.sets| && !m.sets[i].enabled {
      var s := m.sets[i];
      if !s.paramSet {
        StartSettingOk(m, i, s.initFlags, accept);
        StartSettingUsed(m, i, s.initFlags, accept);
      }
      var n := if s.paramSet then m else StartSetting(m, i, s.initFlags, accept).0;
      StartOrSendOk(n, i, duration, accept);
      var v := StartOrSend(n, i, duration, accept).0;
      PutEnabled(v, i, v.sets[i].(duration := duration, enabled := true));
    }
  }

  lemma PutEnabled(m: Mgr, i: nat, s: AdvSet)
    requires Serial(m) && i < |m.sets|
    requires s.isUsed == m.sets[i].isUsed && s.pending == m.sets[i].pending && s.state == m.sets[i].state
    ensures Serial(Put(m, i, s)) && HasPending(Put(m, i, s).sets) == HasPending(m.sets)
  {
    assert Mirrored(m.sets[i]);
    PutSame(m, i, s);
  }

  lemma DisableOk(m: Mgr, h: u8, cause: u8, accept: Answers)
    requires Serial(m)
    ensures var n := Disable(m, h, cause, accept).0;
      Serial(n) &&
      (var i := Find(m.sets, h);
       if i < |m.sets| && m.sets[i].enabled then
         (HasPending(n.sets) <==> HasPending(m.sets) || accept(|m.issued|)) &&
         (!HasPending(m.sets) ==> n.queue == m.queue && |n.issued| == |m.issued| + 1)
       else n == m)
  {
    hide AtMostOne, AllMirrored, HasPending, ActionStop, Send;
    var i := Find(m.sets, h);
    if i < |m.sets| && m.sets[i].enabled {
      var v := StopOrSend(m, i, cause, accept).0;
      if HasPending(m.sets) {
        SendOk(m, Stop(m.sets[i].handle, cause));
      } else {
        StopOk(m, i, cause, accept);
        StopIssued(m, i, cause, accept);
      }
      PutEnabled(v, i, v.sets[i].(enabled := false));
    }
  }

  lemma StopIssued(m: Mgr, i: nat, cause: u8, accept: Answers)
    requires i < |m.sets|
    ensures |ActionStop(m, i, cause, accept).issued| == |m.issued| + 1
  {
  }

  lemma DisableUsed(m: Mgr, h: u8, cause: u8, accept: Answers, i: nat)
    requires i < |m.sets| && m.sets[i].isUsed
    ensures var n := Disable(m, h, cause, accept).0;
      n.sets[i].isUsed && n.sets[i].handle == m.sets[i].handle && n.ready == m.ready
  {
    hide HasPending, Send, Find;
    var j := Find(m.sets, h);
    if j < |m.sets| && m.sets[j].enabled && HasPending(m.sets) {
      SendSets(m, Stop(m.sets[j].handle, cause), i);
    }
  }

  lemma {:induction false} DisableFromOk(m: Mgr, i: nat, cause: u8, accept: Answers)
    requires Serial(m) && i <= |m.sets|
    ensures var n := DisableFrom(m, i, cause, accept); Serial(n) && (Live(m) ==> Live(n))
    decreases |m.sets| - i
  {
    hide AtMostOne, AllMirrored, HasPending, Disable;
    if i < |m.sets| {
      if m.sets[i].isUsed && m.sets[i].enabled {
        DisableOk(m, m.sets[i].handle, cause, accept);
        DisableFromOk(Disable(m, m.sets[i].handle, cause, accept).0, i + 1, cause, accept);
      } else {
        DisableFromOk(m, i + 1, cause, accept);
      }
    }
  }

  // ----- Reconfiguring an enabled set -----

  /** Stopping, updating and restarting set i would leave its start queued behind nothing: no command
      is pending, and the stack refuses the stop and does not get or refuses the update. */
  predicate Stranded(m: Mgr, i: nat, accept: Answers)
    requires i < |m.sets|
  {
    m.sets[i].enabled && !HasPending(m.sets) && !accept(|m.issued|) && !(m.ready && accept(|m.issued| + 1))
  }

  lemma ReconfigureOk(m: Mgr, i: nat, flags: Flags, accept: Answers)
    requires Serial(m) && i < |m.sets| && m.sets[i].isUsed && Find(m.sets, m.sets[i].handle) == i
    ensures var n := Reconfigure(m, i, flags, accept).0;
      Serial(n) && (Live(m) ==> (Live(n) <==> !Stranded(m, i, accept)))
  {
    hide AtMostOne, AllMirrored, HasPending, StartSetting, Disable, Send;
    if m.sets[i].enabled {
      var h := m.sets[i].handle;
      var d := Disable(m, h, STOP_FOR_UPDATE, accept).0;
      DisableOk(m, h, STOP_FOR_UPDATE, accept);
      DisableUsed(m, h, STOP_FOR_UPDATE, accept, i);
      var u := StartSetting(d, i, flags, accept).0;
      StartSettingOk(d, i, flags, accept);
      SendOk(u, Start(u.sets[i].handle, u.sets[i].duration));
    } else {
      StartSettingOk(m, i, flags, accept);
    }
  }

  /** The events that can strand a start. */
  predicate Strands(m: Mgr, e: Event, accept: Answers) {
    match e
    case ParamSet(h, _, _, _) =>
      var i := Find(m.sets, h);
      i < |m.sets| && Stranded(m, i, accept)
    case RandomSet(h) =>
      var i := Find(m.sets, h);
      i < |m.sets| && UsesRandom(m.sets[i].own) && Stranded(m, i, accept)
    case MultiSet(h, random, interval, data, scanRsp) =>
      var i := Find(m.sets, h);
      i < |m.sets| && MultiFlags(m.sets[i], random, interval, data, scanRsp) & (SET_RANDOM | SET_PARAS) != 0 &&
      Stranded(m, i, accept)
    case _ => false
  }

  lemma ParamOk(m: Mgr, h: u8, own: OwnAddr, low: nat, high: nat, accept: Answers)
    requires Serial(m)
    ensures var n := SetParam(m, h, own, low, high, accept).0;
      Serial(n) && (Live(m) ==> (Live(n) <==> !Strands(m, ParamSet(h, own, low, high), accept)))
  {
    hide AtMostOne, AllMirrored, HasPending, Reconfigure, To16;
    var i := Find(m.sets, h);
    if i < |m.sets| {
      var s := m.sets[i].(own := own, intervalMin := To16(low), intervalMax := To16(high));
      PutEnabled(m, i, s);
      FindPut(m.sets, i, s);
      ReconfigureOk(Put(m, i, s), i, SET_PARAS, accept);
    }
  }

  lemma RandomOk(m: Mgr, h: u8, accept: Answers)
    requires Serial(m)
    ensures var n := SetRandom(m, h, accept).0;
      Serial(n) && (Live(m) ==> (Live(n) <==> !Strands(m, RandomSet(h), accept)))
  {
    hide AtMostOne, AllMirrored, HasPending, Reconfigure;
    var i := Find(m.sets, h);
    if i < |m.sets| && UsesRandom(m.sets[i].own) { ReconfigureOk(m, i, SET_RANDOM, accept); }
  }

  lemma MultiOk(m: Mgr, h: u8, random: bool, interval: u16, data: bool, scanRsp: bool, accept: Answers)
    requires Serial(m)
    ensures var n := SetMulti(m, h, random, interval, data, scanRsp, accept).0;
      Serial(n) && (Live(m) ==> (Live(n) <==> !Strands(m, MultiSet(h, random, interval, data, scanRsp), accept)))
  {
    hide AtMostOne, AllMirrored, HasPending, Reconfigure, StartSetting, MultiFlags;
    var i := Find(m.sets, h);
    if i < |m.sets| {
      var f := MultiFlags(m.sets[i], random, interval, data, scanRsp);
      ReconfigureOk(m, i, f, accept);
      StartSettingOk(m, i, f, accept);
      var v := if f & (SET_RANDOM | SET_PARAS) != 0 then Reconfigure(m, i, f, accept).0 else StartSetting(m, i, f, accept).0;
      PutEnabled(v, i, v.sets[i].(paramSet := true));
      assert f == 0 ==> f & (SET_RANDOM | SET_PARAS) == 0;
    }
  }

  // ----- What the stack reports -----

  lemma StateOk(m: Mgr, h: u8, new_: AdvState, cause: u16, accept: Answers)
    requires Serial(m) && Legal(m, StateChanged(h, new_, cause))
    ensures var n := HandleState(m, h, new_, cause, accept); Serial(n) && (Live(m) ==> Live(n))
  {
    hide NextStep;
    var i := Find(m.sets, h);
    if i < |m.sets| {
      var was := m.sets[i];
      assert Mirrored(was);
      var s := CheckState(was.(state := new_), cause, true);
      if was.state == Starting {
        PutDone(m, i, Settled(s, StartPending));
        NextStepOk(Put(m, i, Settled(s, StartPending)), accept);
      } else if was.state == Stopping {
        PutDone(m, i, Settled(s, StopPending));
        NextStepOk(Put(m, i, Settled(s, StopPending)), accept);
      } else {
        PutSame(m, i, s);
      }
    }
  }

  lemma SettingOk(m: Mgr, h: u8, accept: Answers)
    requires Serial(m) && Legal(m, SettingDone(h))
    ensures var n := HandleSetting(m, h, accept); Serial(n) && Live(n)
  {
    hide NextStep;
    var i := Find(m.sets, h);
    assert Mirrored(m.sets[i]);
    PutDone(m, i, Settled(m.sets[i], UpdatePending));
    NextStepOk(Put(m, i, Settled(m.sets[i], UpdatePending)), accept);
  }

  lemma {:induction false} OthersShorter(q: seq<Action>, h: u8)
    ensures |Others(q, h)| <= |q|
  {
    if q != [] { OthersShorter(q[1..], h); }
  }

  lemma CreateOk(m: Mgr, h: u8, p: Setup)
    requires Serial(m)
    ensures var n := Create(m, h, p).0; Serial(n) && (Live(m) ==> Live(n))
  {
    hide InitFlags, To16;
    var i := FirstUnused(m.sets);
    if h != NO_HANDLE && i < |m.sets| {
      assert Mirrored(m.sets[i]);
      PutSame(m, i, m.sets[i].(isUsed := true, handle := h, initFlags := InitFlags(p), own := p.own,
        intervalMin := To16(p.intervalMin), intervalMax := To16(p.intervalMax)));
    }
  }

  // ----- Every step -----

  /** Every step keeps at most one command in flight.  It leaves actions waiting with none in flight
      exactly when it strands a start. */
  lemma StepSerial(m: Mgr, e: Event, accept: Answers)
    requires Serial(m) && Legal(m, e)
    ensures Serial(Step(m, e, accept))
    ensures Live(m) ==> (Live(Step(m, e, accept)) <==> !Strands(m, e, accept))
  {
    hide AtMostOne, AllMirrored, HasPending, Create, StartSetting, Enable, Disable, DisableFrom, SetParam, SetRandom, SetMulti, HandleState, HandleSetting, Others, MultiFlags, Stranded;
    match e
    case Created(h, p) => CreateOk(m, h, p);
    case StackReady =>
    case DataSet(h, flags) =>
      var i := Find(m.sets, h);
      if i < |m.sets| { StartSettingOk(m, i, flags, accept); }
    case Enabled(h, duration) => EnableOk(m, h, duration, accept);
    case Disabled(h, cause) => DisableOk(m, h, cause, accept);
    case AllDisabled(cause) => DisableFromOk(m, 0, cause, accept);
    case ParamSet(h, own, low, high) => ParamOk(m, h, own, low, high, accept);
    case RandomSet(h) => RandomOk(m, h, accept);
    case MultiSet(h, random, interval, data, scanRsp) => MultiOk(m, h, random, interval, data, scanRsp, accept);
    case StateChanged(h, s, cause) => StateOk(m, h, s, cause, accept);
    case SettingDone(h) => SettingOk(m, h, accept);
    case LinkUp(h) =>
      OthersShorter(m.queue, h);
      if m.queue == [] { OthersNone(h); }
  }

  lemma OthersNone(h: u8)
    ensures Others([], h) == []
  {
  }

  /** A completion is reported: the stack leaves a transient state, or an update is done. */
  predicate Completes(m: Mgr, e: Event) {
    match e
    case StateChanged(h, _, _) =>
      var i := Find(m.sets, h);
      i < |m.sets| && (m.sets[i].state == Starting || m.sets[i].state == Stopping)
    case SettingDone(_) => true
    case _ => false
  }

  /** Whatever was stranded, the next completion takes at least one waiting action and leaves none
      waiting with nothing in flight. */
  lemma CompletionRecovers(m: Mgr, e: Event, accept: Answers)
    requires Serial(m) && Legal(m, e) && Completes(m, e)
    ensures var n := Step(m, e, accept); Live(n) && (m.queue != [] ==> |n.taken| > |m.taken|)
  {
    hide NextStep;
    var i := Find(m.sets, e.handle);
    var was := m.sets[i];
    assert Mirrored(was);
    var v := Put(m, i,
      if e.SettingDone? then Settled(was, UpdatePending)
      else Settled(CheckState(was.(state := e.state), e.reason, true), if was.state == Starting then StartPending else StopPending));
    PutDone(m, i, v.sets[i]);
    NextStepOk(v, accept);
  }

  // ----- Whole runs -----

  predicate NeverStrands(m: Mgr, es: seq<Event>, accept: Answers)
    decreases |es|
  {
    es == [] || (!Strands(m, es[0], accept) && NeverStrands(Step(m, es[0], accept), es[1..], accept))
  }

  predicate AlwaysLive(m: Mgr, es: seq<Event>, accept: Answers)
    decreases |es|
  {
    Live(m) && (es == [] || AlwaysLive(Step(m, es[0], accept), es[1..], accept))
  }

  lemma {:induction false} RunSerial(m: Mgr, es: seq<Event>, accept: Answers)
    requires Serial(m) && Live(m) && LegalRun(m, es, accept)
    ensures Serial(Run(m, es, accept))
    ensures AlwaysLive(m, es, accept) <==> NeverStrands(m, es, accept)
    decreases |es|
  {
    hide Step, Serial, Live, Strands, Legal;
    if es != [] {
      var n := Step(m, es[0], accept);
      StepSerial(m, es[0], accept);
      if Live(n) {
        RunSerial(n, es[1..], accept);
      } else {
        RunStaysSerial(n, es[1..], accept);
        NotLive(n, es[1..], accept);
      }
    }
  }

  lemma NotLive(m: Mgr, es: seq<Event>, accept: Answers)
    requires !Live(m)
    ensures !AlwaysLive(m, es, accept)
  {
  }

  lemma {:induction false} RunStaysSerial(m: Mgr, es: seq<Event>, accept: Answers)
    requires Serial(m) && LegalRun(m, es, accept)
    ensures Serial(Run(m, es, accept))
    decreases |es|
  {
    hide Step, Serial, Live, Strands, Legal;
    if es != [] {
      StepSerial(m, es[0], accept);
      RunStaysSerial(Step(m, es[0], accept), es[1..], accept);
    }
  }

  /** The serializer theorem, over every run from an empty manager. */
  lemma AdvertisingSerialized(m: Mgr, es: seq<Event>, accept: Answers)
    requires Initial(m) && LegalRun(m, es, accept)
    ensures var r := Run(m, es, accept);
      |r.queue| <= QUEUE_MAX &&
      forall i, j :: 0 <= i < |r.sets| && 0 <= j < |r.sets| && InFlight(r.sets[i]) && InFlight(r.sets[j]) ==> i == j
    ensures AlwaysLive(m, es, accept) <==> NeverStrands(m, es, accept)
  {
    forall i | 0 <= i < |m.sets| ensures m.sets[i] == UNUSED { assert m.sets[i] in m.sets; }
    RunSerial(m, es, accept);
  }

  // ----- A run that strands a start -----

  predicate TwoAccepted(n: nat) { n < 2 }

  function ExampleSetup(): Setup { Setup(Public, 0x20, 0x30, false, false, false, false, false) }

  function ExampleRun(): seq<Event> {
    [Created(0, ExampleSetup()), StackReady, Enabled(0, 0), SettingDone(0), StateChanged(0, Starting, 0),
     StateChanged(0, Advertising, 0), ParamSet(0, Public, 0x40, 0x50)]
  }

  /** The set of the example as it advertises. */
  function ExampleSet(): AdvSet {
    UNUSED.(isUsed := true, handle := 0, initFlags := 0, own := Public, intervalMin := 0x20, intervalMax := 0x30,
            paramSet := true, enabled := true, state := Advertising)
  }

  lemma ExampleAdvertises()
    ensures
      var m := Mgr([UNUSED], [], false, [], [], []);
      var r := Run(m, ExampleRun()[..6], TwoAccepted);
      Initial(m) && LegalRun(m, ExampleRun()[..6], TwoAccepted) &&
      r.sets == [ExampleSet()] && r.queue == [] && r.ready && |r.issued| == 2
  {
    hide Step, Legal;
    var es, y := ExampleRun(), TwoAccepted;
    var m := Mgr([UNUSED], [], false, [], [], []);
    ExampleCreated(y);
    var m2 := Step(Step(m, es[0], y), es[1], y);
    var s1 := CreatedSet();
    ExampleEnabled(m2, s1, y);
    var m3 := Step(m2, es[2], y);
    var s3 := s1.(pending := UpdatePending, paramSet := true, initFlags := 0, enabled := true, pendingNum := 1);
    ExampleStarted(m3, s3, y);
    var s4 := s3.(pending := StartPending, pendingNum := 0);
    ExampleReported(Step(m3, es[3], y), s4, y);
    RunSteps(m, es[0], es[1], es[2], es[3], es[4], es[5], y);
    assert es[..6] == [es[0], es[1], es[2], es[3], es[4], es[5]];
  }

  function CreatedSet(): AdvSet {
    UNUSED.(isUsed := true, handle := 0, initFlags := SET_PARAS, own := Public, intervalMin := 0x20, intervalMax := 0x30)
  }

  lemma ExampleCreated(y: Answers)
    ensures
      var m := Mgr([UNUSED], [], false, [], [], []);
      var n := Step(Step(m, Created(0, ExampleSetup()), y), StackReady, y);
      Initial(m) && n == m.(sets := [CreatedSet()], ready := true) &&
      Legal(m, Created(0, ExampleSetup())) && Legal(Step(m, Created(0, ExampleSetup()), y), StackReady)
  {
    var m := Mgr([UNUSED], [], false, [], [], []);
    assert InitFlags(ExampleSetup()) == SET_PARAS;
    assert Step(m, Created(0, ExampleSetup()), y).sets == [CreatedSet()];
  }

  lemma ExampleEnabled(m: Mgr, s: AdvSet, y: Answers)
    requires m.sets == [s] && s.isUsed && s.handle == 0 && !s.enabled && !s.paramSet && s.pending == NoPending && s.pendingNum == 0
    requires m.queue == [] && m.ready && m.issued == [] && y(0) && s.initFlags == SET_PARAS && s.duration == 0
    ensures
      var n := Step(m, Enabled(0, 0), y);
      Legal(m, Enabled(0, 0)) && n.sets == [s.(pending := UpdatePending, paramSet := true, initFlags := 0, enabled := true, pendingNum := 1)] &&
      n.queue == [Start(0, 0)] && |n.issued| == 1 && n.ready
  {
    assert Find(m.sets, 0) == 0 && !HasPending(m.sets);
    assert FullFlags(s, s.initFlags) & SET_PARAS != 0;
    var u := StartSetting(m, 0, s.initFlags, y).0;
    var b := s.(pending := UpdatePending, paramSet := true, initFlags := 0);
    assert u.sets == [b];
    assert InFlight(u.sets[0]) && Find(u.sets, 0) == 0;
    var v := Send(u, Start(0, 0)).0;
    assert v.sets == [b.(pendingNum := 1)];
  }

  lemma ExampleStarted(m: Mgr, s: AdvSet, y: Answers)
    requires m.sets == [s] && s.isUsed && s.handle == 0 && s.pending == UpdatePending && s.state == Quiet && s.pendingNum == 1
    requires m.queue == [Start(0, 0)] && |m.issued| == 1 && y(1)
    ensures
      var n := Step(m, SettingDone(0), y);
      Legal(m, SettingDone(0)) && n.sets == [s.(pending := StartPending, pendingNum := 0)] && n.queue == [] && |n.issued| == 2 && n.ready == m.ready
  {
    assert Find(m.sets, 0) == 0;
    var p := Put(m, 0, Settled(s, UpdatePending));
    assert p.sets == [s.(pending := NoPending)];
    assert Find(p.sets, 0) == 0;
    var n := Execute(Take(p), Start(0, 0), y).0;
    assert n.sets == [s.(pending := StartPending, pendingNum := 0)];
    assert NextStep(p, y) == n;
  }

  lemma ExampleReported(m: Mgr, s: AdvSet, y: Answers)
    requires m.sets == [s] && s.isUsed && s.handle == 0 && s.pending == StartPending && s.state == Quiet && m.queue == []
    ensures
      var k := Step(m, StateChanged(0, Starting, 0), y);
      var n := Step(k, StateChanged(0, Advertising, 0), y);
      Legal(m, StateChanged(0, Starting, 0)) && Legal(k, StateChanged(0, Advertising, 0)) &&
      n == m.(sets := [s.(state := Advertising, pending := NoPending, pendingCause := 0)])
  {
    assert Find(m.sets, 0) == 0;
    var k := Step(m, StateChanged(0, Starting, 0), y);
    assert k.sets == [s.(state := Starting, pendingCause := 0)];
    assert Find(k.sets, 0) == 0;
  }

  lemma RunSteps(m: Mgr, e1: Event, e2: Event, e3: Event, e4: Event, e5: Event, e6: Event, y: Answers)
    ensures
      var m2 := Step(Step(m, e1, y), e2, y);
      var m4 := Step(Step(m2, e3, y), e4, y);
      Run(m, [e1, e2, e3, e4, e5, e6], y) == Step(Step(m4, e5, y), e6, y) &&
      (LegalRun(m, [e1, e2, e3, e4, e5, e6], y) <==>
        Legal(m, e1) && Legal(Step(m, e1, y), e2) && Legal(m2, e3) && Legal(Step(m2, e3, y), e4) && Legal(m4, e5) &&
        Legal(Step(m4, e5, y), e6))
  {
    hide Step, Legal;
    RunCons(m, e1, [e2, e3, e4, e5, e6], y);
    var m1 := Step(m, e1, y);
    RunCons(m1, e2, [e3, e4, e5, e6], y);
    var m2 := Step(m1, e2, y);
    RunCons(m2, e3, [e4, e5, e6], y);
    var m3 := Step(m2, e3, y);
    RunCons(m3, e4, [e5, e6], y);
    var m4 := Step(m3, e4, y);
    RunCons(m4, e5, [e6], y);
    RunCons(Step(m4, e5, y), e6, [], y);
  }

  lemma RunCons(m: Mgr, e: Event, es: seq<Event>, y: Answers)
    ensures Run(m, [e] + es, y) == Run(Step(m, e, y), es, y)
    ensures LegalRun(m, [e] + es, y) <==> Legal(m, e) && LegalRun(Step(m, e, y), es, y)
  {
    hide Step, Legal;
    assert ([e] + es)[0] == e && ([e] + es)[1..] == es;
  }

  lemma {:induction false} RunConcat(m: Mgr, a: seq<Event>, b: seq<Event>, y: Answers)
    ensures Run(m, a + b, y) == Run(Run(m, a, y), b, y)
    ensures LegalRun(m, a + b, y) <==> LegalRun(m, a, y) && LegalRun(Run(m, a, y), b, y)
    decreases |a|
  {
    hide Step, Legal;
    if a == [] {
      assert a + b == b;
    } else {
      assert (a + b)[0] == a[0] && (a + b)[1..] == a[1..] + b;
      RunConcat(Step(m, a[0], y), a[1..], b, y);
    }
  }

  lemma {:induction false} LiveAtEnd(m: Mgr, es: seq<Event>, y: Answers)
    ensures AlwaysLive(m, es, y) ==> Live(Run(m, es, y))
    decreases |es|
  {
    hide Step, Live;
    if es != [] { LiveAtEnd(Step(m, es[0], y), es[1..], y); }
  }

  /** A start is stranded: a set is created, enabled, configured and started, and when it is then
      reconfigured the stack refuses both the stop and the update.  Its start waits and nothing is in
      flight. */
  lemma StrandedExample()
    ensures
      var m := Mgr([UNUSED], [], false, [], [], []);
      var r := Run(m, ExampleRun(), TwoAccepted);
      Initial(m) && LegalRun(m, ExampleRun(), TwoAccepted) &&
      r.queue == [Start(0, 0)] && !HasPending(r.sets) && !AlwaysLive(m, ExampleRun(), TwoAccepted)
  {
    var es := ExampleRun();
    var m := Mgr([UNUSED], [], false, [], [], []);
    ExampleAdvertises();
    var a := Run(m, es[..6], TwoAccepted);
    assert es == es[..6] + [es[6]];
    RunConcat(m, es[..6], [es[6]], TwoAccepted);
    RunCons(a, es[6], [], TwoAccepted);
    assert [es[6]] + [] == [es[6]];
    StrandedStep(a);
    LiveAtEnd(m, es, TwoAccepted);
  }

  lemma StrandedStep(m: Mgr)
    requires m.sets == [ExampleSet()] && m.queue == [] && m.ready && |m.issued| == 2
    ensures
      var n := Step(m, ParamSet(0, Public, 0x40, 0x50), TwoAccepted);
      n.queue == [Start(0, 0)] && !HasPending(n.sets) && !Live(n)
  {
    assert Find(m.sets, 0) == 0 && !HasPending(m.sets);
    var s' := ExampleSet().(own := Public, intervalMin := 0x40, intervalMax := 0x50);
    var p := Put(m, 0, s');
    assert p.sets == [s'];
    assert Find(p.sets, 0) == 0 && !HasPending(p.sets);
    var d := Disable(p, 0, STOP_FOR_UPDATE, TwoAccepted).0;
    assert d.sets == [s'.(appCause := STOP_FOR_UPDATE)] && !HasPending(d.sets);
    var u := StartSetting(d, 0, SET_PARAS, TwoAccepted).0;
    assert u.sets == d.sets && u.queue == [];
    var n := Send(u, Start(0, 0)).0;
    assert |n.sets| == 1 && n.sets[0].pending == NoPending;
  }
}
