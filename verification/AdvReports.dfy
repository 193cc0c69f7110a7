/** What the stack's reports do to an advertising set, and what the application's settings become, said
    of the sets and commands themselves. */
module AdvReports {
  import opened Widths
  import opened AdvActions
  import opened AdvSerializer

  // ----- Reports -----

  /** Does an enabled set stay enabled?  Not once it has stopped, unless the host stopped it for an
      update; while starts or stops are queued for it, unless it got a connection. */
  predicate StaysEnabled(s: AdvSet, g: AdvState, cause: u16) {
    s.enabled &&
    (g != Quiet ||
     if s.pendingNum != 0 then cause != 0 else cause == 0x144 && s.appCause == 0xFF)
  }

  /** The command the report completes. */
  predicate Completes(s: AdvSet) {
    (s.state == Starting && s.pending == StartPending) || (s.state == Stopping && s.pending == StopPending)
  }

  predicate OthersSame(m: Mgr, p: Mgr, i: nat) {
    |p.sets| == |m.sets| && p == m.(sets := p.sets) && forall k :: 0 <= k < |m.sets| && k != i ==> p.sets[k] == m.sets[k]
  }

  /** A report changes its set's state, cause, whether it is enabled, and completes a pending start or
      stop; it then serves the queue if the set was starting or stopping.  One for an unknown set does
      nothing. */
  lemma StateReported(m: Mgr, h: u8, g: AdvState, cause: u16, accept: Answers) returns (p: Mgr)
    ensures
      var i, n := Find(m.sets, h), Step(m, StateChanged(h, g, cause), accept);
      if i == |m.sets| then n == m
      else
        var s := m.sets[i];
        OthersSame(m, p, i) &&
        p.sets[i] == s.(state := g, pendingCause := cause, enabled := StaysEnabled(s, g, cause),
                        pending := if Completes(s) then NoPending else s.pending) &&
        n == if s.state == Starting || s.state == Stopping then NextStep(p, accept) else p
  {
    hide NextStep;
    p := m;
    var i := Find(m.sets, h);
    if i < |m.sets| {
      var s := m.sets[i];
      p := Put(m, i, s.(state := g, pendingCause := cause, enabled := StaysEnabled(s, g, cause),
                        pending := if Completes(s) then NoPending else s.pending));
    }
  }

  /** The end of an update completes it, and the queue is served. */
  lemma SettingReported(m: Mgr, h: u8, accept: Answers) returns (p: Mgr)
    ensures
      var i, n := Find(m.sets, h), Step(m, SettingDone(h), accept);
      n == NextStep(p, accept) &&
      if i == |m.sets| then p == m
      else
        OthersSame(m, p, i) &&
        p.sets[i] == m.sets[i].(pending := if m.sets[i].pending == UpdatePending then NoPending else m.sets[i].pending)
  {
    hide NextStep;
    p := m;
    var i := Find(m.sets, h);
    if i < |m.sets| {
      p := Put(m, i, m.sets[i].(pending := if m.sets[i].pending == UpdatePending then NoPending else m.sets[i].pending));
      assert m.sets[i := m.sets[i]] == m.sets;
    }
  }

  // ----- Serving the queue -----

  predicate SameNames(a: seq<AdvSet>, b: seq<AdvSet>) {
    |a| == |b| && forall k :: 0 <= k < |a| ==> a[k].isUsed == b[k].isUsed && a[k].handle == b[k].handle
  }

  lemma {:induction false} SameFound(a: seq<AdvSet>, b: seq<AdvSet>, h: u8)
    requires SameNames(a, b)
    ensures Find(a, h) == Find(b, h)
  {
    if a != [] { SameFound(a[1..], b[1..], h); }
  }

  /** n has the sets of m but for the i-th, which keeps its name and state and is not enabled anew. */
  ghost predicate Touches(m: Mgr, n: Mgr, i: nat) {
    |n.sets| == |m.sets| && forall k :: 0 <= k < |m.sets| ==>
      if k != i then n.sets[k] == m.sets[k]
      else
        n.sets[k].isUsed == m.sets[k].isUsed && n.sets[k].handle == m.sets[k].handle && n.sets[k].state == m.sets[k].state &&
        (n.sets[k].enabled ==> m.sets[k].enabled)
  }

  lemma ActionTouches(m: Mgr, i: nat, duration: u16, cause: u8, accept: Answers)
    requires i < |m.sets|
    ensures Touches(m, ActionStart(m, i, duration, accept), i)
    ensures Touches(m, ActionStop(m, i, cause, accept), i)
    ensures Touches(m, Uncount(m, i), i)
  {
    hide To8;
  }

  lemma UpdateTouches(m: Mgr, i: nat, flags: Flags, accept: Answers)
    requires i < |m.sets|
    ensures Touches(m, ActionUpdate(m, i, flags, accept), i)
    ensures ActionUpdate(m, i, flags, accept).sets[i].enabled == m.sets[i].enabled
  {
    hide FullFlags;
  }

  lemma RecheckTouches(m: Mgr, i: nat)
    requires i < |m.sets|
    ensures Touches(m, Recheck(m, i), i)
  {
  }

  lemma TouchesAgain(m: Mgr, n: Mgr, v: Mgr, i: nat)
    requires Touches(m, n, i) && Touches(n, v, i)
    ensures Touches(m, v, i)
  {
  }

  /** Carrying out an action touches its own set only, and an update keeps that one enabled. */
  lemma ExecuteSets(m: Mgr, a: Action, accept: Answers)
    ensures
      var n, j := Execute(m, a, accept).0, Find(m.sets, a.handle);
      if j == |m.sets| then n == m
      else Touches(m, n, j) && (a.Update? ==> n.sets[j].enabled == m.sets[j].enabled)
  {
    hide Touches, ActionStart, ActionStop, ActionUpdate, Recheck, Uncount;
    var i := Find(m.sets, a.handle);
    if i < |m.sets| {
      var u := Uncount(m, i);
      var duration := if a.Start? then a.duration else 0;
      var cause := if a.Stop? then a.cause else 0;
      ActionTouches(m, i, duration, cause, accept);
      ActionTouches(u, i, duration, cause, accept);
      var x := if a.Start? then ActionStart(u, i, duration, accept) else ActionStop(u, i, cause, accept);
      TouchesAgain(m, u, x, i);
      RecheckTouches(x, i);
      TouchesAgain(m, x, Recheck(x, i), i);
      UpdateTouches(m, i, if a.Update? then a.flags else 0, accept);
    }
  }

  lemma {:induction false} NextStepSets(m: Mgr, i: nat, accept: Answers)
    requires i < |m.sets| && m.sets[i].isUsed && Find(m.sets, m.sets[i].handle) == i
    ensures
      var n, h := NextStep(m, accept), m.sets[i].handle;
      |n.sets| == |m.sets| && Find(n.sets, h) == i && n.sets[i].isUsed && n.sets[i].handle == h &&
      n.sets[i].state == m.sets[i].state &&
      (n.sets[i].enabled ==> m.sets[i].enabled) &&
      ((forall a :: a in m.queue && a.handle == h ==> a.Update?) ==> n.sets[i].enabled == m.sets[i].enabled)
    decreases |m.queue|
  {
    hide Execute, Find;
    if m.queue != [] {
      var a, h := m.queue[0], m.sets[i].handle;
      assert a in m.queue && m.queue == [a] + m.queue[1..];
      var (n, done) := Execute(Take(m), a, accept);
      ExecuteSets(Take(m), a, accept);
      assert SameNames(m.sets, n.sets);
      SameFound(m.sets, n.sets, h);
      FoundHandle(m.sets, a.handle);
      if !done { NextStepSets(n, i, accept); }
    }
  }

  lemma FoundHandle(sets: seq<AdvSet>, h: u8)
    ensures Find(sets, h) < |sets| ==> sets[Find(sets, h)].handle == h
  {
  }

  // ----- Stopping and enabling again -----

  /** The report theorem, for every manager and known set: afterwards it has the state reported, and is
      enabled only if it stays so, and then is unless a start or stop queued for it was carried out. */
  lemma EnabledAfterReport(m: Mgr, h: u8, g: AdvState, cause: u16, accept: Answers)
    requires Find(m.sets, h) < |m.sets|
    ensures
      var n, i := Step(m, StateChanged(h, g, cause), accept), Find(m.sets, h);
      |n.sets| == |m.sets| && Find(n.sets, h) == i && n.sets[i].state == g &&
      (n.sets[i].enabled ==> StaysEnabled(m.sets[i], g, cause)) &&
      ((forall a :: a in m.queue && a.handle == h ==> a.Update?) ==> (n.sets[i].enabled <==> StaysEnabled(m.sets[i], g, cause)))
  {
    hide Step, Find, NextStep, StaysEnabled, Completes;
    var i := Find(m.sets, h);
    FoundUsed(m.sets, h);
    var p := StateReported(m, h, g, cause, accept);
    SameFound(m.sets, p.sets, h);
    NextStepSets(p, i, accept);
  }

  lemma FoundUsed(sets: seq<AdvSet>, h: u8)
    requires Find(sets, h) < |sets|
    ensures sets[Find(sets, h)].isUsed && sets[Find(sets, h)].handle == h
  {
  }

  /** A set that has stopped on its own, because it timed out, got a connection or failed, is disabled and
      can be enabled again: with the parameters set, exactly when the stack accepts the start, or there is
      room for it behind what is pending. */
  lemma StoppedEnablesAgain(m: Mgr, h: u8, cause: u16, duration: u16, accept: Answers)
    requires Find(m.sets, h) < |m.sets|
    requires cause == 0 || (m.sets[Find(m.sets, h)].pendingNum == 0 && cause != 0x144)
    ensures
      var n, i := Step(m, StateChanged(h, Quiet, cause), accept), Find(m.sets, h);
      var (v, r) := Enable(n, h, duration, accept);
      i < |n.sets| && !n.sets[i].enabled && r != InvalidState && r != NotFound &&
      (n.sets[i].paramSet ==>
        (r == Success <==> (if HasPending(n.sets) then |n.queue| < 50 else accept(|n.issued|))) &&
        (r == Success ==>
          i < |v.sets| && v.sets[i].enabled && v.sets[i].duration == duration &&
          if HasPending(n.sets) then v.queue == n.queue + [AdvActions.Start(h, duration)]
          else v.issued == n.issued + [Command(AdvActions.Start(h, duration), true)]))
  {
    hide Step, Find, NextStep, HasPending, FullFlags;
    EnabledAfterReport(m, h, Quiet, cause, accept);
    var n := Step(m, StateChanged(h, Quiet, cause), accept);
    FoundUsed(n.sets, h);
    FoundUsed(m.sets, h);
  }

  // ----- What a set is configured with -----

  /** A set is created to be configured with its parameters, with a random address if one is given and
      used, with data unless it is directed, and with a scan response if it is scannable. */
  lemma CreatedFlags(m: Mgr, h: u8, p: Setup, accept: Answers)
    requires h != 0xFF && FirstUnused(m.sets) < |m.sets|
    ensures
      var i, n := FirstUnused(m.sets), Step(m, Created(h, p), accept);
      OthersSame(m, n, i) && n.sets[i].isUsed && n.sets[i].handle == h && n.sets[i].own == p.own &&
      n.sets[i].intervalMin == p.intervalMin % 0x10000 && n.sets[i].intervalMax == p.intervalMax % 0x10000 &&
      var f := n.sets[i].initFlags;
      f & 0x01 != 0 && f & 0xF0 == 0 &&
      (f & 0x02 != 0 <==> p.data && !p.directed) &&
      (f & 0x04 != 0 <==> p.scanRsp && p.scannable) &&
      (f & 0x08 != 0 <==> p.random && (p.own == Random || p.own == RapOrRandom))
  {
    InitBits(p);
    hide InitFlags;
  }

  lemma InitBits(p: Setup)
    ensures
      var f := InitFlags(p);
      f & 0x01 != 0 && f & 0xF0 == 0 && (f & 0x02 != 0 <==> p.data && !p.directed) &&
      (f & 0x04 != 0 <==> p.scanRsp && p.scannable) && (f & 0x08 != 0 <==> p.random && (p.own == Random || p.own == RapOrRandom))
  {
    ThreeBits(if p.random && UsesRandom(p.own) then SET_RANDOM else 0, if p.data && !p.directed then SET_DATA else 0,
      if p.scanRsp && p.scannable then SET_SCAN_RSP else 0);
  }

  lemma ThreeBits(r: Flags, d: Flags, c: Flags)
    requires (r == 0 || r == 8) && (d == 0 || d == 2) && (c == 0 || c == 4)
    ensures
      var f := 1 | r | d | c;
      f & 1 != 0 && f & 0xF0 == 0 && (f & 2 != 0 <==> d == 2) && (f & 4 != 0 <==> c == 4) && (f & 8 != 0 <==> r == 8)
  {
  }

  /** Until its parameters are set, every update of a set also configures what it was created with, and
      its parameters; afterwards exactly what is asked for. */
  lemma UpdateBits(m: Mgr, i: nat, flags: Flags, accept: Answers, bit: Flags)
    requires i < |m.sets| && (bit == 0x01 || bit == 0x02 || bit == 0x04 || bit == 0x08)
    ensures
      var s, n := m.sets[i], ActionUpdate(m, i, flags, accept);
      |n.issued| == |m.issued| + 1 && m.issued <= n.issued &&
      var x := n.issued[|m.issued|];
      x.accepted == accept(|m.issued|) && x.what.Update? && x.what.handle == s.handle &&
      (x.what.flags & bit != 0 <==> flags & bit != 0 || (!s.paramSet && (bit == 0x01 || s.initFlags & bit != 0)))
  {
    OrBits(flags, m.sets[i].initFlags, bit);
  }

  lemma OrBits(a: Flags, b: Flags, bit: Flags)
    requires bit == 0x01 || bit == 0x02 || bit == 0x04 || bit == 0x08
    ensures (a | b | 0x01) & bit != 0 <==> a & bit != 0 || b & bit != 0 || bit == 0x01
    ensures (a | b) & bit != 0 <==> a & bit != 0 || b & bit != 0
  {
    assert (a | b | 0x01) & bit == (a & bit) | (b & bit) | (0x01 & bit);
    assert (a | b) & bit == (a & bit) | (b & bit);
  }

  /** Setting several things at once asks for what is given, for the address only where it is used, for
      the parameters when the interval lies outside the present ones, and for what creation left. */
  lemma MultiBits(s: AdvSet, random: bool, interval: u16, data: bool, scanRsp: bool)
    ensures
      var f := MultiFlags(s, random, interval, data, scanRsp);
      (f & 0x01 != 0 <==> s.initFlags & 0x01 != 0 || interval <= s.intervalMin || interval >= s.intervalMax) &&
      (f & 0x02 != 0 <==> s.initFlags & 0x02 != 0 || data) &&
      (f & 0x04 != 0 <==> s.initFlags & 0x04 != 0 || scanRsp) &&
      (f & 0x08 != 0 <==> s.initFlags & 0x08 != 0 || (random && (s.own == Random || s.own == RapOrRandom)))
  {
    FourBits(s.initFlags, if random && UsesRandom(s.own) then SET_RANDOM else 0,
      if interval <= s.intervalMin || interval >= s.intervalMax then SET_PARAS else 0,
      if data then SET_DATA else 0, if scanRsp then SET_SCAN_RSP else 0);
  }

  lemma FourBits(a: Flags, r: Flags, p: Flags, d: Flags, c: Flags)
    requires (r == 0 || r == 8) && (p == 0 || p == 1) && (d == 0 || d == 2) && (c == 0 || c == 4)
    ensures
      var f := a | r | p | d | c;
      (f & 1 != 0 <==> a & 1 != 0 || p == 1) && (f & 2 != 0 <==> a & 2 != 0 || d == 2) &&
      (f & 4 != 0 <==> a & 4 != 0 || c == 4) && (f & 8 != 0 <==> a & 8 != 0 || r == 8)
  {
  }

  /** Setting data, or anything of a set that is not enabled, gives the stack one update of what is asked
      for, or queues it behind what is pending; a manager that is not ready, or does not know the set,
      does nothing. */
  lemma SettingSent(m: Mgr, h: u8, flags: Flags, accept: Answers)
    ensures
      var i, (n, r) := Find(m.sets, h), SetData(m, h, flags, accept);
      if i == |m.sets| then n == m && r == NotFound
      else if !m.ready then n == m && r == InvalidState
      else if HasPending(m.sets) then
        n.issued == m.issued && n.sets == m.sets &&
        n.queue == (if |m.queue| < 50 then m.queue + [Update(h, flags)] else m.queue) && (r == Success <==> |m.queue| < 50)
      else n == ActionUpdate(m, i, flags, accept) && (r == Success <==> accept(|m.issued|))
    ensures
      var i := Find(m.sets, h);
      i < |m.sets| && !m.sets[i].enabled && m.sets[i].own != Public && m.sets[i].own != RapOrPublic ==>
        SetRandom(m, h, accept) == (SetData(m, h, 0x08, accept).0, Success)
  {
    hide HasPending, ActionUpdate;
  }

  // ----- Commands and their answers -----

  /** A start or stop is given to the stack as asked.  Accepted, it is pending; a refused start disables
      the set, a refused stop leaves it as it was but for the application's cause. */
  lemma CommandsAnswered(m: Mgr, i: nat, duration: u16, cause: u8, accept: Answers)
    requires i < |m.sets|
    ensures
      var s, ok := m.sets[i], accept(|m.issued|);
      var n, v := ActionStart(m, i, duration, accept), ActionStop(m, i, cause, accept);
      OthersSame(m, n.(issued := m.issued), i) && OthersSame(m, v.(issued := m.issued), i) &&
      n.issued == m.issued + [Command(AdvActions.Start(s.handle, duration), ok)] &&
      n.sets[i] == (if ok then s.(pending := StartPending) else s.(enabled := false)) &&
      v.issued == m.issued + [Command(Stop(s.handle, cause), ok)] &&
      v.sets[i] == s.(appCause := cause, pending := if ok then StopPending else s.pending)
  {
  }

  /** Setting the parameters stores them, cut to 16 bits, and of a set that is not enabled asks for an
      update of the parameters, as SettingSent has it; an unknown set is reported. */
  lemma ParamsStored(m: Mgr, h: u8, own: OwnAddr, low: nat, high: nat, accept: Answers)
    ensures
      var i, (n, r) := Find(m.sets, h), SetParam(m, h, own, low, high, accept);
      if i == |m.sets| then n == m && r == NotFound
      else
        var p := m.(sets := m.sets[i := m.sets[i].(own := own, intervalMin := low % 0x10000, intervalMax := high % 0x10000)]);
        r == Success && (!m.sets[i].enabled ==> n == SetData(p, h, 0x01, accept).0)
  {
    hide StartSetting, HasPending;
    var i := Find(m.sets, h);
    if i < |m.sets| {
      FindPut(m.sets, i, m.sets[i].(own := own, intervalMin := low % 0x10000, intervalMax := high % 0x10000));
    }
  }

  /** Setting several things at once with nothing to set is refused; of a set that is not enabled it asks
      for what MultiBits says, and then counts its parameters as set if they are among it. */
  lemma MultiSent(m: Mgr, h: u8, random: bool, interval: u16, data: bool, scanRsp: bool, accept: Answers)
    requires Find(m.sets, h) < |m.sets| && !m.sets[Find(m.sets, h)].enabled
    ensures
      var i, (n, r) := Find(m.sets, h), SetMulti(m, h, random, interval, data, scanRsp, accept);
      var f := MultiFlags(m.sets[i], random, interval, data, scanRsp);
      var (v, q) := SetData(m, h, f, accept);
      if f == 0 then n == m && r == InvalidParam
      else
        i < |v.sets| && r == q &&
        n == if r == Success && f & 0x01 != 0 then v.(sets := v.sets[i := v.sets[i].(paramSet := true)]) else v
  {
    hide StartSetting, HasPending, MultiFlags;
  }

  /** Reconfiguring an enabled set with nothing pending: the stop goes out marked as being for an update,
      and behind it wait the update of what is asked for and the start, as long as before. */
  lemma ReconfigureAsked(m: Mgr, i: nat, flags: Flags, accept: Answers)
    requires i < |m.sets| && m.sets[i].isUsed && m.sets[i].enabled && Find(m.sets, m.sets[i].handle) == i
    requires m.ready && !HasPending(m.sets) && accept(|m.issued|) && |m.queue| <= 48
    ensures
      var s, n := m.sets[i], Reconfigure(m, i, flags, accept).0;
      n.issued == m.issued + [Command(Stop(s.handle, 0xFF), true)] &&
      n.queue == m.queue + [Update(s.handle, flags), AdvActions.Start(s.handle, s.duration)] &&
      |n.sets| == |m.sets| && (forall k :: 0 <= k < |m.sets| && k != i ==> n.sets[k] == m.sets[k]) &&
      n.sets[i] == s.(appCause := 0xFF, pending := StopPending, pendingNum := To8(s.pendingNum + 1))
    ensures
      var h := m.sets[i].handle;
      (UsesRandom(m.sets[i].own) ==> SetRandom(m, h, accept).0 == Reconfigure(m, i, 0x08, accept).0) &&
      forall random, interval, data, scanRsp ::
        var f := MultiFlags(m.sets[i], random, interval, data, scanRsp);
        f & (0x08 | 0x01) != 0 ==>
          SetMulti(m, h, random, interval, data, scanRsp, accept).0 ==
          var (v, r) := Reconfigure(m, i, f, accept);
          if r == Success && f & 0x01 != 0 then v.(sets := v.sets[i := v.sets[i].(paramSet := true)]) else v
  {
    hide To8, MultiFlags;
    Reconfigured(m, i, flags, accept);
    hide Reconfigure;
  }

  lemma Reconfigured(m: Mgr, i: nat, flags: Flags, accept: Answers)
    requires i < |m.sets| && m.sets[i].isUsed && m.sets[i].enabled && Find(m.sets, m.sets[i].handle) == i
    requires m.ready && !HasPending(m.sets) && accept(|m.issued|) && |m.queue| <= 48
    ensures
      var s, n := m.sets[i], Reconfigure(m, i, flags, accept).0;
      n.issued == m.issued + [Command(Stop(s.handle, 0xFF), true)] &&
      n.queue == m.queue + [Update(s.handle, flags), AdvActions.Start(s.handle, s.duration)] &&
      |n.sets| == |m.sets| && (forall k :: 0 <= k < |m.sets| && k != i ==> n.sets[k] == m.sets[k]) &&
      n.sets[i] == s.(appCause := 0xFF, pending := StopPending, pendingNum := To8(s.pendingNum + 1))
  {
    hide Find, To8;
    var s := m.sets[i];
    var t := s.(appCause := 0xFF, pending := StopPending);
    var d := Disable(m, s.handle, STOP_FOR_UPDATE, accept).0;
    assert d.sets == m.sets[i := t] && InFlight(d.sets[i]);
    FindPut(m.sets, i, t);
    var u := StartSetting(d, i, flags, accept).0;
    assert u == d.(queue := m.queue + [Update(s.handle, flags)], sent := d.sent + [Update(s.handle, flags)]);
    assert m.queue + [Update(s.handle, flags)] + [AdvActions.Start(s.handle, s.duration)] ==
      m.queue + [Update(s.handle, flags), AdvActions.Start(s.handle, s.duration)];
  }

  /** A connection drops the queued actions of its set, and only if it knows the set. */
  lemma LinkedDrops(m: Mgr, h: u8, accept: Answers)
    ensures
      var n := Step(m, LinkUp(h), accept);
      n == m.(queue := n.queue) && (Find(m.sets, h) == |m.sets| ==> n == m) &&
      (Find(m.sets, h) < |m.sets| ==> forall a :: a in n.queue <==> a in m.queue && a.handle != h)
  {
    OthersIn(m.queue, h);
  }

  lemma {:induction false} OthersIn(q: seq<Action>, h: u8)
    ensures forall a :: a in Others(q, h) <==> a in q && a.handle != h
  {
    if q != [] {
      OthersIn(q[1..], h);
      assert q == [q[0]] + q[1..];
    }
  }

  // ----- Disabling all sets -----

  /** The stops of the enabled sets from the i-th on. */
  function StopsFrom(sets: seq<AdvSet>, i: nat, cause: u8): seq<Action>
    requires i <= |sets|
    decreases |sets| - i
  {
    if i == |sets| then []
    else (if sets[i].isUsed && sets[i].enabled then [Stop(sets[i].handle, cause)] else []) + StopsFrom(sets, i + 1, cause)
  }

  ghost predicate OneEach(sets: seq<AdvSet>) {
    forall k :: 0 <= k < |sets| && sets[k].isUsed ==> Find(sets, sets[k].handle) == k
  }

  lemma {:induction false} StopsSame(a: seq<AdvSet>, b: seq<AdvSet>, i: nat, cause: u8)
    requires i <= |a| == |b| && forall k :: i <= k < |a| ==> a[k] == b[k]
    ensures StopsFrom(a, i, cause) == StopsFrom(b, i, cause)
    decreases |a| - i
  {
    if i < |a| { StopsSame(a, b, i + 1, cause); }
  }

  /** Disabling one enabled set: its stop goes to the stack, or into the queue behind what is pending. */
  lemma DisableOne(m: Mgr, i: nat, cause: u8, accept: Answers)
    requires i < |m.sets| && m.sets[i].isUsed && m.sets[i].enabled && OneEach(m.sets) && cause != 0xFF
    requires if HasPending(m.sets) then |m.queue| < 50 else accept(|m.issued|)
    ensures
      var n, stop := Disable(m, m.sets[i].handle, cause, accept).0, Stop(m.sets[i].handle, cause);
      |n.sets| == |m.sets| && (forall k :: 0 <= k < |m.sets| && k != i ==> n.sets[k] == m.sets[k]) &&
      n.sets[i].isUsed && n.sets[i].handle == m.sets[i].handle && !n.sets[i].enabled && HasPending(n.sets) && OneEach(n.sets) &&
      if HasPending(m.sets) then n.issued == m.issued && n.queue == m.queue + [stop]
      else n.issued == m.issued + [Command(stop, true)] && n.queue == m.queue
  {
    hide Find, To8;
    var n := Disable(m, m.sets[i].handle, cause, accept).0;
    if HasPending(m.sets) {
      var k :| 0 <= k < |m.sets| && InFlight(m.sets[k]);
      assert InFlight(n.sets[k]);
    } else {
      assert InFlight(n.sets[i]);
    }
    assert SameNames(m.sets, n.sets);
    forall k | 0 <= k < |n.sets| && n.sets[k].isUsed ensures Find(n.sets, n.sets[k].handle) == k {
      SameFound(m.sets, n.sets, n.sets[k].handle);
    }
  }

  lemma {:induction false} DisableRest(m: Mgr, i: nat, cause: u8, accept: Answers)
    requires i <= |m.sets| && OneEach(m.sets) && cause != 0xFF && |m.queue| + |StopsFrom(m.sets, i, cause)| <= 50
    requires HasPending(m.sets) || accept(|m.issued|)
    ensures
      var n, stops := DisableFrom(m, i, cause, accept), StopsFrom(m.sets, i, cause);
      |n.sets| == |m.sets| && (forall k :: 0 <= k < i ==> n.sets[k] == m.sets[k]) &&
      (forall k :: i <= k < |n.sets| ==> !(n.sets[k].isUsed && n.sets[k].enabled)) &&
      if stops == [] then n == m
      else if HasPending(m.sets) then n.issued == m.issued && n.queue == m.queue + stops
      else n.issued == m.issued + [Command(stops[0], true)] && n.queue == m.queue + stops[1..]
    decreases |m.sets| - i
  {
    hide Find, OneEach, HasPending, Disable, StopsFrom;
    StopsNext(m.sets, i, cause);
    if i < |m.sets| {
      if m.sets[i].isUsed && m.sets[i].enabled {
        var d := Disable(m, m.sets[i].handle, cause, accept).0;
        var stop, rest := Stop(m.sets[i].handle, cause), StopsFrom(m.sets, i + 1, cause);
        DisableOne(m, i, cause, accept);
        StopsSame(m.sets, d.sets, i + 1, cause);
        DisableRest(d, i + 1, cause, accept);
        assert m.queue + [stop] + rest == m.queue + ([stop] + rest);
        assert ([stop] + rest)[1..] == rest;
      } else {
        DisableRest(m, i + 1, cause, accept);
      }
    }
  }

  lemma StopsNext(sets: seq<AdvSet>, i: nat, cause: u8)
    requires i <= |sets|
    ensures StopsFrom(sets, i, cause) ==
      if i == |sets| then []
      else if sets[i].isUsed && sets[i].enabled then [Stop(sets[i].handle, cause)] + StopsFrom(sets, i + 1, cause)
      else StopsFrom(sets, i + 1, cause)
  {
  }

  /** With room for the stops and a stack that accepts the first, disabling all leaves no set enabled:
      every enabled one gets its stop, in table order, the first at once if nothing is pending. */
  lemma AllDisabledStop(m: Mgr, cause: u8, accept: Answers)
    requires OneEach(m.sets) && cause != 0xFF && |m.queue| + |StopsFrom(m.sets, 0, cause)| <= 50
    requires HasPending(m.sets) || accept(|m.issued|)
    ensures
      var n, stops := Step(m, AllDisabled(cause), accept), StopsFrom(m.sets, 0, cause);
      (forall s :: s in n.sets ==> !(s.isUsed && s.enabled)) &&
      if stops == [] then n == m
      else if HasPending(m.sets) then n.issued == m.issued && n.queue == m.queue + stops
      else n.issued == m.issued + [Command(stops[0], true)] && n.queue == m.queue + stops[1..]
  {
    hide Find, OneEach, HasPending, DisableFrom;
    DisableRest(m, 0, cause, accept);
  }
}
