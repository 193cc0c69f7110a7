/** Actions that have to wait are carried out in the order they were sent. */
module AdvOrder {
  import opened Widths
  import opened AdvActions
  import opened AdvSerializer

  /** The actions that concern the given sets, in order. */
  function Only(q: seq<Action>, hs: set<u8>): seq<Action> {
    if q == [] then [] else (if q[0].handle in hs then [q[0]] else []) + Only(q[1..], hs)
  }

  lemma {:induction false} OnlyConcat(a: seq<Action>, b: seq<Action>, hs: set<u8>)
    ensures Only(a + b, hs) == Only(a, hs) + Only(b, hs)
  {
    if a == [] {
      assert a + b == b;
    } else {
      assert (a + b)[1..] == a[1..] + b;
      OnlyConcat(a[1..], b, hs);
      var x := if a[0].handle in hs then [a[0]] else [];
      assert x + Only(a[1..], hs) + Only(b, hs) == x + (Only(a[1..], hs) + Only(b, hs));
    }
  }

  /** Deleting one set's actions leaves every other set's. */
  lemma {:induction false} OthersKept(q: seq<Action>, h: u8, hs: set<u8>)
    requires h !in hs
    ensures Only(Others(q, h), hs) == Only(q, hs)
  {
    if q != [] {
      OthersKept(q[1..], h, hs);
      var x := if q[0].handle != h then [q[0]] else [];
      OnlyConcat(x, Others(q[1..], h), hs);
    }
  }

  /** Deletion removes exactly the actions of one set. */
  lemma {:induction false} OthersExactly(q: seq<Action>, h: u8)
    ensures forall a :: a in Others(q, h) <==> a in q && a.handle != h
    ensures multiset(Others(q, h)) + multiset(Only(q, {h})) == multiset(q)
  {
    if q != [] {
      OthersExactly(q[1..], h);
      assert q == [q[0]] + q[1..];
    }
  }

  /** Between m and n actions were only appended to the queue and taken from its front. */
  ghost predicate Flows(m: Mgr, n: Mgr) {
    m.sent <= n.sent && n.taken + n.queue == m.taken + m.queue + n.sent[|m.sent|..]
  }

  lemma FlowsOn(m: Mgr, n: Mgr, v: Mgr)
    requires Flows(m, n) && Flows(n, v)
    ensures Flows(m, v)
  {
    assert v.sent[|m.sent|..] == n.sent[|m.sent|..] + v.sent[|n.sent|..];
    assert m.taken + m.queue + n.sent[|m.sent|..] + v.sent[|n.sent|..] == m.taken + m.queue + (n.sent[|m.sent|..] + v.sent[|n.sent|..]);
  }

  predicate SameQueue(m: Mgr, n: Mgr) {
    n.queue == m.queue && n.sent == m.sent && n.taken == m.taken
  }

  lemma SameFlows(m: Mgr, n: Mgr)
    requires SameQueue(m, n)
    ensures Flows(m, n)
  {
  }

  lemma SendFlows(m: Mgr, a: Action)
    ensures Flows(m, Send(m, a).0)
  {
    var n := Send(m, a).0;
    if |m.queue| < QUEUE_MAX {
      assert n.sent[|m.sent|..] == [a];
      assert m.taken + (m.queue + [a]) == m.taken + m.queue + [a];
    } else {
      SameFlows(m, n);
    }
  }

  lemma {:induction false} NextStepFlows(m: Mgr, accept: Answers)
    ensures Flows(m, NextStep(m, accept))
    decreases |m.queue|
  {
    hide Execute;
    if m.queue == [] {
      SameFlows(m, m);
    } else {
      var n := Execute(Take(m), m.queue[0], accept).0;
      assert n.taken + n.queue == m.taken + m.queue;
      if !Execute(Take(m), m.queue[0], accept).1 {
        NextStepFlows(n, accept);
        FlowsOn(m, n, NextStep(n, accept));
      }
    }
  }

  lemma StartSettingFlows(m: Mgr, i: nat, flags: Flags, accept: Answers)
    requires i < |m.sets|
    ensures Flows(m, StartSetting(m, i, flags, accept).0)
  {
    hide Flows, Send, HasPending;
    SendFlows(m, Update(m.sets[i].handle, flags));
    SameFlows(m, ActionUpdate(m, i, flags, accept));
    SameFlows(m, m);
  }

  lemma EnableFlows(m: Mgr, h: u8, duration: u16, accept: Answers)
    ensures Flows(m, Enable(m, h, duration, accept).0)
  {
    hide Flows, Send, HasPending, StartSetting;
    SameFlows(m, m);
    var i := Find(m.sets, h);
    if i < |m.sets| && !m.sets[i].enabled {
      var s := m.sets[i];
      StartSettingFlows(m, i, s.initFlags, accept);
      var n := if s.paramSet then m else StartSetting(m, i, s.initFlags, accept).0;
      SendFlows(n, Start(n.sets[i].handle, duration));
      SameFlows(n, ActionStart(n, i, duration, accept));
      var v := StartOrSend(n, i, duration, accept).0;
      FlowsOn(m, n, v);
      var w := Put(v, i, v.sets[i].(duration := duration, enabled := true));
      SameFlows(v, w);
      FlowsOn(m, v, w);
    }
  }

  lemma DisableFlows(m: Mgr, h: u8, cause: u8, accept: Answers)
    ensures Flows(m, Disable(m, h, cause, accept).0)
  {
    hide Flows, Send, HasPending;
    SameFlows(m, m);
    var i := Find(m.sets, h);
    if i < |m.sets| && m.sets[i].enabled {
      SendFlows(m, Stop(m.sets[i].handle, cause));
      SameFlows(m, ActionStop(m, i, cause, accept));
      var v := StopOrSend(m, i, cause, accept).0;
      var w := Put(v, i, v.sets[i].(enabled := false));
      SameFlows(v, w);
      FlowsOn(m, v, w);
    }
  }

  lemma {:induction false} DisableFromFlows(m: Mgr, i: nat, cause: u8, accept: Answers)
    requires i <= |m.sets|
    ensures Flows(m, DisableFrom(m, i, cause, accept))
    decreases |m.sets| - i
  {
    hide Flows, Disable;
    SameFlows(m, m);
    if i < |m.sets| {
      if m.sets[i].isUsed && m.sets[i].enabled {
        var n := Disable(m, m.sets[i].handle, cause, accept).0;
        DisableFlows(m, m.sets[i].handle, cause, accept);
        DisableFromFlows(n, i + 1, cause, accept);
        FlowsOn(m, n, DisableFrom(n, i + 1, cause, accept));
      } else {
        DisableFromFlows(m, i + 1, cause, accept);
      }
    }
  }

  lemma ReconfigureFlows(m: Mgr, i: nat, flags: Flags, accept: Answers)
    requires i < |m.sets| && Find(m.sets, m.sets[i].handle) == i
    ensures Flows(m, Reconfigure(m, i, flags, accept).0)
  {
    hide Flows, Send, HasPending, Disable, StartSetting;
    if m.sets[i].enabled {
      var d := Disable(m, m.sets[i].handle, STOP_FOR_UPDATE, accept).0;
      DisableFlows(m, m.sets[i].handle, STOP_FOR_UPDATE, accept);
      var u := StartSetting(d, i, flags, accept).0;
      StartSettingFlows(d, i, flags, accept);
      FlowsOn(m, d, u);
      var a := Start(u.sets[i].handle, u.sets[i].duration);
      SendFlows(u, a);
      FlowsOn(m, u, Send(u, a).0);
    } else {
      StartSettingFlows(m, i, flags, accept);
    }
  }

  lemma ParamFlows(m: Mgr, h: u8, own: OwnAddr, low: nat, high: nat, accept: Answers)
    ensures Flows(m, SetParam(m, h, own, low, high, accept).0)
  {
    hide Flows, Reconfigure, To16;
    SameFlows(m, m);
    var i := Find(m.sets, h);
    if i < |m.sets| {
      var s := m.sets[i].(own := own, intervalMin := To16(low), intervalMax := To16(high));
      FindPut(m.sets, i, s);
      var p := Put(m, i, s);
      SameFlows(m, p);
      ReconfigureFlows(p, i, SET_PARAS, accept);
      FlowsOn(m, p, Reconfigure(p, i, SET_PARAS, accept).0);
    }
  }

  lemma MultiFlows(m: Mgr, h: u8, random: bool, interval: u16, data: bool, scanRsp: bool, accept: Answers)
    ensures Flows(m, SetMulti(m, h, random, interval, data, scanRsp, accept).0)
  {
    hide Flows, Reconfigure, StartSetting, MultiFlags;
    SameFlows(m, m);
    var i := Find(m.sets, h);
    if i < |m.sets| {
      var f := MultiFlags(m.sets[i], random, interval, data, scanRsp);
      ReconfigureFlows(m, i, f, accept);
      StartSettingFlows(m, i, f, accept);
      var v := if f & (SET_RANDOM | SET_PARAS) != 0 then Reconfigure(m, i, f, accept).0 else StartSetting(m, i, f, accept).0;
      SameFlows(v, MarkSet(v, i));
      FlowsOn(m, v, MarkSet(v, i));
    }
  }

  lemma StateFlows(m: Mgr, h: u8, new_: AdvState, cause: u16, accept: Answers)
    ensures Flows(m, HandleState(m, h, new_, cause, accept))
  {
    hide Flows, NextStep, CheckState;
    SameFlows(m, m);
    var i := Find(m.sets, h);
    if i < |m.sets| {
      var was := m.sets[i].state;
      var s := CheckState(m.sets[i].(state := new_), cause, true);
      var p := Put(m, i, if was == Starting then Settled(s, StartPending) else if was == Stopping then Settled(s, StopPending) else s);
      SameFlows(m, p);
      NextStepFlows(p, accept);
      FlowsOn(m, p, NextStep(p, accept));
    }
  }

  lemma SettingFlows(m: Mgr, h: u8, accept: Answers)
    ensures Flows(m, HandleSetting(m, h, accept))
  {
    hide Flows, NextStep;
    var i := Find(m.sets, h);
    var p := if i == |m.sets| then m else Put(m, i, Settled(m.sets[i], UpdatePending));
    SameFlows(m, p);
    NextStepFlows(p, accept);
    FlowsOn(m, p, NextStep(p, accept));
  }

  /** Every step but a new connection only appends to the queue and takes from its front. */
  lemma StepFlows(m: Mgr, e: Event, accept: Answers)
    requires !e.LinkUp?
    ensures Flows(m, Step(m, e, accept))
  {
    hide Flows, StartSetting, Enable, Disable, DisableFrom, SetParam, SetMulti, Reconfigure, HandleState, HandleSetting;
    SameFlows(m, m);
    match e
    case Created(h, p) => SameFlows(m, Create(m, h, p).0);
    case StackReady => SameFlows(m, m.(ready := true));
    case DataSet(h, flags) =>
      var i := Find(m.sets, h);
      if i < |m.sets| { StartSettingFlows(m, i, flags, accept); }
    case Enabled(h, duration) => EnableFlows(m, h, duration, accept);
    case Disabled(h, cause) => DisableFlows(m, h, cause, accept);
    case AllDisabled(cause) => DisableFromFlows(m, 0, cause, accept);
    case ParamSet(h, own, low, high) => ParamFlows(m, h, own, low, high, accept);
    case RandomSet(h) =>
      var i := Find(m.sets, h);
      if i < |m.sets| { ReconfigureFlows(m, i, SET_RANDOM, accept); }
    case MultiSet(h, random, interval, data, scanRsp) => MultiFlows(m, h, random, interval, data, scanRsp, accept);
    case StateChanged(h, s, cause) => StateFlows(m, h, s, cause, accept);
    case SettingDone(h) => SettingFlows(m, h, accept);
  }

  /** No set of hs gets a connection during the run. */
  predicate Unconnected(es: seq<Event>, hs: set<u8>) {
    forall e :: e in es ==> (e.LinkUp? ==> e.handle !in hs)
  }

  /** What was sent for the sets of hs is what was taken and then what still waits, in order. */
  ghost predicate InOrder(m: Mgr, hs: set<u8>) {
    Only(m.sent, hs) == Only(m.taken, hs) + Only(m.queue, hs)
  }

  lemma StepInOrder(m: Mgr, e: Event, hs: set<u8>, accept: Answers)
    requires InOrder(m, hs) && (e.LinkUp? ==> e.handle !in hs)
    ensures InOrder(Step(m, e, accept), hs)
  {
    hide Only, Others, Step;
    if e.LinkUp? {
      LinkUpStep(m, e, accept);
      OthersKept(m.queue, e.handle, hs);
    } else {
      var n := Step(m, e, accept);
      StepFlows(m, e, accept);
      var x := n.sent[|m.sent|..];
      assert n.sent == m.sent + x;
      OnlyConcat(m.sent, x, hs);
      OnlyConcat(n.taken, n.queue, hs);
      OnlyConcat(m.taken + m.queue, x, hs);
      OnlyConcat(m.taken, m.queue, hs);
    }
  }

  lemma LinkUpStep(m: Mgr, e: Event, accept: Answers)
    requires e.LinkUp?
    ensures var n := Step(m, e, accept);
      n.sent == m.sent && n.taken == m.taken && (n.queue == m.queue || n.queue == Others(m.queue, e.handle))
  {
  }

  lemma {:induction false} RunInOrder(m: Mgr, es: seq<Event>, hs: set<u8>, accept: Answers)
    requires InOrder(m, hs) && Unconnected(es, hs)
    ensures InOrder(Run(m, es, accept), hs)
    decreases |es|
  {
    hide Step, InOrder;
    if es != [] {
      StepInOrder(m, es[0], hs, accept);
      assert Unconnected(es[1..], hs);
      RunInOrder(Step(m, es[0], accept), es[1..], hs, accept);
    }
  }

  /** The order theorem: over every run in which no set of hs gets a connection, the actions sent for
      these sets are taken in the order sent, and none is lost or repeated. */
  lemma ActionsInOrder(m: Mgr, es: seq<Event>, hs: set<u8>, accept: Answers)
    requires Initial(m) && Unconnected(es, hs)
    ensures var r := Run(m, es, accept); Only(r.sent, hs) == Only(r.taken, hs) + Only(r.queue, hs)
  {
    RunInOrder(m, es, hs, accept);
  }
}
