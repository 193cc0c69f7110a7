/** The commands the stack gets are the queued actions that can be carried out, and reconfiguring an
    advertising set takes it through stop, update and start back to advertising. */
module AdvCommands {
  import opened Widths
  import opened AdvActions
  import opened AdvSerializer

  // ----- Queued actions -----

  /** The command carries out the action: an update may set more than asked for. */
  predicate Carries(c: Action, a: Action) {
    match a
    case Start(_, _) => c == a
    case Stop(_, _) => c == a
    case Update(h, flags) => c.Update? && c.handle == h && c.flags & flags == flags
  }

  lemma FullFlagsCover(s: AdvSet, flags: Flags)
    ensures FullFlags(s, flags) & flags == flags
  {
    assert (flags | s.initFlags | SET_PARAS) & flags == flags;
  }

  /** An action cannot be carried out: its set is unknown, to be started but not quiet, or to be
      stopped but not advertising. */
  predicate Blocked(m: Mgr, a: Action) {
    var i := Find(m.sets, a.handle);
    i == |m.sets| || (a.Start? && m.sets[i].state != Quiet) || (a.Stop? && m.sets[i].state != Advertising)
  }

  /** A blocked action gives the stack nothing, any other exactly the command that carries it out. */
  lemma ExecuteIssues(m: Mgr, a: Action, accept: Answers)
    ensures
      var (n, done) := Execute(m, a, accept);
      if Blocked(m, a) then !done && n.issued == m.issued
      else
        done == accept(|m.issued|) && |n.issued| == |m.issued| + 1 && m.issued <= n.issued &&
        n.issued[|m.issued|].accepted == done && Carries(n.issued[|m.issued|].what, a)
  {
    hide FullFlags, CheckState, To8;
    var i := Find(m.sets, a.handle);
    if i < |m.sets| && a.Update? {
      FullFlagsCover(m.sets[i], a.flags);
    }
  }

  /** The commands carry out some of the actions, in their order. */
  ghost predicate Follows(cs: seq<Command>, as_: seq<Action>)
    decreases |as_|
  {
    if as_ == [] then cs == []
    else Follows(cs, as_[1..]) || (cs != [] && Carries(cs[0].what, as_[0]) && Follows(cs[1..], as_[1..]))
  }

  /** Serving the queue gives the stack commands that carry out, in order, the actions taken from it,
      all but the last of them refused. */
  lemma {:induction false} NextStepIssues(m: Mgr, accept: Answers)
    ensures
      var n := NextStep(m, accept);
      m.issued <= n.issued && m.taken <= n.taken &&
      Follows(n.issued[|m.issued|..], n.taken[|m.taken|..]) &&
      forall k :: |m.issued| <= k < |n.issued| - 1 ==> !n.issued[k].accepted
    decreases |m.queue|
  {
    hide Execute, Carries, Blocked;
    var n := NextStep(m, accept);
    if m.queue == [] {
      assert n.issued[|m.issued|..] == [] && n.taken[|m.taken|..] == [];
    } else {
      var a := m.queue[0];
      var (e, done) := Execute(Take(m), a, accept);
      ExecuteIssues(Take(m), a, accept);
      assert e.taken[|m.taken|..] == [a];
      if done {
        OneFollows(m, e, a);
      } else {
        NextStepIssues(e, accept);
        MoreFollow(m, e, n, a);
      }
    }
  }

  lemma OneFollows(m: Mgr, e: Mgr, a: Action)
    requires m.issued <= e.issued && |e.issued| == |m.issued| + 1 && Carries(e.issued[|m.issued|].what, a)
    ensures Follows(e.issued[|m.issued|..], [a])
  {
    hide Carries;
    var cs := e.issued[|m.issued|..];
    assert cs[0] == e.issued[|m.issued|] && cs[1..] == [] && [a][1..] == [];
  }

  lemma MoreFollow(m: Mgr, e: Mgr, n: Mgr, a: Action)
    requires m.issued <= e.issued <= n.issued && e.taken == m.taken + [a] && e.taken <= n.taken
    requires e.issued == m.issued || (|e.issued| == |m.issued| + 1 && Carries(e.issued[|m.issued|].what, a))
    requires Follows(n.issued[|e.issued|..], n.taken[|e.taken|..])
    ensures Follows(n.issued[|m.issued|..], n.taken[|m.taken|..])
  {
    hide Carries;
    var cs, ts := n.issued[|m.issued|..], n.taken[|m.taken|..];
    assert ts[0] == a && ts[1..] == n.taken[|e.taken|..];
    if |e.issued| == |m.issued| + 1 {
      assert cs[0] == n.issued[|m.issued|] == e.issued[|m.issued|] && cs[1..] == n.issued[|e.issued|..];
    }
  }

  // ----- Stop, update, start -----

  /** Set i is s, and nothing else is in flight. */
  ghost predicate Alone(m: Mgr, i: nat, s: AdvSet) {
    i < |m.sets| && m.sets[i] == s && s.isUsed && Find(m.sets, s.handle) == i &&
    forall j :: 0 <= j < |m.sets| && j != i ==> !InFlight(m.sets[j])
  }

  lemma AloneAfter(m: Mgr, i: nat, s: AdvSet, n: Mgr, t: AdvSet)
    requires Alone(m, i, s) && t.isUsed && t.handle == s.handle && n.sets == m.sets[i := t]
    ensures Alone(n, i, t) && (HasPending(n.sets) <==> InFlight(t))
  {
    FindPut(m.sets, i, t);
    assert n.sets[i] == t;
    if InFlight(t) { assert InFlight(n.sets[i]); }
  }

  function Asked(m: Mgr, a: Action): Mgr { m.(issued := m.issued + [Command(a, true)]) }

  const YES: Answers := k => true

  /** The application reconfigures: the stop goes out, update and start wait. */
  lemma ReconfigureStops(m: Mgr, i: nat, s: AdvSet, own: OwnAddr, low: nat, high: nat)
    requires Alone(m, i, s) && s.pending == NoPending && m.queue == [] && m.ready && s.enabled && s.pendingNum == 0
    ensures
      var n := Step(m, ParamSet(s.handle, own, low, high), YES);
      var t := s.(own := own, intervalMin := To16(low), intervalMax := To16(high), appCause := STOP_FOR_UPDATE,
                  pending := StopPending, pendingNum := 1);
      Alone(n, i, t) && n.queue == [Update(s.handle, SET_PARAS), Start(s.handle, s.duration)] &&
      n.issued == Asked(m, Stop(s.handle, STOP_FOR_UPDATE)).issued && n.ready
  {
    hide To16, Find;
    var h := s.handle;
    var a := s.(own := own, intervalMin := To16(low), intervalMax := To16(high));
    var p := Put(m, i, a);
    AloneAfter(m, i, s, p, a);
    var d := Disable(p, h, STOP_FOR_UPDATE, YES).0;
    var b := a.(appCause := STOP_FOR_UPDATE, pending := StopPending);
    assert d == Put(Asked(p, Stop(h, STOP_FOR_UPDATE)), i, b);
    AloneAfter(p, i, a, d, b);
    var u := StartSetting(d, i, SET_PARAS, YES).0;
    assert u == d.(queue := [Update(h, SET_PARAS)], sent := d.sent + [Update(h, SET_PARAS)]);
    AloneAfter(d, i, b, u, b);
    var n := Send(u, Start(h, s.duration)).0;
    AloneAfter(u, i, b, n, b.(pendingNum := 1));
    assert n == Step(m, ParamSet(h, own, low, high), YES).(queue := n.queue);
  }

  /** The stack reports a transient state, which changes nothing else. */
  lemma TransientReported(m: Mgr, i: nat, s: AdvSet, g: AdvState, cause: u16)
    requires Alone(m, i, s) && g != Quiet && s.state != Starting && s.state != Stopping
    ensures
      var n := Step(m, StateChanged(s.handle, g, cause), YES);
      Alone(n, i, s.(state := g, pendingCause := cause)) && n == m.(sets := n.sets)
  {
    var n := Step(m, StateChanged(s.handle, g, cause), YES);
    AloneAfter(m, i, s, n, s.(state := g, pendingCause := cause));
  }

  /** The set has stopped for the update: it stays enabled, and the update goes out. */
  lemma StoppedUpdates(m: Mgr, i: nat, s: AdvSet)
    requires Alone(m, i, s) && s.state == Stopping && s.pending == StopPending && s.enabled && s.paramSet && s.pendingNum == 1
    requires m.queue == [Update(s.handle, SET_PARAS), Start(s.handle, s.duration)]
    ensures
      var n := Step(m, StateChanged(s.handle, Quiet, CANCELLED_BY_HOST), YES);
      Alone(n, i, s.(state := Quiet, pendingCause := CANCELLED_BY_HOST, pending := UpdatePending, initFlags := 0)) &&
      n.queue == [Start(s.handle, s.duration)] && n.issued == Asked(m, Update(s.handle, SET_PARAS)).issued
  {
    hide Find;
    var t := s.(state := Quiet, pendingCause := CANCELLED_BY_HOST, pending := NoPending);
    var p := Put(m, i, t);
    AloneAfter(m, i, s, p, t);
    var k := Take(p);
    AloneAfter(p, i, t, k, t);
    assert FullFlags(t, SET_PARAS) == SET_PARAS && SET_PARAS & SET_PARAS != 0;
    var n := ActionUpdate(k, i, SET_PARAS, YES);
    AloneAfter(k, i, t, n, t.(pending := UpdatePending, initFlags := 0));
    assert Execute(k, p.queue[0], YES) == (n, true);
    assert NextStep(p, YES) == n;
  }

  /** The update is done: the start goes out. */
  lemma UpdatedStarts(m: Mgr, i: nat, s: AdvSet)
    requires Alone(m, i, s) && s.state == Quiet && s.pending == UpdatePending && s.pendingNum == 1
    requires m.queue == [Start(s.handle, s.duration)]
    ensures
      var n := Step(m, SettingDone(s.handle), YES);
      Alone(n, i, s.(pending := StartPending, pendingNum := 0)) && n.queue == [] &&
      n.issued == Asked(m, Start(s.handle, s.duration)).issued
  {
    hide Find;
    var t := s.(pending := NoPending);
    var p := Put(m, i, t);
    AloneAfter(m, i, s, p, t);
    var k := Take(p);
    AloneAfter(p, i, t, k, t);
    var c := Uncount(k, i);
    AloneAfter(k, i, t, c, t.(pendingNum := 0));
    var n := ActionStart(c, i, s.duration, YES);
    AloneAfter(c, i, t.(pendingNum := 0), n, t.(pendingNum := 0, pending := StartPending));
    assert Execute(k, p.queue[0], YES) == (n, true);
    assert NextStep(p, YES) == n;
  }

  /** The set advertises again, and nothing is left to do. */
  lemma StartedAdvertises(m: Mgr, i: nat, s: AdvSet, cause: u16)
    requires Alone(m, i, s) && s.state == Starting && s.pending == StartPending && m.queue == []
    ensures
      var n := Step(m, StateChanged(s.handle, Advertising, cause), YES);
      Alone(n, i, s.(state := Advertising, pendingCause := cause, pending := NoPending)) && n == m.(sets := n.sets)
  {
    var n := Step(m, StateChanged(s.handle, Advertising, cause), YES);
    AloneAfter(m, i, s, n, s.(state := Advertising, pendingCause := cause, pending := NoPending));
  }

  /** The reconfiguration theorem, for any manager with nothing pending or waiting and any advertising
      set in it: if the stack accepts and completes what it is given, it is given exactly the stop,
      the update and the start, and the set then advertises, still enabled, with nothing left over. */
  lemma ReconfigureReturns(m: Mgr, i: nat, s: AdvSet, own: OwnAddr, low: nat, high: nat, c1: u16, c2: u16, c3: u16)
    requires Alone(m, i, s) && s.pending == NoPending && m.queue == [] && m.ready
    requires s.enabled && s.state == Advertising && s.paramSet && s.pendingNum == 0
    ensures
      var h := s.handle;
      var n := Run(m, [ParamSet(h, own, low, high), StateChanged(h, Stopping, c1), StateChanged(h, Quiet, CANCELLED_BY_HOST),
                       SettingDone(h), StateChanged(h, Starting, c2), StateChanged(h, Advertising, c3)], YES);
      n.issued == m.issued + [Command(Stop(h, STOP_FOR_UPDATE), true), Command(Update(h, SET_PARAS), true),
                              Command(Start(h, s.duration), true)] &&
      n.queue == [] && i < |n.sets| && Alone(n, i, n.sets[i]) && n.sets[i].enabled && n.sets[i].state == Advertising &&
      n.sets[i].pending == NoPending && n.sets[i].pendingNum == 0 && n.sets[i].own == own
  {
    hide Step, Alone;
    var h := s.handle;
    var e1, e2, e3 := ParamSet(h, own, low, high), StateChanged(h, Stopping, c1), StateChanged(h, Quiet, CANCELLED_BY_HOST);
    var e4, e5, e6 := SettingDone(h), StateChanged(h, Starting, c2), StateChanged(h, Advertising, c3);
    var m1 := Step(m, e1, YES);
    ReconfigureStops(m, i, s, own, low, high);
    var s1 := s.(own := own, intervalMin := To16(low), intervalMax := To16(high), appCause := STOP_FOR_UPDATE,
                 pending := StopPending, pendingNum := 1);
    var m2 := Step(m1, e2, YES);
    TransientReported(m1, i, s1, Stopping, c1);
    var s2 := s1.(state := Stopping, pendingCause := c1);
    var m3 := Step(m2, e3, YES);
    StoppedUpdates(m2, i, s2);
    var s3 := s2.(state := Quiet, pendingCause := CANCELLED_BY_HOST, pending := UpdatePending, initFlags := 0);
    var m4 := Step(m3, e4, YES);
    UpdatedStarts(m3, i, s3);
    var s4 := s3.(pending := StartPending, pendingNum := 0);
    var m5 := Step(m4, e5, YES);
    TransientReported(m4, i, s4, Starting, c2);
    var m6 := Step(m5, e6, YES);
    StartedAdvertises(m5, i, s4.(state := Starting, pendingCause := c2), c3);
    RunSteps(m, e1, e2, e3, e4, e5, e6, YES);
    AloneSet(m6, i, s4.(state := Advertising, pendingCause := c3, pending := NoPending));
  }

  // ----- Enabling and disabling -----

  lemma ParasKept(s: AdvSet, flags: Flags)
    requires !s.paramSet
    ensures FullFlags(s, flags) & SET_PARAS != 0
  {
    FullFlagsCover(s, flags);
    assert (flags | s.initFlags | SET_PARAS) & SET_PARAS != 0;
  }

  /** The first enabling configures the set; its start waits. */
  lemma EnableConfigures(m: Mgr, i: nat, s: AdvSet, d: u16)
    requires Alone(m, i, s) && s.pending == NoPending && m.queue == [] && m.ready
    requires !s.enabled && !s.paramSet && s.pendingNum == 0
    ensures
      var n := Step(m, Enabled(s.handle, d), YES);
      var t := s.(pending := UpdatePending, paramSet := true, initFlags := 0, pendingNum := 1, duration := d, enabled := true);
      Alone(n, i, t) && n.queue == [Start(s.handle, d)] &&
      n.issued == Asked(m, Update(s.handle, FullFlags(s, s.initFlags))).issued
  {
    hide Find, FullFlags;
    ParasKept(s, s.initFlags);
    AloneAfter(m, i, s, m, s);
    var u := ActionUpdate(m, i, s.initFlags, YES);
    var b := s.(pending := UpdatePending, paramSet := true, initFlags := 0);
    AloneAfter(m, i, s, u, b);
    var v := Send(u, Start(s.handle, d)).0;
    AloneAfter(u, i, b, v, b.(pendingNum := 1));
    var n := Step(m, Enabled(s.handle, d), YES);
    AloneAfter(v, i, b.(pendingNum := 1), n, b.(pendingNum := 1, duration := d, enabled := true));
  }

  /** Enabling a set for the first time, with a stack that accepts and completes what it is given,
      configures it with all of its initial parameters, starts it for the given time, and leaves it
      enabled and advertising. */
  lemma EnableAdvertises(m: Mgr, i: nat, s: AdvSet, d: u16, c1: u16, c2: u16)
    requires Alone(m, i, s) && s.pending == NoPending && m.queue == [] && m.ready
    requires !s.enabled && s.state == Quiet && !s.paramSet && s.pendingNum == 0
    ensures
      var h := s.handle;
      var m2 := Step(Step(m, Enabled(h, d), YES), SettingDone(h), YES);
      var n := Step(Step(m2, StateChanged(h, Starting, c1), YES), StateChanged(h, Advertising, c2), YES);
      n.issued == m.issued + [Command(Update(h, FullFlags(s, s.initFlags)), true), Command(Start(h, d), true)] &&
      n.queue == [] && i < |n.sets| && n.sets[i].enabled && n.sets[i].paramSet && n.sets[i].duration == d &&
      n.sets[i].state == Advertising && n.sets[i].pending == NoPending
  {
    hide Step, Alone, FullFlags;
    var h := s.handle;
    EnableConfigures(m, i, s, d);
    var s1 := s.(pending := UpdatePending, paramSet := true, initFlags := 0, pendingNum := 1, duration := d, enabled := true);
    var m1 := Step(m, Enabled(h, d), YES);
    UpdatedStarts(m1, i, s1);
    var s2 := s1.(pending := StartPending, pendingNum := 0);
    var m2 := Step(m1, SettingDone(h), YES);
    TransientReported(m2, i, s2, Starting, c1);
    var s3 := s2.(state := Starting, pendingCause := c1);
    var m3 := Step(m2, StateChanged(h, Starting, c1), YES);
    StartedAdvertises(m3, i, s3, c2);
    AloneSet(Step(m3, StateChanged(h, Advertising, c2), YES), i, s3.(state := Advertising, pendingCause := c2, pending := NoPending));
  }

  /** Disabling an advertising set stops it and leaves it disabled and quiet. */
  lemma DisableQuiets(m: Mgr, i: nat, s: AdvSet, cause: u8, c1: u16)
    requires Alone(m, i, s) && s.pending == NoPending && m.queue == []
    requires s.enabled && s.state == Advertising && cause != STOP_FOR_UPDATE
    ensures
      var h := s.handle;
      var m2 := Step(Step(m, Disabled(h, cause), YES), StateChanged(h, Stopping, c1), YES);
      var n := Step(m2, StateChanged(h, Quiet, CANCELLED_BY_HOST), YES);
      n.issued == m.issued + [Command(Stop(h, cause), true)] && n.queue == [] && i < |n.sets| &&
      !n.sets[i].enabled && n.sets[i].appCause == cause && n.sets[i].state == Quiet && n.sets[i].pending == NoPending
  {
    hide Find;
    var h := s.handle;
    AloneAfter(m, i, s, m, s);
    var s1 := s.(appCause := cause, pending := StopPending, enabled := false);
    var m1 := Step(m, Disabled(h, cause), YES);
    AloneAfter(m, i, s, m1, s1);
    TransientReported(m1, i, s1, Stopping, c1);
    var s2 := s1.(state := Stopping, pendingCause := c1);
    var m2 := Step(m1, StateChanged(h, Stopping, c1), YES);
    var n := Step(m2, StateChanged(h, Quiet, CANCELLED_BY_HOST), YES);
    AloneAfter(m2, i, s2, n, s2.(state := Quiet, pendingCause := CANCELLED_BY_HOST, pending := NoPending));
  }

  lemma AloneSet(m: Mgr, i: nat, s: AdvSet)
    requires Alone(m, i, s)
    ensures i < |m.sets| && m.sets[i] == s
  {
  }

  // ----- A full queue, a full table -----

  /** The stop, update and start of a reconfiguration. */
  function Sequence(h: u8, flags: Flags, duration: u16): seq<Action> {
    [Stop(h, STOP_FOR_UPDATE), Update(h, flags), Start(h, duration)]
  }

  /** While a command is pending, reconfiguring an enabled set queues as much of the sequence as there
      is room for, in order, and leaves the set enabled; so it is queued whole exactly when at most 47
      actions wait. */
  lemma SequenceQueued(m: Mgr, i: nat, flags: Flags, accept: Answers)
    requires Serial(m) && HasPending(m.sets) && m.ready
    requires i < |m.sets| && m.sets[i].isUsed && m.sets[i].enabled && Find(m.sets, m.sets[i].handle) == i
    ensures
      var s := m.sets[i];
      var room := QUEUE_MAX - |m.queue|;
      var n := Reconfigure(m, i, flags, accept).0;
      var all := Sequence(s.handle, flags, s.duration);
      n.queue == m.queue + all[..if room < 3 then room else 3] && n.issued == m.issued && n.sets[i].enabled &&
      (n.queue == m.queue + all <==> |m.queue| <= 47)
  {
    hide AtMostOne, AllMirrored, HasPending, Find, Send;
    var s := m.sets[i];
    var a := Stop(s.handle, STOP_FOR_UPDATE);
    SendOk(m, a);
    SendSets(m, a, i);
    var d := Disable(m, s.handle, STOP_FOR_UPDATE, accept).0;
    assert d == Send(m, a).0;
    var b := Update(s.handle, flags);
    SendOk(d, b);
    SendSets(d, b, i);
    var u := StartSetting(d, i, flags, accept).0;
    assert u == Send(d, b).0;
    var c := Start(s.handle, s.duration);
    SendOk(u, c);
    SendSets(u, c, i);
    QueuedPrefix(m.queue, a, b, c);
  }

  function Queued(q: seq<Action>, a: Action): seq<Action> {
    if |q| < QUEUE_MAX then q + [a] else q
  }

  lemma QueuedPrefix(q: seq<Action>, a: Action, b: Action, c: Action)
    requires |q| <= QUEUE_MAX
    ensures
      var room := QUEUE_MAX - |q|;
      Queued(Queued(Queued(q, a), b), c) == q + [a, b, c][..if room < 3 then room else 3]
  {
  }

  /** A creation that reports success has made the set known exactly when it was known already or there
      was an unused one to take: with a full table it reports success and makes nothing. */
  lemma CreateExactly(m: Mgr, h: u8, p: Setup)
    requires Create(m, h, p).1 == Success
    ensures
      var n := Create(m, h, p).0;
      Find(n.sets, h) < |n.sets| <==> Find(m.sets, h) < |m.sets| || FirstUnused(m.sets) < |m.sets|
  {
    hide InitFlags, To16;
    var n, i, f := Create(m, h, p).0, FirstUnused(m.sets), Find(m.sets, h);
    if i < |m.sets| {
      assert n.sets[i].isUsed && n.sets[i].handle == h;
    }
  }

  // ----- Runs that reach a full queue and a full table -----

  function Repeat<T>(x: T, n: nat): seq<T> {
    if n == 0 then [] else Repeat(x, n - 1) + [x]
  }

  /** A set is created and enabled, and its data is set n times before the stack completes anything. */
  function FillRun(n: nat): seq<Event> {
    [Created(0, ExampleSetup()), StackReady, Enabled(0, 0)] + Repeat(DataSet(0, SET_DATA), n)
  }

  /** The set of the example while its first update is pending. */
  function WaitingSet(): AdvSet {
    CreatedSet().(pending := UpdatePending, paramSet := true, initFlags := 0, enabled := true, pendingNum := 1)
  }

  lemma {:induction false} DataQueued(m: Mgr, n: nat, y: Answers)
    requires m.sets == [WaitingSet()] && m.ready && |m.queue| + n <= QUEUE_MAX
    ensures
      var es, r := Repeat(DataSet(0, SET_DATA), n), Run(m, Repeat(DataSet(0, SET_DATA), n), y);
      LegalRun(m, es, y) && r.sets == m.sets && r.ready && r.queue == m.queue + Repeat(Update(0, SET_DATA), n)
  {
    hide Step, Legal;
    if n > 0 {
      var e := DataSet(0, SET_DATA);
      DataQueued(m, n - 1, y);
      var r := Run(m, Repeat(e, n - 1), y);
      RepeatLength(Update(0, SET_DATA), n - 1);
      DataWaits(r, y);
      RunConcat(m, Repeat(e, n - 1), [e], y);
      RunCons(r, e, [], y);
      assert [e] + [] == [e];
    }
  }

  lemma DataWaits(m: Mgr, y: Answers)
    requires m.sets == [WaitingSet()] && m.ready && |m.queue| < QUEUE_MAX
    ensures
      var n := Step(m, DataSet(0, SET_DATA), y);
      Legal(m, DataSet(0, SET_DATA)) && n.sets == m.sets && n.ready && n.queue == m.queue + [Update(0, SET_DATA)]
  {
    assert InFlight(m.sets[0]) && Find(m.sets, 0) == 0;
  }

  lemma QueueFilled(n: nat, y: Answers)
    requires n < QUEUE_MAX && y(0)
    ensures
      var m := Mgr([UNUSED], [], false, [], [], []);
      var r := Run(m, FillRun(n), y);
      Initial(m) && LegalRun(m, FillRun(n), y) && r.sets == [WaitingSet()] && r.ready &&
      r.queue == [Start(0, 0)] + Repeat(Update(0, SET_DATA), n)
  {
    hide Step, Legal, Repeat;
    var m, es := Mgr([UNUSED], [], false, [], [], []), Repeat(DataSet(0, SET_DATA), n);
    var e0, e1, e2 := Created(0, ExampleSetup()), StackReady, Enabled(0, 0);
    ExampleCreated(y);
    var m1 := Step(m, e0, y);
    var m2 := Step(m1, e1, y);
    ExampleEnabled(m2, CreatedSet(), y);
    var m3 := Step(m2, e2, y);
    DataQueued(m3, n, y);
    RunCons(m2, e2, es, y);
    RunCons(m1, e1, [e2] + es, y);
    RunCons(m, e0, [e1] + ([e2] + es), y);
    assert FillRun(n) == [e0] + ([e1] + ([e2] + es));
  }

  /** The sequence is cut short: with 48 actions waiting the stop and the update are queued, the start
      is not, the set stays enabled, and setting the parameters reports success. */
  lemma SequenceCutShort(y: Answers)
    requires y(0)
    ensures
      var m := Mgr([UNUSED], [], false, [], [], []);
      var r := Run(m, FillRun(47), y);
      var (n, cause) := SetParam(r, 0, Public, 0x40, 0x50, y);
      Initial(m) && LegalRun(m, FillRun(47), y) && |r.queue| == 48 &&
      n.queue == r.queue + [Stop(0, STOP_FOR_UPDATE), Update(0, SET_PARAS)] && n.sets[0].enabled && cause == Success
  {
    hide Repeat, FillRun, Run, LegalRun;
    QueueFilled(47, y);
    var r := Run(Mgr([UNUSED], [], false, [], [], []), FillRun(47), y);
    RepeatLength(Update(0, SET_DATA), 47);
    assert Find(r.sets, 0) == 0;
    var s := WaitingSet().(own := Public, intervalMin := 0x40, intervalMax := 0x50);
    var p := Put(r, 0, s);
    assert p.sets == [s] && InFlight(p.sets[0]) && Find(p.sets, 0) == 0;
    var d := Disable(p, 0, STOP_FOR_UPDATE, y).0;
    assert d == Send(p, Stop(0, STOP_FOR_UPDATE)).0;
    assert d.sets == [s.(pendingNum := 2)] && InFlight(d.sets[0]) && Find(d.sets, 0) == 0;
    var u := StartSetting(d, 0, SET_PARAS, y).0;
    assert u == Send(d, Update(0, SET_PARAS)).0;
  }

  lemma {:induction false} RepeatLength<T>(x: T, n: nat)
    ensures |Repeat(x, n)| == n
  {
    if n > 0 { RepeatLength(x, n - 1); }
  }

  /** Sets with the handles below n are created. */
  function CreateRun(n: nat, p: Setup): seq<Event>
    requires n <= 255
  {
    if n == 0 then [] else CreateRun(n - 1, p) + [Created(n - 1, p)]
  }

  /** The first n sets of the table are used, with their indices as handles, and the others are not. */
  predicate Filled(m: Mgr, n: nat) {
    n <= |m.sets| && (forall i :: 0 <= i < n ==> m.sets[i].isUsed && m.sets[i].handle == i) &&
    forall i :: n <= i < |m.sets| ==> m.sets[i] == UNUSED
  }

  lemma {:induction false} TableFilled(m: Mgr, n: nat, p: Setup, y: Answers)
    requires Filled(m, 0) && n <= |m.sets| && n <= 255
    ensures
      var r := Run(m, CreateRun(n, p), y);
      LegalRun(m, CreateRun(n, p), y) && Filled(r, n) && |r.sets| == |m.sets|
  {
    hide InitFlags;
    if n > 0 {
      var es, e := CreateRun(n - 1, p), Created(n - 1, p);
      TableFilled(m, n - 1, p, y);
      RunConcat(m, es, [e], y);
      var r := Run(m, es, y);
      RunCons(r, e, [], y);
      assert [e] + [] == [e];
      UnusedAt(r.sets, n - 1);
      assert Step(r, e, y).sets == r.sets[n - 1 := Step(r, e, y).sets[n - 1]];
    }
  }

  lemma {:induction false} UnusedAt(sets: seq<AdvSet>, i: nat)
    requires i < |sets| && !sets[i].isUsed && forall j :: 0 <= j < i ==> sets[j].isUsed
    ensures FirstUnused(sets) == i
  {
    if i > 0 { UnusedAt(sets[1..], i - 1); }
  }

  /** A table of any size is filled, and one more creation reports success and changes nothing. */
  lemma FullTableCreates(m: Mgr, p: Setup, y: Answers)
    requires Initial(m) && |m.sets| < 255
    ensures
      var size := |m.sets|;
      var r := Run(m, CreateRun(size, p), y);
      LegalRun(m, CreateRun(size, p), y) && Create(r, size, p) == (r, Success) && Find(r.sets, size) == |r.sets|
  {
    hide InitFlags, Run, LegalRun, CreateRun;
    forall i | 0 <= i < |m.sets| ensures m.sets[i] == UNUSED { assert m.sets[i] in m.sets; }
    TableFilled(m, |m.sets|, p, y);
  }
}
