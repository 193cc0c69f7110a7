/** The extended-advertising manager, as functions of its state.

    Each advertising set has at most one command pending in the stack.  While any set has one, new
    actions wait in a bounded queue shared by all sets. */
module AdvActions {
  import opened Widths

  /** Which parameters an update sets. */
  type Flags = bv8

  const SET_PARAS: Flags := 0x01
  const SET_DATA: Flags := 0x02
  const SET_SCAN_RSP: Flags := 0x04
  const SET_RANDOM: Flags := 0x08

  const QUEUE_MAX: nat := 0x32
  const NO_HANDLE: u8 := 0xFF
  const STOP_FOR_UPDATE: u8 := 0xFF
  const CANCELLED_BY_HOST: u16 := 0x144
  const DIRECTED_TIMEOUT: u16 := 0x13C

  datatype Pending = NoPending | StartPending | UpdatePending | StopPending

  datatype AdvState = Quiet | Starting | Advertising | Stopping

  datatype OwnAddr = Public | Random | RapOrPublic | RapOrRandom

  /** enabled is what the application asked for, state what the stack last reported. */
  datatype AdvSet = AdvSet(
    isUsed: bool,
    handle: u8,
    paramSet: bool,
    pendingNum: u8,
    pendingCause: u16,
    initFlags: Flags,
    enabled: bool,
    appCause: u8,
    pending: Pending,
    state: AdvState,
    own: OwnAddr,
    intervalMin: u16,
    intervalMax: u16,
    duration: u16)

  const UNUSED: AdvSet :=
    AdvSet(false, NO_HANDLE, false, 0, 0, 0xFF, false, 0, NoPending, Quiet, Public, 0, 0, 0)

  datatype Action =
    | Start(handle: u8, duration: u16)
    | Stop(handle: u8, cause: u8)
    | Update(handle: u8, flags: Flags)

  /** A command given to the stack and its answer. */
  datatype Command = Command(what: Action, accepted: bool)

  datatype Cause = Success | NotFound | InvalidParam | InvalidState | NoResource | Refused

  /** issued, sent and taken are traces: commands given to the stack, actions put into the queue and
      actions taken out of it to be carried out. */
  datatype Mgr = Mgr(
    sets: seq<AdvSet>,
    queue: seq<Action>,
    ready: bool,
    issued: seq<Command>,
    sent: seq<Action>,
    taken: seq<Action>)

  /** The stack's answer to the n-th command it is ever given. */
  type Answers = nat -> bool

  // ----- The table of sets -----

  /** Index of the first used set with this handle, or |sets|. */
  function Find(sets: seq<AdvSet>, h: u8): (i: nat)
    ensures i <= |sets|
    ensures i < |sets| ==> sets[i].isUsed && sets[i].handle == h
    ensures forall j :: 0 <= j < i ==> !(sets[j].isUsed && sets[j].handle == h)
  {
    if sets == [] || (sets[0].isUsed && sets[0].handle == h) then 0 else 1 + Find(sets[1..], h)
  }

  lemma FindPut(sets: seq<AdvSet>, i: nat, s: AdvSet)
    requires i < |sets| && Find(sets, sets[i].handle) == i && s.isUsed == sets[i].isUsed && s.handle == sets[i].handle
    ensures Find(sets[i := s], s.handle) == i
  {
    var t := sets[i := s];
    assert t[i] == s;
    forall k | 0 <= k < i ensures !(t[k].isUsed && t[k].handle == s.handle) { assert t[k] == sets[k]; }
  }

  function FirstUnused(sets: seq<AdvSet>): (i: nat)
    ensures i <= |sets|
    ensures i < |sets| ==> !sets[i].isUsed
  {
    if sets == [] || !sets[0].isUsed then 0 else 1 + FirstUnused(sets[1..])
  }

  predicate InFlight(s: AdvSet) { s.isUsed && s.pending != NoPending }

  predicate HasPending(sets: seq<AdvSet>) {
    exists i :: 0 <= i < |sets| && InFlight(sets[i])
  }

  function Put(m: Mgr, i: nat, s: AdvSet): (r: Mgr)
    requires i < |m.sets|
    ensures |r.sets| == |m.sets|
  {
    m.(sets := m.sets[i := s])
  }

  // ----- Commands to the stack -----

  function Issue(m: Mgr, a: Action, accept: Answers): Mgr {
    m.(issued := m.issued + [Command(a, accept(|m.issued|))])
  }

  /** A refused start of a set the application wants enabled disables it. */
  function ActionStart(m: Mgr, i: nat, duration: u16, accept: Answers): (r: Mgr)
    requires i < |m.sets|
    ensures |r.sets| == |m.sets|
  {
    var s := m.sets[i];
    Put(Issue(m, Start(s.handle, duration), accept), i,
      if accept(|m.issued|) then s.(pending := StartPending) else s.(enabled := false))
  }

  function ActionStop(m: Mgr, i: nat, cause: u8, accept: Answers): (r: Mgr)
    requires i < |m.sets|
    ensures |r.sets| == |m.sets|
  {
    var s := m.sets[i].(appCause := cause);
    Put(Issue(m, Stop(s.handle, cause), accept), i,
      if accept(|m.issued|) then s.(pending := StopPending) else s)
  }

  /** The first update of a set also carries everything that was configured when it was created. */
  function FullFlags(s: AdvSet, flags: Flags): Flags {
    if s.paramSet then flags else flags | s.initFlags | SET_PARAS
  }

  function ActionUpdate(m: Mgr, i: nat, flags: Flags, accept: Answers): (r: Mgr)
    requires i < |m.sets|
    ensures |r.sets| == |m.sets|
  {
    var s := m.sets[i];
    var f := FullFlags(s, flags);
    var params := f & SET_PARAS != 0;
    Put(Issue(m, Update(s.handle, f), accept), i,
      if !accept(|m.issued|) then s
      else s.(pending := UpdatePending, paramSet := s.paramSet || params, initFlags := if params then 0 else s.initFlags))
  }

  // ----- The queue -----

  function Send(m: Mgr, a: Action): (r: (Mgr, Cause))
    ensures |r.0.sets| == |m.sets|
  {
    if |m.queue| >= QUEUE_MAX then (m, NoResource)
    else
      var q := m.(queue := m.queue + [a], sent := m.sent + [a]);
      var i := Find(m.sets, a.handle);
      if i == |m.sets| || a.Update? then (q, Success)
      else (Put(q, i, m.sets[i].(pendingNum := To8(m.sets[i].pendingNum + 1))), Success)
  }

  /** What the application state becomes when the stack's state is looked at. */
  function CheckState(s: AdvSet, cause: u16, changed: bool): AdvSet {
    var c := if changed then cause else s.pendingCause;
    var enabled :=
      if s.state != Quiet then s.enabled
      else if s.pendingNum != 0 then s.enabled && c != 0
      else s.enabled && c == CANCELLED_BY_HOST && s.appCause == STOP_FOR_UPDATE;
    s.(pendingCause := c, enabled := enabled)
  }

  function Uncount(m: Mgr, i: nat): (r: Mgr)
    requires i < |m.sets|
    ensures |r.sets| == |m.sets|
  {
    Put(m, i, m.sets[i].(pendingNum := To8(m.sets[i].pendingNum - 1)))
  }

  /** After a refused start or stop with nothing else queued for the set. */
  function Recheck(m: Mgr, i: nat): (r: Mgr)
    requires i < |m.sets|
    ensures |r.sets| == |m.sets|
  {
    if m.sets[i].pendingNum == 0 then Put(m, i, CheckState(m.sets[i], 0, false)) else m
  }

  /** Carries out an action taken from the queue; the flag says that the stack accepted it. */
  function Execute(m: Mgr, a: Action, accept: Answers): (r: (Mgr, bool))
    ensures r.0.queue == m.queue && |r.0.sets| == |m.sets| && r.0.sent == m.sent && r.0.taken == m.taken
  {
    var i := Find(m.sets, a.handle);
    if i == |m.sets| then (m, false)
    else
      var ok := accept(|m.issued|);
      match a
      case Start(_, duration) =>
        var n := Uncount(m, i);
        if n.sets[i].state != Quiet then (n, false)
        else if ok then (ActionStart(n, i, duration, accept), true)
        else (Recheck(ActionStart(n, i, duration, accept), i), false)
      case Stop(_, cause) =>
        var n := Uncount(m, i);
        if n.sets[i].state != Advertising then (n, false)
        else if ok then (ActionStop(n, i, cause, accept), true)
        else (Recheck(ActionStop(n, i, cause, accept), i), false)
      case Update(_, flags) => (ActionUpdate(m, i, flags, accept), ok)
  }

  function Take(m: Mgr): Mgr
    requires m.queue != []
  {
    m.(queue := m.queue[1..], taken := m.taken + [m.queue[0]])
  }

  /** Takes actions out of the queue until the stack accepts one. */
  function NextStep(m: Mgr, accept: Answers): Mgr
    decreases |m.queue|
  {
    if m.queue == [] then m
    else
      var (n, done) := Execute(Take(m), m.queue[0], accept);
      if done then n else NextStep(n, accept)
  }

  /** What is left of a queue when a set's actions are deleted. */
  function Others(q: seq<Action>, h: u8): seq<Action> {
    if q == [] then [] else (if q[0].handle != h then [q[0]] else []) + Others(q[1..], h)
  }

  // ----- What the application asks for -----

  function StartSetting(m: Mgr, i: nat, flags: Flags, accept: Answers): (r: (Mgr, Cause))
    requires i < |m.sets|
    ensures |r.0.sets| == |m.sets|
  {
    if !m.ready then (m, InvalidState)
    else if HasPending(m.sets) then Send(m, Update(m.sets[i].handle, flags))
    else (ActionUpdate(m, i, flags, accept), if accept(|m.issued|) then Success else Refused)
  }

  /** What a set gets configured with when it is created. */
  datatype Setup = Setup(own: OwnAddr, intervalMin: nat, intervalMax: nat, random: bool, data: bool, scanRsp: bool,
                         directed: bool, scannable: bool)

  predicate UsesRandom(own: OwnAddr) { own == Random || own == RapOrRandom }

  function InitFlags(p: Setup): Flags {
    SET_PARAS
    | (if p.random && UsesRandom(p.own) then SET_RANDOM else 0)
    | (if p.data && !p.directed then SET_DATA else 0)
    | (if p.scanRsp && p.scannable then SET_SCAN_RSP else 0)
  }

  /** Creating a set succeeds even when the table is full. */
  function Create(m: Mgr, h: u8, p: Setup): (Mgr, Cause) {
    if h == NO_HANDLE then (m, NoResource)
    else
      var i := FirstUnused(m.sets);
      if i == |m.sets| then (m, Success)
      else
        (Put(m, i, m.sets[i].(isUsed := true, handle := h, initFlags := InitFlags(p), own := p.own,
          intervalMin := To16(p.intervalMin), intervalMax := To16(p.intervalMax))), Success)
  }

  function SetData(m: Mgr, h: u8, flags: Flags, accept: Answers): (Mgr, Cause) {
    var i := Find(m.sets, h);
    if i == |m.sets| then (m, NotFound) else StartSetting(m, i, flags, accept)
  }

  /** Starts a set now, or behind what is pending. */
  function StartOrSend(m: Mgr, i: nat, duration: u16, accept: Answers): (r: (Mgr, Cause))
    requires i < |m.sets|
    ensures |r.0.sets| == |m.sets|
  {
    if HasPending(m.sets) then Send(m, Start(m.sets[i].handle, duration))
    else (ActionStart(m, i, duration, accept), if accept(|m.issued|) then Success else Refused)
  }

  function Enable(m: Mgr, h: u8, duration: u16, accept: Answers): (Mgr, Cause) {
    var i := Find(m.sets, h);
    if i == |m.sets| then (m, NotFound)
    else if m.sets[i].enabled then (m, InvalidState)
    else
      var n := if m.sets[i].paramSet then m else StartSetting(m, i, m.sets[i].initFlags, accept).0;
      var (v, r) := StartOrSend(n, i, duration, accept);
      if r == Success then (Put(v, i, v.sets[i].(duration := duration, enabled := true)), r) else (v, r)
  }

  function StopOrSend(m: Mgr, i: nat, cause: u8, accept: Answers): (r: (Mgr, Cause))
    requires i < |m.sets|
    ensures |r.0.sets| == |m.sets|
  {
    if HasPending(m.sets) then Send(m, Stop(m.sets[i].handle, cause))
    else (ActionStop(m, i, cause, accept), if accept(|m.issued|) then Success else Refused)
  }

  function Disable(m: Mgr, h: u8, cause: u8, accept: Answers): (r: (Mgr, Cause))
    ensures |r.0.sets| == |m.sets|
  {
    var i := Find(m.sets, h);
    if i == |m.sets| then (m, NotFound)
    else if !m.sets[i].enabled then (m, InvalidState)
    else
      var (v, r) := StopOrSend(m, i, cause, accept);
      if r == Success && cause != STOP_FOR_UPDATE then (Put(v, i, v.sets[i].(enabled := false)), r) else (v, r)
  }

  function DisableFrom(m: Mgr, i: nat, cause: u8, accept: Answers): Mgr
    requires i <= |m.sets|
    decreases |m.sets| - i
  {
    if i == |m.sets| then m
    else if m.sets[i].isUsed && m.sets[i].enabled then
      DisableFrom(Disable(m, m.sets[i].handle, cause, accept).0, i + 1, cause, accept)
    else DisableFrom(m, i + 1, cause, accept)
  }

  /** An enabled set is stopped, updated and queued for a new start; any other is just updated. */
  function Reconfigure(m: Mgr, i: nat, flags: Flags, accept: Answers): (r: (Mgr, Cause))
    requires i < |m.sets| && Find(m.sets, m.sets[i].handle) == i
    ensures |r.0.sets| == |m.sets|
  {
    if m.sets[i].enabled then
      var stopped := Disable(m, m.sets[i].handle, STOP_FOR_UPDATE, accept).0;
      var updated := StartSetting(stopped, i, flags, accept).0;
      Send(updated, Start(updated.sets[i].handle, updated.sets[i].duration))
    else StartSetting(m, i, flags, accept)
  }

  function SetParam(m: Mgr, h: u8, own: OwnAddr, intervalMin: nat, intervalMax: nat, accept: Answers): (Mgr, Cause) {
    var i := Find(m.sets, h);
    if i == |m.sets| then (m, NotFound)
    else
      var s := m.sets[i].(own := own, intervalMin := To16(intervalMin), intervalMax := To16(intervalMax));
      (Reconfigure(Put(m, i, s), i, SET_PARAS, accept).0, Success)
  }

  function SetRandom(m: Mgr, h: u8, accept: Answers): (Mgr, Cause) {
    var i := Find(m.sets, h);
    if i == |m.sets| then (m, NotFound)
    else if !UsesRandom(m.sets[i].own) then (m, InvalidParam)
    else (Reconfigure(m, i, SET_RANDOM, accept).0, Success)
  }

  function MultiFlags(s: AdvSet, random: bool, interval: u16, data: bool, scanRsp: bool): Flags {
    s.initFlags
    | (if random && UsesRandom(s.own) then SET_RANDOM else 0)
    | (if interval <= s.intervalMin || interval >= s.intervalMax then SET_PARAS else 0)
    | (if data then SET_DATA else 0)
    | (if scanRsp then SET_SCAN_RSP else 0)
  }

  function SetMulti(m: Mgr, h: u8, random: bool, interval: u16, data: bool, scanRsp: bool, accept: Answers): (Mgr, Cause) {
    var i := Find(m.sets, h);
    if i == |m.sets| then (m, NotFound)
    else
      var f := MultiFlags(m.sets[i], random, interval, data, scanRsp);
      if f == 0 then (m, InvalidParam)
      else
        var (v, r) := if f & (SET_RANDOM | SET_PARAS) != 0 then Reconfigure(m, i, f, accept) else StartSetting(m, i, f, accept);
        (if r == Success && f & SET_PARAS != 0 then MarkSet(v, i) else v, r)
  }

  function MarkSet(m: Mgr, i: nat): Mgr
    requires i < |m.sets|
  {
    Put(m, i, m.sets[i].(paramSet := true))
  }

  // ----- What the stack reports -----

  function Settled(s: AdvSet, p: Pending): AdvSet {
    if s.pending == p then s.(pending := NoPending) else s
  }

  function HandleState(m: Mgr, h: u8, new_: AdvState, cause: u16, accept: Answers): Mgr {
    var i := Find(m.sets, h);
    if i == |m.sets| then m
    else
      var was := m.sets[i].state;
      var s := CheckState(m.sets[i].(state := new_), cause, true);
      if was == Starting then NextStep(Put(m, i, Settled(s, StartPending)), accept)
      else if was == Stopping then NextStep(Put(m, i, Settled(s, StopPending)), accept)
      else Put(m, i, s)
  }

  function HandleSetting(m: Mgr, h: u8, accept: Answers): Mgr {
    var i := Find(m.sets, h);
    NextStep(if i == |m.sets| then m else Put(m, i, Settled(m.sets[i], UpdatePending)), accept)
  }

  function HandleConnected(m: Mgr, h: u8): Mgr {
    if Find(m.sets, h) == |m.sets| then m else m.(queue := Others(m.queue, h))
  }

  // ----- Runs -----

  datatype Event =
    | Created(handle: u8, setup: Setup)
    | StackReady
    | DataSet(handle: u8, flags: Flags)
    | Enabled(handle: u8, duration: u16)
    | Disabled(handle: u8, cause: u8)
    | AllDisabled(cause: u8)
    | ParamSet(handle: u8, own: OwnAddr, intervalMin: nat, intervalMax: nat)
    | RandomSet(handle: u8)
    | MultiSet(handle: u8, random: bool, interval: u16, data: bool, scanRsp: bool)
    | StateChanged(handle: u8, state: AdvState, reason: u16)
    | SettingDone(handle: u8)
    | LinkUp(handle: u8)

  function Step(m: Mgr, e: Event, accept: Answers): Mgr {
    match e
    case Created(h, p) => Create(m, h, p).0
    case StackReady => m.(ready := true)
    case DataSet(h, flags) => SetData(m, h, flags, accept).0
    case Enabled(h, duration) => Enable(m, h, duration, accept).0
    case Disabled(h, cause) => Disable(m, h, cause, accept).0
    case AllDisabled(cause) => DisableFrom(m, 0, cause, accept)
    case ParamSet(h, own, low, high) => SetParam(m, h, own, low, high, accept).0
    case RandomSet(h) => SetRandom(m, h, accept).0
    case MultiSet(h, random, interval, data, scanRsp) => SetMulti(m, h, random, interval, data, scanRsp, accept).0
    case StateChanged(h, s, cause) => HandleState(m, h, s, cause, accept)
    case SettingDone(h) => HandleSetting(m, h, accept)
    case LinkUp(h) => HandleConnected(m, h)
  }

  /** Each accepted command completes exactly once: the stack starts or stops a set only while that
      is pending, leaves a transient state for a stable one, and reports an update only while one is
      pending. */
  predicate Legal(m: Mgr, e: Event) {
    match e
    case StateChanged(h, s, _) =>
      var i := Find(m.sets, h);
      i < |m.sets| ==>
        var t := m.sets[i];
        (s == Starting ==> t.pending == StartPending && t.state != Starting) &&
        (s == Stopping ==> t.pending == StopPending && t.state != Stopping)
    case SettingDone(h) =>
      var i := Find(m.sets, h);
      i < |m.sets| && m.sets[i].pending == UpdatePending
    case _ => true
  }

  function Run(m: Mgr, es: seq<Event>, accept: Answers): Mgr
    decreases |es|
  {
    if es == [] then m else Run(Step(m, es[0], accept), es[1..], accept)
  }

  predicate LegalRun(m: Mgr, es: seq<Event>, accept: Answers)
    decreases |es|
  {
    es == [] || (Legal(m, es[0]) && LegalRun(Step(m, es[0], accept), es[1..], accept))
  }

  predicate Initial(m: Mgr) {
    (forall s :: s in m.sets ==> s == UNUSED) && m.queue == [] && m.issued == [] && m.sent == [] && m.taken == []
  }
}
