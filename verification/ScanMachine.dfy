/** The scanner shared by several clients: it restarts when their merged parameters change. */
module ScanMachine {
  import opened Widths
  import opened ScanMerge

  datatype Gap = GapIdle | GapStarting | GapScanning | GapStopping

  datatype Action = Stopped | Started | Paused

  datatype Progress = NoUpdate | UpdateReq | UpdateStop | UpdateStart

  /** hdl stands for the allocation. */
  datatype Client = Client(hdl: nat, param: Param)

  /** gap and running belong to the stack: what it is doing, and the parameters it was last started
      with.  tries counts the commands it was given. */
  datatype Scan = Scan(
    clients: seq<Client>,
    param: Param,
    update: Progress,
    action: Action,
    seen: Gap,
    gap: Gap,
    running: Param,
    nextHdl: nat,
    tries: nat)

  /** Does the stack accept the n-th command? */
  type Answers = nat -> bool

  function Params(cs: seq<Client>): (ps: seq<Param>)
    ensures |ps| == |cs| && forall i :: 0 <= i < |cs| ==> ps[i] == cs[i].param
  {
    if cs == [] then [] else [cs[0].param] + Params(cs[1..])
  }

  /** Index of the client with this handle, or |cs|. */
  function FindHdl(cs: seq<Client>, hdl: nat): (i: nat)
    ensures i <= |cs|
    ensures i < |cs| ==> cs[i].hdl == hdl
  {
    if cs == [] || cs[0].hdl == hdl then 0 else 1 + FindHdl(cs[1..], hdl)
  }

  // ----- Commands to the stack -----

  function StopScan(s: Scan, accept: Answers): (Scan, bool) {
    (s.(tries := s.tries + 1, gap := if accept(s.tries) then GapStopping else s.gap), accept(s.tries))
  }

  function StartScan(s: Scan, accept: Answers): (Scan, bool) {
    if accept(s.tries) then (s.(tries := s.tries + 1, gap := GapStarting, running := s.param), true)
    else (s.(tries := s.tries + 1), false)
  }

  // ----- The state machine -----

  function CheckState(s: Scan, accept: Answers): Scan {
    match s.gap
    case GapScanning =>
      if s.action != Started then StopScan(s, accept).0
      else if s.update == UpdateReq then
        var (n, ok) := StopScan(s, accept);
        if ok then n.(update := UpdateStop) else n
      else if s.update == UpdateStart then s.(update := NoUpdate)
      else s
    case GapIdle =>
      if s.action != Started then s
      else
        var (n, ok) := StartScan(s, accept);
        if ok && s.update == UpdateStop then n.(update := UpdateStart) else n
    case _ => s
  }

  predicate OnAir(s: Scan) { s.gap == GapStarting || s.gap == GapScanning }

  /** A changed merge of a started scan has to be put on air. */
  function ParamUpdate(s: Scan): Scan
    requires s.clients != []
  {
    var p := Merge(Params(s.clients));
    if p == s.param then s
    else s.(param := p, update := if s.action == Started && OnAir(s) then UpdateReq else s.update)
  }

  function Start(s: Scan, p: Param, accept: Answers): Scan {
    var n := s.(clients := s.clients + [Client(s.nextHdl, p)], nextHdl := s.nextHdl + 1,
                action := if s.action == Paused then Paused else Started);
    CheckState(ParamUpdate(n), accept)
  }

  function Without(cs: seq<Client>, i: nat): seq<Client>
    requires i < |cs|
  {
    cs[..i] + cs[i+1..]
  }

  function Stop(s: Scan, hdl: nat, accept: Answers): Scan {
    var i := FindHdl(s.clients, hdl);
    if i == |s.clients| then s
    else
      var n := s.(clients := Without(s.clients, i));
      if n.clients == [] then CheckState(n.(action := if s.action == Paused then Paused else Stopped), accept)
      else CheckState(ParamUpdate(n), accept)
  }

  function SetParam(s: Scan, hdl: nat, p: Param, accept: Answers): Scan {
    var i := FindHdl(s.clients, hdl);
    if i == |s.clients| then s
    else CheckState(ParamUpdate(s.(clients := s.clients[i := s.clients[i].(param := p)])), accept)
  }

  function Pause(s: Scan, accept: Answers): Scan {
    if s.action == Paused then s else CheckState(s.(action := Paused), accept)
  }

  function Resume(s: Scan, accept: Answers): Scan {
    if s.action != Paused then s
    else CheckState(s.(action := if s.clients == [] then Stopped else Started), accept)
  }

  /** The stack reports its state; the report may lag behind. */
  function HandleState(s: Scan, g: Gap, accept: Answers): Scan {
    if s.seen == g then s else CheckState(s.(seen := g), accept)
  }

  // ----- Runs -----

  datatype Event =
    | ClientStarts(param: Param)
    | ClientStops(hdl: nat)
    | ParamSet(hdl: nat, newParam: Param)
    | PauseAsked
    | ResumeAsked
    | Moved(to: Gap)
    | Reported(gap: Gap)

  function Step(s: Scan, e: Event, accept: Answers): Scan {
    match e
    case ClientStarts(p) => Start(s, p, accept)
    case ClientStops(h) => Stop(s, h, accept)
    case ParamSet(h, p) => SetParam(s, h, p, accept)
    case PauseAsked => Pause(s, accept)
    case ResumeAsked => Resume(s, accept)
    case Moved(g) => s.(gap := g)
    case Reported(g) => HandleState(s, g, accept)
  }

  /** On its own the stack ends a start in scanning or idle, a scan in idle, and a stop in idle or,
      should it fail, in scanning. */
  predicate Legal(s: Scan, e: Event) {
    e.Moved? ==>
      match s.gap
      case GapIdle => e.to == GapIdle
      case GapStarting => e.to == GapScanning || e.to == GapIdle
      case GapScanning => e.to == GapIdle
      case GapStopping => e.to == GapIdle || e.to == GapScanning
  }

  function Run(s: Scan, es: seq<Event>, accept: Answers): Scan
    decreases |es|
  {
    if es == [] then s else Run(Step(s, es[0], accept), es[1..], accept)
  }

  predicate LegalRun(s: Scan, es: seq<Event>, accept: Answers)
    decreases |es|
  {
    es == [] || (Legal(s, es[0]) && LegalRun(Step(s, es[0], accept), es[1..], accept))
  }

  predicate Initial(s: Scan) {
    s.clients == [] && s.update == NoUpdate && s.action == Stopped && s.gap == GapIdle
  }

  // ----- Invariants -----

  /** The manager's parameters are the merge of its clients', and the action fits the clients. */
  predicate Merged(s: Scan) {
    (s.clients != [] ==> s.param == Merge(Params(s.clients))) &&
    (s.action == Started ==> s.clients != []) && (s.action == Stopped ==> s.clients == [])
  }

  /** A scan on air with other parameters than the merged ones has a restart requested. */
  predicate Coherent(s: Scan) {
    OnAir(s) && s.running != s.param ==> s.update == UpdateReq
  }

  lemma CheckMerged(s: Scan, accept: Answers)
    requires Merged(s)
    ensures Merged(CheckState(s, accept))
  {
    hide Merge, Params;
  }

  lemma UpdateMerged(s: Scan, accept: Answers)
    requires s.clients != [] && s.action != Stopped
    ensures Merged(CheckState(ParamUpdate(s), accept))
  {
    hide Merge, Params, CheckState;
    CheckMerged(ParamUpdate(s), accept);
  }

  lemma StepMerged(s: Scan, e: Event, accept: Answers)
    requires Merged(s)
    ensures Merged(Step(s, e, accept))
  {
    hide Merge, Params, CheckState, ParamUpdate;
    match e
    case ClientStarts(p) =>
      UpdateMerged(s.(clients := s.clients + [Client(s.nextHdl, p)], nextHdl := s.nextHdl + 1,
                      action := if s.action == Paused then Paused else Started), accept);
    case ClientStops(h) =>
      var i := FindHdl(s.clients, h);
      if i < |s.clients| {
        var n := s.(clients := Without(s.clients, i));
        if n.clients == [] {
          CheckMerged(n.(action := if s.action == Paused then Paused else Stopped), accept);
        } else {
          UpdateMerged(n, accept);
        }
      }
    case ParamSet(h, p) =>
      var i := FindHdl(s.clients, h);
      if i < |s.clients| {
        UpdateMerged(s.(clients := s.clients[i := s.clients[i].(param := p)]), accept);
      }
    case PauseAsked => CheckMerged(s.(action := Paused), accept);
    case ResumeAsked => CheckMerged(s.(action := if s.clients == [] then Stopped else Started), accept);
    case Moved(_) =>
    case Reported(g) => CheckMerged(s.(seen := g), accept);
  }

  lemma CheckCoherent(s: Scan, accept: Answers)
    requires Coherent(s)
    ensures Coherent(CheckState(s, accept))
  {
  }

  /** Looking at the state while not started ends an incoherent scan on air only by stopping it. */
  lemma CheckNotStarted(s: Scan, accept: Answers)
    requires s.action != Started && !Coherent(s)
    ensures Coherent(CheckState(s, accept)) <==> s.gap == GapScanning && accept(s.tries)
  {
  }

  /** The clients an event leaves, when it may change the merge. */
  function ClientsAfter(s: Scan, e: Event): seq<Client> {
    match e
    case ClientStarts(p) => s.clients + [Client(s.nextHdl, p)]
    case ClientStops(h) =>
      var i := FindHdl(s.clients, h);
      if i == |s.clients| then s.clients else Without(s.clients, i)
    case ParamSet(h, p) =>
      var i := FindHdl(s.clients, h);
      if i == |s.clients| then s.clients else s.clients[i := s.clients[i].(param := p)]
    case _ => s.clients
  }

  /** The merge changes while the scan is paused but on air, and the stack is not brought to stop; or a
      stop fails after the merge has changed. */
  predicate Breaks(s: Scan, e: Event, accept: Answers) {
    s.update != UpdateReq &&
    match e
    case Moved(g) => s.gap == GapStopping && g == GapScanning && s.running != s.param
    case _ =>
      var cs := ClientsAfter(s, e);
      s.action == Paused && cs != s.clients && cs != [] && s.running != Merge(Params(cs)) &&
      (s.gap == GapStarting || (s.gap == GapScanning && !accept(s.tries)))
  }

  lemma UpdateCoherent(s: Scan, n: Scan, accept: Answers)
    requires Merged(s) && Coherent(s) && n.clients != []
    requires n == s.(clients := n.clients, nextHdl := n.nextHdl, action := n.action)
    requires n.action == Started || (n.action == Paused && s.action == Paused)
    ensures
      Coherent(CheckState(ParamUpdate(n), accept)) <==>
      !(n.action == Paused && s.update != UpdateReq && s.running != Merge(Params(n.clients)) &&
        (s.gap == GapStarting || (s.gap == GapScanning && !accept(s.tries))))
  {
    hide Merge, Params;
    var u := ParamUpdate(n);
    assert u.param == Merge(Params(n.clients));
    if Coherent(u) {
      CheckCoherent(u, accept);
    } else {
      CheckNotStarted(u, accept);
    }
  }

  lemma SameClients(s: Scan, n: Scan, accept: Answers)
    requires Merged(s) && Coherent(s) && n == s.(nextHdl := n.nextHdl) && s.clients != []
    ensures Coherent(CheckState(ParamUpdate(n), accept))
  {
    hide Merge, Params;
    CheckCoherent(ParamUpdate(n), accept);
  }

  /** Every legal step keeps coherence exactly when it does not break it. */
  lemma StepCoherent(s: Scan, e: Event, accept: Answers)
    requires Merged(s) && Coherent(s) && Legal(s, e)
    ensures Coherent(Step(s, e, accept)) <==> !Breaks(s, e, accept)
  {
    hide Merge, Params, CheckState, ParamUpdate;
    match e
    case ClientStarts(p) =>
      var n := s.(clients := s.clients + [Client(s.nextHdl, p)], nextHdl := s.nextHdl + 1,
                  action := if s.action == Paused then Paused else Started);
      assert |n.clients| > |s.clients|;
      UpdateCoherent(s, n, accept);
    case ClientStops(h) =>
      var i := FindHdl(s.clients, h);
      if i < |s.clients| {
        var n := s.(clients := Without(s.clients, i));
        assert |n.clients| < |s.clients|;
        if n.clients == [] {
          CheckCoherent(n.(action := if s.action == Paused then Paused else Stopped), accept);
        } else {
          UpdateCoherent(s, n, accept);
        }
      }
    case ParamSet(h, p) =>
      var i := FindHdl(s.clients, h);
      if i < |s.clients| {
        var n := s.(clients := s.clients[i := s.clients[i].(param := p)]);
        if n.clients == s.clients { SameClients(s, n, accept); } else { UpdateCoherent(s, n, accept); }
      }
    case PauseAsked => CheckCoherent(s.(action := Paused), accept);
    case ResumeAsked => CheckCoherent(s.(action := if s.clients == [] then Stopped else Started), accept);
    case Moved(_) =>
    case Reported(g) => CheckCoherent(s.(seen := g), accept);
  }

  // ----- Whole runs -----

  predicate NeverBreaks(s: Scan, es: seq<Event>, accept: Answers)
    decreases |es|
  {
    es == [] || (!Breaks(s, es[0], accept) && NeverBreaks(Step(s, es[0], accept), es[1..], accept))
  }

  predicate AlwaysCoherent(s: Scan, es: seq<Event>, accept: Answers)
    decreases |es|
  {
    Coherent(s) && (es == [] || AlwaysCoherent(Step(s, es[0], accept), es[1..], accept))
  }

  lemma {:induction false} RunMerged(s: Scan, es: seq<Event>, accept: Answers)
    requires Merged(s)
    ensures Merged(Run(s, es, accept))
    decreases |es|
  {
    hide Merged, Step;
    if es != [] {
      StepMerged(s, es[0], accept);
      RunMerged(Step(s, es[0], accept), es[1..], accept);
    }
  }

  lemma {:induction false} RunCoherent(s: Scan, es: seq<Event>, accept: Answers)
    requires Merged(s) && Coherent(s) && LegalRun(s, es, accept)
    ensures AlwaysCoherent(s, es, accept) <==> NeverBreaks(s, es, accept)
    ensures NeverBreaks(s, es, accept) ==> Coherent(Run(s, es, accept))
    decreases |es|
  {
    hide Merged, Coherent, Step, Breaks, Legal;
    if es != [] {
      var n := Step(s, es[0], accept);
      StepMerged(s, es[0], accept);
      StepCoherent(s, es[0], accept);
      if Coherent(n) {
        RunCoherent(n, es[1..], accept);
      }
    }
  }

  /** A scan that runs and has no update under way uses exactly the merged parameters of its clients. */
  predicate SettledRight(s: Scan) {
    s.gap == GapScanning && s.update == NoUpdate && s.clients != [] ==> s.running == Merge(Params(s.clients))
  }

  /** The coherence theorem, over every run from an idle scanner: the scan is coherent in every state
      exactly when no step breaks it, and then a settled scan runs the merged parameters. */
  lemma ScanCoherence(s: Scan, es: seq<Event>, accept: Answers)
    requires Initial(s) && LegalRun(s, es, accept)
    ensures AlwaysCoherent(s, es, accept) <==> NeverBreaks(s, es, accept)
    ensures NeverBreaks(s, es, accept) ==> SettledRight(Run(s, es, accept))
  {
    hide Merge, Params, Step, Run, AlwaysCoherent, NeverBreaks, LegalRun;
    RunMerged(s, es, accept);
    RunCoherent(s, es, accept);
  }

  /** No pause is asked for, and no stop fails. */
  predicate Plain(s: Scan, es: seq<Event>, accept: Answers)
    decreases |es|
  {
    es == [] ||
    (!es[0].PauseAsked? && !(es[0].Moved? && s.gap == GapStopping && es[0].to == GapScanning) &&
     Plain(Step(s, es[0], accept), es[1..], accept))
  }

  lemma NotPaused(s: Scan, e: Event, accept: Answers)
    requires s.action != Paused && !e.PauseAsked?
    ensures Step(s, e, accept).action != Paused
  {
    hide Merge, Params;
  }

  lemma {:induction false} PlainNeverBreaks(s: Scan, es: seq<Event>, accept: Answers)
    requires s.action != Paused && Plain(s, es, accept)
    ensures NeverBreaks(s, es, accept)
    decreases |es|
  {
    hide Step, ClientsAfter, Merge, Params;
    if es != [] {
      NotPaused(s, es[0], accept);
      PlainNeverBreaks(Step(s, es[0], accept), es[1..], accept);
    }
  }

  /** Without pauses and failed stops every settled scan runs the merged parameters of its clients. */
  lemma PlainRunsSettle(s: Scan, es: seq<Event>, accept: Answers)
    requires Initial(s) && LegalRun(s, es, accept) && Plain(s, es, accept)
    ensures AlwaysCoherent(s, es, accept) && SettledRight(Run(s, es, accept))
  {
    hide AlwaysCoherent, NeverBreaks, Run, Step, LegalRun, Plain, SettledRight;
    PlainNeverBreaks(s, es, accept);
    ScanCoherence(s, es, accept);
  }

  /** The restart theorem, for any settled scan and any change of a client: if the stack accepts and
      completes what it is given, the scan is restarted once, settles again, and then runs the new
      merge. */
  lemma ChangeRestarts(s: Scan, hdl: nat, p: Param)
    requires Merged(s) && Coherent(s) && s.action == Started && s.update == NoUpdate
    requires s.gap == GapScanning && s.seen == GapScanning
    requires
      var i := FindHdl(s.clients, hdl);
      i < |s.clients| && Merge(Params(s.clients[i := s.clients[i].(param := p)])) != s.param
    ensures
      var accept: Answers := k => true;
      var a := Step(Step(Step(s, ParamSet(hdl, p), accept), Moved(GapIdle), accept), Reported(GapIdle), accept);
      var r := Step(Step(a, Moved(GapScanning), accept), Reported(GapScanning), accept);
      r.gap == GapScanning && r.update == NoUpdate && r.running == Merge(Params(r.clients)) &&
      r.clients == ClientsAfter(s, ParamSet(hdl, p)) && r.tries == s.tries + 2
  {
    hide Merge, Params;
    var accept: Answers := k => true;
    var i := FindHdl(s.clients, hdl);
    var cs := s.clients[i := s.clients[i].(param := p)];
    var b := Step(s, ParamSet(hdl, p), accept);
    assert b == s.(clients := cs, param := Merge(Params(cs)), update := UpdateStop, gap := GapStopping, tries := s.tries + 1);
    var a := Step(Step(b, Moved(GapIdle), accept), Reported(GapIdle), accept);
    assert a == b.(gap := GapStarting, seen := GapIdle, running := b.param, update := UpdateStart, tries := b.tries + 1);
  }

  // ----- A run that settles wrong -----

  function WrongRun(a: Param, b: Param): seq<Event> {
    [ClientStarts(a), PauseAsked, ParamSet(0, b), ResumeAsked, Moved(GapScanning), Reported(GapScanning)]
  }

  lemma FirstStart(s: Scan, a: Param, accept: Answers)
    requires Initial(s) && s.seen == GapIdle && s.nextHdl == 0 && accept(s.tries)
    ensures Step(s, ClientStarts(a), accept) ==
      Scan([Client(0, a)], a, NoUpdate, Started, GapIdle, GapStarting, a, 1, s.tries + 1)
  {
    assert Params([Client(0, a)]) == [a];
  }

  lemma PausedChange(s: Scan, a: Param, b: Param, n: nat, accept: Answers)
    requires s == Scan([Client(0, a)], a, NoUpdate, Started, GapIdle, GapStarting, a, 1, n) && a != b
    ensures
      var r := Step(Step(Step(s, PauseAsked, accept), ParamSet(0, b), accept), ResumeAsked, accept);
      var t := Step(Step(r, Moved(GapScanning), accept), Reported(GapScanning), accept);
      r == s.(clients := [Client(0, b)], param := b) && Legal(r, Moved(GapScanning)) &&
      t == r.(gap := GapScanning, seen := GapScanning)
  {
    assert FindHdl(s.clients, 0) == 0;
    var s1 := Step(s, PauseAsked, accept);
    assert s1 == s.(action := Paused);
    var s2 := Step(s1, ParamSet(0, b), accept);
    assert s1.clients[0 := s1.clients[0].(param := b)] == [Client(0, b)];
    assert Params([Client(0, b)]) == [b];
    assert s2 == s1.(clients := [Client(0, b)], param := b);
  }

  lemma RunCons(s: Scan, e: Event, es: seq<Event>, accept: Answers)
    ensures Run(s, [e] + es, accept) == Run(Step(s, e, accept), es, accept)
    ensures LegalRun(s, [e] + es, accept) <==> Legal(s, e) && LegalRun(Step(s, e, accept), es, accept)
  {
    hide Step, Legal;
    assert ([e] + es)[0] == e && ([e] + es)[1..] == es;
  }

  lemma RunSix(s: Scan, e1: Event, e2: Event, e3: Event, e4: Event, e5: Event, e6: Event, accept: Answers)
    ensures
      var s2 := Step(Step(s, e1, accept), e2, accept);
      var s4 := Step(Step(s2, e3, accept), e4, accept);
      Run(s, [e1, e2, e3, e4, e5, e6], accept) == Step(Step(s4, e5, accept), e6, accept) &&
      (LegalRun(s, [e1, e2, e3, e4, e5, e6], accept) <==>
        Legal(s, e1) && Legal(Step(s, e1, accept), e2) && Legal(s2, e3) && Legal(Step(s2, e3, accept), e4) &&
        Legal(s4, e5) && Legal(Step(s4, e5, accept), e6))
  {
    hide Step, Legal;
    RunCons(s, e1, [e2, e3, e4, e5, e6], accept);
    var s1 := Step(s, e1, accept);
    RunCons(s1, e2, [e3, e4, e5, e6], accept);
    var s2 := Step(s1, e2, accept);
    RunCons(s2, e3, [e4, e5, e6], accept);
    var s3 := Step(s2, e3, accept);
    RunCons(s3, e4, [e5, e6], accept);
    var s4 := Step(s3, e4, accept);
    RunCons(s4, e5, [e6], accept);
    RunCons(Step(s4, e5, accept), e6, [], accept);
  }

  lemma {:induction false} CoherentAtEnd(s: Scan, es: seq<Event>, accept: Answers)
    ensures AlwaysCoherent(s, es, accept) ==> Coherent(Run(s, es, accept))
    decreases |es|
  {
    hide Step, Coherent;
    if es != [] { CoherentAtEnd(Step(s, es[0], accept), es[1..], accept); }
  }

  /** A scanner starts for a client with parameters a; while the stack is starting it is paused, the
      client changes to b, and it is resumed.  It settles on a.  For any two different parameters. */
  lemma PauseChangeResume(s: Scan, a: Param, b: Param)
    requires Initial(s) && s.seen == GapIdle && s.nextHdl == 0 && a != b
    ensures
      var accept: Answers := k => true;
      var r := Run(s, WrongRun(a, b), accept);
      LegalRun(s, WrongRun(a, b), accept) && !AlwaysCoherent(s, WrongRun(a, b), accept) &&
      r.gap == GapScanning && r.update == NoUpdate && r.action == Started &&
      r.running == a && r.clients == [Client(0, b)] && Merge(Params(r.clients)) == b
  {
    hide Step;
    var accept: Answers := k => true;
    var es := WrongRun(a, b);
    FirstStart(s, a, accept);
    PausedChange(Step(s, es[0], accept), a, b, s.tries + 1, accept);
    RunSix(s, es[0], es[1], es[2], es[3], es[4], es[5], accept);
    CoherentAtEnd(s, es, accept);
    assert Params([Client(0, b)]) == [b];
  }
}
