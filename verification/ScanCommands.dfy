/** What the scanner asks of the stack, said of its clients and the stack's state. */
module ScanCommands {
  import opened Widths
  import opened ScanMerge
  import opened ScanMachine

  /** What the clients want after the event. */
  function Wish(s: Scan, e: Event): Action {
    match e
    case ClientStarts(_) => if s.action == Paused then Paused else Started
    case ClientStops(_) => if ClientsAfter(s, e) == [] && s.clients != [] && s.action != Paused then Stopped else s.action
    case PauseAsked => Paused
    case ResumeAsked => if s.action != Paused then s.action else if s.clients == [] then Stopped else Started
    case _ => s.action
  }

  /** Does the event make the scanner act?  Requests of unknown clients, repeated pauses, resumes of what
      is not paused, and repeated reports do not. */
  predicate Acts(s: Scan, e: Event) {
    match e
    case ClientStarts(_) => true
    case ClientStops(h) => exists c :: c in s.clients && c.hdl == h
    case ParamSet(h, _) => exists c :: c in s.clients && c.hdl == h
    case PauseAsked => s.action != Paused
    case ResumeAsked => s.action == Paused
    case Moved(_) => false
    case Reported(g) => g != s.seen
  }

  /** The merged parameters change while the wished-for scan is on air. */
  predicate Restarts(s: Scan, e: Event) {
    var cs := ClientsAfter(s, e);
    Acts(s, e) && (e.ClientStarts? || e.ClientStops? || e.ParamSet?) && cs != [] && Merge(Params(cs)) != s.param &&
    Wish(s, e) == Started && (s.gap == GapStarting || s.gap == GapScanning)
  }

  predicate GivesStop(s: Scan, e: Event) {
    Acts(s, e) && s.gap == GapScanning && (Wish(s, e) != Started || s.update == UpdateReq || Restarts(s, e))
  }

  predicate GivesStart(s: Scan, e: Event) {
    Acts(s, e) && s.gap == GapIdle && Wish(s, e) == Started
  }

  lemma {:induction false} Known(cs: seq<Client>, h: nat)
    ensures FindHdl(cs, h) < |cs| <==> exists c :: c in cs && c.hdl == h
  {
    if cs != [] {
      Known(cs[1..], h);
      if FindHdl(cs, h) < |cs| { assert cs[FindHdl(cs, h)] in cs; }
      if c :| c in cs && c.hdl == h {
        assert cs[0] in cs;
        if cs[0].hdl != h { assert c in cs[1..]; }
      }
    }
  }

  /** What an acting scanner looks at the stack's state with. */
  lemma Looks(s: Scan, e: Event, accept: Answers) returns (v: Scan)
    requires Merged(s) && Acts(s, e)
    ensures Step(s, e, accept) == CheckState(v, accept)
    ensures v.clients == ClientsAfter(s, e) && v.action == Wish(s, e) && v.gap == s.gap && v.running == s.running && v.tries == s.tries
    ensures v.clients != [] ==> v.param == Merge(Params(v.clients))
    ensures v.update == if Restarts(s, e) then UpdateReq else s.update
  {
    hide Merge, Params, CheckState;
    match e
    case ClientStarts(p) =>
      v := ParamUpdate(s.(clients := s.clients + [Client(s.nextHdl, p)], nextHdl := s.nextHdl + 1,
                          action := if s.action == Paused then Paused else Started));
    case ClientStops(h) =>
      Known(s.clients, h);
      var n := s.(clients := ClientsAfter(s, e));
      v := if n.clients == [] then n.(action := if s.action == Paused then Paused else Stopped) else ParamUpdate(n);
    case ParamSet(h, p) =>
      Known(s.clients, h);
      v := ParamUpdate(s.(clients := ClientsAfter(s, e)));
    case PauseAsked => v := s.(action := Paused);
    case ResumeAsked => v := s.(action := if s.clients == [] then Stopped else Started);
    case Reported(g) => v := s.(seen := g);
  }

  lemma Ignores(s: Scan, e: Event, accept: Answers)
    requires !Acts(s, e) && !e.Moved?
    ensures Step(s, e, accept) == s && ClientsAfter(s, e) == s.clients && Wish(s, e) == s.action
  {
    hide Merge, Params, CheckState;
    if e.ClientStops? || e.ParamSet? { Known(s.clients, e.hdl); }
  }

  /** The command theorem, for every state and event.  The stack is told to stop exactly when it scans
      and nobody wants it to, or it is to restart; to start exactly when it is idle and a scan is wanted,
      and then with the merge of the clients there are; and nothing else. */
  lemma CommandsExactly(s: Scan, e: Event, accept: Answers)
    requires Merged(s) && !e.Moved?
    ensures
      var n := Step(s, e, accept);
      n.clients == ClientsAfter(s, e) && n.action == Wish(s, e) &&
      (n.clients != [] ==> n.param == Merge(Params(n.clients))) &&
      if GivesStop(s, e) then n.tries == s.tries + 1 && n.running == s.running && n.gap == if accept(s.tries) then GapStopping else GapScanning
      else if GivesStart(s, e) then
        n.tries == s.tries + 1 &&
        if accept(s.tries) then n.gap == GapStarting && n.running == n.param else n.gap == GapIdle && n.running == s.running
      else n.tries == s.tries && n.gap == s.gap && n.running == s.running
  {
    hide Merge, Params, Step, Acts, Wish, ClientsAfter, Restarts;
    if Acts(s, e) { var v := Looks(s, e, accept); } else { Ignores(s, e, accept); }
  }

  /** The last client leaves a running scan: the stack is told to stop. */
  lemma LastLeaves(s: Scan, c: Client, accept: Answers)
    requires Merged(s) && s.clients == [c] && s.gap == GapScanning
    ensures
      var n := Step(s, ClientStops(c.hdl), accept);
      n.clients == [] && n.action != Started && n.tries == s.tries + 1 &&
      n.gap == if accept(s.tries) then GapStopping else GapScanning
  {
    hide Step, Merge, Params;
    var e := ClientStops(c.hdl);
    assert c in s.clients;
    CommandsExactly(s, e, accept);
  }

  /** Resuming an idle scanner that has clients gives the stack a start with their merged parameters. */
  lemma ResumeStarts(s: Scan, accept: Answers)
    requires Merged(s) && s.action == Paused && s.clients != [] && s.gap == GapIdle
    ensures
      var n := Step(s, ResumeAsked, accept);
      n.action == Started && n.tries == s.tries + 1 &&
      if accept(s.tries) then n.gap == GapStarting && n.running == Merge(Params(s.clients)) else n.gap == GapIdle
  {
    hide Step, Merge, Params;
    CommandsExactly(s, ResumeAsked, accept);
  }

  /** The progress of a restart: requested, stopping, starting, and over once it scans again. */
  lemma ProgressExactly(s: Scan, e: Event, accept: Answers)
    requires Merged(s) && !e.Moved?
    ensures
      var n := Step(s, e, accept);
      var asked := if Restarts(s, e) then UpdateReq else s.update;
      n.update ==
        if GivesStop(s, e) && Wish(s, e) == Started && accept(s.tries) then UpdateStop
        else if GivesStart(s, e) && accept(s.tries) && asked == UpdateStop then UpdateStart
        else if Acts(s, e) && s.gap == GapScanning && Wish(s, e) == Started && asked == UpdateStart then NoUpdate
        else asked
  {
    hide Merge, Params, Step, Acts, Wish, ClientsAfter, Restarts;
    if Acts(s, e) {
      var v := Looks(s, e, accept);
    } else {
      Ignores(s, e, accept);
      NoRestart(s, e);
    }
  }

  lemma NoRestart(s: Scan, e: Event)
    requires !Acts(s, e)
    ensures !Restarts(s, e)
  {
    hide Acts;
  }
}
