/** The discovery walk: which procedure the client asks the stack for after each one that ends. */
module DiscoveryWalk {
  import opened Widths
  import opened Attributes
  import opened ServiceTable
  import opened DiscoveryList
  import opened IncludeLoop
  import opened Queries

  /** The stack's answer to the n-th procedure it is asked for. */
  type Answers = nat -> bool

  datatype Call =
    | Services
    | Relations(first: u16, last: u16)
    | Chars(first: u16, last: u16)
    | Descs(first: u16, last: u16)

  datatype Result =
    | SrvResult(first: u16, last: u16, uuid: Uuid)
    | IncResult(decl: u16, first: u16, last: u16, uuid: Uuid)
    | CharResult(decl: u16, props: u16, value: u16, uuid: Uuid)
    | DescResult(handle: u16, uuid: Uuid)

  datatype Outcome = Idle | Discovering | Finished | Failed

  /** calls are the procedures the stack accepted; the last one is running. */
  datatype Walk = Walk(db: seq<DisSrv>, curr: Option<nat>, state: Outcome, calls: seq<Call>)

  function Fail(w: Walk): Walk {
    w.(db := [], curr := None, state := Failed)
  }

  function Ask(w: Walk, c: Call, k: nat, accept: Answers): Walk {
    if accept(|w.calls|) then w.(calls := w.calls + [c], curr := Some(k)) else Fail(w)
  }

  function Start(accept: Answers): Walk {
    if accept(0) then Walk([], None, Discovering, [Services]) else Walk([], None, Idle, [])
  }

  // ----- Results -----

  function Update(w: Walk, d: DisSrv): Walk
    requires w.curr.Some? && w.curr.value < |w.db|
  {
    w.(db := w.db[w.curr.value := d])
  }

  function Apply(cfg: Config, w: Walk, r: Result): Walk {
    match r
    case SrvResult(first, last, u) => w.(db := AddPrimary(cfg, w.db, first, last, u))
    case _ =>
      if w.curr.None? || w.curr.value >= |w.db| then w
      else
        var d := w.db[w.curr.value];
        match r
        case IncResult(decl, first, last, u) => Update(w, AddInclude(d, decl, first, last, u))
        case CharResult(decl, props, value, u) => Update(w, AddChar(d, decl, props, value, u))
        case DescResult(handle, u) => Update(w, AddDesc(d, handle, u))
  }

  function ApplyAll(cfg: Config, w: Walk, rs: seq<Result>): Walk
    decreases |rs|
  {
    if rs == [] then w else ApplyAll(cfg, Apply(cfg, w, rs[0]), rs[1..])
  }

  // ----- Descriptor ranges -----

  function StartOf(c: DisChar): u16 { To16(c.ch.value + 1) }

  /** A characteristic has room for descriptors behind its value. */
  predicate HasRoom(d: DisSrv, i: nat)
    requires i < |d.chars|
  {
    StartOf(d.chars[i]) <= EndOf(d, i)
  }

  predicate Notifies(props: u16) { (props / 0x10) % 4 != 0 }

  function Silenced(props: u16): u16 { props - (props / 0x10) % 4 * 0x10 }

  /** Fixes the characteristic's end; without room for a CCCD it loses its notify and indicate bits. */
  function Close(d: DisSrv, i: nat): DisSrv
    requires i < |d.chars|
  {
    var c := d.chars[i].ch.(last := EndOf(d, i));
    var c' := if !HasRoom(d, i) && Notifies(c.props) then c.(props := Silenced(c.props)) else c;
    d.(chars := d.chars[i := d.chars[i].(ch := c')])
  }

  /** Closes characteristics from i on up to and including the first with room. */
  function CloseFrom(d: DisSrv, i: nat): (DisSrv, nat)
    requires i <= |d.chars|
    decreases |d.chars| - i
  {
    if i == |d.chars| then (d, i)
    else if HasRoom(d, i) then (Close(d, i), i)
    else CloseFrom(Close(d, i), i + 1)
  }

  lemma {:induction false} CloseKeepsLength(d: DisSrv, i: nat)
    requires i <= |d.chars|
    ensures |CloseFrom(d, i).0.chars| == |d.chars| && CloseFrom(d, i).1 <= |d.chars|
    ensures CloseFrom(d, i).0.srv == d.srv && CloseFrom(d, i).0.incs == d.incs
    decreases |d.chars| - i
  {
    if i < |d.chars| { CloseKeepsLength(Close(d, i), i + 1); }
  }

  // ----- The next procedure -----

  function RangeOf(d: DisSrv): (u16, u16) { (d.srv.hdr.handle, d.srv.endGroup) }

  function Complete(w: Walk): Walk { w.(curr := None, state := Finished) }

  function NextSecondary(w: Walk, accept: Answers): Walk {
    if w.curr.None? then Fail(w)
    else
      var k := w.curr.value + 1;
      if k >= |w.db| then Complete(w)
      else if !IsSecondary(w.db[k].srv) then Fail(w)
      else Ask(w, Chars(RangeOf(w.db[k]).0, RangeOf(w.db[k]).1), k, accept)
  }

  function NextService(cfg: Config, w: Walk, accept: Answers): Walk {
    var k := if w.curr.None? then 0 else w.curr.value + 1;
    if k < |w.db| then Ask(w, Relations(RangeOf(w.db[k]).0, RangeOf(w.db[k]).1), k, accept)
    else
      var db := AddSecondary(cfg, w.db);
      if |db| > |w.db| then NextSecondary(w.(db := db, curr := Some(|w.db| - 1)), accept) else Complete(w)
  }

  function AfterService(cfg: Config, w: Walk, accept: Answers): Walk
    requires w.curr.Some? && w.curr.value < |w.db|
  {
    if IsPrimary(w.db[w.curr.value].srv) then NextService(cfg, w, accept) else NextSecondary(w, accept)
  }

  function NextDesc(cfg: Config, w: Walk, start: bool, accept: Answers): Walk
    requires w.curr.Some? && w.curr.value < |w.db|
  {
    var d := w.db[w.curr.value];
    if d.chars == [] then AfterService(cfg, w, accept)
    else
      var from := if start then 0 else To16(d.cursor + 1);
      var (e, j) := CloseFrom(d.(cursor := from), if from < |d.chars| then from else |d.chars|);
      if j < |e.chars| && j < 0x1_0000 then
        Ask(Update(w, e.(cursor := j)), Descs(StartOf(e.chars[j]), EndOf(e, j)), w.curr.value, accept)
      else AfterService(cfg, Update(w, e), accept)
  }

  /** What the client does when the stack reports that the running procedure is done. */
  function Done(cfg: Config, w: Walk, accept: Answers): Walk
    requires w.calls != []
  {
    var c := w.calls[|w.calls|-1];
    if c.Services? then NextService(cfg, w, accept)
    else if w.curr.None? || w.curr.value >= |w.db| then Fail(w)
    else
      var d := w.db[w.curr.value];
      match c
      case Relations(_, _) => Ask(w, Chars(RangeOf(d).0, RangeOf(d).1), w.curr.value, accept)
      case Chars(_, _) => NextDesc(cfg, w, true, accept)
      case Descs(_, _) => NextDesc(cfg, w, false, accept)
  }

  // ----- What has been asked for so far -----

  /** The procedures a service gets before its descriptors. */
  function Lead(d: DisSrv): seq<Call> {
    (if IsPrimary(d.srv) then [Relations(RangeOf(d).0, RangeOf(d).1)] else []) + [Chars(RangeOf(d).0, RangeOf(d).1)]
  }

  /** One descriptor discovery for each of the first n characteristics with room. */
  function DescCalls(d: DisSrv, n: nat): seq<Call>
    requires n <= |d.chars|
  {
    if n == 0 then []
    else DescCalls(d, n - 1) + if HasRoom(d, n - 1) then [Descs(StartOf(d.chars[n-1]), EndOf(d, n - 1))] else []
  }

  /** Everything one service gets, and everything a list of services gets. */
  function Visit(d: DisSrv): seq<Call> {
    Lead(d) + DescCalls(d, |d.chars|)
  }

  function Visits(db: seq<DisSrv>): seq<Call> {
    if db == [] then [] else Visits(db[..|db|-1]) + Visit(db[|db|-1])
  }

  /** What the current service has got while procedure c is running. */
  function Progress(d: DisSrv, c: Call): seq<Call> {
    match c
    case Services => []
    case Relations(_, _) => [Relations(RangeOf(d).0, RangeOf(d).1)]
    case Chars(_, _) => Lead(d)
    case Descs(_, _) => if d.cursor < |d.chars| then Lead(d) + DescCalls(d, d.cursor + 1) else []
  }

  // ----- The walk invariant -----

  ghost predicate Unvisited(db: seq<DisSrv>, k: nat) {
    forall i :: k <= i < |db| ==> db[i].chars == [] && (db[i].incs == [] || !IsPrimary(db[i].srv))
  }

  ghost predicate AllPrimary(db: seq<DisSrv>) {
    forall i :: 0 <= i < |db| ==> IsPrimary(db[i].srv)
  }

  ghost predicate SecondaryFrom(db: seq<DisSrv>, k: nat) {
    forall i :: k <= i < |db| ==> IsSecondary(db[i].srv)
  }

  /** The first n characteristics carry their final end handle. */
  ghost predicate ClosedChars(d: DisSrv, n: nat) {
    n <= |d.chars| && forall i {:trigger EndOf(d, i)} :: 0 <= i < n ==> d.chars[i].ch.last == EndOf(d, i)
  }

  ghost predicate ClosedSrvs(db: seq<DisSrv>, k: nat) {
    forall i :: 0 <= i < k && i < |db| ==> ClosedChars(db[i], |db[i].chars|)
  }

  ghost predicate AtService(w: Walk) {
    w.curr.Some? && w.curr.value < |w.db| && w.calls != [] &&
    var k, c := w.curr.value, w.calls[|w.calls|-1];
    var d := w.db[k];
    w.calls == [Services] + Visits(w.db[..k]) + Progress(d, c) &&
    ClosedSrvs(w.db, k) && Unvisited(w.db, k + 1) &&
    (if IsPrimary(d.srv) then AllPrimary(w.db) else SecondaryFrom(w.db, k)) &&
    match c
    case Services => false
    case Relations(_, _) => IsPrimary(d.srv) && d.chars == []
    case Chars(_, _) => true
    case Descs(_, _) => d.cursor < |d.chars| && ClosedChars(d, d.cursor + 1)
  }

  ghost predicate WalkOk(cfg: Config, w: Walk) {
    ListOk(w.db) && Bound(cfg, w.db) &&
    match w.state
    case Discovering =>
      || Collecting(w)
      || AtService(w)
    case Finished => w.calls == [Services] + Visits(w.db) && ClosedSrvs(w.db, |w.db|)
    case _ => true
  }

  /** Results of a procedure are of the kind it discovers. */
  predicate Fitting(c: Call, r: Result) {
    match c
    case Services => r.SrvResult?
    case Relations(_, _) => r.IncResult?
    case Chars(_, _) => r.CharResult?
    case Descs(_, _) => r.DescResult?
  }

  // ----- Results keep the invariant -----

  lemma {:induction false} DescCallsSame(d: DisSrv, e: DisSrv, n: nat)
    requires d.srv == e.srv && SameShape(d.chars, e.chars) && n <= |d.chars|
    ensures DescCalls(d, n) == DescCalls(e, n)
  {
    if n > 0 { DescCallsSame(d, e, n - 1); }
  }

  /** The service at k may change in place; what is known about the others stays. */
  lemma UpdateKeeps(cfg: Config, db: seq<DisSrv>, k: nat, d: DisSrv)
    requires ListOk(db) && Bound(cfg, db) && k < |db| && ClosedSrvs(db, k) && Unvisited(db, k + 1)
    requires d.srv == db[k].srv && d.spec == db[k].spec && DisSrvOk(d)
    ensures
      var e := db[k := d];
      ListOk(e) && Bound(cfg, e) && e[..k] == db[..k] && ClosedSrvs(e, k) && Unvisited(e, k + 1) &&
      (AllPrimary(db) ==> AllPrimary(e)) && (SecondaryFrom(db, k) ==> SecondaryFrom(e, k))
  {
    hide ListOk, DisSrvOk, ClosedChars, Bound;
    UpdateOk(db, k, d);
    UpdateBound(cfg, db, k, d);
  }

  lemma UpdateBound(cfg: Config, db: seq<DisSrv>, k: nat, d: DisSrv)
    requires Bound(cfg, db) && k < |db| && d.srv == db[k].srv && d.spec == db[k].spec
    ensures Bound(cfg, db[k := d])
  {
    hide Wanted, FindSpec;
    forall x | x in db[k := d] ensures Wanted(cfg, x.srv.uuid) && x.spec == FindSpec(cfg.registered, x.srv.uuid) {
      assert db[k] in db;
      if x != d { assert x in db; }
    }
  }

  lemma AddDescShape(d: DisSrv, handle: u16, u: Uuid)
    ensures
      var e := AddDesc(d, handle, u);
      e == d.(chars := e.chars) && SameShape(d.chars, e.chars) &&
      forall i :: 0 <= i < |d.chars| ==> e.chars[i].ch == d.chars[i].ch
  {
  }

  lemma ClosedSame(d: DisSrv, e: DisSrv, n: nat)
    requires d.srv == e.srv && |d.chars| == |e.chars| && ClosedChars(d, n)
    requires forall i :: 0 <= i < |d.chars| ==> e.chars[i].ch == d.chars[i].ch
    ensures ClosedChars(e, n)
  {
    forall i | 0 <= i < n ensures e.chars[i].ch.last == EndOf(e, i) {
      assert d.chars[i].ch.last == EndOf(d, i);
    }
  }

  // ----- The measure -----

  /** Secondary services still to come; services left; procedures left for the current service;
      characteristics left. */
  datatype Rank = Rank(stage: nat, services: nat, phase: nat, chars: nat)

  function Measure(w: Walk): Rank {
    if w.calls == [] then Rank(0, 0, 0, 0)
    else if w.curr.None? || w.curr.value >= |w.db| then Rank(2, 0, 0, 0)
    else
      var d := w.db[w.curr.value];
      var c := w.calls[|w.calls|-1];
      Rank(if IsPrimary(d.srv) then 1 else 0, |w.db| - w.curr.value,
        match c case Relations(_, _) => 2 case Chars(_, _) => 1 case _ => 0,
        if c.Descs? && d.cursor <= |d.chars| then |d.chars| - d.cursor else 0)
  }

  predicate Below(a: Rank, b: Rank) {
    a.stage < b.stage || (a.stage == b.stage &&
    (a.services < b.services || (a.services == b.services &&
    (a.phase < b.phase || (a.phase == b.phase && a.chars < b.chars)))))
  }

  /** What a result or a closing may change of the current service. */
  ghost predicate Replaces(d: DisSrv, e: DisSrv, c: Call) {
    e.srv == d.srv && e.spec == d.spec && DisSrvOk(e) && Progress(e, c) == Progress(d, c) &&
    match c
    case Services => false
    case Relations(_, _) => e.chars == d.chars
    case Chars(_, _) => true
    case Descs(_, _) => e.cursor == d.cursor && |e.chars| == |d.chars| && (ClosedChars(d, d.cursor + 1) ==> ClosedChars(e, e.cursor + 1))
  }

  lemma ReplaceOk(cfg: Config, w: Walk, e: DisSrv)
    requires ListOk(w.db) && Bound(cfg, w.db) && AtService(w)
    requires Replaces(w.db[w.curr.value], e, w.calls[|w.calls|-1])
    ensures
      var v := Update(w, e);
      ListOk(v.db) && Bound(cfg, v.db) && AtService(v) && Measure(v) == Measure(w)
  {
    hide ListOk, Bound, ClosedSrvs, Unvisited, AllPrimary, SecondaryFrom, ClosedChars, Progress, DisSrvOk;
    UpdateKeeps(cfg, w.db, w.curr.value, e);
  }

  lemma ResultReplaces(w: Walk, r: Result)
    requires ListOk(w.db) && AtService(w) && Fitting(w.calls[|w.calls|-1], r)
    ensures
      var d := w.db[w.curr.value];
      var e := match r
        case SrvResult(_, _, _) => d
        case IncResult(decl, first, last, u) => AddInclude(d, decl, first, last, u)
        case CharResult(decl, props, value, u) => AddChar(d, decl, props, value, u)
        case DescResult(handle, u) => AddDesc(d, handle, u);
      Replaces(d, e, w.calls[|w.calls|-1])
  {
    hide ListOk, DisSrvOk, Visits, ClosedSrvs, Unvisited;
    var d := w.db[w.curr.value];
    ListedOk(w.db, w.curr.value);
    match r
    case IncResult(decl, first, last, u) => AddIncludeOk(d, decl, first, last, u);
    case CharResult(decl, props, value, u) => AddCharOk(d, decl, props, value, u);
    case DescResult(handle, u) =>
      var e := AddDesc(d, handle, u);
      AddDescShape(d, handle, u);
      SameShapeOk(d, e.chars, d.cursor);
      DescCallsSame(d, e, d.cursor + 1);
      ClosedSame(d, e, d.cursor + 1);
  }

  ghost predicate Collecting(w: Walk) {
    w.calls == [Services] && w.curr == None && AllPrimary(w.db) && Unvisited(w.db, 0)
  }

  lemma ApplySrvOk(cfg: Config, w: Walk, r: Result)
    requires ListOk(w.db) && Bound(cfg, w.db) && Collecting(w) && r.SrvResult?
    ensures var v := Apply(cfg, w, r); ListOk(v.db) && Bound(cfg, v.db) && Collecting(v) && Measure(v) == Measure(w)
  {
    hide ListOk, CountSrv, To8;
    if Wanted(cfg, r.uuid) {
      var t := if r.uuid.Short? then PRIMARY16 else PRIMARY128;
      NewSrvOk(w.db, t, r.first, r.last, r.uuid, FindSpec(cfg.registered, r.uuid));
    }
  }

  /** A result changes neither the running procedure nor the place in the walk. */
  lemma ApplyOk(cfg: Config, w: Walk, r: Result)
    requires WalkOk(cfg, w) && w.state == Discovering && Fitting(w.calls[|w.calls|-1], r)
    ensures
      var v := Apply(cfg, w, r);
      WalkOk(cfg, v) && v.state == Discovering && v.calls == w.calls && v.curr == w.curr && Measure(v) == Measure(w)
  {
    hide ListOk, Bound, Replaces, AddInclude, AddChar, AddDesc, ClosedSrvs, Unvisited, AllPrimary, Visits, Progress, AddPrimary, Measure;
    if Collecting(w) {
      ApplySrvOk(cfg, w, r);
    } else {
      ResultReplaces(w, r);
      var d := w.db[w.curr.value];
      match r
      case IncResult(decl, first, last, u) => ReplaceOk(cfg, w, AddInclude(d, decl, first, last, u));
      case CharResult(decl, props, value, u) => ReplaceOk(cfg, w, AddChar(d, decl, props, value, u));
      case DescResult(handle, u) => ReplaceOk(cfg, w, AddDesc(d, handle, u));
    }
  }

  /** Further along in the list of services. */
  predicate Farther(a: Rank, b: Rank) {
    a.stage < b.stage || (a.stage == b.stage && a.services < b.services)
  }

  ghost predicate MovedOn(cfg: Config, w: Walk, v: Walk) {
    WalkOk(cfg, v) && (v.state == Discovering ==> Farther(Measure(v), Measure(w)))
  }

  /** Only a stack that refuses a procedure makes the walk fail. */
  predicate Blameless(w: Walk, v: Walk, accept: Answers) {
    v.state == Finished || (v.state == Discovering && accept(|w.calls|)) || (v.state == Failed && !accept(|w.calls|))
  }

  /** The end of a procedure was handled well. */
  ghost predicate Advanced(cfg: Config, w: Walk, v: Walk) {
    WalkOk(cfg, v) && (v.state == Discovering ==> Below(Measure(v), Measure(w)))
  }

  lemma FailOk(cfg: Config, w: Walk)
    ensures WalkOk(cfg, Fail(w))
  {
  }

  // ----- Closing characteristics -----

  lemma CloseShape(d: DisSrv, i: nat)
    requires i < |d.chars|
    ensures
      var e := Close(d, i);
      e == d.(chars := e.chars) && SameShape(d.chars, e.chars) && (ClosedChars(d, i) ==> ClosedChars(e, i + 1))
  {
    var e := Close(d, i);
    if ClosedChars(d, i) {
      forall x | 0 <= x < i + 1 ensures e.chars[x].ch.last == EndOf(e, x) {
        if x < i { assert d.chars[x].ch.last == EndOf(d, x); }
      }
    }
  }

  lemma CloseCalls(d: DisSrv, i: nat)
    requires i < |d.chars|
    ensures |Close(d, i).chars| == |d.chars| && (HasRoom(d, i) <==> HasRoom(Close(d, i), i))
    ensures DescCalls(Close(d, i), i) == DescCalls(d, i)
    ensures !HasRoom(d, i) ==> DescCalls(Close(d, i), i + 1) == DescCalls(d, i)
  {
    CloseShape(d, i);
    DescCallsSame(d, Close(d, i), i);
  }

  lemma SameShapeHolds(a: seq<DisChar>)
    ensures SameShape(a, a)
  {
  }

  lemma SameShapeJoins(a: seq<DisChar>, b: seq<DisChar>, c: seq<DisChar>)
    requires SameShape(a, b) && SameShape(b, c)
    ensures SameShape(a, c) && |a| == |c|
  {
  }

  lemma {:induction false} CloseFromSpec(d: DisSrv, i: nat)
    requires ClosedChars(d, i)
    ensures
      var (e, j) := CloseFrom(d, i);
      e == d.(chars := e.chars) && SameShape(d.chars, e.chars) && i <= j <= |d.chars| &&
      DescCalls(e, j) == DescCalls(d, i) &&
      (if j < |d.chars| then HasRoom(e, j) && ClosedChars(e, j + 1) else ClosedChars(e, j))
    decreases |d.chars| - i
  {
    hide Close, HasRoom, DescCalls, SameShape;
    if i == |d.chars| {
      SameShapeHolds(d.chars);
    } else {
      var f := Close(d, i);
      CloseShape(d, i);
      CloseCalls(d, i);
      if !HasRoom(d, i) {
        CloseFromSpec(f, i + 1);
        var e := CloseFrom(d, i).0;
        SameShapeJoins(d.chars, f.chars, e.chars);
      }
    }
  }

  // ----- Moving on -----

  /** The current service has got everything. */
  ghost predicate Visited(cfg: Config, w: Walk) {
    ListOk(w.db) && Bound(cfg, w.db) && w.state == Discovering &&
    w.curr.Some? && w.curr.value < |w.db| &&
    var k := w.curr.value;
    w.calls == [Services] + Visits(w.db[..k+1]) && ClosedSrvs(w.db, k + 1) && Unvisited(w.db, k + 1)
  }

  lemma VisitsSnoc(db: seq<DisSrv>, k: nat)
    requires k < |db|
    ensures Visits(db[..k+1]) == Visits(db[..k]) + Visit(db[k])
  {
    assert db[..k+1][..k] == db[..k];
  }

  lemma NextSecondaryOk(cfg: Config, w: Walk, accept: Answers)
    requires Visited(cfg, w) && SecondaryFrom(w.db, w.curr.value + 1)
    ensures WalkOk(cfg, NextSecondary(w, accept)) && Blameless(w, NextSecondary(w, accept), accept)
    ensures
      var v := NextSecondary(w, accept);
      v.state == Discovering ==>
        v.db == w.db && v.curr == Some(w.curr.value + 1) && w.curr.value + 1 < |w.db| && v.calls != [] && v.calls[|v.calls|-1].Chars?
  {
    hide ListOk, Bound, Visits;
    var k := w.curr.value + 1;
    FailOk(cfg, w);
    if k >= |w.db| {
      assert w.db[..k] == w.db;
    }
  }

  lemma ExtendsFacts(cfg: Config, a: seq<DisSrv>, b: seq<DisSrv>)
    requires Extends(cfg, a, b)
    ensures |a| <= |b| && b[..|a|] == a && Unvisited(b, |a|) && SecondaryFrom(b, |a|)
  {
  }

  lemma ClosedPrefix(a: seq<DisSrv>, b: seq<DisSrv>)
    requires |a| <= |b| && b[..|a|] == a && ClosedSrvs(a, |a|)
    ensures ClosedSrvs(b, |a|)
  {
    hide ClosedChars;
    forall i | 0 <= i < |a| ensures b[i] == a[i] {
      assert b[..|a|][i] == b[i];
    }
  }

  /** Adding the included services leaves what was visited visited. */
  lemma StartSecondaries(cfg: Config, w: Walk)
    requires Visited(cfg, w) && w.curr.value + 1 == |w.db|
    ensures
      var db := AddSecondary(cfg, w.db);
      |db| >= |w.db| && Visited(cfg, w.(db := db)) && SecondaryFrom(db, |w.db|)
  {
    hide ListOk, Bound, AddSecondary, Closed, Closable, Visits, Extends, ClosedSrvs, Unvisited, SecondaryFrom;
    var db := AddSecondary(cfg, w.db);
    SecondaryClosure(cfg, w.db);
    ExtendsBound(cfg, w.db, db);
    ExtendsFacts(cfg, w.db, db);
    assert w.db[..|w.db|] == w.db;
    ClosedPrefix(w.db, db);
  }

  lemma AskRelations(cfg: Config, w: Walk, k: nat, accept: Answers)
    requires ListOk(w.db) && Bound(cfg, w.db) && w.state == Discovering && AllPrimary(w.db) && k < |w.db|
    requires w.calls == [Services] + Visits(w.db[..k]) && ClosedSrvs(w.db, k) && Unvisited(w.db, k)
    ensures
      var v := Ask(w, Relations(RangeOf(w.db[k]).0, RangeOf(w.db[k]).1), k, accept);
      WalkOk(cfg, v) && Blameless(w, v, accept) &&
      (v.state == Discovering ==> v.db == w.db && v.curr == Some(k) && v.calls != [] && v.calls[|v.calls|-1].Relations?)
  {
    hide ListOk, Bound, Visits;
    FailOk(cfg, w);
  }

  /** From the last primary service to the secondary services. */
  lemma AfterPrimaries(cfg: Config, w: Walk, accept: Answers)
    requires Visited(cfg, w) && AllPrimary(w.db) && w.curr.value + 1 == |w.db| && w.calls != []
    ensures MovedOn(cfg, w, NextService(cfg, w, accept)) && Blameless(w, NextService(cfg, w, accept), accept)
  {
    hide AddSecondary, ListOk, Bound, Visits, ClosedSrvs, Unvisited, NextSecondary;
    var db := AddSecondary(cfg, w.db);
    StartSecondaries(cfg, w);
    if |db| > |w.db| {
      NextSecondaryOk(cfg, w.(db := db), accept);
      assert w.curr == Some(|w.db| - 1);
    } else {
      NothingAdded(cfg, w.db);
      assert w.db[..|w.db|] == w.db;
    }
  }

  lemma NothingAdded(cfg: Config, db: seq<DisSrv>)
    requires ListOk(db) && |AddSecondary(cfg, db)| <= |db|
    ensures AddSecondary(cfg, db) == db
  {
    hide AddSecondary, ListOk, Closed, Closable;
    SecondaryClosure(cfg, db);
  }

  lemma AfterServiceOk(cfg: Config, w: Walk, accept: Answers)
    requires Visited(cfg, w) && w.calls != []
    requires if IsPrimary(w.db[w.curr.value].srv) then AllPrimary(w.db) else SecondaryFrom(w.db, w.curr.value)
    ensures MovedOn(cfg, w, AfterService(cfg, w, accept)) && Blameless(w, AfterService(cfg, w, accept), accept)
  {
    hide ListOk, Bound, Visits, WalkOk, ClosedSrvs, Unvisited;
    var k := w.curr.value;
    if !IsPrimary(w.db[k].srv) {
      NextSecondaryOk(cfg, w, accept);
    } else if k + 1 < |w.db| {
      AskRelations(cfg, w, k + 1, accept);
    } else {
      AfterPrimaries(cfg, w, accept);
    }
  }

  lemma EmptyList(cfg: Config)
    ensures AddSecondary(cfg, []) == []
  {
  }

  lemma ServicesDone(cfg: Config, w: Walk, accept: Answers)
    requires WalkOk(cfg, w) && w.state == Discovering && Collecting(w)
    ensures Advanced(cfg, w, Done(cfg, w, accept)) && Blameless(w, Done(cfg, w, accept), accept)
  {
    if w.db != [] {
      assert w.db[..0] == [];
      AskRelations(cfg, w, 0, accept);
    } else {
      EmptyList(cfg);
    }
  }

  lemma RelationsDone(cfg: Config, w: Walk, accept: Answers)
    requires WalkOk(cfg, w) && w.state == Discovering && AtService(w) && w.calls[|w.calls|-1].Relations?
    ensures Advanced(cfg, w, Done(cfg, w, accept)) && Blameless(w, Done(cfg, w, accept), accept)
  {
    hide ListOk, Bound, Visits;
    FailOk(cfg, w);
    var d := w.db[w.curr.value];
    assert Lead(d) == [Relations(RangeOf(d).0, RangeOf(d).1)] + [Chars(RangeOf(d).0, RangeOf(d).1)];
  }

  lemma ClosedStart(d: DisSrv, c: Call, from: u16)
    requires c.Chars? || (c.Descs? && d.cursor < |d.chars| && ClosedChars(d, d.cursor + 1))
    requires from == (if c.Chars? then 0 else d.cursor + 1) <= |d.chars|
    ensures ClosedChars(d.(cursor := from), from) && Progress(d, c) == Lead(d) + DescCalls(d, from)
  {
    if c.Descs? {
      var f := d.(cursor := from);
      ClosedSame(d, f, from);
    } else {
      assert Lead(d) + [] == Lead(d);
    }
  }

  /** What closing from the cursor on does to the current service. */
  ghost predicate ClosedTo(d: DisSrv, c: Call, e: DisSrv, j: nat) {
    e.srv == d.srv && e.spec == d.spec && DisSrvOk(e) && |e.chars| == |d.chars| && j <= |e.chars| &&
    Progress(d, c) == Lead(d) + DescCalls(e, j) &&
    (if j < |e.chars| then HasRoom(e, j) && ClosedChars(e, j + 1) else ClosedChars(e, j)) &&
    (c.Chars? || (c.Descs? && d.cursor < j))
  }

  lemma CloseResult(d: DisSrv, c: Call, from: u16)
    requires DisSrvOk(d) && (c.Chars? || (c.Descs? && d.cursor < |d.chars| && ClosedChars(d, d.cursor + 1)))
    requires from == (if c.Chars? then 0 else d.cursor + 1) <= |d.chars|
    ensures var (e, j) := CloseFrom(d.(cursor := from), from); ClosedTo(d, c, e, j)
  {
    hide CloseFrom, ClosedChars, DisSrvOk, DescCalls, Lead, Progress, HasRoom;
    var f := d.(cursor := from);
    ClosedStart(d, c, from);
    CloseFromSpec(f, from);
    var (e, j) := CloseFrom(f, from);
    SameShapeOk(d, e.chars, from);
    DescCallsSame(d, f, from);
  }

  lemma CalledNext(d: DisSrv, c: Call, e: DisSrv, j: u16)
    requires ClosedTo(d, c, e, j) && j < |e.chars|
    ensures
      var g := e.(cursor := j);
      var next := Descs(StartOf(e.chars[j]), EndOf(e, j));
      g.srv == d.srv && g.spec == d.spec && DisSrvOk(g) && ClosedChars(g, j + 1) && Progress(g, next) == Progress(d, c) + [next]
  {
    hide DisSrvOk, ClosedChars;
    var g := e.(cursor := j);
    var next := Descs(StartOf(e.chars[j]), EndOf(e, j));
    SameShapeOk(e, e.chars, j);
    ClosedSame(e, g, j + 1);
    DescCallsSame(e, g, j);
    assert DescCalls(g, j + 1) == DescCalls(g, j) + [next];
    hide DescCalls, Lead;
    assert Progress(g, next) == Lead(d) + (DescCalls(e, j) + [next]);
  }

  lemma ToDescs(cfg: Config, w: Walk, e: DisSrv, j: u16, accept: Answers)
    requires ListOk(w.db) && Bound(cfg, w.db) && w.state == Discovering && AtService(w)
    requires ClosedTo(w.db[w.curr.value], w.calls[|w.calls|-1], e, j) && j < |e.chars|
    ensures Advanced(cfg, w, Ask(Update(w, e.(cursor := j)), Descs(StartOf(e.chars[j]), EndOf(e, j)), w.curr.value, accept))
  {
    hide ListOk, Bound, Visits, ClosedSrvs, Unvisited, AllPrimary, SecondaryFrom, ClosedChars, DisSrvOk, Progress;
    var g := e.(cursor := j);
    var k, d, c := w.curr.value, w.db[w.curr.value], w.calls[|w.calls|-1];
    var next := Descs(StartOf(e.chars[j]), EndOf(e, j));
    CalledNext(d, c, e, j);
    FailOk(cfg, w);
    UpdateKeeps(cfg, w.db, k, g);
    assert w.calls + [next] == [Services] + Visits(w.db[..k]) + Progress(g, next);
    if accept(|w.calls|) {
      AtDescs(cfg, w, g, next);
    }
  }

  lemma AtDescs(cfg: Config, w: Walk, g: DisSrv, next: Call)
    requires w.state == Discovering && AtService(w) && next.Descs?
    requires g.srv == w.db[w.curr.value].srv && g.cursor < |g.chars| && ClosedChars(g, g.cursor + 1)
    requires (w.calls[|w.calls|-1].Chars? || (w.calls[|w.calls|-1].Descs? && w.db[w.curr.value].cursor < g.cursor && |w.db[w.curr.value].chars| == |g.chars|))
    requires
      var k, e := w.curr.value, w.db[w.curr.value := g];
      ListOk(e) && Bound(cfg, e) && e[..k] == w.db[..k] && ClosedSrvs(e, k) && Unvisited(e, k + 1) &&
      (AllPrimary(w.db) ==> AllPrimary(e)) && (SecondaryFrom(w.db, k) ==> SecondaryFrom(e, k))
    requires w.calls + [next] == [Services] + Visits(w.db[..w.curr.value]) + Progress(g, next)
    ensures Advanced(cfg, w, Update(w, g).(calls := w.calls + [next]))
  {
    hide ListOk, Bound, Visits, ClosedSrvs, Unvisited, AllPrimary, SecondaryFrom, ClosedChars, Progress;
  }

  lemma ToNext(cfg: Config, w: Walk, e: DisSrv, accept: Answers)
    requires ListOk(w.db) && Bound(cfg, w.db) && w.state == Discovering && AtService(w)
    requires ClosedTo(w.db[w.curr.value], w.calls[|w.calls|-1], e, |e.chars|)
    ensures Advanced(cfg, w, AfterService(cfg, Update(w, e), accept)) && Blameless(w, AfterService(cfg, Update(w, e), accept), accept)
  {
    hide ListOk, Bound, Visits, DescCalls, ClosedSrvs, DisSrvOk, ClosedChars, Unvisited, Progress, Visit, Lead, AllPrimary, SecondaryFrom;
    var k := w.curr.value;
    var v := Update(w, e);
    UpdateKeeps(cfg, w.db, k, e);
    VisitsSnoc(v.db, k);
    NowVisited(w.calls, w.db, k, e, w.calls[|w.calls|-1]);
    ClosedNext(v.db, k);
    assert Visited(cfg, v);
    hide ClosedTo;
    AfterServiceOk(cfg, v, accept);
    hide Visited, WalkOk, AfterService;
  }

  lemma ClosedNext(db: seq<DisSrv>, k: nat)
    requires ClosedSrvs(db, k) && k < |db| && ClosedChars(db[k], |db[k].chars|)
    ensures ClosedSrvs(db, k + 1)
  {
    hide ClosedChars;
  }

  lemma NowVisited(calls: seq<Call>, db: seq<DisSrv>, k: nat, e: DisSrv, c: Call)
    requires k < |db| && calls == [Services] + Visits(db[..k]) + Progress(db[k], c)
    requires ClosedTo(db[k], c, e, |e.chars|)
    ensures calls == [Services] + (Visits(db[..k]) + Visit(e))
  {
    hide Visits, DescCalls, Progress, DisSrvOk, ClosedChars;
  }

  lemma ListedOk(db: seq<DisSrv>, k: nat)
    requires ListOk(db) && k < |db|
    ensures DisSrvOk(db[k])
  {
    assert db[k] in db;
  }

  /** Closing characteristics in the current service and asking for the next descriptors, or moving
      on if none are left. */
  lemma CloseOk(cfg: Config, w: Walk, from: u16, accept: Answers)
    requires ListOk(w.db) && Bound(cfg, w.db) && w.state == Discovering && AtService(w)
    requires w.calls[|w.calls|-1].Chars? || w.calls[|w.calls|-1].Descs?
    requires
      var d, c := w.db[w.curr.value], w.calls[|w.calls|-1];
      |d.chars| <= 255 && from == (if c.Chars? then 0 else d.cursor + 1) <= |d.chars|
    ensures
      var d := w.db[w.curr.value];
      var (e, j) := CloseFrom(d.(cursor := from), from);
      j <= |e.chars| <= 255 &&
      var v := if j < |e.chars| then
          Ask(Update(w, e.(cursor := j)), Descs(StartOf(e.chars[j]), EndOf(e, j)), w.curr.value, accept)
        else AfterService(cfg, Update(w, e), accept);
      Advanced(cfg, w, v) && Blameless(w, v, accept)
  {
    hide CloseFrom, ListOk, Bound, Advanced, AfterService, DisSrvOk, Progress, Visits, ClosedSrvs, Unvisited, AllPrimary, SecondaryFrom, ClosedChars;
    var d, c := w.db[w.curr.value], w.calls[|w.calls|-1];
    ListedOk(w.db, w.curr.value);
    CloseResult(d, c, from);
    var (e, j) := CloseFrom(d.(cursor := from), from);
    if j < |e.chars| {
      ToDescs(cfg, w, e, j, accept);
    } else {
      ToNext(cfg, w, e, accept);
    }
  }

  /** A service without characteristics needs no closing. */
  lemma NoCharsOk(cfg: Config, w: Walk, accept: Answers)
    requires ListOk(w.db) && Bound(cfg, w.db) && w.state == Discovering && AtService(w)
    requires w.calls[|w.calls|-1].Chars? && w.db[w.curr.value].chars == []
    ensures Advanced(cfg, w, AfterService(cfg, w, accept)) && Blameless(w, AfterService(cfg, w, accept), accept)
  {
    hide ListOk, Bound, DisSrvOk, Advanced, AfterService, Visits, ClosedSrvs, Unvisited;
    var d := w.db[w.curr.value];
    ListedOk(w.db, w.curr.value);
    assert Lead(d) + [] == Lead(d);
    assert ClosedTo(d, w.calls[|w.calls|-1], d, 0);
    ToNext(cfg, w, d, accept);
    assert w.db[w.curr.value := d] == w.db;
  }

  /** Handling the end of any procedure keeps the invariant and comes down in rank. */
  lemma DoneOk(cfg: Config, w: Walk, accept: Answers)
    requires WalkOk(cfg, w) && w.state == Discovering && Small(cfg, w)
    ensures Advanced(cfg, w, Done(cfg, w, accept)) && Blameless(w, Done(cfg, w, accept), accept)
  {
    hide ListOk, Bound, CloseFrom, AfterService, ClosedSrvs, Unvisited, Visits, Progress, AllPrimary, SecondaryFrom, Advanced;
    if Collecting(w) {
      ServicesDone(cfg, w, accept);
    } else {
      var c, d := w.calls[|w.calls|-1], w.db[w.curr.value];
      assert d in w.db;
      if c.Relations? {
        RelationsDone(cfg, w, accept);
      } else if d.chars == [] {
        NoCharsOk(cfg, w, accept);
      } else {
        CloseOk(cfg, w, if c.Chars? then 0 else d.cursor + 1, accept);
      }
    }
  }

  // ----- Whole walks -----

  /** How the stack behaves, as functions of the procedures it has accepted: the results it delivers
      for the last one, and whether that one ends in failure. */
  datatype Stack = Stack(accept: Answers, results: seq<Call> -> seq<Result>, fails: seq<Call> -> bool)

  predicate AllFitting(c: Call, rs: seq<Result>) {
    forall r :: r in rs ==> Fitting(c, r)
  }

  lemma {:induction false} ApplyAllOk(cfg: Config, w: Walk, rs: seq<Result>)
    requires WalkOk(cfg, w) && w.state == Discovering && AllFitting(w.calls[|w.calls|-1], rs)
    ensures
      var v := ApplyAll(cfg, w, rs);
      WalkOk(cfg, v) && v.state == Discovering && v.calls == w.calls && v.curr == w.curr && Measure(v) == Measure(w)
    decreases |rs|
  {
    hide WalkOk, Measure, Fitting, Apply;
    if rs != [] {
      assert rs[0] in rs;
      ApplyOk(cfg, w, rs[0]);
      ApplyAllOk(cfg, Apply(cfg, w, rs[0]), rs[1..]);
    }
  }

  lemma Discovers(cfg: Config, w: Walk)
    requires WalkOk(cfg, w) && w.state == Discovering
    ensures w.calls != []
  {
  }

  /** One procedure: its results, then its end. */
  function Round(cfg: Config, w: Walk, s: Stack): Walk
    requires w.calls != []
  {
    if s.fails(w.calls) then Fail(w)
    else
      var v := ApplyAll(cfg, w, s.results(w.calls));
      if v.calls == [] then v else Done(cfg, v, s.accept)
  }

  /** What the 8-bit indices of the walk can handle: at most 255 services, with the included ones, at
      most 255 characteristics of each, and includes whose loops end. */
  ghost predicate Small(cfg: Config, w: Walk) {
    |w.db| <= 255 && |AddSecondary(cfg, w.db)| <= 255 && AllEnd(cfg, w.db, w.db) &&
    forall d :: d in w.db ==> |d.chars| <= 255
  }

  /** The stack delivers results of the running procedure's kind, and no more than the walk's indices
      can handle. */
  ghost predicate Behaves(cfg: Config, w: Walk, s: Stack)
    requires w.calls != []
  {
    !s.fails(w.calls) ==>
      AllFitting(w.calls[|w.calls|-1], s.results(w.calls)) && Small(cfg, ApplyAll(cfg, w, s.results(w.calls)))
  }

  lemma RoundOk(cfg: Config, w: Walk, s: Stack)
    requires WalkOk(cfg, w) && w.state == Discovering && w.calls != [] && Behaves(cfg, w, s)
    ensures Advanced(cfg, w, Round(cfg, w, s))
    ensures Round(cfg, w, s).state == Failed ==> s.fails(w.calls) || !s.accept(|w.calls|)
    ensures Round(cfg, w, s).state != Idle
  {
    hide ListOk, Bound, AtService, Collecting, ApplyAll, Done, AllFitting;
    FailOk(cfg, w);
    if !s.fails(w.calls) {
      ApplyAllOk(cfg, w, s.results(w.calls));
      DoneOk(cfg, ApplyAll(cfg, w, s.results(w.calls)), s.accept);
    }
  }

  /** The whole walk, procedure after procedure, until nothing is running.  That this definition is
      accepted is the termination theorem: whatever the stack reports, each end of a procedure brings
      the rank down.  None stands for a stack outside the assumptions. */
  ghost function Finish(cfg: Config, w: Walk, s: Stack): (r: Option<Walk>)
    requires WalkOk(cfg, w)
    ensures r.Some? ==> WalkOk(cfg, r.value) && r.value.state != Discovering
    decreases if w.state == Discovering then 1 else 0,
      Measure(w).stage, Measure(w).services, Measure(w).phase, Measure(w).chars
  {
    if w.state != Discovering then Some(w)
    else
      Discovers(cfg, w);
      if !Behaves(cfg, w, s) then None
      else
        RoundOk(cfg, w, s);
        Finish(cfg, Round(cfg, w, s), s)
  }

  /** The walk theorem.  A walk that reports completion has asked for the services once and then, in
      list order, exactly what each service is due: relationships once per primary service,
      characteristics once per primary and per added secondary service, and descriptors once per
      characteristic with room for them.  Every characteristic then carries its end handle, and the
      list is well-formed, keyed and bound to the registered clients. */
  lemma WalkCovers(cfg: Config, s: Stack)
    ensures WalkOk(cfg, Start(s.accept))
    ensures
      var r := Finish(cfg, Start(s.accept), s);
      r.Some? && r.value.state == Finished ==>
        r.value.calls == [Services] + Visits(r.value.db) &&
        ClosedSrvs(r.value.db, |r.value.db|) && ListOk(r.value.db) && Bound(cfg, r.value.db)
  {
    StartOk(cfg, s.accept);
  }

  /** A stack that accepts every procedure and fails none brings every walk to completion. */
  lemma {:induction false} FinishSucceeds(cfg: Config, w: Walk, s: Stack)
    requires WalkOk(cfg, w) && (w.state == Discovering || w.state == Finished)
    requires (forall n :: s.accept(n)) && (forall cs :: !s.fails(cs))
    ensures Finish(cfg, w, s).Some? ==> Finish(cfg, w, s).value.state == Finished
    decreases if w.state == Discovering then 1 else 0,
      Measure(w).stage, Measure(w).services, Measure(w).phase, Measure(w).chars
  {
    if w.state == Discovering {
      Discovers(cfg, w);
      hide WalkOk, Measure, Round, Behaves;
      if Behaves(cfg, w, s) {
        RoundOk(cfg, w, s);
        FinishSucceeds(cfg, Round(cfg, w, s), s);
      }
    }
  }

  lemma StartOk(cfg: Config, accept: Answers)
    ensures WalkOk(cfg, Start(accept))
  {
  }
}
