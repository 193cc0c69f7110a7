/** Bearer exclusivity, attribution and conservation: what every event of every legal run keeps. */
module SchedulerSafety {
  import opened Widths
  import opened Scheduler

  // ----- The invariant -----

  function BusyCount(cs: seq<Channel>): nat {
    if cs == [] then 0 else (if cs[0].busy then 1 else 0) + BusyCount(cs[1..])
  }

  ghost predicate DistinctChannels(cs: seq<Channel>) {
    forall i, j :: 0 <= i < j < |cs| ==> cs[i].cid != cs[j].cid
  }

  ghost predicate DistinctRequests(w: seq<Req>) {
    forall i, j :: 0 <= i < j < |w| ==> w[i].cid != w[j].cid
  }

  predicate OnBusy(cs: seq<Channel>, cid: u16) {
    var c := FindCid(cs, cid);
    c < |cs| && cs[c].busy
  }

  /** The request of the last command the stack accepted on this bearer, if any. */
  function LastOn(log: seq<Issue>, cid: u16): (id: int) {
    if log == [] then -1
    else
      var x := log[|log| - 1];
      if x.accepted && x.cid == cid then x.id else LastOn(log[..|log| - 1], cid)
  }

  predicate Outstanding(cs: seq<Channel>, log: seq<Issue>, r: Req) {
    OnBusy(cs, r.cid) && LastOn(log, r.cid) == r.id
  }

  /** The three places that track an outstanding request agree. */
  ghost predicate Exclusive(l: Link) {
    |l.channels| <= 255 &&
    l.flags == BusyCount(l.channels) &&
    DistinctChannels(l.channels) &&
    DistinctRequests(l.waiting) &&
    forall r :: r in l.waiting ==> Outstanding(l.channels, l.issued, r)
  }

  /** Every busy bearer has its waiting request. */
  ghost predicate Onto(l: Link) {
    forall c :: 0 <= c < |l.channels| && l.channels[c].busy ==>
      exists i :: 0 <= i < |l.waiting| && l.waiting[i].cid == l.channels[c].cid
  }

  /** How often a request occurs in a list, and in the record of ended requests. */
  function Times(rs: seq<Req>, id: nat): nat {
    if rs == [] then 0 else (if rs[0].id == id then 1 else 0) + Times(rs[1..], id)
  }

  function TimesEnded(rs: seq<Resolution>, id: nat): nat {
    if rs == [] then 0 else (if rs[0].id == id then 1 else 0) + TimesEnded(rs[1..], id)
  }

  ghost predicate ConservedAt(l: Link, id: nat) {
    Times(l.queued, id) + Times(l.waiting, id) + TimesEnded(l.resolved, id) == if id < l.nextId then 1 else 0
  }

  /** Every request ever accepted is in exactly one of queued, waiting, resolved, exactly once. */
  ghost predicate Conserved(l: Link) {
    forall id: nat :: ConservedAt(l, id)
  }

  // ----- Sequence facts -----

  lemma {:induction false} TimesConcat(a: seq<Req>, b: seq<Req>, id: nat)
    ensures Times(a + b, id) == Times(a, id) + Times(b, id)
  {
    if a == [] {
      assert a + b == b;
    } else {
      TimesConcat(a[1..], b, id);
      assert (a + b)[1..] == a[1..] + b;
    }
  }

  lemma {:induction false} EndedConcat(a: seq<Resolution>, b: seq<Resolution>, id: nat)
    ensures TimesEnded(a + b, id) == TimesEnded(a, id) + TimesEnded(b, id)
  {
    if a == [] {
      assert a + b == b;
    } else {
      EndedConcat(a[1..], b, id);
      assert (a + b)[1..] == a[1..] + b;
    }
  }

  lemma TimesRemove(rs: seq<Req>, i: nat, id: nat)
    requires i < |rs|
    ensures Times(rs, id) == Times(Remove(rs, i), id) + if rs[i].id == id then 1 else 0
  {
    assert rs == rs[..i] + ([rs[i]] + rs[i+1..]);
    TimesConcat(rs[..i], [rs[i]] + rs[i+1..], id);
    TimesConcat(rs[..i], rs[i+1..], id);
  }

  lemma {:induction false} TimesSplit(w: seq<Req>, cid: u16, id: nat)
    ensures Times(w, id) == Times(NotOn(w, cid), id) + TimesEnded(LostOn(w, cid), id)
  {
    if w != [] { TimesSplit(w[1..], cid, id); }
  }

  lemma {:induction false} TimesReleased(rs: seq<Req>, id: nat)
    ensures TimesEnded(Ended(rs), id) == Times(rs, id)
  {
    if rs != [] { TimesReleased(rs[1..], id); }
  }

  lemma {:induction false} TimesNumbered(rs: seq<NewReq>, first: nat, id: nat)
    ensures Times(Numbered(rs, first), id) == if first <= id < first + |rs| then 1 else 0
    decreases |rs|
  {
    if rs != [] { TimesNumbered(rs[1..], first + 1, id); }
  }

  lemma {:induction false} BusyBound(cs: seq<Channel>)
    ensures BusyCount(cs) <= |cs|
    ensures BusyCount(cs) == |cs| <==> forall i :: 0 <= i < |cs| ==> cs[i].busy
  {
    if cs != [] {
      BusyBound(cs[1..]);
      if BusyCount(cs) == |cs| {
        forall i | 0 <= i < |cs| ensures cs[i].busy {
          if i > 0 { assert cs[i] == cs[1..][i-1]; }
        }
      }
      if forall i :: 0 <= i < |cs| ==> cs[i].busy {
        assert forall i :: 0 <= i < |cs[1..]| ==> cs[1..][i] == cs[i+1];
      }
    }
  }

  lemma {:induction false} BusySet(cs: seq<Channel>, i: nat, b: bool)
    requires i < |cs| && cs[i].busy != b
    ensures BusyCount(SetBusy(cs, i, b)) == BusyCount(cs) + if b then 1 else -1
  {
    var ds := SetBusy(cs, i, b);
    if i == 0 {
      assert ds[1..] == cs[1..];
    } else {
      BusySet(cs[1..], i - 1, b);
      assert ds[1..] == SetBusy(cs[1..], i - 1, b);
    }
  }

  lemma {:induction false} BusyRemove(cs: seq<Channel>, i: nat)
    requires i < |cs|
    ensures BusyCount(Remove(cs, i)) == BusyCount(cs) - if cs[i].busy then 1 else 0
  {
    if i == 0 {
      assert Remove(cs, i) == cs[1..];
    } else {
      BusyRemove(cs[1..], i - 1);
      assert Remove(cs, i)[1..] == Remove(cs[1..], i - 1);
    }
  }

  /** Only the mtu of bearers differs, or a free bearer is new at the end. */
  ghost predicate SameBearers(cs: seq<Channel>, ds: seq<Channel>) {
    |cs| == |ds| && forall i :: 0 <= i < |cs| ==> cs[i].cid == ds[i].cid && cs[i].busy == ds[i].busy
  }

  lemma {:induction false} SameBearersCount(cs: seq<Channel>, ds: seq<Channel>)
    requires SameBearers(cs, ds)
    ensures BusyCount(cs) == BusyCount(ds)
  {
    if cs != [] {
      assert SameBearers(cs[1..], ds[1..]);
      SameBearersCount(cs[1..], ds[1..]);
    }
  }

  lemma {:induction false} BusySnoc(cs: seq<Channel>, c: Channel)
    ensures BusyCount(cs + [c]) == BusyCount(cs) + if c.busy then 1 else 0
  {
    if cs == [] {
      assert cs + [c] == [c];
    } else {
      BusySnoc(cs[1..], c);
      assert (cs + [c])[1..] == cs[1..] + [c];
    }
  }

  /** With distinct cids, a bearer is found wherever it is. */
  lemma FindAt(cs: seq<Channel>, i: nat)
    requires DistinctChannels(cs) && i < |cs|
    ensures FindCid(cs, cs[i].cid) == i
  {
  }

  lemma {:induction false} LastOnSnoc(log: seq<Issue>, x: Issue, cid: u16)
    ensures LastOn(log + [x], cid) == if x.accepted && x.cid == cid then x.id else LastOn(log, cid)
  {
    assert (log + [x])[..|log|] == log;
  }

  /** A bearer stays busy when the list changes elsewhere. */
  lemma StillBusy(cs: seq<Channel>, ds: seq<Channel>, cid: u16, i: nat)
    requires DistinctChannels(ds) && i < |ds|
    requires OnBusy(cs, cid)
    requires ds[i].cid == cid && ds[i].busy
    ensures OnBusy(ds, cid)
  {
    FindAt(ds, i);
  }

  // ----- Dispatch keeps the invariant -----

  lemma SendExclusive(l: Link, i: nat, r: Req, accept: Answers)
    requires Exclusive(l)
    requires i < |l.channels| && !l.channels[i].busy
    ensures Exclusive(Send(l, i, r, accept))
  {
    var m := Send(l, i, r, accept);
    var cid := l.channels[i].cid;
    FindAt(l.channels, i);
    FindAt(m.channels, i);
    BusySet(l.channels, i, true);
    BusyBound(l.channels);
    forall w | w in m.waiting ensures Outstanding(m.channels, m.issued, w) {
      LastOnSnoc(l.issued, Issue(r.id, cid, r.kind, r.handle, accept(|l.issued|)), w.cid);
      if w in l.waiting {
        assert Outstanding(l.channels, l.issued, w);
        StillBusy(l.channels, m.channels, w.cid, FindCid(l.channels, w.cid));
      }
    }
    forall k | 0 <= k < |l.waiting| ensures l.waiting[k].cid != cid {
      assert Outstanding(l.channels, l.issued, l.waiting[k]);
    }
  }

  lemma SendOnto(l: Link, i: nat, r: Req, accept: Answers)
    requires Exclusive(l) && Onto(l)
    requires i < |l.channels| && !l.channels[i].busy
    ensures Onto(Send(l, i, r, accept))
  {
    var m := Send(l, i, r, accept);
    forall c | 0 <= c < |m.channels| && m.channels[c].busy
      ensures exists k :: 0 <= k < |m.waiting| && m.waiting[k].cid == m.channels[c].cid
    {
      if c == i && accept(|l.issued|) {
        assert m.waiting[|l.waiting|].cid == m.channels[c].cid;
      } else {
        var k :| 0 <= k < |l.waiting| && l.waiting[k].cid == l.channels[c].cid;
        assert m.waiting[k].cid == m.channels[c].cid;
      }
    }
  }

  lemma {:induction false} DrainKeeps(l: Link, rest: seq<Req>, accept: Answers)
    requires Exclusive(l)
    ensures Exclusive(Drain(l, rest, accept))
    ensures Onto(l) ==> Onto(Drain(l, rest, accept))
    decreases |rest|
  {
    if rest != [] {
      var i := FirstFree(l.channels, Need(rest[0]));
      if i < |l.channels| {
        SendExclusive(l, i, rest[0], accept);
        if Onto(l) { SendOnto(l, i, rest[0], accept); }
      }
      DrainKeeps(Offer(l, rest[0], accept), rest[1..], accept);
    }
  }

  lemma DispatchKeeps(l: Link, accept: Answers)
    requires Exclusive(l)
    ensures Exclusive(Dispatch(l, accept))
    ensures Onto(l) ==> Onto(Dispatch(l, accept))
  {
    DrainKeeps(l.(queued := []), l.queued, accept);
  }

  // ----- The other steps keep it -----

  lemma RemoveDistinct(w: seq<Req>, i: nat)
    requires DistinctRequests(w) && i < |w|
    ensures DistinctRequests(Remove(w, i))
    ensures forall r :: r in Remove(w, i) ==> r in w && r.cid != w[i].cid
    ensures forall r :: r in w && r.cid != w[i].cid ==> r in Remove(w, i)
  {
    var v := Remove(w, i);
    forall k | 0 <= k < |v| ensures v[k] == w[if k < i then k else k + 1] {}
    forall r | r in w && r.cid != w[i].cid ensures r in v {
      var k :| 0 <= k < |w| && w[k] == r;
      assert v[if k < i then k else k - 1] == r;
    }
  }

  lemma FinishExclusive(l: Link, i: nat)
    requires Exclusive(l) && i < |l.waiting|
    ensures Exclusive(Finish(l, i))
  {
    var r := l.waiting[i];
    var m := Finish(l, i);
    var c := FindCid(l.channels, r.cid);
    assert Outstanding(l.channels, l.issued, r);
    BusySet(l.channels, c, false);
    RemoveDistinct(l.waiting, i);
    forall w | w in m.waiting ensures Outstanding(m.channels, m.issued, w) {
      assert Outstanding(l.channels, l.issued, w);
      StillBusy(l.channels, m.channels, w.cid, FindCid(l.channels, w.cid));
    }
  }

  lemma FinishOnto(l: Link, i: nat)
    requires Exclusive(l) && Onto(l) && i < |l.waiting|
    ensures Onto(Finish(l, i))
  {
    var r := l.waiting[i];
    var m := Finish(l, i);
    assert Outstanding(l.channels, l.issued, r);
    RemoveDistinct(l.waiting, i);
    forall d | 0 <= d < |m.channels| && m.channels[d].busy
      ensures exists k :: 0 <= k < |m.waiting| && m.waiting[k].cid == m.channels[d].cid
    {
      FindAt(l.channels, d);
      var k :| 0 <= k < |l.waiting| && l.waiting[k].cid == l.channels[d].cid;
      assert l.waiting[k] in m.waiting;
    }
  }

  lemma AllocateKeeps(l: Link, cid: u16, mtu: u16)
    requires Exclusive(l) && Legal(l, ChannelAdded(cid, mtu))
    ensures Exclusive(Allocate(l, cid))
    ensures Onto(l) ==> Onto(Allocate(l, cid))
  {
    var m := Allocate(l, cid);
    BusySnoc(l.channels, Channel(cid, DEFAULT_MTU, false));
    forall w | w in m.waiting ensures Outstanding(m.channels, m.issued, w) {
      assert Outstanding(l.channels, l.issued, w);
      StillBusy(l.channels, m.channels, w.cid, FindCid(l.channels, w.cid));
    }
  }

  lemma SetMtuKeeps(l: Link, cid: u16, mtu: u16)
    requires Exclusive(l)
    ensures Exclusive(SetMtu(l, cid, mtu))
    ensures Onto(l) ==> Onto(SetMtu(l, cid, mtu))
  {
    var m := SetMtu(l, cid, mtu);
    assert SameBearers(l.channels, m.channels);
    SameBearersCount(l.channels, m.channels);
    forall w | w in m.waiting ensures Outstanding(m.channels, m.issued, w) {
      assert Outstanding(l.channels, l.issued, w);
      StillBusy(l.channels, m.channels, w.cid, FindCid(l.channels, w.cid));
    }
  }

  lemma {:induction false} NotOnMembers(w: seq<Req>, cid: u16)
    requires DistinctRequests(w)
    ensures DistinctRequests(NotOn(w, cid))
    ensures forall r :: r in NotOn(w, cid) <==> r in w && r.cid != cid
  {
    if w != [] {
      var t := w[1..];
      assert forall i :: 0 <= i < |t| ==> t[i] == w[i+1];
      NotOnMembers(t, cid);
      assert forall r :: r in w <==> r == w[0] || r in t;
      forall r | r in NotOn(t, cid) ensures r.cid != w[0].cid {
        assert r in t;
      }
    }
  }

  lemma RemoveChannel(cs: seq<Channel>, c: nat, cid: u16)
    requires DistinctChannels(cs) && c < |cs|
    ensures DistinctChannels(Remove(cs, c))
    ensures OnBusy(cs, cid) && cid != cs[c].cid ==> OnBusy(Remove(cs, c), cid)
  {
    var ds := Remove(cs, c);
    assert forall k :: 0 <= k < |ds| ==> ds[k] == cs[if k < c then k else k + 1];
    if OnBusy(cs, cid) && cid != cs[c].cid {
      var d := FindCid(cs, cid);
      StillBusy(cs, ds, cid, if d < c then d else d - 1);
    }
  }

  lemma CutExclusive(l: Link, c: nat)
    requires Exclusive(l) && c < |l.channels|
    ensures Exclusive(Cut(l, c))
  {
    var cid := l.channels[c].cid;
    var m := Cut(l, c);
    BusyRemove(l.channels, c);
    BusyBound(l.channels);
    NotOnMembers(l.waiting, cid);
    forall w | w in m.waiting ensures Outstanding(m.channels, m.issued, w) {
      assert Outstanding(l.channels, l.issued, w);
      assert w.cid != cid by { FindAt(l.channels, c); }
      RemoveChannel(l.channels, c, w.cid);
    }
    RemoveChannel(l.channels, c, cid);
  }

  lemma DeleteKeeps(l: Link, cid: u16)
    requires Exclusive(l)
    ensures Exclusive(DeleteChannel(l, cid))
    ensures Onto(l) ==> Onto(DeleteChannel(l, cid))
  {
    var c := FindCid(l.channels, cid);
    if c < |l.channels| {
      CutExclusive(l, c);
      NotOnMembers(l.waiting, cid);
      if Onto(l) { DeleteOnto(l, c, Cut(l, c).waiting); }
    }
  }

  lemma DeleteOnto(l: Link, c: nat, w: seq<Req>)
    requires Exclusive(l) && Onto(l) && c < |l.channels|
    requires forall r :: r in l.waiting && r.cid != l.channels[c].cid ==> r in w
    ensures Onto(l.(channels := Remove(l.channels, c), waiting := w))
  {
    var cs := Remove(l.channels, c);
    forall d | 0 <= d < |cs| && cs[d].busy ensures exists k :: 0 <= k < |w| && w[k].cid == cs[d].cid {
      var o := if d < c then d else d + 1;
      assert cs[d] == l.channels[o];
      var k :| 0 <= k < |l.waiting| && l.waiting[k].cid == l.channels[o].cid;
      assert l.waiting[k] in w;
    }
  }

  /** Bearer exclusivity survives every event. */
  lemma StepKeeps(l: Link, e: Event, accept: Answers)
    requires Exclusive(l) && Legal(l, e)
    ensures Exclusive(Step(l, e, accept))
    ensures Onto(l) && !e.DiscoveryRestarted? ==> Onto(Step(l, e, accept))
  {
    match e
    case Submitted(rs) =>
      DispatchKeeps(Enqueue(l, rs), accept);
    case Response(handle, cid, isRead, failed) =>
      var i := FindWaiting(l.waiting, handle, cid, isRead, failed);
      if i < |l.waiting| {
        FinishExclusive(l, i);
        if Onto(l) { FinishOnto(l, i); }
        DispatchKeeps(Finish(l, i), accept);
      }
    case ChannelAdded(cid, mtu) =>
      AllocateKeeps(l, cid, mtu);
      SetMtuKeeps(Allocate(l, cid), cid, mtu);
      DispatchKeeps(SetMtu(Allocate(l, cid), cid, mtu), accept);
    case MtuUpdated(cid, mtu) =>
      SetMtuKeeps(l, cid, mtu);
      if FindCid(l.channels, cid) < |l.channels| { DispatchKeeps(SetMtu(l, cid, mtu), accept); }
    case ChannelDeleted(cid) => DeleteKeeps(l, cid);
    case DiscoveryRestarted =>
    case LinkReleased =>
  }

  // ----- Conservation -----

  lemma {:induction false} DrainConserves(l: Link, rest: seq<Req>, accept: Answers, id: nat)
    requires Times(l.queued, id) + Times(rest, id) + Times(l.waiting, id) + TimesEnded(l.resolved, id)
             == if id < l.nextId then 1 else 0
    ensures ConservedAt(Drain(l, rest, accept), id)
    decreases |rest|
  {
    if rest != [] {
      var r := rest[0];
      var m := Offer(l, r, accept);
      var i := FirstFree(l.channels, Need(r));
      if i == |l.channels| {
        TimesConcat(l.queued, [r], id);
      } else if accept(|l.issued|) {
        TimesConcat(l.waiting, [Sent(r, l.channels[i].cid)], id);
      } else {
        EndedConcat(l.resolved, [Resolution(r.id, SendFailed)], id);
      }
      DrainConserves(m, rest[1..], accept, id);
    }
  }

  lemma DispatchConserves(l: Link, accept: Answers, id: nat)
    requires ConservedAt(l, id)
    ensures ConservedAt(Dispatch(l, accept), id)
  {
    DrainConserves(l.(queued := []), l.queued, accept, id);
  }

  lemma DropConserves(l: Link, id: nat)
    requires ConservedAt(l, id)
    ensures ConservedAt(DropRequests(l), id) && ConservedAt(Release(l), id)
  {
    TimesReleased(l.queued, id);
    TimesReleased(l.waiting, id);
    EndedConcat(l.resolved, Ended(l.queued), id);
    EndedConcat(l.resolved + Ended(l.queued), Ended(l.waiting), id);
  }

  lemma FinishConserves(l: Link, i: nat, id: nat)
    requires ConservedAt(l, id) && i < |l.waiting|
    ensures ConservedAt(Finish(l, i), id)
  {
    TimesRemove(l.waiting, i, id);
    EndedConcat(l.resolved, [Resolution(l.waiting[i].id, Responded)], id);
  }

  lemma DeleteConserves(l: Link, cid: u16, id: nat)
    requires ConservedAt(l, id)
    ensures ConservedAt(DeleteChannel(l, cid), id)
  {
    var c := FindCid(l.channels, cid);
    if c < |l.channels| {
      TimesSplit(l.waiting, cid, id);
      EndedConcat(l.resolved, LostOn(l.waiting, cid), id);
      DropConserves(Cut(l, c), id);
    }
  }

  /** No event loses a request, duplicates one, or resolves one twice. */
  lemma StepConserves(l: Link, e: Event, accept: Answers, id: nat)
    requires ConservedAt(l, id)
    ensures ConservedAt(Step(l, e, accept), id)
  {
    match e
    case Submitted(rs) =>
      TimesConcat(l.queued, Numbered(rs, l.nextId), id);
      TimesNumbered(rs, l.nextId, id);
      DispatchConserves(Enqueue(l, rs), accept, id);
    case Response(handle, cid, isRead, failed) =>
      var i := FindWaiting(l.waiting, handle, cid, isRead, failed);
      if i < |l.waiting| {
        FinishConserves(l, i, id);
        DispatchConserves(Finish(l, i), accept, id);
      }
    case ChannelAdded(cid, mtu) =>
      DispatchConserves(SetMtu(Allocate(l, cid), cid, mtu), accept, id);
    case MtuUpdated(cid, mtu) =>
      DispatchConserves(SetMtu(l, cid, mtu), accept, id);
    case ChannelDeleted(cid) =>
      DeleteConserves(l, cid, id);
    case DiscoveryRestarted => DropConserves(l, id);
    case LinkReleased => DropConserves(l, id);
  }

  /** A restarted discovery leaves the map onto exactly when no request was outstanding. */
  lemma RestartOnto(l: Link)
    requires Exclusive(l) && Onto(l)
    ensures Onto(DropRequests(l)) <==> l.waiting == []
  {
    if l.waiting != [] {
      assert Outstanding(l.channels, l.issued, l.waiting[0]);
      assert DropRequests(l).channels[FindCid(l.channels, l.waiting[0].cid)].busy;
    }
  }

  // ----- Over whole runs -----

  /** No discovery is restarted while a request is outstanding. */
  predicate QuietRestarts(l: Link, es: seq<Event>, accept: Answers)
    decreases |es|
  {
    es == [] || ((es[0].DiscoveryRestarted? ==> l.waiting == []) && QuietRestarts(Step(l, es[0], accept), es[1..], accept))
  }

  lemma {:induction false} RunKeeps(l: Link, es: seq<Event>, accept: Answers)
    requires Exclusive(l) && Conserved(l) && LegalRun(l, es, accept)
    ensures Exclusive(Run(l, es, accept)) && Conserved(Run(l, es, accept))
    ensures Onto(l) && QuietRestarts(l, es, accept) ==> Onto(Run(l, es, accept))
    decreases |es|
  {
    if es != [] {
      StepKeeps(l, es[0], accept);
      forall id: nat ensures ConservedAt(Step(l, es[0], accept), id) { StepConserves(l, es[0], accept, id); }
      if Onto(l) && es[0].DiscoveryRestarted? { RestartOnto(l); }
      RunKeeps(Step(l, es[0], accept), es[1..], accept);
    }
  }

  /** Every busy bearer has its waiting request in every state of the run. */
  ghost predicate AlwaysOnto(l: Link, es: seq<Event>, accept: Answers)
    decreases |es|
  {
    Onto(l) && (es == [] || AlwaysOnto(Step(l, es[0], accept), es[1..], accept))
  }

  lemma {:induction false} RunOnto(l: Link, es: seq<Event>, accept: Answers)
    requires Exclusive(l) && Onto(l) && LegalRun(l, es, accept)
    ensures AlwaysOnto(l, es, accept) <==> QuietRestarts(l, es, accept)
    decreases |es|
  {
    hide Exclusive, Onto, Step, Legal;
    if es != [] {
      var m := Step(l, es[0], accept);
      StepKeeps(l, es[0], accept);
      if es[0].DiscoveryRestarted? { RestartStep(l, es[0], accept); }
      if Onto(m) {
        RunOnto(m, es[1..], accept);
      } else {
        NotAlwaysOnto(m, es[1..], accept);
      }
    }
  }

  lemma RestartStep(l: Link, e: Event, accept: Answers)
    requires Exclusive(l) && Onto(l) && e.DiscoveryRestarted?
    ensures Onto(Step(l, e, accept)) <==> l.waiting == []
  {
    hide Exclusive, Onto;
    RestartOnto(l);
  }

  lemma NotAlwaysOnto(l: Link, es: seq<Event>, accept: Answers)
    requires !Onto(l)
    ensures !AlwaysOnto(l, es, accept)
  {
  }

  lemma InitialAgrees(l: Link)
    requires Initial(l)
    ensures Exclusive(l) && Onto(l)
  {
    if l.channels != [] {
      var cid :| l.channels == [Channel(cid, DEFAULT_MTU, false)];
      assert !l.channels[0].busy;
    }
  }

  /** Over every run from a new link, busy bearers and waiting requests match in every state exactly
      when no discovery is restarted with a request outstanding. */
  lemma BusyMatchesWaiting(l: Link, es: seq<Event>, accept: Answers)
    requires Initial(l) && LegalRun(l, es, accept)
    ensures AlwaysOnto(l, es, accept) <==> QuietRestarts(l, es, accept)
  {
    InitialAgrees(l);
    RunOnto(l, es, accept);
  }

  /** The main safety theorem: in every reachable state flags counts the busy bearers, cids are
      distinct, waiting requests map one-to-one into busy bearers and are the last requests the
      stack accepted there, and every accepted request has exactly one place. */
  lemma BearerExclusivity(l: Link, es: seq<Event>, accept: Answers)
    requires Initial(l) && LegalRun(l, es, accept)
    ensures Exclusive(Run(l, es, accept)) && Conserved(Run(l, es, accept))
    ensures QuietRestarts(l, es, accept) ==> Onto(Run(l, es, accept))
  {
    RunKeeps(l, es, accept);
  }

  /** A response that matches anything resolves the one request outstanding on its bearer, and that
      request is the last one the stack accepted there. */
  lemma ResponseAttribution(l: Link, handle: u16, cid: u16, isRead: bool, failed: bool, accept: Answers)
    requires Exclusive(l)
    ensures
      var i := FindWaiting(l.waiting, handle, cid, isRead, failed);
      i < |l.waiting| ==>
        l.waiting[i].cid == cid && l.waiting[i].id == LastOn(l.issued, cid) &&
        (forall j :: 0 <= j < |l.waiting| && l.waiting[j].cid == cid ==> j == i) &&
        l.resolved + [Resolution(l.waiting[i].id, Responded)] <= Respond(l, handle, cid, isRead, failed, accept).resolved
  {
    var i := FindWaiting(l.waiting, handle, cid, isRead, failed);
    if i < |l.waiting| {
      var m := Finish(l, i);
      assert Outstanding(l.channels, l.issued, l.waiting[i]);
      DrainExtends(m.(queued := []), m.queued, accept);
    }
  }

  /** The traces only grow. */
  lemma {:induction false} DrainExtends(l: Link, rest: seq<Req>, accept: Answers)
    ensures l.issued <= Drain(l, rest, accept).issued
    ensures l.resolved <= Drain(l, rest, accept).resolved
    decreases |rest|
  {
    if rest != [] {
      DrainExtends(Offer(l, rest[0], accept), rest[1..], accept);
    }
  }
}
