/** What goes out is what was asked for, and every answer ends the request it answers. */
module SchedulerAnswers {
  import opened Widths
  import opened Scheduler
  import opened SchedulerSafety

  // ----- Answers -----

  /** The response reports the end of this request: the answer to what its kind asked, on its bearer.
      A failed read by UUID may come without a handle. */
  predicate Reports(r: Req, handle: u16, cid: u16, isRead: bool, failed: bool) {
    cid == r.cid &&
    match r.kind
    case Read => isRead && handle == r.handle
    case Write(_) => !isRead && handle == r.handle
    case Cccd(_) => !isRead && handle == r.handle
    case ReadUuid(first, last) => isRead && first <= last && (first <= handle <= last || (failed && handle == 0))
  }

  /** m is l with the waiting request r ended as answered and its bearer free again. */
  ghost predicate EndedIn(l: Link, r: Req, m: Link) {
    m == l.(waiting := m.waiting, channels := m.channels, flags := m.flags, resolved := m.resolved) &&
    m.resolved == l.resolved + [Resolution(r.id, Responded)] && m.flags == l.flags - 1 &&
    (exists i :: 0 <= i < |l.waiting| && l.waiting[i] == r && m.waiting == l.waiting[..i] + l.waiting[i+1..]) &&
    r !in m.waiting && |m.channels| == |l.channels| &&
    forall k :: 0 <= k < |l.channels| ==>
      (l.channels[k].cid == r.cid ==> l.channels[k].busy) &&
      m.channels[k] == l.channels[k].(busy := l.channels[k].busy && l.channels[k].cid != r.cid)
  }

  lemma OthersElsewhere(l: Link, i: nat, j: nat)
    requires Exclusive(l) && i < |l.waiting| && j < |l.waiting| && l.waiting[i].cid == l.waiting[j].cid
    ensures i == j
  {
  }

  lemma FinishEnds(l: Link, i: nat)
    requires Exclusive(l) && i < |l.waiting|
    ensures EndedIn(l, l.waiting[i], Finish(l, i))
  {
    var r, m := l.waiting[i], Finish(l, i);
    var c := FindCid(l.channels, r.cid);
    assert r in l.waiting && Outstanding(l.channels, l.issued, r);
    BusySet(l.channels, c, false);
    RemoveDistinct(l.waiting, i);
    forall k | 0 <= k < |l.channels|
      ensures (l.channels[k].cid == r.cid ==> k == c) && m.channels[k] == l.channels[k].(busy := l.channels[k].busy && l.channels[k].cid != r.cid)
    {
      FindAt(l.channels, k);
    }
  }

  /** The answer theorem.  The answer to any waiting request ends exactly that one, frees its bearer,
      and the queue is served from there. */
  lemma AnswerEnds(l: Link, r: Req, handle: u16, cid: u16, isRead: bool, failed: bool, accept: Answers) returns (m: Link)
    requires Exclusive(l) && r in l.waiting && Reports(r, handle, cid, isRead, failed)
    ensures EndedIn(l, r, m) && Step(l, Response(handle, cid, isRead, failed), accept) == Dispatch(m, accept)
  {
    hide Exclusive, EndedIn, Finish, Dispatch;
    var k :| 0 <= k < |l.waiting| && l.waiting[k] == r;
    var i := FindWaiting(l.waiting, handle, cid, isRead, failed);
    assert Matches(l.waiting[k], handle, cid, isRead, failed);
    OthersElsewhere(l, i, k);
    FinishEnds(l, i);
    m := Finish(l, i);
  }

  /** A response that reports the end of nothing waiting changes nothing. */
  lemma StrayIgnored(l: Link, handle: u16, cid: u16, isRead: bool, failed: bool, accept: Answers)
    requires forall r :: r in l.waiting ==> !Reports(r, handle, cid, isRead, failed)
    ensures Step(l, Response(handle, cid, isRead, failed), accept) == l
  {
    NoneReported(l.waiting, handle, cid, isRead, failed);
  }

  lemma {:induction false} NoneReported(w: seq<Req>, handle: u16, cid: u16, isRead: bool, failed: bool)
    requires forall r :: r in w ==> !Reports(r, handle, cid, isRead, failed)
    ensures FindWaiting(w, handle, cid, isRead, failed) == |w|
  {
    if w != [] {
      assert w[0] in w;
      NoneReported(w[1..], handle, cid, isRead, failed);
    }
  }

  // ----- What goes out is what was asked for -----

  /** The requests a run submits, in order. */
  function Asked(es: seq<Event>): seq<NewReq> {
    if es == [] then [] else (if es[0].Submitted? then es[0].rs else []) + Asked(es[1..])
  }

  /** The record belongs to the request numbered so; a write that is out has lost its length. */
  predicate Keeps(asked: seq<NewReq>, id: nat, kind: Kind, handle: u16, out: bool) {
    id < |asked| && handle == asked[id].handle &&
    (kind == asked[id].kind || (out && kind == Write(0) && asked[id].kind.Write?))
  }

  ghost predicate Faithful(l: Link, asked: seq<NewReq>) {
    l.nextId == |asked| &&
    (forall r :: r in l.queued ==> Keeps(asked, r.id, r.kind, r.handle, false)) &&
    (forall r :: r in l.waiting ==> Keeps(asked, r.id, r.kind, r.handle, true)) &&
    forall x :: x in l.issued ==> Keeps(asked, x.id, x.kind, x.handle, false)
  }

  lemma {:induction false} DrainFaithful(l: Link, rest: seq<Req>, accept: Answers, asked: seq<NewReq>)
    requires Faithful(l, asked) && forall r :: r in rest ==> Keeps(asked, r.id, r.kind, r.handle, false)
    ensures Faithful(Drain(l, rest, accept), asked)
    decreases |rest|
  {
    hide Keeps, Faithful;
    if rest != [] {
      assert rest[0] in rest;
      OfferFaithful(l, rest[0], accept, asked);
      DrainFaithful(Offer(l, rest[0], accept), rest[1..], accept, asked);
    }
  }

  lemma OfferFaithful(l: Link, r: Req, accept: Answers, asked: seq<NewReq>)
    requires Faithful(l, asked) && Keeps(asked, r.id, r.kind, r.handle, false)
    ensures Faithful(Offer(l, r, accept), asked)
  {
    var i := FirstFree(l.channels, Need(r));
    if i < |l.channels| {
      assert Keeps(asked, r.id, Sent(r, l.channels[i].cid).kind, r.handle, true);
    }
    hide Keeps, Need, SetBusy, To16;
  }

  lemma DispatchFaithful(l: Link, accept: Answers, asked: seq<NewReq>)
    requires Faithful(l, asked)
    ensures Faithful(Dispatch(l, accept), asked)
  {
    hide Keeps, Drain;
    DrainFaithful(l.(queued := []), l.queued, accept, asked);
  }

  lemma {:induction false} NumberedKeep(rs: seq<NewReq>, asked: seq<NewReq>)
    ensures forall r :: r in Numbered(rs, |asked|) ==> Keeps(asked + rs, r.id, r.kind, r.handle, false)
    decreases |rs|
  {
    if rs != [] {
      NumberedKeep(rs[1..], asked + [rs[0]]);
      assert asked + [rs[0]] + rs[1..] == asked + rs;
    }
  }

  lemma {:induction false} NotOnIn(w: seq<Req>, cid: u16)
    ensures forall r :: r in NotOn(w, cid) ==> r in w
  {
    if w != [] { NotOnIn(w[1..], cid); }
  }

  lemma EnqueueFaithful(l: Link, rs: seq<NewReq>, asked: seq<NewReq>)
    requires Faithful(l, asked)
    ensures Faithful(Enqueue(l, rs), asked + rs)
  {
    hide Numbered;
    NumberedKeep(rs, asked);
  }

  lemma StepFaithful(l: Link, e: Event, accept: Answers, asked: seq<NewReq>)
    requires Faithful(l, asked)
    ensures Faithful(Step(l, e, accept), asked + if e.Submitted? then e.rs else [])
  {
    hide Keeps, Dispatch, Numbered, Ended, LostOn, NotOn, To16, SetBusy;
    assert asked + [] == asked;
    match e
    case Submitted(rs) =>
      EnqueueFaithful(l, rs, asked);
      DispatchFaithful(Enqueue(l, rs), accept, asked + rs);
    case Response(handle, cid, isRead, failed) =>
      var i := FindWaiting(l.waiting, handle, cid, isRead, failed);
      if i < |l.waiting| { DispatchFaithful(Finish(l, i), accept, asked); }
    case ChannelAdded(cid, mtu) => DispatchFaithful(SetMtu(Allocate(l, cid), cid, mtu), accept, asked);
    case MtuUpdated(cid, mtu) => DispatchFaithful(SetMtu(l, cid, mtu), accept, asked);
    case ChannelDeleted(cid) => NotOnIn(l.waiting, cid);
    case DiscoveryRestarted =>
    case LinkReleased =>
  }

  lemma {:induction false} RunFaithful(l: Link, es: seq<Event>, accept: Answers, asked: seq<NewReq>)
    requires Faithful(l, asked)
    ensures Faithful(Run(l, es, accept), asked + Asked(es))
    decreases |es|
  {
    hide Faithful, Step;
    if es == [] {
      assert asked + [] == asked;
    } else {
      var now := if es[0].Submitted? then es[0].rs else [];
      StepFaithful(l, es[0], accept, asked);
      RunFaithful(Step(l, es[0], accept), es[1..], accept, asked + now);
      assert asked + now + Asked(es[1..]) == asked + (now + Asked(es[1..]));
    }
  }

  /** Over every run, each command given to the stack is the request that was submitted under its
      number, with its kind and handle, and so is each request that waits for its answer. */
  lemma CommandsAsAsked(l: Link, es: seq<Event>, accept: Answers)
    requires Initial(l)
    ensures
      var r, asked := Run(l, es, accept), Asked(es);
      (forall x :: x in r.issued ==>
        x.id < |asked| && x.kind == asked[x.id].kind && x.handle == asked[x.id].handle) &&
      (forall q :: q in r.queued ==>
        q.id < |asked| && q.kind == asked[q.id].kind && q.handle == asked[q.id].handle) &&
      forall q :: q in r.waiting ==>
        q.id < |asked| && q.handle == asked[q.id].handle &&
        q.kind == if asked[q.id].kind.Write? then Write(0) else asked[q.id].kind
  {
    hide Run;
    RunFaithful(l, es, accept, []);
    assert [] + Asked(es) == Asked(es);
    RunCleared(l, es, accept);
  }

  ghost predicate Cleared(l: Link) {
    forall r :: r in l.waiting && r.kind.Write? ==> r.kind.length == 0
  }

  lemma {:induction false} DrainCleared(l: Link, rest: seq<Req>, accept: Answers)
    requires Cleared(l)
    ensures Cleared(Drain(l, rest, accept))
    decreases |rest|
  {
    hide Need, To16, SetBusy;
    if rest != [] { DrainCleared(Offer(l, rest[0], accept), rest[1..], accept); }
  }

  lemma DispatchCleared(l: Link, accept: Answers)
    requires Cleared(l)
    ensures Cleared(Dispatch(l, accept))
  {
    hide Drain;
    DrainCleared(l.(queued := []), l.queued, accept);
  }

  lemma StepCleared(l: Link, e: Event, accept: Answers)
    requires Cleared(l)
    ensures Cleared(Step(l, e, accept))
  {
    hide Dispatch, Numbered, Ended, LostOn, NotOn, To16, SetBusy;
    match e
    case Submitted(rs) => DispatchCleared(Enqueue(l, rs), accept);
    case Response(handle, cid, isRead, failed) =>
      var i := FindWaiting(l.waiting, handle, cid, isRead, failed);
      if i < |l.waiting| { DispatchCleared(Finish(l, i), accept); }
    case ChannelAdded(cid, mtu) => DispatchCleared(SetMtu(Allocate(l, cid), cid, mtu), accept);
    case MtuUpdated(cid, mtu) => DispatchCleared(SetMtu(l, cid, mtu), accept);
    case ChannelDeleted(cid) => NotOnIn(l.waiting, cid);
    case DiscoveryRestarted =>
    case LinkReleased =>
  }

  lemma {:induction false} RunCleared(l: Link, es: seq<Event>, accept: Answers)
    requires Cleared(l)
    ensures Cleared(Run(l, es, accept))
    decreases |es|
  {
    hide Cleared, Step;
    if es != [] {
      StepCleared(l, es[0], accept);
      RunCleared(Step(l, es[0], accept), es[1..], accept);
    }
  }

  // ----- Bearers -----

  /** A bearer that comes or changes has the size reported, is new at the end if it was unknown, and
      the others are as they were; the queue is then served. */
  lemma BearerReported(l: Link, cid: u16, mtu: u16, accept: Answers) returns (m: Link)
    requires DistinctChannels(l.channels)
    ensures Step(l, ChannelAdded(cid, mtu), accept) == Dispatch(m, accept)
    ensures m == l.(channels := m.channels)
    ensures
      if exists k :: 0 <= k < |l.channels| && l.channels[k].cid == cid then
        |m.channels| == |l.channels| &&
        (forall k :: 0 <= k < |l.channels| ==>
          m.channels[k] == if l.channels[k].cid == cid then Channel(cid, mtu, l.channels[k].busy) else l.channels[k]) &&
        Step(l, MtuUpdated(cid, mtu), accept) == Dispatch(m, accept)
      else m.channels == l.channels + [Channel(cid, mtu, false)] && Step(l, MtuUpdated(cid, mtu), accept) == l
  {
    hide Dispatch;
    m := SetMtu(Allocate(l, cid), cid, mtu);
    var c := FindCid(l.channels, cid);
    if c < |l.channels| {
      forall k | 0 <= k < |l.channels| && l.channels[k].cid == cid ensures k == c { FindAt(l.channels, k); }
    } else {
      FindAtEnd(l.channels, cid);
    }
  }

  lemma {:induction false} FindAtEnd(cs: seq<Channel>, cid: u16)
    requires FindCid(cs, cid) == |cs|
    ensures FindCid(cs + [Channel(cid, DEFAULT_MTU, false)], cid) == |cs|
  {
    var ds := cs + [Channel(cid, DEFAULT_MTU, false)];
    assert ds[|cs|].cid == cid;
    assert forall j :: 0 <= j < |cs| ==> ds[j].cid != cid;
  }

  /** Losing a bearer removes it and nothing else of the bearers, and ends what waits on it as lost; an
      unknown bearer changes nothing.  A BR/EDR link is released with its last bearer. */
  lemma BearerLost(l: Link, cid: u16, accept: Answers)
    requires Exclusive(l)
    ensures
      var n := Step(l, ChannelDeleted(cid), accept);
      if forall k :: 0 <= k < |l.channels| ==> l.channels[k].cid != cid then n == l
      else if l.bredr && |l.channels| == 1 then n.channels == [] && n.queued == [] && n.waiting == [] && n.flags == 0
      else
        n.queued == l.queued && n.issued == l.issued &&
        (exists c :: 0 <= c < |l.channels| && l.channels[c].cid == cid && n.channels == l.channels[..c] + l.channels[c+1..]) &&
        if forall r :: r in l.waiting ==> r.cid != cid then n.waiting == l.waiting && n.resolved == l.resolved
        else
          exists i :: 0 <= i < |l.waiting| && l.waiting[i].cid == cid &&
            n.waiting == l.waiting[..i] + l.waiting[i+1..] && n.resolved == l.resolved + [Resolution(l.waiting[i].id, ChannelLost)]
  {
    hide Ended, To16;
    var c := FindCid(l.channels, cid);
    if c < |l.channels| {
      if i :| 0 <= i < |l.waiting| && l.waiting[i].cid == cid {
        assert l.waiting[i] in l.waiting && Outstanding(l.channels, l.issued, l.waiting[i]);
        OneOn(l.waiting, i);
      } else {
        assert forall r :: r in l.waiting ==> r.cid != cid;
        NoneOn(l.waiting, cid);
      }
    }
  }

  lemma {:induction false} NoneOn(w: seq<Req>, cid: u16)
    requires forall r :: r in w ==> r.cid != cid
    ensures NotOn(w, cid) == w && LostOn(w, cid) == []
  {
    if w != [] {
      assert w[0] in w;
      NoneOn(w[1..], cid);
    }
  }

  lemma {:induction false} OneOn(w: seq<Req>, i: nat)
    requires DistinctRequests(w) && i < |w|
    ensures NotOn(w, w[i].cid) == w[..i] + w[i+1..] && LostOn(w, w[i].cid) == [Resolution(w[i].id, ChannelLost)]
  {
    if i == 0 {
      NoneOn(w[1..], w[0].cid);
    } else {
      OneOn(w[1..], i - 1);
      assert w[..i] + w[i+1..] == [w[0]] + (w[1..][..i-1] + w[1..][i..]);
    }
  }

  lemma {:induction false} EndedEach(rs: seq<Req>)
    ensures |Ended(rs)| == |rs| && forall k :: 0 <= k < |rs| ==> Ended(rs)[k] == Resolution(rs[k].id, Released)
  {
    if rs != [] { EndedEach(rs[1..]); }
  }

  /** A restart and a release end every request as released, queued ones first; a restart leaves the
      bearers as they are, a release leaves none. */
  lemma RequestsReleased(l: Link, accept: Answers)
    ensures
      var n, all := Step(l, DiscoveryRestarted, accept), l.queued + l.waiting;
      n.queued == [] && n.waiting == [] && n.channels == l.channels && n.flags == l.flags &&
      |n.resolved| == |l.resolved| + |all| && l.resolved <= n.resolved &&
      (forall k :: 0 <= k < |all| ==> n.resolved[|l.resolved| + k] == Resolution(all[k].id, Released)) &&
      Step(l, LinkReleased, accept) == n.(channels := [], flags := 0)
  {
    EndedEach(l.queued);
    EndedEach(l.waiting);
  }

  /** A new LE link's bearer carries writes of up to 20 bytes; a longer one waits for more room, but for
      those whose length wraps. */
  lemma FirstWrites(l: Link, length: u16, handle: u16, accept: Answers)
    requires Initial(l) && l.channels != []
    ensures
      var n := Step(l, Submitted([NewReq(Write(length), handle)]), accept);
      if length <= 20 || length >= 0xFFFD then
        n.queued == [] && n.issued == [Issue(0, l.channels[0].cid, Write(length), handle, accept(0))]
      else n.issued == [] && n.queued == [Req(0, Write(length), handle, 0)]
  {
    var cid :| l.channels == [Channel(cid, DEFAULT_MTU, false)];
    var rs := [NewReq(Write(length), handle)];
    var q := Req(0, Write(length), handle, 0);
    assert rs[1..] == [];
    assert Numbered(rs, 0) == [q];
    var e := Enqueue(l, rs);
    assert e.queued == [q] && [q][1..] == [];
    var o := Offer(e.(queued := []), q, accept);
    assert Drain(o, [], accept) == o;
    assert Dispatch(e, accept) == Drain(e.(queued := []), [q], accept);
  }
}
