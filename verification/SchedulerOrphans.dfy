/** What becomes of a bearer that a restarted discovery leaves busy. */
module SchedulerOrphans {
  import opened Widths
  import opened Scheduler
  import opened SchedulerSafety

  /** The bearer is busy with no request behind it. */
  ghost predicate Orphan(l: Link, cid: u16) {
    DistinctChannels(l.channels) && OnBusy(l.channels, cid) && forall r :: r in l.waiting ==> r.cid != cid
  }

  /** The events that end a bearer. */
  predicate Closes(e: Event, cid: u16) { e.LinkReleased? || (e.ChannelDeleted? && e.cid == cid) }

  lemma BusyAt(cs: seq<Channel>, ds: seq<Channel>, cid: u16)
    requires OnBusy(cs, cid) && DistinctChannels(cs) && |ds| >= |cs|
    requires forall k :: 0 <= k < |cs| ==> ds[k].cid == cs[k].cid && (cs[k].cid == cid ==> ds[k].busy)
    ensures OnBusy(ds, cid)
  {
    var c := FindCid(cs, cid);
    assert ds[c].cid == cid;
    var d := FindCid(ds, cid);
    assert d <= c;
  }

  lemma SendOrphan(l: Link, r: Req, accept: Answers, cid: u16)
    requires Orphan(l, cid)
    ensures Orphan(Offer(l, r, accept), cid)
  {
    hide To16, Need;
    var i := FirstFree(l.channels, Need(r));
    if i < |l.channels| {
      assert l.channels[i].cid != cid;
      BusyAt(l.channels, Offer(l, r, accept).channels, cid);
    }
  }

  lemma {:induction false} DrainOrphan(l: Link, rest: seq<Req>, accept: Answers, cid: u16)
    requires Orphan(l, cid)
    ensures Orphan(Drain(l, rest, accept), cid)
    decreases |rest|
  {
    hide Orphan, Offer;
    if rest != [] {
      SendOrphan(l, rest[0], accept, cid);
      DrainOrphan(Offer(l, rest[0], accept), rest[1..], accept, cid);
    }
  }

  lemma DispatchOrphan(l: Link, accept: Answers, cid: u16)
    requires Orphan(l, cid)
    ensures Orphan(Dispatch(l, accept), cid)
  {
    hide Drain;
    DrainOrphan(l.(queued := []), l.queued, accept, cid);
  }

  lemma FinishOrphan(l: Link, i: nat, cid: u16)
    requires Orphan(l, cid) && i < |l.waiting|
    ensures Orphan(Finish(l, i), cid)
  {
    hide To16;
    assert l.waiting[i] in l.waiting;
    BusyAt(l.channels, Finish(l, i).channels, cid);
  }

  lemma SetMtuOrphan(l: Link, c: u16, mtu: u16, cid: u16)
    requires Orphan(l, cid)
    ensures Orphan(SetMtu(l, c, mtu), cid)
  {
    BusyAt(l.channels, SetMtu(l, c, mtu).channels, cid);
  }

  lemma AllocateOrphan(l: Link, c: u16, cid: u16)
    requires Orphan(l, cid)
    ensures Orphan(Allocate(l, c), cid)
  {
    BusyAt(l.channels, Allocate(l, c).channels, cid);
  }

  lemma {:induction false} NotOnOrphan(w: seq<Req>, c: u16)
    ensures forall r :: r in NotOn(w, c) ==> r in w
  {
    if w != [] { NotOnOrphan(w[1..], c); }
  }

  lemma DeleteOrphan(l: Link, c: u16, cid: u16)
    requires Orphan(l, cid) && c != cid
    ensures Orphan(DeleteChannel(l, c), cid)
  {
    hide To16, LostOn, OnBusy, FindCid, DistinctChannels, Remove, NotOn;
    var k := FindCid(l.channels, c);
    if k < |l.channels| {
      NotOnOrphan(l.waiting, c);
      RemoveChannel(l.channels, k, cid);
      BusyNonempty(Remove(l.channels, k), cid);
    }
  }

  lemma BusyNonempty(cs: seq<Channel>, cid: u16)
    requires OnBusy(cs, cid)
    ensures cs != []
  {
  }

  /** An orphaned bearer stays busy through every event that does not end it. */
  lemma StepOrphan(l: Link, e: Event, accept: Answers, cid: u16)
    requires Orphan(l, cid) && !Closes(e, cid)
    ensures Orphan(Step(l, e, accept), cid)
  {
    hide Orphan, Dispatch, Finish, SetMtu, Allocate, DeleteChannel;
    match e
    case Submitted(rs) =>
      EnqueueOrphan(l, rs, cid);
      DispatchOrphan(Enqueue(l, rs), accept, cid);
    case Response(handle, c, isRead, failed) =>
      var i := FindWaiting(l.waiting, handle, c, isRead, failed);
      if i < |l.waiting| {
        FinishOrphan(l, i, cid);
        DispatchOrphan(Finish(l, i), accept, cid);
      }
    case ChannelAdded(c, mtu) =>
      AllocateOrphan(l, c, cid);
      SetMtuOrphan(Allocate(l, c), c, mtu, cid);
      DispatchOrphan(SetMtu(Allocate(l, c), c, mtu), accept, cid);
    case MtuUpdated(c, mtu) =>
      SetMtuOrphan(l, c, mtu, cid);
      DispatchOrphan(SetMtu(l, c, mtu), accept, cid);
    case ChannelDeleted(c) => DeleteOrphan(l, c, cid);
    case DiscoveryRestarted => DropOrphan(l, cid);
  }

  lemma EnqueueOrphan(l: Link, rs: seq<NewReq>, cid: u16)
    requires Orphan(l, cid)
    ensures Orphan(Enqueue(l, rs), cid)
  {
  }

  lemma DropOrphan(l: Link, cid: u16)
    requires Orphan(l, cid)
    ensures Orphan(DropRequests(l), cid)
  {
  }

  predicate Open(es: seq<Event>, cid: u16) {
    forall e :: e in es ==> !Closes(e, cid)
  }

  /** So it stays busy until it is deleted or the link released, whatever arrives. */
  lemma {:induction false} OrphanStays(l: Link, es: seq<Event>, accept: Answers, cid: u16)
    requires Orphan(l, cid) && Open(es, cid)
    ensures Orphan(Run(l, es, accept), cid)
    decreases |es|
  {
    hide Orphan, Step;
    if es != [] {
      assert es[0] in es;
      StepOrphan(l, es[0], accept, cid);
      OrphanStays(Step(l, es[0], accept), es[1..], accept, cid);
    }
  }

  /** Restarting discovery orphans exactly the bearers of the waiting requests. */
  lemma RestartOrphans(l: Link, cid: u16)
    requires Exclusive(l) && Onto(l)
    ensures Orphan(DropRequests(l), cid) <==> exists i :: 0 <= i < |l.waiting| && l.waiting[i].cid == cid
  {
    if Orphan(DropRequests(l), cid) {
      assert l.channels[FindCid(l.channels, cid)].busy;
    }
    if i :| 0 <= i < |l.waiting| && l.waiting[i].cid == cid {
      assert Outstanding(l.channels, l.issued, l.waiting[i]);
    }
  }

  // ----- A link with no other bearer -----

  ghost predicate OnlyOrphan(l: Link, cid: u16) { |l.channels| == 1 && Orphan(l, cid) }

  lemma {:induction false} DrainSilent(l: Link, rest: seq<Req>, accept: Answers)
    requires |l.channels| == 1 && l.channels[0].busy
    ensures Drain(l, rest, accept).issued == l.issued && Drain(l, rest, accept).channels == l.channels
    decreases |rest|
  {
    hide Need;
    if rest != [] { DrainSilent(Offer(l, rest[0], accept), rest[1..], accept); }
  }

  lemma DispatchSilent(l: Link, accept: Answers)
    requires |l.channels| == 1 && l.channels[0].busy
    ensures Dispatch(l, accept).issued == l.issued && |Dispatch(l, accept).channels| == 1
  {
    DrainSilent(l.(queued := []), l.queued, accept);
  }

  /** A step that neither ends the bearer nor brings another gives the stack nothing. */
  lemma StepSilent(l: Link, e: Event, accept: Answers, cid: u16)
    requires OnlyOrphan(l, cid) && !Closes(e, cid) && (e.ChannelAdded? ==> e.cid == cid)
    ensures OnlyOrphan(Step(l, e, accept), cid) && Step(l, e, accept).issued == l.issued
  {
    hide Dispatch, To16;
    StepOrphan(l, e, accept, cid);
    assert l.channels[0].busy && l.channels[0].cid == cid;
    match e
    case Submitted(rs) => DispatchSilent(Enqueue(l, rs), accept);
    case Response(handle, c, isRead, failed) =>
      var i := FindWaiting(l.waiting, handle, c, isRead, failed);
      if i < |l.waiting| {
        assert l.waiting[i] in l.waiting;
        DispatchSilent(Finish(l, i), accept);
      }
    case ChannelAdded(c, mtu) => DispatchSilent(SetMtu(Allocate(l, c), c, mtu), accept);
    case MtuUpdated(c, mtu) => DispatchSilent(SetMtu(l, c, mtu), accept);
    case ChannelDeleted(c) =>
    case DiscoveryRestarted =>
  }

  /** A link whose only bearer was orphaned sends nothing more, for all requests submitted, until that
      bearer ends or another is added. */
  lemma {:induction false} OrphanedLinkSilent(l: Link, es: seq<Event>, accept: Answers, cid: u16)
    requires OnlyOrphan(l, cid) && Open(es, cid) && forall e :: e in es && e.ChannelAdded? ==> e.cid == cid
    ensures Run(l, es, accept).issued == l.issued
    decreases |es|
  {
    hide OnlyOrphan, Step;
    if es != [] {
      assert es[0] in es;
      StepSilent(l, es[0], accept, cid);
      OrphanedLinkSilent(Step(l, es[0], accept), es[1..], accept, cid);
    }
  }
}
