/** Work conservation and bounded overtaking of the request scheduler. */
module SchedulerFairness {
  import opened Widths
  import opened Scheduler
  import opened SchedulerSafety

  // ----- Work conservation -----

  /** No queued request fits any free bearer. */
  ghost predicate WorkConserving(l: Link) {
    forall i, c :: 0 <= i < |l.queued| && 0 <= c < |l.channels| ==> !Admits(l.channels[c], Need(l.queued[i]))
  }

  lemma OfferWorks(l: Link, r: Req, accept: Answers)
    requires WorkConserving(l)
    ensures WorkConserving(Offer(l, r, accept))
  {
    var m := Offer(l, r, accept);
    forall i, c | 0 <= i < |m.queued| && 0 <= c < |m.channels|
      ensures !Admits(m.channels[c], Need(m.queued[i]))
    {
      if i < |l.queued| {
        assert !Admits(l.channels[c], Need(l.queued[i]));
      } else {
        assert FirstFree(l.channels, Need(r)) == |l.channels|;
      }
    }
  }

  lemma {:induction false} DrainWorks(l: Link, rest: seq<Req>, accept: Answers)
    requires WorkConserving(l)
    ensures WorkConserving(Drain(l, rest, accept))
    decreases |rest|
  {
    if rest != [] {
      OfferWorks(l, rest[0], accept);
      DrainWorks(Offer(l, rest[0], accept), rest[1..], accept);
    }
  }

  /** Dispatch establishes it from any state, whatever the stack answers. */
  lemma DispatchWorks(l: Link, accept: Answers)
    ensures WorkConserving(Dispatch(l, accept))
  {
    DrainWorks(l.(queued := []), l.queued, accept);
  }

  /** It holds again after every event, including those that dispatch nothing. */
  lemma StepWorks(l: Link, e: Event, accept: Answers)
    requires WorkConserving(l)
    ensures WorkConserving(Step(l, e, accept))
  {
    match e
    case Submitted(rs) => DispatchWorks(Enqueue(l, rs), accept);
    case Response(handle, cid, isRead, failed) =>
      var i := FindWaiting(l.waiting, handle, cid, isRead, failed);
      if i < |l.waiting| { DispatchWorks(Finish(l, i), accept); }
    case ChannelAdded(cid, mtu) => DispatchWorks(SetMtu(Allocate(l, cid), cid, mtu), accept);
    case MtuUpdated(cid, mtu) => DispatchWorks(SetMtu(l, cid, mtu), accept);
    case ChannelDeleted(cid) =>
      var c := FindCid(l.channels, cid);
      if c < |l.channels| {
        var m := Cut(l, c);
        forall i, d | 0 <= i < |m.queued| && 0 <= d < |m.channels|
          ensures !Admits(m.channels[d], Need(m.queued[i]))
        {
          assert m.channels[d] == l.channels[if d < c then d else d + 1];
        }
      }
    case DiscoveryRestarted =>
    case LinkReleased =>
  }

  lemma {:induction false} RunWorks(l: Link, es: seq<Event>, accept: Answers)
    requires WorkConserving(l)
    ensures WorkConserving(Run(l, es, accept))
    decreases |es|
  {
    if es != [] {
      StepWorks(l, es[0], accept);
      RunWorks(Step(l, es[0], accept), es[1..], accept);
    }
  }

  /** Between any two events of any run from a fresh link, no queued request fits a free bearer. */
  lemma WorkConservation(l: Link, es: seq<Event>, accept: Answers)
    requires Initial(l)
    ensures WorkConserving(Run(l, es, accept))
  {
    RunWorks(l, es, accept);
  }

  /** The size test means "payload plus three header bytes fit the MTU" on every bearer, exactly for
      payloads whose sum does not wrap in 16 bits. */
  lemma SizeTestIsExact(r: Req)
    requires r.kind.Write?
    ensures (forall c: Channel :: Admits(c, Need(r)) <==> !c.busy && r.kind.length + 3 <= c.mtu) <==> r.kind.length <= 0xFFFC
  {
    if r.kind.length > 0xFFFC {
      var c := Channel(4, DEFAULT_MTU, false);
      assert Admits(c, Need(r)) && !(r.kind.length + 3 <= c.mtu);
    }
  }

  // ----- Overtaking -----

  ghost predicate Before(q: seq<Req>, a: Req, b: Req) {
    exists i, j :: 0 <= i < j < |q| && q[i] == a && q[j] == b
  }

  ghost predicate UniqueIds(q: seq<Req>) {
    forall i, j :: 0 <= i < j < |q| ==> q[i].id != q[j].id
  }

  ghost predicate IssuedSince(log: seq<Issue>, base: nat, id: nat) {
    exists p :: base <= p < |log| && log[p].id == id
  }

  /** b was handed to the stack after position base with a not handed over in between. */
  ghost predicate Overtakes(log: seq<Issue>, base: nat, b: nat, a: nat) {
    exists p :: base <= p < |log| && log[p].id == b && forall o :: base <= o < p ==> log[o].id != a
  }

  /** a leaves queue q no later than b: it is still ahead, or has gone first, or both were dropped. */
  ghost predicate InOrder(q: seq<Req>, log: seq<Issue>, base: nat, a: Req, b: Req) {
    || (Before(q, a, b) && !IssuedSince(log, base, b.id))
    || (a !in q && IssuedSince(log, base, a.id) && !Overtakes(log, base, b.id, a.id))
    || (a !in q && (forall r :: r in q ==> r.id != b.id) && !IssuedSince(log, base, b.id))
  }

  lemma {:induction false} TimesPositive(q: seq<Req>, i: nat, id: nat)
    requires i < |q|
    ensures Times(q, q[i].id) >= 1
  {
    if i > 0 { TimesPositive(q[1..], i - 1, id); }
  }

  lemma {:induction false} TimesTwice(q: seq<Req>, i: nat, j: nat)
    requires i < j < |q| && q[i].id == q[j].id
    ensures Times(q, q[i].id) >= 2
  {
    if i == 0 {
      TimesPositive(q[1..], j - 1, q[j].id);
    } else {
      TimesTwice(q[1..], i - 1, j - 1);
    }
  }

  /** Conservation gives queued requests distinct ids, all below the next one. */
  lemma QueueIds(l: Link)
    requires Conserved(l)
    ensures UniqueIds(l.queued)
    ensures forall i :: 0 <= i < |l.queued| ==> l.queued[i].id < l.nextId
  {
    forall i, j | 0 <= i < j < |l.queued| ensures l.queued[i].id != l.queued[j].id {
      assert ConservedAt(l, l.queued[i].id);
      if l.queued[i].id == l.queued[j].id { TimesTwice(l.queued, i, j); }
    }
    forall i | 0 <= i < |l.queued| ensures l.queued[i].id < l.nextId {
      assert ConservedAt(l, l.queued[i].id);
      TimesPositive(l.queued, i, l.queued[i].id);
    }
  }

  lemma RemoveBefore(q: seq<Req>, n: nat, a: Req, b: Req)
    requires n < |q| && Before(q, a, b) && q[n] != a && q[n] != b
    ensures Before(Remove(q, n), a, b)
  {
    var i, j :| 0 <= i < j < |q| && q[i] == a && q[j] == b;
    var v := Remove(q, n);
    assert v[if i < n then i else i - 1] == a && v[if j < n then j else j - 1] == b;
  }

  lemma LogSnoc(log: seq<Issue>, x: Issue, base: nat, a: nat, b: nat)
    requires base <= |log|
    ensures IssuedSince(log + [x], base, a) <==> IssuedSince(log, base, a) || x.id == a
    ensures IssuedSince(log, base, a) ==> (Overtakes(log + [x], base, b, a) <==> Overtakes(log, base, b, a))
    ensures !IssuedSince(log, base, b) && x.id != b ==> !Overtakes(log + [x], base, b, a)
  {
    var m := log + [x];
    assert m[|log|] == x;
    assert forall p :: 0 <= p < |log| ==> m[p] == log[p];
    if IssuedSince(log, base, a) {
      var p :| base <= p < |log| && log[p].id == a;
      assert m[p].id == a;
      if Overtakes(log, base, b, a) {
        var o :| base <= o < |log| && log[o].id == b && forall k :: base <= k < o ==> log[k].id != a;
        assert m[o].id == b && forall k :: base <= k < o ==> m[k].id != a;
      }
    }
  }

  /** Handing over the request at position n of the queue keeps the order, if b itself is not
      handed over while a is still ahead of it. */
  lemma HandOver(q: seq<Req>, log: seq<Issue>, x: Issue, n: nat, base: nat, a: Req, b: Req)
    requires UniqueIds(q) && n < |q| && x.id == q[n].id && base <= |log|
    requires a.id != b.id
    requires InOrder(q, log, base, a, b)
    requires Before(q, a, b) ==> q[n] != b
    ensures InOrder(Remove(q, n), log + [x], base, a, b)
  {
    var v := Remove(q, n);
    assert forall k :: 0 <= k < |v| ==> v[k] == q[if k < n then k else k + 1];
    LogSnoc(log, x, base, a.id, b.id);
    LogSnoc(log, x, base, b.id, a.id);
    if Before(q, a, b) && !IssuedSince(log, base, b.id) {
      var i, j :| 0 <= i < j < |q| && q[i] == a && q[j] == b;
      if n == i {
        assert a !in v;
      } else {
        assert x.id != b.id;
        RemoveBefore(q, n, a, b);
      }
    } else {
      assert a !in v;
    }
  }

  lemma RemoveUnique(q: seq<Req>, n: nat)
    requires UniqueIds(q) && n < |q|
    ensures UniqueIds(Remove(q, n))
  {
    var v := Remove(q, n);
    forall k | 0 <= k < |v| ensures v[k] == q[if k < n then k else k + 1] {}
  }

  /** The request a dispatch sends is never one with an easier request still ahead of it. */
  lemma NotOverEasier(l: Link, rest: seq<Req>, i: nat, a: Req, b: Req)
    requires WorkConserving(l) && UniqueIds(l.queued + rest) && rest != []
    requires Need(a) <= Need(b) && Before(l.queued + rest, a, b)
    requires i < |l.channels| && Admits(l.channels[i], Need(rest[0]))
    ensures rest[0] != b
  {
    var q := l.queued + rest;
    var p, o :| 0 <= p < o < |q| && q[p] == a && q[o] == b;
    assert q[|l.queued|] == rest[0];
    assert p < |l.queued| ==> !Admits(l.channels[i], Need(l.queued[p]));
  }

  lemma OfferInOrder(l: Link, rest: seq<Req>, accept: Answers, base: nat, a: Req, b: Req)
    requires WorkConserving(l) && UniqueIds(l.queued + rest) && base <= |l.issued| && rest != []
    requires a.id != b.id && Need(a) <= Need(b)
    requires InOrder(l.queued + rest, l.issued, base, a, b)
    ensures
      var m := Offer(l, rest[0], accept);
      UniqueIds(m.queued + rest[1..]) && base <= |m.issued| && InOrder(m.queued + rest[1..], m.issued, base, a, b)
  {
    var r := rest[0];
    var m := Offer(l, r, accept);
    var i := FirstFree(l.channels, Need(r));
    var q := l.queued + rest;
    if i == |l.channels| {
      assert m.queued + rest[1..] == q;
    } else {
      assert m.queued + rest[1..] == Remove(q, |l.queued|);
      RemoveUnique(q, |l.queued|);
      if Before(q, a, b) { NotOverEasier(l, rest, i, a, b); }
      hide WorkConserving, InOrder, UniqueIds, Before;
      HandOver(q, l.issued, Issue(r.id, l.channels[i].cid, r.kind, r.handle, accept(|l.issued|)), |l.queued|, base, a, b);
    }
  }

  lemma {:induction false} DrainInOrder(l: Link, rest: seq<Req>, accept: Answers, base: nat, a: Req, b: Req)
    requires WorkConserving(l) && UniqueIds(l.queued + rest) && base <= |l.issued|
    requires a.id != b.id && Need(a) <= Need(b)
    requires InOrder(l.queued + rest, l.issued, base, a, b)
    ensures var m := Drain(l, rest, accept); InOrder(m.queued, m.issued, base, a, b)
    decreases |rest|
  {
    hide WorkConserving, InOrder, UniqueIds, Offer;
    if rest == [] {
      assert l.queued + rest == l.queued;
    } else {
      OfferWorks(l, rest[0], accept);
      OfferInOrder(l, rest, accept, base, a, b);
      DrainInOrder(Offer(l, rest[0], accept), rest[1..], accept, base, a, b);
    }
  }

  lemma DispatchInOrder(l: Link, accept: Answers, base: nat, a: Req, b: Req)
    requires Conserved(l) && base <= |l.issued|
    requires a.id != b.id && Need(a) <= Need(b)
    requires InOrder(l.queued, l.issued, base, a, b)
    ensures var m := Dispatch(l, accept); InOrder(m.queued, m.issued, base, a, b)
  {
    QueueIds(l);
    assert [] + l.queued == l.queued;
    DrainInOrder(l.(queued := []), l.queued, accept, base, a, b);
  }

  lemma EnqueueInOrder(l: Link, rs: seq<NewReq>, base: nat, a: Req, b: Req)
    requires InOrder(l.queued, l.issued, base, a, b)
    requires a.id < l.nextId && b.id < l.nextId
    ensures InOrder(Enqueue(l, rs).queued, l.issued, base, a, b)
  {
    var q := l.queued + Numbered(rs, l.nextId);
    NumberedIds(rs, l.nextId);
    if Before(l.queued, a, b) {
      var i, j :| 0 <= i < j < |l.queued| && l.queued[i] == a && l.queued[j] == b;
      assert q[i] == a && q[j] == b;
    }
  }

  lemma {:induction false} NumberedIds(rs: seq<NewReq>, first: nat)
    ensures forall r :: r in Numbered(rs, first) ==> r.id >= first
    decreases |rs|
  {
    if rs != [] { NumberedIds(rs[1..], first + 1); }
  }

  lemma EnqueueConserves(l: Link, rs: seq<NewReq>)
    requires Conserved(l)
    ensures Conserved(Enqueue(l, rs))
  {
    forall id: nat ensures ConservedAt(Enqueue(l, rs), id) {
      assert ConservedAt(l, id);
      TimesConcat(l.queued, Numbered(rs, l.nextId), id);
      TimesNumbered(rs, l.nextId, id);
    }
  }

  lemma StepInOrder(l: Link, e: Event, accept: Answers, base: nat, a: Req, b: Req)
    requires Conserved(l) && WorkConserving(l) && base <= |l.issued|
    requires a.id != b.id && Need(a) <= Need(b) && a.id < l.nextId && b.id < l.nextId
    requires InOrder(l.queued, l.issued, base, a, b)
    ensures var m := Step(l, e, accept); InOrder(m.queued, m.issued, base, a, b)
    ensures base <= |Step(l, e, accept).issued| && l.nextId <= Step(l, e, accept).nextId
  {
    hide InOrder, WorkConserving, Dispatch;
    match e
    case Submitted(rs) =>
      var m := Enqueue(l, rs);
      EnqueueInOrder(l, rs, base, a, b);
      EnqueueConserves(l, rs);
      DispatchInOrder(m, accept, base, a, b);
      DispatchGrows(m, accept);
    case Response(handle, cid, isRead, failed) =>
      var i := FindWaiting(l.waiting, handle, cid, isRead, failed);
      if i < |l.waiting| {
        var m := Finish(l, i);
        forall id: nat ensures ConservedAt(m, id) { FinishConserves(l, i, id); }
        DispatchInOrder(m, accept, base, a, b);
        DispatchGrows(m, accept);
      }
    case ChannelAdded(cid, mtu) =>
      var m := SetMtu(Allocate(l, cid), cid, mtu);
      assert forall id: nat :: ConservedAt(l, id) ==> ConservedAt(m, id);
      DispatchInOrder(m, accept, base, a, b);
      DispatchGrows(m, accept);
    case MtuUpdated(cid, mtu) =>
      var m := SetMtu(l, cid, mtu);
      assert forall id: nat :: ConservedAt(l, id) ==> ConservedAt(m, id);
      DispatchInOrder(m, accept, base, a, b);
      DispatchGrows(m, accept);
    case ChannelDeleted(cid) => Emptied(l, base, a, b);
    case DiscoveryRestarted => Emptied(l, base, a, b);
    case LinkReleased => Emptied(l, base, a, b);
  }

  /** Dropping the whole queue drops both requests together. */
  lemma Emptied(l: Link, base: nat, a: Req, b: Req)
    requires InOrder(l.queued, l.issued, base, a, b)
    ensures InOrder([], l.issued, base, a, b)
  {
  }

  lemma DispatchGrows(l: Link, accept: Answers)
    ensures |l.issued| <= |Dispatch(l, accept).issued| && Dispatch(l, accept).nextId == l.nextId
  {
    DrainExtends(l.(queued := []), l.queued, accept);
    DrainNextId(l.(queued := []), l.queued, accept);
  }

  lemma {:induction false} DrainNextId(l: Link, rest: seq<Req>, accept: Answers)
    ensures Drain(l, rest, accept).nextId == l.nextId
    decreases |rest|
  {
    if rest != [] { DrainNextId(Offer(l, rest[0], accept), rest[1..], accept); }
  }

  lemma {:induction false} RunInOrder(l: Link, es: seq<Event>, accept: Answers, base: nat, a: Req, b: Req)
    requires Conserved(l) && WorkConserving(l) && base <= |l.issued|
    requires a.id != b.id && Need(a) <= Need(b) && a.id < l.nextId && b.id < l.nextId
    requires InOrder(l.queued, l.issued, base, a, b)
    ensures var m := Run(l, es, accept); InOrder(m.queued, m.issued, base, a, b)
    decreases |es|
  {
    if es != [] {
      StepInOrder(l, es[0], accept, base, a, b);
      StepWorks(l, es[0], accept);
      forall id: nat ensures ConservedAt(Step(l, es[0], accept), id) {
        assert ConservedAt(l, id);
        StepConserves(l, es[0], accept, id);
      }
      RunInOrder(Step(l, es[0], accept), es[1..], accept, base, a, b);
    }
  }

  /** The overtaking theorem.  Of two queued requests, the later one is handed to the stack first in
      some continuation only if it needs strictly less room; otherwise the earlier one, while it is
      still queued, is still ahead of the later one. */
  lemma BoundedOvertaking(l: Link, es: seq<Event>, accept: Answers, i: nat, j: nat)
    requires Conserved(l) && WorkConserving(l) && i < j < |l.queued|
    ensures
      var a, b, m := l.queued[i], l.queued[j], Run(l, es, accept);
      Need(a) <= Need(b) ==>
        !Overtakes(m.issued, |l.issued|, b.id, a.id) && (a in m.queued ==> Before(m.queued, a, b))
  {
    var a, b := l.queued[i], l.queued[j];
    QueueIds(l);
    if Need(a) <= Need(b) {
      RunInOrder(l, es, accept, |l.issued|, a, b);
    }
  }

  /** Requests other than writes leave in first-in-first-out order, whatever is queued around them. */
  lemma NonWritesAreFifo(l: Link, es: seq<Event>, accept: Answers, i: nat, j: nat)
    requires Conserved(l) && WorkConserving(l) && i < j < |l.queued|
    requires !l.queued[i].kind.Write? && !l.queued[j].kind.Write?
    ensures !Overtakes(Run(l, es, accept).issued, |l.issued|, l.queued[j].id, l.queued[i].id)
  {
    BoundedOvertaking(l, es, accept, i, j);
  }
}
