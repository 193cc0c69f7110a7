/** Indications are stop-and-wait and first-in first-out on each link; notifications keep one global
    order and the credit bound. */
module ServerOrder {
  import opened Widths
  import opened ServerQueues

  // ----- One link's indications -----

  /** The event is a completion that carries the indication's service and attribute. */
  predicate Ends(x: Seen, i: Item) { x.Completed? && x.svc == i.svc && x.attr == i.attr }

  predicate Acked(seen: seq<Seen>, i: nat)
    requires i < |seen| && seen[i].Handed?
  {
    exists k :: i < k < |seen| && Ends(seen[k], seen[i].item)
  }

  /** Between two indications handed to the stack a completion carries the first one's service and
      attribute. */
  ghost predicate StopAndWait(seen: seq<Seen>) {
    forall i, j :: 0 <= i < j < |seen| && seen[i].Handed? && seen[j].Handed? ==>
      exists k :: i < k < j && Ends(seen[k], seen[i].item)
  }

  function HandedItems(seen: seq<Seen>): seq<Item> {
    if seen == [] then []
    else HandedItems(seen[..|seen|-1]) + match seen[|seen|-1] case Handed(_, i) => [i] case Completed(_, _, _) => []
  }

  /** The record says what the trace says: with none outstanding all handed indications are completed,
      and otherwise all but the last one, which the record names. */
  ghost predicate Tracks(l: IndLink) {
    if l.complete then
      forall i: nat {:trigger Acked(l.seen, i)} :: 0 <= i < |l.seen| && l.seen[i].Handed? ==> Acked(l.seen, i)
    else exists p: nat :: Outstanding(l, p)
  }

  /** The indication handed over at p is the last one, and nothing has completed it. */
  ghost predicate Outstanding(l: IndLink, p: nat) {
    p < |l.seen| && l.seen[p].Handed? && l.seen[p].item.svc == l.svc && l.seen[p].item.attr == l.attr &&
    (forall i :: p < i < |l.seen| ==> !l.seen[i].Handed? && !Ends(l.seen[i], l.seen[p].item)) &&
    (forall i: nat {:trigger Acked(l.seen, i)} :: 0 <= i < p && l.seen[i].Handed? ==> Acked(l.seen, i))
  }

  ghost predicate LinkOk(l: IndLink) {
    (l.complete <==> l.svc == NO_SERVICE) &&
    StopAndWait(l.seen) &&
    Tracks(l) &&
    l.accepted == HandedItems(l.seen) + l.queue
  }

  lemma AckedLater(a: seq<Seen>, b: seq<Seen>, i: nat)
    requires i < |a| && a[i].Handed? && Acked(a, i)
    ensures Acked(a + b, i)
  {
    var k :| i < k < |a| && Ends(a[k], a[i].item);
    assert (a + b)[k] == a[k];
  }

  lemma HandedSnoc(seen: seq<Seen>, x: Seen)
    ensures HandedItems(seen + [x]) == HandedItems(seen) + match x case Handed(_, i) => [i] case Completed(_, _, _) => []
  {
    assert (seen + [x])[..|seen|] == seen;
  }

  /** Handing over with none outstanding keeps stop-and-wait. */
  lemma HandTraced(l: IndLink, cid: u16, i: Item)
    requires l.complete && StopAndWait(l.seen) && Tracks(l)
    ensures StopAndWait(Hand(l, cid, i).seen) && Tracks(Hand(l, cid, i))
  {
    var h := Hand(l, cid, i);
    var n := |l.seen|;
    forall x, y | 0 <= x < y < |h.seen| && h.seen[x].Handed? && h.seen[y].Handed?
      ensures exists k :: x < k < y && Ends(h.seen[k], h.seen[x].item)
    {
      if y == n {
        assert Acked(l.seen, x);
        var k :| x < k < n && Ends(l.seen[k], l.seen[x].item);
        assert h.seen[k] == l.seen[k];
      } else {
        assert l.seen[x].Handed? && l.seen[y].Handed?;
        var k :| x < k < y && Ends(l.seen[k], l.seen[x].item);
        assert h.seen[k] == l.seen[k];
      }
    }
    forall x | 0 <= x < n && h.seen[x].Handed? ensures Acked(h.seen, x) {
      assert Acked(l.seen, x);
      AckedLater(l.seen, [Handed(cid, i)], x);
    }
    assert Outstanding(h, n);
  }

  lemma SawStops(l: IndLink, svc: u8, attr: u16, confirms: bool)
    requires StopAndWait(l.seen)
    ensures StopAndWait(Saw(l, svc, attr, confirms).seen)
  {
    var s := Saw(l, svc, attr, confirms);
    forall x, y | 0 <= x < y < |s.seen| && s.seen[x].Handed? && s.seen[y].Handed?
      ensures exists k :: x < k < y && Ends(s.seen[k], s.seen[x].item)
    {
      assert l.seen[x].Handed? && l.seen[y].Handed?;
      var k :| x < k < y && Ends(l.seen[k], l.seen[x].item);
      assert s.seen[k] == l.seen[k];
    }
  }

  lemma AllAckedLater(l: IndLink, svc: u8, attr: u16, confirms: bool, n: nat)
    requires n <= |l.seen|
    requires forall i: nat {:trigger Acked(l.seen, i)} :: 0 <= i < n && l.seen[i].Handed? ==> Acked(l.seen, i)
    ensures
      var s := Saw(l, svc, attr, confirms).seen;
      forall i: nat {:trigger Acked(s, i)} :: 0 <= i < n && s[i].Handed? ==> Acked(s, i)
  {
    var s := Saw(l, svc, attr, confirms).seen;
    forall i: nat {:trigger Acked(s, i)} | 0 <= i < n && s[i].Handed? ensures Acked(s, i) {
      assert Acked(l.seen, i);
      AckedLater(l.seen, [Completed(svc, attr, confirms)], i);
    }
  }

  /** A completion is recorded; if it carries the outstanding pair, nothing is outstanding any more. */
  lemma SawTraced(l: IndLink, svc: u8, attr: u16, confirms: bool)
    requires Tracks(l) && (l.complete <==> l.svc == NO_SERVICE)
    ensures if Frees(l, svc, attr) then Tracks(Free(Saw(l, svc, attr, confirms))) else Tracks(Saw(l, svc, attr, confirms))
  {
    var s := Saw(l, svc, attr, confirms);
    var n := |l.seen|;
    if l.complete {
      AllAckedLater(l, svc, attr, confirms, n);
    } else {
      var p: nat :| Outstanding(l, p);
      AllAckedLater(l, svc, attr, confirms, p);
      assert s.seen[p] == l.seen[p];
      if Frees(l, svc, attr) {
        assert Ends(s.seen[n], s.seen[p].item);
        assert Acked(s.seen, p);
      } else {
        assert Outstanding(s, p);
      }
    }
  }

  lemma IndicateOk(l: IndLink, cid: u16, i: Item, credit: u8, ok: bool)
    requires LinkOk(l) && i.svc != NO_SERVICE
    ensures LinkOk(Indicate(l, cid, i, credit, ok))
  {
    hide StopAndWait, Tracks;
    if credit == 0 || l.queue != [] || !l.complete {
      WaitTraced(l, i);
      assert HandedItems(l.seen) + (l.queue + [i]) == HandedItems(l.seen) + l.queue + [i];
    } else if ok {
      HandTraced(l, cid, i);
      HandedSnoc(l.seen, Handed(cid, i));
      TracksSame(Hand(l, cid, i), Indicate(l, cid, i, credit, ok));
    }
  }

  lemma TracksSame(l: IndLink, m: IndLink)
    requires Tracks(l) && m.complete == l.complete && m.svc == l.svc && m.attr == l.attr && m.seen == l.seen
    ensures Tracks(m)
  {
    if !l.complete {
      var p: nat :| Outstanding(l, p);
      assert Outstanding(m, p);
    }
  }

  lemma WaitTraced(l: IndLink, i: Item)
    requires Tracks(l)
    ensures Tracks(Wait(l, i))
  {
    TracksSame(l, Wait(l, i));
  }

  lemma SawOk(l: IndLink, svc: u8, attr: u16, confirms: bool)
    requires LinkOk(l)
    ensures LinkOk(if Frees(l, svc, attr) then Free(Saw(l, svc, attr, confirms)) else Saw(l, svc, attr, confirms))
  {
    hide StopAndWait, Tracks;
    SawStops(l, svc, attr, confirms);
    SawTraced(l, svc, attr, confirms);
    HandedSnoc(l.seen, Completed(svc, attr, confirms));
    assert HandedItems(l.seen) + [] == HandedItems(l.seen);
  }

  lemma NextOk(l: IndLink, cid: u16)
    requires LinkOk(l) && l.complete && l.queue != [] && l.queue[0].svc != NO_SERVICE
    ensures LinkOk(Hand(l, cid, l.queue[0]).(queue := l.queue[1..]))
  {
    hide StopAndWait, Tracks, HandedItems;
    var i := l.queue[0];
    HandTraced(l, cid, i);
    HandedSnoc(l.seen, Handed(cid, i));
    TracksSame(Hand(l, cid, i), Hand(l, cid, i).(queue := l.queue[1..]));
    assert HandedItems(l.seen) + [i] + l.queue[1..] == HandedItems(l.seen) + l.queue;
  }

  lemma CompleteOk(l: IndLink, cid: u16, svc: u8, attr: u16, confirms: bool, credit: u8, ok: bool)
    requires LinkOk(l) && forall i :: i in l.queue ==> i.svc != NO_SERVICE
    ensures LinkOk(Complete(l, cid, svc, attr, confirms, credit, ok))
  {
    hide LinkOk, Frees;
    SawOk(l, svc, attr, confirms);
    var f := Free(Saw(l, svc, attr, confirms));
    if Frees(l, svc, attr) && f.queue != [] && credit != 0 && ok {
      NextOk(f, cid);
    }
  }

  // ----- All links -----

  predicate Distinct(links: seq<IndLink>) {
    forall i, j :: 0 <= i < j < |links| ==> links[i].conn != links[j].conn
  }

  predicate QueueNamed(l: IndLink) {
    forall i :: i in l.queue ==> i.svc != NO_SERVICE
  }

  ghost predicate LinksOk(links: seq<IndLink>) {
    Distinct(links) && forall i :: 0 <= i < |links| ==> LinkOk(links[i]) && QueueNamed(links[i])
  }

  lemma LinkPut(links: seq<IndLink>, i: nat, l: IndLink)
    requires LinksOk(links) && i < |links| && l.conn == links[i].conn && LinkOk(l) && QueueNamed(l)
    ensures LinksOk(links[i := l])
  {
    hide LinkOk, QueueNamed;
  }

  lemma EnsureOk(s: Server, conn: u16, connId: u8)
    requires LinksOk(s.links)
    ensures LinksOk(Ensure(s, conn, connId).links)
  {
    var l := NewLink(conn, connId);
    assert LinkOk(l) && QueueNamed(l);
    hide LinkOk, QueueNamed;
  }

  lemma SendLinks(s: Server, n: Note, reachable: bool, indicates: bool, st: Stack)
    requires LinksOk(s.links) && Legal(Sent(n, reachable, indicates))
    ensures LinksOk(Send(s, n, reachable, indicates, st).0.links)
  {
    hide LinkOk, LinksOk, Indicate, Ensure, Notify, QueueNamed;
    if reachable {
      var e := Ensure(s, n.conn, n.connId);
      EnsureOk(s, n.conn, n.connId);
      var credit := st.credits(e.polls);
      if indicates {
        IndicateAt(e.links, FindLink(e.links, n.conn), n.cid, n.item, credit, st.accept(e.tries));
      } else {
        NotifyLinks(e.(polls := e.polls + 1), n, credit, st);
      }
    }
  }

  lemma IndicateAt(links: seq<IndLink>, i: nat, cid: u16, x: Item, credit: u8, ok: bool)
    requires LinksOk(links) && i < |links| && x.svc != NO_SERVICE
    ensures LinksOk(links[i := Indicate(links[i], cid, x, credit, ok)])
  {
    hide LinkOk;
    IndicateOk(links[i], cid, x, credit, ok);
    LinkPut(links, i, Indicate(links[i], cid, x, credit, ok));
  }

  lemma {:induction false} DrainLinks(s: Server, credit: nat, st: Stack)
    ensures Drain(s, credit, st).0.links == s.links
    decreases credit
  {
    if credit != 0 && s.notes != [] && st.accept(s.tries) {
      DrainLinks(s.(notes := s.notes[1..], sent := s.sent + [s.notes[0]], tries := s.tries + 1), credit - 1, st);
    }
  }

  lemma NotifyLinks(s: Server, n: Note, credit: u8, st: Stack)
    ensures Notify(s, n, credit, st).0.links == s.links
  {
    hide Drain;
    var q := s.(notes := s.notes + [n], accepted := s.accepted + [n]);
    DrainLinks(q.(polls := q.polls + 1), st.credits(q.polls), st);
  }

  lemma CmplLinks(s: Server, conn: u16, cid: u16, svc: u8, attr: u16, confirms: bool, st: Stack)
    requires LinksOk(s.links)
    ensures LinksOk(Cmpl(s, conn, cid, svc, attr, confirms, st).0.links)
  {
    hide LinkOk, Complete, Drain, Frees;
    var h := HandleInd(s, conn, cid, svc, attr, confirms, st).0;
    DrainLinks(h.(polls := h.polls + 1), st.credits(h.polls), st);
    var i := FindLink(s.links, conn);
    if i < |s.links| {
      CompleteAt(s.links, i, cid, svc, attr, confirms, st.credits(s.polls), st.accept(s.tries));
    }
  }

  lemma CompleteAt(links: seq<IndLink>, i: nat, cid: u16, svc: u8, attr: u16, confirms: bool, credit: u8, ok: bool)
    requires LinksOk(links) && i < |links|
    ensures LinksOk(links[i := Complete(links[i], cid, svc, attr, confirms, credit, ok)])
  {
    hide LinkOk;
    CompleteOk(links[i], cid, svc, attr, confirms, credit, ok);
    LinkPut(links, i, Complete(links[i], cid, svc, attr, confirms, credit, ok));
  }

  lemma WithoutOk(links: seq<IndLink>, i: nat)
    requires LinksOk(links)
    ensures LinksOk(Without(links, i))
  {
    hide LinkOk, QueueNamed;
  }

  lemma StepLinks(s: Server, e: Event, st: Stack)
    requires LinksOk(s.links) && Legal(e)
    ensures LinksOk(Step(s, e, st).links)
  {
    hide LinksOk, Send, Cmpl, Without;
    match e
    case Sent(n, reachable, indicates) => SendLinks(s, n, reachable, indicates, st);
    case Done(conn, cid, svc, attr, confirms) => CmplLinks(s, conn, cid, svc, attr, confirms, st);
    case BearersGone(conn) => WithoutOk(s.links, FindLink(s.links, conn));
    case Disconnected(connId) => WithoutOk(s.links, FindConnId(s.links, connId));
  }

  lemma {:induction false} RunLinks(s: Server, es: seq<Event>, st: Stack)
    requires LinksOk(s.links) && LegalRun(es)
    ensures LinksOk(Run(s, es, st).links)
    decreases |es|
  {
    hide LinksOk, Step;
    if es != [] {
      assert es[0] in es;
      StepLinks(s, es[0], st);
      RunLinks(Step(s, es[0], st), es[1..], st);
    }
  }

  /** The indication theorem, for every link in every reachable state: none is outstanding exactly when
      no service is recorded; the indications handed over are separated by their completions; and they
      are, in order, the accepted ones that no longer wait. */
  lemma IndicationsStopAndWait(es: seq<Event>, st: Stack)
    requires LegalRun(es)
    ensures
      var r := Run(EMPTY, es, st);
      forall i :: 0 <= i < |r.links| ==>
        var l := r.links[i];
        (l.complete <==> l.svc == NO_SERVICE) && StopAndWait(l.seen) &&
        l.accepted == HandedItems(l.seen) + l.queue
  {
    hide StopAndWait, HandedItems, Tracks, Run;
    RunLinks(EMPTY, es, st);
  }
}
