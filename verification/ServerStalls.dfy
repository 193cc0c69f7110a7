/** Do waiting indications get served?  A link that runs out of credit at the wrong moment keeps them
    with none outstanding until some completion arrives. */
module ServerStalls {
  import opened Widths
  import opened ServerQueues
  import opened ServerOrder
  import opened ServerConfirm

  /** Indications wait on this link with none outstanding, so no completion of one is to come. */
  predicate Stalled(l: IndLink) { l.complete && l.queue != [] }

  predicate Served(links: seq<IndLink>) {
    forall i :: 0 <= i < |links| ==> !Stalled(links[i])
  }

  /** The step leaves indications waiting with none outstanding: one is sent on an idle link without
      credit, or a completion frees a link with waiting indications and there is no credit or the stack
      refuses the next one. */
  predicate Stalls(s: Server, e: Event, st: Stack) {
    match e
    case Sent(n, reachable, indicates) =>
      var t := Ensure(s, n.conn, n.connId);
      reachable && indicates && t.links[FindLink(t.links, n.conn)].complete && st.credits(t.polls) == 0
    case Done(conn, _, svc, attr, _) =>
      var i := FindLink(s.links, conn);
      i < |s.links| && Frees(s.links[i], svc, attr) && s.links[i].queue != [] &&
      (st.credits(s.polls) == 0 || !st.accept(s.tries))
    case _ => false
  }

  lemma SendStalls(l: IndLink, cid: u16, i: Item, credit: u8, ok: bool)
    requires !Stalled(l)
    ensures Stalled(Indicate(l, cid, i, credit, ok)) <==> l.complete && credit == 0
  {
  }

  lemma CompletionStalls(l: IndLink, cid: u16, svc: u8, attr: u16, confirms: bool, credit: u8, ok: bool)
    requires l.complete <==> l.svc == NO_SERVICE
    ensures Stalled(Complete(l, cid, svc, attr, confirms, credit, ok)) <==>
      Frees(l, svc, attr) && l.queue != [] && (credit == 0 || !ok)
  {
  }

  lemma ServedPut(links: seq<IndLink>, i: nat, l: IndLink)
    requires Served(links) && i < |links|
    ensures Served(links[i := l]) <==> !Stalled(l)
  {
    var t := links[i := l];
    assert t[i] == l && forall j :: 0 <= j < |links| && j != i ==> t[j] == links[j];
  }

  lemma ServedAt(links: seq<IndLink>, i: nat)
    requires Served(links) && i < |links|
    ensures !Stalled(links[i])
  {
  }

  lemma ServedEnsured(s: Server, conn: u16, connId: u8)
    requires Served(s.links)
    ensures Served(Ensure(s, conn, connId).links)
  {
  }

  lemma ServedWithout(links: seq<IndLink>, i: nat)
    requires Served(links)
    ensures Served(Without(links, i))
  {
  }

  lemma LinkNamed(links: seq<IndLink>, i: nat)
    requires LinksOk(links) && i < |links|
    ensures links[i].complete <==> links[i].svc == NO_SERVICE
  {
    hide StopAndWait, Tracks, HandedItems, QueueNamed, Distinct;
  }

  lemma StepServed(s: Server, e: Event, st: Stack)
    requires LinksOk(s.links) && Served(s.links)
    ensures Served(Step(s, e, st).links) <==> !Stalls(s, e, st)
  {
    hide LinksOk, Served, Indicate, Complete, Ensure, Notify, Without, HandleNotes, Frees;
    match e
    case Sent(n, reachable, indicates) =>
      ServedEnsured(s, n.conn, n.connId);
      var t := Ensure(s, n.conn, n.connId);
      var i, credit, ok := FindLink(t.links, n.conn), st.credits(t.polls), st.accept(t.tries);
      ServedAt(t.links, i);
      SendStalls(t.links[i], n.cid, n.item, credit, ok);
      ServedPut(t.links, i, Indicate(t.links[i], n.cid, n.item, credit, ok));
      NotifyLinks(t.(polls := t.polls + 1), n, credit, st);
    case Done(conn, cid, svc, attr, confirms) =>
      NotesLinks(HandleInd(s, conn, cid, svc, attr, confirms, st).0, st);
      var i := FindLink(s.links, conn);
      if i < |s.links| {
        var credit, ok := st.credits(s.polls), st.accept(s.tries);
        LinkNamed(s.links, i);
        CompletionStalls(s.links[i], cid, svc, attr, confirms, credit, ok);
        ServedPut(s.links, i, Complete(s.links[i], cid, svc, attr, confirms, credit, ok));
      }
    case BearersGone(conn) => ServedWithout(s.links, FindLink(s.links, conn));
    case Disconnected(connId) => ServedWithout(s.links, FindConnId(s.links, connId));
  }

  // ----- Whole runs -----

  predicate NeverStalls(s: Server, es: seq<Event>, st: Stack)
    decreases |es|
  {
    es == [] || (!Stalls(s, es[0], st) && NeverStalls(Step(s, es[0], st), es[1..], st))
  }

  predicate AlwaysServed(s: Server, es: seq<Event>, st: Stack)
    decreases |es|
  {
    Served(s.links) && (es == [] || AlwaysServed(Step(s, es[0], st), es[1..], st))
  }

  lemma {:induction false} RunServed(s: Server, es: seq<Event>, st: Stack)
    requires LinksOk(s.links) && Served(s.links) && LegalRun(es)
    ensures AlwaysServed(s, es, st) <==> NeverStalls(s, es, st)
    decreases |es|
  {
    hide LinksOk, Served, Stalls, Step;
    if es != [] {
      assert es[0] in es;
      StepServed(s, es[0], st);
      StepLinks(s, es[0], st);
      if Served(Step(s, es[0], st).links) {
        RunServed(Step(s, es[0], st), es[1..], st);
      } else {
        NotServed(Step(s, es[0], st), es[1..], st);
      }
    }
  }

  lemma NotServed(s: Server, es: seq<Event>, st: Stack)
    requires !Served(s.links)
    ensures !AlwaysServed(s, es, st)
  {
  }

  /** The service theorem, over every run: no link ever keeps indications waiting with none outstanding
      exactly when no step stalls one. */
  lemma IndicationsServed(es: seq<Event>, st: Stack)
    requires LegalRun(es)
    ensures AlwaysServed(EMPTY, es, st) <==> NeverStalls(EMPTY, es, st)
  {
    RunServed(EMPTY, es, st);
  }

  /** A run that stalls a link: two indications, and the first one's confirmation finds no credit. */
  lemma StallingRun(conn: u16, connId: u8, cid: u16, a: Item, b: Item, st: Stack)
    requires a.svc != NO_SERVICE && b.svc != NO_SERVICE
    requires st.credits(0) != 0 && st.accept(0) && st.credits(2) == 0
    ensures
      var es := [Sent(Note(conn, cid, connId, a), true, true), Sent(Note(conn, cid, connId, b), true, true),
                 Done(conn, cid, a.svc, a.attr, true)];
      var r := Run(EMPTY, es, st);
      LegalRun(es) && |r.links| == 1 && Stalled(r.links[0]) && r.links[0].queue == [b] && !AlwaysServed(EMPTY, es, st)
  {
    var e0, e1 := Sent(Note(conn, cid, connId, a), true, true), Sent(Note(conn, cid, connId, b), true, true);
    var e2 := Done(conn, cid, a.svc, a.attr, true);
    FirstSent(conn, cid, connId, a, st);
    var l := IndLink(conn, connId, false, a.svc, a.attr, [], [a], [Handed(cid, a)]);
    var s1 := Server([l], [], 1, 1, [], []);
    assert FindLink([l], conn) == 0;
    var m := l.(queue := [b], accepted := [a, b]);
    var s2 := Server([m], [], 2, 1, [], []);
    assert Indicate(l, cid, b, st.credits(1), st.accept(1)) == m;
    assert [l][0 := m] == [m];
    assert Ensure(s1, conn, connId) == s1 && Step(s1, e1, st) == s2;
    assert FindLink([m], conn) == 0;
    NotesLinks(HandleInd(s2, conn, cid, a.svc, a.attr, true, st).0, st);
    RunThree(e0, e1, e2, st);
    ServedAtEnd(EMPTY, [e0, e1, e2], st);
  }

  lemma RunThree(e0: Event, e1: Event, e2: Event, st: Stack)
    ensures Run(EMPTY, [e0, e1, e2], st) == Step(Step(Step(EMPTY, e0, st), e1, st), e2, st)
  {
    hide Step;
    RunCons(EMPTY, e0, [e1, e2], st);
    RunCons(Step(EMPTY, e0, st), e1, [e2], st);
    RunCons(Step(Step(EMPTY, e0, st), e1, st), e2, [], st);
  }

  lemma {:induction false} ServedAtEnd(s: Server, es: seq<Event>, st: Stack)
    ensures AlwaysServed(s, es, st) ==> Served(Run(s, es, st).links)
    decreases |es|
  {
    hide Served, Step;
    if es != [] { ServedAtEnd(Step(s, es[0], st), es[1..], st); }
  }

  /** A stalled link recovers with any completion of its own, of whatever service and attribute: with
      credit and a stack that accepts, the head of its queue goes out on the completion's bearer. */
  lemma StalledRecovers(s: Server, conn: u16, cid: u16, svc: u8, attr: u16, confirms: bool, st: Stack)
    requires LinksOk(s.links) && FindLink(s.links, conn) < |s.links|
    requires Stalled(s.links[FindLink(s.links, conn)])
    requires st.credits(s.polls) != 0 && st.accept(s.tries)
    ensures
      var i := FindLink(s.links, conn);
      var l, n := s.links[i], Step(s, Done(conn, cid, svc, attr, confirms), st);
      |n.links| == |s.links| && !Stalled(n.links[i]) && n.links[i].queue == l.queue[1..] &&
      n.links[i].seen == l.seen + [Completed(svc, attr, confirms), Handed(cid, l.queue[0])]
  {
    hide LinksOk, HandleNotes;
    var i := FindLink(s.links, conn);
    LinkNamed(s.links, i);
    NotesLinks(HandleInd(s, conn, cid, svc, attr, confirms, st).0, st);
    var l := s.links[i];
    assert l.seen + [Completed(svc, attr, confirms)] + [Handed(cid, l.queue[0])] ==
      l.seen + [Completed(svc, attr, confirms), Handed(cid, l.queue[0])];
  }

  // ----- Bearers -----

  /** The link after n confirmations on bearer c of what is outstanding, with credit and acceptance. */
  function Serve(l: IndLink, c: u16, n: nat): IndLink
    decreases n
  {
    if n == 0 then l else Serve(Complete(l, c, l.svc, l.attr, true, 1, true), c, n - 1)
  }

  lemma {:induction false} ServesInOrder(l: IndLink, c: u16, n: nat)
    requires !l.complete && QueueNamed(l) && n <= |l.queue|
    ensures
      var r := Serve(l, c, n);
      r.queue == l.queue[n..] && !r.complete && |r.seen| == |l.seen| + 2 * n &&
      (n > 0 ==> r.seen[|r.seen|-1] == Handed(c, l.queue[n-1]))
    decreases n
  {
    if n > 0 {
      var m := Complete(l, c, l.svc, l.attr, true, 1, true);
      assert l.queue[0] in l.queue;
      assert m.queue == l.queue[1..] && m.seen == l.seen + [Completed(l.svc, l.attr, true)] + [Handed(c, l.queue[0])];
      ServesInOrder(m, c, n - 1);
    }
  }

  /** The bearer is not kept: an indication sent on bearer d of any busy link goes out on the bearer of
      the confirmation before it, after everything that waited already. */
  lemma CidNotKept(l: IndLink, c: u16, d: u16, i: Item, credit: u8, ok: bool)
    requires !l.complete && QueueNamed(l) && i.svc != NO_SERVICE
    ensures
      var r := Serve(Indicate(l, d, i, credit, ok), c, |l.queue| + 1);
      r.queue == [] && r.seen != [] && r.seen[|r.seen|-1] == Handed(c, i)
  {
    var w := Indicate(l, d, i, credit, ok);
    assert w.queue == l.queue + [i];
    ServesInOrder(w, c, |l.queue| + 1);
  }
}
