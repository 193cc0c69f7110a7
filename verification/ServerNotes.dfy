/** Notifications keep one global order and the credit bound; closing a link removes its data only. */
module ServerNotes {
  import opened Widths
  import opened ServerQueues
  import opened ServerOrder

  /** The notifications of the given links, in order. */
  function Of(q: seq<Note>, conns: set<u16>, ids: set<u8>): seq<Note> {
    if q == [] then []
    else (if q[0].conn in conns && q[0].connId in ids then [q[0]] else []) + Of(q[1..], conns, ids)
  }

  lemma {:induction false} OfConcat(a: seq<Note>, b: seq<Note>, conns: set<u16>, ids: set<u8>)
    ensures Of(a + b, conns, ids) == Of(a, conns, ids) + Of(b, conns, ids)
  {
    if a == [] {
      assert a + b == b;
    } else {
      assert (a + b)[1..] == a[1..] + b;
      OfConcat(a[1..], b, conns, ids);
      var x := if a[0].conn in conns && a[0].connId in ids then [a[0]] else [];
      assert x + Of(a[1..], conns, ids) + Of(b, conns, ids) == x + (Of(a[1..], conns, ids) + Of(b, conns, ids));
    }
  }

  lemma {:induction false} OthersKept(q: seq<Note>, gone: Note -> bool, conns: set<u16>, ids: set<u8>)
    requires forall n :: gone(n) ==> n.conn !in conns || n.connId !in ids
    ensures Of(Staying(q, gone), conns, ids) == Of(q, conns, ids)
  {
    if q != [] {
      OthersKept(q[1..], gone, conns, ids);
      OfConcat(if gone(q[0]) then [] else [q[0]], Staying(q[1..], gone), conns, ids);
    }
  }

  // ----- Draining -----

  /** A drain sends a prefix of the queue no longer than the credits it read, in order; it stops early
      only when the stack refuses the head, which stays. */
  lemma {:induction false} DrainExact(s: Server, credit: nat, st: Stack)
    ensures
      var (n, ok) := Drain(s, credit, st);
      var k := |s.notes| - |n.notes|;
      0 <= k <= credit && n.notes == s.notes[k..] && n.sent == s.sent + s.notes[..k] && n.accepted == s.accepted &&
      (forall t :: s.tries <= t < s.tries + k ==> st.accept(t)) &&
      (!ok ==> k < credit && n.notes != [] && !st.accept(s.tries + k)) &&
      (ok ==> k == credit || n.notes == [])
    decreases credit
  {
    if credit != 0 && s.notes != [] && st.accept(s.tries) {
      var t := s.(notes := s.notes[1..], sent := s.sent + [s.notes[0]], tries := s.tries + 1);
      DrainExact(t, credit - 1, st);
      var n := Drain(t, credit - 1, st).0;
      TakeOne(s.notes, s.sent, |s.notes| - |n.notes|);
    }
  }

  lemma TakeOne(q: seq<Note>, sent: seq<Note>, k: nat)
    requires 0 < k <= |q|
    ensures sent + [q[0]] + q[1..][..k-1] == sent + q[..k]
    ensures q[1..][k-1..] == q[k..]
  {
    assert q[..k] == [q[0]] + q[1..][..k-1];
  }

  // ----- Order over runs -----

  /** Accepted notifications of these links are the sent ones followed by the waiting ones. */
  ghost predicate InOrder(s: Server, conns: set<u16>, ids: set<u8>) {
    Of(s.accepted, conns, ids) == Of(s.sent, conns, ids) + Of(s.notes, conns, ids)
  }

  /** Between s and n notifications were only appended to the queue and taken from its front to be sent. */
  ghost predicate Flows(s: Server, n: Server) {
    s.accepted <= n.accepted && n.sent + n.notes == s.sent + s.notes + n.accepted[|s.accepted|..]
  }

  lemma FlowsInOrder(s: Server, n: Server, conns: set<u16>, ids: set<u8>)
    requires Flows(s, n) && InOrder(s, conns, ids)
    ensures InOrder(n, conns, ids)
  {
    hide Of;
    var x := n.accepted[|s.accepted|..];
    assert n.accepted == s.accepted + x;
    OfConcat(s.accepted, x, conns, ids);
    OfConcat(n.sent, n.notes, conns, ids);
    OfConcat(s.sent + s.notes, x, conns, ids);
    OfConcat(s.sent, s.notes, conns, ids);
  }

  lemma DrainFlows(s: Server, credit: nat, st: Stack)
    ensures Flows(s, Drain(s, credit, st).0)
  {
    hide Drain;
    DrainExact(s, credit, st);
    var n := Drain(s, credit, st).0;
    var k := |s.notes| - |n.notes|;
    assert s.sent + s.notes[..k] + s.notes[k..] == s.sent + s.notes;
  }

  lemma SendFlows(s: Server, n: Note, reachable: bool, indicates: bool, st: Stack)
    ensures Flows(s, Send(s, n, reachable, indicates, st).0)
  {
    hide Indicate, Drain;
    if reachable && !indicates {
      var e := Ensure(s, n.conn, n.connId);
      var q := e.(polls := e.polls + 1, notes := s.notes + [n], accepted := s.accepted + [n]);
      var d := q.(polls := q.polls + 1);
      DrainFlows(d, st.credits(q.polls), st);
      var v := Drain(d, st.credits(q.polls), st).0;
      assert v.accepted == s.accepted + [n] by { DrainExact(d, st.credits(q.polls), st); }
      assert s.sent + (s.notes + [n]) == s.sent + s.notes + [n];
    }
  }

  lemma CmplFlows(s: Server, conn: u16, cid: u16, svc: u8, attr: u16, confirms: bool, st: Stack)
    ensures Flows(s, Cmpl(s, conn, cid, svc, attr, confirms, st).0)
  {
    hide Complete, Drain, Frees;
    var h := HandleInd(s, conn, cid, svc, attr, confirms, st).0;
    DrainFlows(h.(polls := h.polls + 1), st.credits(h.polls), st);
  }

  /** None of these links is closed during the run. */
  predicate StayOpen(es: seq<Event>, conns: set<u16>, ids: set<u8>) {
    forall e :: e in es ==> (e.BearersGone? ==> e.conn !in conns) && (e.Disconnected? ==> e.connId !in ids)
  }

  lemma StepInOrder(s: Server, e: Event, conns: set<u16>, ids: set<u8>, st: Stack)
    requires InOrder(s, conns, ids)
    requires (e.BearersGone? ==> e.conn !in conns) && (e.Disconnected? ==> e.connId !in ids)
    ensures InOrder(Step(s, e, st), conns, ids)
  {
    hide Of, Flows, Send, Cmpl, Staying;
    match e
    case Sent(n, reachable, indicates) =>
      SendFlows(s, n, reachable, indicates, st);
      FlowsInOrder(s, Step(s, e, st), conns, ids);
    case Done(conn, cid, svc, attr, confirms) =>
      CmplFlows(s, conn, cid, svc, attr, confirms, st);
      FlowsInOrder(s, Step(s, e, st), conns, ids);
    case BearersGone(conn) => OthersKept(s.notes, OfConn(conn), conns, ids);
    case Disconnected(connId) => OthersKept(s.notes, OfConnId(connId), conns, ids);
  }

  lemma {:induction false} RunInOrder(s: Server, es: seq<Event>, conns: set<u16>, ids: set<u8>, st: Stack)
    requires InOrder(s, conns, ids) && StayOpen(es, conns, ids)
    ensures InOrder(Run(s, es, st), conns, ids)
    decreases |es|
  {
    hide InOrder, Step;
    if es != [] {
      assert es[0] in es;
      StepInOrder(s, es[0], conns, ids, st);
      RunInOrder(Step(s, es[0], st), es[1..], conns, ids, st);
    }
  }

  // ----- Which notifications are taken -----

  /** A notification is taken when it can only wait, for want of credit or behind others, and otherwise
      when the stack accepts it. */
  predicate TakesNote(s: Server, st: Stack) {
    st.credits(s.polls) == 0 || s.notes != [] || st.accept(s.tries)
  }

  /** A taken notification is accepted; it goes out at once with credit, nothing before it and a stack
      that accepts, and behind those that wait otherwise.  One that is not taken leaves no trace, and
      success is reported of none. */
  lemma NoteTaken(s: Server, n: Note, st: Stack)
    ensures
      var (r, ok) := Send(s, n, true, false, st);
      (ok ==> TakesNote(s, st)) &&
      (if TakesNote(s, st) then r.accepted == s.accepted + [n] && r.sent + r.notes == s.sent + s.notes + [n]
       else r.accepted == s.accepted && r.sent == s.sent && r.notes == s.notes) &&
      (st.credits(s.polls) != 0 && s.notes == [] && st.accept(s.tries) ==> ok && r.sent == s.sent + [n])
  {
    hide Drain;
    var e := Ensure(s, n.conn, n.connId);
    var q := e.(polls := e.polls + 1, notes := s.notes + [n], accepted := s.accepted + [n]);
    var d := q.(polls := q.polls + 1);
    DrainExact(d, st.credits(q.polls), st);
    DrainFlows(d, st.credits(q.polls), st);
    assert d.accepted[|d.accepted|..] == [];
    assert s.sent + (s.notes + [n]) == s.sent + s.notes + [n];
  }

  /** The notifications offered during a run that are taken, in order. */
  function TakenNotes(s: Server, es: seq<Event>, st: Stack): seq<Note>
    decreases |es|
  {
    if es == [] then []
    else
      var e := es[0];
      (if e.Sent? && e.reachable && !e.indicates && TakesNote(s, st) then [e.note] else []) +
      TakenNotes(Step(s, e, st), es[1..], st)
  }

  lemma StepTaken(s: Server, e: Event, st: Stack)
    ensures Step(s, e, st).accepted ==
      s.accepted + if e.Sent? && e.reachable && !e.indicates && TakesNote(s, st) then [e.note] else []
  {
    hide Send, HandleInd, Drain, TakesNote;
    assert s.accepted + [] == s.accepted;
    match e
    case Sent(n, reachable, indicates) =>
      if reachable && !indicates { NoteTaken(s, n, st); } else { NoNoteTaken(s, n, reachable, indicates, st); }
    case Done(conn, cid, svc, attr, confirms) =>
      var h := HandleInd(s, conn, cid, svc, attr, confirms, st).0;
      DrainExact(h.(polls := h.polls + 1), st.credits(h.polls), st);
      InsideOnly(s, conn, cid, svc, attr, confirms, st);
    case _ =>
  }

  lemma NoNoteTaken(s: Server, n: Note, reachable: bool, indicates: bool, st: Stack)
    requires !reachable || indicates
    ensures Send(s, n, reachable, indicates, st).0.accepted == s.accepted
  {
    hide Indicate, Notify;
  }

  lemma InsideOnly(s: Server, conn: u16, cid: u16, svc: u8, attr: u16, confirms: bool, st: Stack)
    ensures HandleInd(s, conn, cid, svc, attr, confirms, st).0.accepted == s.accepted
  {
    hide Complete, Frees;
  }

  lemma {:induction false} RunTaken(s: Server, es: seq<Event>, st: Stack)
    ensures Run(s, es, st).accepted == s.accepted + TakenNotes(s, es, st)
    decreases |es|
  {
    hide Step, TakesNote;
    if es != [] {
      StepTaken(s, es[0], st);
      RunTaken(Step(s, es[0], st), es[1..], st);
    }
  }

  /** The notification theorem: over every run, what is accepted is exactly the notifications offered
      and taken, and of links that stay open they are those sent followed by those waiting, in one order
      across all of these links. */
  lemma NotificationsInOrder(es: seq<Event>, conns: set<u16>, ids: set<u8>, st: Stack)
    requires StayOpen(es, conns, ids)
    ensures
      var r := Run(EMPTY, es, st);
      Of(r.accepted, conns, ids) == Of(r.sent, conns, ids) + Of(r.notes, conns, ids) &&
      r.accepted == TakenNotes(EMPTY, es, st)
  {
    hide Step, TakenNotes, Run;
    RunInOrder(EMPTY, es, conns, ids, st);
    RunTaken(EMPTY, es, st);
    assert [] + TakenNotes(EMPTY, es, st) == TakenNotes(EMPTY, es, st);
  }

  // ----- Closing a link -----

  lemma {:induction false} StayingExactly(q: seq<Note>, gone: Note -> bool)
    ensures forall n :: n in Staying(q, gone) <==> n in q && !gone(n)
  {
    if q != [] {
      StayingExactly(q[1..], gone);
      assert q == [q[0]] + q[1..];
    }
  }

  /** When the last bearer is gone nothing of the link is left, and everything of the others is. */
  lemma ClearExactly(s: Server, conn: u16)
    requires Distinct(s.links)
    ensures var n := Clear(s, conn);
      (forall l :: l in n.links <==> l in s.links && l.conn != conn) &&
      (forall x :: x in n.notes <==> x in s.notes && x.conn != conn)
  {
    StayingExactly(s.notes, OfConn(conn));
    var i := FindLink(s.links, conn);
    if i < |s.links| { WithoutMembers(s.links, i); }
  }

  lemma WithoutMembers(links: seq<IndLink>, i: nat)
    requires Distinct(links) && i < |links|
    ensures forall l :: l in Without(links, i) <==> l in links && l.conn != links[i].conn
  {
    var w := Without(links, i);
    forall l ensures l in w <==> l in links && l.conn != links[i].conn {
      if l in w {
        var k :| 0 <= k < |w| && w[k] == l;
        assert l == if k < i then links[k] else links[k+1];
      }
      if l in links && l.conn != links[i].conn {
        var k :| 0 <= k < |links| && links[k] == l;
        assert l == if k < i then w[k] else w[k-1];
      }
    }
  }

  /** A disconnection removes one record, so it leaves none with that connection id exactly when there
      was at most one. */
  lemma DisconnectExactly(s: Server, connId: u8)
    ensures forall x :: x in Disconnect(s, connId).notes <==> x in s.notes && x.connId != connId
    ensures
      (forall l :: l in Disconnect(s, connId).links ==> l.connId != connId) <==>
      (forall i, j :: 0 <= i < j < |s.links| ==> !(s.links[i].connId == connId && s.links[j].connId == connId))
  {
    StayingExactly(s.notes, OfConnId(connId));
    hide FindConnId, Without, Staying;
    if i, j :| 0 <= i < j < |s.links| && s.links[i].connId == connId && s.links[j].connId == connId {
      SecondStays(s.links, i, j, connId);
    } else {
      OnlyOneGoes(s.links, connId);
    }
  }

  lemma SecondStays(links: seq<IndLink>, i: nat, j: nat, connId: u8)
    requires i < j < |links| && links[i].connId == connId && links[j].connId == connId
    ensures links[j] in Without(links, FindConnId(links, connId))
  {
    hide FindConnId;
    var f := FindConnId(links, connId);
    assert f <= i;
    assert Without(links, f)[j-1] == links[j];
  }

  lemma OnlyOneGoes(links: seq<IndLink>, connId: u8)
    requires forall i, j :: 0 <= i < j < |links| ==> !(links[i].connId == connId && links[j].connId == connId)
    ensures forall l :: l in Without(links, FindConnId(links, connId)) ==> l.connId != connId
  {
    var f := FindConnId(links, connId);
    var w := Without(links, f);
    forall k | 0 <= k < |w| ensures w[k].connId != connId {
      if f < |links| { assert w[k] == if k < f then links[k] else links[k+1]; }
    }
  }

  /** Two links that share a connection id, as BR/EDR links do: after one notification for each, a
      disconnection removes the first record and keeps the second. */
  lemma SharedIdKept(a: Note, b: Note, st: Stack)
    requires a.conn != b.conn && a.connId == b.connId
    ensures
      var es := [Sent(a, true, false), Sent(b, true, false)];
      LegalRun(es) && Run(EMPTY, es, st).links == [NewLink(a.conn, a.connId), NewLink(b.conn, b.connId)] &&
      Step(Run(EMPTY, es, st), Disconnected(a.connId), st).links == [NewLink(b.conn, a.connId)]
  {
    hide Step;
    var e, f := Sent(a, true, false), Sent(b, true, false);
    var x, y := NewLink(a.conn, a.connId), NewLink(b.conn, b.connId);
    var r := Step(EMPTY, e, st);
    NoteEnsures(EMPTY, a, st);
    assert EMPTY.links + [x] == [x];
    assert FindLink([x], b.conn) == 1;
    var q := Step(r, f, st);
    NoteEnsures(r, b, st);
    assert [x] + [y] == [x, y];
    assert [e, f][1..] == [f] && [f][1..] == [];
    assert Run(EMPTY, [e, f], st) == Run(r, [f], st) == q;
    FirstGoes(q, x, y, st);
  }

  lemma NoteEnsures(s: Server, n: Note, st: Stack)
    requires FindLink(s.links, n.conn) == |s.links|
    ensures Step(s, Sent(n, true, false), st).links == s.links + [NewLink(n.conn, n.connId)]
  {
    hide Notify;
    var t := Ensure(s, n.conn, n.connId);
    NotifyLinks(t.(polls := t.polls + 1), n, st.credits(t.polls), st);
  }

  lemma FirstGoes(s: Server, x: IndLink, y: IndLink, st: Stack)
    requires s.links == [x, y]
    ensures Step(s, Disconnected(x.connId), st).links == [y]
  {
    assert FindConnId(s.links, x.connId) == 0;
    assert Without(s.links, 0) == [y];
  }
}
