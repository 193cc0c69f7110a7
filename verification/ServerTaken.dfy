/** Which indications a link takes, over whole runs. */
module ServerTaken {
  import opened Widths
  import opened ServerQueues
  import opened ServerOrder
  import opened ServerNotes

  /** An indication is taken when it can only wait, for want of credit, behind others or behind the
      outstanding one, and otherwise when the stack accepts it. */
  predicate TakesInd(l: IndLink, s: Server, st: Stack) {
    st.credits(s.polls) == 0 || l.queue != [] || !l.complete || st.accept(s.tries)
  }

  /** The record of the link, a new one if it has none. */
  function RecordOf(s: Server, conn: u16, connId: u8): IndLink {
    var i := FindLink(s.links, conn);
    if i < |s.links| then s.links[i] else IndLink(conn, connId, true, 0xFF, 0, [], [], [])
  }

  /** l is m with the indication handed over, waiting, or neither. */
  predicate TookAs(l: IndLink, m: IndLink, n: Note, s: Server, st: Stack) {
    if !TakesInd(l, s, st) then m == l
    else
      m == l.(accepted := l.accepted + [n.item], queue := m.queue, seen := m.seen, complete := m.complete, svc := m.svc, attr := m.attr) &&
      if l.complete && l.queue == [] && st.credits(s.polls) != 0 then
        m.queue == [] && m.seen == l.seen + [Handed(n.cid, n.item)] && !m.complete && m.svc == n.item.svc && m.attr == n.item.attr
      else
        m.queue == l.queue + [n.item] && m.seen == l.seen && m.complete == l.complete && m.svc == l.svc && m.attr == l.attr
  }

  /** Success is reported exactly of a taken indication.  It goes out at once on an idle link with credit
      and a stack that accepts, and waits behind the others otherwise; other links and the
      notifications are as they were. */
  lemma IndTaken(s: Server, n: Note, st: Stack)
    ensures
      var (r, ok) := Send(s, n, true, true, st);
      var i := FindLink(s.links, n.conn);
      var l := RecordOf(s, n.conn, n.connId);
      (ok <==> TakesInd(l, s, st)) &&
      i < |r.links| && |r.links| == (if i < |s.links| then |s.links| else i + 1) &&
      (forall k :: 0 <= k < |s.links| && k != i ==> r.links[k] == s.links[k]) &&
      TookAs(l, r.links[i], n, s, st) && r.notes == s.notes && r.sent == s.sent && r.accepted == s.accepted
  {
    var t := Ensure(s, n.conn, n.connId);
    var i := FindLink(s.links, n.conn);
    if i == |s.links| { NewFound(s, n.conn, n.connId); }
  }

  lemma NewFound(s: Server, conn: u16, connId: u8)
    requires FindLink(s.links, conn) == |s.links|
    ensures FindLink(s.links + [NewLink(conn, connId)], conn) == |s.links|
  {
    var t := s.links + [NewLink(conn, connId)];
    assert t[|s.links|].conn == conn;
    assert forall j :: 0 <= j < |s.links| ==> t[j] == s.links[j];
  }

  /** A completion is answered with failure exactly when its link has no record, or the stack refuses what
      comes next: the link's next indication, or a notification. */
  lemma DoneAnswered(s: Server, conn: u16, cid: u16, svc: u8, attr: u16, confirms: bool, st: Stack)
    ensures
      var (n, ok) := HandleInd(s, conn, cid, svc, attr, confirms, st);
      var i := FindLink(s.links, conn);
      ok <==>
        i < |s.links| &&
        !(Frees(s.links[i], svc, attr) && s.links[i].queue != [] && st.credits(s.polls) != 0 && !st.accept(s.tries))
    ensures Cmpl(s, conn, cid, svc, attr, confirms, st).1 <==>
      HandleInd(s, conn, cid, svc, attr, confirms, st).1 && HandleNotes(HandleInd(s, conn, cid, svc, attr, confirms, st).0, st).1
  {
    hide Complete, Drain;
  }

  // ----- Over whole runs -----

  /** The indications offered to a link during a run that are taken, in order. */
  function TakenInds(s: Server, es: seq<Event>, conn: u16, st: Stack): seq<Item>
    decreases |es|
  {
    if es == [] then []
    else
      var e := es[0];
      (if e.Sent? && e.reachable && e.indicates && e.note.conn == conn && TakesInd(RecordOf(s, conn, e.note.connId), s, st)
       then [e.note.item] else []) +
      TakenInds(Step(s, e, st), es[1..], conn, st)
  }

  /** The link is neither closed nor known under another connection id during the run. */
  predicate StaysOpen(es: seq<Event>, conn: u16, connId: u8) {
    forall e :: e in es ==>
      (e.Sent? && e.note.conn == conn ==> e.note.connId == connId) &&
      (e.BearersGone? ==> e.conn != conn) && (e.Disconnected? ==> e.connId != connId)
  }

  /** What the link's record says it has accepted; nothing without a record. */
  function AcceptedOn(s: Server, conn: u16): seq<Item> {
    var i := FindLink(s.links, conn);
    if i < |s.links| then s.links[i].accepted else []
  }

  /** Every record of the link has this connection id. */
  predicate Known(s: Server, conn: u16, connId: u8) {
    forall k :: 0 <= k < |s.links| && s.links[k].conn == conn ==> s.links[k].connId == connId
  }

  /** n has the records of s up to changes that keep who they are and what this link has accepted. */
  ghost predicate SameRecords(s: Server, n: Server, conn: u16) {
    |n.links| == |s.links| &&
    forall k :: 0 <= k < |s.links| ==>
      n.links[k].conn == s.links[k].conn && n.links[k].connId == s.links[k].connId &&
      (s.links[k].conn == conn ==> n.links[k].accepted == s.links[k].accepted)
  }

  lemma {:induction false} SameFound(a: seq<IndLink>, b: seq<IndLink>, conn: u16)
    requires |a| == |b| && forall k :: 0 <= k < |a| ==> a[k].conn == b[k].conn
    ensures FindLink(a, conn) == FindLink(b, conn)
  {
    if a != [] { SameFound(a[1..], b[1..], conn); }
  }

  lemma RecordsKeep(s: Server, n: Server, conn: u16, connId: u8)
    requires SameRecords(s, n, conn) && Known(s, conn, connId)
    ensures AcceptedOn(n, conn) == AcceptedOn(s, conn) && Known(n, conn, connId)
  {
    SameFound(s.links, n.links, conn);
  }

  lemma SendKeeps(s: Server, n: Note, reachable: bool, indicates: bool, conn: u16, connId: u8, st: Stack)
    requires Known(s, conn, connId) && (n.conn == conn ==> n.connId == connId)
    ensures
      var r := Send(s, n, reachable, indicates, st).0;
      Known(r, conn, connId) &&
      AcceptedOn(r, conn) == AcceptedOn(s, conn) +
        if reachable && indicates && n.conn == conn && TakesInd(RecordOf(s, conn, n.connId), s, st) then [n.item] else []
  {
    hide Indicate, Notify, TakesInd;
    if reachable {
      var t := Ensure(s, n.conn, n.connId);
      EnsureKeeps(s, n.conn, n.connId, conn, connId);
      if indicates {
        IndKeeps(s, n, conn, connId, st);
      } else {
        NotifyLinks(t.(polls := t.polls + 1), n, st.credits(t.polls), st);
      }
    }
  }

  lemma EnsureKeeps(s: Server, other: u16, otherId: u8, conn: u16, connId: u8)
    requires Known(s, conn, connId) && (other == conn ==> otherId == connId)
    ensures Known(Ensure(s, other, otherId), conn, connId) && AcceptedOn(Ensure(s, other, otherId), conn) == AcceptedOn(s, conn)
  {
    var i := FindLink(s.links, other);
    if i == |s.links| {
      var t := s.links + [NewLink(other, otherId)];
      FoundBefore(s.links, NewLink(other, otherId), conn);
    }
  }

  lemma FoundBefore(links: seq<IndLink>, l: IndLink, conn: u16)
    ensures FindLink(links + [l], conn) == if FindLink(links, conn) < |links| then FindLink(links, conn) else if l.conn == conn then |links| else |links| + 1
  {
    var t := links + [l];
    assert t[|links|] == l && forall j :: 0 <= j < |links| ==> t[j] == links[j];
  }

  lemma IndKeeps(s: Server, n: Note, conn: u16, connId: u8, st: Stack)
    requires Known(s, conn, connId) && (n.conn == conn ==> n.connId == connId)
    ensures
      var r := Send(s, n, true, true, st).0;
      Known(r, conn, connId) &&
      AcceptedOn(r, conn) == AcceptedOn(s, conn) +
        if n.conn == conn && TakesInd(RecordOf(s, conn, n.connId), s, st) then [n.item] else []
  {
    hide Send, TakesInd;
    IndTaken(s, n, st);
    var r := Send(s, n, true, true, st).0;
    var i := FindLink(s.links, n.conn);
    if i == |s.links| { FoundBefore(s.links, r.links[i], conn); assert r.links == s.links + [r.links[i]]; } else { SameFound(s.links, r.links, conn); }
    if i == |s.links| && n.conn != conn { FoundBefore(s.links, r.links[i], conn); }
  }

  lemma {:induction false} StepKeepsTaken(s: Server, e: Event, conn: u16, connId: u8, st: Stack)
    requires Known(s, conn, connId) && StaysOpen([e], conn, connId)
    ensures
      Known(Step(s, e, st), conn, connId) &&
      AcceptedOn(Step(s, e, st), conn) == AcceptedOn(s, conn) +
        if e.Sent? && e.reachable && e.indicates && e.note.conn == conn && TakesInd(RecordOf(s, conn, e.note.connId), s, st)
        then [e.note.item] else []
  {
    hide Send, Cmpl, Without, TakesInd, Known, AcceptedOn;
    assert e in [e];
    assert AcceptedOn(s, conn) + [] == AcceptedOn(s, conn);
    match e
    case Sent(n, reachable, indicates) => SendKeeps(s, n, reachable, indicates, conn, connId, st);
    case Done(c, cid, svc, attr, confirms) => CmplKeeps(s, c, cid, svc, attr, confirms, conn, connId, st);
    case BearersGone(c) => WithoutKeeps(s, FindLink(s.links, c), conn, connId, Step(s, e, st));
    case Disconnected(id) => WithoutKeeps(s, FindConnId(s.links, id), conn, connId, Step(s, e, st));
  }

  lemma CmplKeeps(s: Server, c: u16, cid: u16, svc: u8, attr: u16, confirms: bool, conn: u16, connId: u8, st: Stack)
    requires Known(s, conn, connId)
    ensures var r := Cmpl(s, c, cid, svc, attr, confirms, st).0;
      Known(r, conn, connId) && AcceptedOn(r, conn) == AcceptedOn(s, conn)
  {
    hide Drain, Known, AcceptedOn, Frees;
    var h := HandleInd(s, c, cid, svc, attr, confirms, st).0;
    DrainLinks(h.(polls := h.polls + 1), st.credits(h.polls), st);
    var r := Cmpl(s, c, cid, svc, attr, confirms, st).0;
    assert SameRecords(s, r, conn);
    RecordsKeep(s, r, conn, connId);
  }

  /** Dropping the record of another link. */
  lemma WithoutKeeps(s: Server, i: nat, conn: u16, connId: u8, n: Server)
    requires Known(s, conn, connId) && n.links == Without(s.links, i)
    requires i < |s.links| ==> s.links[i].conn != conn || s.links[i].connId != connId
    ensures Known(n, conn, connId) && AcceptedOn(n, conn) == AcceptedOn(s, conn)
  {
    if i < |s.links| {
      assert forall k :: 0 <= k < |n.links| ==> n.links[k] == s.links[if k < i then k else k + 1];
      var f := FindLink(s.links, conn);
      var g := FindLink(n.links, conn);
      if f < |s.links| {
        assert n.links[if f < i then f else f - 1] == s.links[f];
      }
    }
  }

  lemma {:induction false} RunTakes(s: Server, es: seq<Event>, conn: u16, connId: u8, st: Stack)
    requires Known(s, conn, connId) && StaysOpen(es, conn, connId)
    ensures AcceptedOn(Run(s, es, st), conn) == AcceptedOn(s, conn) + TakenInds(s, es, conn, st)
    decreases |es|
  {
    hide Step, TakesInd, Known, AcceptedOn;
    if es != [] {
      assert es[0] in es;
      StepKeepsTaken(s, es[0], conn, connId, st);
      RunTakes(Step(s, es[0], st), es[1..], conn, connId, st);
    }
  }

  /** The indication theorem: over every run in which a link stays open, the indications offered to it
      and taken are those handed over followed by those waiting, in order. */
  lemma IndicationsTaken(es: seq<Event>, conn: u16, connId: u8, st: Stack)
    requires LegalRun(es) && StaysOpen(es, conn, connId)
    ensures
      var r := Run(EMPTY, es, st);
      var i := FindLink(r.links, conn);
      if i == |r.links| then TakenInds(EMPTY, es, conn, st) == []
      else TakenInds(EMPTY, es, conn, st) == HandedItems(r.links[i].seen) + r.links[i].queue
  {
    hide Run, TakenInds, StopAndWait, Tracks, HandedItems;
    RunTakes(EMPTY, es, conn, connId, st);
    RunLinks(EMPTY, es, st);
  }
}
