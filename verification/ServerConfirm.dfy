/** Are indications separated by their own confirmations?  The stack reports completions of
    indications and of notifications alike, so the code can take one for the other. */
module ServerConfirm {
  import opened Widths
  import opened ServerQueues
  import opened ServerOrder

  // ----- One link's trace -----

  /** The event is the completion of the indication itself. */
  predicate Confirms(x: Seen, i: Item) { Ends(x, i) && x.confirms }

  /** Between two indications handed to the stack the first one is confirmed. */
  ghost predicate Confirmed(seen: seq<Seen>) {
    forall i, j :: 0 <= i < j < |seen| && seen[i].Handed? && seen[j].Handed? ==>
      exists k :: i < k < j && Confirms(seen[k], seen[i].item)
  }

  /** The indication handed over at p is the last one, and nothing has confirmed it. */
  ghost predicate AwaitsAt(seen: seq<Seen>, p: nat) {
    p < |seen| && seen[p].Handed? &&
    forall k :: p < k < |seen| ==> !seen[k].Handed? && !Confirms(seen[k], seen[p].item)
  }

  ghost predicate Awaits(seen: seq<Seen>) { exists p: nat :: AwaitsAt(seen, p) }

  lemma ConfirmedPrefix(seen: seq<Seen>, x: Seen)
    requires Confirmed(seen + [x])
    ensures Confirmed(seen)
  {
    var t := seen + [x];
    forall i, j | 0 <= i < j < |seen| && seen[i].Handed? && seen[j].Handed?
      ensures exists k :: i < k < j && Confirms(seen[k], seen[i].item)
    {
      assert t[i] == seen[i] && t[j] == seen[j];
      var k :| i < k < j && Confirms(t[k], t[i].item);
      assert seen[k] == t[k];
    }
  }

  lemma ConfirmedSaw(seen: seq<Seen>, x: Seen)
    requires x.Completed?
    ensures Confirmed(seen + [x]) <==> Confirmed(seen)
  {
    var t := seen + [x];
    if Confirmed(t) { ConfirmedPrefix(seen, x); }
    if Confirmed(seen) {
      forall i, j | 0 <= i < j < |t| && t[i].Handed? && t[j].Handed?
        ensures exists k :: i < k < j && Confirms(t[k], t[i].item)
      {
        assert t[i] == seen[i] && t[j] == seen[j];
        var k :| i < k < j && Confirms(seen[k], seen[i].item);
        assert t[k] == seen[k];
      }
    }
  }

  /** The last indication before n. */
  function LastBefore(seen: seq<Seen>, n: nat): (p: int)
    requires n <= |seen|
    ensures -1 <= p < n && (p >= 0 ==> seen[p].Handed?) && forall k :: p < k < n ==> !seen[k].Handed?
  {
    if n == 0 then -1 else if seen[n-1].Handed? then n - 1 else LastBefore(seen, n - 1)
  }

  /** Every indication handed over is confirmed unless it is the last one and awaits it. */
  lemma ConfirmedSoFar(seen: seq<Seen>, i: nat)
    requires Confirmed(seen) && !Awaits(seen) && i < |seen| && seen[i].Handed?
    ensures exists k :: i < k < |seen| && Confirms(seen[k], seen[i].item)
  {
    var p := LastBefore(seen, |seen|);
    if i < p {
      var k :| i < k < p && Confirms(seen[k], seen[i].item);
    } else {
      assert !AwaitsAt(seen, i);
    }
  }

  /** Handing over keeps the separation exactly when nothing awaits its confirmation. */
  lemma ConfirmedHand(seen: seq<Seen>, x: Seen)
    requires x.Handed?
    ensures Confirmed(seen + [x]) <==> Confirmed(seen) && !Awaits(seen)
  {
    var t, n := seen + [x], |seen|;
    if Confirmed(t) {
      ConfirmedPrefix(seen, x);
      forall p: nat ensures !AwaitsAt(seen, p) {
        if p < n && seen[p].Handed? {
          assert t[p] == seen[p] && t[n] == x;
          var k :| p < k < n && Confirms(t[k], t[p].item);
          assert seen[k] == t[k];
        }
      }
    }
    if Confirmed(seen) && !Awaits(seen) {
      forall i, j | 0 <= i < j < |t| && t[i].Handed? && t[j].Handed?
        ensures exists k :: i < k < j && Confirms(t[k], t[i].item)
      {
        assert t[i] == seen[i];
        if j < n {
          assert t[j] == seen[j];
          var k :| i < k < j && Confirms(seen[k], seen[i].item);
          assert t[k] == seen[k];
        } else {
          ConfirmedSoFar(seen, i);
          var k :| i < k < n && Confirms(seen[k], seen[i].item);
          assert t[k] == seen[k];
        }
      }
    }
  }

  // ----- Handing over too early -----

  /** Sending hands the indication over at once. */
  predicate HandsNow(l: IndLink, credit: u8, ok: bool) {
    credit != 0 && l.queue == [] && l.complete && ok
  }

  /** A completion hands the next indication over. */
  predicate HandsNext(l: IndLink, svc: u8, attr: u16, credit: u8, ok: bool) {
    Frees(l, svc, attr) && l.queue != [] && credit != 0 && ok
  }

  lemma IndicateConfirmed(l: IndLink, cid: u16, i: Item, credit: u8, ok: bool)
    ensures Confirmed(Indicate(l, cid, i, credit, ok).seen) <==>
      Confirmed(l.seen) && !(HandsNow(l, credit, ok) && Awaits(l.seen))
  {
    hide Confirmed, Awaits;
    ConfirmedHand(l.seen, Handed(cid, i));
  }

  lemma CompleteConfirmed(l: IndLink, cid: u16, svc: u8, attr: u16, confirms: bool, credit: u8, ok: bool)
    ensures Confirmed(Complete(l, cid, svc, attr, confirms, credit, ok).seen) <==>
      Confirmed(l.seen) && !(HandsNext(l, svc, attr, credit, ok) && Awaits(Saw(l, svc, attr, confirms).seen))
  {
    hide Confirmed, Awaits, Frees;
    var seen := Saw(l, svc, attr, confirms).seen;
    ConfirmedSaw(l.seen, Completed(svc, attr, confirms));
    if l.queue != [] { ConfirmedHand(seen, Handed(cid, l.queue[0])); }
  }

  ghost predicate AllConfirmed(links: seq<IndLink>) {
    forall i :: 0 <= i < |links| ==> Confirmed(links[i].seen)
  }

  /** The step hands an indication over while the one before it awaits its confirmation. */
  ghost predicate Overtakes(s: Server, e: Event, st: Stack) {
    match e
    case Sent(n, reachable, indicates) =>
      var t := Ensure(s, n.conn, n.connId);
      var l := t.links[FindLink(t.links, n.conn)];
      reachable && indicates && HandsNow(l, st.credits(t.polls), st.accept(t.tries)) && Awaits(l.seen)
    case Done(conn, _, svc, attr, confirms) =>
      var i := FindLink(s.links, conn);
      i < |s.links| && HandsNext(s.links[i], svc, attr, st.credits(s.polls), st.accept(s.tries)) &&
      Awaits(Saw(s.links[i], svc, attr, confirms).seen)
    case _ => false
  }

  lemma AllPut(links: seq<IndLink>, i: nat, l: IndLink)
    requires AllConfirmed(links) && i < |links|
    ensures AllConfirmed(links[i := l]) <==> Confirmed(l.seen)
  {
    hide Confirmed;
    var t := links[i := l];
    assert t[i] == l && forall j :: 0 <= j < |links| && j != i ==> t[j] == links[j];
  }

  lemma AllAt(links: seq<IndLink>, i: nat)
    requires AllConfirmed(links) && i < |links|
    ensures Confirmed(links[i].seen)
  {
    hide Confirmed;
  }

  lemma AllWithout(links: seq<IndLink>, i: nat)
    requires AllConfirmed(links)
    ensures AllConfirmed(Without(links, i))
  {
    hide Confirmed;
  }

  lemma AllEnsured(s: Server, conn: u16, connId: u8)
    requires AllConfirmed(s.links)
    ensures AllConfirmed(Ensure(s, conn, connId).links)
  {
    assert Confirmed(NewLink(conn, connId).seen);
    hide Confirmed;
  }

  lemma StepConfirmed(s: Server, e: Event, st: Stack)
    requires AllConfirmed(s.links)
    ensures AllConfirmed(Step(s, e, st).links) <==> !Overtakes(s, e, st)
  {
    hide AllConfirmed, Confirmed, Awaits, Indicate, Complete, Ensure, Notify, Without, HandleNotes, Drain, Frees;
    match e
    case Sent(n, reachable, indicates) =>
      AllEnsured(s, n.conn, n.connId);
      var t := Ensure(s, n.conn, n.connId);
      var i, credit, ok := FindLink(t.links, n.conn), st.credits(t.polls), st.accept(t.tries);
      AllAt(t.links, i);
      IndicateConfirmed(t.links[i], n.cid, n.item, credit, ok);
      AllPut(t.links, i, Indicate(t.links[i], n.cid, n.item, credit, ok));
      NotifyLinks(t.(polls := t.polls + 1), n, credit, st);
    case Done(conn, cid, svc, attr, confirms) =>
      var h := HandleInd(s, conn, cid, svc, attr, confirms, st).0;
      NotesLinks(h, st);
      var i := FindLink(s.links, conn);
      if i < |s.links| {
        AllAt(s.links, i);
        CompleteConfirmed(s.links[i], cid, svc, attr, confirms, st.credits(s.polls), st.accept(s.tries));
        AllPut(s.links, i, Complete(s.links[i], cid, svc, attr, confirms, st.credits(s.polls), st.accept(s.tries)));
      }
    case BearersGone(conn) => AllWithout(s.links, FindLink(s.links, conn));
    case Disconnected(connId) => AllWithout(s.links, FindConnId(s.links, connId));
  }

  lemma NotesLinks(s: Server, st: Stack)
    ensures HandleNotes(s, st).0.links == s.links
  {
    hide Drain;
    DrainLinks(s.(polls := s.polls + 1), st.credits(s.polls), st);
  }

  // ----- How a link comes to be free too early -----

  /** The record shows no outstanding indication although the last one awaits its confirmation. */
  ghost predicate FreeEarly(l: IndLink) { l.complete && Awaits(l.seen) }

  /** A notification's completion that carries the pair of the outstanding indication. */
  predicate Mistaken(l: IndLink, svc: u8, attr: u16, confirms: bool) {
    !l.complete && l.svc == svc && l.attr == attr && !confirms
  }

  lemma OutstandingAwaits(l: IndLink, p: nat)
    requires Outstanding(l, p)
    ensures AwaitsAt(l.seen, p)
  {
  }

  lemma AwaitsSaw(seen: seq<Seen>, p: nat, x: Seen)
    requires AwaitsAt(seen, p) && x.Completed?
    ensures if Confirms(x, seen[p].item) then !Awaits(seen + [x]) else AwaitsAt(seen + [x], p)
  {
    var t := seen + [x];
    assert t[p] == seen[p] && t[|seen|] == x;
    if Confirms(x, seen[p].item) {
      forall q: nat ensures !AwaitsAt(t, q) {
        if q < |seen| && q != p { assert t[q] == seen[q]; }
      }
    }
  }

  lemma NothingAwaited(seen: seq<Seen>, x: Seen)
    requires !Awaits(seen) && x.Completed?
    ensures !Awaits(seen + [x])
  {
    var t := seen + [x];
    forall q: nat ensures !AwaitsAt(t, q) {
      assert !AwaitsAt(seen, q);
      if q < |seen| && seen[q].Handed? {
        var k :| q < k < |seen| && (seen[k].Handed? || Confirms(seen[k], seen[q].item));
        assert t[k] == seen[k] && t[q] == seen[q];
      }
    }
  }

  /** A completion leaves a link free too early exactly when it hands nothing over and either is
      mistaken for the outstanding indication's, or finds the link free too early and does not
      confirm. */
  lemma CompleteFreesEarly(l: IndLink, cid: u16, svc: u8, attr: u16, confirms: bool, credit: u8, ok: bool)
    requires LinkOk(l)
    ensures
      var c := Complete(l, cid, svc, attr, confirms, credit, ok);
      FreeEarly(c) <==>
        !HandsNext(l, svc, attr, credit, ok) &&
        (Mistaken(l, svc, attr, confirms) || (FreeEarly(l) && Awaits(Saw(l, svc, attr, confirms).seen)))
  {
    hide StopAndWait, HandedItems;
    var x := Completed(svc, attr, confirms);
    if l.complete {
      if !Awaits(l.seen) { NothingAwaited(l.seen, x); }
    } else {
      var p: nat :| Outstanding(l, p);
      OutstandingAwaits(l, p);
      AwaitsSaw(l.seen, p, x);
    }
  }

  // ----- What a link owes, without its trace -----

  /** What a free link still owes: nothing, or the confirmation of an indication of this service and
      attribute. */
  datatype Owed = Nothing | Owes(svc: u8, attr: u16)

  /** A mistaken completion that hands nothing over makes the link owe a confirmation.  Handing over and
      that confirmation clear it. */
  function OwedNext(l: IndLink, o: Owed, svc: u8, attr: u16, confirms: bool, credit: u8, ok: bool): Owed {
    if HandsNext(l, svc, attr, credit, ok) then Nothing
    else if Mistaken(l, svc, attr, confirms) then Owes(svc, attr)
    else if confirms && o == Owes(svc, attr) then Nothing
    else o
  }

  /** What each link owes after the event, from the records before it. */
  function OwedStep(s: Server, owed: seq<Owed>, e: Event, st: Stack): (r: seq<Owed>)
    requires |owed| == |s.links|
  {
    match e
    case Sent(n, reachable, indicates) =>
      if !reachable then owed
      else
        var t := Ensure(s, n.conn, n.connId);
        var i := FindLink(t.links, n.conn);
        var o := if |t.links| > |s.links| then owed + [Nothing] else owed;
        if indicates && HandsNow(t.links[i], st.credits(t.polls), st.accept(t.tries)) then o[i := Nothing] else o
    case Done(conn, _, svc, attr, confirms) =>
      var i := FindLink(s.links, conn);
      if i == |s.links| then owed
      else owed[i := OwedNext(s.links[i], owed[i], svc, attr, confirms, st.credits(s.polls), st.accept(s.tries))]
    case BearersGone(conn) => Without(owed, FindLink(s.links, conn))
    case Disconnected(connId) => Without(owed, FindConnId(s.links, connId))
  }

  /** The step hands an indication over on a link that owes a confirmation, other than by that very
      confirmation, or by a mistaken completion. */
  predicate HandsEarly(s: Server, owed: seq<Owed>, e: Event, st: Stack)
    requires |owed| == |s.links|
  {
    match e
    case Sent(n, reachable, indicates) =>
      var i := FindLink(s.links, n.conn);
      reachable && indicates && i < |s.links| && owed[i] != Nothing &&
      HandsNow(s.links[i], st.credits(s.polls), st.accept(s.tries))
    case Done(conn, _, svc, attr, confirms) =>
      var i := FindLink(s.links, conn);
      i < |s.links| && HandsNext(s.links[i], svc, attr, st.credits(s.polls), st.accept(s.tries)) &&
      (Mistaken(s.links[i], svc, attr, confirms) ||
       (owed[i] != Nothing && !(confirms && owed[i] == Owes(svc, attr))))
    case _ => false
  }

  /** The last indication of this pair awaits its confirmation, or none does. */
  ghost predicate Awaited(seen: seq<Seen>, o: Owed) {
    if o == Nothing then !Awaits(seen)
    else exists p: nat :: AwaitsAt(seen, p) && seen[p].item.svc == o.svc && seen[p].item.attr == o.attr
  }

  /** The record and what the link owes say what its trace awaits. */
  ghost predicate Marked(l: IndLink, o: Owed) {
    if l.complete then l.svc == NO_SERVICE && Awaited(l.seen, o)
    else o == Nothing && Awaited(l.seen, Owes(l.svc, l.attr))
  }

  lemma AwaitedOnce(seen: seq<Seen>, o: Owed)
    requires Awaited(seen, o)
    ensures Awaits(seen) <==> o != Nothing
  {
  }

  lemma AwaitedSaw(seen: seq<Seen>, o: Owed, svc: u8, attr: u16, confirms: bool)
    requires Awaited(seen, o)
    ensures Awaited(seen + [Completed(svc, attr, confirms)], if confirms && o == Owes(svc, attr) then Nothing else o)
  {
    var x := Completed(svc, attr, confirms);
    if o == Nothing {
      NothingAwaited(seen, x);
    } else {
      var p: nat :| AwaitsAt(seen, p) && seen[p].item.svc == o.svc && seen[p].item.attr == o.attr;
      AwaitsSaw(seen, p, x);
      assert (seen + [x])[p] == seen[p];
    }
  }

  lemma AwaitedHand(seen: seq<Seen>, cid: u16, i: Item)
    ensures Awaited(seen + [Handed(cid, i)], Owes(i.svc, i.attr))
  {
    assert AwaitsAt(seen + [Handed(cid, i)], |seen|);
  }

  lemma IndicateMarked(l: IndLink, o: Owed, cid: u16, i: Item, credit: u8, ok: bool)
    requires Marked(l, o)
    ensures Marked(Indicate(l, cid, i, credit, ok), if HandsNow(l, credit, ok) then Nothing else o)
    ensures FreeEarly(l) <==> o != Nothing
  {
    hide Awaited, Awaits;
    AwaitedHand(l.seen, cid, i);
    if l.complete { AwaitedOnce(l.seen, o); }
  }

  /** A completion keeps the mark, and overtakes exactly when it is mistaken or the link owes another
      confirmation than the one it brings. */
  lemma CompleteMarked(l: IndLink, o: Owed, cid: u16, svc: u8, attr: u16, confirms: bool, credit: u8, ok: bool)
    requires Marked(l, o)
    ensures Marked(Complete(l, cid, svc, attr, confirms, credit, ok), OwedNext(l, o, svc, attr, confirms, credit, ok))
    ensures Frees(l, svc, attr) ==>
      (Awaits(Saw(l, svc, attr, confirms).seen) <==>
        Mistaken(l, svc, attr, confirms) || (o != Nothing && !(confirms && o == Owes(svc, attr))))
  {
    hide Awaited, Awaits;
    var before := if l.complete then o else Owes(l.svc, l.attr);
    var after := if confirms && before == Owes(svc, attr) then Nothing else before;
    var w := Saw(l, svc, attr, confirms);
    AwaitedSaw(l.seen, before, svc, attr, confirms);
    AwaitedOnce(w.seen, after);
    if HandsNext(l, svc, attr, credit, ok) {
      AwaitedHand(w.seen, cid, l.queue[0]);
    }
  }

  // ----- All links -----

  ghost predicate AllMarked(links: seq<IndLink>, owed: seq<Owed>) {
    |owed| == |links| && forall i :: 0 <= i < |links| ==> Marked(links[i], owed[i])
  }

  lemma MarkedWithout(links: seq<IndLink>, owed: seq<Owed>, i: nat)
    requires AllMarked(links, owed)
    ensures AllMarked(Without(links, i), Without(owed, i))
  {
    hide Marked;
  }

  lemma MarkedPut(links: seq<IndLink>, owed: seq<Owed>, i: nat, l: IndLink, o: Owed)
    requires AllMarked(links, owed) && i < |links| && Marked(l, o)
    ensures AllMarked(links[i := l], owed[i := o])
  {
    hide Marked;
  }

  lemma MarkedAt(links: seq<IndLink>, owed: seq<Owed>, i: nat)
    requires AllMarked(links, owed) && i < |links|
    ensures Marked(links[i], owed[i])
  {
    hide Marked;
  }

  lemma MarkedNew(links: seq<IndLink>, owed: seq<Owed>, conn: u16, connId: u8)
    requires AllMarked(links, owed)
    ensures AllMarked(links + [NewLink(conn, connId)], owed + [Nothing])
  {
    assert !Awaits([]);
    assert Marked(NewLink(conn, connId), Nothing);
    hide Marked;
  }

  /** One step keeps the marks, and overtakes exactly when it hands over early by them. */
  lemma StepMarked(s: Server, owed: seq<Owed>, e: Event, st: Stack)
    requires AllMarked(s.links, owed)
    ensures AllMarked(Step(s, e, st).links, OwedStep(s, owed, e, st))
    ensures Overtakes(s, e, st) <==> HandsEarly(s, owed, e, st)
  {
    hide AllMarked, Marked, Awaits, Indicate, Complete, OwedNext, Mistaken, Notify, Without, HandleNotes, Drain, Frees;
    assert |owed| == |s.links| by { MarkedLength(s.links, owed); }
    match e
    case Sent(n, reachable, indicates) => SendMarked(s, owed, n, reachable, indicates, st);
    case Done(conn, cid, svc, attr, confirms) =>
      NotesLinks(HandleInd(s, conn, cid, svc, attr, confirms, st).0, st);
      var i := FindLink(s.links, conn);
      if i < |s.links| {
        var l, credit, ok := s.links[i], st.credits(s.polls), st.accept(s.tries);
        MarkedAt(s.links, owed, i);
        CompleteMarked(l, owed[i], cid, svc, attr, confirms, credit, ok);
        MarkedPut(s.links, owed, i, Complete(l, cid, svc, attr, confirms, credit, ok),
          OwedNext(l, owed[i], svc, attr, confirms, credit, ok));
      }
    case BearersGone(conn) => MarkedWithout(s.links, owed, FindLink(s.links, conn));
    case Disconnected(connId) => MarkedWithout(s.links, owed, FindConnId(s.links, connId));
  }

  lemma MarkedLength(links: seq<IndLink>, owed: seq<Owed>)
    requires AllMarked(links, owed)
    ensures |owed| == |links|
  {
  }

  lemma SendMarked(s: Server, owed: seq<Owed>, n: Note, reachable: bool, indicates: bool, st: Stack)
    requires AllMarked(s.links, owed) && |owed| == |s.links|
    ensures
      var e := Sent(n, reachable, indicates);
      AllMarked(Step(s, e, st).links, OwedStep(s, owed, e, st)) && (Overtakes(s, e, st) <==> HandsEarly(s, owed, e, st))
  {
    hide AllMarked, Marked, Awaits, Indicate, Notify;
    var t := Ensure(s, n.conn, n.connId);
    var o := if |t.links| > |s.links| then owed + [Nothing] else owed;
    MarkedNew(s.links, owed, n.conn, n.connId);
    assert |o| == |t.links|;
    var i, credit, ok := FindLink(t.links, n.conn), st.credits(t.polls), st.accept(t.tries);
    MarkedAt(t.links, o, i);
    IndicateMarked(t.links[i], o[i], n.cid, n.item, credit, ok);
    var p := if HandsNow(t.links[i], credit, ok) then Nothing else o[i];
    MarkedPut(t.links, o, i, Indicate(t.links[i], n.cid, n.item, credit, ok), p);
    assert o[i := o[i]] == o;
    NotifyLinks(t.(polls := t.polls + 1), n, credit, st);
  }

  // ----- Whole runs -----

  predicate NeverHandsEarly(s: Server, owed: seq<Owed>, es: seq<Event>, st: Stack)
    requires |owed| == |s.links|
    decreases |es|
  {
    es == [] ||
    (!HandsEarly(s, owed, es[0], st) &&
     (OwedStepLength(s, owed, es[0], st);
      NeverHandsEarly(Step(s, es[0], st), OwedStep(s, owed, es[0], st), es[1..], st)))
  }

  ghost predicate AlwaysConfirmed(s: Server, es: seq<Event>, st: Stack)
    decreases |es|
  {
    AllConfirmed(s.links) && (es == [] || AlwaysConfirmed(Step(s, es[0], st), es[1..], st))
  }

  lemma OwedStepLength(s: Server, owed: seq<Owed>, e: Event, st: Stack)
    requires |owed| == |s.links|
    ensures |OwedStep(s, owed, e, st)| == |Step(s, e, st).links|
  {
    hide Indicate, Complete, Notify, HandleNotes, Drain, Frees;
    match e
    case Sent(n, reachable, indicates) =>
      var t := Ensure(s, n.conn, n.connId);
      NotifyLinks(t.(polls := t.polls + 1), n, st.credits(t.polls), st);
    case Done(conn, cid, svc, attr, confirms) =>
      NotesLinks(HandleInd(s, conn, cid, svc, attr, confirms, st).0, st);
    case _ =>
  }

  lemma {:induction false} RunConfirmed(s: Server, owed: seq<Owed>, es: seq<Event>, st: Stack)
    requires AllConfirmed(s.links) && AllMarked(s.links, owed) && |owed| == |s.links|
    ensures AlwaysConfirmed(s, es, st) <==> NeverHandsEarly(s, owed, es, st)
    decreases |es|
  {
    hide AllConfirmed, AllMarked, Overtakes, HandsEarly, OwedStep, Step;
    if es != [] {
      var n := Step(s, es[0], st);
      StepConfirmed(s, es[0], st);
      StepMarked(s, owed, es[0], st);
      OwedStepLength(s, owed, es[0], st);
      if AllConfirmed(n.links) {
        RunConfirmed(n, OwedStep(s, owed, es[0], st), es[1..], st);
      } else {
        NotConfirmed(n, es[1..], st);
      }
    }
  }

  lemma NotConfirmed(s: Server, es: seq<Event>, st: Stack)
    requires !AllConfirmed(s.links)
    ensures !AlwaysConfirmed(s, es, st)
  {
  }

  /** The confirmation theorem, over every run: handed indications are separated by their own
      confirmations, on every link in every state, exactly when no mistaken completion hands one over
      and none is handed over on a link that a mistaken completion freed and whose own confirmation is
      still to come. */
  lemma IndicationsConfirmed(es: seq<Event>, st: Stack)
    ensures AlwaysConfirmed(EMPTY, es, st) <==> NeverHandsEarly(EMPTY, [], es, st)
  {
    RunConfirmed(EMPTY, [], es, st);
  }

  /** No completion of a notification carries the pair of an outstanding indication. */
  predicate NeverMistaken(s: Server, es: seq<Event>, st: Stack)
    decreases |es|
  {
    es == [] ||
    (!(es[0].Done? && var i := FindLink(s.links, es[0].conn);
       i < |s.links| && Mistaken(s.links[i], es[0].svc, es[0].attr, es[0].confirms)) &&
     NeverMistaken(Step(s, es[0], st), es[1..], st))
  }

  predicate NothingOwed(owed: seq<Owed>) {
    forall i :: 0 <= i < |owed| ==> owed[i] == Nothing
  }

  lemma StepOwesNothing(s: Server, owed: seq<Owed>, e: Event, st: Stack)
    requires |owed| == |s.links| && NothingOwed(owed)
    requires e.Done? ==> var i := FindLink(s.links, e.conn);
      i < |s.links| ==> !Mistaken(s.links[i], e.svc, e.attr, e.confirms)
    ensures NothingOwed(OwedStep(s, owed, e, st)) && !HandsEarly(s, owed, e, st)
  {
    hide Mistaken, HandsNow, HandsNext;
  }

  lemma {:induction false} RunUnmistaken(s: Server, owed: seq<Owed>, es: seq<Event>, st: Stack)
    requires |owed| == |s.links| && NothingOwed(owed) && NeverMistaken(s, es, st)
    ensures NeverHandsEarly(s, owed, es, st)
    decreases |es|
  {
    hide Step, OwedStep, HandsEarly, NothingOwed;
    if es != [] {
      OwedStepLength(s, owed, es[0], st);
      StepOwesNothing(s, owed, es[0], st);
      RunUnmistaken(Step(s, es[0], st), OwedStep(s, owed, es[0], st), es[1..], st);
    }
  }

  /** As long as no notification's completion carries the pair of an outstanding indication, the code
      is stop-and-wait by confirmation. */
  lemma UnmistakenConfirmed(es: seq<Event>, st: Stack)
    requires NeverMistaken(EMPTY, es, st)
    ensures AlwaysConfirmed(EMPTY, es, st)
  {
    RunUnmistaken(EMPTY, [], es, st);
    IndicationsConfirmed(es, st);
  }

  /** And otherwise it need not be: an indication, a notification of the same attribute, another
      indication, and the notification's completion, for any attributes and data. */
  lemma MistakenRun(conn: u16, connId: u8, cid: u16, a: Item, n: seq<u8>, b: Item)
    requires a.svc != NO_SERVICE && b.svc != NO_SERVICE
    ensures
      var st := Stack(k => true, k => 1);
      var es := [Sent(Note(conn, cid, connId, a), true, true), Sent(Note(conn, cid, connId, a.(data := n)), true, false),
                 Sent(Note(conn, cid, connId, b), true, true), Done(conn, cid, a.svc, a.attr, false)];
      var r := Run(EMPTY, es, st);
      LegalRun(es) && |r.links| == 1 && r.sent == [Note(conn, cid, connId, a.(data := n))] &&
      r.links[0].seen == [Handed(cid, a), Completed(a.svc, a.attr, false), Handed(cid, b)] &&
      !Confirmed(r.links[0].seen) && !AlwaysConfirmed(EMPTY, es, st)
  {
    var st := Stack(k => true, k => 1);
    var x, y := Note(conn, cid, connId, a.(data := n)), Note(conn, cid, connId, b);
    var e0, e1, e2 := Sent(Note(conn, cid, connId, a), true, true), Sent(x, true, false), Sent(y, true, true);
    var e3 := Done(conn, cid, a.svc, a.attr, false);
    FirstSent(conn, cid, connId, a, st);
    var l := IndLink(conn, connId, false, a.svc, a.attr, [], [a], [Handed(cid, a)]);
    NoteSent(l, x, st);
    SecondWaits(l, x, y, st);
    var m := l.(queue := [b], accepted := [a, b]);
    NoteDone(m, cid, a, b, x, st);
    RunFour(e0, e1, e2, e3, st);
    NotConfirmedBetween(cid, a, b);
    AlwaysAtEnd(EMPTY, [e0, e1, e2, e3], st);
  }

  lemma NotConfirmedBetween(cid: u16, a: Item, b: Item)
    ensures !Confirmed([Handed(cid, a), Completed(a.svc, a.attr, false), Handed(cid, b)])
  {
    var seen := [Handed(cid, a), Completed(a.svc, a.attr, false), Handed(cid, b)];
    assert seen[0].Handed? && seen[2].Handed? && !Confirms(seen[1], seen[0].item);
  }

  lemma NoteSent(l: IndLink, x: Note, st: Stack)
    requires l.conn == x.conn && st.credits(1) != 0 && st.accept(1)
    ensures Step(Server([l], [], 1, 1, [], []), Sent(x, true, false), st) == Server([l], [], 2, 2, [x], [x])
  {
    assert FindLink([l], x.conn) == 0;
  }

  lemma SecondWaits(l: IndLink, x: Note, y: Note, st: Stack)
    requires l.conn == y.conn && !l.complete
    ensures Step(Server([l], [], 2, 2, [x], [x]), Sent(y, true, true), st) ==
      Server([l.(queue := l.queue + [y.item], accepted := l.accepted + [y.item])], [], 3, 2, [x], [x])
  {
    assert FindLink([l], y.conn) == 0;
  }

  lemma NoteDone(m: IndLink, cid: u16, a: Item, b: Item, x: Note, st: Stack)
    requires m.svc == a.svc && m.attr == a.attr && m.queue == [b] && m.seen == [Handed(cid, a)]
    requires st.credits(3) != 0 && st.accept(2)
    ensures
      var r := Step(Server([m], [], 3, 2, [x], [x]), Done(m.conn, cid, a.svc, a.attr, false), st);
      |r.links| == 1 && r.sent == [x] &&
      r.links[0].seen == [Handed(cid, a), Completed(a.svc, a.attr, false), Handed(cid, b)]
  {
    var s := Server([m], [], 3, 2, [x], [x]);
    assert FindLink([m], m.conn) == 0;
    var h := HandleInd(s, m.conn, cid, a.svc, a.attr, false, st).0;
    NotesLinks(h, st);
    assert [Handed(cid, a)] + [Completed(a.svc, a.attr, false)] + [Handed(cid, b)] ==
      [Handed(cid, a), Completed(a.svc, a.attr, false), Handed(cid, b)];
  }

  lemma FirstSent(conn: u16, cid: u16, connId: u8, a: Item, st: Stack)
    requires st.credits(0) != 0 && st.accept(0)
    ensures Step(EMPTY, Sent(Note(conn, cid, connId, a), true, true), st) ==
      Server([IndLink(conn, connId, false, a.svc, a.attr, [], [a], [Handed(cid, a)])], [], 1, 1, [], [])
  {
    var e := Ensure(EMPTY, conn, connId);
    assert e.links == [NewLink(conn, connId)];
    assert FindLink(e.links, conn) == 0;
    assert Indicate(NewLink(conn, connId), cid, a, st.credits(0), true) ==
      IndLink(conn, connId, false, a.svc, a.attr, [], [a], [Handed(cid, a)]);
  }

  lemma RunFour(e0: Event, e1: Event, e2: Event, e3: Event, st: Stack)
    ensures Run(EMPTY, [e0, e1, e2, e3], st) == Step(Step(Step(Step(EMPTY, e0, st), e1, st), e2, st), e3, st)
  {
    hide Step;
    RunCons(EMPTY, e0, [e1, e2, e3], st);
    var s1 := Step(EMPTY, e0, st);
    RunCons(s1, e1, [e2, e3], st);
    var s2 := Step(s1, e1, st);
    RunCons(s2, e2, [e3], st);
    RunCons(Step(s2, e2, st), e3, [], st);
  }

  lemma RunCons(s: Server, e: Event, es: seq<Event>, st: Stack)
    ensures Run(s, [e] + es, st) == Run(Step(s, e, st), es, st)
  {
    hide Step;
    assert ([e] + es)[0] == e && ([e] + es)[1..] == es;
  }

  lemma {:induction false} AlwaysAtEnd(s: Server, es: seq<Event>, st: Stack)
    ensures AlwaysConfirmed(s, es, st) ==> AllConfirmed(Run(s, es, st).links)
    decreases |es|
  {
    hide AllConfirmed, Step;
    if es != [] { AlwaysAtEnd(Step(s, es[0], st), es[1..], st); }
  }
}
