/** The GATT server's queues, updated in place.  Every method is proved against ServerQueues.  The lists
    are walked with 8-bit indices, hence the bound of 255 on links, and on the notifications that stay
    when a link closes. */
module GattServer {
  import opened Widths
  import opened ServerQueues
  import Q = ServerQueues

  class Queues {
    var links: seq<IndLink>
    var notes: seq<Note>
    var polls: nat
    var tries: nat
    ghost var accepted: seq<Note>
    ghost var sent: seq<Note>

    constructor ()
      ensures View() == EMPTY
    {
      links, notes, polls, tries, accepted, sent := [], [], 0, 0, [], [];
    }

    ghost function View(): Server
      reads this
    {
      Server(links, notes, polls, tries, accepted, sent)
    }

    method CheckLinkInd(conn: u16) returns (i: nat)
      requires |links| <= 255
      ensures i == FindLink(links, conn)
    {
      i := 0;
      while i < |links|
        invariant i <= |links| && FindLink(links, conn) == i + FindLink(links[i..], conn)
      {
        if links[i].conn == conn {
          return;
        }
        assert links[i..][1..] == links[i+1..];
        i := i + 1;
      }
    }

    method RemainCredits(st: Stack) returns (credit: u8)
      modifies this`polls
      ensures credit == st.credits(old(polls)) && polls == old(polls) + 1
    {
      credit := st.credits(polls);
      polls := polls + 1;
    }

    /** Gives the stack data. */
    method SendNotifyIndData(st: Stack) returns (ok: bool)
      modifies this`tries
      ensures ok == st.accept(old(tries)) && tries == old(tries) + 1
    {
      ok := st.accept(tries);
      tries := tries + 1;
    }

    // ----- Indications -----

    /** confirms is for the trace only. */
    method HandleIndQueue(conn: u16, cid: u16, svc: u8, attr: u16, confirms: bool, st: Stack) returns (r: bool)
      requires |links| <= 255
      modifies this`links, this`polls, this`tries
      ensures (View(), r) == HandleInd(old(View()), conn, cid, svc, attr, confirms, st)
    {
      var i := CheckLinkInd(conn);
      if i == |links| {
        return false;
      }
      var l := Saw(links[i], svc, attr, confirms);
      if (l.svc == svc && l.attr == attr) || (l.complete && l.svc == NO_SERVICE) {
        l := l.(complete := true, svc := NO_SERVICE, attr := 0);
        if l.queue != [] {
          var x := l.queue[0];
          var credit := RemainCredits(st);
          if credit != 0 {
            var ok := SendNotifyIndData(st);
            if ok {
              l := l.(complete := false, svc := x.svc, attr := x.attr, queue := l.queue[1..],
                      seen := l.seen + [Handed(cid, x)]);
            }
            links := links[i := l];
            return ok;
          }
        }
      }
      links := links[i := l];
      return true;
    }

    // ----- Notifications -----

    method HandleNotifyQueue(st: Stack) returns (r: bool)
      modifies this`notes, this`sent, this`polls, this`tries
      ensures (View(), r) == HandleNotes(old(View()), st)
    {
      var credit: nat := RemainCredits(st);
      r := true;
      while credit != 0 && notes != []
        invariant r && Drain(View(), credit, st) == HandleNotes(old(View()), st)
        decreases credit
      {
        var n := notes[0];
        r := SendNotifyIndData(st);
        if !r {
          return;
        }
        credit := credit - 1;
        sent := sent + [n];
        notes := notes[1..];
      }
    }

    method HandleProfileDataCmpl(conn: u16, cid: u16, svc: u8, attr: u16, confirms: bool, st: Stack) returns (r: bool)
      requires |links| <= 255
      modifies this
      ensures (View(), r) == Cmpl(old(View()), conn, cid, svc, attr, confirms, st)
    {
      hide HandleInd, HandleNotes;
      var a := HandleIndQueue(conn, cid, svc, attr, confirms, st);
      var b := HandleNotifyQueue(st);
      r := a && b;
    }

    // ----- Sending -----

    method EnsureLink(conn: u16, connId: u8) returns (i: nat)
      requires |links| <= 255
      modifies this`links
      ensures View() == Ensure(old(View()), conn, connId) && i == FindLink(links, conn) < |links|
    {
      i := CheckLinkInd(conn);
      if i == |links| {
        links := links + [NewLink(conn, connId)];
        FindAppended(old(links), NewLink(conn, connId));
      }
    }

    method SendData(n: Note, reachable: bool, indicates: bool, st: Stack) returns (r: bool)
      requires |links| <= 255
      modifies this
      ensures (View(), r) == Send(old(View()), n, reachable, indicates, st)
    {
      hide Notify, Ensure, Indicate;
      if !reachable {
        return false;
      }
      var i := EnsureLink(n.conn, n.connId);
      var credit := RemainCredits(st);
      if indicates {
        r := SendIndication(i, n, credit, st);
      } else {
        r := SendNotification(n, credit, st);
      }
    }

    method SendIndication(i: nat, n: Note, credit: u8, st: Stack) returns (r: bool)
      requires i < |links|
      modifies this`links, this`tries
      ensures
        var l := old(links)[i];
        var tried := credit != 0 && l.queue == [] && l.complete;
        links == old(links)[i := Indicate(l, n.cid, n.item, credit, st.accept(old(tries)))] &&
        tries == old(tries) + (if tried then 1 else 0) && r == (!tried || st.accept(old(tries)))
    {
      var l := links[i];
      if credit != 0 && l.queue == [] && l.complete {
        r := SendNotifyIndData(st);
        if r {
          links := links[i := Hand(l, n.cid, n.item).(accepted := l.accepted + [n.item])];
        } else {
          links := links[i := l.(complete := true)];
        }
      } else {
        links := links[i := Wait(l, n.item)];
        r := true;
      }
    }

    method SendNotification(n: Note, credit: u8, st: Stack) returns (r: bool)
      modifies this`notes, this`accepted, this`sent, this`polls, this`tries
      ensures (View(), r) == Notify(old(View()), n, credit, st)
    {
      hide HandleNotes;
      if credit != 0 && notes == [] {
        r := SendNotifyIndData(st);
        if r {
          accepted := accepted + [n];
          sent := sent + [n];
        }
      } else {
        notes := notes + [n];
        accepted := accepted + [n];
        r := HandleNotifyQueue(st);
      }
    }

    // ----- Closing a link -----

    /** Frees a record and everything that waits in it. */
    method FreeLink(i: nat)
      requires i < |links|
      modifies this`links
      ensures links == Without(old(links), i)
    {
      while links[i].queue != []
        invariant |links| == |old(links)| && links == old(links)[i := links[i]]
        decreases |links[i].queue|
      {
        links := links[i := links[i].(queue := links[i].queue[1..])];
      }
      links := links[..i] + links[i+1..];
    }

    /** The index stays where it is when the notification under it is deleted, so it only counts those
        that stay. */
    method DeleteNotes(gone: Note -> bool)
      requires |Staying(notes, gone)| <= 255
      modifies this`notes
      ensures notes == Staying(old(notes), gone)
    {
      hide Staying;
      ghost var was := notes;
      ghost var kept: seq<Note> := [];
      ghost var j := 0;
      NoneStaying(gone);
      assert was[..0] == [];
      var i: u8 := 0;
      while i < |notes|
        invariant j <= |was| && kept == Staying(was[..j], gone) && notes == kept + was[j..] && i == |kept|
        decreases |was| - j
      {
        StayingNext(was, j, gone);
        StayingGrows(was, j + 1, gone);
        AtGap(kept, was, j);
        if gone(notes[i]) {
          notes := notes[..i] + notes[i+1..];
        } else {
          kept := kept + [was[j]];
          i := i + 1;
        }
        j := j + 1;
      }
      assert was[..j] == was;
    }

    method ClearSvcDataQueue(conn: u16)
      requires |links| <= 255 && |Staying(notes, OfConn(conn))| <= 255
      modifies this`links, this`notes
      ensures View() == Clear(old(View()), conn)
    {
      var k := CheckLinkInd(conn);
      if k < |links| {
        FreeLink(k);
      }
      DeleteNotes(OfConn(conn));
    }

    method FindByConnId(connId: u8) returns (i: nat)
      requires |links| <= 255
      ensures i == FindConnId(links, connId)
    {
      i := 0;
      while i < |links|
        invariant i <= |links| && FindConnId(links, connId) == i + FindConnId(links[i..], connId)
      {
        if links[i].connId == connId {
          break;
        }
        assert links[i..][1..] == links[i+1..];
        i := i + 1;
      }
    }

    method HandleDisconnected(connId: u8)
      requires |links| <= 255 && |Staying(notes, OfConnId(connId))| <= 255
      modifies this`links, this`notes
      ensures View() == Disconnect(old(View()), connId)
    {
      var k := FindByConnId(connId);
      if k < |links| {
        FreeLink(k);
      }
      DeleteNotes(OfConnId(connId));
    }
  }

  lemma AtGap(kept: seq<Note>, q: seq<Note>, j: nat)
    requires j < |q|
    ensures (kept + q[j..])[|kept|] == q[j]
    ensures (kept + q[j..])[..|kept|] + (kept + q[j..])[|kept|+1..] == kept + q[j+1..]
    ensures kept + q[j..] == kept + [q[j]] + q[j+1..]
  {
  }

  lemma FindAppended(links: seq<IndLink>, l: IndLink)
    requires FindLink(links, l.conn) == |links|
    ensures FindLink(links + [l], l.conn) == |links|
  {
    assert (links + [l])[|links|] == l;
    forall j | 0 <= j < |links| ensures (links + [l])[j].conn != l.conn { assert (links + [l])[j] == links[j]; }
  }

  lemma NoneStaying(gone: Note -> bool)
    ensures Staying([], gone) == []
  {
  }

  lemma {:induction false} StayingNext(q: seq<Note>, i: nat, gone: Note -> bool)
    requires i < |q|
    ensures Staying(q[..i+1], gone) == Staying(q[..i], gone) + if gone(q[i]) then [] else [q[i]]
    decreases i
  {
    if i > 0 {
      StayingNext(q[1..], i - 1, gone);
      assert q[..i+1][1..] == q[1..][..i] && q[..i][1..] == q[1..][..i-1];
    }
  }

  lemma {:induction false} StayingGrows(q: seq<Note>, n: nat, gone: Note -> bool)
    requires n <= |q|
    ensures |Staying(q[..n], gone)| <= |Staying(q, gone)|
    decreases |q| - n
  {
    hide Staying;
    if n < |q| {
      StayingNext(q, n, gone);
      StayingGrows(q, n + 1, gone);
    } else {
      assert q[..n] == q;
    }
  }
}
