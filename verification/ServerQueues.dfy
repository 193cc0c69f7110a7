/** The GATT server's indication and notification queues, as functions of their state. */
module ServerQueues {
  import opened Widths

  const NO_SERVICE: u8 := 0xFF

  datatype Item = Item(svc: u8, attr: u16, data: seq<u8>)

  /** What a link saw: indications handed to the stack and completions reported by it.  confirms tells
      an indication's completion from a notification's; the code is not told. */
  datatype Seen = Handed(cid: u16, item: Item) | Completed(svc: u8, attr: u16, confirms: bool)

  /** One link's indications: whether none is outstanding, the outstanding one, and those waiting.
      accepted and seen are traces that start with the record. */
  datatype IndLink = IndLink(
    conn: u16,
    connId: u8,
    complete: bool,
    svc: u8,
    attr: u16,
    queue: seq<Item>,
    accepted: seq<Item>,
    seen: seq<Seen>)

  datatype Note = Note(conn: u16, cid: u16, connId: u8, item: Item)

  /** polls and tries count the times the stack was asked for its credits and given data; accepted and
      sent are traces of the notifications. */
  datatype Server = Server(
    links: seq<IndLink>,
    notes: seq<Note>,
    polls: nat,
    tries: nat,
    accepted: seq<Note>,
    sent: seq<Note>)

  /** The stack's answers to the n-th data given to it and to the n-th question for credits. */
  datatype Stack = Stack(accept: nat -> bool, credits: nat -> u8)

  /** Index of the link's record, or |links|. */
  function FindLink(links: seq<IndLink>, conn: u16): (i: nat)
    ensures i <= |links|
    ensures i < |links| ==> links[i].conn == conn
    ensures forall j :: 0 <= j < i ==> links[j].conn != conn
  {
    if links == [] || links[0].conn == conn then 0 else 1 + FindLink(links[1..], conn)
  }

  function FindConnId(links: seq<IndLink>, connId: u8): (i: nat)
    ensures i <= |links|
    ensures i < |links| ==> links[i].connId == connId
    ensures forall j :: 0 <= j < i ==> links[j].connId != connId
  {
    if links == [] || links[0].connId == connId then 0 else 1 + FindConnId(links[1..], connId)
  }

  function NewLink(conn: u16, connId: u8): IndLink {
    IndLink(conn, connId, true, NO_SERVICE, 0, [], [], [])
  }

  function Ensure(s: Server, conn: u16, connId: u8): (n: Server)
    ensures FindLink(n.links, conn) < |n.links|
  {
    if FindLink(s.links, conn) < |s.links| then s
    else
      assert (s.links + [NewLink(conn, connId)])[|s.links|].conn == conn;
      s.(links := s.links + [NewLink(conn, connId)])
  }

  // ----- Indications -----

  /** An indication goes to the stack. */
  function Hand(l: IndLink, cid: u16, i: Item): IndLink {
    l.(complete := false, svc := i.svc, attr := i.attr, seen := l.seen + [Handed(cid, i)])
  }

  function Wait(l: IndLink, i: Item): IndLink {
    l.(queue := l.queue + [i], accepted := l.accepted + [i])
  }

  function Indicate(l: IndLink, cid: u16, i: Item, credit: u8, ok: bool): IndLink {
    if credit == 0 || l.queue != [] || !l.complete then Wait(l, i)
    else if ok then Hand(l, cid, i).(accepted := l.accepted + [i])
    else l
  }

  predicate Frees(l: IndLink, svc: u8, attr: u16) {
    (l.svc == svc && l.attr == attr) || (l.complete && l.svc == NO_SERVICE)
  }

  function Free(l: IndLink): IndLink { l.(complete := true, svc := NO_SERVICE, attr := 0) }

  function Saw(l: IndLink, svc: u8, attr: u16, confirms: bool): IndLink {
    l.(seen := l.seen + [Completed(svc, attr, confirms)])
  }

  /** A completion frees the link if it carries the outstanding pair, and then hands over the next
      indication, on the bearer of the completion. */
  function Complete(l: IndLink, cid: u16, svc: u8, attr: u16, confirms: bool, credit: u8, ok: bool): IndLink {
    if !Frees(l, svc, attr) then Saw(l, svc, attr, confirms)
    else
      var f := Free(Saw(l, svc, attr, confirms));
      if f.queue == [] || credit == 0 || !ok then f
      else Hand(f, cid, f.queue[0]).(queue := f.queue[1..])
  }

  function HandleInd(s: Server, conn: u16, cid: u16, svc: u8, attr: u16, confirms: bool, st: Stack): (Server, bool) {
    var i := FindLink(s.links, conn);
    if i == |s.links| then (s, false)
    else
      var l := s.links[i];
      var credit, ok := st.credits(s.polls), st.accept(s.tries);
      var asks := Frees(l, svc, attr) && l.queue != [];
      var tries := asks && credit != 0;
      (s.(links := s.links[i := Complete(l, cid, svc, attr, confirms, credit, ok)],
          polls := s.polls + if asks then 1 else 0,
          tries := s.tries + if tries then 1 else 0),
       !tries || ok)
  }

  // ----- Notifications -----

  /** Sends waiting notifications in order while there is credit, up to one the stack refuses. */
  function Drain(s: Server, credit: nat, st: Stack): (Server, bool)
    decreases credit
  {
    if credit == 0 || s.notes == [] then (s, true)
    else if !st.accept(s.tries) then (s.(tries := s.tries + 1), false)
    else Drain(s.(notes := s.notes[1..], sent := s.sent + [s.notes[0]], tries := s.tries + 1), credit - 1, st)
  }

  function HandleNotes(s: Server, st: Stack): (Server, bool) {
    Drain(s.(polls := s.polls + 1), st.credits(s.polls), st)
  }

  function Notify(s: Server, n: Note, credit: u8, st: Stack): (Server, bool) {
    if credit != 0 && s.notes == [] then
      if st.accept(s.tries) then (s.(tries := s.tries + 1, accepted := s.accepted + [n], sent := s.sent + [n]), true)
      else (s.(tries := s.tries + 1), false)
    else HandleNotes(s.(notes := s.notes + [n], accepted := s.accepted + [n]), st)
  }

  // ----- Entry points -----

  /** reachable: the stack knows the bearer and the link; indicates: the client's configuration asks
      for an indication. */
  function Send(s: Server, n: Note, reachable: bool, indicates: bool, st: Stack): (Server, bool) {
    if !reachable then (s, false)
    else
      var e := Ensure(s, n.conn, n.connId);
      var credit := st.credits(e.polls);
      var r := e.(polls := e.polls + 1);
      if !indicates then Notify(r, n, credit, st)
      else
        var i := FindLink(r.links, n.conn);
        var l := r.links[i];
        var tries := credit != 0 && l.queue == [] && l.complete;
        var ok := st.accept(r.tries);
        (r.(links := r.links[i := Indicate(l, n.cid, n.item, credit, ok)], tries := r.tries + if tries then 1 else 0),
         !tries || ok)
  }

  function Cmpl(s: Server, conn: u16, cid: u16, svc: u8, attr: u16, confirms: bool, st: Stack): (Server, bool) {
    var (i, a) := HandleInd(s, conn, cid, svc, attr, confirms, st);
    var (n, b) := HandleNotes(i, st);
    (n, a && b)
  }

  function Without<T>(q: seq<T>, i: nat): seq<T> {
    if i < |q| then q[..i] + q[i+1..] else q
  }

  /** The notifications that stay when those of a closed link go. */
  function Staying(q: seq<Note>, gone: Note -> bool): seq<Note> {
    if q == [] then [] else (if gone(q[0]) then [] else [q[0]]) + Staying(q[1..], gone)
  }

  function OfConn(conn: u16): Note -> bool { (n: Note) => n.conn == conn }

  function OfConnId(connId: u8): Note -> bool { (n: Note) => n.connId == connId }

  /** The last bearer of a link is gone. */
  function Clear(s: Server, conn: u16): Server {
    s.(links := Without(s.links, FindLink(s.links, conn)), notes := Staying(s.notes, OfConn(conn)))
  }

  function Disconnect(s: Server, connId: u8): Server {
    s.(links := Without(s.links, FindConnId(s.links, connId)), notes := Staying(s.notes, OfConnId(connId)))
  }

  // ----- Runs -----

  datatype Event =
    | Sent(note: Note, reachable: bool, indicates: bool)
    | Done(conn: u16, cid: u16, svc: u8, attr: u16, confirms: bool)
    | BearersGone(conn: u16)
    | Disconnected(connId: u8)

  function Step(s: Server, e: Event, st: Stack): Server {
    match e
    case Sent(n, reachable, indicates) => Send(s, n, reachable, indicates, st).0
    case Done(conn, cid, svc, attr, confirms) => Cmpl(s, conn, cid, svc, attr, confirms, st).0
    case BearersGone(conn) => Clear(s, conn)
    case Disconnected(connId) => Disconnect(s, connId)
  }

  /** 0xFF is not a service: nobody has configured it for indications. */
  predicate Legal(e: Event) {
    e.Sent? && e.reachable && e.indicates ==> e.note.item.svc != NO_SERVICE
  }

  predicate LegalRun(es: seq<Event>) {
    forall e :: e in es ==> Legal(e)
  }

  function Run(s: Server, es: seq<Event>, st: Stack): Server
    decreases |es|
  {
    if es == [] then s else Run(Step(s, es[0], st), es[1..], st)
  }

  const EMPTY: Server := Server([], [], 0, 0, [], [])
}
