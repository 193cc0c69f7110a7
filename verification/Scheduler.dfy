/** What the GATT client request scheduler does to one link, as functions of the link's state.

    A link holds a queue of requests, a list of requests waiting for a response, and a list of
    ATT bearers ("channels") with one outstanding request each.  The trace fields issued and
    resolved record what the link told the ATT stack and how each request ended. */
module Scheduler {
  import opened Widths

  /** A CCCD request writes its bits to the CCCD. */
  datatype Kind = Read | Write(length: u16) | Cccd(bits: u16) | ReadUuid(first: u16, last: u16)

  /** id stands for the allocation; cid is filled in when the request is handed to a bearer. */
  datatype Req = Req(id: nat, kind: Kind, handle: u16, cid: u16)

  datatype NewReq = NewReq(kind: Kind, handle: u16)

  datatype Channel = Channel(cid: u16, mtu: u16, busy: bool)

  datatype Cause = Responded | SendFailed | ChannelLost | Released

  datatype Resolution = Resolution(id: nat, cause: Cause)

  /** A command given to the stack: which request, on which bearer, what it asks for, and the answer. */
  datatype Issue = Issue(id: nat, cid: u16, kind: Kind, handle: u16, accepted: bool)

  datatype Link = Link(
    bredr: bool,
    queued: seq<Req>,
    waiting: seq<Req>,
    channels: seq<Channel>,
    flags: u16,
    nextId: nat,
    issued: seq<Issue>,
    resolved: seq<Resolution>)

  /** The stack's answer to the n-th command it is ever given on this link. */
  type Answers = nat -> bool

  const DEFAULT_MTU: u16 := 23

  // ----- Bearers -----

  /** Bytes the bearer's MTU must hold; zero means any bearer will do.  The sum is stored in 16 bits. */
  function Need(r: Req): u16 {
    if r.kind.Write? then To16(r.kind.length + 3) else 0
  }

  predicate Admits(c: Channel, need: u16) {
    !c.busy && (need == 0 || c.mtu >= need)
  }

  /** Index of the first free bearer that admits need, or |cs|. */
  function FirstFree(cs: seq<Channel>, need: u16): (i: nat)
    ensures i <= |cs|
    ensures i < |cs| ==> Admits(cs[i], need)
    ensures forall j :: 0 <= j < i ==> !Admits(cs[j], need)
  {
    if cs == [] || Admits(cs[0], need) then 0 else 1 + FirstFree(cs[1..], need)
  }

  /** Index of the first bearer with this cid, or |cs|. */
  function FindCid(cs: seq<Channel>, cid: u16): (i: nat)
    ensures i <= |cs|
    ensures i < |cs| ==> cs[i].cid == cid
    ensures forall j :: 0 <= j < i ==> cs[j].cid != cid
  {
    if cs == [] || cs[0].cid == cid then 0 else 1 + FindCid(cs[1..], cid)
  }

  function SetBusy(cs: seq<Channel>, i: nat, b: bool): seq<Channel>
    requires i < |cs|
  {
    cs[i := cs[i].(busy := b)]
  }

  function Remove<T>(s: seq<T>, i: nat): seq<T>
    requires i < |s|
  {
    s[..i] + s[i+1..]
  }

  // ----- Dispatch: offer every queued request, in order, to the first bearer that admits it -----

  /** Once handed over, a write's payload is freed and its length cleared. */
  function Sent(r: Req, cid: u16): Req {
    r.(cid := cid, kind := if r.kind.Write? then Write(0) else r.kind)
  }

  function Send(l: Link, i: nat, r: Req, accept: Answers): Link
    requires i < |l.channels|
  {
    var cid := l.channels[i].cid;
    var ok := accept(|l.issued|);
    var m := l.(issued := l.issued + [Issue(r.id, cid, r.kind, r.handle, ok)]);
    if ok then
      m.(waiting := l.waiting + [Sent(r, cid)], channels := SetBusy(l.channels, i, true), flags := To16(l.flags + 1))
    else
      m.(resolved := l.resolved + [Resolution(r.id, SendFailed)])
  }

  function Offer(l: Link, r: Req, accept: Answers): Link {
    var i := FirstFree(l.channels, Need(r));
    if i == |l.channels| then l.(queued := l.queued + [r]) else Send(l, i, r, accept)
  }

  /** l.queued are the requests already passed over; rest are still to be offered. */
  function Drain(l: Link, rest: seq<Req>, accept: Answers): Link
    decreases |rest|
  {
    if rest == [] then l else Drain(Offer(l, rest[0], accept), rest[1..], accept)
  }

  function Dispatch(l: Link, accept: Answers): Link {
    Drain(l.(queued := []), l.queued, accept)
  }

  // ----- Responses -----

  predicate Matches(r: Req, handle: u16, cid: u16, isRead: bool, failed: bool) {
    r.cid == cid &&
    if isRead then
      match r.kind
      case ReadUuid(first, last) => (failed && handle == 0 && first <= last) || first <= handle <= last
      case Read => r.handle == handle
      case _ => false
    else
      r.handle == handle && (r.kind.Write? || r.kind.Cccd?)
  }

  /** Index of the first waiting request the response matches, or |w|. */
  function FindWaiting(w: seq<Req>, handle: u16, cid: u16, isRead: bool, failed: bool): (i: nat)
    ensures i <= |w|
    ensures i < |w| ==> Matches(w[i], handle, cid, isRead, failed)
    ensures forall j :: 0 <= j < i ==> !Matches(w[j], handle, cid, isRead, failed)
  {
    if w == [] || Matches(w[0], handle, cid, isRead, failed) then 0
    else 1 + FindWaiting(w[1..], handle, cid, isRead, failed)
  }

  /** Frees the bearer a waiting request was sent on. */
  function FreeBearer(l: Link, cid: u16): Link {
    var c := FindCid(l.channels, cid);
    if c < |l.channels| && l.channels[c].busy then
      l.(channels := SetBusy(l.channels, c, false), flags := To16(l.flags - 1))
    else l
  }

  function Finish(l: Link, i: nat): Link
    requires i < |l.waiting|
  {
    var r := l.waiting[i];
    FreeBearer(l, r.cid).(waiting := Remove(l.waiting, i), resolved := l.resolved + [Resolution(r.id, Responded)])
  }

  function Respond(l: Link, handle: u16, cid: u16, isRead: bool, failed: bool, accept: Answers): Link {
    var i := FindWaiting(l.waiting, handle, cid, isRead, failed);
    if i == |l.waiting| then l else Dispatch(Finish(l, i), accept)
  }

  // ----- Bearer events -----

  function Allocate(l: Link, cid: u16): Link {
    if FindCid(l.channels, cid) < |l.channels| then l
    else l.(channels := l.channels + [Channel(cid, DEFAULT_MTU, false)])
  }

  function SetMtu(l: Link, cid: u16, mtu: u16): Link {
    var c := FindCid(l.channels, cid);
    if c < |l.channels| then l.(channels := l.channels[c := l.channels[c].(mtu := mtu)]) else l
  }

  function AddChannel(l: Link, cid: u16, mtu: u16, accept: Answers): Link {
    Dispatch(SetMtu(Allocate(l, cid), cid, mtu), accept)
  }

  function UpdateMtu(l: Link, cid: u16, mtu: u16, accept: Answers): Link {
    if FindCid(l.channels, cid) < |l.channels| then Dispatch(SetMtu(l, cid, mtu), accept) else l
  }

  function NotOn(w: seq<Req>, cid: u16): seq<Req> {
    if w == [] then []
    else if w[0].cid == cid then NotOn(w[1..], cid)
    else [w[0]] + NotOn(w[1..], cid)
  }

  /** The resolutions of the waiting requests sent on cid, in list order. */
  function LostOn(w: seq<Req>, cid: u16): seq<Resolution> {
    if w == [] then []
    else if w[0].cid == cid then [Resolution(w[0].id, ChannelLost)] + LostOn(w[1..], cid)
    else LostOn(w[1..], cid)
  }

  function Ended(rs: seq<Req>): seq<Resolution> {
    if rs == [] then [] else [Resolution(rs[0].id, Released)] + Ended(rs[1..])
  }

  /** Drops both request lists; a restarted discovery does only this. */
  function DropRequests(l: Link): Link {
    l.(queued := [], waiting := [], resolved := l.resolved + Ended(l.queued) + Ended(l.waiting))
  }

  function Release(l: Link): Link {
    DropRequests(l).(channels := [], flags := 0)
  }

  /** The bearer at c and the requests waiting on it are gone, the rest is as it was. */
  function Cut(l: Link, c: nat): Link
    requires c < |l.channels|
  {
    var cid := l.channels[c].cid;
    var m := if l.channels[c].busy then
        l.(waiting := NotOn(l.waiting, cid), resolved := l.resolved + LostOn(l.waiting, cid), flags := To16(l.flags - 1))
      else l;
    m.(channels := Remove(l.channels, c))
  }

  function DeleteChannel(l: Link, cid: u16): Link {
    var c := FindCid(l.channels, cid);
    if c == |l.channels| then l
    else
      var m := Cut(l, c);
      if m.bredr && m.channels == [] then Release(m) else m
  }

  // ----- Submission -----

  function Numbered(rs: seq<NewReq>, id: nat): seq<Req> {
    if rs == [] then [] else [Req(id, rs[0].kind, rs[0].handle, 0)] + Numbered(rs[1..], id + 1)
  }

  function Enqueue(l: Link, rs: seq<NewReq>): Link {
    l.(queued := l.queued + Numbered(rs, l.nextId), nextId := l.nextId + |rs|)
  }

  function Submit(l: Link, rs: seq<NewReq>, accept: Answers): Link {
    Dispatch(Enqueue(l, rs), accept)
  }

  // ----- Runs -----

  datatype Event =
    | Submitted(rs: seq<NewReq>)
    | Response(handle: u16, cid: u16, isRead: bool, failed: bool)
    | ChannelAdded(cid: u16, mtu: u16)
    | MtuUpdated(cid: u16, mtu: u16)
    | ChannelDeleted(cid: u16)
    | DiscoveryRestarted
    | LinkReleased

  function Step(l: Link, e: Event, accept: Answers): Link {
    match e
    case Submitted(rs) => Submit(l, rs, accept)
    case Response(handle, cid, isRead, failed) => Respond(l, handle, cid, isRead, failed, accept)
    case ChannelAdded(cid, mtu) => AddChannel(l, cid, mtu, accept)
    case MtuUpdated(cid, mtu) => UpdateMtu(l, cid, mtu, accept)
    case ChannelDeleted(cid) => DeleteChannel(l, cid)
    case DiscoveryRestarted => DropRequests(l)
    case LinkReleased => Release(l)
  }

  /** The lists are walked with 8-bit indices, so a link carries at most 255 bearers and queued requests. */
  predicate Legal(l: Link, e: Event) {
    match e
    case Submitted(rs) => |l.queued| + |rs| <= 255
    case ChannelAdded(cid, mtu) => FindCid(l.channels, cid) < |l.channels| || |l.channels| < 255
    case _ => true
  }

  function Run(l: Link, es: seq<Event>, accept: Answers): Link
    decreases |es|
  {
    if es == [] then l else Run(Step(l, es[0], accept), es[1..], accept)
  }

  predicate LegalRun(l: Link, es: seq<Event>, accept: Answers)
    decreases |es|
  {
    es == [] || (Legal(l, es[0]) && LegalRun(Step(l, es[0], accept), es[1..], accept))
  }

  /** A link just connected: an LE link has its fixed ATT bearer, a BR/EDR link has none yet. */
  predicate Initial(l: Link) {
    l.queued == [] && l.waiting == [] && l.flags == 0 && l.nextId == 0 && l.issued == [] && l.resolved == [] &&
    (l.channels == [] || exists cid :: l.channels == [Channel(cid, DEFAULT_MTU, false)])
  }
}
