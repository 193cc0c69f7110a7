/** The scheduler half of the per-link client record, updated in place.

    Every method is proved against the function of the same name in Scheduler.  The source
    walks its lists with 8-bit indices, which is why a link may hold at most 255 queued requests and
    bearers. */
module GattcLink {
  import opened Widths
  import S = Scheduler
  import opened SchedulerSafety

  class Link {
    const bredr: bool
    var reqList: seq<S.Req>
    var waitList: seq<S.Req>
    var channels: seq<S.Channel>
    var flags: u16
    var nextId: nat
    // What the environment saw: commands given to the stack, and how requests ended.
    var issued: seq<S.Issue>
    var resolved: seq<S.Resolution>

    ghost function View(): S.Link
      reads this
    {
      S.Link(bredr, reqList, waitList, channels, flags, nextId, issued, resolved)
    }

    ghost predicate Valid()
      reads this
    {
      Exclusive(View()) && |reqList| <= 255
    }

    constructor (bredr: bool)
      ensures Valid() && S.Initial(View()) && this.bredr == bredr
    {
      this.bredr := bredr;
      reqList, waitList, channels, flags := [], [], [], 0;
      nextId, issued, resolved := 0, [], [];
    }

    method FindUnused(need: u16) returns (i: nat)
      requires |channels| <= 255
      ensures i == S.FirstFree(channels, need)
    {
      i := 0;
      while i < |channels|
        invariant i <= |channels|
        invariant S.FirstFree(channels, need) == i + S.FirstFree(channels[i..], need)
      {
        if !channels[i].busy {
          if need == 0 || channels[i].mtu >= need {
            return;
          }
        }
        assert channels[i..][1..] == channels[i+1..];
        i := i + 1;
      }
    }

    method FindByCid(cid: u16) returns (i: nat)
      requires |channels| <= 255
      ensures i == S.FindCid(channels, cid)
    {
      i := 0;
      while i < |channels|
        invariant i <= |channels|
        invariant S.FindCid(channels, cid) == i + S.FindCid(channels[i..], cid)
      {
        if channels[i].cid == cid {
          return;
        }
        assert channels[i..][1..] == channels[i+1..];
        i := i + 1;
      }
    }

    /** The search reuses its handle variable: a failed read-by-UUID reported without a handle
        overwrites it with the request's first handle, for the rest of the search. */
    method FindWaitRsp(handle: u16, cid: u16, isRead: bool, failed: bool) returns (i: nat)
      requires Valid()
      ensures i == S.FindWaiting(waitList, handle, cid, isRead, failed)
    {
      i := 0;
      var h := handle;
      while i < |waitList|
        invariant i <= |waitList|
        invariant forall j :: 0 <= j < i ==> !S.Matches(waitList[j], handle, cid, isRead, failed)
        invariant h != handle ==> exists j :: 0 <= j < i && waitList[j].cid == cid
      {
        var r := waitList[i];
        if r.cid == cid {
          if isRead {
            if r.kind.ReadUuid? {
              if failed && h == 0 {
                h := r.kind.first;
              }
              if r.kind.first <= h <= r.kind.last {
                break;
              }
            } else if r.kind.Read? {
              if r.handle == h {
                break;
              }
            }
          } else if r.handle == h {
            if r.kind.Write? || r.kind.Cccd? {
              break;
            }
          }
        }
        i := i + 1;
      }
    }

    /** Hands the request to the stack; accept answers for the stack. */
    method Execute(r: S.Req, accept: S.Answers) returns (ok: bool)
      modifies this`waitList, this`issued
      ensures ok == accept(|old(issued)|)
      ensures issued == old(issued) + [S.Issue(r.id, r.cid, r.kind, r.handle, ok)]
      ensures waitList == if ok then old(waitList) + [S.Sent(r, r.cid)] else old(waitList)
    {
      ok := accept(|issued|);
      issued := issued + [S.Issue(r.id, r.cid, r.kind, r.handle, ok)];
      var s := r;
      if r.kind.Write? {
        s := r.(kind := S.Write(0));
      }
      if ok {
        waitList := waitList + [s];
      }
    }

    /** Takes the request at idx out of the queue and gives it to the bearer at i. */
    method SendOn(idx: nat, i: nat, accept: S.Answers)
      requires Exclusive(View()) && idx < |reqList| && i < |channels| && !channels[i].busy
      modifies this
      ensures Exclusive(View())
      ensures View() == S.Send(old(View()), i, old(reqList[idx]), accept).(queued := S.Remove(old(reqList), idx))
    {
      var r := reqList[idx];
      SendExclusive(View(), i, r, accept);
      reqList := S.Remove(reqList, idx);
      var cid := channels[i].cid;
      var ok := Execute(r.(cid := cid), accept);
      if ok {
        channels := S.SetBusy(channels, i, true);
        flags := To16(flags + 1);
      } else {
        resolved := resolved + [S.Resolution(r.id, S.SendFailed)];
      }
    }

    /** One pass over the queue.  The pass stops early when the busy count says no bearer is free;
        the requests it has not looked at could not have been sent. */
    method CheckReq(accept: S.Answers)
      requires Valid()
      modifies this
      ensures Valid()
      ensures View() == S.Dispatch(old(View()), accept)
    {
      hide Exclusive, Ahead, S.Send, S.Dispatch;
      var idx: nat := 0;
      ghost var goal := S.Dispatch(View(), accept);
      AheadStart(View(), accept);
      while idx < |reqList|
        invariant |reqList| <= 255
        invariant Exclusive(View())
        invariant Ahead(View(), idx, accept, goal)
        decreases |reqList| - idx
      {
        if flags < |channels| {
          var r := reqList[idx];
          var need: u16 := 0;
          if r.kind.Write? {
            need := To16(r.kind.length + 3);
          }
          FewBearers(View());
          var i := FindUnused(need);
          AheadOffer(View(), idx, accept, goal);
          if i < |channels| {
            SendOn(idx, i, accept);
          } else {
            idx := idx + 1;
          }
        } else {
          AheadBusy(View(), idx, accept, goal);
          return;
        }
      }
      AheadEnd(View(), idx, accept, goal);
    }

    method DelWaitRsp(i: nat, accept: S.Answers)
      requires Valid() && i < |waitList|
      modifies this
      ensures Valid()
      ensures View() == S.Dispatch(S.Finish(old(View()), i), accept)
    {
      FinishExclusive(View(), i);
      var r := waitList[i];
      var c := FindByCid(r.cid);
      if c < |channels| {
        if channels[c].busy {
          flags := To16(flags - 1);
          channels := S.SetBusy(channels, c, false);
        }
      }
      waitList := S.Remove(waitList, i);
      resolved := resolved + [S.Resolution(r.id, S.Responded)];
      CheckReq(accept);
    }

    method HandleResponse(handle: u16, cid: u16, isRead: bool, failed: bool, accept: S.Answers)
      requires Valid()
      modifies this
      ensures Valid()
      ensures View() == S.Step(old(View()), S.Response(handle, cid, isRead, failed), accept)
    {
      var i := FindWaitRsp(handle, cid, isRead, failed);
      if i == |waitList| {
        return;
      }
      DelWaitRsp(i, accept);
    }

    method Submit(rs: seq<S.NewReq>, accept: S.Answers)
      requires Valid() && S.Legal(View(), S.Submitted(rs))
      modifies this
      ensures Valid()
      ensures View() == S.Step(old(View()), S.Submitted(rs), accept)
    {
      var k := 0;
      while k < |rs|
        invariant k <= |rs| && |reqList| == old(|reqList|) + k
        invariant S.Enqueue(View(), rs[k..]) == S.Enqueue(old(View()), rs)
        invariant Exclusive(View())
      {
        assert rs[k..][1..] == rs[k+1..];
        var r := S.Req(nextId, rs[k].kind, rs[k].handle, 0);
        assert reqList + S.Numbered(rs[k..], nextId) == reqList + [r] + S.Numbered(rs[k+1..], nextId + 1);
        reqList := reqList + [r];
        nextId := nextId + 1;
        k := k + 1;
      }
      assert reqList + S.Numbered(rs[k..], nextId) == reqList;
      CheckReq(accept);
    }

    method ChannelAllocate(cid: u16) returns (i: nat)
      requires Valid() && (S.FindCid(channels, cid) < |channels| || |channels| < 255)
      modifies this`channels
      ensures Valid()
      ensures View() == S.Allocate(old(View()), cid)
      ensures i < |channels| && i == S.FindCid(channels, cid)
    {
      AllocateKeeps(View(), cid, 0);
      i := FindByCid(cid);
      if i < |channels| {
        return;
      }
      channels := channels + [S.Channel(cid, S.DEFAULT_MTU, false)];
      FindAt(channels, i);
    }

    method HandleChannelAdded(cid: u16, mtu: u16, accept: S.Answers)
      requires Valid() && S.Legal(View(), S.ChannelAdded(cid, mtu))
      modifies this
      ensures Valid()
      ensures View() == S.Step(old(View()), S.ChannelAdded(cid, mtu), accept)
    {
      var i := ChannelAllocate(cid);
      SetMtuKeeps(View(), cid, mtu);
      channels := channels[i := channels[i].(mtu := mtu)];
      CheckReq(accept);
    }

    method HandleMtuUpdate(cid: u16, mtu: u16, accept: S.Answers)
      requires Valid()
      modifies this
      ensures Valid()
      ensures View() == S.Step(old(View()), S.MtuUpdated(cid, mtu), accept)
    {
      var i := FindByCid(cid);
      if i < |channels| {
        SetMtuKeeps(View(), cid, mtu);
        channels := channels[i := channels[i].(mtu := mtu)];
        CheckReq(accept);
      }
    }

    /** The loop deletes the request at i and still advances i, so it skips the one that moves into
        its place; with at most one request waiting per bearer nothing is missed. */
    method LoseWaiting(cid: u16)
      requires DistinctRequests(waitList)
      modifies this`waitList, this`resolved
      ensures waitList == S.NotOn(old(waitList), cid)
      ensures resolved == old(resolved) + S.LostOn(old(waitList), cid)
    {
      var i := 0;
      ghost var w, done := waitList, resolved;
      ghost var found := false;
      while i < |waitList|
        invariant !found ==> waitList == w && resolved == done && i <= |w| && forall j :: 0 <= j < i ==> w[j].cid != cid
        invariant found ==> waitList == S.NotOn(w, cid) && resolved == done + S.LostOn(w, cid)
        invariant found ==> forall r :: r in waitList ==> r.cid != cid
      {
        if waitList[i].cid == cid {
          SingleLoss(w, i, cid);
          resolved := resolved + [S.Resolution(waitList[i].id, S.ChannelLost)];
          waitList := S.Remove(waitList, i);
          found := true;
        }
        i := i + 1;
      }
      NothingLost(waitList, cid);
    }

    method HandleChannelDeleted(cid: u16)
      requires Valid()
      modifies this
      ensures Valid()
      ensures View() == S.DeleteChannel(old(View()), cid)
    {
      hide Exclusive, S.NotOn, S.LostOn, S.Release, S.Remove, To16;
      DeleteKeeps(View(), cid);
      DistinctWaiting(View());
      hide DistinctRequests;
      FewBearers(View());
      var c := FindByCid(cid);
      if c == |channels| {
        return;
      }
      if channels[c].busy {
        LoseWaiting(cid);
        flags := To16(flags - 1);
      }
      channels := S.Remove(channels, c);
      assert View() == S.Cut(old(View()), c);
      if bredr && channels == [] {
        ReleaseAll();
      }
    }

    /** Restarting a finished discovery frees all three request lists and leaves the bearers alone. */
    method ReqListFree()
      modifies this
      ensures old(Valid()) ==> Valid()
      ensures View() == S.DropRequests(old(View()))
    {
      var q, w := reqList, waitList;
      while reqList != []
        invariant View() == old(View()).(queued := reqList, resolved := resolved)
        invariant resolved + S.Ended(reqList) == old(resolved) + S.Ended(q)
        decreases |reqList|
      {
        assert S.Ended(reqList) == [S.Resolution(reqList[0].id, S.Released)] + S.Ended(reqList[1..]);
        resolved := resolved + [S.Resolution(reqList[0].id, S.Released)];
        reqList := reqList[1..];
      }
      assert resolved == old(resolved) + S.Ended(q);
      while waitList != []
        invariant View() == old(View()).(queued := [], waiting := waitList, resolved := resolved)
        invariant resolved + S.Ended(waitList) == old(resolved) + S.Ended(q) + S.Ended(w)
        decreases |waitList|
      {
        assert S.Ended(waitList) == [S.Resolution(waitList[0].id, S.Released)] + S.Ended(waitList[1..]);
        resolved := resolved + [S.Resolution(waitList[0].id, S.Released)];
        waitList := waitList[1..];
      }
      assert resolved == old(resolved) + S.Ended(q) + S.Ended(w);
    }

    method ReleaseAll()
      modifies this
      ensures Valid()
      ensures View() == S.Release(old(View()))
    {
      ReqListFree();
      channels := [];
      flags := 0;
    }
  }

  lemma FewBearers(l: S.Link)
    requires Exclusive(l)
    ensures |l.channels| <= 255
  {
  }

  /** The pass has offered the first idx queued requests, and finishing it leads to goal. */
  ghost predicate Ahead(l: S.Link, idx: nat, accept: S.Answers, goal: S.Link) {
    idx <= |l.queued| && S.Drain(l.(queued := l.queued[..idx]), l.queued[idx..], accept) == goal
  }

  lemma AheadStart(l: S.Link, accept: S.Answers)
    ensures Ahead(l, 0, accept, S.Dispatch(l, accept))
  {
    assert l.queued[..0] == [] && l.queued[0..] == l.queued;
  }

  lemma AheadEnd(l: S.Link, idx: nat, accept: S.Answers, goal: S.Link)
    requires Ahead(l, idx, accept, goal) && idx >= |l.queued|
    ensures l == goal
  {
    assert l.queued[..idx] == l.queued;
  }

  lemma AheadOffer(l: S.Link, idx: nat, accept: S.Answers, goal: S.Link)
    requires Ahead(l, idx, accept, goal) && idx < |l.queued|
    ensures
      var r := l.queued[idx];
      var i := S.FirstFree(l.channels, S.Need(r));
      if i < |l.channels| then
        Ahead(S.Send(l, i, r, accept).(queued := S.Remove(l.queued, idx)), idx, accept, goal)
      else
        Ahead(l, idx + 1, accept, goal)
  {
    var q, r := l.queued, l.queued[idx];
    var v := l.(queued := q[..idx]);
    assert q[idx..][0] == r && q[idx..][1..] == q[idx+1..];
    assert S.Drain(S.Offer(v, r, accept), q[idx+1..], accept) == goal;
    var i := S.FirstFree(l.channels, S.Need(r));
    if i < |l.channels| {
      var m := S.Send(l, i, r, accept).(queued := S.Remove(q, idx));
      assert m.queued[..idx] == q[..idx] && m.queued[idx..] == q[idx+1..];
      assert m.(queued := q[..idx]) == S.Offer(v, r, accept);
    } else {
      assert q[..idx] + [r] == q[..idx+1];
    }
  }

  lemma AheadBusy(l: S.Link, idx: nat, accept: S.Answers, goal: S.Link)
    requires Exclusive(l) && l.flags >= |l.channels| && Ahead(l, idx, accept, goal)
    ensures l == goal
  {
    BusyBound(l.channels);
    DrainAllBusy(l.(queued := l.queued[..idx]), l.queued[idx..], accept);
    assert l.queued[..idx] + l.queued[idx..] == l.queued;
  }

  /** With every bearer busy, dispatch leaves the rest of the queue as it is. */
  lemma {:induction false} DrainAllBusy(l: S.Link, rest: seq<S.Req>, accept: S.Answers)
    requires forall c :: 0 <= c < |l.channels| ==> l.channels[c].busy
    ensures S.Drain(l, rest, accept) == l.(queued := l.queued + rest)
    decreases |rest|
  {
    if rest == [] {
      assert l.queued + rest == l.queued;
    } else {
      assert l.queued + [rest[0]] + rest[1..] == l.queued + rest;
      DrainAllBusy(l.(queued := l.queued + [rest[0]]), rest[1..], accept);
    }
  }

  lemma DistinctWaiting(l: S.Link)
    requires Exclusive(l)
    ensures DistinctRequests(l.waiting)
  {
  }

  lemma {:induction false} NothingLost(w: seq<S.Req>, cid: u16)
    requires forall r :: r in w ==> r.cid != cid
    ensures S.NotOn(w, cid) == w && S.LostOn(w, cid) == []
  {
    if w != [] {
      assert w[0] in w;
      NothingLost(w[1..], cid);
    }
  }

  /** Exactly one request waits on a bearer that has one. */
  lemma {:induction false} SingleLoss(w: seq<S.Req>, i: nat, cid: u16)
    requires DistinctRequests(w) && i < |w| && w[i].cid == cid
    ensures S.NotOn(w, cid) == S.Remove(w, i)
    ensures S.LostOn(w, cid) == [S.Resolution(w[i].id, S.ChannelLost)]
    ensures forall r :: r in S.Remove(w, i) ==> r.cid != cid
  {
    var t := w[1..];
    assert forall k :: 0 <= k < |t| ==> t[k] == w[k+1];
    if i == 0 {
      assert t == S.Remove(w, 0);
      NothingLost(t, cid);
    } else {
      SingleLoss(t, i - 1, cid);
      assert S.Remove(w, i) == [w[0]] + S.Remove(t, i - 1);
    }
  }
}
