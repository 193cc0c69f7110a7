/** The loop over one service's includes counts with 8 bits.  When does it end? */
module IncludeLoop {
  import opened Widths
  import opened Attributes
  import opened DiscoveryList

  /** The loop from index j on, for at most the given number of steps; None if it is still running. */
  function Loop(cfg: Config, db: seq<DisSrv>, incs: seq<Inc>, j: u8, steps: nat): Option<seq<DisSrv>>
    decreases steps
  {
    if j >= |incs| then Some(db)
    else if steps == 0 then None
    else if FindListed(db, incs[j]) < |db| then Loop(cfg, db, incs, To8(j + 1), steps - 1)
    else if !Wanted(cfg, incs[j].uuid) then Some(db)
    else Loop(cfg, db + [NewSecondary(cfg, db, incs[j])], incs, To8(j + 1), steps - 1)
  }

  /** The loops over the includes of these services, one after the other. */
  function Loops(cfg: Config, db: seq<DisSrv>, work: seq<DisSrv>, steps: nat): Option<seq<DisSrv>>
    decreases |work|
  {
    if work == [] then Some(db)
    else
      match Loop(cfg, db, work[0].incs, 0, steps)
      case None => None
      case Some(d) => Loops(cfg, d, work[1..], steps)
  }

  /** At most 255 includes, or one among the first 256 that stops the loop. */
  ghost predicate Ends(cfg: Config, db: seq<DisSrv>, incs: seq<Inc>) {
    |incs| <= 255 || exists k :: 0 <= k < 256 && Stops(cfg, db, incs[k])
  }

  ghost predicate AllEnd(cfg: Config, db: seq<DisSrv>, work: seq<DisSrv>) {
    forall w :: w in work ==> Ends(cfg, db, w.incs)
  }

  lemma StopsGrown(cfg: Config, db: seq<DisSrv>, e: seq<DisSrv>, i: Inc)
    requires Extends(cfg, db, e)
    ensures Stops(cfg, e, i) <==> Stops(cfg, db, i)
  {
    ListedGrows(cfg, db, e, i);
  }

  /** From index j on the loop ends before its index wraps. */
  ghost predicate EndsFrom(cfg: Config, db: seq<DisSrv>, incs: seq<Inc>, j: nat) {
    |incs| <= 255 || exists k :: j <= k < 256 && Stops(cfg, db, incs[k])
  }

  /** One turn that does not end the loop. */
  lemma EndsNext(cfg: Config, db: seq<DisSrv>, e: seq<DisSrv>, incs: seq<Inc>, j: u8)
    requires EndsFrom(cfg, db, incs, j) && j < |incs| && !Stops(cfg, db, incs[j]) && Extends(cfg, db, e)
    ensures EndsFrom(cfg, e, incs, j + 1) && To8(j + 1) == j + 1
  {
    hide Stops, Extends;
    if |incs| > 255 {
      var k :| j <= k < 256 && Stops(cfg, db, incs[k]);
      StopsGrown(cfg, db, e, incs[k]);
    }
  }

  lemma IncludedEnd(cfg: Config, incs: seq<Inc>)
    ensures incs[0..] == incs && forall db :: AddIncluded(cfg, db, incs[|incs|..]) == db
  {
  }

  /** One turn of the loop over a service's includes. */
  lemma IncludedNext(cfg: Config, db: seq<DisSrv>, incs: seq<Inc>, j: nat)
    requires ListOk(db) && TypedIncs(incs) && j < |incs|
    ensures
      var i, e := incs[j], db + [NewSecondary(cfg, db, incs[j])];
      var goal := AddIncluded(cfg, db, incs[j..]);
      TypedInc(i) &&
      if FindListed(db, i) < |db| then goal == AddIncluded(cfg, db, incs[j+1..])
      else if !Wanted(cfg, i.uuid) then goal == db
      else goal == AddIncluded(cfg, e, incs[j+1..]) && ListOk(e) && |e| <= |goal| && Extends(cfg, db, e)
    ensures Extends(cfg, db, db)
    ensures Stops(cfg, db, incs[j]) <==> FindListed(db, incs[j]) == |db| && !Wanted(cfg, incs[j].uuid)
  {
    hide ListOk;
    ExtendsSelf(cfg, db);
    assert incs[j..][1..] == incs[j+1..] && TypedInc(incs[j]);
    var e := db + [NewSecondary(cfg, db, incs[j])];
    if FindListed(db, incs[j]) == |db| && Wanted(cfg, incs[j].uuid) {
      AppendExtends(cfg, db, incs[j]);
      AddIncludedSpec(cfg, e, incs[j+1..]);
    }
  }

  lemma {:induction false} LoopEnds(cfg: Config, db: seq<DisSrv>, incs: seq<Inc>, j: u8, steps: nat)
    requires ListOk(db) && TypedIncs(incs) && j <= |incs| && EndsFrom(cfg, db, incs, j) && steps + j >= 256
    ensures Loop(cfg, db, incs, j, steps) == Some(AddIncluded(cfg, db, incs[j..]))
    decreases steps
  {
    hide ListOk, TypedIncs, EndsFrom, NewSecondary, Wanted, Extends, Stops, AddIncluded;
    if j < |incs| {
      IncludedNext(cfg, db, incs, j);
      if FindListed(db, incs[j]) < |db| {
        EndsNext(cfg, db, db, incs, j);
        LoopEnds(cfg, db, incs, j + 1, steps - 1);
      } else if Wanted(cfg, incs[j].uuid) {
        var e := db + [NewSecondary(cfg, db, incs[j])];
        EndsNext(cfg, db, e, incs, j);
        LoopEnds(cfg, e, incs, j + 1, steps - 1);
      }
    } else {
      IncludedEnd(cfg, incs);
    }
  }

  lemma IncTyped(incs: seq<Inc>, j: nat)
    requires TypedIncs(incs) && j < |incs|
    ensures TypedInc(incs[j])
  {
  }

  lemma ExtendsSelf(cfg: Config, db: seq<DisSrv>)
    ensures Extends(cfg, db, db)
  {
    assert db[..|db|] == db;
  }

  lemma {:induction false} LoopRunsOn(cfg: Config, db: seq<DisSrv>, incs: seq<Inc>, j: u8, steps: nat)
    requires ListOk(db) && TypedIncs(incs) && !Ends(cfg, db, incs)
    ensures Loop(cfg, db, incs, j, steps) == None
    decreases steps
  {
    hide ListOk, TypedIncs, NewSecondary, Wanted, Extends;
    if steps > 0 {
      var i := incs[j];
      assert TypedInc(i) by { IncTyped(incs, j); }
      assert !Stops(cfg, db, i);
      if FindListed(db, i) < |db| {
        LoopRunsOn(cfg, db, incs, To8(j + 1), steps - 1);
      } else {
        var e := db + [NewSecondary(cfg, db, i)];
        AppendExtends(cfg, db, i);
        EndsGrown(cfg, db, e, incs);
        LoopRunsOn(cfg, e, incs, To8(j + 1), steps - 1);
      }
    }
  }

  lemma EndsGrown(cfg: Config, db: seq<DisSrv>, e: seq<DisSrv>, incs: seq<Inc>)
    requires Extends(cfg, db, e)
    ensures Ends(cfg, e, incs) <==> Ends(cfg, db, incs)
  {
    hide Extends, Stops;
    forall x: Inc ensures Stops(cfg, e, x) <==> Stops(cfg, db, x) { StopsGrown(cfg, db, e, x); }
  }

  /** The loop over one service's includes ends exactly if there are at most 255, or one of the first
      256 is unwanted and not listed.  Where it ends it does what the unbounded loop does. */
  lemma IncludeLoopEnds(cfg: Config, db: seq<DisSrv>, incs: seq<Inc>)
    requires ListOk(db) && TypedIncs(incs)
    ensures Ends(cfg, db, incs) ==> forall n: nat :: n >= 256 ==> Loop(cfg, db, incs, 0, n) == Some(AddIncluded(cfg, db, incs))
    ensures !Ends(cfg, db, incs) ==> forall n: nat :: Loop(cfg, db, incs, 0, n) == None
  {
    hide ListOk, TypedIncs, Ends, Loop;
    forall n: nat
      ensures Ends(cfg, db, incs) && n >= 256 ==> Loop(cfg, db, incs, 0, n) == Some(AddIncluded(cfg, db, incs))
      ensures !Ends(cfg, db, incs) ==> Loop(cfg, db, incs, 0, n) == None
    {
      LoopAfter(cfg, db, incs, n);
    }
  }

  lemma LoopAfter(cfg: Config, db: seq<DisSrv>, incs: seq<Inc>, n: nat)
    requires ListOk(db) && TypedIncs(incs)
    ensures Ends(cfg, db, incs) && n >= 256 ==> Loop(cfg, db, incs, 0, n) == Some(AddIncluded(cfg, db, incs))
    ensures !Ends(cfg, db, incs) ==> Loop(cfg, db, incs, 0, n) == None
  {
    hide ListOk, TypedIncs, Stops;
    assert incs[0..] == incs;
    if !Ends(cfg, db, incs) {
      LoopRunsOn(cfg, db, incs, 0, n);
    } else if n >= 256 {
      LoopEnds(cfg, db, incs, 0, n);
    }
  }

  lemma {:induction false} LoopsEnd(cfg: Config, db: seq<DisSrv>, work: seq<DisSrv>, steps: nat)
    requires ListOk(db) && forall w :: w in work ==> TypedIncs(w.incs)
    ensures AllEnd(cfg, db, work) && steps >= 256 ==> Loops(cfg, db, work, steps) == Some(AddSecondaries(cfg, db, work))
    ensures !AllEnd(cfg, db, work) ==> Loops(cfg, db, work, steps) == None
    decreases |work|
  {
    hide ListOk, TypedIncs, Extends, Ends, Loop, AddIncluded;
    if work != [] {
      var w := work[0];
      assert w in work && work == [w] + work[1..];
      LoopAfter(cfg, db, w.incs, steps);
      if Loop(cfg, db, w.incs, 0, steps).Some? {
        LoopUpTo(cfg, db, w.incs, 0, steps, 256 + steps);
        LoopAfter(cfg, db, w.incs, 256 + steps);
        var d := AddIncluded(cfg, db, w.incs);
        AddIncludedSpec(cfg, db, w.incs);
        forall x | x in work[1..] ensures Ends(cfg, d, x.incs) <==> Ends(cfg, db, x.incs) { EndsGrown(cfg, db, d, x.incs); }
        assert AllEnd(cfg, db, work) <==> AllEnd(cfg, d, work[1..]);
        LoopsEnd(cfg, d, work[1..], steps);
      }
    }
  }

  /** More steps change nothing about a loop that has ended. */
  lemma {:induction false} LoopUpTo(cfg: Config, db: seq<DisSrv>, incs: seq<Inc>, j: u8, steps: nat, n: nat)
    requires Loop(cfg, db, incs, j, steps).Some? && n >= steps
    ensures Loop(cfg, db, incs, j, n) == Loop(cfg, db, incs, j, steps)
    decreases steps
  {
    hide NewSecondary, Wanted, To8;
    if j < |incs| {
      var e := db + [NewSecondary(cfg, db, incs[j])];
      if FindListed(db, incs[j]) < |db| {
        LoopUpTo(cfg, db, incs, To8(j + 1), steps - 1, n - 1);
      } else if Wanted(cfg, incs[j].uuid) {
        LoopUpTo(cfg, e, incs, To8(j + 1), steps - 1, n - 1);
      }
    }
  }

  /** The termination theorem for adding secondary services: it ends exactly if the loop over each
      service's includes does, judged by the list it starts with. */
  lemma SecondaryEnds(cfg: Config, db: seq<DisSrv>)
    requires ListOk(db)
    ensures AllEnd(cfg, db, db) ==> forall n: nat :: n >= 256 ==> Loops(cfg, db, db, n) == Some(AddSecondary(cfg, db))
    ensures !AllEnd(cfg, db, db) ==> forall n: nat :: Loops(cfg, db, db, n) == None
  {
    forall w | w in db ensures TypedIncs(w.incs) { assert DisSrvOk(w); }
    hide ListOk, AllEnd, Loops, TypedIncs, AddSecondaries;
    forall n: nat
      ensures AllEnd(cfg, db, db) && n >= 256 ==> Loops(cfg, db, db, n) == Some(AddSecondary(cfg, db))
      ensures !AllEnd(cfg, db, db) ==> Loops(cfg, db, db, n) == None
    {
      LoopsEnd(cfg, db, db, n);
    }
  }

  /** 256 includes of a listed service, as one that includes itself may report, are never done. */
  lemma EndlessIncludes(cfg: Config, db: seq<DisSrv>, i: Inc, n: nat)
    requires ListOk(db) && TypedInc(i) && Listed(db, i)
    ensures Loop(cfg, db, seq(256, _ => i), 0, n) == None
  {
    var incs := seq(256, _ => i);
    hide ListOk, Listed;
    LoopRunsOn(cfg, db, incs, 0, n);
  }

  // ----- Lists that differ only in their characteristics -----

  ghost predicate SameSrvs(a: seq<DisSrv>, b: seq<DisSrv>) {
    |a| == |b| && forall k :: 0 <= k < |a| ==> a[k].srv == b[k].srv && a[k].incs == b[k].incs
  }

  lemma SameListed(a: seq<DisSrv>, b: seq<DisSrv>, i: Inc)
    requires SameSrvs(a, b)
    ensures Listed(a, i) <==> Listed(b, i)
  {
  }

  lemma {:induction false} SameIncluded(cfg: Config, a: seq<DisSrv>, b: seq<DisSrv>, incs: seq<Inc>)
    requires SameSrvs(a, b)
    ensures SameSrvs(AddIncluded(cfg, a, incs), AddIncluded(cfg, b, incs))
    decreases |incs|
  {
    hide Listed, Wanted, SameSrvs;
    if incs != [] {
      SameListed(a, b, incs[0]);
      SameGrown(cfg, a, b, incs[0]);
      SameIncluded(cfg, a, b, incs[1..]);
      SameIncluded(cfg, a + [NewSecondary(cfg, a, incs[0])], b + [NewSecondary(cfg, b, incs[0])], incs[1..]);
    }
  }

  lemma SameGrown(cfg: Config, a: seq<DisSrv>, b: seq<DisSrv>, i: Inc)
    requires SameSrvs(a, b)
    ensures SameSrvs(a + [NewSecondary(cfg, a, i)], b + [NewSecondary(cfg, b, i)])
  {
    CountSrvSame(a, b, i.uuid);
  }

  lemma {:induction false} SameSecondaries(cfg: Config, a: seq<DisSrv>, b: seq<DisSrv>, v: seq<DisSrv>, w: seq<DisSrv>)
    requires SameSrvs(a, b) && SameSrvs(v, w)
    ensures SameSrvs(AddSecondaries(cfg, a, v), AddSecondaries(cfg, b, w))
    decreases |v|
  {
    hide AddIncluded;
    if v != [] {
      SameIncluded(cfg, a, b, v[0].incs);
      SameSecondaries(cfg, AddIncluded(cfg, a, v[0].incs), AddIncluded(cfg, b, w[0].incs), v[1..], w[1..]);
    }
  }

  /** Neither the number of services added nor whether the loops end depends on the characteristics. */
  lemma SameEnds(cfg: Config, a: seq<DisSrv>, b: seq<DisSrv>)
    requires SameSrvs(a, b)
    ensures |AddSecondary(cfg, a)| == |AddSecondary(cfg, b)|
    ensures AllEnd(cfg, a, a) <==> AllEnd(cfg, b, b)
  {
    hide Stops, AddSecondaries, AllEnd;
    SameSecondaries(cfg, a, b, a, b);
    SameStops(cfg, a, b);
    if AllEnd(cfg, a, a) { SameAllEnd(cfg, a, b); }
    if AllEnd(cfg, b, b) { SameAllEnd(cfg, b, a); }
  }

  lemma SameStops(cfg: Config, a: seq<DisSrv>, b: seq<DisSrv>)
    requires SameSrvs(a, b)
    ensures forall i :: Stops(cfg, a, i) <==> Stops(cfg, b, i)
  {
    hide Listed, Wanted, SameSrvs;
    forall i: Inc ensures Stops(cfg, a, i) <==> Stops(cfg, b, i) { SameListed(a, b, i); }
  }

  lemma SameAllEnd(cfg: Config, a: seq<DisSrv>, b: seq<DisSrv>)
    requires SameSrvs(a, b) && AllEnd(cfg, a, a)
    requires forall i :: Stops(cfg, a, i) <==> Stops(cfg, b, i)
    ensures AllEnd(cfg, b, b)
  {
    hide Stops;
    forall w | w in b ensures Ends(cfg, b, w.incs) {
      var k :| 0 <= k < |b| && b[k] == w;
      assert a[k] in a && a[k].incs == w.incs;
      assert Ends(cfg, a, w.incs);
    }
  }
}
