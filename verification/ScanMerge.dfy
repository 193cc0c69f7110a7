/** One set of scan parameters for all clients of the scanner. */
module ScanMerge {
  import opened Widths

  type Phys = bv8

  const PHY_1M: Phys := 0x01
  const PHY_CODED: Phys := 0x04

  const PUBLIC_ADDR: u8 := 0
  const POLICY_ANY: u8 := 0
  const DUPLICATES_OFF: u8 := 0

  datatype PhyParam = PhyParam(active: bool, interval: u16, window: u16)

  datatype Param = Param(own: u8, phys: Phys, policy: u8, duplicates: u8, oneM: PhyParam, coded: PhyParam)

  predicate Has(a: Phys, phy: Phys) { a & phy != 0 }

  predicate Uses(p: Param, phy: Phys) { Has(p.phys, phy) }

  function PhyOf(p: Param, phy: Phys): PhyParam { if phy == PHY_1M then p.oneM else p.coded }

  // ----- What the merged parameters are -----

  /** Client i is the first of those using the PHY with the smallest interval. */
  predicate Earliest(ps: seq<Param>, phy: Phys, i: nat) {
    i < |ps| && Uses(ps[i], phy) &&
    (forall j :: 0 <= j < |ps| && Uses(ps[j], phy) ==> PhyOf(ps[i], phy).interval <= PhyOf(ps[j], phy).interval) &&
    (forall j :: 0 <= j < i && Uses(ps[j], phy) ==> PhyOf(ps[i], phy).interval < PhyOf(ps[j], phy).interval)
  }

  predicate SomeUse(ps: seq<Param>, phy: Phys) { exists i :: 0 <= i < |ps| && Uses(ps[i], phy) }

  predicate SomeActive(ps: seq<Param>, phy: Phys) {
    exists i :: 0 <= i < |ps| && Uses(ps[i], phy) && PhyOf(ps[i], phy).active
  }

  /** On a PHY the scan has the smallest interval any of its users asks for, with the window of the
      first of them that asks for it, and is active if one of its users is. */
  ghost predicate PhyCovers(ps: seq<Param>, phy: Phys, r: PhyParam)
    requires ps != []
  {
    if SomeUse(ps, phy) then
      (r.active <==> SomeActive(ps, phy)) &&
      exists i: nat :: Earliest(ps, phy, i) && r.interval == PhyOf(ps[i], phy).interval && r.window == PhyOf(ps[i], phy).window
    else r == PhyOf(ps[0], phy)
  }

  /** The merged parameters cover every client. */
  ghost predicate Covers(ps: seq<Param>, r: Param)
    requires ps != []
  {
    (forall b: Phys :: Has(r.phys, b) <==> SomeUse(ps, b)) &&
    PhyCovers(ps, PHY_1M, r.oneM) && PhyCovers(ps, PHY_CODED, r.coded) &&
    r.duplicates == (if exists i :: 0 <= i < |ps| && ps[i].duplicates == DUPLICATES_OFF then DUPLICATES_OFF else ps[0].duplicates) &&
    r.policy == (if exists i :: 0 <= i < |ps| && ps[i].policy == POLICY_ANY then POLICY_ANY else ps[0].policy) &&
    r.own == (if forall i :: 0 <= i < |ps| ==> ps[i].own == ps[0].own then ps[0].own else PUBLIC_ADDR)
  }

  // ----- How they are computed -----

  function JoinPhy(used: bool, a: PhyParam, uses: bool, b: PhyParam): PhyParam {
    if !uses then a
    else if !used then b
    else
      PhyParam(a.active || b.active, if b.interval < a.interval then b.interval else a.interval,
               if b.interval < a.interval then b.window else a.window)
  }

  function Join(a: Param, b: Param): Param {
    Param(
      if a.own != b.own then PUBLIC_ADDR else a.own,
      a.phys | b.phys,
      if b.policy == POLICY_ANY then POLICY_ANY else a.policy,
      if b.duplicates == DUPLICATES_OFF then DUPLICATES_OFF else a.duplicates,
      JoinPhy(Uses(a, PHY_1M), a.oneM, Uses(b, PHY_1M), b.oneM),
      JoinPhy(Uses(a, PHY_CODED), a.coded, Uses(b, PHY_CODED), b.coded))
  }

  function Merge(ps: seq<Param>): Param
    requires ps != []
  {
    if |ps| == 1 then ps[0] else Join(Merge(ps[..|ps|-1]), ps[|ps|-1])
  }

  // ----- They are the same -----

  lemma OrUses(a: Phys, b: Phys, m: Phys)
    ensures Has(a | b, m) <==> Has(a, m) || Has(b, m)
  {
    assert (a | b) & m == (a & m) | (b & m);
  }

  lemma UseSnoc(ps: seq<Param>, p: Param, phy: Phys)
    ensures SomeUse(ps + [p], phy) <==> SomeUse(ps, phy) || Uses(p, phy)
    ensures SomeActive(ps + [p], phy) <==> SomeActive(ps, phy) || (Uses(p, phy) && PhyOf(p, phy).active)
  {
    hide Uses, PhyOf;
    var q := ps + [p];
    assert q[|ps|] == p;
    if SomeUse(ps, phy) {
      var i :| 0 <= i < |ps| && Uses(ps[i], phy);
      assert q[i] == ps[i];
    }
    if SomeActive(ps, phy) {
      var i :| 0 <= i < |ps| && Uses(ps[i], phy) && PhyOf(ps[i], phy).active;
      assert q[i] == ps[i];
    }
  }

  lemma EarliestSame(ps: seq<Param>, p: Param, phy: Phys, i: nat)
    requires Earliest(ps, phy, i) && (Uses(p, phy) ==> PhyOf(ps[i], phy).interval <= PhyOf(p, phy).interval)
    ensures Earliest(ps + [p], phy, i)
  {
    hide Uses, PhyOf;
    var q := ps + [p];
    forall j | 0 <= j < |q| && Uses(q[j], phy) ensures PhyOf(q[i], phy).interval <= PhyOf(q[j], phy).interval {
      if j < |ps| { assert q[j] == ps[j]; }
    }
    forall j | 0 <= j < i && Uses(q[j], phy) ensures PhyOf(q[i], phy).interval < PhyOf(q[j], phy).interval {
      assert q[j] == ps[j];
    }
  }

  lemma EarliestLast(ps: seq<Param>, p: Param, phy: Phys)
    requires Uses(p, phy)
    requires forall j :: 0 <= j < |ps| && Uses(ps[j], phy) ==> PhyOf(p, phy).interval < PhyOf(ps[j], phy).interval
    ensures Earliest(ps + [p], phy, |ps|)
  {
    hide Uses, PhyOf;
    var q := ps + [p];
    forall j | 0 <= j < |q| && Uses(q[j], phy)
      ensures PhyOf(p, phy).interval <= PhyOf(q[j], phy).interval && (j < |ps| ==> PhyOf(p, phy).interval < PhyOf(q[j], phy).interval)
    {
      if j < |ps| { assert q[j] == ps[j]; }
    }
    assert q[|ps|] == p;
  }

  lemma JoinPhyCovers(ps: seq<Param>, p: Param, phy: Phys, a: PhyParam)
    requires ps != [] && PhyCovers(ps, phy, a)
    ensures PhyCovers(ps + [p], phy, JoinPhy(SomeUse(ps, phy), a, Uses(p, phy), PhyOf(p, phy)))
  {
    hide Uses, PhyOf;
    var q := ps + [p];
    var b := PhyOf(p, phy);
    UseSnoc(ps, p, phy);
    assert q[0] == ps[0] && q[|ps|] == p;
    if SomeUse(ps, phy) {
      var i: nat :| Earliest(ps, phy, i) && a.interval == PhyOf(ps[i], phy).interval && a.window == PhyOf(ps[i], phy).window;
      Joined(ps, p, phy, a, i);
    } else if Uses(p, phy) {
      EarliestLast(ps, p, phy);
      NoneActive(ps, phy);
    }
  }

  lemma NoneActive(ps: seq<Param>, phy: Phys)
    requires !SomeUse(ps, phy)
    ensures !SomeActive(ps, phy)
  {
  }

  lemma Joined(ps: seq<Param>, p: Param, phy: Phys, a: PhyParam, i: nat)
    requires Earliest(ps, phy, i) && a.interval == PhyOf(ps[i], phy).interval && a.window == PhyOf(ps[i], phy).window
    ensures
      var q, r := ps + [p], JoinPhy(true, a, Uses(p, phy), PhyOf(p, phy));
      exists k: nat :: Earliest(q, phy, k) && r.interval == PhyOf(q[k], phy).interval && r.window == PhyOf(q[k], phy).window
  {
    hide Uses, PhyOf;
    var q := ps + [p];
    assert q[i] == ps[i] && q[|ps|] == p;
    if Uses(p, phy) && PhyOf(p, phy).interval < a.interval {
      EarliestLast(ps, p, phy);
      assert Earliest(q, phy, |ps|);
    } else {
      EarliestSame(ps, p, phy, i);
      assert Earliest(q, phy, i);
    }
  }

  lemma JoinCovers(ps: seq<Param>, p: Param, a: Param)
    requires ps != [] && Covers(ps, a)
    ensures Covers(ps + [p], Join(a, p))
  {
    hide PhyCovers, JoinPhy, SomeUse;
    JoinPhyCovers(ps, p, PHY_1M, a.oneM);
    JoinPhyCovers(ps, p, PHY_CODED, a.coded);
    JoinBits(ps, p, a);
    JoinRest(ps, p, a);
  }

  lemma JoinBits(ps: seq<Param>, p: Param, a: Param)
    requires forall b: Phys :: Has(a.phys, b) <==> SomeUse(ps, b)
    ensures forall b: Phys :: Has(Join(a, p).phys, b) <==> SomeUse(ps + [p], b)
    ensures Uses(a, PHY_1M) == SomeUse(ps, PHY_1M) && Uses(a, PHY_CODED) == SomeUse(ps, PHY_CODED)
  {
    hide Has, SomeUse, JoinPhy;
    forall b: Phys ensures Has(Join(a, p).phys, b) <==> SomeUse(ps + [p], b) {
      UseSnoc(ps, p, b);
      OrUses(a.phys, p.phys, b);
    }
  }

  lemma JoinRest(ps: seq<Param>, p: Param, a: Param)
    requires ps != []
    requires a.duplicates == (if exists i :: 0 <= i < |ps| && ps[i].duplicates == DUPLICATES_OFF then DUPLICATES_OFF else ps[0].duplicates)
    requires a.policy == (if exists i :: 0 <= i < |ps| && ps[i].policy == POLICY_ANY then POLICY_ANY else ps[0].policy)
    requires a.own == (if forall i :: 0 <= i < |ps| ==> ps[i].own == ps[0].own then ps[0].own else PUBLIC_ADDR)
    ensures
      var q, r := ps + [p], Join(a, p);
      r.duplicates == (if exists i :: 0 <= i < |q| && q[i].duplicates == DUPLICATES_OFF then DUPLICATES_OFF else q[0].duplicates) &&
      r.policy == (if exists i :: 0 <= i < |q| && q[i].policy == POLICY_ANY then POLICY_ANY else q[0].policy) &&
      r.own == (if forall i :: 0 <= i < |q| ==> q[i].own == q[0].own then q[0].own else PUBLIC_ADDR)
  {
    hide JoinPhy;
    var q := ps + [p];
    assert q[|ps|] == p && forall i :: 0 <= i < |ps| ==> q[i] == ps[i];
  }

  /** The merge theorem: for any nonempty list of clients, the computed parameters cover every client. */
  lemma {:induction false} MergeCovers(ps: seq<Param>)
    requires ps != []
    ensures Covers(ps, Merge(ps))
  {
    hide Join;
    if |ps| == 1 {
      SingleCovers(ps[0]);
      assert ps == [ps[0]];
    } else {
      var n := |ps| - 1;
      MergeCovers(ps[..n]);
      JoinCovers(ps[..n], ps[n], Merge(ps[..n]));
      assert ps == ps[..n] + [ps[n]];
    }
  }

  lemma SingleCovers(p: Param)
    ensures Covers([p], p)
  {
    hide Has, PhyCovers;
    forall b: Phys ensures Has(p.phys, b) <==> SomeUse([p], b) {
      if Uses(p, b) { assert Uses([p][0], b); }
    }
    SinglePhy(p, PHY_1M);
    SinglePhy(p, PHY_CODED);
    assert [p][0] == p;
  }

  lemma SinglePhy(p: Param, phy: Phys)
    ensures PhyCovers([p], phy, PhyOf(p, phy))
  {
    hide Uses, PhyOf;
    var ps := [p];
    assert ps[0] == p;
    if Uses(p, phy) {
      assert Earliest(ps, phy, 0);
    }
  }

  /** Nothing but the computed parameters covers every client. */
  lemma CoversUnique(ps: seq<Param>, a: Param, b: Param)
    requires ps != [] && Covers(ps, a) && Covers(ps, b)
    ensures a == b
  {
    hide PhyCovers, SomeUse, Has;
    SamePhys(a.phys, b.phys);
    PhyUnique(ps, PHY_1M, a.oneM, b.oneM);
    PhyUnique(ps, PHY_CODED, a.coded, b.coded);
  }

  lemma SamePhys(a: Phys, b: Phys)
    requires forall m: Phys :: Has(a, m) <==> Has(b, m)
    ensures a == b
  {
    assert Has(a, a & !b) <==> Has(b, a & !b);
    assert Has(a, b & !a) <==> Has(b, b & !a);
  }

  lemma PhyUnique(ps: seq<Param>, phy: Phys, a: PhyParam, b: PhyParam)
    requires ps != [] && PhyCovers(ps, phy, a) && PhyCovers(ps, phy, b)
    ensures a == b
  {
    hide Uses, PhyOf;
    if SomeUse(ps, phy) {
      var i: nat :| Earliest(ps, phy, i) && a.interval == PhyOf(ps[i], phy).interval && a.window == PhyOf(ps[i], phy).window;
      var j: nat :| Earliest(ps, phy, j) && b.interval == PhyOf(ps[j], phy).interval && b.window == PhyOf(ps[j], phy).window;
      assert i == j;
    }
  }
}
