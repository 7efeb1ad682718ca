/** The prime ancestors of a unit one level below it, and why they form a quorum. */
module PrimeAncestors {
  import opened Units
  import opened DagOrder
  import opened Quorums

  /** `w` is below `u`, on the level directly under it. */
  ghost predicate PrimeBelow(u: Unit, w: Unit) {
    Below(u, w) && w.level + 1 == u.level
  }

  ghost predicate SeesCreator(u: Unit, pid: nat) {
    exists w :: PrimeBelow(u, w) && w.creator == pid
  }

  /** The processes with a prime ancestor of `u` directly under its level. */
  ghost function AncestorCreators(c: Committee, u: Unit): set<nat> {
    set pid: nat | pid < c.n && SeesCreator(u, pid)
  }

  lemma ParentsOnTopAreSeen(c: Committee, u: Unit, m: nat)
    requires BasicallyCorrect(c, u) && u.level == m + 1
    ensures |SlotsOnLevel(u.parents, m)| <= |AncestorCreators(c, u)|
  {
    forall i | i in SlotsOnLevel(u.parents, m)
      ensures i in AncestorCreators(c, u)
    {
      var p := u.parents[i].value;
      ParentBelow(u, p);
      assert PrimeBelow(u, p);
    }
    SubsetSize(SlotsOnLevel(u.parents, m), AncestorCreators(c, u));
  }

  lemma SeenThroughParent(c: Committee, u: Unit, p: Unit)
    requires IsParent(u, p) && p.level == u.level
    ensures |AncestorCreators(c, p)| <= |AncestorCreators(c, u)|
  {
    ParentBelow(u, p);
    forall pid | pid in AncestorCreators(c, p)
      ensures pid in AncestorCreators(c, u)
    {
      var w :| PrimeBelow(p, w) && w.creator == pid;
      ReachUnfold(p, w);
      BelowTransitive(u, p, w);
      assert PrimeBelow(u, w);
    }
    SubsetSize(AncestorCreators(c, p), AncestorCreators(c, u));
  }

  /** Every unit above level 0 sees a quorum on the level directly under its own. */
  lemma {:induction false} QuorumBelow(c: Committee, u: Unit)
    requires c.Valid() && Compliant(c, u) && u.level >= 1
    ensures |AncestorCreators(c, u)| >= c.q
    decreases u
  {
    var m := TopLevel(u.parents);
    TopLevelIsHighest(u.parents);
    if |SlotsOnLevel(u.parents, m)| >= c.q {
      ParentsOnTopAreSeen(c, u, m);
    } else {
      var i :| 0 <= i < |u.parents| && u.parents[i].Some? && u.parents[i].value.level == m;
      QuorumBelow(c, u.parents[i].value);
      SeenThroughParent(c, u, u.parents[i].value);
    }
  }

  lemma SomePrimeBelow(c: Committee, u: Unit) returns (w: Unit)
    requires c.Valid() && Compliant(c, u) && u.level >= 1
    ensures PrimeBelow(u, w) && Reach(u, w) && Compliant(c, w)
  {
    QuorumBelow(c, u);
    assert AncestorCreators(c, u) != {};
    var pid :| pid in AncestorCreators(c, u);
    w :| PrimeBelow(u, w) && w.creator == pid;
    ReachUnfold(u, w);
    CompliantBelow(c, u, w);
  }

  /** Below a unit every lower level is populated. */
  lemma {:induction false} LevelsPopulated(c: Committee, u: Unit, l: nat) returns (w: Unit)
    requires c.Valid() && Compliant(c, u) && l <= u.level
    ensures Reach(u, w) && w.level == l && Compliant(c, w)
    decreases u.level
  {
    if l == u.level {
      w := u;
    } else {
      var v := SomePrimeBelow(c, u);
      w := LevelsPopulated(c, v, l);
      ReachTransitive(u, v, w);
    }
  }

  /** The unit on level `l` of the chain down from `f`, if it has one. */
  function Landing(f: Unit, l: nat): Option<Unit>
    decreases f
  {
    if f.level == l then Some(f)
    else if f.level < l || Predecessor(f).None? then None
    else Landing(Predecessor(f).value, l)
  }

  /** Levels strictly fall along a chain, so it meets a level at most once. */
  lemma {:induction false} LandingIsOnChain(c: Committee, f: Unit, l: nat, w: Unit)
    requires Compliant(c, f)
    ensures Landing(f, l) == Some(w) <==> OnChain(f, w) && w.level == l
    decreases f
  {
    hide NoSelfFork, ParentsConsistent;
    if OnChain(f, w) {
      ChainFacts(c, f, w);
    }
    if f.level > l && Predecessor(f).Some? {
      LandingIsOnChain(c, Predecessor(f).value, l, w);
    }
  }

  /** Where the chains of the units of `floor` meet level `l`, branch by branch. */
  function Landings(floor: seq<Unit>, l: nat): seq<Unit> {
    if floor == [] then [] else
    var last := Landing(floor[|floor| - 1], l);
    Landings(floor[..|floor| - 1], l) + if last.Some? then [last.value] else []
  }

  /** Branches are taken in the order of the floor. */
  lemma {:induction false} LandingsInOrder(floor: seq<Unit>, more: seq<Unit>, l: nat)
    ensures Landings(floor + more, l) == Landings(floor, l) + Landings(more, l)
  {
    hide Landing;
    if more == [] {
      assert floor + more == floor;
    } else {
      var last := |more| - 1;
      assert (floor + more)[..|floor| + last] == floor + more[..last];
      LandingsInOrder(floor, more[..last], l);
    }
  }

  /** Follows predecessors down to the lowest unit still at or above level `l`. */
  method Descend(ghost c: Committee, v: Unit, l: nat) returns (w: Unit)
    requires Compliant(c, v)
    ensures Landing(v, l) == if w.level == l then Some(w) else None
  {
    hide NoSelfFork, ParentsConsistent, LevelOver;
    w := v;
    var predecessor := Some(v);
    while predecessor.Some? && predecessor.value.level >= l
      invariant Compliant(c, w) && Landing(v, l) == Landing(w, l)
      invariant predecessor == Some(w) || predecessor == Predecessor(w)
      invariant predecessor == Predecessor(w) ==> w.level >= l
      decreases if predecessor == Some(w) then 1 else 0, predecessor
    {
      w := predecessor.value;
      predecessor := Predecessor(w);
    }
  }

  /** The units of each process below `u` form a chain. */
  ghost predicate SeesNoFork(u: Unit) {
    forall v, w :: Below(u, v) && Below(u, w) && v.creator == w.creator ==> OnChain(v, w) || OnChain(w, v)
  }

  /** `found` lists the prime ancestors of `u` made by `pid`. */
  ghost predicate Lists(u: Unit, pid: nat, found: seq<Unit>) {
    forall w :: w in found <==> PrimeBelow(u, w) && w.creator == pid
  }

  lemma {:induction false} LandingsMembers(c: Committee, floor: seq<Unit>, l: nat, w: Unit)
    requires forall f :: f in floor ==> Compliant(c, f)
    ensures w in Landings(floor, l) <==> w.level == l && Covers(floor, w)
  {
    hide Compliant, OnChain;
    if floor != [] {
      var last := |floor| - 1;
      LandingsMembers(c, floor[..last], l, w);
      LandingIsOnChain(c, floor[last], l, w);
      assert floor[last] in floor;
      if i :| 0 <= i < |floor| && OnChain(floor[i], w) {
        assert i < last ==> floor[..last][i] == floor[i];
      }
    }
  }

  /** An ancestor is listed once for every unit of the floor that has it on its chain. */
  lemma {:induction false} ListedPerBranch(c: Committee, floor: seq<Unit>, l: nat, w: Unit)
    requires (forall f :: f in floor ==> Compliant(c, f)) && w.level == l
    requires forall i, j :: 0 <= i < j < |floor| ==> floor[i] != floor[j]
    ensures multiset(Landings(floor, l))[w] == |Branches(floor, w)|
  {
    hide Compliant, OnChain, Landing;
    if floor == [] {
      assert Branches(floor, w) == {};
    } else {
      var last := |floor| - 1;
      var f, before := floor[last], floor[..last];
      ListedPerBranch(c, before, l, w);
      LandingIsOnChain(c, f, l, w);
      assert floor == before + [f];
      BranchesStep(before, f, w);
    }
  }

  lemma BranchesStep(before: seq<Unit>, f: Unit, w: Unit)
    requires f !in before
    ensures |Branches(before + [f], w)| == |Branches(before, w)| + if OnChain(f, w) then 1 else 0
  {
    hide OnChain;
    assert Branches(before + [f], w) == if OnChain(f, w) then Branches(before, w) + {f} else Branches(before, w);
  }

  /** The units of the floor with `w` on their chain. */
  ghost function Branches(floor: seq<Unit>, w: Unit): set<Unit> {
    set f | f in floor && OnChain(f, w)
  }

  /** The floors of all processes, as a unit carries them. */
  ghost predicate IsFloors(c: Committee, u: Unit, floors: seq<seq<Unit>>) {
    |floors| == c.n && forall pid :: 0 <= pid < c.n ==> IsFloor(u, pid, floors[pid])
  }

  method AllFloors(ghost c: Committee, u: Unit) returns (floors: seq<seq<Unit>>)
    requires Compliant(c, u)
    ensures IsFloors(c, u, floors)
  {
    hide Compliant, WellBuilt, IsFloor;
    CompliantIsWellBuilt(c, u);
    ParentCount(c, u);
    floors := [];
    for pid := 0 to |u.parents|
      invariant |floors| == pid && forall k :: 0 <= k < pid ==> IsFloor(u, k, floors[k])
    {
      var floor := Floor(c, u, pid);
      floors := floors + [floor];
    }
  }

  /** Through the floor exactly the prime ancestors of that process are found. */
  lemma LandingsList(c: Committee, u: Unit, pid: nat, floor: seq<Unit>)
    requires Compliant(c, u) && IsFloor(u, pid, floor) && u.level >= 1
    ensures Lists(u, pid, Landings(floor, u.level - 1)) && forall f :: f in floor ==> Compliant(c, f)
  {
    hide Compliant, WellBuilt, Below, OnChain, Landings;
    CompliantIsWellBuilt(c, u);
    forall f | f in floor ensures Compliant(c, f) { CompliantBelow'(c, u, f); }
    forall w ensures w in Landings(floor, u.level - 1) <==> PrimeBelow(u, w) && w.creator == pid {
      LandingsMembers(c, floor, u.level - 1, w);
      if i :| 0 <= i < |floor| && OnChain(floor[i], w) {
        assert floor[i] in floor;
        ChainFacts(c, floor[i], w);
        OnChainIsReach(floor[i], w);
        BelowTransitive(u, floor[i], w);
      }
    }
  }

  /**
   * The prime ancestors of `u` created by `pid`, found through the floor: one for each of its units that reaches the
   * level.
   */
  method Find(ghost c: Committee, u: Unit, pid: nat, floor: seq<Unit>) returns (found: seq<Unit>)
    requires Compliant(c, u) && pid < c.n && u.level >= 1 && IsFloor(u, pid, floor)
    ensures found == Landings(floor, u.level - 1) && Lists(u, pid, found)
  {
    hide Compliant, IsFloor, Lists, Landing;
    LandingsList(c, u, pid, floor);
    found := [];
    for i := 0 to |floor|
      invariant found == Landings(floor[..i], u.level - 1)
    {
      assert floor[i] in floor;
      assert floor[..i + 1][..i] == floor[..i];
      var w := Descend(c, floor[i], u.level - 1);
      if w.level == u.level - 1 {
        found := found + [w];
      }
    }
    assert floor[..|floor|] == floor;
  }

  /** Without forks in view no process has more than one. */
  lemma LoneLanding(u: Unit, pid: nat, floor: seq<Unit>, l: nat)
    requires SeesNoFork(u) && IsFloor(u, pid, floor)
    ensures |Landings(floor, l)| <= 1
  {
    hide Below, OnChain;
    if |floor| > 0 {
      assert Landings(floor[..0], l) == [];
    }
  }
}
