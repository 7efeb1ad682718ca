/** The creator: parent candidates, the level they allow, and the repair of parent sets. */
module Creating {
  import opened Units
  import opened DagOrder
  import opened Quorums
  import opened PrimeAncestors
  import opened Voting

  /** Every slot holds a compliant unit of its own process. */
  ghost predicate GoodSlots(c: Committee, parents: seq<Option<Unit>>) {
    && |parents| == c.n
    && forall i :: 0 <= i < c.n && parents[i].Some? ==> Compliant(c, parents[i].value) && parents[i].value.creator == i
  }

  /** Slot `i` is not lower than what any of the parents shows in it. */
  ghost predicate Dominates(parents: seq<Option<Unit>>, i: nat, upTo: nat) {
    i < |parents| && forall j :: 0 <= j < upTo && j < |parents| && parents[j].Some? ==>
      SlotDominates(parents[i], parents[j].value, i)
  }

  /** A filled slot is kept or strictly raised. */
  ghost predicate NotLower(before: Option<Unit>, after: Option<Unit>) {
    before.Some? ==> after == before || (after.Some? && before.value.level < after.value.level)
  }

  /** Every slot is as before or a unit below some former parent, and no slot is lower. */
  ghost predicate Repaired(before: seq<Option<Unit>>, after: seq<Option<Unit>>) {
    && |after| == |before|
    && forall i :: 0 <= i < |before| ==>
         NotLower(before[i], after[i]) && (after[i] == before[i] || FromBelow(before, after[i]))
  }

  ghost predicate FromBelow(before: seq<Option<Unit>>, slot: Option<Unit>) {
    slot.Some? ==> exists j :: 0 <= j < |before| && before[j].Some? && Reach(before[j].value, slot.value)
  }

  lemma ChildFacts(c: Committee, p: Unit, i: nat)
    requires Compliant(c, p) && i < c.n
    ensures |p.parents| == c.n
    ensures p.parents[i].Some? ==>
      Compliant(c, p.parents[i].value) && p.parents[i].value.creator == i && p.parents[i].value.level <= p.level
        && Reach(p, p.parents[i].value)
  {
    hide NoSelfFork, ParentsConsistent;
    if p.parents[i].Some? {
      TopLevelIsHighest(p.parents);
      ParentBelow(p, p.parents[i].value);
      ReachUnfold(p, p.parents[i].value);
    }
  }

  /** A unit's own slot dominates the unit's predecessor. */
  lemma SelfDominates(c: Committee, p: Unit)
    requires Compliant(c, p)
    ensures SlotDominates(Some(p), p, p.creator)
  {
  }

  /** What slot `k` shows through a parent of `p` it already shows through `p`. */
  lemma DominatesThrough(c: Committee, slot: Option<Unit>, p: Unit, i: nat, k: nat)
    requires Compliant(c, p) && i < c.n && k < c.n && p.parents[i].Some? && SlotDominates(slot, p, k)
    ensures SlotDominates(slot, p.parents[i].value, k)
  {
    assert SlotDominates(p.parents[k], p.parents[i].value, k);
  }

  /** Raising slot `i` to what parent `j` shows there keeps the slots already repaired. */
  lemma RaiseKeepsDone(c: Committee, s: seq<Option<Unit>>, i: nat, j: nat, k: nat)
    requires GoodSlots(c, s) && i < c.n && j < c.n && k < i && s[j].Some? && Dominates(s, k, c.n)
    ensures |s[j].value.parents| == c.n && Dominates(s[i := s[j].value.parents[i]], k, c.n)
  {
    hide Compliant;
    var p := s[j].value;
    ChildFacts(c, p, i);
    var t := s[i := p.parents[i]];
    forall l | 0 <= l < c.n && t[l].Some? ensures SlotDominates(t[k], t[l].value, k) {
      if l == i {
        assert SlotDominates(s[k], p, k);
        DominatesThrough(c, s[k], p, i, k);
      } else {
        assert SlotDominates(s[k], s[l].value, k);
      }
    }
  }

  /** ... and slot `i` now dominates the parents looked at, including `j`. */
  lemma RaiseDominates(c: Committee, s: seq<Option<Unit>>, i: nat, j: nat)
    requires GoodSlots(c, s) && i < c.n && j < c.n && s[j].Some? && Dominates(s, i, j)
    requires |s[j].value.parents| == c.n
    requires var u := s[j].value.parents[i]; s[i].None? || (u.Some? && u.value.level > s[i].value.level)
    ensures Dominates(s[i := s[j].value.parents[i]], i, j + 1)
  {
    hide Compliant;
    ChildFacts(c, s[j].value, i);
    var u := s[j].value.parents[i];
    var t := s[i := u];
    forall l | 0 <= l < j + 1 && t[l].Some? ensures SlotDominates(t[i], t[l].value, i) {
      if l == i {
        SelfDominates(c, u.value);
      } else if l < j {
        assert SlotDominates(s[i], s[l].value, i);
      }
    }
  }

  lemma KeepDominates(c: Committee, s: seq<Option<Unit>>, i: nat, j: nat)
    requires GoodSlots(c, s) && i < c.n && j < c.n && Dominates(s, i, j)
    requires s[j].Some? ==>
      |s[j].value.parents| == c.n && s[i].Some? && (s[j].value.parents[i].Some? ==>
        s[j].value.parents[i].value.level <= s[i].value.level)
    ensures Dominates(s, i, j + 1)
  {
  }

  lemma RaiseRepairs(c: Committee, before: seq<Option<Unit>>, s: seq<Option<Unit>>, i: nat, j: nat)
    requires GoodSlots(c, before) && GoodSlots(c, s) && Repaired(before, s) && i < c.n && j < c.n && s[j].Some?
    requires |s[j].value.parents| == c.n
    requires var u := s[j].value.parents[i]; s[i].None? || (u.Some? && u.value.level > s[i].value.level)
    ensures GoodSlots(c, s[i := s[j].value.parents[i]]) && Repaired(before, s[i := s[j].value.parents[i]])
  {
    hide Compliant;
    var p := s[j].value;
    ChildFacts(c, p, i);
    var u := p.parents[i];
    if u.Some? {
      if s[j] == before[j] {
        assert Reach(before[j].value, u.value);
      } else {
        assert FromBelow(before, s[j]);
        var l :| 0 <= l < |before| && before[l].Some? && Reach(before[l].value, p);
        ReachTransitive(before[l].value, p, u.value);
      }
      assert FromBelow(before, u);
    } else {
      assert before[i].None?;
    }
  }

  /**
   * Makes a set of parents consistent, in place and in one pass, although slots are overwritten while
   * others are still to be read.
   */
  method MakeConsistent(ghost c: Committee, parents: array<Option<Unit>>)
    requires GoodSlots(c, parents[..])
    modifies parents
    ensures GoodSlots(c, parents[..]) && ParentsConsistent(parents[..])
    ensures Repaired(old(parents[..]), parents[..])
    ensures old(ParentsConsistent(parents[..])) ==> parents[..] == old(parents[..])
  {
    hide *;
    ghost var before := parents[..];
    RepairStart(c, before);
    for i := 0 to parents.Length
      invariant GoodSlots(c, parents[..]) && Repaired(before, parents[..])
      invariant DominatesAll(parents[..], i)
      invariant ParentsConsistent(before) ==> parents[..] == before
    {
      NothingYet(c, parents[..], i);
      for j := 0 to parents.Length
        invariant GoodSlots(c, parents[..]) && Repaired(before, parents[..])
        invariant DominatesAll(parents[..], i) && Dominates(parents[..], i, j)
        invariant ParentsConsistent(before) ==> parents[..] == before
      {
        if parents[j].Some? {
          SlotFacts(c, parents[..], j);
          var u := parents[j].value.parents[i];
          if parents[i].None? || (u.Some? && u.value.level > parents[i].value.level) {
            RaiseKeepsAll(c, parents[..], i, j);
            RaiseDominates(c, parents[..], i, j);
            RaiseRepairs(c, before, parents[..], i, j);
            RaiseChangesNothing(c, parents[..], i, j);
            ghost var after := parents[..][i := u];
            parents[i] := u;
            assert parents[..] == after;
          } else {
            KeepDominates(c, parents[..], i, j);
          }
        } else {
          KeepDominates(c, parents[..], i, j);
        }
      }
      SlotDone(c, parents[..], i);
    }
    AllDominated(c, parents[..]);
  }

  ghost predicate DominatesAll(parents: seq<Option<Unit>>, i: nat) {
    forall k :: 0 <= k < i && k < |parents| ==> Dominates(parents, k, |parents|)
  }

  lemma RepairStart(c: Committee, s: seq<Option<Unit>>)
    requires GoodSlots(c, s)
    ensures Repaired(s, s) && DominatesAll(s, 0) && |s| == c.n
  {
  }

  lemma NothingYet(c: Committee, s: seq<Option<Unit>>, i: nat)
    requires GoodSlots(c, s) && i < |s|
    ensures Dominates(s, i, 0) && |s| == c.n
  {
  }

  lemma SlotFacts(c: Committee, s: seq<Option<Unit>>, j: nat)
    requires GoodSlots(c, s) && j < |s| && s[j].Some?
    ensures |s| == c.n && |s[j].value.parents| == c.n
  {
    ChildFacts(c, s[j].value, 0);
  }

  lemma RaiseKeepsAll(c: Committee, s: seq<Option<Unit>>, i: nat, j: nat)
    requires GoodSlots(c, s) && i < c.n && j < c.n && s[j].Some? && DominatesAll(s, i)
    ensures |s[j].value.parents| == c.n && DominatesAll(s[i := s[j].value.parents[i]], i)
  {
    hide Compliant, Dominates;
    ChildFacts(c, s[j].value, i);
    var t, n := s[i := s[j].value.parents[i]], c.n;
    forall k | 0 <= k < i ensures Dominates(t, k, n) {
      RaiseKeepsDone(c, s, i, j, k);
    }
  }

  /** In a consistent set the only thing a raise does is write an empty slot over an empty slot. */
  lemma RaiseChangesNothing(c: Committee, s: seq<Option<Unit>>, i: nat, j: nat)
    requires GoodSlots(c, s) && i < c.n && j < c.n && s[j].Some? && |s[j].value.parents| == c.n
    requires var u := s[j].value.parents[i]; s[i].None? || (u.Some? && u.value.level > s[i].value.level)
    ensures ParentsConsistent(s) ==> s[i := s[j].value.parents[i]] == s
  {
    hide Compliant;
    if ParentsConsistent(s) {
      assert SlotDominates(s[i], s[j].value, i);
    }
  }

  lemma SlotDone(c: Committee, s: seq<Option<Unit>>, i: nat)
    requires DominatesAll(s, i) && Dominates(s, i, |s|)
    ensures DominatesAll(s, i + 1)
  {
  }

  lemma AllDominated(c: Committee, s: seq<Option<Unit>>)
    requires DominatesAll(s, |s|)
    ensures ParentsConsistent(s)
  {
    forall i, j | 0 <= i < |s| && 0 <= j < |s| && s[j].Some? ensures SlotDominates(s[i], s[j].value, i) {
      assert Dominates(s, i, |s|);
    }
  }

  // ------------------------------------------------------------------ the creator

  /** `candidates` holds, for every process, a unit of the highest level delivered so far. */
  ghost predicate Candidates(c: Committee, delivered: set<Unit>, candidates: seq<Option<Unit>>) {
    && GoodSlots(c, candidates)
    && (forall i :: 0 <= i < c.n && candidates[i].Some? ==> candidates[i].value in delivered)
    && (forall u :: u in delivered ==>
        u.creator < c.n && candidates[u.creator].Some? && u.level <= candidates[u.creator].value.level)
  }

  /** What has been delivered: compliant units, parents first. */
  ghost predicate Delivered(c: Committee, delivered: set<Unit>) {
    ParentClosed(delivered) && forall u :: u in delivered ==> Compliant(c, u)
  }

  /** With parents delivered first the candidates are already consistent. */
  lemma CandidatesConsistent(c: Committee, delivered: set<Unit>, candidates: seq<Option<Unit>>)
    requires Delivered(c, delivered) && Candidates(c, delivered, candidates)
    ensures ParentsConsistent(candidates)
  {
    hide Compliant;
    forall i, j | 0 <= i < |candidates| && 0 <= j < |candidates| && candidates[j].Some?
      ensures SlotDominates(candidates[i], candidates[j].value, i)
    {
      var p := candidates[j].value;
      ChildFacts(c, p, i);
      if p.parents[i].Some? {
        assert IsParent(p, p.parents[i].value);
      }
    }
  }

  /** Candidate bookkeeping: the highest level, how many candidates are on it, and the level they allow. */
  ghost predicate Levels(c: Committee, candidates: seq<Option<Unit>>, maxLvl: int, onMaxLvl: nat, level: nat) {
    && level == LevelOver(candidates, c.q)
    && maxLvl >= -1
    && (maxLvl == -1 ==> onMaxLvl == 0 && forall i :: 0 <= i < |candidates| ==> candidates[i].None?)
    && (maxLvl >= 0 ==> maxLvl == TopLevel(candidates) && onMaxLvl == |SlotsOnLevel(candidates, maxLvl)| > 0)
  }

  lemma LevelIs(c: Committee, candidates: seq<Option<Unit>>, maxLvl: int, onMaxLvl: nat, level: nat)
    requires Levels(c, candidates, maxLvl, onMaxLvl, level)
    ensures level == LevelOver(candidates, c.q)
  {
  }

  lemma LevelsStart(c: Committee, candidates: seq<Option<Unit>>)
    requires c.Valid() && forall i :: 0 <= i < |candidates| ==> candidates[i].None?
    ensures Levels(c, candidates, -1, 0, 0)
  {
    TopLevelIsHighest(candidates);
    assert SlotsOnLevel(candidates, TopLevel(candidates)) == {};
  }

  /** The top level is the one level that some candidate is on and none is above. */
  lemma TopLevelIs(candidates: seq<Option<Unit>>, m: nat)
    requires exists i :: 0 <= i < |candidates| && candidates[i].Some? && candidates[i].value.level == m
    requires forall i :: 0 <= i < |candidates| && candidates[i].Some? ==> candidates[i].value.level <= m
    ensures TopLevel(candidates) == m
  {
    TopLevelIsHighest(candidates);
  }

  /** Replacing a lower candidate moves the counters as the incremental update does. */
  lemma LevelsUpdate(c: Committee, s: seq<Option<Unit>>, maxLvl: int, onMaxLvl: nat, level: nat, u: Unit)
    requires c.Valid() && Levels(c, s, maxLvl, onMaxLvl, level) && u.creator < |s|
    requires s[u.creator].None? || s[u.creator].value.level < u.level
    ensures var m := if u.level > maxLvl then u.level else maxLvl;
      var on := if u.level > maxLvl then 1 else if u.level == maxLvl then onMaxLvl + 1 else onMaxLvl;
      Levels(c, s[u.creator := Some(u)], m, on, if on >= c.q then m + 1 else m)
  {
    hide TopLevel;
    TopLevelIsHighest(s);
    var t := s[u.creator := Some(u)];
    assert t[u.creator] == Some(u);
    if u.level > maxLvl {
      TopLevelIs(t, u.level);
      assert SlotsOnLevel(t, u.level) == {u.creator};
    } else {
      var i :| i in SlotsOnLevel(s, maxLvl);
      assert u.level < maxLvl ==> i != u.creator;
      assert t[i].Some? && t[i].value.level == maxLvl;
      TopLevelIs(t, maxLvl);
      if u.level == maxLvl {
        assert SlotsOnLevel(t, maxLvl) == SlotsOnLevel(s, maxLvl) + {u.creator};
      } else {
        assert SlotsOnLevel(t, maxLvl) == SlotsOnLevel(s, maxLvl);
      }
    }
  }

  // --------------------------------------------------- parents for the next level

  /** The slots whose candidate has reached level `l`. */
  ghost function SlotsFrom(s: seq<Option<Unit>>, l: nat): set<nat> {
    set i: nat | i < |s| && s[i].Some? && s[i].value.level >= l
  }

  /** If the candidates allow a unit on `level`, a quorum of them has reached the level under it. */
  lemma QuorumReached(c: Committee, delivered: set<Unit>, s: seq<Option<Unit>>, level: nat)
    requires c.Valid() && Delivered(c, delivered) && Candidates(c, delivered, s) && 1 <= level <= LevelOver(s, c.q)
    ensures |SlotsFrom(s, level - 1)| >= c.q
  {
    hide Compliant, ParentClosed;
    var m := TopLevel(s);
    TopLevelIsHighest(s);
    if m >= level {
      var i :| 0 <= i < |s| && s[i].Some? && s[i].value.level == m;
      var w := LevelsPopulated(c, s[i].value, level);
      ClosedUnderReach(delivered, s[i].value, w);
      QuorumBelow(c, w);
      forall p | p in AncestorCreators(c, w) ensures p in SlotsFrom(s, level - 1) {
        var x :| PrimeBelow(w, x) && x.creator == p;
        ReachUnfold(w, x);
        ClosedUnderReach(delivered, w, x);
      }
      SubsetSize(AncestorCreators(c, w), SlotsFrom(s, level - 1));
    } else {
      SubsetSize(SlotsOnLevel(s, m), SlotsFrom(s, level - 1));
    }
  }

  lemma PredecessorCompliant(c: Committee, u: Unit)
    requires Compliant(c, u)
    ensures u.creator < |u.parents| && (Predecessor(u).Some? ==> Compliant(c, Predecessor(u).value))
  {
    hide NoSelfFork, ParentsConsistent;
  }

  /** Follows predecessors down to the first unit under `level`. */
  method WalkUnder(ghost c: Committee, slot: Option<Unit>, level: nat) returns (r: Option<Unit>)
    requires slot.Some? ==> Compliant(c, slot.value)
    ensures r.Some? ==> slot.Some? && OnChain(slot.value, r.value) && r.value.level < level
    ensures forall x :: slot.Some? && OnChain(slot.value, x) && x.level < level ==> r.Some? && x.level <= r.value.level
    ensures slot.Some? && slot.value.level < level ==> r == slot
  {
    hide Compliant;
    r := slot;
    while r.Some? && r.value.level >= level
      invariant r.Some? ==> slot.Some? && Compliant(c, r.value) && OnChain(slot.value, r.value)
      invariant forall x :: slot.Some? && OnChain(slot.value, x) && x.level < level ==> r.Some? && OnChain(r.value, x)
      invariant slot.Some? && slot.value.level < level ==> r == slot
      decreases r
    {
      PredecessorCompliant(c, r.value);
      if Predecessor(r.value).Some? {
        OnChainTransitive(slot.value, r.value, Predecessor(r.value).value);
      }
      r := Predecessor(r.value);
    }
    forall x | slot.Some? && OnChain(slot.value, x) && x.level < level ensures r.Some? && x.level <= r.value.level {
      ChainFacts(c, r.value, x);
    }
  }

  /** `r` is `s` with every slot walked down under `level`. */
  ghost predicate Walked(s: seq<Option<Unit>>, r: seq<Option<Unit>>, level: nat, n: nat) {
    |r| == n <= |s| && forall i :: 0 <= i < n ==> WalkedSlot(s[i], r[i], level)
  }

  ghost predicate WalkedSlot(slot: Option<Unit>, r: Option<Unit>, level: nat) {
    && (r.Some? ==> slot.Some? && OnChain(slot.value, r.value) && r.value.level < level)
    && (forall x :: slot.Some? && OnChain(slot.value, x) && x.level < level ==> r.Some? && x.level <= r.value.level)
    && (slot.Some? && slot.value.level < level ==> r == slot)
  }

  /** Nobody skips levels: every unit's level is its height. */
  ghost predicate NoSkips(delivered: set<Unit>) {
    forall u :: u in delivered ==> u.level == u.height
  }

  lemma {:induction false} ChainAtHeight(c: Committee, u: Unit, k: nat) returns (x: Unit)
    requires Compliant(c, u) && k <= u.height
    ensures OnChain(u, x) && x.height == k
    decreases u
  {
    if k == u.height {
      x := u;
    } else {
      x := ChainAtHeight(c, Predecessor(u).value, k);
    }
  }

  /** A candidate that has reached the level walks down exactly onto it. */
  lemma WalkLands(c: Committee, delivered: set<Unit>, s: seq<Option<Unit>>, r: seq<Option<Unit>>, level: nat, i: nat)
    requires Delivered(c, delivered) && NoSkips(delivered) && Candidates(c, delivered, s) && level >= 1
    requires Walked(s, r, level, c.n) && i in SlotsFrom(s, level - 1)
    ensures r[i].Some? && r[i].value.level == level - 1
  {
    hide Compliant, ParentClosed;
    assert WalkedSlot(s[i], r[i], level);
    var u := s[i].value;
    var x := ChainAtHeight(c, u, level - 1);
    OnChainIsReach(u, x);
    ClosedUnderReach(delivered, u, x);
  }

  lemma WalkedGood(c: Committee, delivered: set<Unit>, s: seq<Option<Unit>>, r: seq<Option<Unit>>, level: nat, i: nat)
    requires Delivered(c, delivered) && Candidates(c, delivered, s) && Walked(s, r, level, c.n) && i < c.n && r[i].Some?
    ensures Compliant(c, r[i].value) && r[i].value.creator == i && r[i].value in delivered && r[i].value.level < level
  {
    hide Compliant, ParentClosed;
    assert WalkedSlot(s[i], r[i], level);
    ChainFacts(c, s[i].value, r[i].value);
    OnChainIsReach(s[i].value, r[i].value);
    ClosedUnderReach(delivered, s[i].value, r[i].value);
    CompliantBelow(c, s[i].value, r[i].value);
  }

  /** The repaired set stays within what was delivered and under the level. */
  lemma RepairedWithin(c: Committee, delivered: set<Unit>, r: seq<Option<Unit>>, t: seq<Option<Unit>>, level: nat,
      i: nat)
    requires Delivered(c, delivered) && GoodSlots(c, r) && Repaired(r, t) && i < c.n && t[i].Some?
    requires forall j :: 0 <= j < c.n && r[j].Some? ==> r[j].value in delivered && r[j].value.level < level
    ensures t[i].value in delivered && t[i].value.level < level
  {
    hide Compliant, ParentClosed;
    if t[i] != r[i] {
      assert FromBelow(r, t[i]);
      var j :| 0 <= j < |r| && r[j].Some? && Reach(r[j].value, t[i].value);
      LevelsGrow(c, r[j].value, t[i].value);
      ClosedUnderReach(delivered, r[j].value, t[i].value);
    }
  }

  /** Without level skipping the chosen parents give exactly the level asked for. */
  lemma ParentsGiveLevel(c: Committee, delivered: set<Unit>, s: seq<Option<Unit>>, r: seq<Option<Unit>>,
      t: seq<Option<Unit>>, level: nat)
    requires c.Valid() && Delivered(c, delivered) && NoSkips(delivered) && Candidates(c, delivered, s)
    requires 1 <= level <= LevelOver(s, c.q)
    requires Walked(s, r, level, c.n) && GoodSlots(c, r) && GoodSlots(c, t) && Repaired(r, t)
    ensures LevelOver(t, c.q) == level
    ensures forall i :: 0 <= i < c.n && t[i].Some? ==> t[i].value in delivered && t[i].value.level < level
  {
    hide Compliant, ParentClosed, Delivered, Candidates, NoSkips, Walked, FromBelow;
    forall j | 0 <= j < c.n && r[j].Some? ensures r[j].value in delivered && r[j].value.level < level {
      WalkedGood(c, delivered, s, r, level, j);
    }
    forall i | 0 <= i < c.n && t[i].Some? ensures t[i].value in delivered && t[i].value.level < level {
      RepairedWithin(c, delivered, r, t, level, i);
    }
    QuorumReached(c, delivered, s, level);
    CandidateCount(c, delivered, s);
    var reached, onLevel := SlotsFrom(s, level - 1), SlotsOnLevel(t, level - 1);
    forall i | i in reached ensures i in onLevel {
      WalkLands(c, delivered, s, r, level, i);
      assert NotLower(r[i], t[i]);
    }
    SubsetSize(reached, onLevel);
    var i :| i in SlotsOnLevel(t, level - 1);
    TopLevelIs(t, level - 1);
  }

  lemma CandidateCount(c: Committee, delivered: set<Unit>, s: seq<Option<Unit>>)
    requires Candidates(c, delivered, s)
    ensures |s| == c.n
  {
  }

  lemma WalkedHighest(s: seq<Option<Unit>>, r: seq<Option<Unit>>, t: seq<Option<Unit>>, level: nat)
    requires Walked(s, r, level, |s|) && Repaired(r, t)
    ensures forall i, x :: 0 <= i < |s| && s[i].Some? && OnChain(s[i].value, x) && x.level < level ==>
      t[i].Some? && x.level <= t[i].value.level
  {
    hide FromBelow;
    forall i, x | 0 <= i < |s| && s[i].Some? && OnChain(s[i].value, x) && x.level < level
      ensures t[i].Some? && x.level <= t[i].value.level
    {
      assert WalkedSlot(s[i], r[i], level);
      assert NotLower(r[i], t[i]);
    }
  }

  // ------------------------------------------------------------- creating units

  /** Our own units all lie on the chain of the latest one. */
  ghost predicate OwnChain(delivered: set<Unit>, own: Unit) {
    forall v :: v in delivered && v.creator == own.creator ==> OnChain(own, v)
  }

  /** A unit built on top of our latest one from consistent parents is compliant. */
  lemma NewUnitCompliant(c: Committee, delivered: set<Unit>, own: Unit, u: Unit)
    requires c.Valid() && Delivered(c, delivered) && own in delivered && OwnChain(delivered, own)
    requires GoodSlots(c, u.parents) && ParentsConsistent(u.parents)
    requires forall i :: 0 <= i < c.n && u.parents[i].Some? ==> u.parents[i].value in delivered
    requires u.creator == own.creator < c.n && u.parents[own.creator] == Some(own) && u.height == own.height + 1
    requires u.level == LevelOver(u.parents, c.q) && own.level < u.level
    ensures Compliant(c, u) && OwnChain(delivered + {u}, u) && forall p :: IsParent(u, p) ==> p in delivered
  {
    hide Compliant, ParentClosed;
    assert Predecessor(u) == Some(own);
    forall v | Below(u, v) ensures v in delivered {
      var p :| IsParent(u, p) && Reach(p, v);
      ClosedUnderReach(delivered, p, v);
    }
    assert NoSelfFork(u);
    assert WellBuilt(c, u);
    CompliantIsWellBuilt(c, u);
  }

  lemma DealingCompliant(c: Committee, u: Unit)
    requires c.Valid() && u.creator < c.n && u.height == 0 && u.level == 0 && u.parents == seq(c.n, i => None)
    ensures Compliant(c, u) && OwnChain({u}, u) && Delivered(c, {u}) && forall p :: !IsParent(u, p)
  {
    hide Compliant;
    LevelsStart(c, u.parents);
    assert forall p :: !IsParent(u, p);
    assert forall v :: !Below(u, v);
    assert WellBuilt(c, u);
    CompliantIsWellBuilt(c, u);
  }

  /** Each unit has the one before it in the slot of `pid`, the first one has `first`. */
  ghost predicate BuiltOn(created: seq<Unit>, pid: nat, first: Unit) {
    forall i :: 0 <= i < |created| ==>
      pid < |created[i].parents| && created[i].parents[pid] == Some(([first] + created)[i])
  }

  lemma NothingBuilt(pid: nat, first: Unit)
    ensures BuiltOn([], pid, first)
  {
  }

  lemma BuiltNext(created: seq<Unit>, pid: nat, first: Unit, u: Unit)
    requires BuiltOn(created, pid, first) && pid < |u.parents|
    requires u.parents[pid] == Some(([first] + created)[|created|])
    ensures BuiltOn(created + [u], pid, first)
  {
    var more := created + [u];
    assert [first] + more == ([first] + created) + [u];
  }

  class Creator {
    const c: Committee
    const pid: nat
    const canSkipLevel: bool
    const seal: (nat, seq<Option<Unit>>) -> Hash
    var candidates: seq<Option<Unit>>
    var maxLvl: int
    var onMaxLvl: nat
    var level: nat
    ghost var delivered: set<Unit>

    ghost predicate Bookkept()
      reads this
    {
      && c.Valid() && pid < c.n
      && Delivered(c, delivered)
      && Candidates(c, delivered, candidates)
      && Levels(c, candidates, maxLvl, onMaxLvl, level)
      && (!canSkipLevel ==> NoSkips(delivered))
    }

    /** The counters match the candidates, and our latest unit is on top of all our units. */
    ghost predicate Valid()
      reads this
    {
      && Bookkept()
      && |candidates| == c.n && candidates[pid].Some? && OwnChain(delivered, candidates[pid].value)
    }

    function Own(): Unit
      requires pid < |candidates| && candidates[pid].Some?
      reads this
    {
      candidates[pid].value
    }

    /** Starts an epoch: no candidates, then our dealing unit. */
    constructor (c: Committee, pid: nat, canSkipLevel: bool, seal: (nat, seq<Option<Unit>>) -> Hash)
      requires c.Valid() && pid < c.n
      ensures Valid() && Own().height == 0 && delivered == {Own()}
    {
      this.c, this.pid, this.canSkipLevel, this.seal := c, pid, canSkipLevel, seal;
      candidates := seq(c.n, i => None);
      maxLvl, onMaxLvl, level := -1, 0, 0;
      delivered := {};
      new;
      LevelsStart(c, candidates);
      var none := seq(c.n, i => None);
      var dealing := Unit(pid, 0, 0, none, seal(0, none));
      DealingCompliant(c, dealing);
      UpdateCandidates(dealing);
      assert delivered == {dealing};
    }

    /** Takes a delivered unit as candidate if it is on a higher level than the previous one of its creator. */
    method UpdateCandidates(u: Unit)
      requires Bookkept() && Compliant(c, u) && (forall p :: IsParent(u, p) ==> p in delivered)
      requires !canSkipLevel ==> u.level == u.height
      modifies this
      ensures Bookkept() && delivered == old(delivered) + {u}
      ensures |candidates| == |old(candidates)| == c.n && u.creator < c.n
      ensures candidates == if old(candidates)[u.creator].None? || old(candidates)[u.creator].value.level < u.level
                            then old(candidates)[u.creator := Some(u)] else old(candidates)
    {
      hide Compliant, ParentClosed, Levels;
      DeliverFacts(c, delivered, candidates, u);
      var prev := candidates[u.creator];
      if prev.None? || prev.value.level < u.level {
        LevelsUpdate(c, candidates, maxLvl, onMaxLvl, level, u);
        candidates := candidates[u.creator := Some(u)];
        if u.level == maxLvl {
          onMaxLvl := onMaxLvl + 1;
        }
        if u.level > maxLvl {
          maxLvl := u.level;
          onMaxLvl := 1;
        }
        level := maxLvl;
        if onMaxLvl >= c.q {
          level := level + 1;
        }
      }
      delivered := delivered + {u};
    }

    /** A unit of another process arrives, or one of ours that we already know. */
    method Update(u: Unit)
      requires Valid() && Compliant(c, u) && (forall p :: IsParent(u, p) ==> p in delivered)
      requires !canSkipLevel ==> u.level == u.height
      requires u.creator == pid ==> u in delivered
      modifies this
      ensures Valid() && delivered == old(delivered) + {u} && Own() == old(Own())
    {
      hide Compliant, ParentClosed, Levels, OwnChain;
      KnownOwn(c, delivered, candidates, pid, u);
      UpdateCandidates(u);
    }

    predicate Ready()
      requires pid < |candidates| && candidates[pid].Some?
      reads this
    {
      level > candidates[pid].value.level
    }

    /** Parents for a new unit and the level they give, in either mode. */
    method BuildParents() returns (parents: seq<Option<Unit>>, lvl: nat)
      requires Valid() && LevelOver(candidates, c.q) > Own().level
      ensures GoodSlots(c, parents) && ParentsConsistent(parents) && |parents| == c.n
      ensures lvl == LevelOver(parents, c.q) && lvl > Own().level && parents[pid] == candidates[pid]
      ensures forall i :: 0 <= i < c.n && parents[i].Some? ==> parents[i].value in delivered
      ensures canSkipLevel ==> lvl == LevelOver(candidates, c.q) && parents == candidates
      ensures !canSkipLevel ==> lvl == Own().level + 1
    {
      hide Compliant, ParentClosed, OwnChain, NoSkips, ParentsConsistent;
      if canSkipLevel {
        lvl := level;
        var arr := new Option<Unit>[c.n](i requires 0 <= i < c.n reads this => if i < |candidates|
          then candidates[i] else None);
        assert arr[..] == candidates;
        CandidatesConsistent(c, delivered, candidates);
        MakeConsistent(c, arr);
        parents := arr[..];
      } else {
        lvl := candidates[pid].value.level + 1;
        parents := GetParentsForLevel(lvl);
      }
    }

    /** In every slot the highest unit of the candidate's chain under the level, or a higher one that others show. */
    method GetParentsForLevel(lvl: nat) returns (parents: seq<Option<Unit>>)
      requires Valid() && NoSkips(delivered) && lvl == Own().level + 1 && lvl <= LevelOver(candidates, c.q)
      ensures GoodSlots(c, parents) && ParentsConsistent(parents)
      ensures LevelOver(parents, c.q) == lvl && parents[pid] == candidates[pid]
      ensures forall i :: 0 <= i < c.n && parents[i].Some? ==> parents[i].value in delivered
      ensures forall i, x :: 0 <= i < c.n && candidates[i].Some? && OnChain(candidates[i].value, x) && x.level < lvl ==>
        parents[i].Some? && x.level <= parents[i].value.level
    {
      hide Compliant, ParentClosed, OwnChain, ParentsConsistent, NoSkips, Delivered, LevelOver, WalkedSlot;
      var result: seq<Option<Unit>> := [];
      for i := 0 to c.n
        invariant Walked(candidates, result, lvl, i)
      {
        var r := WalkUnder(c, candidates[i], lvl);
        WalkedHere(candidates[i], r, lvl);
        result := result + [r];
      }
      forall i | 0 <= i < c.n && result[i].Some? ensures Compliant(c, result[i].value) && result[i].value.creator == i {
        WalkedGood(c, delivered, candidates, result, lvl, i);
      }
      var arr := new Option<Unit>[c.n](i requires 0 <= i < c.n => if i < |result| then result[i] else None);
      assert arr[..] == result;
      MakeConsistent(c, arr);
      parents := arr[..];
      ParentsGiveLevel(c, delivered, candidates, result, parents, lvl);
      WalkedHighest(candidates, result, parents, lvl);
      WalkedKept(candidates[pid], result[pid], lvl);
      assert NotLower(result[pid], parents[pid]);
    }

    /** Creates a unit from the given parents and takes it as our new candidate. */
    method CreateUnit(parents: seq<Option<Unit>>, lvl: nat) returns (u: Unit)
      requires Valid() && GoodSlots(c, parents) && ParentsConsistent(parents)
      requires lvl == LevelOver(parents, c.q) && lvl > Own().level && parents[pid] == candidates[pid]
      requires forall i :: 0 <= i < c.n && parents[i].Some? ==> parents[i].value in delivered
      requires !canSkipLevel ==> lvl == Own().level + 1
      modifies this
      ensures Valid() && Own() == u && delivered == old(delivered) + {u}
      ensures Compliant(c, u) && u.level == lvl && u.parents == parents && u.creator == pid
      ensures candidates == old(candidates)[pid := Some(u)]
    {
      hide Compliant, ParentClosed, Levels, OwnChain, ParentsConsistent;
      var height := candidates[pid].value.height + 1;
      u := Unit(pid, height, lvl, parents, seal(height, parents));
      OwnInDelivered(c, delivered, candidates, pid);
      NewUnitCompliant(c, delivered, candidates[pid].value, u);
      UpdateCandidates(u);
    }

    /** Creates units, each on top of the one before, as long as the candidates allow a level above our latest one. */
    method CreateReady() returns (created: seq<Unit>)
      requires Valid() && c.q >= 2
      modifies this
      ensures Valid() && LevelOver(candidates, c.q) <= Own().level
      ensures old(LevelOver(candidates, c.q) > Own().level) <==> created != []
      ensures Own() == if created == [] then old(Own()) else created[|created| - 1]
      ensures candidates == old(candidates)[pid := Some(Own())]
      ensures BuiltOn(created, pid, old(Own()))
      ensures forall i :: 0 <= i < |created| ==>
        Compliant(c, created[i]) && created[i].creator == pid && created[i].level == LevelOver(created[i].parents, c.q)
      ensures forall i, j :: 0 <= i < j < |created| ==> created[i].level < created[j].level
      ensures forall i :: 0 <= i < |created| ==> old(Own()).level < created[i].level <= Own().level
    {
      hide Compliant, ParentClosed, Levels, OwnChain, ParentsConsistent, Delivered, Candidates, NoSkips, GoodSlots,
        LevelOver, TopLevel, BuiltOn;
      created := [];
      NothingBuilt(pid, Own());
      ghost var others := candidates[pid := None];
      while Ready()
        invariant Valid() && candidates[pid := None] == others && old(Own()).level <= Own().level
        invariant created == [] ==> candidates == old(candidates)
        invariant created != [] ==> old(LevelOver(candidates, c.q) > Own().level)
        invariant Own() == if created == [] then old(Own()) else created[|created| - 1]
        invariant candidates == old(candidates)[pid := Some(Own())]
        invariant BuiltOn(created, pid, old(Own()))
        invariant forall i :: 0 <= i < |created| ==>
          Compliant(c, created[i]) && created[i].creator == pid
            && created[i].level == LevelOver(created[i].parents, c.q)
        invariant forall i, j :: 0 <= i < j < |created| ==> created[i].level < created[j].level
        invariant forall i :: 0 <= i < |created| ==> old(Own()).level < created[i].level <= Own().level
        decreases TopLevel(others) + 1 - Own().level
      {
        ReadyMeansBehind(c, candidates, pid, level, maxLvl, onMaxLvl);
        LevelIs(c, candidates, maxLvl, onMaxLvl, level);
        var parents, lvl := BuildParents();
        var u := CreateUnit(parents, lvl);
        BuiltNext(created, pid, old(Own()), u);
        created := created + [u];
      }
      LevelIs(c, candidates, maxLvl, onMaxLvl, level);
    }
  }

  lemma DeliverFacts(c: Committee, delivered: set<Unit>, s: seq<Option<Unit>>, u: Unit)
    requires Delivered(c, delivered) && Candidates(c, delivered, s) && Compliant(c, u) && forall p :: IsParent(u, p) ==>
      p in delivered
    ensures u.creator < c.n && |s| == c.n && Delivered(c, delivered + {u})
    ensures s[u.creator].None? || s[u.creator].value.level < u.level ==>
      Candidates(c, delivered + {u}, s[u.creator := Some(u)])
    ensures !(s[u.creator].None? || s[u.creator].value.level < u.level) ==> Candidates(c, delivered + {u}, s)
  {
    hide Compliant;
    CreatorIsProcess(c, u);
  }

  lemma KnownOwn(c: Committee, delivered: set<Unit>, s: seq<Option<Unit>>, pid: nat, u: Unit)
    requires Candidates(c, delivered, s) && pid < c.n && s[pid].Some? && OwnChain(delivered, s[pid].value)
    requires u.creator == pid ==> u in delivered
    ensures u.creator == pid ==> u.level <= s[pid].value.level
    ensures OwnChain(delivered + {u}, s[pid].value)
  {
  }

  lemma OwnInDelivered(c: Committee, delivered: set<Unit>, s: seq<Option<Unit>>, pid: nat)
    requires Candidates(c, delivered, s) && pid < c.n && s[pid].Some?
    ensures s[pid].value in delivered && s[pid].value.creator == pid
  {
  }

  lemma WalkedHere(slot: Option<Unit>, r: Option<Unit>, level: nat)
    requires r.Some? ==> slot.Some? && OnChain(slot.value, r.value) && r.value.level < level
    requires forall x :: slot.Some? && OnChain(slot.value, x) && x.level < level ==> r.Some? && x.level <= r.value.level
    requires slot.Some? && slot.value.level < level ==> r == slot
    ensures WalkedSlot(slot, r, level)
  {
  }

  lemma WalkedKept(slot: Option<Unit>, r: Option<Unit>, level: nat)
    requires WalkedSlot(slot, r, level) && slot.Some? && slot.value.level < level
    ensures r == slot
  {
  }

  /** A committee whose quorum is one process has no other: it is always ready, so creating never stops by itself. */
  lemma LoneCreatorIsReady(c: Committee, s: seq<Option<Unit>>, level: nat, maxLvl: int, onMaxLvl: nat)
    requires c.Valid() && c.q == 1 && |s| == c.n && s[0].Some? && Levels(c, s, maxLvl, onMaxLvl, level)
    ensures c.n == 1 && level == s[0].value.level + 1
  {
    assert s[0].value.level == TopLevel(s);
    assert 0 in SlotsOnLevel(s, TopLevel(s));
  }

  /** A creator that can make a unit is not above the other candidates. */
  lemma ReadyMeansBehind(c: Committee, s: seq<Option<Unit>>, pid: nat, level: nat, maxLvl: int, onMaxLvl: nat)
    requires c.Valid() && c.q >= 2 && pid < |s| && s[pid].Some? && Levels(c, s, maxLvl, onMaxLvl, level)
    requires level > s[pid].value.level
    ensures s[pid].value.level <= TopLevel(s[pid := None])
  {
    var others := s[pid := None];
    var m := TopLevel(s);
    TopLevelIsHighest(others);
    if s[pid].value.level > TopLevel(others) {
      forall i | 0 <= i < |s| && i != pid && s[i].Some? ensures s[i].value.level < s[pid].value.level {
        assert others[i] == s[i];
      }
      TopLevelIs(s, s[pid].value.level);
      assert SlotsOnLevel(s, m) <= {pid};
      SubsetSize(SlotsOnLevel(s, m), {pid});
    }
  }
}
