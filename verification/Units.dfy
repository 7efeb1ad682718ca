/** Units of the dag and the checks a unit passes before it is inserted. */
module Units {

  datatype Option<+T> = None | Some(value: T)

  type Byte = bv8

  /** A 32-byte hash. */
  type Hash = h: seq<Byte> | |h| == 32 witness seq(32, i => 0)

  /**
   * A unit together with everything below it: one parent slot per process.
   * Two units are the same exactly when they are equal as values; `hash` is the
   * byte string used to break ties.
   */
  datatype Unit = Unit(
    creator: nat,
    height: nat,
    level: nat,
    parents: seq<Option<Unit>>,
    hash: Hash)

  /** No unit occurs twice. */
  ghost predicate NoDup(s: seq<Unit>) {
    forall i, j :: 0 <= i < j < |s| ==> s[i] != s[j]
  }

  /** The number of processes and the size of a quorum among them. */
  datatype Committee = Committee(n: nat, q: nat) {
    ghost predicate Valid() {
      0 < q <= n < 2 * q
    }
  }

  // ---------------------------------------------------------------- the order

  /** `p` fills some parent slot of `u`. */
  ghost predicate IsParent(u: Unit, p: Unit) {
    exists i :: 0 <= i < |u.parents| && u.parents[i] == Some(p)
  }

  lemma ParentIsSmaller(u: Unit, p: Unit)
    requires IsParent(u, p)
    ensures p < u
  {
    var i :| 0 <= i < |u.parents| && u.parents[i] == Some(p);
    assert u.parents[i] < u;
  }

  /** `v` is reachable from `u` through parents, in zero or more steps. */
  ghost predicate Reach(u: Unit, v: Unit)
    decreases u
  {
    u == v || exists i :: 0 <= i < |u.parents| && u.parents[i].Some? && Reach(u.parents[i].value, v)
  }

  /** `v` is reachable from `u` in at least one step. */
  ghost predicate Below(u: Unit, v: Unit) {
    exists p :: IsParent(u, p) && Reach(p, v)
  }

  lemma ReachUnfold(u: Unit, v: Unit)
    ensures Reach(u, v) <==> u == v || Below(u, v)
  {
    if Reach(u, v) && u != v {
      var i :| 0 <= i < |u.parents| && u.parents[i].Some? && Reach(u.parents[i].value, v);
      assert IsParent(u, u.parents[i].value);
    }
    if Below(u, v) {
      var p :| IsParent(u, p) && Reach(p, v);
      var i :| 0 <= i < |u.parents| && u.parents[i] == Some(p);
      assert u.parents[i].Some? && Reach(u.parents[i].value, v);
    }
  }

  lemma {:induction false} ReachTransitive(u: Unit, v: Unit, w: Unit)
    requires Reach(u, v) && Reach(v, w)
    ensures Reach(u, w)
    decreases u
  {
    if u != v {
      var i :| 0 <= i < |u.parents| && u.parents[i].Some? && Reach(u.parents[i].value, v);
      ReachTransitive(u.parents[i].value, v, w);
    }
  }

  lemma {:induction false} BelowIsSmaller(u: Unit, v: Unit)
    requires Below(u, v)
    ensures v < u
    decreases u
  {
    var p :| IsParent(u, p) && Reach(p, v);
    ParentIsSmaller(u, p);
    if p != v {
      ReachUnfold(p, v);
      BelowIsSmaller(p, v);
    }
  }

  lemma ReachAntisymmetric(u: Unit, v: Unit)
    requires Reach(u, v) && Reach(v, u)
    ensures u == v
  {
    if u != v {
      ReachUnfold(u, v);
      BelowIsSmaller(u, v);
      ReachUnfold(v, u);
      BelowIsSmaller(v, u);
    }
  }

  lemma BelowTransitive(u: Unit, v: Unit, w: Unit)
    requires (Below(u, v) && Reach(v, w)) || (Reach(u, v) && Below(v, w))
    ensures Below(u, w)
  {
    ReachUnfold(u, v);
    ReachUnfold(v, w);
    if Below(u, v) {
      var p :| IsParent(u, p) && Reach(p, v);
      ReachTransitive(p, v, w);
    }
  }

  // ----------------------------------------------- predecessors within a process

  function Predecessor(u: Unit): Option<Unit>
  {
    if u.creator < |u.parents| then u.parents[u.creator] else None
  }

  /** `v` is `u` or is met when following predecessors down from `u`. */
  ghost predicate OnChain(u: Unit, v: Unit)
    decreases u
  {
    u == v || (Predecessor(u).Some? && OnChain(Predecessor(u).value, v))
  }

  lemma {:induction false} OnChainIsReach(u: Unit, v: Unit)
    requires OnChain(u, v)
    ensures Reach(u, v)
    decreases u
  {
    if u != v {
      OnChainIsReach(Predecessor(u).value, v);
    }
  }

  lemma {:induction false} OnChainTransitive(u: Unit, v: Unit, w: Unit)
    requires OnChain(u, v) && OnChain(v, w)
    ensures OnChain(u, w)
    decreases u
  {
    if u != v {
      OnChainTransitive(Predecessor(u).value, v, w);
    }
  }

  /** Two units of one chain are comparable. */
  lemma {:induction false} ChainIsTotal(u: Unit, v: Unit, w: Unit)
    requires OnChain(u, v) && OnChain(u, w)
    ensures OnChain(v, w) || OnChain(w, v)
    decreases u
  {
    if u != v && u != w {
      ChainIsTotal(Predecessor(u).value, v, w);
    }
  }

  // --------------------------------------------------------------------- levels

  /** The slots holding a parent on level `l`. */
  function SlotsOnLevel(parents: seq<Option<Unit>>, l: nat): set<nat> {
    set i: nat | i < |parents| && parents[i].Some? && parents[i].value.level == l
  }

  /** The highest level among the parents, 0 when there is none. */
  function TopLevel(parents: seq<Option<Unit>>): nat {
    TopLevelUpTo(parents, |parents|)
  }

  function TopLevelUpTo(parents: seq<Option<Unit>>, k: nat): nat
    requires k <= |parents|
  {
    if k == 0 then 0 else
    var m := TopLevelUpTo(parents, k - 1);
    if parents[k - 1].Some? && parents[k - 1].value.level > m then parents[k - 1].value.level else m
  }

  /** No parent is above the top level, and unless it is 0 some parent is on it. */
  lemma TopLevelIsHighest(parents: seq<Option<Unit>>)
    ensures forall i :: 0 <= i < |parents| && parents[i].Some? ==> parents[i].value.level <= TopLevel(parents)
    ensures TopLevel(parents) == 0
        || exists i :: 0 <= i < |parents| && parents[i].Some? && parents[i].value.level == TopLevel(parents)
  {
    HighestUpTo(parents, |parents|);
  }

  lemma {:induction false} HighestUpTo(parents: seq<Option<Unit>>, k: nat)
    requires k <= |parents|
    ensures forall i :: 0 <= i < k && parents[i].Some? ==> parents[i].value.level <= TopLevelUpTo(parents, k)
    ensures TopLevelUpTo(parents, k) == 0
        || exists i :: 0 <= i < k && parents[i].Some? && parents[i].value.level == TopLevelUpTo(parents, k)
  {
    if k > 0 {
      HighestUpTo(parents, k - 1);
    }
  }

  /** The level of a unit with the given parents: a quorum of parents on the highest level lifts it by one. */
  function LevelOver(parents: seq<Option<Unit>>, q: nat): nat {
    var m := TopLevel(parents);
    if |SlotsOnLevel(parents, m)| >= q then m + 1 else m
  }

  /**
   * The level written out: no parent is above it and fewer than a quorum are on it; unless it is 0, some parent is on
   * it or a quorum is on the level under it.
   */
  lemma LevelOverIs(parents: seq<Option<Unit>>, q: nat, l: nat)
    requires q >= 1
    ensures l == LevelOver(parents, q) <==>
      && (forall i :: 0 <= i < |parents| && parents[i].Some? ==> parents[i].value.level <= l)
      && |set i: nat | i < |parents| && parents[i].Some? && parents[i].value.level == l| < q
      && (|| l == 0
          || (exists i :: 0 <= i < |parents| && parents[i].Some? && parents[i].value.level == l)
          || |set i: nat | i < |parents| && parents[i].Some? && parents[i].value.level == l - 1| >= q)
  {
    TopLevelIsHighest(parents);
    var m := TopLevel(parents);
    assert SlotsOnLevel(parents, m + 1) == {};
    if l == m + 1 {
      var under := set i: nat | i < |parents| && parents[i].Some? && parents[i].value.level == l - 1;
      assert under == SlotsOnLevel(parents, m);
    } else if l > m + 1 {
      var under := set i: nat | i < |parents| && parents[i].Some? && parents[i].value.level == l - 1;
      assert under == {};
    }
  }

  /** The loop that computes a level in a single pass over the parents. */
  method LevelFromParents(parents: seq<Option<Unit>>, q: nat) returns (level: nat)
    ensures level == LevelOver(parents, q)
  {
    level := 0;
    var onLevel := 0;
    assert SlotsOnLevel(parents[..0], 0) == {};
    for i := 0 to |parents|
      invariant level == TopLevelUpTo(parents, i)
      invariant onLevel == |SlotsOnLevel(parents[..i], level)|
    {
      assert parents[..i + 1][..i] == parents[..i];
      SlotsExtend(parents[..i + 1]);
      HighestUpTo(parents, i);
      if parents[i].Some? {
        if parents[i].value.level == level {
          onLevel := onLevel + 1;
        } else if parents[i].value.level > level {
          assert SlotsOnLevel(parents[..i], parents[i].value.level) == {};
          onLevel := 1;
          level := parents[i].value.level;
        }
      }
    }
    assert parents[..|parents|] == parents;
    if onLevel >= q {
      level := level + 1;
    }
  }

  lemma SlotsExtend(parents: seq<Option<Unit>>)
    requires parents != []
    ensures var i := |parents| - 1; forall l: nat ::
      |SlotsOnLevel(parents, l)| == |SlotsOnLevel(parents[..i], l)|
        + (if parents[i].Some? && parents[i].value.level == l then 1 else 0)
  {
    var i := |parents| - 1;
    forall l: nat
      ensures |SlotsOnLevel(parents, l)| == |SlotsOnLevel(parents[..i], l)|
        + (if parents[i].Some? && parents[i].value.level == l then 1 else 0)
    {
      if parents[i].Some? && parents[i].value.level == l {
        assert SlotsOnLevel(parents, l) == SlotsOnLevel(parents[..i], l) + {i};
      } else {
        assert SlotsOnLevel(parents, l) == SlotsOnLevel(parents[..i], l);
      }
    }
  }

  // ----------------------------------------------------------------- compliance

  /** Parents sit in their creators' slots, the height counts predecessors, the unit is prime. */
  ghost predicate BasicallyCorrect(c: Committee, u: Unit) {
    && u.creator < c.n
    && |u.parents| == c.n
    && (forall i :: 0 <= i < c.n && u.parents[i].Some? ==> u.parents[i].value.creator == i)
    && (Predecessor(u).None? ==> forall i :: 0 <= i < c.n ==> u.parents[i].None?)
    && u.height == (if Predecessor(u).None? then 0 else Predecessor(u).value.height + 1)
    && u.level == LevelOver(u.parents, c.q)
    && (Predecessor(u).Some? ==> Predecessor(u).value.level < u.level)
  }

  /** What is seen through a parent in slot `i` is not above, level-wise, what slot `i` shows directly. */
  ghost predicate ParentsConsistent(parents: seq<Option<Unit>>) {
    forall i, j :: 0 <= i < |parents| && 0 <= j < |parents| && parents[j].Some?
      ==> SlotDominates(parents[i], parents[j].value, i)
  }

  ghost predicate SlotDominates(slot: Option<Unit>, p: Unit, i: nat) {
    i < |p.parents| && p.parents[i].Some? ==> slot.Some? && p.parents[i].value.level <= slot.value.level
  }

  /** Every unit of the same creator below `u` is on `u`'s own chain. */
  ghost predicate NoSelfFork(u: Unit) {
    forall v {:trigger OwnBelow(u, v)} :: OwnBelow(u, v) ==> OnChain(u, v)
  }

  ghost predicate OwnBelow(u: Unit, v: Unit) {
    Below(u, v) && v.creator == u.creator
  }

  /** `u` and everything below it passed the checks. */
  ghost predicate Compliant(c: Committee, u: Unit)
    decreases u
  {
    && BasicallyCorrect(c, u)
    && ParentsConsistent(u.parents)
    && NoSelfFork(u)
    && forall i :: 0 <= i < |u.parents| && u.parents[i].Some? ==> Compliant(c, u.parents[i].value)
  }

  /** `u` passed every check except the one for evidence against its own creator. */
  ghost predicate WellBuilt(c: Committee, u: Unit) {
    && BasicallyCorrect(c, u)
    && ParentsConsistent(u.parents)
    && forall p :: IsParent(u, p) ==> Compliant(c, p)
  }

  lemma ParentCount(c: Committee, u: Unit)
    requires Compliant(c, u)
    ensures |u.parents| == c.n
  {
  }

  lemma CreatorIsProcess(c: Committee, u: Unit)
    requires Compliant(c, u)
    ensures u.creator < c.n
  {
  }

  lemma CompliantIsWellBuilt(c: Committee, u: Unit)
    ensures Compliant(c, u) <==> WellBuilt(c, u) && NoSelfFork(u)
  {
    if WellBuilt(c, u) {
      forall i | 0 <= i < |u.parents| && u.parents[i].Some?
        ensures Compliant(c, u.parents[i].value)
      {
        assert IsParent(u, u.parents[i].value);
      }
    }
  }

  lemma {:induction false} CompliantBelow(c: Committee, u: Unit, v: Unit)
    requires Compliant(c, u) && Reach(u, v)
    ensures Compliant(c, v)
    decreases u
  {
    if u != v {
      var i :| 0 <= i < |u.parents| && u.parents[i].Some? && Reach(u.parents[i].value, v);
      CompliantBelow(c, u.parents[i].value, v);
    }
  }

  lemma SameCreatorIsChain(c: Committee, u: Unit, v: Unit)
    requires Compliant(c, u) && Reach(u, v) && u.creator == v.creator
    ensures OnChain(u, v)
  {
    ReachUnfold(u, v);
    assert u == v || OwnBelow(u, v);
  }

  lemma NoSelfForkBelow(u: Unit)
    ensures NoSelfFork(u) <==> forall v :: Below(u, v) && v.creator == u.creator ==> OnChain(u, v)
  {
    hide Below, OnChain;
    if NoSelfFork(u) {
      forall v | Below(u, v) && v.creator == u.creator ensures OnChain(u, v) {
        assert OwnBelow(u, v);
      }
    }
  }

  lemma {:induction false} LevelsGrow(c: Committee, u: Unit, v: Unit)
    requires Compliant(c, u) && Reach(u, v)
    ensures v.level <= u.level
    decreases u
  {
    hide NoSelfFork, ParentsConsistent;
    if u != v {
      var i :| 0 <= i < |u.parents| && u.parents[i].Some? && Reach(u.parents[i].value, v);
      TopLevelIsHighest(u.parents);
      LevelsGrow(c, u.parents[i].value, v);
    }
  }

  /** Along a chain levels and heights strictly increase, and the creator stays the same. */
  lemma {:induction false} ChainFacts(c: Committee, u: Unit, v: Unit)
    requires Compliant(c, u) && OnChain(u, v)
    ensures v.creator == u.creator
    ensures u == v || (v.level < u.level && v.height < u.height)
    decreases u
  {
    if u != v {
      ChainFacts(c, Predecessor(u).value, v);
    }
  }
}
