/** The order of the dag, answered through floors instead of graph search. */
module DagOrder {
  import opened Units

  /** Some unit of `f` has `v` on its chain. */
  ghost predicate Covers(f: seq<Unit>, v: Unit) {
    exists i :: 0 <= i < |f| && OnChain(f[i], v)
  }

  /** No unit of `f` lies on the chain of another one. */
  ghost predicate Antichain(f: seq<Unit>) {
    forall i, j :: 0 <= i < |f| && 0 <= j < |f| && i != j ==> !OnChain(f[i], f[j])
  }

  /** `f` lists exactly the maximal units of process `pid` strictly below `u`, each once. */
  ghost predicate IsFloor(u: Unit, pid: nat, f: seq<Unit>) {
    && (forall i :: 0 <= i < |f| ==> Below(u, f[i]) && f[i].creator == pid)
    && (forall v :: Below(u, v) && v.creator == pid ==> Covers(f, v))
    && Antichain(f)
  }

  /** Walks down the predecessors of `u` to the height of `v`. */
  method AboveWithinProc(ghost c: Committee, u: Unit, v: Unit) returns (r: bool)
    requires Compliant(c, u)
    ensures r <==> OnChain(u, v)
  {
    if u.creator != v.creator {
      if OnChain(u, v) {
        ChainFacts(c, u, v);
      }
      return false;
    }
    var w := Some(u);
    while w.Some? && w.value.height > v.height
      invariant w.Some? ==> Compliant(c, w.value)
      invariant OnChain(u, v) <==> w.Some? && OnChain(w.value, v)
      decreases w
    {
      w := Predecessor(w.value);
    }
    if w.None? {
      return false;
    }
    if OnChain(w.value, v) {
      ChainFacts(c, w.value, v);
    }
    return w.value == v;
  }

  /** A process with an empty slot has no unit below. */
  lemma {:induction false} EmptySlot(c: Committee, u: Unit, pid: nat, v: Unit)
    requires WellBuilt(c, u) && pid < c.n && u.parents[pid].None? && Below(u, v)
    ensures v.creator != pid
    decreases u
  {
    var p :| IsParent(u, p) && Reach(p, v);
    ParentIsSmaller(u, p);
    var j :| 0 <= j < |u.parents| && u.parents[j] == Some(p);
    assert SlotDominates(u.parents[pid], u.parents[j].value, pid);
    ReachUnfold(p, v);
    if p != v {
      CompliantIsWellBuilt(c, p);
      EmptySlot(c, p, pid, v);
    }
  }

  /** Reachability splits at the floor of the lower unit's creator. */
  lemma AboveThroughFloor(c: Committee, u: Unit, v: Unit, f: seq<Unit>)
    requires IsFloor(u, v.creator, f)
    ensures Reach(u, v) <==> u == v || Covers(f, v)
  {
    ReachUnfold(u, v);
    if i :| 0 <= i < |f| && OnChain(f[i], v) {
      OnChainIsReach(f[i], v);
      BelowTransitive(u, f[i], v);
    }
  }

  /** Is `v` equal to `u` or below it? */
  method Above(ghost c: Committee, u: Unit, v: Unit) returns (r: bool)
    requires Compliant(c, u) && v.creator < c.n
    ensures r <==> Reach(u, v)
    decreases u, 3
  {
    hide Compliant, WellBuilt, Below, OnChain, Reach, NoSelfFork;
    if u == v {
      ReachUnfold(u, v);
      return true;
    }
    CompliantIsWellBuilt(c, u);
    var f := Floor(c, u, v.creator);
    AboveThroughFloor(c, u, v, f);
    for i := 0 to |f|
      invariant forall k :: 0 <= k < i ==> !OnChain(f[k], v)
    {
      CompliantBelow'(c, u, f[i]);
      var above := AboveWithinProc(c, f[i], v);
      if above {
        return true;
      }
    }
    return false;
  }

  lemma CompliantBelow'(c: Committee, u: Unit, v: Unit)
    requires WellBuilt(c, u) && Below(u, v)
    ensures Compliant(c, v)
  {
    var p :| IsParent(u, p) && Reach(p, v);
    CompliantBelow(c, p, v);
  }

  /** The cached floors: only the slots where the floor is not just the parent itself. */
  method ComputeFloor(ghost c: Committee, u: Unit) returns (floor: map<nat, seq<Unit>>)
    requires WellBuilt(c, u)
    ensures forall pid :: pid in floor ==> pid < c.n && IsFloor(u, pid, floor[pid])
    ensures forall pid :: 0 <= pid < c.n && pid !in floor && u.parents[pid].Some? ==>
      IsFloor(u, pid, [u.parents[pid].value])
    ensures forall pid :: 0 <= pid < c.n && pid !in floor && u.parents[pid].None? ==> IsFloor(u, pid, [])
    decreases u, 1
  {
    hide IsFloor, WellBuilt;
    BuiltShape(c, u);
    floor := map[];
    if u.height == 0 {
      forall pid | 0 <= pid < c.n ensures IsFloor(u, pid, []) {
        EmptyFloor(c, u, pid);
      }
      return;
    }
    for pid := 0 to |u.parents|
      invariant forall k :: k in floor ==> k < pid && IsFloor(u, k, floor[k])
      invariant forall k :: 0 <= k < pid && k !in floor && u.parents[k].Some? ==> IsFloor(u, k, [u.parents[k].value])
      invariant forall k :: 0 <= k < pid && k !in floor && u.parents[k].None? ==> IsFloor(u, k, [])
    {
      var maximal := MaximalByPid(c, u, pid);
      if |maximal| > 1 || (|maximal| == 1 && Some(maximal[0]) != u.parents[pid]) {
        floor := floor[pid := maximal];
      } else if |maximal| == 1 {
        assert maximal == [u.parents[pid].value];
      }
    }
  }

  lemma BuiltShape(c: Committee, u: Unit)
    requires WellBuilt(c, u)
    ensures |u.parents| == c.n && (u.height == 0 ==> forall pid :: 0 <= pid < c.n ==> u.parents[pid].None?)
    ensures forall pid :: 0 <= pid < c.n && u.parents[pid].Some? ==> u.parents[pid].value.creator == pid
  {
  }

  lemma EmptyFloor(c: Committee, u: Unit, pid: nat)
    requires WellBuilt(c, u) && pid < c.n && u.parents[pid].None?
    ensures IsFloor(u, pid, [])
  {
    hide WellBuilt, Below;
    forall v | Below(u, v) ensures v.creator != pid { EmptySlot(c, u, pid, v); }
  }

  /** The maximal units of `pid` strictly below `u`. */
  method Floor(ghost c: Committee, u: Unit, pid: nat) returns (f: seq<Unit>)
    requires WellBuilt(c, u) && pid < c.n
    ensures IsFloor(u, pid, f)
    decreases u, 2
  {
    hide IsFloor, WellBuilt;
    BuiltShape(c, u);
    var floor := ComputeFloor(c, u);
    if pid in floor {
      return floor[pid];
    }
    if u.parents[pid].None? {
      return [];
    }
    return [u.parents[pid].value];
  }

  /** Merging `w` into `maximal` keeps it an antichain that covers all it covered, and `w`. */
  ghost predicate Merged(u: Unit, pid: nat, before: seq<Unit>, w: Unit, after: seq<Unit>) {
    && PartialFloor(u, pid, after)
    && (forall v :: Covers(before, v) || OnChain(w, v) ==> Covers(after, v))
  }

  ghost predicate PartialFloor(u: Unit, pid: nat, f: seq<Unit>) {
    && (forall i :: 0 <= i < |f| ==> Below(u, f[i]) && f[i].creator == pid)
    && Antichain(f)
  }

  lemma ReplaceKeepsFloor(c: Committee, u: Unit, pid: nat, f: seq<Unit>, ix: nat, w: Unit)
    requires PartialFloor(u, pid, f) && ix < |f|
    requires Below(u, w) && w.creator == pid && OnChain(w, f[ix])
    ensures Merged(u, pid, f, w, f[ix := w])
  {
    var g := f[ix := w];
    forall i, j | 0 <= i < |g| && 0 <= j < |g| && i != j
      ensures !OnChain(g[i], g[j])
    {
      if i == ix && OnChain(w, f[j]) {
        ChainIsTotal(w, f[ix], f[j]);
      }
      if j == ix && OnChain(f[i], w) {
        OnChainTransitive(f[i], w, f[ix]);
      }
    }
    forall v | Covers(f, v) || OnChain(w, v)
      ensures Covers(g, v)
    {
      if Covers(f, v) {
        var i :| 0 <= i < |f| && OnChain(f[i], v);
        if i == ix {
          OnChainTransitive(w, f[ix], v);
        }
        assert OnChain(g[i], v);
      } else {
        assert OnChain(g[ix], v);
      }
    }
  }

  lemma SkipKeepsFloor(u: Unit, pid: nat, f: seq<Unit>, ix: nat, w: Unit)
    requires PartialFloor(u, pid, f) && ix < |f| && OnChain(f[ix], w)
    ensures Merged(u, pid, f, w, f)
  {
    forall v | OnChain(w, v)
      ensures Covers(f, v)
    {
      OnChainTransitive(f[ix], w, v);
    }
  }

  lemma AppendKeepsFloor(u: Unit, pid: nat, f: seq<Unit>, w: Unit)
    requires PartialFloor(u, pid, f) && Below(u, w) && w.creator == pid
    requires forall k :: 0 <= k < |f| ==> !OnChain(w, f[k]) && !OnChain(f[k], w)
    ensures Merged(u, pid, f, w, f + [w])
  {
    var g := f + [w];
    forall v | Covers(f, v) || OnChain(w, v)
      ensures Covers(g, v)
    {
      if OnChain(w, v) {
        assert OnChain(g[|f|], v);
      } else {
        var i :| 0 <= i < |f| && OnChain(f[i], v);
        assert OnChain(g[i], v);
      }
    }
  }

  /** Merges one unit of a parent's floor into the maximal units found so far. */
  method MergeMaximal(ghost c: Committee, ghost u: Unit, pid: nat, maximal: seq<Unit>,
      w: Unit) returns (merged: seq<Unit>)
    requires WellBuilt(c, u) && pid < c.n
    requires PartialFloor(u, pid, maximal) && Below(u, w) && w.creator == pid
    ensures Merged(u, pid, maximal, w, merged)
    decreases u, 0, 0
  {
    hide Compliant, WellBuilt, Below, OnChain, Reach, Merged;
    CompliantBelow'(c, u, w);
    BelowIsSmaller(u, w);
    for ix := 0 to |maximal|
      invariant forall k :: 0 <= k < ix ==> !OnChain(w, maximal[k]) && !OnChain(maximal[k], w)
    {
      var v := maximal[ix];
      CompliantBelow'(c, u, v);
      BelowIsSmaller(u, v);
      var wAbove := Above(c, w, v);
      if wAbove {
        SameCreatorIsChain(c, w, v);
        ReplaceKeepsFloor(c, u, pid, maximal, ix, w);
        return maximal[ix := w];
      }
      var vAbove := Above(c, v, w);
      if vAbove {
        SameCreatorIsChain(c, v, w);
        SkipKeepsFloor(u, pid, maximal, ix, w);
        return maximal;
      }
      if OnChain(w, v) { OnChainIsReach(w, v); }
      if OnChain(v, w) { OnChainIsReach(v, w); }
    }
    AppendKeepsFloor(u, pid, maximal, w);
    return maximal + [w];
  }

  /** All maximal units of `pid` among the parents of `u` and their floors. */
  method MaximalByPid(ghost c: Committee, u: Unit, pid: nat) returns (maximal: seq<Unit>)
    requires WellBuilt(c, u) && pid < c.n
    ensures IsFloor(u, pid, maximal)
    ensures u.parents[pid].Some? ==> maximal != []
    decreases u, 0
  {
    hide Compliant, Below, OnChain, ParentsConsistent;
    if u.parents[pid].None? {
      EmptyFloor(c, u, pid);
      return [];
    }
    var own := u.parents[pid].value;
    ParentBelow(u, own);
    maximal := [own];
    CoversSelf(maximal, 0);
    for j := 0 to |u.parents|
      invariant PartialFloor(u, pid, maximal)
      invariant Covers(maximal, own)
      invariant CoversSlots(maximal, u, j, pid)
    {
      if u.parents[j].Some? {
        assert IsParent(u, u.parents[j].value);
        ghost var before := maximal;
        maximal := MergeFloor(c, u, pid, maximal, u.parents[j].value);
        CoversNextSlot(before, maximal, u, j, pid);
      }
    }
    forall v | Below(u, v) && v.creator == pid
      ensures Covers(maximal, v)
    {
      CoveredByParents(c, u, pid, maximal, v);
    }
  }

  lemma CoversSelf(f: seq<Unit>, i: nat)
    requires i < |f|
    ensures Covers(f, f[i])
  {
    assert OnChain(f[i], f[i]);
  }

  /** `f` covers every unit of `pid` strictly below `p`. */
  ghost predicate CoversBelow(f: seq<Unit>, p: Unit, pid: nat) {
    forall v :: Below(p, v) && v.creator == pid ==> Covers(f, v)
  }

  ghost predicate CoversSlots(f: seq<Unit>, u: Unit, j: nat, pid: nat) {
    forall k :: 0 <= k < j && k < |u.parents| && u.parents[k].Some? ==> CoversBelow(f, u.parents[k].value, pid)
  }

  lemma CoversNextSlot(before: seq<Unit>, after: seq<Unit>, u: Unit, j: nat, pid: nat)
    requires CoversSlots(before, u, j, pid) && CoversMore(before, after)
    requires j < |u.parents| && u.parents[j].Some? && CoversBelow(after, u.parents[j].value, pid)
    ensures CoversSlots(after, u, j + 1, pid)
  {
  }

  ghost predicate CoversMore(before: seq<Unit>, after: seq<Unit>) {
    forall v :: Covers(before, v) ==> Covers(after, v)
  }

  lemma CoveredByParents(c: Committee, u: Unit, pid: nat, f: seq<Unit>, v: Unit)
    requires BasicallyCorrect(c, u) && pid < c.n
    requires u.parents[pid].Some? && Covers(f, u.parents[pid].value)
    requires CoversSlots(f, u, |u.parents|, pid)
    requires Below(u, v) && v.creator == pid
    ensures Covers(f, v)
  {
    var p :| IsParent(u, p) && Reach(p, v);
    var j :| 0 <= j < |u.parents| && u.parents[j] == Some(p);
    ReachUnfold(p, v);
    if p != v {
      assert CoversBelow(f, u.parents[j].value, pid);
    }
  }

  lemma ParentBelow(u: Unit, p: Unit)
    requires exists i :: 0 <= i < |u.parents| && u.parents[i] == Some(p)
    ensures Below(u, p)
  {
    assert IsParent(u, p);
    assert Reach(p, p);
  }

  /** Merges the whole floor of one parent. */
  method MergeFloor(ghost c: Committee, u: Unit, pid: nat, maximal: seq<Unit>, parent: Unit) returns (merged: seq<Unit>)
    requires WellBuilt(c, u) && pid < c.n && IsParent(u, parent)
    requires PartialFloor(u, pid, maximal)
    ensures PartialFloor(u, pid, merged)
    ensures CoversMore(maximal, merged)
    ensures CoversBelow(merged, parent, pid)
    decreases u, 0, 1
  {
    hide OnChain;
    ParentIsSmaller(u, parent);
    CompliantIsWellBuilt(c, parent);
    var floor := Floor(c, parent, pid);
    merged := maximal;
    for k := 0 to |floor|
      invariant PartialFloor(u, pid, merged)
      invariant CoversMore(maximal, merged)
      invariant forall i, v :: 0 <= i < k && OnChain(floor[i], v) ==> Covers(merged, v)
    {
      assert Reach(u, parent) && Below(u, parent) by { assert Reach(parent, parent); ReachUnfold(u, parent); }
      BelowTransitive(u, parent, floor[k]);
      merged := MergeMaximal(c, u, pid, merged, floor[k]);
    }
  }

  /** Below `u`, which is not a dealing unit, is a unit of `creator` off the chain of the parent in its slot. */
  ghost predicate ForkSeen(u: Unit, creator: nat) {
    && u.height != 0 && creator < |u.parents|
    && exists v :: Below(u, v) && v.creator == creator && !(u.parents[creator].Some?
        && OnChain(u.parents[creator].value, v))
  }

  /** Does `u` prove that `creator` forked? */
  method HasForkingEvidence(ghost c: Committee, u: Unit, creator: nat) returns (r: bool)
    requires WellBuilt(c, u) && creator < c.n
    ensures r <==> ForkSeen(u, creator)
  {
    hide WellBuilt, IsFloor, Below, OnChain;
    BuiltShape(c, u);
    if u.height == 0 {
      return false;
    }
    var f := Floor(c, u, creator);
    r := |f| > 1 || (|f| == 1 && Some(f[0]) != u.parents[creator]);
    FloorEvidence(c, u, creator, f);
  }

  /** A floor is evidence of forking exactly when something below is off the parent's chain. */
  lemma FloorEvidence(c: Committee, u: Unit, creator: nat, f: seq<Unit>)
    requires WellBuilt(c, u) && creator < c.n && IsFloor(u, creator, f) && |u.parents| == c.n
    ensures |f| > 1 || (|f| == 1 && Some(f[0]) != u.parents[creator]) <==>
      exists v :: Below(u, v) && v.creator == creator && !(u.parents[creator].Some?
        && OnChain(u.parents[creator].value, v))
  {
    hide WellBuilt, Below, OnChain;
    BuiltShape(c, u);
    assert |f| > 0 ==> Below(u, f[0]) && f[0].creator == creator;
    if u.parents[creator].None? {
      forall v | Below(u, v) ensures v.creator != creator { EmptySlot(c, u, creator, v); }
    } else if |f| > 1 || (|f| == 1 && Some(f[0]) != u.parents[creator]) {
      EvidenceInFloor(c, u, creator, f);
    } else {
      var p := u.parents[creator].value;
      ParentBelow(u, p);
      assert Covers(f, p);
      forall v | Below(u, v) && v.creator == creator ensures OnChain(p, v) {
        assert Covers(f, v);
      }
    }
  }

  lemma EvidenceInFloor(c: Committee, u: Unit, creator: nat, f: seq<Unit>)
    requires WellBuilt(c, u) && creator < c.n == |u.parents| && IsFloor(u, creator, f) && u.parents[creator].Some?
    requires |f| > 1 || (|f| == 1 && Some(f[0]) != u.parents[creator])
    ensures exists v :: Below(u, v) && v.creator == creator && !OnChain(u.parents[creator].value, v)
  {
    hide WellBuilt, Below;
    BuiltShape(c, u);
    var p := u.parents[creator].value;
    ParentBelow(u, p);
    assert Covers(f, p);
    var i :| 0 <= i < |f| && OnChain(f[i], p);
    if OnChain(p, f[i]) {
      OnChainIsReach(p, f[i]);
      OnChainIsReach(f[i], p);
      ReachAntisymmetric(p, f[i]);
      assert |f| > 1;
      var j := if i == 0 then 1 else 0;
      assert !OnChain(f[i], f[j]);
    }
  }

  /**
   * The self-forking check rejects exactly the units with a unit of their own creator below that is off their chain.
   */
  method NoSelfForkingEvidence(ghost c: Committee, u: Unit) returns (ok: bool)
    requires WellBuilt(c, u)
    ensures ok <==> Compliant(c, u)
  {
    var evidence := HasForkingEvidence(c, u, u.creator);
    SelfForkSeen(c, u);
    CompliantIsWellBuilt(c, u);
    ok := !evidence;
  }

  lemma SelfForkSeen(c: Committee, u: Unit)
    requires WellBuilt(c, u)
    ensures |u.parents| == c.n && u.creator < c.n
    ensures NoSelfFork(u) <==> !ForkSeen(u, u.creator)
  {
    hide Compliant, Below, ParentsConsistent, LevelOver;
    NoSelfForkBelow(u);
    if u.height == 0 {
      forall v | Below(u, v) ensures v.creator != u.creator { EmptySlot(c, u, u.creator, v); }
    } else {
      forall v | Below(u, v) && v.creator == u.creator
        ensures OnChain(u, v) <==> OnChain(u.parents[u.creator].value, v)
      {
        BelowIsSmaller(u, v);
      }
    }
  }
}
