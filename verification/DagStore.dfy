/** The dag of one node: the set of units, its indices, and the forking heights behind fast comparisons. */
module DagStore {
  import opened Units
  import opened DagOrder
  import opened Voting
  import opened DagViews
  import opened TimingRounds
  import opened FiberMaps
  import Quorums

  const MAX_INT32 := 0x7FFF_FFFF

  function Min(a: int, b: int): int { if a < b then a else b }

  // ------------------------------------------------------------- forking heights

  /** Below both forking heights, heights decide whether `v` is on the chain of `u`. */
  ghost predicate HeightsDecide(fh: map<Unit, int>, u: Unit, v: Unit)
    requires u in fh && v in fh
  {
    v.creator == u.creator && v.height <= u.height && v.height <= Min(fh[u], fh[v]) ==> OnChain(u, v)
  }

  ghost predicate ForkingHeightsValid(units: set<Unit>, fh: map<Unit, int>) {
    && fh.Keys == units
    && (forall u, v :: u in units && v in units ==> HeightsDecide(fh, u, v))
    && UnforkedUnbounded(units, fh)
  }

  /** The units of a process that has not forked leave every comparison to the heights. */
  ghost predicate UnforkedUnbounded(units: set<Unit>, fh: map<Unit, int>) {
    forall u :: u in units && u in fh && !Forked(units, u.creator) ==> fh[u] == MAX_INT32
  }

  /** `u` is on no other chain of the set. */
  ghost predicate Maximal(units: set<Unit>, u: Unit) {
    u in units && forall w :: w in units && OnChain(w, u) ==> w == u
  }

  /**
   * The forking height of a new unit, case by case: of a dealing unit, -1 if its creator has another one; of a later
   * unit, that of its predecessor, but no more than the height of the predecessor if that has another successor.
   */
  ghost predicate IsForkingHeight(units: set<Unit>, fh: map<Unit, int>, u: Unit, h: int) {
    if u.height == 0 then h == if exists v :: v in units && v.creator == u.creator then -1 else 0x7FFF_FFFF
    else
      && Predecessor(u).Some? && Predecessor(u).value in fh
      && var p := Predecessor(u).value;
         if Maximal(units, p) then h == fh[p]
         else h <= fh[p] && h <= p.height && (h == fh[p] || h == p.height)
  }

  /** The forking height given to a new unit. */
  function NewForkingHeight(fh: map<Unit, int>, u: Unit, creatorHasUnits: bool, predecessorIsMaximal: bool): int
    requires u.height != 0 ==> Predecessor(u).Some? && Predecessor(u).value in fh
  {
    if u.height == 0 then
      if creatorHasUnits then -1 else MAX_INT32
    else
      var p := Predecessor(u).value;
      if predecessorIsMaximal then fh[p] else Min(fh[p], p.height)
  }

  /** `u` can be inserted into `units`: new, compliant, its parents already there. */
  ghost predicate CanInsert(c: Committee, units: set<Unit>, u: Unit) {
    && c.Valid() && ParentClosed(units) && (forall v :: v in units ==> Compliant(c, v))
    && Compliant(c, u) && u !in units && forall p :: IsParent(u, p) ==> p in units
  }

  lemma NewIsOnNoChain(c: Committee, units: set<Unit>, u: Unit, v: Unit)
    requires CanInsert(c, units, u) && v in units
    ensures !OnChain(v, u)
  {
    if OnChain(v, u) {
      OnChainIsReach(v, u);
      ClosedUnderReach(units, v, u);
    }
  }

  lemma PredecessorInDag(c: Committee, units: set<Unit>, u: Unit)
    requires CanInsert(c, units, u) && u.height != 0
    ensures Predecessor(u).Some? && Predecessor(u).value in units
    ensures Predecessor(u).value.creator == u.creator && u.height == Predecessor(u).value.height + 1
  {
    assert IsParent(u, Predecessor(u).value);
  }

  /** The new unit against an old one, both ways. */
  lemma NewHeightDecides(c: Committee, units: set<Unit>, fh: map<Unit, int>, u: Unit, v: Unit, h: int)
    requires CanInsert(c, units, u) && ForkingHeightsValid(units, fh) && v in units && v.creator == u.creator
    requires u.height != 0 ==> Predecessor(u).Some? && Predecessor(u).value in fh
    requires h == NewForkingHeight(fh, u, true, u.height != 0 && Maximal(units, Predecessor(u).value))
    ensures v.height <= u.height && v.height <= Min(h, fh[v]) ==> OnChain(u, v)
    ensures u.height <= v.height ==> u.height > Min(fh[v], h)
  {
    hide Compliant, ParentClosed;
    if u.height != 0 {
      PredecessorInDag(c, units, u);
      var p := Predecessor(u).value;
      assert HeightsDecide(fh, p, v) && HeightsDecide(fh, v, p);
      if Maximal(units, p) {
        if OnChain(v, p) {
          assert v == p;
        }
      }
    }
  }

  /** A unit that does not fork its creator is the only dealing unit, or the only successor. */
  lemma OnlyBranch(c: Committee, units: set<Unit>, u: Unit)
    requires CanInsert(c, units, u) && !Forked(units + {u}, u.creator)
    ensures u.height == 0 ==> forall v :: v in units ==> v.creator != u.creator
    ensures u.height != 0 ==> Predecessor(u).Some? && Maximal(units, Predecessor(u).value)
  {
    hide Compliant, ParentClosed;
    var all := units + {u};
    forall v | v in units && v.creator == u.creator ensures OnChain(u, v) {
      NewIsOnNoChain(c, units, u, v);
      assert v in all && u in all && !ForkPair(u.creator, v, u);
    }
    if u.height == 0 {
      forall v | v in units ensures v.creator != u.creator {
        if v.creator == u.creator {
          ChainFacts(c, u, v);
        }
      }
    } else {
      PredecessorInDag(c, units, u);
      var p := Predecessor(u).value;
      forall w | w in units && OnChain(w, p) ensures w == p {
        ChainFacts(c, w, p);
        assert OnChain(p, w);
        OnChainIsReach(w, p);
        OnChainIsReach(p, w);
        ReachAntisymmetric(w, p);
      }
    }
  }

  lemma ForkStays(units: set<Unit>, units': set<Unit>, pid: nat)
    requires units <= units'
    ensures Forked(units, pid) ==> Forked(units', pid)
  {
    if a, b :| a in units && b in units && ForkPair(pid, a, b) {
      assert a in units' && b in units';
    }
  }

  lemma InsertKeepsUnbounded(c: Committee, units: set<Unit>, fh: map<Unit, int>, u: Unit, h: int)
    requires CanInsert(c, units, u) && fh.Keys == units && UnforkedUnbounded(units, fh)
    requires IsForkingHeight(units, fh, u, h)
    ensures UnforkedUnbounded(units + {u}, fh[u := h])
  {
    hide Compliant, ParentClosed, Maximal, CanInsert;
    var all := units + {u};
    NotThere(c, units, u);
    InsertFacts(c, units, u);
    forall v | v in all && !Forked(all, v.creator) ensures fh[u := h][v] == MAX_INT32 {
      ForkStays(units, all, v.creator);
      if v == u {
        OnlyBranch(c, units, u);
        if u.height != 0 {
          PredecessorInDag(c, units, u);
        }
      }
    }
  }

  lemma InsertKeepsHeights(c: Committee, units: set<Unit>, fh: map<Unit, int>, u: Unit, hasUnits: bool, h: int)
    requires CanInsert(c, units, u) && ForkingHeightsValid(units, fh)
    requires hasUnits <==> exists v :: v in units && v.creator == u.creator
    requires u.height != 0 ==> Predecessor(u).Some? && Predecessor(u).value in fh
    requires h == NewForkingHeight(fh, u, hasUnits, u.height != 0 && Maximal(units, Predecessor(u).value))
    ensures ForkingHeightsValid(units + {u}, fh[u := h]) && IsForkingHeight(units, fh, u, h)
  {
    hide Compliant, ParentClosed, Maximal, CanInsert;
    var fh' := fh[u := h];
    NotThere(c, units, u);
    InsertKeepsUnbounded(c, units, fh, u, h);
    forall a, b | a in units + {u} && b in units + {u}
      ensures HeightsDecide(fh', a, b)
    {
      if a == u && b == u {
      } else if a == u {
        if b.creator == u.creator { NewHeightDecides(c, units, fh, u, b, h); }
      } else if b == u {
        if a.creator == u.creator { NewHeightDecides(c, units, fh, u, a, h); }
      } else {
        assert HeightsDecide(fh, a, b);
      }
    }
  }

  lemma NotThere(c: Committee, units: set<Unit>, u: Unit)
    requires CanInsert(c, units, u)
    ensures u !in units
  {
  }

  // --------------------------------------------------------------- maximal units

  lemma InsertMaximal(c: Committee, units: set<Unit>, u: Unit, v: Unit)
    requires CanInsert(c, units, u)
    ensures Maximal(units + {u}, v) <==> v == u || (Maximal(units, v) && !OnChain(u, v))
  {
    hide Compliant, CanInsert;
    NotThere(c, units, u);
    if v == u {
      forall w | w in units ensures !OnChain(w, u) { NewIsOnNoChain(c, units, u, w); }
    }
  }

  ghost predicate MaxValid(c: Committee, units: set<Unit>, maxUnits: seq<seq<Unit>>) {
    && |maxUnits| == c.n
    && forall pid :: 0 <= pid < c.n ==> MaxSlot(units, pid, maxUnits[pid])
  }

  /** `s` lists the maximal units of `pid`, each once. */
  ghost predicate MaxSlot(units: set<Unit>, pid: nat, s: seq<Unit>) {
    NoDup(s) && forall u :: u in s <==> Maximal(units, u) && u.creator == pid
  }

  /** Every unit is on the chain of a maximal one. */
  lemma {:induction false} UnderMaximal(c: Committee, units: set<Unit>, u: Unit) returns (m: Unit)
    requires u in units && forall v :: v in units ==> Compliant(c, v)
    ensures Maximal(units, m) && OnChain(m, u) && m.creator == u.creator
    decreases |set v | v in units && OnChain(v, u)|
  {
    hide Compliant;
    if Maximal(units, u) {
      m := u;
    } else {
      var w :| w in units && OnChain(w, u) && w != u;
      var above, above' := set v | v in units && OnChain(v, u), set v | v in units && OnChain(v, w);
      forall v | v in above' ensures v in above {
        OnChainTransitive(v, w, u);
      }
      if u in above' {
        OnChainIsReach(u, w);
        OnChainIsReach(w, u);
        ReachAntisymmetric(u, w);
      }
      assert u in above;
      assert above' < above;
      Quorums.SubsetSize(above', above);
      m := UnderMaximal(c, units, w);
      OnChainTransitive(m, w, u);
      ChainFacts(c, m, u);
    }
  }


  // --------------------------------------------------------------------- indices

  function LevelKey(): Unit -> nat { (u: Unit) => u.level }

  function HeightKey(): Unit -> nat { (u: Unit) => u.height }

  /** The fibers list exactly the units, each once, under its key and creator. */
  ghost predicate Files(fibers: FiberMap, units: set<Unit>, key: Unit -> nat)
    reads fibers
  {
    forall value: nat, pid: nat :: FilesCell(fibers.At(value, pid), units, key, value, pid)
  }

  ghost predicate FilesCell(cell: seq<Unit>, units: set<Unit>, key: Unit -> nat, value: nat, pid: nat) {
    NoDup(cell) && forall u :: u in cell <==> u in units && key(u) == value && u.creator == pid
  }

  lemma FilesAreOnce(fibers: FiberMap, units: set<Unit>, key: Unit -> nat)
    requires Files(fibers, units, key)
    ensures fibers.FiledOnce()
  {
    forall h: nat, pid: nat, h': nat, pid': nat, u | u in fibers.At(h, pid) && u in fibers.At(h', pid')
      ensures h == h' && pid == pid'
    {
      assert FilesCell(fibers.At(h, pid), units, key, h, pid) && FilesCell(fibers.At(h', pid'), units, key, h', pid');
    }
    forall h: nat, pid: nat ensures NoDup(fibers.At(h, pid)) {
      assert FilesCell(fibers.At(h, pid), units, key, h, pid);
    }
  }

  /** Every key in use has its fiber. */
  lemma KeysInRange(fibers: FiberMap, units: set<Unit>, key: Unit -> nat, u: Unit)
    requires fibers.Valid() && Files(fibers, units, key) && u in units
    ensures key(u) < fibers.length
  {
    assert FilesCell(fibers.At(key(u), u.creator), units, key, key(u), u.creator);
  }

  /** A new unit is at most one level, and one height, beyond what is filed. */
  lemma OneExtensionSuffices(c: Committee, units: set<Unit>, u: Unit, levels: FiberMap, heights: FiberMap)
    requires CanInsert(c, units, u)
    requires levels.Valid() && Files(levels, units, LevelKey()) && heights.Valid() && Files(heights, units, HeightKey())
    ensures u.level <= levels.length && u.height <= heights.length
  {
    hide Files, ParentClosed;
    var m := TopLevel(u.parents);
    TopLevelIsHighest(u.parents);
    if i :| 0 <= i < |u.parents| && u.parents[i].Some? && u.parents[i].value.level == m {
      assert IsParent(u, u.parents[i].value);
      KeysInRange(levels, units, LevelKey(), u.parents[i].value);
    } else {
      assert SlotsOnLevel(u.parents, m) == {};
    }
    if u.height != 0 {
      PredecessorInDag(c, units, u);
      KeysInRange(heights, units, HeightKey(), Predecessor(u).value);
    }
  }

  lemma CellGrows(cell: seq<Unit>, units: set<Unit>, key: Unit -> nat, value: nat, pid: nat, u: Unit)
    requires FilesCell(cell, units, key, value, pid) && u !in units
    ensures FilesCell(cell + (if value == key(u) && pid == u.creator then [u] else []), units + {u}, key, value, pid)
  {
    if value == key(u) && pid == u.creator {
      assert u !in cell;
    }
  }

  /** Files `u`, with one extension by ten fibers if its key is beyond the end. */
  method FileUnit(fibers: FiberMap, ghost units: set<Unit>, ghost key: Unit -> nat, value: nat, u: Unit)
    requires fibers.Valid() && Files(fibers, units, key) && u !in units && value == key(u)
    requires value <= fibers.length && u.creator < fibers.width
    modifies fibers
    ensures fibers.Valid() && Files(fibers, units + {u}, key)
    ensures fibers.length == if value < old(fibers.length) then old(fibers.length) else old(fibers.length) + 10
  {
    hide FilesCell;
    if value >= fibers.length {
      fibers.ExtendBy(10);
    }
    fibers.Add(value, u);
    forall v: nat, pid: nat ensures FilesCell(fibers.At(v, pid), units + {u}, key, v, pid) {
      CellGrows(old(fibers.At(v, pid)), units, key, v, pid, u);
    }
  }

  class Dag {
    const c: Committee
    const epoch: nat
    var units: set<Unit>
    const levelUnits: FiberMap
    const heightUnits: FiberMap
    var maxUnits: seq<seq<Unit>>
    var forkingHeight: map<Unit, int>

    constructor (c: Committee, epoch: nat, epochLength: nat)
      requires c.Valid()
      ensures this.c == c && this.epoch == epoch && units == {} && Valid() && fresh(levelUnits) && fresh(heightUnits)
    {
      this.c, this.epoch := c, epoch;
      units := {};
      levelUnits := new FiberMap(c.n, epochLength);
      heightUnits := new FiberMap(c.n, epochLength);
      maxUnits := seq(c.n, i => []);
      forkingHeight := map[];
    }

    ghost predicate Valid()
      reads this, levelUnits, heightUnits
    {
      && c.Valid() && ParentClosed(units) && (forall u :: u in units ==> Compliant(c, u))
      && levelUnits != heightUnits
      && levelUnits.Valid() && levelUnits.width == c.n && Files(levelUnits, units, LevelKey())
      && heightUnits.Valid() && heightUnits.width == c.n && Files(heightUnits, units, HeightKey())
      && MaxValid(c, units, maxUnits)
      && ForkingHeightsValid(units, forkingHeight)
    }

    /** What the ordering reads. */
    function View(): DagView
      reads this, levelUnits
    {
      DagView(units, levelUnits.content, maxUnits)
    }

    lemma ViewIsConsistent()
      requires Valid()
      ensures View().Consistent(c)
    {
      hide Compliant, ForkingHeightsValid, ParentClosed, Maximal;
      var view := View();
      forall l: nat
        ensures |view.UnitsOnLevel(c, l)| == c.n
        ensures forall pid: nat :: pid < c.n ==> view.SlotIndexed(view.UnitsOnLevel(c, l)[pid], l, pid)
      {
        forall pid: nat | pid < c.n ensures view.SlotIndexed(view.UnitsOnLevel(c, l)[pid], l, pid) {
          assert view.UnitsOnLevel(c, l)[pid] == levelUnits.At(l, pid);
          assert FilesCell(levelUnits.At(l, pid), units, LevelKey(), l, pid);
        }
      }
      forall u | u in units ensures view.UnderMaximal(u) {
        CreatorIsProcess(c, u);
        var m := UnderMaximal(c, units, u);
        assert MaxSlot(units, u.creator, maxUnits[u.creator]);
      }
      forall pid: nat, u | pid < c.n && u in maxUnits[pid] ensures u in units && u.creator == pid {
        assert MaxSlot(units, pid, maxUnits[pid]);
        MaximalIsThere(units, u);
      }
    }

    /** Adds `u` to every index. */
    method Insert(u: Unit)
      requires Valid() && CanInsert(c, units, u)
      modifies this, levelUnits, heightUnits
      ensures Valid() && units == old(units) + {u}
      ensures forall v :: v in old(units) ==> forkingHeight[v] == old(forkingHeight[v])
      ensures IsForkingHeight(old(units), old(forkingHeight), u, forkingHeight[u])
    {
      hide Compliant, ParentClosed, Files, MaxValid, ForkingHeightsValid, CanInsert;
      InsertFacts(c, units, u);
      OneExtensionSuffices(c, units, u, levelUnits, heightUnits);
      var h := ComputeForkingHeight(u);
      FileUnit(heightUnits, units, HeightKey(), u.height, u);
      FileUnit(levelUnits, units, LevelKey(), u.level, u);
      var max := MaximalWith(u);
      forkingHeight := forkingHeight[u := h];
      units := units + {u};
      maxUnits := max;
    }

    /** The forking height `u` gets when it is embedded into the dag. */
    method ComputeForkingHeight(u: Unit) returns (h: int)
      requires Valid() && CanInsert(c, units, u)
      ensures ForkingHeightsValid(units + {u}, forkingHeight[u := h]) && IsForkingHeight(units, forkingHeight, u, h)
    {
      hide Compliant, ParentClosed, Files, ForkingHeightsValid, CanInsert, Maximal;
      InsertFacts(c, units, u);
      var maxByCreator := maxUnits[u.creator];
      assert MaxSlot(units, u.creator, maxByCreator);
      SomeMaximal(c, units, u.creator, maxByCreator);
      HeightKeys(units, forkingHeight);
      if u.height == 0 {
        h := if |maxByCreator| > 0 then -1 else MAX_INT32;
        InsertKeepsHeights(c, units, forkingHeight, u, |maxByCreator| > 0, h);
        return;
      }
      PredecessorInDag(c, units, u);
      var predecessor := Predecessor(u).value;
      assert exists v :: v in units && v.creator == u.creator;
      var found := predecessor in maxByCreator;
      if found {
        h := forkingHeight[predecessor];
      } else if forkingHeight[predecessor] < predecessor.height {
        h := forkingHeight[predecessor];
      } else {
        h := predecessor.height;
      }
      InsertKeepsHeights(c, units, forkingHeight, u, true, h);
    }

    /** The maximal units once `u` is in: those of its creator that are not below it, and `u`. */
    method MaximalWith(u: Unit) returns (max: seq<seq<Unit>>)
      requires MaxValid(c, units, maxUnits) && CanInsert(c, units, u)
      ensures MaxValid(c, units + {u}, max)
    {
      hide ParentClosed, Maximal, Compliant, CanInsert;
      InsertFacts(c, units, u);
      var maxByCreator := maxUnits[u.creator];
      assert MaxSlot(units, u.creator, maxByCreator);
      var newMax: seq<Unit> := [];
      for i := 0 to |maxByCreator|
        invariant NoDup(newMax) && forall v :: v in newMax <==> v in maxByCreator[..i] && !OnChain(u, v)
      {
        var v := maxByCreator[i];
        assert v in maxByCreator;
        var above := Above(c, u, v);
        if above { SameCreatorIsChain(c, u, v); }
        if OnChain(u, v) { OnChainIsReach(u, v); }
        assert maxByCreator[..i + 1] == maxByCreator[..i] + [v];
        if !above {
          newMax := newMax + [v];
        }
      }
      assert maxByCreator[..|maxByCreator|] == maxByCreator;
      newMax := newMax + [u];
      max := maxUnits[u.creator := newMax];
      forall pid | 0 <= pid < c.n ensures MaxSlot(units + {u}, pid, max[pid]) {
        MaxSlotGrows(c, units, u, pid, maxUnits[pid], newMax);
      }
    }

    /** Compares heights where the forking heights allow it, and walks down the chain otherwise. */
    method AboveWithinProc(u: Unit, v: Unit) returns (r: bool)
      requires Valid() && u in units
      ensures r <==> OnChain(u, v)
    {
      hide ParentClosed, Files, MaxValid;
      if u.height < v.height || u.creator != v.creator {
        if OnChain(u, v) { ChainFacts(c, u, v); }
        return false;
      }
      if v in units && v.height <= Min(forkingHeight[u], forkingHeight[v]) {
        assert HeightsDecide(forkingHeight, u, v);
        return true;
      }
      r := DagOrder.AboveWithinProc(c, u, v);
    }

    /** The units of one creator, height and epoch; more than one only in case of forks. */
    method GetById(height: nat, creator: nat, epoch: nat) returns (found: seq<Unit>)
      requires Valid()
      ensures NoDup(found)
      ensures forall u :: u in found <==>
        u in units && epoch == this.epoch && u.height == height && u.creator == creator
    {
      if epoch != this.epoch {
        return [];
      }
      found := heightUnits.At(height, creator);
      assert FilesCell(heightUnits.At(height, creator), units, HeightKey(), height, creator);
    }

    /** Exactly the units higher than the given heights, each once; all units if no heights are given. */
    method UnitsAbove(asked: Option<seq<int>>) returns (found: seq<Unit>)
      requires Valid()
      requires asked.Some? ==> |asked.value| == c.n && forall pid :: 0 <= pid < c.n ==> asked.value[pid] >= -1
      ensures NoDup(found)
      ensures forall u :: u in found <==> u in units && (asked.Some? ==> u.height > asked.value[u.creator])
    {
      hide ParentClosed, Compliant, MaxValid, ForkingHeightsValid;
      if asked.None? {
        found := AllOf(units);
        return;
      }
      var heights := asked.value;
      found := heightUnits.Above(heights);
      FilesAreOnce(heightUnits, units, HeightKey());
      forall u ensures u in found <==> u in units && u.creator < c.n && u.height > heights[u.creator] {
        AboveMeansFiled(heightUnits, units, heights, u);
      }
      forall u | u in units ensures u.creator < c.n { CreatorIsProcess(c, u); }
    }

    /**
     * The parents claimed by heights, for a preunit with the given hash that is not in the dag yet: none may be
     * unknown, and none ambiguous because of forks. The wrong number of claims is a panic.
     */
    method DecodeParents(hash: Hash, heights: seq<int>) returns (r: Decoded)
      requires Valid() && forall pid :: 0 <= pid < |heights| ==> heights[pid] >= -1
      ensures r.Duplicate? <==> exists u :: u in units && u.hash == hash
      ensures r.Panics? <==> !r.Duplicate? && |heights| != c.n
      ensures r.Unknown? <==> !r.Duplicate? && !r.Panics? && UnknownClaims(units, heights) != {}
      ensures r.Unknown? ==> r.count == |UnknownClaims(units, heights)|
      ensures r.Parents? || r.Ambiguous? ==> forall pid: nat :: pid < c.n && heights[pid] >= 0 ==>
          HasHeight(units, pid, heights[pid])
      ensures r.Parents? ==>
        |r.parents| == c.n && forall pid: nat :: pid < c.n ==> OnlyAt(units, pid, heights[pid], r.parents[pid])
      ensures r.Ambiguous? ==>
        exists u, v :: u in units && v in units && u != v && u.creator == v.creator
          && u.height == v.height == heights[u.creator]
    {
      hide ParentClosed, Compliant, MaxValid, ForkingHeightsValid;
      if u :| u in units && u.hash == hash {
        return Duplicate(u);
      }
      if |heights| != c.n {
        return Panics;
      }
      var possible, unknown := heightUnits.Get(heights);
      UnknownAre(heightUnits, units, heights);
      if unknown > 0 {
        return Unknown(unknown);
      }
      forall pid: nat | pid < c.n && heights[pid] >= 0
        ensures HasHeight(units, pid, heights[pid]) && possible[pid] != []
        ensures FilesCell(possible[pid], units, HeightKey(), heights[pid], pid)
      {
        assert pid !in UnknownClaims(units, heights);
        CellFacts(heightUnits, units, heights[pid], pid);
      }
      var parents: seq<Option<Unit>> := [];
      for i := 0 to c.n
        invariant |parents| == i && forall pid: nat :: pid < i ==> OnlyAt(units, pid, heights[pid], parents[pid])
      {
        if heights[i] == -1 {
          parents := parents + [None];
        } else {
          if |possible[i]| > 1 {
            assert possible[i][0] in possible[i] && possible[i][1] in possible[i];
            return Ambiguous;
          }
          assert possible[i][0] in possible[i] && possible[i] == [possible[i][0]];
          parents := parents + [Some(possible[i][0])];
        }
      }
      return Parents(parents);
    }

    /** The greatest height of each process, -1 for a process without units. */
    method MaxView() returns (heights: seq<int>)
      requires Valid()
      ensures IsMaxView(c, units, heights)
    {
      hide ParentClosed, Compliant, Files, ForkingHeightsValid, Maximal;
      heights := [];
      for pid := 0 to c.n
        invariant |heights| == pid
        invariant forall k :: 0 <= k < pid ==> IsTopHeight(units, k, heights[k])
      {
        var h := MaxHeightOf(maxUnits[pid]);
        assert MaxSlot(units, pid, maxUnits[pid]);
        TopHeight(c, units, pid, maxUnits[pid], h);
        heights := heights + [h];
      }
    }
  }

  datatype Decoded = Duplicate(u: Unit) | Panics | Unknown(count: nat) | Ambiguous | Parents(parents: seq<Option<Unit>>)

  /** The slots that claim a unit that is not there. */
  ghost function UnknownClaims(units: set<Unit>, heights: seq<int>): set<nat> {
    set pid: nat | pid < |heights| && heights[pid] >= 0 && !HasHeight(units, pid, heights[pid])
  }

  lemma UnknownAre(fibers: FiberMap, units: set<Unit>, heights: seq<int>)
    requires Files(fibers, units, HeightKey()) && forall pid :: 0 <= pid < |heights| ==> heights[pid] >= -1
    ensures fibers.UnknownSlots(heights, |heights|) == UnknownClaims(units, heights)
  {
    hide Files, HasHeight;
    forall pid: nat | pid < |heights| && heights[pid] >= 0
      ensures fibers.IsUnknown(heights[pid], pid) <==> !HasHeight(units, pid, heights[pid])
    {
      CellFacts(fibers, units, heights[pid], pid);
    }
  }

  method AllOf(units: set<Unit>) returns (s: seq<Unit>)
    ensures NoDup(s) && forall u :: u in s <==> u in units
  {
    s := [];
    var left := units;
    while left != {}
      invariant left <= units && NoDup(s) && forall u :: u in s <==> u in units && u !in left
      decreases left
    {
      var u :| u in left;
      s, left := s + [u], left - {u};
    }
  }

  /** `slot` is the one unit of `pid` at height `h`, or empty if none is asked for. */
  ghost predicate OnlyAt(units: set<Unit>, pid: nat, h: int, slot: Option<Unit>) {
    if h < 0 then slot.None?
    else slot.Some? && forall u :: u in units && u.creator == pid && u.height == h <==> u == slot.value
  }

  lemma CellFacts(fibers: FiberMap, units: set<Unit>, h: nat, pid: nat)
    requires Files(fibers, units, HeightKey())
    ensures FilesCell(fibers.At(h, pid), units, HeightKey(), h, pid)
    ensures fibers.At(h, pid) == [] <==> !HasHeight(units, pid, h)
  {
    var cell := fibers.At(h, pid);
    assert FilesCell(cell, units, HeightKey(), h, pid);
    if cell != [] { assert cell[0] in cell; }
  }

  /** The test against the greatest heights tells exactly whether some unit of that process and height is there. */
  lemma MaxViewTest(c: Committee, units: set<Unit>, heights: seq<int>, pid: nat, h: nat)
    requires IsMaxView(c, units, heights) && pid < c.n
    ensures h > heights[pid] <==> !HasHeight(units, pid, h)
  {
    assert IsTopHeight(units, pid, heights[pid]);
  }

  method MaxHeightOf(us: seq<Unit>) returns (h: int)
    ensures h >= -1 && forall u :: u in us ==> u.height <= h
    ensures h == -1 || exists u :: u in us && u.height == h
  {
    h := -1;
    for i := 0 to |us|
      invariant h >= -1 && forall k :: 0 <= k < i ==> us[k].height <= h
      invariant h == -1 || exists u :: u in us && u.height == h
    {
      if us[i].height > h {
        h := us[i].height;
        assert us[i] in us;
      }
    }
  }

  ghost predicate HasHeight(units: set<Unit>, pid: nat, k: nat) {
    exists u :: u in units && u.creator == pid && u.height == k
  }

  /** `h` is the greatest height of `pid`, and every height up to it is taken by some unit of `pid`. */
  ghost predicate IsTopHeight(units: set<Unit>, pid: nat, h: int) {
    && (forall u :: u in units && u.creator == pid ==> u.height <= h)
    && (forall k: nat :: k <= h ==> HasHeight(units, pid, k))
  }

  ghost predicate IsMaxView(c: Committee, units: set<Unit>, heights: seq<int>) {
    |heights| == c.n && forall pid :: 0 <= pid < c.n ==> IsTopHeight(units, pid, heights[pid])
  }

  lemma {:induction false} NoGaps(c: Committee, units: set<Unit>, u: Unit, k: nat) returns (v: Unit)
    requires ParentClosed(units) && u in units && Compliant(c, u) && k <= u.height
    ensures v in units && v.creator == u.creator && v.height == k
    decreases u
  {
    if k == u.height {
      v := u;
    } else {
      assert IsParent(u, Predecessor(u).value);
      v := NoGaps(c, units, Predecessor(u).value, k);
    }
  }

  lemma TopHeight(c: Committee, units: set<Unit>, pid: nat, s: seq<Unit>, h: int)
    requires ParentClosed(units) && (forall u :: u in units ==> Compliant(c, u)) && MaxSlot(units, pid, s)
    requires h >= -1 && (forall u :: u in s ==> u.height <= h) && (h == -1 || exists u :: u in s && u.height == h)
    ensures IsTopHeight(units, pid, h)
  {
    hide ParentClosed, Compliant;
    forall u | u in units && u.creator == pid ensures u.height <= h {
      var m := UnderMaximal(c, units, u);
      assert m in s;
      ChainFacts(c, m, u);
    }
    if h == -1 {
      assert forall k: nat :: k <= h ==> HasHeight(units, pid, k);
    } else {
      var top :| top in s && top.height == h;
      forall k: nat | k <= h ensures HasHeight(units, pid, k) {
        var v := NoGaps(c, units, top, k);
      }
    }
  }

  lemma InsertFacts(c: Committee, units: set<Unit>, u: Unit)
    requires CanInsert(c, units, u)
    ensures u !in units && u.creator < c.n && Compliant(c, u)
    ensures ParentClosed(units + {u}) && forall v :: v in units + {u} ==> Compliant(c, v)
  {
  }

  lemma MaximalIsThere(units: set<Unit>, u: Unit)
    requires Maximal(units, u)
    ensures u in units
  {
  }

  lemma HeightKeys(units: set<Unit>, fh: map<Unit, int>)
    requires ForkingHeightsValid(units, fh)
    ensures fh.Keys == units
  {
  }

  lemma SomeMaximal(c: Committee, units: set<Unit>, pid: nat, s: seq<Unit>)
    requires MaxSlot(units, pid, s) && forall u :: u in units ==> Compliant(c, u)
    ensures |s| > 0 <==> exists v :: v in units && v.creator == pid
  {
    hide Compliant;
    if |s| > 0 {
      assert s[0] in s;
    }
    if v :| v in units && v.creator == pid {
      var m := UnderMaximal(c, units, v);
      assert m in s;
    }
  }

  lemma MaxSlotGrows(c: Committee, units: set<Unit>, u: Unit, pid: nat, s: seq<Unit>, newMax: seq<Unit>)
    requires CanInsert(c, units, u) && MaxSlot(units, pid, s)
    requires pid == u.creator ==> NoDup(newMax) && forall v :: v in newMax <==> v == u || (v in s && !OnChain(u, v))
    ensures MaxSlot(units + {u}, pid, if pid == u.creator then newMax else s)
  {
    hide Maximal, CanInsert;
    InsertFacts(c, units, u);
    forall v ensures (Maximal(units + {u}, v) && v.creator == pid) <==> v in (if pid == u.creator then newMax else s) {
      InsertMaximal(c, units, u, v);
      if OnChain(u, v) { ChainFacts(c, u, v); }
    }
  }

  lemma AboveMeansFiled(fibers: FiberMap, units: set<Unit>, heights: seq<int>, u: Unit)
    requires fibers.Valid() && Files(fibers, units, HeightKey()) && |heights| == fibers.width
    ensures fibers.FiledAbove(heights, fibers.length, u) <==>
      u in units && u.creator < fibers.width && u.height > heights[u.creator]
  {
    if fibers.FiledAbove(heights, fibers.length, u) {
      var h: nat, pid: nat :| h < fibers.length && pid < fibers.width && h > heights[pid] && u in fibers.At(h, pid);
      assert FilesCell(fibers.At(h, pid), units, HeightKey(), h, pid);
    }
    if u in units && u.creator < fibers.width && u.height > heights[u.creator] {
      assert FilesCell(fibers.At(u.height, u.creator), units, HeightKey(), u.height, u.creator);
      KeysInRange(fibers, units, HeightKey(), u);
    }
  }
}
