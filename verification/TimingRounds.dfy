/** Timing rounds: which units a timing unit brings in, and in which order. */
module TimingRounds {
  import opened Units
  import opened DagOrder

  // ------------------------------------------------------- what is already ordered

  /** `u` is below one of the given timing units. */
  ghost predicate Ordered(prevTUs: seq<Option<Unit>>, u: Unit) {
    exists i :: 0 <= i < |prevTUs| && prevTUs[i].Some? && Reach(prevTUs[i].value, u)
  }

  /** The last timing unit is on the highest level; without it there is none. */
  ghost predicate LastIsHighest(prevTUs: seq<Option<Unit>>) {
    && |prevTUs| > 0
    && forall i :: 0 <= i < |prevTUs| && prevTUs[i].Some? ==>
         prevTUs[|prevTUs| - 1].Some? && prevTUs[i].value.level <= prevTUs[|prevTUs| - 1].value.level
  }

  ghost predicate CompliantSlots(c: Committee, prevTUs: seq<Option<Unit>>) {
    forall i :: 0 <= i < |prevTUs| && prevTUs[i].Some? ==> Compliant(c, prevTUs[i].value)
  }

  /** Searches the previous timing units, newest first, unless `u` is on a higher level than all of them. */
  method CheckIfAlreadyOrdered(ghost c: Committee, u: Unit, prevTUs: seq<Option<Unit>>) returns (r: bool)
    requires LastIsHighest(prevTUs) && CompliantSlots(c, prevTUs) && u.creator < c.n
    ensures r <==> Ordered(prevTUs, u)
  {
    hide Compliant, Reach;
    var prevTU := prevTUs[|prevTUs| - 1];
    if prevTU.None? || u.level > prevTU.value.level {
      forall i | 0 <= i < |prevTUs| && prevTUs[i].Some? ensures !Reach(prevTUs[i].value, u) {
        if Reach(prevTUs[i].value, u) {
          LevelsGrow(c, prevTUs[i].value, u);
        }
      }
      return false;
    }
    var it := |prevTUs|;
    while it > 0
      invariant 0 <= it <= |prevTUs|
      invariant forall i :: it <= i < |prevTUs| && prevTUs[i].Some? ==> !Reach(prevTUs[i].value, u)
    {
      it := it - 1;
      if prevTUs[it].Some? {
        var above := Above(c, prevTUs[it].value, u);
        if above {
          return true;
        }
      }
    }
    return false;
  }

  // ----------------------------------------------------------------------- layers

  /** The layer of a unit among the units not ordered yet: one more than the highest layer of such a parent. */
  ghost function LayerOf(prevTUs: seq<Option<Unit>>, u: Unit): nat
    decreases u, |u.parents| + 1
  {
    LayerUpTo(prevTUs, u, |u.parents|)
  }

  ghost function LayerUpTo(prevTUs: seq<Option<Unit>>, u: Unit, j: nat): nat
    requires j <= |u.parents|
    decreases u, j
  {
    if j == 0 then 0 else
    var below := LayerUpTo(prevTUs, u, j - 1);
    if FreshSlot(prevTUs, u.parents[j - 1]) && LayerOf(prevTUs, u.parents[j - 1].value) >= below
    then LayerOf(prevTUs, u.parents[j - 1].value) + 1
    else below
  }

  /** The slot holds a unit not ordered yet. */
  ghost predicate FreshSlot(prevTUs: seq<Option<Unit>>, slot: Option<Unit>) {
    slot.Some? && !Ordered(prevTUs, slot.value)
  }

  lemma {:induction false} LayerAboveParents(prevTUs: seq<Option<Unit>>, u: Unit, j: nat, i: nat)
    requires i < j <= |u.parents| && FreshSlot(prevTUs, u.parents[i])
    ensures LayerOf(prevTUs, u.parents[i].value) < LayerUpTo(prevTUs, u, j)
    decreases j
  {
    hide Ordered;
    if i < j - 1 {
      LayerAboveParents(prevTUs, u, j - 1, i);
    }
  }

  /** One of the first `j` parents is fresh and on the layer under `l`. */
  ghost predicate DirectlyAbove(prevTUs: seq<Option<Unit>>, u: Unit, j: nat, l: nat) {
    exists i :: 0 <= i < j <= |u.parents| && FreshSlot(prevTUs, u.parents[i])
      && LayerOf(prevTUs, u.parents[i].value) + 1 == l
  }

  /** The layer written out: above all fresh parents, and 0 or directly above one of them. */
  lemma LayerOfIs(prevTUs: seq<Option<Unit>>, u: Unit, l: nat)
    ensures l == LayerOf(prevTUs, u) <==>
      && (forall i :: 0 <= i < |u.parents| && FreshSlot(prevTUs, u.parents[i]) ==>
            LayerOf(prevTUs, u.parents[i].value) < l)
      && (l == 0 || DirectlyAbove(prevTUs, u, |u.parents|, l))
  {
    hide Ordered;
    LayerIsTight(prevTUs, u, |u.parents|);
    forall i | 0 <= i < |u.parents| && FreshSlot(prevTUs, u.parents[i])
      ensures LayerOf(prevTUs, u.parents[i].value) < LayerOf(prevTUs, u)
    {
      LayerAboveParents(prevTUs, u, |u.parents|, i);
    }
  }

  lemma {:induction false} LayerIsTight(prevTUs: seq<Option<Unit>>, u: Unit, j: nat)
    requires j <= |u.parents|
    ensures LayerUpTo(prevTUs, u, j) == 0 || DirectlyAbove(prevTUs, u, j, LayerUpTo(prevTUs, u, j))
  {
    hide Ordered;
    if j > 0 {
      LayerIsTight(prevTUs, u, j - 1);
    }
  }

  lemma OrderedDownward(prevTUs: seq<Option<Unit>>, u: Unit, v: Unit)
    requires Ordered(prevTUs, u) && Reach(u, v)
    ensures Ordered(prevTUs, v)
  {
    var i :| 0 <= i < |prevTUs| && prevTUs[i].Some? && Reach(prevTUs[i].value, u);
    ReachTransitive(prevTUs[i].value, u, v);
  }

  /** A fresh unit strictly below is on a lower layer. */
  lemma {:induction false} LayersGrow(prevTUs: seq<Option<Unit>>, u: Unit, v: Unit)
    requires Below(u, v) && !Ordered(prevTUs, v)
    ensures LayerOf(prevTUs, v) < LayerOf(prevTUs, u)
    decreases u
  {
    var p :| IsParent(u, p) && Reach(p, v);
    ParentIsSmaller(u, p);
    if Ordered(prevTUs, p) {
      OrderedDownward(prevTUs, p, v);
    }
    var i :| 0 <= i < |u.parents| && u.parents[i] == Some(p);
    LayerAboveParents(prevTUs, u, |u.parents|, i);
    ReachUnfold(p, v);
    if p != v {
      LayersGrow(prevTUs, p, v);
    }
  }

  /** The units of a round reachable from `u`. */
  ghost predicate InRound(prevTUs: seq<Option<Unit>>, u: Unit, v: Unit) {
    Reach(u, v) && !Ordered(prevTUs, v)
  }

  /** Finished units carry their layer, are listed on it once, and have everything fresh below them finished. */
  ghost predicate LayersValid(prevTUs: seq<Option<Unit>>, layer: map<Unit, nat>, layers: seq<seq<Unit>>) {
    && (forall u :: u in layer ==> layer[u] == LayerOf(prevTUs, u) && layer[u] < |layers| && u in layers[layer[u]])
    && (forall l :: 0 <= l < |layers| ==> NoDup(layers[l]))
    && (forall l, u :: 0 <= l < |layers| && u in layers[l] ==> u in layer && layer[u] == l)
    && (forall u, v :: u in layer && InRound(prevTUs, u, v) ==> v in layer)
  }

  /** Adds `u` to its layer, opening the layer if it is new. */
  function Place(layers: seq<seq<Unit>>, u: Unit, l: nat): seq<seq<Unit>>
    requires l <= |layers|
  {
    if |layers| <= l then layers + [[u]] else layers[l := layers[l] + [u]]
  }

  ghost predicate ParentsDone(prevTUs: seq<Option<Unit>>, u: Unit, j: nat, done: set<Unit>) {
    forall i :: 0 <= i < j && i < |u.parents| && FreshSlot(prevTUs, u.parents[i]) ==> u.parents[i].value in done
  }

  /** With its fresh parents finished, everything fresh strictly below `u` is finished. */
  lemma DoneBelow(prevTUs: seq<Option<Unit>>, layer: map<Unit, nat>, layers: seq<seq<Unit>>, u: Unit, v: Unit)
    requires LayersValid(prevTUs, layer, layers) && ParentsDone(prevTUs, u, |u.parents|, layer.Keys)
    requires InRound(prevTUs, u, v)
    ensures v == u || v in layer
  {
    ReachUnfold(u, v);
    if v != u {
      var p :| IsParent(u, p) && Reach(p, v);
      if Ordered(prevTUs, p) {
        OrderedDownward(prevTUs, p, v);
      }
      assert InRound(prevTUs, p, v);
    }
  }

  lemma PlaceKeepsLayers(prevTUs: seq<Option<Unit>>, layer: map<Unit, nat>, layers: seq<seq<Unit>>, u: Unit, l: nat)
    requires LayersValid(prevTUs, layer, layers) && u !in layer && l == LayerOf(prevTUs, u) && l <= |layers|
    requires forall v :: InRound(prevTUs, u, v) ==> v == u || v in layer
    ensures LayersValid(prevTUs, layer[u := l], Place(layers, u, l))
  {
    hide LayerOf, InRound;
    var layers' := Place(layers, u, l);
    forall k, v | 0 <= k < |layers'|
      ensures v in layers'[k] <==> (k < |layers| && v in layers[k]) || (k == l && v == u)
    {
    }
    forall k | 0 <= k < |layers'| ensures NoDup(layers'[k]) {
      if k < |layers| { assert u !in layers[k]; }
    }
  }

  /** Depth-first search that assigns layers to everything not ordered yet. */
  class LayerSearch {
    const prevTUs: seq<Option<Unit>>
    var seen: set<Unit>
    var layer: map<Unit, nat>
    var layers: seq<seq<Unit>>

    constructor (prevTUs: seq<Option<Unit>>)
      ensures this.prevTUs == prevTUs && Valid() && seen == {} && layer == map[]
    {
      this.prevTUs := prevTUs;
      seen, layer, layers := {}, map[], [];
    }

    ghost predicate Valid()
      reads this
    {
      LayersValid(prevTUs, layer, layers) && layer.Keys <= seen
    }

    /** Units whose search is under way. */
    ghost function Open(): set<Unit>
      reads this
    {
      seen - layer.Keys
    }

    /** Everything on record after a step was there before or belongs to the round of `u`. */
    twostate predicate Grows(u: Unit)
      reads this
    {
      && old(layer.Keys) <= layer.Keys && |old(layers)| <= |layers|
      && Open() == old(Open())
      && forall v :: v in layer ==> v in old(layer) || InRound(prevTUs, u, v)
    }

    method Dfs(ghost c: Committee, u: Unit)
      requires Compliant(c, u) && LastIsHighest(prevTUs) && CompliantSlots(c, prevTUs)
      requires Valid() && u !in seen && !Ordered(prevTUs, u)
      requires forall w :: w in Open() ==> Below(w, u)
      modifies this
      ensures Valid() && u in layer && Grows(u)
      decreases u, 1
    {
      hide LayersValid, Compliant, InRound, LayerUpTo, LayerOf, Ordered, Reach, Below, FreshSlot;
      ghost var open := Open();
      seen := seen + {u};
      assert Open() == open + {u};
      var minLayerBelow := -1;
      LayerStart(prevTUs, u);
      for j := 0 to |u.parents|
        invariant Valid() && Open() == open + {u} && u !in layer
        invariant old(layer.Keys) <= layer.Keys && |old(layers)| <= |layers|
        invariant forall v :: v in layer ==> v in old(layer) || InRound(prevTUs, u, v)
        invariant minLayerBelow + 1 == LayerUpTo(prevTUs, u, j) && -1 <= minLayerBelow < |layers|
        invariant ParentsDone(prevTUs, u, j, layer.Keys)
      {
        minLayerBelow := VisitSlot(c, u, j, minLayerBelow, open);
        LayerStep(prevTUs, u, j);
        DoneStep(prevTUs, u, j, layer.Keys);
      }
      var uLayer := minLayerBelow + 1;
      forall v | InRound(prevTUs, u, v) ensures v == u || v in layer {
        DoneBelow(prevTUs, layer, layers, u, v);
      }
      LayerEnd(prevTUs, u);
      PlaceKeepsLayers(prevTUs, layer, layers, u, uLayer);
      layer := layer[u := uLayer];
      layers := Place(layers, u, uLayer);
      RoundSelf(prevTUs, u);
      assert Open() == open;
    }

    /** Searches one parent, unless it is ordered or seen already, and takes its layer into account. */
    method VisitSlot(ghost c: Committee, u: Unit, j: nat, below: int, ghost open: set<Unit>) returns (m: int)
      requires Compliant(c, u) && LastIsHighest(prevTUs) && CompliantSlots(c, prevTUs) && j < |u.parents|
      requires Valid() && Open() == open + {u} && -1 <= below < |layers|
      requires forall w :: w in open ==> Below(w, u)
      modifies this
      ensures Valid() && Grows(u) && below <= m < |layers|
      ensures FreshSlot(prevTUs, u.parents[j]) ==>
        u.parents[j].value in layer && m == Higher(below, LayerOf(prevTUs, u.parents[j].value))
      ensures !FreshSlot(prevTUs, u.parents[j]) ==> m == below
      decreases u, 0
    {
      hide LayersValid, Compliant, LayerUpTo, LayerOf, Ordered, Reach, Below, InRound;
      m := below;
      var slot := u.parents[j];
      if slot.None? {
        return;
      }
      var p := slot.value;
      SlotUnit(c, u, j);
      var ordered := CheckIfAlreadyOrdered(c, p, prevTUs);
      if ordered {
        return;
      }
      OpenAboveParent(u, p, open);
      if p !in seen {
        Dfs(c, p);
        forall v | InRound(prevTUs, p, v) ensures InRound(prevTUs, u, v) {
          RoundThroughParent(prevTUs, u, p, v);
        }
      }
      LayerOnRecord(prevTUs, layer, layers, p);
      m := Higher(below, layer[p]);
    }
  }

  function Higher(a: int, b: int): int { if b > a then b else a }

  lemma LayerStart(prevTUs: seq<Option<Unit>>, u: Unit)
    ensures LayerUpTo(prevTUs, u, 0) == 0 && ParentsDone(prevTUs, u, 0, {})
  {
  }

  lemma LayerEnd(prevTUs: seq<Option<Unit>>, u: Unit)
    ensures LayerUpTo(prevTUs, u, |u.parents|) == LayerOf(prevTUs, u)
  {
  }

  lemma LayerStep(prevTUs: seq<Option<Unit>>, u: Unit, j: nat)
    requires j < |u.parents|
    ensures LayerUpTo(prevTUs, u, j + 1) ==
      if FreshSlot(prevTUs, u.parents[j])
        then Higher(LayerUpTo(prevTUs, u, j) - 1, LayerOf(prevTUs, u.parents[j].value)) + 1
      else LayerUpTo(prevTUs, u, j)
  {
  }

  lemma DoneStep(prevTUs: seq<Option<Unit>>, u: Unit, j: nat, done: set<Unit>)
    requires j < |u.parents| && ParentsDone(prevTUs, u, j, done)
    requires FreshSlot(prevTUs, u.parents[j]) ==> u.parents[j].value in done
    ensures ParentsDone(prevTUs, u, j + 1, done)
  {
  }

  lemma SlotUnit(c: Committee, u: Unit, j: nat)
    requires Compliant(c, u) && j < |u.parents| && u.parents[j].Some?
    ensures Compliant(c, u.parents[j].value) && u.parents[j].value.creator < c.n && IsParent(u, u.parents[j].value)
    ensures u.parents[j].value < u
  {
    ParentIsSmaller(u, u.parents[j].value);
  }

  /** A parent of `u` is strictly below everything open, so it is not open itself. */
  lemma OpenAboveParent(u: Unit, p: Unit, open: set<Unit>)
    requires IsParent(u, p) && forall w :: w in open ==> Below(w, u)
    ensures (forall w :: w in open + {u} ==> Below(w, p)) && p !in open + {u}
  {
    ParentBelow(u, p);
    forall w | w in open + {u} ensures Below(w, p) && w != p {
      if w != u {
        ReachUnfold(u, p);
        BelowTransitive(w, u, p);
      }
      BelowIsSmaller(w, p);
    }
  }

  lemma RoundSelf(prevTUs: seq<Option<Unit>>, u: Unit)
    requires !Ordered(prevTUs, u)
    ensures InRound(prevTUs, u, u)
  {
  }

  lemma RoundThroughParent(prevTUs: seq<Option<Unit>>, u: Unit, p: Unit, v: Unit)
    requires IsParent(u, p) && InRound(prevTUs, p, v)
    ensures InRound(prevTUs, u, v)
  {
    ReachUnfold(u, v);
  }

  lemma LayerOnRecord(prevTUs: seq<Option<Unit>>, layer: map<Unit, nat>, layers: seq<seq<Unit>>, p: Unit)
    requires LayersValid(prevTUs, layer, layers) && p in layer
    ensures layer[p] == LayerOf(prevTUs, p) && layer[p] < |layers|
  {
  }

  /** The units of the round of `tu`, divided into layers. */
  method GetAntichainLayers(ghost c: Committee, tu: Unit, prevTUs: seq<Option<Unit>>) returns (layers: seq<seq<Unit>>)
    requires Compliant(c, tu) && LastIsHighest(prevTUs) && CompliantSlots(c, prevTUs) && !Ordered(prevTUs, tu)
    ensures IsLayering(prevTUs, tu, layers)
  {
    hide LayersValid, IsLayering, InRound, Compliant, Ordered;
    var search := new LayerSearch(prevTUs);
    search.Dfs(c, tu);
    layers := search.layers;
    LayeringDone(prevTUs, tu, search.layer, layers);
  }

  lemma LayeringDone(prevTUs: seq<Option<Unit>>, tu: Unit, layer: map<Unit, nat>, layers: seq<seq<Unit>>)
    requires LayersValid(prevTUs, layer, layers) && tu in layer
    requires forall v :: v in layer ==> InRound(prevTUs, tu, v)
    ensures IsLayering(prevTUs, tu, layers)
  {
    hide InRound, LayerOf;
  }

  /** Layer `l` lists, each once, exactly the units of the round whose layer is `l`. */
  ghost predicate IsLayering(prevTUs: seq<Option<Unit>>, tu: Unit, layers: seq<seq<Unit>>) {
    && (forall l :: 0 <= l < |layers| ==> NoDup(layers[l]))
    && (forall l, u :: 0 <= l < |layers| && u in layers[l] ==> InRound(prevTUs, tu, u) && LayerOf(prevTUs, u) == l)
    && (forall u :: InRound(prevTUs, tu, u) ==> LayerOf(prevTUs, u) < |layers| && u in layers[LayerOf(prevTUs, u)])
  }
}
