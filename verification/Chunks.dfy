/** Chunks of units: sorted by epoch with parents first, encoded one after another, and read back in that order. */
module Chunks {
  import opened Units
  import opened Encoding

  const MAX_UNITS_IN_CHUNK := 1_000_000

  /** A unit as the chunk code sees it: what goes over the wire, and its parents. */
  datatype ChunkUnit = ChunkUnit(pu: Preunit, parents: seq<Option<ChunkUnit>>)

  // --------------------------------------------------------------------------- layers

  /** The layer of a unit in a chunk: one more than the highest layer of a parent, 0 outside the chunk. */
  ghost function LayerIn(chunk: set<ChunkUnit>, u: ChunkUnit): nat
    decreases u, |u.parents| + 1
  {
    if u !in chunk then 0 else HighestParent(chunk, u, |u.parents|) + 1
  }

  ghost function HighestParent(chunk: set<ChunkUnit>, u: ChunkUnit, k: nat): nat
    requires k <= |u.parents|
    decreases u, k
  {
    if k == 0 then 0 else
    var below := HighestParent(chunk, u, k - 1);
    if u.parents[k - 1].Some?
      && LayerIn(chunk, u.parents[k - 1].value) > below then LayerIn(chunk, u.parents[k - 1].value) else below
  }

  lemma {:induction false} ParentIsLower(chunk: set<ChunkUnit>, u: ChunkUnit, i: nat, k: nat)
    requires i < k <= |u.parents| && u.parents[i].Some?
    ensures LayerIn(chunk, u.parents[i].value) <= HighestParent(chunk, u, k)
    decreases k
  {
    if i < k - 1 {
      ParentIsLower(chunk, u, i, k - 1);
    }
  }

  lemma {:induction false} HighestIsTight(chunk: set<ChunkUnit>, u: ChunkUnit, k: nat)
    requires k <= |u.parents|
    ensures HighestParent(chunk, u, k) == 0 || ParentOnLayer(chunk, u, k, HighestParent(chunk, u, k))
  {
    hide LayerIn;
    if k > 0 {
      HighestIsTight(chunk, u, k - 1);
    }
  }

  /** One of the first `k` parents is on layer `l`. */
  ghost predicate ParentOnLayer(chunk: set<ChunkUnit>, u: ChunkUnit, k: nat, l: nat) {
    exists i :: 0 <= i < k <= |u.parents| && u.parents[i].Some? && LayerIn(chunk, u.parents[i].value) == l
  }

  /** The layer written out: 0 outside the chunk; inside it at least 1, above all parents and directly above one. */
  lemma LayerInIs(chunk: set<ChunkUnit>, u: ChunkUnit, l: nat)
    ensures l == LayerIn(chunk, u) <==>
      if u !in chunk then l == 0
      else
        && l >= 1
        && (forall i :: 0 <= i < |u.parents| && u.parents[i].Some? ==> LayerIn(chunk, u.parents[i].value) < l)
        && (l == 1 || ParentOnLayer(chunk, u, |u.parents|, l - 1))
  {
    HighestIsTight(chunk, u, |u.parents|);
    forall i | 0 <= i < |u.parents| && u.parents[i].Some?
      ensures LayerIn(chunk, u.parents[i].value) <= HighestParent(chunk, u, |u.parents|)
    {
      ParentIsLower(chunk, u, i, |u.parents|);
    }
  }

  /** Layers found so far; -1 for those not computed yet. */
  ghost predicate Partial(chunk: set<ChunkUnit>, layers: map<ChunkUnit, int>) {
    layers.Keys == chunk && forall u :: u in layers ==> layers[u] == -1 || layers[u] == LayerIn(chunk, u)
  }

  /** Computes the layer of `u`, and those of everything it needs. */
  method ComputeLayer(ghost chunk: set<ChunkUnit>, u: ChunkUnit, layers: map<ChunkUnit, int>) returns (l: nat,
      after: map<ChunkUnit, int>)
    requires Partial(chunk, layers)
    ensures Partial(chunk, after) && l == LayerIn(chunk, u)
    ensures u in after ==> after[u] == l
    ensures forall v :: v in layers && layers[v] != -1 ==> after[v] == layers[v]
    decreases u
  {
    after := layers;
    if u !in layers {
      return 0, layers;
    }
    if layers[u] == -1 {
      var maxParentLayer := 0;
      for i := 0 to |u.parents|
        invariant Partial(chunk, after) && maxParentLayer == HighestParent(chunk, u, i)
        invariant forall v :: v in layers && layers[v] != -1 ==> after[v] == layers[v]
      {
        if u.parents[i].Some? {
          var v := u.parents[i].value;
          ParentSmaller(u, i);
          var cl;
          cl, after := ComputeLayer(chunk, v, after);
          if cl > maxParentLayer {
            maxParentLayer := cl;
          }
        }
      }
      after := after[u := maxParentLayer + 1];
    }
    l := after[u];
  }

  lemma ParentSmaller(u: ChunkUnit, i: nat)
    requires i < |u.parents| && u.parents[i].Some?
    ensures u.parents[i].value < u
  {
    assert u.parents[i] < u;
  }

  // -------------------------------------------------------------------------- sorting

  /** By epoch, then by layer. */
  ghost predicate NotAfter(chunk: set<ChunkUnit>, u: ChunkUnit, v: ChunkUnit) {
    u.pu.epoch < v.pu.epoch || (u.pu.epoch == v.pu.epoch && LayerIn(chunk, u) <= LayerIn(chunk, v))
  }

  ghost predicate SortedChunk(chunk: set<ChunkUnit>, s: seq<ChunkUnit>) {
    forall i, j :: 0 <= i < j < |s| ==> NotAfter(chunk, s[i], s[j])
  }

  /** The units of one epoch and layer, in the order of `s`. */
  ghost function Part(chunk: set<ChunkUnit>, s: seq<ChunkUnit>, epoch: nat, layer: nat): seq<ChunkUnit> {
    if s == [] then [] else
    var last := s[|s| - 1];
    var before := Part(chunk, s[..|s| - 1], epoch, layer);
    if last.pu.epoch == epoch && LayerIn(chunk, last) == layer then before + [last] else before
  }

  /** `s` is a rearrangement of `units` in which units of one epoch and layer keep their order. */
  ghost predicate KeepsOrder(chunk: set<ChunkUnit>, units: seq<ChunkUnit>, s: seq<ChunkUnit>) {
    forall e: nat, l: nat :: Part(chunk, s, e, l) == Part(chunk, units, e, l)
  }

  /** `s` holds the units of earlier epochs, and those of `epoch` on layers under `layer`, sorted and in their order. */
  ghost predicate Sorting(chunk: set<ChunkUnit>, units: seq<ChunkUnit>, s: seq<ChunkUnit>, epoch: nat, layer: nat) {
    && SortedChunk(chunk, s)
    && forall e: nat, l: nat :: Part(chunk, s, e, l) ==
         if e < epoch || (e == epoch && l < layer) then Part(chunk, units, e, l) else []
  }

  lemma {:induction false} PartMembers(chunk: set<ChunkUnit>, s: seq<ChunkUnit>, epoch: nat, layer: nat)
    ensures forall u :: u in Part(chunk, s, epoch, layer) <==>
      u in s && u.pu.epoch == epoch && LayerIn(chunk, u) == layer
  {
    hide LayerIn;
    if s != [] {
      PartMembers(chunk, s[..|s| - 1], epoch, layer);
      assert s == s[..|s| - 1] + [s[|s| - 1]];
    }
  }

  lemma {:induction false} PartAppend(chunk: set<ChunkUnit>, s: seq<ChunkUnit>, t: seq<ChunkUnit>, epoch: nat,
      layer: nat)
    ensures Part(chunk, s + t, epoch, layer) == Part(chunk, s, epoch, layer) + Part(chunk, t, epoch, layer)
  {
    hide LayerIn;
    if t == [] {
      assert s + t == s;
    } else {
      assert (s + t)[..|s + t| - 1] == s + t[..|t| - 1];
      PartAppend(chunk, s, t[..|t| - 1], epoch, layer);
    }
  }

  lemma {:induction false} PartOfBucket(chunk: set<ChunkUnit>, s: seq<ChunkUnit>, epoch: nat, layer: nat, e: nat,
      l: nat)
    requires forall u :: u in s ==> u.pu.epoch == epoch && LayerIn(chunk, u) == layer
    ensures Part(chunk, s, e, l) == if e == epoch && l == layer then s else []
  {
    hide LayerIn;
    if s != [] {
      assert s[|s| - 1] in s;
      PartOfBucket(chunk, s[..|s| - 1], epoch, layer, e, l);
    }
  }

  lemma {:induction false} CountInPart(chunk: set<ChunkUnit>, s: seq<ChunkUnit>, u: ChunkUnit)
    ensures multiset(s)[u] == multiset(Part(chunk, s, u.pu.epoch, LayerIn(chunk, u)))[u]
  {
    hide LayerIn;
    if s != [] {
      CountInPart(chunk, s[..|s| - 1], u);
      assert s == s[..|s| - 1] + [s[|s| - 1]];
    }
  }

  lemma KeepsUnits(chunk: set<ChunkUnit>, units: seq<ChunkUnit>, s: seq<ChunkUnit>)
    requires KeepsOrder(chunk, units, s)
    ensures multiset(s) == multiset(units)
  {
    hide LayerIn, Part;
    forall u ensures multiset(s)[u] == multiset(units)[u] {
      CountInPart(chunk, s, u);
      CountInPart(chunk, units, u);
      assert Part(chunk, s, u.pu.epoch, LayerIn(chunk, u)) == Part(chunk, units, u.pu.epoch, LayerIn(chunk, u));
    }
  }

  /** The units of one epoch and layer, in the order given. */
  method Bucket(ghost chunk: set<ChunkUnit>, units: seq<ChunkUnit>, layers: map<ChunkUnit, int>, epoch: nat,
      layer: nat) returns (s: seq<ChunkUnit>)
    requires forall u :: u in units ==> u in layers && layers[u] == LayerIn(chunk, u)
    ensures s == Part(chunk, units, epoch, layer)
  {
    hide LayerIn;
    s := [];
    for i := 0 to |units|
      invariant s == Part(chunk, units[..i], epoch, layer)
    {
      assert units[..i + 1][..i] == units[..i];
      assert units[i] in units;
      if units[i].pu.epoch == epoch && layers[units[i]] == layer {
        s := s + [units[i]];
      }
    }
    assert units[..|units|] == units;
  }

  /** Everything sorted so far comes before what is of `epoch` and `layer`. */
  lemma SortedBefore(chunk: set<ChunkUnit>, units: seq<ChunkUnit>, s: seq<ChunkUnit>, epoch: nat, layer: nat,
      u: ChunkUnit)
    requires Sorting(chunk, units, s, epoch, layer) && u in s
    ensures u.pu.epoch < epoch || (u.pu.epoch == epoch && LayerIn(chunk, u) < layer)
  {
    hide LayerIn, Part, SortedChunk;
    PartMembers(chunk, s, u.pu.epoch, LayerIn(chunk, u));
  }

  lemma BucketSorted(chunk: set<ChunkUnit>, s: seq<ChunkUnit>, bucket: seq<ChunkUnit>, epoch: nat, layer: nat)
    requires SortedChunk(chunk, s)
    requires forall u :: u in s ==> u.pu.epoch < epoch || (u.pu.epoch == epoch && LayerIn(chunk, u) < layer)
    requires forall u :: u in bucket ==> u.pu.epoch == epoch && LayerIn(chunk, u) == layer
    ensures SortedChunk(chunk, s + bucket)
  {
    hide LayerIn;
    var t := s + bucket;
    forall i, j | 0 <= i < j < |t| ensures NotAfter(chunk, t[i], t[j]) {
      assert if i < |s| then t[i] in s else t[i] in bucket;
      assert j >= |s| ==> t[j] in bucket;
    }
  }

  lemma AddBucket(chunk: set<ChunkUnit>, units: seq<ChunkUnit>, s: seq<ChunkUnit>, epoch: nat, layer: nat)
    requires Sorting(chunk, units, s, epoch, layer)
    ensures Sorting(chunk, units, s + Part(chunk, units, epoch, layer), epoch, layer + 1)
  {
    hide LayerIn, Part, SortedChunk;
    var bucket := Part(chunk, units, epoch, layer);
    PartMembers(chunk, units, epoch, layer);
    forall u | u in s ensures u.pu.epoch < epoch || (u.pu.epoch == epoch && LayerIn(chunk, u) < layer) {
      SortedBefore(chunk, units, s, epoch, layer, u);
    }
    BucketSorted(chunk, s, bucket, epoch, layer);
    forall e: nat, l: nat ensures Part(chunk, s + bucket, e, l) ==
      if e < epoch || (e == epoch && l < layer + 1) then Part(chunk, units, e, l) else []
    {
      PartAppend(chunk, s, bucket, e, l);
      PartOfBucket(chunk, bucket, epoch, layer, e, l);
    }
  }

  lemma NoPart(chunk: set<ChunkUnit>, units: seq<ChunkUnit>, e: nat, l: nat)
    requires forall u :: u in units ==> u.pu.epoch != e || LayerIn(chunk, u) != l
    ensures Part(chunk, units, e, l) == []
  {
    hide LayerIn, Part;
    PartMembers(chunk, units, e, l);
    if Part(chunk, units, e, l) != [] {
      assert Part(chunk, units, e, l)[0] in Part(chunk, units, e, l);
    }
  }

  lemma NextEpoch(chunk: set<ChunkUnit>, units: seq<ChunkUnit>, s: seq<ChunkUnit>, epoch: nat, layer: nat)
    requires Sorting(chunk, units, s, epoch, layer) && forall u :: u in units ==> LayerIn(chunk, u) < layer
    ensures Sorting(chunk, units, s, epoch + 1, 0)
  {
    hide LayerIn, Part;
    forall e: nat, l: nat ensures Part(chunk, s, e, l) == if e < epoch + 1 then Part(chunk, units, e, l) else [] {
      if l >= layer {
        NoPart(chunk, units, e, l);
      }
    }
  }

  ghost function AsSet(units: seq<ChunkUnit>): set<ChunkUnit> {
    set u | u in units
  }

  /** Epochs are 32-bit numbers. */
  ghost predicate EpochsFit(units: seq<ChunkUnit>) {
    forall u :: u in units ==> u.pu.epoch < UINT32
  }

  ghost predicate HasLastEpoch(units: seq<ChunkUnit>) {
    exists u :: u in units && u.pu.epoch == UINT32 - 1
  }

  /** The epoch counter after `k` rounds: it wraps. */
  function EpochAfter(first: nat, k: nat): nat {
    (first + k) % UINT32
  }

  /** A loop over the epochs up to `last` ends exactly if there is an epoch after the last one. */
  lemma EpochLoopEnds(first: nat, last: nat)
    requires first <= last < UINT32
    ensures (exists k: nat :: EpochAfter(first, k) > last) <==> last < UINT32 - 1
  {
    if last < UINT32 - 1 {
      assert EpochAfter(first, last + 1 - first) > last;
    }
  }

  /** With a unit of the last epoch the loop never ends, whatever else the chunk holds. */
  lemma LastEpochHangs(units: seq<ChunkUnit>, first: nat, last: nat)
    requires EpochsFit(units) && HasLastEpoch(units) && first <= last < UINT32
    requires forall u :: u in units ==> first <= u.pu.epoch <= last
    ensures !exists k: nat :: EpochAfter(first, k) > last
  {
    EpochLoopEnds(first, last);
  }

  /**
   * Sorts units by epoch and, within an epoch, parents first; `None` stands for a loop that does not end, which is
   * what happens exactly when some unit is of the very last epoch.
   */
  method SortChunk(units: seq<ChunkUnit>) returns (result: Option<seq<ChunkUnit>>)
    requires EpochsFit(units)
    ensures result.None? <==> HasLastEpoch(units)
    ensures result.Some? ==> multiset(result.value) == multiset(units)
    ensures result.Some? ==> SortedChunk(AsSet(units), result.value) && KeepsOrder(AsSet(units), units, result.value)
  {
    if units == [] {
      return Some(units);
    }
    ghost var chunk := AsSet(units);
    var layers := AllLayers(units);
    var maxLayer, minEpoch, maxEpoch := Bounds(chunk, units, layers);
    EpochLoopEnds(minEpoch, maxEpoch);
    if maxEpoch == UINT32 - 1 {
      return None;
    }
    var sorted: seq<ChunkUnit> := [];
    NothingSorted(chunk, units, minEpoch);
    var epoch := minEpoch;
    ghost var rounds := 0;
    while epoch <= maxEpoch
      invariant epoch <= maxEpoch + 1 && epoch == EpochAfter(minEpoch, rounds)
      invariant Sorting(chunk, units, sorted, epoch, 0)
      decreases maxEpoch + 1 - epoch
    {
      sorted := SortEpoch(chunk, units, layers, sorted, epoch, maxLayer);
      epoch := (epoch + 1) % UINT32;
      rounds := rounds + 1;
    }
    AllSorted(chunk, units, sorted, epoch);
    return Some(sorted);
  }

  method SortEpoch(ghost chunk: set<ChunkUnit>, units: seq<ChunkUnit>, layers: map<ChunkUnit, int>,
      before: seq<ChunkUnit>, epoch: nat, maxLayer: int) returns (result: seq<ChunkUnit>)
    requires forall u :: u in units ==> u in layers && layers[u] == LayerIn(chunk, u) <= maxLayer
    requires Sorting(chunk, units, before, epoch, 0)
    ensures Sorting(chunk, units, result, epoch + 1, 0)
  {
    hide Sorting, LayerIn;
    result := before;
    var layer := 0;
    while layer <= maxLayer
      invariant Sorting(chunk, units, result, epoch, layer)
    {
      var bucket := Bucket(chunk, units, layers, epoch, layer);
      AddBucket(chunk, units, result, epoch, layer);
      result := result + bucket;
      layer := layer + 1;
    }
    NextEpoch(chunk, units, result, epoch, layer);
  }

  lemma NothingSorted(chunk: set<ChunkUnit>, units: seq<ChunkUnit>, epoch: nat)
    requires forall u :: u in units ==> u.pu.epoch >= epoch
    ensures Sorting(chunk, units, [], epoch, 0)
  {
    hide LayerIn;
    forall e: nat, l: nat ensures Part(chunk, [], e, l) == if e < epoch then Part(chunk, units, e, l) else [] {
      if e < epoch {
        NoPart(chunk, units, e, l);
      }
    }
  }

  lemma AllSorted(chunk: set<ChunkUnit>, units: seq<ChunkUnit>, s: seq<ChunkUnit>, epoch: nat)
    requires Sorting(chunk, units, s, epoch, 0) && forall u :: u in units ==> u.pu.epoch < epoch
    ensures KeepsOrder(chunk, units, s) && multiset(s) == multiset(units)
  {
    hide LayerIn, Part;
    forall e: nat, l: nat ensures Part(chunk, s, e, l) == Part(chunk, units, e, l) {
      if e >= epoch {
        NoPart(chunk, units, e, l);
      }
    }
    KeepsUnits(chunk, units, s);
  }

  method AllLayers(units: seq<ChunkUnit>) returns (layers: map<ChunkUnit, int>)
    ensures layers.Keys == AsSet(units) && forall u :: u in units ==> layers[u] == LayerIn(AsSet(units), u)
  {
    hide LayerIn;
    ghost var chunk := AsSet(units);
    layers := map u | u in units :: -1;
    assert layers.Keys == chunk;
    for i := 0 to |units|
      invariant Partial(chunk, layers)
      invariant forall k :: 0 <= k < i ==> layers[units[k]] == LayerIn(chunk, units[k])
    {
      var l;
      l, layers := ComputeLayer(chunk, units[i], layers);
      assert units[i] in layers;
    }
  }

  method Bounds(ghost chunk: set<ChunkUnit>, units: seq<ChunkUnit>, layers: map<ChunkUnit, int>) returns (maxLayer: int,
      minEpoch: nat, maxEpoch: nat)
    requires units != [] && forall u :: u in units ==> u in layers && layers[u] == LayerIn(chunk, u)
    ensures minEpoch <= maxEpoch && forall u :: u in units ==>
      LayerIn(chunk, u) <= maxLayer && minEpoch <= u.pu.epoch <= maxEpoch
    ensures exists u :: u in units && u.pu.epoch == maxEpoch
  {
    hide LayerIn;
    maxLayer, minEpoch, maxEpoch := -1, units[0].pu.epoch, units[0].pu.epoch;
    for i := 0 to |units|
      invariant minEpoch <= units[0].pu.epoch <= maxEpoch && exists u :: u in units && u.pu.epoch == maxEpoch
      invariant forall k :: 0 <= k < i ==>
        LayerIn(chunk, units[k]) <= maxLayer && minEpoch <= units[k].pu.epoch <= maxEpoch
    {
      assert units[i] in units;
      if layers[units[i]] > maxLayer {
        maxLayer := layers[units[i]];
      }
      if units[i].pu.epoch > maxEpoch {
        maxEpoch := units[i].pu.epoch;
      }
      if units[i].pu.epoch < minEpoch {
        minEpoch := units[i].pu.epoch;
      }
    }
  }

  /** In a sorted chunk a parent of no later epoch comes before its child, however often either is listed. */
  lemma ParentsComeFirst(units: seq<ChunkUnit>, s: seq<ChunkUnit>, i: nat, j: nat, k: nat)
    requires multiset(s) == multiset(units) && SortedChunk(AsSet(units), s)
    requires i < |s| && j < |s| && k < |s[j].parents| && s[j].parents[k] == Some(s[i]) && s[i].pu.epoch <= s[j].pu.epoch
    ensures i < j
  {
    hide HighestParent;
    var chunk := AsSet(units);
    assert s[j] in multiset(units);
    ParentIsLower(chunk, s[j], k, |s[j].parents|);
    assert j < i ==> NotAfter(chunk, s[j], s[i]);
  }

  /** `v` is reached from `u` through parents that are all in the chunk. */
  ghost predicate ReachIn(chunk: set<ChunkUnit>, u: ChunkUnit, v: ChunkUnit)
    decreases u
  {
    u in chunk && (u == v
      || exists i :: 0 <= i < |u.parents| && u.parents[i].Some? && ReachIn(chunk, u.parents[i].value, v))
  }

  lemma {:induction false} LayerGrowsIn(chunk: set<ChunkUnit>, u: ChunkUnit, v: ChunkUnit)
    requires ReachIn(chunk, u, v)
    ensures u == v || LayerIn(chunk, v) < LayerIn(chunk, u)
    decreases u
  {
    hide HighestParent;
    if u != v {
      var i :| 0 <= i < |u.parents| && u.parents[i].Some? && ReachIn(chunk, u.parents[i].value, v);
      LayerGrowsIn(chunk, u.parents[i].value, v);
      ParentIsLower(chunk, u, i, |u.parents|);
    }
  }

  /** In a sorted chunk an ancestor of no later epoch comes first if the chunk has everything on some way down to it. */
  lemma AncestorsComeFirst(units: seq<ChunkUnit>, s: seq<ChunkUnit>, i: nat, j: nat)
    requires multiset(s) == multiset(units) && SortedChunk(AsSet(units), s)
    requires i < |s| && j < |s| && s[i] != s[j] && ReachIn(AsSet(units), s[j], s[i]) && s[i].pu.epoch <= s[j].pu.epoch
    ensures i < j
  {
    var chunk := AsSet(units);
    LayerGrowsIn(chunk, s[j], s[i]);
    assert j < i ==> NotAfter(chunk, s[j], s[i]);
  }

  /** With a gap on the only way down, a descendant listed before its ancestor stays before it. */
  lemma GapKeepsDescendantFirst(g: ChunkUnit, m: ChunkUnit, c: ChunkUnit, s: seq<ChunkUnit>)
    requires g.parents == [] && m.parents == [Some(g)] && c.parents == [Some(m)] && g.pu.epoch == c.pu.epoch
    requires SortedChunk(AsSet([c, g]), s) && KeepsOrder(AsSet([c, g]), [c, g], s)
    ensures s == [c, g]
  {
    hide LayerIn, Part, SortedChunk;
    var chunk, e := AsSet([c, g]), c.pu.epoch;
    GapUnits(g, m, c);
    LayerOfLone(chunk, g);
    LayerOfChild(chunk, m, c);
    KeepsUnits(chunk, [c, g], s);
    forall u | u in s ensures u.pu.epoch == e && LayerIn(chunk, u) == 1 {
      assert u in multiset(s);
    }
    PartOfBucket(chunk, s, e, 1, e, 1);
    PartOfBucket(chunk, [c, g], e, 1, e, 1);
  }

  lemma LayerOfLone(chunk: set<ChunkUnit>, g: ChunkUnit)
    requires g in chunk && g.parents == []
    ensures LayerIn(chunk, g) == 1
  {
    assert HighestParent(chunk, g, 0) == 0;
  }

  /** A unit whose only parent is outside the chunk is on the lowest layer. */
  lemma LayerOfChild(chunk: set<ChunkUnit>, m: ChunkUnit, c: ChunkUnit)
    requires c in chunk && m !in chunk && c.parents == [Some(m)]
    ensures LayerIn(chunk, c) == 1
  {
    assert LayerIn(chunk, m) == 0 && HighestParent(chunk, c, 0) == 0;
    assert c.parents[0].value == m;
    assert HighestParent(chunk, c, 1) == 0;
  }

  lemma GapUnits(g: ChunkUnit, m: ChunkUnit, c: ChunkUnit)
    requires g.parents == [] && m.parents == [Some(g)] && c.parents == [Some(m)]
    ensures m != g && m != c && g != c
  {
    assert m.parents[0].Some? && c.parents[0].value == m;
    ParentSmaller(c, 0);
  }

  // ------------------------------------------------------------------ encoding chunks

  /** The encodings of units one after another; `None` if one of them cannot be encoded. */
  function UnitsBytes(s: seq<ChunkUnit>): Option<seq<Octet>> {
    if s == [] then Some([]) else
    var before := UnitsBytes(s[..|s| - 1]);
    var last := UnitBytes(Some(s[|s| - 1].pu));
    if before.None? || last.None? then None else Some(before.value + last.value)
  }

  datatype Encoded = Bytes(bytes: seq<Octet>) | TooMany | Unencodable | Hangs

  /** Encodes the number of units and then the units, sorted. */
  method EncodeChunk(units: seq<ChunkUnit>) returns (r: Encoded, ghost sorted: seq<ChunkUnit>)
    requires EpochsFit(units) && forall u :: u in units ==> |u.pu.controlHash| == HASH_BYTES
    ensures r.TooMany? <==> |units| > 1_000_000
    ensures r.Hangs? <==> |units| <= 1_000_000 && exists u :: u in units && u.pu.epoch == 4294967295
    ensures !r.TooMany? && !r.Hangs? ==>
      && multiset(sorted) == multiset(units) && SortedChunk(AsSet(units), sorted)
      && (r.Unencodable? <==> UnitsBytes(sorted).None?)
      && (r.Bytes? ==> r.bytes == ToBytes(|units|, 4) + UnitsBytes(sorted).value && Word32(r.bytes, 0) == |units|)
  {
    hide LayerIn, SortedChunk, UnitsBytes, UnitBytes, ToBytes, AsSet;
    if |units| > MAX_UNITS_IN_CHUNK {
      return TooMany, [];
    }
    var bytes := ToBytes(|units|, 4);
    var chunk := SortChunk(units);
    if chunk.None? {
      return Hangs, [];
    }
    var s := chunk.value;
    sorted := s;
    NoBytes(s);
    for i := 0 to |s|
      invariant UnitsBytes(s[..i]).Some? && bytes == ToBytes(|units|, 4) + UnitsBytes(s[..i]).value
    {
      assert s[i] in multiset(units);
      NextBytes(s, i);
      var one := EncodeUnit(Some(s[i].pu));
      if one.None? {
        Unfinished(s, i + 1, |s|);
        assert s[..|s|] == s;
        return Unencodable, s;
      }
      bytes := bytes + one.value;
    }
    assert s[..|s|] == s;
    WordsOf(|units|);
    return Bytes(bytes), s;
  }

  lemma NoBytes(s: seq<ChunkUnit>)
    ensures UnitsBytes(s[..0]) == Some([])
  {
  }

  lemma NextBytes(s: seq<ChunkUnit>, i: nat)
    requires i < |s| && UnitsBytes(s[..i]).Some?
    ensures UnitsBytes(s[..i + 1]).None? <==> UnitBytes(Some(s[i].pu)).None?
    ensures UnitBytes(Some(s[i].pu)).Some? ==>
      UnitsBytes(s[..i + 1]).value == UnitsBytes(s[..i]).value + UnitBytes(Some(s[i].pu)).value
  {
    assert s[..i + 1][..i] == s[..i];
  }

  lemma {:induction false} Unfinished(s: seq<ChunkUnit>, i: nat, n: nat)
    requires i <= n <= |s| && UnitsBytes(s[..i]).None?
    ensures UnitsBytes(s[..n]).None?
    decreases n - i
  {
    if i < n {
      assert s[..i + 1][..i] == s[..i];
      Unfinished(s, i + 1, n);
    }
  }

  function ReadUnits(bs: seq<Octet>, k: nat): Result<seq<Option<Preunit>>> {
    if k == 0 then Ok([], bs) else
    match ReadUnits(bs, k - 1)
    case Err => Err
    case Panic => Panic
    case Ok(us, rest) =>
      match DecodePreunit(rest)
      case Err => Err
      case Panic => Panic
      case Ok(u, rest') => Ok(us + [u], rest')
  }

  function DecodeChunk(bs: seq<Octet>): Result<seq<Option<Preunit>>> {
    match ReadNat(bs, 4)
    case Err => Err
    case Panic => Panic
    case Ok(k, rest) => if k > MAX_UNITS_IN_CHUNK then Err else ReadUnits(rest, k)
  }

  lemma CountIs(bs: seq<Octet>)
    requires |bs| >= 4
    ensures FromBytes(bs[..4]) == Word32(bs, 0)
  {
    FromBytes4(bs[..4]);
  }

  /** Reads the preunits of a chunk one by one. */
  method ReadChunk(bs: seq<Octet>) returns (r: Result<seq<Option<Preunit>>>)
    ensures r == DecodeChunk(bs)
    ensures |bs| < 4 || Word32(bs, 0) > 1_000_000 ==> r.Err?
    ensures r.Ok? ==> |bs| >= 4 && |r.value| == Word32(bs, 0)
  {
    hide DecodePreunit;
    if |bs| < 4 {
      return Err;
    }
    CountIs(bs);
    var k := FromBytes(bs[..4]);
    if k > MAX_UNITS_IN_CHUNK {
      return Err;
    }
    var units: seq<Option<Preunit>>, rest := [], bs[4..];
    for i := 0 to k
      invariant ReadUnits(bs[4..], i) == Ok(units, rest) && |units| == i
    {
      var u := DecodePreunit(rest);
      if !u.Ok? {
        ReadUnitsStops(bs[4..], i + 1, k);
        return if u.Err? then Err else Panic;
      }
      units, rest := units + [u.value], u.rest;
    }
    return Ok(units, rest);
  }

  lemma {:induction false} ReadUnitsStops(bs: seq<Octet>, i: nat, k: nat)
    requires i <= k && !ReadUnits(bs, i).Ok?
    ensures ReadUnits(bs, k) == ReadUnits(bs, i)
    decreases k - i
  {
    hide DecodePreunit;
    if i < k {
      ReadUnitsStops(bs, i + 1, k);
    }
  }

  function Wired(s: seq<ChunkUnit>): (r: seq<Option<Preunit>>)
    ensures |r| == |s| && forall i :: 0 <= i < |s| ==> r[i] == Some(s[i].pu)
  {
    if s == [] then [] else Wired(s[..|s| - 1]) + [Some(s[|s| - 1].pu)]
  }

  lemma {:induction false} UnitsBack(s: seq<ChunkUnit>, rest: seq<Octet>)
    requires UnitsBytes(s).Some? && forall u :: u in s ==> WellFormed(u.pu)
    ensures ReadUnits(UnitsBytes(s).value + rest, |s|) == Ok(Wired(s), rest)
  {
    hide WellFormed, DecodePreunit, UnitBytes;
    if s == [] {
      assert [] + rest == rest;
    } else {
      var last := |s| - 1;
      var one := UnitBytes(Some(s[last].pu)).value;
      assert s[last] in s;
      Encodable(s[last].pu);
      assert UnitsBytes(s).value + rest == UnitsBytes(s[..last]).value + (one + rest);
      UnitsBack(s[..last], one + rest);
      DecodeEncoded(s[last].pu, rest);
    }
  }

  lemma Encodable(pu: Preunit)
    requires UnitBytes(Some(pu)).Some?
    ensures |pu.heights| <= 16375
  {
  }

  lemma {:induction false} UnitsReadFit(bs: seq<Octet>, k: nat)
    ensures var r := ReadUnits(bs, k);
      r.Ok? ==> |r.value| == k && forall i :: 0 <= i < k && r.value[i].Some? ==> WellFormed(r.value[i].value)
  {
    hide WellFormed, DecodePreunit;
    if k > 0 {
      UnitsReadFit(bs, k - 1);
      var r := ReadUnits(bs, k - 1);
      if r.Ok? {
        DecodedIsWellFormed(r.rest);
      }
    }
  }

  /** A chunk is read back as its units, and nothing beyond it is read, exactly if every unit is well-formed. */
  lemma ChunkRoundTrip(s: seq<ChunkUnit>, rest: seq<Octet>)
    requires |s| <= MAX_UNITS_IN_CHUNK && UnitsBytes(s).Some?
    ensures DecodeChunk(ToBytes(|s|, 4) + UnitsBytes(s).value + rest) == Ok(Wired(s), rest) <==>
      forall u :: u in s ==> WellFormed(u.pu)
  {
    hide ToBytes, FromBytes, ReadNat, Pow256, UnitsBytes, ReadUnits, WellFormed, Wired;
    Powers();
    var tail := UnitsBytes(s).value + rest;
    assert ToBytes(|s|, 4) + UnitsBytes(s).value + rest == ToBytes(|s|, 4) + tail;
    ReadNatBack(|s|, 4, tail);
    if forall u :: u in s ==> WellFormed(u.pu) {
      UnitsBack(s, rest);
    }
    forall u | u in s && ReadUnits(tail, |s|) == Ok(Wired(s), rest) ensures WellFormed(u.pu) {
      UnitsReadAreFit(s, tail, rest, u);
    }
  }

  lemma UnitsReadAreFit(s: seq<ChunkUnit>, bs: seq<Octet>, rest: seq<Octet>, u: ChunkUnit)
    requires ReadUnits(bs, |s|) == Ok(Wired(s), rest) && u in s
    ensures WellFormed(u.pu)
  {
    hide WellFormed, ReadUnits, Wired;
    UnitsReadFit(bs, |s|);
    var i :| 0 <= i < |s| && s[i] == u;
    assert Wired(s)[i].Some?;
  }
}
