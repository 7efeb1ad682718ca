/** The linear order inside a timing round: by layer, ties broken by a common mask of the hashes. */
module RoundOrder {
  import opened Units
  import opened HashOrder
  import opened TimingRounds

  // ------------------------------------------------------------------ hash masks

  function ZeroHash(): Hash {
    seq(32, i => 0)
  }

  function Xor(h: Hash, k: Hash): Hash {
    seq(32, i requires 0 <= i < 32 => h[i] ^ k[i])
  }

  /** The xor of the hashes of all units of `s`. */
  function XorAll(s: seq<Unit>): Hash {
    if s == [] then ZeroHash() else Xor(XorAll(s[..|s| - 1]), s[|s| - 1].hash)
  }

  lemma XorSwap(a: Hash, b: Hash, c: Hash)
    ensures Xor(Xor(a, b), c) == Xor(Xor(a, c), b)
  {
    forall i | 0 <= i < 32 ensures (a[i] ^ b[i]) ^ c[i] == (a[i] ^ c[i]) ^ b[i] {
      XorBytes(a[i], b[i], c[i]);
    }
  }

  lemma XorBytes(x: Byte, y: Byte, z: Byte)
    ensures (x ^ y) ^ z == (x ^ z) ^ y
    ensures x ^ y == x ^ z ==> y == z
  {
  }

  lemma XorInjective(mask: Hash, h: Hash, k: Hash)
    requires Xor(mask, h) == Xor(mask, k)
    ensures h == k
  {
    forall i | 0 <= i < 32 ensures h[i] == k[i] {
      assert Xor(mask, h)[i] == Xor(mask, k)[i];
      XorBytes(mask[i], h[i], k[i]);
    }
  }

  lemma {:induction false} XorRemove(s: seq<Unit>, j: nat)
    requires j < |s|
    ensures XorAll(s) == Xor(XorAll(s[..j] + s[j + 1..]), s[j].hash)
  {
    var last := |s| - 1;
    var rest := s[..j] + s[j + 1..];
    if j == last {
      assert rest == s[..last];
    } else {
      XorRemove(s[..last], j);
      assert s[..last][..j] + s[..last][j + 1..] == rest[..last - 1];
      assert rest[last - 1] == s[last];
      XorSwap(XorAll(rest[..last - 1]), s[j].hash, s[last].hash);
    }
  }

  /** The mask does not depend on the order of the units. */
  lemma {:induction false} XorPermuted(s: seq<Unit>, t: seq<Unit>)
    requires multiset(s) == multiset(t)
    ensures XorAll(s) == XorAll(t)
    decreases |s|
  {
    hide Xor, XorAll;
    assert |multiset(s)| == |s| && |multiset(t)| == |t|;
    if s == [] {
      assert t == [];
    } else {
      var last := |s| - 1;
      assert s[last] in multiset(t);
      var j :| 0 <= j < |t| && t[j] == s[last];
      RemoveAt(s, last);
      RemoveAt(t, j);
      XorPermuted(s[..last] + s[last + 1..], t[..j] + t[j + 1..]);
      XorRemove(s, last);
      XorRemove(t, j);
    }
  }

  lemma RemoveAt(s: seq<Unit>, j: nat)
    requires j < |s|
    ensures multiset(s[..j] + s[j + 1..]) == multiset(s) - multiset{s[j]}
  {
    assert s == s[..j] + [s[j]] + s[j + 1..];
  }

  // ------------------------------------------------------- the mask, bit by bit

  ghost predicate IsBit(bit: Byte) {
    bit == 1 || bit == 2 || bit == 4 || bit == 8 || bit == 16 || bit == 32 || bit == 64 || bit == 128
  }

  ghost predicate HasBit(x: Byte, bit: Byte) {
    x & bit != 0
  }

  /** The places of `s` whose unit has the bit set in byte `k` of its hash. */
  ghost function PlacesWith(s: seq<Unit>, k: nat, bit: Byte): set<nat>
    requires k < 32
  {
    set i: nat | i < |s| && HasBit(s[i].hash[k], bit)
  }

  /** A bit of `mask` is set exactly if it is set in an odd number of the hashes of `s`. */
  ghost predicate IsParityMask(s: seq<Unit>, mask: Hash) {
    forall k, bit :: 0 <= k < 32 && IsBit(bit) ==> (HasBit(mask[k], bit) <==> |PlacesWith(s, k, bit)| % 2 == 1)
  }

  lemma XorBit(x: Byte, y: Byte, bit: Byte)
    requires IsBit(bit)
    ensures HasBit(x ^ y, bit) <==> HasBit(x, bit) != HasBit(y, bit)
    ensures !HasBit(0, bit)
  {
  }

  /** The exclusive or of the hashes is their parity, bit by bit. */
  lemma {:induction false} XorIsParity(s: seq<Unit>)
    ensures IsParityMask(s, XorAll(s))
  {
    hide IsBit, HasBit, XorAll;
    forall k, bit | 0 <= k < 32 && IsBit(bit)
      ensures HasBit(XorAll(s)[k], bit) <==> |PlacesWith(s, k, bit)| % 2 == 1
    {
      ParityAt(s, k, bit);
    }
  }

  lemma {:induction false} ParityAt(s: seq<Unit>, k: nat, bit: Byte)
    requires k < 32 && IsBit(bit)
    ensures HasBit(XorAll(s)[k], bit) <==> |PlacesWith(s, k, bit)| % 2 == 1
  {
    hide IsBit, HasBit, XorAll, Xor, PlacesWith;
    XorAllAt(s, k);
    PlacesNext(s, k, bit);
    if s == [] {
      XorBit(0, 0, bit);
    } else {
      var last := |s| - 1;
      ParityAt(s[..last], k, bit);
      XorBit(XorAll(s[..last])[k], s[last].hash[k], bit);
    }
  }

  lemma XorAllAt(s: seq<Unit>, k: nat)
    requires k < 32
    ensures XorAll(s)[k] == if s == [] then 0 else XorAll(s[..|s| - 1])[k] ^ s[|s| - 1].hash[k]
  {
  }

  lemma PlacesNext(s: seq<Unit>, k: nat, bit: Byte)
    requires k < 32
    ensures |PlacesWith(s, k, bit)| == if s == [] then 0 else
        |PlacesWith(s[..|s| - 1], k, bit)| + if HasBit(s[|s| - 1].hash[k], bit) then 1 else 0
  {
    hide HasBit;
    if s == [] {
      assert PlacesWith(s, k, bit) == {};
    } else {
      var last := |s| - 1;
      var here: set<nat> := if HasBit(s[last].hash[k], bit) then {last} else {};
      assert PlacesWith(s, k, bit) == PlacesWith(s[..last], k, bit) + here;
    }
  }

  lemma SameBits(x: Byte, y: Byte)
    requires forall bit :: IsBit(bit) ==> (HasBit(x, bit) <==> HasBit(y, bit))
    ensures x == y
  {
    assert IsBit(1) && IsBit(2) && IsBit(4) && IsBit(8) && IsBit(16) && IsBit(32) && IsBit(64) && IsBit(128);
  }

  /** There is only one such mask. */
  lemma ParityMaskUnique(s: seq<Unit>, mask: Hash, mask': Hash)
    requires IsParityMask(s, mask) && IsParityMask(s, mask')
    ensures mask == mask'
  {
    hide IsBit, HasBit;
    forall k | 0 <= k < 32 ensures mask[k] == mask'[k] {
      SameBits(mask[k], mask'[k]);
    }
  }

  /** The masked hash `h` is smaller than the masked hash `k` where they first differ. */
  ghost predicate MaskedLess(mask: Hash, h: Hash, k: Hash) {
    exists i :: 0 <= i < 32 && mask[i] ^ h[i] < mask[i] ^ k[i] && forall j :: 0 <= j < i ==> h[j] == k[j]
  }

  // ------------------------------------------------------------------- the order

  /** The tiebreaker of a unit under a mask. */
  function TieKey(mask: Hash): Unit -> Hash {
    (u: Unit) => Xor(mask, u.hash)
  }

  /** `a` comes before `b` in a round masked by `mask`. */
  ghost predicate Before(prevTUs: seq<Option<Unit>>, mask: Hash, a: Unit, b: Unit) {
    || LayerOf(prevTUs, a) < LayerOf(prevTUs, b)
    || (LayerOf(prevTUs, a) == LayerOf(prevTUs, b) && !Less(TieKey(mask)(b), TieKey(mask)(a)))
  }

  /** `s` lists exactly the units of the round, each once, by layer and tiebreaker. */
  ghost predicate IsRoundOrder(prevTUs: seq<Option<Unit>>, tu: Unit, s: seq<Unit>) {
    && NoDup(s)
    && (forall u :: u in s <==> InRound(prevTUs, tu, u))
    && forall i, j :: 0 <= i < j < |s| ==> Before(prevTUs, XorAll(s), s[i], s[j])
  }

  function Flatten(layers: seq<seq<Unit>>): seq<Unit> {
    if layers == [] then [] else Flatten(layers[..|layers| - 1]) + layers[|layers| - 1]
  }

  lemma {:induction false} XorConcat(s: seq<Unit>, t: seq<Unit>, k: nat)
    requires k < |t|
    ensures XorAll(s + t[..k + 1]) == Xor(XorAll(s + t[..k]), t[k].hash)
  {
    var r := s + t[..k + 1];
    assert r[..|r| - 1] == s + t[..k];
  }

  /** The xor of all hashes, layer after layer. */
  method TotalXor(layers: seq<seq<Unit>>) returns (total: Hash)
    ensures total == XorAll(Flatten(layers)) && IsParityMask(Flatten(layers), total)
  {
    hide IsParityMask;
    total := ZeroHash();
    for i := 0 to |layers|
      invariant total == XorAll(Flatten(layers[..i]))
    {
      ghost var done := Flatten(layers[..i]);
      assert done + layers[i][..0] == done;
      for k := 0 to |layers[i]|
        invariant total == XorAll(done + layers[i][..k])
      {
        XorConcat(done, layers[i], k);
        total := Xor(total, layers[i][k].hash);
      }
      assert layers[i][..|layers[i]|] == layers[i];
      assert layers[..i + 1][..i] == layers[..i];
    }
    assert layers[..|layers|] == layers;
    XorIsParity(Flatten(layers));
  }

  /** Sorts every layer by tiebreaker and puts the layers one after another. */
  method MergeLayers(layers: seq<seq<Unit>>) returns (sorted: seq<Unit>, ghost ordered: seq<seq<Unit>>)
    ensures sorted == Flatten(ordered) && |ordered| == |layers|
    ensures forall l :: 0 <= l < |layers| ==>
      multiset(ordered[l]) == multiset(layers[l]) && SortedBy(ordered[l], TieKey(XorAll(Flatten(layers))))
    ensures multiset(sorted) == multiset(Flatten(layers))
  {
    var total := TotalXor(layers);
    sorted, ordered := [], [];
    for l := 0 to |layers|
      invariant |ordered| == l && sorted == Flatten(ordered)
      invariant forall k :: 0 <= k < l ==>
        multiset(ordered[k]) == multiset(layers[k]) && SortedBy(ordered[k], TieKey(total))
      invariant multiset(sorted) == multiset(Flatten(layers[..l]))
    {
      var layer := Sort(layers[l], TieKey(total));
      assert layers[..l + 1][..l] == layers[..l];
      assert (ordered + [layer])[..l] == ordered;
      sorted, ordered := sorted + layer, ordered + [layer];
    }
    assert layers[..|layers|] == layers;
  }

  // -------------------------------------------------------------- ordering a round

  ghost predicate PairwiseBefore(prevTUs: seq<Option<Unit>>, mask: Hash, s: seq<Unit>) {
    forall i, j :: 0 <= i < j < |s| ==> Before(prevTUs, mask, s[i], s[j])
  }

  /** Layer `l` of `ordered` holds units of layer `l`, each once, sorted. */
  ghost predicate SortedLayers(prevTUs: seq<Option<Unit>>, mask: Hash, ordered: seq<seq<Unit>>) {
    forall l :: 0 <= l < |ordered| ==> SortedLayer(prevTUs, mask, ordered[l], l)
  }

  ghost predicate SortedLayer(prevTUs: seq<Option<Unit>>, mask: Hash, layer: seq<Unit>, l: nat) {
    && NoDup(layer) && SortedBy(layer, TieKey(mask))
    && forall u :: u in layer ==> LayerOf(prevTUs, u) == l
  }

  lemma {:induction false} FlattenSorted(prevTUs: seq<Option<Unit>>, mask: Hash, ordered: seq<seq<Unit>>)
    requires SortedLayers(prevTUs, mask, ordered)
    ensures var s := Flatten(ordered);
      NoDup(s) && PairwiseBefore(prevTUs, mask, s) && forall u :: u in s ==> LayerOf(prevTUs, u) < |ordered|
  {
    hide LayerOf, Less;
    if ordered != [] {
      var last := |ordered| - 1;
      FlattenSorted(prevTUs, mask, ordered[..last]);
      assert SortedLayer(prevTUs, mask, ordered[last], last);
      ConcatSorted(prevTUs, mask, Flatten(ordered[..last]), ordered[last], last);
    }
  }

  lemma ConcatSorted(prevTUs: seq<Option<Unit>>, mask: Hash, s: seq<Unit>, layer: seq<Unit>, l: nat)
    requires NoDup(s) && PairwiseBefore(prevTUs, mask, s) && forall u :: u in s ==> LayerOf(prevTUs, u) < l
    requires SortedLayer(prevTUs, mask, layer, l)
    ensures NoDup(s + layer) && PairwiseBefore(prevTUs, mask, s + layer)
    ensures forall u :: u in s + layer ==> LayerOf(prevTUs, u) < l + 1
  {
    hide LayerOf, Less;
    var t := s + layer;
    forall i, j | 0 <= i < j < |t| ensures t[i] != t[j] && Before(prevTUs, mask, t[i], t[j]) {
      assert i >= |s| ==> t[i] in layer;
      assert j >= |s| ==> t[j] in layer;
      assert i < |s| ==> t[i] in s;
    }
  }

  lemma {:induction false} FlattenMembers(layers: seq<seq<Unit>>, u: Unit)
    ensures u in Flatten(layers) <==> exists l :: 0 <= l < |layers| && u in layers[l]
  {
    if layers != [] {
      var last := |layers| - 1;
      FlattenMembers(layers[..last], u);
      if l :| 0 <= l < |layers| && u in layers[l] {
        if l < last { assert u in layers[..last][l]; }
      }
    }
  }

  lemma LayersSorted(prevTUs: seq<Option<Unit>>, tu: Unit, mask: Hash, layers: seq<seq<Unit>>, ordered: seq<seq<Unit>>)
    requires IsLayering(prevTUs, tu, layers) && |ordered| == |layers|
    requires forall l :: 0 <= l < |layers| ==>
      multiset(ordered[l]) == multiset(layers[l]) && SortedBy(ordered[l], TieKey(mask))
    ensures SortedLayers(prevTUs, mask, ordered)
  {
    hide InRound, LayerOf, SortedBy;
    forall l | 0 <= l < |ordered| ensures SortedLayer(prevTUs, mask, ordered[l], l) {
      NoDupPermuted(layers[l], ordered[l]);
      forall u | u in ordered[l] ensures u in layers[l] {
        assert u in multiset(ordered[l]);
      }
    }
  }

  lemma {:induction false} NoDupCounts(s: seq<Unit>, u: Unit)
    requires NoDup(s)
    ensures multiset(s)[u] == if u in s then 1 else 0
  {
    if |s| > 0 {
      var a, x := s[..|s| - 1], s[|s| - 1];
      assert s == a + [x];
      NoDupCounts(a, u);
      assert x !in a;
    }
  }

  lemma NoDupPermuted(s: seq<Unit>, t: seq<Unit>)
    requires NoDup(s) && multiset(s) == multiset(t)
    ensures NoDup(t)
  {
    forall i, j | 0 <= i < j < |t| ensures t[i] != t[j] {
      if t[i] == t[j] {
        assert t == t[..i] + [t[i]] + t[i + 1..j] + [t[j]] + t[j + 1..];
        assert multiset(t)[t[i]] >= 2;
        NoDupCounts(s, t[i]);
      }
    }
  }

  lemma RoundOrdered(prevTUs: seq<Option<Unit>>, tu: Unit, layers: seq<seq<Unit>>, ordered: seq<seq<Unit>>,
      s: seq<Unit>)
    requires IsLayering(prevTUs, tu, layers) && |ordered| == |layers| && s == Flatten(ordered)
    requires forall l :: 0 <= l < |layers| ==>
      multiset(ordered[l]) == multiset(layers[l]) && SortedBy(ordered[l], TieKey(XorAll(Flatten(layers))))
    requires multiset(s) == multiset(Flatten(layers))
    ensures IsRoundOrder(prevTUs, tu, s)
  {
    hide IsLayering, SortedBy, Before, XorAll, Flatten, InRound, LayerOf, SortedLayers;
    var mask := XorAll(Flatten(layers));
    XorPermuted(s, Flatten(layers));
    LayersSorted(prevTUs, tu, mask, layers, ordered);
    FlattenSorted(prevTUs, mask, ordered);
    forall u ensures u in s <==> InRound(prevTUs, tu, u) {
      LayeringMembers(prevTUs, tu, layers, u);
      assert u in s <==> u in multiset(s);
      assert u in Flatten(layers) <==> u in multiset(Flatten(layers));
    }
  }

  lemma LayeringMembers(prevTUs: seq<Option<Unit>>, tu: Unit, layers: seq<seq<Unit>>, u: Unit)
    requires IsLayering(prevTUs, tu, layers)
    ensures u in Flatten(layers) <==> InRound(prevTUs, tu, u)
  {
    hide InRound, LayerOf, NoDup;
    FlattenMembers(layers, u);
  }

  /** Units of one layer with different hashes are sorted by their hashes under the mask. */
  ghost predicate MaskedLayers(prevTUs: seq<Option<Unit>>, mask: Hash, s: seq<Unit>) {
    forall i, j :: 0 <= i < j < |s| && LayerOf(prevTUs, s[i]) == LayerOf(prevTUs, s[j]) && s[i].hash != s[j].hash ==>
      MaskedLess(mask, s[i].hash, s[j].hash)
  }

  /** What breaks ties in a round: the hashes under a mask whose bits are the parities of the hashes of the round. */
  lemma TieBreak(prevTUs: seq<Option<Unit>>, tu: Unit, s: seq<Unit>) returns (mask: Hash)
    requires IsRoundOrder(prevTUs, tu, s)
    ensures IsParityMask(s, mask) && MaskedLayers(prevTUs, mask, s)
  {
    hide LayerOf, InRound, IsParityMask, MaskedLess, TieKey, Less;
    mask := XorAll(s);
    XorIsParity(s);
    forall i, j | 0 <= i < j < |s| && LayerOf(prevTUs, s[i]) == LayerOf(prevTUs, s[j]) && s[i].hash != s[j].hash
      ensures MaskedLess(mask, s[i].hash, s[j].hash)
    {
      assert Before(prevTUs, mask, s[i], s[j]);
      SmallerMasked(mask, s[i], s[j]);
    }
  }

  lemma SmallerMasked(mask: Hash, a: Unit, b: Unit)
    requires !Less(TieKey(mask)(b), TieKey(mask)(a)) && a.hash != b.hash
    ensures MaskedLess(mask, a.hash, b.hash)
  {
    var x, y := TieKey(mask)(a), TieKey(mask)(b);
    LessIsTotal(x, y);
    if x == y {
      XorInjective(mask, a.hash, b.hash);
    }
    var i :| 0 <= i < 32 && x[i] < y[i] && SamePrefix(x, y, i);
    assert mask[i] ^ a.hash[i] < mask[i] ^ b.hash[i];
    forall j | 0 <= j < i ensures a.hash[j] == b.hash[j] {
      assert x[j] == y[j];
      XorBytes(mask[j], a.hash[j], b.hash[j]);
    }
  }

  /** All units ordered in the round of `tu`. */
  method OrderedUnits(ghost c: Committee, tu: Unit, prevTUs: seq<Option<Unit>>) returns (s: seq<Unit>)
    requires Compliant(c, tu) && LastIsHighest(prevTUs) && CompliantSlots(c, prevTUs) && !Ordered(prevTUs, tu)
    ensures IsRoundOrder(prevTUs, tu, s)
    ensures exists mask :: IsParityMask(s, mask) && MaskedLayers(prevTUs, mask, s)
  {
    hide *;
    var layers := GetAntichainLayers(c, tu, prevTUs);
    ghost var ordered;
    s, ordered := MergeLayers(layers);
    RoundOrdered(prevTUs, tu, layers, ordered, s);
    ghost var mask := TieBreak(prevTUs, tu, s);
  }

  // ------------------------------------------------------- what the order promises

  /** Whatever is below a unit of the round comes before it. */
  lemma ParentsFirst(prevTUs: seq<Option<Unit>>, tu: Unit, s: seq<Unit>, i: nat, j: nat)
    requires IsRoundOrder(prevTUs, tu, s) && i < |s| && j < |s| && Below(s[j], s[i])
    ensures i < j
  {
    assert s[i] in s;
    LayersGrow(prevTUs, s[j], s[i]);
    assert j < i ==> Before(prevTUs, XorAll(s), s[j], s[i]);
  }

  /** The round ends with its timing unit. */
  lemma TimingUnitLast(prevTUs: seq<Option<Unit>>, tu: Unit, s: seq<Unit>)
    requires IsRoundOrder(prevTUs, tu, s) && !Ordered(prevTUs, tu)
    ensures s != [] && s[|s| - 1] == tu
  {
    RoundSelf(prevTUs, tu);
    var i :| 0 <= i < |s| && s[i] == tu;
    var last := |s| - 1;
    assert s[last] in s;
    ReachUnfold(tu, s[last]);
    if s[last] != tu {
      ParentsFirst(prevTUs, tu, s, last, i);
    }
  }

  ghost predicate DistinctHashes(s: seq<Unit>) {
    forall u, v :: u in s && v in s && u.hash == v.hash ==> u == v
  }

  lemma BeforeIsStrict(prevTUs: seq<Option<Unit>>, mask: Hash, a: Unit, b: Unit)
    requires Before(prevTUs, mask, a, b) && Before(prevTUs, mask, b, a)
    ensures a.hash == b.hash
  {
    LessIsTotal(TieKey(mask)(a), TieKey(mask)(b));
    XorInjective(mask, a.hash, b.hash);
  }

  lemma {:induction false} BeforeUnique(prevTUs: seq<Option<Unit>>, mask: Hash, s: seq<Unit>, t: seq<Unit>)
    requires NoDup(s) && NoDup(t) && (forall u :: u in s <==> u in t) && DistinctHashes(s)
    requires PairwiseBefore(prevTUs, mask, s) && PairwiseBefore(prevTUs, mask, t)
    ensures s == t
    decreases |s|
  {
    hide Before, LayerOf;
    if s == [] {
      NoElements(t);
    } else {
      assert s[0] in t;
      assert t[0] in s;
      var i :| 0 <= i < |t| && t[i] == s[0];
      var j :| 0 <= j < |s| && s[j] == t[0];
      if s[0] != t[0] {
        BeforeIsStrict(prevTUs, mask, s[0], t[0]);
      }
      TailElements(s, t);
      BeforeUnique(prevTUs, mask, s[1..], t[1..]);
      assert s == [s[0]] + s[1..] && t == [t[0]] + t[1..];
    }
  }

  lemma NoElements(t: seq<Unit>)
    ensures t == [] || exists u :: u in t
  {
    if t != [] { assert t[0] in t; }
  }

  lemma TailElements(s: seq<Unit>, t: seq<Unit>)
    requires s != [] && t != [] && s[0] == t[0] && NoDup(s) && NoDup(t) && forall u :: u in s <==> u in t
    ensures forall u :: u in s[1..] <==> u in t[1..]
  {
    forall u ensures (u in s[1..] <==> u in s && u != s[0]) && (u in t[1..] <==> u in t && u != t[0]) {
      if u in s && u != s[0] { var i :| 0 <= i < |s| && s[i] == u; assert s[1..][i - 1] == u; }
      if u in t && u != t[0] { var i :| 0 <= i < |t| && t[i] == u; assert t[1..][i - 1] == u; }
    }
  }

  /** Without hash collisions the order of a round is unique: any two nodes emit it identically. */
  lemma RoundOrderUnique(prevTUs: seq<Option<Unit>>, tu: Unit, s: seq<Unit>, t: seq<Unit>)
    requires IsRoundOrder(prevTUs, tu, s) && IsRoundOrder(prevTUs, tu, t) && DistinctHashes(s)
    ensures s == t
  {
    hide InRound, Before, LayerOf;
    forall u ensures u in s <==> u in t {
      assert u in s <==> InRound(prevTUs, tu, u);
      assert u in t <==> InRound(prevTUs, tu, u);
    }
    forall u ensures multiset(s)[u] == multiset(t)[u] {
      NoDupCounts(s, u);
      NoDupCounts(t, u);
    }
    assert multiset(s) == multiset(t);
    XorPermuted(s, t);
    BeforeUnique(prevTUs, XorAll(s), s, t);
  }
}
