/** Units indexed by a number (their level or height) and their creator. */
module FiberMaps {
  import opened Units
  import opened TimingRounds

  class FiberMap {
    const width: nat
    var content: map<nat, seq<seq<Unit>>>
    var length: nat

    ghost predicate Valid()
      reads this
    {
      && (forall value: nat :: value in content <==> value < length)
      && (forall value :: value in content ==> |content[value]| == width)
    }

    /** The units filed under `value` and `pid`; none if the fiber does not exist. */
    function At(value: nat, pid: nat): seq<Unit>
      reads this
    {
      if value in content && pid < |content[value]| then content[value][pid] else []
    }

    constructor (width: nat, initialLen: nat)
      ensures Valid() && this.width == width && length == initialLen
      ensures forall value: nat, pid: nat :: At(value, pid) == []
    {
      this.width := width;
      content := map[];
      length := 0;
      new;
      ExtendBy(initialLen);
    }

    method ExtendBy(nValues: nat)
      requires Valid()
      modifies this
      ensures Valid() && length == old(length) + nValues
      ensures forall value: nat, pid: nat :: At(value, pid) == old(At(value, pid))
    {
      var i := length;
      while i < length + nValues
        invariant length <= i <= length + nValues && length == old(length)
        invariant forall value: nat :: value in content <==> value < i
        invariant forall value :: value in content ==> |content[value]| == width
        invariant forall value: nat, pid: nat :: At(value, pid) == old(At(value, pid))
      {
        content := content[i := seq(width, k => [])];
        i := i + 1;
      }
      length := length + nValues;
    }

    /** Files a copy of the cell with `u` appended. */
    method Add(value: nat, u: Unit)
      requires Valid() && value < length && u.creator < width
      modifies this`content
      ensures Valid()
      ensures forall v: nat, pid: nat :: At(v, pid) == old(At(v, pid)) + (if v == value
          && pid == u.creator then [u] else [])
    {
      var fiber := content[value];
      fiber := fiber[u.creator := fiber[u.creator] + [u]];
      content := content[value := fiber];
    }

    /** The units at the given heights, and how many slots that ask for a unit find none; -1 asks for none. */
    method Get(heights: seq<int>) returns (result: seq<seq<Unit>>, unknown: nat)
      requires Valid() && |heights| == width
      ensures |result| == width
      ensures forall pid :: 0 <= pid < width ==> result[pid] == (if heights[pid] < 0 then [] else At(heights[pid], pid))
      ensures unknown == |UnknownSlots(heights, width)|
    {
      hide FiberMap.UnknownSlots;
      result, unknown := [], 0;
      SlotsStart(heights);
      for pid := 0 to width
        invariant |result| == pid
        invariant forall k :: 0 <= k < pid ==> result[k] == (if heights[k] < 0 then [] else At(heights[k], k))
        invariant unknown == |UnknownSlots(heights, pid)|
      {
        var h := heights[pid];
        var found: seq<Unit> := [];
        if h >= 0 && h in content {
          found := content[h][pid];
        }
        SlotsStep(heights, pid);
        if h != -1 && |found| == 0 {
          unknown := unknown + 1;
        }
        result := result + [found];
      }
    }

    ghost function UnknownSlots(heights: seq<int>, n: nat): set<nat>
      requires n <= |heights|
      reads this
    {
      set pid: nat | pid < n && IsUnknown(heights[pid], pid)
    }

    /** A unit is asked for and there is none. */
    ghost predicate IsUnknown(height: int, pid: nat)
      reads this
    {
      height != -1 && (height < 0 || At(height, pid) == [])
    }

    lemma SlotsStart(heights: seq<int>)
      ensures |UnknownSlots(heights, 0)| == 0
    {
      assert UnknownSlots(heights, 0) == {};
    }

    lemma SlotsStep(heights: seq<int>, pid: nat)
      requires pid < |heights|
      ensures |UnknownSlots(heights, pid + 1)| == |UnknownSlots(heights, pid)|
        + if IsUnknown(heights[pid], pid) then 1 else 0
    {
      hide FiberMap.IsUnknown;
      assert forall k :: k in UnknownSlots(heights, pid + 1) <==>
        k in UnknownSlots(heights, pid) || (k == pid && IsUnknown(heights[k], k));
      if IsUnknown(heights[pid], pid) {
        assert UnknownSlots(heights, pid + 1) == UnknownSlots(heights, pid) + {pid};
      } else {
        assert UnknownSlots(heights, pid + 1) == UnknownSlots(heights, pid);
      }
    }

    /** `u` is filed under some height below `top` and above the given one for its slot. */
    ghost predicate FiledAbove(heights: seq<int>, top: int, u: Unit)
      requires |heights| == width
      reads this
    {
      exists h: nat, pid: nat :: h < top && pid < width && h > heights[pid] && u in At(h, pid)
    }

    ghost predicate FiledInFiber(heights: seq<int>, height: nat, n: nat, u: Unit)
      requires n <= |heights| == width
      reads this
    {
      exists pid: nat :: pid < n && height > heights[pid] && u in At(height, pid)
    }

    /** No unit is filed twice. */
    ghost predicate FiledOnce()
      reads this
    {
      && (forall h: nat, pid: nat :: NoDup(At(h, pid)))
      && (forall h: nat, pid: nat, h': nat, pid': nat, u ::
            u in At(h, pid) && u in At(h', pid') ==> h == h' && pid == pid')
    }

    /** All units above the given heights, none of them twice. */
    method Above(heights: seq<int>) returns (result: seq<Unit>)
      requires Valid() && |heights| == width > 0 && forall pid :: 0 <= pid < width ==> heights[pid] >= -1
      ensures forall u :: u in result <==> FiledAbove(heights, length, u)
      ensures FiledOnce() ==> NoDup(result)
    {
      hide FiledAbove, FiledInFiber, FiledOnce;
      var min := heights[0];
      for k := 1 to |heights|
        invariant forall i :: 0 <= i < k ==> min <= heights[i]
        invariant min >= -1
      {
        if heights[k] < min {
          min := heights[k];
        }
      }
      result := [];
      var height: nat := min + 1;
      NothingFiled(heights, height);
      while height < length
        invariant forall u :: u in result <==> FiledAbove(heights, height, u)
        invariant FiledOnce() ==> NoDup(result)
      {
        var layer := FiberAbove(heights, height);
        AboveStep(heights, height, result, layer);
        result := result + layer;
        height := height + 1;
      }
      NothingMore(heights, height);
    }

    lemma NothingFiled(heights: seq<int>, height: nat)
      requires |heights| == width && forall pid :: 0 <= pid < width ==> height <= heights[pid] + 1
      ensures forall u :: !FiledAbove(heights, height, u)
    {
    }

    lemma NothingMore(heights: seq<int>, height: nat)
      requires Valid() && |heights| == width && height >= length
      ensures forall u :: FiledAbove(heights, length, u) <==> FiledAbove(heights, height, u)
    {
      forall u ensures FiledAbove(heights, length, u) <==> FiledAbove(heights, height, u) {
        if FiledAbove(heights, height, u) {
          var h: nat, pid: nat :| h < height && pid < width && h > heights[pid] && u in At(h, pid);
          assert h < length;
        }
      }
    }

    lemma AboveStep(heights: seq<int>, height: nat, result: seq<Unit>, layer: seq<Unit>)
      requires |heights| == width
      requires forall u :: u in result <==> FiledAbove(heights, height, u)
      requires forall u :: u in layer <==> FiledInFiber(heights, height, width, u)
      ensures forall u :: u in result + layer <==> FiledAbove(heights, height + 1, u)
      ensures FiledOnce() && NoDup(result) && NoDup(layer) ==> NoDup(result + layer)
    {
      forall u
        ensures FiledAbove(heights, height + 1, u) <==>
          FiledAbove(heights, height, u) || FiledInFiber(heights, height, width, u)
      {
      }
      if FiledOnce() && NoDup(result) && NoDup(layer) {
        forall i, j | 0 <= i < |result| && 0 <= j < |layer| ensures result[i] != layer[j] {
          assert result[i] in result && layer[j] in layer;
          assert FiledAbove(heights, height, result[i]) && FiledInFiber(heights, height, width, layer[j]);
        }
      }
    }

    method FiberAbove(heights: seq<int>, height: nat) returns (result: seq<Unit>)
      requires Valid() && |heights| == width && height < length
      ensures forall u :: u in result <==> FiledInFiber(heights, height, width, u)
      ensures FiledOnce() ==> NoDup(result)
    {
      hide FiberMap.FiledOnce, FiberMap.FiledInFiber;
      result := [];
      FiberStart(heights, height);
      for i := 0 to width
        invariant forall u :: u in result <==> FiledInFiber(heights, height, i, u)
        invariant FiledOnce() ==> NoDup(result)
      {
        if height > heights[i] {
          FiberStep(heights, height, i, result);
          result := result + content[height][i];
        } else {
          FiberSkip(heights, height, i);
        }
      }
    }

    lemma FiberStart(heights: seq<int>, height: nat)
      requires |heights| == width
      ensures forall u :: !FiledInFiber(heights, height, 0, u)
    {
    }

    lemma FiberSkip(heights: seq<int>, height: nat, i: nat)
      requires i < |heights| == width && height <= heights[i]
      ensures forall u :: FiledInFiber(heights, height, i + 1, u) <==> FiledInFiber(heights, height, i, u)
    {
    }

    lemma FiberStep(heights: seq<int>, height: nat, i: nat, result: seq<Unit>)
      requires Valid() && |heights| == width && height < length && i < width && height > heights[i]
      requires forall u :: u in result <==> FiledInFiber(heights, height, i, u)
      ensures forall u :: u in result + content[height][i] <==> FiledInFiber(heights, height, i + 1, u)
      ensures FiledOnce() && NoDup(result) ==> NoDup(result + content[height][i])
    {
      var cell := content[height][i];
      assert cell == At(height, i);
      if FiledOnce() && NoDup(result) {
        assert NoDup(cell);
        forall k, j | 0 <= k < |result| && 0 <= j < |cell| ensures result[k] != cell[j] {
          assert result[k] in result && cell[j] in cell;
          assert FiledInFiber(heights, height, i, result[k]);
        }
      }
    }
  }
}
