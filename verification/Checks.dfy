/** The checks a unit passes before it is inserted, run one after another. */
module Checks {
  import opened Units
  import opened DagOrder

  /** A unit put together from its parents: the level and height follow from them. */
  ghost predicate Assembled(c: Committee, u: Unit) {
    && u.creator < c.n
    && (forall p :: IsParent(u, p) ==> Compliant(c, p))
    && u.level == LevelOver(u.parents, c.q)
    && (Predecessor(u).None? ==> u.height == 0)
    && (Predecessor(u).Some? ==> u.height == Predecessor(u).value.height + 1)
  }

  /** One parent slot per process, a predecessor unless there are no parents, and a level above it. */
  method BasicCorrectness(c: Committee, u: Unit) returns (ok: bool)
    requires Assembled(c, u)
    ensures ok <==> BasicallyCorrect(c, u)
  {
    hide Compliant, LevelOver;
    if |u.parents| != c.n {
      return false;
    }
    var nonNilParents := 0;
    for i := 0 to c.n
      invariant forall k :: 0 <= k < i && u.parents[k].Some? ==> u.parents[k].value.creator == k
      invariant nonNilParents > 0 <==> exists k :: 0 <= k < i && u.parents[k].Some?
      invariant nonNilParents >= 0
    {
      if u.parents[i].Some? {
        nonNilParents := nonNilParents + 1;
        if u.parents[i].value.creator != i {
          return false;
        }
      }
    }
    if Predecessor(u).None? && nonNilParents > 0 {
      return false;
    }
    if Predecessor(u).Some? && Predecessor(u).value.level >= u.level {
      return false;
    }
    return true;
  }

  /** The parent consistency rule, checked slot by slot. */
  method ParentConsistency(c: Committee, u: Unit) returns (ok: bool)
    requires |u.parents| == c.n && forall j :: 0 <= j < c.n && u.parents[j].Some? ==>
      |u.parents[j].value.parents| == c.n
    ensures ok <==> ParentsConsistent(u.parents)
  {
    var parents := u.parents;
    for i := 0 to c.n
      invariant forall k, j :: 0 <= k < i && 0 <= j < c.n && parents[j].Some? ==>
        SlotDominates(parents[k], parents[j].value, k)
    {
      for j := 0 to c.n
        invariant forall l :: 0 <= l < j && parents[l].Some? ==> SlotDominates(parents[i], parents[l].value, i)
      {
        if parents[j].Some? {
          var v := parents[j].value.parents[i];
          if v.Some? && (parents[i].None? || parents[i].value.level < v.value.level) {
            assert !SlotDominates(parents[i], parents[j].value, i);
            return false;
          }
        }
      }
    }
    return true;
  }

  /** No parent proves that the creator of another one forked. */
  ghost predicate MutesForkers(u: Unit) {
    forall i, j :: 0 <= i < |u.parents| && 0 <= j < |u.parents| && i != j ==>
      u.parents[i].Some? && u.parents[j].Some? ==> !ForkSeen(u.parents[i].value, j)
  }

  /** The forker-muting rule, checked for every two parents. */
  method ForkerMuting(c: Committee, u: Unit) returns (ok: bool)
    requires BasicallyCorrect(c, u) && forall p :: IsParent(u, p) ==> Compliant(c, p)
    ensures ok <==> MutesForkers(u)
  {
    hide Compliant, ForkSeen, WellBuilt;
    for i := 0 to c.n
      invariant forall k, j :: 0 <= k < i && 0 <= j < c.n && k != j && u.parents[k].Some? && u.parents[j].Some? ==>
        !ForkSeen(u.parents[k].value, j)
    {
      if u.parents[i].Some? {
        assert IsParent(u, u.parents[i].value);
        CompliantIsWellBuilt(c, u.parents[i].value);
        for j := 0 to c.n
          invariant forall k :: 0 <= k < j && k != i && u.parents[k].Some? ==> !ForkSeen(u.parents[i].value, k)
        {
          if u.parents[j].Some? && i != j {
            var evidence := HasForkingEvidence(c, u.parents[i].value, u.parents[j].value.creator);
            if evidence {
              return false;
            }
          }
        }
      }
    }
    return true;
  }

  /** Together the checks accept exactly the compliant units that mute forkers. */
  method Check(c: Committee, u: Unit) returns (ok: bool)
    requires Assembled(c, u)
    ensures ok <==> Compliant(c, u) && MutesForkers(u)
  {
    hide Compliant, NoSelfFork, ParentsConsistent, LevelOver, MutesForkers;
    CompliantIsWellBuilt(c, u);
    ok := BasicCorrectness(c, u);
    if !ok {
      return;
    }
    CorrectParents(c, u);
    ok := ParentConsistency(c, u);
    if !ok {
      return;
    }
    ok := NoSelfForkingEvidence(c, u);
    if !ok {
      return;
    }
    ok := ForkerMuting(c, u);
  }

  lemma CorrectParents(c: Committee, u: Unit)
    requires BasicallyCorrect(c, u) && forall p :: IsParent(u, p) ==> Compliant(c, p)
    ensures |u.parents| == c.n && forall j :: 0 <= j < c.n && u.parents[j].Some? ==> |u.parents[j].value.parents| == c.n
  {
    hide Compliant;
    forall j | 0 <= j < c.n && u.parents[j].Some? ensures |u.parents[j].value.parents| == c.n {
      assert IsParent(u, u.parents[j].value);
      ParentCount(c, u.parents[j].value);
    }
  }
}
