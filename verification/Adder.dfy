/** The adder: a buffer where preunits wait for their parents, run by concurrent workers. */
module Adding {
  import opened Quorums

  /** Height and creator of a unit; the epoch is fixed. */
  datatype Id = Id(creator: nat, height: nat)

  /** A preunit as the adder sees it: its place and the claimed heights of its parents, -1 for none. */
  datatype Preunit = Preunit(creator: nat, height: nat, heights: seq<int>) {
    function ID(): Id { Id(creator, height) }
  }

  /** The ids of the parents claimed in the first `k` slots. */
  ghost function ParentsUpTo(pu: Preunit, k: nat): set<Id>
    requires k <= |pu.heights|
  {
    set i: nat | i < k && pu.heights[i] >= 0 :: Id(i, pu.heights[i])
  }

  ghost function Parents(pu: Preunit): set<Id> {
    ParentsUpTo(pu, |pu.heights|)
  }

  lemma ParentsStep(pu: Preunit, k: nat)
    requires k < |pu.heights|
    ensures ParentsUpTo(pu, k + 1) == ParentsUpTo(pu, k) + (if pu.heights[k] >= 0 then {Id(k, pu.heights[k])} else {})
    ensures pu.heights[k] >= 0 ==> Id(k, pu.heights[k]) !in ParentsUpTo(pu, k)
  {
  }

  /** A waiting preunit with the counters of its unresolved parents. */
  datatype Waiting = Waiting(pu: Preunit, missingParents: int, waitingParents: int, children: seq<Id>)

  /** The whole state: every object ever made, the live ones, the missing ids, the dag, and what was sent to workers. */
  datatype Buffer = Buffer(
    objs: map<Id, Waiting>,
    waiting: set<Id>,
    missing: map<Id, seq<Id>>,
    dag: set<Id>,
    dispatched: seq<Id>)

  ghost predicate NoDup(s: seq<Id>) {
    forall i, j :: 0 <= i < j < |s| ==> s[i] != s[j]
  }

  lemma NoDupEmpty()
    ensures NoDup([])
  {
  }

  lemma NoDupAppend(s: seq<Id>, x: Id)
    requires NoDup(s) && x !in s
    ensures NoDup(s + [x])
  {
  }

  /** The parents of `x` that are live and will notify it. */
  ghost function LiveParents(b: Buffer, x: Id): set<Id>
    requires x in b.objs
  {
    set s | s in Parents(b.objs[x].pu) && s in b.waiting && s in b.objs && x in b.objs[s].children
  }

  /** The parents of `x` that have never been seen and are registered as needed by it. */
  ghost function MissingParents(b: Buffer, x: Id): set<Id>
    requires x in b.objs
  {
    set s | s in Parents(b.objs[x].pu) && s in b.missing && x in b.missing[s]
  }

  // ------------------------------------------------------------------- invariant

  /**
   * What building a preunit guarantees: the claim in the creator's slot is its predecessor. Claims are otherwise free.
   */
  ghost predicate WellFormed(pu: Preunit) {
    && pu.creator < |pu.heights|
    && (forall i :: 0 <= i < |pu.heights| ==> pu.heights[i] >= -1)
    && pu.heights[pu.creator] == pu.height - 1
  }

  ghost predicate ObjectValid(b: Buffer, x: Id)
    requires x in b.objs
  {
    && b.objs[x].pu.ID() == x && WellFormed(b.objs[x].pu)
    && NoDup(b.objs[x].children)
    && forall ch :: ch in b.objs[x].children ==> ch in b.objs && x in Parents(b.objs[ch].pu)
  }

  ghost predicate MissingValid(b: Buffer, m: Id)
    requires m in b.missing
  {
    && m !in b.waiting && NoDup(b.missing[m])
    && forall ch :: ch in b.missing[m] ==> ch in b.objs && m in Parents(b.objs[ch].pu)
  }

  ghost predicate Shape(b: Buffer) {
    && (forall x :: x in b.objs ==> ObjectValid(b, x))
    && (forall m :: m in b.missing ==> MissingValid(b, m))
    && b.waiting <= b.objs.Keys
    && NoDup(b.dispatched) && (forall x :: x in b.dispatched ==> x in b.objs)
  }

  /**
   * The counters. Of a live preunit they count exactly the unresolved parents; it is sent to a worker as soon
   * as both are zero. A purged one is owed a notification that will never come, so it stays short of zero.
   */
  ghost predicate CountsValid(b: Buffer, x: Id)
    requires x in b.objs
  {
    var o := b.objs[x];
    if x in b.dispatched then
      o.waitingParents == 0 && o.missingParents == 0 && LiveParents(b, x) == {} && MissingParents(b, x) == {}
    else if x in b.waiting then
      && o.waitingParents == |LiveParents(b, x)| && o.missingParents == |MissingParents(b, x)|
      && (LiveParents(b, x) != {} || MissingParents(b, x) != {})
    else
      o.waitingParents > |LiveParents(b, x)| && o.missingParents == |MissingParents(b, x)|
  }

  /** A parent that a live preunit no longer waits for is in the dag. */
  ghost predicate Covered(b: Buffer, x: Id)
    requires x in b.objs
  {
    forall s :: s in Parents(b.objs[x].pu) ==> s in LiveParents(b, x) || s in MissingParents(b, x) || s in b.dag
  }

  /** The children of a purged preunit are purged. */
  ghost predicate PurgeClosed(b: Buffer, x: Id)
    requires x in b.objs
  {
    x !in b.waiting && x !in b.dispatched ==> forall ch :: ch in b.objs[x].children ==>
      ch !in b.waiting && ch !in b.dispatched
  }

  /** The dag holds the parents of everything that came through the buffer, and no chain has a gap. */
  ghost predicate DagClosed(b: Buffer) {
    && (forall x :: x in b.dag && x in b.objs ==> Parents(b.objs[x].pu) <= b.dag)
    && (forall x :: x in b.dag && x.height > 0 ==> Id(x.creator, x.height - 1) in b.dag)
  }

  ghost predicate Inv(b: Buffer) {
    && Shape(b)
    && (forall x :: x in b.objs ==> CountsValid(b, x) && PurgeClosed(b, x))
    && (forall x :: x in b.waiting ==> x in b.objs && Covered(b, x))
    && DagClosed(b)
    && NoneOverdue(b)
  }

  /** Nobody waits as for a missing one for a preunit that came through the buffer and is in the dag. */
  ghost predicate NoneOverdue(b: Buffer) {
    forall m :: m in b.missing && m in b.dag && m in b.objs ==> b.missing[m] == []
  }

  /** A live preunit is with a worker as soon as all its parents, come through the buffer, are inserted and removed. */
  lemma PromptlyDispatched(b: Buffer, x: Id)
    requires Inv(b) && x in b.waiting && x in b.objs
    requires forall s :: s in Parents(b.objs[x].pu) ==> s in b.objs && s in b.dag && s !in b.waiting
    ensures x in b.dispatched
  {
    hide Parents, Covered, PurgeClosed;
    assert CountsValid(b, x);
    assert LiveParents(b, x) == {} && MissingParents(b, x) == {};
  }

  /** A preunit handed to a worker finds all its parents in the dag. */
  lemma DispatchedHasParents(b: Buffer, x: Id)
    requires Inv(b) && x in b.dispatched && x in b.waiting
    ensures x in b.objs && Parents(b.objs[x].pu) <= b.dag
  {
    assert CountsValid(b, x) && Covered(b, x);
  }

  // ---------------------------------------------------------------------- submit

  /** `s` is within the greatest heights `mh` read from the dag. */
  predicate InView(mh: seq<int>, s: Id) {
    s.creator < |mh| && s.height <= mh[s.creator]
  }

  /**
   * The heights were read from the dag, or from an earlier, smaller one: preunits are inserted at any time, but they
   * leave the buffer under the mutex, so those that have left it are in view.
   */
  ghost predicate Seen(mh: seq<int>, b: Buffer) {
    && (forall s: Id :: s.creator < |mh| && s.height <= mh[s.creator] ==> s in b.dag)
    && (forall s :: s in b.dag && s in b.objs && s !in b.waiting ==> s.creator < |mh| && s.height <= mh[s.creator])
  }

  /** The parents of `pu` that are not in view: waiting in the buffer, or never seen. */
  ghost function WaitingSlots(b: Buffer, mh: seq<int>, pu: Preunit, k: nat): set<Id>
    requires k <= |pu.heights|
  {
    set s | s in ParentsUpTo(pu, k) && !InView(mh, s) && s in b.waiting
  }

  ghost function MissingSlots(b: Buffer, mh: seq<int>, pu: Preunit, k: nat): set<Id>
    requires k <= |pu.heights|
  {
    set s | s in ParentsUpTo(pu, k) && !InView(mh, s) && s !in b.waiting
  }

  function Needs(missing: map<Id, seq<Id>>, s: Id): seq<Id> {
    if s in missing then missing[s] else []
  }

  /** `objs` and `missing` after the first `k` slots of the new preunit are registered. */
  ghost predicate Registered(b: Buffer, mh: seq<int>, pu: Preunit, k: nat, objs: map<Id, Waiting>,
      missing: map<Id, seq<Id>>)
    requires k <= |pu.heights|
  {
    RegisteredObjs(b, mh, pu, k, objs) && RegisteredMissing(b, mh, pu, k, missing)
  }

  ghost predicate RegisteredObjs(b: Buffer, mh: seq<int>, pu: Preunit, k: nat, objs: map<Id, Waiting>)
    requires k <= |pu.heights|
  {
    var x := pu.ID();
    && objs.Keys == b.objs.Keys + {x}
    && objs[x] == Waiting(pu, |MissingSlots(b, mh, pu, k)|, |WaitingSlots(b, mh, pu, k)|, [])
    && (forall y :: y in b.objs && y != x ==> objs[y] == NotedChild(b.objs[y], x, y in WaitingSlots(b, mh, pu, k)))
  }

  ghost predicate RegisteredMissing(b: Buffer, mh: seq<int>, pu: Preunit, k: nat, missing: map<Id, seq<Id>>)
    requires k <= |pu.heights|
  {
    && (forall s :: s in missing <==> s in b.missing || s in MissingSlots(b, mh, pu, k))
    && (forall s :: Needs(missing, s) == Appended(Needs(b.missing, s), pu.ID(), s in MissingSlots(b, mh, pu, k)))
  }

  function Appended(list: seq<Id>, x: Id, noted: bool): seq<Id> {
    if noted then list + [x] else list
  }

  function NotedChild(o: Waiting, x: Id, noted: bool): Waiting {
    if noted then o.(children := o.children + [x]) else o
  }

  lemma SlotResolved(b: Buffer, mh: seq<int>, pu: Preunit, k: nat)
    requires k < |pu.heights| && (pu.heights[k] < 0 || InView(mh, Id(k, pu.heights[k])))
    ensures WaitingSlots(b, mh, pu, k + 1) == WaitingSlots(b, mh, pu, k)
    ensures MissingSlots(b, mh, pu, k + 1) == MissingSlots(b, mh, pu, k)
  {
    ParentsStep(pu, k);
  }

  lemma SlotWaiting(b: Buffer, mh: seq<int>, pu: Preunit, k: nat, s: Id)
    requires k < |pu.heights| && pu.heights[k] >= 0 && s == Id(k, pu.heights[k]) && !InView(mh, s) && s in b.waiting
    ensures WaitingSlots(b, mh, pu, k + 1) == WaitingSlots(b, mh, pu, k) + {s} && s !in WaitingSlots(b, mh, pu, k)
    ensures |WaitingSlots(b, mh, pu, k + 1)| == |WaitingSlots(b, mh, pu, k)| + 1
    ensures MissingSlots(b, mh, pu, k + 1) == MissingSlots(b, mh, pu, k)
  {
    ParentsStep(pu, k);
    assert WaitingSlots(b, mh, pu, k + 1) == WaitingSlots(b, mh, pu, k) + {s};
  }

  lemma SlotMissing(b: Buffer, mh: seq<int>, pu: Preunit, k: nat, s: Id)
    requires k < |pu.heights| && pu.heights[k] >= 0 && s == Id(k, pu.heights[k]) && !InView(mh, s) && s !in b.waiting
    ensures MissingSlots(b, mh, pu, k + 1) == MissingSlots(b, mh, pu, k) + {s} && s !in MissingSlots(b, mh, pu, k)
    ensures |MissingSlots(b, mh, pu, k + 1)| == |MissingSlots(b, mh, pu, k)| + 1
    ensures WaitingSlots(b, mh, pu, k + 1) == WaitingSlots(b, mh, pu, k)
  {
    ParentsStep(pu, k);
    assert MissingSlots(b, mh, pu, k + 1) == MissingSlots(b, mh, pu, k) + {s};
  }

  lemma RegisterNothing(b: Buffer, mh: seq<int>, pu: Preunit, k: nat, objs: map<Id, Waiting>, missing: map<Id, seq<Id>>)
    requires k < |pu.heights| && Registered(b, mh, pu, k, objs, missing)
    requires pu.heights[k] < 0 || InView(mh, Id(k, pu.heights[k]))
    ensures Registered(b, mh, pu, k + 1, objs, missing)
  {
    hide WaitingSlots, MissingSlots;
    SlotResolved(b, mh, pu, k);
  }

  lemma RegisterWaiting(b: Buffer, mh: seq<int>, pu: Preunit, k: nat, objs: map<Id, Waiting>, missing: map<Id, seq<Id>>)
    requires k < |pu.heights| && Registered(b, mh, pu, k, objs, missing) && b.waiting <= b.objs.Keys
    requires pu.ID() !in b.objs
    requires pu.heights[k] >= 0 && !InView(mh, Id(k, pu.heights[k])) && Id(k, pu.heights[k]) in b.waiting
    ensures Id(k, pu.heights[k]) in objs && pu.ID() in objs
    ensures Registered(b, mh, pu, k + 1,
      objs[pu.ID() := objs[pu.ID()].(waitingParents := objs[pu.ID()].waitingParents + 1)]
          [Id(k, pu.heights[k]) := NotedChild(objs[Id(k, pu.heights[k])], pu.ID(), true)], missing)
  {
    hide WaitingSlots, MissingSlots;
    var x, s := pu.ID(), Id(k, pu.heights[k]);
    SlotWaiting(b, mh, pu, k, s);
    assert s in b.objs && s != x;
  }

  lemma RegisterMissing(b: Buffer, mh: seq<int>, pu: Preunit, k: nat, objs: map<Id, Waiting>, missing: map<Id, seq<Id>>)
    requires k < |pu.heights| && Registered(b, mh, pu, k, objs, missing) && pu.ID() !in b.objs
    requires pu.heights[k] >= 0 && !InView(mh, Id(k, pu.heights[k])) && Id(k, pu.heights[k]) !in b.waiting
    ensures pu.ID() in objs
    ensures Registered(b, mh, pu, k + 1,
      objs[pu.ID() := objs[pu.ID()].(missingParents := objs[pu.ID()].missingParents + 1)],
      missing[Id(k, pu.heights[k]) := Needs(missing, Id(k, pu.heights[k])) + [pu.ID()]])
  {
    hide WaitingSlots, MissingSlots, RegisteredMissing, RegisteredObjs;
    CountMissing(b, mh, pu, k, objs);
    NoteMissing(b, mh, pu, k, missing);
  }

  lemma CountMissing(b: Buffer, mh: seq<int>, pu: Preunit, k: nat, objs: map<Id, Waiting>)
    requires k < |pu.heights| && RegisteredObjs(b, mh, pu, k, objs) && pu.ID() !in b.objs
    requires pu.heights[k] >= 0 && !InView(mh, Id(k, pu.heights[k])) && Id(k, pu.heights[k]) !in b.waiting
    ensures pu.ID() in objs
    ensures RegisteredObjs(b, mh, pu, k + 1,
        objs[pu.ID() := objs[pu.ID()].(missingParents := objs[pu.ID()].missingParents + 1)])
  {
    hide WaitingSlots, MissingSlots, ParentsUpTo, NotedChild, Preunit.ID;
    MissingSize(b, mh, pu, k);
    var x := pu.ID();
    var objs' := objs[x := objs[x].(missingParents := objs[x].missingParents + 1)];
    forall y | y in b.objs && y != x ensures objs'[y] == NotedChild(b.objs[y], x, y in WaitingSlots(b, mh, pu, k + 1)) {
      assert objs'[y] == objs[y];
    }
  }

  lemma MissingSize(b: Buffer, mh: seq<int>, pu: Preunit, k: nat)
    requires k < |pu.heights| && pu.heights[k] >= 0 && !InView(mh, Id(k, pu.heights[k]))
    requires Id(k, pu.heights[k]) !in b.waiting
    ensures |MissingSlots(b, mh, pu, k + 1)| == |MissingSlots(b, mh, pu, k)| + 1
    ensures WaitingSlots(b, mh, pu, k + 1) == WaitingSlots(b, mh, pu, k)
  {
    hide WaitingSlots, MissingSlots;
    SlotMissing(b, mh, pu, k, Id(k, pu.heights[k]));
  }

  lemma NoteMissing(b: Buffer, mh: seq<int>, pu: Preunit, k: nat, missing: map<Id, seq<Id>>)
    requires k < |pu.heights| && RegisteredMissing(b, mh, pu, k, missing)
    requires pu.heights[k] >= 0 && !InView(mh, Id(k, pu.heights[k])) && Id(k, pu.heights[k]) !in b.waiting
    ensures RegisteredMissing(b, mh, pu, k + 1, missing[Id(k, pu.heights[k]) := Needs(missing, Id(k,
        pu.heights[k])) + [pu.ID()]])
  {
    hide WaitingSlots, MissingSlots;
    var s, x := Id(k, pu.heights[k]), pu.ID();
    SlotMissing(b, mh, pu, k, s);
    var missing' := missing[s := Needs(missing, s) + [x]];
    assert Needs(missing, s) == Needs(b.missing, s);
    forall t ensures Needs(missing', t) == Appended(Needs(b.missing, t), x, t in MissingSlots(b, mh, pu, k + 1)) {
      assert t != s ==> Needs(missing', t) == Needs(missing, t);
    }
  }

  /** Which parents of a new preunit are in the dag, which are waiting, and which are missing. */
  method CheckParents(b: Buffer, mh: seq<int>, pu: Preunit) returns (objs: map<Id, Waiting>, missing: map<Id, seq<Id>>)
    requires b.waiting <= b.objs.Keys && pu.ID() !in b.objs
    ensures Registered(b, mh, pu, |pu.heights|, objs, missing)
  {
    hide Registered, WaitingSlots, MissingSlots;
    var x := pu.ID();
    objs, missing := b.objs[x := Waiting(pu, 0, 0, [])], b.missing;
    RegisterStart(b, mh, pu);
    for creator := 0 to |pu.heights|
      invariant Registered(b, mh, pu, creator, objs, missing)
    {
      RegisteredHas(b, mh, pu, creator, objs, missing);
      var height := pu.heights[creator];
      if height < 0 || InView(mh, Id(creator, height)) {
        RegisterNothing(b, mh, pu, creator, objs, missing);
      } else {
        var parentId := Id(creator, height);
        var wp := objs[x];
        if parentId in b.waiting {
          RegisterWaiting(b, mh, pu, creator, objs, missing);
          objs := objs[x := wp.(waitingParents := wp.waitingParents + 1)][parentId := NotedChild(objs[parentId],
            x, true)];
        } else {
          RegisterMissing(b, mh, pu, creator, objs, missing);
          objs := objs[x := wp.(missingParents := wp.missingParents + 1)];
          missing := missing[parentId := Needs(missing, parentId) + [x]];
        }
      }
    }
  }

  lemma RegisterStart(b: Buffer, mh: seq<int>, pu: Preunit)
    requires pu.ID() !in b.objs
    ensures Registered(b, mh, pu, 0, b.objs[pu.ID() := Waiting(pu, 0, 0, [])], b.missing)
  {
    assert ParentsUpTo(pu, 0) == {};
    assert WaitingSlots(b, mh, pu, 0) == {} && MissingSlots(b, mh, pu, 0) == {};
  }

  lemma RegisteredHas(b: Buffer, mh: seq<int>, pu: Preunit, k: nat, objs: map<Id, Waiting>, missing: map<Id, seq<Id>>)
    requires k <= |pu.heights| && Registered(b, mh, pu, k, objs, missing)
    ensures objs.Keys == b.objs.Keys + {pu.ID()}
  {
  }

  // --------------------------------------------------- children that were waiting for it

  function Shifted(o: Waiting): Waiting {
    o.(missingParents := o.missingParents - 1, waitingParents := o.waitingParents + 1)
  }

  /** The new preunit adopts those that missed it; they now wait for it. */
  function Adopted(o: Waiting, isNew: bool, list: seq<Id>, adopted: bool): Waiting {
    if isNew then o.(children := list) else if adopted then Shifted(o) else o
  }

  /** `after` is `before` with the first `k` ids of `list` changed by `f`. */
  ghost predicate Changed(before: map<Id, Waiting>, after: map<Id, Waiting>, list: seq<Id>, k: nat,
      f: Waiting -> Waiting) {
    && k <= |list| && after.Keys == before.Keys
    && forall y :: y in before ==> after[y] == if y in list[..k] then f(before[y]) else before[y]
  }

  lemma ChangeOne(before: map<Id, Waiting>, after: map<Id, Waiting>, list: seq<Id>, k: nat, f: Waiting -> Waiting)
    requires Changed(before, after, list, k, f) && k < |list| && NoDup(list) && list[k] in before
    ensures list[k] in after && Changed(before, after[list[k] := f(after[list[k]])], list, k + 1, f)
  {
    assert list[..k + 1] == list[..k] + [list[k]];
    assert list[k] !in list[..k];
  }

  /** The preunits that missed `x` now wait for it. */
  method CheckIfMissing(objs0: map<Id, Waiting>, missing0: map<Id, seq<Id>>, x: Id) returns (objs: map<Id, Waiting>,
      missing: map<Id, seq<Id>>)
    requires x in objs0 && objs0[x].children == []
    requires x in missing0 ==> NoDup(missing0[x]) && x !in missing0[x] && forall ch :: ch in missing0[x] ==> ch in objs0
    ensures missing == missing0 - {x}
    ensures objs.Keys == objs0.Keys
    ensures forall y :: y in objs0 ==> objs[y] == Adopted(objs0[y], y == x, Needs(missing0, x), y in Needs(missing0, x))
  {
    if x !in missing0 {
      return objs0, missing0;
    }
    var list := missing0[x];
    objs := objs0;
    for k := 0 to |list|
      invariant Changed(objs0, objs, list, k, Shifted)
    {
      assert list[k] in list;
      ChangeOne(objs0, objs, list, k, Shifted);
      objs := objs[list[k] := Shifted(objs[list[k]])];
    }
    assert list[..|list|] == list;
    objs := objs[x := objs[x].(children := list)];
    missing := missing0 - {x};
  }

  // --------------------------------------------------- submitting keeps the invariant

  /**
   * `b'` is `b` with the new preunit registered against the heights `mh` and, if nothing is unresolved, sent to its
   * worker.
   */
  ghost predicate Submitted(b: Buffer, mh: seq<int>, pu: Preunit, b': Buffer) {
    var x, n := pu.ID(), |pu.heights|;
    var list := Needs(b.missing, x);
    && Seen(mh, b)
    && b'.objs.Keys == b.objs.Keys + {x} && b'.waiting == b.waiting + {x} && b'.dag == b.dag
    && b'.objs[x] == Waiting(pu, |MissingSlots(b, mh, pu, n)|, |WaitingSlots(b, mh, pu, n)|, list)
    && (forall y :: y in b.objs ==>
        b'.objs[y] == Adopted(NotedChild(b.objs[y], x, y in WaitingSlots(b, mh, pu, n)), false, list, y in list))
    && (forall s :: s in b'.missing <==> s != x && (s in b.missing || s in MissingSlots(b, mh, pu, n)))
    && (forall s :: s != x ==>
        Needs(b'.missing, s) == Appended(Needs(b.missing, s), x, s in MissingSlots(b, mh, pu, n)))
    && b'.dispatched == Appended(b.dispatched, x, WaitingSlots(b, mh, pu, n) == {} && MissingSlots(b, mh, pu, n) == {})
  }

  lemma SubmittedObjs(b: Buffer, mh: seq<int>, pu: Preunit, b': Buffer)
    requires Submitted(b, mh, pu, b') && pu.ID() !in b.objs
    ensures b'.objs.Keys == b.objs.Keys + {pu.ID()} && b'.objs[pu.ID()].pu == pu
    ensures b'.objs[pu.ID()].children == Needs(b.missing, pu.ID())
    ensures forall y :: y in b.objs ==>
      b'.objs[y].pu == b.objs[y].pu
        && b'.objs[y].children == Appended(b.objs[y].children, pu.ID(), y in WaitingSlots(b, mh, pu, |pu.heights|))
  {
    hide WaitingSlots, MissingSlots;
  }

  lemma SubmittedCounts(b: Buffer, mh: seq<int>, pu: Preunit, b': Buffer, y: Id)
    requires Submitted(b, mh, pu, b') && y in b.objs && y != pu.ID()
    ensures y in b'.objs && (y in b'.waiting <==> y in b.waiting) && (y in b'.dispatched <==> y in b.dispatched)
    ensures var gained := if y in Needs(b.missing, pu.ID()) then 1 else 0;
      b'.objs[y].waitingParents == b.objs[y].waitingParents + gained
        && b'.objs[y].missingParents == b.objs[y].missingParents - gained
  {
    hide WaitingSlots, MissingSlots;
  }

  lemma SubmittedMissing(b: Buffer, mh: seq<int>, pu: Preunit, b': Buffer, s: Id)
    requires Submitted(b, mh, pu, b') && s != pu.ID()
    ensures Needs(b'.missing, s) == Appended(Needs(b.missing, s), pu.ID(), s in MissingSlots(b, mh, pu, |pu.heights|))
    ensures s in b'.missing <==> s in b.missing || s in MissingSlots(b, mh, pu, |pu.heights|)
  {
    hide WaitingSlots, MissingSlots;
  }

  /** The new preunit: no object had its id, and it is not in the dag. */
  ghost predicate New(b: Buffer, pu: Preunit) {
    WellFormed(pu) && pu.ID() !in b.objs && pu.ID() !in b.dag
  }

  /** A preunit does not claim itself: the claim in its own slot is one height lower. */
  lemma OwnIdIsFree(pu: Preunit)
    requires WellFormed(pu)
    ensures pu.ID() !in Parents(pu)
  {
  }

  /** Nothing on record mentions the new id as a child. */
  lemma NotMentioned(b: Buffer, pu: Preunit)
    requires Shape(b) && New(b, pu)
    ensures forall y :: y in b.objs ==> pu.ID() !in b.objs[y].children
    ensures forall s :: pu.ID() !in Needs(b.missing, s)
    ensures pu.ID() !in b.waiting && pu.ID() !in b.dispatched && pu.ID() !in Parents(pu)
  {
    OwnIdIsFree(pu);
    hide Parents;
    forall y | y in b.objs ensures pu.ID() !in b.objs[y].children {
      assert ObjectValid(b, y);
    }
    forall s ensures pu.ID() !in Needs(b.missing, s) {
      if s in b.missing { assert MissingValid(b, s); }
    }
  }

  lemma NewParents(b: Buffer, mh: seq<int>, pu: Preunit, b': Buffer)
    requires Shape(b) && New(b, pu) && Submitted(b, mh, pu, b')
    ensures LiveParents(b', pu.ID()) == WaitingSlots(b, mh, pu, |pu.heights|)
    ensures MissingParents(b', pu.ID()) == MissingSlots(b, mh, pu, |pu.heights|)
  {
    hide WaitingSlots, MissingSlots, Parents, WellFormed;
    NotMentioned(b, pu);
    SlotsAreParents(b, mh, pu);
    var x := pu.ID();
    forall s ensures s in LiveParents(b', x) <==> s in WaitingSlots(b, mh, pu, |pu.heights|) {
      if s in b.objs { assert x in b'.objs[s].children <==> s in WaitingSlots(b, mh, pu, |pu.heights|); }
    }
    forall s ensures s in MissingParents(b', x) <==> s in MissingSlots(b, mh, pu, |pu.heights|) {
      if s != x { assert Needs(b'.missing, s) == Appended(Needs(b.missing, s), x, s in MissingSlots(b, mh, pu,
        |pu.heights|)); }
    }
  }

  lemma OldParents(b: Buffer, mh: seq<int>, pu: Preunit, b': Buffer, y: Id)
    requires Shape(b) && New(b, pu) && Submitted(b, mh, pu, b') && y in b.objs
    ensures var x := pu.ID();
      if y in Needs(b.missing, x) then
        && LiveParents(b', y) == LiveParents(b, y) + {x} && x !in LiveParents(b, y)
        && MissingParents(b', y) == MissingParents(b, y) - {x} && x in MissingParents(b, y)
      else LiveParents(b', y) == LiveParents(b, y) && MissingParents(b', y) == MissingParents(b, y)
  {
    hide Parents, Submitted, WellFormed, NoDup, Shape, LiveParents, MissingParents;
    SubmittedObjs(b, mh, pu, b');
    if y in Needs(b.missing, pu.ID()) {
      NeededBy(b, pu.ID(), y);
    }
    OldLive(b, mh, pu, b', y);
    OldMissing(b, mh, pu, b', y);
  }

  lemma NeededBy(b: Buffer, s: Id, y: Id)
    requires Shape(b) && y in Needs(b.missing, s)
    ensures y in b.objs && s in Parents(b.objs[y].pu) && s !in LiveParents(b, y) && s in MissingParents(b, y)
  {
    hide Parents;
    assert MissingValid(b, s);
  }

  lemma OldLive(b: Buffer, mh: seq<int>, pu: Preunit, b': Buffer, y: Id)
    requires Shape(b) && New(b, pu) && Submitted(b, mh, pu, b') && y in b.objs && y in b'.objs
    ensures forall s :: s in LiveParents(b', y) <==>
      s in LiveParents(b, y) || (s == pu.ID() && s in Parents(b.objs[y].pu) && y in Needs(b.missing, s))
  {
    hide WaitingSlots, MissingSlots, Parents, WellFormed, Shape, Submitted;
    NotMentioned(b, pu);
    SubmittedObjs(b, mh, pu, b');
    NotMissingItself(b, mh, pu, b');
  }

  lemma OldMissing(b: Buffer, mh: seq<int>, pu: Preunit, b': Buffer, y: Id)
    requires Shape(b) && New(b, pu) && Submitted(b, mh, pu, b') && y in b.objs && y in b'.objs
    ensures forall s :: s in MissingParents(b', y) <==>
      s in MissingParents(b, y) && !(s == pu.ID() && y in Needs(b.missing, s))
  {
    hide WaitingSlots, MissingSlots, Parents, WellFormed, Shape, Submitted;
    SubmittedObjs(b, mh, pu, b');
    NotMissingItself(b, mh, pu, b');
    forall s
      ensures s in MissingParents(b', y) <==> s in MissingParents(b, y) && !(s == pu.ID() && y in Needs(b.missing, s))
    {
      if s != pu.ID() { SubmittedMissing(b, mh, pu, b', s); }
    }
  }

  lemma SubmitCountsNew(b: Buffer, mh: seq<int>, pu: Preunit, b': Buffer)
    requires Inv(b) && New(b, pu) && Submitted(b, mh, pu, b')
    ensures CountsValid(b', pu.ID()) && Covered(b', pu.ID()) && PurgeClosed(b', pu.ID())
  {
    hide LiveParents, MissingParents, Parents, WellFormed, WaitingSlots, MissingSlots;
    NotMentioned(b, pu);
    NewParents(b, mh, pu, b');
    SlotsCover(b, mh, pu);
  }

  lemma SubmitCountsOld(b: Buffer, mh: seq<int>, pu: Preunit, b': Buffer, y: Id)
    requires Shape(b) && New(b, pu) && Submitted(b, mh, pu, b') && y in b.objs && CountsValid(b, y)
    ensures CountsValid(b', y)
  {
    hide LiveParents, MissingParents, Parents, WellFormed, WaitingSlots, MissingSlots, Shape, Submitted;
    NotMentioned(b, pu);
    OldParents(b, mh, pu, b', y);
    SubmittedCounts(b, mh, pu, b', y);
  }

  lemma SubmitRestOld(b: Buffer, mh: seq<int>, pu: Preunit, b': Buffer, y: Id)
    requires Shape(b) && New(b, pu) && Submitted(b, mh, pu, b') && y in b.objs && PurgeClosed(b, y)
    ensures PurgeClosed(b', y) && (y in b'.waiting && Covered(b, y) ==> Covered(b', y))
  {
    hide LiveParents, MissingParents, Parents, WellFormed, WaitingSlots, MissingSlots, Shape;
    NotMentioned(b, pu);
    SlotsAreParents(b, mh, pu);
    OldParents(b, mh, pu, b', y);
  }

  lemma SubmitCounts(b: Buffer, mh: seq<int>, pu: Preunit, b': Buffer, y: Id)
    requires Inv(b) && New(b, pu) && Submitted(b, mh, pu, b') && y in b'.objs
    ensures CountsValid(b', y) && (y in b'.waiting ==> Covered(b', y)) && PurgeClosed(b', y)
  {
    hide LiveParents, MissingParents, Parents, WellFormed, WaitingSlots, MissingSlots, Shape, CountsValid, Covered,
      PurgeClosed;
    if y == pu.ID() {
      SubmitCountsNew(b, mh, pu, b');
    } else {
      SubmitCountsOld(b, mh, pu, b', y);
      SubmitRestOld(b, mh, pu, b', y);
    }
  }

  lemma SlotsCover(b: Buffer, mh: seq<int>, pu: Preunit)
    requires Seen(mh, b)
    ensures forall s :: s in Parents(pu) ==>
      s in WaitingSlots(b, mh, pu, |pu.heights|) || s in MissingSlots(b, mh, pu, |pu.heights|) || s in b.dag
  {
  }

  lemma SubmitShape(b: Buffer, mh: seq<int>, pu: Preunit, b': Buffer)
    requires Shape(b) && New(b, pu) && Submitted(b, mh, pu, b')
    ensures Shape(b')
  {
    hide WaitingSlots, MissingSlots, Parents, WellFormed;
    NotMentioned(b, pu);
    var x := pu.ID();
    forall y | y in b'.objs ensures ObjectValid(b', y) {
      SubmitObject(b, mh, pu, b', y);
    }
    forall s | s in b'.missing ensures MissingValid(b', s) {
      SubmitMissing(b, mh, pu, b', s);
    }
  }

  lemma SubmitObject(b: Buffer, mh: seq<int>, pu: Preunit, b': Buffer, y: Id)
    requires Shape(b) && New(b, pu) && Submitted(b, mh, pu, b') && y in b'.objs
    ensures ObjectValid(b', y)
  {
    hide WaitingSlots, MissingSlots, Parents, WellFormed, Submitted, NoDup;
    NotMentioned(b, pu);
    SlotsAreParents(b, mh, pu);
    SubmittedObjs(b, mh, pu, b');
    var x := pu.ID();
    if y == x {
      NoDupEmpty();
      if x in b.missing { assert MissingValid(b, x); }
    } else {
      assert ObjectValid(b, y);
      NoDupAppend(b.objs[y].children, x);
    }
  }

  lemma SlotsAreParents(b: Buffer, mh: seq<int>, pu: Preunit)
    ensures WaitingSlots(b, mh, pu, |pu.heights|) <= Parents(pu) && MissingSlots(b, mh, pu, |pu.heights|) <= Parents(pu)
    ensures MissingSlots(b, mh, pu, |pu.heights|) !! b.waiting && WaitingSlots(b, mh, pu, |pu.heights|) <= b.waiting
  {
  }

  lemma SubmitMissing(b: Buffer, mh: seq<int>, pu: Preunit, b': Buffer, s: Id)
    requires Shape(b) && New(b, pu) && Submitted(b, mh, pu, b') && s in b'.missing
    ensures MissingValid(b', s)
  {
    hide WaitingSlots, MissingSlots, Parents, WellFormed, Submitted, NoDup;
    NotMentioned(b, pu);
    SlotsAreParents(b, mh, pu);
    SubmittedObjs(b, mh, pu, b');
    var x := pu.ID();
    NotMissingItself(b, mh, pu, b');
    SubmittedMissing(b, mh, pu, b', s);
    NoDupEmpty();
    if s in b.missing { assert MissingValid(b, s); }
    NoDupAppend(Needs(b.missing, s), x);
  }

  lemma NotMissingItself(b: Buffer, mh: seq<int>, pu: Preunit, b': Buffer)
    requires Submitted(b, mh, pu, b')
    ensures pu.ID() !in b'.missing && b'.waiting == b.waiting + {pu.ID()}
  {
    hide WaitingSlots, MissingSlots;
  }

  /** Submitting a new preunit keeps the invariant. */
  lemma SubmitKeepsInv(b: Buffer, mh: seq<int>, pu: Preunit, b': Buffer)
    requires Inv(b) && New(b, pu) && Submitted(b, mh, pu, b')
    ensures Inv(b')
  {
    hide Shape, CountsValid, Covered, PurgeClosed, WaitingSlots, MissingSlots, Parents, WellFormed;
    SubmitShape(b, mh, pu, b');
    forall y | y in b'.objs ensures CountsValid(b', y) && PurgeClosed(b', y) && (y in b'.waiting ==> Covered(b', y)) {
      SubmitCounts(b, mh, pu, b', y);
    }
    WaitingAreObjects(b');
    SubmitNoneOverdue(b, mh, pu, b');
  }

  lemma SubmitNoneOverdue(b: Buffer, mh: seq<int>, pu: Preunit, b': Buffer)
    requires Shape(b) && NoneOverdue(b) && New(b, pu) && Submitted(b, mh, pu, b')
    ensures NoneOverdue(b')
  {
    hide WaitingSlots, Parents, WellFormed, Shape;
    NotMissingItself(b, mh, pu, b');
    forall m | m in b'.missing && m in b'.dag && m in b'.objs ensures b'.missing[m] == [] {
      SubmittedMissing(b, mh, pu, b', m);
      assert m !in MissingSlots(b, mh, pu, |pu.heights|);
    }
  }

  lemma WaitingAreObjects(b: Buffer)
    requires Shape(b)
    ensures b.waiting <= b.objs.Keys
  {
  }

  // ------------------------------------------------- removing a preunit that was added

  function Notified(o: Waiting): Waiting {
    o.(waitingParents := o.waitingParents - 1)
  }

  predicate IsReady(o: Waiting) {
    o.waitingParents == 0 && o.missingParents == 0
  }

  /** The ids among the first `k` of `list` that are ready. */
  function ReadyUpTo(objs: map<Id, Waiting>, list: seq<Id>, k: nat): seq<Id>
    requires k <= |list| && forall y :: y in list ==> y in objs
  {
    if k == 0 then [] else
    var ready := ReadyUpTo(objs, list, k - 1);
    if IsReady(objs[list[k - 1]]) then ready + [list[k - 1]] else ready
  }

  lemma {:induction false} ReadyMembers(objs: map<Id, Waiting>, list: seq<Id>, k: nat)
    requires k <= |list| && (forall y :: y in list ==> y in objs) && NoDup(list)
    ensures NoDup(ReadyUpTo(objs, list, k))
    ensures forall y :: y in ReadyUpTo(objs, list, k) <==> y in list[..k] && IsReady(objs[y])
  {
    if k > 0 {
      ReadyMembers(objs, list, k - 1);
      assert list[..k] == list[..k - 1] + [list[k - 1]];
      assert list[k - 1] !in list[..k - 1];
    }
  }

  /** `b'` is `b` after the preunit `x`, now in the dag, left the buffer and its children were notified. */
  ghost predicate Removed(b: Buffer, x: Id, b': Buffer) {
    && x in b.waiting && x in b.dispatched && x in b.dag && x in b.objs
    && b'.waiting == b.waiting - {x} && b'.missing == b.missing && b'.dag == b.dag
    && b'.objs.Keys == b.objs.Keys
    && (forall y :: y in b.objs ==> b'.objs[y] == if y in b.objs[x].children then Notified(b.objs[y]) else b.objs[y])
    && (forall y :: y in b.objs[x].children ==> y in b'.objs)
    && b'.dispatched == b.dispatched + ReadyUpTo(b'.objs, b.objs[x].children, |b.objs[x].children|)
  }

  lemma RemovedParents(b: Buffer, x: Id, b': Buffer, y: Id)
    requires Shape(b) && Removed(b, x, b') && y in b.objs
    ensures LiveParents(b', y) == LiveParents(b, y) - {x} && MissingParents(b', y) == MissingParents(b, y)
    ensures x in LiveParents(b, y) <==> y in b.objs[x].children
  {
    hide Parents, ReadyUpTo, WellFormed;
    assert ObjectValid(b, x);
    assert b'.objs[y].pu == b.objs[y].pu;
  }

  lemma RemovedDispatched(b: Buffer, x: Id, b': Buffer, y: Id)
    requires Inv(b) && Removed(b, x, b') && y in b.objs
    ensures y in b'.dispatched <==> y in b.dispatched || (y in b.objs[x].children && IsReady(b'.objs[y]))
    ensures y in b.objs[x].children ==> y !in b.dispatched
  {
    hide Parents, LiveParents, MissingParents, WellFormed;
    var list := b.objs[x].children;
    assert ObjectValid(b, x);
    ReadyMembers(b'.objs, list, |list|);
    assert list[..|list|] == list;
    RemovedParents(b, x, b', y);
    assert CountsValid(b, y);
  }

  lemma RemoveCounts(b: Buffer, x: Id, b': Buffer, y: Id)
    requires Inv(b) && Removed(b, x, b') && y in b.objs
    ensures CountsValid(b', y)
  {
    hide Parents, LiveParents, MissingParents, WellFormed, Shape, ReadyUpTo;
    RemovedParents(b, x, b', y);
    RemovedDispatched(b, x, b', y);
    assert CountsValid(b, y);
    var live, live' := LiveParents(b, y), LiveParents(b', y);
    if y in b.objs[x].children {
      assert |live'| == |live| - 1;
    } else {
      assert live' == live;
    }
  }

  lemma RemoveRest(b: Buffer, x: Id, b': Buffer, y: Id)
    requires Inv(b) && Removed(b, x, b') && y in b.objs
    ensures PurgeClosed(b', y) && (y in b'.waiting ==> Covered(b', y))
  {
    hide Parents, LiveParents, MissingParents, WellFormed, ReadyUpTo;
    RemovedParents(b, x, b', y);
    RemovedDispatched(b, x, b', y);
    assert CountsValid(b, y) && PurgeClosed(b, y);
    if y !in b'.waiting && y !in b'.dispatched {
      assert b'.objs[y].children == b.objs[y].children;
      forall ch | ch in b.objs[y].children ensures ch !in b'.waiting && ch !in b'.dispatched {
        assert ObjectValid(b, y);
        RemovedDispatched(b, x, b', ch);
        RemovedParents(b, x, b', ch);
        RemoveCounts(b, x, b', ch);
        assert CountsValid(b, ch);
      }
    }
  }

  lemma RemoveShape(b: Buffer, x: Id, b': Buffer)
    requires Inv(b) && Removed(b, x, b')
    ensures Shape(b')
  {
    hide Parents, WellFormed, CountsValid, Covered, PurgeClosed;
    forall y | y in b'.objs ensures ObjectValid(b', y) {
      assert ObjectValid(b, y);
      assert b'.objs[y].children == b.objs[y].children && b'.objs[y].pu == b.objs[y].pu;
      forall ch | ch in b.objs[y].children ensures ch in b'.objs && y in Parents(b'.objs[ch].pu) {
        assert b'.objs[ch].pu == b.objs[ch].pu;
      }
    }
    forall m | m in b'.missing ensures MissingValid(b', m) {
      assert MissingValid(b, m);
      forall ch | ch in b.missing[m] ensures ch in b'.objs && m in Parents(b'.objs[ch].pu) {
        assert b'.objs[ch].pu == b.objs[ch].pu;
      }
    }
    RemoveLog(b, x, b');
  }

  lemma RemoveLog(b: Buffer, x: Id, b': Buffer)
    requires Inv(b) && Removed(b, x, b')
    ensures NoDup(b'.dispatched) && forall y :: y in b'.dispatched ==> y in b'.objs
  {
    hide Parents, WellFormed, LiveParents, MissingParents;
    var list := b.objs[x].children;
    assert ObjectValid(b, x);
    ReadyMembers(b'.objs, list, |list|);
    var more := ReadyUpTo(b'.objs, list, |list|);
    forall i, j | 0 <= i < |b.dispatched| && 0 <= j < |more| ensures b.dispatched[i] != more[j] {
      assert b.dispatched[i] in b.dispatched && more[j] in more;
      RemovedDispatched(b, x, b', more[j]);
    }
  }

  /** Taking an added preunit out keeps the invariant. */
  lemma RemoveKeepsInv(b: Buffer, x: Id, b': Buffer)
    requires Inv(b) && Removed(b, x, b')
    ensures Inv(b')
  {
    hide Shape, CountsValid, Covered, PurgeClosed, Parents, WellFormed, ReadyUpTo;
    RemoveShape(b, x, b');
    WaitingAreObjects(b');
    forall y | y in b'.objs ensures CountsValid(b', y) && PurgeClosed(b', y) && (y in b'.waiting ==> Covered(b', y)) {
      RemoveCounts(b, x, b', y);
      RemoveRest(b, x, b', y);
    }
    forall y | y in b'.dag && y in b'.objs ensures Parents(b'.objs[y].pu) <= b'.dag {
      assert b'.objs[y].pu == b.objs[y].pu;
    }
  }

  // ------------------------------------------------------ purging a preunit that failed

  ghost predicate NoneIn(list: seq<Id>, ids: set<Id>) {
    forall ch :: ch in list ==> ch !in ids
  }

  /** `y` left the buffer as a child of something that left it. */
  ghost predicate LeftWithParent(b: Buffer, waiting: set<Id>, y: Id) {
    exists s :: s in b.waiting && s in b.objs && s !in waiting && y in b.objs[s].children
  }

  /** `b'` is `b` after the failed preunit `x` left the buffer with its descendants. */
  ghost predicate Purged(b: Buffer, x: Id, b': Buffer) {
    && x in b.waiting && x in b.dispatched && x in b.objs && x !in b.dag
    && b' == b.(waiting := b'.waiting) && b'.waiting <= b.waiting && x !in b'.waiting
    && (forall s :: s in b.waiting && s in b.objs && s !in b'.waiting ==> NoneIn(b.objs[s].children, b'.waiting))
    && (forall y :: y in b.waiting && y !in b'.waiting && y != x ==> LeftWithParent(b, b'.waiting, y))
  }

  lemma PurgedParents(b: Buffer, x: Id, b': Buffer, y: Id)
    requires Inv(b) && Purged(b, x, b') && y in b.objs
    ensures LiveParents(b', y) <= LiveParents(b, y) && MissingParents(b', y) == MissingParents(b, y)
    ensures y in b'.waiting ==> LiveParents(b', y) == LiveParents(b, y)
    ensures y in b.waiting && y !in b'.waiting && y != x ==> LiveParents(b', y) < LiveParents(b, y)
  {
    hide Parents, WellFormed, CountsValid, Covered, PurgeClosed;
    if y in b.waiting && y !in b'.waiting && y != x {
      var s :| s in b.waiting && s in b.objs && s !in b'.waiting && y in b.objs[s].children;
      assert ObjectValid(b, s);
      assert s in LiveParents(b, y) && s !in LiveParents(b', y);
    }
  }

  lemma PurgeCounts(b: Buffer, x: Id, b': Buffer, y: Id)
    requires Inv(b) && Purged(b, x, b') && y in b.objs
    ensures CountsValid(b', y) && PurgeClosed(b', y) && (y in b'.waiting ==> Covered(b', y))
  {
    hide Parents, WellFormed, LiveParents, MissingParents;
    PurgedParents(b, x, b', y);
    assert CountsValid(b, y) && PurgeClosed(b, y);
    assert y in b.waiting ==> Covered(b, y);
    SubsetSize(LiveParents(b', y), LiveParents(b, y));
    if y in b.waiting {
      forall ch | ch in b.objs[y].children ensures ch !in b.dispatched {
        ChildOfLive(b, y, ch);
      }
    }
  }

  /** A child of a live preunit has not been sent to a worker. */
  lemma ChildOfLive(b: Buffer, s: Id, ch: Id)
    requires Inv(b) && s in b.waiting && s in b.objs && ch in b.objs[s].children
    ensures ch in b.objs && ch !in b.dispatched
  {
    hide Parents, WellFormed, Covered, PurgeClosed;
    assert ObjectValid(b, s);
    assert s in LiveParents(b, ch);
    assert CountsValid(b, ch);
  }

  /** Purging a failed preunit keeps the invariant. */
  lemma PurgeKeepsInv(b: Buffer, x: Id, b': Buffer)
    requires Inv(b) && Purged(b, x, b')
    ensures Inv(b')
  {
    hide CountsValid, Covered, PurgeClosed, Parents, WellFormed;
    forall y | y in b'.objs ensures CountsValid(b', y) && PurgeClosed(b', y) && (y in b'.waiting ==> Covered(b', y)) {
      PurgeCounts(b, x, b', y);
    }
    forall y | y in b'.objs ensures ObjectValid(b', y) { assert ObjectValid(b, y); }
    forall m | m in b'.missing ensures MissingValid(b', m) { assert MissingValid(b, m); }
  }

  /** `path` leads from a preunit to a descendant through children lists. */
  ghost predicate ChildPath(objs: map<Id, Waiting>, path: seq<Id>) {
    && |path| > 0 && (forall i :: 0 <= i < |path| ==> path[i] in objs)
    && forall i :: 0 <= i < |path| - 1 ==> ChildOf(objs, path[i], path[i + 1])
  }

  ghost predicate ChildOf(objs: map<Id, Waiting>, y: Id, ch: Id) {
    y in objs && ch in objs[y].children
  }

  /** Every descendant of the failed preunit leaves the buffer, and none of them had been sent to a worker. */
  lemma {:induction false} DescendantsPurged(b: Buffer, x: Id, b': Buffer, path: seq<Id>, i: nat)
    requires Inv(b) && Purged(b, x, b') && ChildPath(b.objs, path) && path[0] == x && i < |path|
    ensures path[i] !in b'.waiting && (i > 0 ==> path[i] !in b'.dispatched)
  {
    hide Parents, WellFormed, CountsValid, Covered, LeftWithParent;
    if i > 0 {
      DescendantsPurged(b, x, b', path, i - 1);
      var s, y := path[i - 1], path[i];
      assert ChildOf(b.objs, s, y);
      if s in b.waiting {
        ChildOfLive(b, s, y);
        assert NoneIn(b.objs[s].children, b'.waiting);
      } else {
        assert PurgeClosed(b, s);
      }
    }
  }

  // -------------------------------------------------------- when the recursion returns

  /** No path down from `x` meets an id twice. */
  ghost predicate NoRepeats(objs: map<Id, Waiting>, x: Id) {
    forall path :: ChildPath(objs, path) && path[0] == x ==> NoDup(path)
  }

  /** Removing `x` and, recursively, its children returns, with calls nested at most `depth` deep. */
  ghost predicate Returns(objs: map<Id, Waiting>, x: Id, depth: nat)
    decreases depth
  {
    depth > 0 && forall ch :: ChildOf(objs, x, ch) ==> Returns(objs, ch, depth - 1)
  }

  ghost predicate ChildrenKnown(objs: map<Id, Waiting>) {
    forall y, ch :: ChildOf(objs, y, ch) ==> ch in objs
  }

  lemma {:induction false} DistinctFit(path: seq<Id>, ids: set<Id>)
    requires NoDup(path) && forall y :: y in path ==> y in ids
    ensures |path| <= |ids|
  {
    if path != [] {
      var last := |path| - 1;
      DistinctFit(path[..last], ids - {path[last]});
    }
  }

  lemma PathGrows(objs: map<Id, Waiting>, path: seq<Id>, ch: Id)
    requires ChildPath(objs, path) && ChildOf(objs, path[|path| - 1], ch) && ch in objs
    ensures ChildPath(objs, path + [ch])
  {
    hide ChildOf;
    var longer := path + [ch];
    forall i | 0 <= i < |longer| - 1 ensures ChildOf(objs, longer[i], longer[i + 1]) {
      if i < |path| - 1 { assert ChildOf(objs, path[i], path[i + 1]); }
    }
  }

  /** Without repetition a path has at most as many ids as there are objects, and the recursion is no deeper. */
  lemma {:induction false} ReturnsWithin(objs: map<Id, Waiting>, path: seq<Id>)
    requires ChildrenKnown(objs) && ChildPath(objs, path) && NoRepeats(objs, path[0])
    ensures |path| <= |objs.Keys| && Returns(objs, path[|path| - 1], |objs.Keys| - |path| + 1)
    decreases |objs.Keys| - |path|
  {
    hide ChildOf, NoDup;
    DistinctFit(path, objs.Keys);
    var y, depth := path[|path| - 1], |objs.Keys| - |path|;
    forall ch | ChildOf(objs, y, ch) ensures Returns(objs, ch, depth) {
      PathGrows(objs, path, ch);
      DistinctFit(path + [ch], objs.Keys);
      ReturnsWithin(objs, path + [ch]);
    }
  }

  /** No path down from `x` is longer than the recursion is deep. */
  lemma {:induction false} PathBounded(objs: map<Id, Waiting>, path: seq<Id>, depth: nat)
    requires ChildPath(objs, path) && Returns(objs, path[0], depth)
    ensures |path| <= depth
    decreases depth
  {
    hide ChildOf;
    if |path| > 1 {
      assert ChildOf(objs, path[0], path[1]);
      assert forall i :: 0 <= i < |path[1..]| - 1 ==> ChildOf(objs, path[1..][i], path[1..][i + 1]) by {
        assert forall i :: 0 <= i < |path[1..]| ==> path[1..][i] == path[i + 1];
      }
      PathBounded(objs, path[1..], depth - 1);
    }
  }

  /** A path that comes back to an id goes round as often as one likes. */
  lemma {:induction false} Pumped(objs: map<Id, Waiting>, path: seq<Id>, i: nat, j: nat, k: nat) returns (long: seq<Id>)
    requires ChildPath(objs, path) && i < j < |path| && path[i] == path[j]
    ensures ChildPath(objs, long) && long[0] == path[0] && long[|long| - 1] == path[j] && |long| > k
  {
    hide ChildOf;
    if k == 0 {
      long := path[..j + 1];
    } else {
      var before := Pumped(objs, path, i, j, k - 1);
      long := before + path[i + 1..j + 1];
      forall m | 0 <= m < |long| - 1 ensures ChildOf(objs, long[m], long[m + 1]) {
        if m < |before| - 1 {
          assert ChildOf(objs, before[m], before[m + 1]);
        } else {
          var at := i + (m - (|before| - 1));
          assert ChildOf(objs, path[at], path[at + 1]);
        }
      }
    }
  }

  /** The removal of a failed preunit returns exactly when no path down from it repeats. */
  lemma PurgeReturns(objs: map<Id, Waiting>, x: Id)
    requires ChildrenKnown(objs) && x in objs
    ensures (exists depth :: Returns(objs, x, depth)) <==> NoRepeats(objs, x)
  {
    hide ChildOf;
    if NoRepeats(objs, x) {
      assert ChildPath(objs, [x]);
      ReturnsWithin(objs, [x]);
    }
    if depth :| Returns(objs, x, depth) {
      forall path | ChildPath(objs, path) && path[0] == x ensures NoDup(path) {
        if i, j :| 0 <= i < j < |path| && path[i] == path[j] {
          var long := Pumped(objs, path, i, j, depth);
          PathBounded(objs, long, depth);
        }
      }
    }
  }

  /** `rank` falls from every object to the parents it claims. */
  ghost predicate Acyclic(objs: map<Id, Waiting>, rank: Id -> nat) {
    forall x, s :: x in objs && s in Parents(objs[x].pu) ==> rank(s) < rank(x)
  }

  lemma {:induction false} RankRises(b: Buffer, rank: Id -> nat, path: seq<Id>, i: nat, j: nat)
    requires Inv(b) && Acyclic(b.objs, rank) && ChildPath(b.objs, path) && i < j < |path|
    ensures rank(path[i]) < rank(path[j])
    decreases j
  {
    hide Parents, WellFormed, CountsValid, Covered, PurgeClosed;
    assert ChildOf(b.objs, path[j - 1], path[j]);
    assert ObjectValid(b, path[j - 1]);
    if i < j - 1 {
      RankRises(b, rank, path, i, j - 1);
    }
  }

  /** So the removal returns whenever the claims are acyclic. */
  lemma AcyclicReturns(b: Buffer, rank: Id -> nat, x: Id)
    requires Inv(b) && Acyclic(b.objs, rank) && x in b.objs
    ensures NoRepeats(b.objs, x) && exists depth :: Returns(b.objs, x, depth)
  {
    hide Inv, Acyclic, Returns;
    forall path | ChildPath(b.objs, path) && path[0] == x ensures NoDup(path) {
      forall i, j | 0 <= i < j < |path| ensures path[i] != path[j] {
        RankRises(b, rank, path, i, j);
      }
    }
    KnownChildren(b);
    PurgeReturns(b.objs, x);
  }

  /** Removes `x` and, recursively, its children; `path` leads to it from the preunit that failed. */
  method RemoveFailed(ghost b: Buffer, objs: map<Id, Waiting>, x: Id, waiting: set<Id>,
      ghost path: seq<Id>) returns (left: set<Id>)
    requires Inv(b) && objs == b.objs && x in objs && waiting <= b.waiting
    requires ChildPath(objs, path) && path[|path| - 1] == x && NoRepeats(objs, path[0])
    ensures left <= waiting && x !in left
    ensures forall s :: s in objs && (s == x || s in waiting) && s !in left ==> NoneIn(objs[s].children, left)
    ensures x in b.waiting || x !in b.dispatched ==>
      forall y :: y in waiting && y !in left && y != x ==> LeftWithParent(b, left, y)
    decreases |objs.Keys| - |path|
  {
    hide Parents, WellFormed, CountsValid, Covered, PurgeClosed, MissingValid, DagClosed, LeftWithParent, ChildPath,
      NoDup;
    left := waiting - {x};
    var list := objs[x].children;
    KnownChildren(b);
    for k := 0 to |list|
      invariant left <= waiting && x !in left
      invariant forall s :: s in objs && s in waiting && s != x && s !in left ==> NoneIn(objs[s].children, left)
      invariant forall j :: 0 <= j < k ==> list[j] !in left
      invariant x in b.waiting || x !in b.dispatched ==>
        forall y :: y in waiting && y !in left && y != x ==> LeftWithParent(b, left, y)
    {
      ghost var before := left;
      assert list[k] in list;
      PathDown(objs, path, list[k]);
      left := RemoveFailed(b, objs, list[k], left, path + [list[k]]);
      if x in b.waiting || x !in b.dispatched {
        ChildStatus(b, x, list[k]);
        forall y | y in waiting && y !in left && y != x ensures LeftWithParent(b, left, y) {
          StillLeft(b, x, list[k], waiting, before, left, y);
        }
      }
    }
  }

  lemma KnownChildren(b: Buffer)
    requires Inv(b)
    ensures ChildrenKnown(b.objs)
  {
    hide Parents, CountsValid, Covered, PurgeClosed;
    forall y, ch | ChildOf(b.objs, y, ch) ensures ch in b.objs {
      assert ObjectValid(b, y);
    }
  }

  lemma PathDown(objs: map<Id, Waiting>, path: seq<Id>, ch: Id)
    requires ChildrenKnown(objs) && ChildPath(objs, path) && ChildOf(objs, path[|path| - 1], ch)
    requires NoRepeats(objs, path[0])
    ensures ch in objs && ChildPath(objs, path + [ch]) && (path + [ch])[0] == path[0] && |path| + 1 <= |objs.Keys|
  {
    hide ChildOf;
    PathGrows(objs, path, ch);
    DistinctFit(path + [ch], objs.Keys);
  }

  /** A child of something live or purged is itself not sent, and not live if its parent was purged. */
  lemma ChildStatus(b: Buffer, x: Id, ch: Id)
    requires Inv(b) && x in b.objs && ch in b.objs[x].children && (x in b.waiting || x !in b.dispatched)
    ensures ch in b.objs && ch !in b.dispatched && (x !in b.waiting ==> ch !in b.waiting)
  {
    hide Parents, WellFormed, CountsValid, Covered;
    assert ObjectValid(b, x);
    if x in b.waiting {
      ChildOfLive(b, x, ch);
    } else {
      assert PurgeClosed(b, x);
    }
  }

  lemma StillLeft(b: Buffer, x: Id, ch: Id, waiting: set<Id>, before: set<Id>, left: set<Id>, y: Id)
    requires x in b.objs && ch in b.objs[x].children && (x !in b.waiting ==> ch !in b.waiting)
    requires left <= before <= waiting <= b.waiting && x !in left && y in waiting && y !in left && y != x
    requires y !in before ==> LeftWithParent(b, before, y)
    requires y in before && y != ch ==> LeftWithParent(b, left, y)
    ensures LeftWithParent(b, left, y)
  {
    if y !in before {
      var s :| s in b.waiting && s in b.objs && s !in before && y in b.objs[s].children;
    }
  }

  // ------------------------------------------------------------------------ steps

  /** A worker puts a preunit whose parents are all there into the dag. */
  ghost predicate Inserted(b: Buffer, x: Id, b': Buffer) {
    && x in b.dispatched && x in b.waiting && x in b.objs && x !in b.dag && Parents(b.objs[x].pu) <= b.dag
    && b' == b.(dag := b.dag + {x})
  }

  /** A unit made by this node enters the dag without passing the buffer. */
  ghost predicate InsertedElsewhere(b: Buffer, x: Id, b': Buffer) {
    && x !in b.objs && (x.height > 0 ==> Id(x.creator, x.height - 1) in b.dag)
    && b' == b.(dag := b.dag + {x})
  }

  /** Ids on the way down to a missing parent are noted as missing, needed by nobody yet. */
  ghost predicate Noted(b: Buffer, b': Buffer) {
    && b' == b.(missing := b'.missing)
    && (forall m :: m in b.missing ==> m in b'.missing && b'.missing[m] == b.missing[m])
    && (forall m :: m in b'.missing && m !in b.missing ==> m !in b.waiting && b'.missing[m] == [])
  }

  /** `m` lies between the heights in view and the claim of one of the first `visited` slots. */
  ghost predicate Wanted(mh: seq<int>, pu: Preunit, visited: nat, m: Id)
    requires visited <= |pu.heights| <= |mh|
  {
    m.creator < visited && WantedFrom(mh, pu, m.creator, mh[m.creator], m)
  }

  ghost predicate WantedFrom(mh: seq<int>, pu: Preunit, creator: nat, low: int, m: Id)
    requires creator < |pu.heights| <= |mh|
  {
    m.creator == creator && low < m.height <= pu.heights[creator]
  }

  // -------------------------------------------------------- what to ask others for

  /** When ids were asked for last, the time now, and the time between two requests for one id. */
  datatype Asked = Asked(at: map<Id, int>, now: int, interval: nat) {
    predicate Due(id: Id) {
      id in at ==> now - at[id] > interval
    }
  }

  /** The ids to ask for in one slot, from height `h` down to the heights in view: not waiting, and due. */
  function DueFrom(mh: seq<int>, waiting: set<Id>, asked: Asked, creator: nat, h: int): seq<Id>
    requires creator < |mh| && mh[creator] >= -1
    decreases h - mh[creator]
  {
    if h <= mh[creator] then [] else
    var rest := DueFrom(mh, waiting, asked, creator, h - 1);
    if Id(creator, h) !in waiting && asked.Due(Id(creator, h)) then [Id(creator, h)] + rest else rest
  }

  /** The ids to ask for in the first `k` slots. */
  function DueUpTo(mh: seq<int>, waiting: set<Id>, asked: Asked, pu: Preunit, k: nat): seq<Id>
    requires k <= |pu.heights| <= |mh| && forall i :: 0 <= i < |mh| ==> mh[i] >= -1
  {
    if k == 0 then [] else
    DueUpTo(mh, waiting, asked, pu, k - 1) + DueFrom(mh, waiting, asked, k - 1, pu.heights[k - 1])
  }

  /** The ids asked for: claimed above the heights in view, not waiting, and not asked for within the interval. */
  lemma {:induction false} DueMembers(mh: seq<int>, waiting: set<Id>, asked: Asked, pu: Preunit, k: nat, id: Id)
    requires k <= |pu.heights| <= |mh| && forall i :: 0 <= i < |mh| ==> mh[i] >= -1
    ensures id in DueUpTo(mh, waiting, asked, pu, k) <==>
      && id.creator < k && mh[id.creator] < id.height <= pu.heights[id.creator]
      && id !in waiting && (id in asked.at ==> asked.now - asked.at[id] > asked.interval)
  {
    if k > 0 {
      DueMembers(mh, waiting, asked, pu, k - 1, id);
      DueInSlot(mh, waiting, asked, k - 1, pu.heights[k - 1], id);
    }
  }

  lemma {:induction false} DueInSlot(mh: seq<int>, waiting: set<Id>, asked: Asked, creator: nat, h: int, id: Id)
    requires creator < |mh| && mh[creator] >= -1
    ensures id in DueFrom(mh, waiting, asked, creator, h) <==>
      && id.creator == creator && mh[creator] < id.height <= h
      && id !in waiting && (id in asked.at ==> asked.now - asked.at[id] > asked.interval)
    decreases h - mh[creator]
  {
    if h > mh[creator] {
      DueInSlot(mh, waiting, asked, creator, h - 1, id);
    }
  }

  /** They are asked for slot by slot, from the highest down. */
  lemma {:induction false} DueInOrder(mh: seq<int>, waiting: set<Id>, asked: Asked, pu: Preunit, k: nat)
    requires k <= |pu.heights| <= |mh| && forall i :: 0 <= i < |mh| ==> mh[i] >= -1
    ensures Descending(DueUpTo(mh, waiting, asked, pu, k))
  {
    if k > 0 {
      DueInOrder(mh, waiting, asked, pu, k - 1);
      SlotInOrder(mh, waiting, asked, k - 1, pu.heights[k - 1]);
      var before, slot := DueUpTo(mh, waiting, asked, pu, k - 1), DueFrom(mh, waiting, asked, k - 1, pu.heights[k - 1]);
      forall i, j | 0 <= i < |before| && 0 <= j < |slot| ensures before[i].creator < slot[j].creator {
        DueMembers(mh, waiting, asked, pu, k - 1, before[i]);
        DueInSlot(mh, waiting, asked, k - 1, pu.heights[k - 1], slot[j]);
      }
    }
  }

  ghost predicate Descending(ids: seq<Id>) {
    forall i, j :: 0 <= i < j < |ids| ==>
      ids[i].creator < ids[j].creator || (ids[i].creator == ids[j].creator && ids[i].height > ids[j].height)
  }

  lemma {:induction false} SlotInOrder(mh: seq<int>, waiting: set<Id>, asked: Asked, creator: nat, h: int)
    requires creator < |mh| && mh[creator] >= -1
    ensures Descending(DueFrom(mh, waiting, asked, creator, h))
    decreases h - mh[creator]
  {
    if h > mh[creator] {
      SlotInOrder(mh, waiting, asked, creator, h - 1);
      var rest := DueFrom(mh, waiting, asked, creator, h - 1);
      forall i | 0 <= i < |rest| ensures rest[i].creator == creator && rest[i].height < h {
        DueInSlot(mh, waiting, asked, creator, h - 1, rest[i]);
      }
    }
  }

  datatype Request = Nothing | Fetch(ids: seq<Id>) | Gossip

  /** Gossip once a slot takes the list over the limit; the slots after it are not looked at. */
  ghost predicate RequestFor(mh: seq<int>, waiting: set<Id>, asked: Asked, pu: Preunit, limit: nat, visited: nat,
      r: Request)
    requires |pu.heights| <= |mh| && forall i :: 0 <= i < |mh| ==> mh[i] >= -1
  {
    && visited <= |pu.heights|
    && (forall k :: 0 <= k < visited ==> |DueUpTo(mh, waiting, asked, pu, k)| <= limit)
    && var ids := DueUpTo(mh, waiting, asked, pu, visited);
       match r
       case Gossip => |ids| > limit
       case Nothing => visited == |pu.heights| && ids == []
       case Fetch(list) => visited == |pu.heights| && list == ids && 0 < |ids| <= limit
  }

  /** `at` after the ids of `list` were asked for at time `now`. */
  ghost predicate AskedFor(before: map<Id, int>, now: int, list: seq<Id>, at: map<Id, int>) {
    && (forall id :: id in at <==> id in before || id in list)
    && (forall id :: id in at ==> at[id] == if id in list then now else before[id])
  }

  lemma UnknownStep(pu: Preunit, i: nat, dag: set<Id>)
    requires i < |pu.heights|
    ensures |ParentsUpTo(pu, i + 1) - dag| == |ParentsUpTo(pu, i) - dag|
      + if pu.heights[i] >= 0 && Id(i, pu.heights[i]) !in dag then 1 else 0
  {
    hide ParentsUpTo;
    ParentsStep(pu, i);
    if pu.heights[i] >= 0 && Id(i, pu.heights[i]) !in dag {
      assert ParentsUpTo(pu, i + 1) - dag == ParentsUpTo(pu, i) - dag + {Id(i, pu.heights[i])};
    } else {
      assert ParentsUpTo(pu, i + 1) - dag == ParentsUpTo(pu, i) - dag;
    }
  }

  /** One atomic step of the adder, of a worker, or of the rest of the node. */
  ghost predicate Step(b: Buffer, b': Buffer) {
    || (exists pu, mh :: New(b, pu) && Submitted(b, mh, pu, b'))
    || Noted(b, b')
    || (exists x :: Inserted(b, x, b') || InsertedElsewhere(b, x, b') || Removed(b, x, b') || Purged(b, x, b'))
  }

  ghost predicate Start(b: Buffer) {
    b.objs == map[] && b.waiting == {} && b.missing == map[] && b.dag == {} && b.dispatched == []
  }

  lemma DagGrows(b: Buffer, x: Id, b': Buffer)
    requires Inv(b) && (Inserted(b, x, b') || InsertedElsewhere(b, x, b'))
    ensures Inv(b')
  {
    hide LiveParents, MissingParents, ObjectValid, MissingValid, CountsValid, PurgeClosed, Covered, Parents, NoDup;
    forall y | y in b.objs
      ensures ObjectValid(b', y) && CountsValid(b', y) && PurgeClosed(b', y) && (y in b.waiting ==> Covered(b', y))
    {
      assert ObjectValid(b, y) && CountsValid(b, y) && PurgeClosed(b, y);
      assert y in b.waiting ==> Covered(b, y);
      SameObject(b, b', y);
    }
    forall m | m in b.missing ensures MissingValid(b', m) {
      assert MissingValid(b, m);
      SameMissing(b, b', m);
    }
    if Inserted(b, x, b') {
      if x.height > 0 { PredecessorClaimed(b, x); }
    }
    InsertNoneOverdue(b, x, b');
  }

  lemma InsertNoneOverdue(b: Buffer, x: Id, b': Buffer)
    requires Shape(b) && NoneOverdue(b) && (Inserted(b, x, b') || InsertedElsewhere(b, x, b'))
    ensures NoneOverdue(b')
  {
    hide Parents, WellFormed, ObjectValid;
    assert x in b.missing ==> MissingValid(b, x);
  }

  /** A larger dag changes nothing for an object. */
  lemma SameObject(b: Buffer, b': Buffer, y: Id)
    requires b'.objs == b.objs && b'.waiting == b.waiting && b'.missing == b.missing && b'.dispatched == b.dispatched
    requires b.dag <= b'.dag
    requires y in b.objs && ObjectValid(b, y) && CountsValid(b, y) && PurgeClosed(b, y)
    ensures ObjectValid(b', y) && CountsValid(b', y) && PurgeClosed(b', y) && (Covered(b, y) ==> Covered(b', y))
  {
    hide LiveParents, MissingParents, WellFormed, Parents, NoDup;
    SameParents(b, b', y);
  }

  lemma SameMissing(b: Buffer, b': Buffer, m: Id)
    requires b'.objs == b.objs && b'.waiting == b.waiting && b'.missing == b.missing && m in b.missing
    requires MissingValid(b, m)
    ensures MissingValid(b', m)
  {
    hide Parents;
  }

  lemma SameParents(b: Buffer, b': Buffer, y: Id)
    requires y in b.objs && b'.objs == b.objs && b'.waiting == b.waiting && b'.missing == b.missing
    ensures LiveParents(b', y) == LiveParents(b, y) && MissingParents(b', y) == MissingParents(b, y)
  {
  }

  lemma PredecessorParent(pu: Preunit)
    requires WellFormed(pu) && pu.height > 0
    ensures Id(pu.creator, pu.height - 1) in Parents(pu)
  {
  }

  lemma PredecessorClaimed(b: Buffer, x: Id)
    requires Inv(b) && x in b.objs && x.height > 0
    ensures Id(x.creator, x.height - 1) in Parents(b.objs[x].pu)
  {
    hide Parents, WellFormed, MissingValid, CountsValid, PurgeClosed, Covered, DagClosed, NoneOverdue;
    assert ObjectValid(b, x);
    PredecessorParent(b.objs[x].pu);
  }

  lemma NotedKeepsInv(b: Buffer, b': Buffer)
    requires Inv(b) && Noted(b, b')
    ensures Inv(b')
  {
    hide Parents, WellFormed;
    forall y | y in b.objs ensures CountsValid(b', y) && PurgeClosed(b', y) && (y in b.waiting ==> Covered(b', y)) {
      assert CountsValid(b, y) && PurgeClosed(b, y);
      assert y in b.waiting ==> Covered(b, y);
      assert LiveParents(b', y) == LiveParents(b, y);
      assert MissingParents(b', y) == MissingParents(b, y);
    }
    forall y | y in b.objs ensures ObjectValid(b', y) { assert ObjectValid(b, y); }
    forall m | m in b'.missing ensures MissingValid(b', m) { if m in b.missing { assert MissingValid(b, m); } }
  }

  lemma StepKeepsInv(b: Buffer, b': Buffer)
    requires Inv(b) && Step(b, b')
    ensures Inv(b')
  {
    hide Inv, Submitted, New, Noted, Inserted, InsertedElsewhere, Removed, Purged;
    if Noted(b, b') {
      NotedKeepsInv(b, b');
    } else if pu, mh :| New(b, pu) && Submitted(b, mh, pu, b') {
      SubmitKeepsInv(b, mh, pu, b');
    } else {
      var x :| Inserted(b, x, b') || InsertedElsewhere(b, x, b') || Removed(b, x, b') || Purged(b, x, b');
      if Removed(b, x, b') {
        RemoveKeepsInv(b, x, b');
      } else if Purged(b, x, b') {
        PurgeKeepsInv(b, x, b');
      } else {
        DagGrows(b, x, b');
      }
    }
  }

  /** An interleaving of steps from the empty buffer. */
  ghost predicate Run(run: seq<Buffer>) {
    && |run| > 0 && Start(run[0])
    && forall i :: 0 <= i < |run| - 1 ==> Step(run[i], run[i + 1])
  }

  /** The invariant holds in every state of every interleaving. */
  lemma {:induction false} RunIsSafe(run: seq<Buffer>, i: nat)
    requires Run(run) && i < |run|
    ensures Inv(run[i])
  {
    hide Step, Inv;
    if i == 0 {
      StartIsSafe(run[0]);
    } else {
      RunIsSafe(run, i - 1);
      StepKeepsInv(run[i - 1], run[i]);
    }
  }

  lemma StartIsSafe(b: Buffer)
    requires Start(b)
    ensures Inv(b)
  {
  }

  /** In every interleaving a preunit in a worker's hands finds its parents, and is handed out once. */
  lemma NeverUnknownParents(run: seq<Buffer>, i: nat, x: Id)
    requires Run(run) && i < |run| && x in run[i].dispatched && x in run[i].waiting
    ensures NoDup(run[i].dispatched) && x in run[i].objs && Parents(run[i].objs[x].pu) <= run[i].dag
  {
    RunIsSafe(run, i);
    hide CountsValid, Covered, PurgeClosed;
    DispatchedHasParents(run[i], x);
  }

  /**
   * In every interleaving a live preunit whose parents all came through the buffer, are inserted and have been removed
   * is with a worker.
   */
  lemma DispatchedPromptly(run: seq<Buffer>, i: nat, x: Id)
    requires Run(run) && i < |run| && x in run[i].waiting && x in run[i].objs
    requires forall s :: s in Parents(run[i].objs[x].pu) ==> s in run[i].objs && s in run[i].dag && s !in run[i].waiting
    ensures x in run[i].dispatched
  {
    hide Inv, Parents, Step;
    RunIsSafe(run, i);
    PromptlyDispatched(run[i], x);
  }

  /** What left the buffer without being sent never comes back. */
  lemma PurgedStays(b: Buffer, b': Buffer, y: Id)
    requires Inv(b) && Step(b, b') && y in b.objs && y !in b.waiting && y !in b.dispatched
    ensures y in b'.objs && y !in b'.waiting && y !in b'.dispatched
  {
    hide LiveParents, MissingParents, Shape, Covered, Parents, WellFormed, WaitingSlots, MissingSlots;
    if x :| Removed(b, x, b') {
      RemovedDispatched(b, x, b', y);
      RemovedParents(b, x, b', y);
      assert CountsValid(b, y);
    }
  }

  /** In every interleaving a purged preunit is never sent to a worker, whatever happens to its other parents. */
  lemma {:induction false} NeverDispatched(run: seq<Buffer>, i: nat, j: nat, y: Id)
    requires Run(run) && i <= j < |run|
    requires y in run[i].objs && y !in run[i].waiting && y !in run[i].dispatched
    ensures y in run[j].objs && y !in run[j].waiting && y !in run[j].dispatched
    decreases j
  {
    hide Step, Inv;
    if i < j {
      NeverDispatched(run, i, j - 1, y);
      RunIsSafe(run, j - 1);
      PurgedStays(run[j - 1], run[j], y);
    }
  }

  // ------------------------------------------------- a removal that does not return

  const NOTHING_SEEN: seq<int> := [-1, -1, -1]
  const UNIT_C := Preunit(0, 0, [-1, -1, -1])
  const UNIT_A := Preunit(1, 0, [0, -1, 0])
  const UNIT_B := Preunit(2, 0, [-1, 0, -1])
  const ID_C := Id(0, 0)
  const ID_A := Id(1, 0)
  const ID_B := Id(2, 0)

  /** C is with a worker. */
  function AfterC(): Buffer {
    Buffer(map[ID_C := Waiting(UNIT_C, 0, 0, [])], {ID_C}, map[], {}, [ID_C])
  }

  /** A claims C, which is waiting, and B, which is missing. */
  function AfterA(): Buffer {
    Buffer(map[ID_C := Waiting(UNIT_C, 0, 0, [ID_A]), ID_A := Waiting(UNIT_A, 1, 1, [])],
           {ID_C, ID_A}, map[ID_B := [ID_A]], {}, [ID_C])
  }

  /** B claims A and is claimed by it. */
  function AfterB(): Buffer {
    Buffer(map[ID_C := Waiting(UNIT_C, 0, 0, [ID_A]), ID_A := Waiting(UNIT_A, 0, 2, [ID_B]), ID_B := Waiting(UNIT_B,
      0, 1, [ID_A])],
           {ID_C, ID_A, ID_B}, map[], {}, [ID_C])
  }

  function CyclicRun(): seq<Buffer> {
    [Buffer(map[], {}, map[], {}, []), AfterC(), AfterA(), AfterB()]
  }

  lemma ClaimsOfThree(pu: Preunit)
    requires |pu.heights| == 3
    ensures Parents(pu) == (if pu.heights[0] >= 0 then {Id(0, pu.heights[0])} else {})
      + (if pu.heights[1] >= 0 then {Id(1, pu.heights[1])}
        else {}) + (if pu.heights[2] >= 0 then {Id(2, pu.heights[2])} else {})
  {
    hide ParentsUpTo;
    ParentsNone(pu);
    ParentsStep(pu, 0);
    ParentsStep(pu, 1);
    ParentsStep(pu, 2);
  }

  lemma ParentsNone(pu: Preunit)
    ensures ParentsUpTo(pu, 0) == {}
  {
  }

  lemma SlotsOf(b: Buffer, pu: Preunit)
    requires |pu.heights| == 3
    ensures WaitingSlots(b, NOTHING_SEEN, pu, 3) == Parents(pu) * b.waiting
    ensures MissingSlots(b, NOTHING_SEEN, pu, 3) == Parents(pu) - b.waiting
  {
    hide ParentsUpTo;
  }

  lemma NewPreunits()
    ensures New(CyclicRun()[0], UNIT_C) && New(AfterC(), UNIT_A) && New(AfterA(), UNIT_B)
  {
    hide Parents;
  }

  lemma SubmitC()
    ensures Submitted(CyclicRun()[0], NOTHING_SEEN, UNIT_C, AfterC())
  {
    hide Parents, WaitingSlots, MissingSlots;
    ClaimsOfThree(UNIT_C);
    SlotsOf(CyclicRun()[0], UNIT_C);
  }

  lemma NothingSeen(b: Buffer)
    requires b.dag == {}
    ensures Seen(NOTHING_SEEN, b)
  {
  }

  lemma SlotsOfA()
    ensures WaitingSlots(AfterC(), NOTHING_SEEN, UNIT_A, 3) == {ID_C}
    ensures MissingSlots(AfterC(), NOTHING_SEEN, UNIT_A, 3) == {ID_B}
  {
    hide Parents, WaitingSlots, MissingSlots;
    ClaimsOfThree(UNIT_A);
    SlotsOf(AfterC(), UNIT_A);
  }

  lemma SubmitA()
    ensures Submitted(AfterC(), NOTHING_SEEN, UNIT_A, AfterA())
  {
    hide Parents, WaitingSlots, MissingSlots, Seen;
    NothingSeen(AfterC());
    SlotsOfA();
    assert UNIT_A.ID() == ID_A && |UNIT_A.heights| == 3 && Needs(AfterC().missing, ID_A) == [];
    assert AfterA().objs.Keys == {ID_C, ID_A} && AfterC().objs.Keys == {ID_C};
    assert AfterA().objs[ID_A] == Waiting(UNIT_A, |{ID_B}|, |{ID_C}|, []);
    assert AfterA().objs[ID_C] == Adopted(NotedChild(AfterC().objs[ID_C], ID_A, true), false, [], false);
  }

  lemma SlotsOfB()
    ensures WaitingSlots(AfterA(), NOTHING_SEEN, UNIT_B, 3) == {ID_A}
    ensures MissingSlots(AfterA(), NOTHING_SEEN, UNIT_B, 3) == {}
  {
    hide Parents, WaitingSlots, MissingSlots;
    ClaimsOfThree(UNIT_B);
    SlotsOf(AfterA(), UNIT_B);
  }

  lemma SubmitB()
    ensures Submitted(AfterA(), NOTHING_SEEN, UNIT_B, AfterB())
  {
    hide Parents, WaitingSlots, MissingSlots, Seen;
    NothingSeen(AfterA());
    SlotsOfB();
    assert UNIT_B.ID() == ID_B && |UNIT_B.heights| == 3 && Needs(AfterA().missing, ID_B) == [ID_A];
    assert AfterB().objs.Keys == {ID_C, ID_A, ID_B} && AfterA().objs.Keys == {ID_C, ID_A};
    assert AfterB().objs[ID_B] == Waiting(UNIT_B, 0, |{ID_A}|, [ID_A]);
  }

  lemma SubmitStep(b: Buffer, pu: Preunit, b': Buffer)
    requires New(b, pu) && Submitted(b, NOTHING_SEEN, pu, b')
    ensures Step(b, b')
  {
    hide New, Submitted, Noted, Inserted, InsertedElsewhere, Removed, Purged;
  }

  lemma CyclicRunIsRun()
    ensures Run(CyclicRun())
  {
    hide Step, Submitted, New;
    NewPreunits();
    SubmitC();
    SubmitA();
    SubmitB();
    SubmitStep(CyclicRun()[0], UNIT_C, AfterC());
    SubmitStep(AfterC(), UNIT_A, AfterA());
    SubmitStep(AfterA(), UNIT_B, AfterB());
  }

  /** If C fails now, its removal never returns: it goes from A to B and back to A. */
  lemma CyclicClaimsHang()
    ensures Run(CyclicRun()) && CyclicRun()[3] == AfterB()
    ensures ID_C in AfterB().dispatched && ID_C in AfterB().waiting
    ensures !exists depth :: Returns(AfterB().objs, ID_C, depth)
  {
    hide Run, Returns;
    CyclicRunIsRun();
    var objs := AfterB().objs;
    var path := [ID_C, ID_A, ID_B, ID_A];
    assert ChildOf(objs, ID_C, ID_A) && ChildOf(objs, ID_A, ID_B) && ChildOf(objs, ID_B, ID_A);
    assert ChildPath(objs, path) && path[1] == path[3];
    PurgeReturns(objs, ID_C);
  }

  // ------------------------------------------------------------------------ the code

  datatype Outcome = Duplicate | UnknownParents(count: nat) | Accepted | Crash

  datatype Handled = Added | Failed | Crashed

  lemma {:induction false} ReadyStable(objs: map<Id, Waiting>, objs': map<Id, Waiting>, list: seq<Id>, k: nat)
    requires k <= |list| && (forall y :: y in list ==> y in objs && y in objs')
    requires forall y :: y in list[..k] ==> objs'[y] == objs[y]
    ensures ReadyUpTo(objs', list, k) == ReadyUpTo(objs, list, k)
  {
    if k > 0 {
      assert list[..k] == list[..k - 1] + [list[k - 1]];
      ReadyStable(objs, objs', list, k - 1);
    }
  }

  class Adder {
    const n: nat
    const interval: nat
    const gossipAbove: nat
    var askedAt: map<Id, int>
    var objs: map<Id, Waiting>
    var waiting: set<Id>
    var missing: map<Id, seq<Id>>
    var dag: set<Id>
    var dispatched: seq<Id>

    function State(): Buffer
      reads this
    {
      Buffer(objs, waiting, missing, dag, dispatched)
    }

    constructor (n: nat, interval: nat, gossipAbove: nat)
      ensures this.n == n && this.interval == interval && this.gossipAbove == gossipAbove
      ensures Start(State()) && askedAt == map[]
    {
      this.n, this.interval, this.gossipAbove, askedAt := n, interval, gossipAbove, map[];
      objs, waiting, missing, dag, dispatched := map[], {}, map[], {}, [];
    }

    /**
     * Takes a preunit into the buffer, with the greatest heights `mh` read from the dag at this moment or a bit
     * earlier. Ids are not shared and not submitted again after a purge: an id on record is still waiting or
     * already in the dag. Too many claims run over the end of the heights.
     */
    method AddToWaiting(pu: Preunit, mh: seq<int>, now: int) returns (r: Outcome, request: Request)
      requires Inv(State()) && WellFormed(pu)
      requires |mh| == n && Seen(mh, State()) && forall i :: 0 <= i < n ==> mh[i] >= -1
      requires pu.ID() in objs ==> pu.ID() in waiting || pu.ID() in dag
      modifies this
      ensures Inv(State())
      ensures r.Duplicate? <==> pu.ID() in old(waiting) || pu.ID() in old(dag)
      ensures r.Crash? <==> !r.Duplicate? && |pu.heights| > n
      ensures r.Duplicate? || r.Crash? ==> State() == old(State()) && askedAt == old(askedAt) && request.Nothing?
      ensures !r.Duplicate? && !r.Crash? ==>
        exists mid :: New(old(State()), pu) && Submitted(old(State()), mh, pu, mid) && Noted(mid, State())
      ensures r.Accepted? ==> MissingSlots(old(State()), mh, pu, |pu.heights|) == {} && request.Nothing?
      ensures r.Accepted? ==> Submitted(old(State()), mh, pu, State()) && askedAt == old(askedAt) - {pu.ID()}
      ensures r.UnknownParents? ==> r.count == |MissingSlots(old(State()), mh, pu, |pu.heights|)| > 0
      ensures r.UnknownParents? ==> exists visited ::
        && RequestFor(mh, waiting, Asked(old(askedAt) - {pu.ID()}, now, interval), pu, gossipAbove, visited, request)
        && AskedFor(old(askedAt) - {pu.ID()}, now,
             DueUpTo(mh, waiting, Asked(old(askedAt) - {pu.ID()}, now, interval), pu, visited), askedAt)
        && forall m :: Wanted(mh, pu, visited, m) ==> m in waiting || m in missing
    {
      hide Inv, WellFormed, Registered, Submitted, Noted, WaitingSlots, MissingSlots, Seen, DueUpTo, AskedFor;
      var x := pu.ID();
      request := Nothing;
      if x in waiting || x in dag {
        return Duplicate, Nothing;
      }
      if |pu.heights| > n {
        return Crash, Nothing;
      }
      ghost var b := State();
      StateShape(b);
      IsNew(b, pu);
      var objs1, missing1 := CheckParents(State(), mh, pu);
      RegisteredFacts(b, mh, pu, objs1, missing1);
      var objs', missing' := CheckIfMissing(objs1, missing1, x);
      var ready := objs'[x].waitingParents == 0 && objs'[x].missingParents == 0;
      objs, missing, waiting := objs', missing', waiting + {x};
      askedAt := askedAt - {x};
      dispatched := Appended(dispatched, x, ready);
      ghost var mid := State();
      SubmitDone(b, mh, pu, objs1, missing1, mid, ready);
      SubmitKeepsInv(b, mh, pu, mid);
      if objs[x].missingParents > 0 {
        ghost var visited;
        request, visited := FetchMissing(pu, mh, now);
        NotedKeepsInv(mid, State());
        return UnknownParents(objs[x].missingParents), request;
      }
      NothingNoted(mid);
      return Accepted, Nothing;
    }

    /**
     * Notes as missing whatever is between the heights in view and the claims of the preunit, unless it is
     * waiting, and nothing else; asks for what is due, or for gossip if that is too much.
     */
    method FetchMissing(pu: Preunit, mh: seq<int>, now: int) returns (r: Request, ghost visited: nat)
      requires |pu.heights| <= |mh| && forall i :: 0 <= i < |mh| ==> mh[i] >= -1
      modifies this`missing, this`askedAt
      ensures Noted(old(State()), State())
      ensures RequestFor(mh, waiting, Asked(old(askedAt), now, interval), pu, gossipAbove, visited, r)
      ensures forall m :: Wanted(mh, pu, visited, m) ==> m in waiting || m in missing
      ensures forall m :: m in missing ==> m in old(missing) || Wanted(mh, pu, visited, m)
      ensures AskedFor(old(askedAt), now, DueUpTo(mh, waiting, Asked(old(askedAt), now, interval), pu, visited),
          askedAt)
    {
      hide Noted, DueFrom, AskedFor;
      ghost var asked := Asked(askedAt, now, interval);
      NothingNoted(State());
      NothingAsked(askedAt, now);
      var toRequest: seq<Id> := [];
      for creator := 0 to |pu.heights|
        invariant Noted(old(State()), State())
        invariant toRequest == DueUpTo(mh, waiting, asked, pu, creator)
        invariant forall k :: 0 <= k <= creator ==> |DueUpTo(mh, waiting, asked, pu, k)| <= gossipAbove
        invariant forall m :: Wanted(mh, pu, creator, m) ==> m in waiting || m in missing
        invariant forall m :: m in missing ==> m in old(missing) || Wanted(mh, pu, creator, m)
        invariant AskedFor(asked.at, now, toRequest, askedAt)
        invariant forall id :: id in toRequest ==> id.creator < creator
      {
        ghost var before := State();
        var due := FetchSlot(pu, mh, now, creator, asked, toRequest);
        toRequest := toRequest + due;
        NotedTwice(old(State()), before, State());
        if |toRequest| > gossipAbove {
          return Gossip, creator + 1;
        }
      }
      visited := |pu.heights|;
      r := if toRequest == [] then Nothing else Fetch(toRequest);
    }

    /** Goes down from the claim of one slot to the height in view. */
    method FetchSlot(pu: Preunit, mh: seq<int>, now: int, creator: nat, ghost asked: Asked,
        ghost earlier: seq<Id>) returns (due: seq<Id>)
      requires creator < |pu.heights| <= |mh| && mh[creator] >= -1
      requires asked.now == now && asked.interval == interval && AskedFor(asked.at, now, earlier, askedAt)
      requires forall id :: id in earlier ==> id.creator < creator
      modifies this`missing, this`askedAt
      ensures Noted(old(State()), State()) && old(missing.Keys) <= missing.Keys
      ensures due == DueFrom(mh, waiting, asked, creator, pu.heights[creator])
      ensures forall m :: WantedFrom(mh, pu, creator, mh[creator], m) ==> m in waiting || m in missing
      ensures forall m :: m in missing ==> m in old(missing) || WantedFrom(mh, pu, creator, mh[creator], m)
      ensures AskedFor(asked.at, now, earlier + due, askedAt) && forall id :: id in due ==> id.creator == creator
    {
      hide AskedFor, DueFrom, Noted, NotedDownTo, Asked.Due;
      NothingNoted(State());
      NothingWanted(mh, pu, creator, waiting, missing);
      due := [];
      var h := pu.heights[creator];
      assert earlier + due == earlier;
      while h > mh[creator]
        invariant h <= pu.heights[creator] && (h >= mh[creator] || h == pu.heights[creator])
        invariant Noted(old(State()), State())
        invariant NotedDownTo(mh, pu, creator, h, waiting, old(missing), missing)
        invariant DueFrom(mh, waiting, asked, creator, pu.heights[creator]) ==
          due + DueFrom(mh, waiting, asked, creator, h)
        invariant AskedFor(asked.at, now, earlier + due, askedAt)
        invariant forall id :: id in due ==> id.creator == creator && id.height > h
        decreases h - mh[creator]
      {
        var id := Id(creator, h);
        DueNext(mh, waiting, asked, creator, h);
        WantedNext(mh, pu, creator, h, waiting, old(missing), missing);
        if id !in waiting {
          if id !in missing {
            NoteOne(old(State()), State(), id);
            missing := missing[id := []];
          }
          NotAskedYet(asked, now, earlier + due, askedAt, id);
          if id !in askedAt || now - askedAt[id] > interval {
            AskNext(asked.at, now, earlier + due, askedAt, id);
            assert earlier + (due + [id]) == earlier + due + [id];
            due := due + [id];
            askedAt := askedAt[id := now];
          }
        }
        h := h - 1;
      }
      DueEnd(mh, waiting, asked, creator, h);
      WantedEnd(mh, pu, creator, h, waiting, old(missing), missing);
    }

    /**
     * A worker decodes the parents of a preunit it was handed, checks it and inserts it. Never for unknown
     * parents does it fail; the wrong number of claims brings it down.
     */
    method Work(x: Id, acceptable: bool) returns (r: Handled)
      requires Inv(State()) && x in dispatched && x in waiting && x !in dag && x in objs
      modifies this`dag
      ensures Inv(State())
      ensures r.Crashed? <==> |objs[x].pu.heights| != n
      ensures r.Failed? <==> !r.Crashed? && !acceptable
      ensures !r.Added? ==> State() == old(State())
      ensures r.Added? ==> Inserted(old(State()), x, State())
    {
      hide Inv, Parents;
      ghost var b := State();
      if |objs[x].pu.heights| != n {
        return Crashed;
      }
      DispatchedHasParents(b, x);
      var unknown := CountUnknown(objs[x].pu);
      assert Parents(objs[x].pu) - dag == {};
      if unknown > 0 || !acceptable {
        return Failed;
      }
      dag := dag + {x};
      DagGrows(b, x, State());
      return Added;
    }

    /** How many claimed parents are not in the dag. */
    method CountUnknown(pu: Preunit) returns (unknown: nat)
      ensures unknown == |Parents(pu) - dag|
    {
      unknown := 0;
      assert ParentsUpTo(pu, 0) == {};
      for i := 0 to |pu.heights|
        invariant unknown == |ParentsUpTo(pu, i) - dag|
      {
        UnknownStep(pu, i, dag);
        if pu.heights[i] >= 0 && Id(i, pu.heights[i]) !in dag {
          unknown := unknown + 1;
        }
      }
    }

    /**
     * Takes a handled preunit out of the buffer; its children are notified, or purged with it. The purge is
     * for those whose paths down do not repeat: for the others it does not return.
     */
    method Remove(x: Id, failed: bool)
      requires Inv(State()) && x in dispatched && x in waiting && x in objs && (failed <==> x !in dag)
      requires failed ==> NoRepeats(objs, x)
      modifies this
      ensures Inv(State())
      ensures failed ==> Purged(old(State()), x, State())
      ensures !failed ==> Removed(old(State()), x, State())
    {
      hide Inv, ReadyUpTo, LeftWithParent, NoneIn;
      ghost var b := State();
      if failed {
        waiting := RemoveFailed(b, objs, x, waiting, [x]);
        PurgeKeepsInv(b, x, State());
      } else {
        waiting := waiting - {x};
        NotifyChildren(b, x);
        RemoveKeepsInv(b, x, State());
      }
    }

    method NotifyChildren(ghost b: Buffer, x: Id)
      requires Inv(b) && x in objs && objs == b.objs && dispatched == b.dispatched
      modifies this`objs, this`dispatched
      ensures objs.Keys == b.objs.Keys
      ensures forall y :: y in b.objs ==> objs[y] == if y in b.objs[x].children then Notified(b.objs[y]) else b.objs[y]
      ensures (forall y :: y in b.objs[x].children ==> y in objs)
      ensures dispatched == b.dispatched + ReadyUpTo(objs, b.objs[x].children, |b.objs[x].children|)
    {
      hide Inv, ReadyUpTo, Changed, NoDup, IsReady, Notified;
      var list := objs[x].children;
      ChildrenFacts(b, x);
      ReadyNone(objs, list);
      NothingNotified(objs, list);
      for k := 0 to |list|
        invariant Changed(b.objs, objs, list, k, Notified)
        invariant forall y :: y in list ==> y in objs
        invariant dispatched == b.dispatched + ReadyUpTo(objs, list, k)
      {
        assert list[k] in list;
        NotifyNext(b.objs, objs, list, k);
        objs := objs[list[k] := Notified(objs[list[k]])];
        ReadyNext(objs, list, k);
        if IsReady(objs[list[k]]) {
          dispatched := dispatched + [list[k]];
        }
      }
      NotifiedAll(b.objs, objs, list);
    }
  }

  lemma NotifyNext(before: map<Id, Waiting>, objs: map<Id, Waiting>, list: seq<Id>, k: nat)
    requires Changed(before, objs, list, k, Notified) && k < |list| && NoDup(list) && forall y :: y in list ==>
      y in before && y in objs
    ensures Changed(before, objs[list[k] := Notified(objs[list[k]])], list, k + 1, Notified)
    ensures ReadyUpTo(objs[list[k] := Notified(objs[list[k]])], list, k) == ReadyUpTo(objs, list, k)
  {
    hide Changed, ReadyUpTo, Notified;
    ChangeOne(before, objs, list, k, Notified);
    ReadyStable(objs, objs[list[k] := Notified(objs[list[k]])], list, k);
  }

  lemma NotifiedAll(before: map<Id, Waiting>, objs: map<Id, Waiting>, list: seq<Id>)
    requires Changed(before, objs, list, |list|, Notified)
    ensures objs.Keys == before.Keys
    ensures forall y :: y in before ==> objs[y] == if y in list then Notified(before[y]) else before[y]
  {
    hide Notified;
    assert list[..|list|] == list;
  }

  lemma NothingNotified(objs: map<Id, Waiting>, list: seq<Id>)
    ensures Changed(objs, objs, list, 0, Notified)
  {
  }

  lemma ChildrenFacts(b: Buffer, x: Id)
    requires Inv(b) && x in b.objs
    ensures NoDup(b.objs[x].children) && forall y :: y in b.objs[x].children ==> y in b.objs
  {
    assert ObjectValid(b, x);
  }

  lemma ReadyNone(objs: map<Id, Waiting>, list: seq<Id>)
    requires forall y :: y in list ==> y in objs
    ensures ReadyUpTo(objs, list, 0) == []
  {
  }

  lemma ReadyNext(objs: map<Id, Waiting>, list: seq<Id>, k: nat)
    requires k < |list| && forall y :: y in list ==> y in objs
    ensures ReadyUpTo(objs, list, k + 1) == ReadyUpTo(objs, list, k) + if IsReady(objs[list[k]]) then [list[k]] else []
  {
  }

  lemma StateShape(b: Buffer)
    requires Inv(b)
    ensures Shape(b) && b.waiting <= b.objs.Keys
  {
  }

  lemma IsNew(b: Buffer, pu: Preunit)
    requires WellFormed(pu) && pu.ID() !in b.waiting && pu.ID() !in b.dag
    requires pu.ID() in b.objs ==> pu.ID() in b.waiting || pu.ID() in b.dag
    ensures New(b, pu)
  {
  }

  lemma RegisteredFacts(b: Buffer, mh: seq<int>, pu: Preunit, objs: map<Id, Waiting>, missing: map<Id, seq<Id>>)
    requires Shape(b) && New(b, pu) && Registered(b, mh, pu, |pu.heights|, objs, missing)
    ensures var x := pu.ID();
      && x in objs && objs[x].children == []
      && Needs(missing, x) == Needs(b.missing, x)
      && (x in missing ==> NoDup(missing[x]) && x !in missing[x] && forall ch :: ch in missing[x] ==> ch in objs)
  {
    hide WaitingSlots, MissingSlots, Parents, WellFormed;
    var x := pu.ID();
    NotMentioned(b, pu);
    SlotsAreParents(b, mh, pu);
    assert Needs(missing, x) == Appended(Needs(b.missing, x), x, x in MissingSlots(b, mh, pu, |pu.heights|));
    if x in b.missing {
      assert MissingValid(b, x);
    }
  }

  lemma SubmitDone(b: Buffer, mh: seq<int>, pu: Preunit, objs: map<Id, Waiting>, missing: map<Id, seq<Id>>, b': Buffer,
      ready: bool)
    requires Shape(b) && New(b, pu) && Seen(mh, b) && Registered(b, mh, pu, |pu.heights|, objs, missing)
    requires Needs(missing, pu.ID()) == Needs(b.missing, pu.ID())
    requires pu.ID() in objs && b'.missing == missing - {pu.ID()} && b'.objs.Keys == objs.Keys
    requires forall y :: y in objs ==>
      b'.objs[y] == Adopted(objs[y], y == pu.ID(), Needs(missing, pu.ID()), y in Needs(missing, pu.ID()))
    requires b'.waiting == b.waiting + {pu.ID()} && b'.dag == b.dag
    requires pu.ID() in b'.objs
    requires (ready <==> b'.objs[pu.ID()].waitingParents == 0 && b'.objs[pu.ID()].missingParents == 0)
    requires b'.dispatched == Appended(b.dispatched, pu.ID(), ready)
    ensures Submitted(b, mh, pu, b')
    ensures b'.objs[pu.ID()].missingParents == |MissingSlots(b, mh, pu, |pu.heights|)|
  {
    hide WaitingSlots, MissingSlots, Parents, WellFormed, Shape, Seen;
    var x := pu.ID();
    forall y | y in b.objs
      ensures b'.objs[y] ==
        Adopted(NotedChild(b.objs[y],
          x, y in WaitingSlots(b, mh, pu, |pu.heights|)), false, Needs(b.missing, x), y in Needs(b.missing, x))
    {
      assert y != x;
    }
    forall s | s != x ensures Needs(b'.missing, s) == Needs(missing, s) {}
  }

  lemma NothingNoted(b: Buffer)
    ensures Noted(b, b)
  {
  }

  lemma NotedTwice(b: Buffer, b': Buffer, b'': Buffer)
    requires Noted(b, b') && Noted(b', b'')
    ensures Noted(b, b'')
  {
  }

  lemma NoteOne(b: Buffer, b': Buffer, id: Id)
    requires Noted(b, b') && id !in b'.missing && id !in b'.waiting
    ensures Noted(b, b'.(missing := b'.missing[id := []]))
  {
  }

  lemma DueNext(mh: seq<int>, waiting: set<Id>, asked: Asked, creator: nat, h: int)
    requires creator < |mh| && h > mh[creator] >= -1
    ensures DueFrom(mh, waiting, asked, creator, h) ==
      (if Id(creator, h) !in waiting
        && asked.Due(Id(creator, h)) then [Id(creator, h)] else []) + DueFrom(mh, waiting, asked, creator, h - 1)
  {
  }

  /** Down to height `h` what the slot claims is waiting or noted, and nothing else was noted. */
  ghost predicate NotedDownTo(mh: seq<int>, pu: Preunit, creator: nat, h: int, waiting: set<Id>,
      before: map<Id, seq<Id>>, missing: map<Id, seq<Id>>)
    requires creator < |pu.heights| <= |mh|
  {
    && before.Keys <= missing.Keys
    && (forall m :: WantedFrom(mh, pu, creator, h, m) ==> m in waiting || m in missing)
    && (forall m :: m in missing ==> m in before || WantedFrom(mh, pu, creator, h, m))
  }

  lemma NothingWanted(mh: seq<int>, pu: Preunit, creator: nat, waiting: set<Id>, missing: map<Id, seq<Id>>)
    requires creator < |pu.heights| <= |mh|
    ensures NotedDownTo(mh, pu, creator, pu.heights[creator], waiting, missing, missing)
  {
  }

  lemma WantedNext(mh: seq<int>, pu: Preunit, creator: nat, h: nat, waiting: set<Id>,
      before: map<Id, seq<Id>>, missing: map<Id, seq<Id>>)
    requires creator < |pu.heights| <= |mh| && h <= pu.heights[creator]
    requires NotedDownTo(mh, pu, creator, h, waiting, before, missing)
    ensures Id(creator, h) in waiting || Id(creator, h) in missing ==>
      NotedDownTo(mh, pu, creator, h - 1, waiting, before, missing)
    ensures NotedDownTo(mh, pu, creator, h - 1, waiting, before, missing[Id(creator, h) := []])
  {
  }

  lemma WantedEnd(mh: seq<int>, pu: Preunit, creator: nat, h: int, waiting: set<Id>,
      before: map<Id, seq<Id>>, missing: map<Id, seq<Id>>)
    requires creator < |pu.heights| <= |mh| && h <= mh[creator] && (h == mh[creator] || h == pu.heights[creator])
    requires NotedDownTo(mh, pu, creator, h, waiting, before, missing)
    ensures before.Keys <= missing.Keys
    ensures forall m :: WantedFrom(mh, pu, creator, mh[creator], m) ==> m in waiting || m in missing
    ensures forall m :: m in missing ==> m in before || WantedFrom(mh, pu, creator, mh[creator], m)
  {
  }

  lemma DueEnd(mh: seq<int>, waiting: set<Id>, asked: Asked, creator: nat, h: int)
    requires creator < |mh| && -1 <= mh[creator] && h <= mh[creator]
    ensures DueFrom(mh, waiting, asked, creator, h) == []
  {
  }

  lemma NothingAsked(at: map<Id, int>, now: int)
    ensures AskedFor(at, now, [], at)
  {
  }

  lemma NotAskedYet(asked: Asked, now: int, list: seq<Id>, at: map<Id, int>, id: Id)
    requires AskedFor(asked.at, now, list, at) && asked.now == now && id !in list
    ensures asked.Due(id) <==> id !in at || now - at[id] > asked.interval
  {
  }

  lemma AskNext(before: map<Id, int>, now: int, list: seq<Id>, at: map<Id, int>, id: Id)
    requires AskedFor(before, now, list, at)
    ensures AskedFor(before, now, list + [id], at[id := now])
  {
  }
}
