/** A dag with one tolerated forker, all units of which pass the checks, and a unit whose tally misses its decision. */
module ForkedTally {
  import opened Units
  import opened DagOrder
  import Quorums
  import opened PrimeAncestors
  import opened Voting
  import opened Tallies
  import Checks

  /** Four processes, three to a quorum: one of them may fork. */
  const FOUR := Committee(4, 3)

  function Bytes(k: Byte): Hash {
    seq(32, i => k)
  }

  function Dealing(i: nat): Unit
    requires i < 4
  {
    Unit(i, 0, 0, [None, None, None, None], Bytes(i as Byte))
  }

  function Second(i: nat): Unit
    requires i < 4
  {
    Unit(i, 1, 1, [Some(Dealing(0)), Some(Dealing(1)), Some(Dealing(2)), Some(Dealing(3))], Bytes((4 + i) as Byte))
  }

  /** The two branches of process 0, on one predecessor. */
  function Fork(k: nat): Unit
    requires k < 2
  {
    Unit(0, 2, 2, [Some(Second(0)), Some(Second(1)), Some(Second(2)), Some(Second(3))], Bytes((8 + k) as Byte))
  }

  /** Process 1 sees one branch. */
  function Middle(): Unit {
    Unit(1, 2, 2, [Some(Fork(1)), Some(Second(1)), Some(Second(2)), Some(Second(3))], Bytes(12))
  }

  /** Process 2 sees the other one and, through process 1, both. */
  function Top(): Unit {
    Unit(2, 2, 2, [Some(Fork(0)), Some(Middle()), Some(Second(2)), Some(Second(3))], Bytes(13))
  }

  // ------------------------------------------------------------------ what is below what

  lemma BelowFour(u: Unit, v: Unit)
    requires |u.parents| == 4
    ensures Below(u, v) <==>
      || (u.parents[0].Some? && Reach(u.parents[0].value, v)) || (u.parents[1].Some? && Reach(u.parents[1].value, v))
      || (u.parents[2].Some? && Reach(u.parents[2].value, v)) || (u.parents[3].Some? && Reach(u.parents[3].value, v))
  {
    hide Reach;
    forall i | 0 <= i < 4 && u.parents[i].Some? ensures IsParent(u, u.parents[i].value) {}
    if Below(u, v) {
      var p :| IsParent(u, p) && Reach(p, v);
      var i :| 0 <= i < |u.parents| && u.parents[i] == Some(p);
    }
  }

  ghost predicate IsDealing(v: Unit) {
    v == Dealing(0) || v == Dealing(1) || v == Dealing(2) || v == Dealing(3)
  }

  ghost predicate IsSecond(v: Unit) {
    v == Second(0) || v == Second(1) || v == Second(2) || v == Second(3)
  }

  lemma BelowDealing(i: nat, v: Unit)
    requires i < 4
    ensures !Below(Dealing(i), v) && (Reach(Dealing(i), v) <==> v == Dealing(i))
  {
    BelowFour(Dealing(i), v);
    ReachUnfold(Dealing(i), v);
  }

  lemma BelowSecond(i: nat, v: Unit)
    requires i < 4
    ensures Below(Second(i), v) <==> IsDealing(v)
    ensures Reach(Second(i), v) <==> v == Second(i) || IsDealing(v)
  {
    hide Reach, Below;
    BelowFour(Second(i), v);
    ReachUnfold(Second(i), v);
    forall k | 0 <= k < 4 ensures Reach(Dealing(k), v) <==> v == Dealing(k) { BelowDealing(k, v); }
  }

  lemma BelowFork(k: nat, v: Unit)
    requires k < 2
    ensures Below(Fork(k), v) <==> IsSecond(v) || IsDealing(v)
    ensures Reach(Fork(k), v) <==> v == Fork(k) || IsSecond(v) || IsDealing(v)
  {
    hide Reach, Below, IsDealing, Second;
    BelowFour(Fork(k), v);
    ReachUnfold(Fork(k), v);
    forall i | 0 <= i < 4 ensures Reach(Second(i), v) <==> v == Second(i) || IsDealing(v) { BelowSecond(i, v); }
  }

  lemma BelowMiddle(v: Unit)
    ensures Below(Middle(), v) <==> v == Fork(1) || IsSecond(v) || IsDealing(v)
    ensures Reach(Middle(), v) <==> v == Middle() || v == Fork(1) || IsSecond(v) || IsDealing(v)
  {
    hide Reach, Below, IsDealing, Second, Fork;
    BelowFour(Middle(), v);
    ReachUnfold(Middle(), v);
    BelowFork(1, v);
    forall i | 0 <= i < 4 ensures Reach(Second(i), v) <==> v == Second(i) || IsDealing(v) { BelowSecond(i, v); }
  }

  lemma BelowTop(v: Unit)
    ensures Below(Top(), v) <==> v == Fork(0) || v == Fork(1) || v == Middle() || IsSecond(v) || IsDealing(v)
  {
    hide Reach, Below, IsDealing, Second, Fork, Middle;
    BelowFour(Top(), v);
    BelowFork(0, v);
    BelowMiddle(v);
    forall i | 0 <= i < 4 ensures Reach(Second(i), v) <==> v == Second(i) || IsDealing(v) { BelowSecond(i, v); }
  }

  // --------------------------------------------------------------------------- compliance

  lemma LevelOfFour(parents: seq<Option<Unit>>, m: nat, slots: set<nat>)
    requires |parents| == 4 && slots == SlotsOnLevel(parents, m) && slots != {}
    requires forall i :: 0 <= i < 4 && parents[i].Some? ==> parents[i].value.level <= m
    ensures LevelOver(parents, 3) == if |slots| >= 3 then m + 1 else m
  {
    TopLevelIsHighest(parents);
    var i :| i in slots;
    assert parents[i].value.level == m;
  }

  lemma DealingCompliant(i: nat)
    requires i < 4
    ensures Compliant(FOUR, Dealing(i))
  {
    var u := Dealing(i);
    assert SlotsOnLevel(u.parents, 0) == {};
    TopLevelIsHighest(u.parents);
    forall v ensures !Below(u, v) { BelowDealing(i, v); }
    NoSelfForkBelow(u);
  }

  lemma BuildCompliant(u: Unit, m: nat, slots: set<nat>)
    requires |u.parents| == 4 && u.creator < 4 && u.parents[u.creator].Some?
    requires forall i :: 0 <= i < 4 && u.parents[i].Some? ==>
      Compliant(FOUR, u.parents[i].value) && u.parents[i].value.creator == i && u.parents[i].value.level <= m
    requires slots == SlotsOnLevel(u.parents, m) && slots != {} && u.level == if |slots| >= 3 then m + 1 else m
    requires u.height == u.parents[u.creator].value.height + 1 && u.parents[u.creator].value.level < u.level
    requires ParentsConsistent(u.parents) && forall v :: Below(u, v) && v.creator == u.creator ==> OnChain(u, v)
    ensures Compliant(FOUR, u)
  {
    hide Below, ParentsConsistent, NoSelfFork;
    LevelOfFour(u.parents, m, slots);
    NoSelfForkBelow(u);
    forall p | IsParent(u, p) ensures Compliant(FOUR, p) {
      var i :| 0 <= i < |u.parents| && u.parents[i] == Some(p);
    }
    assert BasicallyCorrect(FOUR, u);
    CompliantIsWellBuilt(FOUR, u);
  }

  lemma ShowDealing()
    ensures forall i :: 0 <= i < 4 ==>
      Dealing(i).creator == i && Dealing(i).level == Dealing(i).height == 0 && |Dealing(i).parents| == 4
    ensures forall i :: 0 <= i < 4 ==> Dealing(i).parents == [None, None, None, None]
  {
  }

  lemma ShowSecond()
    ensures forall i :: 0 <= i < 4 ==>
      Second(i).creator == i && Second(i).level == Second(i).height == 1 && |Second(i).parents| == 4
    ensures forall i :: 0 <= i < 4 ==>
      Second(i).parents == [Some(Dealing(0)), Some(Dealing(1)), Some(Dealing(2)), Some(Dealing(3))]
  {
    hide Dealing;
  }

  lemma ShowFork()
    ensures forall i :: 0 <= i < 2 ==>
      Fork(i).creator == 0 && Fork(i).level == Fork(i).height == 2 && |Fork(i).parents| == 4
    ensures forall i :: 0 <= i < 2 ==>
      Fork(i).parents == [Some(Second(0)), Some(Second(1)), Some(Second(2)), Some(Second(3))]
    ensures Fork(0) != Fork(1)
  {
    hide Second;
    assert Fork(0).hash[0] != Fork(1).hash[0];
  }

  lemma SecondCompliant(i: nat)
    requires i < 4
    ensures Compliant(FOUR, Second(i))
  {
    hide Reach, Below, Compliant, Dealing, Second, OnChain;
    ShowDealing();
    ShowSecond();
    var u := Second(i);
    forall k | 0 <= k < 4 ensures Compliant(FOUR, Dealing(k)) { DealingCompliant(k); }
    forall v | Below(u, v) && v.creator == i ensures OnChain(u, v) {
      BelowSecond(i, v);
      ChainOfSecond(i);
    }
    assert SlotsOnLevel(u.parents, 0) == {0, 1, 2, 3};
    BuildCompliant(u, 0, {0, 1, 2, 3});
  }

  lemma ChainOfSecond(i: nat)
    requires i < 4
    ensures OnChain(Second(i), Second(i)) && OnChain(Second(i), Dealing(i))
    ensures forall v :: OnChain(Second(i), v) ==> v == Second(i) || v == Dealing(i)
  {
    assert Predecessor(Second(i)) == Some(Dealing(i));
    assert Predecessor(Dealing(i)) == None;
  }

  lemma ChainOfFork(k: nat)
    requires k < 2
    ensures OnChain(Fork(k), Fork(k)) && OnChain(Fork(k), Second(0)) && OnChain(Fork(k), Dealing(0))
    ensures forall v :: OnChain(Fork(k), v) ==> v == Fork(k) || v == Second(0) || v == Dealing(0)
  {
    hide Dealing, Second;
    assert Predecessor(Fork(k)) == Some(Second(0));
    ChainOfSecond(0);
  }

  lemma ForkCompliant(k: nat)
    requires k < 2
    ensures Compliant(FOUR, Fork(k))
  {
    hide Reach, Below, Compliant, Dealing, Second, Fork, OnChain;
    ShowDealing();
    ShowSecond();
    ShowFork();
    var u := Fork(k);
    forall i | 0 <= i < 4 ensures Compliant(FOUR, Second(i)) { SecondCompliant(i); }
    forall v | Below(u, v) && v.creator == 0 ensures OnChain(u, v) {
      BelowFork(k, v);
      ChainOfFork(k);
    }
    assert SlotsOnLevel(u.parents, 1) == {0, 1, 2, 3};
    BuildCompliant(u, 1, {0, 1, 2, 3});
  }

  lemma ShowMiddle()
    ensures Middle().creator == 1 && Middle().level == Middle().height == 2
    ensures Middle().parents == [Some(Fork(1)), Some(Second(1)), Some(Second(2)), Some(Second(3))]
  {
    hide Fork, Second;
  }

  lemma ShowTop()
    ensures Top().creator == 2 && Top().level == Top().height == 2
    ensures Top().parents == [Some(Fork(0)), Some(Middle()), Some(Second(2)), Some(Second(3))]
  {
    hide Fork, Second, Middle;
  }

  lemma ChainOfMiddle()
    ensures OnChain(Middle(), Middle()) && OnChain(Middle(), Second(1)) && OnChain(Middle(), Dealing(1))
  {
    hide Dealing, Second, Fork;
    assert Predecessor(Middle()) == Some(Second(1));
    ChainOfSecond(1);
  }

  lemma ChainOfTop()
    ensures OnChain(Top(), Top()) && OnChain(Top(), Second(2)) && OnChain(Top(), Dealing(2))
  {
    hide Dealing, Second, Fork, Middle;
    assert Predecessor(Top()) == Some(Second(2));
    ChainOfSecond(2);
  }

  lemma MiddleCompliant()
    ensures Compliant(FOUR, Middle())
  {
    hide Reach, Below, Compliant, Dealing, Second, Fork, Middle, OnChain;
    ShowDealing();
    ShowSecond();
    ShowFork();
    ShowMiddle();
    var u := Middle();
    forall i | 0 <= i < 4 ensures Compliant(FOUR, Second(i)) { SecondCompliant(i); }
    ForkCompliant(1);
    forall v | Below(u, v) && v.creator == 1 ensures OnChain(u, v) {
      BelowMiddle(v);
      ChainOfMiddle();
    }
    assert SlotsOnLevel(u.parents, 2) == {0};
    BuildCompliant(u, 2, {0});
  }

  lemma TopCompliant()
    ensures Compliant(FOUR, Top())
  {
    hide Reach, Below, Compliant, Dealing, Second, Fork, Middle, Top, OnChain;
    ShowDealing();
    ShowSecond();
    ShowFork();
    ShowMiddle();
    ShowTop();
    var u := Top();
    forall i | 0 <= i < 4 ensures Compliant(FOUR, Second(i)) { SecondCompliant(i); }
    ForkCompliant(0);
    MiddleCompliant();
    forall v | Below(u, v) && v.creator == 2 ensures OnChain(u, v) {
      BelowTop(v);
      ChainOfTop();
    }
    assert SlotsOnLevel(u.parents, 2) == {0, 1};
    BuildCompliant(u, 2, {0, 1});
  }

  // ----------------------------------------------------------------------- the whole dag

  function AllUnits(): set<Unit> {
    { Dealing(0), Dealing(1), Dealing(2), Dealing(3), Second(0), Second(1), Second(2), Second(3),
      Fork(0), Fork(1), Middle(), Top() }
  }

  /** Only process 0 forks, which is tolerated. */
  lemma OneForker()
    ensures World(FOUR, AllUnits())
  {
    hide Compliant, Dealing, Second, Fork, Middle, Top, OnChain;
    AllCompliant();
    AllClosed();
    forall pid | pid in Forkers(FOUR, AllUnits()) ensures pid == 0 {
      var u, v :| u in AllUnits() && v in AllUnits() && ForkPair(pid, u, v);
      if pid != 0 {
        ChainsElsewhere(u, v);
      }
    }
    assert Forkers(FOUR, AllUnits()) <= {0};
    Quorums.SubsetSize(Forkers(FOUR, AllUnits()), {0});
  }

  lemma AllCompliant()
    ensures forall u :: u in AllUnits() ==> Compliant(FOUR, u)
  {
    hide Compliant, Dealing, Second, Fork, Middle, Top;
    forall i | 0 <= i < 4 ensures Compliant(FOUR, Dealing(i)) && Compliant(FOUR, Second(i)) {
      DealingCompliant(i);
      SecondCompliant(i);
    }
    ForkCompliant(0);
    ForkCompliant(1);
    MiddleCompliant();
    TopCompliant();
  }

  lemma OneOfFour(u: Unit, p: Unit)
    requires |u.parents| == 4 && IsParent(u, p)
    ensures Some(p) in {u.parents[0], u.parents[1], u.parents[2], u.parents[3]}
  {
    var i :| 0 <= i < |u.parents| && u.parents[i] == Some(p);
  }

  lemma AllClosed()
    ensures ParentClosed(AllUnits())
  {
    hide Dealing, Second, Fork, Middle, Top, IsParent;
    ShowDealing();
    ShowSecond();
    ShowFork();
    ShowMiddle();
    ShowTop();
    forall u, p | u in AllUnits() && IsParent(u, p) ensures p in AllUnits() {
      OneOfFour(u, p);
    }
  }

  lemma ChainsElsewhere(u: Unit, v: Unit)
    requires u in AllUnits() && v in AllUnits() && u.creator == v.creator != 0
    ensures OnChain(u, v) || OnChain(v, u)
  {
    hide Dealing, Second, Fork, Middle, Top;
    ShowDealing();
    ShowSecond();
    ShowFork();
    ShowMiddle();
    ShowTop();
    ChainOfSecond(1);
    ChainOfSecond(2);
    ChainOfSecond(3);
    ChainOfMiddle();
    ChainOfTop();
  }

  // --------------------------------------------------------------------------- the tally

  function Floors(): seq<seq<Unit>> {
    [[Fork(0), Fork(1)], [Middle()], [Second(2)], [Second(3)]]
  }

  lemma FloorsOfTop()
    ensures IsFloors(FOUR, Top(), Floors())
  {
    hide Dealing, Second, Fork, Middle, Top, OnChain, Below;
    ShowDealing();
    ShowSecond();
    ShowFork();
    ShowMiddle();
    ChainOfFork(0);
    ChainOfFork(1);
    ChainOfMiddle();
    ChainOfSecond(2);
    ChainOfSecond(3);
    forall pid | 0 <= pid < 4 ensures IsFloor(Top(), pid, Floors()[pid]) {
      var f := Floors()[pid];
      forall v
        ensures Below(Top(), v) <==>
          v == Fork(0) || v == Fork(1) || v == Middle() || IsSecond(v) || IsDealing(v) { BelowTop(v); }
      forall v | Below(Top(), v) && v.creator == pid ensures Covers(f, v) {
        assert OnChain(f[0], v) || (pid == 0 && OnChain(f[1], v));
      }
    }
  }

  /** Both branches land on the same unit. */
  lemma LandingsOfTop()
    ensures Landings(Floors()[0], 1) == [Second(0), Second(0)] && Landings(Floors()[1], 1) == [Second(1)]
    ensures Landings(Floors()[2], 1) == [Second(2)] && Landings(Floors()[3], 1) == [Second(3)]
  {
    hide Dealing, Second, Fork, Middle;
    ShowSecond();
    ShowFork();
    ShowMiddle();
    assert Predecessor(Fork(0)) == Some(Second(0)) && Predecessor(Fork(1)) == Some(Second(0));
    assert Predecessor(Middle()) == Some(Second(1));
    assert Landing(Fork(0), 1) == Landing(Fork(1), 1) == Some(Second(0)) && Landing(Middle(), 1) == Some(Second(1));
    assert Landing(Second(2), 1) == Some(Second(2)) && Landing(Second(3), 1) == Some(Second(3));
    var two := Floors()[0];
    assert two[..1] == [Fork(0)] && two[..0] == [];
    LandingsOfOne(Fork(0), 1);
    LandingsOfOne(Middle(), 1);
    LandingsOfOne(Second(2), 1);
    LandingsOfOne(Second(3), 1);
  }

  lemma LandingsOfOne(f: Unit, l: nat)
    ensures Landings([f], l) == if Landing(f, l).Some? then [Landing(f, l).value] else []
  {
    assert [f][..0] == [];
  }

  lemma VoteOfSecond(cfg: Config, i: nat)
    requires cfg.Valid() && i < 4
    ensures Eff(cfg, Dealing(0), Second(i)) == Popular
  {
    BelowSecond(i, Dealing(0));
  }

  lemma LookedAtEqual(votes: seq<Vote>)
    requires forall v :: v in votes ==> v == Popular
    ensures Looked(votes) == votes
  {
    var k := Stop(votes, 0);
    assert forall v :: v in votes[..k] ==> v in votes;
    assert votes[..|votes|] == votes;
  }

  lemma BallotsOfTop(cfg: Config)
    requires cfg.Valid() && cfg.committee == FOUR
    ensures Top().level == 2
    ensures Ballots(cfg, Dealing(0), Top(), Floors(), 4) ==
      [Ballot(0, Popular), Ballot(0, Popular), Ballot(1, Popular), Ballot(2, Popular), Ballot(3, Popular)]
  {
    hide Dealing, Second, Fork, Middle, Landings, Eff, Looked;
    LandingsOfTop();
    var uc := Dealing(0);
    forall i | 0 <= i < 4 ensures Eff(cfg, uc, Second(i)) == Popular { VoteOfSecond(cfg, i); }
    var f := Floors();
    forall pid | 0 <= pid < 4
      ensures Looked(BranchVotes(cfg, uc, Top(), f, pid)) == if pid == 0 then [Popular, Popular] else [Popular]
    {
      LookedAtEqual(BranchVotes(cfg, uc, Top(), f, pid));
    }
    assert Ballots(cfg, uc, Top(), f, 0) == [];
    assert Ballots(cfg, uc, Top(), f, 1) == [Ballot(0, Popular), Ballot(0, Popular)];
    assert Ballots(cfg, uc, Top(), f, 2) == [Ballot(0, Popular), Ballot(0, Popular), Ballot(1, Popular)];
    assert Ballots(cfg, uc, Top(), f, 3) ==
      [Ballot(0, Popular), Ballot(0, Popular), Ballot(1, Popular), Ballot(2, Popular)];
  }

  lemma CrowdedBallots(s: seq<Ballot>)
    requires s == [Ballot(0, Popular), Ballot(0, Popular), Ballot(1, Popular), Ballot(2, Popular), Ballot(3, Popular)]
    ensures Crowded(s, 3) && VotersIn(s, Popular) == {0, 1, 2, 3}
  {
    hide VotersIn, Count;
    ThreeBallots(s);
    FourVoters(s);
    assert s[..3][0].pid == s[..3][1].pid;
    assert !OneEach(s[..3], Popular);
  }

  lemma ThreeBallots(s: seq<Ballot>)
    requires |s| >= 3 && s[0].vote == s[1].vote == s[2].vote == Popular
    ensures FirstQuorum(s, 3, 2)
  {
    assert s[..1] == [] + [s[0]] && s[..2] == s[..1] + [s[1]] && s[..3] == s[..2] + [s[2]];
    CountNext([], s[0]);
    CountNext(s[..1], s[1]);
    CountNext(s[..2], s[2]);
  }

  lemma FourVoters(s: seq<Ballot>)
    requires |s| == 5 && s[0] == s[1] == Ballot(0, Popular)
    requires s[2] == Ballot(1, Popular) && s[3] == Ballot(2, Popular) && s[4] == Ballot(3, Popular)
    ensures VotersIn(s, Popular) == {0, 1, 2, 3}
  {
    forall p: nat ensures p in VotersIn(s, Popular) <==> p < 4 {
      if p < 4 {
        assert s[p + 1].pid == p;
      }
    }
  }

  lemma CountNext(s: seq<Ballot>, b: Ballot)
    ensures forall v :: Count(s + [b], v) == Count(s, v) + if b.vote == v then 1 else 0
  {
    assert (s + [b])[..|s|] == s;
  }

  /**
   * Every process has exactly one prime ancestor and all of them vote for the candidate, yet the count ends undecided:
   * process 0 is counted twice, once for each branch.
   */
  lemma MissedDecision(cfg: Config)
    requires cfg.Valid() && cfg.committee == FOUR
    ensures World(FOUR, AllUnits()) && Top() in AllUnits() && forall u :: u in AllUnits() ==> Checks.MutesForkers(u)
    ensures Countable(cfg, Dealing(0), Top(), Floors()) && Decides(cfg, Dealing(0), Top(), Popular)
    ensures Announced(Ballots(cfg, Dealing(0), Top(), Floors(), 4), 3) == Undecided
  {
    hide Dealing, Second, Fork, Middle, World, Compliant, IsFloor, Checks.MutesForkers, Announced, Crowded, Ballots,
      SeesVoter, VotersIn;
    OneForker();
    forall u | u in AllUnits() ensures Checks.MutesForkers(u) { AllMuteForkers(u); }
    TopCompliant();
    FloorsOfTop();
    BallotsOfTop(cfg);
    DealingLevel();
    var s := Ballots(cfg, Dealing(0), Top(), Floors(), 4);
    CrowdedBallots(s);
    BallotVoters(cfg, Dealing(0), Top(), Floors(), 4, Popular);
    assert VotersFor(cfg, Dealing(0), Top(), Popular) == {0, 1, 2, 3};
    TallyIsExact(cfg, Dealing(0), Top(), Floors());
  }

  /** No unit that is a parent proves the fork. */
  lemma NothingProven(p: Unit, j: nat)
    requires IsDealing(p) || IsSecond(p) || p == Fork(0) || p == Fork(1) || p == Middle()
    requires j < 4
    ensures !ForkSeen(p, j)
  {
    hide Dealing, Second, Fork, Middle, OnChain, Below;
    ShowDealing();
    ShowSecond();
    ShowFork();
    ShowMiddle();
    ChainOfSecond(j);
    ChainOfDealing(j);
    ChainOfFork(1);
    forall v | p.height != 0 && Below(p, v) && v.creator == j ensures OnChain(p.parents[j].value, v) {
      if IsSecond(p) {
        BelowSecond(p.creator, v);
      } else if p == Middle() {
        BelowMiddle(v);
      } else {
        BelowFork(0, v);
        BelowFork(1, v);
      }
    }
  }

  lemma ChainOfDealing(i: nat)
    requires i < 4
    ensures OnChain(Dealing(i), Dealing(i))
  {
  }

  /** Nor is the fork one that the checks would reject: every unit of the dag mutes forkers. */
  lemma AllMuteForkers(u: Unit)
    requires u in AllUnits()
    ensures Checks.MutesForkers(u)
  {
    hide Dealing, Second, Fork, Middle, Top, ForkSeen;
    ShowDealing();
    ShowSecond();
    ShowFork();
    ShowMiddle();
    ShowTop();
    forall i, j | 0 <= i < 4 && 0 <= j < 4 && u.parents[i].Some? ensures !ForkSeen(u.parents[i].value, j) {
      NothingProven(u.parents[i].value, j);
    }
  }

  lemma DealingLevel()
    ensures Dealing(0).level == 0
  {
  }
}
