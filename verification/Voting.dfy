/** Virtual voting on whether a unit is popular, and why all nodes reach the same decision. */
module Voting {
  import opened Units
  import opened Quorums
  import opened PrimeAncestors

  datatype Vote = Popular | Unpopular | Undecided

  const FIRST_VOTING_ROUND := 1

  /**
   * What all nodes share: the committee, the voting constants, and the randomness. `rand(l)` is the
   * value of the random source on level `l`; `shake` is the hash behind the random permutation.
   */
  datatype Config = Config(
    committee: Committee,
    zeroRound: nat,
    deterministicPrefix: nat,
    firstDecidingRound: nat,
    startLevel: nat,
    fixedPrefix: nat,
    rand: nat -> seq<Byte>,
    shake: seq<Byte> -> Hash)
  {
    ghost predicate Valid() {
      && committee.Valid()
      && 2 <= zeroRound <= deterministicPrefix
      && zeroRound <= firstDecidingRound
      && forall l :: |rand(l)| > 0
    }
  }

  /** The vote shared by a whole level: fixed in the first rounds, a coin toss afterwards. */
  ghost function CommonVote(cfg: Config, uc: Unit, level: nat): Vote
    requires cfg.Valid()
  {
    var round := level - uc.level;
    if round <= FIRST_VOTING_ROUND then Undecided
    else if round <= cfg.deterministicPrefix then
      if round == cfg.zeroRound then Unpopular else Popular
    else if cfg.rand(level + 1)[0] & 1 == 0 then Popular
    else Unpopular
  }

  // ------------------------------------------------------- the plain definition

  /** All prime ancestors of `u` (there is one) take `v` to the next level. */
  ghost predicate Unanimous(cfg: Config, uc: Unit, u: Unit, v: Vote)
    requires cfg.Valid()
    decreases u.level, 0
  {
    && (exists w :: PrimeBelow(u, w))
    && forall w :: PrimeBelow(u, w) ==> Eff(cfg, uc, w) == v
  }

  /** The vote of `u`, by exhaustive unanimity over the level below. */
  ghost function VoteOf(cfg: Config, uc: Unit, u: Unit): Vote
    requires cfg.Valid()
    decreases u.level, 1
  {
    if u.level < uc.level + FIRST_VOTING_ROUND then Undecided
    else if u.level == uc.level + FIRST_VOTING_ROUND then (if Reach(u, uc) then Popular else Unpopular)
    else if Unanimous(cfg, uc, u, Popular) then Popular
    else if Unanimous(cfg, uc, u, Unpopular) then Unpopular
    else Undecided
  }

  /** The vote `w` passes on: the common vote of its level in place of an undecided one. */
  ghost function Eff(cfg: Config, uc: Unit, w: Unit): Vote
    requires cfg.Valid()
    decreases w.level, 2
  {
    var v := VoteOf(cfg, uc, w);
    if v == Undecided then CommonVote(cfg, uc, w.level) else v
  }

  /** From the first voting round on, what a unit passes on is never undecided. */
  lemma EffIsDecided(cfg: Config, uc: Unit, w: Unit)
    requires cfg.Valid() && w.level >= uc.level + FIRST_VOTING_ROUND
    ensures Eff(cfg, uc, w) != Undecided
  {
  }

  ghost predicate SeesVoter(cfg: Config, uc: Unit, u: Unit, v: Vote, pid: nat)
    requires cfg.Valid()
  {
    exists w :: PrimeBelow(u, w) && w.creator == pid && Eff(cfg, uc, w) == v
  }

  /** The processes from which `u` sees a vote `v` one level down. */
  ghost function VotersFor(cfg: Config, uc: Unit, u: Unit, v: Vote): set<nat>
    requires cfg.Valid()
  {
    set pid: nat | pid < cfg.committee.n && SeesVoter(cfg, uc, u, v, pid)
  }

  /** `u` sees a quorum for `v`. */
  ghost predicate Decides(cfg: Config, uc: Unit, u: Unit, v: Vote)
    requires cfg.Valid()
  {
    |VotersFor(cfg, uc, u, v)| >= cfg.committee.q
  }

  /** `x` settles the popularity of `uc`: it decides `v` and `v` is also the common vote of its level. */
  ghost predicate Settles(cfg: Config, uc: Unit, x: Unit, v: Vote)
    requires cfg.Valid()
  {
    && v != Undecided
    && x.level >= uc.level + FIRST_VOTING_ROUND + 1
    && Decides(cfg, uc, x, v)
    && CommonVote(cfg, uc, x.level) == v
  }

  // ------------------------------------------------------------------ the world

  /** Two units of `pid`, neither on the other's chain. */
  ghost predicate Forked(world: set<Unit>, pid: nat) {
    exists u, v {:trigger ForkPair(pid, u, v)} :: u in world && v in world && ForkPair(pid, u, v)
  }

  ghost predicate ForkPair(pid: nat, u: Unit, v: Unit) {
    u.creator == pid && v.creator == pid && !OnChain(u, v) && !OnChain(v, u)
  }

  ghost function Forkers(c: Committee, world: set<Unit>): set<nat> {
    set pid: nat | pid < c.n && Forked(world, pid)
  }

  ghost predicate ParentClosed(units: set<Unit>) {
    forall u, p :: u in units && IsParent(u, p) ==> p in units
  }

  /** All units ever made: compliant, parent-closed, with fewer than 2q - n forking creators. */
  ghost predicate World(c: Committee, world: set<Unit>) {
    && c.Valid()
    && ParentClosed(world)
    && (forall u :: u in world ==> Compliant(c, u))
    && |Forkers(c, world)| + c.n < 2 * c.q
  }

  lemma {:induction false} ClosedUnderReach(units: set<Unit>, u: Unit, v: Unit)
    requires ParentClosed(units) && u in units && Reach(u, v)
    ensures v in units
    decreases u
  {
    if u != v {
      ReachUnfold(u, v);
      var p :| IsParent(u, p) && Reach(p, v);
      ParentIsSmaller(u, p);
      ClosedUnderReach(units, p, v);
    }
  }

  lemma BelowInWorld(c: Committee, world: set<Unit>, u: Unit, w: Unit)
    requires World(c, world) && u in world && Below(u, w)
    ensures w in world && Compliant(c, w)
  {
    ReachUnfold(u, w);
    ClosedUnderReach(world, u, w);
  }

  /** A process that does not fork has at most one unit per level. */
  lemma HonestUnique(c: Committee, world: set<Unit>, u: Unit, v: Unit)
    requires World(c, world) && u in world && v in world
    requires u.creator == v.creator && u.creator !in Forkers(c, world) && u.level == v.level
    ensures u == v
  {
    assert Compliant(c, u);
    assert !ForkPair(u.creator, u, v);
    if OnChain(u, v) {
      ChainFacts(c, u, v);
    } else {
      assert Compliant(c, v);
      ChainFacts(c, v, u);
    }
  }

  // --------------------------------------------------------- decision agreement

  /** A quorum of votes seen by `x` reaches into what any other unit of that level sees. */
  lemma SharedVoter(cfg: Config, world: set<Unit>, uc: Unit, x: Unit, y: Unit, v: Vote,
      seen: set<nat>) returns (w: Unit)
    requires cfg.Valid() && World(cfg.committee, world) && x in world && y in world && x.level == y.level
    requires Decides(cfg, uc, x, v)
    requires seen <= AncestorCreators(cfg.committee, y) && |seen| >= cfg.committee.q
    ensures PrimeBelow(y, w) && w.creator in seen && Eff(cfg, uc, w) == v
    ensures forall z :: PrimeBelow(y, z) && z.creator == w.creator ==> z == w
  {
    hide Compliant, Below, Eff, ParentClosed;
    var c := cfg.committee;
    var voters := VotersFor(cfg, uc, x, v);
    var pid := Intersect(c.n, voters, seen, Forkers(c, world));
    w :| PrimeBelow(x, w) && w.creator == pid && Eff(cfg, uc, w) == v;
    BelowInWorld(c, world, x, w);
    forall z | PrimeBelow(y, z) && z.creator == pid
      ensures z == w
    {
      BelowInWorld(c, world, y, z);
      HonestUnique(c, world, w, z);
    }
    assert SeesCreator(y, pid);
  }

  /** Once `v` is settled on a level, no unit of that level votes against it. */
  lemma SettledLevel(cfg: Config, world: set<Unit>, uc: Unit, x: Unit, v: Vote, y: Unit)
    requires cfg.Valid() && World(cfg.committee, world) && x in world && Settles(cfg, uc, x, v)
    requires y in world && y.level == x.level
    ensures VoteOf(cfg, uc, y) == v || VoteOf(cfg, uc, y) == Undecided
    ensures Eff(cfg, uc, y) == v
  {
    hide Compliant, Below, ParentClosed, Decides;
    assert Compliant(cfg.committee, y);
    QuorumBelow(cfg.committee, y);
    var w := SharedVoter(cfg, world, uc, x, y, v, AncestorCreators(cfg.committee, y));
  }

  lemma UnanimousVote(cfg: Config, uc: Unit, y: Unit, v: Vote, z: Unit)
    requires cfg.Valid() && v != Undecided && y.level > uc.level + FIRST_VOTING_ROUND && PrimeBelow(y, z)
    requires forall w :: PrimeBelow(y, w) ==> Eff(cfg, uc, w) == v
    ensures VoteOf(cfg, uc, y) == v && Eff(cfg, uc, y) == v
  {
    assert Unanimous(cfg, uc, y, v);
    assert Eff(cfg, uc, z) == v;
  }

  /** Once `v` is settled, every unit on a higher level votes `v`. */
  lemma {:induction false} SettledAbove(cfg: Config, world: set<Unit>, uc: Unit, x: Unit, v: Vote, y: Unit)
    requires cfg.Valid() && World(cfg.committee, world) && x in world && Settles(cfg, uc, x, v)
    requires y in world && y.level >= x.level
    ensures Eff(cfg, uc, y) == v
    ensures y.level > x.level ==> VoteOf(cfg, uc, y) == v
    decreases y.level
  {
    if y.level == x.level {
      SettledLevel(cfg, world, uc, x, v, y);
    } else {
      assert Compliant(cfg.committee, y);
      var z := SomePrimeBelow(cfg.committee, y);
      forall w | PrimeBelow(y, w)
        ensures Eff(cfg, uc, w) == v
      {
        BelowInWorld(cfg.committee, world, y, w);
        SettledAbove(cfg, world, uc, x, v, w);
      }
      UnanimousVote(cfg, uc, y, v, z);
    }
  }

  lemma SettledFirst(cfg: Config, world: set<Unit>, uc: Unit, x: Unit, v: Vote, y: Unit, v': Vote)
    requires cfg.Valid() && World(cfg.committee, world) && x in world && y in world
    requires Settles(cfg, uc, x, v) && Settles(cfg, uc, y, v') && x.level <= y.level
    ensures v == v'
  {
    hide Compliant, Below, ParentClosed, Eff;
    var voters := VotersFor(cfg, uc, y, v');
    if x.level == y.level {
      forall pid | pid in voters ensures pid in AncestorCreators(cfg.committee, y) {
        assert SeesVoter(cfg, uc, y, v', pid);
      }
      var w := SharedVoter(cfg, world, uc, x, y, v, voters);
      assert SeesVoter(cfg, uc, y, v', w.creator);
    } else {
      assert voters != {};
      var pid :| pid in voters;
      var w :| PrimeBelow(y, w) && w.creator == pid && Eff(cfg, uc, w) == v';
      BelowInWorld(cfg.committee, world, y, w);
      SettledAbove(cfg, world, uc, x, v, w);
    }
  }

  /** No two units, in whatever views, settle the popularity of a candidate differently. */
  lemma DecisionAgreement(cfg: Config, world: set<Unit>, uc: Unit, x: Unit, v: Vote, y: Unit, v': Vote)
    requires cfg.Valid() && World(cfg.committee, world) && x in world && y in world
    requires Settles(cfg, uc, x, v) && Settles(cfg, uc, y, v')
    ensures v == v'
  {
    if x.level <= y.level {
      SettledFirst(cfg, world, uc, x, v, y, v');
    } else {
      SettledFirst(cfg, world, uc, y, v', x, v);
    }
  }

  // ------------------------------------------------------- when a decision counts

  lemma NotUnanimous(cfg: Config, uc: Unit, u: Unit, w: Unit, z: Unit)
    requires cfg.Valid() && u.level > uc.level + FIRST_VOTING_ROUND
    requires PrimeBelow(u, w) && PrimeBelow(u, z) && Eff(cfg, uc, w) != Eff(cfg, uc, z)
    ensures VoteOf(cfg, uc, u) == Undecided
  {
    hide Eff, Below;
  }

  /** A unit that sees two votes passes on a fixed one in the deterministic rounds, and the toss afterwards. */
  lemma MixedPassesOn(cfg: Config, uc: Unit, w: Unit, a: Unit, b: Unit)
    requires cfg.Valid() && w.level >= uc.level + 2
    requires PrimeBelow(w, a) && PrimeBelow(w, b) && Eff(cfg, uc, a) != Eff(cfg, uc, b)
    ensures w.level <= uc.level + cfg.deterministicPrefix ==>
      (Eff(cfg, uc, w) == Popular <==> w.level != uc.level + cfg.zeroRound)
    ensures w.level > uc.level + cfg.deterministicPrefix ==>
      (Eff(cfg, uc, w) == Popular <==> cfg.rand(w.level + 1)[0] & 1 == 0)
    ensures Eff(cfg, uc, w) == Popular || Eff(cfg, uc, w) == Unpopular
  {
    hide PrimeBelow, VoteOf;
    NotUnanimous(cfg, uc, w, a, b);
  }

  /**
   * A unit that decides `v` settles it exactly as follows: in the deterministic rounds, `v` is unpopular in the zero
   * round and popular in the others; afterwards, the low bit of the random bytes of the next level is 0 for popular
   * and 1 for unpopular.
   */
  lemma SettlesOnSchedule(cfg: Config, uc: Unit, x: Unit, v: Vote)
    requires cfg.Valid() && v != Undecided && Decides(cfg, uc, x, v)
    ensures Settles(cfg, uc, x, v) <==>
      && x.level >= uc.level + 2
      && if x.level <= uc.level + cfg.deterministicPrefix
         then v == (if x.level == uc.level + cfg.zeroRound then Unpopular else Popular)
         else cfg.rand(x.level + 1)[0] & 1 == (if v == Popular then 0 else 1)
  {
    var b := cfg.rand(x.level + 1)[0];
    assert b & 1 == 0 || b & 1 == 1;
  }

  lemma SeenVote(cfg: Config, uc: Unit, w: Unit)
    requires cfg.Valid() && Reach(w, uc) && w.level == uc.level + 1
    ensures Eff(cfg, uc, w) == Popular
  {
    hide Reach;
  }

  /** A unit two levels above the candidate, all of whose prime ancestors see it, finds a quorum for popular. */
  lemma SeenByAllDecides(cfg: Config, uc: Unit, x: Unit)
    requires cfg.Valid() && Compliant(cfg.committee, x) && x.level == uc.level + 2
    requires forall w :: PrimeBelow(x, w) ==> Reach(w, uc)
    ensures Decides(cfg, uc, x, Popular) && !Decides(cfg, uc, x, Unpopular)
  {
    hide Compliant, Below, Reach, Eff;
    forall w | PrimeBelow(x, w) ensures Eff(cfg, uc, w) == Popular {
      SeenVote(cfg, uc, w);
    }
    forall pid | pid in AncestorCreators(cfg.committee, x)
      ensures pid in VotersFor(cfg, uc, x, Popular)
    {
      var w :| PrimeBelow(x, w) && w.creator == pid;
      assert SeesVoter(cfg, uc, x, Popular, pid);
    }
    QuorumBelow(cfg.committee, x);
    SubsetSize(AncestorCreators(cfg.committee, x), VotersFor(cfg, uc, x, Popular));
    assert VotersFor(cfg, uc, x, Unpopular) == {};
  }

  // ------------------------------------------------- what a popular unit implies

  /** A unit that does not see the candidate votes against it on every level. */
  lemma {:induction false} BlindVote(cfg: Config, uc: Unit, y: Unit)
    requires cfg.Valid() && Compliant(cfg.committee, y) && !Reach(y, uc)
    requires y.level >= uc.level + FIRST_VOTING_ROUND
    ensures VoteOf(cfg, uc, y) == Unpopular
    decreases y.level
  {
    if y.level > uc.level + FIRST_VOTING_ROUND {
      var z := SomePrimeBelow(cfg.committee, y);
      forall w | PrimeBelow(y, w)
        ensures Eff(cfg, uc, w) == Unpopular
      {
        BlindBelow(cfg, uc, y, w);
        BlindVote(cfg, uc, w);
      }
      UnanimousVote(cfg, uc, y, Unpopular, z);
    }
  }

  lemma BlindBelow(cfg: Config, uc: Unit, y: Unit, w: Unit)
    requires Compliant(cfg.committee, y) && !Reach(y, uc) && PrimeBelow(y, w)
    ensures Compliant(cfg.committee, w) && !Reach(w, uc)
  {
    ReachUnfold(y, w);
    CompliantBelow(cfg.committee, y, w);
    if Reach(w, uc) {
      ReachTransitive(y, w, uc);
    }
  }

  /** On the level of the zero common vote, a unit that does not see the candidate settles it as unpopular. */
  lemma BlindSettles(cfg: Config, uc: Unit, y: Unit)
    requires cfg.Valid() && Compliant(cfg.committee, y) && !Reach(y, uc)
    requires y.level == uc.level + cfg.zeroRound
    ensures Settles(cfg, uc, y, Unpopular) && !Decides(cfg, uc, y, Popular)
  {
    forall w | PrimeBelow(y, w) ensures Eff(cfg, uc, w) == Unpopular {
      BlindBelow(cfg, uc, y, w);
      BlindVote(cfg, uc, w);
    }
    assert VotersFor(cfg, uc, y, Popular) == {};
    forall pid | pid in AncestorCreators(cfg.committee, y)
      ensures pid in VotersFor(cfg, uc, y, Unpopular)
    {
      var w :| PrimeBelow(y, w) && w.creator == pid;
      assert SeesVoter(cfg, uc, y, Unpopular, pid);
    }
    QuorumBelow(cfg.committee, y);
    SubsetSize(AncestorCreators(cfg.committee, y), VotersFor(cfg, uc, y, Unpopular));
  }

  /** Every unit at least `zeroRound` levels above a popular unit sees it. */
  lemma PopularIsSeen(cfg: Config, world: set<Unit>, uc: Unit, x: Unit, y: Unit)
    requires cfg.Valid() && World(cfg.committee, world) && x in world && y in world
    requires Settles(cfg, uc, x, Popular) && y.level >= uc.level + cfg.zeroRound
    ensures Reach(y, uc)
  {
    var w := LevelsPopulated(cfg.committee, y, uc.level + cfg.zeroRound);
    ClosedUnderReach(world, y, w);
    if !Reach(w, uc) {
      BlindSettles(cfg, uc, w);
      DecisionAgreement(cfg, world, uc, x, Popular, w, Unpopular);
    }
    ReachTransitive(y, w, uc);
  }
}
