/** The voter and the decider: memoised, short-circuited, and equal to the plain definition. */
module Deciding {
  import opened Units
  import opened DagOrder
  import opened PrimeAncestors
  import opened Voting
  import opened DagViews
  import opened Tallies

  /** If the common vote of `level` tosses the coin, the bytes for it are there. */
  ghost predicate CoinReady(cfg: Config, uc: Unit, store: seq<seq<Byte>>, level: int) {
    level > uc.level + cfg.deterministicPrefix ==> level + 1 < |store|
  }

  /** Some unit of the view settles `uc` as `v`. */
  ghost predicate SettledIn(cfg: Config, uc: Unit, units: set<Unit>, v: Vote)
    requires cfg.Valid()
  {
    exists x :: x in units && Settles(cfg, uc, x, v)
  }

  /** Some unit of the view on the given level settles `uc` as `v`. */
  ghost predicate SettledOn(cfg: Config, uc: Unit, units: set<Unit>, level: int, v: Vote)
    requires cfg.Valid()
  {
    exists x :: x in units && x.level == level && Settles(cfg, uc, x, v)
  }

  /** The count at `x` stops with two ballots of one process among the first quorum. */
  ghost predicate Overcounted(cfg: Config, uc: Unit, x: Unit) {
    exists floors :: Countable(cfg, uc, x, floors)
      && Crowded(Ballots(cfg, uc, x, floors, cfg.committee.n), cfg.committee.q)
  }

  function Other(v: Vote): Vote {
    match v case Popular => Unpopular case Unpopular => Popular case Undecided => Undecided
  }

  /** `x` does not settle `uc`, unless its count stops too early or it decides both ways. */
  ghost predicate Open(cfg: Config, uc: Unit, x: Unit)
    requires cfg.Valid()
  {
    forall v :: Settles(cfg, uc, x, v) ==> Overcounted(cfg, uc, x) || Decides(cfg, uc, x, Other(v))
  }

  ghost predicate OpenOnLevel(cfg: Config, uc: Unit, units: set<Unit>, level: nat, pid: nat)
    requires cfg.Valid()
  {
    forall x :: x in units && x.level == level && x.creator < pid ==> Open(cfg, uc, x)
  }

  /** Up to `level` no unit settles `uc`, with the exceptions of `Open`. */
  ghost predicate OpenUpTo(cfg: Config, uc: Unit, units: set<Unit>, level: int)
    requires cfg.Valid()
  {
    forall x :: x in units && x.level <= level ==> Open(cfg, uc, x)
  }

  /** Among the units that a dag of level `dagMaxLevel` lets decide, none settles `uc`, with those exceptions. */
  ghost predicate OpenWithin(cfg: Config, uc: Unit, units: set<Unit>, dagMaxLevel: int)
    requires cfg.Valid()
  {
    forall x :: x in units ==>
      x.level <= dagMaxLevel - 2 || (x.level <= dagMaxLevel && x.level <= uc.level + cfg.deterministicPrefix) ==>
        Open(cfg, uc, x)
  }

  class Decider {
    const cfg: Config
    const uc: Unit
    var memo: map<Unit, Vote>
    var decision: Vote
    var decisionLevel: int

    constructor (cfg: Config, uc: Unit)
      ensures this.cfg == cfg && this.uc == uc
      ensures memo == map[] && decision == Undecided && decisionLevel == -1
    {
      this.cfg, this.uc := cfg, uc;
      memo, decision, decisionLevel := map[], Undecided, -1;
    }

    ghost predicate MemoValid()
      requires cfg.Valid()
      reads this
    {
      forall u :: u in memo ==> memo[u] == VoteOf(cfg, uc, u)
    }

    method CommonVoteAt(level: nat, store: seq<seq<Byte>>) returns (v: Vote)
      requires cfg.Valid() && StoreMatches(cfg, store) && CoinReady(cfg, uc, store, level)
      ensures v == CommonVote(cfg, uc, level)
      ensures level <= uc.level + 1 ==> v == Undecided
      ensures uc.level + 1 < level <= uc.level + cfg.deterministicPrefix ==>
        v == if level == uc.level + cfg.zeroRound then Unpopular else Popular
      ensures uc.level + cfg.deterministicPrefix < level ==>
        v == if store[level + 1][0] & 1 == 0 then Popular else Unpopular
    {
      var round := level - uc.level;
      if round <= FIRST_VOTING_ROUND {
        return Undecided;
      }
      if round <= cfg.deterministicPrefix {
        if round == cfg.zeroRound {
          return Unpopular;
        }
        return Popular;
      }
      if store[level + 1][0] & 1 == 0 {
        return Popular;
      }
      return Unpopular;
    }

    /** The vote of `u`; every evaluated vote is remembered. */
    method VoteUsing(u: Unit, store: seq<seq<Byte>>) returns (result: Vote)
      requires cfg.Valid() && MemoValid() && StoreMatches(cfg, store)
      requires Compliant(cfg.committee, u) && uc.creator < cfg.committee.n
      requires CoinReady(cfg, uc, store, u.level - 1)
      modifies this`memo
      ensures MemoValid()
      ensures result == VoteOf(cfg, uc, u)
      decreases u.level, 1
    {
      hide Compliant, Reach, Unanimous, Below, StoreMatches;
      var r := u.level - uc.level;
      if r < FIRST_VOTING_ROUND {
        return Undecided;
      }
      if u in memo {
        return memo[u];
      }
      if r == FIRST_VOTING_ROUND {
        var above := Above(cfg.committee, u, uc);
        result := if above then Popular else Unpopular;
      } else {
        result := VoteByUnanimity(u, store);
      }
      memo := memo[u := result];
    }

    /** What a prime ancestor passes on to the next level. */
    method PassedOn(w: Unit, store: seq<seq<Byte>>) returns (v: Vote)
      requires cfg.Valid() && MemoValid() && StoreMatches(cfg, store)
      requires Compliant(cfg.committee, w) && uc.creator < cfg.committee.n
      requires CoinReady(cfg, uc, store, w.level)
      modifies this`memo
      ensures MemoValid()
      ensures v == Eff(cfg, uc, w)
      decreases w.level, 2
    {
      v := VoteUsing(w, store);
      if v == Undecided {
        v := CommonVoteAt(w.level, store);
      }
    }

    /** Stops at the first disagreement among the prime ancestors. */
    method VoteByUnanimity(u: Unit, store: seq<seq<Byte>>) returns (result: Vote)
      requires cfg.Valid() && MemoValid() && StoreMatches(cfg, store)
      requires Compliant(cfg.committee, u) && uc.creator < cfg.committee.n
      requires u.level > uc.level + FIRST_VOTING_ROUND && CoinReady(cfg, uc, store, u.level - 1)
      modifies this`memo
      ensures MemoValid()
      ensures result == VoteOf(cfg, uc, u)
      decreases u.level, 0
    {
      var lastVote: Option<Vote> := None;
      var finish := false;
      ghost var seen: set<Unit> := {};
      var pid := 0;
      while pid < |u.parents| && !finish
        invariant MemoValid()
        invariant TallyOf(cfg, uc, u, seen, lastVote, finish)
        invariant !finish ==> SeenUpTo(u, pid, seen)
      {
        CompliantIsWellBuilt(cfg.committee, u);
        var floor := Floor(cfg.committee, u, pid);
        var found := Find(cfg.committee, u, pid, floor);
        var i := 0;
        while i < |found| && !finish
          invariant MemoValid()
          invariant TallyOf(cfg, uc, u, seen, lastVote, finish)
          invariant SeenUpTo(u, pid, seen)
          invariant 0 <= i <= |found|
          invariant Includes(seen, found, i)
        {
          assert found[i] in found;
          BelowCompliant(cfg.committee, u, found[i]);
          var v := PassedOn(found[i], store);
          TallyStep(cfg, uc, u, seen, lastVote, found[i]);
          SeenStep(u, pid, seen, found, i);
          seen := seen + {found[i]};
          finish := lastVote.Some? && lastVote.value != v;
          lastVote := NextVote(lastVote, v);
          i := i + 1;
        }
        if !finish {
          SeenProcess(u, pid, seen, found);
        }
        pid := pid + 1;
      }
      result := if lastVote.Some? then lastVote.value else Undecided;
      UnanimityResult(cfg, uc, u, seen, lastVote, finish);
    }

    /**
     * The decision of `u`. Ballots are counted branch by branch until a value has a quorum of them; the value is
     * decided if it also has a quorum of processes by then. A decision of the full tally is missed exactly if two of
     * the first quorum of ballots are of one process.
     */
    method Decide(u: Unit, store: seq<seq<Byte>>) returns (v: Vote, ghost floors: seq<seq<Unit>>)
      requires cfg.Valid() && MemoValid() && StoreMatches(cfg, store)
      requires Compliant(cfg.committee, u) && uc.creator < cfg.committee.n
      requires u.level > uc.level + FIRST_VOTING_ROUND && CoinReady(cfg, uc, store, u.level - 1)
      modifies this`memo
      ensures MemoValid() && Countable(cfg, uc, u, floors)
      ensures v == Announced(Ballots(cfg, uc, u, floors, cfg.committee.n), cfg.committee.q)
      ensures v != Undecided ==> Decides(cfg, uc, u, v)
      ensures v == Undecided <==>
        !HasDecision(cfg, uc, u) || Crowded(Ballots(cfg, uc, u, floors, cfg.committee.n), cfg.committee.q)
    {
      hide *;
      ParentCount(cfg.committee, u);
      var fs := AllFloors(cfg.committee, u);
      floors := fs;
      NowCountable(cfg, uc, u, fs);
      TallyStart(cfg, uc, u, fs);
      var processes := Counts(0, 0);
      var ancestors := Counts(0, 0);
      ghost var s: seq<Ballot> := [];
      var finish := false;
      var pid := 0;
      while pid < |u.parents| && !finish
        invariant MemoValid()
        invariant 0 <= pid <= |u.parents|
        invariant Tally(cfg, uc, u, fs, s, processes, ancestors, pid, finish)
      {
        var found := FindCounted(cfg, uc, u, fs, pid);
        TallyOpen(cfg, uc, u, fs, s, processes, ancestors, pid);
        var votes, fin, taken := CountProcess(u, found, store, ancestors);
        TallyProcess(cfg, uc, u, fs, s, processes, ancestors, pid, found, votes, fin, taken);
        s := s + Tag(pid, taken);
        processes := processes.AddProcess(votes);
        ancestors := ancestors.Add(votes);
        finish := fin;
        pid := pid + 1;
      }
      TallyResult(cfg, uc, u, fs, s, processes, ancestors, pid, finish);
      TallyIsExact(cfg, uc, u, fs);
      v := processes.SuperMajority(cfg.committee.q);
    }

    /** Counts the votes of one process, branch by branch, up to a quorum or to the vote that makes them mixed. */
    method CountProcess(u: Unit, found: seq<Unit>, store: seq<seq<Byte>>, ancestors: Counts)
        returns (votes: Counts, finish: bool, ghost taken: seq<Vote>)
      requires cfg.Valid() && MemoValid() && StoreMatches(cfg, store)
      requires uc.creator < cfg.committee.n && u.level > uc.level + FIRST_VOTING_ROUND
      requires CoinReady(cfg, uc, store, u.level - 1)
      requires forall w :: w in found ==> Compliant(cfg.committee, w) && w.level == u.level - 1
      requires ancestors.SuperMajority(cfg.committee.q) == Undecided
      modifies this`memo
      ensures MemoValid()
      ensures votes == CountsOf(taken) && taken <= Looked(VotesOf(cfg, uc, found))
      ensures !finish ==>
        taken == Looked(VotesOf(cfg, uc, found)) && ancestors.Add(votes).SuperMajority(cfg.committee.q) == Undecided
      ensures finish ==>
        && taken != [] && ancestors.Add(CountsOf(taken[..|taken| - 1])).SuperMajority(cfg.committee.q) == Undecided
        && ancestors.Add(votes).SuperMajority(cfg.committee.q) != Undecided
    {
      hide Compliant, StoreMatches, Eff, Stop, MemoValid, Looked, Mixed, CountsOf, Counts.SuperMajority, CoinReady,
        Config.Valid;
      votes, finish := Counts(0, 0), false;
      ghost var all := VotesOf(cfg, uc, found);
      AddNothing(ancestors);
      var i := 0;
      assert all[..0] == [];
      while i < |found| && !finish && !(votes.popular > 0 && votes.unpopular > 0)
        invariant MemoValid()
        invariant 0 <= i <= Stop(all, 0) && votes == CountsOf(all[..i])
        invariant !finish ==> Stop(all, 0) == Stop(all, i)
        invariant !finish ==> ancestors.Add(votes).SuperMajority(cfg.committee.q) == Undecided
        invariant finish ==> ancestors.Add(votes).SuperMajority(cfg.committee.q) != Undecided
        invariant finish ==> i > 0 && ancestors.Add(CountsOf(all[..i - 1])).SuperMajority(cfg.committee.q) == Undecided
      {
        assert found[i] in found;
        var v := PassedOn(found[i], store);
        EffIsDecided(cfg, uc, found[i]);
        TakeNext(all, i);
        votes := if v == Popular then votes.(popular := votes.popular + 1)
          else votes.(unpopular := votes.unpopular + 1);
        finish := ancestors.Add(votes).SuperMajority(cfg.committee.q) != Undecided;
        i := i + 1;
      }
      taken := all[..i];
      assert i > 0 ==> taken[..i - 1] == all[..i - 1];
      TakeEnd(all, i);
      LookedIs(all);
    }

    static function MaxDecideLevel(cfg: Config, uc: Unit, dagMaxLevel: int): int {
      var deterministicLevel := uc.level + cfg.deterministicPrefix;
      if dagMaxLevel - 2 < deterministicLevel then
        if deterministicLevel > dagMaxLevel then dagMaxLevel else deterministicLevel
      else dagMaxLevel - 2
    }

    /** The decision stored, if any, is backed by one of the units. */
    ghost predicate Valid(units: set<Unit>)
      reads this
    {
      && cfg.Valid() && uc.creator < cfg.committee.n
      && MemoValid()
      && (decision != Undecided ==> SettledIn(cfg, uc, units, decision))
    }

    /** Looks for a unit of `level` whose decision agrees with the common vote; every slot is read at its own time. */
    method DecideOnLevel(feed: nat -> Reading, t: nat, level: nat) returns (d: Vote, t': nat)
      requires cfg.Valid() && uc.creator < cfg.committee.n && MemoValid() && Live(cfg, feed)
      requires level > uc.level + FIRST_VOTING_ROUND && CoinReady(cfg, uc, feed(t).store, level)
      modifies this`memo
      ensures MemoValid() && t <= t'
      ensures d != Undecided ==> SettledOn(cfg, uc, UnitsAt(feed, t'), level, d)
      ensures d == Undecided ==> OpenOnLevel(cfg, uc, UnitsAt(feed, t), level, cfg.committee.n)
    {
      hide Live, Settles, OpenOnLevel, StoreMatches, DagView.Consistent, DagView.LevelsIndexed, Compliant, Open,
        Config.Valid;
      d, t' := Undecided, t;
      NothingOnLevel(cfg, uc, UnitsAt(feed, t), level);
      for pid := 0 to cfg.committee.n
        invariant MemoValid() && d == Undecided && t <= t'
        invariant OpenOnLevel(cfg, uc, UnitsAt(feed, t), level, pid)
      {
        SlotReading(cfg, uc, feed, t, t', level, pid);
        var primes := feed(t').view.UnitsOnLevel(cfg.committee, level)[pid];
        d := DecideInSlot(primes, feed(t').store, level);
        if d != Undecided {
          return;
        }
        SlotOpen(cfg, uc, feed, t, t', level, pid);
        t' := t' + 1;
      }
    }

    /**
     * Decides whether `uc` is popular, on the lowest level that allows it. A decision, once made, is kept; it is always
     * backed by a unit of the dag.
     * Staying undecided means that no unit there at the start settles `uc`, with the exceptions of `Open`, if it is at
     * least two levels under the top of the dag, or in a deterministic round.
     */
    method DecideUnitIsPopular(feed: nat -> Reading, t: nat, dagMaxLevel: int) returns (d: Vote, t': nat)
      requires Valid(UnitsAt(feed, t)) && Live(cfg, feed) && dagMaxLevel <= |feed(t).store|
      modifies this
      ensures t <= t' && Valid(UnitsAt(feed, t'))
      ensures d == decision
      ensures old(decision) != Undecided ==> decision == old(decision) && decisionLevel == old(decisionLevel)
      ensures old(decision) == Undecided && d != Undecided ==>
        && SettledOn(cfg, uc, UnitsAt(feed, t'), decisionLevel, d)
        && OpenUpTo(cfg, uc, UnitsAt(feed, t), decisionLevel - 1)
      ensures d == Undecided ==>
        (forall x :: x in UnitsAt(feed, t) && x.level <= dagMaxLevel - 2 ==> Open(cfg, uc, x))
      ensures d == Undecided ==>
        (forall x :: x in UnitsAt(feed, t) ==>
          x.level <= dagMaxLevel && x.level <= uc.level + cfg.deterministicPrefix ==> Open(cfg, uc, x))
      ensures d == Undecided ==> OpenWithin(cfg, uc, UnitsAt(feed, t), dagMaxLevel)
    {
      hide Settles, OpenUpTo, Live, MemoValid, Config.Valid, OpenOnLevel, UnitsAt;
      t' := t;
      NothingBelow(cfg, uc, UnitsAt(feed, t));
      if decision != Undecided {
        return decision, t;
      }
      var maxDecisionLevel := MaxDecideLevel(cfg, uc, dagMaxLevel);
      var level := uc.level + FIRST_VOTING_ROUND + 1;
      while level <= maxDecisionLevel
        invariant level > uc.level + FIRST_VOTING_ROUND && t <= t'
        invariant MemoValid() && decision == Undecided
        invariant OpenUpTo(cfg, uc, UnitsAt(feed, t), level - 1)
      {
        ghost var at := t';
        Grows(cfg, feed, t, t');
        d, t' := DecideOnLevel(feed, t', level);
        if d != Undecided {
          decision, decisionLevel := d, level;
          memo := map[];
          assert MemoValid() by { EmptyMemo(this); }
          return;
        }
        NextLevelOpen(cfg, uc, feed, t, at, level);
        level := level + 1;
      }
      OpenDown(cfg, uc, UnitsAt(feed, t), level - 1, dagMaxLevel);
      return Undecided, t';
    }

    method DecideInSlot(primes: seq<Unit>, store: seq<seq<Byte>>, level: nat) returns (d: Vote)
      requires cfg.Valid() && uc.creator < cfg.committee.n && MemoValid() && StoreMatches(cfg, store)
      requires forall x :: x in primes ==> Compliant(cfg.committee, x) && x.level == level
      requires level > uc.level + FIRST_VOTING_ROUND && CoinReady(cfg, uc, store, level)
      modifies this`memo
      ensures MemoValid()
      ensures d != Undecided ==> exists x :: x in primes && Settles(cfg, uc, x, d)
      ensures d == Undecided ==> forall x :: x in primes ==> Open(cfg, uc, x)
    {
      hide Compliant, Decides, Open, Settles, CommonVote, Countable, Ballots, Crowded, Announced, HasDecision;
      d := Undecided;
      for i := 0 to |primes|
        invariant MemoValid()
        invariant forall k :: 0 <= k < i ==> Open(cfg, uc, primes[k])
      {
        var vDecision, floors := Decide(primes[i], store);
        if vDecision != Undecided {
          var common := CommonVoteAt(level, store);
          if vDecision == common {
            SettlesHere(cfg, uc, primes[i], vDecision);
            return vDecision;
          }
        }
        OpenUnit(cfg, uc, primes[i], vDecision, floors);
      }
    }
  }

  /** With a tolerated number of forking creators no unit decides both ways. */
  lemma NeverBothWays(cfg: Config, world: set<Unit>, uc: Unit, x: Unit)
    requires cfg.Valid() && World(cfg.committee, world) && x in world
    ensures !(Decides(cfg, uc, x, Popular) && Decides(cfg, uc, x, Unpopular))
  {
    hide World, Eff, Below;
    if Decides(cfg, uc, x, Popular) && Decides(cfg, uc, x, Unpopular) {
      var seen := VotersFor(cfg, uc, x, Unpopular);
      forall pid | pid in seen ensures pid in AncestorCreators(cfg.committee, x) {
        assert SeesVoter(cfg, uc, x, Unpopular, pid);
      }
      var w := SharedVoter(cfg, world, uc, x, x, Popular, seen);
    }
  }

  /** So what stays open for the code is unsettled, except where the count stops too early. */
  lemma OpenIsUnsettled(cfg: Config, world: set<Unit>, uc: Unit, x: Unit, v: Vote)
    requires cfg.Valid() && World(cfg.committee, world) && x in world && Open(cfg, uc, x)
    ensures Settles(cfg, uc, x, v) ==> Overcounted(cfg, uc, x)
  {
    hide World, Overcounted, Decides;
    NeverBothWays(cfg, world, uc, x);
  }

  /** A unit that sees no fork is never overcounted. */
  lemma NoForkNotOvercounted(cfg: Config, uc: Unit, x: Unit)
    requires cfg.Valid() && SeesNoFork(x)
    ensures !Overcounted(cfg, uc, x)
  {
    hide SeesNoFork, Compliant, IsFloor, Ballots, Crowded;
    forall floors | Countable(cfg, uc, x, floors)
      ensures !Crowded(Ballots(cfg, uc, x, floors, cfg.committee.n), cfg.committee.q)
    {
      NoForkNotCrowded(cfg, uc, x, floors);
    }
  }

  lemma BelowCompliant(c: Committee, u: Unit, w: Unit)
    requires Compliant(c, u) && Below(u, w)
    ensures Compliant(c, w)
  {
    ReachUnfold(u, w);
    CompliantBelow(c, u, w);
  }

  lemma NothingBelow(cfg: Config, uc: Unit, units: set<Unit>)
    requires cfg.Valid()
    ensures OpenUpTo(cfg, uc, units, uc.level + FIRST_VOTING_ROUND)
  {
    hide Decides;
  }

  lemma EmptyMemo(d: Decider)
    requires d.cfg.Valid() && d.memo == map[]
    ensures d.MemoValid()
  {
  }

  lemma NothingOnLevel(cfg: Config, uc: Unit, units: set<Unit>, level: nat)
    requires cfg.Valid()
    ensures OpenOnLevel(cfg, uc, units, level, 0)
  {
  }

  lemma NextLevelOpen(cfg: Config, uc: Unit, feed: nat -> Reading, t: nat, at: nat, level: nat)
    requires cfg.Valid() && level > 0 && Live(cfg, feed) && t <= at && OpenUpTo(cfg, uc, UnitsAt(feed, t), level - 1)
    requires OpenOnLevel(cfg, uc, UnitsAt(feed, at), level, cfg.committee.n)
    ensures OpenUpTo(cfg, uc, UnitsAt(feed, t), level)
  {
    hide Open, Live;
    Grows(cfg, feed, t, at);
    SoundAt(cfg, feed, at);
    forall x | x in UnitsAt(feed, t) && x.level <= level ensures Open(cfg, uc, x) {
      assert Compliant(cfg.committee, x);
    }
  }

  /** What one slot shows at time `at`. */
  lemma SlotReading(cfg: Config, uc: Unit, feed: nat -> Reading, t: nat, at: nat, level: nat, pid: nat)
    requires Live(cfg, feed) && t <= at && pid < cfg.committee.n && CoinReady(cfg, uc, feed(t).store, level)
    ensures |feed(at).view.UnitsOnLevel(cfg.committee, level)| == cfg.committee.n
    ensures forall x :: x in feed(at).view.UnitsOnLevel(cfg.committee, level)[pid] ==>
      Compliant(cfg.committee, x) && x.level == level && x in UnitsAt(feed, at)
    ensures StoreMatches(cfg, feed(at).store) && CoinReady(cfg, uc, feed(at).store, level)
  {
    hide Live, Compliant, StoreMatches;
    Grows(cfg, feed, t, at);
    SoundAt(cfg, feed, at);
  }

  /** The maximal deciding level: two under the top of the dag, or as far as the deterministic rounds go. */
  lemma MaxDecideLevelIs(cfg: Config, uc: Unit, dagMaxLevel: int, level: int)
    ensures level <= Decider.MaxDecideLevel(cfg, uc, dagMaxLevel) <==>
      level <= dagMaxLevel - 2 || (level <= dagMaxLevel && level <= uc.level + cfg.deterministicPrefix)
  {
  }

  lemma OpenDown(cfg: Config, uc: Unit, units: set<Unit>, level: int, dagMaxLevel: int)
    requires cfg.Valid() && OpenUpTo(cfg, uc, units, level) && Decider.MaxDecideLevel(cfg, uc, dagMaxLevel) <= level
    ensures OpenWithin(cfg, uc, units, dagMaxLevel)
  {
    hide Open, Decider.MaxDecideLevel;
    forall x | x in units && (x.level <= dagMaxLevel - 2
        || (x.level <= dagMaxLevel && x.level <= uc.level + cfg.deterministicPrefix))
      ensures Open(cfg, uc, x)
    {
      MaxDecideLevelIs(cfg, uc, dagMaxLevel, x.level);
    }
  }

  /**
   * A candidate seen by a whole level is settled as popular one level later, unless that is the zero round; a dag that
   * reaches that level does not leave it open if no fork is seen.
   */
  lemma SeenByAllSettles(cfg: Config, uc: Unit, units: set<Unit>, x: Unit, dagMaxLevel: int)
    requires cfg.Valid() && Compliant(cfg.committee, x) && x in units && x.level == uc.level + 2
    requires forall w :: PrimeBelow(x, w) ==> w in units
    requires forall y :: y in units && y.level == uc.level + 1 ==> Reach(y, uc)
    ensures Settles(cfg, uc, x, Popular) <==> cfg.zeroRound > 2
    ensures cfg.zeroRound > 2 ==> SettledIn(cfg, uc, units, Popular)
    ensures cfg.zeroRound > 2 && SeesNoFork(x) && dagMaxLevel >= x.level ==> !OpenWithin(cfg, uc, units, dagMaxLevel)
  {
    hide Compliant, Reach, Decides, Overcounted, SeesNoFork, Below;
    SeenByAllDecides(cfg, uc, x);
    SettlesOnSchedule(cfg, uc, x, Popular);
    if SeesNoFork(x) {
      NoForkNotOvercounted(cfg, uc, x);
    }
  }

  /** A candidate that some unit of the zero round does not see is settled as unpopular, and a high dag does so. */
  lemma UnseenSettles(cfg: Config, uc: Unit, units: set<Unit>, x: Unit, dagMaxLevel: int)
    requires cfg.Valid() && Compliant(cfg.committee, x) && x in units && x.level == uc.level + cfg.zeroRound
    requires !Reach(x, uc)
    ensures SettledIn(cfg, uc, units, Unpopular)
    ensures SeesNoFork(x) && dagMaxLevel >= x.level ==> !OpenWithin(cfg, uc, units, dagMaxLevel)
  {
    hide Compliant, Reach, Decides, Overcounted, SeesNoFork, Below;
    BlindSettles(cfg, uc, x);
    if SeesNoFork(x) {
      NoForkNotOvercounted(cfg, uc, x);
    }
  }

  /** A decision once within reach stays within reach, with the same value, as the dag grows. */
  lemma DecisionStays(cfg: Config, world: set<Unit>, uc: Unit, units: set<Unit>, units': set<Unit>, m: int, m': int,
      x: Unit, v: Vote)
    requires cfg.Valid() && World(cfg.committee, world) && units <= units' <= world && m <= m'
    requires x in units && Settles(cfg, uc, x, v)
    requires x.level <= m - 2 || (x.level <= m && x.level <= uc.level + cfg.deterministicPrefix)
    ensures x in units' && (x.level <= m' - 2 || (x.level <= m' && x.level <= uc.level + cfg.deterministicPrefix))
    ensures forall v' :: SettledIn(cfg, uc, units', v') ==> v' == v
  {
    hide World, Settles;
    forall v' | SettledIn(cfg, uc, units', v') ensures v' == v {
      var y :| y in units' && Settles(cfg, uc, y, v');
      DecisionAgreement(cfg, world, uc, x, v, y, v');
    }
  }

  lemma SettlesHere(cfg: Config, uc: Unit, x: Unit, v: Vote)
    requires cfg.Valid() && v != Undecided && x.level > uc.level + FIRST_VOTING_ROUND
    requires Decides(cfg, uc, x, v) && CommonVote(cfg, uc, x.level) == v
    ensures Settles(cfg, uc, x, v)
  {
  }

  lemma OpenUnit(cfg: Config, uc: Unit, x: Unit, v: Vote, floors: seq<seq<Unit>>)
    requires Countable(cfg, uc, x, floors)
    requires v != Undecided ==> Decides(cfg, uc, x, v) && CommonVote(cfg, uc, x.level) != v
    requires v == Undecided ==>
      !HasDecision(cfg, uc, x) || Crowded(Ballots(cfg, uc, x, floors, cfg.committee.n), cfg.committee.q)
    ensures Open(cfg, uc, x)
  {
    hide Countable, Decides, Ballots, Crowded, CommonVote;
  }

  lemma SlotOpen(cfg: Config, uc: Unit, feed: nat -> Reading, t: nat, at: nat, level: nat, pid: nat)
    requires cfg.Valid() && Live(cfg, feed) && t <= at && pid < cfg.committee.n
    requires OpenOnLevel(cfg, uc, UnitsAt(feed, t), level, pid)
    requires |feed(at).view.UnitsOnLevel(cfg.committee, level)| == cfg.committee.n
    requires forall x :: x in feed(at).view.UnitsOnLevel(cfg.committee, level)[pid] ==> Open(cfg, uc, x)
    ensures OpenOnLevel(cfg, uc, UnitsAt(feed, t), level, pid + 1)
  {
    hide Open, Live;
    Grows(cfg, feed, t, at);
    SoundAt(cfg, feed, at);
    forall x | x in UnitsAt(feed, t) && x.level == level && x.creator < pid + 1 ensures Open(cfg, uc, x) {
      if x.creator == pid {
        assert x in feed(at).view.UnitsOnLevel(cfg.committee, level)[pid];
      }
    }
  }

  /** The state of the unanimity loop after the ancestors in `seen`. */
  ghost predicate TallyOf(cfg: Config, uc: Unit, u: Unit, seen: set<Unit>, lastVote: Option<Vote>, finish: bool)
    requires cfg.Valid()
  {
    && (forall w :: w in seen ==> PrimeBelow(u, w))
    && (lastVote.None? <==> seen == {})
    && (!finish && lastVote.Some? ==> forall w :: w in seen ==> Eff(cfg, uc, w) == lastVote.value)
    && (finish ==> lastVote == Some(Undecided))
    && (finish ==> exists w, z :: w in seen && z in seen && Eff(cfg, uc, w) != Eff(cfg, uc, z))
  }

  /** All prime ancestors of `u` made by processes under `pid` are in `seen`. */
  ghost predicate SeenUpTo(u: Unit, pid: nat, seen: set<Unit>) {
    forall w :: PrimeBelow(u, w) && w.creator < pid ==> w in seen
  }

  ghost predicate Includes(seen: set<Unit>, found: seq<Unit>, i: nat) {
    forall k :: 0 <= k < i && k < |found| ==> found[k] in seen
  }

  lemma SeenStep(u: Unit, pid: nat, seen: set<Unit>, found: seq<Unit>, i: nat)
    requires SeenUpTo(u, pid, seen) && Includes(seen, found, i) && i < |found|
    ensures SeenUpTo(u, pid, seen + {found[i]}) && Includes(seen + {found[i]}, found, i + 1)
  {
  }

  lemma SeenProcess(u: Unit, pid: nat, seen: set<Unit>, found: seq<Unit>)
    requires SeenUpTo(u, pid, seen) && Includes(seen, found, |found|) && Lists(u, pid, found)
    ensures SeenUpTo(u, pid + 1, seen)
  {
  }

  /** The running unanimous vote: a second value makes it undecided. */
  function NextVote(lastVote: Option<Vote>, v: Vote): Option<Vote> {
    if lastVote.None? then Some(v) else if lastVote.value != v then Some(Undecided) else lastVote
  }

  lemma TallyStep(cfg: Config, uc: Unit, u: Unit, seen: set<Unit>, lastVote: Option<Vote>, w: Unit)
    requires cfg.Valid() && TallyOf(cfg, uc, u, seen, lastVote, false) && PrimeBelow(u, w)
    ensures var v := Eff(cfg, uc, w);
      TallyOf(cfg, uc, u, seen + {w}, NextVote(lastVote, v), lastVote.Some? && lastVote.value != v)
  {
    var v := Eff(cfg, uc, w);
    if lastVote.Some? && lastVote.value != v {
      var z :| z in seen;
      assert Eff(cfg, uc, z) != Eff(cfg, uc, w);
      assert z in seen + {w} && w in seen + {w};
    }
  }

  lemma UnanimityResult(cfg: Config, uc: Unit, u: Unit, seen: set<Unit>, lastVote: Option<Vote>, finish: bool)
    requires cfg.Valid() && Compliant(cfg.committee, u) && u.level > uc.level + FIRST_VOTING_ROUND
    requires TallyOf(cfg, uc, u, seen, lastVote, finish)
    requires !finish ==> SeenUpTo(u, cfg.committee.n, seen)
    ensures VoteOf(cfg, uc, u) == if lastVote.Some? then lastVote.value else Undecided
  {
    hide Compliant, Eff, Below;
    if finish {
      var w, z :| w in seen && z in seen && Eff(cfg, uc, w) != Eff(cfg, uc, z);
      NotUnanimous(cfg, uc, u, w, z);
    } else {
      forall w | PrimeBelow(u, w) ensures w in seen {
        BelowCompliant(cfg.committee, u, w);
        CreatorIsProcess(cfg.committee, w);
      }
      if lastVote.Some? {
        var z :| z in seen;
        EffIsDecided(cfg, uc, z);
        UnanimousVote(cfg, uc, u, lastVote.value, z);
      }
    }
  }

  // ------------------------------------------------------------- counting votes

  /** How many votes there are for each value. */
  datatype Counts = Counts(popular: nat, unpopular: nat) {
    function Add(more: Counts): Counts {
      Counts(popular + more.popular, unpopular + more.unpopular)
    }

    /** A process counts once for each value among its votes. */
    function AddProcess(votes: Counts): Counts {
      Counts(if votes.popular > 0 then popular + 1 else popular, if votes.unpopular > 0 then unpopular + 1
        else unpopular)
    }

    /** The value with a quorum, if there is one. */
    function SuperMajority(q: nat): Vote {
      if popular >= q then Popular else if unpopular >= q then Unpopular else Undecided
    }
  }

  ghost function CountsOf(votes: seq<Vote>): Counts {
    if votes == [] then Counts(0, 0) else
    var before := CountsOf(votes[..|votes| - 1]);
    match votes[|votes| - 1]
    case Popular => before.(popular := before.popular + 1)
    case Unpopular => before.(unpopular := before.unpopular + 1)
    case Undecided => before
  }

  lemma AddNothing(a: Counts)
    ensures a.Add(CountsOf([])) == a && CountsOf([]) == Counts(0, 0)
  {
  }

  lemma {:induction false} MixedCounts(votes: seq<Vote>)
    ensures CountsOf(votes).popular > 0 <==> Popular in votes
    ensures CountsOf(votes).unpopular > 0 <==> Unpopular in votes
  {
    if votes != [] {
      var last := |votes| - 1;
      MixedCounts(votes[..last]);
      assert votes == votes[..last] + [votes[last]];
    }
  }

  /** Taking one more vote that is looked at. */
  lemma TakeNext(votes: seq<Vote>, i: nat)
    requires i < |votes| && votes[i] != Undecided
    requires !(CountsOf(votes[..i]).popular > 0 && CountsOf(votes[..i]).unpopular > 0)
    ensures var before := CountsOf(votes[..i]);
      CountsOf(votes[..i + 1]) == if votes[i] == Popular then before.(popular := before.popular + 1)
                                  else before.(unpopular := before.unpopular + 1)
    ensures Stop(votes, i) == Stop(votes, i + 1)
  {
    assert votes[..i + 1][..i] == votes[..i];
    MixedCounts(votes[..i]);
  }

  lemma TakeEnd(votes: seq<Vote>, i: nat)
    requires i <= |votes|
    ensures i == |votes| || (CountsOf(votes[..i]).popular > 0 && CountsOf(votes[..i]).unpopular > 0) ==>
      Stop(votes, i) == i
  {
    MixedCounts(votes[..i]);
  }

  lemma LookedIs(votes: seq<Vote>)
    ensures Looked(votes) == votes[..Stop(votes, 0)]
  {
  }

  lemma {:induction false} CountTagged(s: seq<Ballot>, pid: nat, votes: seq<Vote>)
    ensures Count(s + Tag(pid, votes), Popular) == Count(s, Popular) + CountsOf(votes).popular
    ensures Count(s + Tag(pid, votes), Unpopular) == Count(s, Unpopular) + CountsOf(votes).unpopular
  {
    var t := s + Tag(pid, votes);
    if votes == [] {
      assert t == s;
    } else {
      var last := |votes| - 1;
      assert t[..|t| - 1] == s + Tag(pid, votes[..last]);
      CountTagged(s, pid, votes[..last]);
    }
  }

  /** The counters belong to the ballots `s`, all of processes under `pid`. */
  ghost predicate CountersMatch(s: seq<Ballot>, processes: Counts, ancestors: Counts, pid: nat) {
    && ancestors == Counts(Count(s, Popular), Count(s, Unpopular))
    && processes == Counts(|VotersIn(s, Popular)|, |VotersIn(s, Unpopular)|)
    && forall i :: 0 <= i < |s| ==> s[i].pid < pid
  }

  /** `s` are the ballots of the processes under `pid`, or those up to the quorum that ended the count. */
  ghost predicate CountedSoFar(cfg: Config, uc: Unit, u: Unit, floors: seq<seq<Unit>>, s: seq<Ballot>, pid: nat,
      finish: bool) {
    && Countable(cfg, uc, u, floors) && pid <= cfg.committee.n
    && s <= Ballots(cfg, uc, u, floors, cfg.committee.n)
    && if finish then s != [] && QuorumIn(s, cfg.committee.q) && !QuorumIn(s[..|s| - 1], cfg.committee.q)
       else s == Ballots(cfg, uc, u, floors, pid) && !QuorumIn(s, cfg.committee.q)
  }

  ghost predicate Tally(cfg: Config, uc: Unit, u: Unit, floors: seq<seq<Unit>>, s: seq<Ballot>, processes: Counts,
      ancestors: Counts, pid: nat, finish: bool) {
    CountedSoFar(cfg, uc, u, floors, s, pid, finish) && CountersMatch(s, processes, ancestors, pid)
  }

  lemma NowCountable(cfg: Config, uc: Unit, u: Unit, floors: seq<seq<Unit>>)
    requires cfg.Valid() && Compliant(cfg.committee, u) && u.level > uc.level + FIRST_VOTING_ROUND
    requires IsFloors(cfg.committee, u, floors)
    ensures Countable(cfg, uc, u, floors)
  {
  }

  lemma TallyStart(cfg: Config, uc: Unit, u: Unit, floors: seq<seq<Unit>>)
    requires Countable(cfg, uc, u, floors)
    ensures Tally(cfg, uc, u, floors, [], Counts(0, 0), Counts(0, 0), 0, false)
  {
    hide Compliant, IsFloor;
    assert VotersIn([], Popular) == {} && VotersIn([], Unpopular) == {};
  }

  lemma TallyOpen(cfg: Config, uc: Unit, u: Unit, floors: seq<seq<Unit>>, s: seq<Ballot>, processes: Counts,
      ancestors: Counts, pid: nat)
    requires Tally(cfg, uc, u, floors, s, processes, ancestors, pid, false)
    ensures ancestors.SuperMajority(cfg.committee.q) == Undecided
  {
    hide Countable;
  }

  method FindCounted(cfg: Config, ghost uc: Unit, u: Unit, floors: seq<seq<Unit>>, pid: nat) returns (found: seq<Unit>)
    requires Countable(cfg, uc, u, floors) && pid < cfg.committee.n
    ensures pid < |floors| && u.level >= 1 && found == Landings(floors[pid], u.level - 1)
    ensures forall w :: w in found ==> Compliant(cfg.committee, w) && w.level == u.level - 1
  {
    hide Compliant, IsFloor, Landings, PrimeBelow;
    found := Find(cfg.committee, u, pid, floors[pid]);
    forall w | w in found ensures Compliant(cfg.committee, w) && w.level == u.level - 1 {
      FoundCompliant(cfg.committee, u, w);
    }
  }

  lemma FoundCompliant(c: Committee, u: Unit, w: Unit)
    requires Compliant(c, u) && PrimeBelow(u, w)
    ensures Compliant(c, w) && w.level == u.level - 1
  {
    BelowCompliant(c, u, w);
  }

  lemma {:induction false} BallotsPrefix(cfg: Config, uc: Unit, u: Unit, floors: seq<seq<Unit>>, j: nat, k: nat)
    requires cfg.Valid() && j <= k <= |floors| && u.level >= 1
    ensures Ballots(cfg, uc, u, floors, j) <= Ballots(cfg, uc, u, floors, k)
    decreases k
  {
    hide Looked, BranchVotes;
    if j < k {
      BallotsPrefix(cfg, uc, u, floors, j, k - 1);
    }
  }

  lemma TallyProcess(cfg: Config, uc: Unit, u: Unit, floors: seq<seq<Unit>>, s: seq<Ballot>, processes: Counts,
      ancestors: Counts, pid: nat,
      found: seq<Unit>, votes: Counts, finish: bool, taken: seq<Vote>)
    requires Tally(cfg, uc, u, floors, s, processes, ancestors, pid, false) && pid < cfg.committee.n
    requires pid < |floors| && u.level >= 1 && found == Landings(floors[pid], u.level - 1)
    requires votes == CountsOf(taken) && taken <= Looked(VotesOf(cfg, uc, found))
    requires !finish ==>
      taken == Looked(VotesOf(cfg, uc, found)) && ancestors.Add(votes).SuperMajority(cfg.committee.q) == Undecided
    requires finish ==>
      && taken != [] && ancestors.Add(CountsOf(taken[..|taken| - 1])).SuperMajority(cfg.committee.q) == Undecided
      && ancestors.Add(votes).SuperMajority(cfg.committee.q) != Undecided
    ensures Tally(cfg, uc, u, floors, s + Tag(pid, taken), processes.AddProcess(votes), ancestors.Add(votes),
        pid + 1, finish)
  {
    hide Looked, Landings, Eff, CountsOf, VotersIn, CountedSoFar, Count;
    CountersNext(s, processes, ancestors, pid, taken);
    CountTagged(s, pid, taken);
    if finish {
      CountTagged(s, pid, taken[..|taken| - 1]);
    }
    BallotsNext(cfg, uc, u, floors, s, pid, taken, finish);
  }

  lemma CountersNext(s: seq<Ballot>, processes: Counts, ancestors: Counts, pid: nat, taken: seq<Vote>)
    requires CountersMatch(s, processes, ancestors, pid)
    ensures CountersMatch(s + Tag(pid, taken), processes.AddProcess(CountsOf(taken)), ancestors.Add(CountsOf(taken)),
        pid + 1)
  {
    hide CountsOf, VotersIn, Count;
    CountTagged(s, pid, taken);
    MixedCounts(taken);
    ProcessAdded(s, pid, taken, Popular);
    ProcessAdded(s, pid, taken, Unpopular);
  }

  lemma BallotsNext(cfg: Config, uc: Unit, u: Unit, floors: seq<seq<Unit>>, s: seq<Ballot>, pid: nat, taken: seq<Vote>,
      finish: bool)
    requires CountedSoFar(cfg, uc, u, floors, s, pid, false) && pid < cfg.committee.n
    requires pid < |floors| && u.level >= 1 && taken <= Looked(BranchVotes(cfg, uc, u, floors, pid))
    requires !finish ==>
      taken == Looked(BranchVotes(cfg, uc, u, floors, pid)) && !QuorumIn(s + Tag(pid, taken), cfg.committee.q)
    requires finish ==>
      && QuorumIn(s + Tag(pid, taken), cfg.committee.q)
      && taken != [] && !QuorumIn(s + Tag(pid, taken[..|taken| - 1]), cfg.committee.q)
    ensures CountedSoFar(cfg, uc, u, floors, s + Tag(pid, taken), pid + 1, finish)
  {
    hide Looked, BranchVotes, QuorumIn, Ballots, Compliant, IsFloor;
    NextBallots(cfg, uc, u, floors, pid, taken);
    if finish {
      var t := s + Tag(pid, taken);
      assert t[..|t| - 1] == s + Tag(pid, taken[..|taken| - 1]);
    }
  }

  lemma NextBallots(cfg: Config, uc: Unit, u: Unit, floors: seq<seq<Unit>>, pid: nat, taken: seq<Vote>)
    requires Countable(cfg, uc, u, floors) && pid < cfg.committee.n
    requires taken <= Looked(BranchVotes(cfg, uc, u, floors, pid))
    ensures var s := Ballots(cfg, uc, u, floors, pid) + Tag(pid, taken);
      && s <= Ballots(cfg, uc, u, floors, cfg.committee.n)
      && (taken == Looked(BranchVotes(cfg, uc, u, floors, pid)) ==> s == Ballots(cfg, uc, u, floors, pid + 1))
  {
    hide Compliant, IsFloor, Looked, BranchVotes;
    var looked := Looked(BranchVotes(cfg, uc, u, floors, pid));
    assert Tag(pid, taken) <= Tag(pid, looked);
    BallotsPrefix(cfg, uc, u, floors, pid + 1, cfg.committee.n);
  }

  lemma ProcessAdded(s: seq<Ballot>, pid: nat, votes: seq<Vote>, v: Vote)
    requires forall i :: 0 <= i < |s| ==> s[i].pid < pid
    ensures |VotersIn(s + Tag(pid, votes), v)| == |VotersIn(s, v)| + if v in votes then 1 else 0
  {
    VotersAppend(s, pid, votes, v);
    assert pid !in VotersIn(s, v);
  }

  lemma TallyResult(cfg: Config, uc: Unit, u: Unit, floors: seq<seq<Unit>>, s: seq<Ballot>, processes: Counts,
      ancestors: Counts, pid: nat, finish: bool)
    requires Tally(cfg, uc, u, floors, s, processes, ancestors, pid, finish) && (pid == cfg.committee.n || finish)
    ensures processes.SuperMajority(cfg.committee.q) ==
      Announced(Ballots(cfg, uc, u, floors, cfg.committee.n), cfg.committee.q)
  {
    hide Compliant, IsFloor, Ballots;
    var all, q := Ballots(cfg, uc, u, floors, cfg.committee.n), cfg.committee.q;
    CountVoters(s, Popular);
    CountVoters(s, Unpopular);
    BallotVoters(cfg, uc, u, floors, cfg.committee.n, Popular);
    if finish {
      assert all[..|s|] == s;
      AnnouncedOfPrefix(all, q, |s|);
      LastBallot(s, q);
    } else {
      NothingAnnounced(s, q);
    }
  }

  /** If the last ballot completes the quorum, only its value can have one. */
  lemma LastBallot(s: seq<Ballot>, q: nat)
    requires s != [] && QuorumIn(s, q) && !QuorumIn(s[..|s| - 1], q) && s[|s| - 1].vote != Undecided
    ensures Announced(s, q) ==
      if |VotersIn(s, Popular)| >= q then Popular else if |VotersIn(s, Unpopular)| >= q then Unpopular else Undecided
  {
    CountVoters(s, Popular);
    CountVoters(s, Unpopular);
  }
}
