/** The tally behind a decision: what is counted, in which order, and when it stops too early. */
module Tallies {
  import opened Units
  import opened DagOrder
  import opened Quorums
  import opened PrimeAncestors
  import opened Voting

  /** A vote counted for a process. */
  datatype Ballot = Ballot(pid: nat, vote: Vote)

  ghost function Count(s: seq<Ballot>, v: Vote): nat {
    if s == [] then 0 else Count(s[..|s| - 1], v) + if s[|s| - 1].vote == v then 1 else 0
  }

  /** The processes with a ballot for `v`. */
  ghost function VotersIn(s: seq<Ballot>, v: Vote): set<nat> {
    set i | 0 <= i < |s| && s[i].vote == v :: s[i].pid
  }

  /** No process has two ballots for `v`. */
  ghost predicate OneEach(s: seq<Ballot>, v: Vote) {
    forall i, j :: 0 <= i < j < |s| && s[i].vote == v && s[j].vote == v ==> s[i].pid != s[j].pid
  }

  ghost predicate QuorumIn(s: seq<Ballot>, q: nat) {
    Count(s, Popular) >= q || Count(s, Unpopular) >= q
  }

  /** The ballot with which a value first reaches a quorum: the count stops there. */
  ghost predicate FirstQuorum(s: seq<Ballot>, q: nat, t: nat) {
    t < |s| && !QuorumIn(s[..t], q) && Count(s[..t + 1], s[t].vote) >= q
  }

  /** Two of the first `q` equal ballots are of one process. */
  ghost predicate Crowded(s: seq<Ballot>, q: nat) {
    exists t: nat :: FirstQuorum(s, q, t) && !OneEach(s[..t + 1], s[t].vote)
  }

  /** What is announced: the value that first has `q` ballots, if it also has `q` processes then. */
  ghost function Announced(s: seq<Ballot>, q: nat): Vote {
    if s == [] then Undecided else
    var last := |s| - 1;
    if QuorumIn(s[..last], q) then Announced(s[..last], q)
    else if Count(s, s[last].vote) >= q && |VotersIn(s, s[last].vote)| >= q then s[last].vote
    else Undecided
  }

  ghost predicate AllDecided(s: seq<Ballot>) {
    forall i :: 0 <= i < |s| ==> s[i].vote != Undecided
  }

  lemma VotersStep(s: seq<Ballot>, v: Vote)
    requires s != []
    ensures var last := |s| - 1;
      VotersIn(s, v) == if s[last].vote == v then VotersIn(s[..last], v) + {s[last].pid} else VotersIn(s[..last], v)
  {
    var last := |s| - 1;
    forall p ensures p in VotersIn(s, v) <==> p in VotersIn(s[..last], v) || (s[last].vote == v && p == s[last].pid) {
      if p in VotersIn(s, v) {
        var i :| 0 <= i < |s| && s[i].vote == v && s[i].pid == p;
        assert i < last ==> s[..last][i] == s[i];
      }
      if p in VotersIn(s[..last], v) {
        var i :| 0 <= i < last && s[..last][i].vote == v && s[..last][i].pid == p;
        assert s[i].pid == p;
      }
    }
  }

  /** There are as many processes as ballots exactly if no process has two. */
  lemma {:induction false} CountVoters(s: seq<Ballot>, v: Vote)
    ensures |VotersIn(s, v)| <= Count(s, v)
    ensures |VotersIn(s, v)| == Count(s, v) <==> OneEach(s, v)
  {
    if s != [] {
      var last := |s| - 1;
      CountVoters(s[..last], v);
      VotersStep(s, v);
      OneEachStep(s, v);
    }
  }

  lemma OneEachStep(s: seq<Ballot>, v: Vote)
    requires s != []
    ensures var last := |s| - 1;
      OneEach(s, v) <==> OneEach(s[..last], v) && (s[last].vote == v ==> s[last].pid !in VotersIn(s[..last], v))
  {
    var last := |s| - 1;
    var before := s[..last];
    assert forall i :: 0 <= i < last ==> before[i] == s[i];
    if OneEach(before, v) && (s[last].vote == v ==> s[last].pid !in VotersIn(before, v)) {
      forall i, j | 0 <= i < j < |s| && s[i].vote == v && s[j].vote == v ensures s[i].pid != s[j].pid {
        if j == last {
          assert before[i].pid in VotersIn(before, v);
        }
      }
    }
  }

  lemma {:induction false} CountGrows(s: seq<Ballot>, t: nat, v: Vote)
    requires t <= |s|
    ensures Count(s[..t], v) <= Count(s, v)
  {
    if t < |s| {
      assert s[..|s| - 1][..t] == s[..t];
      CountGrows(s[..|s| - 1], t, v);
    } else {
      assert s[..t] == s;
    }
  }

  lemma {:induction false} FirstQuorumExists(s: seq<Ballot>, q: nat) returns (t: nat)
    requires q > 0 && AllDecided(s) && QuorumIn(s, q)
    ensures FirstQuorum(s, q, t)
  {
    var last := |s| - 1;
    if QuorumIn(s[..last], q) {
      t := FirstQuorumExists(s[..last], q);
      assert s[..last][..t] == s[..t] && s[..last][..t + 1] == s[..t + 1];
    } else {
      t := last;
      assert s[..t + 1] == s;
    }
  }

  /** The announcement is made at the first quorum: its value, unless two of the ballots are of one process. */
  lemma {:induction false} AnnouncedAt(s: seq<Ballot>, q: nat, t: nat)
    requires q > 0 && AllDecided(s) && FirstQuorum(s, q, t)
    ensures Announced(s, q) == if OneEach(s[..t + 1], s[t].vote) then s[t].vote else Undecided
  {
    hide OneEach;
    var last := |s| - 1;
    if t == last {
      assert s[..t + 1] == s;
      CountVoters(s, s[t].vote);
    } else {
      var before := s[..last];
      assert before[..t] == s[..t] && before[..t + 1] == s[..t + 1] && before[t] == s[t];
      CountGrows(before, t + 1, s[t].vote);
      AnnouncedAt(before, q, t);
    }
  }

  lemma {:induction false} NothingAnnounced(s: seq<Ballot>, q: nat)
    requires q > 0 && AllDecided(s) && !QuorumIn(s, q)
    ensures Announced(s, q) == Undecided
  {
    if s != [] {
      CountGrows(s, |s| - 1, Popular);
      CountGrows(s, |s| - 1, Unpopular);
    }
  }

  /** What comes after the first quorum does not matter. */
  lemma {:induction false} AnnouncedOfPrefix(s: seq<Ballot>, q: nat, m: nat)
    requires m <= |s| && QuorumIn(s[..m], q)
    ensures Announced(s, q) == Announced(s[..m], q)
  {
    if m < |s| {
      var before := s[..|s| - 1];
      assert before[..m] == s[..m];
      CountGrows(before, m, Popular);
      CountGrows(before, m, Unpopular);
      AnnouncedOfPrefix(before, q, m);
    } else {
      assert s[..m] == s;
    }
  }

  /** Without two of one process among the first quorum, exactly the values with a quorum of ballots are announced. */
  lemma AnnouncedUndecided(s: seq<Ballot>, q: nat)
    requires q > 0 && AllDecided(s)
    ensures Announced(s, q) == Undecided <==> !QuorumIn(s, q) || Crowded(s, q)
    ensures Announced(s, q) != Undecided ==> |VotersIn(s, Announced(s, q))| >= q
  {
    hide OneEach;
    if QuorumIn(s, q) {
      var t := FirstQuorumExists(s, q);
      AnnouncedAt(s, q, t);
      if t': nat :| FirstQuorum(s, q, t') && !OneEach(s[..t' + 1], s[t'].vote) {
        AnnouncedAt(s, q, t');
      }
      if OneEach(s[..t + 1], s[t].vote) {
        CountVoters(s[..t + 1], s[t].vote);
        assert s[..t + 1][t] == s[t];
        VotersGrow(s, t + 1, s[t].vote);
      }
    } else {
      NothingAnnounced(s, q);
      forall t: nat | t < |s| ensures !FirstQuorum(s, q, t) {
        CountGrows(s, t + 1, s[t].vote);
      }
    }
  }

  lemma VotersGrow(s: seq<Ballot>, t: nat, v: Vote)
    requires t <= |s|
    ensures |VotersIn(s[..t], v)| <= |VotersIn(s, v)|
  {
    forall p | p in VotersIn(s[..t], v) ensures p in VotersIn(s, v) {
      var i :| 0 <= i < t && s[..t][i].vote == v && s[..t][i].pid == p;
      assert s[i].pid == p;
    }
    SubsetSize(VotersIn(s[..t], v), VotersIn(s, v));
  }

  // ------------------------------------------------------------- the ballots of a unit

  /** Both values occur. */
  ghost predicate Mixed(votes: seq<Vote>) {
    Popular in votes && Unpopular in votes
  }

  /** Where the votes of one process are no longer looked at: after the first vote that makes them mixed. */
  ghost function Stop(votes: seq<Vote>, i: nat): (stop: nat)
    requires i <= |votes|
    ensures i <= stop <= |votes| && (stop == |votes| || Mixed(votes[..stop]))
    ensures forall k :: i <= k < stop ==> !Mixed(votes[..k])
    decreases |votes| - i
  {
    if i == |votes| || Mixed(votes[..i]) then i else Stop(votes, i + 1)
  }

  ghost function Looked(votes: seq<Vote>): seq<Vote> {
    votes[..Stop(votes, 0)]
  }

  ghost function VotesOf(cfg: Config, uc: Unit, found: seq<Unit>): (votes: seq<Vote>)
    requires cfg.Valid()
    ensures |votes| == |found| && forall i :: 0 <= i < |found| ==> votes[i] == Eff(cfg, uc, found[i])
  {
    seq(|found|, i requires 0 <= i < |found| => Eff(cfg, uc, found[i]))
  }

  ghost function Tag(pid: nat, votes: seq<Vote>): (s: seq<Ballot>)
    ensures |s| == |votes| && forall i :: 0 <= i < |votes| ==> s[i] == Ballot(pid, votes[i])
  {
    seq(|votes|, i requires 0 <= i < |votes| => Ballot(pid, votes[i]))
  }

  /** The votes of process `pid`: one for each unit of its floor that reaches the level under `u`. */
  ghost function BranchVotes(cfg: Config, uc: Unit, u: Unit, floors: seq<seq<Unit>>, pid: nat): seq<Vote>
    requires cfg.Valid() && pid < |floors| && u.level >= 1
  {
    VotesOf(cfg, uc, Landings(floors[pid], u.level - 1))
  }

  /** The ballots of the first `k` processes, in the order of the count. */
  ghost function Ballots(cfg: Config, uc: Unit, u: Unit, floors: seq<seq<Unit>>, k: nat): seq<Ballot>
    requires cfg.Valid() && k <= |floors| && u.level >= 1
  {
    if k == 0 then []
      else Ballots(cfg, uc, u, floors, k - 1) + Tag(k - 1, Looked(BranchVotes(cfg, uc, u, floors, k - 1)))
  }

  /** Processes are counted in their order, each one with the votes looked at in the order of its branches. */
  lemma {:induction false} BallotsInOrder(cfg: Config, uc: Unit, u: Unit, floors: seq<seq<Unit>>, k: nat)
    requires cfg.Valid() && k <= |floors| && u.level >= 1
    ensures forall i :: 0 <= i < |Ballots(cfg, uc, u, floors, k)| ==> Ballots(cfg, uc, u, floors, k)[i].pid < k
    ensures forall i, j :: 0 <= i < j < |Ballots(cfg, uc, u, floors, k)| ==>
      Ballots(cfg, uc, u, floors, k)[i].pid <= Ballots(cfg, uc, u, floors, k)[j].pid
  {
    hide Looked, BranchVotes;
    if k > 0 {
      BallotsInOrder(cfg, uc, u, floors, k - 1);
    }
  }

  /** Every value a process votes is among the votes looked at. */
  lemma LookedMembers(votes: seq<Vote>, v: Vote)
    requires forall w :: w in votes ==> w != Undecided
    ensures v in Looked(votes) <==> v in votes
  {
    if Stop(votes, 0) < |votes| {
      assert Mixed(Looked(votes));
    } else {
      assert Looked(votes) == votes;
    }
  }

  /** What a unit is counted through: its floors, and a level at which its ancestors have voted. */
  ghost predicate Countable(cfg: Config, uc: Unit, u: Unit, floors: seq<seq<Unit>>) {
    && cfg.Valid() && Compliant(cfg.committee, u) && u.level > uc.level + FIRST_VOTING_ROUND
    && IsFloors(cfg.committee, u, floors)
  }

  /** A process sees its own votes counted: each value it votes, and nothing undecided. */
  lemma BranchVoters(cfg: Config, uc: Unit, u: Unit, floors: seq<seq<Unit>>, pid: nat, v: Vote)
    requires Countable(cfg, uc, u, floors) && pid < cfg.committee.n
    ensures forall w :: w in BranchVotes(cfg, uc, u, floors, pid) ==> w != Undecided
    ensures v in BranchVotes(cfg, uc, u, floors, pid) <==> SeesVoter(cfg, uc, u, v, pid)
  {
    hide Compliant, Eff, Landings;
    var found := Landings(floors[pid], u.level - 1);
    var votes := BranchVotes(cfg, uc, u, floors, pid);
    LandingsList(cfg.committee, u, pid, floors[pid]);
    forall i | 0 <= i < |votes| ensures votes[i] != Undecided && SeesVoter(cfg, uc, u, votes[i], pid) {
      assert found[i] in found;
      EffIsDecided(cfg, uc, found[i]);
    }
    if SeesVoter(cfg, uc, u, v, pid) {
      var w :| PrimeBelow(u, w) && w.creator == pid && Eff(cfg, uc, w) == v;
      assert w in found;
      var i :| 0 <= i < |found| && found[i] == w;
      assert votes[i] == v;
    }
  }

  /** The ballots for a value come exactly from the processes that are seen to vote it. */
  lemma {:induction false} BallotVoters(cfg: Config, uc: Unit, u: Unit, floors: seq<seq<Unit>>, k: nat, v: Vote)
    requires Countable(cfg, uc, u, floors) && k <= cfg.committee.n
    ensures AllDecided(Ballots(cfg, uc, u, floors, k))
    ensures forall p: nat :: p in VotersIn(Ballots(cfg, uc, u, floors, k), v) <==> p < k && SeesVoter(cfg, uc, u, v, p)
  {
    hide Compliant, SeesVoter, IsFloor, BranchVotes, Looked;
    if k > 0 {
      var votes := BranchVotes(cfg, uc, u, floors, k - 1);
      BallotVoters(cfg, uc, u, floors, k - 1, v);
      BranchVoters(cfg, uc, u, floors, k - 1, v);
      forall w ensures w in Looked(votes) <==> w in votes { LookedMembers(votes, w); }
      assert forall i :: 0 <= i < |Looked(votes)| ==> Looked(votes)[i] in Looked(votes);
      VotersAppend(Ballots(cfg, uc, u, floors, k - 1), k - 1, Looked(votes), v);
    }
  }

  lemma VotersAppend(s: seq<Ballot>, pid: nat, votes: seq<Vote>, v: Vote)
    ensures VotersIn(s + Tag(pid, votes), v) == if v in votes then VotersIn(s, v) + {pid} else VotersIn(s, v)
  {
    var t := s + Tag(pid, votes);
    forall p ensures p in VotersIn(t, v) <==> p in VotersIn(s, v) || (v in votes && p == pid) {
      if p in VotersIn(t, v) {
        var i :| 0 <= i < |t| && t[i].vote == v && t[i].pid == p;
        assert i >= |s| ==> t[i] == Ballot(pid, votes[i - |s|]);
      }
      if p in VotersIn(s, v) {
        var i :| 0 <= i < |s| && s[i].vote == v && s[i].pid == p;
        assert t[i] == s[i];
      }
      if v in votes && p == pid {
        var i :| 0 <= i < |votes| && votes[i] == v;
        assert t[|s| + i] == Ballot(pid, v);
      }
    }
  }

  /** Some value has a quorum in the full tally. */
  ghost predicate HasDecision(cfg: Config, uc: Unit, u: Unit)
    requires cfg.Valid()
  {
    Decides(cfg, uc, u, Popular) || Decides(cfg, uc, u, Unpopular)
  }

  /**
   * The count against the full tally. What is announced has a quorum of processes; a decision of the full tally is
   * missed exactly if two of the first `q` equal ballots are of one process.
   */
  lemma TallyIsExact(cfg: Config, uc: Unit, u: Unit, floors: seq<seq<Unit>>)
    requires Countable(cfg, uc, u, floors)
    ensures var s, q := Ballots(cfg, uc, u, floors, cfg.committee.n), cfg.committee.q;
      && (Announced(s, q) != Undecided ==> Decides(cfg, uc, u, Announced(s, q)))
      && (Announced(s, q) == Undecided <==> !HasDecision(cfg, uc, u) || Crowded(s, q))
  {
    hide Compliant, IsFloor, SeesVoter, Announced, Crowded, Ballots;
    var s, q := Ballots(cfg, uc, u, floors, cfg.committee.n), cfg.committee.q;
    BallotVoters(cfg, uc, u, floors, cfg.committee.n, Popular);
    forall v ensures VotersIn(s, v) == VotersFor(cfg, uc, u, v) && |VotersIn(s, v)| <= Count(s, v) {
      BallotVoters(cfg, uc, u, floors, cfg.committee.n, v);
      CountVoters(s, v);
    }
    AnnouncedUndecided(s, q);
  }

  /** If no process has two branches that vote the same, nothing is missed. */
  lemma NoRepeatsNotCrowded(cfg: Config, uc: Unit, u: Unit, floors: seq<seq<Unit>>)
    requires Countable(cfg, uc, u, floors)
    requires forall pid :: 0 <= pid < cfg.committee.n ==> NoVoteTwice(BranchVotes(cfg, uc, u, floors, pid))
    ensures !Crowded(Ballots(cfg, uc, u, floors, cfg.committee.n), cfg.committee.q)
  {
    hide Compliant, IsFloor, BranchVotes;
    var s := Ballots(cfg, uc, u, floors, cfg.committee.n);
    forall t: nat, v | t <= |s| ensures OneEach(s[..t], v) {
      OneEachBallot(cfg, uc, u, floors, cfg.committee.n, v);
    }
  }

  ghost predicate NoVoteTwice(votes: seq<Vote>) {
    forall i, j :: 0 <= i < j < |votes| ==> votes[i] != votes[j]
  }

  lemma {:induction false} OneEachBallot(cfg: Config, uc: Unit, u: Unit, floors: seq<seq<Unit>>, k: nat, v: Vote)
    requires Countable(cfg, uc, u, floors) && k <= cfg.committee.n
    requires forall pid :: 0 <= pid < k ==> NoVoteTwice(BranchVotes(cfg, uc, u, floors, pid))
    ensures OneEach(Ballots(cfg, uc, u, floors, k), v)
  {
    hide Compliant, IsFloor, BranchVotes;
    if k > 0 {
      var before, votes := Ballots(cfg, uc, u, floors, k - 1), BranchVotes(cfg, uc, u, floors, k - 1);
      OneEachBallot(cfg, uc, u, floors, k - 1, v);
      BallotVoters(cfg, uc, u, floors, k - 1, v);
      forall i | 0 <= i < |before| && before[i].vote == v ensures before[i].pid < k - 1 {
        assert before[i].pid in VotersIn(before, v);
      }
    }
  }

  /** In particular nothing is missed by a unit that sees no fork. */
  lemma NoForkNotCrowded(cfg: Config, uc: Unit, u: Unit, floors: seq<seq<Unit>>)
    requires Countable(cfg, uc, u, floors) && SeesNoFork(u)
    ensures !Crowded(Ballots(cfg, uc, u, floors, cfg.committee.n), cfg.committee.q)
  {
    hide Compliant, SeesNoFork, Landings;
    forall pid | 0 <= pid < cfg.committee.n ensures NoVoteTwice(BranchVotes(cfg, uc, u, floors, pid)) {
      LoneLanding(u, pid, floors[pid], u.level - 1);
    }
    NoRepeatsNotCrowded(cfg, uc, u, floors);
  }
}
