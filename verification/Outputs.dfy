/** The output of whole runs: rounds partition the order, and all nodes emit the same sequence. */
module Outputs {
  import opened Units
  import opened Voting
  import opened Deciding
  import opened Permutation
  import opened Runs
  import opened TimingRounds
  import opened RoundOrder
  import opened Extending

  lemma ChoiceLevel(cfg: Config, span: Span, prev: Option<Unit>, tu: Unit)
    requires cfg.Valid() && ValidChoice(cfg, span, prev, tu)
    ensures tu in span.late && tu.level == NextLevel(cfg, prev)
  {
    hide SettledIn, EarlierUnpopular;
  }

  lemma {:induction false} RunLevels(cfg: Config, tus: seq<Unit>, spans: seq<Span>, i: nat)
    requires cfg.Valid() && ValidRun(cfg, tus, spans) && i < |tus|
    ensures tus[i].level == cfg.startLevel + i
  {
    hide ValidChoice;
    ChoiceLevel(cfg, spans[i], Prev(tus, i), tus[i]);
    if i > 0 {
      RunLevels(cfg, tus, spans, i - 1);
    }
  }

  lemma RunInWorld(cfg: Config, world: set<Unit>, tus: seq<Unit>, spans: seq<Span>, i: nat)
    requires cfg.Valid() && World(cfg.committee, world) && ValidRun(cfg, tus, spans) && PartsOf(world, spans)
    requires i < |tus|
    ensures tus[i] in world && Compliant(cfg.committee, tus[i])
  {
    hide ValidChoice;
    ChoiceLevel(cfg, spans[i], Prev(tus, i), tus[i]);
  }

  /** A timing unit is below every timing unit at least `zeroRound` places later. */
  lemma LaterSeesEarlier(cfg: Config, world: set<Unit>, tus: seq<Unit>, spans: seq<Span>, j: nat, i: nat)
    requires cfg.Valid() && World(cfg.committee, world) && ValidRun(cfg, tus, spans) && PartsOf(world, spans)
    requires j + cfg.zeroRound <= i < |tus|
    ensures Reach(tus[i], tus[j])
  {
    hide World, Settles, EarlierUnpopular;
    RunLevels(cfg, tus, spans, i);
    RunLevels(cfg, tus, spans, j);
    RunInWorld(cfg, world, tus, spans, i);
    assert ValidChoice(cfg, spans[j], Prev(tus, j), tus[j]);
    var x :| x in spans[j].late && Settles(cfg, tus[j], x, Popular);
    PopularIsSeen(cfg, world, tus[j], x, tus[i]);
  }

  /** `u` is below one of the first `i` timing units. */
  ghost predicate OrderedBefore(tus: seq<Unit>, i: nat, u: Unit) {
    exists j :: 0 <= j < i && j < |tus| && Reach(tus[j], u)
  }

  /** Looking at the last `zeroRound` timing units is as good as looking at all of them. */
  lemma WindowIsExact(cfg: Config, world: set<Unit>, tus: seq<Unit>, spans: seq<Span>, i: nat, u: Unit)
    requires cfg.Valid() && World(cfg.committee, world) && ValidRun(cfg, tus, spans) && PartsOf(world, spans)
    requires i <= |tus|
    ensures Ordered(Window(tus, i, cfg.zeroRound), u) <==> OrderedBefore(tus, i, u)
  {
    hide World, ValidRun, PartsOf, Reach;
    var k := cfg.zeroRound;
    var w := Window(tus, i, k);
    if Ordered(w, u) {
      var l :| 0 <= l < |w| && w[l].Some? && Reach(w[l].value, u);
      assert Reach(tus[i - k + l], u);
    }
    if OrderedBefore(tus, i, u) {
      var j :| 0 <= j < i && j < |tus| && Reach(tus[j], u);
      if j >= i - k {
        assert w[j - (i - k)] == Some(tus[j]);
      } else {
        LaterSeesEarlier(cfg, world, tus, spans, j, i - 1);
        ReachTransitive(tus[i - 1], tus[j], u);
        assert w[k - 1] == Some(tus[i - 1]);
      }
    }
  }

  /** What the extender hands to the sorter meets the sorter's needs. */
  lemma WindowIsUsable(cfg: Config, world: set<Unit>, tus: seq<Unit>, spans: seq<Span>, i: nat)
    requires cfg.Valid() && World(cfg.committee, world) && ValidRun(cfg, tus, spans) && PartsOf(world, spans)
    requires i < |tus|
    ensures var w := Window(tus, i, cfg.zeroRound);
      LastIsHighest(w) && CompliantSlots(cfg.committee, w) && Compliant(cfg.committee, tus[i]) && !Ordered(w, tus[i])
  {
    hide World, ValidRun, PartsOf, Reach, Compliant;
    var k := cfg.zeroRound;
    var w := Window(tus, i, k);
    RunInWorld(cfg, world, tus, spans, i);
    RunLevels(cfg, tus, spans, i);
    forall l | 0 <= l < k && w[l].Some?
      ensures Compliant(cfg.committee, w[l].value) && w[l].value.level == cfg.startLevel + i - k + l
      ensures !Reach(w[l].value, tus[i])
    {
      RunInWorld(cfg, world, tus, spans, i - k + l);
      RunLevels(cfg, tus, spans, i - k + l);
      if Reach(w[l].value, tus[i]) {
        LevelsGrow(cfg.committee, w[l].value, tus[i]);
      }
    }
  }

  /** The rounds a node emits for its timing units. */
  ghost predicate Emits(cfg: Config, tus: seq<Unit>, rounds: seq<seq<Unit>>) {
    && |rounds| == |tus|
    && forall i {:trigger rounds[i]} :: 0 <= i < |tus| ==>
         IsRoundOrder(Window(tus, i, cfg.zeroRound), tus[i], rounds[i])
  }

  /** `s` lists each unit below the first `m` timing units once, and everything after what is below it. */
  ghost predicate LinearExtension(tus: seq<Unit>, m: nat, s: seq<Unit>) {
    && NoDup(s)
    && (forall u :: u in s <==> OrderedBefore(tus, m, u))
    && (forall i, j :: 0 <= i < |s| && 0 <= j < |s| && Below(s[j], s[i]) ==> i < j)
  }

  /** A round brings exactly the units below its timing unit and below no earlier one. */
  lemma RoundIsNew(cfg: Config, world: set<Unit>, tus: seq<Unit>, spans: seq<Span>, rounds: seq<seq<Unit>>, i: nat,
      u: Unit)
    requires cfg.Valid() && World(cfg.committee, world) && ValidRun(cfg, tus, spans) && PartsOf(world, spans)
    requires Emits(cfg, tus, rounds) && i < |tus|
    ensures u in rounds[i] <==> Reach(tus[i], u) && !OrderedBefore(tus, i, u)
  {
    hide World, ValidRun, PartsOf, Reach, OrderedBefore, Ordered;
    assert IsRoundOrder(Window(tus, i, cfg.zeroRound), tus[i], rounds[i]);
    WindowIsExact(cfg, world, tus, spans, i, u);
  }

  lemma OrderedBeforeStep(tus: seq<Unit>, m: nat, u: Unit)
    requires m < |tus|
    ensures OrderedBefore(tus, m + 1, u) <==> OrderedBefore(tus, m, u) || Reach(tus[m], u)
  {
  }

  lemma OrderedBeforeDown(tus: seq<Unit>, m: nat, u: Unit, v: Unit)
    requires OrderedBefore(tus, m, u) && Below(u, v)
    ensures OrderedBefore(tus, m, v)
  {
    var j :| 0 <= j < m && j < |tus| && Reach(tus[j], u);
    ReachUnfold(u, v);
    ReachTransitive(tus[j], u, v);
  }

  lemma AppendRound(tus: seq<Unit>, m: nat, s: seq<Unit>, w: seq<Option<Unit>>, r: seq<Unit>)
    requires m < |tus| && LinearExtension(tus, m, s) && IsRoundOrder(w, tus[m], r)
    requires forall u :: u in r <==> Reach(tus[m], u) && !OrderedBefore(tus, m, u)
    ensures LinearExtension(tus, m + 1, s + r)
  {
    hide Reach, OrderedBefore, Below, LayerOf, Before, InRound;
    var t := s + r;
    forall u ensures u in t <==> OrderedBefore(tus, m + 1, u) {
      OrderedBeforeStep(tus, m, u);
    }
    forall i, j | 0 <= i < |t| && 0 <= j < |t|
      ensures (i < j ==> t[i] != t[j]) && (Below(t[j], t[i]) ==> i < j)
    {
      assert i < |s| ==> t[i] in s;
      assert j < |s| ==> t[j] in s;
      assert i >= |s| ==> t[i] == r[i - |s|] && t[i] in r;
      assert j >= |s| ==> t[j] == r[j - |s|] && t[j] in r;
      if Below(t[j], t[i]) {
        if j < |s| {
          OrderedBeforeDown(tus, m, t[j], t[i]);
        } else if i >= |s| {
          ParentsFirst(w, tus[m], r, i - |s|, j - |s|);
        }
      }
    }
  }

  /** Over a run the rounds are disjoint, and one after another they extend the order of the dag to a linear one. */
  lemma {:induction false} RoundsPartition(cfg: Config, world: set<Unit>, tus: seq<Unit>, spans: seq<Span>,
      rounds: seq<seq<Unit>>, m: nat)
    requires cfg.Valid() && World(cfg.committee, world) && ValidRun(cfg, tus, spans) && PartsOf(world, spans)
    requires Emits(cfg, tus, rounds) && m <= |tus|
    ensures LinearExtension(tus, m, Flatten(rounds[..m]))
  {
    hide World, ValidRun, PartsOf, Reach, LinearExtension, IsRoundOrder, OrderedBefore;
    if m == 0 {
      EmptyExtension(tus);
    } else {
      var n := m - 1;
      RoundsPartition(cfg, world, tus, spans, rounds, n);
      assert rounds[..m][..n] == rounds[..n];
      forall u ensures u in rounds[n] <==> Reach(tus[n], u) && !OrderedBefore(tus, n, u) {
        RoundIsNew(cfg, world, tus, spans, rounds, n, u);
      }
      AppendRound(tus, n, Flatten(rounds[..n]), Window(tus, n, cfg.zeroRound), rounds[n]);
    }
  }

  lemma EmptyExtension(tus: seq<Unit>)
    ensures LinearExtension(tus, 0, [])
  {
  }

  lemma WindowsAgree(tus: seq<Unit>, tus': seq<Unit>, m: nat, i: nat, k: nat)
    requires m <= |tus| && m <= |tus'| && tus[..m] == tus'[..m] && i < m
    ensures tus[i] == tus'[i] && Window(tus, i, k) == Window(tus', i, k)
  {
    forall j | 0 <= j < m ensures tus[j] == tus'[j] {
      assert tus[..m][j] == tus'[..m][j];
    }
  }

  /** What two nodes have emitted agrees as far as both have got: one output is a prefix of the other. */
  lemma {:induction false} TotalOrderAgreement(cfg: Config, world: set<Unit>,
      tus: seq<Unit>, spans: seq<Span>, rounds: seq<seq<Unit>>,
      tus': seq<Unit>, spans': seq<Span>, rounds': seq<seq<Unit>>, m: nat)
    requires cfg.Valid() && World(cfg.committee, world) && NoTies(cfg, world)
    requires ValidRun(cfg, tus, spans) && PartsOf(world, spans) && Emits(cfg, tus, rounds)
    requires ValidRun(cfg, tus', spans') && PartsOf(world, spans') && Emits(cfg, tus', rounds')
    requires m <= |tus| && m <= |tus'|
    ensures rounds[..m] == rounds'[..m] && Flatten(rounds[..m]) == Flatten(rounds'[..m])
  {
    hide World, ValidRun, PartsOf, NoTies, IsRoundOrder;
    RunsAgree(cfg, world, tus, spans, tus', spans', m);
    forall i | 0 <= i < m ensures rounds[i] == rounds'[i] {
      WindowsAgree(tus, tus', m, i, cfg.zeroRound);
      RoundHashes(cfg, world, tus, spans, rounds, i);
      RoundOrderUnique(Window(tus, i, cfg.zeroRound), tus[i], rounds[i], rounds'[i]);
    }
  }

  lemma RoundHashes(cfg: Config, world: set<Unit>, tus: seq<Unit>, spans: seq<Span>, rounds: seq<seq<Unit>>, i: nat)
    requires cfg.Valid() && World(cfg.committee, world) && NoTies(cfg, world)
    requires ValidRun(cfg, tus, spans) && PartsOf(world, spans) && Emits(cfg, tus, rounds) && i < |tus|
    ensures DistinctHashes(rounds[i])
  {
    hide Compliant, ValidRun, PartsOf, Reach, Ordered;
    RunInWorld(cfg, world, tus, spans, i);
    forall u | u in rounds[i] ensures u in world {
      assert InRound(Window(tus, i, cfg.zeroRound), tus[i], u);
      ClosedUnderReach(world, tus[i], u);
    }
    forall u, v | u in rounds[i] && v in rounds[i] && u.hash == v.hash ensures u == v {
      assert HashKey()(u) == HashKey()(v);
    }
  }
}
