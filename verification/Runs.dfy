/** Choosing timing units, and why every two nodes choose the same ones. */
module Runs {
  import opened Units
  import opened Voting
  import opened HashOrder
  import opened Deciding
  import opened Permutation

  /** The level of the timing unit that follows `prev`. */
  function NextLevel(cfg: Config, prev: Option<Unit>): nat {
    if prev.None? then cfg.startLevel else prev.value.level + 1
  }

  /** What a node holds while it makes one choice: at least `early`, in the end `late`. */
  datatype Span = Span(early: set<Unit>, late: set<Unit>)

  /** Every candidate held from the start and tried before `tu` is settled as unpopular in the end. */
  ghost predicate EarlierUnpopular(cfg: Config, span: Span, prev: Option<Unit>, tu: Unit)
    requires cfg.Valid()
  {
    forall c {:trigger Precedes(cfg, tu.level, prev, c, tu)} ::
      c in span.early && c.level == tu.level && Tried(cfg, tu.level, prev, c.creator)
        && Precedes(cfg, tu.level, prev, c, tu)
      ==> SettledIn(cfg, c, span.late, Unpopular)
  }

  /** A node that holds `span` and whose last timing unit is `prev` may choose `tu`. */
  ghost predicate ValidChoice(cfg: Config, span: Span, prev: Option<Unit>, tu: Unit)
    requires cfg.Valid()
  {
    && tu in span.late && tu.level == NextLevel(cfg, prev) && Tried(cfg, tu.level, prev, tu.creator)
    && (exists y :: y in span.early && y.level >= tu.level + cfg.firstDecidingRound)
    && SettledIn(cfg, tu, span.late, Popular)
    && EarlierUnpopular(cfg, span, prev, tu)
  }

  function Prev(tus: seq<Unit>, i: nat): Option<Unit>
    requires i <= |tus|
  {
    if i == 0 then None else Some(tus[i - 1])
  }

  /** A run of one node: its timing units and what it held when it chose each of them. */
  ghost predicate ValidRun(cfg: Config, tus: seq<Unit>, spans: seq<Span>)
    requires cfg.Valid()
  {
    && |tus| == |spans|
    && forall i {:trigger spans[i]} :: 0 <= i < |tus| ==> ValidChoice(cfg, spans[i], Prev(tus, i), tus[i])
  }

  /** What a run may hold: growing parent-closed parts of the world. */
  ghost predicate PartsOf(world: set<Unit>, spans: seq<Span>) {
    forall i :: 0 <= i < |spans| ==> PartOf(world, spans[i])
  }

  ghost predicate PartOf(world: set<Unit>, span: Span) {
    span.early <= span.late <= world && ParentClosed(span.early)
  }

  /** No two units of the world share a hash, and no two of a level a priority. */
  ghost predicate NoTies(cfg: Config, world: set<Unit>) {
    && DistinctKeys(world, HashKey())
    && forall level: nat :: !PriorityTie(cfg, world, level)
  }

  /** A popular unit cannot be missing from a view that is allowed to choose on its level. */
  lemma PopularNotMissing(cfg: Config, world: set<Unit>, units: set<Unit>, a: Unit, view: set<Unit>, y: Unit)
    requires cfg.Valid() && World(cfg.committee, world) && units <= world && view <= world && ParentClosed(view)
    requires SettledIn(cfg, a, units, Popular) && y in view && y.level >= a.level + cfg.firstDecidingRound
    ensures a in view
  {
    var x :| x in units && Settles(cfg, a, x, Popular);
    PopularIsSeen(cfg, world, a, x, y);
    ClosedUnderReach(view, y, a);
  }

  /** A candidate tried earlier than another node's choice is not a valid choice, even if it came late to that node. */
  lemma NotOverlooked(cfg: Config, world: set<Unit>, prev: Option<Unit>, span: Span, a: Unit, span': Span, b: Unit)
    requires cfg.Valid() && World(cfg.committee, world) && PartOf(world, span) && PartOf(world, span')
    requires ValidChoice(cfg, span, prev, a) && ValidChoice(cfg, span', prev, b)
    ensures !Precedes(cfg, NextLevel(cfg, prev), prev, a, b)
  {
    hide World, ParentClosed, Precedes, Tried, Settles;
    if Precedes(cfg, NextLevel(cfg, prev), prev, a, b) {
      var y :| y in span'.early && y.level >= b.level + cfg.firstDecidingRound;
      PopularNotMissing(cfg, world, span.late, a, span'.early, y);
      var x :| x in span.late && Settles(cfg, a, x, Popular);
      var z :| z in span'.late && Settles(cfg, a, z, Unpopular);
      DecisionAgreement(cfg, world, a, x, Popular, z, Unpopular);
    }
  }

  /** After the same timing unit, two nodes choose the same next one. */
  lemma SameChoice(cfg: Config, world: set<Unit>, prev: Option<Unit>, span: Span, a: Unit, span': Span, b: Unit)
    requires cfg.Valid() && World(cfg.committee, world) && NoTies(cfg, world) && PartOf(world, span)
    requires PartOf(world, span')
    requires ValidChoice(cfg, span, prev, a) && ValidChoice(cfg, span', prev, b)
    ensures a == b
  {
    hide World, ParentClosed, SettledIn, EarlierUnpopular;
    var level := NextLevel(cfg, prev);
    assert HashKey()(a) == a.hash && HashKey()(b) == b.hash;
    assert !PriorityTie(cfg, world, level);
    PrecedesIsTotal(cfg, level, prev, a, b);
    NotOverlooked(cfg, world, prev, span, a, span', b);
    NotOverlooked(cfg, world, prev, span', b, span, a);
  }

  /** Of any two runs over parts of one world, one's timing units are a prefix of the other's. */
  lemma {:induction false} RunsAgree(cfg: Config, world: set<Unit>, tus: seq<Unit>, spans: seq<Span>, tus': seq<Unit>,
      spans': seq<Span>, m: nat)
    requires cfg.Valid() && World(cfg.committee, world) && NoTies(cfg, world)
    requires ValidRun(cfg, tus, spans) && PartsOf(world, spans)
    requires ValidRun(cfg, tus', spans') && PartsOf(world, spans')
    requires m <= |tus| && m <= |tus'|
    ensures tus[..m] == tus'[..m]
  {
    hide World, NoTies, ValidChoice, ParentClosed;
    if m > 0 {
      RunsAgree(cfg, world, tus, spans, tus', spans', m - 1);
      assert Prev(tus, m - 1) == Prev(tus', m - 1) by {
        if m > 1 { assert tus[..m - 1][m - 2] == tus'[..m - 1][m - 2]; }
      }
      SameChoice(cfg, world, Prev(tus, m - 1), spans[m - 1], tus[m - 1], spans'[m - 1], tus'[m - 1]);
      assert tus[..m] == tus[..m - 1] + [tus[m - 1]];
      assert tus'[..m] == tus'[..m - 1] + [tus'[m - 1]];
    }
  }
}
