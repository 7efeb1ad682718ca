/** A whole node: units arrive and enter the dag while, at its own pace, the ordering reads it. */
module Nodes {
  import opened Units
  import opened Voting
  import opened DagViews
  import opened Permutation
  import opened Runs
  import opened TimingRounds
  import opened RoundOrder
  import opened Extending
  import opened Outputs
  import opened DagStore
  import opened Coining
  import Checks

  /** `log` holds what could be read at each moment so far: nothing is ever lost, and all of it is part of the world. */
  ghost predicate LogValid(cfg: Config, world: set<Unit>, log: seq<Reading>) {
    && |log| > 0
    && (forall i :: 0 <= i < |log| ==> log[i].Sound(cfg) && log[i].view.units <= world)
    && (forall i, j :: 0 <= i <= j < |log| ==> log[i].UpTo(log[j]))
  }

  /** The moments at which the ordering reads: in order, none before `from`, none in the future. */
  ghost predicate Schedule(moments: nat -> nat, from: nat, now: nat) {
    && (forall t :: from <= moments(t) < now)
    && (forall s, t :: s <= t ==> moments(s) <= moments(t))
  }

  /** What the ordering reads. */
  function Feed(log: seq<Reading>, moments: nat -> nat): nat -> Reading
    requires |log| > 0
  {
    (t: nat) => if moments(t) < |log| then log[moments(t)] else log[|log| - 1]
  }

  class Node {
    const cfg: Config
    ghost const world: set<Unit>
    const dag: Dag
    const coin: Coin
    const ext: Extender
    var log: seq<Reading>
    var lastRead: nat
    var panicked: bool
    var output: seq<seq<Unit>>

    ghost predicate Valid()
      reads this, dag, dag.levelUnits, dag.heightUnits, coin, coin.randomBytes, ext, ext.deciders.Values
    {
      && Linked()
      && dag.Valid() && coin.Available(dag.units)
      && LogValid(cfg, world, log) && log[|log| - 1] == Now()
      && OrderingValid()
    }

    ghost predicate Linked()
      reads this
    {
      cfg.Valid() && World(cfg.committee, world) && dag.c == cfg.committee && coin.cfg == cfg && ext.cfg == cfg
    }

    ghost function Now(): Reading
      reads this, dag, dag.levelUnits, coin, coin.randomBytes
    {
      Reading(dag.View(), coin.randomBytes.contents)
    }

    /** The ordering has read up to some moment, and its output is that of its run. */
    ghost predicate OrderingValid()
      reads this, ext, ext.deciders.Values
    {
      && lastRead < |log| && ext.cfg == cfg && cfg.Valid() && ext.Valid(log[lastRead].view.units)
      && PartsOf(world, ext.spans)
      && Emits(cfg, ext.history, output)
    }

    constructor (cfg: Config, ghost world: set<Unit>, pid: nat, keys: Keys, epoch: nat, epochLength: nat)
      requires cfg.Valid() && World(cfg.committee, world)
      ensures Valid() && this.cfg == cfg && this.world == world && dag.units == {} && output == [] && !panicked
    {
      this.cfg, this.world := cfg, world;
      dag := new Dag(cfg.committee, epoch, epochLength);
      coin := new Coin(cfg, pid, keys);
      ext := new Extender(cfg);
      output := [];
      lastRead, panicked := 0, false;
      new;
      log := [Reading(dag.View(), coin.randomBytes.contents)];
      StartLog(this);
    }

    /** `u` was put together from units of the dag; if it passes the checks it is one of those ever made. */
    ghost predicate Arrives(u: Unit)
      reads this, dag
    {
      && u !in dag.units && u.creator < cfg.committee.n && (forall p :: IsParent(u, p) ==> p in dag.units)
      && u.level == LevelOver(u.parents, cfg.committee.q)
      && u.height == (if Predecessor(u).None? then 0 else Predecessor(u).value.height + 1)
      && (Compliant(cfg.committee, u) && Checks.MutesForkers(u) ==> u in world)
    }

    /** Runs the checks on a unit and inserts it if it passes all of them. The ordering goes on undisturbed. */
    method Receive(u: Unit) returns (ok: bool)
      requires Valid() && Arrives(u)
      modifies this`log, dag, dag.levelUnits, dag.heightUnits, coin`coinShares, coin.randomBytes
      ensures Valid() && lastRead == old(lastRead)
      ensures ok <==> Compliant(cfg.committee, u) && Checks.MutesForkers(u) && coin.DataValid(u)
      ensures dag.units == if ok then old(dag.units) + {u} else old(dag.units)
      ensures old(log) <= log
    {
      hide Compliant, World, PartsOf, Emits, Config.Valid, LogValid, Extender.Valid, Dag.Valid, Coin.Available,
        Coin.DataValid, LevelOver, Checks.MutesForkers;
      ArrivesAssembled(this, u);
      ok := Checks.Check(cfg.committee, u);
      if !ok {
        return;
      }
      ArrivesInsertable(this, u);
      ok := coin.CheckCompliance(u);
      if ok {
        Insert(u);
      }
    }

    /** Inserts a checked unit: first the hook of the coin, then the dag. */
    method Insert(u: Unit)
      requires Valid() && u in world && CanInsert(cfg.committee, dag.units, u) && coin.DataValid(u)
      modifies this`log, dag, dag.levelUnits, dag.heightUnits, coin`coinShares, coin.randomBytes
      ensures Valid() && dag.units == old(dag.units) + {u} && old(log) <= log
    {
      hide CanInsert, World, PartsOf, Emits, Config.Valid, LogValid, Extender.Valid, Dag.Valid, Coin.Available,
        Coin.DataValid;
      coin.Update(dag.units, u);
      dag.Insert(u);
      ghost var before := log;
      log := log + [Reading(dag.View(), coin.randomBytes.contents)];
      LogGrows(this, before, u);
    }

    /**
     * Picks and orders timing rounds until the next one is blocked, reading the dag at the given moments, possibly long
     * after it has moved on.
     */
    method OrderRounds(moments: nat -> nat)
      requires Valid() && !panicked && Schedule(moments, lastRead, |log|)
      modifies this`output, this`lastRead, this`panicked, ext, ext.deciders.Values
      ensures Valid() && old(output) <= output && old(lastRead) <= lastRead
      ensures !panicked ==> exists t, t' ::
        t <= t' && moments(t') == lastRead && BlockedWhile(cfg, Feed(log, moments), t, t', ext.currentTU)
      ensures NoTies(cfg, world) && 2 * cfg.committee.n <= UINT16_VALUES ==> !panicked
    {
      hide World, PartsOf, Emits, Dag.Valid, Coin.Available, Config.Valid, Extender.Valid, LogValid, Live, Schedule,
        Feed, BlockedWhile;
      LogNonempty(cfg, world, log);
      var feed := Feed(log, moments);
      FeedIsLive(cfg, world, log, moments, lastRead);
      ghost var m := Highest(log[|log| - 1].view.units);
      BelowHighest(cfg, world, log, moments, m);
      StartReading(this, moments);
      var more, t := true, 0;
      ghost var from := 0;
      while more
        invariant from <= t && (!more && !panicked ==> BlockedWhile(cfg, feed, from, t, ext.currentTU))
        invariant Linked() && PartsOf(world, ext.spans) && ext.Valid(UnitsAt(feed, t))
        invariant Emits(cfg, ext.history, output)
        invariant old(output) <= output && unchanged(this`log, this`lastRead)
        invariant NoTies(cfg, world) && 2 * cfg.committee.n <= UINT16_VALUES ==> !panicked
        invariant fresh(ext.deciders.Values - old(ext.deciders.Values))
        decreases more, m + 2 - |ext.history|
      {
        from := t;
        more, t, panicked := OrderRound(feed, t, m);
      }
      FeedReads(cfg, world, log, moments, lastRead, t);
      lastRead := moments(t);
    }

    /** Picks the next timing unit, if it can be decided; what it hands over is fit for ordering. */
    method PickRound(feed: nat -> Reading, t: nat, ghost m: nat)
        returns (round: Option<TimingRound>, t': nat, panics: bool)
      requires Linked() && PartsOf(world, ext.spans) && ext.Valid(UnitsAt(feed, t))
      requires Live(cfg, feed) && forall s :: UnitsAt(feed, s) <= world && forall u :: u in UnitsAt(feed, s) ==>
        u.level <= m
      modifies ext, ext.deciders.Values
      ensures t <= t' && ext.Valid(UnitsAt(feed, t')) && PartsOf(world, ext.spans)
      ensures fresh(ext.deciders.Values - old(ext.deciders.Values))
      ensures round.None? ==> ext.history == old(ext.history)
      ensures round.None? && !panics ==> BlockedWhile(cfg, feed, t, t', ext.currentTU)
      ensures panics ==> round.None?
      ensures NoTies(cfg, world) && 2 * cfg.committee.n <= UINT16_VALUES ==> !panics
      ensures round.Some? ==>
        && ext.history == old(ext.history) + [round.value.currentTU] && |ext.history| <= m + 1
        && round.value.lastTUs == Window(ext.history, |ext.history| - 1, cfg.zeroRound)
        && Compliant(cfg.committee, round.value.currentTU) && !Ordered(round.value.lastTUs, round.value.currentTU)
        && LastIsHighest(round.value.lastTUs) && CompliantSlots(cfg.committee, round.value.lastTUs)
    {
      hide World, PartsOf, Config.Valid, ValidChoice, ValidRun, Window, BlockedWhile, Live, PartOf,
        Compliant, Ordered, LastIsHighest, CompliantSlots, Extender.ValidDeciders;
      ghost var span;
      round, t', panics, span := ext.NextRound(feed, t);
      if NoTies(cfg, world) && 2 * cfg.committee.n <= UINT16_VALUES {
        PreviousCreator(cfg, world, old(ext.history), old(ext.spans));
        NoPanic(cfg, world, UnitsAt(feed, t'), old(ext.currentTU));
      }
      if round.Some? {
        SpanIsPart(cfg, world, feed, t, t', span);
        NextPart(cfg, world, old(ext.spans), ext.history, ext.spans, span, m);
        WindowIsUsable(cfg, world, ext.history, ext.spans, |ext.history| - 1);
      }
    }

    /** Picks the next timing unit, if it can be decided, and emits its round. */
    method OrderRound(feed: nat -> Reading, t: nat, ghost m: nat) returns (more: bool, t': nat, panics: bool)
      requires Linked() && PartsOf(world, ext.spans) && ext.Valid(UnitsAt(feed, t)) && Emits(cfg, ext.history, output)
      requires Live(cfg, feed) && forall s :: UnitsAt(feed, s) <= world && forall u :: u in UnitsAt(feed, s) ==>
        u.level <= m
      modifies this`output, ext, ext.deciders.Values
      ensures t <= t' && PartsOf(world, ext.spans) && ext.Valid(UnitsAt(feed, t')) && Emits(cfg, ext.history, output)
      ensures old(output) <= output && fresh(ext.deciders.Values - old(ext.deciders.Values))
      ensures more ==> |old(ext.history)| < |ext.history| <= m + 1
      ensures !more && !panics ==> BlockedWhile(cfg, feed, t, t', ext.currentTU)
      ensures NoTies(cfg, world) && 2 * cfg.committee.n <= UINT16_VALUES ==> !panics
    {
      hide World, PartsOf, Emits, Config.Valid, Window, Compliant, Ordered, LastIsHighest, CompliantSlots,
        Extender.Valid, Live, BlockedWhile;
      var round;
      round, t', panics := PickRound(feed, t, m);
      if round.None? {
        return false, t', panics;
      }
      var units := OrderedUnits(cfg.committee, round.value.currentTU, round.value.lastTUs);
      EmitNext(cfg, ext.history, output, units);
      output := output + [units];
      return true, t', false;
    }
  }

  ghost function Highest(units: set<Unit>): (m: nat)
    ensures forall u :: u in units ==> u.level <= m
  {
    if units == {} then 0 else
    var u :| u in units;
    var m := Highest(units - {u});
    if u.level > m then u.level else m
  }

  lemma StartLog(node: Node)
    requires node.dag.Valid() && node.dag.units == {} && node.coin.Available({}) && node.cfg.Valid()
    requires node.dag.c == node.cfg.committee && node.coin.cfg == node.cfg
    requires node.log == [Reading(node.dag.View(), node.coin.randomBytes.contents)]
    ensures LogValid(node.cfg, node.world, node.log)
  {
    hide Dag.Valid, DagView.Consistent;
    node.dag.ViewIsConsistent();
  }

  lemma LogNonempty(cfg: Config, world: set<Unit>, log: seq<Reading>)
    requires LogValid(cfg, world, log)
    ensures |log| > 0
  {
  }

  lemma ArrivesAssembled(node: Node, u: Unit)
    requires node.Linked() && node.dag.Valid() && node.Arrives(u) && node.coin.Available(node.dag.units)
    ensures Checks.Assembled(node.cfg.committee, u) && StoreMatches(node.cfg, node.coin.randomBytes.contents)
  {
    hide Compliant, World, Files, MaxValid, ForkingHeightsValid, ParentClosed, LevelOver;
  }

  lemma ArrivesInsertable(node: Node, u: Unit)
    requires node.Linked() && node.dag.Valid() && node.Arrives(u) && Compliant(node.cfg.committee, u)
    requires node.coin.Available(node.dag.units)
    ensures CanInsert(node.cfg.committee, node.dag.units, u) && (u.height != 0 ==> u.level >= 1)
  {
    hide Compliant, World, Files, MaxValid, ForkingHeightsValid, ParentClosed, LevelOver;
    LevelUnderAvailable(node.cfg.committee, node.dag.units, u, node.coin.randomBytes.contents);
  }

  /** The log with the present appended is again a log. */
  lemma LogGrows(node: Node, before: seq<Reading>, u: Unit)
    requires node.Linked() && node.dag.Valid() && node.coin.Available(node.dag.units)
    requires LogValid(node.cfg, node.world, before)
    requires node.log == before + [node.Now()] && u in node.world
    requires node.dag.units == before[|before| - 1].view.units + {u}
    requires |before[|before| - 1].store| <= |node.coin.randomBytes.contents|
    ensures LogValid(node.cfg, node.world, node.log)
  {
    hide Dag.Valid, DagView.Consistent, World;
    node.dag.ViewIsConsistent();
    var log, last := node.log, |before| - 1;
    assert before[last].UpTo(node.Now()) && node.Now().Sound(node.cfg);
    forall i, j | 0 <= i <= j < |log| ensures log[i].UpTo(log[j]) {
      if j == |before| && i < j {
        assert before[i].UpTo(before[last]);
      }
    }
  }

  /** What the ordering reads at its moments are successive readings of a growing dag. */
  lemma FeedIsLive(cfg: Config, world: set<Unit>, log: seq<Reading>, moments: nat -> nat, from: nat)
    requires LogValid(cfg, world, log) && Schedule(moments, from, |log|)
    ensures Live(cfg, Feed(log, moments))
  {
    hide Reading.Sound, Reading.UpTo;
    var feed := Feed(log, moments);
    forall s, t | s <= t ensures feed(s).UpTo(feed(t)) {
      assert moments(s) <= moments(t);
    }
  }

  lemma FeedReads(cfg: Config, world: set<Unit>, log: seq<Reading>, moments: nat -> nat, from: nat, t: nat)
    requires LogValid(cfg, world, log) && Schedule(moments, from, |log|)
    ensures from <= moments(t) < |log| && UnitsAt(Feed(log, moments), t) == log[moments(t)].view.units
  {
  }

  lemma BelowHighest(cfg: Config, world: set<Unit>, log: seq<Reading>, moments: nat -> nat, m: nat)
    requires LogValid(cfg, world, log) && forall u :: u in log[|log| - 1].view.units ==> u.level <= m
    ensures forall s :: UnitsAt(Feed(log, moments), s) <= world && forall u :: u in UnitsAt(Feed(log, moments), s) ==>
      u.level <= m
  {
    hide Reading.Sound;
    forall s ensures UnitsAt(Feed(log, moments), s) <= log[|log| - 1].view.units {
      var i := if moments(s) < |log| then moments(s) else |log| - 1;
      assert log[i].UpTo(log[|log| - 1]);
    }
  }

  lemma StartReading(node: Node, moments: nat -> nat)
    requires node.OrderingValid() && LogValid(node.cfg, node.world, node.log)
    requires Schedule(moments, node.lastRead, |node.log|)
    ensures node.ext.Valid(UnitsAt(Feed(node.log, moments), 0))
  {
    hide Extender.Valid, Reading.Sound, PartsOf, Emits;
    FeedReads(node.cfg, node.world, node.log, moments, node.lastRead, 0);
    assert node.log[node.lastRead].UpTo(node.log[moments(0)]);
    node.ext.StaysValid(node.log[node.lastRead].view.units, UnitsAt(Feed(node.log, moments), 0));
  }

  lemma PreviousCreator(cfg: Config, world: set<Unit>, tus: seq<Unit>, spans: seq<Span>)
    requires cfg.Valid() && World(cfg.committee, world) && ValidRun(cfg, tus, spans) && PartsOf(world, spans)
    ensures tus != [] ==> tus[|tus| - 1].creator < cfg.committee.n
  {
    hide World, ValidRun, PartsOf, Compliant;
    if tus != [] {
      RunInWorld(cfg, world, tus, spans, |tus| - 1);
      CreatorIsProcess(cfg.committee, tus[|tus| - 1]);
    }
  }

  lemma SpanIsPart(cfg: Config, world: set<Unit>, feed: nat -> Reading, t: nat, t': nat, span: Span)
    requires Live(cfg, feed) && (forall s :: UnitsAt(feed, s) <= world)
    requires exists t1 :: t <= t1 <= t' && span == Span(UnitsAt(feed, t1), UnitsAt(feed, t'))
    ensures PartOf(world, span)
  {
    hide Live;
    var t1 :| t <= t1 <= t' && span == Span(UnitsAt(feed, t1), UnitsAt(feed, t'));
    Grows(cfg, feed, t1, t');
    SoundAt(cfg, feed, t1);
  }

  /**
   * The run, extended by one choice made from a part of the world, stays within it; its length is bounded by the levels
   * seen.
   */
  lemma NextPart(cfg: Config, world: set<Unit>, before: seq<Span>, tus: seq<Unit>, spans: seq<Span>, span: Span, m: nat)
    requires cfg.Valid() && ValidRun(cfg, tus, spans) && |tus| > 0 && PartsOf(world, before)
    requires spans == before + [span] && PartOf(world, span) && forall u :: u in span.late ==> u.level <= m
    ensures PartsOf(world, spans) && |tus| <= m + 1
  {
    hide ValidChoice, ParentClosed, PartOf;
    var last := |tus| - 1;
    RunLevels(cfg, tus, spans, last);
    ChoiceLevel(cfg, spans[last], Prev(tus, last), tus[last]);
  }

  lemma EmitNext(cfg: Config, tus: seq<Unit>, rounds: seq<seq<Unit>>, units: seq<Unit>)
    requires |tus| > 0 && Emits(cfg, tus[..|tus| - 1], rounds)
    requires IsRoundOrder(Window(tus, |tus| - 1, cfg.zeroRound), tus[|tus| - 1], units)
    ensures Emits(cfg, tus, rounds + [units])
  {
    hide IsRoundOrder;
    var last := |tus| - 1;
    assert tus == tus[..last] + [tus[last]];
    forall i | 0 <= i < |tus| ensures IsRoundOrder(Window(tus, i, cfg.zeroRound), tus[i], (rounds + [units])[i]) {
      if i < last {
        WindowOfPrefix(tus[..last], tus[last], i, cfg.zeroRound);
      }
    }
  }

  /** Of what two nodes have put out, one is a prefix of the other. */
  lemma NodesAgree(a: Node, b: Node, m: nat)
    requires a.Valid() && b.Valid() && a.cfg == b.cfg && a.world == b.world && NoTies(a.cfg, a.world)
    requires m <= |a.output| && m <= |b.output|
    ensures a.output[..m] == b.output[..m] && Flatten(a.output[..m]) == Flatten(b.output[..m])
  {
    hide World, PartsOf, NoTies, Dag.Valid, Coin.Available, ValidRun, IsRoundOrder, LogValid;
    TotalOrderAgreement(a.cfg, a.world, a.ext.history, a.ext.spans, a.output, b.ext.history, b.ext.spans, b.output, m);
  }

  /** What a node has put out lists every unit below its timing units once, each after everything below it. */
  lemma OutputIsLinear(a: Node)
    requires a.Valid()
    ensures LinearExtension(a.ext.history, |a.ext.history|, Flatten(a.output))
  {
    hide World, PartsOf, Dag.Valid, Coin.Available, ValidRun, IsRoundOrder, LinearExtension, LogValid;
    RoundsPartition(a.cfg, a.world, a.ext.history, a.ext.spans, a.output, |a.ext.history|);
    assert a.output[..|a.output|] == a.output;
  }
}
