/** The extender: picks timing units one after another from what the node sees. */
module Extending {
  import opened Units
  import opened Voting
  import opened DagViews
  import opened HashOrder
  import opened Deciding
  import opened Permutation
  import opened Runs

  /** A timing unit with the `zeroRound` timing units before it, `None` for those that do not exist. */
  datatype TimingRound = TimingRound(currentTU: Unit, lastTUs: seq<Option<Unit>>)

  /** The `k` timing units before position `m`, oldest first. */
  function Window(tus: seq<Unit>, m: nat, k: nat): seq<Option<Unit>>
    requires m <= |tus|
  {
    seq(k, j requires 0 <= j < k => if m - k + j >= 0 then Some(tus[m - k + j]) else None)
  }

  lemma WindowIs(tus: seq<Unit>, m: nat, k: nat)
    requires m <= |tus|
    ensures |Window(tus, m, k)| == k
    ensures forall j :: 0 <= j < k ==> Window(tus, m, k)[j] == if k - j <= m then Some(tus[m - (k - j)]) else None
  {
  }

  lemma WindowOfPrefix(tus: seq<Unit>, more: Unit, m: nat, k: nat)
    requires m <= |tus|
    ensures Window(tus + [more], m, k) == Window(tus, m, k)
  {
  }

  method MaxLevelOf(units: seq<Unit>, start: int) returns (m: int)
    ensures m >= start && forall i :: 0 <= i < |units| ==> units[i].level <= m
    ensures m == start || exists i :: 0 <= i < |units| && units[i].level == m
  {
    m := start;
    for i := 0 to |units|
      invariant m >= start && forall k :: 0 <= k < i ==> units[k].level <= m
      invariant m == start || exists k :: 0 <= k < i && units[k].level == m
    {
      if units[i].level > m {
        m := units[i].level;
      }
    }
  }

  /** The highest level in the dag, -1 when it is empty; every slot is read at its own time. */
  method DagMaxLevel(cfg: Config, feed: nat -> Reading, t: nat) returns (maxLevel: int, t': nat)
    requires Live(cfg, feed)
    ensures t <= t' && IsMaxLevel(UnitsAt(feed, t), UnitsAt(feed, t'), maxLevel)
    ensures maxLevel <= |feed(t').store|
  {
    hide Live, DagView.Consistent;
    maxLevel, t' := -1, t;
    for pid := 0 to cfg.committee.n
      invariant t <= t' && LevelAttained(UnitsAt(feed, t'), maxLevel)
      invariant forall u :: u in UnitsAt(feed, t) && u.creator < pid ==> u.level <= maxLevel
    {
      MaximalSlot(cfg, feed, t, t', pid);
      var m := MaxLevelOf(feed(t').view.maxUnits[pid], maxLevel);
      if m != maxLevel {
        ghost var i :| 0 <= i < |feed(t').view.maxUnits[pid]| && feed(t').view.maxUnits[pid][i].level == m;
        assert feed(t').view.maxUnits[pid][i] in feed(t').view.maxUnits[pid];
      }
      maxLevel := m;
      Grows(cfg, feed, t', t' + 1);
      t' := t' + 1;
    }
    LevelsRead(cfg, feed, t, t', maxLevel);
  }

  ghost predicate LevelAttained(units: set<Unit>, m: int) {
    m == -1 || (m >= 0 && exists u :: u in units && u.level == m)
  }

  lemma MaximalSlot(cfg: Config, feed: nat -> Reading, t: nat, at: nat, pid: nat)
    requires Live(cfg, feed) && t <= at && pid < cfg.committee.n
    ensures |feed(at).view.maxUnits| == cfg.committee.n
    ensures forall u :: u in feed(at).view.maxUnits[pid] ==> u in UnitsAt(feed, at)
    ensures forall u :: u in UnitsAt(feed, t) && u.creator == pid ==>
      exists m :: m in feed(at).view.maxUnits[pid] && u.level <= m.level
  {
    hide Live;
    Grows(cfg, feed, t, at);
    SoundAt(cfg, feed, at);
    var view := feed(at).view;
    forall u | u in UnitsAt(feed, t) && u.creator == pid
      ensures exists m :: m in view.maxUnits[pid] && u.level <= m.level
    {
      BelowMaximal(cfg.committee, view, u);
    }
  }

  lemma BelowMaximal(c: Committee, view: DagView, u: Unit)
    requires view.Consistent(c) && u in view.units
    ensures u.creator < c.n && |view.maxUnits| == c.n && exists m :: m in view.maxUnits[u.creator] && u.level <= m.level
  {
    assert view.UnderMaximal(u);
    var m :| m in view.maxUnits[u.creator] && OnChain(m, u);
    assert Compliant(c, m);
    ChainFacts(c, m, u);
  }

  lemma LevelsRead(cfg: Config, feed: nat -> Reading, t: nat, t': nat, m: int)
    requires Live(cfg, feed) && t <= t' && LevelAttained(UnitsAt(feed, t'), m)
    requires forall u :: u in UnitsAt(feed, t) && u.creator < cfg.committee.n ==> u.level <= m
    ensures IsMaxLevel(UnitsAt(feed, t), UnitsAt(feed, t'), m) && m <= |feed(t').store|
  {
    hide Live;
    SoundAt(cfg, feed, t);
    SoundAt(cfg, feed, t');
    forall u | u in UnitsAt(feed, t) ensures u.level <= m {
      assert Compliant(cfg.committee, u);
    }
  }

  /** No unit of `early` is above `m`, and some unit of `late` is on it. */
  ghost predicate IsMaxLevel(early: set<Unit>, late: set<Unit>, m: int) {
    LevelAttained(late, m) && forall u :: u in early ==> u.level <= m
  }

  /** All units of `s` before position `i` are settled as unpopular. */
  ghost predicate Rejected(cfg: Config, units: set<Unit>, s: seq<Unit>, i: nat)
    requires cfg.Valid()
  {
    forall j :: 0 <= j < i && j < |s| ==> SettledIn(cfg, s[j], units, Unpopular)
  }

  lemma RejectedLater(cfg: Config, units: set<Unit>, units': set<Unit>, s: seq<Unit>, i: nat)
    requires cfg.Valid() && Rejected(cfg, units, s, i) && units <= units'
    ensures Rejected(cfg, units', s, i)
  {
    hide Settles;
  }

  /** Why a node that held `span` cannot choose after `prev` yet; `bytes` is how many levels have random bytes. */
  ghost predicate Blocked(cfg: Config, span: Span, bytes: nat, dagMaxLevel: int, prev: Option<Unit>)
    requires cfg.Valid()
  {
    var level := NextLevel(cfg, prev);
    || dagMaxLevel < cfg.startLevel
    || dagMaxLevel < level + cfg.firstDecidingRound
    || (exists c :: c in span.late && c.level == level && EarlierUnpopular(cfg, span, prev, c)
          && OpenWithin(cfg, c, span.early, dagMaxLevel))
    || (bytes <= level + 5
          && forall c :: c in span.early && c.level == level && InPrefix(cfg, level, prev, c.creator) ==>
               SettledIn(cfg, c, span.late, Unpopular))
    || (forall c :: c in span.early && c.level == level && Tried(cfg, level, prev, c.creator) ==>
        SettledIn(cfg, c, span.late, Unpopular))
  }

  /** A node that reads from time `t` to `t'` cannot choose after `prev` yet. */
  ghost predicate BlockedWhile(cfg: Config, feed: nat -> Reading, t: nat, t': nat, prev: Option<Unit>)
    requires cfg.Valid()
  {
    exists t1, m ::
      t <= t1 <= t' && IsMaxLevel(UnitsAt(feed, t), UnitsAt(feed, t1), m)
        && Blocked(cfg, Span(UnitsAt(feed, t1), UnitsAt(feed, t')), |feed(t').store|, m, prev)
  }

  /** A process has two positions, or two units of the level the same priority. */
  ghost predicate MayPanic(cfg: Config, units: set<Unit>, prev: Option<Unit>)
    requires cfg.Valid()
  {
    !Distinct(Slots(cfg.committee.n, NextLevel(cfg, prev), prev)) || PriorityTie(cfg, units, NextLevel(cfg, prev))
  }

  class Extender {
    const cfg: Config
    var deciders: map<Unit, Decider>
    var lastTUs: seq<Option<Unit>>
    var currentTU: Option<Unit>
    var lastDecideResult: bool
    ghost var history: seq<Unit>
    ghost var spans: seq<Span>

    ghost predicate Valid(units: set<Unit>)
      reads this, deciders.Values
    {
      ValidState() && ValidDeciders(units)
    }

    /** The fields reflect the run so far. */
    ghost predicate ValidState()
      reads this
    {
      && cfg.Valid()
      && ValidRun(cfg, history, spans)
      && currentTU == Prev(history, |history|)
      && lastTUs == Window(history, if history == [] then 0 else |history| - 1, cfg.zeroRound)
    }

    ghost predicate ValidDeciders(units: set<Unit>)
      reads this, deciders.Values
    {
      forall c :: c in deciders ==> deciders[c].uc == c && deciders[c].cfg == cfg && deciders[c].Valid(units)
    }

    /** As the dag grows, what the deciders remember stays true. */
    lemma StaysValid(units: set<Unit>, units': set<Unit>)
      requires Valid(units) && units <= units'
      ensures Valid(units')
    {
      DecidersStayValid(units, units');
    }

    lemma DecidersStayValid(units: set<Unit>, units': set<Unit>)
      requires ValidDeciders(units) && units <= units'
      ensures ValidDeciders(units')
    {
      hide Decider.MemoValid, Settles;
      forall c | c in deciders ensures deciders[c].Valid(units') {
        assert deciders[c].Valid(units);
      }
    }

    constructor (cfg: Config)
      requires cfg.Valid()
      ensures this.cfg == cfg && history == [] && forall units :: Valid(units)
    {
      this.cfg := cfg;
      deciders := map[];
      lastTUs := seq(cfg.zeroRound, i => None);
      currentTU := None;
      lastDecideResult := false;
      history, spans := [], [];
    }

    method GetDecider(uc: Unit, ghost units: set<Unit>) returns (decider: Decider)
      requires cfg.Valid() && ValidDeciders(units) && uc.creator < cfg.committee.n
      modifies this`deciders
      ensures ValidDeciders(units)
      ensures uc in deciders && deciders[uc] == decider
      ensures fresh(deciders.Values - old(deciders.Values))
    {
      if uc in deciders {
        decider := deciders[uc];
      } else {
        decider := new Decider(cfg, uc);
        deciders := deciders[uc := decider];
      }
    }

    /** The popularity of one candidate, through its decider. */
    method DecideCandidate(uc: Unit, feed: nat -> Reading, t: nat, dagMaxLevel: int) returns (d: Vote, t': nat)
      requires cfg.Valid() && ValidDeciders(UnitsAt(feed, t)) && uc.creator < cfg.committee.n
      requires Live(cfg, feed) && dagMaxLevel <= |feed(t).store|
      modifies this`deciders, deciders.Values
      ensures t <= t' && ValidDeciders(UnitsAt(feed, t'))
      ensures fresh(deciders.Values - old(deciders.Values))
      ensures d != Undecided ==> SettledIn(cfg, uc, UnitsAt(feed, t'), d)
      ensures d == Undecided ==> OpenWithin(cfg, uc, UnitsAt(feed, t), dagMaxLevel)
    {
      hide SettledIn, OpenWithin, Live, Config.Valid, Decider.MemoValid, UnitsAt;
      var decider := GetDecider(uc, UnitsAt(feed, t));
      label before:
      d, t' := decider.DecideUnitIsPopular(feed, t, dagMaxLevel);
      Grows(cfg, feed, t, t');
      forall c | c in deciders
        ensures deciders[c].uc == c && deciders[c].cfg == cfg && deciders[c].Valid(UnitsAt(feed, t'))
      {
        assert old@before(deciders[c].Valid(UnitsAt(feed, t)));
        if deciders[c] != decider {
          SettledLater(cfg, c, UnitsAt(feed, t), UnitsAt(feed, t'), deciders[c].decision);
        }
      }
    }

    /** Tries candidates in order until one is popular or undecided. */
    method TryCandidates(perm: seq<Unit>, feed: nat -> Reading, t: nat, dagMaxLevel: int) returns (i: nat, d: Vote,
        t': nat)
      requires cfg.Valid() && ValidDeciders(UnitsAt(feed, t))
      requires forall c :: c in perm ==> c.creator < cfg.committee.n
      requires Live(cfg, feed) && dagMaxLevel <= |feed(t).store|
      modifies this`deciders, deciders.Values
      ensures t <= t' && ValidDeciders(UnitsAt(feed, t'))
      ensures fresh(deciders.Values - old(deciders.Values))
      ensures i <= |perm| && Rejected(cfg, UnitsAt(feed, t'), perm, i)
      ensures d == Unpopular <==> i == |perm|
      ensures d == Popular ==> SettledIn(cfg, perm[i], UnitsAt(feed, t'), Popular)
      ensures d == Undecided ==> OpenWithin(cfg, perm[i], UnitsAt(feed, t), dagMaxLevel)
    {
      hide SettledIn, OpenWithin, Live, ValidDeciders, Config.Valid, UnitsAt, Rejected;
      i, t' := 0, t;
      NothingRejected(cfg, UnitsAt(feed, t), perm);
      while i < |perm|
        invariant i <= |perm| && t <= t' && Rejected(cfg, UnitsAt(feed, t'), perm, i)
        invariant ValidDeciders(UnitsAt(feed, t'))
        invariant fresh(deciders.Values - old(deciders.Values))
      {
        assert perm[i] in perm;
        ghost var at := t';
        Grows(cfg, feed, t, t');
        d, t' := DecideCandidate(perm[i], feed, t', dagMaxLevel);
        Grows(cfg, feed, at, t');
        RejectedLater(cfg, UnitsAt(feed, at), UnitsAt(feed, t'), perm, i);
        if d != Unpopular {
          if d == Undecided {
            OpenFewer(cfg, perm[i], UnitsAt(feed, t), UnitsAt(feed, at), dagMaxLevel);
          }
          return;
        }
        RejectNext(cfg, UnitsAt(feed, t'), perm, i);
        i := i + 1;
      }
      d := Unpopular;
    }

    /**
     * Goes through the common permutation of the next level; its random part is built only when needed. Candidates are
     * listed from time `t` on.
     */
    method Choose(feed: nat -> Reading, t: nat, dagMaxLevel: int) returns (tu: Option<Unit>, t': nat, panics: bool)
      requires cfg.Valid() && ValidDeciders(UnitsAt(feed, t)) && Live(cfg, feed) && dagMaxLevel <= |feed(t).store|
      requires LevelAttained(UnitsAt(feed, t), dagMaxLevel)
      requires dagMaxLevel >= NextLevel(cfg, currentTU) + cfg.firstDecidingRound
      modifies this`deciders, deciders.Values
      ensures t <= t' && ValidDeciders(UnitsAt(feed, t'))
      ensures fresh(deciders.Values - old(deciders.Values))
      ensures var span := Span(UnitsAt(feed, t), UnitsAt(feed, t'));
        && (tu.Some? ==> ValidChoice(cfg, span, currentTU, tu.value))
        && (tu.None? && !panics ==> Blocked(cfg, span, |feed(t').store|, dagMaxLevel, currentTU))
      ensures panics ==> tu.None? && MayPanic(cfg, UnitsAt(feed, t'), currentTU)
    {
      hide *;
      var level := NextLevel(cfg, currentTU);
      ghost var early := UnitsAt(feed, t);
      HasProcesses(cfg);
      var prefix, suffix := SplitProcesses(cfg.committee.n, cfg.fixedPrefix, level, currentTU);
      SplitParts(cfg, level, currentTU, prefix, suffix);
      var perm, t1 := DefaultPermutation(cfg, feed, t, level, prefix);
      Grows(cfg, feed, t, t1);
      DecidersStayValid(early, UnitsAt(feed, t1));
      CandidateCreators(cfg, early, UnitsAt(feed, t1), level, prefix, perm);
      var i, d, t2 := TryCandidates(perm, feed, t1, dagMaxLevel);
      Grows(cfg, feed, t1, t2);
      CollectsLater(early, UnitsAt(feed, t1), UnitsAt(feed, t2), level, prefix, perm);
      if d != Unpopular {
        StillOpen(cfg, early, UnitsAt(feed, t1), perm, i, d, dagMaxLevel);
        PrefixChoice(cfg, Span(early, UnitsAt(feed, t2)), |feed(t2).store|, dagMaxLevel, currentTU, prefix, suffix,
          perm, i);
        return if d == Popular then Some(perm[i]) else None, t2, false;
      }
      var listing, t3, listed := RandomPermutation(cfg, feed, t2, level, suffix);
      Grows(cfg, feed, t2, t3);
      Grows(cfg, feed, t, t2);
      RejectedLater(cfg, UnitsAt(feed, t2), UnitsAt(feed, t3), perm, |perm|);
      CollectsLater(early, UnitsAt(feed, t2), UnitsAt(feed, t3), level, prefix, perm);
      DecidersStayValid(UnitsAt(feed, t2), UnitsAt(feed, t3));
      if listing.Panics? {
        SuffixDistinct(cfg, UnitsAt(feed, t3), currentTU, prefix, suffix);
        return None, t3, true;
      }
      if listing.NoBytes? {
        BytesLate(feed(t3), level, suffix);
        PrefixRejected(cfg, Span(early, UnitsAt(feed, t3)), |feed(t3).store|, dagMaxLevel, currentTU, prefix, suffix,
          perm);
        return None, t3, false;
      }
      var perm' := listing.perm;
      CollectsEarlier(early, UnitsAt(feed, t2), UnitsAt(feed, t3), level, suffix, perm');
      CandidateCreators(cfg, early, UnitsAt(feed, t3), level, suffix, perm');
      i, d, t' := TryCandidates(perm', feed, t3, dagMaxLevel);
      Grows(cfg, feed, t3, t');
      RejectedLater(cfg, UnitsAt(feed, t3), UnitsAt(feed, t'), perm, |perm|);
      CollectsLater(early, UnitsAt(feed, t3), UnitsAt(feed, t'), level, prefix, perm);
      CollectsLater(early, UnitsAt(feed, t3), UnitsAt(feed, t'), level, suffix, perm');
      panics := false;
      if d != Unpopular {
        StillOpen(cfg, early, UnitsAt(feed, t3), perm', i, d, dagMaxLevel);
        SuffixChoice(cfg, Span(early, UnitsAt(feed, t')), |feed(t').store|, dagMaxLevel, currentTU, prefix, suffix,
          perm, perm', i);
        return if d == Popular then Some(perm'[i]) else None, t', false;
      }
      AllRejected(cfg, Span(early, UnitsAt(feed, t')), |feed(t').store|, dagMaxLevel, currentTU, prefix, suffix, perm,
        perm');
      return None, t', false;
    }

    /**
     * Tries to pick the next timing unit, reading the dag while others insert into it. What it returns is a valid
     * choice for what the node held meanwhile, together with exactly the `zeroRound` timing units before it; if it
     * returns nothing, the choice is still blocked, unless sorting by priority panics.
     */
    method NextRound(feed: nat -> Reading, t: nat)
        returns (round: Option<TimingRound>, t': nat, panics: bool, ghost span: Span)
      requires Valid(UnitsAt(feed, t)) && Live(cfg, feed)
      modifies this, deciders.Values
      ensures t <= t' && Valid(UnitsAt(feed, t')) && fresh(deciders.Values - old(deciders.Values))
      ensures exists t1 :: t <= t1 <= t' && span == Span(UnitsAt(feed, t1), UnitsAt(feed, t'))
      ensures panics ==> round.None? && MayPanic(cfg, span.late, currentTU)
      ensures lastDecideResult <==> round.Some?
      ensures round.None? ==>
        history == old(history) && spans == old(spans) && currentTU == old(currentTU) && lastTUs == old(lastTUs)
      ensures round.None? && !panics ==> BlockedWhile(cfg, feed, t, t', currentTU)
      ensures round.Some? ==>
        && history == old(history) + [round.value.currentTU] && spans == old(spans) + [span]
        && ValidChoice(cfg, span, old(currentTU), round.value.currentTU)
        && round.value.lastTUs == Window(history, |history| - 1, cfg.zeroRound)
      ensures round.Some? ==> |round.value.lastTUs| == cfg.zeroRound && forall k :: 0 <= k < cfg.zeroRound ==>
        round.value.lastTUs[k] ==
          if cfg.zeroRound - k < |history| then Some(history[|history| - 1 - (cfg.zeroRound - k)]) else None
    {
      hide ValidRun, ValidChoice, Blocked, Live, Decider.Valid, UnitsAt, Window, MayPanic;
      lastDecideResult := false;
      var dagMaxLevel, t1 := DagMaxLevel(cfg, feed, t);
      t', panics := t1, false;
      Grows(cfg, feed, t, t1);
      DecidersStayValid(UnitsAt(feed, t), UnitsAt(feed, t1));
      span := Span(UnitsAt(feed, t1), UnitsAt(feed, t1));
      TooLow(cfg, span, |feed(t1).store|, dagMaxLevel, currentTU);
      if dagMaxLevel < cfg.startLevel {
        return None, t1, false, span;
      }
      var level := NextLevel(cfg, currentTU);
      if dagMaxLevel < level + cfg.firstDecidingRound {
        return None, t1, false, span;
      }
      var tu;
      tu, t', panics := Choose(feed, t1, dagMaxLevel);
      span := Span(UnitsAt(feed, t1), UnitsAt(feed, t'));
      if tu.None? {
        return None, t', panics, span;
      }
      Record(span, tu.value);
      WindowIs(history, |history| - 1, cfg.zeroRound);
      return Some(TimingRound(currentTU.value, lastTUs)), t', false, span;
    }

    /** Makes `tu` the current timing unit and slides the window of the previous ones. */
    method Record(ghost span: Span, tu: Unit)
      requires ValidState() && ValidChoice(cfg, span, currentTU, tu)
      modifies this
      ensures ValidState() && currentTU == Some(tu) && deciders == map[] && lastDecideResult
      ensures history == old(history) + [tu] && spans == old(spans) + [span]
      ensures lastTUs == Window(history, |history| - 1, cfg.zeroRound)
    {
      hide ValidChoice;
      WindowStep(history, tu, cfg.zeroRound);
      RunExtends(cfg, history, spans, span, tu);
      lastTUs := lastTUs[1..] + [currentTU];
      currentTU := Some(tu);
      lastDecideResult := true;
      deciders := map[];
      history, spans := history + [tu], spans + [span];
    }
  }

  lemma WindowStep(tus: seq<Unit>, tu: Unit, k: nat)
    requires k > 0
    ensures var m := |tus|;
      Window(tus + [tu], m, k) == Window(tus, if m == 0 then 0 else m - 1, k)[1..] + [Prev(tus, m)]
  {
    var m := |tus|;
    var before := Window(tus, if m == 0 then 0 else m - 1, k);
    var after := Window(tus + [tu], m, k);
    forall j | 0 <= j < k
      ensures after[j] == (before[1..] + [Prev(tus, m)])[j]
    {
    }
  }

  lemma RunExtends(cfg: Config, tus: seq<Unit>, spans: seq<Span>, span: Span, tu: Unit)
    requires cfg.Valid() && ValidRun(cfg, tus, spans) && ValidChoice(cfg, span, Prev(tus, |tus|), tu)
    ensures ValidRun(cfg, tus + [tu], spans + [span])
  {
    hide ValidChoice;
    var tus', spans' := tus + [tu], spans + [span];
    forall i | 0 <= i < |tus'| ensures ValidChoice(cfg, spans'[i], Prev(tus', i), tus'[i]) {
      assert Prev(tus', i) == Prev(tus, i);
    }
  }

  lemma SettledLater(cfg: Config, uc: Unit, units: set<Unit>, units': set<Unit>, v: Vote)
    requires cfg.Valid() && units <= units'
    ensures SettledIn(cfg, uc, units, v) ==> SettledIn(cfg, uc, units', v)
  {
    hide Settles;
  }

  lemma NothingRejected(cfg: Config, units: set<Unit>, s: seq<Unit>)
    requires cfg.Valid()
    ensures Rejected(cfg, units, s, 0)
  {
  }

  lemma RejectNext(cfg: Config, units: set<Unit>, s: seq<Unit>, i: nat)
    requires cfg.Valid() && i < |s| && Rejected(cfg, units, s, i) && SettledIn(cfg, s[i], units, Unpopular)
    ensures Rejected(cfg, units, s, i + 1)
  {
    hide SettledIn;
  }

  lemma OpenFewer(cfg: Config, uc: Unit, units: set<Unit>, units': set<Unit>, dagMaxLevel: int)
    requires cfg.Valid() && units <= units' && OpenWithin(cfg, uc, units', dagMaxLevel)
    ensures OpenWithin(cfg, uc, units, dagMaxLevel)
  {
    hide Open;
  }

  lemma StillOpen(cfg: Config, early: set<Unit>, units: set<Unit>, perm: seq<Unit>, i: nat, d: Vote, dagMaxLevel: int)
    requires cfg.Valid() && early <= units && i < |perm|
    requires d == Undecided ==> OpenWithin(cfg, perm[i], units, dagMaxLevel)
    ensures d == Undecided ==> OpenWithin(cfg, perm[i], early, dagMaxLevel)
  {
    hide OpenWithin;
    if d == Undecided {
      OpenFewer(cfg, perm[i], early, units, dagMaxLevel);
    }
  }

  lemma CollectsLater(early: set<Unit>, late: set<Unit>, later: set<Unit>, level: nat, pids: seq<nat>, s: seq<Unit>)
    requires Collects(early, late, level, pids, s) && late <= later
    ensures Collects(early, later, level, pids, s)
  {
  }

  lemma CollectsEarlier(earlier: set<Unit>, early: set<Unit>, late: set<Unit>, level: nat, pids: seq<nat>, s: seq<Unit>)
    requires Collects(early, late, level, pids, s) && earlier <= early
    ensures Collects(earlier, late, level, pids, s)
  {
  }

  lemma BytesLate(r: Reading, level: nat, pids: seq<nat>)
    requires BytesMissing(r, level, pids)
    ensures |r.store| <= level + 5
  {
  }

  lemma SuffixDistinct(cfg: Config, units: set<Unit>, prev: Option<Unit>, prefix: seq<nat>, suffix: seq<nat>)
    requires cfg.Valid() && prefix + suffix == Slots(cfg.committee.n, NextLevel(cfg, prev), prev)
    requires !Distinct(suffix) || PriorityTie(cfg, units, NextLevel(cfg, prev))
    ensures MayPanic(cfg, units, prev)
  {
    hide PriorityTie, Slot;
    var s := Slots(cfg.committee.n, NextLevel(cfg, prev), prev);
    if i, j :| 0 <= i < j < |suffix| && suffix[i] == suffix[j] {
      assert s[|prefix| + i] == s[|prefix| + j];
    }
  }

  /** Without ties, and with few enough processes for the 16-bit rotation, nothing panics. */
  lemma NoPanic(cfg: Config, world: set<Unit>, units: set<Unit>, prev: Option<Unit>)
    requires cfg.Valid() && NoTies(cfg, world) && units <= world && 2 * cfg.committee.n <= UINT16_VALUES
    requires prev.Some? ==> prev.value.creator < cfg.committee.n
    ensures !MayPanic(cfg, units, prev)
  {
    hide Slots;
    SplitIsPermutation(cfg.committee.n, NextLevel(cfg, prev), prev);
    assert !PriorityTie(cfg, world, NextLevel(cfg, prev));
  }

  lemma HasProcesses(cfg: Config)
    requires cfg.Valid()
    ensures cfg.committee.n > 0
  {
  }

  /** The two parts of the split: the prefix, and whoever else has a position. */
  ghost predicate Parts(cfg: Config, level: nat, prev: Option<Unit>, prefix: seq<nat>, suffix: seq<nat>)
    requires cfg.Valid()
  {
    && (forall pid :: pid in prefix <==> InPrefix(cfg, level, prev, pid))
    && (forall pid :: Tried(cfg, level, prev, pid) <==> pid in prefix || pid in suffix)
  }

  lemma SplitParts(cfg: Config, level: nat, prev: Option<Unit>, prefix: seq<nat>, suffix: seq<nat>)
    requires cfg.Valid()
    requires prefix + suffix == Slots(cfg.committee.n, level, prev)
    requires |prefix| == PrefixLength(cfg.committee.n, cfg.fixedPrefix)
    ensures Parts(cfg, level, prev, prefix, suffix)
    ensures (forall pid :: pid in prefix ==> pid < cfg.committee.n)
    ensures (forall pid :: pid in suffix ==> pid < cfg.committee.n)
  {
    hide Slot;
    var s := Slots(cfg.committee.n, level, prev);
    assert s[..|prefix|] == prefix;
    assert forall pid :: pid in prefix + suffix <==> pid in prefix || pid in suffix;
    assert forall pid :: pid in s ==> pid < cfg.committee.n;
  }

  lemma CandidateCreators(cfg: Config, early: set<Unit>, late: set<Unit>, level: nat, pids: seq<nat>, perm: seq<Unit>)
    requires Collects(early, late, level, pids, perm) && forall pid :: pid in pids ==> pid < cfg.committee.n
    ensures forall c :: c in perm ==> c.creator < cfg.committee.n
  {
  }

  /** The first candidate that is not rejected is chosen if it is popular, and blocks the choice if it is undecided. */
  lemma FirstStanding(cfg: Config, span: Span, bytes: nat, dagMaxLevel: int, prev: Option<Unit>, c: Unit)
    requires cfg.Valid() && LevelAttained(span.early, dagMaxLevel)
    requires dagMaxLevel >= NextLevel(cfg, prev) + cfg.firstDecidingRound
    requires c in span.late && c.level == NextLevel(cfg, prev) && Tried(cfg, c.level, prev, c.creator)
    requires EarlierUnpopular(cfg, span, prev, c)
    ensures SettledIn(cfg, c, span.late, Popular) ==> ValidChoice(cfg, span, prev, c)
    ensures OpenWithin(cfg, c, span.early, dagMaxLevel) ==>
      Blocked(cfg, span, bytes, dagMaxLevel, prev)
  {
    hide SettledIn, OpenWithin, EarlierUnpopular, Tried;
  }

  lemma PrefixChoice(cfg: Config, span: Span, bytes: nat, dagMaxLevel: int, prev: Option<Unit>, prefix: seq<nat>,
      suffix: seq<nat>, perm: seq<Unit>, i: nat)
    requires cfg.Valid() && LevelAttained(span.early, dagMaxLevel)
    requires dagMaxLevel >= NextLevel(cfg, prev) + cfg.firstDecidingRound
    requires Parts(cfg, NextLevel(cfg, prev), prev, prefix, suffix)
    requires Collects(span.early, span.late, NextLevel(cfg, prev), prefix, perm) && SortedBy(perm, HashKey())
    requires i < |perm| && Rejected(cfg, span.late, perm, i)
    ensures SettledIn(cfg, perm[i], span.late, Popular) ==> ValidChoice(cfg, span, prev, perm[i])
    ensures OpenWithin(cfg, perm[i], span.early, dagMaxLevel) ==>
      Blocked(cfg, span, bytes, dagMaxLevel, prev)
  {
    hide SettledIn, OpenWithin, InPrefix, Tried, Less, SortedBy, ValidChoice, Blocked;
    var level := NextLevel(cfg, prev);
    assert perm[i] in perm;
    assert InPrefix(cfg, level, prev, perm[i].creator);
    forall c | c in span.early && c.level == level && Precedes(cfg, level, prev, c, perm[i])
      ensures SettledIn(cfg, c, span.late, Unpopular)
    {
      assert InPrefix(cfg, level, prev, c.creator);
      assert c in perm;
      SmallerIsEarlier(perm, HashKey(), i, c);
    }
    FirstStanding(cfg, span, bytes, dagMaxLevel, prev, perm[i]);
  }

  lemma PrefixRejected(cfg: Config, span: Span, bytes: nat, dagMaxLevel: int, prev: Option<Unit>, prefix: seq<nat>,
      suffix: seq<nat>, perm: seq<Unit>)
    requires cfg.Valid() && bytes <= NextLevel(cfg, prev) + 5
    requires Parts(cfg, NextLevel(cfg, prev), prev, prefix, suffix)
    requires Collects(span.early, span.late, NextLevel(cfg, prev), prefix, perm)
    requires Rejected(cfg, span.late, perm, |perm|)
    ensures Blocked(cfg, span, bytes, dagMaxLevel, prev)
  {
    hide SettledIn, OpenWithin, InPrefix, Tried, EarlierUnpopular;
    var level := NextLevel(cfg, prev);
    forall c | c in span.early && c.level == level && InPrefix(cfg, level, prev, c.creator)
      ensures SettledIn(cfg, c, span.late, Unpopular)
    {
      assert c in perm;
    }
  }

  lemma SuffixChoice(cfg: Config, span: Span, bytes: nat, dagMaxLevel: int, prev: Option<Unit>, prefix: seq<nat>,
      suffix: seq<nat>, perm: seq<Unit>, perm': seq<Unit>, i: nat)
    requires cfg.Valid() && LevelAttained(span.early, dagMaxLevel)
    requires dagMaxLevel >= NextLevel(cfg, prev) + cfg.firstDecidingRound
    requires Parts(cfg, NextLevel(cfg, prev), prev, prefix, suffix)
    requires Collects(span.early, span.late, NextLevel(cfg, prev), prefix, perm)
    requires Rejected(cfg, span.late, perm, |perm|)
    requires Collects(span.early, span.late, NextLevel(cfg, prev), suffix, perm')
    requires SortedBy(perm', PriorityKey(cfg, NextLevel(cfg, prev)))
    requires i < |perm'| && Rejected(cfg, span.late, perm', i)
    ensures SettledIn(cfg, perm'[i], span.late, Popular) ==> ValidChoice(cfg, span, prev, perm'[i])
    ensures OpenWithin(cfg, perm'[i], span.early, dagMaxLevel) ==>
      Blocked(cfg, span, bytes, dagMaxLevel, prev)
  {
    hide SettledIn, OpenWithin, InPrefix, Tried, Less, SortedBy, ValidChoice, Blocked;
    var level := NextLevel(cfg, prev);
    assert perm'[i] in perm';
    assert Tried(cfg, level, prev, perm'[i].creator);
    forall c | c in span.early && c.level == level && Tried(cfg, level, prev, c.creator)
      && Precedes(cfg, level, prev, c, perm'[i])
      ensures SettledIn(cfg, c, span.late, Unpopular)
    {
      if InPrefix(cfg, level, prev, c.creator) {
        assert c in perm;
      } else {
        assert c in perm';
        SmallerIsEarlier(perm', PriorityKey(cfg, level), i, c);
      }
    }
    FirstStanding(cfg, span, bytes, dagMaxLevel, prev, perm'[i]);
  }

  lemma TooLow(cfg: Config, span: Span, bytes: nat, dagMaxLevel: int, prev: Option<Unit>)
    requires cfg.Valid()
    ensures dagMaxLevel < cfg.startLevel || dagMaxLevel < NextLevel(cfg, prev) + cfg.firstDecidingRound
      ==> Blocked(cfg, span, bytes, dagMaxLevel, prev)
  {
  }

  lemma AllRejected(cfg: Config, span: Span, bytes: nat, dagMaxLevel: int, prev: Option<Unit>, prefix: seq<nat>,
      suffix: seq<nat>, perm: seq<Unit>, perm': seq<Unit>)
    requires cfg.Valid()
    requires Parts(cfg, NextLevel(cfg, prev), prev, prefix, suffix)
    requires Collects(span.early, span.late, NextLevel(cfg, prev), prefix, perm)
    requires Rejected(cfg, span.late, perm, |perm|)
    requires Collects(span.early, span.late, NextLevel(cfg, prev), suffix, perm')
    requires Rejected(cfg, span.late, perm', |perm'|)
    ensures Blocked(cfg, span, bytes, dagMaxLevel, prev)
  {
    hide SettledIn, OpenWithin, InPrefix, Tried, EarlierUnpopular;
    var level := NextLevel(cfg, prev);
    forall c | c in span.early && c.level == level && Tried(cfg, level, prev, c.creator)
      ensures SettledIn(cfg, c, span.late, Unpopular)
    {
      assert c in perm || c in perm';
    }
  }
}
