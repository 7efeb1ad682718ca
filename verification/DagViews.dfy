/** What one node sees of the dag at one moment, with the indices the ordering reads. */
module DagViews {
  import opened Units
  import opened Voting

  datatype DagView = DagView(
    units: set<Unit>,
    levelUnits: map<nat, seq<seq<Unit>>>,
    maxUnits: seq<seq<Unit>>)
  {
    /** The units of one level, a slot per process; empty slots for a level out of range. */
    function UnitsOnLevel(c: Committee, level: nat): seq<seq<Unit>> {
      if level in levelUnits then levelUnits[level] else seq(c.n, i => [])
    }

    /** The indices agree with the set of units. */
    ghost predicate Consistent(c: Committee) {
      && ParentClosed(units)
      && (forall u :: u in units ==> Compliant(c, u))
      && LevelsIndexed(c)
      && MaximalIndexed(c)
    }

    ghost predicate LevelsIndexed(c: Committee) {
      forall l: nat ::
        && |UnitsOnLevel(c, l)| == c.n
        && forall pid: nat :: pid < c.n ==> SlotIndexed(UnitsOnLevel(c, l)[pid], l, pid)
    }

    /** The slot lists the units of one level and process, each once. */
    ghost predicate SlotIndexed(slot: seq<Unit>, l: nat, pid: nat) {
      NoDup(slot) && forall u :: u in slot <==> u in units && u.level == l && u.creator == pid
    }

    ghost predicate MaximalIndexed(c: Committee) {
      && |maxUnits| == c.n
      && (forall pid: nat, u :: pid < c.n && u in maxUnits[pid] ==> u in units && u.creator == pid)
      && (forall u {:trigger UnderMaximal(u)} :: u in units ==> UnderMaximal(u))
    }

    /** `u` is on the chain of a maximal unit of its creator. */
    ghost predicate UnderMaximal(u: Unit) {
      u.creator < |maxUnits| && exists m :: m in maxUnits[u.creator] && OnChain(m, u)
    }
  }

  /** The bytes a node holds are the common ones, for a prefix of the levels. */
  ghost predicate StoreMatches(cfg: Config, store: seq<seq<Byte>>) {
    forall l :: 0 <= l < |store| ==> store[l] == cfg.rand(l)
  }

  /** The node holds random bytes for every level below the highest one it sees. */
  ghost predicate CoinAvailable(units: set<Unit>, store: seq<seq<Byte>>) {
    forall u :: u in units ==> u.level <= |store|
  }

  /** What can be read at one moment: the dag and the random bytes. */
  datatype Reading = Reading(view: DagView, store: seq<seq<Byte>>) {
    ghost predicate Sound(cfg: Config) {
      view.Consistent(cfg.committee) && StoreMatches(cfg, store) && CoinAvailable(view.units, store)
    }

    /** Nothing is lost from here to `later`. */
    ghost predicate UpTo(later: Reading) {
      view.units <= later.view.units && |store| <= |later.store|
    }
  }

  /** Successive readings of a dag that others keep inserting into. */
  ghost predicate Live(cfg: Config, feed: nat -> Reading) {
    && (forall t :: feed(t).Sound(cfg))
    && (forall s, t :: s <= t ==> feed(s).UpTo(feed(t)))
  }

  ghost function UnitsAt(feed: nat -> Reading, t: nat): set<Unit> {
    feed(t).view.units
  }

  lemma Grows(cfg: Config, feed: nat -> Reading, s: nat, t: nat)
    requires Live(cfg, feed) && s <= t
    ensures UnitsAt(feed, s) <= UnitsAt(feed, t) && |feed(s).store| <= |feed(t).store|
  {
    assert feed(s).UpTo(feed(t));
  }

  lemma SoundAt(cfg: Config, feed: nat -> Reading, t: nat)
    requires Live(cfg, feed)
    ensures feed(t).view.Consistent(cfg.committee) && feed(t).view.LevelsIndexed(cfg.committee)
    ensures StoreMatches(cfg, feed(t).store) && CoinAvailable(UnitsAt(feed, t), feed(t).store)
  {
    hide DagView.LevelsIndexed, DagView.MaximalIndexed, ParentClosed;
    assert feed(t).Sound(cfg);
  }
}
