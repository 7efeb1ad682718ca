/** The coin: an append-only store of random bytes, filled from units before they enter the dag. */
module Coining {
  import opened Units
  import opened Voting
  import opened DagViews
  import opened Deciding
  import opened Extending
  import opened DagStore

  /** A list of byte strings that only grows at its end. */
  class SyncBytesSlice {
    var contents: seq<seq<Byte>>

    constructor ()
      ensures contents == []
    {
      contents := [];
    }

    /** Appends if the list is exactly as long as the caller expects. */
    method AppendOrIgnore(length: nat, data: seq<Byte>)
      modifies this
      ensures contents == if |old(contents)| == length then old(contents) + [data] else old(contents)
    {
      if |contents| == length {
        contents := contents + [data];
      }
    }

    function Get(pos: nat): Option<seq<Byte>>
      reads this
    {
      if pos < |contents| then Some(contents[pos]) else None
    }
  }

  /**
   * What the coin knows of the outside: `rsData(u)` is the random source data of a unit (`None` for nil), `isShare`
   * tells what unmarshals to a share, `share(l)` is our own share for level `l` and `combine` puts shares together.
   */
  datatype Keys = Keys(
    signatureLength: nat,
    providers: set<nat>,
    threshold: nat,
    rsData: Unit -> Option<seq<Byte>>,
    isShare: seq<Byte> -> bool,
    share: nat -> seq<Byte>,
    combine: seq<seq<Byte>> -> Option<seq<Byte>>)
  {
    function Data(u: Unit): seq<Byte> {
      Contents(rsData(u))
    }

    /** Where the share of a unit starts: dealing units carry no bytes of the level under them. */
    function Offset(height: nat): nat {
      if height == 0 then 0 else signatureLength
    }
  }

  function Contents(data: Option<seq<Byte>>): seq<Byte> {
    if data.Some? then data.value else []
  }

  /**
   * The rules for random data: a non-dealing unit starts with the bytes of the level under it; a share provider adds
   * a share; a dealing unit of anybody else carries nothing at all.
   */
  ghost predicate DataRule(cfg: Config, keys: Keys, creator: nat, height: nat, level: nat, data: Option<seq<Byte>>) {
    && (height != 0 ==> CarriesBytes(cfg, keys, level, data))
    && (creator in keys.providers ==>
          |Contents(data)| >= keys.Offset(height) && keys.isShare(Contents(data)[keys.Offset(height)..]))
    && (height == 0 && creator !in keys.providers ==> data.None?)
  }

  ghost predicate CarriesBytes(cfg: Config, keys: Keys, level: nat, data: Option<seq<Byte>>) {
    && level >= 1 && |Contents(data)| >= keys.signatureLength
    && Contents(data)[..keys.signatureLength] == cfg.rand(level - 1)
  }

  ghost predicate FromProvider(from: seq<Unit>, p: nat) {
    exists i :: 0 <= i < |from| && from[i].creator == p
  }

  /**
   * The random source of one node. The bytes of level `l` are the one threshold signature that verifies for it,
   * `cfg.rand(l)`.
   */
  class Coin {
    const cfg: Config
    const pid: nat
    const keys: Keys
    const randomBytes: SyncBytesSlice
    var coinShares: map<Unit, seq<Byte>>

    constructor (cfg: Config, pid: nat, keys: Keys)
      ensures this.cfg == cfg && this.pid == pid && this.keys == keys
      ensures fresh(randomBytes) && Available({})
    {
      this.cfg, this.pid, this.keys := cfg, pid, keys;
      coinShares := map[];
      randomBytes := new SyncBytesSlice();
    }

    /** The store holds the right bytes for every level below the highest in `units`, and the shares of all of them. */
    ghost predicate Available(units: set<Unit>)
      reads this, randomBytes
    {
      && StoreMatches(cfg, randomBytes.contents) && CoinAvailable(units, randomBytes.contents)
      && forall u :: u in units && u.creator in keys.providers ==>
           && |keys.Data(u)| >= keys.Offset(u.height)
           && u in coinShares && coinShares[u] == keys.Data(u)[keys.Offset(u.height)..]
    }

    ghost predicate DataValid(u: Unit) {
      DataRule(cfg, keys, u.creator, u.height, u.level, keys.rsData(u))
    }

    /** The check of the random data of a unit: against the store if it has the level, by the signature otherwise. */
    method CheckCompliance(u: Unit) returns (ok: bool)
      requires StoreMatches(cfg, randomBytes.contents) && (u.height != 0 ==> u.level >= 1)
      ensures ok <==> DataValid(u)
    {
      var data := keys.Data(u);
      if u.height == 0 && u.creator in keys.providers {
        assert data[0..] == data;
        return keys.isShare(data);
      }
      if u.height != 0 {
        if |data| < keys.signatureLength {
          return false;
        }
        var uRandomBytes := data[..keys.signatureLength];
        var rb := randomBytes.Get(u.level - 1);
        if rb.Some? {
          if rb.value != uRandomBytes {
            return false;
          }
        } else if !VerifySignature(uRandomBytes, u.level - 1) {
          return false;
        }
        if u.creator in keys.providers {
          return keys.isShare(data[keys.signatureLength..]);
        }
        return true;
      }
      return keys.rsData(u).None?;
    }

    /** Threshold signatures are unique. */
    predicate VerifySignature(bytes: seq<Byte>, level: nat) {
      bytes == cfg.rand(level)
    }

    /** The hook run before a checked unit is inserted: the store stays ahead of the dag and keeps its entries. */
    method Update(ghost units: set<Unit>, u: Unit)
      requires Available(units) && CanInsert(cfg.committee, units, u) && DataValid(u)
      modifies this`coinShares, randomBytes
      ensures Available(units + {u}) && old(randomBytes.contents) <= randomBytes.contents
      ensures randomBytes.contents ==
        if u.height != 0 && |old(randomBytes.contents)| == u.level - 1
        then old(randomBytes.contents) + [cfg.rand(u.level - 1)] else old(randomBytes.contents)
      ensures coinShares ==
        if u.creator in keys.providers then old(coinShares)[u := keys.Data(u)[keys.Offset(u.height)..]]
        else old(coinShares)
    {
      hide CanInsert;
      LevelUnderAvailable(cfg.committee, units, u, randomBytes.contents);
      if u.creator in keys.providers {
        coinShares := coinShares[u := keys.Data(u)[keys.Offset(u.height)..]];
      }
      if u.height != 0 {
        randomBytes.AppendOrIgnore(u.level - 1, keys.Data(u)[..keys.signatureLength]);
      }
    }

    /** `pid` provides a share through a unit of that level. */
    ghost predicate Provides(view: DagView, level: nat, provider: nat)
      reads this
    {
      && provider in keys.providers
      && exists v :: v in view.units && v.level == level && v.creator == provider && v in coinShares
    }

    /** `from` are units of the level by different providers, in order, and `shares` their shares. */
    ghost predicate Collected(view: DagView, level: nat, shares: seq<seq<Byte>>, from: seq<Unit>)
      reads this
    {
      && |from| == |shares|
      && (forall i :: 0 <= i < |from| ==>
            && from[i] in view.units && from[i].level == level && from[i].creator in keys.providers
            && from[i] in coinShares && shares[i] == coinShares[from[i]])
      && forall i, j :: 0 <= i < j < |from| ==> from[i].creator < from[j].creator
    }

    /** As many as the threshold, or one of every provider on the level. */
    ghost predicate Enough(view: DagView, level: nat, from: seq<Unit>)
      reads this
    {
      || |from| == keys.threshold
      || forall p: nat :: p < cfg.committee.n && Provides(view, level, p) ==> FromProvider(from, p)
    }

    /** One share of every provider on the level, until there are as many as the threshold. */
    method CollectShares(view: DagView, level: nat) returns (shares: seq<seq<Byte>>, ghost from: seq<Unit>)
      requires view.LevelsIndexed(cfg.committee)
      ensures Collected(view, level, shares, from) && Enough(view, level, from)
    {
      hide Provides, FromProvider;
      shares, from := [], [];
      var slots := view.UnitsOnLevel(cfg.committee, level);
      for p := 0 to |slots|
        invariant |from| == |shares| && CollectedUpTo(view, level, shares, from, p)
      {
        assert view.SlotIndexed(slots[p], level, p);
        var found := ShareInSlot(slots[p], p);
        CollectNext(view, level, shares, from, p, slots[p], found);
        if found.Some? {
          shares, from := shares + [coinShares[found.value]], from + [found.value];
          if |shares| == keys.threshold {
            return;
          }
        }
      }
    }

    /** The shares of the providers under `p`. */
    ghost predicate CollectedUpTo(view: DagView, level: nat, shares: seq<seq<Byte>>, from: seq<Unit>, p: nat)
      reads this
    {
      && Collected(view, level, shares, from)
      && (forall i :: 0 <= i < |from| ==> from[i].creator < p)
      && forall r: nat :: r < p && Provides(view, level, r) ==> FromProvider(from, r)
    }

    lemma CollectNext(view: DagView, level: nat, shares: seq<seq<Byte>>, from: seq<Unit>, p: nat, slot: seq<Unit>,
        found: Option<Unit>)
      requires CollectedUpTo(view, level, shares, from, p) && view.SlotIndexed(slot, level, p)
      requires found.Some? ==> found.value in slot && p in keys.providers && found.value in coinShares
      requires found.None? ==> p !in keys.providers || forall v :: v in slot ==> v !in coinShares
      ensures found.None? ==> CollectedUpTo(view, level, shares, from, p + 1)
      ensures found.Some? ==>
        CollectedUpTo(view, level, shares + [coinShares[found.value]], from + [found.value], p + 1)
    {
      if found.Some? {
        var more := from + [found.value];
        assert more[|from|].creator == p;
        forall r | FromProvider(from, r) ensures FromProvider(more, r) {
          var i :| 0 <= i < |from| && from[i].creator == r;
          assert more[i].creator == r;
        }
      }
    }

    method ShareInSlot(units: seq<Unit>, ghost p: nat) returns (found: Option<Unit>)
      requires forall v :: v in units ==> v.creator == p
      ensures found.Some? ==> found.value in units && p in keys.providers && found.value in coinShares
      ensures found.None? ==> p !in keys.providers || forall v :: v in units ==> v !in coinShares
    {
      for i := 0 to |units|
        invariant p !in keys.providers || forall k :: 0 <= k < i ==> units[k] !in coinShares
      {
        assert units[i] in units;
        if units[i].creator in keys.providers && units[i] in coinShares {
          return Some(units[i]);
        }
      }
      return None;
    }

    /** Shares collected from the level, enough or all there are, do not combine to its bytes. */
    ghost predicate CombiningFails(view: DagView, level: nat)
      reads this
    {
      exists shares, from :: Collected(view, level, shares, from) && Enough(view, level, from)
        && (keys.combine(shares).None? || keys.combine(shares).value != cfg.rand(level))
    }

    /** The data of a new unit on `level`: the bytes of the level under it, stored or combined now, and our share. */
    method DataToInclude(ghost units: set<Unit>, view: DagView, level: nat) returns (data: Option<seq<Byte>>)
      requires Available(units) && level >= 1 && view.LevelsIndexed(cfg.committee)
      modifies randomBytes
      ensures Available(units) && old(randomBytes.contents) <= randomBytes.contents
      ensures randomBytes.contents ==
        if data.Some? && |old(randomBytes.contents)| == level - 1
        then old(randomBytes.contents) + [cfg.rand(level - 1)] else old(randomBytes.contents)
      ensures data.Some? ==>
        data.value == cfg.rand(level - 1) + (if pid in keys.providers then keys.share(level) else [])
      ensures level - 1 < |old(randomBytes.contents)| ==> data.Some?
      ensures data.None? ==> CombiningFails(view, level - 1)
    {
      var rb := randomBytes.Get(level - 1);
      if rb.None? {
        var shares, from := CollectShares(view, level - 1);
        var coin := keys.combine(shares);
        if coin.None? || !VerifySignature(coin.value, level - 1) {
          return None;
        }
        randomBytes.AppendOrIgnore(level - 1, coin.value);
        rb := coin;
      }
      return Some(rb.value + if pid in keys.providers then keys.share(level) else []);
    }

    /** What is included passes the check. */
    lemma IncludedIsValid(u: Unit)
      requires u.creator == pid && u.height != 0 && u.level >= 1 && |cfg.rand(u.level - 1)| == keys.signatureLength
      requires keys.rsData(u) == Some(cfg.rand(u.level - 1) + if pid in keys.providers then keys.share(u.level) else [])
      requires pid in keys.providers ==> keys.isShare(keys.share(u.level))
      ensures DataValid(u)
    {
      var data := keys.Data(u);
      assert data[..keys.signatureLength] == cfg.rand(u.level - 1);
      assert pid in keys.providers ==> data[keys.signatureLength..] == keys.share(u.level);
    }

  }

  /** The level under a unit with all its parents there is at most the next one to be stored. */
  lemma LevelUnderAvailable(c: Committee, units: set<Unit>, u: Unit, store: seq<seq<Byte>>)
    requires CanInsert(c, units, u) && CoinAvailable(units, store)
    ensures u.level <= |store| + 1 && (u.height == 0 ==> u.level == 0) && (u.height != 0 ==> u.level >= 1)
  {
    hide ParentClosed;
    var m := TopLevel(u.parents);
    TopLevelIsHighest(u.parents);
    if i :| 0 <= i < |u.parents| && u.parents[i].Some? && u.parents[i].value.level == m {
      assert IsParent(u, u.parents[i].value);
    } else {
      assert SlotsOnLevel(u.parents, m) == {};
    }
    if u.height == 0 {
      assert SlotsOnLevel(u.parents, m) == {};
    }
  }

  /** Two nodes never hold different bytes for a level. */
  lemma StoresAgree(cfg: Config, store: seq<seq<Byte>>, store': seq<seq<Byte>>, l: nat)
    requires StoreMatches(cfg, store) && StoreMatches(cfg, store') && l < |store| && l < |store'|
    ensures store[l] == store'[l]
  {
  }

  /** Every common vote a decider may ask for finds its bytes. */
  lemma CommonVotesHaveBytes(cfg: Config, uc: Unit, units: set<Unit>, store: seq<seq<Byte>>, dagMaxLevel: int,
      level: nat)
    requires cfg.Valid() && CoinAvailable(units, store) && LevelAttained(units, dagMaxLevel)
    requires level <= dagMaxLevel - 2 || (level <= dagMaxLevel && level <= uc.level + cfg.deterministicPrefix)
    ensures CoinReady(cfg, uc, store, level)
  {
  }
}
