/** The rules for random source data before and after a preunit crosses the wire. */
module WireData {
  import opened Units
  import opened Voting
  import opened Encoding
  import opened Coining

  function AsBytes(s: seq<Octet>): seq<Byte> {
    seq(|s|, i requires 0 <= i < |s| => s[i] as Byte)
  }

  /** The random source data of a preunit, as the coin sees it. */
  function DataOf(pu: Preunit): Option<seq<Byte>> {
    if pu.rsData.Some? then Some(AsBytes(pu.rsData.value)) else None
  }

  /** The coin accepts the random data of a unit built from `pu` on `level`. */
  ghost predicate Accepts(cfg: Config, keys: Keys, pu: Preunit, level: nat) {
    DataRule(cfg, keys, pu.creator, pu.height, level, DataOf(pu))
  }

  /** Crossing the wire changes the verdict only for dealing units of processes that provide no shares. */
  lemma AcceptedAfterWire(cfg: Config, keys: Keys, pu: Preunit, level: nat, rest: seq<Octet>)
    requires WellFormed(pu.AsRead()) && |pu.heights| <= 16375
    ensures var r := DecodePreunit(UnitBytes(Some(pu)).value + rest);
      && r.Ok? && r.value.Some?
      && (Accepts(cfg, keys, r.value.value, level) <==>
            Accepts(cfg, keys, pu, level) && (pu.height != 0 || pu.creator in keys.providers))
  {
    hide DecodePreunit, WellFormed, UnitBytes, CarriesBytes;
    ReadBackAs(pu, rest);
    assert Contents(DataOf(pu.AsRead())) == Contents(DataOf(pu));
    SameBytes(cfg, keys, level, DataOf(pu.AsRead()), DataOf(pu));
  }

  lemma SameBytes(cfg: Config, keys: Keys, level: nat, a: Option<seq<Byte>>, b: Option<seq<Byte>>)
    requires Contents(a) == Contents(b)
    ensures CarriesBytes(cfg, keys, level, a) <==> CarriesBytes(cfg, keys, level, b)
  {
  }

  /** Those are made with nil, accepted as they are made, and rejected by everybody who receives them. */
  lemma DealingRejectedElsewhere(cfg: Config, keys: Keys, pu: Preunit, rest: seq<Octet>)
    requires WellFormed(pu.AsRead()) && |pu.heights| <= 16375
    requires pu.height == 0 && pu.creator !in keys.providers && pu.rsData == None
    ensures Accepts(cfg, keys, pu, 0)
    ensures var r := DecodePreunit(UnitBytes(Some(pu)).value + rest);
      r.Ok? && r.value == Some(pu.(rsData := Some([]))) && !Accepts(cfg, keys, r.value.value, 0)
  {
    hide DecodePreunit, WellFormed, UnitBytes;
    ReadBackAs(pu, rest);
    AcceptedAfterWire(cfg, keys, pu, 0, rest);
  }
}
