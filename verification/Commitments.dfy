/** Commitments to the units of a forker: chains linked by hashes, marshalled and read back, and filed by unit. */
module Commitments {
  import opened Units
  import opened Encoding

  type Digest = h: seq<Octet> | |h| == 32 witness seq(32, i => 0)

  /** The hash of a preunit and the hash combining the hashes of all parents. */
  datatype Hashing = Hashing(hash: Preunit -> Digest, combine: seq<Digest> -> seq<Octet>) {
    /** The two do not collide. */
    ghost predicate Apart(p: Preunit, p': Preunit) {
      hash(p) == hash(p') ==> p == p'
    }

    ghost predicate ApartLists(s: seq<Digest>, s': seq<Digest>) {
      combine(s) == combine(s') ==> s == s'
    }
  }

  /** A commitment to one unit: its encoding and, once it justified a parent, the hashes of its parents. */
  datatype Commitment = Commitment(pu: Option<Preunit>, rmcId: nat, encoded: seq<Octet>,
    parentHashes: Option<seq<Digest>>)

  // -------------------------------------------------------------------- linking by hash

  /** `pu` can follow `cu`: same creator, and `hashes` are the parents `cu` committed to, `pu` among them. */
  predicate Justifies(hs: Hashing, cu: Preunit, pu: Preunit, hashes: seq<Digest>) {
    && cu.creator == pu.creator && cu.creator < |hashes|
    && hashes[cu.creator] == hs.hash(pu)
    && cu.controlHash == hs.combine(hashes)
  }

  // ---------------------------------------------------------------------------- parsing

  function ReadDigests(bs: seq<Octet>, k: nat): Result<seq<Digest>> {
    if k == 0 then Ok([], bs) else
    match ReadDigests(bs, k - 1)
    case Err => Err
    case Panic => Panic
    case Ok(ds, rest) => if |rest| >= 32 then Ok(ds + [rest[..32]], rest[32..]) else Err
  }

  lemma {:induction false} ReadDigestsShrinks(bs: seq<Octet>, k: nat)
    ensures ReadDigests(bs, k).Ok? ==> |ReadDigests(bs, k).rest| <= |bs| && |ReadDigests(bs, k).value| == k
  {
    if k > 0 {
      ReadDigestsShrinks(bs, k - 1);
    }
  }

  lemma {:induction false} HeightsShrink(bs: seq<Octet>, n: nat)
    ensures ReadHeights(bs, n).Ok? ==> |ReadHeights(bs, n).rest| <= |bs|
  {
    if n > 0 {
      HeightsShrink(bs, n - 1);
    }
  }

  /** Decoding a preunit consumes bytes. */
  lemma DecodeShrinks(bs: seq<Octet>)
    ensures DecodePreunit(bs).Ok? ==> |DecodePreunit(bs).rest| < |bs|
  {
    hide ReadHeights, FromBytes;
    if |bs| >= 8 && |bs[8..]| >= SIGNATURE_BYTES {
      var r2 := bs[8..][SIGNATURE_BYTES..];
      if |r2| >= 2 {
        HeightsShrink(r2[2..], FromBytes(r2[..2]));
      }
    }
  }

  /** Reads further commitments, each to the predecessor of the unit before, until the mark for no unit. */
  function AcquireMore(hs: Hashing, all: seq<Octet>, bs: seq<Octet>, comms: seq<Commitment>): Result<seq<Commitment>>
    requires comms != [] && |bs| <= |all|
    decreases |bs|
  {
    DecodeShrinks(bs);
    match DecodePreunit(bs)
    case Err => Err
    case Panic => Panic
    case Ok(None, rest) => Ok(comms, rest)
    case Ok(Some(pu), rest) =>
      ReadDigestsShrinks(rest, |pu.heights|);
      match ReadDigests(rest, |pu.heights|)
      case Err => Err
      case Panic => Panic
      case Ok(hashes, rest') =>
        var last := comms[|comms| - 1];
        if last.pu.None? then Err
        else if last.pu.value.creator != pu.creator then Err
        else if last.pu.value.creator >= |hashes| then Panic
        else if !Justifies(hs, last.pu.value, pu, hashes) then Err
        else
          var encoded := all[..|all| - |rest'|];
          AcquireMore(hs, all, rest', Linked(comms, pu, hashes, encoded))
  }

  /** The last commitment learns the hashes of its parents, and the one to its predecessor follows. */
  function Linked(comms: seq<Commitment>, pu: Preunit, hashes: seq<Digest>, encoded: seq<Octet>): (r: seq<Commitment>)
    requires comms != []
    ensures |r| == |comms| + 1
  {
    var k := |comms| - 1;
    comms[k := comms[k].(parentHashes := Some(hashes))] + [Commitment(Some(pu), comms[k].rmcId, encoded, None)]
  }

  /** Reads a base commitment and the chain behind it. */
  function AcquireCommitments(hs: Hashing, bs: seq<Octet>): Result<seq<Commitment>> {
    match ReadNat(bs, 8)
    case Err => Err
    case Panic => Panic
    case Ok(rmcId, rest) =>
      DecodeShrinks(rest);
      match DecodePreunit(rest)
      case Err => Err
      case Panic => Panic
      case Ok(pu, rest') => AcquireMore(hs, bs, rest', [Commitment(pu, rmcId, bs[..|bs| - |rest'|], None)])
  }

  method ReadHashes(bs: seq<Octet>, k: nat) returns (r: Result<seq<Digest>>)
    ensures r == ReadDigests(bs, k)
  {
    var hashes: seq<Digest>, rest := [], bs;
    for i := 0 to k
      invariant ReadDigests(bs, i) == Ok(hashes, rest)
    {
      if |rest| < 32 {
        ReadDigestsStops(bs, i + 1, k);
        return Err;
      }
      hashes, rest := hashes + [rest[..32]], rest[32..];
    }
    return Ok(hashes, rest);
  }

  lemma {:induction false} ReadDigestsStops(bs: seq<Octet>, i: nat, k: nat)
    requires i <= k && ReadDigests(bs, i) == Err
    ensures ReadDigests(bs, k) == Err
    decreases k - i
  {
    if i < k {
      ReadDigestsStops(bs, i + 1, k);
    }
  }

  /** Reads commitments from the wire, each checked against the one before, until the mark for no unit. */
  method Acquire(hs: Hashing, bs: seq<Octet>) returns (r: Result<seq<Commitment>>)
    ensures r == AcquireCommitments(hs, bs)
  {
    hide DecodePreunit, ReadDigests;
    if |bs| < 8 {
      return Err;
    }
    DecodeShrinks(bs[8..]);
    var next := DecodePreunit(bs[8..]);
    if !next.Ok? {
      return if next.Err? then Err else Panic;
    }
    var rest := next.rest;
    var comms := [Commitment(next.value, FromBytes(bs[..8]), bs[..|bs| - |rest|], None)];
    next := DecodePreunit(rest);
    while next.Ok? && next.value.Some?
      invariant |rest| <= |bs| && comms != [] && next == DecodePreunit(rest)
      invariant AcquireMore(hs, bs, rest, comms) == AcquireCommitments(hs, bs)
      decreases |rest|
    {
      DecodeShrinks(rest);
      var pu, last := next.value.value, comms[|comms| - 1];
      ReadDigestsShrinks(next.rest, |pu.heights|);
      var hashes := ReadHashes(next.rest, |pu.heights|);
      if !hashes.Ok? {
        return if hashes.Err? then Err else Panic;
      }
      if last.pu.None? || last.pu.value.creator != pu.creator {
        return Err;
      }
      if last.pu.value.creator >= |hashes.value| {
        return Panic;
      }
      if !Justifies(hs, last.pu.value, pu, hashes.value) {
        return Err;
      }
      rest := hashes.rest;
      comms := Linked(comms, pu, hashes.value, bs[..|bs| - |rest|]);
      next := DecodePreunit(rest);
    }
    return match next case Err => Err case Panic => Panic case Ok(_, left) => Ok(comms, left);
  }

  // -------------------------------------------------------------------------- soundness

  /** Consecutive commitments are to units of which the later is justified by the earlier. */
  ghost predicate IsChain(hs: Hashing, comms: seq<Commitment>) {
    && comms != []
    && forall i :: 0 <= i < |comms| - 1 ==> Links(hs, comms[i], comms[i + 1])
  }

  ghost predicate Links(hs: Hashing, a: Commitment, b: Commitment) {
    && a.pu.Some? && b.pu.Some? && a.parentHashes.Some?
    && Justifies(hs, a.pu.value, b.pu.value, a.parentHashes.value)
  }

  lemma LinkedIsChain(hs: Hashing, comms: seq<Commitment>, pu: Preunit, hashes: seq<Digest>, encoded: seq<Octet>)
    requires IsChain(hs, comms) && comms[|comms| - 1].pu.Some? && Justifies(hs, comms[|comms| - 1].pu.value, pu, hashes)
    ensures IsChain(hs, Linked(comms, pu, hashes, encoded))
  {
    hide Justifies;
    var r := Linked(comms, pu, hashes, encoded);
    forall i | 0 <= i < |r| - 1 ensures Links(hs, r[i], r[i + 1]) {
      if i < |comms| - 1 {
        assert Links(hs, comms[i], comms[i + 1]);
      }
    }
  }

  lemma {:induction false} MoreIsChain(hs: Hashing, all: seq<Octet>, bs: seq<Octet>, comms: seq<Commitment>)
    requires IsChain(hs, comms) && |bs| <= |all|
    ensures var r := AcquireMore(hs, all, bs, comms); r.Ok? ==> IsChain(hs, r.value) && r.value[0].pu == comms[0].pu
    decreases |bs|
  {
    hide DecodePreunit, ReadDigests, Justifies, IsChain, Linked;
    DecodeShrinks(bs);
    var d := DecodePreunit(bs);
    if d.Ok? && d.value.Some? {
      var pu := d.value.value;
      ReadDigestsShrinks(d.rest, |pu.heights|);
      var h := ReadDigests(d.rest, |pu.heights|);
      ChainNonempty(hs, comms);
      if h.Ok? && AcquireMore(hs, all, bs, comms).Ok? {
        var encoded := all[..|all| - |h.rest|];
        LinkedIsChain(hs, comms, pu, h.value, encoded);
        LinkedStart(comms, pu, h.value, encoded);
        MoreIsChain(hs, all, h.rest, Linked(comms, pu, h.value, encoded));
      }
    }
  }

  lemma ChainNonempty(hs: Hashing, comms: seq<Commitment>)
    requires IsChain(hs, comms)
    ensures comms != []
  {
  }

  lemma LinkedStart(comms: seq<Commitment>, pu: Preunit, hashes: seq<Digest>, encoded: seq<Octet>)
    requires comms != []
    ensures Linked(comms, pu, hashes, encoded)[0].pu == comms[0].pu
  {
  }

  /** Whatever the bytes, what is acquired is a chain of justified commitments. */
  lemma AcquiredIsChain(hs: Hashing, bs: seq<Octet>)
    ensures var r := AcquireCommitments(hs, bs); r.Ok? ==> IsChain(hs, r.value)
  {
    hide DecodePreunit, AcquireMore;
    if |bs| >= 8 {
      DecodeShrinks(bs[8..]);
      var d := DecodePreunit(bs[8..]);
      if d.Ok? {
        MoreIsChain(hs, bs, d.rest, [Commitment(d.value, FromBytes(bs[..8]), bs[..|bs| - |d.rest|], None)]);
      }
    }
  }

  /** The wire format carries it. */
  ghost predicate Sendable(pu: Preunit) {
    WellFormed(pu) && |pu.heights| <= 16375
  }

  const ZERO_DIGEST: Digest := seq(32, i => 0)

  /** A unit of the dag with everything below it. */
  datatype Known = Known(pu: Preunit, parents: seq<Option<Known>>) {
    function Predecessor(): Option<Known> {
      if pu.creator < |parents| then parents[pu.creator] else None
    }
  }

  /** The hashes of the parents, zero for an empty slot. */
  function ParentHashes(hs: Hashing, u: Known): (r: seq<Digest>)
    ensures |r| == |u.parents|
  {
    seq(|u.parents|, i requires 0 <= i < |u.parents| => HashOf(hs, u.parents[i]))
  }

  function HashOf(hs: Hashing, slot: Option<Known>): Digest {
    if slot.Some? then hs.hash(slot.value.pu) else ZERO_DIGEST
  }

  /** `u` and its predecessors can be sent, have one slot per process, and carry the control hash of their parents. */
  ghost predicate WellLinked(hs: Hashing, n: nat, u: Known)
    decreases u
  {
    && Sendable(u.pu) && |u.parents| == |u.pu.heights| == n
    && u.pu.controlHash == hs.combine(ParentHashes(hs, u))
    && (u.Predecessor().Some? ==>
          u.Predecessor().value.pu.creator == u.pu.creator && WellLinked(hs, n, u.Predecessor().value))
  }

  /** How many predecessors `u` has. */
  function Depth(u: Known): nat
    decreases u
  {
    if u.Predecessor().Some? then Depth(u.Predecessor().value) + 1 else 0
  }

  /** The unit `k` steps down the predecessors of `u`. */
  function Down(u: Known, k: nat): Known
    requires k <= Depth(u)
    decreases k
  {
    if k == 0 then u else Down(u.Predecessor().value, k - 1)
  }

  lemma {:induction false} DownNext(u: Known, k: nat)
    requires k < Depth(u)
    ensures Down(u, k).Predecessor() == Some(Down(u, k + 1))
    decreases k
  {
    if k > 0 {
      DownNext(u.Predecessor().value, k - 1);
    }
  }

  lemma {:induction false} DownDepth(u: Known, k: nat)
    requires k <= Depth(u)
    ensures Depth(Down(u, k)) == Depth(u) - k
    decreases k
  {
    if k > 0 {
      DownDepth(u.Predecessor().value, k - 1);
    }
  }

  lemma {:induction false} DownLinked(hs: Hashing, n: nat, u: Known, k: nat)
    requires WellLinked(hs, n, u) && k <= Depth(u)
    ensures WellLinked(hs, n, Down(u, k)) && Down(u, k).pu.creator == u.pu.creator
    decreases k
  {
    hide Sendable, ParentHashes;
    if k > 0 {
      DownLinked(hs, n, u.Predecessor().value, k - 1);
    }
  }

  /** The units committed to are `u` and its predecessors, one after another. */
  ghost predicate GoesDown(u: Known, comms: seq<Commitment>) {
    |comms| <= Depth(u) + 1 && forall i :: 0 <= i < |comms| ==> comms[i].pu == Some(Down(u, i).pu)
  }

  /** Among the units and the lists of hashes at hand there are no collisions, and no unit hashes to zero. */
  ghost predicate NoCollisions(hs: Hashing, u: Known, comms: seq<Commitment>) {
    && (forall i, p :: 0 <= i < |comms| && comms[i].pu == Some(p) ==> hs.hash(p) != ZERO_DIGEST)
    && (forall i, p, k :: 0 <= i < |comms| && comms[i].pu == Some(p) && 0 <= k <= Depth(u) ==>
        hs.Apart(p, Down(u, k).pu))
    && (forall i, l, k :: 0 <= i < |comms| && comms[i].parentHashes == Some(l) && 0 <= k <= Depth(u) ==>
          hs.ApartLists(l, ParentHashes(hs, Down(u, k))))
  }

  /** Without collisions, a chain that starts at `u` commits to its predecessors, each in turn, and to nothing else. */
  lemma {:induction false} ChainGoesDown(hs: Hashing, n: nat, u: Known, comms: seq<Commitment>, i: nat)
    requires WellLinked(hs, n, u) && NoCollisions(hs, u, comms)
    requires IsChain(hs, comms) && comms[0].pu == Some(u.pu) && i < |comms|
    ensures i <= Depth(u) && comms[i].pu == Some(Down(u, i).pu)
  {
    hide WellLinked, Sendable;
    if i > 0 {
      ChainGoesDown(hs, n, u, comms, i - 1);
      var above := Down(u, i - 1);
      assert Links(hs, comms[i - 1], comms[i]);
      DownLinked(hs, n, u, i - 1);
      DownDepth(u, i - 1);
      if above.Predecessor().Some? {
        DownNext(u, i - 1);
        assert hs.Apart(comms[i].pu.value, Down(u, i).pu);
      }
      LinkGoesDown(hs, n, above, comms[i - 1], comms[i]);
    }
  }

  lemma LinkGoesDown(hs: Hashing, n: nat, u: Known, a: Commitment, b: Commitment)
    requires WellLinked(hs, n, u) && Links(hs, a, b) && a.pu == Some(u.pu)
    requires hs.hash(b.pu.value) != ZERO_DIGEST && hs.ApartLists(a.parentHashes.value, ParentHashes(hs, u))
    requires u.Predecessor().Some? ==> hs.Apart(b.pu.value, u.Predecessor().value.pu)
    ensures u.Predecessor().Some? && b.pu == Some(u.Predecessor().value.pu) && Depth(u) > 0
  {
    assert a.parentHashes.value == ParentHashes(hs, u);
  }

  // ------------------------------------------------------------------------ round trip

  /** One step down a chain: the next unit and the hashes of the parents of the unit above it. */
  datatype Link = Link(pu: Preunit, hashes: seq<Digest>)

  function DigestsBytes(ds: seq<Digest>): seq<Octet> {
    if ds == [] then [] else DigestsBytes(ds[..|ds| - 1]) + ds[|ds| - 1]
  }

  function BytesOf(pu: Option<Preunit>): seq<Octet> {
    var b := UnitBytes(pu);
    if b.Some? then b.value else []
  }

  function LinkBytes(l: Link): seq<Octet> {
    BytesOf(Some(l.pu)) + DigestsBytes(l.hashes)
  }

  function BaseBytes(rmcId: nat, pu: Preunit): seq<Octet> {
    ToBytes(rmcId, 8) + BytesOf(Some(pu))
  }

  lemma {:induction false} DigestsLayout(ds: seq<Digest>, k: nat)
    requires k < |ds|
    ensures |DigestsBytes(ds)| == 32 * |ds| && DigestsBytes(ds)[32 * k..32 * k + 32] == ds[k]
  {
    var last := |ds| - 1;
    if last > 0 {
      DigestsLayout(ds[..last], if k < last then k else 0);
    }
  }

  /** A base commitment on the wire: eight bytes of its id, lowest first, and the unit. */
  lemma BaseLayout(rmcId: nat, pu: Preunit)
    requires rmcId < 18446744073709551616 && Sendable(pu)
    ensures |BaseBytes(rmcId, pu)| >= 8 && Word64(BaseBytes(rmcId, pu), 0) == rmcId
    ensures BaseBytes(rmcId, pu)[8..] == WireBytes(pu)
  {
    hide ToBytes, WireBytes, WellFormed;
    WordsOf(rmcId);
  }

  /** The list of hashes has the hash of every parent in its slot, and 32 zero bytes in every empty one. */
  lemma ParentHashAt(hs: Hashing, u: Known, i: nat)
    requires i < |u.parents|
    ensures u.parents[i].Some? ==> ParentHashes(hs, u)[i] == hs.hash(u.parents[i].value.pu)
    ensures u.parents[i].None? ==> forall j :: 0 <= j < 32 ==> ParentHashes(hs, u)[i][j] == 0
  {
  }

  /** A commitment straight from a forking proof. */
  function BaseCommitment(rmcId: nat, pu: Preunit): Commitment {
    Commitment(Some(pu), rmcId, BaseBytes(rmcId, pu), None)
  }

  function PredecessorUnit(u: Known): Option<Preunit> {
    if u.Predecessor().Some? then Some(u.Predecessor().value.pu) else None
  }

  /** The commitment to the predecessor of the unit behind `comm`, and `comm` with the hashes of the parents. */
  method CommitmentForParent(hs: Hashing, comm: Commitment, u: Known) returns (r: Option<(Commitment, Commitment)>)
    ensures r.Some? <==> comm.pu.Some? && hs.hash(comm.pu.value) == hs.hash(u.pu)
    ensures r.Some? ==>
      && r.value.0 == comm.(parentHashes := Some(ParentHashes(hs, u)))
      && r.value.1.rmcId == comm.rmcId && r.value.1.parentHashes == None
      && r.value.1.encoded == comm.encoded + BytesOf(PredecessorUnit(u)) + DigestsBytes(ParentHashes(hs, u))
      && (u.Predecessor().None? || Sendable(u.Predecessor().value.pu) ==> r.value.1.pu == PredecessorUnit(u))
  {
    hide ParentHashes, DigestsBytes, BytesOf, DecodePreunit, Sendable;
    if comm.pu.None? {
      return None;
    }
    if hs.hash(comm.pu.value) != hs.hash(u.pu) {
      return None;
    }
    var pred := PredecessorUnit(u);
    var predEncoded := BytesOf(pred);
    assert predEncoded + [] == predEncoded;
    if pred.None? {
      NilBack([]);
    } else if Sendable(pred.value) {
      SendableBack(pred.value, []);
    }
    var decoded := DecodePreunit(predEncoded);
    var parEncoded := EncodeHashes(ParentHashes(hs, u));
    var encoded := comm.encoded + predEncoded + parEncoded;
    var pu := if decoded.Ok? then decoded.value else None;
    return Some((comm.(parentHashes := Some(ParentHashes(hs, u))), Commitment(pu, comm.rmcId, encoded, None)));
  }

  method EncodeHashes(hashes: seq<Digest>) returns (parEncoded: seq<Octet>)
    ensures parEncoded == DigestsBytes(hashes)
  {
    parEncoded := [];
    for i := 0 to |hashes|
      invariant parEncoded == DigestsBytes(hashes[..i])
    {
      assert hashes[..i + 1][..i] == hashes[..i];
      parEncoded := parEncoded + hashes[i];
    }
    assert hashes[..|hashes|] == hashes;
  }

  /** The links from `u` down to the unit `k` steps below it. */
  ghost function LinksDown(hs: Hashing, u: Known, k: nat): (links: seq<Link>)
    requires k <= Depth(u)
    ensures |links| == k
  {
    if k == 0 then [] else LinksDown(hs, u, k - 1) + [Link(Down(u, k).pu, ParentHashes(hs, Down(u, k - 1)))]
  }

  /** The commitments built link by link from a base commitment. */
  function Built(rmcId: nat, pu: Preunit, links: seq<Link>): (r: seq<Commitment>)
    ensures |r| == |links| + 1
  {
    if links == [] then [BaseCommitment(rmcId, pu)] else
    var before := Built(rmcId, pu, links[..|links| - 1]);
    var l := links[|links| - 1];
    Linked(before, l.pu, l.hashes, before[|before| - 1].encoded + LinkBytes(l))
  }

  ghost function LastUnit(pu: Preunit, links: seq<Link>): Preunit {
    if links == [] then pu else links[|links| - 1].pu
  }

  /** The links are well-formed and each is justified by the unit above it. */
  ghost predicate GoodLinks(hs: Hashing, pu: Preunit, links: seq<Link>) {
    forall k :: 0 <= k < |links| ==> GoodLink(hs, LastUnit(pu, links[..k]), links[k])
  }

  ghost predicate GoodLink(hs: Hashing, above: Preunit, l: Link) {
    Sendable(l.pu) && |l.hashes| == |l.pu.heights| && Justifies(hs, above, l.pu, l.hashes)
  }

  lemma GoodLinksAppend(hs: Hashing, pu: Preunit, links: seq<Link>, l: Link)
    requires GoodLinks(hs, pu, links) && GoodLink(hs, LastUnit(pu, links), l)
    ensures GoodLinks(hs, pu, links + [l]) && LastUnit(pu, links + [l]) == l.pu
  {
    hide GoodLink;
    var more := links + [l];
    forall j | 0 <= j < |more| ensures GoodLink(hs, LastUnit(pu, more[..j]), more[j]) {
      assert more[..j] == links[..j];
      if j == |links| {
        assert links[..j] == links;
      }
    }
  }

  /** The links down a unit are good ones. */
  lemma {:induction false} LinksDownGood(hs: Hashing, n: nat, u: Known, k: nat)
    requires WellLinked(hs, n, u) && k <= Depth(u)
    ensures GoodLinks(hs, u.pu, LinksDown(hs, u, k)) && LastUnit(u.pu, LinksDown(hs, u, k)) == Down(u, k).pu
  {
    hide WellLinked, Sendable, GoodLink, GoodLinks, LastUnit, ParentHashes, Down;
    if k == 0 {
      NoLinksGood(hs, u);
    } else {
      LinksDownGood(hs, n, u, k - 1);
      DownNext(u, k - 1);
      DownLinked(hs, n, u, k - 1);
      NextLinkGood(hs, n, Down(u, k - 1));
      GoodLinksAppend(hs, u.pu, LinksDown(hs, u, k - 1), Link(Down(u, k).pu, ParentHashes(hs, Down(u, k - 1))));
    }
  }

  lemma NoLinksGood(hs: Hashing, u: Known)
    ensures GoodLinks(hs, u.pu, []) && LastUnit(u.pu, []) == u.pu && Down(u, 0) == u
  {
  }

  lemma NextLinkGood(hs: Hashing, n: nat, u: Known)
    requires WellLinked(hs, n, u) && u.Predecessor().Some?
    ensures GoodLink(hs, u.pu, Link(u.Predecessor().value.pu, ParentHashes(hs, u)))
  {
    hide Sendable;
  }

  /**
   * Goes down from the unit of a forking proof, as far as `k` predecessors, and commits to each of them. What it makes
   * are the commitments built from the links down the unit.
   */
  method CommitDown(hs: Hashing, ghost n: nat, rmcId: nat, u: Known, k: nat) returns (comms: seq<Commitment>)
    requires WellLinked(hs, n, u) && k <= Depth(u)
    ensures comms == Built(rmcId, u.pu, LinksDown(hs, u, k))
  {
    hide WellLinked, Sendable, ParentHashes, DigestsBytes, BytesOf, Built, Down, LinksDown;
    comms := [BaseCommitment(rmcId, u.pu)];
    var commUnit := u;
    CommitStart(hs, rmcId, u);
    for i := 0 to k
      invariant comms == Built(rmcId, u.pu, LinksDown(hs, u, i)) && commUnit == Down(u, i)
    {
      LinksDownGood(hs, n, u, i);
      BuiltLast(rmcId, u.pu, LinksDown(hs, u, i));
      DownNext(u, i);
      DownLinked(hs, n, u, i + 1);
      LinkedSendable(hs, n, Down(u, i + 1));
      var r := CommitmentForParent(hs, comms[i], commUnit);
      CommitNext(hs, rmcId, u, i);
      comms := comms[..i] + [r.value.0, r.value.1];
      commUnit := commUnit.Predecessor().value;
    }
  }

  lemma CommitStart(hs: Hashing, rmcId: nat, u: Known)
    ensures [BaseCommitment(rmcId, u.pu)] == Built(rmcId, u.pu, LinksDown(hs, u, 0)) && Down(u, 0) == u
  {
  }

  lemma LinkedSendable(hs: Hashing, n: nat, u: Known)
    requires WellLinked(hs, n, u)
    ensures Sendable(u.pu)
  {
  }

  lemma CommitNext(hs: Hashing, rmcId: nat, u: Known, i: nat)
    requires i < Depth(u)
    ensures var before, hashes, pred := Built(rmcId, u.pu, LinksDown(hs, u, i)), ParentHashes(hs, Down(u, i)),
        Down(u, i + 1).pu;
      Built(rmcId, u.pu, LinksDown(hs, u, i + 1)) ==
        before[..i] + [before[i].(parentHashes := Some(hashes)),
                       Commitment(Some(pred), before[i].rmcId,
                         before[i].encoded + BytesOf(Some(pred)) + DigestsBytes(hashes), None)]
  {
    hide ParentHashes, Down, BytesOf, DigestsBytes;
    var links := LinksDown(hs, u, i + 1);
    var before := Built(rmcId, u.pu, LinksDown(hs, u, i));
    assert links[..i] == LinksDown(hs, u, i);
    assert before[i].encoded + LinkBytes(links[i]) ==
      before[i].encoded + BytesOf(Some(links[i].pu)) + DigestsBytes(links[i].hashes);
  }

  lemma {:induction false} BuiltLast(rmcId: nat, pu: Preunit, links: seq<Link>)
    ensures var c := Built(rmcId, pu, links)[|links|];
      c.pu == Some(LastUnit(pu, links)) && c.rmcId == rmcId && c.parentHashes == None
  {
    if links != [] {
      BuiltLast(rmcId, pu, links[..|links| - 1]);
    }
  }

  lemma {:induction false} DigestsBack(ds: seq<Digest>, rest: seq<Octet>)
    ensures ReadDigests(DigestsBytes(ds) + rest, |ds|) == Ok(ds, rest)
  {
    if ds == [] {
      assert DigestsBytes(ds) + rest == rest;
    } else {
      var last := |ds| - 1;
      assert DigestsBytes(ds) + rest == DigestsBytes(ds[..last]) + (ds[last] + rest);
      DigestsBack(ds[..last], ds[last] + rest);
      assert (ds[last] + rest)[..32] == ds[last] && (ds[last] + rest)[32..] == rest;
      assert ds == ds[..last] + [ds[last]];
    }
  }

  function LinksBytes(links: seq<Link>): seq<Octet> {
    if links == [] then [] else LinkBytes(links[0]) + LinksBytes(links[1..])
  }

  lemma SendableBack(pu: Preunit, rest: seq<Octet>)
    requires Sendable(pu)
    ensures DecodePreunit(BytesOf(Some(pu)) + rest) == Ok(Some(pu), rest)
  {
    hide DecodePreunit, WellFormed;
    DecodeEncoded(pu, rest);
  }

  /** Reading one link extends the commitments read so far by the one built for it. */
  lemma ReadLink(hs: Hashing, all: seq<Octet>, l: Link, rest: seq<Octet>, comms: seq<Commitment>, above: Preunit)
    requires comms != [] && comms[|comms| - 1].pu == Some(above) && GoodLink(hs, above, l)
    requires all == comms[|comms| - 1].encoded + LinkBytes(l) + rest
    ensures |LinkBytes(l) + rest| <= |all|
    ensures AcquireMore(hs, all, LinkBytes(l) + rest, comms) ==
      AcquireMore(hs, all, rest, Linked(comms, l.pu, l.hashes, comms[|comms| - 1].encoded + LinkBytes(l)))
  {
    hide DecodePreunit, ReadDigests, BytesOf, DigestsBytes, Linked, Sendable;
    var tail := DigestsBytes(l.hashes) + rest;
    var bs := LinkBytes(l) + rest;
    assert bs == BytesOf(Some(l.pu)) + tail;
    SendableBack(l.pu, tail);
    DigestsBack(l.hashes, rest);
    assert all[..|all| - |rest|] == comms[|comms| - 1].encoded + LinkBytes(l);
  }

  lemma BuiltNext(rmcId: nat, pu: Preunit, links: seq<Link>, k: nat)
    requires k < |links|
    ensures var before := Built(rmcId, pu, links[..k]);
      var encoded := before[k].encoded + LinkBytes(links[k]);
      && Built(rmcId, pu, links[..k + 1]) == Linked(before, links[k].pu, links[k].hashes, encoded)
      && Built(rmcId, pu, links[..k + 1])[k + 1].encoded == encoded
  {
    hide LinkBytes;
    assert links[..k + 1][..k] == links[..k];
  }

  lemma {:induction false} ReadLinks(hs: Hashing, rmcId: nat, pu: Preunit, links: seq<Link>, k: nat, end: seq<Octet>)
    requires GoodLinks(hs, pu, links) && k <= |links|
    ensures var all := Built(rmcId, pu, links[..k])[k].encoded + LinksBytes(links[k..]) + end;
      |LinksBytes(links[k..]) + end| <= |all| &&
      AcquireMore(hs, all, LinksBytes(links[k..]) + end, Built(rmcId, pu, links[..k]))
        == AcquireMore(hs, all, end, Built(rmcId, pu, links))
    decreases |links| - k
  {
    hide AcquireMore, LinkBytes, GoodLink, Built, Linked;
    if k == |links| {
      assert links[..k] == links;
      assert LinksBytes(links[k..]) + end == end;
    } else {
      var before := Built(rmcId, pu, links[..k]);
      var rest := LinksBytes(links[k + 1..]) + end;
      var all := before[k].encoded + LinksBytes(links[k..]) + end;
      assert links[k..][0] == links[k] && links[k..][1..] == links[k + 1..];
      assert LinksBytes(links[k..]) + end == LinkBytes(links[k]) + rest;
      assert all == before[k].encoded + LinkBytes(links[k]) + rest;
      BuiltLast(rmcId, pu, links[..k]);
      ReadLink(hs, all, links[k], rest, before, LastUnit(pu, links[..k]));
      BuiltNext(rmcId, pu, links, k);
      assert all == before[k].encoded + LinkBytes(links[k]) + LinksBytes(links[k + 1..]) + end;
      ReadLinks(hs, rmcId, pu, links, k + 1, end);
    }
  }

  lemma {:induction false} LinksBytesAppend(links: seq<Link>, l: Link)
    ensures LinksBytes(links + [l]) == LinksBytes(links) + LinkBytes(l)
  {
    hide LinkBytes;
    if links == [] {
      assert [l][1..] == [];
    } else {
      assert (links + [l])[1..] == links[1..] + [l];
      LinksBytesAppend(links[1..], l);
    }
  }

  /** What the last commitment marshals to are the bytes of the base commitment and of all links. */
  lemma {:induction false} BuiltEncoded(rmcId: nat, pu: Preunit, links: seq<Link>)
    ensures Built(rmcId, pu, links)[|links|].encoded == BaseBytes(rmcId, pu) + LinksBytes(links)
  {
    hide LinkBytes, BaseBytes;
    if links == [] {
      assert BaseBytes(rmcId, pu) + LinksBytes(links) == BaseBytes(rmcId, pu);
    } else {
      var last := |links| - 1;
      BuiltEncoded(rmcId, pu, links[..last]);
      LinksBytesAppend(links[..last], links[last]);
      assert links[..last] + [links[last]] == links;
    }
  }

  /**
   * The last commitment of a chain, marshalled and closed with the mark for no unit, is read back as the whole chain.
   */
  lemma CommitmentsRoundTrip(hs: Hashing, rmcId: nat, pu: Preunit, links: seq<Link>, rest: seq<Octet>)
    requires rmcId < UINT64 && Sendable(pu) && GoodLinks(hs, pu, links)
    ensures AcquireCommitments(hs, Built(rmcId, pu, links)[|links|].encoded + BytesOf(None) + rest) ==
      Ok(Built(rmcId, pu, links), rest)
  {
    hide DecodePreunit, ReadNat, BytesOf, LinksBytes, GoodLinks, Sendable, ToBytes;
    BuiltEncoded(rmcId, pu, links);
    var end := BytesOf(None) + rest;
    var all := BaseBytes(rmcId, pu) + LinksBytes(links) + BytesOf(None) + rest;
    var r1 := LinksBytes(links) + end;
    var r0 := BytesOf(Some(pu)) + r1;
    assert all == ToBytes(rmcId, 8) + r0;
    Powers();
    ReadNatBack(rmcId, 8, r0);
    SendableBack(pu, r1);
    assert all[..|all| - |r1|] == BaseBytes(rmcId, pu);
    assert links[..0] == [] && links[0..] == links;
    ReadLinks(hs, rmcId, pu, links, 0, end);
    assert all == Built(rmcId, pu, links[..0])[0].encoded + LinksBytes(links[0..]) + end;
    NilBack(rest);
  }

  /** So what a node commits to down a unit is what another node reads from the last commitment. */
  lemma CommitDownRoundTrip(hs: Hashing, n: nat, rmcId: nat, u: Known, k: nat, rest: seq<Octet>)
    requires rmcId < UINT64 && WellLinked(hs, n, u) && k <= Depth(u)
    ensures var comms := Built(rmcId, u.pu, LinksDown(hs, u, k));
      AcquireCommitments(hs, comms[k].encoded + BytesOf(None) + rest) == Ok(comms, rest)
  {
    hide WellLinked, AcquireCommitments, Built, LinksDown, GoodLinks, BytesOf;
    LinksDownGood(hs, n, u, k);
    LinkedSendable(hs, n, u);
    CommitmentsRoundTrip(hs, rmcId, u.pu, LinksDown(hs, u, k), rest);
  }

  lemma NilBack(rest: seq<Octet>)
    ensures DecodePreunit(BytesOf(None) + rest) == Ok(None, rest)
  {
    hide DecodePreunit;
    NilRoundTrip(rest);
  }

  // ------------------------------------------------------------------ registering chains

  /** The commitments a node knows, by unit and by who committed for which forker. */
  class CommitBase {
    const hs: Hashing
    var toUnit: map<Digest, Commitment>
    var byMember: map<nat, map<nat, Commitment>>

    constructor (hs: Hashing)
      ensures this.hs == hs && toUnit == map[] && byMember == map[]
    {
      this.hs, toUnit, byMember := hs, map[], map[];
    }

    /** Every entry commits to the unit it is filed under. */
    ghost predicate Valid()
      reads this
    {
      forall h :: h in toUnit ==> toUnit[h].pu.Some? && hs.hash(toUnit[h].pu.value) == h
    }

    /** A unit without a commitment, or with one that justified no parent yet. */
    predicate Open(entries: map<Digest, Commitment>, h: Digest) {
      h !in entries || entries[h].parentHashes.None?
    }

    /** Replaces an entry only while it has not justified a parent; the first commitment of a member stays. */
    method Add(c: Commitment, commiter: nat, forker: nat)
      requires Valid()
      modifies this
      ensures Valid()
      ensures forall h :: h in old(toUnit) ==>
        h in toUnit && (toUnit[h] == old(toUnit)[h] || (toUnit[h] == c && old(toUnit)[h].parentHashes.None?))
      ensures forall h :: h in toUnit ==> (h in old(toUnit) && toUnit[h] == old(toUnit)[h]) || toUnit[h] == c
      ensures c.pu.Some? ==> hs.hash(c.pu.value) in toUnit
      ensures c.pu.Some? ==> var h := hs.hash(c.pu.value);
        h !in old(toUnit) || old(toUnit)[h].parentHashes.None? ==> toUnit[h] == c
      ensures forker in byMember && commiter in byMember[forker]
      ensures !(forker in old(byMember) && commiter in old(byMember)[forker]) ==> byMember[forker][commiter] == c
      ensures forall f, m :: f in byMember && m in byMember[f] ==>
        (f in old(byMember) && m in old(byMember)[f]) || (f == forker && m == commiter)
      ensures forall f, m :: f in old(byMember) && m in old(byMember)[f] ==>
        f in byMember && m in byMember[f] && byMember[f][m] == old(byMember)[f][m]
    {
      if c.pu.Some? {
        var h := hs.hash(c.pu.value);
        if Open(toUnit, h) {
          toUnit := toUnit[h := c];
        }
      }
      if forker !in byMember {
        byMember := byMember[forker := map[]];
      }
      if commiter !in byMember[forker] {
        var members: map<nat, Commitment> := byMember[forker][commiter := c];
        byMember := byMember[forker := members];
      }
    }

    /** Registers a chain if it starts at the unit of the forking proof; nothing else gets in. */
    method AddBatch(comms: seq<Commitment>, pcommit: Preunit, commiter: nat) returns (ok: bool)
      requires Valid() && comms != []
      modifies this
      ensures Valid()
      ensures ok <==> comms[0].pu.Some? && hs.hash(comms[0].pu.value) == hs.hash(pcommit)
      ensures !ok ==> toUnit == old(toUnit) && byMember == old(byMember)
      ensures forall h :: h in toUnit ==> (h in old(toUnit) && toUnit[h] == old(toUnit)[h]) || toUnit[h] in comms
      ensures ok ==> forall i :: 0 <= i < |comms| && comms[i].pu.Some? ==> hs.hash(comms[i].pu.value) in toUnit
      ensures forall h :: h in old(toUnit) && old(toUnit)[h].parentHashes.Some? ==>
        h in toUnit && toUnit[h] == old(toUnit)[h]
      ensures ok ==> pcommit.creator in byMember && commiter in byMember[pcommit.creator]
      ensures ok && !(pcommit.creator in old(byMember) && commiter in old(byMember)[pcommit.creator]) ==>
        byMember[pcommit.creator][commiter] == comms[0]
      ensures forall f, m :: f in old(byMember) && m in old(byMember)[f] ==>
        f in byMember && m in byMember[f] && byMember[f][m] == old(byMember)[f][m]
      ensures forall f, m :: f in byMember && m in byMember[f] ==>
        (f in old(byMember) && m in old(byMember)[f]) || (f == pcommit.creator && m == commiter)
    {
      if comms[0].pu.None? || hs.hash(comms[0].pu.value) != hs.hash(pcommit) {
        return false;
      }
      for i := 0 to |comms|
        invariant Valid()
        invariant forall h :: h in toUnit ==> (h in old(toUnit) && toUnit[h] == old(toUnit)[h]) || toUnit[h] in comms
        invariant forall k :: 0 <= k < i && comms[k].pu.Some? ==> hs.hash(comms[k].pu.value) in toUnit
        invariant forall h :: h in old(toUnit) && old(toUnit)[h].parentHashes.Some? ==>
          h in toUnit && toUnit[h] == old(toUnit)[h]
        invariant i > 0 ==> pcommit.creator in byMember && commiter in byMember[pcommit.creator]
        invariant i > 0 && !(pcommit.creator in old(byMember) && commiter in old(byMember)[pcommit.creator]) ==>
          byMember[pcommit.creator][commiter] == comms[0]
        invariant i == 0 ==> byMember == old(byMember)
        invariant forall f, m :: f in old(byMember) && m in old(byMember)[f] ==>
          f in byMember && m in byMember[f] && byMember[f][m] == old(byMember)[f][m]
        invariant forall f, m :: f in byMember && m in byMember[f] ==>
          (f in old(byMember) && m in old(byMember)[f]) || (f == pcommit.creator && m == commiter)
      {
        Add(comms[i], commiter, pcommit.creator);
      }
      return true;
    }

    /**
     * Reads commitments sent by another node and registers them under a forking proof whose unit is `u`. Without
     * collisions everything it registers is `u` or a predecessor of `u`.
     */
    method Receive(bs: seq<Octet>, pcommit: Preunit, raiser: nat, ghost n: nat, ghost u: Known) returns (ok: bool)
      requires Valid() && WellLinked(hs, n, u) && u.pu == pcommit
      requires AcquireCommitments(hs, bs).Ok? ==> NoCollisions(hs, u, AcquireCommitments(hs, bs).value)
      modifies this
      ensures Valid()
      ensures !ok ==> toUnit == old(toUnit) && byMember == old(byMember)
      ensures ok <==> AcquireCommitments(hs, bs).Ok? && StartsAt(hs, AcquireCommitments(hs, bs).value, pcommit)
      ensures forall h :: h in toUnit ==>
        (h in old(toUnit) && toUnit[h] == old(toUnit)[h]) || CommitsBelow(hs, u, h, toUnit[h])
      ensures ok ==> forall k :: 0 <= k < |AcquireCommitments(hs, bs).value| ==>
          k <= Depth(u) && hs.hash(Down(u, k).pu) in toUnit
    {
      hide AcquireCommitments, WellLinked, NoCollisions, Down, Depth;
      var r := Acquire(hs, bs);
      if !r.Ok? {
        return false;
      }
      ChainStarts(hs, bs);
      ok := AddBatch(r.value, pcommit, raiser);
      if ok {
        AcquiredGoesDown(hs, n, u, bs, r.value, r.rest);
        forall h | h in toUnit && toUnit[h] in r.value ensures CommitsBelow(hs, u, h, toUnit[h]) {
          var k :| 0 <= k < |r.value| && r.value[k] == toUnit[h];
          assert toUnit[h].pu == Some(Down(u, k).pu);
        }
      }
    }
  }

  /** `c`, filed under `h`, is a commitment to `u` or to one of its predecessors. */
  ghost predicate CommitsBelow(hs: Hashing, u: Known, h: Digest, c: Commitment) {
    exists k :: 0 <= k <= Depth(u) && c.pu == Some(Down(u, k).pu) && h == hs.hash(Down(u, k).pu)
  }

  /** The first commitment is to the given unit. */
  ghost predicate StartsAt(hs: Hashing, comms: seq<Commitment>, pcommit: Preunit) {
    comms != [] && comms[0].pu.Some? && hs.hash(comms[0].pu.value) == hs.hash(pcommit)
  }

  lemma ChainStarts(hs: Hashing, bs: seq<Octet>)
    ensures AcquireCommitments(hs, bs).Ok? ==> AcquireCommitments(hs, bs).value != []
  {
    hide AcquireCommitments;
    AcquiredIsChain(hs, bs);
  }

  /** What is read and starts at `u` goes down its predecessors. */
  lemma AcquiredGoesDown(hs: Hashing, n: nat, u: Known, bs: seq<Octet>, comms: seq<Commitment>, rest: seq<Octet>)
    requires WellLinked(hs, n, u) && AcquireCommitments(hs, bs) == Ok(comms, rest) && NoCollisions(hs, u, comms)
    requires comms != [] && comms[0].pu.Some? && hs.hash(comms[0].pu.value) == hs.hash(u.pu)
    ensures GoesDown(u, comms)
  {
    hide AcquireCommitments, WellLinked, Down;
    AcquiredIsChain(hs, bs);
    DownItself(u);
    assert hs.Apart(comms[0].pu.value, Down(u, 0).pu);
    forall i | 0 <= i < |comms| ensures i <= Depth(u) && comms[i].pu == Some(Down(u, i).pu) {
      ChainGoesDown(hs, n, u, comms, i);
    }
    ChainGoesDown(hs, n, u, comms, |comms| - 1);
  }

  lemma DownItself(u: Known)
    ensures Down(u, 0) == u
  {
  }
}
