/** The wire format of preunits. */
module Encoding {
  import opened Units

  type Octet = x: nat | x < 256

  const UINT16 := 0x1_0000
  const UINT32 := 0x1_0000_0000
  const UINT64 := 0x1_0000_0000_0000_0000
  const SIGNATURE_BYTES := 64
  const HASH_BYTES := 32
  const MAX_DATA_BYTES := 2_000_000
  const MAX_RS_DATA_BYTES := 1_000_000

  /** A preunit; its random source data may be nil, which is not the same as empty. */
  datatype Preunit = Preunit(
    creator: nat,
    height: nat,
    epoch: nat,
    signature: seq<Octet>,
    heights: seq<int>,
    controlHash: seq<Octet>,
    data: seq<Octet>,
    rsData: Option<seq<Octet>>)
  {
    function RandomData(): seq<Octet> {
      if rsData.Some? then rsData.value else []
    }

    /** The preunit as a decoder builds it: with random data, if only empty. */
    function AsRead(): Preunit {
      this.(rsData := Some(RandomData()))
    }
  }

  // ------------------------------------------------------------ little-endian numbers

  function Pow256(k: nat): nat {
    if k == 0 then 1 else 256 * Pow256(k - 1)
  }

  /** The `k` lowest bytes of `n`, lowest first. */
  function ToBytes(n: nat, k: nat): (bs: seq<Octet>)
    ensures |bs| == k
  {
    if k == 0 then [] else [n % 256] + ToBytes(n / 256, k - 1)
  }

  function FromBytes(bs: seq<Octet>): nat {
    if bs == [] then 0 else bs[0] + 256 * FromBytes(bs[1..])
  }

  lemma {:induction false} BytesRoundTrip(n: nat, k: nat)
    requires n < Pow256(k)
    ensures FromBytes(ToBytes(n, k)) == n
  {
    if k > 0 {
      assert n / 256 < Pow256(k - 1);
      BytesRoundTrip(n / 256, k - 1);
      assert ToBytes(n, k)[1..] == ToBytes(n / 256, k - 1);
    }
  }

  lemma {:induction false} BytesBound(bs: seq<Octet>)
    ensures FromBytes(bs) < Pow256(|bs|)
  {
    if bs != [] {
      BytesBound(bs[1..]);
    }
  }

  lemma Powers()
    ensures Pow256(2) == UINT16 && Pow256(4) == UINT32 && Pow256(8) == UINT64
  {
    assert Pow256(1) == 256 && Pow256(2) == 65536;
    assert Pow256(3) == 256 * Pow256(2) && Pow256(4) == 256 * Pow256(3);
    assert Pow256(5) == 256 * Pow256(4) && Pow256(6) == 256 * Pow256(5) && Pow256(7) == 256 * Pow256(6);
    assert Pow256(8) == 256 * Pow256(7);
  }

  // ----------------------------------------------------------------------- unit ids

  /** Height, creator and epoch in one 64-bit number. */
  function Id(height: nat, creator: nat, epoch: nat): nat {
    (height + creator * UINT16 + epoch * UINT32) % UINT64
  }

  function DecodeId(id: nat): (nat, nat, nat) {
    (id % UINT16, id / UINT16 % UINT16, id / UINT32)
  }

  /** An id gives back its parts exactly when the height fits in 16 bits. */
  lemma IdRoundTrip(height: nat, creator: nat, epoch: nat)
    requires creator < UINT16 && epoch < UINT32
    ensures DecodeId(Id(height, creator, epoch)) == (height, creator, epoch) <==> height < UINT16
  {
    if height < UINT16 {
      SplitId(height, creator, epoch);
    }
  }

  lemma SplitId(height: nat, creator: nat, epoch: nat)
    requires height < UINT16 && creator < UINT16 && epoch < UINT32
    ensures var id := height + creator * UINT16 + epoch * UINT32;
      id < UINT64 && id / UINT32 == epoch && id % UINT16 == height && id / UINT16 % UINT16 == creator
  {
    var id := height + creator * UINT16 + epoch * UINT32;
    var high := creator + epoch * UINT16;
    assert id == height + UINT16 * high;
    assert id / UINT16 == high && id % UINT16 == height;
    assert high % UINT16 == creator;
  }

  /** Every 64-bit number is the id of the place it decodes to. */
  lemma IdInverse(id: nat)
    requires id < UINT64
    ensures var (h, c, e) := DecodeId(id); Id(h, c, e) == id && h < UINT16 && c < UINT16 && e < UINT32
  {
    var h, c, e := id % UINT16, id / UINT16 % UINT16, id / UINT32;
    assert id / UINT16 == c + UINT16 * (id / UINT16 / UINT16);
    assert id / UINT16 / UINT16 == id / UINT32;
    assert id == h + UINT16 * (id / UINT16);
  }

  /** A height over 16 bits runs into the creator: ids of different places coincide. */
  lemma IdsCollide(height: nat, creator: nat, epoch: nat)
    ensures Id(height + 65536, creator, epoch) == Id(height, creator + 1, epoch)
    ensures height < 65536 && creator < 65536 && epoch < 4294967296 ==>
      Id(height, creator, epoch) == height + 65536 * creator + 4294967296 * epoch
  {
    if height < 65536 && creator < 65536 && epoch < 4294967296 {
      SplitId(height, creator, epoch);
    }
  }

  // ------------------------------------------------------------------------- encoding

  /** A height as a 32-bit number; -1 is all ones. */
  function EncodeHeight(h: int): nat {
    if h == -1 then UINT32 - 1 else h % UINT32
  }

  function DecodeHeight(x: nat): int {
    if x == UINT32 - 1 then -1 else x
  }

  lemma HeightRoundTrip(h: int)
    ensures DecodeHeight(EncodeHeight(h)) == h <==> -1 <= h < UINT32 - 1
  {
  }

  /** Larger heights wrap, and the largest 32-bit number reads as -1. */
  lemma HeightsWrap(h: nat)
    ensures EncodeHeight(h + 4294967296) == EncodeHeight(h)
    ensures h < 4294967296 ==> EncodeHeight(h) == h
    ensures DecodeHeight(EncodeHeight(4294967295)) == -1
  {
  }

  function HeightsBytes(heights: seq<int>): (bs: seq<Octet>)
    ensures |bs| == 4 * |heights|
  {
    if heights == [] then []
      else HeightsBytes(heights[..|heights| - 1]) + ToBytes(EncodeHeight(heights[|heights| - 1]), 4)
  }

  function CrownBytes(heights: seq<int>, controlHash: seq<Octet>): seq<Octet> {
    ToBytes(|heights| % UINT16, 2) + HeightsBytes(heights) + controlHash
  }

  /** The size of the crown buffer, computed in 16 bits. */
  function CrownBufferSize(nParents: nat): nat {
    (2 + nParents % UINT16 * 4 + 32) % UINT16
  }

  /** The buffer is large enough exactly for committees of at most 16375. */
  lemma CrownFits(nParents: nat)
    ensures 2 + 4 * nParents + 32 <= CrownBufferSize(nParents) <==> nParents <= 16375
    ensures nParents <= 16375 ==> CrownBufferSize(nParents) == 2 + 4 * nParents + 32
    ensures CrownBufferSize(nParents) >= 2
  {
    var m := nParents % UINT16;
    assert (34 + 4 * m) % 4 == 2;
    assert CrownBufferSize(nParents) == 34 + 4 * m - UINT16 * ((34 + 4 * m) / UINT16);
    assert CrownBufferSize(nParents) % 4 == 2;
  }

  /** Writes `bs` at position `at`, or fails if it does not fit. */
  method Put(buffer: array<Octet>, at: nat, bs: seq<Octet>) returns (ok: bool)
    modifies buffer
    ensures ok <==> at + |bs| <= buffer.Length
    ensures ok ==> buffer[..] == old(buffer[..at]) + bs + old(buffer[at + |bs|..])
  {
    if at + |bs| > buffer.Length {
      return false;
    }
    ghost var before := buffer[..];
    for i := 0 to |bs|
      invariant buffer[..] == before[..at] + bs[..i] + before[at + i..]
    {
      buffer[at + i] := bs[i];
      assert bs[..i + 1] == bs[..i] + [bs[i]];
    }
    assert bs[..|bs|] == bs;
    return true;
  }

  /** Fills the crown buffer at a moving offset; `None` stands for running out of it. */
  method EncodeCrown(heights: seq<int>, controlHash: seq<Octet>) returns (r: Option<seq<Octet>>)
    requires |controlHash| == HASH_BYTES
    ensures r.Some? <==> |heights| <= 16375
    ensures r.Some? ==> r.value == CrownBytes(heights, controlHash)
  {
    hide ToBytes, EncodeHeight;
    CrownFits(|heights|);
    var buffer := new Octet[CrownBufferSize(|heights|)](i => 0);
    var ok := Put(buffer, 0, ToBytes(|heights| % UINT16, 2));
    var s := 2;
    ghost var done := ToBytes(|heights| % UINT16, 2);
    assert buffer[..2] == done + HeightsBytes(heights[..0]);
    for k := 0 to |heights|
      invariant s == 2 + 4 * k <= buffer.Length
      invariant buffer[..s] == done + HeightsBytes(heights[..k])
    {
      assert heights[..k + 1][..k] == heights[..k];
      ok := Put(buffer, s, ToBytes(EncodeHeight(heights[k]), 4));
      if !ok {
        return None;
      }
      s := s + 4;
    }
    assert heights[..|heights|] == heights;
    ok := Put(buffer, s, controlHash);
    if !ok {
      return None;
    }
    return Some(buffer[..]);
  }

  /** The signature field: cut or filled up with zeros to its fixed size. */
  function SignatureField(signature: seq<Octet>): (bs: seq<Octet>)
    ensures |bs| == SIGNATURE_BYTES
    ensures |signature| == SIGNATURE_BYTES ==> bs == signature
    ensures forall i :: 0 <= i < 64 ==> bs[i] == if i < |signature| then signature[i] else 0
  {
    if |signature| >= SIGNATURE_BYTES then signature[..SIGNATURE_BYTES]
    else signature + seq(SIGNATURE_BYTES - |signature|, i => 0)
  }

  function Sized(bs: seq<Octet>): seq<Octet> {
    ToBytes(|bs| % UINT32, 4) + bs
  }

  /** The fields of a preunit on the wire. */
  function WireBytes(pu: Preunit): seq<Octet> {
    ToBytes(Id(pu.height, pu.creator, pu.epoch), 8) + SignatureField(pu.signature)
      + CrownBytes(pu.heights, pu.controlHash) + Sized(pu.data) + Sized(pu.RandomData())
  }

  /** The encoding of a preunit, or of no preunit; `None` when the crown does not fit its buffer. */
  function UnitBytes(u: Option<Preunit>): Option<seq<Octet>> {
    match u
    case None => Some(ToBytes(UINT64 - 1, 8))
    case Some(pu) =>
      if |pu.heights| > 16375 then None
      else Some(WireBytes(pu))
  }

  /** Writes the fields of a unit one after another. */
  method EncodeUnit(u: Option<Preunit>) returns (out: Option<seq<Octet>>)
    requires u.Some? ==> |u.value.controlHash| == HASH_BYTES
    ensures out == UnitBytes(u)
  {
    if u.None? {
      return Some(ToBytes(UINT64 - 1, 8));
    }
    var pu := u.value;
    var bytes := ToBytes(Id(pu.height, pu.creator, pu.epoch), 8) + SignatureField(pu.signature);
    var crown := EncodeCrown(pu.heights, pu.controlHash);
    if crown.None? {
      return None;
    }
    bytes := bytes + crown.value;
    bytes := bytes + ToBytes(|pu.data| % UINT32, 4) + pu.data;
    bytes := bytes + ToBytes(|pu.RandomData()| % UINT32, 4) + pu.RandomData();
    assert bytes == WireBytes(pu);
    return Some(bytes);
  }

  // ------------------------------------------------------------------------- decoding

  /** A decoded value and the bytes left, an error, or a panic. */
  datatype Result<+T> = Ok(value: T, rest: seq<Octet>) | Err | Panic

  function Read(bs: seq<Octet>, k: nat): Result<seq<Octet>> {
    if |bs| >= k then Ok(bs[..k], bs[k..]) else Err
  }

  function ReadNat(bs: seq<Octet>, k: nat): Result<nat> {
    if |bs| >= k then Ok(FromBytes(bs[..k]), bs[k..]) else Err
  }

  function ReadHeights(bs: seq<Octet>, n: nat): Result<seq<int>> {
    if n == 0 then Ok([], bs) else
    match ReadHeights(bs, n - 1)
    case Err => Err
    case Panic => Panic
    case Ok(hs, rest) =>
      match ReadNat(rest, 4)
      case Err => Err
      case Panic => Panic
      case Ok(x, rest') => Ok(hs + [DecodeHeight(x)], rest')
  }

  /** Reads the heights of a crown one by one. */
  method DecodeHeights(bs: seq<Octet>, n: nat) returns (r: Result<seq<int>>)
    ensures r == ReadHeights(bs, n)
  {
    var heights: seq<int>, rest := [], bs;
    for i := 0 to n
      invariant ReadHeights(bs, i) == Ok(heights, rest)
    {
      if |rest| < 4 {
        ReadHeightsFails(bs, i + 1, n);
        return Err;
      }
      heights := heights + [DecodeHeight(FromBytes(rest[..4]))];
      rest := rest[4..];
    }
    return Ok(heights, rest);
  }

  lemma {:induction false} ReadHeightsFails(bs: seq<Octet>, i: nat, n: nat)
    requires i <= n && ReadHeights(bs, i) == Err
    ensures ReadHeights(bs, n) == Err
    decreases n - i
  {
    if i < n {
      ReadHeightsFails(bs, i + 1, n);
    }
  }

  function DecodeCrown(bs: seq<Octet>): Result<(seq<int>, seq<Octet>)> {
    match ReadNat(bs, 2)
    case Err => Err
    case Panic => Panic
    case Ok(n, rest) =>
      match ReadHeights(rest, n)
      case Err => Err
      case Panic => Panic
      case Ok(heights, rest') =>
        match Read(rest', HASH_BYTES)
        case Err => Err
        case Panic => Panic
        case Ok(hash, rest'') => Ok((heights, hash), rest'')
  }

  /** A length-prefixed byte string, rejected if longer than `limit`. */
  function ReadSized(bs: seq<Octet>, limit: nat): Result<seq<Octet>> {
    match ReadNat(bs, 4)
    case Err => Err
    case Panic => Panic
    case Ok(n, rest) => if n > limit then Err else Read(rest, n)
  }

  /** The height is one more than the creator's slot in the crown. */
  predicate HeightMatches(pu: Preunit) {
    pu.creator < |pu.heights| && pu.height == pu.heights[pu.creator] + 1
  }

  /** Reads the fields of a preunit, or the mark for none. */
  function ReadFields(bs: seq<Octet>): Result<Option<Preunit>> {
    match ReadNat(bs, 8)
    case Err => Err
    case Panic => Panic
    case Ok(id, r1) =>
      if id == UINT64 - 1 then Ok(None, r1) else
      match Read(r1, SIGNATURE_BYTES)
      case Err => Err
      case Panic => Panic
      case Ok(signature, r2) =>
        match DecodeCrown(r2)
        case Err => Err
        case Panic => Panic
        case Ok((heights, hash), r3) =>
          match ReadSized(r3, MAX_DATA_BYTES)
          case Err => Err
          case Panic => Panic
          case Ok(data, r4) =>
            match ReadSized(r4, MAX_RS_DATA_BYTES)
            case Err => Err
            case Panic => Panic
            case Ok(rsData, r5) =>
              var (height, creator, epoch) := DecodeId(id);
              Ok(Some(Preunit(creator, height, epoch, signature, heights, hash, data, Some(rsData))), r5)
  }

  /** Decodes a preunit, or the mark for none; building a preunit panics if its height does not match its crown. */
  function DecodePreunit(bs: seq<Octet>): Result<Option<Preunit>> {
    match ReadFields(bs)
    case Err => Err
    case Panic => Panic
    case Ok(None, rest) => Ok(None, rest)
    case Ok(Some(pu), rest) => if HeightMatches(pu) then Ok(Some(pu), rest) else Panic
  }

  // ----------------------------------------------------------------------- round trip

  /** The fields fit the wire format. */
  ghost predicate FieldsFit(pu: Preunit) {
    && pu.height < UINT16 && pu.creator < UINT16 && pu.epoch < UINT32
    && Id(pu.height, pu.creator, pu.epoch) != UINT64 - 1
    && |pu.signature| == SIGNATURE_BYTES && |pu.controlHash| == HASH_BYTES
    && |pu.heights| < UINT16 && (forall i :: 0 <= i < |pu.heights| ==> -1 <= pu.heights[i] < UINT32 - 1)
    && |pu.data| <= MAX_DATA_BYTES && pu.rsData.Some? && |pu.rsData.value| <= MAX_RS_DATA_BYTES
  }

  /** The preunits the wire format can carry. */
  ghost predicate WellFormed(pu: Preunit) {
    FieldsFit(pu) && HeightMatches(pu)
  }

  lemma ReadBack(a: seq<Octet>, rest: seq<Octet>)
    ensures Read(a + rest, |a|) == Ok(a, rest)
  {
    assert (a + rest)[..|a|] == a && (a + rest)[|a|..] == rest;
  }

  lemma ReadNatBack(n: nat, k: nat, rest: seq<Octet>)
    requires n < Pow256(k)
    ensures ReadNat(ToBytes(n, k) + rest, k) == Ok(n, rest)
  {
    ReadBack(ToBytes(n, k), rest);
    BytesRoundTrip(n, k);
  }

  lemma ReadSizedBack(a: seq<Octet>, limit: nat, rest: seq<Octet>)
    requires |a| <= limit < UINT32
    ensures ReadSized(Sized(a) + rest, limit) == Ok(a, rest)
  {
    hide ToBytes, Pow256, ReadNat, Read;
    Powers();
    assert Sized(a) + rest == ToBytes(|a|, 4) + (a + rest);
    ReadNatBack(|a|, 4, a + rest);
    ReadBack(a, rest);
  }

  lemma {:induction false} HeightsBack(heights: seq<int>, rest: seq<Octet>)
    requires forall i :: 0 <= i < |heights| ==> -1 <= heights[i] < UINT32 - 1
    ensures ReadHeights(HeightsBytes(heights) + rest, |heights|) == Ok(heights, rest)
  {
    if heights == [] {
      assert HeightsBytes(heights) + rest == rest;
    } else {
      var last := |heights| - 1;
      var x := EncodeHeight(heights[last]);
      assert HeightsBytes(heights) + rest == HeightsBytes(heights[..last]) + (ToBytes(x, 4) + rest);
      HeightsBack(heights[..last], ToBytes(x, 4) + rest);
      Powers();
      ReadNatBack(x, 4, rest);
      HeightRoundTrip(heights[last]);
      assert heights == heights[..last] + [heights[last]];
    }
  }

  lemma CrownBack(heights: seq<int>, hash: seq<Octet>, rest: seq<Octet>)
    requires |heights| < UINT16 && |hash| == HASH_BYTES && forall i :: 0 <= i < |heights| ==>
      -1 <= heights[i] < UINT32 - 1
    ensures DecodeCrown(CrownBytes(heights, hash) + rest) == Ok((heights, hash), rest)
  {
    hide ReadHeights, HeightsBytes, ToBytes, FromBytes, ReadNat, Read;
    Powers();
    var tail := HeightsBytes(heights) + (hash + rest);
    assert CrownBytes(heights, hash) + rest == ToBytes(|heights|, 2) + tail;
    ReadNatBack(|heights|, 2, tail);
    HeightsBack(heights, hash + rest);
    ReadBack(hash, rest);
  }

  /** Fields that fit are read back, and nothing beyond them is read. */
  lemma ReadFieldsBack(pu: Preunit, rest: seq<Octet>)
    requires FieldsFit(pu)
    ensures ReadFields(WireBytes(pu) + rest) == Ok(Some(pu), rest)
  {
    hide ToBytes, FromBytes, ReadNat, Read, ReadSized, Sized, DecodeCrown, CrownBytes, Id, DecodeId, SignatureField,
      Pow256;
    var id := Id(pu.height, pu.creator, pu.epoch);
    IdBound(pu.height, pu.creator, pu.epoch);
    Powers();
    var r4 := Sized(pu.rsData.value) + rest;
    var r3 := Sized(pu.data) + r4;
    var r2 := CrownBytes(pu.heights, pu.controlHash) + r3;
    var r1 := pu.signature + r2;
    SignatureKept(pu.signature);
    assert WireBytes(pu) + rest == ToBytes(id, 8) + r1;
    ReadNatBack(id, 8, r1);
    ReadBack(pu.signature, r2);
    CrownBack(pu.heights, pu.controlHash, r3);
    ReadSizedBack(pu.data, MAX_DATA_BYTES, r4);
    ReadSizedBack(pu.rsData.value, MAX_RS_DATA_BYTES, rest);
    IdRoundTrip(pu.height, pu.creator, pu.epoch);
  }

  /** What is encoded is decoded, and nothing beyond it is read. */
  lemma DecodeEncoded(pu: Preunit, rest: seq<Octet>)
    requires WellFormed(pu) && |pu.heights| <= 16375
    ensures DecodePreunit(UnitBytes(Some(pu)).value + rest) == Ok(Some(pu), rest)
  {
    hide ReadFields, WireBytes, FieldsFit;
    ReadFieldsBack(pu, rest);
  }

  lemma IdBound(height: nat, creator: nat, epoch: nat)
    ensures Id(height, creator, epoch) < UINT64
  {
  }

  lemma SignatureKept(signature: seq<Octet>)
    requires |signature| == SIGNATURE_BYTES
    ensures SignatureField(signature) == signature
  {
  }

  lemma {:induction false} DecodedHeights(bs: seq<Octet>, n: nat)
    ensures var r := ReadHeights(bs, n);
      r.Ok? ==> |r.value| == n && forall i :: 0 <= i < n ==> -1 <= r.value[i] < UINT32 - 1
  {
    if n > 0 {
      DecodedHeights(bs, n - 1);
      var r := ReadHeights(bs, n - 1);
      if r.Ok? && |r.rest| >= 4 {
        BytesBound(r.rest[..4]);
        Powers();
      }
    }
  }

  /** Whatever fields are read fit, for any bytes at all. */
  lemma FieldsReadFit(bs: seq<Octet>)
    ensures var r := ReadFields(bs); !r.Panic? && (r.Ok? && r.value.Some? ==> FieldsFit(r.value.value))
  {
    hide FromBytes, ReadHeights, Id, Pow256;
    var r := ReadFields(bs);
    NoPanicReading(bs);
    if r.Ok? && r.value.Some? {
      var id := FromBytes(bs[..8]);
      BytesBound(bs[..8]);
      Powers();
      IdInverse(id);
      var r2 := bs[8..][SIGNATURE_BYTES..];
      BytesBound(r2[..2]);
      DecodedHeights(r2[2..], FromBytes(r2[..2]));
    }
  }

  lemma {:induction false} NoPanicHeights(bs: seq<Octet>, n: nat)
    ensures !ReadHeights(bs, n).Panic?
  {
    if n > 0 {
      NoPanicHeights(bs, n - 1);
    }
  }

  lemma NoPanicReading(bs: seq<Octet>)
    ensures !ReadFields(bs).Panic?
  {
    hide FromBytes, ReadHeights;
    if |bs| >= 8 && |bs[8..]| >= SIGNATURE_BYTES {
      var r2 := bs[8..][SIGNATURE_BYTES..];
      if |r2| >= 2 {
        NoPanicHeights(r2[2..], FromBytes(r2[..2]));
      }
    }
  }

  /** Whatever the decoder returns is well-formed, for any bytes at all. */
  lemma DecodedIsWellFormed(bs: seq<Octet>)
    ensures var r := DecodePreunit(bs); r.Ok? && r.value.Some? ==> WellFormed(r.value.value)
  {
    hide ReadFields, FieldsFit;
    FieldsReadFit(bs);
  }

  // ------------------------------------------------------- which bytes decode to what

  lemma {:induction false} BytesOfNumber(bs: seq<Octet>)
    ensures ToBytes(FromBytes(bs), |bs|) == bs
  {
    if bs != [] {
      BytesOfNumber(bs[1..]);
      LowestByte(bs[0], FromBytes(bs[1..]));
    }
  }

  lemma LowestByte(b: Octet, high: nat)
    ensures (b + 256 * high) % 256 == b && (b + 256 * high) / 256 == high
  {
  }

  lemma ReadNatIs(bs: seq<Octet>, k: nat)
    ensures var r := ReadNat(bs, k); r.Ok? ==> bs == ToBytes(r.value, k) + r.rest && r.value < Pow256(k)
  {
    if |bs| >= k {
      BytesOfNumber(bs[..k]);
      BytesBound(bs[..k]);
      assert bs == bs[..k] + bs[k..];
    }
  }

  lemma HeightIs(x: nat)
    requires x < UINT32
    ensures EncodeHeight(DecodeHeight(x)) == x
  {
  }

  lemma {:induction false} ReadHeightsIs(bs: seq<Octet>, n: nat)
    ensures var r := ReadHeights(bs, n); r.Ok? ==> |r.value| == n && bs == HeightsBytes(r.value) + r.rest
  {
    hide ReadNat, ToBytes, Pow256, DecodeHeight, EncodeHeight;
    if n == 0 {
      assert bs == HeightsBytes([]) + bs;
    } else {
      ReadHeightsIs(bs, n - 1);
      var r := ReadHeights(bs, n - 1);
      if r.Ok? {
        ReadNatIs(r.rest, 4);
        var x := ReadNat(r.rest, 4);
        if x.Ok? {
          Powers();
          HeightIs(x.value);
          var hs := r.value + [DecodeHeight(x.value)];
          assert hs[..n - 1] == r.value;
          assert HeightsBytes(hs) == HeightsBytes(r.value) + ToBytes(x.value, 4);
        }
      }
    }
  }

  lemma CrownIs(bs: seq<Octet>)
    ensures var r := DecodeCrown(bs);
      r.Ok? ==> |r.value.0| < UINT16 && bs == CrownBytes(r.value.0, r.value.1) + r.rest
  {
    hide ReadNat, ReadHeights, HeightsBytes, ToBytes, Pow256;
    ReadNatIs(bs, 2);
    Powers();
    var n := ReadNat(bs, 2);
    if n.Ok? {
      ReadHeightsIs(n.rest, n.value);
    }
  }

  lemma SizedIs(bs: seq<Octet>, limit: nat)
    requires limit < UINT32
    ensures var r := ReadSized(bs, limit); r.Ok? ==> |r.value| <= limit && bs == Sized(r.value) + r.rest
  {
    hide ReadNat, ToBytes, Pow256;
    ReadNatIs(bs, 4);
  }

  /** The bytes read are the fields on the wire and what follows them. */
  lemma FieldsReadAreWire(bs: seq<Octet>)
    ensures var r := ReadFields(bs); r.Ok? && r.value.Some? ==> bs == WireBytes(r.value.value) + r.rest
  {
    hide ReadNat, DecodeCrown, ReadSized, ToBytes, Pow256, CrownBytes, Sized, SignatureField, Id, DecodeId;
    var r := ReadFields(bs);
    if r.Ok? && r.value.Some? {
      var pu := r.value.value;
      ReadNatIs(bs, 8);
      Powers();
      var id := ReadNat(bs, 8);
      IdInverse(id.value);
      var r2 := id.rest[SIGNATURE_BYTES..];
      SignatureKept(id.rest[..SIGNATURE_BYTES]);
      CrownIs(r2);
      var r3 := DecodeCrown(r2).rest;
      SizedIs(r3, MAX_DATA_BYTES);
      SizedIs(ReadSized(r3, MAX_DATA_BYTES).rest, MAX_RS_DATA_BYTES);
    }
  }

  /** The bytes that bring a node down are exactly the encodings of fields whose height does not match the crown. */
  lemma DecodePanics(bs: seq<Octet>)
    ensures DecodePreunit(bs).Panic? <==>
      exists pu, rest :: FieldsFit(pu) && bs == WireBytes(pu) + rest
        && !(pu.creator < |pu.heights| && pu.heights[pu.creator] == pu.height - 1)
  {
    hide ReadFields, WireBytes, FieldsFit;
    FieldsReadFit(bs);
    FieldsReadAreWire(bs);
    if pu, rest :| FieldsFit(pu) && bs == WireBytes(pu) + rest && !HeightMatches(pu) {
      ReadFieldsBack(pu, rest);
    }
  }

  /** And the bytes that decode to a preunit are exactly its encoding. */
  lemma DecodesTo(bs: seq<Octet>, pu: Preunit, rest: seq<Octet>)
    ensures DecodePreunit(bs) == Ok(Some(pu), rest) <==>
      && FieldsFit(pu) && pu.creator < |pu.heights| && pu.heights[pu.creator] == pu.height - 1
      && bs == WireBytes(pu) + rest
  {
    hide ReadFields, WireBytes, FieldsFit;
    FieldsReadFit(bs);
    FieldsReadAreWire(bs);
    if FieldsFit(pu) {
      ReadFieldsBack(pu, rest);
    }
  }

  /** A preunit survives the wire exactly when it is well-formed and its committee is not too large. */
  lemma WireRoundTrip(pu: Preunit, rest: seq<Octet>)
    ensures (UnitBytes(Some(pu)).Some? && DecodePreunit(UnitBytes(Some(pu)).value + rest) == Ok(Some(pu), rest))
      <==> WellFormed(pu) && |pu.heights| <= 16375
  {
    hide WellFormed, DecodePreunit;
    if WellFormed(pu) && |pu.heights| <= 16375 {
      DecodeEncoded(pu, rest);
    }
    if UnitBytes(Some(pu)).Some? && DecodePreunit(UnitBytes(Some(pu)).value + rest) == Ok(Some(pu), rest) {
      DecodedIsWellFormed(UnitBytes(Some(pu)).value + rest);
    }
  }

  /** Nil random data comes back empty; otherwise what fits comes back as it was. */
  lemma ReadBackAs(pu: Preunit, rest: seq<Octet>)
    requires WellFormed(pu.AsRead()) && |pu.heights| <= 16375
    ensures DecodePreunit(UnitBytes(Some(pu)).value + rest) == Ok(Some(pu.AsRead()), rest)
  {
    hide DecodePreunit, WellFormed;
    assert WireBytes(pu) == WireBytes(pu.AsRead());
    DecodeEncoded(pu.AsRead(), rest);
  }

  /** The mark for no unit is read back as such. */
  lemma NilRoundTrip(rest: seq<Octet>)
    ensures DecodePreunit(UnitBytes(None).value + rest) == Ok(None, rest)
  {
    hide ToBytes, FromBytes, ReadNat, Pow256;
    Powers();
    ReadNatBack(UINT64 - 1, 8, rest);
  }

  // --------------------------------------------------------- where a field is on the wire

  ghost function Word16(bs: seq<Octet>, at: nat): nat
    requires at + 2 <= |bs|
  {
    (bs[at] as nat) + 256 * (bs[at + 1] as nat)
  }

  ghost function Word32(bs: seq<Octet>, at: nat): nat
    requires at + 4 <= |bs|
  {
    (bs[at] as nat) + 256 * (bs[at + 1] as nat) + 65536 * (bs[at + 2] as nat) + 16777216 * (bs[at + 3] as nat)
  }

  ghost function Word64(bs: seq<Octet>, at: nat): nat
    requires at + 8 <= |bs|
  {
    Word32(bs, at) + 4294967296 * Word32(bs, at + 4)
  }

  lemma FromBytes2(bs: seq<Octet>)
    requires |bs| == 2
    ensures FromBytes(bs) == Word16(bs, 0)
  {
    assert FromBytes(bs[1..]) == bs[1];
  }

  lemma FromBytes4(bs: seq<Octet>)
    requires |bs| >= 4
    ensures FromBytes(bs) == Word32(bs, 0) + 4294967296 * FromBytes(bs[4..])
  {
    assert bs[1..][1..] == bs[2..] && bs[2..][1..] == bs[3..] && bs[3..][1..] == bs[4..];
    assert FromBytes(bs[3..]) == bs[3] + 256 * FromBytes(bs[4..]);
    assert FromBytes(bs[2..]) == bs[2] + 256 * FromBytes(bs[3..]);
    assert FromBytes(bs[1..]) == bs[1] + 256 * FromBytes(bs[2..]);
  }

  /** Numbers are written lowest byte first. */
  lemma WordsOf(n: nat)
    ensures n < 65536 ==> Word16(ToBytes(n, 2), 0) == n
    ensures n < 4294967296 ==> Word32(ToBytes(n, 4), 0) == n
    ensures n < 18446744073709551616 ==> Word64(ToBytes(n, 8), 0) == n
  {
    hide ToBytes, Pow256;
    Powers();
    if n < 65536 {
      BytesRoundTrip(n, 2);
      FromBytes2(ToBytes(n, 2));
    }
    if n < 4294967296 {
      BytesRoundTrip(n, 4);
      FromBytes4(ToBytes(n, 4));
    }
    if n < 18446744073709551616 {
      BytesRoundTrip(n, 8);
      FromBytes4(ToBytes(n, 8));
      FromBytes4(ToBytes(n, 8)[4..]);
    }
  }

  lemma WordShifts(a: seq<Octet>, x: seq<Octet>, rest: seq<Octet>, at: nat)
    requires at + 4 <= |x|
    ensures Word32(a + x + rest, |a| + at) == Word32(x, at)
  {
  }

  lemma {:induction false} HeightsLayout(heights: seq<int>, k: nat)
    requires k < |heights| && -1 <= heights[k] < 4294967295
    ensures Word32(HeightsBytes(heights), 4 * k) == if heights[k] == -1 then 4294967295 else heights[k]
  {
    hide ToBytes, Word32, Word64;
    var last := |heights| - 1;
    var before, word := HeightsBytes(heights[..last]), ToBytes(EncodeHeight(heights[last]), 4);
    if k == last {
      WordsOf(EncodeHeight(heights[k]));
      WordShifts(before, word, [], 0);
      assert before + word + [] == HeightsBytes(heights);
    } else {
      HeightsLayout(heights[..last], k);
      WordShifts([], before, word, 4 * k);
      assert [] + before + word == HeightsBytes(heights);
    }
  }

  ghost predicate CrownAt(b: seq<Octet>, at: nat, heights: seq<int>, controlHash: seq<Octet>) {
    var n := |heights|;
    && at + 34 + 4 * n <= |b|
    && Word16(b, at) == n
    && (forall k :: 0 <= k < n ==> Word32(b, at + 2 + 4 * k) == if heights[k] == -1 then 4294967295 else heights[k])
    && b[at + 2 + 4 * n..at + 34 + 4 * n] == controlHash
  }

  lemma CrownLayout(heights: seq<int>, controlHash: seq<Octet>)
    requires |heights| < 65536 && |controlHash| == 32
    requires forall k :: 0 <= k < |heights| ==> -1 <= heights[k] < 4294967295
    ensures |CrownBytes(heights, controlHash)| == 34 + 4 * |heights|
    ensures CrownAt(CrownBytes(heights, controlHash), 0, heights, controlHash)
  {
    hide ToBytes, HeightsBytes, Word32, Word64;
    var b, n, hs := CrownBytes(heights, controlHash), |heights|, HeightsBytes(heights);
    WordsOf(n);
    forall k | 0 <= k < n ensures Word32(b, 2 + 4 * k) == if heights[k] == -1 then 4294967295 else heights[k] {
      HeightsLayout(heights, k);
      WordShifts(ToBytes(n, 2), hs, controlHash, 4 * k);
    }
  }

  /** The limits of the wire format in numbers. */
  lemma FieldsFitIs(pu: Preunit)
    ensures FieldsFit(pu) <==>
      && pu.height < 65536 && pu.creator < 65536 && pu.epoch < 4294967296
      && !(pu.height == 65535 && pu.creator == 65535 && pu.epoch == 4294967295)
      && |pu.signature| == 64 && |pu.controlHash| == 32
      && |pu.heights| < 65536 && (forall i :: 0 <= i < |pu.heights| ==> -1 <= pu.heights[i] < 4294967295)
      && |pu.data| <= 2_000_000 && pu.rsData.Some? && |pu.rsData.value| <= 1_000_000
  {
    if pu.height < 65536 && pu.creator < 65536 && pu.epoch < 4294967296 {
      SplitId(pu.height, pu.creator, pu.epoch);
    }
  }

  lemma IdIs(pu: Preunit)
    requires FieldsFit(pu)
    ensures Id(pu.height, pu.creator, pu.epoch) == pu.height + pu.creator * 65536 + pu.epoch * 4294967296
  {
    SplitId(pu.height, pu.creator, pu.epoch);
  }

  /** The wire format as one concatenation. */
  lemma WireIs(pu: Preunit)
    requires FieldsFit(pu)
    ensures WireBytes(pu) == [] + ToBytes(pu.height + pu.creator * 65536 + pu.epoch * 4294967296, 8) + pu.signature
      + CrownBytes(pu.heights, pu.controlHash) + ToBytes(|pu.data|, 4) + pu.data
      + ToBytes(|pu.rsData.value|, 4) + pu.rsData.value
  {
    hide ToBytes, CrownBytes, Id, SignatureField;
    IdIs(pu);
    SignatureKept(pu.signature);
  }

  /** Of a concatenation that is a prefix of `b`, the last part is found in `b`, and the first is a prefix too. */
  lemma PartAt(a: seq<Octet>, x: seq<Octet>, b: seq<Octet>)
    requires a + x <= b
    ensures a <= b && b[|a|..|a| + |x|] == x
    ensures |x| >= 4 ==> Word32(b, |a|) == Word32(x, 0)
    ensures |x| >= 8 ==> Word64(b, |a|) == Word64(x, 0)
  {
    var rest := b[|a| + |x|..];
    assert b == a + x + rest;
  }

  lemma CrownMoves(b: seq<Octet>, at: nat, crown: seq<Octet>, heights: seq<int>, controlHash: seq<Octet>)
    requires CrownAt(crown, 0, heights, controlHash) && at + |crown| <= |b| && b[at..at + |crown|] == crown
    ensures CrownAt(b, at, heights, controlHash)
  {
    var n := |heights|;
    assert forall i :: 0 <= i < |crown| ==> b[at + i] == crown[i];
    forall k | 0 <= k < n ensures Word32(b, at + 2 + 4 * k) == if heights[k] == -1 then 4294967295 else heights[k] {
      assert Word32(b, at + 2 + 4 * k) == Word32(crown, 2 + 4 * k);
    }
    assert b[at + 2 + 4 * n..at + 34 + 4 * n] == crown[2 + 4 * n..34 + 4 * n];
  }

  /** Where the fields of a preunit are on the wire; numbers are little-endian. */
  lemma WireLayout(pu: Preunit)
    requires FieldsFit(pu)
    ensures var b, n, d := WireBytes(pu), |pu.heights|, |pu.data|;
      && |b| == 114 + 4 * n + d + |pu.rsData.value|
      && Word64(b, 0) == pu.height + 65536 * pu.creator + 4294967296 * pu.epoch
      && b[8..72] == pu.signature
      && CrownAt(b, 72, pu.heights, pu.controlHash)
      && Word32(b, 106 + 4 * n) == d && b[110 + 4 * n..110 + 4 * n + d] == pu.data
      && Word32(b, 110 + 4 * n + d) == |pu.rsData.value| && b[114 + 4 * n + d..] == pu.rsData.value
  {
    hide ToBytes, CrownBytes, CrownAt, Word32, Word64, FieldsFit, Id, SignatureField, HeightsBytes, WireBytes;
    FieldsFitIs(pu);
    CrownLayout(pu.heights, pu.controlHash);
    var number, d, rs := pu.height + pu.creator * 65536 + pu.epoch * 4294967296, |pu.data|, pu.rsData.value;
    SplitId(pu.height, pu.creator, pu.epoch);
    WordsOf(number);
    WordsOf(d);
    WordsOf(|rs|);
    WireIs(pu);
    var b := WireBytes(pu);
    var id, crown := ToBytes(number, 8), CrownBytes(pu.heights, pu.controlHash);
    var b1 := [] + id;
    var b2 := b1 + pu.signature;
    var b3 := b2 + crown;
    var b4 := b3 + ToBytes(d, 4);
    var b5 := b4 + pu.data;
    var b6 := b5 + ToBytes(|rs|, 4);
    PartAt(b6, rs, b);
    PartAt(b5, ToBytes(|rs|, 4), b);
    PartAt(b4, pu.data, b);
    PartAt(b3, ToBytes(d, 4), b);
    PartAt(b2, crown, b);
    PartAt(b1, pu.signature, b);
    PartAt([], id, b);
    CrownMoves(b, 72, crown, pu.heights, pu.controlHash);
  }

  /** The mark for no unit: eight bytes of ones. */
  lemma NilLayout()
    ensures UnitBytes(None).Some? && |UnitBytes(None).value| == 8
      && Word64(UnitBytes(None).value, 0) == 18446744073709551615
  {
    hide ToBytes;
    WordsOf(18446744073709551615);
  }
}
