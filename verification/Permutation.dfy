/** The common permutation in which the units of a level are tried as timing units. */
module Permutation {
  import opened Units
  import opened Quorums
  import opened Voting
  import opened DagViews
  import opened HashOrder

  const UINT16_VALUES := 65536

  /** Rotation by the level. */
  function Rotate(n: nat, level: nat, i: nat): (pid: nat)
    requires n > 0
    ensures pid < n
  {
    (i + level) % n
  }

  /** Rotation by a creator, in 16-bit arithmetic. */
  function Shift(n: nat, pid: nat, creator: nat): (r: nat)
    requires n > 0
    ensures r < n
  {
    (pid + creator) % UINT16_VALUES % n
  }

  /** The process at position `i`: rotated by the level and, in 16-bit arithmetic, by the last timing unit's creator. */
  function Slot(n: nat, level: nat, tu: Option<Unit>, i: nat): (pid: nat)
    requires n > 0
    ensures pid < n
  {
    var pid := Rotate(n, level, i);
    if tu.None? then pid else Shift(n, pid, tu.value.creator)
  }

  function Slots(n: nat, level: nat, tu: Option<Unit>): seq<nat>
    requires n > 0
  {
    seq(n, i requires 0 <= i => Slot(n, level, tu, i))
  }

  function PrefixLength(n: nat, prefixLen: nat): nat {
    if prefixLen > n then n else prefixLen
  }

  /** Splits the processes into those ordered by hash and those ordered by random priority. */
  method SplitProcesses(n: nat, prefixLen: nat, level: nat, tu: Option<Unit>) returns (prefix: seq<nat>,
      suffix: seq<nat>)
    requires n > 0
    ensures prefix + suffix == Slots(n, level, tu)
    ensures |prefix| == PrefixLength(n, prefixLen) && |prefix + suffix| == n
    ensures |prefix| == if prefixLen < n then prefixLen else n
    ensures forall i :: 0 <= i < n ==>
      (prefix + suffix)[i] ==
        if tu.None? then (i + level) % n else ((i + level) % n + tu.value.creator) % 65536 % n
  {
    hide Rotate, Shift;
    var len := if prefixLen > n then n else prefixLen;
    var pids := new nat[n](i => 0);
    for pid := 0 to n
      invariant forall k :: 0 <= k < pid ==> pids[k] == Rotate(n, level, k)
    {
      pids[pid] := Rotate(n, level, pid);
    }
    if tu.Some? {
      for pid := 0 to n
        invariant forall k :: 0 <= k < pid ==> pids[k] == Slot(n, level, tu, k)
        invariant forall k :: pid <= k < n ==> pids[k] == Rotate(n, level, k)
      {
        pids[pid] := Shift(n, pids[pid], tu.value.creator);
      }
    }
    prefix, suffix := pids[..len], pids[len..];
    assert prefix + suffix == pids[..];
    forall i | 0 <= i < n
      ensures pids[i] == if tu.None? then (i + level) % n else ((i + level) % n + tu.value.creator) % 65536 % n
    {
      SlotIs(n, level, tu, i);
    }
  }

  lemma SlotIs(n: nat, level: nat, tu: Option<Unit>, i: nat)
    requires n > 0
    ensures Slot(n, level, tu, i) ==
      if tu.None? then (i + level) % n else ((i + level) % n + tu.value.creator) % 65536 % n
    ensures tu.None? ==> Rotate(n, level, i) == (i + level) % n
  {
  }

  // ---------------------------------------------- when the split is a permutation

  ghost predicate Distinct(s: seq<nat>) {
    forall i, j :: 0 <= i < j < |s| ==> s[i] != s[j]
  }

  lemma SmallMultiple(n: nat, d: int)
    ensures d == 0 || n * d >= n || n * d <= -(n as int)
  {
    if d > 0 {
      assert n * d == n * (d - 1) + n;
    } else if d < 0 {
      assert n * d == -(n * (-d - 1)) - n;
    }
  }

  lemma SameQuotient(n: nat, k: int, p: nat, k': int, p': nat)
    requires p < n && p' < n && n * k + p == n * k' + p'
    ensures k == k' && p == p'
  {
    assert n * (k - k') == n * k - n * k' == p' - p;
    SmallMultiple(n, k - k');
  }

  lemma RotationInjective(n: nat, a: nat, i: nat, j: nat)
    requires i < n && j < n && (i + a) % n == (j + a) % n
    ensures i == j
  {
    var x, y, r := (i + a) / n, (j + a) / n, (i + a) % n;
    assert i + a == n * x + r && j + a == n * y + r;
    assert n * (x - y) == n * x - n * y == i - j;
    SmallMultiple(n, x - y);
  }

  lemma RotationReaches(n: nat, a: nat, p: nat) returns (i: nat)
    requires p < n
    ensures i < n && (i + a) % n == p
  {
    var k, r := a / n, a % n;
    assert a == n * k + r;
    if p >= r {
      i := p - r;
      Remainder(n, k, p, i + a);
    } else {
      i := p + n - r;
      assert n * (k + 1) == n * k + n;
      Remainder(n, k + 1, p, i + a);
    }
  }

  lemma Remainder(n: nat, k: nat, p: nat, x: nat)
    requires p < n && x == n * k + p
    ensures x % n == p
  {
    assert x == n * (x / n) + x % n;
    SameQuotient(n, k, p, x / n, x % n);
  }

  /** Every process gets exactly one position unless the 16-bit sum can overflow. */
  lemma SplitIsPermutation(n: nat, level: nat, tu: Option<Unit>)
    requires 0 < n < UINT16_VALUES && (tu.Some? ==> tu.value.creator < n)
    ensures Distinct(Slots(n, level, tu)) <==> tu.None? || tu.value.creator + n <= UINT16_VALUES
  {
    hide Slot;
    if tu.None? || tu.value.creator + n <= UINT16_VALUES {
      forall i, j | 0 <= i < j < n ensures Slot(n, level, tu, i) != Slot(n, level, tu, j) {
        SlotsDiffer(n, level, tu, i, j);
      }
    } else {
      var i, j := SlotsCollide(n, level, tu);
      var s := Slots(n, level, tu);
      assert s[i] == s[j];
    }
  }

  lemma SlotsCollide(n: nat, level: nat, tu: Option<Unit>) returns (i: nat, j: nat)
    requires 0 < n < UINT16_VALUES && tu.Some? && tu.value.creator < n && tu.value.creator + n > UINT16_VALUES
    ensures i < n && j < n && i != j && Slot(n, level, tu, i) == Slot(n, level, tu, j)
  {
    var c := tu.value.creator;
    i := RotationReaches(n, level, n - c);
    j := RotationReaches(n, level, UINT16_VALUES - c);
    Remainder(n, 1, 0, n);
    Remainder(n, 0, 0, 0);
    assert n % UINT16_VALUES == n && UINT16_VALUES % UINT16_VALUES == 0;
  }

  lemma SlotsDiffer(n: nat, level: nat, tu: Option<Unit>, i: nat, j: nat)
    requires 0 < n && i < j < n
    requires tu.Some? ==> tu.value.creator + n <= UINT16_VALUES
    ensures Slot(n, level, tu, i) != Slot(n, level, tu, j)
  {
    var p, p' := (i + level) % n, (j + level) % n;
    if p == p' {
      RotationInjective(n, level, i, j);
    }
    if tu.Some? {
      var c := tu.value.creator;
      assert (p + c) % UINT16_VALUES == p + c && (p' + c) % UINT16_VALUES == p' + c;
      if (p + c) % n == (p' + c) % n {
        RotationInjective(n, c, p, p');
      }
    }
  }

  ghost function Elements(s: seq<nat>): set<nat> {
    set x | x in s
  }

  /** A permutation of the processes misses none of them. */
  lemma DistinctCovers(n: nat, s: seq<nat>, p: nat)
    requires Distinct(s) && |s| == n && (forall x :: x in s ==> x < n) && p < n
    ensures p in s
  {
    DistinctSize(s);
    assert |Processes(n) - {p}| == n - 1;
    if p !in s {
      SubsetSize(Elements(s), Processes(n) - {p});
    }
  }

  lemma {:induction false} DistinctSize(s: seq<nat>)
    requires Distinct(s)
    ensures |Elements(s)| == |s|
  {
    if s != [] {
      var last := |s| - 1;
      DistinctSize(s[..last]);
      assert Elements(s) == Elements(s[..last]) + {s[last]};
    }
  }

  // ----------------------------------------------------------- the common order

  ghost predicate InPrefix(cfg: Config, level: nat, tu: Option<Unit>, pid: nat)
    requires cfg.committee.n > 0
  {
    pid in Slots(cfg.committee.n, level, tu)[..PrefixLength(cfg.committee.n, cfg.fixedPrefix)]
  }

  /** Process `pid` has a position, so its units are tried. */
  ghost predicate Tried(cfg: Config, level: nat, tu: Option<Unit>, pid: nat)
    requires cfg.committee.n > 0
  {
    pid in Slots(cfg.committee.n, level, tu)
  }

  /** All processes are tried unless the 16-bit sum can overflow. */
  lemma EveryoneTried(cfg: Config, level: nat, tu: Option<Unit>, pid: nat)
    requires 0 < cfg.committee.n < UINT16_VALUES && pid < cfg.committee.n
    requires tu.Some? ==> tu.value.creator < cfg.committee.n && tu.value.creator + cfg.committee.n <= UINT16_VALUES
    ensures Tried(cfg, level, tu, pid)
  {
    SplitIsPermutation(cfg.committee.n, level, tu);
    DistinctCovers(cfg.committee.n, Slots(cfg.committee.n, level, tu), pid);
  }

  function HashKey(): Unit -> Hash {
    (u: Unit) => u.hash
  }

  /** The priority of a unit in the random part: a hash of the random bytes five levels up and its own hash. */
  function PriorityKey(cfg: Config, level: nat): Unit -> Hash {
    (u: Unit) => cfg.shake(cfg.rand(level + 5) + u.hash)
  }

  /** `a` is tried before `b`: first the prefix, by hash, then the rest, by priority. */
  ghost predicate Precedes(cfg: Config, level: nat, tu: Option<Unit>, a: Unit, b: Unit)
    requires cfg.committee.n > 0
  {
    if InPrefix(cfg, level, tu, a.creator) then
      InPrefix(cfg, level, tu, b.creator) ==> Less(a.hash, b.hash)
    else
      !InPrefix(cfg, level, tu, b.creator) && Less(PriorityKey(cfg, level)(a), PriorityKey(cfg, level)(b))
  }

  /** The prefix: the processes at the first `fixedPrefix` positions, rotated by the level and the last timing unit. */
  lemma PrefixPosition(cfg: Config, level: nat, tu: Option<Unit>, pid: nat) returns (i: nat)
    requires cfg.committee.n > 0 && InPrefix(cfg, level, tu, pid)
    ensures var n := cfg.committee.n;
      && i < n && i < cfg.fixedPrefix
      && pid == if tu.None? then (i + level) % n else ((i + level) % n + tu.value.creator) % 65536 % n
  {
    hide Slot;
    var n := cfg.committee.n;
    i :| 0 <= i < PrefixLength(n, cfg.fixedPrefix) && Slots(n, level, tu)[i] == pid;
    SlotIs(n, level, tu, i);
  }

  /** Conversely, whoever has such a position is in the prefix. */
  lemma PositionInPrefix(cfg: Config, level: nat, tu: Option<Unit>, i: nat)
    requires i < cfg.committee.n && i < cfg.fixedPrefix
    ensures var n := cfg.committee.n;
      InPrefix(cfg, level, tu,
        if tu.None? then (i + level) % n else ((i + level) % n + tu.value.creator) % 65536 % n)
  {
    hide Slot;
    var n := cfg.committee.n;
    SlotIs(n, level, tu, i);
    assert Slots(n, level, tu)[..PrefixLength(n, cfg.fixedPrefix)][i] == Slot(n, level, tu, i);
  }

  /** The order in which candidates are tried, written out. */
  lemma PrecedesMeans(cfg: Config, level: nat, tu: Option<Unit>, a: Unit, b: Unit)
    requires cfg.committee.n > 0
    ensures InPrefix(cfg, level, tu, a.creator) && InPrefix(cfg, level, tu, b.creator) ==>
      (Precedes(cfg, level, tu, a, b) <==> Less(a.hash, b.hash))
    ensures InPrefix(cfg, level, tu, a.creator) && !InPrefix(cfg, level, tu, b.creator) ==>
      Precedes(cfg, level, tu, a, b) && !Precedes(cfg, level, tu, b, a)
    ensures !InPrefix(cfg, level, tu, a.creator) && !InPrefix(cfg, level, tu, b.creator) ==>
      (Precedes(cfg, level, tu, a, b) <==>
       Less(cfg.shake(cfg.rand(level + 5) + a.hash), cfg.shake(cfg.rand(level + 5) + b.hash)))
  {
    hide InPrefix, Less;
  }

  /** Any two units with distinct keys are ordered, one way. */
  lemma PrecedesIsTotal(cfg: Config, level: nat, tu: Option<Unit>, a: Unit, b: Unit)
    requires cfg.committee.n > 0
    requires a.hash == b.hash ==> a == b
    requires PriorityKey(cfg, level)(a) == PriorityKey(cfg, level)(b) ==> a == b
    ensures a == b || Precedes(cfg, level, tu, a, b) || Precedes(cfg, level, tu, b, a)
  {
    LessIsTotal(a.hash, b.hash);
    LessIsTotal(PriorityKey(cfg, level)(a), PriorityKey(cfg, level)(b));
  }

  /** All units of `early` on `level` made by `pids` are listed, and only such units of `late`. */
  ghost predicate Collects(early: set<Unit>, late: set<Unit>, level: nat, pids: seq<nat>, s: seq<Unit>) {
    && (forall u :: u in s ==> u in late && u.level == level && u.creator in pids)
    && (forall u :: u in early && u.level == level && u.creator in pids ==> u in s)
  }

  /** Adding what the slot of one more process shows now. */
  lemma CollectNext(cfg: Config, feed: nat -> Reading, t: nat, at: nat, level: nat, pids: seq<nat>, i: nat,
      s: seq<Unit>)
    requires Live(cfg, feed) && t <= at && i < |pids| && pids[i] < cfg.committee.n
    requires Collects(UnitsAt(feed, t), UnitsAt(feed, at), level, pids[..i], s)
    ensures pids[i] < |feed(at).view.UnitsOnLevel(cfg.committee, level)|
    ensures var slot := feed(at).view.UnitsOnLevel(cfg.committee, level)[pids[i]];
      && Collects(UnitsAt(feed, t), UnitsAt(feed, at + 1), level, pids[..i + 1], s + slot)
      && forall u :: u in slot ==> u in UnitsAt(feed, at) && u.level == level && u.creator == pids[i]
  {
    hide Live;
    Grows(cfg, feed, t, at);
    Grows(cfg, feed, at, at + 1);
    SoundAt(cfg, feed, at);
    assert pids[..i + 1] == pids[..i] + [pids[i]];
  }

  lemma SameElements(s: seq<Unit>, t: seq<Unit>)
    requires multiset(s) == multiset(t)
    ensures forall u :: u in s <==> u in t
  {
    forall u ensures u in s <==> u in t {
      assert u in s <==> u in multiset(s);
      assert u in t <==> u in multiset(t);
    }
  }

  lemma SortedByHash(s: seq<Unit>)
    requires SortedBy(s, HashKey())
    ensures forall i, j :: 0 <= i < j < |s| ==> !Less(s[j].hash, s[i].hash)
  {
    hide Less;
    forall i, j | 0 <= i < j < |s| ensures !Less(s[j].hash, s[i].hash) {
      assert HashKey()(s[i]) == s[i].hash && HashKey()(s[j]) == s[j].hash;
    }
  }

  /** The candidates of the prefix processes, by hash; every slot is read at its own time. */
  method DefaultPermutation(cfg: Config, feed: nat -> Reading, t: nat, level: nat,
      pids: seq<nat>) returns (perm: seq<Unit>, t': nat)
    requires Live(cfg, feed) && forall pid :: pid in pids ==> pid < cfg.committee.n
    ensures t <= t' && Collects(UnitsAt(feed, t), UnitsAt(feed, t'), level, pids, perm) && SortedBy(perm, HashKey())
    ensures forall i, j :: 0 <= i < j < |perm| ==> !Less(perm[j].hash, perm[i].hash)
  {
    hide Live, SortedBy, Less;
    var s: seq<Unit> := [];
    t' := t;
    for i := 0 to |pids|
      invariant t <= t' && Collects(UnitsAt(feed, t), UnitsAt(feed, t'), level, pids[..i], s)
    {
      assert pids[i] in pids;
      CollectNext(cfg, feed, t, t', level, pids, i, s);
      s := s + feed(t').view.UnitsOnLevel(cfg.committee, level)[pids[i]];
      t' := t' + 1;
    }
    assert pids[..|pids|] == pids;
    perm := Sort(s, HashKey());
    SameElements(s, perm);
    SortedByHash(perm);
  }

  /** Some unit of `pids` is on the level and the random bytes for it are not known. */
  ghost predicate BytesMissing(r: Reading, level: nat, pids: seq<nat>) {
    |r.store| <= level + 5 && exists u :: u in r.view.units && u.level == level && u.creator in pids
  }

  /** Two different units of the level have the same priority. */
  ghost predicate PriorityTie(cfg: Config, units: set<Unit>, level: nat) {
    exists u, v :: u in units && v in units && u.level == v.level == level && u != v
      && PriorityKey(cfg, level)(u) == PriorityKey(cfg, level)(v)
  }

  /** With different processes the listing has no unit twice. */
  lemma ListedOnce(cfg: Config, feed: nat -> Reading, at: nat, level: nat, pids: seq<nat>, i: nat, s: seq<Unit>)
    requires Live(cfg, feed) && i < |pids| && pids[i] < cfg.committee.n && Distinct(pids) && NoDup(s)
    requires forall u :: u in s ==> u.creator in pids[..i]
    ensures pids[i] < |feed(at).view.UnitsOnLevel(cfg.committee, level)|
    ensures NoDup(s + feed(at).view.UnitsOnLevel(cfg.committee, level)[pids[i]])
  {
    hide Live;
    SoundAt(cfg, feed, at);
    var slot := feed(at).view.UnitsOnLevel(cfg.committee, level)[pids[i]];
    assert feed(at).view.SlotIndexed(slot, level, pids[i]);
    forall a, b | 0 <= a < |s| && 0 <= b < |slot| ensures s[a] != slot[b] {
      assert s[a] in s && slot[b] in slot;
      var k :| 0 <= k < i && pids[k] == s[a].creator;
    }
  }

  lemma TieMeans(cfg: Config, late: set<Unit>, level: nat, listed: seq<Unit>)
    requires Tie(listed, PriorityKey(cfg, level)) && NoDup(listed)
    requires forall u :: u in listed ==> u in late && u.level == level
    ensures PriorityTie(cfg, late, level)
  {
    var i, j :| 0 <= i < j < |listed| && PriorityKey(cfg, level)(listed[i]) == PriorityKey(cfg, level)(listed[j]);
    assert listed[i] in listed && listed[j] in listed;
  }

  /** The priorities noted so far, as a key for sorting; every unit that is sorted has one. */
  function Noted(priority: map<Unit, Hash>): Unit -> Hash {
    (u: Unit) => if u in priority then priority[u] else u.hash
  }

  /** The units of `s` have the priority that the random bytes `bytes` give them. */
  ghost predicate Prioritised(cfg: Config, bytes: seq<Byte>, priority: map<Unit, Hash>, s: seq<Unit>) {
    forall u :: u in s ==> u in priority && priority[u] == cfg.shake(bytes + u.hash)
  }

  /** Notes the priority of the units of one slot. */
  method NotePriorities(cfg: Config, bytes: seq<Byte>, units: seq<Unit>, priority: map<Unit, Hash>)
      returns (noted: map<Unit, Hash>)
    ensures forall u :: u in units ==> u in noted && noted[u] == cfg.shake(bytes + u.hash)
    ensures forall u :: u in priority && u !in units ==> u in noted && noted[u] == priority[u]
  {
    noted := priority;
    for k := 0 to |units|
      invariant forall i :: 0 <= i < k ==> units[i] in noted && noted[units[i]] == cfg.shake(bytes + units[i].hash)
      invariant forall u :: u in priority && u !in units ==> u in noted && noted[u] == priority[u]
    {
      noted := noted[units[k] := cfg.shake(bytes + units[k].hash)];
    }
  }

  /** The noted priorities are those of the common order. */
  lemma NotedIsPriority(cfg: Config, bytes: seq<Byte>, level: nat, priority: map<Unit, Hash>, s: seq<Unit>,
      perm: seq<Unit>)
    requires Prioritised(cfg, bytes, priority, s) && (s != [] ==> bytes == cfg.rand(level + 5))
    requires StrictBy(perm, Noted(priority)) && multiset(perm) == multiset(s)
    ensures StrictBy(perm, PriorityKey(cfg, level)) && SortedBy(perm, PriorityKey(cfg, level))
    ensures forall i, j :: 0 <= i < j < |perm| ==>
      Less(cfg.shake(bytes + perm[i].hash), cfg.shake(bytes + perm[j].hash))
  {
    hide Less;
    SameElements(s, perm);
    forall i, j | 0 <= i < j < |perm|
      ensures Less(cfg.shake(bytes + perm[i].hash), cfg.shake(bytes + perm[j].hash))
      ensures Less(PriorityKey(cfg, level)(perm[i]), PriorityKey(cfg, level)(perm[j]))
    {
      assert perm[i] in perm && perm[j] in perm;
      assert Less(Noted(priority)(perm[i]), Noted(priority)(perm[j]));
    }
    StrictIsSorted(perm, PriorityKey(cfg, level));
  }

  /** Two entries of `s` have the same priority under the random bytes `bytes`. */
  ghost predicate SamePriority(cfg: Config, bytes: seq<Byte>, s: seq<Unit>) {
    exists i, j :: 0 <= i < j < |s| && cfg.shake(bytes + s[i].hash) == cfg.shake(bytes + s[j].hash)
  }

  lemma NotedTie(cfg: Config, bytes: seq<Byte>, level: nat, priority: map<Unit, Hash>, s: seq<Unit>)
    requires Prioritised(cfg, bytes, priority, s) && (s != [] ==> bytes == cfg.rand(level + 5))
    ensures Tie(s, Noted(priority)) <==> SamePriority(cfg, bytes, s)
    ensures Tie(s, Noted(priority)) <==> Tie(s, PriorityKey(cfg, level))
  {
    forall i | 0 <= i < |s|
      ensures Noted(priority)(s[i]) == cfg.shake(bytes + s[i].hash) == PriorityKey(cfg, level)(s[i])
    {
      assert s[i] in s;
    }
  }

  /** The bytes of a level are the same whenever they are read. */
  lemma BytesAt(cfg: Config, feed: nat -> Reading, t: nat, level: nat)
    requires Live(cfg, feed) && level < |feed(t).store|
    ensures feed(t).store[level] == cfg.rand(level)
  {
    hide Live;
    SoundAt(cfg, feed, t);
  }

  datatype Listing = Sorted(perm: seq<Unit>) | NoBytes | Panics

  /**
   * The candidates of the other processes, by priority. It fails exactly when it meets one without random bytes, and
   * panics exactly when two entries have the same priority; that takes a process listed twice or two units with the
   * same priority.
   */
  method RandomPermutation(cfg: Config, feed: nat -> Reading, t: nat, level: nat, pids: seq<nat>)
      returns (r: Listing, t': nat, ghost listed: seq<Unit>)
    requires Live(cfg, feed) && forall pid :: pid in pids ==> pid < cfg.committee.n
    ensures t <= t'
    ensures r.NoBytes? ==> BytesMissing(feed(t'), level, pids)
    ensures !r.NoBytes? ==>
      && Collects(UnitsAt(feed, t), UnitsAt(feed, t'), level, pids, listed)
      && (listed == [] || level + 5 < |feed(t').store|)
      && (r.Panics? <==> Tie(listed, PriorityKey(cfg, level)))
      && (r.Panics? <==> level + 5 < |feed(t').store| && SamePriority(cfg, feed(t').store[level + 5], listed))
    ensures r.Sorted? ==> forall i, j :: 0 <= i < j < |r.perm| ==>
      && level + 5 < |feed(t').store|
      && var bytes := feed(t').store[level + 5];
         Less(cfg.shake(bytes + r.perm[i].hash), cfg.shake(bytes + r.perm[j].hash))
    ensures r.Sorted? ==>
      && multiset(r.perm) == multiset(listed) && SortedBy(r.perm, PriorityKey(cfg, level))
      && Collects(UnitsAt(feed, t), UnitsAt(feed, t'), level, pids, r.perm)
    ensures r.Panics? ==> !Distinct(pids) || PriorityTie(cfg, UnitsAt(feed, t'), level)
  {
    hide Live, SortedBy, Less, Tie, NoDup, Distinct;
    var s: seq<Unit> := [];
    var priority: map<Unit, Hash> := map[];
    ghost var bytes := cfg.rand(level + 5);
    t', listed := t, [];
    NothingListed();
    for i := 0 to |pids|
      invariant t <= t' && Collects(UnitsAt(feed, t), UnitsAt(feed, t'), level, pids[..i], s)
      invariant s == [] || level + 5 < |feed(t').store|
      invariant Distinct(pids) ==> NoDup(s)
      invariant Prioritised(cfg, bytes, priority, s)
    {
      assert pids[i] in pids;
      CollectNext(cfg, feed, t, t', level, pids, i, s);
      var units := feed(t').view.UnitsOnLevel(cfg.committee, level)[pids[i]];
      if units != [] && |feed(t').store| <= level + 5 {
        assert units[0] in units;
        return NoBytes, t', [];
      }
      if Distinct(pids) {
        ListedOnce(cfg, feed, t', level, pids, i, s);
      }
      Grows(cfg, feed, t', t' + 1);
      if units != [] {
        BytesAt(cfg, feed, t', level + 5);
        priority := NotePriorities(cfg, feed(t').store[level + 5], units, priority);
      }
      s := s + units;
      t' := t' + 1;
    }
    assert pids[..|pids|] == pids;
    listed := s;
    if s != [] {
      BytesAt(cfg, feed, t', level + 5);
    }
    var sorted := SortDistinct(s, Noted(priority));
    NotedTie(cfg, bytes, level, priority, s);
    if sorted.None? {
      if Distinct(pids) {
        TieMeans(cfg, UnitsAt(feed, t'), level, s);
      }
      return Panics, t', s;
    }
    SameElements(s, sorted.value);
    NotedIsPriority(cfg, bytes, level, priority, s, sorted.value);
    return Sorted(sorted.value), t', s;
  }

  lemma NothingListed()
    ensures NoDup([])
  {
  }

  /** In a sorted list everything with a smaller key comes earlier. */
  lemma SmallerIsEarlier(s: seq<Unit>, key: Unit -> Hash, i: nat, u: Unit)
    requires SortedBy(s, key) && i < |s| && u in s && Less(key(u), key(s[i]))
    ensures u in s[..i]
  {
    var j :| 0 <= j < |s| && s[j] == u;
    if j >= i {
      NotBothWays(key(u), key(s[i]));
      LessIsTotal(key(u), key(u));
    }
  }
}
