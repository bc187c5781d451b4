/**
  The size classes of the single arena's free-block bins, for every legal largest class and waste
  percentage: how the table is built, how a size finds its class, and what rounding up wastes.
 */
module SizeClasses {
  import opened Wrappers
  import ArenaState

  const SMALL_UNITS: nat := 1024
  const UINT64_MAX: nat := 0xFFFF_FFFF_FFFF_FFFF

  /** max_bin_bytes and max_waste_percent. */
  datatype Policy = Policy(maxBinBytes: nat, wastePercent: nat)

  function AlignUp(n: nat): (r: nat)
    ensures n <= r < n + 64 && r % 64 == 0
  {
    (n + 63) / 64 * 64
  }

  function Largest(policy: Policy): nat {
    AlignUp(policy.maxBinBytes)
  }

  predicate ValidPolicy(policy: Policy) {
    policy.maxBinBytes >= 1024 && 1 <= policy.wastePercent <= 25 && Largest(policy) < 0x1_0000_0000
  }

  function CeilDiv100(n: nat): (r: nat)
    ensures 100 * (r - 1) < n <= 100 * r
  {
    (n + 99) / 100
  }

  /** The class after current, before the cap. */
  function Grown(policy: Policy, current: nat): nat {
    AlignUp(CeilDiv100(current * (100 + policy.wastePercent)))
  }

  /** next_bin_size */
  function NextSize(policy: Policy, current: nat): nat {
    var candidate := if Grown(policy, current) <= current then current + 64 else Grown(policy, current);
    if candidate > Largest(policy) then Largest(policy) else candidate
  }

  /** The growth is at least a hundredth, so the fallback of adding 64 is never needed. */
  lemma GrownIsLarger(policy: Policy, current: nat)
    requires ValidPolicy(policy) && current > 0
    ensures Grown(policy, current) >= current + CeilDiv100(current) > current
    ensures Grown(policy, current) <= current + CeilDiv100(current * policy.wastePercent) + 63
    ensures current * (100 + policy.wastePercent) <= UINT64_MAX || current > Largest(policy)
  {
    Percent(current, policy.wastePercent);
    CeilSplits(current, current * policy.wastePercent);
  }

  lemma Percent(current: nat, p: nat)
    requires 1 <= p <= 25
    ensures current * (100 + p) == 100 * current + current * p && current <= current * p <= 25 * current
  {}

  lemma CeilSplits(current: nat, extra: nat)
    requires extra >= current
    ensures CeilDiv100(100 * current + extra) == current + CeilDiv100(extra) && CeilDiv100(extra) >= CeilDiv100(current)
  {}

  /** The non-sentinel classes from current on. */
  function SizesFrom(policy: Policy, current: nat): (sizes: seq<nat>)
    requires ValidPolicy(policy) && 0 < current <= Largest(policy)
    ensures sizes != [] && sizes[0] == current
    decreases Largest(policy) - current
  {
    if current >= Largest(policy) then [current]
    else
      GrownIsLarger(policy, current);
      [current] + SizesFrom(policy, NextSize(policy, current))
  }

  function Table(policy: Policy): seq<nat>
    requires ValidPolicy(policy)
  {
    SizesFrom(policy, 64)
  }

  ghost predicate Increasing(sizes: seq<nat>) {
    forall i, j :: 0 <= i < j < |sizes| ==> sizes[i] < sizes[j]
  }

  // ----- shape of the table -----

  /** Strictly increasing multiples of 64, each the successor of the one before, ending at the largest class. */
  lemma {:induction false} SizesShape(policy: Policy, current: nat)
    requires ValidPolicy(policy) && 0 < current <= Largest(policy) && current % 64 == 0
    ensures var sizes := SizesFrom(policy, current);
      && Increasing(sizes) && sizes[|sizes| - 1] == Largest(policy)
      && (forall i :: 0 <= i < |sizes| ==> sizes[i] % 64 == 0 && current <= sizes[i] <= Largest(policy))
      && (forall i :: 0 < i < |sizes| ==> sizes[i] == NextSize(policy, sizes[i - 1]))
    decreases Largest(policy) - current
  {
    if current < Largest(policy) {
      GrownIsLarger(policy, current);
      SizesShape(policy, NextSize(policy, current));
    }
  }

  lemma TableShape(policy: Policy)
    requires ValidPolicy(policy)
    ensures var sizes := Table(policy);
      && |sizes| >= 2 && sizes[0] == 64 && Increasing(sizes) && sizes[|sizes| - 1] == Largest(policy)
      && (forall i :: 0 <= i < |sizes| ==> sizes[i] % 64 == 0 && 64 <= sizes[i] <= Largest(policy))
      && (forall i :: 0 < i < |sizes| ==> sizes[i] == NextSize(policy, sizes[i - 1]))
  {
    SizesShape(policy, 64);
  }

  // ----- number of classes -----

  /** From class n on the table goes on as it would from there. */
  lemma {:induction false} SizesSuffix(policy: Policy, current: nat, n: nat)
    requires ValidPolicy(policy) && 0 < current <= Largest(policy) && n < |SizesFrom(policy, current)|
    ensures var sizes := SizesFrom(policy, current);
      0 < sizes[n] <= Largest(policy) && |SizesFrom(policy, sizes[n])| == |sizes| - n
    decreases n
  {
    if n > 0 {
      GrownIsLarger(policy, current);
      SizesSuffix(policy, NextSize(policy, current), n - 1);
    }
  }

  lemma StepAdds(policy: Policy, current: nat, n: nat)
    requires ValidPolicy(policy) && 0 < current <= Largest(policy) && current % 64 == 0
    requires 0 < n < |SizesFrom(policy, current)|
    ensures var sizes := SizesFrom(policy, current); sizes[n] >= sizes[n - 1] + CeilDiv100(current) || sizes[n] == Largest(policy)
  {
    SizesShape(policy, current);
    var sizes := SizesFrom(policy, current);
    GrownIsLarger(policy, sizes[n - 1]);
    assert sizes[n] == NextSize(policy, sizes[n - 1]);
    CeilGrows(current, sizes[n - 1]);
  }

  lemma CeilGrows(m: nat, n: nat)
    requires m <= n
    ensures CeilDiv100(m) <= CeilDiv100(n)
  {}

  /** Every class before the last adds at least a hundredth of the class the count starts from. */
  lemma {:induction false} SizesGrow(policy: Policy, current: nat, n: nat)
    requires ValidPolicy(policy) && 0 < current <= Largest(policy) && current % 64 == 0
    requires n < |SizesFrom(policy, current)|
    ensures var size := SizesFrom(policy, current)[n]; size >= current + n * CeilDiv100(current) || size == Largest(policy)
  {
    if n > 0 {
      SizesGrow(policy, current, n - 1);
      StepAdds(policy, current, n);
      SizesShape(policy, current);
      OneMore(n, CeilDiv100(current));
    }
  }

  lemma OneMore(n: nat, g: nat)
    requires n > 0
    ensures n * g == (n - 1) * g + g
  {}

  function Doubled(n: nat, k: nat): nat
    decreases k
  {
    if k == 0 then n else Doubled(2 * n, k - 1)
  }

  lemma {:induction false} DoubledGrows(m: nat, n: nat, k: nat)
    requires m <= n
    ensures Doubled(m, k) <= Doubled(n, k)
    decreases k
  {
    if k > 0 {
      DoubledGrows(2 * m, 2 * n, k - 1);
    }
  }

  lemma FourDoublings(n: nat, k: nat)
    ensures Doubled(n, k + 4) == Doubled(16 * n, k)
  {
    assert Doubled(n, k + 4) == Doubled(2 * n, k + 3) == Doubled(4 * n, k + 2) == Doubled(8 * n, k + 1);
  }

  /** A hundred classes double the size, so k doublings need no more than 100 k + 1. */
  lemma {:induction false} CountBound(policy: Policy, current: nat, k: nat)
    requires ValidPolicy(policy) && 0 < current <= Largest(policy) && current % 64 == 0 && Doubled(current, k) >= Largest(policy)
    ensures |SizesFrom(policy, current)| <= 100 * k + 1
    decreases k
  {
    var sizes := SizesFrom(policy, current);
    SizesShape(policy, current);
    if k > 0 && |sizes| > 101 {
      SizesGrow(policy, current, 100);
      SizesSuffix(policy, current, 100);
      assert sizes[100] < sizes[|sizes| - 1];
      DoubledGrows(2 * current, sizes[100], k - 1);
      CountBound(policy, sizes[100], k - 1);
    }
  }

  /** Bin indices fit the lookup table's 16-bit entries. */
  lemma IndicesFit16Bits(policy: Policy)
    requires ValidPolicy(policy)
    ensures |Table(policy)| + 1 <= 2602 < 0x1_0000
  {
    FourDoublings(64, 22);
    FourDoublings(0x400, 18);
    FourDoublings(0x4000, 14);
    FourDoublings(0x4_0000, 10);
    FourDoublings(0x40_0000, 6);
    FourDoublings(0x400_0000, 2);
    assert Doubled(0x4000_0000, 2) == 0x1_0000_0000;
    CountBound(policy, 64, 26);
  }

  // ----- which class a size belongs to -----

  /** The least class of at least `bytes`; |sizes|, the sentinel's index, when there is none. */
  function LeastClass(sizes: seq<nat>, bytes: nat): (k: nat)
    ensures k <= |sizes| && (k < |sizes| ==> bytes <= sizes[k]) && forall j :: 0 <= j < k ==> sizes[j] < bytes
  {
    LeastClassFrom(sizes, bytes, 0)
  }

  function LeastClassFrom(sizes: seq<nat>, bytes: nat, from: nat): (k: nat)
    requires from <= |sizes|
    ensures from <= k <= |sizes| && (k < |sizes| ==> bytes <= sizes[k]) && forall j :: from <= j < k ==> sizes[j] < bytes
    decreases |sizes| - from
  {
    if from == |sizes| || bytes <= sizes[from] then from else LeastClassFrom(sizes, bytes, from + 1)
  }

  lemma LeastClassIs(sizes: seq<nat>, bytes: nat, k: nat)
    requires k <= |sizes| && (k < |sizes| ==> bytes <= sizes[k]) && forall j :: 0 <= j < k ==> sizes[j] < bytes
    ensures LeastClass(sizes, bytes) == k
  {
    var least := LeastClass(sizes, bytes);
    assert !(least < k) && !(k < least);
  }

  lemma AboveLeast(sizes: seq<nat>, bytes: nat)
    requires Increasing(sizes)
    ensures forall i :: LeastClass(sizes, bytes) <= i < |sizes| ==> bytes <= sizes[i]
  {
    var least := LeastClass(sizes, bytes);
    forall i | least <= i < |sizes| ensures bytes <= sizes[i] {
      assert least < i ==> sizes[least] < sizes[i];
    }
  }

  /** A block cut for a class goes back to the same class: the class of its size is the class itself. */
  lemma FreedBlockReturnsToItsBin(policy: Policy, k: nat)
    requires ValidPolicy(policy) && k < |Table(policy)|
    ensures LeastClass(Table(policy), Table(policy)[k]) == k
  {
    TableShape(policy);
    LeastClassIs(Table(policy), Table(policy)[k], k);
  }

  /** The class of a size holds it and wastes no more than the percentage, rounded up, plus 63 bytes. */
  lemma WasteIsBounded(policy: Policy, bytes: nat)
    requires ValidPolicy(policy) && 0 < bytes <= Largest(policy)
    ensures var (sizes, k) := (Table(policy), LeastClass(Table(policy), bytes));
      k < |sizes| && bytes <= sizes[k] <= bytes + CeilDiv100(bytes * policy.wastePercent) + 63
  {
    TableShape(policy);
    var (sizes, k) := (Table(policy), LeastClass(Table(policy), bytes));
    if k > 0 {
      GrownIsLarger(policy, sizes[k - 1]);
      assert sizes[k] == NextSize(policy, sizes[k - 1]);
      PercentGrows(sizes[k - 1], bytes, policy.wastePercent);
    }
  }

  lemma PercentGrows(m: nat, n: nat, p: nat)
    requires m < n
    ensures CeilDiv100(m * p) <= CeilDiv100(n * p)
  {
    assert m * p <= n * p;
  }

  /** Sizes within one 64-byte unit have the same class. */
  lemma SameClassInUnit(policy: Policy, bytes: nat)
    requires ValidPolicy(policy)
    ensures LeastClass(Table(policy), bytes) == LeastClass(Table(policy), AlignUp(bytes))
  {
    TableShape(policy);
    var (sizes, k) := (Table(policy), LeastClass(Table(policy), AlignUp(bytes)));
    forall j | 0 <= j < k ensures sizes[j] < bytes {
      Multiples(sizes[j], bytes);
    }
    LeastClassIs(sizes, bytes, k);
  }

  lemma Multiples(size: nat, bytes: nat)
    requires size % 64 == 0 && size < AlignUp(bytes)
    ensures size < bytes
  {}

  lemma LeastClassMonotone(sizes: seq<nat>, m: nat, n: nat)
    requires m <= n
    ensures LeastClass(sizes, m) <= LeastClass(sizes, n)
  {
    var (j, k) := (LeastClass(sizes, m), LeastClass(sizes, n));
    assert !(k < j);
  }

  // ----- the loops of the source -----

  /** compute_non_sentinel_bin_count */
  method CountClasses(policy: Policy) returns (count: nat)
    requires ValidPolicy(policy)
    ensures count == |Table(policy)|
  {
    count := 1;
    var current := 64;
    while current < Largest(policy)
      invariant 0 < current <= Largest(policy) && 1 <= count && count + |SizesFrom(policy, current)| == |Table(policy)| + 1
      decreases Largest(policy) - current
    {
      GrownIsLarger(policy, current);
      current := NextSize(policy, current);
      count := count + 1;
    }
  }

  /** build_free_block_bin_sizes: the classes, then the sentinel. */
  method BuildSizes(policy: Policy) returns (bins: array<nat>)
    requires ValidPolicy(policy)
    ensures fresh(bins) && bins[..] == Table(policy) + [UINT64_MAX]
  {
    var count := CountClasses(policy);
    TableShape(policy);
    ghost var sizes := Table(policy);
    bins := new nat[count + 1];
    var current := 64;
    bins[0] := current;
    for i := 1 to count
      invariant bins[..i] == sizes[..i] && current == sizes[i - 1]
    {
      current := NextSize(policy, current);
      bins[i] := current;
      assert bins[..i + 1] == sizes[..i + 1];
    }
    bins[count] := UINT64_MAX;
    assert bins[..count] == sizes[..count] == sizes;
    assert bins[..] == bins[..count] + [bins[count]];
  }

  /** search_free_block_bin: binary search from bin lo, below which no class is large enough. */
  method Search(policy: Policy, bins: seq<nat>, bytes: nat, from: nat) returns (lo: nat)
    requires ValidPolicy(policy) && bins == Table(policy) + [UINT64_MAX]
    requires from <= LeastClass(Table(policy), bytes)
    ensures lo == LeastClass(Table(policy), bytes)
  {
    TableShape(policy);
    ghost var (sizes, least) := (Table(policy), LeastClass(Table(policy), bytes));
    AboveLeast(sizes, bytes);
    lo := from;
    var hi := |bins| - 1;
    while lo < hi
      invariant 0 <= lo <= least <= hi <= |sizes|
    {
      var mid := lo + (hi - lo) / 2;
      assert bins[mid] == sizes[mid];
      if bins[mid] < bytes {
        lo := mid + 1;
      } else {
        hi := mid;
      }
    }
  }

  /** build_small_bin_lookup */
  method BuildLookup(policy: Policy, bins: seq<nat>) returns (lookup: array<nat>)
    requires ValidPolicy(policy) && bins == Table(policy) + [UINT64_MAX]
    ensures fresh(lookup) && lookup.Length == SMALL_UNITS + 1
    ensures forall u :: 0 <= u <= SMALL_UNITS ==> lookup[u] == LeastClass(Table(policy), u * 64) < 0x1_0000
  {
    IndicesFit16Bits(policy);
    lookup := new nat[SMALL_UNITS + 1];
    for units := 0 to SMALL_UNITS + 1
      invariant forall u :: 0 <= u < units ==> lookup[u] == LeastClass(Table(policy), u * 64) < 0x1_0000
    {
      lookup[units] := Search(policy, bins, units * 64, 0);
    }
  }

  /** free_block_bin_index: the lookup below 64 KiB, the search above, the sentinel beyond the largest class. */
  method BinIndex(policy: Policy, bins: seq<nat>, lookup: array<nat>, bytes: nat) returns (k: nat)
    requires ValidPolicy(policy) && bins == Table(policy) + [UINT64_MAX] && lookup.Length == SMALL_UNITS + 1
    requires forall u :: 0 <= u <= SMALL_UNITS ==> lookup[u] == LeastClass(Table(policy), u * 64)
    ensures k == LeastClass(Table(policy), bytes)
  {
    TableShape(policy);
    if bytes > Largest(policy) {
      LeastClassIs(Table(policy), bytes, |Table(policy)|);
      return |bins| - 1;
    }
    var units := (bytes + 63) / 64;
    SameClassInUnit(policy, bytes);
    if units <= SMALL_UNITS {
      return lookup[units];
    }
    LeastClassMonotone(Table(policy), SMALL_UNITS * 64, bytes);
    k := Search(policy, bins, bytes, lookup[SMALL_UNITS]);
  }

  // ----- the classes as the allocator's model uses them -----

  function InUnits(sizes: seq<nat>): seq<nat> {
    seq(|sizes|, i requires 0 <= i < |sizes| => sizes[i] / 64)
  }

  /** Counted in 64-byte units the table is a legal configuration, and finds the same class for any size. */
  lemma TableConfigures(policy: Policy, metadataStart: nat, managerCapacity: nat, bytes: nat)
    requires ValidPolicy(policy) && 0 < metadataStart < ArenaState.NO_PREDECESSOR
    ensures var c := ArenaState.Config(metadataStart, InUnits(Table(policy)), managerCapacity);
      ArenaState.ValidConfig(c) && ArenaState.BinIndex(c, AlignUp(bytes) / 64) == LeastClass(Table(policy), bytes)
  {
    TableShape(policy);
    SameClassInUnit(policy, bytes);
    var (sizes, units) := (Table(policy), AlignUp(bytes) / 64);
    var c := ArenaState.Config(metadataStart, InUnits(sizes), managerCapacity);
    var k := ArenaState.BinIndex(c, units);
    forall j | 0 <= j < k ensures sizes[j] < AlignUp(bytes) {
      assert c.classSizes[j] == sizes[j] / 64 < units;
    }
    if k < |sizes| {
      assert units <= c.classSizes[k] == sizes[k] / 64;
    }
    LeastClassIs(sizes, AlignUp(bytes), k);
  }
}
