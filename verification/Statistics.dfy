/**
  The sharded allocation statistics.  Every allocation and deallocation adds to the counters of whatever
  shard its CPU has, in two atomic additions; a snapshot reads the shards one after the other, so the
  counters move while it is being taken.
 */
module Statistics {
  import opened Sums

  const SHARDS: nat := 16

  type AllocationId = nat

  function Total(counters: seq<nat>): nat {
    if counters == [] then 0 else Total(counters[..|counters| - 1]) + counters[|counters| - 1]
  }

  lemma {:induction false} TotalUpdate(counters: seq<nat>, i: nat, value: nat)
    requires i < |counters|
    ensures Total(counters[i := value]) + counters[i] == Total(counters) + value
  {
    var n := |counters|;
    if i < n - 1 {
      assert counters[i := value][..n - 1] == counters[..n - 1][i := value];
      TotalUpdate(counters[..n - 1], i, value);
    } else {
      assert counters[i := value][..n - 1] == counters[..n - 1];
    }
  }

  lemma {:induction false} TotalMonotone(low: seq<nat>, high: seq<nat>)
    requires |low| == |high| && forall i :: 0 <= i < |low| ==> low[i] <= high[i]
    ensures Total(low) <= Total(high)
  {
    if low != [] {
      TotalMonotone(low[..|low| - 1], high[..|high| - 1]);
    }
  }

  lemma {:induction false} TotalZero(counters: seq<nat>)
    requires forall i :: 0 <= i < |counters| ==> counters[i] == 0
    ensures Total(counters) == 0
  {
    if counters != [] {
      TotalZero(counters[..|counters| - 1]);
    }
  }

  /** The first reading of a prefix: one more shard. */
  lemma TotalPrefix(counters: seq<nat>, i: nat)
    requires i < |counters|
    ensures Total(counters[..i + 1]) == Total(counters[..i]) + counters[i]
  {
    assert counters[..i + 1][..i] == counters[..i];
  }

  // ----- any number of contexts -----

  datatype Counters = Counters(allocations: seq<nat>, deallocations: seq<nat>, bytesAllocated: seq<nat>, bytesDeallocated: seq<nat>)

  /**
    counting: allocations counted whose bytes are still to be added; live: allocations the client may free;
    leaving: deallocations counted whose bytes are still to be added.
   */
  datatype State = State(counters: Counters, counting: map<AllocationId, nat>, live: map<AllocationId, nat>, leaving: map<AllocationId, nat>)

  predicate Shaped(c: Counters) {
    |c.allocations| == |c.deallocations| == |c.bytesAllocated| == |c.bytesDeallocated| == SHARDS
  }

  function Bump(counters: seq<nat>, shard: nat, n: nat): seq<nat> {
    if shard < |counters| then counters[shard := counters[shard] + n] else counters
  }

  datatype Event =
    | CountAllocation(id: AllocationId, bytes: nat)
    | AddBytes(id: AllocationId)
    | CountDeallocation(id: AllocationId)
    | SubtractBytes(id: AllocationId)

  /** One atomic addition of some context, on the shard of the CPU it then runs on. */
  ghost predicate Step(s: State, s': State, e: Event, shard: nat) {
    && shard < SHARDS
    && match e
       case CountAllocation(id, bytes) =>
         && id !in s.counting && id !in s.live && id !in s.leaving
         && s' == s.(counters := s.counters.(allocations := Bump(s.counters.allocations, shard, 1)), counting := s.counting[id := bytes])
       case AddBytes(id) =>
         && id in s.counting
         && s' == s.(counters := s.counters.(bytesAllocated := Bump(s.counters.bytesAllocated, shard, s.counting[id])),
                     counting := s.counting - {id}, live := s.live[id := s.counting[id]])
       case CountDeallocation(id) =>
         && id in s.live
         && s' == s.(counters := s.counters.(deallocations := Bump(s.counters.deallocations, shard, 1)),
                     live := s.live - {id}, leaving := s.leaving[id := s.live[id]])
       case SubtractBytes(id) =>
         && id in s.leaving
         && s' == s.(counters := s.counters.(bytesDeallocated := Bump(s.counters.bytesDeallocated, shard, s.leaving[id])),
                     leaving := s.leaving - {id})
  }

  ghost predicate Next(s: State, s': State, e: Event) {
    exists shard :: Step(s, s', e, shard)
  }

  ghost predicate StepAt(run: seq<State>, events: seq<Event>, i: nat)
    requires i < |events| < |run|
  {
    Next(run[i], run[i + 1], events[i])
  }

  ghost predicate Init(s: State) {
    && Shaped(s.counters) && s.counting == map[] && s.live == map[] && s.leaving == map[]
    && forall i :: 0 <= i < SHARDS ==>
         s.counters.allocations[i] == 0 && s.counters.deallocations[i] == 0
         && s.counters.bytesAllocated[i] == 0 && s.counters.bytesDeallocated[i] == 0
  }

  /** A run, and what happened at each of its steps. */
  ghost predicate IsRun(run: seq<State>, events: seq<Event>) {
    && |run| == |events| + 1 && Init(run[0])
    && forall i {:trigger StepAt(run, events, i)} :: 0 <= i < |events| ==> StepAt(run, events, i)
  }

  // ----- what the client did, by the events alone -----

  /** The bytes that allocation id was last made for, in the first n events. */
  function AskedFor(events: seq<Event>, n: nat, id: AllocationId): nat
    requires n <= |events|
  {
    if n == 0 then 0
    else match events[n - 1]
         case CountAllocation(made, bytes) => if made == id then bytes else AskedFor(events, n - 1, id)
         case _ => AskedFor(events, n - 1, id)
  }

  function Allocations(events: seq<Event>, n: nat): nat
    requires n <= |events|
  {
    if n == 0 then 0 else Allocations(events, n - 1) + if events[n - 1].CountAllocation? then 1 else 0
  }

  function Deallocations(events: seq<Event>, n: nat): nat
    requires n <= |events|
  {
    if n == 0 then 0 else Deallocations(events, n - 1) + if events[n - 1].CountDeallocation? then 1 else 0
  }

  /** The bytes asked for by the allocations whose bytes have been added. */
  function BytesAdded(events: seq<Event>, n: nat): nat
    requires n <= |events|
  {
    if n == 0 then 0
    else BytesAdded(events, n - 1) + if events[n - 1].AddBytes? then AskedFor(events, n - 1, events[n - 1].id) else 0
  }

  /** The bytes that the allocations were made for whose deallocation has been added up. */
  function BytesReleased(events: seq<Event>, n: nat): nat
    requires n <= |events|
  {
    if n == 0 then 0
    else BytesReleased(events, n - 1) + if events[n - 1].SubtractBytes? then AskedFor(events, n - 1, events[n - 1].id) else 0
  }

  /** The counters say what the events did, and the maps know what each allocation was made for. */
  ghost predicate Accounts(s: State, events: seq<Event>, n: nat)
    requires n <= |events|
  {
    && Shaped(s.counters)
    && Total(s.counters.allocations) == Allocations(events, n) && Total(s.counters.deallocations) == Deallocations(events, n)
    && Total(s.counters.bytesAllocated) == BytesAdded(events, n) && Total(s.counters.bytesDeallocated) == BytesReleased(events, n)
    && (forall id :: id in s.counting ==> s.counting[id] == AskedFor(events, n, id))
    && (forall id :: id in s.live ==> s.live[id] == AskedFor(events, n, id))
    && (forall id :: id in s.leaving ==> s.leaving[id] == AskedFor(events, n, id))
  }

  lemma StepAccounts(s: State, s': State, events: seq<Event>, n: nat, shard: nat)
    requires n < |events| && Accounts(s, events, n) && Step(s, s', events[n], shard)
    ensures Accounts(s', events, n + 1)
  {
    match events[n]
    case CountAllocation(_, _) => AllocationAccounts(s, s', events, n, shard);
    case AddBytes(_) => AddBytesAccounts(s, s', events, n, shard);
    case CountDeallocation(_) => DeallocationAccounts(s, s', events, n, shard);
    case SubtractBytes(_) => SubtractBytesAccounts(s, s', events, n, shard);
  }

  lemma AllocationAccounts(s: State, s': State, events: seq<Event>, n: nat, shard: nat)
    requires n < |events| && Accounts(s, events, n) && Step(s, s', events[n], shard) && events[n].CountAllocation?
    ensures Accounts(s', events, n + 1)
  {
    TotalUpdate(s.counters.allocations, shard, s.counters.allocations[shard] + 1);
  }

  lemma AddBytesAccounts(s: State, s': State, events: seq<Event>, n: nat, shard: nat)
    requires n < |events| && Accounts(s, events, n) && Step(s, s', events[n], shard) && events[n].AddBytes?
    ensures Accounts(s', events, n + 1)
  {
    TotalUpdate(s.counters.bytesAllocated, shard, s.counters.bytesAllocated[shard] + s.counting[events[n].id]);
  }

  lemma DeallocationAccounts(s: State, s': State, events: seq<Event>, n: nat, shard: nat)
    requires n < |events| && Accounts(s, events, n) && Step(s, s', events[n], shard) && events[n].CountDeallocation?
    ensures Accounts(s', events, n + 1)
  {
    TotalUpdate(s.counters.deallocations, shard, s.counters.deallocations[shard] + 1);
  }

  lemma SubtractBytesAccounts(s: State, s': State, events: seq<Event>, n: nat, shard: nat)
    requires n < |events| && Accounts(s, events, n) && Step(s, s', events[n], shard) && events[n].SubtractBytes?
    ensures Accounts(s', events, n + 1)
  {
    TotalUpdate(s.counters.bytesDeallocated, shard, s.counters.bytesDeallocated[shard] + s.leaving[events[n].id]);
  }

  /**
    In every run the totals are the numbers of allocations and deallocations counted, and the bytes that
    those were made for whose bytes have been added.
   */
  lemma {:induction false} TotalsAreTheEvents(run: seq<State>, events: seq<Event>, n: nat)
    requires IsRun(run, events) && n < |run|
    ensures Accounts(run[n], events, n)
  {
    if n == 0 {
      InitialTotals(run[0]);
    } else {
      TotalsAreTheEvents(run, events, n - 1);
      assert StepAt(run, events, n - 1);
      var shard :| Step(run[n - 1], run[n], events[n - 1], shard);
      StepAccounts(run[n - 1], run[n], events, n - 1, shard);
    }
  }

  lemma InitialTotals(s: State)
    requires Init(s)
    ensures Total(s.counters.allocations) == Total(s.counters.deallocations) == 0
    ensures Total(s.counters.bytesAllocated) == Total(s.counters.bytesDeallocated) == 0
  {
    TotalZero(s.counters.allocations);
    TotalZero(s.counters.deallocations);
    TotalZero(s.counters.bytesAllocated);
    TotalZero(s.counters.bytesDeallocated);
  }

  // ----- what the counters add up to -----

  ghost predicate Balanced(s: State) {
    && Shaped(s.counters)
    && Total(s.counters.allocations) == Total(s.counters.deallocations) + |s.counting| + |s.live|
    && Total(s.counters.bytesAllocated) == Total(s.counters.bytesDeallocated) + Sum(s.live) + Sum(s.leaving)
  }

  lemma Moved(from: map<AllocationId, nat>, to: map<AllocationId, nat>, id: AllocationId)
    requires id in from && id !in to
    ensures |from - {id}| + 1 == |from| && |to[id := from[id]]| == |to| + 1
    ensures Sum(from) == Sum(from - {id}) + from[id] && Sum(to[id := from[id]]) == Sum(to) + from[id]
  {
    assert (from - {id}).Keys == from.Keys - {id} && (to[id := from[id]]).Keys == to.Keys + {id};
    assert |from - {id}| == |(from - {id}).Keys| && |from| == |from.Keys|;
    assert |to[id := from[id]]| == |(to[id := from[id]]).Keys| && |to| == |to.Keys|;
    SumRemove(from, id);
    SumUpdate(to, id, from[id]);
  }

  /** An allocation is in one of the three maps at a time. */
  ghost predicate Apart(s: State) {
    s.counting.Keys !! s.live.Keys && s.counting.Keys !! s.leaving.Keys && s.live.Keys !! s.leaving.Keys
  }

  lemma StepBalances(s: State, s': State, e: Event, shard: nat)
    requires Balanced(s) && Apart(s) && Step(s, s', e, shard)
    ensures Balanced(s') && Apart(s')
  {
    match e
    case CountAllocation(id, bytes) => AllocationBalances(s, s', id, bytes, shard);
    case AddBytes(id) => AddBytesBalances(s, s', id, shard);
    case CountDeallocation(id) => DeallocationBalances(s, s', id, shard);
    case SubtractBytes(id) => SubtractBytesBalances(s, s', id, shard);
  }

  lemma SubtractBytesBalances(s: State, s': State, id: AllocationId, shard: nat)
    requires Balanced(s) && Apart(s) && Step(s, s', SubtractBytes(id), shard)
    ensures Balanced(s') && Apart(s')
  {
    TotalUpdate(s.counters.bytesDeallocated, shard, s.counters.bytesDeallocated[shard] + s.leaving[id]);
    SumRemove(s.leaving, id);
  }

  lemma AllocationBalances(s: State, s': State, id: AllocationId, bytes: nat, shard: nat)
    requires Balanced(s) && Apart(s) && Step(s, s', CountAllocation(id, bytes), shard)
    ensures Balanced(s') && Apart(s')
  {
    TotalUpdate(s.counters.allocations, shard, s.counters.allocations[shard] + 1);
    Added(s.counting, id, bytes);
    assert s'.counters.allocations == s.counters.allocations[shard := s.counters.allocations[shard] + 1];
    assert s'.live == s.live && s'.leaving == s.leaving;
  }

  lemma Added(m: map<AllocationId, nat>, id: AllocationId, value: nat)
    requires id !in m
    ensures |m[id := value]| == |m| + 1 && (m[id := value]).Keys == m.Keys + {id}
  {
    assert (m[id := value]).Keys == m.Keys + {id};
    assert |m[id := value]| == |(m[id := value]).Keys| && |m| == |m.Keys|;
  }

  lemma AddBytesBalances(s: State, s': State, id: AllocationId, shard: nat)
    requires Balanced(s) && Apart(s) && Step(s, s', AddBytes(id), shard)
    ensures Balanced(s') && Apart(s')
  {
    TotalUpdate(s.counters.bytesAllocated, shard, s.counters.bytesAllocated[shard] + s.counting[id]);
    Moved(s.counting, s.live, id);
  }

  lemma DeallocationBalances(s: State, s': State, id: AllocationId, shard: nat)
    requires Balanced(s) && Apart(s) && Step(s, s', CountDeallocation(id), shard)
    ensures Balanced(s') && Apart(s')
  {
    TotalUpdate(s.counters.deallocations, shard, s.counters.deallocations[shard] + 1);
    Moved(s.live, s.leaving, id);
  }

  lemma InitialBalances(s: State)
    requires Init(s)
    ensures Balanced(s) && Apart(s)
  {
    InitialTotals(s);
    assert Sum(map[]) == 0;
  }

  lemma {:induction false} RunBalances(run: seq<State>, events: seq<Event>, i: nat)
    requires IsRun(run, events) && i < |run|
    ensures Balanced(run[i]) && Apart(run[i])
  {
    if i == 0 {
      InitialBalances(run[0]);
    } else {
      RunBalances(run, events, i - 1);
      assert StepAt(run, events, i - 1) && Next(run[i - 1], run[i], events[i - 1]);
      var shard :| Step(run[i - 1], run[i], events[i - 1], shard);
      StepBalances(run[i - 1], run[i], events[i - 1], shard);
    }
  }

  /** Counters only grow. */
  ghost predicate NoLess(low: seq<nat>, high: seq<nat>) {
    |low| == |high| && forall i {:trigger low[i]} {:trigger high[i]} :: 0 <= i < |low| ==> low[i] <= high[i]
  }

  lemma {:induction false} CountersGrow(run: seq<State>, events: seq<Event>, i: nat, j: nat)
    requires IsRun(run, events) && i <= j < |run|
    ensures var (c, c') := (run[i].counters, run[j].counters);
      && NoLess(c.allocations, c'.allocations) && NoLess(c.deallocations, c'.deallocations)
      && NoLess(c.bytesAllocated, c'.bytesAllocated) && NoLess(c.bytesDeallocated, c'.bytesDeallocated)
    decreases j
  {
    if i < j {
      CountersGrow(run, events, i, j - 1);
      assert StepAt(run, events, j - 1);
      var shard :| Step(run[j - 1], run[j], events[j - 1], shard);
    }
  }

  // ----- a snapshot taken while the counters move -----

  /** The moments of the loads: shard by shard over the deallocations, then shard by shard over the allocations. */
  ghost predicate InOrder(run: seq<State>, at: seq<nat>) {
    && |at| == 2 * SHARDS
    && (forall i: nat, j: nat :: i <= j < |at| ==> at[i] <= at[j])
    && (forall i: nat :: i < |at| ==> at[i] < |run| && Shaped(run[at[i]].counters))
  }

  ghost function DeallocationLoads(run: seq<State>, at: seq<nat>): seq<nat>
    requires InOrder(run, at)
  {
    seq(SHARDS, i requires 0 <= i < SHARDS => run[at[i]].counters.deallocations[i])
  }

  ghost function AllocationLoads(run: seq<State>, at: seq<nat>): seq<nat>
    requires InOrder(run, at)
  {
    seq(SHARDS, i requires 0 <= i < SHARDS => run[at[SHARDS + i]].counters.allocations[i])
  }

  ghost function ReleasedByteLoads(run: seq<State>, at: seq<nat>): seq<nat>
    requires InOrder(run, at)
  {
    seq(SHARDS, i requires 0 <= i < SHARDS => run[at[i]].counters.bytesDeallocated[i])
  }

  ghost function AcquiredByteLoads(run: seq<State>, at: seq<nat>): seq<nat>
    requires InOrder(run, at)
  {
    seq(SHARDS, i requires 0 <= i < SHARDS => run[at[SHARDS + i]].counters.bytesAllocated[i])
  }

  /** current_allocated: what the two loops over the shards load at those moments, and the clamped difference. */
  method CurrentAllocated(run: seq<State>, at: seq<nat>) returns (current: nat, deallocations: nat, allocations: nat)
    requires InOrder(run, at)
    ensures deallocations == Total(DeallocationLoads(run, at))
    ensures allocations == Total(AllocationLoads(run, at))
    ensures current == if allocations > deallocations then allocations - deallocations else 0
  {
    ghost var freed := DeallocationLoads(run, at);
    deallocations := 0;
    for shard := 0 to SHARDS
      invariant deallocations == Total(freed[..shard])
    {
      deallocations := deallocations + run[at[shard]].counters.deallocations[shard];
      TotalPrefix(freed, shard);
    }
    ghost var made := AllocationLoads(run, at);
    allocations := 0;
    for shard := 0 to SHARDS
      invariant allocations == Total(made[..shard])
    {
      allocations := allocations + run[at[SHARDS + shard]].counters.allocations[shard];
      TotalPrefix(made, shard);
    }
    assert freed[..SHARDS] == freed && made[..SHARDS] == made;
    current := if allocations > deallocations then allocations - deallocations else 0;
  }

  /** current_bytes_allocated, likewise. */
  method CurrentBytesAllocated(run: seq<State>, at: seq<nat>) returns (current: nat, released: nat, acquired: nat)
    requires InOrder(run, at)
    ensures released == Total(ReleasedByteLoads(run, at))
    ensures acquired == Total(AcquiredByteLoads(run, at))
    ensures current == if acquired > released then acquired - released else 0
  {
    ghost var freed := ReleasedByteLoads(run, at);
    released := 0;
    for shard := 0 to SHARDS
      invariant released == Total(freed[..shard])
    {
      released := released + run[at[shard]].counters.bytesDeallocated[shard];
      TotalPrefix(freed, shard);
    }
    ghost var made := AcquiredByteLoads(run, at);
    acquired := 0;
    for shard := 0 to SHARDS
      invariant acquired == Total(made[..shard])
    {
      acquired := acquired + run[at[SHARDS + shard]].counters.bytesAllocated[shard];
      TotalPrefix(made, shard);
    }
    assert freed[..SHARDS] == freed && made[..SHARDS] == made;
    current := if acquired > released then acquired - released else 0;
  }

  /**
    A snapshot errs high: whatever happens between the loads, it is at least the number of allocations
    counted and not yet freed at any moment m between the two scans, and the clamp to zero never fires.
   */
  lemma SnapshotErrsHigh(run: seq<State>, events: seq<Event>, at: seq<nat>, m: nat)
    requires IsRun(run, events) && InOrder(run, at) && at[SHARDS - 1] <= m <= at[SHARDS]
    ensures var deallocations := Total(DeallocationLoads(run, at));
      var allocations := Total(AllocationLoads(run, at));
      && Allocations(events, m) == Deallocations(events, m) + |run[m].counting| + |run[m].live|
      && deallocations + (Allocations(events, m) - Deallocations(events, m)) <= allocations
  {
    RunBalances(run, events, m);
    TotalsAreTheEvents(run, events, m);
    var freed := DeallocationLoads(run, at);
    var made := AllocationLoads(run, at);
    forall i | 0 <= i < SHARDS ensures freed[i] <= run[m].counters.deallocations[i] {
      CountersGrow(run, events, at[i], m);
    }
    TotalMonotone(freed, run[m].counters.deallocations);
    forall i | 0 <= i < SHARDS ensures run[m].counters.allocations[i] <= made[i] {
      CountersGrow(run, events, m, at[SHARDS + i]);
    }
    TotalMonotone(run[m].counters.allocations, made);
  }

  /**
    The same for current_bytes_allocated: at any moment m between the scans it is at least the bytes asked for
    by the allocations added up less those of the deallocations added up, among them all that is live.
   */
  lemma BytesSnapshotErrsHigh(run: seq<State>, events: seq<Event>, at: seq<nat>, m: nat)
    requires IsRun(run, events) && InOrder(run, at) && at[SHARDS - 1] <= m <= at[SHARDS]
    ensures var released := Total(ReleasedByteLoads(run, at));
      var acquired := Total(AcquiredByteLoads(run, at));
      && BytesAdded(events, m) == BytesReleased(events, m) + Sum(run[m].live) + Sum(run[m].leaving)
      && released + (BytesAdded(events, m) - BytesReleased(events, m)) <= acquired
      && forall id :: id in run[m].live ==> run[m].live[id] == AskedFor(events, m, id)
  {
    RunBalances(run, events, m);
    TotalsAreTheEvents(run, events, m);
    var freed := ReleasedByteLoads(run, at);
    var made := AcquiredByteLoads(run, at);
    forall i | 0 <= i < SHARDS ensures freed[i] <= run[m].counters.bytesDeallocated[i] {
      CountersGrow(run, events, at[i], m);
    }
    TotalMonotone(freed, run[m].counters.bytesDeallocated);
    forall i | 0 <= i < SHARDS ensures run[m].counters.bytesAllocated[i] <= made[i] {
      CountersGrow(run, events, m, at[SHARDS + i]);
    }
    TotalMonotone(run[m].counters.bytesAllocated, made);
  }

  // ----- a single context, which may migrate between CPUs -----

  /** The counters one context updates on its own; history holds the number of live allocations after each call. */
  class SingleContext {
    const allocations: array<nat>
    const deallocations: array<nat>
    var peak: nat
    ghost var live: nat
    ghost var history: seq<nat>

    ghost predicate Valid()
      reads this, allocations, deallocations
    {
      && allocations.Length == deallocations.Length == SHARDS && allocations != deallocations
      && Total(allocations[..]) == Total(deallocations[..]) + live
      && history != [] && history[|history| - 1] == live
      && IsMaximum(peak, history)
    }

    constructor ()
      ensures Valid() && fresh(allocations) && fresh(deallocations) && live == 0 && history == [0]
    {
      allocations := new nat[SHARDS](_ => 0);
      deallocations := new nat[SHARDS](_ => 0);
      peak := 0;
      live := 0;
      history := [0];
      new;
      TotalZero(allocations[..]);
      TotalZero(deallocations[..]);
    }

    method TotalOf(counters: array<nat>) returns (total: nat)
      ensures total == Total(counters[..])
    {
      total := 0;
      for shard := 0 to counters.Length
        invariant total == Total(counters[..shard])
      {
        total := total + counters[shard];
        assert counters[..shard + 1][..shard] == counters[..shard];
      }
      assert counters[..counters.Length] == counters[..];
    }

    /** current_allocated is exact. */
    method CurrentAllocated() returns (current: nat)
      requires Valid()
      ensures current == live
    {
      var freed := TotalOf(deallocations);
      var made := TotalOf(allocations);
      current := if made > freed then made - freed else 0;
    }

    /** allocation_made: the recorded peak is the maximum number of live allocations so far. */
    method AllocationMade(shard: nat)
      requires Valid() && shard < SHARDS
      modifies this`peak, this`live, this`history, allocations
      ensures Valid() && live == old(live) + 1 && history == old(history) + [live]
    {
      TotalUpdate(allocations[..], shard, allocations[shard] + 1);
      allocations[shard] := allocations[shard] + 1;
      assert allocations[..] == old(allocations[..])[shard := old(allocations[shard]) + 1];
      live := live + 1;
      var freed := TotalOf(deallocations);
      var made := TotalOf(allocations);
      var current := if made > freed then made - freed else 0;
      MaximumExtends(peak, history, live);
      if current > peak {
        peak := current;
      }
      history := history + [live];
    }

    /** deallocation_made, which only follows an allocation. */
    method DeallocationMade(shard: nat)
      requires Valid() && shard < SHARDS && live > 0
      modifies this`live, this`history, deallocations
      ensures Valid() && live == old(live) - 1 && history == old(history) + [live] && peak == old(peak)
    {
      TotalUpdate(deallocations[..], shard, deallocations[shard] + 1);
      deallocations[shard] := deallocations[shard] + 1;
      assert deallocations[..] == old(deallocations[..])[shard := old(deallocations[shard]) + 1];
      live := live - 1;
      MaximumExtends(peak, history, live);
      history := history + [live];
    }
  }

  lemma MaximumExtends(n: nat, values: seq<nat>, value: nat)
    requires IsMaximum(n, values)
    ensures IsMaximum(if value > n then value else n, values + [value])
  {
    var i :| 0 <= i < |values| && values[i] == n;
    assert (values + [value])[i] == n && (values + [value])[|values|] == value;
  }

  ghost predicate IsMaximum(n: nat, values: seq<nat>) {
    (exists i :: 0 <= i < |values| && values[i] == n) && forall i :: 0 <= i < |values| ==> values[i] <= n
  }
}
