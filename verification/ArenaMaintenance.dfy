/**
  Maintenance by a single thread, with no other call in flight: run_maintenance_window_all rolls the
  frontier back as far as the client's blocks allow.  The memory and the effect of each action are those
  of the concurrent model; here the loops around them are written out, over the pending lists of the
  shards.
 */
module ArenaMaintenance {
  import opened Wrappers
  import opened ArenaState
  import opened ArenaOps
  import opened ArenaInvariant
  import opened ArenaChain
  import opened ArenaRecordOps
  import opened ArenaRegionOps
  import opened ArenaManagerOps
  import opened ArenaThreads
  import opened ArenaCoupling
  import opened ArenaSafety

  /** The thread that runs the window. */
  const ME: ThreadId := 0

  // ----- what is true while only this thread is at work -----

  /** Nobody but ME is inside a call, and ME holds just the stolen records it has not yet dealt with. */
  ghost predicate Alone(a: Arena, held: set<RecordIndex>) {
    && (forall b {:trigger a.holders[b]} :: b in a.holders ==> a.holders[b].Bound?)
    && (forall r {:trigger a.owners[r]} :: r in a.owners ==>
          if r in held then a.owners[r] == Held(ME, Queued) else !a.owners[r].Held?)
    && (forall k {:trigger a.managers[k]} :: 0 <= k < |a.managers| ==>
          a.managers[k].slots == {} && a.managers[k].trimmer.NotTrimming?)
  }

  ghost predicate Working(c: Config, a: Arena, held: set<RecordIndex>) {
    && ValidConfig(c) && Inv(c, a) && Alone(a, held) && held <= a.owners.Keys
    && (a.flag.Down? || a.flag == Up(ME, NoClaim))
  }

  /** What no step of a window changes. */
  predicate SameForClient(a: Arena, a': Arena) {
    a'.live == a.live && a'.pendingList == a.pendingList && a'.flag == a.flag
  }

  /** The block just below the frontier, if there is one, is not free to be taken back by a walk. */
  ghost predicate WalkedDown(a: Arena) {
    a.predecessor.Some? ==>
      && a.predecessor.value in a.headers
      && !RecordAt(a, a.headers[a.predecessor.value].metadataIndex).word.state.Available?
  }

  /** The last metadata block, if there is one, has a record in use. */
  ghost predicate TrimmedDown(a: Arena) {
    a.count > 0 ==> ManagerOf(a.count - 1) < |a.managers| && a.managers[ManagerOf(a.count - 1)].activeCount > 0
  }

  // ----- one roll-back of a batch entry -----

  function ClaimForBatch(a: Arena, m: RecordIndex): Arena {
    SetOwner(SetStateUnderFlag(a, m, FrontierReclaimInProgress, Up(ME, Claimed(m))), m, Held(ME, Rolling))
  }

  function RollOver(a: Arena, m: RecordIndex, b: Address): Arena {
    DropBlock(a, b, HeaderAt(a, b).previous).(flag := Up(ME, RolledBack(m)))
  }

  function StoreFreeState(a: Arena, m: RecordIndex): Arena {
    SetWord(a, m, Word(None, MetadataAvailable, RecordAt(a, m).word.version), Held(ME, Recycling)).(flag := Up(ME, NoClaim))
  }

  function RollBatchEntry(a: Arena, m: RecordIndex): Arena {
    var rolled := RollOver(ClaimForBatch(a, m), m, RecordAt(a, m).word.block.GetOr(0));
    ReleaseSlot(PushFreeRecord(StoreFreeState(rolled, m), ME, m), ME, ManagerOf(m))
  }

  /** A stolen record still describes its block, and waits in state DEALLOCATED_PENDING. */
  lemma StolenBinds(c: Config, a: Arena, held: set<RecordIndex>, m: RecordIndex)
    requires Working(c, a, held) && m in held
    ensures HeldAs(a, ME, m, Queued) && a.records[m].word.state.DeallocatedPending?
    ensures a.records[m].word.block.Some? && a.records[m].word.block.value in a.chain
    ensures a.records[m].totalSize == a.chain[a.records[m].word.block.value].size > 0
    ensures IsClassSize(c, a.records[m].totalSize)
  {
    assert RecordOk(c, a, m);
    var b := a.records[m].word.block.value;
    assert LinkOk(c, a.chain, a.frontier, b);
  }

  lemma RollsOverEntry(c: Config, a: Arena, held: set<RecordIndex>, m: RecordIndex)
    requires Working(c, a, held) && a.flag.Up? && m in held && EndsAt(a, m, a.frontier)
    ensures var a' := RollOver(ClaimForBatch(a, m), m, RecordAt(a, m).word.block.GetOr(0));
      && Inv(c, a') && HeldAs(a', ME, m, Rolling) && a'.flag == Up(ME, RolledBack(m))
      && a'.frontier < a.frontier && a'.live == a.live && a'.pendingList == a.pendingList
      && a'.managers == a.managers && a'.owners == a.owners[m := Held(ME, Rolling)]
      && (forall b {:trigger a'.holders[b]} :: b in a'.holders ==> b in a.holders && a'.holders[b] == a.holders[b])
  {
    StolenBinds(c, a, held, m);
    var b := a.records[m].word.block.value;
    LastBlock(c, a.chain, a.frontier, a.predecessor, b);
    BatchClaimKeeps(c, a, ME, m);
    RollBackKeeps(c, ClaimForBatch(a, m), ME, m, b);
  }

  lemma RollsBackToEntry(c: Config, a: Arena, held: set<RecordIndex>, m: RecordIndex)
    requires Working(c, a, held) && a.flag.Up? && m in held && EndsAt(a, m, a.frontier)
    ensures var a' := RollBatchEntry(a, m);
      Working(c, a', held - {m}) && SameForClient(a, a') && a'.frontier < a.frontier
  {
    RollsOverEntry(c, a, held, m);
    RecyclesEntry(c, RollOver(ClaimForBatch(a, m), m, RecordAt(a, m).word.block.GetOr(0)), m);
  }

  lemma RecyclesEntry(c: Config, a: Arena, m: RecordIndex)
    requires Inv(c, a) && a.flag == Up(ME, RolledBack(m)) && HeldAs(a, ME, m, Rolling)
    requires forall k {:trigger a.managers[k]} :: 0 <= k < |a.managers| ==> a.managers[k].slots == {} && a.managers[k].trimmer.NotTrimming?
    ensures var a' := ReleaseSlot(PushFreeRecord(StoreFreeState(a, m), ME, m), ME, ManagerOf(m));
      && Inv(c, a') && a'.owners == a.owners[m := OnFreeList] && a'.flag == Up(ME, NoClaim)
      && |a'.managers| == |a.managers|
      && (forall k {:trigger a'.managers[k]} :: 0 <= k < |a'.managers| ==> a'.managers[k].slots == {} && a'.managers[k].trimmer.NotTrimming?)
  {
    BatchRecycleKeeps(c, a, ME, m);
    var a1 := StoreFreeState(a, m);
    PushFreeRecordKeeps(c, a1, ME, m);
    ReleaseSlotKeeps(c, PushFreeRecord(a1, ME, m), ME, ManagerOf(m));
  }

  // ----- publishing a batch entry -----

  function Publish(c: Config, a: Arena, m: RecordIndex): Arena {
    var a1 := SetWord(a, m, RecordAt(a, m).word.WithState(Available), Held(ME, Loose));
    PushBin(a1, BinIndex(c, RecordAt(a1, m).totalSize), m)
  }

  lemma Publishes(c: Config, a: Arena, held: set<RecordIndex>, m: RecordIndex)
    requires Working(c, a, held) && m in held
    ensures var a' := Publish(c, a, m); Working(c, a', held - {m}) && SameForClient(a, a')
  {
    StolenBinds(c, a, held, m);
    PublishKeeps(c, a, ME, m);
    var a1 := SetWord(a, m, RecordAt(a, m).word.WithState(Available), Held(ME, Loose));
    PushBinKeeps(c, a1, ME, m);
  }

  // ----- one step of the walk -----

  function WalkOver(a: Arena, m: RecordIndex, b: Address): Arena {
    var claimed := SetStateUnderFlag(a, m, FrontierReclaimInProgress, Up(ME, Claimed(m)));
    SetStateUnderFlag(RollOver(claimed, m, b), m, FrontierReclaimed, Up(ME, NoClaim))
  }

  lemma WalksOver(c: Config, a: Arena, b: Address, m: RecordIndex)
    requires Working(c, a, {}) && a.flag.Up? && a.predecessor == Some(b) && b in a.headers && a.headers[b].metadataIndex == m
    requires RecordAt(a, m).word.state.Available? && RecordAt(a, m).word.block == Some(b)
    ensures var a' := WalkOver(a, m, b); Working(c, a', {}) && SameForClient(a, a') && a'.frontier < a.frontier
  {
    assert LinkOk(c, a.chain, a.frontier, b);
    WalkClaimKeeps(c, a, ME, m);
    var a1 := SetStateUnderFlag(a, m, FrontierReclaimInProgress, Up(ME, Claimed(m)));
    RollBackKeeps(c, a1, ME, m, b);
    WalkFinishKeeps(c, RollOver(a1, m, b), ME, m);
  }

  /** The last block's header names its record, and the record names the block. */
  lemma LastIsBound(c: Config, a: Arena)
    requires Working(c, a, {}) && a.predecessor.Some?
    ensures var b := a.predecessor.value;
      && b in a.headers && b in a.chain && a.headers[b].metadataIndex in a.records
      && a.headers[b].metadataIndex < a.count
      && a.records[a.headers[b].metadataIndex].word.block == Some(b)
      && a.holders[b] == Bound(a.headers[b].metadataIndex)
  {
    assert HolderOk(a, a.predecessor.value);
  }

  // ----- trimming -----

  function TrimTail(a: Arena, k: nat): Arena {
    SetTrimmer(ClearFreeList(Shrink(SetTrimmer(a, k, Trimming(ME)), ME, k, k * RECORDS_PER_BLOCK), ME, k), k, NotTrimming)
  }

  lemma Trims(c: Config, a: Arena, k: nat)
    requires Working(c, a, {}) && k < |a.managers| && a.managers[k].activeCount == 0
    requires k * RECORDS_PER_BLOCK < a.count <= (k + 1) * RECORDS_PER_BLOCK
    ensures var a' := TrimTail(a, k);
      Working(c, a', {}) && SameForClient(a, a') && a'.count < a.count && a'.predecessor == a.predecessor && a'.frontier == a.frontier
      && a'.headers == a.headers && (forall r :: r in a'.records ==> r in a.records && a'.records[r] == a.records[r])
  {
    TrimClaimKeeps(c, a, ME, k);
    var a1 := SetTrimmer(a, k, Trimming(ME));
    ShrinkKeeps(c, a1, ME, k);
    var a2 := Shrink(a1, ME, k, k * RECORDS_PER_BLOCK);
    ClearFreeListKeeps(c, a2, ME, k);
    TrimOpenKeeps(c, ClearFreeList(a2, ME, k), ME, k);
  }

  // ----- the pending lists of the shards -----

  /** The shards' lists hold the pending records, each once. */
  ghost predicate ShardsOk(shards: seq<seq<RecordIndex>>, pending: set<RecordIndex>) {
    && (forall r {:trigger r in pending} :: r in pending <==> exists s :: 0 <= s < |shards| && r in shards[s])
    && (forall s {:trigger Distinct(shards[s])} :: 0 <= s < |shards| ==> Distinct(shards[s]))
    && (forall s1, s2 {:trigger Apart(shards[s1], shards[s2])} :: 0 <= s1 < s2 < |shards| ==> Apart(shards[s1], shards[s2]))
  }

  ghost predicate Distinct(list: seq<RecordIndex>) {
    forall i, j :: 0 <= i < j < |list| ==> list[i] != list[j]
  }

  ghost predicate Apart(list1: seq<RecordIndex>, list2: seq<RecordIndex>) {
    forall r :: r in list1 ==> r !in list2
  }

  function Members(list: seq<RecordIndex>): set<RecordIndex> {
    set r | r in list
  }

  /** The records still in a batch; None marks an entry already dealt with. */
  function Entries(batch: seq<Option<RecordIndex>>): set<RecordIndex> {
    set i | 0 <= i < |batch| && batch[i].Some? :: batch[i].value
  }

  ghost predicate DistinctEntries(batch: seq<Option<RecordIndex>>) {
    forall i, j :: 0 <= i < j < |batch| && batch[i].Some? ==> batch[i] != batch[j]
  }

  lemma EmptyShard(shards: seq<seq<RecordIndex>>, pending: set<RecordIndex>, shard: nat)
    requires ShardsOk(shards, pending) && shard < |shards|
    ensures Members(shards[shard]) <= pending
    ensures ShardsOk(shards[shard := []], pending - Members(shards[shard]))
  {
    var shards' := shards[shard := []];
    var list := shards[shard];
    forall r ensures r in pending - Members(list) <==> exists s :: 0 <= s < |shards'| && r in shards'[s] {
      if r in pending - Members(list) {
        var s :| 0 <= s < |shards| && r in shards[s];
        assert r in shards'[s];
      }
      if exists s :: 0 <= s < |shards'| && r in shards'[s] {
        var s :| 0 <= s < |shards'| && r in shards'[s];
        assert r in shards[s] && (if s < shard then Apart(shards[s], shards[shard]) else Apart(shards[shard], shards[s]));
      }
    }
    forall s1, s2 | 0 <= s1 < s2 < |shards'| ensures Apart(shards'[s1], shards'[s2]) {
      assert Apart(shards[s1], shards[s2]);
    }
    forall s | 0 <= s < |shards'| ensures Distinct(shards'[s]) {
      assert Distinct(shards[s]);
    }
  }

  lemma Steals(c: Config, a: Arena, list: seq<RecordIndex>)
    requires Working(c, a, {}) && Members(list) <= a.pendingList
    ensures var a' := StealPending(a, ME, Members(list)); Working(c, a', Members(list)) && a'.live == a.live && a'.flag == a.flag
  {
    StealPendingKeeps(c, a, ME, Members(list));
  }

  lemma DropEntry(batch: seq<Option<RecordIndex>>, i: nat)
    requires i < |batch| && batch[i].Some? && DistinctEntries(batch)
    ensures Entries(batch[i := None]) == Entries(batch) - {batch[i].value}
    ensures DistinctEntries(batch[i := None])
  {
    var batch' := batch[i := None];
    forall r ensures r in Entries(batch') <==> r in Entries(batch) - {batch[i].value} {
      if r in Entries(batch) - {batch[i].value} {
        var j :| 0 <= j < |batch| && batch[j].Some? && batch[j].value == r;
        assert batch'[j] == Some(r);
      }
    }
  }

  lemma FirstEntry(batch: seq<Option<RecordIndex>>)
    requires batch != [] && DistinctEntries(batch)
    ensures Entries(batch) == Entries(batch[1..]) + (if batch[0].Some? then {batch[0].value} else {})
    ensures batch[0].Some? ==> batch[0].value !in Entries(batch[1..])
    ensures DistinctEntries(batch[1..])
  {
    forall r ensures r in Entries(batch) <==> r in Entries(batch[1..]) || batch[0] == Some(r) {
      if r in Entries(batch) {
        var j :| 0 <= j < |batch| && batch[j].Some? && batch[j].value == r;
        assert j > 0 ==> batch[1..][j - 1] == Some(r);
      }
      if r in Entries(batch[1..]) {
        var j :| 0 <= j < |batch| - 1 && batch[1..][j].Some? && batch[1..][j].value == r;
        assert batch[j + 1] == Some(r);
      }
    }
  }

  lemma AddEntry(batch: seq<Option<RecordIndex>>, r: RecordIndex)
    requires DistinctEntries(batch) && r !in Entries(batch)
    ensures Entries(batch + [Some(r)]) == Entries(batch) + {r} && DistinctEntries(batch + [Some(r)])
  {
    var batch' := batch + [Some(r)];
    forall x ensures x in Entries(batch') <==> x in Entries(batch) + {r} {
      if x in Entries(batch) {
        var j :| 0 <= j < |batch| && batch[j].Some? && batch[j].value == x;
        assert batch'[j] == Some(x);
      }
      assert batch'[|batch|] == Some(r);
    }
    forall i, j | 0 <= i < j < |batch'| && batch'[i].Some? ensures batch'[i] != batch'[j] {
      assert batch[i].value in Entries(batch);
    }
  }

  lemma FirstMember(list: seq<RecordIndex>)
    requires list != [] && Distinct(list)
    ensures Members(list) == Members(list[1..]) + {list[0]} && list[0] !in Members(list[1..]) && Distinct(list[1..])
  {}

  lemma CountFitsManagers(c: Config, a: Arena)
    requires Working(c, a, {}) && a.count > 0
    ensures ManagerOf(a.count - 1) < |a.managers|
  {}

  lemma TailManager(count: nat)
    requires count > 0
    ensures ManagerOf(count - 1) * RECORDS_PER_BLOCK < count <= (ManagerOf(count - 1) + 1) * RECORDS_PER_BLOCK
  {}

  /** With nothing pending and a walk just done, the block below the frontier is one of the client's. */
  lemma RolledAllTheWay(c: Config, a: Arena)
    requires Working(c, a, {}) && a.flag.Down? && a.pendingList == {} && WalkedDown(a)
    ensures a.predecessor.None? ==> a.frontier == 0
    ensures a.predecessor.Some? ==>
      a.predecessor.value in a.live && a.predecessor.value in a.chain && End(a.chain, a.predecessor.value) == a.frontier
  {
    if a.predecessor.Some? {
      LastIsBound(c, a);
      var m := a.headers[a.predecessor.value].metadataIndex;
      assert HolderOk(a, a.predecessor.value) && RecordOk(c, a, m) && ClientHas(a, m);
      assert m in a.pendingList <==> a.owners[m].OnPendingList?;
    }
  }

  /** The resource as one thread sees it: its memory and the pending list of each shard, most recent first. */
  class Resource {
    const c: Config
    const batchSize: nat
    var arena: Arena
    var shards: seq<seq<RecordIndex>>

    ghost predicate Valid()
      reads this
    {
      0 < batchSize && |shards| > 0 && Working(c, arena, {}) && arena.flag.Down? && ShardsOk(shards, arena.pendingList)
    }

    constructor (c: Config, batchSize: nat, arena: Arena, shards: seq<seq<RecordIndex>>)
      requires 0 < batchSize && |shards| > 0 && Working(c, arena, {}) && arena.flag.Down? && ShardsOk(shards, arena.pendingList)
      ensures Valid() && this.arena == arena && this.shards == shards && this.c == c
    {
      this.c := c;
      this.batchSize := batchSize;
      this.arena := arena;
      this.shards := shards;
    }

    /** The first batch entry that is DEALLOCATED_PENDING and ends at the frontier; n when there is none. */
    method FindCandidate(batch: array<Option<RecordIndex>>, n: nat) returns (i: nat)
      requires n <= batch.Length
      ensures i <= n
      ensures i < n ==> batch[i].Some? && EndsAt(arena, batch[i].value, arena.frontier)
      ensures forall j :: 0 <= j < i && batch[j].Some? ==> !EndsAt(arena, batch[j].value, arena.frontier)
    {
      i := 0;
      while i < n
        invariant i <= n
        invariant forall j :: 0 <= j < i && batch[j].Some? ==> !EndsAt(arena, batch[j].value, arena.frontier)
      {
        if batch[i].Some? && EndsAt(arena, batch[i].value, arena.frontier) {
          return;
        }
        i := i + 1;
      }
    }

    /** Rolls the frontier back over entry i, which ends at it, and recycles the entry's record. */
    method RollBackOver(batch: array<Option<RecordIndex>>, n: nat, i: nat, ghost rest: set<RecordIndex>)
      requires i < n <= batch.Length && batch[i].Some? && EndsAt(arena, batch[i].value, arena.frontier)
      requires arena.flag.Up? && DistinctEntries(batch[..n]) && Entries(batch[..n]) !! rest
      requires Working(c, arena, Entries(batch[..n]) + rest)
      modifies this`arena, batch
      ensures DistinctEntries(batch[..n]) && Entries(batch[..n]) <= old(Entries(batch[..n]))
      ensures Working(c, arena, Entries(batch[..n]) + rest) && SameForClient(old(arena), arena)
      ensures arena.frontier < old(arena.frontier)
    {
      var m := batch[i].value;
      ghost var entries := batch[..n];
      assert entries[i] == Some(m);
      DropEntry(entries, i);
      RollsBackToEntry(c, arena, Entries(entries) + rest, m);
      assert Entries(entries) + rest - {m} == Entries(entries[i := None]) + rest;
      arena := RollBatchEntry(arena, m);
      batch[i] := None;
      assert batch[..n] == entries[i := None];
    }

    /** reclaim_pending_frontier_batch: no entry left in the batch ends at the frontier. */
    method ReclaimBatch(batch: array<Option<RecordIndex>>, n: nat, ghost rest: set<RecordIndex>)
      requires n <= batch.Length && arena.flag.Down? && DistinctEntries(batch[..n]) && Entries(batch[..n]) !! rest
      requires Working(c, arena, Entries(batch[..n]) + rest)
      modifies this`arena, batch
      ensures DistinctEntries(batch[..n]) && Entries(batch[..n]) <= old(Entries(batch[..n]))
      ensures Working(c, arena, Entries(batch[..n]) + rest) && SameForClient(old(arena), arena)
      ensures arena.frontier <= old(arena.frontier)
      ensures forall j :: 0 <= j < n && batch[j].Some? ==> !EndsAt(arena, batch[j].value, arena.frontier)
    {
      arena := SetFlag(Up(ME, NoClaim), Entries(batch[..n]) + rest);
      var i := FindCandidate(batch, n);
      while i < n
        invariant 0 <= i <= n && DistinctEntries(batch[..n]) && Entries(batch[..n]) <= old(Entries(batch[..n]))
        invariant Working(c, arena, Entries(batch[..n]) + rest) && arena.flag.Up?
        invariant arena.live == old(arena.live) && arena.pendingList == old(arena.pendingList)
        invariant arena.frontier <= old(arena.frontier)
        invariant i < n ==> batch[i].Some? && EndsAt(arena, batch[i].value, arena.frontier)
        invariant i == n ==> forall j :: 0 <= j < n && batch[j].Some? ==> !EndsAt(arena, batch[j].value, arena.frontier)
        decreases arena.frontier, n - i
      {
        RollBackOver(batch, n, i, rest);
        i := FindCandidate(batch, n);
      }
      arena := SetFlag(Down, Entries(batch[..n]) + rest);
    }

    method SetFlag(flag: Flag, ghost held: set<RecordIndex>) returns (a: Arena)
      requires Working(c, arena, held) && (flag.Down? || flag == Up(ME, NoClaim))
      ensures a == arena.(flag := flag) && Working(c, a, held)
    {
      SetFlagKeeps(c, arena, flag);
      a := arena.(flag := flag);
    }

    /** The second half of process_pending_batch: whatever the roll-back left goes to the bins. */
    method PublishBatch(batch: array<Option<RecordIndex>>, n: nat, ghost rest: set<RecordIndex>)
      requires n <= batch.Length && DistinctEntries(batch[..n]) && Entries(batch[..n]) !! rest
      requires Working(c, arena, Entries(batch[..n]) + rest)
      modifies this`arena
      ensures Working(c, arena, rest) && SameForClient(old(arena), arena)
    {
      var i := 0;
      while i < n
        invariant 0 <= i <= n && DistinctEntries(batch[i..n]) && Entries(batch[i..n]) !! rest
        invariant Working(c, arena, Entries(batch[i..n]) + rest) && SameForClient(old(arena), arena)
      {
        FirstEntry(batch[i..n]);
        assert batch[i..n][1..] == batch[i + 1..n];
        if batch[i].Some? {
          var m := batch[i].value;
          StolenBinds(c, arena, Entries(batch[i..n]) + rest, m);
          if RecordAt(arena, m).word.state.DeallocatedPending? {
            Publishes(c, arena, Entries(batch[i..n]) + rest, m);
            assert Entries(batch[i..n]) + rest - {m} == Entries(batch[i + 1..n]) + rest;
            arena := Publish(c, arena, m);
          }
        }
        i := i + 1;
      }
      assert Entries(batch[n..n]) + rest == rest;
    }

    method ProcessBatch(batch: array<Option<RecordIndex>>, n: nat, ghost rest: set<RecordIndex>)
      requires n <= batch.Length && arena.flag.Down? && DistinctEntries(batch[..n]) && Entries(batch[..n]) !! rest
      requires Working(c, arena, Entries(batch[..n]) + rest)
      modifies this`arena, batch
      ensures Working(c, arena, rest) && SameForClient(old(arena), arena)
    {
      if n == 0 {
        assert Entries(batch[..n]) + rest == rest;
        return;
      }
      ReclaimBatch(batch, n, rest);
      PublishBatch(batch, n, rest);
    }

    /** Works off a stolen list in batches. */
    method ProcessList(list: seq<RecordIndex>)
      requires 0 < batchSize && arena.flag.Down? && Distinct(list) && Working(c, arena, Members(list))
      modifies this`arena
      ensures Working(c, arena, {}) && SameForClient(old(arena), arena)
    {
      var batch := new Option<RecordIndex>[batchSize](_ => None);
      var n, i := 0, 0;
      assert list[0..] == list;
      while i < |list|
        invariant 0 <= i <= |list| && 0 <= n < batchSize == batch.Length && fresh(batch)
        invariant Distinct(list[i..]) && DistinctEntries(batch[..n]) && Entries(batch[..n]) !! Members(list[i..])
        invariant Working(c, arena, Entries(batch[..n]) + Members(list[i..])) && SameForClient(old(arena), arena)
      {
        FirstMember(list[i..]);
        assert list[i..][1..] == list[i + 1..];
        AddEntry(batch[..n], list[i]);
        assert Entries(batch[..n]) + Members(list[i..]) == Entries(batch[..n] + [Some(list[i])]) + Members(list[i + 1..]);
        batch[n] := Some(list[i]);
        assert batch[..n + 1] == batch[..n] + [Some(list[i])];
        n, i := n + 1, i + 1;
        if n == batchSize {
          ProcessBatch(batch, n, Members(list[i..]));
          n := 0;
          assert Entries(batch[..n]) + Members(list[i..]) == Members(list[i..]);
        }
      }
      assert Entries(batch[..n]) + Members(list[i..]) == Entries(batch[..n]) + {};
      ProcessBatch(batch, n, {});
    }

    /** try_reclaim_frontier_blocks */
    method Walk()
      requires Working(c, arena, {}) && arena.flag.Down?
      modifies this`arena
      ensures Working(c, arena, {}) && SameForClient(old(arena), arena)
      ensures arena.frontier <= old(arena.frontier) && WalkedDown(arena)
    {
      arena := SetFlag(Up(ME, NoClaim), {});
      while arena.predecessor.Some?
        invariant Working(c, arena, {}) && arena.flag == Up(ME, NoClaim)
        invariant arena.live == old(arena.live) && arena.pendingList == old(arena.pendingList)
        invariant arena.frontier <= old(arena.frontier)
        decreases arena.frontier
      {
        LastIsBound(c, arena);
        var b := arena.predecessor.value;
        var m := HeaderAt(arena, b).metadataIndex;
        if m >= arena.count || RecordAt(arena, m).word.block != Some(b) || !RecordAt(arena, m).word.state.Available? {
          break;
        }
        WalksOver(c, arena, b, m);
        arena := WalkOver(arena, m, b);
      }
      arena := SetFlag(Down, {});
    }

    /** trim_metadata_records */
    method Trim()
      requires Working(c, arena, {}) && arena.flag.Down? && WalkedDown(arena)
      modifies this`arena
      ensures Working(c, arena, {}) && SameForClient(old(arena), arena)
      ensures arena.frontier == old(arena.frontier) && WalkedDown(arena)
      ensures arena.count <= old(arena.count) && TrimmedDown(arena)
    {
      while arena.count > 0
        invariant Working(c, arena, {}) && SameForClient(old(arena), arena) && WalkedDown(arena)
        invariant arena.frontier == old(arena.frontier) && arena.count <= old(arena.count)
        decreases arena.count
      {
        var k := ManagerOf(arena.count - 1);
        CountFitsManagers(c, arena);
        if k >= |arena.managers| || arena.managers[k].activeCount != 0 {
          break;
        }
        TailManager(arena.count);
        Trims(c, arena, k);
        arena := TrimTail(arena, k);
      }
    }

    method RunMaintenanceWindow(shard: nat)
      requires Valid() && shard < |shards|
      modifies this`arena, this`shards
      ensures Valid() && shards == old(shards)[shard := []]
      ensures arena.live == old(arena.live) && WalkedDown(arena) && TrimmedDown(arena)
    {
      while shards[shard] != []
        invariant Valid() && arena.live == old(arena.live)
        invariant shards == old(shards) || shards == old(shards)[shard := []]
        decreases |shards[shard]|
      {
        var list := shards[shard];
        assert Distinct(shards[shard]);
        EmptyShard(shards, arena.pendingList, shard);
        Steals(c, arena, list);
        shards := shards[shard := []];
        arena := StealPending(arena, ME, Members(list));
        ProcessList(list);
      }
      assert shards == old(shards)[shard := []];
      Walk();
      Trim();
    }

    /**
      run_maintenance_window_all: afterwards the frontier is at the end of one of the client's blocks, or
      back at the base.  With no live block it is always back at the base.
     */
    method RunMaintenanceWindowAll()
      requires Valid()
      modifies this`arena, this`shards
      ensures Valid() && arena.pendingList == {} && arena.live == old(arena.live)
      ensures arena.frontier == 0 || exists b :: b in arena.live && b in arena.chain && End(arena.chain, b) == arena.frontier
      ensures arena.live == map[] ==> arena.frontier == 0 && arena.predecessor.None?
      ensures TrimmedDown(arena)
    {
      var shard := 0;
      while shard < |shards|
        invariant 0 <= shard <= |shards| == |old(shards)|
        invariant Valid() && arena.live == old(arena.live)
        invariant forall s :: 0 <= s < shard ==> shards[s] == []
        invariant shard > 0 ==> WalkedDown(arena) && TrimmedDown(arena)
      {
        RunMaintenanceWindow(shard);
        shard := shard + 1;
      }
      assert arena.pendingList == {};
      RolledAllTheWay(c, arena);
    }
  }

  // ----- where the concurrent model hands over -----

  /** Between calls, any reachable memory is one the single-threaded resource may start from. */
  lemma QuietIsAlone(c: Config, s: System)
    requires ValidConfig(c) && OrderlyReachable(c, s) && forall t :: ThreadAt(s, t) == Idle
    ensures Working(c, s.arena, {}) && s.arena.flag.Down?
  {
    ReachableHolds(c, s);
    var a := s.arena;
    forall b | b in a.holders ensures a.holders[b].Bound? {
      if a.holders[b].Carved? {
        CarvedByThread(c, s, b);
        assert false;
      }
    }
    forall r | r in a.owners ensures !a.owners[r].Held? {
      if a.owners[r].Held? {
        HeldByThread(c, s, r);
        assert false;
      }
    }
    forall k | 0 <= k < |a.managers| ensures a.managers[k].slots == {} && a.managers[k].trimmer.NotTrimming? {
      forall t ensures t !in a.managers[k].slots {
        assert SlotMatches(a, t, ThreadAt(s, t), k);
      }
      if !a.managers[k].trimmer.NotTrimming? {
        TrimmedByThread(c, s, k);
        assert false;
      }
    }
    if a.flag.Up? {
      FlagByThread(c, s);
      assert false;
    }
  }
}
