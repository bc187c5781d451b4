/** What holds of the shared memory between any two atomic actions. */
module ArenaInvariant {
  import opened Wrappers
  import opened ArenaState
  import opened ArenaOps

  // ----- the chain -----

  predicate IsClassSize(c: Config, size: nat) {
    var k := BinIndex(c, size);
    k < |c.classSizes| && c.classSizes[k] == size
  }

  ghost predicate LinkOk(c: Config, chain: map<Address, Link>, frontier: nat, b: Address)
    requires b in chain
  {
    && 0 < chain[b].size && End(chain, b) <= frontier
    && IsClassSize(c, chain[b].size)
    && (End(chain, b) == frontier || (End(chain, b) in chain && chain[End(chain, b)].previous == Some(b)))
    && (match chain[b].previous
        case None => b == 0
        case Some(p) => p in chain && End(chain, p) == b)
  }

  ghost predicate Before(chain: map<Address, Link>, b1: Address, b2: Address) {
    b1 in chain && b2 in chain && b1 < b2 ==> End(chain, b1) <= b2
  }

  /** The blocks lie end to end from 0 to the frontier, and the frontier word names the last of them. */
  ghost predicate ChainOk(c: Config, chain: map<Address, Link>, frontier: nat, predecessor: Option<Address>) {
    && (forall b {:trigger LinkOk(c, chain, frontier, b)} :: b in chain ==> LinkOk(c, chain, frontier, b))
    && (forall b1, b2 {:trigger Before(chain, b1, b2)} :: Before(chain, b1, b2))
    && (match predecessor
        case None => frontier == 0
        case Some(p) => p in chain && End(chain, p) == frontier)
    && frontier < c.metadataStart
  }

  // ----- who holds each block and each record -----

  predicate Kept(h: Holder) {
    h.Carved? ==> h.kept
  }

  predicate Decided(o: Owner) {
    !(o.Held? && o.phase.Growing?)
  }

  /** The thread that holds the record has not stored its state word yet. */
  predicate Unused(o: Owner) {
    o.Held? && (o.phase.Growing? || o.phase.Reserved?)
  }

  /** The record answers for a block of the chain. */
  predicate Answers(a: Arena, r: RecordIndex)
    requires r in a.records && r in a.owners
  {
    !Unused(a.owners[r]) && Binds(a.flag, r, a.records[r].word.state)
  }

  /** A record whose state word has been stored answers for a block in these states. */
  predicate Binds(flag: Flag, r: RecordIndex, state: BlockState) {
    || state.InUse? || state.DeallocatedPending? || state.Available? || state.Locked?
    || (state.FrontierReclaimInProgress? && flag.Up? && flag.claim == Claimed(r))
  }

  predicate Reclaimable(state: BlockState) {
    state.Available? || state.FrontierReclaimInProgress? || state.FrontierReclaimed?
  }

  predicate OwnerAllows(o: Owner, state: BlockState) {
    match o
    case OnFreeList => state.MetadataAvailable?
    case OnPendingList => state.DeallocatedPending?
    case InBin => Reclaimable(state)
    case WithClient => state.InUse?
    case Held(_, Growing) => true
    case Held(_, Reserved) => true
    case Held(_, Recycling) => state.MetadataAvailable?
    case Held(_, Filling) => state.InUse?
    case Held(_, Filled) => state.InUse?
    case Held(_, Owned) => state.Locked?
    case Held(_, Queued) => state.DeallocatedPending?
    case Held(_, Rolling) => state.FrontierReclaimInProgress?
    case Held(_, Loose) => Reclaimable(state)
    case Held(_, Retiring) => state.FrontierReclaimed?
  }

  /** A bound block is described by its record and by its header. */
  ghost predicate HolderOk(a: Arena, b: Address)
    requires b in a.holders && b in a.chain && b in a.headers
  {
    match a.holders[b]
    case Carved(_, _) => true
    case Bound(r) =>
      && r in a.records && r in a.owners
      && Answers(a, r)
      && a.records[r].word.block == Some(b)
      && a.headers[b] == Header(r, a.chain[b].size, a.chain[b].previous)
  }

  ghost predicate HoldersOk(a: Arena) {
    && a.holders.Keys == a.chain.Keys
    && a.headers.Keys == a.chain.Keys
    && (forall b {:trigger HolderOk(a, b)} :: b in a.chain ==> HolderOk(a, b))
  }

  /** A record that binds a block knows the block's size, once its allocation has stored it. */
  ghost predicate RecordOk(c: Config, a: Arena, r: RecordIndex)
    requires r in a.records && r in a.owners
  {
    var w := a.records[r].word;
    var o := a.owners[r];
    && OwnerAllows(o, w.state)
    && (Unused(o) ==> NamesNoBlock(w))
    && (Answers(a, r) ==>
          && w.block.Some?
          && w.block.value in a.chain && w.block.value in a.holders
          && a.holders[w.block.value] == Bound(r)
          && (a.records[r].totalSize == a.chain[w.block.value].size || (o.Held? && o.phase.Filling?)))
    && (!Unused(o) && w.state.FrontierReclaimInProgress? ==> a.flag.Up? && (a.flag.claim == Claimed(r) || a.flag.claim == RolledBack(r)))
    && (!Unused(o) && Reclaimable(w.state) ==> IsClassSize(c, a.records[r].totalSize))
    && (o.Held? && o.phase.Rolling? ==> a.flag.Up? && a.flag.thread == o.thread)
  }

  ghost predicate RecordsOk(c: Config, a: Arena) {
    && (forall r: RecordIndex {:trigger r in a.records} :: r in a.records <==> r < a.count)
    && a.owners.Keys == a.records.Keys
    && (forall r {:trigger RecordOk(c, a, r)} :: r in a.records ==> RecordOk(c, a, r))
  }

  ghost predicate FlagOk(a: Arena) {
    a.flag.Up? && !a.flag.claim.NoClaim? ==>
      && a.flag.claim.record in a.records && a.flag.claim.record in a.owners && !Unused(a.owners[a.flag.claim.record])
      && a.records[a.flag.claim.record].word.state.FrontierReclaimInProgress?
  }

  // ----- lists -----

  ghost predicate EntryOk(c: Config, a: Arena, e: BinEntry) {
    && e.record in a.records && e.record in a.owners && a.owners[e.record].InBin?
    && e.sizeClass < |c.classSizes|
    && a.records[e.record].totalSize == c.classSizes[e.sizeClass]
  }

  ghost predicate Shelved(c: Config, a: Arena, r: RecordIndex)
    requires r in a.owners
  {
    a.owners[r].InBin? ==> r in a.records && BinEntry(BinIndex(c, a.records[r].totalSize), r) in a.bins
  }

  ghost predicate ListsOk(c: Config, a: Arena) {
    && (forall r {:trigger r in a.pendingList} :: r in a.pendingList <==> r in a.owners && a.owners[r].OnPendingList?)
    && (forall e {:trigger EntryOk(c, a, e)} :: e in a.bins ==> EntryOk(c, a, e))
    && (forall r {:trigger Shelved(c, a, r)} :: r in a.owners ==> Shelved(c, a, r))
  }

  ghost predicate LiveBlockOk(a: Arena, b: Address)
    requires b in a.live
  {
    && b in a.chain && b in a.holders && a.holders[b].Bound?
    && a.holders[b].record in a.owners && a.owners[a.holders[b].record].WithClient?
    && a.live[b] + 64 <= 64 * a.chain[b].size
  }

  ghost predicate ClientHas(a: Arena, r: RecordIndex)
    requires r in a.owners
  {
    a.owners[r].WithClient? ==> r in a.records && a.records[r].word.block.Some? && a.records[r].word.block.value in a.live
  }

  ghost predicate LiveOk(a: Arena) {
    && (forall b {:trigger LiveBlockOk(a, b)} :: b in a.live ==> LiveBlockOk(a, b))
    && (forall r {:trigger ClientHas(a, r)} :: r in a.owners ==> ClientHas(a, r))
  }

  // ----- managers -----

  /** The records of manager k that are not on its free list. */
  ghost function ActiveRecords(owners: map<RecordIndex, Owner>, k: nat): set<RecordIndex> {
    set r | r in owners && ManagerOf(r) == k && !owners[r].OnFreeList?
  }

  ghost predicate ManagerOk(owners: map<RecordIndex, Owner>, count: nat, k: nat, m: Manager) {
    && m.activeCount == |ActiveRecords(owners, k)| + |m.slots|
    && (!m.trimmer.NotTrimming? ==> m.activeCount == 0)
    && (m.trimmer.Shrunk? ==> count <= k * RECORDS_PER_BLOCK)
    && (!m.trimmer.Shrunk? ==>
          forall r :: r in m.freeList <==> r in owners && ManagerOf(r) == k && owners[r].OnFreeList?)
  }

  ghost predicate ManagersOk(c: Config, managers: seq<Manager>, owners: map<RecordIndex, Owner>, count: nat) {
    && |managers| == c.managerCapacity
    && count <= c.managerCapacity * RECORDS_PER_BLOCK
    && (forall k {:trigger ManagerOk(owners, count, k, managers[k])} :: 0 <= k < |managers| ==> ManagerOk(owners, count, k, managers[k]))
  }

  // ----- the boundary -----

  ghost predicate Clear(c: Config, a: Arena, b: Address, r: RecordIndex) {
    b in a.chain && b in a.holders && Kept(a.holders[b]) && r in a.owners && Decided(a.owners[r]) ==>
      End(a.chain, b) + r + 1 < c.metadataStart
  }

  /** No block that was kept reaches a record that was kept: record r lies at unit metadataStart - r. */
  ghost predicate BoundaryOk(c: Config, a: Arena) {
    forall b, r {:trigger Clear(c, a, b, r)} :: Clear(c, a, b, r)
  }

  ghost predicate Inv(c: Config, a: Arena) {
    && ChainOk(c, a.chain, a.frontier, a.predecessor)
    && HoldersOk(a)
    && RecordsOk(c, a)
    && FlagOk(a)
    && ListsOk(c, a)
    && LiveOk(a)
    && ManagersOk(c, a.managers, a.owners, a.count)
    && BoundaryOk(c, a)
  }
}
