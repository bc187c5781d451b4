/**
  The shared memory of the lock-free single-arena allocator.

  Addresses are counted in 64-byte units from allocation_base_.  Blocks are cut upward from the
  frontier word; record i of the metadata region occupies unit metadataStart - i, so the region
  grows downward.  The fields under "auxiliary" do not exist in the program: they name who is
  responsible for each block, record, manager slot and for the reclaim flag, and no step reads them
  to decide what to do.
 */
module ArenaState {
  import opened Wrappers

  const RECORDS_PER_BLOCK: nat := 4096
  const VERSION_LIMIT: nat := 4096
  const ACTIVE_COUNT_MASK: nat := 0x7FFF_FFFF
  const NO_PREDECESSOR: nat := 0xFFFF_FFFF

  type ThreadId = nat
  type Address = nat
  type RecordIndex = nat

  /** The layout fixed by the constructor; class sizes are in units. */
  datatype Config = Config(metadataStart: nat, classSizes: seq<nat>, managerCapacity: nat)

  ghost predicate ValidConfig(c: Config) {
    && 0 < c.metadataStart < NO_PREDECESSOR
    && (forall k :: 0 <= k < |c.classSizes| ==> 0 < c.classSizes[k])
    && (forall j, k :: 0 <= j < k < |c.classSizes| ==> c.classSizes[j] < c.classSizes[k])
  }

  datatype BlockState =
    | Invalid
    | InUse
    | DeallocatedPending
    | Available
    | MetadataAvailable
    | Locked
    | FrontierReclaimInProgress
    | FrontierReclaimed

  /** The packed word block_state_: block offset, state and a version that wraps at VERSION_LIMIT. */
  datatype Word = Word(block: Option<Address>, state: BlockState, version: nat) {
    function WithState(state': BlockState): Word {
      this.(state := state')
    }

    function WithStateAndNextVersion(state': BlockState): Word {
      Word(block, state', (version + 1) % VERSION_LIMIT)
    }
  }

  datatype Record = Record(word: Word, totalSize: nat)

  datatype Header = Header(metadataIndex: nat, size: nat, previous: Option<Address>)

  /** What a thread is doing with a record that is on no list. */
  datatype Phase =
    | Growing     // its growth is not yet decided
    | Reserved    // free for this thread to bind
    | Recycling   // METADATA_AVAILABLE stored, not yet on the free list
    | Filling     // IN_USE stored, total_size_ not yet
    | Filled      // complete, the pointer not yet returned
    | Owned       // LOCKED: claimed for reuse, or accepted for freeing
    | Queued      // DEALLOCATED_PENDING, outside the pending list
    | Rolling     // FRONTIER_RECLAIM_IN_PROGRESS, by the thread that holds the record
    | Loose       // AVAILABLE when it left or entered a bin; a frontier walk may claim it meanwhile
    | Retiring    // seen FRONTIER_RECLAIMED after the pop

  datatype Owner =
    | OnFreeList
    | OnPendingList
    | InBin
    | WithClient
    | Held(thread: ThreadId, phase: Phase)

  /** Who answers for a block of the chain. */
  datatype Holder =
    | Bound(record: RecordIndex)
    | Carved(thread: ThreadId, kept: bool)

  datatype Link = Link(size: nat, previous: Option<Address>)

  datatype Claim = NoClaim | Claimed(record: RecordIndex) | RolledBack(record: RecordIndex)

  /** frontier_reclaim_in_progress_, with the thread that raised it. */
  datatype Flag = Down | Up(thread: ThreadId, claim: Claim)

  /** The trimming bit, with the thread that set it. */
  datatype Trimmer = NotTrimming | Trimming(thread: ThreadId) | Shrunk(thread: ThreadId)

  /** slots is auxiliary: the threads between reserve and bind, or between give-back and release. */
  datatype Manager = Manager(activeCount: nat, trimmer: Trimmer, freeList: set<RecordIndex>, slots: set<ThreadId>)

  datatype BinEntry = BinEntry(sizeClass: nat, record: RecordIndex)

  datatype Arena = Arena(
    // the frontier word
    frontier: Address,
    predecessor: Option<Address>,
    // the metadata region
    count: nat,
    records: map<RecordIndex, Record>,
    managers: seq<Manager>,
    // block headers in the arena
    headers: map<Address, Header>,
    // lists
    pendingList: set<RecordIndex>,
    bins: set<BinEntry>,
    flag: Flag,
    // auxiliary: the chain of blocks and their holders, the owner of each record, and the client's
    // blocks with the bytes it asked for
    chain: map<Address, Link>,
    holders: map<Address, Holder>,
    owners: map<RecordIndex, Owner>,
    live: map<Address, nat>)

  function End(chain: map<Address, Link>, b: Address): nat
    requires b in chain
  {
    b + chain[b].size
  }

  function ManagerOf(r: RecordIndex): nat {
    r / RECORDS_PER_BLOCK
  }

  /** The least class that holds size units; |classSizes| when there is none. */
  function BinIndex(c: Config, size: nat): (k: nat)
    ensures k <= |c.classSizes|
    ensures k < |c.classSizes| ==> size <= c.classSizes[k]
    ensures forall j :: 0 <= j < k ==> c.classSizes[j] < size
  {
    BinIndexFrom(c, size, 0)
  }

  function BinIndexFrom(c: Config, size: nat, from: nat): (k: nat)
    requires from <= |c.classSizes|
    ensures from <= k <= |c.classSizes|
    ensures k < |c.classSizes| ==> size <= c.classSizes[k]
    ensures forall j :: from <= j < k ==> c.classSizes[j] < size
    decreases |c.classSizes| - from
  {
    if from == |c.classSizes| || size <= c.classSizes[from] then from else BinIndexFrom(c, size, from + 1)
  }

  /** frontier_overlaps_metadata */
  predicate OverlapsMetadata(c: Config, a: Arena, next: nat) {
    next >= c.metadataStart - (a.count + 1)
  }
}
