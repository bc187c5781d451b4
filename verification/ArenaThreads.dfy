/**
  The program each thread runs, one atomic action on shared memory per step.  Loads of memory that only
  the thread itself can change at that point (its own records and the headers of its own blocks) are
  merged with the action that uses them.

  A thread is between calls, inside do_allocate, inside do_try_deallocate or in a maintenance window.
  Each program counter names the action the thread is about to perform and carries the values it has
  read so far, which may be stale.  Every action reads and compares only the shared memory.
 */
module ArenaThreads {
  import opened Wrappers
  import opened ArenaState
  import opened ArenaOps

  /** The two halves of next_empty_memory_block_, as one load returns them. */
  datatype FrontierWord = FrontierWord(predecessor: Option<Address>, frontier: Address)

  function WordOf(a: Arena): FrontierWord {
    FrontierWord(a.predecessor, a.frontier)
  }

  /** search_for_deallocated_block */
  datatype SearchPc =
    | PopNext
    | Popped(m: RecordIndex)
    | ClaimPopped(m: RecordIndex, w: Word)
    | Repush(m: RecordIndex)

  /** What follows recycle_metadata at each of its call sites. */
  datatype Continuation =
    | ThenScan(todo: set<RecordIndex>, batch: set<RecordIndex>)
    | ThenSearch
    | ThenBind(block: Address, record: RecordIndex)
    | ThenFail

  /** recycle_metadata; ClearFields precedes it where do_allocate gives its reserved record back. */
  datatype RecyclePc =
    | ClearFields
    | StoreFree(phase: Phase)
    | PushFree
    | ReleaseManager

  /** get_next_metadata_record_index and grow_metadata_region */
  datatype ReservePc =
    | LoadCount
    | ScanManager(count: nat, k: nat)
    | PopFree(count: nat, k: nat)
    | DropSlot(count: nat, k: nat)
    | GrowFrom(count: nat)
    | ReloadCount
    | CheckFrontier(count: nat)
    | GrowCas(count: nat)
    | GrowRetry(k: nat, count: nat)
    | GrowRecheck(count: nat)
    | GrowUndo(count: nat)
    | GrowGiveUp(k: nat)

  /** get_next_empty_memory_block */
  datatype CutPc =
    | LoadFrontier
    | CheckCount(word: FrontierWord)
    | CarveCas(word: FrontierWord)
    | CarveRecheck(word: FrontierWord)
    | CarveUndo(word: FrontierWord)
    | WriteSize(word: FrontierWord)
    | WritePrevious(word: FrontierWord)

  /** The end of do_allocate; carved tells a block cut at the frontier from one claimed from a bin. */
  datatype BindPc =
    | WriteIndex(carved: bool)
    | StoreInUse(carved: bool)
    | StoreSize
    | Return

  /** do_try_deallocate */
  datatype FreePc =
    | ReadIndex(b: Address)
    | CheckIndex(b: Address, m: RecordIndex)
    | ReadWord(b: Address, m: RecordIndex)
    | AcceptCas(b: Address, m: RecordIndex, w: Word)
    | StorePending(m: RecordIndex)
    | PushPendingList(m: RecordIndex)

  /** run_maintenance_window, process_pending_batch and reclaim_pending_frontier_batch */
  datatype WindowPc =
    | Collect
    | RaiseForBatch
    | ScanBatch
    | PickCandidate(word: FrontierWord)
    | ClaimCandidate(word: FrontierWord, m: RecordIndex)
    | RollBatch(word: FrontierWord, m: RecordIndex)
    | RestoreBatch(m: RecordIndex)
    | LowerAfterBatch
    | PublishNext
    | PushPublished(m: RecordIndex)

  /** try_reclaim_frontier_blocks */
  datatype WalkPc =
    | RaiseForWalk
    | LoadForWalk
    | ReadWalkIndex(word: FrontierWord)
    | CheckWalkIndex(word: FrontierWord, m: RecordIndex)
    | ReadWalkWord(word: FrontierWord, m: RecordIndex)
    | WalkCas(word: FrontierWord, m: RecordIndex, w: Word)
    | RollWalk(word: FrontierWord, m: RecordIndex)
    | RestoreWalk(m: RecordIndex)
    | FinishWalk(m: RecordIndex)
    | LowerAfterWalk

  /** trim_metadata_records; k is the manager of the last record. */
  datatype TrimPc =
    | LoadForTrim
    | ClaimManager(count: nat, k: nat)
    | CheckTrim(count: nat, k: nat)
    | ShrinkCas(count: nat, k: nat)
    | ClearList(k: nat)
    | OpenManager(k: nat)

  datatype Pc =
    | Ready
    | Search(search: SearchPc)
    | Recycle(m: RecordIndex, next: Continuation, recycle: RecyclePc)
    | Reserve(reserve: ReservePc)
    | Cut(cut: CutPc)
    | Bind(b: Address, m: RecordIndex, bind: BindPc)
    | Free(free: FreePc)
    | Steal
    | Window(todo: set<RecordIndex>, batch: set<RecordIndex>, window: WindowPc)
    | Walk(walk: WalkPc)
    | Trim(trim: TrimPc)

  /** The record do_allocate keeps in reserve; round counts its searches since the frontier was first tried. */
  datatype Reservation = NoRecord | WithRecord(m: RecordIndex, round: nat)

  datatype Job = NoJob | Alloc(bytes: nat, bin: nat, reservation: Reservation)

  datatype Thread = Thread(job: Job, pc: Pc)

  const Idle := Thread(NoJob, Ready)

  function At(th: Thread, pc: Pc): Thread {
    th.(pc := pc)
  }

  function Holding(th: Thread, reservation: Reservation, pc: Pc): Thread
    requires th.job.Alloc?
  {
    Thread(th.job.(reservation := reservation), pc)
  }

  function Resume(th: Thread, next: Continuation): Thread {
    match next
    case ThenScan(todo, batch) => At(th, Window(todo, batch, ScanBatch))
    case ThenSearch => At(th, Search(PopNext))
    case ThenBind(b, m) => At(th, Bind(b, m, WriteIndex(false)))
    case ThenFail => Idle
  }

  /** The units a request needs with its header, rounded up. */
  function UnitsFor(bytes: nat): nat {
    (bytes + 64 + 63) / 64
  }

  predicate ValidRequest(c: Config, bytes: nat) {
    0 < bytes && BinIndex(c, UnitsFor(bytes)) < |c.classSizes|
  }

  /** The size in units of a block for `bytes` bytes: the least class that holds request and header. */
  function SizeFor(c: Config, bytes: nat): nat
    requires ValidRequest(c, bytes)
  {
    c.classSizes[BinIndex(c, UnitsFor(bytes))]
  }

  function ClassSize(c: Config, job: Job): nat {
    if job.Alloc? && job.bin < |c.classSizes| then c.classSizes[job.bin] else 1
  }

  // ----- starting calls -----

  ghost predicate ReadyStep(c: Config, a: Arena, th: Thread, a': Arena, th': Thread) {
    && th.pc.Ready? && a' == a
    && (match th.job
        case NoJob =>
          || (th'.job.Alloc? && ValidRequest(c, th'.job.bytes)
              && th' == Thread(Alloc(th'.job.bytes, BinIndex(c, UnitsFor(th'.job.bytes)), NoRecord), Ready))
          || (th'.pc.Free? && th'.pc.free.ReadIndex? && th' == At(th, Free(ReadIndex(th'.pc.free.b))))
          || th' == At(th, Steal)
        case Alloc(_, _, _) =>
          th' == At(th, Steal) || th' == At(th, Search(PopNext)))
  }

  // ----- search_for_deallocated_block -----

  ghost predicate PopNextStep(c: Config, a: Arena, th: Thread, a': Arena, th': Thread, t: ThreadId) {
    && th.pc == Search(PopNext) && th.job.Alloc?
    && if th'.pc.Search? then
         && th'.pc.search.Popped?
         && var m := th'.pc.search.m;
         BinEntry(th.job.bin, m) in a.bins && a' == PopBin(a, t, th.job.bin, m) && th' == At(th, Search(Popped(m)))
       else
         && a' == a
         && th' == match th.job.reservation
                   case NoRecord => At(th, Reserve(LoadCount))
                   case WithRecord(m, round) =>
                     if round == 0 then Holding(th, WithRecord(m, 1), Ready)
                     else Holding(th, NoRecord, Recycle(m, ThenFail, ClearFields))
  }

  ghost predicate PoppedStep(c: Config, a: Arena, th: Thread, a': Arena, th': Thread, t: ThreadId) {
    && th.pc.Search? && th.pc.search.Popped?
    && var m := th.pc.search.m;
    && var w := RecordAt(a, m).word;
    match w.state
    case Available => a' == a && th' == At(th, Search(ClaimPopped(m, w)))
    case FrontierReclaimInProgress => a' == a && th' == At(th, Search(Repush(m)))
    case FrontierReclaimed => a' == SetOwner(a, m, Held(t, Retiring)) && th' == At(th, Recycle(m, ThenSearch, StoreFree(Retiring)))
    case _ => a' == a && th' == At(th, Search(PopNext)) // DISCARD: the record would be lost
  }

  ghost predicate ClaimPoppedStep(c: Config, a: Arena, th: Thread, a': Arena, th': Thread, t: ThreadId) {
    && th.pc.Search? && th.pc.search.ClaimPopped? && th.job.Alloc?
    && var m := th.pc.search.m;
    && var w := th.pc.search.w;
    if RecordAt(a, m).word == w && w.block.Some? then
      && a' == SetWord(a, m, RecordAt(a, m).word.WithState(Locked), Held(t, Owned))
      && th' == match th.job.reservation
                case NoRecord => At(th, Bind(w.block.value, m, WriteIndex(false)))
                case WithRecord(r, _) => Holding(th, NoRecord, Recycle(r, ThenBind(w.block.value, m), ClearFields))
    else
      a' == a && th' == At(th, Search(Popped(m)))
  }

  ghost predicate RepushStep(c: Config, a: Arena, th: Thread, a': Arena, th': Thread) {
    && th.pc.Search? && th.pc.search.Repush? && th.job.Alloc?
    && a' == PushBin(a, th.job.bin, th.pc.search.m) && th' == At(th, Search(PopNext))
  }

  ghost predicate SearchStep(c: Config, a: Arena, th: Thread, a': Arena, th': Thread, t: ThreadId) {
    || ReadyStep(c, a, th, a', th')
    || PopNextStep(c, a, th, a', th', t)
    || PoppedStep(c, a, th, a', th', t)
    || ClaimPoppedStep(c, a, th, a', th', t)
    || RepushStep(c, a, th, a', th')
  }

  // ----- recycle_metadata -----

  ghost predicate ClearFieldsStep(c: Config, a: Arena, th: Thread, a': Arena, th': Thread, t: ThreadId) {
    && th.pc.Recycle? && th.pc.recycle.ClearFields?
    && a' == SetTotalSize(a, th.pc.m, 0, Held(t, Reserved))
    && th' == At(th, Recycle(th.pc.m, th.pc.next, StoreFree(Reserved)))
  }

  ghost predicate StoreFreeStep(c: Config, a: Arena, th: Thread, a': Arena, th': Thread, t: ThreadId) {
    && th.pc.Recycle? && th.pc.recycle.StoreFree?
    && var m := th.pc.m;
    && var stored := SetWord(a, m, Word(None, MetadataAvailable, RecordAt(a, m).word.version), Held(t, Recycling));
    && a' == (if th.pc.recycle.phase.Rolling? then stored.(flag := Up(t, NoClaim)) else stored)
    && th' == At(th, Recycle(m, th.pc.next, PushFree))
  }

  ghost predicate PushFreeStep(c: Config, a: Arena, th: Thread, a': Arena, th': Thread, t: ThreadId) {
    && th.pc.Recycle? && th.pc.recycle.PushFree?
    && a' == PushFreeRecord(a, t, th.pc.m) && th' == At(th, Recycle(th.pc.m, th.pc.next, ReleaseManager))
  }

  ghost predicate ReleaseManagerStep(c: Config, a: Arena, th: Thread, a': Arena, th': Thread, t: ThreadId) {
    && th.pc.Recycle? && th.pc.recycle.ReleaseManager?
    && a' == ReleaseSlot(a, t, ManagerOf(th.pc.m)) && th' == Resume(th, th.pc.next)
  }

  ghost predicate RecycleStep(c: Config, a: Arena, th: Thread, a': Arena, th': Thread, t: ThreadId) {
    || ClearFieldsStep(c, a, th, a', th', t)
    || StoreFreeStep(c, a, th, a', th', t)
    || PushFreeStep(c, a, th, a', th', t)
    || ReleaseManagerStep(c, a, th, a', th', t)
  }

  // ----- get_next_metadata_record_index and grow_metadata_region -----

  predicate SlotFree(a: Arena, k: nat) {
    k < |a.managers| && a.managers[k].trimmer.NotTrimming? && a.managers[k].activeCount < ACTIVE_COUNT_MASK
  }

  ghost predicate LoadCountStep(c: Config, a: Arena, th: Thread, a': Arena, th': Thread) {
    && th.pc == Reserve(LoadCount) && a' == a
    && th' == At(th, Reserve(if a.count > 0 then ScanManager(a.count, 0) else GrowFrom(a.count)))
  }

  ghost predicate ScanManagerStep(c: Config, a: Arena, th: Thread, a': Arena, th': Thread, t: ThreadId) {
    && th.pc.Reserve? && th.pc.reserve.ScanManager?
    && var (count, k) := (th.pc.reserve.count, th.pc.reserve.k);
    if count == 0 || k > ManagerOf(count - 1) then a' == a && th' == At(th, Reserve(GrowFrom(count)))
    else if SlotFree(a, k) then a' == ReserveSlot(a, t, k) && th' == At(th, Reserve(PopFree(count, k)))
    else a' == a && th' == At(th, Reserve(ScanManager(count, k + 1)))
  }

  ghost predicate PopFreeStep(c: Config, a: Arena, th: Thread, a': Arena, th': Thread, t: ThreadId) {
    && th.pc.Reserve? && th.pc.reserve.PopFree? && th.job.Alloc?
    && var (count, k) := (th.pc.reserve.count, th.pc.reserve.k);
    if ManagerAt(a, k).freeList == {} then a' == a && th' == At(th, Reserve(DropSlot(count, k)))
    else
      && th'.job.Alloc? && th'.job.reservation.WithRecord?
      && var m := th'.job.reservation.m;
      && m in ManagerAt(a, k).freeList
      && a' == PopFreeRecord(a, t, k, m) && th' == Holding(th, WithRecord(m, 0), Cut(LoadFrontier))
  }

  ghost predicate DropSlotStep(c: Config, a: Arena, th: Thread, a': Arena, th': Thread, t: ThreadId) {
    && th.pc.Reserve? && th.pc.reserve.DropSlot?
    && var (count, k) := (th.pc.reserve.count, th.pc.reserve.k);
    a' == ReleaseSlot(a, t, k) && th' == At(th, Reserve(ScanManager(count, k + 1)))
  }

  ghost predicate GrowFromStep(c: Config, a: Arena, th: Thread, a': Arena, th': Thread, t: ThreadId) {
    && th.pc.Reserve? && th.pc.reserve.GrowFrom?
    && var count := th.pc.reserve.count;
    if ManagerOf(count) >= c.managerCapacity then a' == a && th' == Idle
    else if SlotFree(a, ManagerOf(count)) then
      a' == ReserveSlot(a, t, ManagerOf(count)) && th' == At(th, Reserve(CheckFrontier(count)))
    else a' == a && th' == At(th, Reserve(ReloadCount))
  }

  ghost predicate ReloadCountStep(c: Config, a: Arena, th: Thread, a': Arena, th': Thread) {
    th.pc == Reserve(ReloadCount) && a' == a && th' == At(th, Reserve(GrowFrom(a.count)))
  }

  /** The far end of the new record is at metadataStart - (count + 1). */
  ghost predicate CheckFrontierStep(c: Config, a: Arena, th: Thread, a': Arena, th': Thread) {
    && th.pc.Reserve? && th.pc.reserve.CheckFrontier? && a' == a
    && var count := th.pc.reserve.count;
    th' == At(th, Reserve(if c.metadataStart - (count + 1) <= a.frontier then GrowGiveUp(ManagerOf(count)) else GrowCas(count)))
  }

  ghost predicate GrowCasStep(c: Config, a: Arena, th: Thread, a': Arena, th': Thread, t: ThreadId) {
    && th.pc.Reserve? && th.pc.reserve.GrowCas?
    && var count := th.pc.reserve.count;
    if a.count == count then
      && (exists word: Word, totalSize: nat :: word.version < VERSION_LIMIT && NamesNoBlock(word) && a' == Grow(a, t, word, totalSize))
      && th' == At(th, Reserve(GrowRecheck(count)))
    else a' == a && th' == At(th, Reserve(GrowRetry(ManagerOf(count), a.count)))
  }

  ghost predicate GrowRetryStep(c: Config, a: Arena, th: Thread, a': Arena, th': Thread, t: ThreadId) {
    && th.pc.Reserve? && th.pc.reserve.GrowRetry?
    && a' == ReleaseSlot(a, t, th.pc.reserve.k) && th' == At(th, Reserve(GrowFrom(th.pc.reserve.count)))
  }

  ghost predicate GrowRecheckStep(c: Config, a: Arena, th: Thread, a': Arena, th': Thread, t: ThreadId) {
    && th.pc.Reserve? && th.pc.reserve.GrowRecheck? && th.job.Alloc?
    && var count := th.pc.reserve.count;
    if c.metadataStart - (count + 1) > a.frontier then
      && a' == SetOwner(a, count, Held(t, Reserved))
      && th' == Holding(th, WithRecord(count, 0), Cut(LoadFrontier))
    else a' == a && th' == At(th, Reserve(GrowUndo(count)))
  }

  /** Gives the record back if it is still the last; otherwise checks again whether it can be kept. */
  ghost predicate GrowUndoStep(c: Config, a: Arena, th: Thread, a': Arena, th': Thread, t: ThreadId) {
    && th.pc.Reserve? && th.pc.reserve.GrowUndo?
    && var count := th.pc.reserve.count;
    if a.count == count + 1 then
      a' == UndoGrow(a, t, count) && th' == At(th, Reserve(GrowGiveUp(ManagerOf(count))))
    else a' == a && th' == At(th, Reserve(GrowRecheck(count)))
  }

  ghost predicate GrowGiveUpStep(c: Config, a: Arena, th: Thread, a': Arena, th': Thread, t: ThreadId) {
    && th.pc.Reserve? && th.pc.reserve.GrowGiveUp?
    && a' == ReleaseSlot(a, t, th.pc.reserve.k) && th' == Idle
  }

  ghost predicate ReserveStep(c: Config, a: Arena, th: Thread, a': Arena, th': Thread, t: ThreadId) {
    || LoadCountStep(c, a, th, a', th')
    || ScanManagerStep(c, a, th, a', th', t)
    || PopFreeStep(c, a, th, a', th', t)
    || DropSlotStep(c, a, th, a', th', t)
    || GrowFromStep(c, a, th, a', th', t)
    || ReloadCountStep(c, a, th, a', th')
    || CheckFrontierStep(c, a, th, a', th')
    || GrowCasStep(c, a, th, a', th', t)
    || GrowRetryStep(c, a, th, a', th', t)
    || GrowRecheckStep(c, a, th, a', th', t)
    || GrowUndoStep(c, a, th, a', th', t)
    || GrowGiveUpStep(c, a, th, a', th', t)
  }

  // ----- get_next_empty_memory_block -----

  ghost predicate LoadFrontierStep(c: Config, a: Arena, th: Thread, a': Arena, th': Thread) {
    th.pc == Cut(LoadFrontier) && a' == a && th' == At(th, Cut(CheckCount(WordOf(a))))
  }

  ghost predicate CheckCountStep(c: Config, a: Arena, th: Thread, a': Arena, th': Thread) {
    && th.pc.Cut? && th.pc.cut.CheckCount? && th.job.Alloc? && a' == a
    && var word := th.pc.cut.word;
    th' == At(th, if OverlapsMetadata(c, a, word.frontier + ClassSize(c, th.job)) then Ready else Cut(CarveCas(word)))
  }

  ghost predicate CarveCasStep(c: Config, a: Arena, th: Thread, a': Arena, th': Thread, t: ThreadId) {
    && th.pc.Cut? && th.pc.cut.CarveCas? && th.job.Alloc?
    && var word := th.pc.cut.word;
    if WordOf(a) == word then
      && (exists garbage :: a' == Carve(a, t, ClassSize(c, th.job), garbage))
      && th' == At(th, Cut(CarveRecheck(word)))
    else a' == a && th' == At(th, Cut(CheckCount(WordOf(a))))
  }

  ghost predicate CarveRecheckStep(c: Config, a: Arena, th: Thread, a': Arena, th': Thread, t: ThreadId) {
    && th.pc.Cut? && th.pc.cut.CarveRecheck? && th.job.Alloc?
    && var word := th.pc.cut.word;
    if !OverlapsMetadata(c, a, word.frontier + ClassSize(c, th.job)) then
      a' == SetHolder(a, word.frontier, Carved(t, true)) && th' == At(th, Cut(WriteSize(word)))
    else a' == a && th' == At(th, Cut(CarveUndo(word)))
  }

  /** Gives the block back if it is still on top; otherwise checks again whether it can be kept. */
  ghost predicate CarveUndoStep(c: Config, a: Arena, th: Thread, a': Arena, th': Thread) {
    && th.pc.Cut? && th.pc.cut.CarveUndo? && th.job.Alloc?
    && var word := th.pc.cut.word;
    if WordOf(a) == FrontierWord(Some(word.frontier), word.frontier + ClassSize(c, th.job)) then
      a' == DropBlock(a, word.frontier, word.predecessor) && th' == At(th, Ready)
    else a' == a && th' == At(th, Cut(CarveRecheck(word)))
  }

  ghost predicate WriteSizeStep(c: Config, a: Arena, th: Thread, a': Arena, th': Thread) {
    && th.pc.Cut? && th.pc.cut.WriteSize? && th.job.Alloc?
    && var word := th.pc.cut.word;
    && a' == SetHeader(a, word.frontier, HeaderAt(a, word.frontier).(size := ClassSize(c, th.job)))
    && th' == At(th, Cut(WritePrevious(word)))
  }

  ghost predicate WritePreviousStep(c: Config, a: Arena, th: Thread, a': Arena, th': Thread) {
    && th.pc.Cut? && th.pc.cut.WritePrevious? && th.job.Alloc? && th.job.reservation.WithRecord?
    && var word := th.pc.cut.word;
    && a' == SetHeader(a, word.frontier, HeaderAt(a, word.frontier).(previous := word.predecessor))
    && th' == Holding(th, NoRecord, Bind(word.frontier, th.job.reservation.m, WriteIndex(true)))
  }

  ghost predicate CutStep(c: Config, a: Arena, th: Thread, a': Arena, th': Thread, t: ThreadId) {
    || LoadFrontierStep(c, a, th, a', th')
    || CheckCountStep(c, a, th, a', th')
    || CarveCasStep(c, a, th, a', th', t)
    || CarveRecheckStep(c, a, th, a', th', t)
    || CarveUndoStep(c, a, th, a', th')
    || WriteSizeStep(c, a, th, a', th')
    || WritePreviousStep(c, a, th, a', th')
  }

  // ----- the end of do_allocate -----

  ghost predicate WriteIndexStep(c: Config, a: Arena, th: Thread, a': Arena, th': Thread) {
    && th.pc.Bind? && th.pc.bind.WriteIndex?
    && a' == SetHeader(a, th.pc.b, HeaderAt(a, th.pc.b).(metadataIndex := th.pc.m))
    && th' == At(th, Bind(th.pc.b, th.pc.m, StoreInUse(th.pc.bind.carved)))
  }

  ghost predicate StoreInUseStep(c: Config, a: Arena, th: Thread, a': Arena, th': Thread, t: ThreadId) {
    && th.pc.Bind? && th.pc.bind.StoreInUse?
    && a' == BindRecord(a, t, th.pc.m, th.pc.b) && th' == At(th, Bind(th.pc.b, th.pc.m, StoreSize))
  }

  ghost predicate StoreSizeStep(c: Config, a: Arena, th: Thread, a': Arena, th': Thread, t: ThreadId) {
    && th.pc.Bind? && th.pc.bind.StoreSize?
    && a' == SetTotalSize(a, th.pc.m, HeaderAt(a, th.pc.b).size, Held(t, Filled))
    && th' == At(th, Bind(th.pc.b, th.pc.m, Return))
  }

  ghost predicate ReturnStep(c: Config, a: Arena, th: Thread, a': Arena, th': Thread) {
    && th.pc.Bind? && th.pc.bind.Return? && th.job.Alloc?
    && a' == ReturnBlock(a, th.pc.m, th.pc.b, th.job.bytes) && th' == Idle
  }

  ghost predicate BindStep(c: Config, a: Arena, th: Thread, a': Arena, th': Thread, t: ThreadId) {
    || WriteIndexStep(c, a, th, a', th')
    || StoreInUseStep(c, a, th, a', th', t)
    || StoreSizeStep(c, a, th, a', th', t)
    || ReturnStep(c, a, th, a', th')
  }

  // ----- do_try_deallocate -----

  /** Any address may be passed; in front of one that is no block lies whatever the arena holds there. */
  ghost predicate ReadIndexStep(c: Config, a: Arena, th: Thread, a': Arena, th': Thread) {
    && th.pc.Free? && th.pc.free.ReadIndex? && a' == a && th'.pc.Free? && th'.pc.free.CheckIndex?
    && var b := th.pc.free.b;
    && th' == At(th, Free(CheckIndex(b, th'.pc.free.m)))
    && (b in a.headers ==> th'.pc.free.m == a.headers[b].metadataIndex)
  }

  ghost predicate CheckIndexStep(c: Config, a: Arena, th: Thread, a': Arena, th': Thread) {
    && th.pc.Free? && th.pc.free.CheckIndex? && a' == a
    && th' == At(th, if th.pc.free.m >= a.count then Ready else Free(ReadWord(th.pc.free.b, th.pc.free.m)))
  }

  ghost predicate ReadWordStep(c: Config, a: Arena, th: Thread, a': Arena, th': Thread) {
    && th.pc.Free? && th.pc.free.ReadWord? && a' == a
    && var w := RecordAt(a, th.pc.free.m).word;
    th' == At(th, if w.state != InUse || w.block != Some(th.pc.free.b) then Ready
                  else Free(AcceptCas(th.pc.free.b, th.pc.free.m, w)))
  }

  /** The CAS that accepts a free, of whatever address and however often it was freed before. */
  ghost predicate AcceptCasStep(c: Config, a: Arena, th: Thread, a': Arena, th': Thread, t: ThreadId) {
    && th.pc.Free? && th.pc.free.AcceptCas?
    && var m := th.pc.free.m;
    if RecordAt(a, m).word == th.pc.free.w then
      && a' == AcceptFree(a, t, m, th.pc.free.b) && th' == At(th, Free(StorePending(m)))
    else a' == a && th' == At(th, Ready)
  }

  ghost predicate StorePendingStep(c: Config, a: Arena, th: Thread, a': Arena, th': Thread, t: ThreadId) {
    && th.pc.Free? && th.pc.free.StorePending?
    && var m := th.pc.free.m;
    && a' == SetWord(a, m, RecordAt(a, m).word.WithState(DeallocatedPending), Held(t, Queued))
    && th' == At(th, Free(PushPendingList(m)))
  }

  ghost predicate PushPendingStep(c: Config, a: Arena, th: Thread, a': Arena, th': Thread) {
    && th.pc.Free? && th.pc.free.PushPendingList?
    && a' == PushPending(a, th.pc.free.m) && th' == At(th, Ready)
  }

  ghost predicate FreeStep(c: Config, a: Arena, th: Thread, a': Arena, th': Thread, t: ThreadId) {
    || ReadIndexStep(c, a, th, a', th')
    || CheckIndexStep(c, a, th, a', th')
    || ReadWordStep(c, a, th, a', th')
    || AcceptCasStep(c, a, th, a', th', t)
    || StorePendingStep(c, a, th, a', th', t)
    || PushPendingStep(c, a, th, a', th')
  }

  // ----- run_maintenance_window -----

  /** steal_pending_deallocation_list: which blocks the target shard's list holds is not modelled. */
  ghost predicate StealStep(c: Config, a: Arena, th: Thread, a': Arena, th': Thread, t: ThreadId) {
    && th.pc.Steal?
    && if th'.pc.Window? then
         && th'.pc.todo != {} && th'.pc.todo <= a.pendingList
         && a' == StealPending(a, t, th'.pc.todo) && th' == At(th, Window(th'.pc.todo, {}, Collect))
       else a' == a && th' == At(th, Walk(RaiseForWalk))
  }

  function InWindow(th: Thread, window: WindowPc): Thread
    requires th.pc.Window?
  {
    At(th, Window(th.pc.todo, th.pc.batch, window))
  }

  /** The stolen list is worked off in batches, whose size is bounded by a template parameter. */
  ghost predicate CollectStep(c: Config, a: Arena, th: Thread, a': Arena, th': Thread) {
    && th.pc.Window? && th.pc.window.Collect? && a' == a
    && if th.pc.todo == {} then th' == At(th, Steal)
       else
         && th'.pc.Window? && th'.pc.batch != {} && th'.pc.batch <= th.pc.todo
         && th' == At(th, Window(th.pc.todo - th'.pc.batch, th'.pc.batch, RaiseForBatch))
  }

  ghost predicate RaiseForBatchStep(c: Config, a: Arena, th: Thread, a': Arena, th': Thread, t: ThreadId) {
    && th.pc.Window? && th.pc.window.RaiseForBatch?
    && if a.flag.Down? then a' == a.(flag := Up(t, NoClaim)) && th' == InWindow(th, ScanBatch)
       else a' == a && th' == InWindow(th, PublishNext)
  }

  ghost predicate ScanBatchStep(c: Config, a: Arena, th: Thread, a': Arena, th': Thread) {
    th.pc.Window? && th.pc.window.ScanBatch? && a' == a && th' == InWindow(th, PickCandidate(WordOf(a)))
  }

  /** Record m is a DEALLOCATED_PENDING block that ends at the loaded frontier. */
  predicate EndsAt(a: Arena, m: RecordIndex, frontier: Address) {
    var rec := RecordAt(a, m);
    rec.word.state.DeallocatedPending? && rec.word.block.Some? && rec.word.block.value + rec.totalSize == frontier
  }

  ghost predicate PickCandidateStep(c: Config, a: Arena, th: Thread, a': Arena, th': Thread) {
    && th.pc.Window? && th.pc.window.PickCandidate? && a' == a
    && var word := th.pc.window.word;
    if th'.pc.Window? && th'.pc.window.ClaimCandidate? then
      && var m := th'.pc.window.m;
      && m in th.pc.batch && EndsAt(a, m, word.frontier)
      && th' == InWindow(th, ClaimCandidate(word, m))
    else
      && (forall m :: m in th.pc.batch ==> !EndsAt(a, m, word.frontier))
      && th' == InWindow(th, LowerAfterBatch)
  }

  ghost predicate ClaimCandidateStep(c: Config, a: Arena, th: Thread, a': Arena, th': Thread, t: ThreadId) {
    && th.pc.Window? && th.pc.window.ClaimCandidate?
    && var m := th.pc.window.m;
    if RecordAt(a, m).word.state.DeallocatedPending? then
      && a' == SetOwner(SetStateUnderFlag(a, m, FrontierReclaimInProgress, Up(t, Claimed(m))), m, Held(t, Rolling))
      && th' == At(th, Window(th.pc.todo, th.pc.batch - {m}, RollBatch(th.pc.window.word, m)))
    else a' == a && th' == InWindow(th, ScanBatch)
  }

  ghost predicate RollBatchStep(c: Config, a: Arena, th: Thread, a': Arena, th': Thread, t: ThreadId) {
    && th.pc.Window? && th.pc.window.RollBatch?
    && var m := th.pc.window.m;
    && var b := RecordAt(a, m).word.block.GetOr(0);
    if WordOf(a) == th.pc.window.word then
      && a' == DropBlock(a, b, HeaderAt(a, b).previous).(flag := Up(t, RolledBack(m)))
      && th' == At(th, Recycle(m, ThenScan(th.pc.todo, th.pc.batch), StoreFree(Rolling)))
    else a' == a && th' == InWindow(th, RestoreBatch(m))
  }

  ghost predicate RestoreBatchStep(c: Config, a: Arena, th: Thread, a': Arena, th': Thread, t: ThreadId) {
    && th.pc.Window? && th.pc.window.RestoreBatch?
    && var m := th.pc.window.m;
    && a' == (if RecordAt(a, m).word.state.FrontierReclaimInProgress?
              then SetOwner(SetStateUnderFlag(a, m, DeallocatedPending, Up(t, NoClaim)), m, Held(t, Queued)) else a)
    && th' == At(th, Window(th.pc.todo, th.pc.batch + {m}, ScanBatch))
  }

  ghost predicate LowerAfterBatchStep(c: Config, a: Arena, th: Thread, a': Arena, th': Thread) {
    && th.pc.Window? && th.pc.window.LowerAfterBatch?
    && a' == a.(flag := Down) && th' == InWindow(th, PublishNext)
  }

  /** A batch entry that is not DEALLOCATED_PENDING would be skipped, and lost. */
  ghost predicate PublishNextStep(c: Config, a: Arena, th: Thread, a': Arena, th': Thread, t: ThreadId) {
    && th.pc.Window? && th.pc.window.PublishNext?
    && if th.pc.batch == {} then a' == a && th' == InWindow(th, Collect)
       else exists m :: m in th.pc.batch && PublishOne(a, th, a', th', t, m)
  }

  ghost predicate PublishOne(a: Arena, th: Thread, a': Arena, th': Thread, t: ThreadId, m: RecordIndex)
    requires th.pc.Window?
  {
    if RecordAt(a, m).word.state.DeallocatedPending? then
      && a' == SetWord(a, m, RecordAt(a, m).word.WithState(Available), Held(t, Loose))
      && th' == At(th, Window(th.pc.todo, th.pc.batch - {m}, PushPublished(m)))
    else a' == a && th' == At(th, Window(th.pc.todo, th.pc.batch - {m}, PublishNext))
  }

  ghost predicate PushPublishedStep(c: Config, a: Arena, th: Thread, a': Arena, th': Thread) {
    && th.pc.Window? && th.pc.window.PushPublished?
    && var m := th.pc.window.m;
    && a' == PushBin(a, BinIndex(c, RecordAt(a, m).totalSize), m) && th' == InWindow(th, PublishNext)
  }

  ghost predicate WindowStep(c: Config, a: Arena, th: Thread, a': Arena, th': Thread, t: ThreadId) {
    || StealStep(c, a, th, a', th', t)
    || CollectStep(c, a, th, a', th')
    || RaiseForBatchStep(c, a, th, a', th', t)
    || ScanBatchStep(c, a, th, a', th')
    || PickCandidateStep(c, a, th, a', th')
    || ClaimCandidateStep(c, a, th, a', th', t)
    || RollBatchStep(c, a, th, a', th', t)
    || RestoreBatchStep(c, a, th, a', th', t)
    || LowerAfterBatchStep(c, a, th, a', th')
    || PublishNextStep(c, a, th, a', th', t)
    || PushPublishedStep(c, a, th, a', th')
  }

  // ----- try_reclaim_frontier_blocks -----

  ghost predicate RaiseForWalkStep(c: Config, a: Arena, th: Thread, a': Arena, th': Thread, t: ThreadId) {
    && th.pc == Walk(RaiseForWalk)
    && if a.flag.Down? then a' == a.(flag := Up(t, NoClaim)) && th' == At(th, Walk(LoadForWalk))
       else a' == a && th' == At(th, Trim(LoadForTrim))
  }

  ghost predicate LoadForWalkStep(c: Config, a: Arena, th: Thread, a': Arena, th': Thread) {
    && th.pc == Walk(LoadForWalk) && a' == a
    && th' == At(th, Walk(if a.predecessor.None? then LowerAfterWalk else ReadWalkIndex(WordOf(a))))
  }

  /** The loaded predecessor may be gone by now, and its header with it. */
  ghost predicate ReadWalkIndexStep(c: Config, a: Arena, th: Thread, a': Arena, th': Thread) {
    && th.pc.Walk? && th.pc.walk.ReadWalkIndex? && a' == a && th'.pc.Walk? && th'.pc.walk.CheckWalkIndex?
    && var word := th.pc.walk.word;
    && th' == At(th, Walk(CheckWalkIndex(word, th'.pc.walk.m)))
    && (word.predecessor.Some? && word.predecessor.value in a.headers ==>
          th'.pc.walk.m == a.headers[word.predecessor.value].metadataIndex)
  }

  ghost predicate CheckWalkIndexStep(c: Config, a: Arena, th: Thread, a': Arena, th': Thread) {
    && th.pc.Walk? && th.pc.walk.CheckWalkIndex? && a' == a
    && th' == At(th, Walk(if th.pc.walk.m >= a.count then LowerAfterWalk else ReadWalkWord(th.pc.walk.word, th.pc.walk.m)))
  }

  ghost predicate ReadWalkWordStep(c: Config, a: Arena, th: Thread, a': Arena, th': Thread) {
    && th.pc.Walk? && th.pc.walk.ReadWalkWord? && a' == a
    && var word := th.pc.walk.word;
    && var w := RecordAt(a, th.pc.walk.m).word;
    th' == At(th, Walk(if word.predecessor.None? || w.block != word.predecessor || w.state != Available then LowerAfterWalk
                       else WalkCas(word, th.pc.walk.m, w)))
  }

  ghost predicate WalkCasStep(c: Config, a: Arena, th: Thread, a': Arena, th': Thread, t: ThreadId) {
    && th.pc.Walk? && th.pc.walk.WalkCas?
    && var m := th.pc.walk.m;
    if RecordAt(a, m).word == th.pc.walk.w then
      && a' == SetStateUnderFlag(a, m, FrontierReclaimInProgress, Up(t, Claimed(m)))
      && th' == At(th, Walk(RollWalk(th.pc.walk.word, m)))
    else a' == a && th' == At(th, Walk(LowerAfterWalk))
  }

  ghost predicate RollWalkStep(c: Config, a: Arena, th: Thread, a': Arena, th': Thread, t: ThreadId) {
    && th.pc.Walk? && th.pc.walk.RollWalk?
    && var m := th.pc.walk.m;
    && var b := th.pc.walk.word.predecessor.GetOr(0);
    if WordOf(a) == th.pc.walk.word then
      && a' == DropBlock(a, b, HeaderAt(a, b).previous).(flag := Up(t, RolledBack(m)))
      && th' == At(th, Walk(FinishWalk(m)))
    else a' == a && th' == At(th, Walk(RestoreWalk(m)))
  }

  ghost predicate RestoreWalkStep(c: Config, a: Arena, th: Thread, a': Arena, th': Thread, t: ThreadId) {
    && th.pc.Walk? && th.pc.walk.RestoreWalk?
    && var m := th.pc.walk.m;
    && a' == (if RecordAt(a, m).word.state.FrontierReclaimInProgress?
              then SetStateUnderFlag(a, m, Available, Up(t, NoClaim)) else a)
    && th' == At(th, Walk(LowerAfterWalk))
  }

  ghost predicate FinishWalkStep(c: Config, a: Arena, th: Thread, a': Arena, th': Thread, t: ThreadId) {
    && th.pc.Walk? && th.pc.walk.FinishWalk?
    && a' == SetStateUnderFlag(a, th.pc.walk.m, FrontierReclaimed, Up(t, NoClaim)) && th' == At(th, Walk(LoadForWalk))
  }

  ghost predicate LowerAfterWalkStep(c: Config, a: Arena, th: Thread, a': Arena, th': Thread) {
    th.pc == Walk(LowerAfterWalk) && a' == a.(flag := Down) && th' == At(th, Trim(LoadForTrim))
  }

  ghost predicate WalkStep(c: Config, a: Arena, th: Thread, a': Arena, th': Thread, t: ThreadId) {
    || RaiseForWalkStep(c, a, th, a', th', t)
    || LoadForWalkStep(c, a, th, a', th')
    || ReadWalkIndexStep(c, a, th, a', th')
    || CheckWalkIndexStep(c, a, th, a', th')
    || ReadWalkWordStep(c, a, th, a', th')
    || WalkCasStep(c, a, th, a', th', t)
    || RollWalkStep(c, a, th, a', th', t)
    || RestoreWalkStep(c, a, th, a', th', t)
    || FinishWalkStep(c, a, th, a', th', t)
    || LowerAfterWalkStep(c, a, th, a', th')
  }

  // ----- trim_metadata_records -----

  ghost predicate LoadForTrimStep(c: Config, a: Arena, th: Thread, a': Arena, th': Thread) {
    && th.pc == Trim(LoadForTrim) && a' == a
    && th' == At(th, if a.count == 0 || ManagerOf(a.count - 1) >= c.managerCapacity then Ready
                     else Trim(ClaimManager(a.count, ManagerOf(a.count - 1))))
  }

  ghost predicate ClaimManagerStep(c: Config, a: Arena, th: Thread, a': Arena, th': Thread, t: ThreadId) {
    && th.pc.Trim? && th.pc.trim.ClaimManager?
    && var (count, k) := (th.pc.trim.count, th.pc.trim.k);
    if ManagerAt(a, k).activeCount == 0 && ManagerAt(a, k).trimmer.NotTrimming? then
      a' == SetTrimmer(a, k, Trimming(t)) && th' == At(th, Trim(CheckTrim(count, k)))
    else a' == a && th' == At(th, Ready)
  }

  ghost predicate CheckTrimStep(c: Config, a: Arena, th: Thread, a': Arena, th': Thread) {
    && th.pc.Trim? && th.pc.trim.CheckTrim? && a' == a
    && var (count, k) := (th.pc.trim.count, th.pc.trim.k);
    th' == At(th, Trim(if a.count == count then ShrinkCas(count, k) else OpenManager(k)))
  }

  ghost predicate ShrinkCasStep(c: Config, a: Arena, th: Thread, a': Arena, th': Thread, t: ThreadId) {
    && th.pc.Trim? && th.pc.trim.ShrinkCas?
    && var (count, k) := (th.pc.trim.count, th.pc.trim.k);
    if a.count == count then
      a' == Shrink(a, t, k, k * RECORDS_PER_BLOCK) && th' == At(th, Trim(ClearList(k)))
    else a' == a && th' == At(th, Trim(OpenManager(k)))
  }

  ghost predicate ClearListStep(c: Config, a: Arena, th: Thread, a': Arena, th': Thread, t: ThreadId) {
    && th.pc.Trim? && th.pc.trim.ClearList?
    && a' == ClearFreeList(a, t, th.pc.trim.k) && th' == At(th, Trim(OpenManager(th.pc.trim.k)))
  }

  ghost predicate OpenManagerStep(c: Config, a: Arena, th: Thread, a': Arena, th': Thread) {
    && th.pc.Trim? && th.pc.trim.OpenManager?
    && a' == SetTrimmer(a, th.pc.trim.k, NotTrimming) && th' == At(th, Trim(LoadForTrim))
  }

  ghost predicate TrimStep(c: Config, a: Arena, th: Thread, a': Arena, th': Thread, t: ThreadId) {
    || LoadForTrimStep(c, a, th, a', th')
    || ClaimManagerStep(c, a, th, a', th', t)
    || CheckTrimStep(c, a, th, a', th')
    || ShrinkCasStep(c, a, th, a', th', t)
    || ClearListStep(c, a, th, a', th', t)
    || OpenManagerStep(c, a, th, a', th')
  }

  // ----- runs -----

  ghost predicate ThreadStep(c: Config, a: Arena, th: Thread, a': Arena, th': Thread, t: ThreadId) {
    || SearchStep(c, a, th, a', th', t)
    || RecycleStep(c, a, th, a', th', t)
    || ReserveStep(c, a, th, a', th', t)
    || CutStep(c, a, th, a', th', t)
    || BindStep(c, a, th, a', th', t)
    || FreeStep(c, a, th, a', th', t)
    || WindowStep(c, a, th, a', th', t)
    || WalkStep(c, a, th, a', th', t)
    || TrimStep(c, a, th, a', th', t)
  }

  /** Any number of threads: those the map does not mention are between calls. */
  datatype System = System(arena: Arena, threads: map<ThreadId, Thread>)

  function ThreadAt(s: System, t: ThreadId): Thread {
    if t in s.threads then s.threads[t] else Idle
  }

  ghost predicate Init(c: Config, s: System) {
    && s.threads == map[]
    && s.arena.frontier == 0 && s.arena.predecessor == None && s.arena.count == 0 && s.arena.records == map[]
    && |s.arena.managers| == c.managerCapacity
    && (forall k :: 0 <= k < |s.arena.managers| ==> s.arena.managers[k] == Manager(0, NotTrimming, {}, {}))
    && s.arena.headers == map[] && s.arena.pendingList == {} && s.arena.bins == {} && s.arena.flag == Down
    && s.arena.chain == map[] && s.arena.holders == map[] && s.arena.owners == map[] && s.arena.live == map[]
  }

  ghost predicate StepBy(c: Config, s: System, s': System, t: ThreadId) {
    && ThreadStep(c, s.arena, ThreadAt(s, t), s'.arena, ThreadAt(s', t), t)
    && (forall u {:trigger ThreadAt(s', u)} :: u != t ==> ThreadAt(s', u) == ThreadAt(s, u))
  }

  ghost predicate Next(c: Config, s: System, s': System) {
    exists t :: StepBy(c, s, s', t)
  }

  ghost predicate NextAt(c: Config, run: seq<System>, i: nat)
    requires i + 1 < |run|
  {
    Next(c, run[i], run[i + 1])
  }

  /** A finite run: the states after each step. */
  ghost predicate IsRun(c: Config, run: seq<System>) {
    && |run| > 0 && Init(c, run[0])
    && (forall i {:trigger NextAt(c, run, i)} :: 0 <= i < |run| - 1 ==> NextAt(c, run, i))
  }

  // ----- the client's side of the contract -----

  /** Some do_allocate has stored IN_USE for the block at b and has not yet returned its address. */
  ghost predicate InFlight(s: System, b: Address) {
    exists u {:trigger ThreadAt(s, u)} :: AllocatesAt(ThreadAt(s, u).pc, b)
  }

  predicate AllocatesAt(pc: Pc, b: Address) {
    pc.Bind? && pc.b == b && (pc.bind.StoreSize? || pc.bind.Return?)
  }

  /** The next step of thread t accepts a free of an address whose allocation is in flight. */
  ghost predicate FreesInFlight(s: System, t: ThreadId) {
    var pc := ThreadAt(s, t).pc;
    pc.Free? && pc.free.AcceptCas? && RecordAt(s.arena, pc.free.m).word == pc.free.w && InFlight(s, pc.free.b)
  }

  ghost predicate OrderlyAt(c: Config, run: seq<System>, i: nat)
    requires i + 1 < |run|
  {
    exists t :: StepBy(c, run[i], run[i + 1], t) && !FreesInFlight(run[i], t)
  }

  /**
    No free is accepted while an allocation of the same address is in flight.  total_size_ and the return
    come after IN_USE, so the code does not enforce it; ArenaCarefulClient shows what a client has to do.
   */
  ghost predicate Orderly(c: Config, run: seq<System>) {
    forall i {:trigger OrderlyAt(c, run, i)} :: 0 <= i < |run| - 1 ==> OrderlyAt(c, run, i)
  }
}
