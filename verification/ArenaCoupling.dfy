/** What each thread may rely on at each point of its program, whatever the others do. */
module ArenaCoupling {
  import opened Wrappers
  import opened ArenaState
  import opened ArenaOps
  import opened ArenaInvariant
  import opened ArenaThreads

  // ----- what a thread holds -----

  function HeldInSearch(pc: SearchPc, r: RecordIndex): Option<Phase> {
    if !pc.PopNext? && r == pc.m then Some(Loose) else None
  }

  function HeldByContinuation(next: Continuation, r: RecordIndex): Option<Phase> {
    match next
    case ThenScan(todo, batch) => if r in todo || r in batch then Some(Queued) else None
    case ThenBind(_, m) => if r == m then Some(Owned) else None
    case _ => None
  }

  function HeldInRecycle(m: RecordIndex, next: Continuation, pc: RecyclePc, r: RecordIndex): Option<Phase> {
    if r != m then HeldByContinuation(next, r)
    else match pc
         case ClearFields => Some(Reserved)
         case StoreFree(phase) => Some(phase)
         case PushFree => Some(Recycling)
         case ReleaseManager => None
  }

  function HeldInBind(m: RecordIndex, pc: BindPc, r: RecordIndex): Option<Phase> {
    if r != m then None
    else match pc
         case WriteIndex(carved) => Some(if carved then Reserved else Owned)
         case StoreInUse(carved) => Some(if carved then Reserved else Owned)
         case StoreSize => Some(Filling)
         case Return => Some(Filled)
  }

  function HeldInFree(pc: FreePc, r: RecordIndex): Option<Phase> {
    match pc
    case StorePending(m) => if r == m then Some(Owned) else None
    case PushPendingList(m) => if r == m then Some(Queued) else None
    case _ => None
  }

  function HeldInWindow(todo: set<RecordIndex>, batch: set<RecordIndex>, pc: WindowPc, r: RecordIndex): Option<Phase> {
    if r in todo || r in batch then Some(Queued)
    else match pc
         case RollBatch(_, m) => if r == m then Some(Rolling) else None
         case RestoreBatch(m) => if r == m then Some(Rolling) else None
         case PushPublished(m) => if r == m then Some(Loose) else None
         case _ => None
  }

  function HeldAtPc(pc: Pc, r: RecordIndex): Option<Phase> {
    match pc
    case Search(s) => HeldInSearch(s, r)
    case Recycle(m, next, s) => HeldInRecycle(m, next, s, r)
    case Reserve(s) => if (s.GrowRecheck? || s.GrowUndo?) && r == s.count then Some(Growing) else None
    case Bind(_, m, s) => HeldInBind(m, s, r)
    case Free(s) => HeldInFree(s, r)
    case Window(todo, batch, s) => HeldInWindow(todo, batch, s, r)
    case _ => None
  }

  /** The phase in which the thread holds record r, if it does. */
  function HeldBy(th: Thread, r: RecordIndex): Option<Phase> {
    if th.job.Alloc? && th.job.reservation.WithRecord? && th.job.reservation.m == r then Some(Reserved)
    else HeldAtPc(th.pc, r)
  }

  /** The block the thread has cut and not yet bound, and whether it has decided to keep it. */
  function CarvedAt(pc: Pc): Option<(Address, bool)> {
    match pc
    case Cut(CarveRecheck(word)) => Some((word.frontier, false))
    case Cut(CarveUndo(word)) => Some((word.frontier, false))
    case Cut(WriteSize(word)) => Some((word.frontier, true))
    case Cut(WritePrevious(word)) => Some((word.frontier, true))
    case Bind(b, _, WriteIndex(true)) => Some((b, true))
    case Bind(b, _, StoreInUse(true)) => Some((b, true))
    case _ => None
  }

  function SlotInReserve(pc: ReservePc): Option<nat> {
    match pc
    case PopFree(_, k) => Some(k)
    case DropSlot(_, k) => Some(k)
    case CheckFrontier(count) => Some(ManagerOf(count))
    case GrowCas(count) => Some(ManagerOf(count))
    case GrowRetry(k, _) => Some(k)
    case GrowGiveUp(k) => Some(k)
    case _ => None
  }

  /** The manager on which the thread holds a bare slot. */
  function SlotAt(pc: Pc): Option<nat> {
    match pc
    case Recycle(m, _, ReleaseManager) => Some(ManagerOf(m))
    case Reserve(s) => SlotInReserve(s)
    case _ => None
  }

  /** The manager the thread is trimming, and whether it has shrunk the count and not yet cleared the list. */
  function TrimAt(pc: Pc): Option<(nat, bool)> {
    match pc
    case Trim(CheckTrim(_, k)) => Some((k, false))
    case Trim(ShrinkCas(_, k)) => Some((k, false))
    case Trim(ClearList(k)) => Some((k, true))
    case Trim(OpenManager(k)) => Some((k, false))
    case _ => None
  }

  function FlagInWindow(pc: WindowPc): Option<Claim> {
    match pc
    case Collect => None
    case RaiseForBatch => None
    case PublishNext => None
    case PushPublished(_) => None
    case RollBatch(_, m) => Some(Claimed(m))
    case RestoreBatch(m) => Some(Claimed(m))
    case _ => Some(NoClaim)
  }

  function FlagInWalk(pc: WalkPc): Option<Claim> {
    match pc
    case RaiseForWalk => None
    case RollWalk(_, m) => Some(Claimed(m))
    case RestoreWalk(m) => Some(Claimed(m))
    case FinishWalk(m) => Some(RolledBack(m))
    case _ => Some(NoClaim)
  }

  /** What the thread claims under the reclaim flag, if it holds the flag. */
  function FlagAt(pc: Pc): Option<Claim> {
    match pc
    case Recycle(m, next, s) =>
      if s.StoreFree? && s.phase.Rolling? then Some(RolledBack(m)) else if next.ThenScan? then Some(NoClaim) else None
    case Window(_, _, s) => FlagInWindow(s)
    case Walk(s) => FlagInWalk(s)
    case _ => None
  }

  // ----- the auxiliary state agrees with the program counters -----

  ghost predicate RecordMatches(a: Arena, t: ThreadId, th: Thread, r: RecordIndex) {
    HeldBy(th, r) == if r in a.owners && a.owners[r].Held? && a.owners[r].thread == t then Some(a.owners[r].phase) else None
  }

  ghost predicate BlockMatches(a: Arena, t: ThreadId, th: Thread, b: Address) {
    (if b in a.holders && a.holders[b].Carved? && a.holders[b].thread == t then Some((b, a.holders[b].kept)) else None)
    == (if CarvedAt(th.pc).Some? && CarvedAt(th.pc).value.0 == b then CarvedAt(th.pc) else None)
  }

  ghost predicate SlotMatches(a: Arena, t: ThreadId, th: Thread, k: nat) {
    (k < |a.managers| && t in a.managers[k].slots) <==> SlotAt(th.pc) == Some(k)
  }

  ghost predicate TrimMatches(a: Arena, t: ThreadId, th: Thread, k: nat) {
    && ((k < |a.managers| && a.managers[k].trimmer == Trimming(t)) <==> TrimAt(th.pc) == Some((k, false)))
    && ((k < |a.managers| && a.managers[k].trimmer == Shrunk(t)) <==> TrimAt(th.pc) == Some((k, true)))
  }

  ghost predicate FlagMatches(a: Arena, t: ThreadId, th: Thread) {
    FlagAt(th.pc) == if a.flag.Up? && a.flag.thread == t then Some(a.flag.claim) else None
  }

  /** The record the allocation keeps in reserve is not also held at the program counter. */
  ghost predicate ReservedApart(th: Thread) {
    th.job.Alloc? && th.job.reservation.WithRecord? ==> HeldAtPc(th.pc, th.job.reservation.m).None?
  }

  // ----- what the values a thread carries still say about the memory -----

  /** Record m describes a block of the class the thread asked for. */
  ghost predicate RightSize(c: Config, a: Arena, job: Job, m: RecordIndex) {
    m in a.records && a.records[m].totalSize == ClassSize(c, job)
  }

  ghost predicate BindsBlock(c: Config, a: Arena, job: Job, m: RecordIndex, b: Address) {
    RightSize(c, a, job, m) && a.records[m].word.block == Some(b)
  }

  ghost predicate SearchFacts(c: Config, a: Arena, job: Job, pc: SearchPc) {
    match pc
    case PopNext => true
    case Popped(m) => RightSize(c, a, job, m)
    case ClaimPopped(m, w) => RightSize(c, a, job, m) && w.state.Available?
    case Repush(m) => RightSize(c, a, job, m)
  }

  ghost predicate RecycleFacts(c: Config, a: Arena, job: Job, m: RecordIndex, next: Continuation, pc: RecyclePc) {
    && HeldByContinuation(next, m).None?
    && (next.ThenScan? ==> next.todo !! next.batch)
    && (next.ThenBind? ==> BindsBlock(c, a, job, next.record, next.block))
    && (next.ThenBind? || next.ThenFail? ==> job.Alloc? && job.reservation.NoRecord?)
    && (pc.ClearFields? ==> next.ThenBind? || next.ThenFail?)
    && (pc.StoreFree? ==> pc.phase == if next.ThenScan? then Rolling else if next.ThenSearch? then Retiring else Reserved)
  }

  ghost predicate CutFacts(c: Config, a: Arena, job: Job, pc: CutPc) {
    && job.Alloc? && job.reservation.WithRecord?
    && (pc.CarveCas? ==> pc.word.frontier + ClassSize(c, job) < c.metadataStart)
    && (pc.CarveRecheck? || pc.CarveUndo? || pc.WriteSize? || pc.WritePrevious? ==>
          pc.word.frontier in a.chain && a.chain[pc.word.frontier] == Link(ClassSize(c, job), pc.word.predecessor))
    && (pc.WritePrevious? ==> HeaderAt(a, pc.word.frontier).size == ClassSize(c, job))
  }

  ghost predicate BindFacts(c: Config, a: Arena, job: Job, b: Address, m: RecordIndex, pc: BindPc) {
    && job.Alloc? && job.reservation.NoRecord?
    && match pc
       case WriteIndex(true) =>
         && b in a.chain && a.chain[b].size == ClassSize(c, job)
         && HeaderAt(a, b).size == a.chain[b].size && HeaderAt(a, b).previous == a.chain[b].previous
       case StoreInUse(true) =>
         && b in a.chain && a.chain[b].size == ClassSize(c, job)
         && HeaderAt(a, b) == Header(m, a.chain[b].size, a.chain[b].previous)
       case StoreSize =>
         && m in a.records && a.records[m].word.block == Some(b)
         && b in a.chain && a.chain[b].size == ClassSize(c, job)
       case _ => BindsBlock(c, a, job, m, b)
  }

  ghost predicate WindowFacts(a: Arena, todo: set<RecordIndex>, batch: set<RecordIndex>, pc: WindowPc) {
    && todo !! batch
    && match pc
       case Collect => batch == {}
       case ClaimCandidate(word, m) => m in batch && EndsAt(a, m, word.frontier)
       case RollBatch(word, m) =>
         && m !in todo && m !in batch && m in a.records && a.records[m].word.block.Some?
         && a.records[m].word.block.value + a.records[m].totalSize == word.frontier
       case RestoreBatch(m) => m !in todo && m !in batch
       case PushPublished(m) => m !in todo && m !in batch
       case _ => true
  }

  ghost predicate WalkFacts(a: Arena, pc: WalkPc) {
    match pc
    case WalkCas(word, _, w) => word.predecessor.Some? && w.block == word.predecessor && w.state.Available?
    case RollWalk(word, m) => word.predecessor.Some? && m in a.records && a.records[m].word.block == word.predecessor
    case _ => true
  }

  ghost predicate TrimFacts(c: Config, pc: TrimPc) {
    pc.ClaimManager? || pc.CheckTrim? || pc.ShrinkCas? ==>
      pc.k < c.managerCapacity && pc.k * RECORDS_PER_BLOCK < pc.count <= (pc.k + 1) * RECORDS_PER_BLOCK
  }

  ghost predicate PcFacts(c: Config, a: Arena, job: Job, pc: Pc) {
    match pc
    case Search(s) => SearchFacts(c, a, job, s)
    case Recycle(m, next, s) => RecycleFacts(c, a, job, m, next, s)
    case Reserve(_) => job.Alloc? && job.reservation.NoRecord?
    case Cut(s) => CutFacts(c, a, job, s)
    case Bind(b, m, s) => BindFacts(c, a, job, b, m, s)
    case Free(s) => s.AcceptCas? ==> s.w.state.InUse? && s.w.block == Some(s.b)
    case Window(todo, batch, s) => WindowFacts(a, todo, batch, s)
    case Walk(s) => WalkFacts(a, s)
    case Trim(s) => TrimFacts(c, s)
    case _ => true
  }

  ghost predicate JobFacts(c: Config, job: Job) {
    job.Alloc? ==>
      ValidRequest(c, job.bytes) && job.bin == BinIndex(c, UnitsFor(job.bytes)) && job.bytes + 64 <= 64 * c.classSizes[job.bin]
  }

  ghost predicate Facts(c: Config, a: Arena, th: Thread) {
    JobFacts(c, th.job) && PcFacts(c, a, th.job, th.pc)
  }

  ghost predicate Coupled(c: Config, a: Arena, t: ThreadId, th: Thread) {
    && (forall r {:trigger RecordMatches(a, t, th, r)} :: RecordMatches(a, t, th, r))
    && (forall b {:trigger BlockMatches(a, t, th, b)} :: BlockMatches(a, t, th, b))
    && (forall k {:trigger SlotMatches(a, t, th, k)} :: SlotMatches(a, t, th, k))
    && (forall k {:trigger TrimMatches(a, t, th, k)} :: TrimMatches(a, t, th, k))
    && FlagMatches(a, t, th)
    && ReservedApart(th)
    && Facts(c, a, th)
  }

  /** The allocation that bound record m has not yet returned the block's address to its caller. */
  predicate NotYetReturned(a: Arena, m: RecordIndex) {
    m in a.owners && a.owners[m].Held? && (a.owners[m].phase.Filling? || a.owners[m].phase.Filled?)
  }

  /** The thread is about to accept a free of such a record's block. */
  predicate Premature(a: Arena, th: Thread) {
    th.pc.Free? && th.pc.free.AcceptCas? && RecordAt(a, th.pc.free.m).word == th.pc.free.w && NotYetReturned(a, th.pc.free.m)
  }

  ghost predicate SystemInv(c: Config, s: System) {
    && Inv(c, s.arena)
    && (forall t {:trigger ThreadAt(s, t)} :: Coupled(c, s.arena, t, ThreadAt(s, t)))
  }
}
