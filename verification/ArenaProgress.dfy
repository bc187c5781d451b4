/**
  The machine does allocate.  From any state of an orderly run, wherever the other threads stand, a thread
  that runs on its own gets a block at the frontier when there is a record to be had and room for the
  block, and a block from a bin when its class has an AVAILABLE one.
 */
module ArenaProgress {
  import opened Wrappers
  import opened ArenaState
  import opened ArenaOps
  import opened ArenaInvariant
  import opened ArenaThreads
  import opened ArenaCoupling
  import opened ArenaSafety

  /** The threads other than t are where they were. */
  ghost predicate OnlyMoves(s: System, s': System, t: ThreadId) {
    forall u {:trigger ThreadAt(s', u)} :: u != t ==> ThreadAt(s', u) == ThreadAt(s, u)
  }

  ghost predicate SoloAt(c: Config, path: seq<System>, i: nat, t: ThreadId)
    requires i + 1 < |path|
  {
    StepBy(c, path[i], path[i + 1], t) && !FreesInFlight(path[i], t)
  }

  /** Thread t takes s to s' with orderly steps of its own. */
  ghost predicate Leads(c: Config, s: System, s': System, t: ThreadId) {
    exists path {:trigger IsSolo(c, path, t)} :: IsSolo(c, path, t) && path[0] == s && path[|path| - 1] == s'
  }

  ghost predicate IsSolo(c: Config, path: seq<System>, t: ThreadId) {
    |path| > 0 && forall i {:trigger SoloAt(c, path, i, t)} :: 0 <= i < |path| - 1 ==> SoloAt(c, path, i, t)
  }

  /** States of orderly runs that orderly steps of thread t do not leave. */
  ghost predicate Closed(c: Config, states: iset<System>, t: ThreadId) {
    && (forall s {:trigger s in states} :: s in states ==> OrderlyReachable(c, s))
    && (forall s, s' {:trigger StepBy(c, s, s', t)} :: s in states && StepBy(c, s, s', t) && !FreesInFlight(s, t) ==> s' in states)
  }

  ghost function AllStates(c: Config): iset<System> {
    iset s | OrderlyReachable(c, s)
  }

  ghost function Reached(c: Config, s: System, t: ThreadId): iset<System> {
    iset s' | OrderlyReachable(c, s') && Leads(c, s, s', t)
  }

  lemma AllAreClosed(c: Config, t: ThreadId)
    ensures Closed(c, AllStates(c), t)
  {
    forall s, s' | s in AllStates(c) && StepBy(c, s, s', t) && !FreesInFlight(s, t) ensures s' in AllStates(c) {
      OneMoreStep(c, s, s', t);
    }
  }

  lemma LeadsOn(c: Config, s: System, s1: System, s': System, t: ThreadId)
    requires Leads(c, s, s1, t) && StepBy(c, s1, s', t) && !FreesInFlight(s1, t)
    ensures Leads(c, s, s', t)
  {
    var path :| IsSolo(c, path, t) && path[0] == s && path[|path| - 1] == s1;
    var path' := path + [s'];
    forall i: nat | i + 1 < |path'| ensures SoloAt(c, path', i, t) {
      if i + 1 < |path| {
        assert SoloAt(c, path, i, t);
        assert path'[i] == path[i] && path'[i + 1] == path[i + 1];
      } else {
        assert path'[i] == s1 && path'[i + 1] == s';
      }
    }
    assert IsSolo(c, path', t);
  }

  /** The states that a thread reaches on its own are such a set. */
  lemma ReachedIsClosed(c: Config, s: System, t: ThreadId)
    requires OrderlyReachable(c, s)
    ensures Closed(c, Reached(c, s, t), t) && s in Reached(c, s, t)
  {
    assert IsSolo(c, [s], t);
    forall s1, s' | s1 in Reached(c, s, t) && StepBy(c, s1, s', t) && !FreesInFlight(s1, t) ensures s' in Reached(c, s, t) {
      OneMoreStep(c, s1, s', t);
      LeadsOn(c, s, s1, s', t);
    }
  }

  /** One orderly step of thread t. */
  lemma Advance(c: Config, states: iset<System>, s: System, t: ThreadId, a': Arena, th': Thread) returns (s': System)
    requires Closed(c, states, t) && s in states && ThreadStep(c, s.arena, ThreadAt(s, t), a', th', t) && !FreesInFlight(s, t)
    ensures s' in states && s'.arena == a' && ThreadAt(s', t) == th' && OnlyMoves(s, s', t)
  {
    s' := System(a', s.threads[t := th']);
    assert StepBy(c, s, s', t);
  }

  function Request(c: Config, bytes: nat, reservation: Reservation): Job {
    Alloc(bytes, BinIndex(c, UnitsFor(bytes)), reservation)
  }

  /** do_allocate starts its first search. */
  lemma StartsSearch(c: Config, states: iset<System>, s: System, t: ThreadId, bytes: nat) returns (s': System)
    requires Closed(c, states, t) && s in states && ThreadAt(s, t) == Idle && ValidRequest(c, bytes)
    ensures s' in states && s'.arena == s.arena && OnlyMoves(s, s', t)
    ensures ThreadAt(s', t) == Thread(Request(c, bytes, NoRecord), Search(PopNext))
  {
    var (a, job) := (s.arena, Request(c, bytes, NoRecord));
    var th1 := Thread(job, Ready);
    assert ReadyStep(c, a, Idle, a, th1);
    s' := Advance(c, states, s, t, a, th1);
    var th2 := Thread(job, Search(PopNext));
    assert ReadyStep(c, a, th1, a, th2);
    s' := Advance(c, states, s', t, a, th2);
  }

  // ----- a record from a free list -----

  /** Manager k admits the thread and has a free record. */
  predicate HasFreeRecord(a: Arena, k: nat) {
    SlotFree(a, k) && a.managers[k].freeList != {}
  }

  /** Where the search for a free record stands once it has loaded the count. */
  function SeekFrom(count: nat): ReservePc {
    if count > 0 then ScanManager(count, 0) else GrowFrom(count)
  }

  lemma SeeksRecord(c: Config, states: iset<System>, s: System, t: ThreadId, bytes: nat) returns (s': System)
    requires Closed(c, states, t) && s in states && ThreadAt(s, t) == Idle && ValidRequest(c, bytes)
    ensures s' in states && s'.arena == s.arena && OnlyMoves(s, s', t)
    ensures ThreadAt(s', t) == Thread(Request(c, bytes, NoRecord), Reserve(SeekFrom(s.arena.count)))
  {
    s' := StartsSearch(c, states, s, t, bytes);
    var (a, job) := (s.arena, Request(c, bytes, NoRecord));
    var th3 := Thread(job, Reserve(LoadCount));
    assert PopNextStep(c, a, ThreadAt(s', t), a, th3, t);
    s' := Advance(c, states, s', t, a, th3);
    var th4 := Thread(job, Reserve(SeekFrom(a.count)));
    assert LoadCountStep(c, a, th3, a, th4);
    s' := Advance(c, states, s', t, a, th4);
  }

  /** Reserving a slot and releasing it leaves the manager as it was. */
  lemma ReleaseUndoesReserve(a: Arena, t: ThreadId, k: nat)
    requires k < |a.managers| && t !in a.managers[k].slots
    ensures ReleaseSlot(ReserveSlot(a, t, k), t, k) == a
  {
    var m := a.managers[k];
    assert m.slots + {t} - {t} == m.slots;
    assert a.managers[k := m] == a.managers;
  }

  lemma NoSlotYet(c: Config, s: System, t: ThreadId, k: nat)
    requires ValidConfig(c) && OrderlyReachable(c, s) && SlotAt(ThreadAt(s, t).pc).None? && k < |s.arena.managers|
    ensures t !in s.arena.managers[k].slots
  {
    ReachableHolds(c, s);
    assert Coupled(c, s.arena, t, ThreadAt(s, t));
    assert SlotMatches(s.arena, t, ThreadAt(s, t), k);
  }

  /** A manager that is closed or has no free record is passed over. */
  lemma PassesManager(c: Config, states: iset<System>, s: System, t: ThreadId, job: Job, k: nat) returns (s': System)
    requires ValidConfig(c) && Closed(c, states, t) && s in states && job.Alloc? && s.arena.count > 0 && k <= ManagerOf(s.arena.count - 1)
    requires ThreadAt(s, t) == Thread(job, Reserve(ScanManager(s.arena.count, k))) && !HasFreeRecord(s.arena, k)
    ensures s' in states && s'.arena == s.arena && OnlyMoves(s, s', t)
    ensures ThreadAt(s', t) == Thread(job, Reserve(ScanManager(s.arena.count, k + 1)))
  {
    var (a, th, count) := (s.arena, ThreadAt(s, t), s.arena.count);
    var last := Thread(job, Reserve(ScanManager(count, k + 1)));
    if !SlotFree(a, k) {
      assert ScanManagerStep(c, a, th, a, last, t);
      s' := Advance(c, states, s, t, a, last);
    } else {
      NoSlotYet(c, s, t, k);
      ReleaseUndoesReserve(a, t, k);
      var (a1, th1) := (ReserveSlot(a, t, k), Thread(job, Reserve(PopFree(count, k))));
      assert ScanManagerStep(c, a, th, a1, th1, t);
      s' := Advance(c, states, s, t, a1, th1);
      var th2 := Thread(job, Reserve(DropSlot(count, k)));
      assert PopFreeStep(c, a1, th1, a1, th2, t);
      s' := Advance(c, states, s', t, a1, th2);
      assert DropSlotStep(c, a1, th2, a, last, t);
      s' := Advance(c, states, s', t, a, last);
    }
  }

  lemma {:induction false} ScansTo(c: Config, states: iset<System>, s: System, t: ThreadId, job: Job, k: nat) returns (s': System)
    requires ValidConfig(c) && Closed(c, states, t) && s in states && job.Alloc? && s.arena.count > 0 && k <= ManagerOf(s.arena.count - 1) + 1
    requires ThreadAt(s, t) == Thread(job, Reserve(ScanManager(s.arena.count, 0)))
    requires forall j :: 0 <= j < k ==> !HasFreeRecord(s.arena, j)
    ensures s' in states && s'.arena == s.arena && OnlyMoves(s, s', t)
    ensures ThreadAt(s', t) == Thread(job, Reserve(ScanManager(s.arena.count, k)))
  {
    s' := s;
    if k > 0 {
      s' := ScansTo(c, states, s, t, job, k - 1);
      s' := PassesManager(c, states, s', t, job, k - 1);
    }
  }

  function PoppedFrom(a: Arena, t: ThreadId, k: nat, m: RecordIndex): Arena {
    PopFreeRecord(ReserveSlot(a, t, k), t, k, m)
  }

  lemma PopsRecord(c: Config, states: iset<System>, s: System, t: ThreadId, bytes: nat, k: nat, m: RecordIndex) returns (s': System)
    requires Closed(c, states, t) && s in states && s.arena.count > 0 && k <= ManagerOf(s.arena.count - 1)
    requires HasFreeRecord(s.arena, k) && m in s.arena.managers[k].freeList
    requires ThreadAt(s, t) == Thread(Request(c, bytes, NoRecord), Reserve(ScanManager(s.arena.count, k)))
    ensures s' in states && s'.arena == PoppedFrom(s.arena, t, k, m) && OnlyMoves(s, s', t)
    ensures ThreadAt(s', t) == Thread(Request(c, bytes, WithRecord(m, 0)), Cut(LoadFrontier))
  {
    var (a, th, count) := (s.arena, ThreadAt(s, t), s.arena.count);
    var (a1, th1) := (ReserveSlot(a, t, k), Thread(Request(c, bytes, NoRecord), Reserve(PopFree(count, k))));
    assert ScanManagerStep(c, a, th, a1, th1, t);
    s' := Advance(c, states, s, t, a1, th1);
    var (a2, th2) := (PopFreeRecord(a1, t, k, m), Thread(Request(c, bytes, WithRecord(m, 0)), Cut(LoadFrontier)));
    assert PopFreeStep(c, a1, th1, a2, th2, t);
    s' := Advance(c, states, s', t, a2, th2);
  }

  // ----- a new record -----

  /** The region can grow: the next record's manager admits the thread, and the frontier is below the record. */
  predicate CanGrow(c: Config, a: Arena) {
    ManagerOf(a.count) < c.managerCapacity && SlotFree(a, ManagerOf(a.count)) && a.frontier < c.metadataStart - (a.count + 1)
  }

  /** After all managers of the region have been scanned, or at once in an empty one. */
  lemma ReachesGrowth(c: Config, states: iset<System>, s: System, t: ThreadId, job: Job) returns (s': System)
    requires ValidConfig(c) && Closed(c, states, t) && s in states && job.Alloc? && ThreadAt(s, t) == Thread(job, Reserve(SeekFrom(s.arena.count)))
    requires forall k: nat :: k * RECORDS_PER_BLOCK < s.arena.count ==> !HasFreeRecord(s.arena, k)
    ensures s' in states && s'.arena == s.arena && OnlyMoves(s, s', t)
    ensures ThreadAt(s', t) == Thread(job, Reserve(GrowFrom(s.arena.count)))
  {
    s' := s;
    var count := s.arena.count;
    if count > 0 {
      var k := ManagerOf(count - 1) + 1;
      s' := ScansTo(c, states, s, t, job, k);
      var th' := Thread(job, Reserve(GrowFrom(count)));
      assert ScanManagerStep(c, s.arena, ThreadAt(s', t), s.arena, th', t);
      s' := Advance(c, states, s', t, s.arena, th');
    }
  }

  lemma StartsGrowing(c: Config, states: iset<System>, s: System, t: ThreadId, job: Job) returns (s': System)
    requires Closed(c, states, t) && s in states && CanGrow(c, s.arena) && ThreadAt(s, t) == Thread(job, Reserve(GrowFrom(s.arena.count)))
    ensures s' in states && s'.arena == ReserveSlot(s.arena, t, ManagerOf(s.arena.count)) && OnlyMoves(s, s', t)
    ensures ThreadAt(s', t) == Thread(job, Reserve(GrowCas(s.arena.count)))
  {
    var (a, th, count) := (s.arena, ThreadAt(s, t), s.arena.count);
    var (a1, th1) := (ReserveSlot(a, t, ManagerOf(count)), Thread(job, Reserve(CheckFrontier(count))));
    assert GrowFromStep(c, a, th, a1, th1, t);
    s' := Advance(c, states, s, t, a1, th1);
    var th2 := Thread(job, Reserve(GrowCas(count)));
    assert CheckFrontierStep(c, a1, th1, a1, th2);
    s' := Advance(c, states, s', t, a1, th2);
  }

  function Grown(a: Arena, t: ThreadId): Arena {
    SetOwner(Grow(ReserveSlot(a, t, ManagerOf(a.count)), t, Word(None, Invalid, 0), 0), a.count, Held(t, Reserved))
  }

  lemma GrowsRegion(c: Config, states: iset<System>, s: System, t: ThreadId, bytes: nat) returns (s': System)
    requires Closed(c, states, t) && s in states && CanGrow(c, s.arena)
    requires ThreadAt(s, t) == Thread(Request(c, bytes, NoRecord), Reserve(GrowFrom(s.arena.count)))
    ensures s' in states && s'.arena == Grown(s.arena, t) && OnlyMoves(s, s', t)
    ensures ThreadAt(s', t) == Thread(Request(c, bytes, WithRecord(s.arena.count, 0)), Cut(LoadFrontier))
  {
    var (job, count) := (Request(c, bytes, NoRecord), s.arena.count);
    s' := StartsGrowing(c, states, s, t, job);
    var (a1, th2) := (s'.arena, ThreadAt(s', t));
    var (a3, th3) := (Grow(a1, t, Word(None, Invalid, 0), 0), Thread(job, Reserve(GrowRecheck(count))));
    assert GrowCasStep(c, a1, th2, a3, th3, t);
    s' := Advance(c, states, s', t, a3, th3);
    var (a4, th4) := (SetOwner(a3, count, Held(t, Reserved)), Thread(Request(c, bytes, WithRecord(count, 0)), Cut(LoadFrontier)));
    assert GrowRecheckStep(c, a3, th3, a4, th4, t);
    s' := Advance(c, states, s', t, a4, th4);
  }

  // ----- a block at the frontier -----

  predicate Fits(c: Config, a: Arena, bytes: nat)
    requires ValidRequest(c, bytes)
  {
    a.frontier + SizeFor(c, bytes) < c.metadataStart - (a.count + 1)
  }

  function KeptBlock(a: Arena, t: ThreadId, size: nat): Arena {
    SetHolder(Carve(a, t, size, Header(0, 0, None)), a.frontier, Carved(t, true))
  }

  lemma CutsBlock(c: Config, states: iset<System>, s: System, t: ThreadId, bytes: nat, m: RecordIndex) returns (s': System)
    requires Closed(c, states, t) && s in states && ValidRequest(c, bytes) && Fits(c, s.arena, bytes)
    requires ThreadAt(s, t) == Thread(Request(c, bytes, WithRecord(m, 0)), Cut(LoadFrontier))
    ensures s' in states && s'.arena == KeptBlock(s.arena, t, SizeFor(c, bytes)) && OnlyMoves(s, s', t)
    ensures ThreadAt(s', t) == Thread(Request(c, bytes, WithRecord(m, 0)), Cut(WriteSize(WordOf(s.arena))))
  {
    var (a, job, word, size) := (s.arena, Request(c, bytes, WithRecord(m, 0)), WordOf(s.arena), SizeFor(c, bytes));
    var th1 := Thread(job, Cut(CheckCount(word)));
    assert LoadFrontierStep(c, a, ThreadAt(s, t), a, th1);
    s' := Advance(c, states, s, t, a, th1);
    var th2 := Thread(job, Cut(CarveCas(word)));
    assert CheckCountStep(c, a, th1, a, th2);
    s' := Advance(c, states, s', t, a, th2);
    var (a3, th3) := (Carve(a, t, size, Header(0, 0, None)), Thread(job, Cut(CarveRecheck(word))));
    assert CarveCasStep(c, a, th2, a3, th3, t);
    s' := Advance(c, states, s', t, a3, th3);
    var (a4, th4) := (KeptBlock(a, t, size), Thread(job, Cut(WriteSize(word))));
    assert CarveRecheckStep(c, a3, th3, a4, th4, t);
    s' := Advance(c, states, s', t, a4, th4);
  }

  function HeadedBlock(a: Arena, word: FrontierWord, size: nat): Arena {
    var a1 := SetHeader(a, word.frontier, HeaderAt(a, word.frontier).(size := size));
    SetHeader(a1, word.frontier, HeaderAt(a1, word.frontier).(previous := word.predecessor))
  }

  lemma HeadsBlock(c: Config, states: iset<System>, s: System, t: ThreadId, bytes: nat, m: RecordIndex, word: FrontierWord) returns (s': System)
    requires Closed(c, states, t) && s in states && ValidRequest(c, bytes)
    requires ThreadAt(s, t) == Thread(Request(c, bytes, WithRecord(m, 0)), Cut(WriteSize(word)))
    ensures s' in states && s'.arena == HeadedBlock(s.arena, word, SizeFor(c, bytes)) && OnlyMoves(s, s', t)
    ensures ThreadAt(s', t) == Thread(Request(c, bytes, NoRecord), Bind(word.frontier, m, WriteIndex(true)))
  {
    var (a, th, size) := (s.arena, ThreadAt(s, t), SizeFor(c, bytes));
    var a1 := SetHeader(a, word.frontier, HeaderAt(a, word.frontier).(size := size));
    var th1 := Thread(Request(c, bytes, WithRecord(m, 0)), Cut(WritePrevious(word)));
    assert WriteSizeStep(c, a, th, a1, th1);
    s' := Advance(c, states, s, t, a1, th1);
    var (a2, th2) := (HeadedBlock(a, word, size), Thread(Request(c, bytes, NoRecord), Bind(word.frontier, m, WriteIndex(true))));
    assert WritePreviousStep(c, a1, th1, a2, th2);
    s' := Advance(c, states, s', t, a2, th2);
  }

  // ----- the end of the call -----

  function InUseBlock(a: Arena, t: ThreadId, b: Address, m: RecordIndex): Arena {
    BindRecord(SetHeader(a, b, HeaderAt(a, b).(metadataIndex := m)), t, m, b)
  }

  lemma StoresInUse(c: Config, states: iset<System>, s: System, t: ThreadId, job: Job, b: Address, m: RecordIndex, carved: bool) returns (s': System)
    requires Closed(c, states, t) && s in states && ThreadAt(s, t) == Thread(job, Bind(b, m, WriteIndex(carved)))
    ensures s' in states && s'.arena == InUseBlock(s.arena, t, b, m) && OnlyMoves(s, s', t)
    ensures ThreadAt(s', t) == Thread(job, Bind(b, m, StoreSize))
  {
    var (a, th) := (s.arena, ThreadAt(s, t));
    var (a1, th1) := (SetHeader(a, b, HeaderAt(a, b).(metadataIndex := m)), Thread(job, Bind(b, m, StoreInUse(carved))));
    assert WriteIndexStep(c, a, th, a1, th1);
    s' := Advance(c, states, s, t, a1, th1);
    var (a2, th2) := (BindRecord(a1, t, m, b), Thread(job, Bind(b, m, StoreSize)));
    assert StoreInUseStep(c, a1, th1, a2, th2, t);
    s' := Advance(c, states, s', t, a2, th2);
  }

  function ReturnedBlock(a: Arena, t: ThreadId, b: Address, m: RecordIndex, bytes: nat): Arena {
    ReturnBlock(SetTotalSize(a, m, HeaderAt(a, b).size, Held(t, Filled)), m, b, bytes)
  }

  lemma ReturnsBlock(c: Config, states: iset<System>, s: System, t: ThreadId, job: Job, b: Address, m: RecordIndex) returns (s': System)
    requires Closed(c, states, t) && s in states && ThreadAt(s, t) == Thread(job, Bind(b, m, StoreSize)) && job.Alloc?
    ensures s' in states && s'.arena == ReturnedBlock(s.arena, t, b, m, job.bytes) && OnlyMoves(s, s', t)
    ensures ThreadAt(s', t) == Idle
  {
    var (a, th) := (s.arena, ThreadAt(s, t));
    var (a1, th1) := (SetTotalSize(a, m, HeaderAt(a, b).size, Held(t, Filled)), Thread(job, Bind(b, m, Return)));
    assert StoreSizeStep(c, a, th, a1, th1, t);
    s' := Advance(c, states, s, t, a1, th1);
    var a2 := ReturnBlock(a1, m, b, job.bytes);
    assert ReturnStep(c, a1, th1, a2, Idle);
    s' := Advance(c, states, s', t, a2, Idle);
  }

  // ----- whole calls -----

  /** The memory after an allocation at the frontier that binds record m. */
  function AllocatedAt(a: Arena, t: ThreadId, size: nat, m: RecordIndex, bytes: nat): Arena {
    var headed := HeadedBlock(KeptBlock(a, t, size), WordOf(a), size);
    ReturnedBlock(InUseBlock(headed, t, a.frontier, m), t, a.frontier, m, bytes)
  }

  lemma AllocatesWith(c: Config, states: iset<System>, s: System, t: ThreadId, bytes: nat, m: RecordIndex) returns (s': System)
    requires Closed(c, states, t) && s in states && ValidRequest(c, bytes) && Fits(c, s.arena, bytes)
    requires ThreadAt(s, t) == Thread(Request(c, bytes, WithRecord(m, 0)), Cut(LoadFrontier))
    ensures s' in states && s'.arena == AllocatedAt(s.arena, t, SizeFor(c, bytes), m, bytes) && OnlyMoves(s, s', t)
    ensures ThreadAt(s', t) == Idle
  {
    var job := Request(c, bytes, NoRecord);
    s' := CutsBlock(c, states, s, t, bytes, m);
    s' := HeadsBlock(c, states, s', t, bytes, m, WordOf(s.arena));
    s' := StoresInUse(c, states, s', t, job, s.arena.frontier, m, true);
    s' := ReturnsBlock(c, states, s', t, job, s.arena.frontier, m);
  }

  /** The region has a free record that the thread can have. */
  ghost predicate HasRecord(a: Arena) {
    exists k: nat :: k * RECORDS_PER_BLOCK < a.count && HasFreeRecord(a, k)
  }

  /** A record is to be had, and with it the block and the slack fit between the frontier and the metadata. */
  ghost predicate HasRoom(c: Config, a: Arena, bytes: nat) {
    && ValidRequest(c, bytes) && (HasRecord(a) || CanGrow(c, a))
    && a.frontier + SizeFor(c, bytes) < c.metadataStart - ((if HasRecord(a) then a.count else a.count + 1) + 1)
  }

  /** The client has a new block of this size at the old frontier, and no other block has changed. */
  predicate NewBlock(a: Arena, a': Arena, size: nat, bytes: nat) {
    && a'.frontier == a.frontier + size && a'.chain == a.chain[a.frontier := Link(size, a.predecessor)]
    && a'.live == a.live[a.frontier := bytes]
  }

  lemma AllocationShows(a: Arena, r: Arena, t: ThreadId, size: nat, m: RecordIndex, bytes: nat)
    requires r.frontier == a.frontier && r.predecessor == a.predecessor && r.chain == a.chain && r.live == a.live
    ensures NewBlock(a, AllocatedAt(r, t, size, m, bytes), size, bytes)
  {}

  lemma AllocatesWithNew(c: Config, states: iset<System>, s: System, t: ThreadId, bytes: nat) returns (s': System)
    requires ValidConfig(c) && Closed(c, states, t) && s in states && ThreadAt(s, t) == Idle && HasRoom(c, s.arena, bytes) && !HasRecord(s.arena)
    ensures s' in states && ThreadAt(s', t) == Idle && OnlyMoves(s, s', t)
    ensures s'.arena == AllocatedAt(Grown(s.arena, t), t, SizeFor(c, bytes), s.arena.count, bytes)
    ensures NewBlock(s.arena, s'.arena, SizeFor(c, bytes), bytes)
  {
    s' := SeeksRecord(c, states, s, t, bytes);
    s' := ReachesGrowth(c, states, s', t, Request(c, bytes, NoRecord));
    s' := GrowsRegion(c, states, s', t, bytes);
    s' := AllocatesWith(c, states, s', t, bytes, s.arena.count);
    AllocationShows(s.arena, Grown(s.arena, t), t, SizeFor(c, bytes), s.arena.count, bytes);
  }

  lemma {:induction false} FirstFree(a: Arena, k: nat) returns (first: nat)
    requires HasFreeRecord(a, k)
    ensures first <= k && HasFreeRecord(a, first) && forall j :: 0 <= j < first ==> !HasFreeRecord(a, j)
  {
    if j: nat :| j < k && HasFreeRecord(a, j) {
      first := FirstFree(a, j);
    } else {
      first := k;
    }
  }

  lemma AllocatesWithFree(c: Config, states: iset<System>, s: System, t: ThreadId, bytes: nat) returns (s': System)
    requires ValidConfig(c) && Closed(c, states, t) && s in states && ThreadAt(s, t) == Idle && HasRoom(c, s.arena, bytes) && HasRecord(s.arena)
    ensures s' in states && ThreadAt(s', t) == Idle && OnlyMoves(s, s', t)
    ensures NewBlock(s.arena, s'.arena, SizeFor(c, bytes), bytes)
  {
    var some: nat :| some * RECORDS_PER_BLOCK < s.arena.count && HasFreeRecord(s.arena, some);
    var k := FirstFree(s.arena, some);
    var m :| m in s.arena.managers[k].freeList;
    s' := SeeksRecord(c, states, s, t, bytes);
    s' := ScansTo(c, states, s', t, Request(c, bytes, NoRecord), k);
    s' := PopsRecord(c, states, s', t, bytes, k, m);
    s' := AllocatesWith(c, states, s', t, bytes, m);
    AllocationShows(s.arena, PoppedFrom(s.arena, t, k, m), t, SizeFor(c, bytes), m, bytes);
  }

  lemma FrontierIsNew(c: Config, s: System)
    requires ValidConfig(c) && OrderlyReachable(c, s)
    ensures s.arena.frontier !in s.arena.chain && s.arena.frontier !in s.arena.live
  {
    ReachableHolds(c, s);
    var (a, b) := (s.arena, s.arena.frontier);
    assert b in a.chain ==> LinkOk(c, a.chain, a.frontier, b);
    assert b in a.live ==> LiveBlockOk(a, b);
  }

  lemma FrontierServes(c: Config, states: iset<System>, s: System, t: ThreadId, bytes: nat) returns (s': System)
    requires ValidConfig(c) && Closed(c, states, t) && s in states && ThreadAt(s, t) == Idle && HasRoom(c, s.arena, bytes)
    ensures s' in states && ThreadAt(s', t) == Idle && OnlyMoves(s, s', t) && NewBlock(s.arena, s'.arena, SizeFor(c, bytes), bytes)
  {
    if HasRecord(s.arena) {
      s' := AllocatesWithFree(c, states, s, t, bytes);
    } else {
      s' := AllocatesWithNew(c, states, s, t, bytes);
    }
  }

  /**
    From any reachable state, wherever the other threads stand: when a record is to be had and there is
    room, a thread on its own takes its call of do_allocate to the end, and the client has a new block, cut
    at the frontier, of the least class that holds the request.
   */
  lemma AllocatesAtFrontier(c: Config, s: System, t: ThreadId, bytes: nat) returns (s': System)
    requires ValidConfig(c) && OrderlyReachable(c, s) && ThreadAt(s, t) == Idle && HasRoom(c, s.arena, bytes)
    ensures OrderlyReachable(c, s') && Leads(c, s, s', t) && ThreadAt(s', t) == Idle && OnlyMoves(s, s', t)
    ensures s.arena.frontier !in s.arena.live && NewBlock(s.arena, s'.arena, SizeFor(c, bytes), bytes)
  {
    FrontierIsNew(c, s);
    ReachedIsClosed(c, s, t);
    s' := FrontierServes(c, Reached(c, s, t), s, t, bytes);
  }

  // ----- between calls -----

  ghost predicate AllIdle(s: System) {
    forall u {:trigger ThreadAt(s, u)} :: ThreadAt(s, u) == Idle
  }

  /** With all threads between calls every manager admits the thread. */
  lemma IdleManagersAdmit(c: Config, s: System, k: nat)
    requires ValidConfig(c) && OrderlyReachable(c, s) && AllIdle(s) && k < c.managerCapacity
    ensures SlotFree(s.arena, k)
  {
    ReachableHolds(c, s);
    var a := s.arena;
    assert ManagerOk(a.owners, a.count, k, a.managers[k]);
    if !a.managers[k].trimmer.NotTrimming? {
      TrimmedByThread(c, s, k);
      assert false;
    }
    forall t ensures t !in a.managers[k].slots {
      assert SlotMatches(a, t, ThreadAt(s, t), k);
    }
    assert a.managers[k].slots == {};
    FewRecords(ActiveRecords(a.owners, k), k * RECORDS_PER_BLOCK, RECORDS_PER_BLOCK);
  }

  lemma {:induction false} FewRecords(records: set<nat>, from: nat, n: nat)
    requires forall r :: r in records ==> from <= r < from + n
    ensures |records| <= n
  {
    if n > 0 {
      var last := from + n - 1;
      FewRecords(records - {last}, from, n - 1);
    } else {
      assert records == {};
    }
  }

  /** A free record, or room for one more below the manager's capacity. */
  ghost predicate RecordLeft(c: Config, a: Arena) {
    FreeLeft(c, a) || (ManagerOf(a.count) < c.managerCapacity && a.frontier < c.metadataStart - (a.count + 1))
  }

  ghost predicate FreeLeft(c: Config, a: Arena) {
    exists k: nat :: k < |a.managers| && k * RECORDS_PER_BLOCK < a.count && a.managers[k].freeList != {}
  }

  /** Between calls what counts is only what is left: a record, and room behind the frontier for the block and the slack. */
  ghost predicate RoomLeft(c: Config, a: Arena, bytes: nat) {
    && ValidRequest(c, bytes) && RecordLeft(c, a)
    && a.frontier + SizeFor(c, bytes) < c.metadataStart - ((if FreeLeft(c, a) then a.count else a.count + 1) + 1)
  }

  lemma IdleHasRoom(c: Config, s: System, bytes: nat)
    requires ValidConfig(c) && OrderlyReachable(c, s) && AllIdle(s) && RoomLeft(c, s.arena, bytes)
    ensures HasRoom(c, s.arena, bytes)
  {
    ReachableHolds(c, s);
    var a := s.arena;
    forall k: nat | k < c.managerCapacity ensures SlotFree(a, k) {
      IdleManagersAdmit(c, s, k);
    }
    if FreeLeft(c, a) {
      var k: nat :| k < |a.managers| && k * RECORDS_PER_BLOCK < a.count && a.managers[k].freeList != {};
      assert HasFreeRecord(a, k);
    }
  }

  lemma IdleAllocates(c: Config, s: System, t: ThreadId, bytes: nat) returns (s': System)
    requires ValidConfig(c) && OrderlyReachable(c, s) && AllIdle(s) && RoomLeft(c, s.arena, bytes)
    ensures OrderlyReachable(c, s') && Leads(c, s, s', t) && AllIdle(s')
    ensures s.arena.frontier !in s.arena.live && s'.arena.live == s.arena.live[s.arena.frontier := bytes]
  {
    IdleHasRoom(c, s, bytes);
    s' := AllocatesAtFrontier(c, s, t, bytes);
    StayIdle(s, s', t);
  }

  lemma StayIdle(s: System, s': System, t: ThreadId)
    requires AllIdle(s) && OnlyMoves(s, s', t) && ThreadAt(s', t) == Idle
    ensures AllIdle(s')
  {
    forall u ensures ThreadAt(s', u) == Idle {}
  }

  // ----- a block from a bin -----

  function ClaimedBlock(a: Arena, t: ThreadId, k: nat, m: RecordIndex): Arena {
    var popped := PopBin(a, t, k, m);
    SetWord(popped, m, RecordAt(popped, m).word.WithState(Locked), Held(t, Owned))
  }

  /** do_allocate finds a block in its bin and claims it. */
  lemma ClaimsBlock(c: Config, states: iset<System>, s: System, t: ThreadId, bytes: nat, m: RecordIndex, b: Address) returns (s': System)
    requires Closed(c, states, t) && s in states && ThreadAt(s, t) == Idle && ValidRequest(c, bytes)
    requires BinEntry(BinIndex(c, UnitsFor(bytes)), m) in s.arena.bins
    requires RecordAt(s.arena, m).word.state.Available? && RecordAt(s.arena, m).word.block == Some(b)
    ensures s' in states && s'.arena == ClaimedBlock(s.arena, t, BinIndex(c, UnitsFor(bytes)), m) && OnlyMoves(s, s', t)
    ensures ThreadAt(s', t) == Thread(Request(c, bytes, NoRecord), Bind(b, m, WriteIndex(false)))
  {
    s' := StartsSearch(c, states, s, t, bytes);
    var (a, job, k) := (s.arena, Request(c, bytes, NoRecord), BinIndex(c, UnitsFor(bytes)));
    var (a3, th3) := (PopBin(a, t, k, m), Thread(job, Search(Popped(m))));
    assert PopNextStep(c, a, ThreadAt(s', t), a3, th3, t);
    s' := Advance(c, states, s', t, a3, th3);
    var w := RecordAt(a3, m).word;
    var th4 := Thread(job, Search(ClaimPopped(m, w)));
    assert PoppedStep(c, a3, th3, a3, th4, t);
    s' := Advance(c, states, s', t, a3, th4);
    var (a5, th5) := (ClaimedBlock(a, t, k, m), Thread(job, Bind(b, m, WriteIndex(false))));
    assert ClaimPoppedStep(c, a3, th4, a5, th5, t);
    s' := Advance(c, states, s', t, a5, th5);
  }

  /** An AVAILABLE record in a bin names a block that the client does not have. */
  lemma BinnedBlock(c: Config, s: System, k: nat, m: RecordIndex) returns (b: Address)
    requires ValidConfig(c) && OrderlyReachable(c, s) && BinEntry(k, m) in s.arena.bins && RecordAt(s.arena, m).word.state.Available?
    ensures RecordAt(s.arena, m).word.block == Some(b) && b !in s.arena.live && b in s.arena.chain
  {
    ReachableHolds(c, s);
    var a := s.arena;
    assert EntryOk(c, a, BinEntry(k, m));
    assert RecordOk(c, a, m);
    b := a.records[m].word.block.value;
    assert b in a.live ==> LiveBlockOk(a, b);
  }

  lemma BinServes(c: Config, states: iset<System>, s: System, t: ThreadId, bytes: nat, m: RecordIndex, b: Address) returns (s': System)
    requires ValidConfig(c) && Closed(c, states, t) && s in states && ThreadAt(s, t) == Idle && ValidRequest(c, bytes)
    requires BinEntry(BinIndex(c, UnitsFor(bytes)), m) in s.arena.bins
    requires RecordAt(s.arena, m).word.state.Available? && RecordAt(s.arena, m).word.block == Some(b)
    ensures s' in states && ThreadAt(s', t) == Idle && OnlyMoves(s, s', t)
    ensures s'.arena.live == s.arena.live[b := bytes] && s'.arena.frontier == s.arena.frontier && s'.arena.chain == s.arena.chain
  {
    var job := Request(c, bytes, NoRecord);
    s' := ClaimsBlock(c, states, s, t, bytes, m, b);
    s' := StoresInUse(c, states, s', t, job, b, m, false);
    s' := ReturnsBlock(c, states, s', t, job, b, m);
  }

  /** A class with an AVAILABLE block serves a thread on its own, and the frontier stays where it is. */
  lemma AllocatesFromBin(c: Config, s: System, t: ThreadId, bytes: nat, m: RecordIndex) returns (s': System, b: Address)
    requires ValidConfig(c) && OrderlyReachable(c, s) && ThreadAt(s, t) == Idle && ValidRequest(c, bytes)
    requires BinEntry(BinIndex(c, UnitsFor(bytes)), m) in s.arena.bins && RecordAt(s.arena, m).word.state.Available?
    ensures OrderlyReachable(c, s') && Leads(c, s, s', t) && ThreadAt(s', t) == Idle && OnlyMoves(s, s', t)
    ensures RecordAt(s.arena, m).word.block == Some(b) && b in s.arena.chain && b !in s.arena.live
    ensures s'.arena.live == s.arena.live[b := bytes] && s'.arena.frontier == s.arena.frontier && s'.arena.chain == s.arena.chain
  {
    b := BinnedBlock(c, s, BinIndex(c, UnitsFor(bytes)), m);
    ReachedIsClosed(c, s, t);
    s' := BinServes(c, Reached(c, s, t), s, t, bytes, m, b);
  }

  // ----- the later searches -----

  function GivenBack(a: Arena, t: ThreadId, r: RecordIndex): Arena {
    var a1 := SetTotalSize(a, r, 0, Held(t, Reserved));
    var a2 := SetWord(a1, r, Word(None, MetadataAvailable, RecordAt(a1, r).word.version), Held(t, Recycling));
    ReleaseSlot(PushFreeRecord(a2, t, r), t, ManagerOf(r))
  }

  /** A call that has a record in reserve, and is about to search again, finds a block after all. */
  lemma ClaimsInstead(c: Config, states: iset<System>, s: System, t: ThreadId, job: Job, m: RecordIndex, b: Address) returns (s': System)
    requires Closed(c, states, t) && s in states && ThreadAt(s, t) == Thread(job, Ready) && job.Alloc? && job.reservation.WithRecord?
    requires BinEntry(job.bin, m) in s.arena.bins
    requires RecordAt(s.arena, m).word.state.Available? && RecordAt(s.arena, m).word.block == Some(b)
    ensures s' in states && OnlyMoves(s, s', t) && s'.arena == ClaimedBlock(s.arena, t, job.bin, m)
    ensures ThreadAt(s', t) == Thread(job.(reservation := NoRecord), Recycle(job.reservation.m, ThenBind(b, m), ClearFields))
  {
    var a := s.arena;
    var th1 := Thread(job, Search(PopNext));
    assert ReadyStep(c, a, ThreadAt(s, t), a, th1);
    s' := Advance(c, states, s, t, a, th1);
    var (a2, th2) := (PopBin(a, t, job.bin, m), Thread(job, Search(Popped(m))));
    assert PopNextStep(c, a, th1, a2, th2, t);
    s' := Advance(c, states, s', t, a2, th2);
    var th3 := Thread(job, Search(ClaimPopped(m, RecordAt(a2, m).word)));
    assert PoppedStep(c, a2, th2, a2, th3, t);
    s' := Advance(c, states, s', t, a2, th3);
    var a4 := ClaimedBlock(a, t, job.bin, m);
    var th4 := Thread(job.(reservation := NoRecord), Recycle(job.reservation.m, ThenBind(b, m), ClearFields));
    assert ClaimPoppedStep(c, a2, th3, a4, th4, t);
    s' := Advance(c, states, s', t, a4, th4);
  }

  lemma GivesRecordBack(c: Config, states: iset<System>, s: System, t: ThreadId, job: Job, r: RecordIndex, m: RecordIndex, b: Address)
    returns (s': System)
    requires Closed(c, states, t) && s in states && ThreadAt(s, t) == Thread(job, Recycle(r, ThenBind(b, m), ClearFields))
    ensures s' in states && OnlyMoves(s, s', t) && s'.arena == GivenBack(s.arena, t, r)
    ensures ThreadAt(s', t) == Thread(job, Bind(b, m, WriteIndex(false)))
  {
    var (a, next) := (s.arena, ThenBind(b, m));
    var (a1, th1) := (SetTotalSize(a, r, 0, Held(t, Reserved)), Thread(job, Recycle(r, next, StoreFree(Reserved))));
    assert ClearFieldsStep(c, a, ThreadAt(s, t), a1, th1, t);
    s' := Advance(c, states, s, t, a1, th1);
    var a2 := SetWord(a1, r, Word(None, MetadataAvailable, RecordAt(a1, r).word.version), Held(t, Recycling));
    var th2 := Thread(job, Recycle(r, next, PushFree));
    assert StoreFreeStep(c, a1, th1, a2, th2, t);
    s' := Advance(c, states, s', t, a2, th2);
    var (a3, th3) := (PushFreeRecord(a2, t, r), Thread(job, Recycle(r, next, ReleaseManager)));
    assert PushFreeStep(c, a2, th2, a3, th3, t);
    s' := Advance(c, states, s', t, a3, th3);
    var (a4, th4) := (GivenBack(a, t, r), Thread(job, Bind(b, m, WriteIndex(false))));
    assert ReleaseManagerStep(c, a3, th3, a4, th4, t);
    s' := Advance(c, states, s', t, a4, th4);
  }

  /**
    A call that got no block at the frontier, and searches again after a maintenance window, takes an AVAILABLE
    block of its class; the record it had in reserve goes back to its manager's free list.
   */
  lemma SearchesAgain(c: Config, s: System, t: ThreadId, m: RecordIndex) returns (s': System, b: Address)
    requires ValidConfig(c) && OrderlyReachable(c, s) && ThreadAt(s, t).pc.Ready?
    requires ThreadAt(s, t).job.Alloc? && ThreadAt(s, t).job.reservation.WithRecord?
    requires BinEntry(ThreadAt(s, t).job.bin, m) in s.arena.bins && RecordAt(s.arena, m).word.state.Available?
    ensures OrderlyReachable(c, s') && Leads(c, s, s', t) && ThreadAt(s', t) == Idle && OnlyMoves(s, s', t)
    ensures b in s.arena.chain && b !in s.arena.live && s'.arena.live == s.arena.live[b := ThreadAt(s, t).job.bytes]
    ensures ThreadAt(s, t).job.reservation.m in ManagerAt(s'.arena, ManagerOf(ThreadAt(s, t).job.reservation.m)).freeList
  {
    var (job, r) := (ThreadAt(s, t).job, ThreadAt(s, t).job.reservation.m);
    b := BinnedBlock(c, s, job.bin, m);
    ReservedHasManager(c, s, t, r);
    ReachedIsClosed(c, s, t);
    var states := Reached(c, s, t);
    s' := ClaimsInstead(c, states, s, t, job, m, b);
    s' := GivesRecordBack(c, states, s', t, job.(reservation := NoRecord), r, m, b);
    s' := StoresInUse(c, states, s', t, job.(reservation := NoRecord), b, m, false);
    s' := ReturnsBlock(c, states, s', t, job.(reservation := NoRecord), b, m);
  }

  lemma ReservedHasManager(c: Config, s: System, t: ThreadId, r: RecordIndex)
    requires ValidConfig(c) && OrderlyReachable(c, s) && HeldBy(ThreadAt(s, t), r).Some?
    ensures ManagerOf(r) < |s.arena.managers|
  {
    ReachableHolds(c, s);
    assert RecordMatches(s.arena, t, ThreadAt(s, t), r);
    assert r in s.arena.records;
  }

  // ----- the empty arena -----

  function EmptyArena(c: Config): Arena {
    Arena(0, None, 0, map[], seq(c.managerCapacity, _ => Manager(0, NotTrimming, {}, {})), map[], {}, {}, Down, map[], map[], map[], map[])
  }

  /** Every run starts so; an empty arena has room as soon as it can hold the block, one record and the slack. */
  lemma StartsEmpty(c: Config) returns (s: System)
    ensures OrderlyReachable(c, s) && s.arena == EmptyArena(c) && AllIdle(s)
  {
    s := System(EmptyArena(c), map[]);
    assert Init(c, s) && IsRun(c, [s]) && Orderly(c, [s]) && [s][0] == s;
  }

  /** So a thread alone in an empty arena is given the block at the base. */
  lemma AloneAllocates(c: Config, bytes: nat) returns (s: System)
    requires ValidConfig(c) && ValidRequest(c, bytes) && c.managerCapacity > 0 && SizeFor(c, bytes) + 2 < c.metadataStart
    ensures OrderlyReachable(c, s) && AllIdle(s) && s.arena.live == map[0 := bytes]
    ensures s.arena == AllocatedAt(Grown(EmptyArena(c), 0), 0, SizeFor(c, bytes), 0, bytes)
  {
    var empty := StartsEmpty(c);
    AllAreClosed(c, 0);
    s := AllocatesWithNew(c, AllStates(c), empty, 0, bytes);
    StayIdle(empty, s, 0);
  }
}
