/** A step that touches at most one record, one block and one manager keeps every thread coupled. */
module ArenaStepFrame {
  import opened Wrappers
  import opened ArenaState
  import opened ArenaOps
  import opened ArenaInvariant
  import opened ArenaThreads
  import opened ArenaCoupling
  import opened ArenaInterference

  /** A state a run can be in, as far as thread t sees it. */
  ghost predicate Coherent(c: Config, a: Arena, t: ThreadId, th: Thread) {
    ValidConfig(c) && Inv(c, a) && Coupled(c, a, t, th)
  }

  ghost predicate StepOk(c: Config, a: Arena, a': Arena, t: ThreadId, th': Thread) {
    Inv(c, a') && OthersKept(a, a', t) && Coupled(c, a', t, th')
  }

  ghost predicate RecordsElsewhere(a: Arena, a': Arena, r: RecordIndex) {
    forall r' {:trigger r' in a'.owners} {:trigger r' in a'.records} {:trigger r' in a.owners} {:trigger r' in a.records} :: r' != r ==>
      && (r' in a'.owners <==> r' in a.owners) && (r' in a.owners ==> a'.owners[r'] == a.owners[r'])
      && (r' in a'.records <==> r' in a.records) && (r' in a.records ==> a'.records[r'] == a.records[r'])
  }

  ghost predicate BlocksElsewhere(a: Arena, a': Arena, b: Address) {
    forall b' {:trigger b' in a'.holders} {:trigger b' in a'.chain} {:trigger b' in a'.headers} {:trigger b' in a.holders} {:trigger b' in a.chain} {:trigger b' in a.headers} :: b' != b ==>
      && (b' in a'.holders <==> b' in a.holders) && (b' in a.holders ==> a'.holders[b'] == a.holders[b'])
      && (b' in a'.chain <==> b' in a.chain) && (b' in a.chain ==> a'.chain[b'] == a.chain[b'])
      && (b' in a'.headers <==> b' in a.headers) && (b' in a.headers ==> a'.headers[b'] == a.headers[b'])
  }

  ghost predicate ManagersElsewhere(a: Arena, a': Arena, k: nat) {
    && |a'.managers| == |a.managers|
    && forall k' {:trigger a'.managers[k']} {:trigger a.managers[k']} :: 0 <= k' < |a.managers| && k' != k ==> a'.managers[k'] == a.managers[k']
  }

  ghost predicate HoldingsElsewhere(th: Thread, th': Thread, r: RecordIndex, b: Address, k: nat) {
    && (forall r' {:trigger HeldBy(th, r')} {:trigger HeldBy(th', r')} :: r' != r ==> HeldBy(th', r') == HeldBy(th, r'))
    && (CarvedAt(th'.pc) == CarvedAt(th.pc)
        || ((CarvedAt(th.pc).None? || CarvedAt(th.pc).value.0 == b) && (CarvedAt(th'.pc).None? || CarvedAt(th'.pc).value.0 == b)))
    && (SlotAt(th'.pc) == SlotAt(th.pc)
        || ((SlotAt(th.pc).None? || SlotAt(th.pc).value == k) && (SlotAt(th'.pc).None? || SlotAt(th'.pc).value == k)))
    && (TrimAt(th'.pc) == TrimAt(th.pc)
        || ((TrimAt(th.pc).None? || TrimAt(th.pc).value.0 == k) && (TrimAt(th'.pc).None? || TrimAt(th'.pc).value.0 == k)))
  }

  /** No other thread is about to store total_size_ of a record bound to block b. */
  ghost predicate NoFilling(a: Arena, t: ThreadId, b: Address) {
    forall r {:trigger HeldByOther(a, t, r)} :: HeldByOther(a, t, r) && a.owners[r].phase.Filling? && r in a.records ==> a.records[r].word.block != Some(b)
  }

  lemma OthersAreKept(c: Config, a: Arena, a': Arena, t: ThreadId, r: RecordIndex, b: Address, k: nat)
    requires a.owners.Keys == a.records.Keys
    requires RecordsElsewhere(a, a', r) && BlocksElsewhere(a, a', b) && ManagersElsewhere(a, a', k)
    requires LinkSame(a, a', b) || NoFilling(a, t, b)
    requires OwnerKept(a, a', t, r) && HolderKept(a, a', t, b)
    requires k < |a.managers| ==> ManagerKept(a.managers[k], a'.managers[k], t)
    requires FlagKept(a, a', t)
    ensures OthersKept(a, a', t)
  {
    forall r' ensures OwnerKept(a, a', t, r') {
      if r' != r && HeldByOther(a, t, r') {
        assert r' in a.records && r' in a'.records;
        if a.owners[r'].phase.Filling? && a.records[r'].word.block.Some? {
          var b' := a.records[r'].word.block.value;
          assert b' != b || LinkSame(a, a', b);
          assert b' in a.chain ==> LinkSame(a, a', b');
        }
      }
    }
    forall b' ensures HolderKept(a, a', t, b') {
      if b' != b {
        assert b' in a'.holders <==> b' in a.holders;
        assert b' in a.chain ==> b' in a'.chain;
        assert b' in a.headers <==> b' in a'.headers;
      }
    }
    forall k' | 0 <= k' < |a.managers| ensures ManagerKept(a.managers[k'], a'.managers[k'], t) {}
  }

  lemma StaysCoupled(c: Config, a: Arena, a': Arena, t: ThreadId, th: Thread, th': Thread, r: RecordIndex, b: Address, k: nat)
    requires Coupled(c, a, t, th)
    requires RecordsElsewhere(a, a', r) && BlocksElsewhere(a, a', b) && ManagersElsewhere(a, a', k)
    requires HoldingsElsewhere(th, th', r, b, k)
    requires RecordMatches(a', t, th', r) && BlockMatches(a', t, th', b)
    requires SlotMatches(a', t, th', k) && TrimMatches(a', t, th', k) && FlagMatches(a', t, th')
    requires ReservedApart(th') && Facts(c, a', th')
    ensures Coupled(c, a', t, th')
  {
    forall r' ensures RecordMatches(a', t, th', r') {
      assert RecordMatches(a, t, th, r');
      assert r' != r ==> (r' in a'.owners <==> r' in a.owners);
    }
    forall b' ensures BlockMatches(a', t, th', b') {
      assert BlockMatches(a, t, th, b');
      assert b' != b ==> (b' in a'.holders <==> b' in a.holders);
    }
    forall k': nat ensures SlotMatches(a', t, th', k') && TrimMatches(a', t, th', k') {
      assert SlotMatches(a, t, th, k') && TrimMatches(a, t, th, k');
      assert k' < |a.managers| && k' != k ==> a'.managers[k'] == a.managers[k'];
    }
  }

  /** A load, or a CAS that fails: the memory is as it was and the thread holds what it held. */
  lemma LocalStep(c: Config, a: Arena, t: ThreadId, th: Thread, th': Thread)
    requires Inv(c, a) && Coupled(c, a, t, th)
    requires forall r {:trigger HeldBy(th, r)} {:trigger HeldBy(th', r)} :: HeldBy(th', r) == HeldBy(th, r)
    requires CarvedAt(th'.pc) == CarvedAt(th.pc) && SlotAt(th'.pc) == SlotAt(th.pc)
    requires TrimAt(th'.pc) == TrimAt(th.pc) && FlagAt(th'.pc) == FlagAt(th.pc)
    requires ReservedApart(th') && Facts(c, a, th')
    ensures StepOk(c, a, a, t, th')
  {
    assert RecordMatches(a, t, th, 0) && BlockMatches(a, t, th, 0) && SlotMatches(a, t, th, 0) && TrimMatches(a, t, th, 0);
    StaysCoupled(c, a, a, t, th, th', 0, 0, 0);
    OthersAreKept(c, a, a, t, 0, 0, 0);
  }

  /** The general step: record r, block b and manager k, and nothing else, may have changed. */
  lemma Touch(c: Config, a: Arena, a': Arena, t: ThreadId, th: Thread, th': Thread, r: RecordIndex, b: Address, k: nat)
    requires Inv(c, a) && Coupled(c, a, t, th) && Inv(c, a')
    requires RecordsElsewhere(a, a', r) && BlocksElsewhere(a, a', b) && ManagersElsewhere(a, a', k)
    requires HoldingsElsewhere(th, th', r, b, k)
    requires LinkSame(a, a', b) || NoFilling(a, t, b)
    requires RecordMatches(a', t, th', r) && OwnerKept(a, a', t, r)
    requires BlockMatches(a', t, th', b) && HolderKept(a, a', t, b)
    requires SlotMatches(a', t, th', k) && TrimMatches(a', t, th', k)
    requires k < |a.managers| ==> ManagerKept(a.managers[k], a'.managers[k], t)
    requires FlagMatches(a', t, th') && FlagKept(a, a', t)
    requires ReservedApart(th') && Facts(c, a', th')
    ensures StepOk(c, a, a', t, th')
  {
    StaysCoupled(c, a, a', t, th, th', r, b, k);
    OthersAreKept(c, a, a', t, r, b, k);
  }

  /** Only record r changed. */
  lemma TouchRecord(c: Config, a: Arena, a': Arena, t: ThreadId, th: Thread, th': Thread, r: RecordIndex)
    requires Inv(c, a) && Coupled(c, a, t, th) && Inv(c, a')
    requires RecordsElsewhere(a, a', r)
    requires a'.holders == a.holders && a'.chain == a.chain && a'.headers == a.headers && a'.managers == a.managers
    requires forall r' {:trigger HeldBy(th, r')} {:trigger HeldBy(th', r')} :: r' != r ==> HeldBy(th', r') == HeldBy(th, r')
    requires CarvedAt(th'.pc) == CarvedAt(th.pc) && SlotAt(th'.pc) == SlotAt(th.pc) && TrimAt(th'.pc) == TrimAt(th.pc)
    requires RecordMatches(a', t, th', r) && OwnerKept(a, a', t, r)
    requires FlagMatches(a', t, th') && FlagKept(a, a', t)
    requires ReservedApart(th') && Facts(c, a', th')
    ensures StepOk(c, a, a', t, th')
  {
    assert BlockMatches(a, t, th, 0) && SlotMatches(a, t, th, 0) && TrimMatches(a, t, th, 0);
    Touch(c, a, a', t, th, th', r, 0, 0);
  }

  /** Only manager k changed. */
  lemma TouchManager(c: Config, a: Arena, a': Arena, t: ThreadId, th: Thread, th': Thread, k: nat)
    requires Inv(c, a) && Coupled(c, a, t, th) && Inv(c, a')
    requires a' == a.(managers := a'.managers) && ManagersElsewhere(a, a', k)
    requires forall r {:trigger HeldBy(th, r)} {:trigger HeldBy(th', r)} :: HeldBy(th', r) == HeldBy(th, r)
    requires CarvedAt(th'.pc) == CarvedAt(th.pc) && FlagAt(th'.pc) == FlagAt(th.pc)
    requires SlotAt(th'.pc) == SlotAt(th.pc)
      || ((SlotAt(th.pc).None? || SlotAt(th.pc).value == k) && (SlotAt(th'.pc).None? || SlotAt(th'.pc).value == k))
    requires TrimAt(th'.pc) == TrimAt(th.pc)
      || ((TrimAt(th.pc).None? || TrimAt(th.pc).value.0 == k) && (TrimAt(th'.pc).None? || TrimAt(th'.pc).value.0 == k))
    requires SlotMatches(a', t, th', k) && TrimMatches(a', t, th', k)
    requires k < |a.managers| ==> ManagerKept(a.managers[k], a'.managers[k], t)
    requires ReservedApart(th') && Facts(c, a', th')
    ensures StepOk(c, a, a', t, th')
  {
    assert RecordMatches(a, t, th, 0) && BlockMatches(a, t, th, 0);
    Touch(c, a, a', t, th, th', 0, 0, k);
  }

  /** Only record r and manager k changed. */
  lemma TouchRecordAndManager(c: Config, a: Arena, a': Arena, t: ThreadId, th: Thread, th': Thread, r: RecordIndex, k: nat)
    requires Inv(c, a) && Coupled(c, a, t, th) && Inv(c, a')
    requires RecordsElsewhere(a, a', r) && ManagersElsewhere(a, a', k)
    requires a'.holders == a.holders && a'.chain == a.chain && a'.headers == a.headers && a'.flag == a.flag
    requires forall r' {:trigger HeldBy(th, r')} {:trigger HeldBy(th', r')} :: r' != r ==> HeldBy(th', r') == HeldBy(th, r')
    requires CarvedAt(th'.pc) == CarvedAt(th.pc) && TrimAt(th'.pc) == TrimAt(th.pc) && FlagAt(th'.pc) == FlagAt(th.pc)
    requires (SlotAt(th.pc).None? || SlotAt(th.pc).value == k) && (SlotAt(th'.pc).None? || SlotAt(th'.pc).value == k)
    requires RecordMatches(a', t, th', r) && OwnerKept(a, a', t, r) && FlagKept(a, a', t)
    requires SlotMatches(a', t, th', k) && TrimMatches(a', t, th', k)
    requires k < |a.managers| && ManagerKept(a.managers[k], a'.managers[k], t)
    requires ReservedApart(th') && Facts(c, a', th')
    ensures StepOk(c, a, a', t, th')
  {
    assert BlockMatches(a, t, th, 0);
    Touch(c, a, a', t, th, th', r, 0, k);
  }

  /** Only block b, its link, holder and header, changed. */
  lemma TouchBlock(c: Config, a: Arena, a': Arena, t: ThreadId, th: Thread, th': Thread, b: Address)
    requires Inv(c, a) && Coupled(c, a, t, th) && Inv(c, a')
    requires BlocksElsewhere(a, a', b)
    requires a'.records == a.records && a'.owners == a.owners && a'.managers == a.managers && a'.flag == a.flag
    requires LinkSame(a, a', b) || NoFilling(a, t, b)
    requires forall r {:trigger HeldBy(th, r)} {:trigger HeldBy(th', r)} :: HeldBy(th', r) == HeldBy(th, r)
    requires (CarvedAt(th.pc).None? || CarvedAt(th.pc).value.0 == b) && (CarvedAt(th'.pc).None? || CarvedAt(th'.pc).value.0 == b)
    requires SlotAt(th'.pc) == SlotAt(th.pc) && TrimAt(th'.pc) == TrimAt(th.pc) && FlagAt(th'.pc) == FlagAt(th.pc)
    requires BlockMatches(a', t, th', b) && HolderKept(a, a', t, b)
    requires ReservedApart(th') && Facts(c, a', th')
    ensures StepOk(c, a, a', t, th')
  {
    assert RecordMatches(a, t, th, a.count) && SlotMatches(a, t, th, 0) && TrimMatches(a, t, th, 0);
    Touch(c, a, a', t, th, th', a.count, b, 0);
  }
}
