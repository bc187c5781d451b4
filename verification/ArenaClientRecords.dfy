/** Until its free is accepted, no step touches the record of a block that the client has. */
module ArenaClientRecords {
  import opened Wrappers
  import opened ArenaState
  import opened ArenaOps
  import opened ArenaInvariant
  import opened ArenaManagerOps
  import opened ArenaThreads
  import opened ArenaCoupling
  import opened ArenaStepFrame
  import opened ArenaReserveSteps
  import opened ArenaSafety

  ghost predicate ClientRecord(a: Arena, r: RecordIndex) {
    r in a.records && r in a.owners && a.owners[r].WithClient?
  }

  ghost predicate Untouched(a: Arena, a': Arena, r: RecordIndex)
    requires r in a.records
  {
    r in a'.records && a'.records[r] == a.records[r]
  }

  lemma SearchLeaves(c: Config, a: Arena, a': Arena, t: ThreadId, th: Thread, th': Thread, r: RecordIndex)
    requires Coherent(c, a, t, th) && SearchStep(c, a, th, a', th', t) && ClientRecord(a, r)
    ensures Untouched(a, a', r)
  {
    assert RecordMatches(a, t, th, r);
  }

  lemma RecycleLeaves(c: Config, a: Arena, a': Arena, t: ThreadId, th: Thread, th': Thread, r: RecordIndex)
    requires Coherent(c, a, t, th) && RecycleStep(c, a, th, a', th', t) && ClientRecord(a, r)
    ensures Untouched(a, a', r)
  {
    assert RecordMatches(a, t, th, r);
  }

  lemma SlotKeepsRecords(c: Config, a: Arena, a': Arena, t: ThreadId, th: Thread, th': Thread)
    requires ScanManagerStep(c, a, th, a', th', t) || DropSlotStep(c, a, th, a', th', t)
    ensures a'.records == a.records
  {}

  lemma GrowthKeepsRecords(c: Config, a: Arena, a': Arena, t: ThreadId, th: Thread, th': Thread)
    requires GrowFromStep(c, a, th, a', th', t) || GrowRetryStep(c, a, th, a', th', t) || GrowGiveUpStep(c, a, th, a', th', t)
    ensures a'.records == a.records
  {}

  lemma TakeKeepsRecords(c: Config, a: Arena, a': Arena, t: ThreadId, th: Thread, th': Thread)
    requires PopFreeStep(c, a, th, a', th', t) || GrowRecheckStep(c, a, th, a', th', t)
    ensures a'.records == a.records
  {}

  lemma ReserveKeepsRecords(c: Config, a: Arena, a': Arena, t: ThreadId, th: Thread, th': Thread)
    requires ReserveStep(c, a, th, a', th', t) && !th.pc.reserve.GrowCas? && !th.pc.reserve.GrowUndo?
    ensures a'.records == a.records
  {
    var pc := th.pc.reserve;
    if pc.ScanManager? || pc.DropSlot? {
      SlotKeepsRecords(c, a, a', t, th, th');
    } else if pc.GrowFrom? || pc.GrowRetry? || pc.GrowGiveUp? {
      GrowthKeepsRecords(c, a, a', t, th, th');
    } else if pc.PopFree? || pc.GrowRecheck? {
      TakeKeepsRecords(c, a, a', t, th, th');
    }
  }

  lemma ReserveLeaves(c: Config, a: Arena, a': Arena, t: ThreadId, th: Thread, th': Thread, r: RecordIndex)
    requires Coherent(c, a, t, th) && ReserveStep(c, a, th, a', th', t) && ClientRecord(a, r)
    ensures Untouched(a, a', r)
  {
    assert RecordMatches(a, t, th, r);
    if th.pc.reserve.GrowCas? {
      assert GrowCasStep(c, a, th, a', th', t);
    } else if th.pc.reserve.GrowUndo? {
      assert GrowUndoStep(c, a, th, a', th', t);
    } else {
      ReserveKeepsRecords(c, a, a', t, th, th');
    }
  }

  lemma CutLeaves(c: Config, a: Arena, a': Arena, t: ThreadId, th: Thread, th': Thread, r: RecordIndex)
    requires CutStep(c, a, th, a', th', t) && r in a.records
    ensures Untouched(a, a', r)
  {}

  lemma BindLeaves(c: Config, a: Arena, a': Arena, t: ThreadId, th: Thread, th': Thread, r: RecordIndex)
    requires Coherent(c, a, t, th) && BindStep(c, a, th, a', th', t) && ClientRecord(a, r)
    ensures Untouched(a, a', r)
  {
    assert RecordMatches(a, t, th, r);
  }

  lemma FreeLeaves(c: Config, a: Arena, a': Arena, t: ThreadId, th: Thread, th': Thread, r: RecordIndex)
    requires Coherent(c, a, t, th) && FreeStep(c, a, th, a', th', t) && ClientRecord(a, r)
    ensures Untouched(a, a', r) || (th.pc.free.AcceptCas? && th.pc.free.m == r && a.records[r].word == th.pc.free.w)
  {
    assert RecordMatches(a, t, th, r);
  }

  lemma WindowLeaves(c: Config, a: Arena, a': Arena, t: ThreadId, th: Thread, th': Thread, r: RecordIndex)
    requires Coherent(c, a, t, th) && WindowStep(c, a, th, a', th', t) && ClientRecord(a, r)
    ensures Untouched(a, a', r)
  {
    assert RecordMatches(a, t, th, r) && RecordOk(c, a, r);
    if ClaimCandidateStep(c, a, th, a', th', t) {
    } else if RestoreBatchStep(c, a, th, a', th', t) {
    } else if PublishNextStep(c, a, th, a', th', t) {
    } else {
      assert a'.records == a.records;
    }
  }

  lemma WalkLeaves(c: Config, a: Arena, a': Arena, t: ThreadId, th: Thread, th': Thread, r: RecordIndex)
    requires Coherent(c, a, t, th) && WalkStep(c, a, th, a', th', t) && ClientRecord(a, r)
    ensures Untouched(a, a', r)
  {
    assert RecordOk(c, a, r);
    if WalkCasStep(c, a, th, a', th', t) {
    } else if RestoreWalkStep(c, a, th, a', th', t) {
    } else if FinishWalkStep(c, a, th, a', th', t) {
    } else {
      assert a'.records == a.records;
    }
  }

  lemma TrimLeaves(c: Config, a: Arena, a': Arena, t: ThreadId, th: Thread, th': Thread, r: RecordIndex)
    requires Coherent(c, a, t, th) && TrimStep(c, a, th, a', th', t) && ClientRecord(a, r)
    ensures Untouched(a, a', r)
  {
    if ShrinkCasStep(c, a, th, a', th', t) && a.count == th.pc.trim.count && r >= th.pc.trim.k * RECORDS_PER_BLOCK {
      ShrinkDiscardsFree(c, a, t, th, r);
      assert false;
    }
  }

  /** Any step, unless it is the CAS that accepts the free. */
  lemma StepLeaves(c: Config, a: Arena, a': Arena, t: ThreadId, th: Thread, th': Thread, r: RecordIndex)
    requires Coherent(c, a, t, th) && ThreadStep(c, a, th, a', th', t) && ClientRecord(a, r)
    ensures Untouched(a, a', r)
      || (th.pc.Free? && th.pc.free.AcceptCas? && th.pc.free.m == r && a.records[r].word == th.pc.free.w)
  {
    if SearchStep(c, a, th, a', th', t) { SearchLeaves(c, a, a', t, th, th', r); }
    else if RecycleStep(c, a, th, a', th', t) { RecycleLeaves(c, a, a', t, th, th', r); }
    else if ReserveStep(c, a, th, a', th', t) { ReserveLeaves(c, a, a', t, th, th', r); }
    else if CutStep(c, a, th, a', th', t) { CutLeaves(c, a, a', t, th, th', r); }
    else if BindStep(c, a, th, a', th', t) { BindLeaves(c, a, a', t, th, th', r); }
    else if FreeStep(c, a, th, a', th', t) { FreeLeaves(c, a, a', t, th, th', r); }
    else if WindowStep(c, a, th, a', th', t) { WindowLeaves(c, a, a', t, th, th', r); }
    else if WalkStep(c, a, th, a', th', t) { WalkLeaves(c, a, a', t, th, th', r); }
    else { TrimLeaves(c, a, a', t, th, th', r); }
  }
}
