/** How much the client's blocks waste: in every state of every orderly run each has the least size that serves its request. */
module ArenaBlockSizes {
  import opened Wrappers
  import opened ArenaState
  import opened ArenaOps
  import opened ArenaInvariant
  import opened ArenaThreads
  import opened ArenaCoupling
  import opened ArenaStepFrame
  import opened ArenaSafety
  import opened ArenaHistory
  import opened ArenaClientRecords
  import SizeClasses

  /** The block at b, if the client has it, is of the least class that holds its request and header. */
  ghost predicate Snug(c: Config, a: Arena, b: Address) {
    b in a.live ==> b in a.chain && ValidRequest(c, a.live[b]) && a.chain[b].size == SizeFor(c, a.live[b])
  }

  /** The size of a live block is in its record, too. */
  lemma LiveRecord(c: Config, a: Arena, b: Address)
    requires Inv(c, a) && b in a.live
    ensures b in a.holders && a.holders[b].Bound? && b in a.chain
    ensures var r := a.holders[b].record;
      ClientRecord(a, r) && a.records[r].word.block == Some(b) && a.records[r].word.state.InUse? && a.records[r].totalSize == a.chain[b].size
  {
    assert LiveBlockOk(a, b);
    assert HolderOk(a, b);
    assert RecordOk(c, a, a.holders[b].record);
  }

  /** Record r, which describes the live block b, is still the record that describes it. */
  lemma SameRecord(c: Config, a: Arena, b: Address, r: RecordIndex)
    requires Inv(c, a) && b in a.live && r in a.records && a.records[r].word.block == Some(b) && a.records[r].word.state.InUse?
    ensures b in a.holders && a.holders[b] == Bound(r)
  {
    assert r in a.owners && RecordOk(c, a, r);
  }

  /** A step that does not accept the block's free leaves its record as it was. */
  lemma RecordStays(c: Config, s: System, s': System, t: ThreadId, b: Address)
    requires ValidConfig(c) && OrderlyReachable(c, s) && StepBy(c, s, s', t) && b in s.arena.live && !Accepts(s, s', t, b)
    ensures b in s.arena.holders && b in s.arena.chain && s.arena.holders[b].Bound?
    ensures var r := s.arena.holders[b].record;
      && r in s.arena.records && r in s'.arena.records && s'.arena.records[r] == s.arena.records[r]
      && s.arena.records[r].word.block == Some(b) && s.arena.records[r].word.state.InUse? && s.arena.records[r].totalSize == s.arena.chain[b].size
  {
    ReachableHolds(c, s);
    var (a, a', th) := (s.arena, s'.arena, ThreadAt(s, t));
    LiveRecord(c, a, b);
    var r := a.holders[b].record;
    assert Coupled(c, a, t, th);
    StepLeaves(c, a, a', t, th, ThreadAt(s', t), r);
    if !Untouched(a, a', r) {
      FreeSteps(c, a, a', th, ThreadAt(s', t), t);
      assert false;
    }
  }

  lemma StaysSnug(c: Config, s: System, s': System, t: ThreadId, b: Address)
    requires ValidConfig(c) && OrderlyReachable(c, s) && OrderlyReachable(c, s') && StepBy(c, s, s', t)
    requires b in s.arena.live && b in s'.arena.live && !Accepts(s, s', t, b)
    ensures b in s.arena.chain && b in s'.arena.chain && s'.arena.chain[b].size == s.arena.chain[b].size
  {
    RecordStays(c, s, s', t, b);
    var r := s.arena.holders[b].record;
    ReachableHolds(c, s');
    SameRecord(c, s'.arena, b, r);
    LiveRecord(c, s'.arena, b);
  }

  /** The record that do_allocate is about to return names the block, with the size of the request's class. */
  lemma ReturnedRecord(c: Config, s: System, s': System, t: ThreadId, b: Address)
    requires ValidConfig(c) && OrderlyReachable(c, s) && StepBy(c, s, s', t) && Returns(s, t, b)
    ensures var (th, m) := (ThreadAt(s, t), ThreadAt(s, t).pc.m);
      && th.job.Alloc? && s'.arena.live == s.arena.live[b := th.job.bytes] && ValidRequest(c, th.job.bytes)
      && m in s'.arena.records && s'.arena.records[m].word.block == Some(b) && s'.arena.records[m].word.state.InUse?
      && s'.arena.records[m].totalSize == SizeFor(c, th.job.bytes)
  {
    ReachableHolds(c, s);
    var (a, th) := (s.arena, ThreadAt(s, t));
    assert Coupled(c, a, t, th);
    ReturnSteps(c, a, s'.arena, th, ThreadAt(s', t), t);
    assert RecordMatches(a, t, th, th.pc.m) && RecordOk(c, a, th.pc.m);
  }

  lemma ReturnsSnug(c: Config, s: System, s': System, t: ThreadId, b: Address)
    requires ValidConfig(c) && OrderlyReachable(c, s) && OrderlyReachable(c, s') && StepBy(c, s, s', t) && Returns(s, t, b)
    ensures Snug(c, s'.arena, b)
  {
    ReturnedRecord(c, s, s', t, b);
    ReachableHolds(c, s');
    SameRecord(c, s'.arena, b, ThreadAt(s, t).pc.m);
    LiveRecord(c, s'.arena, b);
  }

  lemma ReturnSteps(c: Config, a: Arena, a': Arena, th: Thread, th': Thread, t: ThreadId)
    requires ThreadStep(c, a, th, a', th', t) && th.pc.Bind? && th.pc.bind.Return?
    ensures ReturnStep(c, a, th, a', th')
  {
    if SearchStep(c, a, th, a', th', t) { assert false; }
    else if RecycleStep(c, a, th, a', th', t) { assert false; }
    else if ReserveStep(c, a, th, a', th', t) { assert false; }
    else if CutStep(c, a, th, a', th', t) { assert false; }
    else if FreeStep(c, a, th, a', th', t) { assert false; }
    else if WindowStep(c, a, th, a', th', t) { assert false; }
    else if WalkStep(c, a, th, a', th', t) { assert false; }
    else if TrimStep(c, a, th, a', th', t) { assert false; }
  }

  lemma StepSnug(c: Config, s: System, s': System, t: ThreadId, b: Address)
    requires ValidConfig(c) && OrderlyReachable(c, s) && OrderlyReachable(c, s') && StepBy(c, s, s', t) && Snug(c, s.arena, b)
    ensures Snug(c, s'.arena, b)
  {
    if b in s'.arena.live {
      LiveChanges(c, s, s', t);
      if Returns(s, t, b) {
        ReturnsSnug(c, s, s', t, b);
      } else {
        StaysSnug(c, s, s', t, b);
      }
    }
  }

  ghost predicate StaysSnugAt(c: Config, run: seq<System>, i: nat, b: Address)
    requires i + 1 < |run|
  {
    Snug(c, run[i].arena, b) ==> Snug(c, run[i + 1].arena, b)
  }

  lemma {:induction false} InductionOverRun(c: Config, run: seq<System>, i: nat, b: Address)
    requires i < |run| && Snug(c, run[0].arena, b)
    requires forall j {:trigger StaysSnugAt(c, run, j, b)} :: 0 <= j < |run| - 1 ==> StaysSnugAt(c, run, j, b)
    ensures Snug(c, run[i].arena, b)
  {
    if i > 0 {
      InductionOverRun(c, run, i - 1, b);
      assert StaysSnugAt(c, run, i - 1, b);
    }
  }

  lemma RunSnug(c: Config, run: seq<System>, i: nat, b: Address)
    requires ValidConfig(c) && IsRun(c, run) && Orderly(c, run) && i < |run|
    ensures Snug(c, run[i].arena, b)
  {
    forall j: nat | j + 1 < |run| ensures StaysSnugAt(c, run, j, b) {
      assert OrderlyAt(c, run, j);
      NextSnug(c, run, j, b);
    }
    InductionOverRun(c, run, i, b);
  }

  lemma NextSnug(c: Config, run: seq<System>, i: nat, b: Address)
    requires ValidConfig(c) && IsRun(c, run) && Orderly(c, run) && i + 1 < |run| && OrderlyAt(c, run, i)
    ensures StaysSnugAt(c, run, i, b)
  {
    assert OrderlyReachable(c, run[i]) && OrderlyReachable(c, run[i + 1]);
    var t :| StepBy(c, run[i], run[i + 1], t) && !FreesInFlight(run[i], t);
    if Snug(c, run[i].arena, b) {
      StepSnug(c, run[i], run[i + 1], t, b);
    }
  }

  /** In every state of every orderly run, a live block is of the least class that holds its request and header. */
  lemma LiveBlocksAreSnug(c: Config, s: System, b: Address)
    requires ValidConfig(c) && OrderlyReachable(c, s) && b in s.arena.live
    ensures b in s.arena.chain && ValidRequest(c, s.arena.live[b]) && s.arena.chain[b].size == SizeFor(c, s.arena.live[b])
  {
    var run, i :| IsRun(c, run) && Orderly(c, run) && 0 <= i < |run| && run[i] == s;
    RunSnug(c, run, i, b);
  }

  /** With the table of a legal policy: request and header fit, and the waste is bounded by the policy's percentage. */
  lemma LiveBlockWaste(policy: SizeClasses.Policy, metadataStart: nat, managerCapacity: nat, s: System, b: Address)
    requires SizeClasses.ValidPolicy(policy) && 0 < metadataStart < NO_PREDECESSOR
    requires OrderlyReachable(Config(metadataStart, SizeClasses.InUnits(SizeClasses.Table(policy)), managerCapacity), s) && b in s.arena.live
    ensures b in s.arena.chain
    ensures var need := s.arena.live[b] + 64;
      need <= 64 * s.arena.chain[b].size <= need + SizeClasses.CeilDiv100(need * policy.wastePercent) + 63
  {
    var (table, need) := (SizeClasses.Table(policy), s.arena.live[b] + 64);
    var c := Config(metadataStart, SizeClasses.InUnits(table), managerCapacity);
    SizeClasses.TableConfigures(policy, metadataStart, managerCapacity, need);
    assert UnitsFor(s.arena.live[b]) == SizeClasses.AlignUp(need) / 64;
    LiveBlocksAreSnug(c, s, b);
    SizeClasses.TableShape(policy);
    SizeClasses.WasteIsBounded(policy, need);
  }
}
