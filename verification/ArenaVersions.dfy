/**
  What the version in a record's state word is for.  It counts the frees accepted of the record, modulo
  4096, and so a free that read the word before another free was accepted is refused by its CAS.
 */
module ArenaVersions {
  import opened Wrappers
  import opened ArenaState
  import opened ArenaOps
  import opened ArenaInvariant
  import opened ArenaThreads
  import opened ArenaCoupling
  import opened ArenaSafety
  import opened ArenaHistory
  import ArenaClientRecords

  /** The step from a to a' accepts a free of the block that record m describes. */
  predicate AcceptsRecord(th: Thread, th': Thread, m: RecordIndex) {
    th.pc.Free? && th.pc.free.AcceptCas? && th.pc.free.m == m && th'.pc.Free? && th'.pc.free.StorePending?
  }

  predicate SameVersion(a: Arena, a': Arena, m: RecordIndex)
    requires m in a.records && m in a'.records
  {
    a'.records[m].word.version == a.records[m].word.version
  }

  lemma SearchKeepsVersion(c: Config, a: Arena, a': Arena, th: Thread, th': Thread, t: ThreadId, m: RecordIndex)
    requires SearchStep(c, a, th, a', th', t) && m in a.records && m in a'.records
    ensures SameVersion(a, a', m)
  {}

  lemma RecycleKeepsVersion(c: Config, a: Arena, a': Arena, th: Thread, th': Thread, t: ThreadId, m: RecordIndex)
    requires RecycleStep(c, a, th, a', th', t) && m in a.records && m in a'.records
    ensures SameVersion(a, a', m)
  {}

  lemma ReserveKeepsVersion(c: Config, a: Arena, a': Arena, th: Thread, th': Thread, t: ThreadId, m: RecordIndex)
    requires ReserveStep(c, a, th, a', th', t) && m in a.records && m in a'.records && m != a.count
    ensures SameVersion(a, a', m)
  {
    if th.pc.reserve.GrowCas? {
      assert GrowCasStep(c, a, th, a', th', t);
    } else if th.pc.reserve.GrowUndo? {
      assert GrowUndoStep(c, a, th, a', th', t);
    } else {
      ArenaClientRecords.ReserveKeepsRecords(c, a, a', t, th, th');
    }
  }

  lemma BindKeepsVersion(c: Config, a: Arena, a': Arena, th: Thread, th': Thread, t: ThreadId, m: RecordIndex)
    requires BindStep(c, a, th, a', th', t) && m in a.records && m in a'.records
    ensures SameVersion(a, a', m)
  {}

  lemma FreeCountsVersion(c: Config, a: Arena, a': Arena, th: Thread, th': Thread, t: ThreadId, m: RecordIndex)
    requires FreeStep(c, a, th, a', th', t) && m in a.records && m in a'.records
    ensures if AcceptsRecord(th, th', m) then a'.records[m].word.version == (a.records[m].word.version + 1) % VERSION_LIMIT
            else SameVersion(a, a', m)
  {}

  lemma WindowKeepsVersion(c: Config, a: Arena, a': Arena, th: Thread, th': Thread, t: ThreadId, m: RecordIndex)
    requires WindowStep(c, a, th, a', th', t) && m in a.records && m in a'.records
    ensures SameVersion(a, a', m)
  {
    if ClaimCandidateStep(c, a, th, a', th', t) {
    } else if RestoreBatchStep(c, a, th, a', th', t) {
    } else if PublishNextStep(c, a, th, a', th', t) {
    } else {
      assert a'.records == a.records;
    }
  }

  lemma WalkKeepsVersion(c: Config, a: Arena, a': Arena, th: Thread, th': Thread, t: ThreadId, m: RecordIndex)
    requires WalkStep(c, a, th, a', th', t) && m in a.records && m in a'.records
    ensures SameVersion(a, a', m)
  {
    if WalkCasStep(c, a, th, a', th', t) {
    } else if RestoreWalkStep(c, a, th, a', th', t) {
    } else if FinishWalkStep(c, a, th, a', th', t) {
    } else {
      assert a'.records == a.records;
    }
  }

  lemma TrimKeepsVersion(c: Config, a: Arena, a': Arena, th: Thread, th': Thread, t: ThreadId, m: RecordIndex)
    requires TrimStep(c, a, th, a', th', t) && m in a.records && m in a'.records
    ensures SameVersion(a, a', m)
  {
    if !ShrinkCasStep(c, a, th, a', th', t) {
      assert a'.records == a.records;
    }
  }

  /** Whatever step is taken, the version of a record that stays moves only when a free of it is accepted. */
  lemma StepCountsVersion(c: Config, a: Arena, a': Arena, th: Thread, th': Thread, t: ThreadId, m: RecordIndex)
    requires RecordsOk(c, a) && ThreadStep(c, a, th, a', th', t) && m in a.records && m in a'.records
    ensures if AcceptsRecord(th, th', m) then a'.records[m].word.version == (a.records[m].word.version + 1) % VERSION_LIMIT
            else SameVersion(a, a', m)
  {
    if SearchStep(c, a, th, a', th', t) { SearchKeepsVersion(c, a, a', th, th', t, m); }
    else if RecycleStep(c, a, th, a', th', t) { RecycleKeepsVersion(c, a, a', th, th', t, m); }
    else if ReserveStep(c, a, th, a', th', t) { ReserveKeepsVersion(c, a, a', th, th', t, m); }
    else if CutStep(c, a, th, a', th', t) { assert a'.records == a.records; }
    else if BindStep(c, a, th, a', th', t) { BindKeepsVersion(c, a, a', th, th', t, m); }
    else if FreeStep(c, a, th, a', th', t) { FreeCountsVersion(c, a, a', th, th', t, m); }
    else if WindowStep(c, a, th, a', th', t) { WindowKeepsVersion(c, a, a', th, th', t, m); }
    else if WalkStep(c, a, th, a', th', t) { WalkKeepsVersion(c, a, a', th, th', t, m); }
    else { TrimKeepsVersion(c, a, a', th, th', t, m); }
  }

  // ----- over whole runs -----

  /** The frees accepted of record m in steps i to j. */
  function AcceptsOfRecord(run: seq<System>, actors: seq<ThreadId>, m: RecordIndex, i: nat, j: nat): nat
    requires i <= j <= |actors| && |run| == |actors| + 1
  {
    if i == j then 0
    else AcceptsOfRecord(run, actors, m, i, j - 1)
         + if AcceptsRecord(ThreadAt(run[j - 1], actors[j - 1]), ThreadAt(run[j], actors[j - 1]), m) then 1 else 0
  }

  /** Record m is below the count in every state from i to j. */
  ghost predicate Stays(run: seq<System>, m: RecordIndex, i: nat, j: nat)
    requires i <= j < |run|
  {
    forall k {:trigger run[k]} :: i <= k <= j ==> m in run[k].arena.records
  }

  function VersionAt(s: System, m: RecordIndex): nat {
    RecordAt(s.arena, m).word.version
  }

  predicate CountsAt(run: seq<System>, actors: seq<ThreadId>, m: RecordIndex, k: nat)
    requires k < |actors| && |run| == |actors| + 1
  {
    VersionAt(run[k + 1], m) ==
      (if AcceptsRecord(ThreadAt(run[k], actors[k]), ThreadAt(run[k + 1], actors[k]), m) then (VersionAt(run[k], m) + 1) % VERSION_LIMIT
       else VersionAt(run[k], m))
  }

  lemma TraceCounts(c: Config, run: seq<System>, actors: seq<ThreadId>, m: RecordIndex, k: nat)
    requires ValidConfig(c) && IsTrace(c, run, actors) && OrderlyTrace(run, actors) && k < |actors|
    requires m in run[k].arena.records && m in run[k + 1].arena.records
    ensures CountsAt(run, actors, m, k)
  {
    TraceReaches(c, run, actors, k);
    assert TracedAt(c, run, actors, k);
    StateCounts(c, run[k], run[k + 1], actors[k], m);
  }

  lemma StateCounts(c: Config, s: System, s': System, t: ThreadId, m: RecordIndex)
    requires ValidConfig(c) && OrderlyReachable(c, s) && StepBy(c, s, s', t) && m in s.arena.records && m in s'.arena.records
    ensures VersionAt(s', m) ==
      (if AcceptsRecord(ThreadAt(s, t), ThreadAt(s', t), m) then (VersionAt(s, m) + 1) % VERSION_LIMIT else VersionAt(s, m))
  {
    ReachableHolds(c, s);
    StepCountsVersion(c, s.arena, s'.arena, ThreadAt(s, t), ThreadAt(s', t), t, m);
  }

  lemma {:induction false} CountsOverRun(run: seq<System>, actors: seq<ThreadId>, m: RecordIndex, i: nat, j: nat)
    requires i <= j <= |actors| && |run| == |actors| + 1
    requires forall k {:trigger CountsAt(run, actors, m, k)} :: i <= k < j ==> CountsAt(run, actors, m, k)
    ensures VersionAt(run[j], m) % VERSION_LIMIT == (VersionAt(run[i], m) + AcceptsOfRecord(run, actors, m, i, j)) % VERSION_LIMIT
  {
    if i < j {
      CountsOverRun(run, actors, m, i, j - 1);
      assert CountsAt(run, actors, m, j - 1);
      OneMore(VersionAt(run[j - 1], m), VersionAt(run[i], m) + AcceptsOfRecord(run, actors, m, i, j - 1));
    }
  }

  lemma OneMore(v: nat, n: nat)
    requires v % VERSION_LIMIT == n % VERSION_LIMIT
    ensures ((v + 1) % VERSION_LIMIT) % VERSION_LIMIT == (n + 1) % VERSION_LIMIT
  {}

  /** The version of a record that stays in the region is the number of its frees accepted, modulo 4096. */
  lemma VersionCountsAccepts(c: Config, run: seq<System>, actors: seq<ThreadId>, m: RecordIndex, i: nat, j: nat)
    requires ValidConfig(c) && IsTrace(c, run, actors) && OrderlyTrace(run, actors) && i <= j <= |actors| && Stays(run, m, i, j)
    ensures VersionAt(run[j], m) % VERSION_LIMIT == (VersionAt(run[i], m) + AcceptsOfRecord(run, actors, m, i, j)) % VERSION_LIMIT
  {
    forall k: nat | i <= k < j ensures CountsAt(run, actors, m, k) {
      assert m in run[k].arena.records && m in run[k + 1].arena.records;
      TraceCounts(c, run, actors, m, k);
    }
    CountsOverRun(run, actors, m, i, j);
  }

  lemma ReadSteps(c: Config, a: Arena, a': Arena, th: Thread, th': Thread, t: ThreadId)
    requires ThreadStep(c, a, th, a', th', t) && th.pc.Free? && th.pc.free.ReadWord?
    ensures ReadWordStep(c, a, th, a', th')
  {
    if SearchStep(c, a, th, a', th', t) { assert false; }
    else if RecycleStep(c, a, th, a', th', t) { assert false; }
    else if ReserveStep(c, a, th, a', th', t) { assert false; }
    else if CutStep(c, a, th, a', th', t) { assert false; }
    else if BindStep(c, a, th, a', th', t) { assert false; }
    else if WindowStep(c, a, th, a', th', t) { assert false; }
    else if WalkStep(c, a, th, a', th', t) { assert false; }
    else if TrimStep(c, a, th, a', th', t) { assert false; }
  }

  lemma ReadsVersion(c: Config, s: System, s': System, t: ThreadId, b: Address, m: RecordIndex, w: Word)
    requires StepBy(c, s, s', t) && ThreadAt(s, t).pc == Free(ReadWord(b, m)) && ThreadAt(s', t).pc == Free(AcceptCas(b, m, w))
    ensures w.version == VersionAt(s, m)
  {
    ReadSteps(c, s.arena, s'.arena, ThreadAt(s, t), ThreadAt(s', t), t);
  }

  /** The CAS of a free is refused once the version has moved. */
  lemma ChangedWordIsRefused(c: Config, s: System, s': System, t: ThreadId, b: Address, m: RecordIndex, w: Word)
    requires StepBy(c, s, s', t) && ThreadAt(s, t).pc == Free(AcceptCas(b, m, w)) && w.version != VersionAt(s, m)
    ensures ThreadAt(s', t).pc.Ready? && s'.arena == s.arena
  {
    FreeSteps(c, s.arena, s'.arena, ThreadAt(s, t), ThreadAt(s', t), t);
  }

  /**
    A free reads a record's word in step i and tries its CAS later.  Once a free of the record has been accepted
    in between, and fewer than 4096 have, the CAS is refused, even when the block has been allocated again and
    the record says so in the same words but for the version.
   */
  lemma StaleFreeIsRefused(
    c: Config, run: seq<System>, actors: seq<ThreadId>, t: ThreadId, b: Address, m: RecordIndex, w: Word, i: nat, j: nat)
    requires ValidConfig(c) && IsTrace(c, run, actors) && OrderlyTrace(run, actors) && i < j < |actors| && Stays(run, m, i, j)
    requires actors[i] == t && ThreadAt(run[i], t).pc == Free(ReadWord(b, m)) && ThreadAt(run[i + 1], t).pc == Free(AcceptCas(b, m, w))
    requires actors[j] == t && ThreadAt(run[j], t).pc == Free(AcceptCas(b, m, w))
    requires 0 < AcceptsOfRecord(run, actors, m, i, j) < VERSION_LIMIT
    ensures ThreadAt(run[j + 1], t).pc.Ready? && run[j + 1].arena == run[j].arena
  {
    VersionCountsAccepts(c, run, actors, m, i, j);
    ReadsAt(c, run, actors, i, b, m, w);
    Differs(w.version, VersionAt(run[j], m), AcceptsOfRecord(run, actors, m, i, j));
    RefusedAt(c, run, actors, j, b, m, w);
  }

  lemma ReadsAt(c: Config, run: seq<System>, actors: seq<ThreadId>, i: nat, b: Address, m: RecordIndex, w: Word)
    requires IsTrace(c, run, actors) && i < |actors|
    requires ThreadAt(run[i], actors[i]).pc == Free(ReadWord(b, m)) && ThreadAt(run[i + 1], actors[i]).pc == Free(AcceptCas(b, m, w))
    ensures w.version == VersionAt(run[i], m)
  {
    assert TracedAt(c, run, actors, i);
    ReadsVersion(c, run[i], run[i + 1], actors[i], b, m, w);
  }

  lemma RefusedAt(c: Config, run: seq<System>, actors: seq<ThreadId>, j: nat, b: Address, m: RecordIndex, w: Word)
    requires IsTrace(c, run, actors) && j < |actors|
    requires ThreadAt(run[j], actors[j]).pc == Free(AcceptCas(b, m, w)) && w.version != VersionAt(run[j], m)
    ensures ThreadAt(run[j + 1], actors[j]).pc.Ready? && run[j + 1].arena == run[j].arena
  {
    assert TracedAt(c, run, actors, j);
    ChangedWordIsRefused(c, run[j], run[j + 1], actors[j], b, m, w);
  }

  lemma Differs(v: nat, v': nat, n: nat)
    requires v' % VERSION_LIMIT == (v + n) % VERSION_LIMIT && 0 < n < VERSION_LIMIT
    ensures v' != v
  {}
}
