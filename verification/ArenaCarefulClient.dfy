/**
  What a careful client can rely on.  A client keeps an account of the addresses it has been given and not
  freed since; it is careful if it frees only what is on its account.  That is about its own calls alone.
 */
module ArenaCarefulClient {
  import opened Wrappers
  import opened ArenaState
  import opened ArenaOps
  import opened ArenaInvariant
  import opened ArenaThreads
  import opened ArenaCoupling
  import opened ArenaStepFrame
  import opened ArenaAllocateSteps
  import opened ArenaSafety
  import opened ArenaHistory
  import opened ArenaClientRecords

  /** Thread t's step from s to s' calls do_try_deallocate with b. */
  predicate FreeCall(s: System, s': System, t: ThreadId, b: Address) {
    ThreadAt(s, t).pc.Ready? && ThreadAt(s', t).pc == Free(ReadIndex(b))
  }

  function AfterStep(account: set<Address>, s: System, s': System, t: ThreadId): set<Address> {
    var (pc, pc') := (ThreadAt(s, t).pc, ThreadAt(s', t).pc);
    if pc.Bind? && pc.bind.Return? then account + {pc.b}
    else if pc.Ready? && pc'.Free? && pc'.free.ReadIndex? then account - {pc'.free.b}
    else account
  }

  /** The addresses returned to the client in the first n steps that it has not passed to do_try_deallocate since. */
  ghost function Account(run: seq<System>, actors: seq<ThreadId>, n: nat): set<Address>
    requires n <= |actors| < |run|
  {
    if n == 0 then {} else AfterStep(Account(run, actors, n - 1), run[n - 1], run[n], actors[n - 1])
  }

  ghost predicate CarefulStep(account: set<Address>, s: System, s': System, t: ThreadId) {
    forall b {:trigger FreeCall(s, s', t, b)} :: FreeCall(s, s', t, b) ==> b in account
  }

  /** The client frees only what it has been given, and each once. */
  ghost predicate Careful(run: seq<System>, actors: seq<ThreadId>)
    requires |run| == |actors| + 1
  {
    forall i {:trigger actors[i]} :: 0 <= i < |actors| ==> CarefulStep(Account(run, actors, i), run[i], run[i + 1], actors[i])
  }

  // ----- frees that are not yet decided -----

  predicate FreeingAt(pc: Pc, b: Address) {
    pc.Free? && (pc.free.ReadIndex? || pc.free.CheckIndex? || pc.free.ReadWord? || pc.free.AcceptCas?) && pc.free.b == b
  }

  /** What the thread has read so far still holds. */
  predicate StillTrue(a: Arena, pc: Pc, b: Address)
    requires FreeingAt(pc, b)
  {
    && b in a.live && b in a.headers
    && (!pc.free.ReadIndex? ==> pc.free.m == a.headers[b].metadataIndex)
    && (pc.free.AcceptCas? ==> RecordAt(a, pc.free.m).word == pc.free.w)
  }

  ghost predicate SomeoneFrees(s: System, b: Address) {
    exists t {:trigger ThreadAt(s, t)} :: FreeingAt(ThreadAt(s, t).pc, b)
  }

  /** The client's blocks are those on its account and those being freed, each by one thread. */
  ghost predicate Consistent(s: System, account: set<Address>) {
    && (forall b {:trigger b in s.arena.live} {:trigger b in account} :: b in s.arena.live <==> b in account || SomeoneFrees(s, b))
    && (forall t, b {:trigger FreeingAt(ThreadAt(s, t).pc, b)} :: FreeingAt(ThreadAt(s, t).pc, b) ==>
          b !in account && StillTrue(s.arena, ThreadAt(s, t).pc, b))
    && (forall t1, t2, b {:trigger FreeingAt(ThreadAt(s, t1).pc, b), FreeingAt(ThreadAt(s, t2).pc, b)} ::
          FreeingAt(ThreadAt(s, t1).pc, b) && FreeingAt(ThreadAt(s, t2).pc, b) ==> t1 == t2)
  }

  // ----- one step -----

  /** A careful client's free meets no allocation in flight. */
  lemma NoneInFlight(c: Config, s: System, t: ThreadId, account: set<Address>)
    requires SystemInv(c, s) && Consistent(s, account)
    ensures !FreesInFlight(s, t)
  {
    if FreesInFlight(s, t) {
      var pc := ThreadAt(s, t).pc;
      PrematureIsInFlight(c, s, t);
      assert Coupled(c, s.arena, t, ThreadAt(s, t));
      assert FreeingAt(pc, pc.free.b);
      AcceptedIsLive(c, s.arena, pc.free.m, pc.free.b);
      assert false;
    }
  }

  lemma FreesOnly(c: Config, a: Arena, a': Arena, th: Thread, th': Thread, t: ThreadId)
    requires ThreadStep(c, a, th, a', th', t) && th.pc.Free?
    ensures FreeStep(c, a, th, a', th', t)
  {
    if SearchStep(c, a, th, a', th', t) { assert false; }
    else if RecycleStep(c, a, th, a', th', t) { assert false; }
    else if ReserveStep(c, a, th, a', th', t) { assert false; }
    else if CutStep(c, a, th, a', th', t) { assert false; }
    else if BindStep(c, a, th, a', th', t) { assert false; }
    else if WindowStep(c, a, th, a', th', t) { assert false; }
    else if WalkStep(c, a, th, a', th', t) { assert false; }
    else if TrimStep(c, a, th, a', th', t) { assert false; }
  }

  /** Only a call leads into do_try_deallocate. */
  lemma CallsOnly(c: Config, a: Arena, a': Arena, th: Thread, th': Thread, t: ThreadId)
    requires ThreadStep(c, a, th, a', th', t) && !th.pc.Free? && th'.pc.Free?
    ensures th.pc.Ready? && a' == a && th'.pc.free.ReadIndex?
  {
    if SearchStep(c, a, th, a', th', t) {
      assert ReadyStep(c, a, th, a', th');
    }
    else if RecycleStep(c, a, th, a', th', t) { assert false; }
    else if ReserveStep(c, a, th, a', th', t) { assert false; }
    else if CutStep(c, a, th, a', th', t) { assert false; }
    else if BindStep(c, a, th, a', th', t) { assert false; }
    else if FreeStep(c, a, th, a', th', t) { assert false; }
    else if WindowStep(c, a, th, a', th', t) { assert false; }
    else if WalkStep(c, a, th, a', th', t) { assert false; }
    else { assert false; }
  }

  /** The record of a live block: its header leads to it, and it is IN_USE for the block. */
  lemma LiveRecord(c: Config, a: Arena, b: Address) returns (r: RecordIndex)
    requires Inv(c, a) && b in a.live
    ensures b in a.headers && a.headers[b].metadataIndex == r < a.count && ClientRecord(a, r)
    ensures a.records[r].word.state.InUse? && a.records[r].word.block == Some(b)
  {
    assert LiveBlockOk(a, b) && HolderOk(a, b);
    r := a.holders[b].record;
    assert RecordOk(c, a, r);
  }

  /** A free of a live block passes each of its checks: it goes on, or it is accepted. */
  lemma FreeGoesOn(c: Config, a: Arena, a': Arena, th: Thread, th': Thread, t: ThreadId, b: Address)
    requires Inv(c, a) && FreeStep(c, a, th, a', th', t) && FreeingAt(th.pc, b) && StillTrue(a, th.pc, b)
    ensures if th.pc.free.AcceptCas? then th'.pc.Free? && th'.pc.free.StorePending?
            else a' == a && FreeingAt(th'.pc, b) && StillTrue(a', th'.pc, b)
  {
    var r := LiveRecord(c, a, b);
  }

  /** Until it is accepted back, a live block keeps its record and the record its word. */
  lemma LiveRecordStays(c: Config, s: System, s': System, t: ThreadId, b: Address)
    requires ValidConfig(c) && SystemInv(c, s) && SystemInv(c, s') && StepBy(c, s, s', t)
    requires b in s.arena.live && b in s'.arena.live && !Accepts(s, s', t, b)
    ensures b in s.arena.headers && b in s'.arena.headers && s'.arena.headers[b].metadataIndex == s.arena.headers[b].metadataIndex
    ensures var r := s.arena.headers[b].metadataIndex; RecordAt(s'.arena, r).word == RecordAt(s.arena, r).word
  {
    var (a, a') := (s.arena, s'.arena);
    var r := LiveRecord(c, a, b);
    var r' := LiveRecord(c, a', b);
    assert Coupled(c, a, t, ThreadAt(s, t));
    StepLeaves(c, a, a', t, ThreadAt(s, t), ThreadAt(s', t), r);
    if Untouched(a, a', r) {
      assert RecordOk(c, a', r) && HolderOk(a', b);
    } else {
      FreeSteps(c, a, a', ThreadAt(s, t), ThreadAt(s', t), t);
      assert false;
    }
  }

  /** The acting thread's free, if it is in one, afterwards. */
  lemma OwnFree(c: Config, s: System, s': System, t: ThreadId, account: set<Address>, b: Address)
    requires ValidConfig(c) && SystemInv(c, s) && StepBy(c, s, s', t) && Consistent(s, account) && CarefulStep(account, s, s', t)
    requires FreeingAt(ThreadAt(s', t).pc, b)
    ensures FreeingAt(ThreadAt(s, t).pc, b) || FreeCall(s, s', t, b)
    ensures s'.arena == s.arena && StillTrue(s'.arena, ThreadAt(s', t).pc, b) && b !in AfterStep(account, s, s', t)
  {
    var (a, a', th, th') := (s.arena, s'.arena, ThreadAt(s, t), ThreadAt(s', t));
    if th.pc.Free? {
      FreesOnly(c, a, a', th, th', t);
      assert FreeingAt(th.pc, b);
      FreeGoesOn(c, a, a', th, th', t, b);
    } else {
      CallsOnly(c, a, a', th, th', t);
      assert FreeCall(s, s', t, b);
      var r := LiveRecord(c, a, b);
    }
  }

  /** The frees of the other threads, afterwards. */
  lemma OthersFree(c: Config, s: System, s': System, t: ThreadId, account: set<Address>, u: ThreadId, b: Address)
    requires ValidConfig(c) && OrderlyReachable(c, s) && SystemInv(c, s) && SystemInv(c, s') && StepBy(c, s, s', t)
    requires Consistent(s, account) && u != t && FreeingAt(ThreadAt(s', u).pc, b)
    ensures FreeingAt(ThreadAt(s, u).pc, b) && StillTrue(s'.arena, ThreadAt(s', u).pc, b) && b !in AfterStep(account, s, s', t)
  {
    assert ThreadAt(s', u) == ThreadAt(s, u);
    assert FreeingAt(ThreadAt(s, u).pc, b);
    LiveChanges(c, s, s', t);
    assert Accepts(s, s', t, b) ==> FreeingAt(ThreadAt(s, t).pc, b);
    LiveRecordStays(c, s, s', t, b);
    if Returns(s, t, b) {
      ReturnedBlockIsNew(c, s, t);
      assert false;
    }
  }

  /** What is live afterwards is on the account or being freed. */
  lemma LiveAfter(c: Config, s: System, s': System, t: ThreadId, account: set<Address>, b: Address)
    requires ValidConfig(c) && SystemInv(c, s) && StepBy(c, s, s', t) && Consistent(s, account) && CarefulStep(account, s, s', t)
    ensures b in s'.arena.live <==> b in AfterStep(account, s, s', t) || SomeoneFrees(s', b)
  {
    LiveChanges(c, s, s', t);
    var (a, a', th, th') := (s.arena, s'.arena, ThreadAt(s, t), ThreadAt(s', t));
    if FreeingAt(th'.pc, b) {
      OwnFree(c, s, s', t, account, b);
    }
    if FreeingAt(th.pc, b) {
      FreesOnly(c, a, a', th, th', t);
      FreeGoesOn(c, a, a', th, th', t, b);
    }
    FreedByOthers(s, s', t, b, c);
  }

  lemma FreedByOthers(s: System, s': System, t: ThreadId, b: Address, c: Config)
    requires StepBy(c, s, s', t)
    ensures SomeoneFrees(s, b) && !FreeingAt(ThreadAt(s, t).pc, b) ==> SomeoneFrees(s', b)
    ensures SomeoneFrees(s', b) && !FreeingAt(ThreadAt(s', t).pc, b) ==> SomeoneFrees(s, b)
  {
    if SomeoneFrees(s, b) && !FreeingAt(ThreadAt(s, t).pc, b) {
      var u :| FreeingAt(ThreadAt(s, u).pc, b);
      assert ThreadAt(s', u) == ThreadAt(s, u);
    }
    if SomeoneFrees(s', b) && !FreeingAt(ThreadAt(s', t).pc, b) {
      var u :| FreeingAt(ThreadAt(s', u).pc, b);
      assert ThreadAt(s', u) == ThreadAt(s, u);
    }
  }

  /** A careful step keeps the account right. */
  lemma StepStaysConsistent(c: Config, s: System, s': System, t: ThreadId, account: set<Address>)
    requires ValidConfig(c) && OrderlyReachable(c, s) && StepBy(c, s, s', t)
    requires Consistent(s, account) && CarefulStep(account, s, s', t)
    ensures !FreesInFlight(s, t) && Consistent(s', AfterStep(account, s, s', t))
  {
    ReachableHolds(c, s);
    NoneInFlight(c, s, t, account);
    StepHolds(c, s, s', t);
    var account' := AfterStep(account, s, s', t);
    forall b ensures b in s'.arena.live <==> b in account' || SomeoneFrees(s', b) {
      LiveAfter(c, s, s', t, account, b);
    }
    forall u, b | FreeingAt(ThreadAt(s', u).pc, b) ensures b !in account' && StillTrue(s'.arena, ThreadAt(s', u).pc, b) {
      if u == t {
        OwnFree(c, s, s', t, account, b);
      } else {
        OthersFree(c, s, s', t, account, u, b);
      }
    }
    forall u1, u2, b | FreeingAt(ThreadAt(s', u1).pc, b) && FreeingAt(ThreadAt(s', u2).pc, b) ensures u1 == u2 {
      OneFreesEach(c, s, s', t, account, u1, u2, b);
    }
  }

  lemma OneFreesEach(c: Config, s: System, s': System, t: ThreadId, account: set<Address>, u1: ThreadId, u2: ThreadId, b: Address)
    requires ValidConfig(c) && SystemInv(c, s) && StepBy(c, s, s', t) && Consistent(s, account) && CarefulStep(account, s, s', t)
    requires FreeingAt(ThreadAt(s', u1).pc, b) && FreeingAt(ThreadAt(s', u2).pc, b)
    ensures u1 == u2
  {
    if u1 == t || u2 == t {
      OwnFree(c, s, s', t, account, b);
    }
    assert u1 != t ==> FreeingAt(ThreadAt(s, u1).pc, b);
    assert u2 != t ==> FreeingAt(ThreadAt(s, u2).pc, b);
  }

  // ----- whole runs -----

  lemma Starts(c: Config, s: System)
    requires Init(c, s)
    ensures OrderlyReachable(c, s) && Consistent(s, {})
  {
    assert IsRun(c, [s]) && Orderly(c, [s]) && [s][0] == s;
  }

  /** The n-th state is one of an orderly run, and the account is right. */
  ghost predicate RightAt(c: Config, run: seq<System>, actors: seq<ThreadId>, n: nat)
    requires n <= |actors| < |run|
  {
    OrderlyReachable(c, run[n]) && Consistent(run[n], Account(run, actors, n))
  }

  ghost predicate StaysRight(c: Config, run: seq<System>, actors: seq<ThreadId>, n: nat)
    requires n < |actors| < |run|
  {
    RightAt(c, run, actors, n) ==> RightAt(c, run, actors, n + 1)
  }

  lemma NextIsRight(c: Config, run: seq<System>, actors: seq<ThreadId>, n: nat)
    requires ValidConfig(c) && IsTrace(c, run, actors) && Careful(run, actors) && n < |actors|
    ensures StaysRight(c, run, actors, n)
  {
    if RightAt(c, run, actors, n) {
      assert TracedAt(c, run, actors, n);
      StepStaysConsistent(c, run[n], run[n + 1], actors[n], Account(run, actors, n));
      OneMoreStep(c, run[n], run[n + 1], actors[n]);
    }
  }

  lemma {:induction false} InductionOverTrace(c: Config, run: seq<System>, actors: seq<ThreadId>, n: nat)
    requires n <= |actors| < |run| && RightAt(c, run, actors, 0)
    requires forall i {:trigger StaysRight(c, run, actors, i)} :: 0 <= i < |actors| ==> StaysRight(c, run, actors, i)
    ensures RightAt(c, run, actors, n)
  {
    if n > 0 {
      InductionOverTrace(c, run, actors, n - 1);
      assert StaysRight(c, run, actors, n - 1);
    }
  }

  /** Along a careful run every state is one of an orderly run, and the account is right. */
  lemma CarefulStates(c: Config, run: seq<System>, actors: seq<ThreadId>, n: nat)
    requires ValidConfig(c) && IsTrace(c, run, actors) && Careful(run, actors) && n <= |actors|
    ensures OrderlyReachable(c, run[n]) && Consistent(run[n], Account(run, actors, n))
  {
    Starts(c, run[0]);
    forall i: nat | i < |actors| ensures StaysRight(c, run, actors, i) {
      NextIsRight(c, run, actors, i);
    }
    InductionOverTrace(c, run, actors, n);
  }

  /** A run in which the client frees only what it has been given, and each once, is orderly. */
  lemma CarefulIsOrderly(c: Config, run: seq<System>, actors: seq<ThreadId>)
    requires ValidConfig(c) && IsTrace(c, run, actors) && Careful(run, actors)
    ensures OrderlyTrace(run, actors) && OrderlyReachable(c, run[|actors|])
  {
    CarefulStates(c, run, actors, |actors|);
    forall i: nat | i < |actors| ensures !FreesInFlight(run[i], actors[i]) {
      CarefulStates(c, run, actors, i);
      ReachableHolds(c, run[i]);
      NoneInFlight(c, run[i], actors[i], Account(run, actors, i));
    }
  }

  // ----- what follows for the client -----

  /**
    The blocks on a careful client's account are live, hold what was asked for, lie below the frontier and
    do not overlap, whatever its other threads allocate, free and maintain meanwhile.
   */
  lemma CarefulBlocksAreSafe(c: Config, run: seq<System>, actors: seq<ThreadId>, n: nat)
    requires ValidConfig(c) && IsTrace(c, run, actors) && Careful(run, actors) && n <= |actors|
    ensures var (a, account) := (run[n].arena, Account(run, actors, n));
      && (forall b :: b in account ==> b in a.live)
      && (forall b :: b in a.live ==> b in a.chain && End(a.chain, b) <= a.frontier && a.live[b] + 64 <= 64 * a.chain[b].size)
      && (forall b1, b2 :: b1 in a.live && b2 in a.live && b1 < b2 ==> b1 in a.chain && End(a.chain, b1) <= b2)
  {
    CarefulStates(c, run, actors, n);
    LiveBlocksAreSafe(c, run[n]);
  }

  /** A block has been accepted for freeing as often as it was returned, but for the one time it may be live. */
  lemma CarefulFreesOnce(c: Config, run: seq<System>, actors: seq<ThreadId>, b: Address, n: nat)
    requires ValidConfig(c) && IsTrace(c, run, actors) && Careful(run, actors) && n <= |actors|
    ensures ReturnsOf(run, actors, b, n) == AcceptsOf(run, actors, b, n) + if b in run[n].arena.live then 1 else 0
  {
    CarefulIsOrderly(c, run, actors);
    AcceptedOncePerAllocation(c, run, actors, b, n);
  }

  /** No free of a careful client is refused: each of its steps leads on, and the CAS accepts. */
  lemma CarefulFreesAreAccepted(c: Config, run: seq<System>, actors: seq<ThreadId>, n: nat, b: Address)
    requires ValidConfig(c) && IsTrace(c, run, actors) && Careful(run, actors) && n < |actors|
    requires FreeingAt(ThreadAt(run[n], actors[n]).pc, b)
    ensures if ThreadAt(run[n], actors[n]).pc.free.AcceptCas? then Accepts(run[n], run[n + 1], actors[n], b)
            else FreeingAt(ThreadAt(run[n + 1], actors[n]).pc, b)
  {
    CarefulStates(c, run, actors, n);
    ReachableHolds(c, run[n]);
    var (s, s', t) := (run[n], run[n + 1], actors[n]);
    assert TracedAt(c, run, actors, n);
    FreesOnly(c, s.arena, s'.arena, ThreadAt(s, t), ThreadAt(s', t), t);
    FreeGoesOn(c, s.arena, s'.arena, ThreadAt(s, t), ThreadAt(s', t), t, b);
  }

  /** When no free is under way, the client's account is exactly what is live. */
  lemma AccountIsExact(c: Config, run: seq<System>, actors: seq<ThreadId>, n: nat)
    requires ValidConfig(c) && IsTrace(c, run, actors) && Careful(run, actors) && n <= |actors|
    ensures forall b :: b in run[n].arena.live <==> b in Account(run, actors, n) || SomeoneFrees(run[n], b)
    ensures forall b :: SomeoneFrees(run[n], b) ==> b !in Account(run, actors, n)
  {
    CarefulStates(c, run, actors, n);
  }
}
