/** Cutting a block at the frontier, binding it to a record and freeing it: each step keeps the system coupled. */
module ArenaAllocateSteps {
  import opened Wrappers
  import opened ArenaState
  import opened ArenaOps
  import opened ArenaInvariant
  import opened ArenaChain
  import opened ArenaRecordOps
  import opened ArenaRegionOps
  import opened ArenaThreads
  import opened ArenaCoupling
  import opened ArenaInterference
  import opened ArenaStepFrame
  import opened ArenaSearchSteps

  // ----- get_next_empty_memory_block -----

  lemma LoadFrontierOk(c: Config, a: Arena, a': Arena, t: ThreadId, th: Thread, th': Thread)
    requires Coherent(c, a, t, th) && (LoadFrontierStep(c, a, th, a', th') || CheckCountStep(c, a, th, a', th'))
    ensures StepOk(c, a, a', t, th')
  {
    LocalStep(c, a, t, th, th');
  }

  lemma CarveCasOk(c: Config, a: Arena, a': Arena, t: ThreadId, th: Thread, th': Thread)
    requires Coherent(c, a, t, th) && CarveCasStep(c, a, th, a', th', t)
    ensures StepOk(c, a, a', t, th')
  {
    if WordOf(a) == th.pc.cut.word {
      CarvedOk(c, a, a', t, th, th');
    } else {
      LocalStep(c, a, t, th, th');
    }
  }

  lemma CarvedOk(c: Config, a: Arena, a': Arena, t: ThreadId, th: Thread, th': Thread)
    requires Coherent(c, a, t, th) && CarveCasStep(c, a, th, a', th', t) && WordOf(a) == th.pc.cut.word
    ensures StepOk(c, a, a', t, th')
  {
    var garbage :| a' == Carve(a, t, ClassSize(c, th.job), garbage);
    SizeOfClass(c, th.job.bin);
    CarveKeeps(c, a, t, ClassSize(c, th.job), garbage);
    CarveMatches(c, a, a', t, th, th');
    TouchBlock(c, a, a', t, th, th', a.frontier);
  }

  lemma CarveMatches(c: Config, a: Arena, a': Arena, t: ThreadId, th: Thread, th': Thread)
    requires Coherent(c, a, t, th) && CarveCasStep(c, a, th, a', th', t) && WordOf(a) == th.pc.cut.word && a.frontier !in a.chain
    ensures BlocksElsewhere(a, a', a.frontier) && LinkSame(a, a', a.frontier)
    ensures BlockMatches(a', t, th', a.frontier) && HolderKept(a, a', t, a.frontier)
    ensures Facts(c, a', th') && FlagAt(th'.pc) == FlagAt(th.pc)
  {
    assert BlockMatches(a, t, th, a.frontier);
  }

  lemma CarveRecheckOk(c: Config, a: Arena, a': Arena, t: ThreadId, th: Thread, th': Thread)
    requires Coherent(c, a, t, th) && CarveRecheckStep(c, a, th, a', th', t)
    ensures StepOk(c, a, a', t, th')
  {
    if OverlapsMetadata(c, a, th.pc.cut.word.frontier + ClassSize(c, th.job)) {
      LocalStep(c, a, t, th, th');
    } else {
      KeptOk(c, a, a', t, th, th');
    }
  }

  lemma KeptOk(c: Config, a: Arena, a': Arena, t: ThreadId, th: Thread, th': Thread)
    requires Coherent(c, a, t, th) && CarveRecheckStep(c, a, th, a', th', t)
    requires !OverlapsMetadata(c, a, th.pc.cut.word.frontier + ClassSize(c, th.job))
    ensures StepOk(c, a, a', t, th')
  {
    var b := th.pc.cut.word.frontier;
    assert BlockMatches(a, t, th, b);
    KeepBlockKeeps(c, a, t, b);
    TouchBlock(c, a, a', t, th, th', b);
  }

  /** A block that no record binds is not being filled by anyone. */
  lemma UnboundNotFilling(c: Config, a: Arena, t: ThreadId, b: Address)
    requires RecordsOk(c, a) && b in a.holders
    requires a.holders[b].Bound? ==> a.holders[b].record in a.records && !a.records[a.holders[b].record].word.state.InUse?
    ensures NoFilling(a, t, b)
  {
    forall r | HeldByOther(a, t, r) && a.owners[r].phase.Filling? && r in a.records ensures a.records[r].word.block != Some(b) {
      assert RecordOk(c, a, r);
    }
  }

  lemma CarveUndoOk(c: Config, a: Arena, a': Arena, t: ThreadId, th: Thread, th': Thread)
    requires Coherent(c, a, t, th) && CarveUndoStep(c, a, th, a', th')
    ensures StepOk(c, a, a', t, th')
  {
    var b := th.pc.cut.word.frontier;
    if WordOf(a) == FrontierWord(Some(b), b + ClassSize(c, th.job)) {
      UndoneMatches(c, a, a', t, th, th', b);
      UndoCarveKeeps(c, a, t, b, false);
      TouchBlock(c, a, a', t, th, th', b);
    } else {
      LocalStep(c, a, t, th, th');
    }
  }

  lemma UndoneMatches(c: Config, a: Arena, a': Arena, t: ThreadId, th: Thread, th': Thread, b: Address)
    requires Coherent(c, a, t, th) && CarveUndoStep(c, a, th, a', th') && b == th.pc.cut.word.frontier
    requires WordOf(a) == FrontierWord(Some(b), b + ClassSize(c, th.job))
    ensures b in a.chain && b in a.holders && a.holders[b] == Carved(t, false) && a.chain[b].previous == th.pc.cut.word.predecessor
    ensures BlocksElsewhere(a, a', b) && NoFilling(a, t, b)
    ensures BlockMatches(a', t, th', b) && HolderKept(a, a', t, b)
    ensures ReservedApart(th') && Facts(c, a', th')
  {
    assert BlockMatches(a, t, th, b);
    UnboundNotFilling(c, a, t, b);
  }

  lemma WriteSizeOk(c: Config, a: Arena, a': Arena, t: ThreadId, th: Thread, th': Thread)
    requires Coherent(c, a, t, th) && WriteSizeStep(c, a, th, a', th')
    ensures StepOk(c, a, a', t, th')
  {
    var b := th.pc.cut.word.frontier;
    assert BlockMatches(a, t, th, b);
    SetHeaderKeeps(c, a, t, b, HeaderAt(a, b).(size := ClassSize(c, th.job)));
    TouchBlock(c, a, a', t, th, th', b);
  }

  lemma WritePreviousOk(c: Config, a: Arena, a': Arena, t: ThreadId, th: Thread, th': Thread)
    requires Coherent(c, a, t, th) && WritePreviousStep(c, a, th, a', th')
    ensures StepOk(c, a, a', t, th')
  {
    var b := th.pc.cut.word.frontier;
    assert BlockMatches(a, t, th, b);
    SetHeaderKeeps(c, a, t, b, HeaderAt(a, b).(previous := th.pc.cut.word.predecessor));
    TouchBlock(c, a, a', t, th, th', b);
  }

  lemma CutStepOk(c: Config, a: Arena, a': Arena, t: ThreadId, th: Thread, th': Thread)
    requires Coherent(c, a, t, th) && CutStep(c, a, th, a', th', t)
    ensures StepOk(c, a, a', t, th')
  {
    match th.pc.cut
    case CarveCas(_) => CarveCasOk(c, a, a', t, th, th');
    case CarveRecheck(_) => CarveRecheckOk(c, a, a', t, th, th');
    case CarveUndo(_) => CarveUndoOk(c, a, a', t, th, th');
    case WriteSize(_) => WriteSizeOk(c, a, a', t, th, th');
    case WritePrevious(_) => WritePreviousOk(c, a, a', t, th, th');
    case _ => LoadFrontierOk(c, a, a', t, th, th');
  }

  // ----- the end of do_allocate -----

  /** A block claimed from a bin is bound to the record, and its header already says so. */
  lemma ClaimedBlock(c: Config, a: Arena, t: ThreadId, th: Thread)
    requires Coherent(c, a, t, th) && th.pc.Bind? && HeldBy(th, th.pc.m) == Some(Owned)
    ensures HeldAs(a, t, th.pc.m, Owned) && a.records[th.pc.m].word.block == Some(th.pc.b)
    ensures th.pc.b in a.chain && th.pc.b in a.holders && a.holders[th.pc.b] == Bound(th.pc.m)
    ensures th.pc.b in a.headers && a.headers[th.pc.b] == Header(th.pc.m, a.chain[th.pc.b].size, a.chain[th.pc.b].previous)
    ensures a.chain[th.pc.b].size == ClassSize(c, th.job)
  {
    assert RecordMatches(a, t, th, th.pc.m) && RecordOk(c, a, th.pc.m);
    assert HolderOk(a, th.pc.b);
  }

  lemma WriteIndexOk(c: Config, a: Arena, a': Arena, t: ThreadId, th: Thread, th': Thread)
    requires Coherent(c, a, t, th) && WriteIndexStep(c, a, th, a', th')
    ensures StepOk(c, a, a', t, th')
  {
    var b := th.pc.b;
    if th.pc.bind.carved {
      assert BlockMatches(a, t, th, b);
      SetHeaderKeeps(c, a, t, b, HeaderAt(a, b).(metadataIndex := th.pc.m));
      TouchBlock(c, a, a', t, th, th', b);
    } else {
      ClaimedBlock(c, a, t, th);
      assert a' == a;
      LocalStep(c, a, t, th, th');
    }
  }

  lemma StoreInUseOk(c: Config, a: Arena, a': Arena, t: ThreadId, th: Thread, th': Thread)
    requires Coherent(c, a, t, th) && StoreInUseStep(c, a, th, a', th', t)
    ensures StepOk(c, a, a', t, th')
  {
    if th.pc.bind.carved {
      BindOk(c, a, a', t, th, th');
    } else {
      ClaimedBlock(c, a, t, th);
      RebindKeeps(c, a, t, th.pc.m, th.pc.b);
      assert a'.holders == a.holders;
      TouchRecord(c, a, a', t, th, th', th.pc.m);
    }
  }

  lemma BindOk(c: Config, a: Arena, a': Arena, t: ThreadId, th: Thread, th': Thread)
    requires Coherent(c, a, t, th) && StoreInUseStep(c, a, th, a', th', t) && th.pc.bind.carved
    ensures StepOk(c, a, a', t, th')
  {
    var (b, m) := (th.pc.b, th.pc.m);
    BindMatches(c, a, a', t, th, th');
    BoundFacts(c, a, a', t, th, th');
    BindKeeps(c, a, t, m, b);
    assert SlotMatches(a, t, th, 0) && TrimMatches(a, t, th, 0);
    Touch(c, a, a', t, th, th', m, b, 0);
  }

  lemma BoundFacts(c: Config, a: Arena, a': Arena, t: ThreadId, th: Thread, th': Thread)
    requires Coherent(c, a, t, th) && StoreInUseStep(c, a, th, a', th', t) && th.pc.bind.carved
    ensures HoldingsElsewhere(th, th', th.pc.m, th.pc.b, 0) && LinkSame(a, a', th.pc.b)
    ensures FlagMatches(a', t, th') && ReservedApart(th') && Facts(c, a', th')
  {
    assert BlockMatches(a, t, th, th.pc.b);
  }

  lemma BindMatches(c: Config, a: Arena, a': Arena, t: ThreadId, th: Thread, th': Thread)
    requires Coherent(c, a, t, th) && StoreInUseStep(c, a, th, a', th', t) && th.pc.bind.carved
    ensures ReadyToBind(a, t, th.pc.m, th.pc.b)
    ensures RecordsElsewhere(a, a', th.pc.m) && BlocksElsewhere(a, a', th.pc.b)
    ensures RecordMatches(a', t, th', th.pc.m) && OwnerKept(a, a', t, th.pc.m) && FlagKept(a, a', t)
    ensures BlockMatches(a', t, th', th.pc.b) && HolderKept(a, a', t, th.pc.b)
  {
    var (b, m) := (th.pc.b, th.pc.m);
    assert RecordMatches(a, t, th, m) && BlockMatches(a, t, th, b);
    assert RecordOk(c, a, m);
  }

  lemma StoreSizeOk(c: Config, a: Arena, a': Arena, t: ThreadId, th: Thread, th': Thread)
    requires Coherent(c, a, t, th) && StoreSizeStep(c, a, th, a', th', t)
    ensures StepOk(c, a, a', t, th')
  {
    var (b, m) := (th.pc.b, th.pc.m);
    assert RecordMatches(a, t, th, m) && RecordOk(c, a, m) && HolderOk(a, b);
    FillKeeps(c, a, t, m, b);
    TouchRecord(c, a, a', t, th, th', m);
  }

  lemma ReturnOk(c: Config, a: Arena, a': Arena, t: ThreadId, th: Thread, th': Thread)
    requires Coherent(c, a, t, th) && ReturnStep(c, a, th, a', th')
    ensures StepOk(c, a, a', t, th')
  {
    var (b, m) := (th.pc.b, th.pc.m);
    assert RecordMatches(a, t, th, m) && RecordOk(c, a, m);
    ReturnKeeps(c, a, t, m, b, th.job.bytes);
    TouchRecord(c, a, a', t, th, th', m);
  }

  lemma BindStepOk(c: Config, a: Arena, a': Arena, t: ThreadId, th: Thread, th': Thread)
    requires Coherent(c, a, t, th) && BindStep(c, a, th, a', th', t)
    ensures StepOk(c, a, a', t, th')
  {
    match th.pc.bind
    case WriteIndex(_) => WriteIndexOk(c, a, a', t, th, th');
    case StoreInUse(_) => StoreInUseOk(c, a, a', t, th, th');
    case StoreSize => StoreSizeOk(c, a, a', t, th, th');
    case Return => ReturnOk(c, a, a', t, th, th');
  }

  // ----- do_try_deallocate -----

  lemma ReadForFreeOk(c: Config, a: Arena, a': Arena, t: ThreadId, th: Thread, th': Thread)
    requires Coherent(c, a, t, th)
    requires ReadIndexStep(c, a, th, a', th') || CheckIndexStep(c, a, th, a', th') || ReadWordStep(c, a, th, a', th')
    ensures StepOk(c, a, a', t, th')
  {
    LocalStep(c, a, t, th, th');
  }

  lemma AcceptCasOk(c: Config, a: Arena, a': Arena, t: ThreadId, th: Thread, th': Thread)
    requires Coherent(c, a, t, th) && AcceptCasStep(c, a, th, a', th', t) && !Premature(a, th)
    ensures StepOk(c, a, a', t, th')
  {
    var (b, m) := (th.pc.free.b, th.pc.free.m);
    if RecordAt(a, m).word == th.pc.free.w {
      AcceptedIsLive(c, a, m, b);
      AcceptKeeps(c, a, t, m, b);
      assert RecordMatches(a, t, th, m);
      TouchRecord(c, a, a', t, th, th', m);
    } else {
      LocalStep(c, a, t, th, th');
    }
  }

  /** An IN_USE record is the record of a live block exactly when its allocation has returned. */
  lemma AcceptedIsLive(c: Config, a: Arena, m: RecordIndex, b: Address)
    requires Inv(c, a) && RecordAt(a, m).word.state.InUse? && RecordAt(a, m).word.block == Some(b)
    ensures m in a.records && m in a.owners && (b in a.live <==> !NotYetReturned(a, m))
    ensures !NotYetReturned(a, m) ==> a.owners[m].WithClient?
  {
    assert RecordOk(c, a, m);
    assert ClientHas(a, m);
    assert b in a.live ==> LiveBlockOk(a, b);
  }

  lemma StorePendingOk(c: Config, a: Arena, a': Arena, t: ThreadId, th: Thread, th': Thread)
    requires Coherent(c, a, t, th) && StorePendingStep(c, a, th, a', th', t)
    ensures StepOk(c, a, a', t, th')
  {
    var m := th.pc.free.m;
    assert RecordMatches(a, t, th, m) && RecordOk(c, a, m);
    StorePendingKeeps(c, a, t, m);
    TouchRecord(c, a, a', t, th, th', m);
  }

  lemma PushPendingOk(c: Config, a: Arena, a': Arena, t: ThreadId, th: Thread, th': Thread)
    requires Coherent(c, a, t, th) && PushPendingStep(c, a, th, a', th')
    ensures StepOk(c, a, a', t, th')
  {
    var m := th.pc.free.m;
    assert RecordMatches(a, t, th, m);
    PushPendingKeeps(c, a, t, m);
    TouchRecord(c, a, a', t, th, th', m);
  }

  lemma FreeStepOk(c: Config, a: Arena, a': Arena, t: ThreadId, th: Thread, th': Thread)
    requires Coherent(c, a, t, th) && FreeStep(c, a, th, a', th', t) && !Premature(a, th)
    ensures StepOk(c, a, a', t, th')
  {
    match th.pc.free
    case AcceptCas(_, _, _) => AcceptCasOk(c, a, a', t, th, th');
    case StorePending(_) => StorePendingOk(c, a, a', t, th, th');
    case PushPendingList(_) => PushPendingOk(c, a, a', t, th, th');
    case _ => ReadForFreeOk(c, a, a', t, th, th');
  }
}
