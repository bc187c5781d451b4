/** A step of one thread leaves alone whatever the other threads rely on. */
module ArenaInterference {
  import opened Wrappers
  import opened ArenaState
  import opened ArenaOps
  import opened ArenaInvariant
  import opened ArenaThreads
  import opened ArenaCoupling

  predicate HeldByOther(a: Arena, t: ThreadId, r: RecordIndex) {
    r in a.owners && a.owners[r].Held? && a.owners[r].thread != t
  }

  predicate CarvedByOther(a: Arena, t: ThreadId, b: Address) {
    b in a.holders && a.holders[b].Carved? && a.holders[b].thread != t
  }

  predicate RecordSame(a: Arena, a': Arena, r: RecordIndex) {
    && r in a.records && r in a'.records
    && a'.records[r].word.block == a.records[r].word.block
    && a'.records[r].totalSize == a.records[r].totalSize
  }

  predicate LinkSame(a: Arena, a': Arena, b: Address) {
    b in a.chain ==> b in a'.chain && a'.chain[b] == a.chain[b]
  }

  ghost predicate OwnerKept(a: Arena, a': Arena, t: ThreadId, r: RecordIndex) {
    HeldByOther(a, t, r) || HeldByOther(a', t, r) ==>
      && r in a.owners && r in a'.owners && a'.owners[r] == a.owners[r] && RecordSame(a, a', r)
      && (a.owners[r].phase.Growing? ==> a'.records[r] == a.records[r])
      && (a.owners[r].phase.Filling? && a.records[r].word.block.Some? ==> LinkSame(a, a', a.records[r].word.block.value))
  }

  ghost predicate HolderKept(a: Arena, a': Arena, t: ThreadId, b: Address) {
    CarvedByOther(a, t, b) || CarvedByOther(a', t, b) ==>
      && b in a.holders && b in a'.holders && a'.holders[b] == a.holders[b]
      && LinkSame(a, a', b) && HeaderAt(a', b) == HeaderAt(a, b)
  }

  ghost predicate ManagerKept(m: Manager, m': Manager, t: ThreadId) {
    && m'.slots - {t} == m.slots - {t}
    && (m'.trimmer == m.trimmer
        || ((m.trimmer.NotTrimming? || m.trimmer.thread == t) && (m'.trimmer.NotTrimming? || m'.trimmer.thread == t)))
  }

  ghost predicate FlagKept(a: Arena, a': Arena, t: ThreadId) {
    (a.flag.Up? && a.flag.thread != t) || (a'.flag.Up? && a'.flag.thread != t) ==>
      && a'.flag == a.flag
      && (!a.flag.claim.NoClaim? ==> RecordSame(a, a', a.flag.claim.record))
  }

  ghost predicate OthersKept(a: Arena, a': Arena, t: ThreadId) {
    && (forall r {:trigger OwnerKept(a, a', t, r)} :: OwnerKept(a, a', t, r))
    && (forall b {:trigger HolderKept(a, a', t, b)} :: HolderKept(a, a', t, b))
    && |a'.managers| == |a.managers|
    && (forall k {:trigger ManagerKept(a.managers[k], a'.managers[k], t)} ::
          0 <= k < |a.managers| ==> ManagerKept(a.managers[k], a'.managers[k], t))
    && FlagKept(a, a', t)
  }

  lemma MatchesKept(c: Config, a: Arena, a': Arena, t: ThreadId, u: ThreadId, th: Thread)
    requires OthersKept(a, a', t) && u != t && Coupled(c, a, u, th)
    ensures forall r {:trigger RecordMatches(a', u, th, r)} :: RecordMatches(a', u, th, r)
    ensures forall b {:trigger BlockMatches(a', u, th, b)} :: BlockMatches(a', u, th, b)
    ensures forall k {:trigger SlotMatches(a', u, th, k)} :: SlotMatches(a', u, th, k)
    ensures forall k {:trigger TrimMatches(a', u, th, k)} :: TrimMatches(a', u, th, k)
    ensures FlagMatches(a', u, th)
  {
    forall r ensures RecordMatches(a', u, th, r) {
      assert RecordMatches(a, u, th, r) && OwnerKept(a, a', t, r);
    }
    forall b ensures BlockMatches(a', u, th, b) {
      assert BlockMatches(a, u, th, b) && HolderKept(a, a', t, b);
    }
    forall k: nat ensures SlotMatches(a', u, th, k) {
      assert SlotMatches(a, u, th, k);
      if k < |a.managers| {
        assert ManagerKept(a.managers[k], a'.managers[k], t);
        assert u in a.managers[k].slots <==> u in a.managers[k].slots - {t};
        assert u in a'.managers[k].slots <==> u in a'.managers[k].slots - {t};
      }
    }
    forall k: nat ensures TrimMatches(a', u, th, k) {
      assert TrimMatches(a, u, th, k);
      if k < |a.managers| {
        assert ManagerKept(a.managers[k], a'.managers[k], t);
      }
    }
  }

  /** A record the thread holds at this point keeps its block and its size. */
  lemma HeldKept(c: Config, a: Arena, a': Arena, t: ThreadId, u: ThreadId, th: Thread, r: RecordIndex)
    requires OthersKept(a, a', t) && u != t && Coupled(c, a, u, th) && HeldBy(th, r).Some?
    ensures RecordSame(a, a', r)
    ensures r in a'.owners && a'.owners[r] == Held(u, HeldBy(th, r).value)
    ensures HeldBy(th, r) == Some(Filling) && a.records[r].word.block.Some? ==> LinkSame(a, a', a.records[r].word.block.value)
  {
    assert RecordMatches(a, u, th, r) && OwnerKept(a, a', t, r);
  }

  lemma CutKept(c: Config, a: Arena, a': Arena, t: ThreadId, u: ThreadId, th: Thread)
    requires OthersKept(a, a', t) && u != t && Coupled(c, a, u, th) && CarvedAt(th.pc).Some?
    ensures LinkSame(a, a', CarvedAt(th.pc).value.0)
    ensures HeaderAt(a', CarvedAt(th.pc).value.0) == HeaderAt(a, CarvedAt(th.pc).value.0)
  {
    var b := CarvedAt(th.pc).value.0;
    assert BlockMatches(a, u, th, b) && HolderKept(a, a', t, b);
  }

  lemma SearchFactsKept(c: Config, a: Arena, a': Arena, t: ThreadId, u: ThreadId, th: Thread)
    requires OthersKept(a, a', t) && u != t && Coupled(c, a, u, th) && th.pc.Search?
    ensures PcFacts(c, a', th.job, th.pc)
  {
    if !th.pc.search.PopNext? {
      HeldKept(c, a, a', t, u, th, th.pc.search.m);
    }
  }

  lemma RecycleFactsKept(c: Config, a: Arena, a': Arena, t: ThreadId, u: ThreadId, th: Thread)
    requires OthersKept(a, a', t) && u != t && Coupled(c, a, u, th) && th.pc.Recycle?
    ensures PcFacts(c, a', th.job, th.pc)
  {
    if th.pc.next.ThenBind? {
      HeldKept(c, a, a', t, u, th, th.pc.next.record);
    }
  }

  lemma CutFactsKept(c: Config, a: Arena, a': Arena, t: ThreadId, u: ThreadId, th: Thread)
    requires OthersKept(a, a', t) && u != t && Coupled(c, a, u, th) && th.pc.Cut?
    ensures PcFacts(c, a', th.job, th.pc)
  {
    if CarvedAt(th.pc).Some? {
      CutKept(c, a, a', t, u, th);
    }
  }

  lemma BindFactsKept(c: Config, a: Arena, a': Arena, t: ThreadId, u: ThreadId, th: Thread)
    requires OthersKept(a, a', t) && u != t && Coupled(c, a, u, th) && th.pc.Bind?
    ensures PcFacts(c, a', th.job, th.pc)
  {
    HeldKept(c, a, a', t, u, th, th.pc.m);
    if CarvedAt(th.pc).Some? {
      CutKept(c, a, a', t, u, th);
    }
  }

  lemma WindowFactsKept(c: Config, a: Arena, a': Arena, t: ThreadId, u: ThreadId, th: Thread)
    requires OthersKept(a, a', t) && u != t && Coupled(c, a, u, th) && th.pc.Window? && RecordsOk(c, a')
    ensures PcFacts(c, a', th.job, th.pc)
  {
    if th.pc.window.ClaimCandidate? {
      HeldKept(c, a, a', t, u, th, th.pc.window.m);
      assert RecordOk(c, a', th.pc.window.m);
    } else if th.pc.window.RollBatch? {
      HeldKept(c, a, a', t, u, th, th.pc.window.m);
    }
  }

  lemma WalkFactsKept(c: Config, a: Arena, a': Arena, t: ThreadId, u: ThreadId, th: Thread)
    requires OthersKept(a, a', t) && u != t && Coupled(c, a, u, th) && th.pc.Walk?
    ensures PcFacts(c, a', th.job, th.pc)
  {
    assert FlagMatches(a, u, th);
  }

  lemma OthersStayCoupled(c: Config, a: Arena, a': Arena, t: ThreadId, u: ThreadId, th: Thread)
    requires OthersKept(a, a', t) && u != t && Coupled(c, a, u, th) && RecordsOk(c, a')
    ensures Coupled(c, a', u, th)
  {
    MatchesKept(c, a, a', t, u, th);
    match th.pc
    case Search(_) => SearchFactsKept(c, a, a', t, u, th);
    case Recycle(_, _, _) => RecycleFactsKept(c, a, a', t, u, th);
    case Cut(_) => CutFactsKept(c, a, a', t, u, th);
    case Bind(_, _, _) => BindFactsKept(c, a, a', t, u, th);
    case Window(_, _, _) => WindowFactsKept(c, a, a', t, u, th);
    case Walk(_) => WalkFactsKept(c, a, a', t, u, th);
    case _ =>
  }
}
