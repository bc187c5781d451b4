/**
  The effect of each atomic action on the shared memory, together with the change of responsibility
  it makes.  Each function is total: it says what the action does to whatever memory it finds.
 */
module ArenaOps {
  import opened Wrappers
  import opened ArenaState

  /**
    A record at or above the count is memory that the arena may use for anything.  Its word stands for any
    word that does not say that some block is in use or available: by TestsFail the code's tests and CASes
    come out the same for all of those.
   */
  function RecordAt(a: Arena, r: RecordIndex): Record {
    if r in a.records then a.records[r] else Record(Word(None, Invalid, 0), 0)
  }

  function HeaderAt(a: Arena, b: Address): Header {
    if b in a.headers then a.headers[b] else Header(0, 0, None)
  }

  function SetWord(a: Arena, r: RecordIndex, w: Word, owner: Owner): Arena {
    a.(records := a.records[r := RecordAt(a, r).(word := w)], owners := a.owners[r := owner])
  }

  function SetOwner(a: Arena, r: RecordIndex, owner: Owner): Arena {
    a.(owners := a.owners[r := owner])
  }

  function SetManager(a: Arena, k: nat, m: Manager): Arena {
    if k < |a.managers| then a.(managers := a.managers[k := m]) else a
  }

  function ManagerAt(a: Arena, k: nat): Manager {
    if k < |a.managers| then a.managers[k] else Manager(0, NotTrimming, {}, {})
  }

  // ----- frontier -----

  /** The frontier CAS of an allocation: the block [frontier, frontier + size) is cut, its header unwritten. */
  function Carve(a: Arena, t: ThreadId, size: nat, garbage: Header): Arena {
    a.(frontier := a.frontier + size,
       predecessor := Some(a.frontier),
       chain := a.chain[a.frontier := Link(size, a.predecessor)],
       holders := a.holders[a.frontier := Carved(t, false)],
       headers := a.headers[a.frontier := garbage])
  }

  function SetHolder(a: Arena, b: Address, holder: Holder): Arena {
    a.(holders := a.holders[b := holder])
  }

  /** Moves the frontier word back to (previous, b): the block at b leaves the chain. */
  function DropBlock(a: Arena, b: Address, previous: Option<Address>): Arena {
    a.(frontier := b, predecessor := previous, chain := a.chain - {b}, holders := a.holders - {b}, headers := a.headers - {b})
  }

  function SetHeader(a: Arena, b: Address, h: Header): Arena {
    a.(headers := a.headers[b := h])
  }

  // ----- managers and the metadata region -----

  function ReserveSlot(a: Arena, t: ThreadId, k: nat): Arena {
    var m := ManagerAt(a, k);
    SetManager(a, k, m.(activeCount := m.activeCount + 1, slots := m.slots + {t}))
  }

  function ReleaseSlot(a: Arena, t: ThreadId, k: nat): Arena {
    var m := ManagerAt(a, k);
    SetManager(a, k, m.(activeCount := if m.activeCount == 0 then 0 else m.activeCount - 1, slots := m.slots - {t}))
  }

  function PopFreeRecord(a: Arena, t: ThreadId, k: nat, r: RecordIndex): Arena {
    var m := ManagerAt(a, k);
    SetOwner(SetManager(a, k, m.(freeList := m.freeList - {r}, slots := m.slots - {t})), r, Held(t, Reserved))
  }

  function PushFreeRecord(a: Arena, t: ThreadId, r: RecordIndex): Arena {
    var k := ManagerOf(r);
    var m := ManagerAt(a, k);
    SetOwner(SetManager(a, k, m.(freeList := m.freeList + {r}, slots := m.slots + {t})), r, OnFreeList)
  }

  /** Read as a record's state word, this does not say that some block is in use or available. */
  predicate NamesNoBlock(w: Word) {
    w.state.InUse? || w.state.Available? ==> w.block.None?
  }

  /** A free and a walk look for a block in use or available, and their CAS expects the word they have seen. */
  lemma TestsFail(w: Word, seen: Word, b: Address)
    requires NamesNoBlock(w)
    ensures !(w.state.InUse? && w.block == Some(b)) && !(w.state.Available? && w.block == Some(b))
    ensures (seen.state.InUse? || seen.state.Available?) && seen.block.Some? ==> w != seen
  {}

  /** The count CAS of a growth: record `count` comes into being with whatever its memory holds. */
  function Grow(a: Arena, t: ThreadId, word: Word, totalSize: nat): Arena {
    var k := ManagerOf(a.count);
    var m := ManagerAt(a, k);
    SetManager(a, k, m.(slots := m.slots - {t})).(
      count := a.count + 1,
      records := a.records[a.count := Record(word, totalSize)],
      owners := a.owners[a.count := Held(t, Growing)])
  }

  function UndoGrow(a: Arena, t: ThreadId, r: RecordIndex): Arena {
    var k := ManagerOf(r);
    var m := ManagerAt(a, k);
    SetManager(a, k, m.(slots := m.slots + {t})).(count := r, records := a.records - {r}, owners := a.owners - {r})
  }

  function SetTrimmer(a: Arena, k: nat, trimmer: Trimmer): Arena {
    SetManager(a, k, ManagerAt(a, k).(trimmer := trimmer))
  }

  /** The count CAS of a trim: every record from `newCount` up is discarded. */
  function Shrink(a: Arena, t: ThreadId, k: nat, newCount: nat): Arena {
    SetTrimmer(a, k, Shrunk(t)).(
      count := newCount,
      records := map r | r in a.records && r < newCount :: a.records[r],
      owners := map r | r in a.owners && r < newCount :: a.owners[r])
  }

  function ClearFreeList(a: Arena, t: ThreadId, k: nat): Arena {
    SetManager(a, k, ManagerAt(a, k).(trimmer := Trimming(t), freeList := {}))
  }

  // ----- records -----

  /** Stores IN_USE with the block's address and the version found. */
  function BindRecord(a: Arena, t: ThreadId, r: RecordIndex, b: Address): Arena {
    SetHolder(SetWord(a, r, Word(Some(b), InUse, RecordAt(a, r).word.version), Held(t, Filling)), b, Bound(r))
  }

  function SetTotalSize(a: Arena, r: RecordIndex, size: nat, owner: Owner): Arena {
    a.(records := a.records[r := RecordAt(a, r).(totalSize := size)], owners := a.owners[r := owner])
  }

  function ReturnBlock(a: Arena, r: RecordIndex, b: Address, bytes: nat): Arena {
    SetOwner(a, r, WithClient).(live := a.live[b := bytes])
  }

  function AcceptFree(a: Arena, t: ThreadId, r: RecordIndex, b: Address): Arena {
    SetWord(a, r, RecordAt(a, r).word.WithStateAndNextVersion(Locked), Held(t, Owned)).(live := a.live - {b})
  }

  function PushPending(a: Arena, r: RecordIndex): Arena {
    SetOwner(a, r, OnPendingList).(pendingList := a.pendingList + {r})
  }

  /** Takes a whole shard's list, of which pendingList is the union. */
  function StealPending(a: Arena, t: ThreadId, shard: set<RecordIndex>): Arena {
    a.(pendingList := a.pendingList - shard, owners := a.owners + map r | r in shard :: Held(t, Queued))
  }

  function PushBin(a: Arena, k: nat, r: RecordIndex): Arena {
    SetOwner(a, r, InBin).(bins := a.bins + {BinEntry(k, r)})
  }

  function PopBin(a: Arena, t: ThreadId, k: nat, r: RecordIndex): Arena {
    SetOwner(a, r, Held(t, Loose)).(bins := a.bins - {BinEntry(k, r)})
  }

  /** Moves a record's state without touching its list: the claim and its outcome are noted on the flag. */
  function SetStateUnderFlag(a: Arena, r: RecordIndex, state: BlockState, flag: Flag): Arena {
    a.(records := a.records[r := RecordAt(a, r).(word := RecordAt(a, r).word.WithState(state))], flag := flag)
  }
}
