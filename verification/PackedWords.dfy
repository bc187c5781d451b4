/**
  The packed words of the single arena, bit for bit.  The model of the allocator compares predecessor and
  frontier, or block, state and version, as values; one compare-and-swap of the packed word does the same.
 */
module PackedWords {
  import opened Wrappers

  // ----- the frontier word: predecessor in the upper half, frontier in the lower -----

  const NO_PREDECESSOR: bv32 := 0xFFFF_FFFF

  datatype Frontier = Frontier(frontier: bv32, predecessor: Option<bv32>)

  /** Offsets in 64-byte units; none reaches NO_PREDECESSOR, since the arena is smaller than that. */
  predicate ValidFrontier(f: Frontier) {
    f.predecessor != Some(NO_PREDECESSOR)
  }

  /** pack_frontier */
  function PackFrontier(f: Frontier): bv64 {
    ((match f.predecessor case None => NO_PREDECESSOR case Some(p) => p) as bv64 << 32) | (f.frontier as bv64)
  }

  /** unpack_frontier and unpack_predecessor */
  function UnpackFrontier(word: bv64): Frontier {
    var predecessor := (word >> 32) as bv32;
    Frontier((word & 0xFFFF_FFFF) as bv32, if predecessor == NO_PREDECESSOR then None else Some(predecessor))
  }

  lemma FrontierRoundTrip(f: Frontier)
    requires ValidFrontier(f)
    ensures UnpackFrontier(PackFrontier(f)) == f
  {
    var p: bv32 := match f.predecessor case None => NO_PREDECESSOR case Some(p) => p;
    HalvesRoundTrip(p, f.frontier);
  }

  lemma HalvesRoundTrip(high: bv32, low: bv32)
    ensures var word := (high as bv64 << 32) | (low as bv64);
      (word >> 32) as bv32 == high && (word & 0xFFFF_FFFF) as bv32 == low
  {}

  /** Two words are equal exactly when frontier and predecessor are. */
  lemma FrontierWordsCompare(f: Frontier, g: Frontier)
    requires ValidFrontier(f) && ValidFrontier(g)
    ensures PackFrontier(f) == PackFrontier(g) <==> f == g
  {
    FrontierRoundTrip(f);
    FrontierRoundTrip(g);
  }

  // ----- the block state word: offset:48, state:4, version:12 -----

  const OFFSET_MASK: bv64 := 0xFFFF_FFFF_FFFF
  const STATE_MASK: bv64 := 0xF
  const VERSION_MASK: bv64 := 0xFFF

  datatype BlockWord = BlockWord(offset: Option<bv64>, state: bv64, version: bv64)

  predicate ValidWord(w: BlockWord) {
    && (w.offset.Some? ==> w.offset.value < OFFSET_MASK)
    && w.state <= STATE_MASK && w.version <= VERSION_MASK
  }

  function Pack(w: BlockWord): bv64 {
    ((match w.offset case None => OFFSET_MASK case Some(o) => o) & OFFSET_MASK)
    | ((w.state & STATE_MASK) << 48) | ((w.version & VERSION_MASK) << 52)
  }

  function Unpack(word: bv64): BlockWord {
    var offset := word & OFFSET_MASK;
    BlockWord(if offset == OFFSET_MASK then None else Some(offset), (word >> 48) & STATE_MASK, (word >> 52) & VERSION_MASK)
  }

  function WithState(word: bv64, state: bv64): bv64 {
    (word & !(STATE_MASK << 48)) | ((state & STATE_MASK) << 48)
  }

  function IncrementVersion(word: bv64): bv64 {
    (word & !(VERSION_MASK << 52)) | (((((word >> 52) & VERSION_MASK) + 1) & VERSION_MASK) << 52)
  }

  lemma FieldsRoundTrip(offset: bv64, state: bv64, version: bv64)
    requires offset <= OFFSET_MASK && state <= STATE_MASK && version <= VERSION_MASK
    ensures var word := (offset & OFFSET_MASK) | ((state & STATE_MASK) << 48) | ((version & VERSION_MASK) << 52);
      word & OFFSET_MASK == offset && (word >> 48) & STATE_MASK == state && (word >> 52) & VERSION_MASK == version
  {}

  lemma WordRoundTrip(w: BlockWord)
    requires ValidWord(w)
    ensures Unpack(Pack(w)) == w
  {
    FieldsRoundTrip(match w.offset case None => OFFSET_MASK case Some(o) => o, w.state, w.version);
  }

  /** Two words are equal exactly when block, state and version are. */
  lemma BlockWordsCompare(v: BlockWord, w: BlockWord)
    requires ValidWord(v) && ValidWord(w)
    ensures Pack(v) == Pack(w) <==> v == w
  {
    WordRoundTrip(v);
    WordRoundTrip(w);
  }

  lemma WithStateFields(word: bv64, state: bv64)
    requires state <= STATE_MASK
    ensures WithState(word, state) & OFFSET_MASK == word & OFFSET_MASK
    ensures (WithState(word, state) >> 48) & STATE_MASK == state
    ensures (WithState(word, state) >> 52) & VERSION_MASK == (word >> 52) & VERSION_MASK
  {}

  lemma IncrementVersionFields(word: bv64)
    ensures IncrementVersion(word) & OFFSET_MASK == word & OFFSET_MASK
    ensures (IncrementVersion(word) >> 48) & STATE_MASK == (word >> 48) & STATE_MASK
    ensures (IncrementVersion(word) >> 52) & VERSION_MASK == (((word >> 52) & VERSION_MASK) + 1) & VERSION_MASK
  {}

  lemma StateChanges(word: bv64, state: bv64)
    requires state <= STATE_MASK
    ensures Unpack(WithState(word, state)) == Unpack(word).(state := state)
  {
    WithStateFields(word, state);
  }

  function Next(version: bv64): bv64 {
    (version + 1) & VERSION_MASK
  }

  lemma VersionChanges(word: bv64)
    ensures Unpack(IncrementVersion(word)) == Unpack(word).(version := Next(Unpack(word).version))
  {
    IncrementVersionFields(word);
  }

  /** with_state_and_increment_version: the block stays, and the version steps by one, wrapping within its 12 bits. */
  lemma StateAndVersionChange(w: BlockWord, state: bv64)
    requires ValidWord(w) && state <= STATE_MASK
    ensures Unpack(WithState(Pack(w), state)) == w.(state := state)
    ensures Unpack(IncrementVersion(WithState(Pack(w), state)))
         == w.(state := state, version := if w.version == VERSION_MASK then 0 else w.version + 1)
  {
    WordRoundTrip(w);
    StateChanges(Pack(w), state);
    VersionChanges(WithState(Pack(w), state));
    NextVersion(w.version);
  }

  lemma NextVersion(version: bv64)
    requires version <= VERSION_MASK
    ensures Next(version) == if version == VERSION_MASK then 0 else version + 1
  {}
}
