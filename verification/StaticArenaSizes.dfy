/** Block sizes of the static arena: powers of two times 64 bytes up to 4096, multiples of 64 above. */
module StaticArenaSizes {
  const MIN_ALIGNMENT: nat := 64
  const LARGEST_CLASS: nat := 4096
  const NUM_BINS: nat := 8
  const HEADER_BYTES: nat := 8

  predicate Aligned(n: nat) {
    n % 64 == 0
  }

  /** (n + 63) & ~63, for sums that do not wrap. */
  function RoundUp(n: nat): (r: nat)
    ensures Aligned(r) && n <= r < n + MIN_ALIGNMENT
  {
    (n + 63) / 64 * 64
  }

  /** The size of every block in a class bin. */
  function ClassSize(bin: nat): (size: nat)
    ensures size >= MIN_ALIGNMENT && Aligned(size)
  {
    if bin == 0 then MIN_ALIGNMENT else 2 * ClassSize(bin - 1)
  }

  /** The seven class bins hold 64, 128, ..., 4096 bytes. */
  lemma {:induction false} ClassSizesGrow(i: nat, j: nat)
    requires i < j
    ensures ClassSize(i) < ClassSize(j)
    decreases j
  {
    if i < j - 1 {
      ClassSizesGrow(i, j - 1);
    }
  }

  lemma LargestClass()
    ensures ClassSize(6) == LARGEST_CLASS
  {
    assert ClassSize(1) == 128 && ClassSize(2) == 256 && ClassSize(3) == 512;
    assert ClassSize(4) == 1024 && ClassSize(5) == 2048;
  }

  /** Some request may be given a block of this size. */
  ghost predicate IsBlockSize(size: nat) {
    (exists bin: nat :: bin < NUM_BINS - 1 && size == ClassSize(bin)) || (size > LARGEST_CLASS && Aligned(size))
  }

  /** Blocks of this size belong in this bin. */
  ghost predicate Fits(bin: nat, size: nat) {
    if bin < NUM_BINS - 1 then size == ClassSize(bin) else bin == NUM_BINS - 1 && size > LARGEST_CLASS && Aligned(size)
  }

  /** The bytes a request needs before rounding to a class: a free block must hold its size header. */
  function Needed(bytes: nat): nat {
    if bytes < HEADER_BYTES then HEADER_BYTES else bytes
  }

  /** The first class of at least size bytes, from class size `from` on. */
  function ClassFrom(size: nat, from: nat): (r: nat)
    requires 0 < from
    decreases size - from
  {
    if from < size then ClassFrom(size, 2 * from) else from
  }

  function BlockSizeFor(bytes: nat): (size: nat) {
    var rounded := RoundUp(Needed(bytes));
    if rounded > LARGEST_CLASS then rounded else ClassFrom(rounded, MIN_ALIGNMENT)
  }

  function BinFrom(size: nat, bin: nat): (r: nat)
    requires size <= LARGEST_CLASS && bin < NUM_BINS - 1
    ensures r < NUM_BINS - 1
    decreases NUM_BINS - bin
  {
    if ClassSize(bin) < size && bin < NUM_BINS - 2 then BinFrom(size, bin + 1) else bin
  }

  function BinFor(size: nat): (bin: nat)
    ensures bin < NUM_BINS
  {
    if size > LARGEST_CLASS then NUM_BINS - 1 else BinFrom(size, 0)
  }

  lemma {:induction false} ClassFromIsLeast(size: nat, bin: nat)
    requires size <= LARGEST_CLASS && bin < NUM_BINS - 1 && (bin > 0 ==> ClassSize(bin - 1) < size)
    ensures var r := ClassFrom(size, ClassSize(bin));
      && size <= r && r == ClassSize(BinFrom(size, bin))
      && (forall i: nat :: i < BinFrom(size, bin) ==> ClassSize(i) < size)
    decreases NUM_BINS - bin
  {
    LargestClass();
    if ClassSize(bin) < size {
      if bin == NUM_BINS - 2 {
        assert false;
      } else {
        ClassFromIsLeast(size, bin + 1);
      }
    } else {
      forall i: nat | i < bin ensures ClassSize(i) < size {
        if i < bin - 1 {
          ClassSizesGrow(i, bin - 1);
        }
      }
    }
  }

  /** block_size_for gives the smallest block size that holds the request, and get_bin the bin of that size. */
  lemma BlockSizeIsLeast(bytes: nat)
    ensures var size := BlockSizeFor(bytes);
      && bytes <= size && IsBlockSize(size) && Aligned(size) && size >= MIN_ALIGNMENT && Fits(BinFor(size), size)
    ensures forall size': nat :: IsBlockSize(size') && Needed(bytes) <= size' ==> BlockSizeFor(bytes) <= size'
  {
    var rounded := RoundUp(Needed(bytes));
    LargestClass();
    if rounded <= LARGEST_CLASS {
      ClassFromIsLeast(rounded, 0);
      BinOfBlockSize(BlockSizeFor(bytes));
    }
    forall size': nat | IsBlockSize(size') && Needed(bytes) <= size' ensures BlockSizeFor(bytes) <= size' {
      AlignedAbove(Needed(bytes), size');
      if rounded <= LARGEST_CLASS && size' <= LARGEST_CLASS {
        var i: nat :| i < NUM_BINS - 1 && size' == ClassSize(i);
        var bin := BinFrom(rounded, 0);
        if bin < i {
          ClassSizesGrow(bin, i);
        }
      } else if rounded > LARGEST_CLASS && size' <= LARGEST_CLASS {
        assert false;
      } else if rounded <= LARGEST_CLASS {
        var bin := BinFrom(rounded, 0);
        if bin < 6 {
          ClassSizesGrow(bin, 6);
        }
      }
    }
  }

  lemma AlignedAbove(n: nat, size: nat)
    requires n <= size && IsBlockSize(size)
    ensures Aligned(size) && RoundUp(n) <= size
  {}

  lemma BinOfBlockSize(size: nat)
    requires IsBlockSize(size)
    ensures Fits(BinFor(size), size)
  {
    LargestClass();
    if size <= LARGEST_CLASS {
      var i: nat :| i < NUM_BINS - 1 && size == ClassSize(i);
      ClassFromIsLeast(size, 0);
      var bin := BinFrom(size, 0);
      if i < bin {
        assert false;
      } else if bin < i {
        ClassSizesGrow(bin, i);
        assert false;
      }
    }
  }

  // ----- the loops of the source -----

  /** block_size_for */
  method RoundToBlockSize(bytes: nat) returns (size: nat)
    ensures size == BlockSizeFor(bytes)
  {
    size := RoundUp(if bytes < HEADER_BYTES then HEADER_BYTES else bytes);
    if size > LARGEST_CLASS {
      return;
    }
    var classSize := MIN_ALIGNMENT;
    while classSize < size
      invariant 0 < classSize && ClassFrom(size, classSize) == BlockSizeFor(bytes)
      decreases size - classSize
    {
      classSize := 2 * classSize;
    }
    size := classSize;
  }

  /** get_bin */
  method GetBin(size: nat) returns (bin: nat)
    requires IsBlockSize(size)
    ensures bin == BinFor(size) && Fits(bin, size)
  {
    BinOfBlockSize(size);
    if size > LARGEST_CLASS {
      return NUM_BINS - 1;
    }
    LargestClass();
    bin := 0;
    var classSize := MIN_ALIGNMENT;
    while classSize < size
      invariant 0 <= bin < NUM_BINS - 1 && classSize == ClassSize(bin) && BinFrom(size, bin) == BinFor(size)
      decreases size - classSize
    {
      bin := bin + 1;
      classSize := 2 * classSize;
    }
  }
}
