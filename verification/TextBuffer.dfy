/** Bounded character buffers: what does not fit is dropped, so a buffer holds a prefix of what was written. */
module TextBuffer {

  /** The part of the text that fits. */
  function Fit(text: string, capacity: nat): (r: string)
    ensures r <= text && |r| <= capacity
    ensures |text| <= capacity ==> r == text
    ensures |text| > capacity ==> |r| == capacity
  {
    if |text| <= capacity then text else text[..capacity]
  }

  /** Writing in two parts, each truncated, is writing the whole, truncated. */
  lemma FitTwice(text: string, more: string, capacity: nat)
    ensures Fit(Fit(text, capacity) + more, capacity) == Fit(text + more, capacity)
  {}

  function Repeat(c: char, n: nat): (r: string)
    ensures |r| == n && forall i :: 0 <= i < n ==> r[i] == c
  {
    seq(n, _ => c)
  }

  lemma RepeatOneMore(c: char, n: nat)
    ensures Repeat(c, n + 1) == Repeat(c, n) + [c]
  {}

  /** written is everything ever written, whether or not it fitted. */
  class Buffer {
    const capacity: nat
    var text: string
    ghost var written: string

    ghost predicate Valid()
      reads this
    {
      text == Fit(written, capacity)
    }

    constructor (capacity: nat)
      ensures Valid() && this.capacity == capacity && written == ""
    {
      this.capacity := capacity;
      this.text := "";
      this.written := "";
    }

    method PushBack(c: char)
      requires Valid()
      modifies this
      ensures Valid() && written == old(written) + [c]
    {
      if |text| < capacity {
        text := text + [c];
      }
      FitTwice(written, [c], capacity);
      written := written + [c];
    }

    method Append(s: string)
      requires Valid()
      modifies this
      ensures Valid() && written == old(written) + s
    {
      text := text + (if |s| <= capacity - |text| then s else s[..capacity - |text|]);
      FitTwice(written, s, capacity);
      written := written + s;
    }

    /** AppendRepeated: no more loop steps than the buffer has room for, whatever the count. */
    method AppendRepeated(c: char, count: nat)
      requires Valid()
      modifies this
      ensures Valid() && written == old(written) + Repeat(c, count)
    {
      var room := if capacity > |text| then capacity - |text| else 0;
      var steps := if count < room then count else room;
      var done := 0;
      while done < steps
        invariant 0 <= done <= steps && Valid()
        invariant text == old(text) + Repeat(c, done) && written == old(written) + Repeat(c, done)
      {
        RepeatOneMore(c, done);
        PushBack(c);
        assert old(written) + Repeat(c, done) + [c] == old(written) + Repeat(c, done + 1);
        done := done + 1;
      }
      FitMore(old(written), Repeat(c, steps), Repeat(c, count), capacity);
      written := old(written) + Repeat(c, count);
    }
  }

  /** Once the buffer is full, writing more changes nothing. */
  lemma FitMore(text: string, less: string, more: string, capacity: nat)
    requires less <= more && (|less| == |more| || |text| + |less| >= capacity)
    ensures Fit(text + less, capacity) == Fit(text + more, capacity)
  {}
}
