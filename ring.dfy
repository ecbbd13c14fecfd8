/**
 * The bounded sample queue between the capture callback and the analysis
 * thread (the `ringbuf` crate's `HeapRb<f32>` with its producer and consumer
 * halves). Samples are `real`. A push stores only what fits and never
 * overwrites unread samples; a pop returns the oldest samples first.
 */
module Ring {

  class SampleRing {
    // public view: the unread samples, oldest first
    ghost var Contents: seq<real>
    ghost var Repr: set<object>

    const capacity: nat

    // storage: `len` unread samples starting at slot `head`, wrapping around
    var data: array<real>
    var head: nat
    var len: nat

    /** Slot of the `i`-th unread sample. */
    function Slot(i: nat): nat
      reads this
    {
      if head + i < capacity then head + i else head + i - capacity
    }

    ghost predicate Valid()
      reads this, Repr
      ensures Valid() ==> this in Repr
    {
      && this in Repr && data in Repr
      && data.Length == capacity
      && len <= capacity
      && (capacity == 0 ==> head == 0)
      && (capacity > 0 ==> head < capacity)
      && |Contents| == len
      && forall i :: 0 <= i < len ==> Slot(i) < capacity && Contents[i] == data[Slot(i)]
    }

    /** Room left before a push starts dropping samples. */
    function Free(): (n: nat)
      reads this, Repr
      requires Valid()
      ensures n == capacity - |Contents|
    {
      capacity - len
    }

    constructor (capacity: nat)
      ensures Valid() && fresh(Repr)
      ensures this.capacity == capacity && Contents == []
    {
      this.capacity := capacity;
      data := new real[capacity];
      head, len := 0, 0;
      Contents := [];
      Repr := {this, data};
    }

    /** Stores one sample behind the newest one. */
    method Push(x: real)
      requires Valid() && |Contents| < capacity
      modifies Repr
      ensures Valid() && Repr == old(Repr)
      ensures Contents == old(Contents) + [x]
    {
      var slot := Slot(len);
      data[slot] := x;
      len := len + 1;
      Contents := Contents + [x];
    }

    /** Removes and returns the oldest sample. */
    method Pop() returns (x: real)
      requires Valid() && |Contents| > 0
      modifies Repr
      ensures Valid() && Repr == old(Repr)
      ensures x == old(Contents)[0] && Contents == old(Contents)[1..]
    {
      x := data[head];
      head := if head + 1 == capacity then 0 else head + 1;
      len := len - 1;
      Contents := Contents[1..];
    }

    /**
     * `push_slice`: stores the longest prefix of `samples` that fits and
     * returns its length. Samples already buffered are never touched; the
     * excess newest samples are dropped.
     */
    method PushSlice(samples: seq<real>) returns (written: nat)
      requires Valid()
      modifies Repr
      ensures Valid() && Repr == old(Repr)
      ensures written == if |samples| <= old(Free()) then |samples| else old(Free())
      ensures Contents == old(Contents) + samples[..written]
    {
      written := if |samples| <= capacity - len then |samples| else capacity - len;
      var i := 0;
      while i < written
        invariant Valid() && Repr == old(Repr)
        invariant 0 <= i <= written
        invariant Contents == old(Contents) + samples[..i]
      {
        Push(samples[i]);
        assert samples[..i + 1] == samples[..i] + [samples[i]];
        i := i + 1;
      }
    }

    /**
     * `pop_slice` into a buffer of `n` slots: removes and returns the
     * `min(n, |Contents|)` oldest samples, in order.
     */
    method PopSlice(n: nat) returns (out: seq<real>)
      requires Valid()
      modifies Repr
      ensures Valid() && Repr == old(Repr)
      ensures |out| == if n <= |old(Contents)| then n else |old(Contents)|
      ensures out == old(Contents)[..|out|]
      ensures Contents == old(Contents)[|out|..]
    {
      var k := if n <= len then n else len;
      out := [];
      while |out| < k
        invariant Valid() && Repr == old(Repr)
        invariant |out| <= k
        invariant old(Contents) == out + Contents
      {
        ghost var before := Contents;
        var x := Pop();
        TakeFirst(old(Contents), out, before, x, Contents);
        out := out + [x];
      }
      assert old(Contents)[..|out|] == out;
    }
  }

  /** Moving the first unread sample to the end of what was already taken. */
  lemma TakeFirst(all: seq<real>, taken: seq<real>, unread: seq<real>, x: real, rest: seq<real>)
    requires all == taken + unread && |unread| > 0 && x == unread[0] && rest == unread[1..]
    ensures all == (taken + [x]) + rest
  {
    assert unread == [x] + rest;
  }

  /** A ring of capacity 8 given five samples hands them back in order. */
  method PushThenPopScenario()
  {
    var ring := new SampleRing(8);
    var written := ring.PushSlice([1.0, 2.0, 3.0, 4.0, 5.0]);
    assert written == 5;
    var out := ring.PopSlice(8);
    assert out == [1.0, 2.0, 3.0, 4.0, 5.0];
    assert ring.Contents == [];
  }
}
