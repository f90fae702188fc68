/** The batched solution log kept by `math/Solver1D.java` and `math/SolverND.java`:
    `getSolutionLog` walks the log and closes a batch whenever it reaches an index
    that is a multiple of the batch size while the batch being built is non-empty. */
module Trace {

  /** The batches joined back together, in order. */
  function Flatten<E>(batches: seq<seq<E>>): (r: seq<E>)
  {
    if batches == [] then [] else Flatten(batches[..|batches| - 1]) + batches[|batches| - 1]
  }

  /** Every batch holds exactly `size` entries. */
  ghost predicate Full<E>(batches: seq<seq<E>>, size: nat) {
    forall j :: 0 <= j < |batches| ==> |batches[j]| == size
  }

  lemma {:induction false} FlattenFull<E>(batches: seq<seq<E>>, size: nat)
    requires Full(batches, size)
    ensures |Flatten(batches)| == |batches| * size
  {
    if batches != [] {
      var n := |batches| - 1;
      var init := batches[..n];
      assert Flatten(batches) == Flatten(init) + batches[n];
      FlattenFull(init, size);
      MulSucc(n, size);
    }
  }

  lemma MulSucc(n: int, size: int)
    ensures n * size + size == (n + 1) * size
  {
  }

  lemma {:induction false} FlattenAppend<E>(batches: seq<seq<E>>, b: seq<E>)
    ensures Flatten(batches + [b]) == Flatten(batches) + b
  {
    assert (batches + [b])[..|batches|] == batches;
  }

  /** Adding a remainder p below the modulus to a multiple of it leaves remainder p. */
  lemma ModOfOffset(n: int, p: int, size: int)
    requires size > 0 && 0 <= p < size
    ensures (n * size + p) % size == p
  {
    var i := n * size + p;
    var t := i / size - n;
    assert i == (i / size) * size + i % size;
    assert t * size == p - i % size;
    // a non-zero t would put t * size at least `size` away from zero
    if t >= 1 {
      assert false;
    } else if t <= -1 {
      assert false;
    }
  }

  /** ... and the quotient is n. */
  lemma DivOfOffset(n: int, p: int, size: int)
    requires size > 0 && 0 <= p < size
    ensures (n * size + p) / size == n
  {
    var i := n * size + p;
    ModOfOffset(n, p, size);
    assert i == (i / size) * size + p;
    assert (i / size - n) * size == 0;
  }

  /** Past the first entry, the index reaches a multiple of the batch size
      exactly when the open batch is full. */
  lemma AtBoundary(i: int, n: int, p: int, size: int)
    requires size > 0 && 0 < p <= size && i == n * size + p
    ensures i % size == 0 <==> p == size
  {
    if p < size {
      ModOfOffset(n, p, size);
    } else {
      MulSucc(n, size);
      ModOfOffset(n + 1, 0, size);
    }
  }

  /** The loop shared by both `getSolutionLog` methods: the batches it closes,
      all full, and the batch still being built when the log runs out. Nothing
      is dropped or reordered, and the open batch is non-empty for a non-empty log. */
  method SplitLog<E>(log: seq<E>, size: nat) returns (batches: seq<seq<E>>, pending: seq<E>)
    requires size > 0
    ensures Flatten(batches) + pending == log
    ensures Full(batches, size)
    ensures log == [] ==> pending == []
    ensures log != [] ==> 0 < |pending| <= size
  {
    batches := [];
    pending := [];
    var i := 0;
    while i < |log|
      invariant 0 <= i <= |log|
      invariant Flatten(batches) + pending == log[..i]
      invariant Full(batches, size)
      invariant i == 0 ==> pending == []
      invariant i > 0 ==> 0 < |pending| <= size
    {
      if i > 0 {
        FlattenFull(batches, size);
        AtBoundary(i, |batches|, |pending|, size);
      }
      if i % size == 0 && |pending| != 0 {
        FlattenAppend(batches, pending);
        batches := batches + [pending];
        pending := [];
      }
      pending := pending + [log[i]];
      assert log[..i + 1] == log[..i] + [log[i]];
      i := i + 1;
    }
    assert log[..|log|] == log;
  }

  /** How many full batches a split of a non-empty log closes: (L - 1) / size. */
  lemma {:induction false} BatchCount<E>(log: seq<E>, size: nat, batches: seq<seq<E>>, pending: seq<E>)
    requires size > 0
    requires Flatten(batches) + pending == log
    requires Full(batches, size)
    requires 0 < |pending| <= size
    ensures |batches| == (|log| - 1) / size
    ensures |batches| + 1 == (|log| + size - 1) / size
    ensures Flatten(batches) == log[..|batches| * size]
  {
    var m := |batches| * size;
    FlattenFull(batches, size);
    assert |log| == m + |pending|;
    CountArithmetic(|batches|, |pending|, size, |log|);
    assert log[..m] == Flatten(batches);
  }

  lemma CountArithmetic(n: int, p: int, size: int, total: int)
    requires size > 0 && 0 < p <= size && total == n * size + p
    ensures (total - 1) / size == n
    ensures (total + size - 1) / size == n + 1
  {
    DivOfOffset(n, p - 1, size);
    assert total + size - 1 == (n + 1) * size + (p - 1);
    DivOfOffset(n + 1, p - 1, size);
  }
}
