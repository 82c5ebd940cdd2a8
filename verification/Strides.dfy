/**
 * The loops by which the threads of a CUDA block share the indices below n: thread t takes t, t + blockDim and so on,
 * counting in 32 bits.
 */
module Strides {
  import opened Basics

  predicate PowerOfTwo(n: nat) {
    n == 1 || (n > 1 && n % 2 == 0 && PowerOfTwo(n / 2))
  }

  /** No counter passes 2^32. */
  predicate StrideFits(n: nat, blockDim: nat) {
    n + blockDim <= TWO32
  }

  /** The counter of thread t after k steps. */
  function Counter(t: nat, k: nat, blockDim: nat): nat {
    Wrap32(t + k * blockDim)
  }

  /** The thread leaves its loop. */
  ghost predicate Ends(t: nat, n: nat, blockDim: nat) {
    exists k: nat :: Counter(t, k, blockDim) >= n
  }

  lemma {:induction false} PowerDivides(a: nat, b: nat)
    requires PowerOfTwo(a) && PowerOfTwo(b) && b <= a
    ensures a % b == 0
  {
    if b > 1 {
      PowerDivides(a / 2, b / 2);
      var q := a / 2 / (b / 2);
      DivModSplit(a / 2, b / 2);
      assert a == q * b;
      DivModUnique(a, b, q, 0);
    }
  }

  lemma {:induction false} PowerProduct(a: nat, b: nat)
    requires PowerOfTwo(a) && PowerOfTwo(b)
    ensures PowerOfTwo(a * b)
  {
    if a > 1 {
      PowerProduct(a / 2, b);
      Doubled(a / 2, b);
      DoubledPower(a * b, a / 2 * b);
    }
  }

  lemma Doubled(a: nat, b: nat)
    ensures 2 * a * b == 2 * (a * b)
  {
  }

  lemma DoubledPower(n: nat, half: nat)
    requires n == 2 * half && PowerOfTwo(half)
    ensures PowerOfTwo(n)
  {
  }

  lemma WordIsPower()
    ensures PowerOfTwo(TWO32)
  {
    assert PowerOfTwo(4);
    PowerProduct(4, 4);
    PowerProduct(16, 16);
    PowerProduct(256, 256);
    PowerProduct(65536, 65536);
  }

  /** Thread 0 counts in multiples of the block size, of which the word is one: it never gets past the last below it. */
  lemma Thread0Counts(k: nat, blockDim: nat)
    requires PowerOfTwo(blockDim) && blockDim <= TWO32
    ensures Counter(0, k, blockDim) + blockDim <= TWO32
  {
    WordIsPower();
    PowerDivides(TWO32, blockDim);
    var blocks := TWO32 / blockDim;
    DivModSplit(TWO32, blockDim);
    MultipleRemainder(k, blocks, blockDim);
    assert Counter(0, k, blockDim) == (k * blockDim) % TWO32;
    NextMultiple(k % blocks, blocks, blockDim);
  }

  lemma MultipleRemainder(k: nat, blocks: nat, d: nat)
    requires blocks > 0 && d > 0
    ensures blocks * d > 0 && (k * d) % (blocks * d) == (k % blocks) * d
  {
    var q, r := k / blocks, k % blocks;
    DivModSplit(k, blocks);
    MulPos(blocks, d);
    SplitProduct(q * blocks, r, d);
    assert q * blocks * d == q * (blocks * d);
    NextMultiple(r, blocks, d);
    MulLe(0, r, d);
    DivModUnique(k * d, blocks * d, q, r * d);
  }

  /** Every thread of the block leaves its loop exactly when the counters fit. */
  lemma StrideEndsIff(n: nat, blockDim: nat)
    requires PowerOfTwo(blockDim) && blockDim <= TWO32
    ensures (forall t: nat :: t < blockDim ==> Ends(t, n, blockDim)) <==> StrideFits(n, blockDim)
  {
    if StrideFits(n, blockDim) {
      forall t: nat | t < blockDim
        ensures Ends(t, n, blockDim)
      {
        StrideEnds(t, n, blockDim);
      }
    } else {
      forall k: nat
        ensures Counter(0, k, blockDim) < n
      {
        Thread0Counts(k, blockDim);
      }
      assert !Ends(0, n, blockDim);
    }
  }

  lemma StrideEnds(t: nat, n: nat, blockDim: nat)
    requires 0 < blockDim && t < blockDim && StrideFits(n, blockDim)
    ensures Ends(t, n, blockDim)
  {
    var k: nat := if n <= t then 0 else Quot(n - t - 1, blockDim) + 1;
    assert k > 0 ==> k * blockDim == Quot(n - t - 1, blockDim) * blockDim + blockDim;
    assert n <= t + k * blockDim < TWO32;
    assert Counter(t, k, blockDim) >= n;
  }

  /** No index is taken twice. */
  lemma VisitedOnce(n: nat, blockDim: nat, t: nat, k: nat, t': nat, k': nat)
    requires 0 < blockDim && t < blockDim && t' < blockDim && t + k * blockDim < n && t' + k' * blockDim < n
    requires StrideFits(n, blockDim) && Counter(t, k, blockDim) == Counter(t', k', blockDim)
    ensures t == t' && k == k'
  {
    DivModUnique(t + k * blockDim, blockDim, k, t);
    DivModUnique(t' + k' * blockDim, blockDim, k', t');
  }

  /** One thread: it takes the indices congruent to t. */
  method VisitStrided(t: nat, n: nat, blockDim: nat, taken: set<nat>) returns (visited: set<nat>)
    requires t < blockDim && StrideFits(n, blockDim)
    ensures visited == taken + set i: nat | i < n && Rem(i, blockDim) == t
  {
    visited := taken;
    var column := t;
    QuotRemUnique(t, blockDim, 0, t);
    while column < n
      invariant column < TWO32 && Rem(column, blockDim) == t
      invariant visited == taken + set i: nat | i < n && i < column && Rem(i, blockDim) == t
      decreases n - column
    {
      var next := Wrap32(column + blockDim);
      StrideNext(column, blockDim);
      visited := visited + {column};
      column := next;
    }
  }

  /** Between an index and the thread's next one there is none of its own. */
  lemma StrideNext(column: nat, blockDim: nat)
    requires 0 < blockDim
    ensures Rem(column + blockDim, blockDim) == Rem(column, blockDim)
    ensures forall i: nat :: column < i < column + blockDim ==> Rem(i, blockDim) != Rem(column, blockDim)
  {
    var q, r := Quot(column, blockDim), Rem(column, blockDim);
    assert column + blockDim == (q + 1) * blockDim + r;
    QuotRemUnique(column + blockDim, blockDim, q + 1, r);
    forall i: nat | column < i < column + blockDim
      ensures Rem(i, blockDim) != r
    {
      if Rem(i, blockDim) == r {
        var p := Quot(i, blockDim);
        if p <= q { MulLe(p, q, blockDim); } else { NextMultiple(q, p, blockDim); }
      }
    }
  }

  /** What the threads of the block take, one thread after the other in any order: every index below n. */
  method Visited(n: nat, blockDim: nat) returns (visited: set<nat>)
    requires 0 < blockDim && StrideFits(n, blockDim)
    ensures visited == Threads(n)
  {
    visited := {};
    var pending := Threads(blockDim);
    while pending != {}
      invariant forall t: nat :: t in pending ==> t < blockDim
      invariant visited == set i: nat | i < n && Rem(i, blockDim) !in pending
      decreases |pending|
    {
      var t :| t in pending;
      visited := VisitStrided(t, n, blockDim, visited);
      pending := pending - {t};
    }
  }
}
