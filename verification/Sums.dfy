/** Finite sums over the reals, and the block-wide reduction the CUDA kernels share. */
module Sums {
  import opened Basics
  import opened Strides

  /** f(0) + ... + f(n-1). */
  function Sum(n: nat, f: int -> real): real {
    if n == 0 then 0.0 else Sum(n - 1, f) + f(n - 1)
  }

  /** Total indexing, so that index functions need no side conditions. */
  function At(s: seq<real>, i: int): real {
    if 0 <= i < |s| then s[i] else 0.0
  }

  /** The vector stored from `base` on. */
  function Row(s: seq<real>, base: int): int -> real {
    i => At(s, base + i)
  }

  /** Terms of an inner product. */
  function Times(a: int -> real, b: int -> real): int -> real {
    i => a(i) * b(i)
  }

  /** The plain loop: an iterator's `sum`. */
  method SequentialSum(n: nat, f: int -> real) returns (total: real)
    ensures total == Sum(n, f)
  {
    total := 0.0;
    for i := 0 to n
      invariant total == Sum(i, f)
    {
      total := total + f(i);
    }
  }

  /** Factors of a product of three may be taken in any order. */
  lemma Commute(f: real, a: real, b: real)
    ensures f * (a * b) == a * (f * b) == (f * a) * b == b * (f * a)
  {
  }

  lemma {:induction false} SumExt(n: nat, f: int -> real, g: int -> real)
    requires forall i :: 0 <= i < n ==> f(i) == g(i)
    ensures Sum(n, f) == Sum(n, g)
  {
    if n > 0 {
      SumExt(n - 1, f, g);
    }
  }

  lemma {:induction false} SumAdd(n: nat, f: int -> real, g: int -> real, h: int -> real)
    requires forall i :: 0 <= i < n ==> h(i) == f(i) + g(i)
    ensures Sum(n, h) == Sum(n, f) + Sum(n, g)
  {
    if n > 0 {
      SumAdd(n - 1, f, g, h);
    }
  }

  lemma {:induction false} SumScale(n: nat, c: real, f: int -> real, h: int -> real)
    requires forall i :: 0 <= i < n ==> h(i) == c * f(i)
    ensures Sum(n, h) == c * Sum(n, f)
  {
    if n > 0 {
      SumScale(n - 1, c, f, h);
    }
  }

  lemma {:induction false} SumZero(n: nat, f: int -> real)
    requires forall i :: 0 <= i < n ==> f(i) == 0.0
    ensures Sum(n, f) == 0.0
  {
    if n > 0 {
      SumZero(n - 1, f);
    }
  }

  lemma {:induction false} SumPositive(n: nat, f: int -> real)
    requires n > 0 && forall i :: 0 <= i < n ==> f(i) > 0.0
    ensures Sum(n, f) > 0.0
  {
    if n > 1 {
      SumPositive(n - 1, f);
    }
  }

  /** The sum of a concatenated range, with `g` listing the second part. */
  lemma {:induction false} SumConcat(m: nat, n: nat, f: int -> real, g: int -> real)
    requires forall i :: 0 <= i < n ==> g(i) == f(m + i)
    ensures Sum(m + n, f) == Sum(m, f) + Sum(n, g)
  {
    if n > 0 {
      SumConcat(m, n - 1, f, g);
    }
  }

  /** Rows first or columns first: `f` and `g` are transposes, `r` and `c` their row and column sums. */
  lemma {:induction false} SumSwap(m: nat, n: nat, f: int -> int -> real, g: int -> int -> real, r: int -> real,
                                   c: int -> real)
    requires forall i, j :: 0 <= i < m && 0 <= j < n ==> f(i)(j) == g(j)(i)
    requires forall i :: 0 <= i < m ==> r(i) == Sum(n, f(i))
    requires forall j :: 0 <= j < n ==> c(j) == Sum(m, g(j))
    ensures Sum(m, r) == Sum(n, c)
  {
    if m == 0 {
      SumZero(n, c);
    } else {
      var c' := j => Sum(m - 1, g(j));
      SumSwap(m - 1, n, f, g, r, c');
      SumExt(n, f(m - 1), j => g(j)(m - 1));
      SumAdd(n, c', j => g(j)(m - 1), c);
    }
  }

  // ---------- strided threads and the halving tree ----------

  /** What the thread starting at t accumulates: every b-th term from t on. */
  function StrideSum(t: nat, b: nat, n: nat, f: int -> real): real
    requires b > 0
    decreases if t < n then n - t else 0
  {
    if t >= n then 0.0 else f(t) + StrideSum(t + b, b, n, f)
  }

  /** The threads of a block together accumulate every term exactly once. */
  lemma {:induction false} StridesCover(s: nat, b: nat, n: nat, f: int -> real, parts: int -> real, rest: int -> real)
    requires b > 0 && s <= n
    requires forall t :: 0 <= t < b ==> parts(t) == StrideSum(s + t, b, n, f)
    requires forall i :: rest(i) == f(s + i)
    ensures Sum(b, parts) == Sum(n - s, rest)
    decreases n - s
  {
    if n - s <= b {
      LastRound(s, b, n, f, parts, rest);
    } else {
      var later := t => if 0 <= t then StrideSum(s + b + t, b, n, f) else 0.0;
      var beyond := i => f(s + b + i);
      StridesCover(s + b, b, n, f, later, beyond);
      assert forall t :: 0 <= t < b ==> parts(t) == rest(t) + later(t);
      SumAdd(b, rest, later, parts);
      SumConcat(b, n - s - b, rest, beyond);
    }
  }

  lemma LastRound(s: nat, b: nat, n: nat, f: int -> real, parts: int -> real, rest: int -> real)
    requires b > 0 && s <= n <= s + b
    requires forall t :: 0 <= t < b ==> parts(t) == StrideSum(s + t, b, n, f)
    requires forall i :: rest(i) == f(s + i)
    ensures Sum(b, parts) == Sum(n - s, rest)
  {
    var left: nat := n - s;
    var idle := t => parts(left + t);
    forall t | 0 <= t < b
      ensures parts(t) == if t < left then rest(t) else 0.0
    {
      assert StrideSum(s + t + b, b, n, f) == 0.0;
      assert StrideSum(s + t, b, n, f) == if s + t < n then f(s + t) else 0.0;
    }
    SumConcat(left, b - left, parts, idle);
    SumZero(b - left, idle);
    SumExt(left, parts, rest);
  }

  /** One halving stage: thread t adds element t + stride to element t, in any thread order. */
  method HalvingStage(partial: array<real>, stride: nat)
    requires 0 < stride && 2 * stride <= partial.Length
    modifies partial
    ensures forall t :: 0 <= t < stride ==> partial[t] == old(partial[t]) + old(partial[t + stride])
  {
    var pending := Threads(stride);
    while pending != {}
      invariant forall t: nat :: t in pending ==> t < stride
      invariant forall t: nat :: t < stride ==>
        partial[t] == if t in pending then old(partial[t]) else old(partial[t]) + old(partial[t + stride])
      invariant forall t: nat :: stride <= t < partial.Length ==> partial[t] == old(partial[t])
      decreases |pending|
    {
      var t :| t in pending;
      partial[t] := partial[t] + partial[t + stride];
      pending := pending - {t};
    }
  }

  /** The halving tree leaves the sum of the whole array in its first element. */
  method TreeReduce(partial: array<real>)
    requires PowerOfTwo(partial.Length)
    modifies partial
    ensures partial[0] == Sum(partial.Length, i => At(old(partial[..]), i))
  {
    ghost var start := partial[..];
    ghost var total := Sum(partial.Length, i => At(start, i));
    var stride := partial.Length / 2;
    ghost var width := partial.Length;
    ghost var now := start;
    while stride > 0
      invariant 0 < width <= partial.Length && PowerOfTwo(width) && stride == width / 2
      invariant now == partial[..]
      invariant Sum(width, i => At(now, i)) == total
      decreases stride
    {
      assert width == 2 * stride;
      ghost var before := now;
      HalvingStage(partial, stride);
      now := partial[..];
      FoldHalf(before, now, stride);
      width := stride;
      stride := stride / 2;
    }
    assert Sum(1, i => At(now, i)) == Sum(0, i => At(now, i)) + At(now, 0);
  }

  lemma FoldHalf(before: seq<real>, after: seq<real>, stride: nat)
    requires 2 * stride <= |before| == |after|
    requires forall t :: 0 <= t < stride ==> after[t] == before[t] + before[t + stride]
    ensures Sum(stride, i => At(after, i)) == Sum(2 * stride, i => At(before, i))
  {
    var f := i => At(before, i);
    var high := i => At(before, stride + i);
    SumConcat(stride, stride, f, high);
    SumAdd(stride, f, high, i => At(after, i));
  }

  /** One thread's strided sum. */
  method StrideLoop(t: nat, n: nat, f: int -> real, blockDim: nat) returns (sum: real)
    requires blockDim > 0 && StrideFits(n, blockDim)
    ensures sum == StrideSum(t, blockDim, n, f)
  {
    sum := 0.0;
    var column: nat := t;
    while column < n
      invariant t <= column
      invariant sum + StrideSum(column, blockDim, n, f) == StrideSum(t, blockDim, n, f)
      decreases n - column
    {
      sum := sum + f(column);
      column := Wrap32(column + blockDim);
    }
  }

  /** All threads of the block, in any order. */
  method StridePartials(n: nat, f: int -> real, blockDim: nat) returns (partial: array<real>)
    requires blockDim > 0 && StrideFits(n, blockDim)
    ensures fresh(partial) && partial.Length == blockDim
    ensures forall t: nat :: t < blockDim ==> partial[t] == StrideSum(t, blockDim, n, f)
  {
    partial := new real[blockDim];
    var pending := Threads(blockDim);
    while pending != {}
      invariant forall t: nat :: t in pending ==> t < blockDim
      invariant forall t: nat :: t < blockDim && t !in pending ==> partial[t] == StrideSum(t, blockDim, n, f)
      decreases |pending|
    {
      var t :| t in pending;
      var sum := StrideLoop(t, n, f, blockDim);
      partial[t] := sum;
      pending := pending - {t};
    }
  }

  /** A block-wide sum: strided thread sums, then the halving tree. Any block size that is a power of two works. */
  method BlockSum(n: nat, f: int -> real, blockDim: nat) returns (total: real)
    requires PowerOfTwo(blockDim) && StrideFits(n, blockDim)
    ensures total == Sum(n, f)
  {
    var partial := StridePartials(n, f, blockDim);
    ghost var all := partial[..];
    PartialsSum(n, f, blockDim, all);
    TreeReduce(partial);
    total := partial[0];
  }

  lemma PartialsSum(n: nat, f: int -> real, blockDim: nat, partial: seq<real>)
    requires 0 < blockDim == |partial| && forall t: nat :: t < blockDim ==> partial[t] == StrideSum(t, blockDim, n, f)
    ensures Sum(blockDim, i => At(partial, i)) == Sum(n, f)
  {
    StridesCover(0, blockDim, n, f, i => At(partial, i), f);
  }
}
