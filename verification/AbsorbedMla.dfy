/** Multi-latent attention: the absorbed CUDA path (`cuda_mla.rs`) against the expanding CPU path (`cpu_hybrid.rs`). */
module AbsorbedMla {
  import opened Basics
  import opened Sums
  import opened Strides
  import opened Softmax
  import Cpu = CpuAttention
  import Paged = PagedAttention

  datatype Shape = Shape(rank: nat, nope: nat, rope: nat, valueDim: nat) {
    function QueryDim(): nat { nope + rope }
    function ExpandedDim(): nat { nope + valueDim }
    function PreparedDim(): nat { rank + rope }

    /** The same three as the kernels have them, added up in 32 bits. */
    function QueryStride(): nat { Wrap32(QueryDim()) }
    function ExpandedStride(): nat { Wrap32(ExpandedDim()) }
    function PreparedStride(): nat { Wrap32(PreparedDim()) }
  }

  // ---------- rotary embedding ----------

  datatype Style = Neox | Interleaved

  /** What happens to the two components of a pair, at the token's position. */
  datatype Rotation = Rotation(style: Style, first: (int, real, real) -> real, second: (int, real, real) -> real)

  /** The rotary configuration: pairing, inverse frequencies, magnitude scale, and whether to rotate at all. */
  datatype Rope = Rope(style: Style, skip: bool, frequency: int -> real, magnitude: real, cos: real -> real,
                       sin: real -> real) {
    function Angle(position: nat, pair: int): real {
      position as real * frequency(pair)
    }

    /** What both sides do to a pair at a position; with `skip` the components are copied. */
    function AtPosition(position: nat): Rotation {
      if skip then Rotation(style, (p, a, b) => a, (p, a, b) => b) else
      Rotation(style, (p, a, b) => (a * cos(Angle(position, p)) - b * sin(Angle(position, p))) * magnitude,
                      (p, a, b) => (b * cos(Angle(position, p)) + a * sin(Angle(position, p))) * magnitude)
    }
  }

  function First(style: Style, half: nat, pair: nat): nat {
    if style.Interleaved? then pair * 2 else pair
  }

  function Second(style: Style, half: nat, pair: nat): nat {
    if style.Interleaved? then pair * 2 + 1 else half + pair
  }

  /** Every pair of components was rotated. */
  ghost predicate IsRotated(r: Rotation, half: nat, v: seq<real>, out: seq<real>) {
    && |v| == 2 * half && |out| == 2 * half
    && forall p: nat :: p < half ==> PairRotated(r, half, v, out, p)
  }

  ghost predicate PairRotated(r: Rotation, half: nat, v: seq<real>, out: seq<real>, p: nat)
    requires |v| == |out| == 2 * half && p < half
  {
    var i, j := First(r.style, half, p), Second(r.style, half, p);
    out[i] == r.first(p, v[i], v[j]) && out[j] == r.second(p, v[i], v[j])
  }

  ghost predicate PairKept(r: Rotation, half: nat, v: seq<real>, out: seq<real>, p: nat)
    requires |v| == |out| == 2 * half && p < half
  {
    var i, j := First(r.style, half, p), Second(r.style, half, p);
    out[i] == v[i] && out[j] == v[j]
  }

  lemma PairsDistinct(style: Style, half: nat, p: nat, q: nat)
    requires p < half && q < half && p != q
    ensures {First(style, half, p), Second(style, half, p)} !! {First(style, half, q), Second(style, half, q)}
  {
  }

  /** Updating one pair leaves the others alone. */
  lemma OtherPair(r: Rotation, half: nat, v: seq<real>, before: seq<real>, after: seq<real>, p: nat, q: nat, a: real,
                  b: real)
    requires |v| == |before| == |after| == 2 * half && p < half && q < half && p != q
    requires after == before[First(r.style, half, p) := a][Second(r.style, half, p) := b]
    ensures PairRotated(r, half, v, before, q) ==> PairRotated(r, half, v, after, q)
    ensures PairKept(r, half, v, before, q) ==> PairKept(r, half, v, after, q)
  {
    PairsDistinct(r.style, half, p, q);
  }

  /** The CPU rotates in place, pair after pair. */
  method RotateInPlace(r: Rotation, values: array<real>, half: nat)
    requires values.Length == 2 * half
    modifies values
    ensures IsRotated(r, half, old(values[..]), values[..])
  {
    ghost var start := values[..];
    for pair := 0 to half
      invariant forall p: nat :: p < pair ==> PairRotated(r, half, start, values[..], p)
      invariant forall p: nat :: pair <= p < half ==> PairKept(r, half, start, values[..], p)
    {
      var i, j := First(r.style, half, pair), Second(r.style, half, pair);
      ghost var before := values[..];
      assert PairKept(r, half, start, before, pair);
      var a, b := values[i], values[j];
      values[i], values[j] := r.first(pair, a, b), r.second(pair, a, b);
      forall q: nat | q < half && q != pair
        ensures PairRotated(r, half, start, before, q) ==> PairRotated(r, half, start, values[..], q)
        ensures PairKept(r, half, start, before, q) ==> PairKept(r, half, start, values[..], q)
      {
        OtherPair(r, half, start, before, values[..], pair, q, r.first(pair, a, b), r.second(pair, a, b));
      }
    }
  }

  /** The kernel rotates out of place, its threads taking the pairs in any order. */
  method RotateKernel(r: Rotation, v: seq<real>, half: nat, blockDim: nat) returns (rotated: seq<real>)
    requires |v| == 2 * half && 0 < blockDim && StrideFits(half, blockDim)
    ensures IsRotated(r, half, v, rotated)
  {
    var out := new real[2 * half];
    var pending := Visited(half, blockDim);
    while pending != {}
      invariant forall p: nat :: p in pending ==> p < half
      invariant forall p: nat :: p < half && p !in pending ==> PairRotated(r, half, v, out[..], p)
      decreases |pending|
    {
      var pair :| pair in pending;
      var i, j := First(r.style, half, pair), Second(r.style, half, pair);
      ghost var before := out[..];
      out[i] := r.first(pair, v[i], v[j]);
      out[j] := r.second(pair, v[i], v[j]);
      forall q: nat | q < half && q != pair
        ensures PairRotated(r, half, v, before, q) ==> PairRotated(r, half, v, out[..], q)
      {
        OtherPair(r, half, v, before, out[..], pair, q, r.first(pair, v[i], v[j]), r.second(pair, v[i], v[j]));
      }
      pending := pending - {pair};
    }
    rotated := out[..];
  }

  /** Both orders give the same vector. */
  lemma RotatedUnique(r: Rotation, half: nat, v: seq<real>, a: seq<real>, b: seq<real>)
    requires IsRotated(r, half, v, a) && IsRotated(r, half, v, b)
    ensures a == b
  {
    forall x | 0 <= x < 2 * half
      ensures a[x] == b[x]
    {
      var p: nat := if r.style.Interleaved? then x / 2 else if x < half then x else x - half;
      assert x == First(r.style, half, p) || x == Second(r.style, half, p);
      assert PairRotated(r, half, v, a, p) && PairRotated(r, half, v, b, p);
    }
  }

  // ---------- the two weight halves and the cached rows ----------

  /** Query components without position of the head whose query starts at `base`. */
  function NopeAt(q: seq<real>, base: nat): int -> real {
    d => At(q, base + d)
  }

  function RopeAt(sh: Shape, q: seq<real>, base: nat): (v: seq<real>)
    ensures |v| == sh.rope
  {
    seq(sh.rope, x requires 0 <= x => At(q, base + sh.nope + x))
  }

  function QueryNope(sh: Shape, q: seq<real>, head: nat): int -> real {
    NopeAt(q, head * sh.QueryDim())
  }

  function QueryRope(sh: Shape, q: seq<real>, head: nat): (v: seq<real>)
    ensures |v| == sh.rope
  {
    RopeAt(sh, q, head * sh.QueryDim())
  }

  /** The key half of `kv_b`, by head dimension and latent. */
  function KeyWeights(sh: Shape, w: seq<real>, head: nat): int -> int -> real {
    d => l => At(w, head * sh.ExpandedDim() * sh.rank + d * sh.rank + l)
  }

  /** As the first kernel addresses it: the head's stride and dimension times rank are 32-bit values. */
  function KernelKeyWeights(sh: Shape, w: seq<real>, head: nat): int -> int -> real {
    d => l => if d < 0 then 0.0 else At(w, head * sh.ExpandedStride() * sh.rank + Wrap32(d * sh.rank) + l)
  }

  /** The value half of `kv_b`. */
  function ValueWeights(sh: Shape, w: seq<real>, head: nat): int -> int -> real {
    d => l => At(w, (head * sh.ExpandedDim() + sh.nope) * sh.rank + d * sh.rank + l)
  }

  /** As the third kernel addresses it. */
  function KernelValueWeights(sh: Shape, w: seq<real>, head: nat): int -> int -> real {
    d => l => At(w, (head * sh.ExpandedStride() + sh.nope) * sh.rank + d * sh.rank + l)
  }

  // ---------- the 32-bit values of the three kernels ----------

  predicate KeyOffsetsFit(sh: Shape) {
    sh.nope == 0 || (sh.nope - 1) * sh.rank < TWO32
  }

  predicate DimsFit(sh: Shape) {
    sh.QueryDim() < TWO32 && sh.ExpandedDim() < TWO32 && sh.PreparedDim() < TWO32
  }

  /** The loops over latents, rotary pairs and value dimensions. */
  predicate LoopsFit(sh: Shape, blockDim: nat) {
    StrideFits(sh.rank, blockDim) && StrideFits(sh.rope / 2, blockDim) && StrideFits(sh.valueDim, blockDim)
  }

  /** What a caller checks before the launches. */
  predicate KernelFits(sh: Shape, blockDim: nat) {
    KeyOffsetsFit(sh) && DimsFit(sh) && LoopsFit(sh, blockDim)
  }

  /** All threads of a block leave their loop over n indices. */
  ghost predicate LoopEnds(n: nat, blockDim: nat) {
    forall t: nat :: t < blockDim ==> Ends(t, n, blockDim)
  }

  /** What the condition is for: no 32-bit product or sum of the kernels wraps and every loop comes to its end. */
  ghost predicate Exact(sh: Shape, blockDim: nat) {
    && (forall d: nat :: d < sh.nope ==> Wrap32(d * sh.rank) == d * sh.rank)
    && sh.QueryStride() == sh.QueryDim() && sh.ExpandedStride() == sh.ExpandedDim()
    && sh.PreparedStride() == sh.PreparedDim()
    && LoopEnds(sh.rank, blockDim) && LoopEnds(sh.rope / 2, blockDim) && LoopEnds(sh.valueDim, blockDim)
  }

  lemma KernelFitsIff(sh: Shape, blockDim: nat)
    requires PowerOfTwo(blockDim) && blockDim <= TWO32
    ensures Exact(sh, blockDim) <==> KernelFits(sh, blockDim)
  {
    KeyOffsetsFitIff(sh);
    StrideEndsIff(sh.rank, blockDim);
    StrideEndsIff(sh.rope / 2, blockDim);
    StrideEndsIff(sh.valueDim, blockDim);
  }

  /** No product of head dimension and rank wraps exactly when the last one fits. */
  lemma KeyOffsetsFitIff(sh: Shape)
    ensures (forall d: nat :: d < sh.nope ==> Wrap32(d * sh.rank) == d * sh.rank) <==> KeyOffsetsFit(sh)
  {
    if KeyOffsetsFit(sh) {
      forall d: nat | d < sh.nope
        ensures Wrap32(d * sh.rank) == d * sh.rank
      {
        MulLe(d, sh.nope - 1, sh.rank);
      }
    } else {
      assert Wrap32((sh.nope - 1) * sh.rank) != (sh.nope - 1) * sh.rank;
    }
  }

  const HUGE_VALUE: Shape := Shape(1, 1, 2, 0xFFFF_FFFF)

  /** Where the sum of head dimensions wraps to zero, every head reads head 0's weights. */
  lemma HeadZeroOnly(sh: Shape, w: seq<real>, head: nat, d: nat, l: nat)
    requires sh.ExpandedStride() == 0 && d * sh.rank < TWO32
    ensures KernelKeyWeights(sh, w, head)(d)(l) == KeyWeights(sh, w, 0)(d)(l)
    ensures KernelValueWeights(sh, w, head)(d)(l) == ValueWeights(sh, w, 0)(d)(l)
  {
    var offset := d * sh.rank;
    assert head * sh.ExpandedStride() == 0;
    assert KernelKeyWeights(sh, w, head)(d)(l) == At(w, Wrap32(offset) + l);
    assert KeyWeights(sh, w, 0)(d)(l) == At(w, offset + l);
  }

  /** It does for head dimensions each of which fits 32 bits, with no product that wraps. */
  lemma WrappingHeads()
    ensures KeyOffsetsFit(HUGE_VALUE) && HUGE_VALUE.valueDim <= U32_MAX && HUGE_VALUE.ExpandedStride() == 0
    ensures !DimsFit(HUGE_VALUE)
  {
  }

  // ---------- expanding a latent ----------

  /** What `kv_b.project` of a latent yields in output feature y. */
  function ExpandTerms(sh: Shape, w: seq<real>, latent: int -> real, y: int): int -> real {
    l => latent(l) * At(w, y * sh.rank + l)
  }

  function Expanded(sh: Shape, w: seq<real>, latent: int -> real): int -> real {
    y => Sum(sh.rank, ExpandTerms(sh, w, latent, y))
  }

  lemma KeyWeightAddress(sh: Shape, w: seq<real>, head: nat, d: nat, l: nat)
    ensures KeyWeights(sh, w, head)(d)(l) == At(w, (head * sh.ExpandedDim() + d) * sh.rank + l)
  {
    assert (head * sh.ExpandedDim() + d) * sh.rank == head * sh.ExpandedDim() * sh.rank + d * sh.rank;
  }

  lemma ValueWeightAddress(sh: Shape, w: seq<real>, head: nat, d: nat, l: nat)
    ensures ValueWeights(sh, w, head)(d)(l) == At(w, (head * sh.ExpandedDim() + sh.nope + d) * sh.rank + l)
  {
    var a := head * sh.ExpandedDim() + sh.nope;
    assert (a + d) * sh.rank == a * sh.rank + d * sh.rank;
  }

  // ---------- prepare query ----------

  function AbsorbTerms(a: int -> real, w: int -> int -> real, l: int): int -> real {
    d => a(d) * w(d)(l)
  }

  /** The query that starts at `base` times the key half of the head's weights, by latent. */
  function AbsorbedAt(sh: Shape, q: seq<real>, base: nat, w: seq<real>, head: nat): int -> real {
    l => Sum(sh.nope, AbsorbTerms(NopeAt(q, base), KeyWeights(sh, w, head), l))
  }

  function Absorbed(sh: Shape, q: seq<real>, w: seq<real>, head: nat): int -> real {
    AbsorbedAt(sh, q, head * sh.QueryDim(), w, head)
  }

  function KernelAbsorbed(sh: Shape, q: seq<real>, base: nat, w: seq<real>, head: nat): int -> real {
    l => Sum(sh.nope, AbsorbTerms(NopeAt(q, base), KernelKeyWeights(sh, w, head), l))
  }

  /** Without wrapping the kernel multiplies with the key half of the head's weights. */
  lemma KernelAbsorbs(sh: Shape, q: seq<real>, base: nat, w: seq<real>, head: nat, l: int)
    requires KeyOffsetsFit(sh) && DimsFit(sh)
    ensures KernelAbsorbed(sh, q, base, w, head)(l) == AbsorbedAt(sh, q, base, w, head)(l)
  {
    KeyOffsetsFitIff(sh);
    var a := NopeAt(q, base);
    forall d | 0 <= d < sh.nope
      ensures AbsorbTerms(a, KernelKeyWeights(sh, w, head), l)(d) == AbsorbTerms(a, KeyWeights(sh, w, head), l)(d)
    {
      SameKeyWeight(sh, w, head, d, l);
    }
    SumExt(sh.nope, AbsorbTerms(a, KernelKeyWeights(sh, w, head), l), AbsorbTerms(a, KeyWeights(sh, w, head), l));
  }

  lemma SameKeyWeight(sh: Shape, w: seq<real>, head: nat, d: nat, l: int)
    requires Wrap32(d * sh.rank) == d * sh.rank && DimsFit(sh)
    ensures KernelKeyWeights(sh, w, head)(d)(l) == KeyWeights(sh, w, head)(d)(l)
  {
    assert sh.ExpandedStride() == sh.ExpandedDim();
  }

  /**
   * The first kernel, on the query that starts at `base`: each latent component absorbs the key half, in any thread
   * order; the rest is rotated.
   */
  method PrepareQuery(sh: Shape, q: seq<real>, base: nat, w: seq<real>, head: nat, r: Rotation, blockDim: nat)
    returns (prepared: seq<real>)
    requires sh.rope % 2 == 0 && 0 < blockDim && StrideFits(sh.rank, blockDim) && StrideFits(sh.rope / 2, blockDim)
    ensures |prepared| == sh.PreparedDim()
    ensures forall l :: 0 <= l < sh.rank ==> prepared[l] == KernelAbsorbed(sh, q, base, w, head)(l)
    ensures KeyOffsetsFit(sh) && DimsFit(sh) ==>
              forall l :: 0 <= l < sh.rank ==> prepared[l] == AbsorbedAt(sh, q, base, w, head)(l)
    ensures IsRotated(r, sh.rope / 2, RopeAt(sh, q, base), prepared[sh.rank..])
  {
    var latents := AbsorbAll(sh.rank, sh.nope, NopeAt(q, base), KernelKeyWeights(sh, w, head), blockDim);
    var rotated := RotateKernel(r, RopeAt(sh, q, base), sh.rope / 2, blockDim);
    prepared := latents + rotated;
    assert prepared[sh.rank..] == rotated;
    if KeyOffsetsFit(sh) && DimsFit(sh) {
      forall l | 0 <= l < sh.rank
        ensures prepared[l] == AbsorbedAt(sh, q, base, w, head)(l)
      {
        KernelAbsorbs(sh, q, base, w, head, l);
      }
    }
  }

  method AbsorbAll(rank: nat, n: nat, a: int -> real, w: int -> int -> real, blockDim: nat) returns (out: seq<real>)
    requires 0 < blockDim && StrideFits(rank, blockDim)
    ensures |out| == rank && forall l :: 0 <= l < rank ==> out[l] == Sum(n, AbsorbTerms(a, w, l))
  {
    var buffer := new real[rank];
    var pending := Visited(rank, blockDim);
    while pending != {}
      invariant forall l: nat :: l in pending ==> l < rank
      invariant forall l: nat :: l < rank && l !in pending ==> buffer[l] == Sum(n, AbsorbTerms(a, w, l))
      decreases |pending|
    {
      var l :| l in pending;
      var sum := SequentialSum(n, AbsorbTerms(a, w, l));
      buffer[l] := sum;
      pending := pending - {l};
    }
    out := buffer[..];
  }

  // ---------- prepare cache ----------

  function Square(row: seq<real>): int -> real {
    i => At(row, i) * At(row, i)
  }

  /** The root mean square the rows are divided by; `root` is the square root. */
  function Rms(root: real -> real, row: seq<real>, rank: nat, eps: real): real
    requires rank > 0
  {
    root(Sum(rank, Square(row)) / rank as real + eps)
  }

  function Normalized(row: seq<real>, weight: seq<real>, scale: real): int -> real
    requires scale != 0.0
  {
    l => At(row, l) / scale * At(weight, l)
  }

  /** Without epsilon and weights a normalized row has mean square 1. */
  lemma UnitMeanSquare(root: real -> real, row: seq<real>, weight: seq<real>, rank: nat, out: seq<real>)
    requires 0 < rank == |out| && Rms(root, row, rank, 0.0) > 0.0
    requires forall l :: 0 <= l < rank ==> At(weight, l) == 1.0
    requires forall l :: 0 <= l < rank ==> out[l] == Normalized(row, weight, Rms(root, row, rank, 0.0))(l)
    requires var x := Sum(rank, Times(Row(row, 0), Row(row, 0))) / rank as real; root(x) * root(x) == x
    ensures Sum(rank, Times(Row(out, 0), Row(out, 0))) == rank as real
  {
    var scale := Rms(root, row, rank, 0.0);
    SumExt(rank, Times(Row(row, 0), Row(row, 0)), Square(row));
    RmsIs(root, row, rank);
    forall l | 0 <= l < rank
      ensures At(out, l) == At(row, l) / scale * 1.0
    {
      assert out[l] == Normalized(row, weight, scale)(l);
    }
    UnitMean(rank, row, out, scale);
  }

  lemma UnitMean(rank: nat, row: seq<real>, out: seq<real>, scale: real)
    requires rank > 0 && scale > 0.0 && scale * scale == Sum(rank, Times(Row(row, 0), Row(row, 0))) / rank as real
    requires forall l :: 0 <= l < rank ==> At(out, l) == At(row, l) / scale * 1.0
    ensures Sum(rank, Times(Row(out, 0), Row(out, 0))) == rank as real
  {
    SquaresScaled(rank, row, out, scale);
    MeanSquare(Sum(rank, Times(Row(row, 0), Row(row, 0))), rank as real, scale, 1.0 / (scale * scale));
  }

  lemma RmsIs(root: real -> real, row: seq<real>, rank: nat)
    requires rank > 0 && Sum(rank, Square(row)) == Sum(rank, Times(Row(row, 0), Row(row, 0)))
    ensures Rms(root, row, rank, 0.0) == root(Sum(rank, Times(Row(row, 0), Row(row, 0))) / rank as real)
  {
    assert Sum(rank, Square(row)) / rank as real + 0.0 == Sum(rank, Times(Row(row, 0), Row(row, 0))) / rank as real;
  }

  lemma SquaresScaled(rank: nat, row: seq<real>, out: seq<real>, scale: real)
    requires scale > 0.0 && forall l :: 0 <= l < rank ==> At(out, l) == At(row, l) / scale * 1.0
    ensures scale * scale > 0.0
    ensures Sum(rank, Times(Row(out, 0), Row(out, 0)))
         == 1.0 / (scale * scale) * Sum(rank, Times(Row(row, 0), Row(row, 0)))
  {
    SquareOfQuotient(0.0, scale, 0.0);
    forall i | 0 <= i < rank
      ensures Times(Row(out, 0), Row(out, 0))(i) == 1.0 / (scale * scale) * Times(Row(row, 0), Row(row, 0))(i)
    {
      SquareOfQuotient(At(row, i), scale, At(out, i));
    }
    SumScale(rank, 1.0 / (scale * scale), Times(Row(row, 0), Row(row, 0)), Times(Row(out, 0), Row(out, 0)));
  }

  lemma SquareOfQuotient(x: real, scale: real, y: real)
    requires scale > 0.0 && y == x / scale * 1.0
    ensures scale * scale > 0.0 && y * y == 1.0 / (scale * scale) * (x * x)
  {
    assert y * scale == x;
    var s2 := scale * scale;
    assert y * y * s2 == x * x;
    assert 1.0 / s2 * (x * x) == y * y * (1.0 / s2 * s2);
  }

  lemma MeanSquare(total: real, n: real, scale: real, factor: real)
    requires n > 0.0 && scale > 0.0 && scale * scale == total / n && factor == 1.0 / (scale * scale)
    ensures factor * total == n
  {
    assert total == scale * scale * n;
    assert factor * (scale * scale) == 1.0;
  }

  /** CPU normalization of one latent: sequential sum, division by the root, then the weight. */
  method NormalizeRow(root: real -> real, row: seq<real>, weight: seq<real>, rank: nat, eps: real)
    returns (out: seq<real>)
    requires 0 < rank <= |row| && Rms(root, row, rank, eps) != 0.0
    ensures |out| == rank
            && forall l :: 0 <= l < rank ==> out[l] == Normalized(row, weight, Rms(root, row, rank, eps))(l)
  {
    var total := SequentialSum(rank, Square(row));
    out := DivideRow(row, weight, rank, root(total / rank as real + eps));
  }

  method DivideRow(row: seq<real>, weight: seq<real>, rank: nat, scale: real) returns (out: seq<real>)
    requires rank <= |row| && scale != 0.0
    ensures |out| == rank && forall l :: 0 <= l < rank ==> out[l] == Normalized(row, weight, scale)(l)
  {
    out := [];
    for col := 0 to rank
      invariant |out| == col && forall l :: 0 <= l < col ==> out[l] == Normalized(row, weight, scale)(l)
    {
      out := out + [row[col] / scale * At(weight, col)];
    }
  }

  /** The kernel multiplies by the inverse instead. */
  function Scaled(row: seq<real>, weight: seq<real>, inverse: real, l: nat): real {
    At(row, l) * inverse * At(weight, l)
  }

  lemma InverseScale(row: seq<real>, weight: seq<real>, scale: real, l: nat)
    requires scale != 0.0
    ensures Scaled(row, weight, 1.0 / scale, l) == Normalized(row, weight, scale)(l)
  {
    var v, w := At(row, l), At(weight, l);
    assert v * (1.0 / scale) == v / scale;
  }

  /** Each component is multiplied by the inverse root and stored into both caches, in any thread order. */
  method StoreNormalized(row: seq<real>, weight: seq<real>, rank: nat, scale: real, inverse: real, blockDim: nat)
    returns (key: seq<real>, value: seq<real>)
    requires rank <= |row| && scale != 0.0 && inverse == 1.0 / scale && 0 < blockDim && StrideFits(rank, blockDim)
    ensures |value| == rank && key == value
    ensures forall l :: 0 <= l < rank ==> value[l] == Normalized(row, weight, scale)(l)
  {
    var keys, values := new real[rank], new real[rank];
    var pending := Visited(rank, blockDim);
    while pending != {}
      invariant forall l: nat :: l in pending ==> l < rank
      invariant forall l: nat :: l < rank && l !in pending ==> values[l] == keys[l] == Normalized(row, weight, scale)(l)
      decreases |pending|
    {
      var l :| l in pending;
      var normalized := Scaled(row, weight, inverse, l);
      InverseScale(row, weight, scale, l);
      keys[l], values[l] := normalized, normalized;
      pending := pending - {l};
    }
    key, value := keys[..], values[..];
  }

  /** What there is to cache of one token: how its compressed row is normalized and rotated. */
  datatype CacheInput = CacheInput(row: seq<real>, weight: seq<real>, rank: nat, half: nat, eps: real,
                                   rotation: Rotation, root: real -> real) {
    ghost predicate Valid() {
      rank > 0 && |row| == rank + 2 * half && Rms(root, row, rank, eps) != 0.0
    }
  }

  /** Both rows begin with the normalized latent; the key row ends with the rotated key. */
  ghost predicate IsCacheRow(i: CacheInput, key: seq<real>, value: seq<real>)
    requires i.Valid()
  {
    && |value| == i.rank
       && (forall l :: 0 <= l < i.rank ==>
             value[l] == Normalized(i.row, i.weight, Rms(i.root, i.row, i.rank, i.eps))(l))
    && |key| == |i.row| && key[..i.rank] == value && IsRotated(i.rotation, i.half, i.row[i.rank..], key[i.rank..])
  }

  /** There is only one such pair of rows. */
  lemma CacheRowUnique(i: CacheInput, key: seq<real>, value: seq<real>, key': seq<real>, value': seq<real>)
    requires i.Valid() && IsCacheRow(i, key, value) && IsCacheRow(i, key', value')
    ensures key == key' && value == value'
  {
    RotatedUnique(i.rotation, i.half, i.row[i.rank..], key[i.rank..], key'[i.rank..]);
    assert value == value';
    assert key == key[..i.rank] + key[i.rank..] && key' == key'[..i.rank] + key'[i.rank..];
  }

  /** The second kernel, on one row: block-wide sum of squares, multiplication by the inverse root, the rotated key. */
  method PrepareCache(i: CacheInput, blockDim: nat) returns (key: seq<real>, value: seq<real>)
    requires i.Valid() && PowerOfTwo(blockDim) && StrideFits(i.rank, blockDim) && StrideFits(i.half, blockDim)
    ensures IsCacheRow(i, key, value)
  {
    var total := BlockSum(i.rank, Square(i.row), blockDim);
    var scale := i.root(total / i.rank as real + i.eps);
    var latent;
    latent, value := StoreNormalized(i.row, i.weight, i.rank, scale, 1.0 / scale, blockDim);
    var rotated := RotateKernel(i.rotation, i.row[i.rank..], i.half, blockDim);
    key := latent + rotated;
    assert key[i.rank..] == rotated;
  }

  /** The CPU's way to the same rows: sequential sum, division by the root, rotation in place. */
  method CpuCacheRow(i: CacheInput) returns (key: seq<real>, value: seq<real>)
    requires i.Valid()
    ensures IsCacheRow(i, key, value)
  {
    value := NormalizeRow(i.root, i.row, i.weight, i.rank, i.eps);
    var ropeKey := new real[2 * i.half](x requires 0 <= x < 2 * i.half => i.row[i.rank + x]);
    assert ropeKey[..] == i.row[i.rank..];
    RotateInPlace(i.rotation, ropeKey, i.half);
    key := value + ropeKey[..];
    assert key[i.rank..] == ropeKey[..];
  }

  // ---------- expand output ----------

  function OutputTerms(latent: seq<real>, w: int -> real): int -> real {
    l => At(latent, l) * w(l)
  }

  /** The third kernel: the latent attention times the value half, dimension by dimension in any thread order. */
  method ExpandOutput(sh: Shape, latent: seq<real>, w: seq<real>, head: nat, blockDim: nat) returns (out: seq<real>)
    requires 0 < blockDim && StrideFits(sh.valueDim, blockDim)
    ensures |out| == sh.valueDim
    ensures forall d :: 0 <= d < sh.valueDim ==>
              out[d] == Sum(sh.rank, OutputTerms(latent, KernelValueWeights(sh, w, head)(d)))
    ensures DimsFit(sh) ==> forall d :: 0 <= d < sh.valueDim ==>
              out[d] == Sum(sh.rank, OutputTerms(latent, ValueWeights(sh, w, head)(d)))
  {
    var buffer := new real[sh.valueDim];
    var pending := Visited(sh.valueDim, blockDim);
    while pending != {}
      invariant forall d: nat :: d in pending ==> d < sh.valueDim
      invariant forall d: nat :: d < sh.valueDim && d !in pending ==>
        buffer[d] == Sum(sh.rank, OutputTerms(latent, KernelValueWeights(sh, w, head)(d)))
      decreases |pending|
    {
      var d :| d in pending;
      var sum := SequentialSum(sh.rank, OutputTerms(latent, KernelValueWeights(sh, w, head)(d)));
      buffer[d] := sum;
      pending := pending - {d};
    }
    out := buffer[..];
    if DimsFit(sh) {
      SameValueWeights(sh, w, head, latent);
    }
  }

  lemma SameValueWeights(sh: Shape, w: seq<real>, head: nat, latent: seq<real>)
    requires DimsFit(sh)
    ensures forall d :: 0 <= d < sh.valueDim ==>
              Sum(sh.rank, OutputTerms(latent, KernelValueWeights(sh, w, head)(d)))
              == Sum(sh.rank, OutputTerms(latent, ValueWeights(sh, w, head)(d)))
  {
    forall d | 0 <= d < sh.valueDim
      ensures Sum(sh.rank, OutputTerms(latent, KernelValueWeights(sh, w, head)(d)))
           == Sum(sh.rank, OutputTerms(latent, ValueWeights(sh, w, head)(d)))
    {
      assert sh.ExpandedStride() == sh.ExpandedDim();
      SumExt(sh.rank, OutputTerms(latent, KernelValueWeights(sh, w, head)(d)),
             OutputTerms(latent, ValueWeights(sh, w, head)(d)));
    }
  }

  // ---------- the CPU path: expand every cached latent first ----------

  /** Cached rows per token: the key row (latent, then rotated key) and the value row (the latent again). */
  datatype Cached = Cached(keys: int -> int -> real, latents: int -> int -> real) {
    /** The rotated keys, where the CPU finds them. */
    function RopeKeys(rank: nat): int -> int -> real {
      t => x => keys(t)(rank + x)
    }
  }

  /** What the cache-preparing step establishes row by row: both rows begin with the same latent. */
  ghost predicate Prepared(c: Cached, rank: nat, tokens: nat) {
    forall t, l :: 0 <= t < tokens && 0 <= l < rank ==> c.keys(t)(l) == c.latents(t)(l)
  }

  /** The head's part of the expanded latent that acts as its key. */
  function HeadKey(sh: Shape, w: seq<real>, head: nat, latent: int -> real): int -> real {
    d => Expanded(sh, w, latent)(head * sh.ExpandedDim() + d)
  }

  function NopeTerms(sh: Shape, q: seq<real>, w: seq<real>, head: nat, latent: int -> real): int -> real {
    d => QueryNope(sh, q, head)(d) * HeadKey(sh, w, head, latent)(d)
  }

  function RopeTerms(rotated: seq<real>, key: int -> real): int -> real {
    x => At(rotated, x) * key(x)
  }

  function CpuScores(sh: Shape, q: seq<real>, rotated: seq<real>, w: seq<real>, head: nat, c: Cached,
                     scale: real): int -> real {
    t => (Sum(sh.nope, NopeTerms(sh, q, w, head, c.latents(t)))
          + Sum(sh.rope, RopeTerms(rotated, c.RopeKeys(sh.rank)(t)))) * scale
  }

  function CpuColumn(sh: Shape, w: seq<real>, head: nat, c: Cached, d: int): int -> real {
    t => Expanded(sh, w, c.latents(t))(head * sh.ExpandedDim() + sh.nope + d)
  }

  /** The attention of one head over the expanded values: what both paths are to compute. */
  ghost function MlaOutput(e: real -> real, sh: Shape, q: seq<real>, rotated: seq<real>, w: seq<real>, head: nat,
                           c: Cached, scale: real, tokens: nat, d: int): real
    requires IsExp(e) && tokens > 0
  {
    SoftmaxMean(e, tokens, CpuScores(sh, q, rotated, w, head, c, scale), CpuColumn(sh, w, head, c, d))
  }

  method ExpandedHead(e: real -> real, sh: Shape, q: seq<real>, rotated: seq<real>, w: seq<real>, head: nat, c: Cached,
                      scale: real, tokens: nat)
    returns (out: seq<real>)
    requires IsExp(e) && tokens > 0
    ensures |out| == sh.valueDim
    ensures forall d :: 0 <= d < sh.valueDim ==> out[d] == MlaOutput(e, sh, q, rotated, w, head, c, scale, tokens, d)
  {
    out := Cpu.AttendHead(e, CpuScores(sh, q, rotated, w, head, c, scale), d => CpuColumn(sh, w, head, c, d), tokens,
                          sh.valueDim);
  }

  // ---------- exchanging the sums ----------

  function LatentTerms(b: int -> real, w: int -> int -> real, d: int): int -> real {
    l => b(l) * w(d)(l)
  }

  ghost function Triple(a: int -> real, w: int -> int -> real, b: int -> real): int -> int -> real {
    l => d => b(l) * (a(d) * w(d)(l))
  }

  ghost function TripleT(a: int -> real, w: int -> int -> real, b: int -> real): int -> int -> real {
    d => l => a(d) * (b(l) * w(d)(l))
  }

  /** (a W) b == a (W b): absorbing the weights into the query or expanding the latent gives the same product. */
  lemma AbsorbOrExpand(m: nat, n: nat, a: int -> real, w: int -> int -> real, b: int -> real, absorbed: int -> real,
                       expanded: int -> real,
                       left: int -> real, right: int -> real)
    requires forall l :: 0 <= l < n ==> absorbed(l) == Sum(m, AbsorbTerms(a, w, l))
    requires forall d :: 0 <= d < m ==> expanded(d) == Sum(n, LatentTerms(b, w, d))
    requires forall l :: 0 <= l < n ==> left(l) == b(l) * absorbed(l)
    requires forall d :: 0 <= d < m ==> right(d) == a(d) * expanded(d)
    ensures Sum(n, left) == Sum(m, right)
  {
    AbsorbedRows(m, n, a, w, b, absorbed, left);
    ExpandedRows(m, n, a, w, b, expanded, right);
    Transposed(m, n, a, w, b);
    SumSwap(n, m, Triple(a, w, b), TripleT(a, w, b), left, right);
  }

  lemma AbsorbedRows(m: nat, n: nat, a: int -> real, w: int -> int -> real, b: int -> real, absorbed: int -> real,
                     left: int -> real)
    requires forall l :: 0 <= l < n ==> absorbed(l) == Sum(m, AbsorbTerms(a, w, l))
    requires forall l :: 0 <= l < n ==> left(l) == b(l) * absorbed(l)
    ensures forall l :: 0 <= l < n ==> left(l) == Sum(m, Triple(a, w, b)(l))
  {
    forall l | 0 <= l < n
      ensures left(l) == Sum(m, Triple(a, w, b)(l))
    {
      ScaleRow(b(l), m, AbsorbTerms(a, w, l), absorbed(l), Triple(a, w, b)(l));
    }
  }

  lemma ExpandedRows(m: nat, n: nat, a: int -> real, w: int -> int -> real, b: int -> real, expanded: int -> real,
                     right: int -> real)
    requires forall d :: 0 <= d < m ==> expanded(d) == Sum(n, LatentTerms(b, w, d))
    requires forall d :: 0 <= d < m ==> right(d) == a(d) * expanded(d)
    ensures forall d :: 0 <= d < m ==> right(d) == Sum(n, TripleT(a, w, b)(d))
  {
    forall d | 0 <= d < m
      ensures right(d) == Sum(n, TripleT(a, w, b)(d))
    {
      ScaleRow(a(d), n, LatentTerms(b, w, d), expanded(d), TripleT(a, w, b)(d));
    }
  }

  lemma Transposed(m: nat, n: nat, a: int -> real, w: int -> int -> real, b: int -> real)
    ensures forall l, d :: 0 <= l < n && 0 <= d < m ==> Triple(a, w, b)(l)(d) == TripleT(a, w, b)(d)(l)
  {
    forall l, d | 0 <= l < n && 0 <= d < m
      ensures Triple(a, w, b)(l)(d) == TripleT(a, w, b)(d)(l)
    {
      Commute(b(l), a(d), w(d)(l));
    }
  }

  // ---------- the absorbed path ----------

  function RowTerms(prepared: seq<real>, key: int -> real): int -> real {
    x => At(prepared, x) * key(x)
  }

  function KernelTerms(prepared: seq<real>, c: Cached): int -> int -> real {
    t => RowTerms(prepared, c.keys(t))
  }

  /** The prepared query scores a cached row exactly as the CPU scores the expanded one. */
  lemma SameScore(sh: Shape, q: seq<real>, w: seq<real>, head: nat, key: int -> real, latent: int -> real,
                  ropeKey: int -> real, prepared: seq<real>)
    requires |prepared| == sh.rank + sh.rope
    requires forall l :: 0 <= l < sh.rank ==> key(l) == latent(l)
    requires forall x :: 0 <= x < sh.rope ==> ropeKey(x) == key(sh.rank + x)
    requires forall l :: 0 <= l < sh.rank ==> prepared[l] == Absorbed(sh, q, w, head)(l)
    ensures Sum(sh.rank + sh.rope, RowTerms(prepared, key))
         == Sum(sh.nope, NopeTerms(sh, q, w, head, latent)) + Sum(sh.rope, RopeTerms(prepared[sh.rank..], ropeKey))
  {
    SplitScore(sh, prepared, key, ropeKey);
    LatentScore(sh, q, w, head, key, latent, prepared);
  }

  lemma SplitScore(sh: Shape, prepared: seq<real>, key: int -> real, ropeKey: int -> real)
    requires |prepared| == sh.rank + sh.rope
    requires forall x :: 0 <= x < sh.rope ==> ropeKey(x) == key(sh.rank + x)
    ensures Sum(sh.rank + sh.rope, RowTerms(prepared, key))
         == Sum(sh.rank, RowTerms(prepared, key)) + Sum(sh.rope, RopeTerms(prepared[sh.rank..], ropeKey))
  {
    RopePart(sh, prepared, key, ropeKey);
    SumConcat(sh.rank, sh.rope, RowTerms(prepared, key), RopeTerms(prepared[sh.rank..], ropeKey));
  }

  lemma LatentScore(sh: Shape, q: seq<real>, w: seq<real>, head: nat, key: int -> real, latent: int -> real,
                    prepared: seq<real>)
    requires |prepared| == sh.rank + sh.rope
    requires forall l :: 0 <= l < sh.rank ==> key(l) == latent(l)
    requires forall l :: 0 <= l < sh.rank ==> prepared[l] == Absorbed(sh, q, w, head)(l)
    ensures Sum(sh.rank, RowTerms(prepared, key)) == Sum(sh.nope, NopeTerms(sh, q, w, head, latent))
  {
    LatentPart(sh, prepared, key, latent, Absorbed(sh, q, w, head));
    SameNopeScore(sh, q, w, head, latent, RowTerms(prepared, key));
  }

  lemma RopePart(sh: Shape, prepared: seq<real>, key: int -> real, ropeKey: int -> real)
    requires |prepared| == sh.rank + sh.rope
    requires forall x :: 0 <= x < sh.rope ==> ropeKey(x) == key(sh.rank + x)
    ensures forall x :: 0 <= x < sh.rope ==>
              RopeTerms(prepared[sh.rank..], ropeKey)(x) == RowTerms(prepared, key)(sh.rank + x)
  {
    forall x | 0 <= x < sh.rope
      ensures RopeTerms(prepared[sh.rank..], ropeKey)(x) == RowTerms(prepared, key)(sh.rank + x)
    {
      var q, k := At(prepared, sh.rank + x), key(sh.rank + x);
      assert At(prepared[sh.rank..], x) == q;
      assert RowTerms(prepared, key)(sh.rank + x) == q * k;
    }
  }

  lemma LatentPart(sh: Shape, prepared: seq<real>, key: int -> real, latent: int -> real, absorbed: int -> real)
    requires |prepared| == sh.rank + sh.rope
    requires forall l :: 0 <= l < sh.rank ==> key(l) == latent(l)
    requires forall l :: 0 <= l < sh.rank ==> prepared[l] == absorbed(l)
    ensures forall l :: 0 <= l < sh.rank ==> RowTerms(prepared, key)(l) == latent(l) * absorbed(l)
  {
    forall l | 0 <= l < sh.rank
      ensures RowTerms(prepared, key)(l) == latent(l) * absorbed(l)
    {
      var q, k := At(prepared, l), key(l);
      assert q == absorbed(l);
      assert RowTerms(prepared, key)(l) == q * k;
    }
  }

  lemma SameNopeScore(sh: Shape, q: seq<real>, w: seq<real>, head: nat, latent: int -> real, terms: int -> real)
    requires forall l :: 0 <= l < sh.rank ==> terms(l) == latent(l) * Absorbed(sh, q, w, head)(l)
    ensures Sum(sh.rank, terms) == Sum(sh.nope, NopeTerms(sh, q, w, head, latent))
  {
    ExpandedKeys(sh, w, head, latent);
    AbsorbedIs(sh, q, w, head);
    NopeTermsAre(sh, q, w, head, latent);
    AbsorbOrExpand(sh.nope, sh.rank, QueryNope(sh, q, head), KeyWeights(sh, w, head), latent,
                   Absorbed(sh, q, w, head), HeadKey(sh, w, head, latent), terms, NopeTerms(sh, q, w, head, latent));
  }

  lemma AbsorbedIs(sh: Shape, q: seq<real>, w: seq<real>, head: nat)
    ensures forall l :: 0 <= l < sh.rank ==>
              Absorbed(sh, q, w, head)(l)
              == Sum(sh.nope, AbsorbTerms(QueryNope(sh, q, head), KeyWeights(sh, w, head), l))
  {
  }

  lemma NopeTermsAre(sh: Shape, q: seq<real>, w: seq<real>, head: nat, latent: int -> real)
    ensures forall d :: 0 <= d < sh.nope ==>
              NopeTerms(sh, q, w, head, latent)(d) == QueryNope(sh, q, head)(d) * HeadKey(sh, w, head, latent)(d)
  {
  }

  lemma ExpandedKeys(sh: Shape, w: seq<real>, head: nat, latent: int -> real)
    ensures forall d :: 0 <= d < sh.nope ==>
              HeadKey(sh, w, head, latent)(d) == Sum(sh.rank, LatentTerms(latent, KeyWeights(sh, w, head), d))
  {
    forall d | 0 <= d < sh.nope
      ensures HeadKey(sh, w, head, latent)(d) == Sum(sh.rank, LatentTerms(latent, KeyWeights(sh, w, head), d))
    {
      ExpandedKey(sh, w, head, latent, d);
    }
  }

  lemma ExpandedKey(sh: Shape, w: seq<real>, head: nat, latent: int -> real, d: nat)
    ensures Expanded(sh, w, latent)(head * sh.ExpandedDim() + d)
         == Sum(sh.rank, LatentTerms(latent, KeyWeights(sh, w, head), d))
  {
    var y := head * sh.ExpandedDim() + d;
    forall l | 0 <= l < sh.rank
      ensures ExpandTerms(sh, w, latent, y)(l) == LatentTerms(latent, KeyWeights(sh, w, head), d)(l)
    {
      KeyWeightAddress(sh, w, head, d, l);
    }
    SumExt(sh.rank, ExpandTerms(sh, w, latent, y), LatentTerms(latent, KeyWeights(sh, w, head), d));
  }

  ghost function LatentColumns(c: Cached): int -> int -> real {
    l => Paged.ColumnOf(c.latents, l)
  }

  lemma ExpandedValue(sh: Shape, w: seq<real>, head: nat, c: Cached, d: nat, t: int)
    ensures CpuColumn(sh, w, head, c, d)(t) == Sum(sh.rank, MixTerms(ValueWeights(sh, w, head)(d), LatentColumns(c), t))
  {
    var y := head * sh.ExpandedDim() + sh.nope + d;
    var g := MixTerms(ValueWeights(sh, w, head)(d), LatentColumns(c), t);
    forall l | 0 <= l < sh.rank
      ensures ExpandTerms(sh, w, c.latents(t), y)(l) == g(l)
    {
      ValueWeightAddress(sh, w, head, d, l);
    }
    SumExt(sh.rank, ExpandTerms(sh, w, c.latents(t), y), g);
  }

  /** Expanding the mean of the latents is the mean of the expanded values. */
  lemma ExpandTheMean(e: real -> real, sh: Shape, w: seq<real>, head: nat, c: Cached, s: int -> real, tokens: nat,
                      latent: seq<real>, d: nat)
    requires IsExp(e) && tokens > 0 && |latent| == sh.rank
    requires forall l :: 0 <= l < sh.rank ==> latent[l] == SoftmaxMean(e, tokens, s, Paged.ColumnOf(c.latents, l))
    ensures Sum(sh.rank, OutputTerms(latent, ValueWeights(sh, w, head)(d)))
         == SoftmaxMean(e, tokens, s, CpuColumn(sh, w, head, c, d))
  {
    var z := Sum(tokens, Weight(e, s));
    forall l | 0 <= l < sh.rank
      ensures Means(latent)(l) * z == Sum(tokens, Weighted(e, s, LatentColumns(c)(l)))
    {
      MeanSpec(e, tokens, s, Paged.ColumnOf(c.latents, l), z);
    }
    ExpandTheSum(e, sh, w, head, c, s, tokens, latent, d, z);
    MeanUnique(e, tokens, s, CpuColumn(sh, w, head, c, d),
               Sum(sh.rank, OutputTerms(latent, ValueWeights(sh, w, head)(d))));
  }

  lemma ExpandTheSum(e: real -> real, sh: Shape, w: seq<real>, head: nat, c: Cached, s: int -> real, tokens: nat,
                     latent: seq<real>, d: nat, z: real)
    requires forall l :: 0 <= l < sh.rank ==> Means(latent)(l) * z == Sum(tokens, Weighted(e, s, LatentColumns(c)(l)))
    ensures Sum(sh.rank, OutputTerms(latent, ValueWeights(sh, w, head)(d))) * z
         == Sum(tokens, Weighted(e, s, CpuColumn(sh, w, head, c, d)))
  {
    ExpandedValues(sh, w, head, c, d, tokens);
    Commuted(sh.rank, latent, ValueWeights(sh, w, head)(d));
    MeansLinear(e, tokens, s, sh.rank, ValueWeights(sh, w, head)(d), LatentColumns(c), CpuColumn(sh, w, head, c, d),
                Means(latent), OutputTerms(latent, ValueWeights(sh, w, head)(d)), z);
  }

  lemma ExpandedValues(sh: Shape, w: seq<real>, head: nat, c: Cached, d: nat, tokens: nat)
    ensures forall t :: 0 <= t < tokens ==>
              CpuColumn(sh, w, head, c, d)(t)
              == Sum(sh.rank, MixTerms(ValueWeights(sh, w, head)(d), LatentColumns(c), t))
  {
    forall t | 0 <= t < tokens
      ensures CpuColumn(sh, w, head, c, d)(t)
           == Sum(sh.rank, MixTerms(ValueWeights(sh, w, head)(d), LatentColumns(c), t))
    {
      ExpandedValue(sh, w, head, c, d, t);
    }
  }

  ghost function Means(latent: seq<real>): int -> real {
    l => At(latent, l)
  }

  lemma Commuted(rank: nat, latent: seq<real>, w: int -> real)
    ensures forall l :: 0 <= l < rank ==> OutputTerms(latent, w)(l) == w(l) * Means(latent)(l)
  {
    forall l | 0 <= l < rank
      ensures OutputTerms(latent, w)(l) == w(l) * Means(latent)(l)
    {
      var a, b := At(latent, l), w(l);
      assert OutputTerms(latent, w)(l) == a * b;
    }
  }

  lemma SameScores(sh: Shape, q: seq<real>, w: seq<real>, head: nat, c: Cached, scale: real, prepared: seq<real>,
                   tokens: nat)
    requires |prepared| == sh.rank + sh.rope && Prepared(c, sh.rank, tokens)
    requires forall l :: 0 <= l < sh.rank ==> prepared[l] == Absorbed(sh, q, w, head)(l)
    ensures forall t :: 0 <= t < tokens ==>
              Paged.ScoreOf(KernelTerms(prepared, c), sh.rank + sh.rope, scale)(t)
              == CpuScores(sh, q, prepared[sh.rank..], w, head, c, scale)(t)
  {
    forall t | 0 <= t < tokens
      ensures Paged.ScoreOf(KernelTerms(prepared, c), sh.rank + sh.rope, scale)(t)
           == CpuScores(sh, q, prepared[sh.rank..], w, head, c, scale)(t)
    {
      SameScoreAt(sh, q, w, head, c, scale, prepared, t);
    }
  }

  lemma SameScoreAt(sh: Shape, q: seq<real>, w: seq<real>, head: nat, c: Cached, scale: real, prepared: seq<real>,
                    t: int)
    requires |prepared| == sh.rank + sh.rope && forall l :: 0 <= l < sh.rank ==> c.keys(t)(l) == c.latents(t)(l)
    requires forall l :: 0 <= l < sh.rank ==> prepared[l] == Absorbed(sh, q, w, head)(l)
    ensures Paged.ScoreOf(KernelTerms(prepared, c), sh.rank + sh.rope, scale)(t)
         == CpuScores(sh, q, prepared[sh.rank..], w, head, c, scale)(t)
  {
    SameScore(sh, q, w, head, c.keys(t), c.latents(t), c.RopeKeys(sh.rank)(t), prepared);
    KernelScoreIs(prepared, c, sh.rank + sh.rope, scale, t);
    CpuScoreIs(sh, q, prepared[sh.rank..], w, head, c, scale, t);
  }

  lemma KernelScoreIs(prepared: seq<real>, c: Cached, n: nat, scale: real, t: int)
    ensures Paged.ScoreOf(KernelTerms(prepared, c), n, scale)(t) == Sum(n, RowTerms(prepared, c.keys(t))) * scale
  {
  }

  lemma CpuScoreIs(sh: Shape, q: seq<real>, rotated: seq<real>, w: seq<real>, head: nat, c: Cached, scale: real, t: int)
    ensures CpuScores(sh, q, rotated, w, head, c, scale)(t)
         == (Sum(sh.nope, NopeTerms(sh, q, w, head, c.latents(t)))
             + Sum(sh.rope, RopeTerms(rotated, c.RopeKeys(sh.rank)(t)))) * scale
  {
  }

  lemma SameOutput(e: real -> real, sh: Shape, q: seq<real>, w: seq<real>, head: nat, c: Cached, scale: real,
                   prepared: seq<real>, tokens: nat,
                   latent: seq<real>, d: nat)
    requires IsExp(e) && tokens > 0 && |latent| == sh.rank
    requires |prepared| == sh.rank + sh.rope && Prepared(c, sh.rank, tokens)
    requires forall l :: 0 <= l < sh.rank ==> prepared[l] == Absorbed(sh, q, w, head)(l)
    requires forall l :: 0 <= l < sh.rank ==>
               latent[l]
               == SoftmaxMean(e, tokens, Paged.ScoreOf(KernelTerms(prepared, c), sh.rank + sh.rope, scale),
                              Paged.ColumnOf(c.latents, l))
    ensures Sum(sh.rank, OutputTerms(latent, ValueWeights(sh, w, head)(d)))
         == MlaOutput(e, sh, q, prepared[sh.rank..], w, head, c, scale, tokens, d)
  {
    var kernel, cpu :=
      Paged.ScoreOf(KernelTerms(prepared, c), sh.rank + sh.rope, scale),
      CpuScores(sh, q, prepared[sh.rank..], w, head, c, scale);
    ExpandTheMean(e, sh, w, head, c, kernel, tokens, latent, d);
    SameScores(sh, q, w, head, c, scale, prepared, tokens);
    SoftmaxMeanExt(e, tokens, kernel, CpuColumn(sh, w, head, c, d), cpu, CpuColumn(sh, w, head, c, d));
  }
}
