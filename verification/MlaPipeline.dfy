/**
 * The three MLA kernels over a whole batch, with the paged attention kernel between them, against the CPU forward pass
 * of one row over its gathered cache rows.
 */
module MlaPipeline {
  import opened Basics
  import opened Sums
  import opened Strides
  import opened Softmax
  import opened CpuShapes
  import opened AbsorbedMla
  import Paged = PagedAttention
  import Cpu = CpuAttention

  /** Attention over latents: one shared KV head, the latent and rotated key as key, the latent as value. */
  ghost predicate MlaConfig(c: Paged.Config, sh: Shape) {
    Paged.Planned(c) && c.kvHeads == 1 && c.keyDim == sh.rank + sh.rope && c.valueDim == sh.rank && sh.rope % 2 == 0
  }

  /** What the caller of the launches checks: nothing the kernels compute in 32 bits wraps. */
  predicate LaunchFits(sh: Shape, blockDim: nat) {
    KernelFits(sh, blockDim) && StrideFits(sh.PreparedDim(), blockDim)
  }

  // ---------- the first launch ----------

  /** What one block of the first kernel leaves: the absorbed query and the rotated part. */
  ghost predicate IsPrepared(sh: Shape, q: seq<real>, w: seq<real>, head: nat, r: Rotation, v: seq<real>) {
    && |v| == sh.rank + sh.rope && sh.rope % 2 == 0
    && (forall l :: 0 <= l < sh.rank ==> v[l] == Absorbed(sh, q, w, head)(l))
    && IsRotated(r, sh.rope / 2, QueryRope(sh, q, head), v[sh.rank..])
  }

  /** The query row of one token, all heads. */
  function QueryRow(sh: Shape, heads: nat, q: seq<real>, row: nat): seq<real> {
    Block(q, heads * sh.QueryDim(), row)
  }

  /** Where a block of the first kernel reads its query and stores its result. */
  function QueryBase(sh: Shape, heads: nat, row: nat, head: nat): nat {
    (row * heads + head) * sh.QueryStride()
  }

  function PreparedBase(sh: Shape, heads: nat, row: nat, head: nat): nat {
    (row * heads + head) * sh.PreparedStride()
  }

  /** The address the kernel computes for a (row, head, component) is that component of the token's own query row. */
  lemma QueryAddress(sh: Shape, heads: nat, q: seq<real>, row: nat, head: nat, x: nat)
    requires DimsFit(sh) && head < heads && x < sh.QueryDim()
    ensures At(q, QueryBase(sh, heads, row, head) + x)
         == At(QueryRow(sh, heads, q, row), head * sh.QueryDim() + x)
  {
    DigitBound(head, x, sh.QueryDim(), heads);
    NestedOffset(row, heads, head, sh.QueryDim(), x);
    assert QueryRow(sh, heads, q, row)[head * sh.QueryDim() + x]
        == Element(q, heads * sh.QueryDim(), row, head * sh.QueryDim() + x);
  }

  /** So a block absorbs and rotates the query of its own row and head. */
  lemma OwnQuery(sh: Shape, heads: nat, q: seq<real>, w: seq<real>, row: nat, head: nat)
    requires DimsFit(sh) && head < heads
    ensures var base := QueryBase(sh, heads, row, head);
            && RopeAt(sh, q, base) == QueryRope(sh, QueryRow(sh, heads, q, row), head)
            && forall l :: AbsorbedAt(sh, q, base, w, head)(l) == Absorbed(sh, QueryRow(sh, heads, q, row), w, head)(l)
  {
    var base := QueryBase(sh, heads, row, head);
    var own := QueryRow(sh, heads, q, row);
    forall x: nat | x < sh.rope
      ensures RopeAt(sh, q, base)[x] == QueryRope(sh, own, head)[x]
    {
      QueryAddress(sh, heads, q, row, head, sh.nope + x);
    }
    forall l
      ensures AbsorbedAt(sh, q, base, w, head)(l) == Absorbed(sh, own, w, head)(l)
    {
      OwnAbsorbed(sh, heads, q, w, row, head, l);
    }
  }

  lemma OwnAbsorbed(sh: Shape, heads: nat, q: seq<real>, w: seq<real>, row: nat, head: nat, l: int)
    requires DimsFit(sh) && head < heads
    ensures AbsorbedAt(sh, q, QueryBase(sh, heads, row, head), w, head)(l)
         == Absorbed(sh, QueryRow(sh, heads, q, row), w, head)(l)
  {
    var a, b := NopeAt(q, QueryBase(sh, heads, row, head)), QueryNope(sh, QueryRow(sh, heads, q, row), head);
    var k := KeyWeights(sh, w, head);
    forall d | 0 <= d < sh.nope
      ensures AbsorbTerms(a, k, l)(d) == AbsorbTerms(b, k, l)(d)
    {
      QueryAddress(sh, heads, q, row, head, d);
      assert a(d) == b(d);
    }
    SumExt(sh.nope, AbsorbTerms(a, k, l), AbsorbTerms(b, k, l));
  }

  /** Inputs of the first launch; `rot` gives the rotation of each row's position. */
  datatype Queries = Queries(sh: Shape, heads: nat, rows: nat, q: seq<real>, w: seq<real>, rot: int -> Rotation) {
    function Width(): nat {
      sh.rank + sh.rope
    }

    function Size(): nat {
      CellsLength(Width(), rows, heads)
    }
  }

  ghost predicate PreparedAt(z: Queries, buffer: seq<real>, row: nat, head: nat) {
    IsPrepared(z.sh, QueryRow(z.sh, z.heads, z.q, row), z.w, head, z.rot(row),
               Cell(buffer, z.Width(), z.heads, row, head))
  }

  ghost predicate AllPrepared(z: Queries, pending: set<(nat, nat)>, buffer: seq<real>) {
    |buffer| == z.Size()
    && forall row: nat, head: nat :: row < z.rows && head < z.heads && (row, head) !in pending ==>
         PreparedAt(z, buffer, row, head)
  }

  lemma OtherBlock(z: Queries, buffer: seq<real>, row: nat, head: nat, v: seq<real>, row': nat, head': nat)
    requires row < z.rows && head < z.heads && row' < z.rows && head' < z.heads && |buffer| == z.Size()
             && |v| == z.Width()
    ensures Cell(WithCell(buffer, z.Width(), z.heads, row, head, v), z.Width(), z.heads, row', head')
         == if (row', head') == (row, head) then v else Cell(buffer, z.Width(), z.heads, row', head')
  {
    CellWritten(buffer, z.Width(), z.rows, z.heads, row, head, v, row', head');
  }

  lemma BlockPrepared(z: Queries, pending: set<(nat, nat)>, buffer: seq<real>, row: nat, head: nat, v: seq<real>)
    requires row < z.rows && head < z.heads && AllPrepared(z, pending, buffer) && |v| == z.Width()
    requires IsPrepared(z.sh, QueryRow(z.sh, z.heads, z.q, row), z.w, head, z.rot(row), v)
    ensures AllPrepared(z, pending - {(row, head)}, WithCell(buffer, z.Width(), z.heads, row, head, v))
  {
    var after := WithCell(buffer, z.Width(), z.heads, row, head, v);
    forall row': nat, head': nat | row' < z.rows && head' < z.heads && (row', head') !in pending - {(row, head)}
      ensures PreparedAt(z, after, row', head')
    {
      OtherBlock(z, buffer, row, head, v, row', head');
      if (row', head') != (row, head) {
        assert PreparedAt(z, buffer, row', head');
      }
    }
  }

  method PrepareNext(z: Queries, ghost pending: set<(nat, nat)>, buffer: seq<real>, row: nat, head: nat, blockDim: nat)
    returns (after: seq<real>)
    requires z.sh.rope % 2 == 0 && 0 < blockDim && KernelFits(z.sh, blockDim) && row < z.rows && head < z.heads
             && AllPrepared(z, pending, buffer)
    ensures AllPrepared(z, pending - {(row, head)}, after)
  {
    var v := PrepareBlock(z, row, head, blockDim);
    BlockPrepared(z, pending, buffer, row, head, v);
    StoredIsCell(z, buffer, row, head, v);
    after := StoredAt(buffer, PreparedBase(z.sh, z.heads, row, head), v);
  }

  method PrepareBlock(z: Queries, row: nat, head: nat, blockDim: nat) returns (v: seq<real>)
    requires z.sh.rope % 2 == 0 && 0 < blockDim && KernelFits(z.sh, blockDim) && row < z.rows && head < z.heads
    ensures IsPrepared(z.sh, QueryRow(z.sh, z.heads, z.q, row), z.w, head, z.rot(row), v)
  {
    v := PrepareQuery(z.sh, z.q, QueryBase(z.sh, z.heads, row, head), z.w, head, z.rot(row), blockDim);
    OwnBlock(z.sh, z.heads, z.q, z.w, row, head, z.rot(row), v);
  }

  lemma OwnBlock(sh: Shape, heads: nat, q: seq<real>, w: seq<real>, row: nat, head: nat, r: Rotation, v: seq<real>)
    requires DimsFit(sh) && head < heads && |v| == sh.PreparedDim() && sh.rope % 2 == 0
    requires var base := QueryBase(sh, heads, row, head);
             && (forall l :: 0 <= l < sh.rank ==> v[l] == AbsorbedAt(sh, q, base, w, head)(l))
             && IsRotated(r, sh.rope / 2, RopeAt(sh, q, base), v[sh.rank..])
    ensures IsPrepared(sh, QueryRow(sh, heads, q, row), w, head, r, v)
  {
    OwnQuery(sh, heads, q, w, row, head);
  }

  /** The address the kernel stores at is that of the block's own part. */
  lemma StoredIsCell(z: Queries, buffer: seq<real>, row: nat, head: nat, v: seq<real>)
    requires DimsFit(z.sh) && |v| == z.Width()
    ensures StoredAt(buffer, PreparedBase(z.sh, z.heads, row, head), v)
         == WithCell(buffer, z.Width(), z.heads, row, head, v)
  {
    assert z.sh.PreparedStride() == z.Width();
  }

  /** Every (row, head) block once, in any order, reading and storing at the kernel's own addresses. */
  method PrepareQueries(z: Queries, blockDim: nat) returns (buffer: seq<real>)
    requires z.sh.rope % 2 == 0 && 0 < blockDim && KernelFits(z.sh, blockDim)
    ensures AllPrepared(z, {}, buffer)
  {
    buffer := seq(z.Size(), _ => 0.0);
    var pending := Tasks(z.rows, z.heads);
    while pending != {}
      invariant forall row: nat, head: nat :: (row, head) in pending ==> row < z.rows && head < z.heads
      invariant AllPrepared(z, pending, buffer)
      decreases |pending|
    {
      var task :| task in pending;
      buffer := PrepareNext(z, pending, buffer, task.0, task.1, blockDim);
      pending := pending - {task};
    }
  }

  // ---------- attention over the pool, then expansion ----------

  /** The cached rows of a sequence, wherever its pages lie in the pool. */
  ghost function PoolRows(c: Paged.Config, inp: Paged.Inputs, start: nat): Cached
    requires c.layout.pageSize > 0
  {
    Cached(PoolKeys(c, inp, start), Paged.ValueRows(c, inp, 0, start))
  }

  ghost function PoolKeys(c: Paged.Config, inp: Paged.Inputs, start: nat): int -> int -> real
    requires c.layout.pageSize > 0
  {
    t => x => inp.pool(Paged.KeyAddress(c, 0, Paged.SlotOf(inp.slots, start + t)) + Paged.BF16_BYTES * x)
  }

  lemma OnlyKvHead(c: Paged.Config, head: nat)
    requires Paged.Planned(c) && c.kvHeads == 1 && head < c.queryHeads
    ensures Cpu.KvHead(c.queryHeads, 1, head) == 0
  {
    Paged.KvHeadBelow(c, head);
  }

  /** The attention kernel scores a row with the block the first kernel prepared. */
  lemma SameKernelTerms(c: Paged.Config, inp: Paged.Inputs, row: nat, head: nat, start: nat, t: int)
    requires c.layout.pageSize > 0 && head < c.queryHeads
    ensures Sum(c.keyDim, Paged.KeyTerms(c, inp, Paged.QueryOffset(c, row, head), 0, start)(t))
         == Sum(c.keyDim, KernelTerms(Cell(inp.queries, c.keyDim, c.queryHeads, row, head), PoolRows(c, inp, start))(t))
  {
    var v := Cell(inp.queries, c.keyDim, c.queryHeads, row, head);
    var f, g := Paged.KeyTerms(c, inp, Paged.QueryOffset(c, row, head), 0, start)(t),
                KernelTerms(v, PoolRows(c, inp, start))(t);
    forall x | 0 <= x < c.keyDim
      ensures f(x) == g(x)
    {
      var a, b := At(inp.queries, Paged.QueryOffset(c, row, head) + x), PoolKeys(c, inp, start)(t)(x);
      assert v[x] == a;
      assert f(x) == a * b;
      assert g(x) == At(v, x) * b;
    }
    SumExt(c.keyDim, f, g);
  }

  lemma SameKernelScores(c: Paged.Config, inp: Paged.Inputs, row: nat, head: nat, start: nat, tokens: nat)
    requires c.layout.pageSize > 0 && head < c.queryHeads
    ensures forall t :: 0 <= t < tokens ==>
              Paged.ScoreOf(Paged.KeyTerms(c, inp, Paged.QueryOffset(c, row, head), 0, start), c.keyDim, c.scale)(t)
              == Paged.ScoreOf(KernelTerms(Cell(inp.queries, c.keyDim, c.queryHeads, row, head),
                                           PoolRows(c, inp, start)), c.keyDim, c.scale)(t)
  {
    forall t | 0 <= t < tokens
      ensures Paged.ScoreOf(Paged.KeyTerms(c, inp, Paged.QueryOffset(c, row, head), 0, start), c.keyDim, c.scale)(t)
           == Paged.ScoreOf(KernelTerms(Cell(inp.queries, c.keyDim, c.queryHeads, row, head), PoolRows(c, inp, start)),
                            c.keyDim, c.scale)(t)
    {
      SameKernelTerms(c, inp, row, head, start, t);
    }
  }

  /** What the attention block computes, in terms of the prepared query and the cached rows. */
  lemma LatentAttention(e: real -> real, c: Paged.Config, inp: Paged.Inputs, row: nat, head: nat, start: nat,
                        tokens: nat, l: int)
    requires IsExp(e) && Paged.Planned(c) && c.kvHeads == 1 && head < c.queryHeads && tokens > 0
    ensures Paged.BlockOutput(e, c, inp, row, head, start, tokens, l)
         == SoftmaxMean(e, tokens,
                        Paged.ScoreOf(KernelTerms(Cell(inp.queries, c.keyDim, c.queryHeads, row, head),
                                                  PoolRows(c, inp, start)), c.keyDim, c.scale),
                        Paged.ColumnOf(PoolRows(c, inp, start).latents, l))
  {
    OnlyKvHead(c, head);
    SameKernelScores(c, inp, row, head, start, tokens);
    var column := Paged.ColumnOf(Paged.ValueRows(c, inp, 0, start), l);
    SoftmaxMeanExt(e, tokens,
                   Paged.ScoreOf(Paged.KeyTerms(c, inp, Paged.QueryOffset(c, row, head), 0, start), c.keyDim, c.scale),
                   column,
                   Paged.ScoreOf(KernelTerms(Cell(inp.queries, c.keyDim, c.queryHeads, row, head),
                                             PoolRows(c, inp, start)), c.keyDim, c.scale), column);
  }

  /**
   * Second and third kernel for one (row, head): attention over the pages, then expansion by the value half. With valid
   * metadata and slots the result is the attention over the expanded values; otherwise the error bits of the kernel.
   */
  method AttendAndExpand(e: real -> real, c: Paged.Config, sh: Shape, inp: Paged.Inputs, q: seq<real>, w: seq<real>,
                         r: Rotation, row: nat, head: nat, blockDim: nat)
    returns (out: Paged.Outcome)
    requires IsExp(e) && MlaConfig(c, sh) && LaunchFits(sh, blockDim) && PowerOfTwo(blockDim) && head < c.queryHeads
    requires row < |inp.requestIndices| && row < |inp.sequenceLengths| && |inp.slotOffsets| == c.requestCount + 1
    requires IsPrepared(sh, q, w, head, r, Cell(inp.queries, c.keyDim, c.queryHeads, row, head))
    requires Paged.Metadata(c, inp, row).Ok? ==>
               var (start, tokens) := Paged.Metadata(c, inp, row).value;
               Prepared(PoolRows(c, inp, start), sh.rank, tokens)
    ensures Paged.Metadata(c, inp, row).Err? ==> out == Paged.Flagged(Paged.Metadata(c, inp, row).error)
    ensures Paged.Metadata(c, inp, row).Ok? ==>
              var (start, tokens) := Paged.Metadata(c, inp, row).value;
              && (out.Output? <==> forall i :: 0 <= i < tokens ==> Paged.SlotsValid(c, inp, start)(i))
              && (out.Flagged? ==> out.bits == 4)
              && (out.Output? ==>
                    |out.vector| == sh.valueDim
                    && forall rotated, d ::
                         IsRotated(r, sh.rope / 2, QueryRope(sh, q, head), rotated) && 0 <= d < sh.valueDim ==>
                    out.vector[d] == MlaOutput(e, sh, q, rotated, w, head, PoolRows(c, inp, start), c.scale, tokens, d))
  {
    out := Paged.AttendBlock(e, c, inp, row, head, blockDim);
    if out.Output? {
      ghost var (start, tokens) := Paged.Metadata(c, inp, row).value;
      var vector := ExpandOutput(sh, out.vector, w, head, blockDim);
      ExpandedOutputs(e, c, sh, inp, q, w, r, row, head, start, tokens, out.vector, vector);
      out := Paged.Output(vector);
    }
  }

  /** The expanded attention over latents is the attention over expanded values. */
  lemma ExpandedOutputs(e: real -> real, c: Paged.Config, sh: Shape, inp: Paged.Inputs, q: seq<real>, w: seq<real>,
                        r: Rotation,
                        row: nat, head: nat, start: nat, tokens: nat, latent: seq<real>, vector: seq<real>)
    requires IsExp(e) && MlaConfig(c, sh) && head < c.queryHeads && tokens > 0 && |latent| == sh.rank
             && |vector| == sh.valueDim
    requires IsPrepared(sh, q, w, head, r, Cell(inp.queries, c.keyDim, c.queryHeads, row, head))
    requires Prepared(PoolRows(c, inp, start), sh.rank, tokens)
    requires forall l :: 0 <= l < sh.rank ==> latent[l] == Paged.BlockOutput(e, c, inp, row, head, start, tokens, l)
    requires forall d :: 0 <= d < sh.valueDim ==>
               vector[d] == Sum(sh.rank, OutputTerms(latent, ValueWeights(sh, w, head)(d)))
    ensures forall rotated, d :: IsRotated(r, sh.rope / 2, QueryRope(sh, q, head), rotated) && 0 <= d < sh.valueDim ==>
              vector[d] == MlaOutput(e, sh, q, rotated, w, head, PoolRows(c, inp, start), c.scale, tokens, d)
  {
    var prepared := Cell(inp.queries, c.keyDim, c.queryHeads, row, head);
    forall l | 0 <= l < sh.rank
      ensures latent[l]
           == SoftmaxMean(e, tokens,
                          Paged.ScoreOf(KernelTerms(prepared, PoolRows(c, inp, start)), sh.rank + sh.rope, c.scale),
                                       Paged.ColumnOf(PoolRows(c, inp, start).latents, l))
    {
      LatentAttention(e, c, inp, row, head, start, tokens, l);
    }
    forall rotated, d | IsRotated(r, sh.rope / 2, QueryRope(sh, q, head), rotated) && 0 <= d < sh.valueDim
      ensures vector[d] == MlaOutput(e, sh, q, rotated, w, head, PoolRows(c, inp, start), c.scale, tokens, d)
    {
      RotatedUnique(r, sh.rope / 2, QueryRope(sh, q, head), rotated, prepared[sh.rank..]);
      SameOutput(e, sh, q, w, head, PoolRows(c, inp, start), c.scale, prepared, tokens, latent, d);
    }
  }

  // ---------- the CPU forward pass of one row ----------

  /** The gathered rows as the CPU reads them. */
  function Gathered(keys: seq<real>, latents: seq<real>, width: nat, rank: nat): Cached {
    Cached(GatheredRows(keys, width), GatheredRows(latents, rank))
  }

  function GatheredRows(rows: seq<real>, width: nat): int -> int -> real {
    t => x => At(rows, t * width + x)
  }

  /** Gathered rows follow each other: appending one adds the row of the next token. */
  lemma GatheredInOrder(rows: seq<real>, row: seq<real>, tokens: nat, width: nat, t: nat, x: nat)
    requires |rows| == tokens * width && |row| == width && t <= tokens && x < width
    ensures GatheredRows(rows + row, width)(t)(x) == if t == tokens then row[x] else GatheredRows(rows, width)(t)(x)
  {
    RowAppended(rows, row, tokens, width, t, x);
  }

  /** Every head: rotate its query part in place, attend over the expanded rows, append its output. */
  method CpuForward(e: real -> real, sh: Shape, heads: nat, q: seq<real>, w: seq<real>, r: Rotation, c: Cached,
                    scale: real, tokens: nat) returns (attention: seq<real>)
    requires IsExp(e) && tokens > 0 && sh.rope % 2 == 0
    ensures |attention| == heads * sh.valueDim
    ensures forall head: nat :: head < heads ==> HeadComputed(e, sh, q, w, head, r, c, scale, tokens, attention)
  {
    attention := [];
    for head := 0 to heads
      invariant |attention| == head * sh.valueDim
      invariant forall h: nat :: h < head ==> HeadComputed(e, sh, q, w, h, r, c, scale, tokens, attention)
    {
      var rope := new real[sh.rope](x => if 0 <= x then At(q, head * sh.QueryDim() + sh.nope + x) else 0.0);
      assert rope[..] == QueryRope(sh, q, head);
      RotateInPlace(r, rope, sh.rope / 2);
      var out := ExpandedHead(e, sh, q, rope[..], w, head, c, scale, tokens);
      HeadAppended(e, sh, q, w, head, r, c, scale, tokens, attention, rope[..], out);
      attention := attention + out;
    }
  }

  ghost predicate HeadComputed(e: real -> real, sh: Shape, q: seq<real>, w: seq<real>, head: nat, r: Rotation,
                               c: Cached, scale: real, tokens: nat, attention: seq<real>)
    requires IsExp(e) && tokens > 0
  {
    forall rotated, d: nat :: IsRotated(r, sh.rope / 2, QueryRope(sh, q, head), rotated) && d < sh.valueDim ==>
      Element(attention, sh.valueDim, head, d) == MlaOutput(e, sh, q, rotated, w, head, c, scale, tokens, d)
  }

  lemma HeadAppended(e: real -> real, sh: Shape, q: seq<real>, w: seq<real>, head: nat, r: Rotation, c: Cached,
                     scale: real, tokens: nat,
                     attention: seq<real>, rope: seq<real>, out: seq<real>)
    requires IsExp(e) && tokens > 0 && |attention| == head * sh.valueDim && |out| == sh.valueDim
    requires IsRotated(r, sh.rope / 2, QueryRope(sh, q, head), rope)
    requires forall d :: 0 <= d < sh.valueDim ==> out[d] == MlaOutput(e, sh, q, rope, w, head, c, scale, tokens, d)
    requires forall h: nat :: h < head ==> HeadComputed(e, sh, q, w, h, r, c, scale, tokens, attention)
    ensures |attention + out| == (head + 1) * sh.valueDim
    ensures forall h: nat :: h < head + 1 ==> HeadComputed(e, sh, q, w, h, r, c, scale, tokens, attention + out)
  {
    forall h: nat, rotated, d: nat | h < head + 1 && d < sh.valueDim
                                     && IsRotated(r, sh.rope / 2, QueryRope(sh, q, h), rotated)
      ensures Element(attention + out, sh.valueDim, h, d) == MlaOutput(e, sh, q, rotated, w, h, c, scale, tokens, d)
    {
      RowAppended(attention, out, head, sh.valueDim, h, d);
      if h == head {
        RotatedUnique(r, sh.rope / 2, QueryRope(sh, q, head), rotated, rope);
      } else {
        assert HeadComputed(e, sh, q, w, h, r, c, scale, tokens, attention);
      }
    }
  }

  // ---------- both on the same cache ----------

  /** Two caches hold the same rows, as far as the sequence and the widths go. */
  ghost predicate SameCache(sh: Shape, tokens: nat, a: Cached, b: Cached) {
    && (forall t, x :: 0 <= t < tokens && 0 <= x < sh.rank + sh.rope ==> a.keys(t)(x) == b.keys(t)(x))
    && (forall t, l :: 0 <= t < tokens && 0 <= l < sh.rank ==> a.latents(t)(l) == b.latents(t)(l))
  }

  lemma ExpandedExt(sh: Shape, w: seq<real>, a: int -> real, b: int -> real, y: int)
    requires forall l :: 0 <= l < sh.rank ==> a(l) == b(l)
    ensures Expanded(sh, w, a)(y) == Expanded(sh, w, b)(y)
  {
    SumExt(sh.rank, ExpandTerms(sh, w, a, y), ExpandTerms(sh, w, b, y));
  }

  lemma NopeExt(sh: Shape, q: seq<real>, w: seq<real>, head: nat, a: int -> real, b: int -> real)
    requires forall l :: 0 <= l < sh.rank ==> a(l) == b(l)
    ensures Sum(sh.nope, NopeTerms(sh, q, w, head, a)) == Sum(sh.nope, NopeTerms(sh, q, w, head, b))
  {
    forall d | 0 <= d < sh.nope
      ensures NopeTerms(sh, q, w, head, a)(d) == NopeTerms(sh, q, w, head, b)(d)
    {
      ExpandedExt(sh, w, a, b, head * sh.ExpandedDim() + d);
      assert HeadKey(sh, w, head, a)(d) == HeadKey(sh, w, head, b)(d);
    }
    SumExt(sh.nope, NopeTerms(sh, q, w, head, a), NopeTerms(sh, q, w, head, b));
  }

  lemma ScoreExt(sh: Shape, q: seq<real>, rotated: seq<real>, w: seq<real>, head: nat, a: Cached, b: Cached,
                 scale: real, tokens: nat, t: int)
    requires SameCache(sh, tokens, a, b) && 0 <= t < tokens
    ensures CpuScores(sh, q, rotated, w, head, a, scale)(t) == CpuScores(sh, q, rotated, w, head, b, scale)(t)
  {
    NopeExt(sh, q, w, head, a.latents(t), b.latents(t));
    var f, g := RopeTerms(rotated, a.RopeKeys(sh.rank)(t)), RopeTerms(rotated, b.RopeKeys(sh.rank)(t));
    forall x | 0 <= x < sh.rope
      ensures f(x) == g(x)
    {
      assert a.keys(t)(sh.rank + x) == b.keys(t)(sh.rank + x);
    }
    SumExt(sh.rope, f, g);
  }

  /** Equal cached rows give equal outputs. */
  lemma OutputExt(e: real -> real, sh: Shape, q: seq<real>, rotated: seq<real>, w: seq<real>, head: nat, a: Cached,
                  b: Cached, scale: real, tokens: nat, d: nat)
    requires IsExp(e) && tokens > 0 && SameCache(sh, tokens, a, b)
    ensures MlaOutput(e, sh, q, rotated, w, head, a, scale, tokens, d)
         == MlaOutput(e, sh, q, rotated, w, head, b, scale, tokens, d)
  {
    var s, s' := CpuScores(sh, q, rotated, w, head, a, scale), CpuScores(sh, q, rotated, w, head, b, scale);
    var v, v' := CpuColumn(sh, w, head, a, d), CpuColumn(sh, w, head, b, d);
    forall t | 0 <= t < tokens
      ensures s(t) == s'(t) && v(t) == v'(t)
    {
      ScoreExt(sh, q, rotated, w, head, a, b, scale, tokens, t);
      ExpandedExt(sh, w, a.latents(t), b.latents(t), head * sh.ExpandedDim() + sh.nope + d);
    }
    SoftmaxMeanExt(e, tokens, s, v, s', v');
  }

  // ---------- what both caches hold ----------

  /** A row of a cache as a vector. */
  ghost function RowOf(f: int -> real, n: nat): (v: seq<real>)
    ensures |v| == n && forall x :: 0 <= x < n ==> v[x] == f(x)
  {
    seq(n, x requires 0 <= x < n => f(x))
  }

  /** Every token of the sequence has the rows its compressed input leads to. */
  ghost predicate Stores(sh: Shape, inputs: int -> CacheInput, tokens: nat, c: Cached) {
    forall t :: 0 <= t < tokens ==> StoresRow(sh, inputs(t), c.keys(t), c.latents(t))
  }

  ghost predicate StoresRow(sh: Shape, i: CacheInput, key: int -> real, latent: int -> real) {
    i.Valid() && i.rank == sh.rank && 2 * i.half == sh.rope
    && IsCacheRow(i, RowOf(key, sh.rank + sh.rope), RowOf(latent, sh.rank))
  }

  /** Caches filled from the same inputs agree, and their two rows begin alike. */
  lemma StoresAgree(sh: Shape, inputs: int -> CacheInput, tokens: nat, a: Cached, b: Cached)
    requires Stores(sh, inputs, tokens, a) && Stores(sh, inputs, tokens, b)
    ensures Prepared(a, sh.rank, tokens) && SameCache(sh, tokens, a, b)
  {
    forall t | 0 <= t < tokens
      ensures forall l :: 0 <= l < sh.rank ==> a.keys(t)(l) == a.latents(t)(l)
      ensures forall x :: 0 <= x < sh.rank + sh.rope ==> a.keys(t)(x) == b.keys(t)(x)
      ensures forall l :: 0 <= l < sh.rank ==> a.latents(t)(l) == b.latents(t)(l)
    {
      assert StoresRow(sh, inputs(t), a.keys(t), a.latents(t)) && StoresRow(sh, inputs(t), b.keys(t), b.latents(t));
      RowsAgree(sh, inputs(t), a.keys(t), a.latents(t), b.keys(t), b.latents(t));
    }
  }

  lemma RowsAgree(sh: Shape, i: CacheInput, key: int -> real, latent: int -> real, key': int -> real,
                  latent': int -> real)
    requires StoresRow(sh, i, key, latent) && StoresRow(sh, i, key', latent')
    ensures forall l :: 0 <= l < sh.rank ==> key(l) == latent(l)
    ensures forall x :: 0 <= x < sh.rank + sh.rope ==> key(x) == key'(x)
    ensures forall l :: 0 <= l < sh.rank ==> latent(l) == latent'(l)
  {
    var k, v, k', v' :=
      RowOf(key, sh.rank + sh.rope), RowOf(latent, sh.rank), RowOf(key', sh.rank + sh.rope), RowOf(latent', sh.rank);
    CacheRowUnique(i, k, v, k', v');
    forall l | 0 <= l < sh.rank
      ensures key(l) == latent(l)
    {
      assert k[..sh.rank][l] == v[l];
    }
  }

  /** All three launches for one (row, head). */
  method KernelRow(e: real -> real, c: Paged.Config, sh: Shape, inp: Paged.Inputs, z: Queries, row: nat, head: nat,
                   blockDim: nat)
    returns (kernel: Paged.Outcome, ghost rotated: seq<real>)
    requires IsExp(e) && MlaConfig(c, sh) && PowerOfTwo(blockDim) && LaunchFits(sh, blockDim) && row < z.rows
             && head < c.queryHeads && z.sh == sh && z.heads == c.queryHeads
    requires row < |inp.requestIndices| && row < |inp.sequenceLengths| && |inp.slotOffsets| == c.requestCount + 1
    requires Paged.Metadata(c, inp, row).Ok?
    requires var (start, tokens) := Paged.Metadata(c, inp, row).value;
             Prepared(PoolRows(c, inp, start), sh.rank, tokens)
    ensures IsRotated(z.rot(row), sh.rope / 2, QueryRope(sh, QueryRow(sh, z.heads, z.q, row), head), rotated)
    ensures var (start, tokens) := Paged.Metadata(c, inp, row).value;
            && (kernel.Output? <==> forall i :: 0 <= i < tokens ==> Paged.SlotsValid(c, inp, start)(i))
            && (kernel.Output? ==> |kernel.vector| == sh.valueDim && forall d :: 0 <= d < sh.valueDim ==>
                  kernel.vector[d]
                  == MlaOutput(e, sh, QueryRow(sh, z.heads, z.q, row), rotated, z.w, head, PoolRows(c, inp, start),
                               c.scale, tokens, d))
  {
    var buffer;
    buffer, rotated := PreparedFor(c, sh, z, row, head, blockDim);
    SamePool(c, inp, inp.(queries := buffer), row, Paged.Metadata(c, inp, row).value.0);
    var queryRow := QueryRow(sh, z.heads, z.q, row);
    kernel := AttendAndExpand(e, c, sh, inp.(queries := buffer), queryRow, z.w, z.rot(row), row, head, blockDim);
  }

  /** The first launch, as far as one (row, head) is concerned. */
  method PreparedFor(c: Paged.Config, sh: Shape, z: Queries, row: nat, head: nat, blockDim: nat)
    returns (buffer: seq<real>, ghost rotated: seq<real>)
    requires MlaConfig(c, sh) && 0 < blockDim && KernelFits(sh, blockDim) && row < z.rows && head < c.queryHeads
             && z.sh == sh && z.heads == c.queryHeads
    ensures var queryRow := QueryRow(sh, z.heads, z.q, row);
            && IsPrepared(sh, queryRow, z.w, head, z.rot(row), Cell(buffer, c.keyDim, c.queryHeads, row, head))
            && IsRotated(z.rot(row), sh.rope / 2, QueryRope(sh, queryRow, head), rotated)
  {
    buffer := PrepareQueries(z, blockDim);
    assert PreparedAt(z, buffer, row, head);
    rotated := Cell(buffer, c.keyDim, c.queryHeads, row, head)[sh.rank..];
  }

  /**
   * The whole absorbed pipeline equals the expanding CPU pass: for every row, head and dimension, whatever the thread
   * orders, the page mapping and the block size, when pool and CPU cache were filled from the same compressed rows.
   */
  method CompareRow(e: real -> real, c: Paged.Config, sh: Shape, inp: Paged.Inputs, rows: nat, q: seq<real>,
                    w: seq<real>, rope: Rope, positions: int -> nat,
                    ghost inputs: int -> CacheInput, row: nat, head: nat, keys: seq<real>, latents: seq<real>,
                    blockDim: nat)
    returns (kernel: Paged.Outcome, cpu: seq<real>)
    requires IsExp(e) && MlaConfig(c, sh) && PowerOfTwo(blockDim) && LaunchFits(sh, blockDim) && row < rows
             && head < c.queryHeads
    requires row < |inp.requestIndices| && row < |inp.sequenceLengths| && |inp.slotOffsets| == c.requestCount + 1
    requires Paged.Metadata(c, inp, row).Ok?
    requires var (start, tokens) := Paged.Metadata(c, inp, row).value;
             Stores(sh, inputs, tokens, PoolRows(c, inp, start))
             && Stores(sh, inputs, tokens, Gathered(keys, latents, sh.rank + sh.rope, sh.rank))
    ensures var (start, tokens) := Paged.Metadata(c, inp, row).value;
            kernel.Output? <==> forall i :: 0 <= i < tokens ==> Paged.SlotsValid(c, inp, start)(i)
    ensures kernel.Output? ==> |kernel.vector| == sh.valueDim && |cpu| == c.queryHeads * sh.valueDim
    ensures kernel.Output? ==> forall d: nat :: d < sh.valueDim ==>
              kernel.vector[d] == Element(cpu, sh.valueDim, head, d)
  {
    var (start, tokens) := Paged.Metadata(c, inp, row).value;
    var z := Queries(sh, c.queryHeads, rows, q, w, (i: int) => rope.AtPosition(positions(i)));
    var cached := Gathered(keys, latents, sh.rank + sh.rope, sh.rank);
    StoresAgree(sh, inputs, tokens, PoolRows(c, inp, start), cached);
    ghost var rotated;
    kernel, rotated := KernelRow(e, c, sh, inp, z, row, head, blockDim);
    var queryRow := QueryRow(sh, c.queryHeads, q, row);
    cpu := CpuForward(e, sh, c.queryHeads, queryRow, w, z.rot(row), cached, c.scale, tokens);
    if kernel.Output? {
      SameVectors(e, sh, queryRow, w, head, z.rot(row), rotated, PoolRows(c, inp, start), cached, c.scale, tokens,
                  kernel.vector, cpu);
    }
  }

  lemma SameVectors(e: real -> real, sh: Shape, q: seq<real>, w: seq<real>, head: nat, r: Rotation, rotated: seq<real>,
                    a: Cached, b: Cached,
                    scale: real, tokens: nat, kernel: seq<real>, cpu: seq<real>)
    requires IsExp(e) && tokens > 0 && SameCache(sh, tokens, a, b) && |kernel| == sh.valueDim
    requires IsRotated(r, sh.rope / 2, QueryRope(sh, q, head), rotated)
    requires forall d :: 0 <= d < sh.valueDim ==>
               kernel[d] == MlaOutput(e, sh, q, rotated, w, head, a, scale, tokens, d)
    requires HeadComputed(e, sh, q, w, head, r, b, scale, tokens, cpu)
    ensures forall d: nat :: d < sh.valueDim ==> kernel[d] == Element(cpu, sh.valueDim, head, d)
  {
    forall d: nat | d < sh.valueDim
      ensures kernel[d] == Element(cpu, sh.valueDim, head, d)
    {
      OutputExt(e, sh, q, rotated, w, head, a, b, scale, tokens, d);
    }
  }

  /** Neither the cached rows nor the metadata depend on the queries. */
  lemma SamePool(c: Paged.Config, inp: Paged.Inputs, other: Paged.Inputs, row: nat, start: nat)
    requires c.layout.pageSize > 0 && other == inp.(queries := other.queries)
    requires row < |inp.requestIndices| && row < |inp.sequenceLengths| && |inp.slotOffsets| == c.requestCount + 1
    ensures PoolRows(c, other, start) == PoolRows(c, inp, start)
    ensures Paged.Metadata(c, other, row) == Paged.Metadata(c, inp, row)
    ensures Paged.SlotsValid(c, other, start) == Paged.SlotsValid(c, inp, start)
  {
  }
}
