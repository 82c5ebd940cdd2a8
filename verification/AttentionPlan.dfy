/**
 * `CudaBf16PagedAttentionPlan::new` (`cuda_attention.rs`): what an accepted plan guarantees about the kernel's
 * addresses.
 */
module AttentionPlan {
  import opened Basics
  import opened Strides
  import opened PagedAttention

  const U32_BYTES := 4
  const U64_BYTES := 8
  const BLOCK_SIZE: nat := 256

  datatype PlanError =
    | ZeroDimension
    | InvalidScale
    | QueryHeadsNotDivisibleByKvHeads
    | ShapeOverflow
    | KeyRowByteSizeMismatch(expected: nat, actual: nat)
    | ValueRowByteSizeMismatch(expected: nat, actual: nat)
    | TensorPageRegionOutOfBounds
    | TensorPageRegionsOverlap
    | DimensionTooLarge(value: nat)

  datatype Plan = Plan(
    queryCount: nat, slotTotal: nat, config: Config,
    queryBytes: nat, indexBytes: nat, lengthBytes: nat, offsetBytes: nat, slotBytes: nat, poolBytes: nat,
    outputBytes: nat)

  function Mul(a: nat, b: nat): Result<nat, PlanError> {
    CheckedMul(a, b).OkOr(ShapeOverflow)
  }

  function Add(a: nat, b: nat): Result<nat, PlanError> {
    CheckedAdd(a, b).OkOr(ShapeOverflow)
  }

  function RowBytes(heads: nat, dim: nat): Result<nat, PlanError> {
    var width :- Mul(heads, dim);
    Mul(width, BF16_BYTES)
  }

  function RegionEnd(offset: nat, bytes: nat, stride: nat): Result<nat, PlanError> {
    var end :- Add(offset, bytes);
    if end > stride then Err(TensorPageRegionOutOfBounds) else Ok(end)
  }

  /** End of a token's row within its page. */
  function RowEnd(offset: nat, token: nat, rowBytes: nat): Result<nat, PlanError> {
    var skip :- Mul(token, rowBytes);
    var start :- Add(offset, skip);
    Add(start, rowBytes)
  }

  /** The shape part: dimensions, head grouping, row sizes and page regions. */
  function CheckShape(queries: nat, slots: nat, c: Config): Result<(), PlanError> {
    var l := c.layout;
    if queries == 0 || c.requestCount == 0 || slots == 0 || c.slotCount == 0 || c.queryHeads == 0 || c.kvHeads == 0
       || c.keyDim == 0 || c.valueDim == 0
       || l.pageSize == 0 || l.pageStride == 0 || l.keyRowBytes == 0 || l.valueRowBytes == 0 then Err(ZeroDimension)
    else if c.scale <= 0.0 then Err(InvalidScale)
    else if c.queryHeads % c.kvHeads != 0 then Err(QueryHeadsNotDivisibleByKvHeads)
    else
      var keyRow :- RowBytes(c.kvHeads, c.keyDim);
      if l.keyRowBytes != keyRow then Err(KeyRowByteSizeMismatch(keyRow, l.keyRowBytes)) else
      var valueRow :- RowBytes(c.kvHeads, c.valueDim);
      if l.valueRowBytes != valueRow then Err(ValueRowByteSizeMismatch(valueRow, l.valueRowBytes)) else
      var keyPage :- Mul(l.pageSize, l.keyRowBytes);
      var valuePage :- Mul(l.pageSize, l.valueRowBytes);
      var keyEnd :- RegionEnd(l.keyOffset, keyPage, l.pageStride);
      var valueEnd :- RegionEnd(l.valueOffset, valuePage, l.pageStride);
      if l.keyOffset < valueEnd && l.valueOffset < keyEnd then Err(TensorPageRegionsOverlap) else Ok(())
  }

  /** `pool_required_bytes`: the end of the last slot's rows. */
  function PoolBytes(c: Config): Result<nat, PlanError>
    requires c.slotCount > 0 && c.layout.pageSize > 0
  {
    var l, last := c.layout, c.slotCount - 1;
    var token := Rem(last, l.pageSize);
    var keyEnd :- RowEnd(l.keyOffset, token, l.keyRowBytes);
    var valueEnd :- RowEnd(l.valueOffset, token, l.valueRowBytes);
    var page :- Mul(Quot(last, l.pageSize), l.pageStride);
    Add(page, Max(keyEnd, valueEnd))
  }

  function VectorBytes(queries: nat, heads: nat, dim: nat): Result<nat, PlanError> {
    var rows :- Mul(queries, heads);
    var elements :- Mul(rows, dim);
    Mul(elements, BF16_BYTES)
  }

  function NewPlan(queries: nat, slots: nat, c: Config): Result<Plan, PlanError> {
    var _ :- CheckShape(queries, slots, c);
    var queryBytes :- VectorBytes(queries, c.queryHeads, c.keyDim);
    var indexBytes :- Mul(queries, U32_BYTES);
    var lengthBytes :- Mul(queries, U64_BYTES);
    var offsets :- Add(c.requestCount, 1);
    var offsetBytes :- Mul(offsets, U64_BYTES);
    var slotBytes :- Mul(slots, U64_BYTES);
    var poolBytes :- PoolBytes(c);
    var outputBytes :- VectorBytes(queries, c.queryHeads, c.valueDim);
    var scratch :- Add(BLOCK_SIZE, c.valueDim);
    var shared :- Mul(scratch, U32_BYTES);
    if shared > U32_MAX then Err(ShapeOverflow)
    else if queries > U32_MAX then Err(DimensionTooLarge(queries))
    else if c.queryHeads > U32_MAX then Err(DimensionTooLarge(c.queryHeads))
    else Ok(Plan(queries, slots, c, queryBytes, indexBytes, lengthBytes, offsetBytes, slotBytes, poolBytes,
                 outputBytes))
  }

  ghost predicate Accepted(p: Plan) {
    NewPlan(p.queryCount, p.slotTotal, p.config) == Ok(p)
  }

  /** One tensor's rows fit in its page region. */
  ghost predicate RegionFits(l: Layout, offset: nat, rowBytes: nat) {
    rowBytes > 0 && offset + l.pageSize * rowBytes <= l.pageStride
  }

  function LastRowEnd(c: Config, offset: nat, rowBytes: nat): nat
    requires c.slotCount > 0 && c.layout.pageSize > 0
  {
    PagedAddress(c.layout.pageSize, c.layout.pageStride, offset, rowBytes, c.slotCount - 1) + rowBytes
  }

  /** An accepted plan satisfies the kernel's assumptions, and its byte counts are the exact extents. */
  lemma AcceptedSound(p: Plan)
    requires Accepted(p)
    ensures Planned(p.config) && p.config.slotCount > 0 && p.queryCount > 0
    ensures RegionFits(p.config.layout, p.config.layout.keyOffset, p.config.layout.keyRowBytes)
    ensures RegionFits(p.config.layout, p.config.layout.valueOffset, p.config.layout.valueRowBytes)
    ensures p.poolBytes == Max(LastRowEnd(p.config, p.config.layout.keyOffset, p.config.layout.keyRowBytes),
                               LastRowEnd(p.config, p.config.layout.valueOffset, p.config.layout.valueRowBytes))
    ensures p.queryBytes == p.queryCount * p.config.queryHeads * p.config.keyDim * BF16_BYTES
    ensures p.outputBytes == p.queryCount * p.config.queryHeads * p.config.valueDim * BF16_BYTES
    ensures p.indexBytes == 4 * p.queryCount && p.lengthBytes == 8 * p.queryCount
    ensures p.offsetBytes == 8 * (p.config.requestCount + 1) && p.slotBytes == 8 * p.slotTotal
  {
    ShapeSound(p.queryCount, p.slotTotal, p.config);
  }

  /** What a plan's numbers must satisfy: a shape the kernel can run, and sizes the host and the launch can express. */
  ghost predicate PlanFits(queries: nat, slots: nat, c: Config) {
    && queries > 0 && slots > 0 && c.requestCount > 0 && c.slotCount > 0 && c.keyDim > 0 && c.valueDim > 0
    && c.layout.pageStride > 0 && Planned(c)
    && RegionFits(c.layout, c.layout.keyOffset, c.layout.keyRowBytes)
    && RegionFits(c.layout, c.layout.valueOffset, c.layout.valueRowBytes)
    && (c.layout.valueOffset + c.layout.pageSize * c.layout.valueRowBytes <= c.layout.keyOffset
        || c.layout.keyOffset + c.layout.pageSize * c.layout.keyRowBytes <= c.layout.valueOffset)
    && queries * c.queryHeads * c.keyDim * 2 <= USIZE_MAX && queries * c.queryHeads * c.valueDim * 2 <= USIZE_MAX
    && (c.requestCount + 1) * 8 <= USIZE_MAX && slots * 8 <= USIZE_MAX
    && LastRowEnd(c, c.layout.keyOffset, c.layout.keyRowBytes) <= USIZE_MAX
    && LastRowEnd(c, c.layout.valueOffset, c.layout.valueRowBytes) <= USIZE_MAX
    && (256 + c.valueDim) * 4 <= U32_MAX && queries <= U32_MAX && c.queryHeads <= U32_MAX
  }

  /** With a page stride of one machine word, a plan is accepted exactly when its numbers fit. */
  lemma AcceptedIff(queries: nat, slots: nat, c: Config)
    requires c.layout.pageStride <= USIZE_MAX
    ensures NewPlan(queries, slots, c).Ok? <==> PlanFits(queries, slots, c)
  {
    if PlanFits(queries, slots, c) {
      FitsAccepted(queries, slots, c);
    }
    if NewPlan(queries, slots, c).Ok? {
      ShapeSound(queries, slots, c);
    }
  }

  ghost predicate NoZero(queries: nat, slots: nat, c: Config) {
    && queries > 0 && slots > 0 && c.requestCount > 0 && c.slotCount > 0 && c.queryHeads > 0 && c.kvHeads > 0
    && c.keyDim > 0 && c.valueDim > 0 && c.layout.pageSize > 0 && c.layout.pageStride > 0
    && c.layout.keyRowBytes > 0 && c.layout.valueRowBytes > 0
  }

  /** What a rejected shape is rejected for, in order of the checks; a wrong row size comes with the right one. */
  lemma ShapeErrors(queries: nat, slots: nat, c: Config)
    ensures !NoZero(queries, slots, c) ==> NewPlan(queries, slots, c) == Err(ZeroDimension)
    ensures NoZero(queries, slots, c) && c.scale <= 0.0 ==> NewPlan(queries, slots, c) == Err(InvalidScale)
    ensures NoZero(queries, slots, c) && c.scale > 0.0 ==>
              (NewPlan(queries, slots, c) == Err(QueryHeadsNotDivisibleByKvHeads) <==> c.queryHeads % c.kvHeads != 0)
    ensures NoZero(queries, slots, c) && c.scale > 0.0 && c.queryHeads % c.kvHeads == 0
            && c.kvHeads * c.keyDim * 2 <= USIZE_MAX && c.layout.keyRowBytes != c.kvHeads * c.keyDim * 2 ==>
              NewPlan(queries, slots, c) == Err(KeyRowByteSizeMismatch(c.kvHeads * c.keyDim * 2, c.layout.keyRowBytes))
    ensures NoZero(queries, slots, c) && c.scale > 0.0 && c.queryHeads % c.kvHeads == 0
            && c.kvHeads * c.keyDim * 2 == c.layout.keyRowBytes <= USIZE_MAX
            && c.kvHeads * c.valueDim * 2 <= USIZE_MAX && c.layout.valueRowBytes != c.kvHeads * c.valueDim * 2 ==>
              NewPlan(queries, slots, c)
              == Err(ValueRowByteSizeMismatch(c.kvHeads * c.valueDim * 2, c.layout.valueRowBytes))
  {
  }

  lemma FitsAccepted(queries: nat, slots: nat, c: Config)
    requires c.layout.pageStride <= USIZE_MAX && PlanFits(queries, slots, c)
    ensures NewPlan(queries, slots, c).Ok?
  {
    ShapeAccepted(queries, slots, c);
    VectorsFit(queries, c.queryHeads, c.keyDim);
    VectorsFit(queries, c.queryHeads, c.valueDim);
    PoolFits(c);
  }

  lemma ShapeAccepted(queries: nat, slots: nat, c: Config)
    requires c.layout.pageStride <= USIZE_MAX && PlanFits(queries, slots, c)
    ensures CheckShape(queries, slots, c) == Ok(())
  {
    RowFits(c.kvHeads, c.keyDim, c.layout.pageSize, c.layout.keyRowBytes);
    RowFits(c.kvHeads, c.valueDim, c.layout.pageSize, c.layout.valueRowBytes);
  }

  lemma RowFits(heads: nat, dim: nat, pageSize: nat, rowBytes: nat)
    requires pageSize > 0 && rowBytes == heads * dim * BF16_BYTES && pageSize * rowBytes <= USIZE_MAX
    ensures RowBytes(heads, dim) == Ok(rowBytes)
  {
    MulLe(1, pageSize, rowBytes);
  }

  lemma VectorsFit(queries: nat, heads: nat, dim: nat)
    requires queries > 0 && heads > 0 && dim > 0 && queries * heads * dim * 2 <= USIZE_MAX
    ensures VectorBytes(queries, heads, dim).Ok?
  {
    MulPos(queries, heads);
    MulPos(queries * heads, dim);
  }

  lemma PoolFits(c: Config)
    requires c.slotCount > 0 && c.layout.pageSize > 0
    requires LastRowEnd(c, c.layout.keyOffset, c.layout.keyRowBytes) <= USIZE_MAX
    requires LastRowEnd(c, c.layout.valueOffset, c.layout.valueRowBytes) <= USIZE_MAX
    ensures PoolBytes(c).Ok?
  {
    MulLe(0, Rem(c.slotCount - 1, c.layout.pageSize), c.layout.keyRowBytes);
    MulLe(0, Rem(c.slotCount - 1, c.layout.pageSize), c.layout.valueRowBytes);
    MulLe(0, Quot(c.slotCount - 1, c.layout.pageSize), c.layout.pageStride);
  }

  lemma ShapeSound(queries: nat, slots: nat, c: Config)
    requires CheckShape(queries, slots, c).Ok?
    ensures Planned(c) && c.slotCount > 0 && queries > 0
    ensures RegionFits(c.layout, c.layout.keyOffset, c.layout.keyRowBytes)
    ensures RegionFits(c.layout, c.layout.valueOffset, c.layout.valueRowBytes)
  {
    HeadsSound(queries, slots, c);
    RegionSound(c.layout, c.layout.keyOffset, c.layout.keyRowBytes);
    RegionSound(c.layout, c.layout.valueOffset, c.layout.valueRowBytes);
  }

  lemma HeadsSound(queries: nat, slots: nat, c: Config)
    requires CheckShape(queries, slots, c).Ok?
    ensures Planned(c)
  {
    RowSound(c.kvHeads, c.keyDim);
    RowSound(c.kvHeads, c.valueDim);
    EvenGroups(c.queryHeads, c.kvHeads);
  }

  lemma EvenGroups(heads: nat, kvHeads: nat)
    requires heads > 0 && kvHeads > 0
    ensures heads % kvHeads == 0 ==> kvHeads <= heads
  {
  }

  lemma RowSound(heads: nat, dim: nat)
    ensures RowBytes(heads, dim).Ok? ==> RowBytes(heads, dim).value == heads * dim * BF16_BYTES
  {
  }

  lemma RegionSound(l: Layout, offset: nat, rowBytes: nat)
    ensures Mul(l.pageSize, rowBytes).Ok? ==> Mul(l.pageSize, rowBytes).value == l.pageSize * rowBytes
    ensures (Mul(l.pageSize, rowBytes).Ok? && rowBytes > 0
             && RegionEnd(offset, Mul(l.pageSize, rowBytes).value, l.pageStride).Ok?) ==>
              RegionFits(l, offset, rowBytes)
  {
  }

  /**
   * A block keeps one accumulator per value component in shared memory, so its loops over them end; the key components
   * are only bounded by 2^32, and the loops over those end exactly if a block more still fits.
   */
  lemma LoopsEndIff(p: Plan)
    requires Accepted(p)
    ensures StrideFits(p.config.valueDim, BLOCK_SIZE)
    ensures LoopsFit(p.config, BLOCK_SIZE) <==> StrideFits(p.config.keyDim, BLOCK_SIZE)
    ensures LoopsFit(p.config, BLOCK_SIZE) <==>
              forall t: nat :: t < BLOCK_SIZE ==>
                Ends(t, p.config.keyDim, BLOCK_SIZE) && Ends(t, p.config.valueDim, BLOCK_SIZE)
  {
    assert PowerOfTwo(BLOCK_SIZE);
    StrideEndsIff(p.config.keyDim, BLOCK_SIZE);
    StrideEndsIff(p.config.valueDim, BLOCK_SIZE);
  }

  /** One query and one slot, with keys of 2^32 - 1 components: the plan is accepted and thread 0 never ends. */
  lemma EndlessPlan(steps: nat)
    ensures var c := Config(1, 1, 1, 1, U32_MAX, 1, 1.0, Layout(1, 2 * TWO32, 0, 2 * U32_MAX, 2 * U32_MAX, 2));
            && NewPlan(1, 1, c).Ok? && c.keyDim <= U32_MAX && !LoopsFit(c, BLOCK_SIZE)
            && Counter(0, steps, BLOCK_SIZE) < c.keyDim
  {
    assert PowerOfTwo(BLOCK_SIZE);
    Thread0Counts(steps, BLOCK_SIZE);
  }

  /** No row of an in-range slot ends after the last slot's row would, or after its own page. */
  lemma RowBelow(c: Config, offset: nat, rowBytes: nat, slot: nat, other: nat)
    requires c.layout.pageSize > 0 && slot < c.slotCount && RegionFits(c.layout, offset, rowBytes)
    requires other >= LastRowEnd(c, offset, rowBytes)
    ensures SlotRow(c.layout, offset, rowBytes, slot) + rowBytes <= other
  {
    PagedMonotone(c.layout.pageSize, c.layout.pageStride, offset, rowBytes, slot, c.slotCount - 1);
  }

  lemma HeadInRow(heads: nat, dim: nat, h: nat, d: nat)
    requires h < heads && d < dim
    ensures h * dim * BF16_BYTES + BF16_BYTES * d + BF16_BYTES <= heads * dim * BF16_BYTES
  {
    DigitBound(h, d, dim, heads);
  }

  lemma ReadBelow(c: Config, offset: nat, rowBytes: nat, dim: nat, kvHead: nat, slot: nat, d: nat, bytes: nat)
    requires c.layout.pageSize > 0 && slot < c.slotCount && kvHead < c.kvHeads && d < dim
    requires RegionFits(c.layout, offset, rowBytes) && rowBytes == c.kvHeads * dim * BF16_BYTES
             && bytes >= LastRowEnd(c, offset, rowBytes)
    ensures SlotRow(c.layout, offset, rowBytes, slot) + kvHead * dim * BF16_BYTES + BF16_BYTES * d + BF16_BYTES <= bytes
  {
    RowBelow(c, offset, rowBytes, slot, bytes);
    HeadInRow(c.kvHeads, dim, kvHead, d);
  }

  /** Every key and value the kernel reads for an in-range slot lies below `pool_required_bytes`. */
  lemma ReadsInBounds(p: Plan, kvHead: nat, slot: nat, d: nat)
    requires Accepted(p) && kvHead < p.config.kvHeads && slot < p.config.slotCount
    ensures p.config.layout.pageSize > 0
    ensures d < p.config.keyDim ==> KeyAddress(p.config, kvHead, slot) + BF16_BYTES * d + BF16_BYTES <= p.poolBytes
    ensures d < p.config.valueDim ==> ValueAddress(p.config, kvHead, slot) + BF16_BYTES * d + BF16_BYTES <= p.poolBytes
  {
    AcceptedSound(p);
    var c, l := p.config, p.config.layout;
    if d < c.keyDim {
      ReadBelow(c, l.keyOffset, l.keyRowBytes, c.keyDim, kvHead, slot, d, p.poolBytes);
    }
    if d < c.valueDim {
      ReadBelow(c, l.valueOffset, l.valueRowBytes, c.valueDim, kvHead, slot, d, p.poolBytes);
    }
  }

  /** The bound is tight: the last component of the last slot's row in the higher tensor ends exactly there. */
  lemma BoundTight(p: Plan)
    requires Accepted(p)
    ensures p.config.layout.pageSize > 0 && p.config.kvHeads > 0 && p.config.slotCount > 0
    ensures var c, last := p.config, p.config.slotCount - 1;
            || KeyAddress(c, c.kvHeads - 1, last) + c.keyDim * BF16_BYTES == p.poolBytes
            || ValueAddress(c, c.kvHeads - 1, last) + c.valueDim * BF16_BYTES == p.poolBytes
  {
    AcceptedSound(p);
    LastHead(p.config.kvHeads, p.config.keyDim);
    LastHead(p.config.kvHeads, p.config.valueDim);
  }

  lemma LastHead(heads: nat, dim: nat)
    requires heads > 0
    ensures (heads - 1) * dim * BF16_BYTES + dim * BF16_BYTES == heads * dim * BF16_BYTES
  {
    assert (heads - 1) * dim + dim == heads * dim;
  }

  /** Query reads and output writes stay below their byte counts. */
  lemma VectorsInBounds(p: Plan, query: nat, head: nat, d: nat)
    requires Accepted(p) && query < p.queryCount && head < p.config.queryHeads
    ensures d < p.config.keyDim ==> (QueryOffset(p.config, query, head) + d) * BF16_BYTES + BF16_BYTES <= p.queryBytes
    ensures d < p.config.valueDim ==>
              ((query * p.config.queryHeads + head) * p.config.valueDim + d) * BF16_BYTES + BF16_BYTES <= p.outputBytes
  {
    AcceptedSound(p);
    var c := p.config;
    DigitBound(query, head, c.queryHeads, p.queryCount);
    if d < c.keyDim {
      DigitBound(query * c.queryHeads + head, d, c.keyDim, p.queryCount * c.queryHeads);
    }
    if d < c.valueDim {
      DigitBound(query * c.queryHeads + head, d, c.valueDim, p.queryCount * c.queryHeads);
    }
  }
}
