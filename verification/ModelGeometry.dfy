/** From a model's KV geometry to the runtime layout (`backend_model.rs`, `kv_cache.rs`), and to the allocator. */
module ModelGeometry {
  import opened Basics
  import opened KvLayout
  import PageAllocator

  datatype TensorGeometry = Uniform | Pair(keyElements: nat, valueElements: nat) | PackedBytes

  datatype ModelLayout = ModelLayout(
    numLayers: nat, kvHeads: nat, headDim: nat, kvTensorsPerToken: nat,
    bytesPerTokenPerLayer: Option<nat>, geometry: TensorGeometry)

  datatype ModelLayoutError =
    | DtypeRequiresModelMetadata(dtype: Dtype)
    | InvalidPackedMlaNopeHeadDim(dim: nat)
    | ZeroTensorWidth
    | ModelSizeOverflow

  datatype LoadError = MissingCapabilities | Load

  datatype AllocationConfig = AllocationConfig(slotCapacity: nat, pageSize: nat)

  function MultiTensor(layers: nat, heads: nat, dim: nat, tensors: nat): ModelLayout {
    ModelLayout(layers, heads, dim, tensors, None, TensorGeometry.Uniform)
  }

  function TensorPair(layers: nat, keyHeads: nat, keyDim: nat, valueHeads: nat,
                      valueDim: nat): Result<ModelLayout, ModelLayoutError> {
    var key :- CheckedMul(keyHeads, keyDim).OkOr(ModelSizeOverflow);
    var value :- CheckedMul(valueHeads, valueDim).OkOr(ModelSizeOverflow);
    if key == 0 || value == 0 then Err(ZeroTensorWidth)
    else Ok(ModelLayout(layers, keyHeads, keyDim, 2, None, TensorGeometry.Pair(key, value)))
  }

  function PackedBytesPerLayer(layers: nat, bytes: nat): ModelLayout {
    ModelLayout(layers, 1, bytes, 1, Some(bytes), PackedBytes)
  }

  function PackedMla(layers: nat, nope: nat, rope: nat): Result<ModelLayout, ModelLayoutError> {
    if nope % 64 != 0 then Err(InvalidPackedMlaNopeHeadDim(nope)) else
    var ropeBytes :- CheckedMul(rope, 2).OkOr(ModelSizeOverflow);
    var a :- CheckedAdd(nope, ropeBytes).OkOr(ModelSizeOverflow);
    var b :- CheckedAdd(a, nope / 64).OkOr(ModelSizeOverflow);
    var bytes :- CheckedAdd(b, 1).OkOr(ModelSizeOverflow);
    Ok(PackedBytesPerLayer(layers, bytes))
  }

  function BytesPerElement(dtype: Dtype): Option<nat> {
    match dtype
    case Auto => Some(2)
    case Bfloat16 => Some(2)
    case Float32 => Some(4)
    case Fp8E4M3 => Some(1)
    case Fp8E5M2 => Some(1)
    case Fp4E2M1 => None
  }

  function ElementsPerToken(m: ModelLayout): Option<nat> {
    match m.geometry
    case Uniform =>
      (match CheckedMul(m.kvTensorsPerToken, m.kvHeads)
       case None => None
       case Some(a) =>
         match CheckedMul(a, m.headDim)
         case None => None
         case Some(perLayer) => CheckedMul(m.numLayers, perLayer))
    case Pair(key, value) =>
      (match CheckedAdd(key, value)
       case None => None
       case Some(perLayer) => CheckedMul(m.numLayers, perLayer))
    case PackedBytes => None
  }

  function TokenSizeBytes(m: ModelLayout, dtype: Dtype): Result<nat, ModelLayoutError> {
    if m.bytesPerTokenPerLayer.Some? then
      CheckedMul(m.numLayers, m.bytesPerTokenPerLayer.value).OkOr(ModelSizeOverflow)
    else
      var elements :- ElementsPerToken(m).OkOr(ModelSizeOverflow);
      var width :- BytesPerElement(dtype).OkOr(DtypeRequiresModelMetadata(dtype));
      CheckedMul(elements, width).OkOr(ModelSizeOverflow)
  }

  function TensorPairSizeBytes(m: ModelLayout, dtype: Dtype): Result<Option<(nat, nat)>, ModelLayoutError> {
    if !m.geometry.Pair? then Ok(None) else
    var width :- BytesPerElement(dtype).OkOr(DtypeRequiresModelMetadata(dtype));
    var key :- CheckedMul(m.geometry.keyElements, width).OkOr(ModelSizeOverflow);
    var value :- CheckedMul(m.geometry.valueElements, width).OkOr(ModelSizeOverflow);
    Ok(Some((key, value)))
  }

  predicate ValidCacheConfig(c: AllocationConfig) {
    c.slotCapacity != 0 && c.pageSize != 0 && c.slotCapacity % c.pageSize == 0
  }

  function PagedLayoutForModel(m: ModelLayout, dtype: Dtype, c: AllocationConfig): Result<Layout, LoadError> {
    if !ValidCacheConfig(c) then Err(MissingCapabilities) else
    var bytes := TokenSizeBytes(m, dtype);
    var pair := TensorPairSizeBytes(m, dtype);
    if bytes.Err? || pair.Err? then Err(Load) else
    var pageBytes :- CheckedMul(c.pageSize, bytes.value).OkOr(Load);
    var r := Runtime(dtype, c.pageSize, m.numLayers, m.kvHeads, m.headDim, m.kvTensorsPerToken, bytes.value, pageBytes);
    var pages := c.slotCapacity / c.pageSize;
    var layout := if pair.value.Some? then NewWithTensorPair(r, pages, pair.value.value.0, pair.value.value.1)
        else New(r, pages);
    if layout.Err? then Err(Load) else Ok(layout.value)
  }

  // ---------- when construction succeeds ----------

  /** A layout some model constructor returned, with no zero field. */
  ghost predicate Built(m: ModelLayout) {
    && m.numLayers > 0 && m.kvHeads > 0 && m.headDim > 0 && m.kvTensorsPerToken > 0
    && match m.geometry
       case Uniform => m.bytesPerTokenPerLayer.None?
       case Pair(key, value) => m.bytesPerTokenPerLayer.None? && m.kvTensorsPerToken == 2 && key > 0 && value > 0
       case PackedBytes => m.bytesPerTokenPerLayer == Some(m.headDim) && m.kvTensorsPerToken == 1 && m.kvHeads == 1
  }

  /** Bytes one token takes in one layer, without any overflow check. */
  ghost function LayerTokenBytes(m: ModelLayout, width: nat): nat {
    match m.geometry
    case Uniform => m.kvTensorsPerToken * m.kvHeads * m.headDim * width
    case Pair(key, value) => (key + value) * width
    case PackedBytes => m.headDim
  }

  ghost predicate HasWidth(m: ModelLayout, dtype: Dtype) {
    m.geometry.PackedBytes? || BytesPerElement(dtype).Some?
  }

  ghost function Width(dtype: Dtype): nat {
    if BytesPerElement(dtype).Some? then BytesPerElement(dtype).value else 1
  }

  lemma MultiTensorBuilt(layers: nat, heads: nat, dim: nat, tensors: nat)
    requires layers > 0 && heads > 0 && dim > 0 && tensors > 0
    ensures Built(MultiTensor(layers, heads, dim, tensors))
  {
  }

  /** A pair is accepted iff both widths are positive and fit a word; overflow is reported before an empty tensor. */
  lemma TensorPairIff(layers: nat, keyHeads: nat, keyDim: nat, valueHeads: nat, valueDim: nat)
    ensures var r := TensorPair(layers, keyHeads, keyDim, valueHeads, valueDim);
            && (r.Ok? <==> 0 < keyHeads * keyDim <= USIZE_MAX && 0 < valueHeads * valueDim <= USIZE_MAX)
            && (r == Err(ModelSizeOverflow) <==>
                  keyHeads * keyDim > USIZE_MAX || valueHeads * valueDim > USIZE_MAX)
            && (r.Err? ==> r.error == ModelSizeOverflow || r.error == ZeroTensorWidth)
  {
  }

  /** Packed MLA takes head dimensions in blocks of 64 whose row fits a word. */
  lemma PackedMlaIff(layers: nat, nope: nat, rope: nat)
    ensures var r := PackedMla(layers, nope, rope);
            && (r.Ok? <==> nope % 64 == 0 && nope + 2 * rope + nope / 64 + 1 <= USIZE_MAX)
            && (r == Err(InvalidPackedMlaNopeHeadDim(nope)) <==> nope % 64 != 0)
            && (r.Err? && nope % 64 == 0 ==> r.error == ModelSizeOverflow)
  {
  }

  lemma TensorPairBuilt(layers: nat, keyHeads: nat, keyDim: nat, valueHeads: nat, valueDim: nat)
    requires layers > 0 && TensorPair(layers, keyHeads, keyDim, valueHeads, valueDim).Ok?
    ensures Built(TensorPair(layers, keyHeads, keyDim, valueHeads, valueDim).value)
  {
  }

  lemma PackedMlaBuilt(layers: nat, nope: nat, rope: nat)
    requires layers > 0 && PackedMla(layers, nope, rope).Ok?
    ensures Built(PackedMla(layers, nope, rope).value)
    ensures PackedMla(layers, nope, rope).value.headDim == nope + 2 * rope + nope / 64 + 1
  {
  }

  /** The product of positive factors bounds each of them. */
  lemma FactorsFit(a: nat, b: nat)
    requires a > 0 && b > 0
    ensures a <= a * b && b <= a * b
  {
    MulPos(a, b);
  }

  lemma TokenSizeExact(m: ModelLayout, dtype: Dtype)
    requires Built(m)
    ensures LayerTokenBytes(m, Width(dtype)) > 0
    ensures TokenSizeBytes(m, dtype).Ok? <==>
              HasWidth(m, dtype) && m.numLayers * LayerTokenBytes(m, Width(dtype)) <= USIZE_MAX
    ensures TokenSizeBytes(m, dtype).Ok? ==>
              TokenSizeBytes(m, dtype).value == m.numLayers * LayerTokenBytes(m, Width(dtype))
    ensures TokenSizeBytes(m, dtype).Err? ==>
              TokenSizeBytes(m, dtype).error
              == if !HasWidth(m, dtype) && m.numLayers * LayerTokenBytes(m, 1) <= USIZE_MAX
                                                then DtypeRequiresModelMetadata(dtype) else ModelSizeOverflow
  {
    var w := Width(dtype);
    match m.geometry
    case Uniform =>
      var th := m.kvTensorsPerToken * m.kvHeads;
      MulPos(m.kvTensorsPerToken, m.kvHeads);
      MulPos(th, m.headDim);
      MulPos(m.numLayers, th * m.headDim);
      MulPos(th * m.headDim, w);
      MulPos(m.numLayers * (th * m.headDim), w);
      MulAssoc(m.numLayers, th * m.headDim, w);
    case Pair(key, value) =>
      MulPos(key + value, w);
      MulPos(m.numLayers, key + value);
      MulPos(m.numLayers * (key + value), w);
      MulAssoc(m.numLayers, key + value, w);
    case PackedBytes =>
  }

  lemma ExactMultiple(a: nat, d: nat)
    requires d > 0
    ensures (d * a) % d == 0 && (d * a) / d == a
  {
    DivModUnique(d * a, d, a, 0);
  }

  /** The checks of `validate_runtime` on sizes that are exact multiples reduce to the total fitting. */
  lemma RuntimeFits(r: Runtime, pages: nat, perLayer: nat)
    requires pages > 0 && FirstZeroField(r).None? && perLayer > 0
    requires r.bytesPerToken == r.numLayers * perLayer && r.pageSizeBytes == r.pageSize * r.bytesPerToken
    requires pages * r.pageSizeBytes <= USIZE_MAX
    ensures ValidateRuntime(r, pages)
         == Ok(Sizes(perLayer, r.pageSize * perLayer, pages * r.pageSizeBytes, pages * r.pageSize))
  {
    ExactMultiple(perLayer, r.numLayers);
    FactorsFit(pages, r.pageSizeBytes);
    MulAssoc(r.pageSize, r.numLayers, perLayer);
    MulPos(r.pageSize, perLayer);
    FactorsFit(r.numLayers, r.pageSize * perLayer);
    MulAssoc(pages, r.pageSize, r.bytesPerToken);
    MulPos(pages, r.pageSize);
    FactorsFit(pages * r.pageSize, r.bytesPerToken);
  }

  ghost function RuntimeOf(m: ModelLayout, dtype: Dtype, c: AllocationConfig): Runtime {
    var bytes := m.numLayers * LayerTokenBytes(m, Width(dtype));
    Runtime(dtype, c.pageSize, m.numLayers, m.kvHeads, m.headDim, m.kvTensorsPerToken, bytes, c.pageSize * bytes)
  }

  /** If the whole pool fits in memory, the constructor accepts the runtime layout. */
  lemma ConstructorAccepts(m: ModelLayout, dtype: Dtype, c: AllocationConfig, pages: nat)
    requires Built(m) && HasWidth(m, dtype) && c.pageSize > 0 && pages > 0
    requires pages * (c.pageSize * (m.numLayers * LayerTokenBytes(m, Width(dtype)))) <= USIZE_MAX
    ensures var r, w := RuntimeOf(m, dtype, c), Width(dtype);
            if m.geometry.Pair?
            then NewWithTensorPair(r, pages, m.geometry.keyElements * w, m.geometry.valueElements * w).Ok?
            else New(r, pages).Ok?
  {
    var r, w, per := RuntimeOf(m, dtype, c), Width(dtype), LayerTokenBytes(m, Width(dtype));
    TokenSizeExact(m, dtype);
    MulPos(m.numLayers, per);
    MulPos(c.pageSize, r.bytesPerToken);
    match m.geometry
    case Uniform =>
      var rest := m.kvHeads * m.headDim * w;
      MulPos(m.kvHeads, m.headDim);
      MulPos(m.kvHeads * m.headDim, w);
      assert per == m.kvTensorsPerToken * rest by { UniformProduct(m.kvTensorsPerToken, m.kvHeads, m.headDim, w); }
      NewAccepts(r, pages, per, rest);
    case Pair(key, value) =>
      MulPos(key, w);
      MulPos(value, w);
      assert (key + value) * w == key * w + value * w;
      PairAccepts(r, pages, key * w, value * w);
    case PackedBytes =>
      NewAccepts(r, pages, per, per);
  }

  ghost predicate Fits(r: Runtime, pages: nat, perLayer: nat) {
    && pages > 0 && FirstZeroField(r).None? && perLayer > 0
    && r.bytesPerToken == r.numLayers * perLayer && r.pageSizeBytes == r.pageSize * r.bytesPerToken
    && pages * r.pageSizeBytes <= USIZE_MAX
  }

  lemma NewAccepts(r: Runtime, pages: nat, perLayer: nat, part: nat)
    requires Fits(r, pages, perLayer) && part > 0 && perLayer == r.kvTensorsPerToken * part
    ensures New(r, pages).Ok?
  {
    RuntimeFits(r, pages, perLayer);
    ExactMultiple(part, r.kvTensorsPerToken);
    FactorsFit(r.kvTensorsPerToken, part);
    PageFactorFits(r, pages, perLayer, part);
  }

  lemma PairAccepts(r: Runtime, pages: nat, key: nat, value: nat)
    requires Fits(r, pages, key + value) && key > 0 && value > 0 && r.kvTensorsPerToken == 2
    ensures NewWithTensorPair(r, pages, key, value).Ok?
  {
    RuntimeFits(r, pages, key + value);
    PageFactorFits(r, pages, key + value, key);
  }

  lemma UniformProduct(t: nat, h: nat, d: nat, w: nat)
    ensures t * h * d * w == t * (h * d * w)
  {
    MulAssoc(t, h, d);
    MulAssoc(t, h * d, w);
  }

  lemma PageFactorFits(r: Runtime, pages: nat, perLayer: nat, part: nat)
    requires pages > 0 && r.numLayers > 0 && r.pageSize > 0 && 0 < part <= perLayer
    requires r.bytesPerToken == r.numLayers * perLayer && pages * (r.pageSize * r.bytesPerToken) <= USIZE_MAX
    ensures r.pageSize * part <= USIZE_MAX && perLayer <= USIZE_MAX
  {
    MulLe(part, perLayer, r.pageSize);
    FactorsFit(r.numLayers, perLayer);
    MulLe(perLayer, r.bytesPerToken, r.pageSize);
    MulPos(r.pageSize, r.bytesPerToken);
    FactorsFit(pages, r.pageSize * r.bytesPerToken);
  }

  /**
   * For a non-zero model and a page-aligned capacity the runtime layout is built exactly when the dtype has a
   * byte width and the pool's byte size fits a word; it then has one slot per unit of capacity.
   */
  lemma LayoutForModelIff(m: ModelLayout, dtype: Dtype, c: AllocationConfig)
    requires Built(m) && ValidCacheConfig(c)
    ensures PagedLayoutForModel(m, dtype, c).Ok? <==>
              HasWidth(m, dtype) && c.slotCapacity * (m.numLayers * LayerTokenBytes(m, Width(dtype))) <= USIZE_MAX
    ensures PagedLayoutForModel(m, dtype, c).Ok? ==>
              var l := PagedLayoutForModel(m, dtype, c).value;
              && Accepted(l) && l.slotCount == c.slotCapacity
              && l.runtime.pageSize == c.pageSize && l.runtime.numLayers == m.numLayers
              && l.runtime.kvTensorsPerToken == m.kvTensorsPerToken
  {
    if HasWidth(m, dtype) && c.slotCapacity * (m.numLayers * LayerTokenBytes(m, Width(dtype))) <= USIZE_MAX {
      LayoutBuilt(m, dtype, c);
    }
    if PagedLayoutForModel(m, dtype, c).Ok? {
      LayoutFits(m, dtype, c);
    }
  }

  lemma LayoutBuilt(m: ModelLayout, dtype: Dtype, c: AllocationConfig)
    requires Built(m) && ValidCacheConfig(c) && HasWidth(m, dtype)
    requires c.slotCapacity * (m.numLayers * LayerTokenBytes(m, Width(dtype))) <= USIZE_MAX
    ensures PagedLayoutForModel(m, dtype, c).Ok?
  {
    var pages, bytes := c.slotCapacity / c.pageSize, m.numLayers * LayerTokenBytes(m, Width(dtype));
    TokenSizeExact(m, dtype);
    MulPos(m.numLayers, LayerTokenBytes(m, Width(dtype)));
    PagesOf(c, bytes);
    FactorsFit(c.slotCapacity, bytes);
    MulPos(c.pageSize, bytes);
    FactorsFit(pages, c.pageSize * bytes);
    ConstructorAccepts(m, dtype, c, pages);
    PairWidths(m, dtype);
  }

  lemma PagesOf(c: AllocationConfig, bytes: nat)
    requires ValidCacheConfig(c)
    ensures c.slotCapacity == c.slotCapacity / c.pageSize * c.pageSize && c.slotCapacity / c.pageSize > 0
    ensures c.slotCapacity / c.pageSize * (c.pageSize * bytes) == c.slotCapacity * bytes
  {
    ExactDiv(c.slotCapacity, c.pageSize);
    MulAssoc(c.slotCapacity / c.pageSize, c.pageSize, bytes);
  }

  lemma LayoutFits(m: ModelLayout, dtype: Dtype, c: AllocationConfig)
    requires Built(m) && ValidCacheConfig(c) && PagedLayoutForModel(m, dtype, c).Ok?
    ensures HasWidth(m, dtype) && c.slotCapacity * (m.numLayers * LayerTokenBytes(m, Width(dtype))) <= USIZE_MAX
    ensures var l := PagedLayoutForModel(m, dtype, c).value;
            && Accepted(l) && l.slotCount == c.slotCapacity
            && l.runtime.pageSize == c.pageSize && l.runtime.numLayers == m.numLayers
            && l.runtime.kvTensorsPerToken == m.kvTensorsPerToken
  {
    TokenSizeExact(m, dtype);
    PagesOf(c, m.numLayers * LayerTokenBytes(m, Width(dtype)));
    AcceptedNested(PagedLayoutForModel(m, dtype, c).value);
  }

  lemma PairWidths(m: ModelLayout, dtype: Dtype)
    requires Built(m) && HasWidth(m, dtype) && m.numLayers * LayerTokenBytes(m, Width(dtype)) <= USIZE_MAX
    ensures TensorPairSizeBytes(m, dtype) == Ok(if m.geometry.Pair?
              then Some((m.geometry.keyElements * Width(dtype), m.geometry.valueElements * Width(dtype))) else None)
  {
    if m.geometry.Pair? {
      var w := Width(dtype);
      assert (m.geometry.keyElements + m.geometry.valueElements) * w
          == m.geometry.keyElements * w + m.geometry.valueElements * w;
      TokenSizeExact(m, dtype);
      FactorsFit(m.numLayers, LayerTokenBytes(m, w));
    }
  }

  /**
   * Every slot the allocator hands out for the same capacity addresses bytes of the pool, in every layer and tensor.
   */
  lemma AllocatedSlotsAddressBytes(m: ModelLayout, dtype: Dtype, c: AllocationConfig, pool: PageAllocator.Pool,
                                   sequence: seq<nat>, n: nat, k: nat, layer: nat, tensor: nat)
    requires Built(m) && ValidCacheConfig(c) && PagedLayoutForModel(m, dtype, c).Ok?
    requires pool.Valid() && pool.capacity == c.slotCapacity && pool.pageSize == c.pageSize
    requires PageAllocator.Allocated(pool, sequence, n).Ok? && k < n
    requires layer < m.numLayers && tensor < m.kvTensorsPerToken
    ensures |PageAllocator.Allocated(pool, sequence, n).value| == n
    ensures var l := PagedLayoutForModel(m, dtype, c).value;
            && l.runtime.pageSize > 0
            && var r := TensorSlotByteRange(l, layer, tensor, PageAllocator.Allocated(pool, sequence, n).value[k]);
               r.Ok? && r.value.start < r.value.end <= l.totalByteLen
  {
    LayoutForModelIff(m, dtype, c);
    PageAllocator.AllocateExact(pool, sequence, n);
    var l := PagedLayoutForModel(m, dtype, c).value;
    var slot := PageAllocator.Allocated(pool, sequence, n).value[k];
    AcceptedNested(l);
    SlotRanges(l, layer, tensor, slot);
    RangeExact(l, SlotCoord(l, layer, tensor, slot));
  }

  // ---------- the rows of a layer ----------

  /** The bytes of an element: 2 for `auto` and bf16, 4 for f32, 1 for fp8; fp4 has no width of its own. */
  predicate TakesBytes(dtype: Dtype, w: nat) {
    ((dtype.Auto? || dtype.Bfloat16?) && w == 2) || (dtype.Float32? && w == 4)
    || ((dtype.Fp8E4M3? || dtype.Fp8E5M2?) && w == 1)
  }

  lemma WidthTaken(m: ModelLayout, dtype: Dtype)
    requires !m.geometry.PackedBytes?
    ensures HasWidth(m, dtype) <==> TakesBytes(dtype, Width(dtype))
    ensures HasWidth(m, dtype) ==> BytesPerElement(dtype) == Some(Width(dtype))
  {
  }

  /** A tensor pair keeps a key of its key dimensions and a value of its value dimensions per token, in that order. */
  lemma PairRowBytes(layers: nat, keyHeads: nat, keyDim: nat, valueHeads: nat, valueDim: nat, dtype: Dtype,
                     c: AllocationConfig)
    requires layers > 0 && TensorPair(layers, keyHeads, keyDim, valueHeads, valueDim).Ok? && ValidCacheConfig(c)
    requires var m := TensorPair(layers, keyHeads, keyDim, valueHeads, valueDim).value;
             PagedLayoutForModel(m, dtype, c).Ok?
    ensures var m := TensorPair(layers, keyHeads, keyDim, valueHeads, valueDim).value;
            var l := PagedLayoutForModel(m, dtype, c).value;
            && l.runtime == Runtime(dtype, c.pageSize, layers, keyHeads, keyDim, 2, l.runtime.bytesPerToken,
                                    c.pageSize * l.runtime.bytesPerToken)
            && TakesBytes(dtype, Width(dtype))
            && TensorTokenSizeBytes(l, 0) == Ok(keyHeads * keyDim * Width(dtype))
            && TensorTokenSizeBytes(l, 1) == Ok(valueHeads * valueDim * Width(dtype))
  {
    var m := TensorPair(layers, keyHeads, keyDim, valueHeads, valueDim).value;
    LayoutFits(m, dtype, c);
    WidthTaken(m, dtype);
    PairGeometry(m, dtype, c);
  }

  lemma PairGeometry(m: ModelLayout, dtype: Dtype, c: AllocationConfig)
    requires m.geometry.Pair? && PagedLayoutForModel(m, dtype, c).Ok? && BytesPerElement(dtype).Some?
    ensures var g, w := PagedLayoutForModel(m, dtype, c).value.geometry, BytesPerElement(dtype).value;
            && g.Pair? && g.keyTokenBytes == m.geometry.keyElements * w
            && g.valueTokenBytes == m.geometry.valueElements * w
  {
  }

  /** Every tensor of a uniform layout keeps all heads of a token. */
  lemma UniformRowBytes(layers: nat, heads: nat, dim: nat, tensors: nat, dtype: Dtype, c: AllocationConfig, tensor: nat)
    requires layers > 0 && heads > 0 && dim > 0 && tensor < tensors && ValidCacheConfig(c)
    requires PagedLayoutForModel(MultiTensor(layers, heads, dim, tensors), dtype, c).Ok?
    ensures var l := PagedLayoutForModel(MultiTensor(layers, heads, dim, tensors), dtype, c).value;
            && l.runtime == Runtime(dtype, c.pageSize, layers, heads, dim, tensors, l.runtime.bytesPerToken,
                                    c.pageSize * l.runtime.bytesPerToken)
            && TakesBytes(dtype, Width(dtype)) && TensorTokenSizeBytes(l, tensor) == Ok(heads * dim * Width(dtype))
  {
    var m, w := MultiTensor(layers, heads, dim, tensors), Width(dtype);
    LayoutFits(m, dtype, c);
    WidthTaken(m, dtype);
    TokenSizeExact(m, dtype);
    UniformProduct(tensors, heads, dim, w);
    UniformGeometry(m, dtype, c, heads * dim * w);
  }

  /** A packed latent row is its only tensor: the unrotated part, two bytes per rotated element, scales and a tag. */
  lemma PackedRowBytes(layers: nat, nope: nat, rope: nat, dtype: Dtype, c: AllocationConfig)
    requires layers > 0 && PackedMla(layers, nope, rope).Ok? && ValidCacheConfig(c)
    requires PagedLayoutForModel(PackedMla(layers, nope, rope).value, dtype, c).Ok?
    ensures var l := PagedLayoutForModel(PackedMla(layers, nope, rope).value, dtype, c).value;
            && l.runtime == Runtime(dtype, c.pageSize, layers, 1, nope + 2 * rope + nope / 64 + 1, 1,
                                    l.runtime.bytesPerToken, c.pageSize * l.runtime.bytesPerToken)
            && TensorTokenSizeBytes(l, 0) == Ok(nope + 2 * rope + nope / 64 + 1)
  {
    var m := PackedMla(layers, nope, rope).value;
    PackedMlaBuilt(layers, nope, rope);
    LayoutFits(m, dtype, c);
    TokenSizeExact(m, dtype);
    UniformGeometry(m, dtype, c, m.headDim);
  }

  lemma UniformGeometry(m: ModelLayout, dtype: Dtype, c: AllocationConfig, row: nat)
    requires !m.geometry.Pair? && m.numLayers > 0 && m.kvTensorsPerToken > 0 && PagedLayoutForModel(m, dtype, c).Ok?
    requires TokenSizeBytes(m, dtype) == Ok(m.numLayers * (m.kvTensorsPerToken * row))
    ensures var g := PagedLayoutForModel(m, dtype, c).value.geometry; g.Uniform? && g.tokenBytes == row
  {
    ExactMultiple(m.kvTensorsPerToken * row, m.numLayers);
    ExactMultiple(row, m.kvTensorsPerToken);
  }
}
