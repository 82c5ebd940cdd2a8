/** The byte layout of the paged KV cache (`kv_cache.rs`): constructors, byte ranges and copy geometry. */
module KvLayout {
  import opened Basics

  datatype Dtype = Auto | Float32 | Bfloat16 | Fp8E4M3 | Fp8E5M2 | Fp4E2M1

  datatype Runtime = Runtime(
    dtype: Dtype, pageSize: nat, numLayers: nat, kvHeads: nat, headDim: nat,
    kvTensorsPerToken: nat, bytesPerToken: nat, pageSizeBytes: nat)

  datatype Geometry =
    | Uniform(tokenBytes: nat, pageBytes: nat)
    | Pair(keyTokenBytes: nat, valueTokenBytes: nat, keyPageBytes: nat)

  datatype Layout = Layout(
    runtime: Runtime, pageCount: nat, bytesPerTokenPerLayer: nat, bytesPerLayerPage: nat,
    geometry: Geometry, totalByteLen: nat, slotCount: nat)

  datatype LayoutError =
    | ZeroPageCount
    | ZeroLayoutField(field: string)
    | RuntimePageSizeMismatch(expected: nat, actual: nat)
    | UnevenLayerLayout(bytesPerToken: nat, numLayers: nat)
    | UnevenTensorLayout(bytesPerTokenPerLayer: nat, kvTensorsPerToken: nat)
    | SizeOverflow
    | PageOutOfRange(pageIndex: nat, pageCount: nat)
    | LayerOutOfRange(layerIndex: nat, layerCount: nat)
    | TensorOutOfRange(tensorIndex: nat, tensorCount: nat)
    | TokenOutOfRange(tokenIndex: nat, pageSize: nat)
    | SlotOutOfRange(slotIndex: nat, slotCount: nat)
    | KvPairRequiresTwoTensors(tensorCount: nat)
    | TensorPairRequiresTwoTensors(tensorCount: nat)
    | TensorPairSizeMismatch(bytesPerTokenPerLayer: nat, key: nat, value: nat)
    | UnevenKvPairCopy(key: nat, value: nat)

  datatype Range = Range(start: nat, end: nat)

  // ---------- construction ----------

  /** What `validate_runtime` derives: bytes per token per layer, bytes per layer page, total, slot count. */
  datatype Sizes = Sizes(perTokenPerLayer: nat, perLayerPage: nat, total: nat, slots: nat)

  function FirstZeroField(r: Runtime): Option<string> {
    if r.pageSize == 0 then Some("page_size")
    else if r.numLayers == 0 then Some("num_layers")
    else if r.kvHeads == 0 then Some("kv_heads")
    else if r.headDim == 0 then Some("head_dim")
    else if r.kvTensorsPerToken == 0 then Some("kv_tensors_per_token")
    else if r.bytesPerToken == 0 then Some("bytes_per_token")
    else if r.pageSizeBytes == 0 then Some("page_size_bytes")
    else None
  }

  function ValidateRuntime(r: Runtime, pageCount: nat): Result<Sizes, LayoutError> {
    if pageCount == 0 then Err(ZeroPageCount)
    else if FirstZeroField(r).Some? then Err(ZeroLayoutField(FirstZeroField(r).value))
    else
      var expected :- CheckedMul(r.pageSize, r.bytesPerToken).OkOr(SizeOverflow);
      if r.pageSizeBytes != expected then Err(RuntimePageSizeMismatch(expected, r.pageSizeBytes))
      else if r.bytesPerToken % r.numLayers != 0 then Err(UnevenLayerLayout(r.bytesPerToken, r.numLayers))
      else
        var perLayer := r.bytesPerToken / r.numLayers;
        var layerPage :- CheckedMul(r.pageSize, perLayer).OkOr(SizeOverflow);
        var total :- CheckedMul(pageCount, r.pageSizeBytes).OkOr(SizeOverflow);
        var slots :- CheckedMul(pageCount, r.pageSize).OkOr(SizeOverflow);
        Ok(Sizes(perLayer, layerPage, total, slots))
  }

  function New(r: Runtime, pageCount: nat): Result<Layout, LayoutError> {
    var s :- ValidateRuntime(r, pageCount);
    if s.perTokenPerLayer % r.kvTensorsPerToken != 0 then
      Err(UnevenTensorLayout(s.perTokenPerLayer, r.kvTensorsPerToken))
    else
      var tokenBytes := s.perTokenPerLayer / r.kvTensorsPerToken;
      var pageBytes :- CheckedMul(r.pageSize, tokenBytes).OkOr(SizeOverflow);
      Ok(Layout(r, pageCount, s.perTokenPerLayer, s.perLayerPage, Uniform(tokenBytes, pageBytes), s.total, s.slots))
  }

  function NewWithTensorPair(r: Runtime, pageCount: nat, key: nat, value: nat): Result<Layout, LayoutError> {
    var s :- ValidateRuntime(r, pageCount);
    if r.kvTensorsPerToken != 2 then Err(TensorPairRequiresTwoTensors(r.kvTensorsPerToken))
    else if key == 0 then Err(ZeroLayoutField("key_token_bytes"))
    else if value == 0 then Err(ZeroLayoutField("value_token_bytes"))
    else
      var pair :- CheckedAdd(key, value).OkOr(SizeOverflow);
      if pair != s.perTokenPerLayer then Err(TensorPairSizeMismatch(s.perTokenPerLayer, key, value))
      else
        var keyPage :- CheckedMul(r.pageSize, key).OkOr(SizeOverflow);
        Ok(Layout(r, pageCount, s.perTokenPerLayer, s.perLayerPage, Pair(key, value, keyPage), s.total, s.slots))
  }

  /** Sizes that do not divide evenly are reported with what was to be divided and by how much. */
  lemma UnevenReported(r: Runtime, pageCount: nat, per: nat)
    requires pageCount > 0 && FirstZeroField(r).None? && r.pageSizeBytes == r.pageSize * r.bytesPerToken <= USIZE_MAX
    ensures r.bytesPerToken % r.numLayers != 0 ==>
              New(r, pageCount) == Err(UnevenLayerLayout(r.bytesPerToken, r.numLayers))
    ensures (r.bytesPerToken == r.numLayers * per && pageCount * r.pageSizeBytes <= USIZE_MAX
             && per % r.kvTensorsPerToken != 0) ==>
              New(r, pageCount) == Err(UnevenTensorLayout(per, r.kvTensorsPerToken))
  {
    if r.bytesPerToken == r.numLayers * per && pageCount * r.pageSizeBytes <= USIZE_MAX {
      DivModUnique(r.bytesPerToken, r.numLayers, per, 0);
      EvenSizes(r, pageCount, per);
    }
  }

  lemma EvenSizes(r: Runtime, pageCount: nat, per: nat)
    requires pageCount > 0 && FirstZeroField(r).None? && r.pageSizeBytes == r.pageSize * r.bytesPerToken <= USIZE_MAX
    requires r.bytesPerToken % r.numLayers == 0 && r.bytesPerToken / r.numLayers == per
    requires r.bytesPerToken == r.numLayers * per && pageCount * r.pageSizeBytes <= USIZE_MAX
    ensures ValidateRuntime(r, pageCount).Ok? && ValidateRuntime(r, pageCount).value.perTokenPerLayer == per
  {
    MulLe(1, r.numLayers, per);
    MulLe(per, r.bytesPerToken, r.pageSize);
    MulLe(1, r.bytesPerToken, r.pageSize);
    MulLe(r.pageSize, r.pageSizeBytes, pageCount);
  }

  /** A page size in bytes must be the product; a tensor pair must add up. */
  lemma MismatchReported(r: Runtime, pageCount: nat, key: nat, value: nat)
    requires pageCount > 0 && FirstZeroField(r).None? && r.pageSize * r.bytesPerToken <= USIZE_MAX
    ensures r.pageSizeBytes != r.pageSize * r.bytesPerToken ==>
              New(r, pageCount) == Err(RuntimePageSizeMismatch(r.pageSize * r.bytesPerToken, r.pageSizeBytes))
              && NewWithTensorPair(r, pageCount, key, value) == New(r, pageCount)
    ensures (ValidateRuntime(r, pageCount).Ok? && r.kvTensorsPerToken == 2 && key > 0 && value > 0
             && key + value <= USIZE_MAX) ==>
              var per := ValidateRuntime(r, pageCount).value.perTokenPerLayer;
              key + value != per ==>
                NewWithTensorPair(r, pageCount, key, value) == Err(TensorPairSizeMismatch(per, key, value))
  {
  }

  /** The layout is one that a constructor returned. */
  ghost predicate Accepted(l: Layout) {
    match l.geometry
    case Uniform(_, _) => New(l.runtime, l.pageCount) == Ok(l)
    case Pair(key, value, _) => NewWithTensorPair(l.runtime, l.pageCount, key, value) == Ok(l)
  }

  // ---------- byte ranges ----------

  function TensorTokenBytes(l: Layout, tensor: nat): Result<nat, LayoutError> {
    match l.geometry
    case Uniform(tokenBytes, _) => Ok(tokenBytes)
    case Pair(key, value, _) =>
      if tensor == 0 then Ok(key) else if tensor == 1 then Ok(value)
      else Err(TensorOutOfRange(tensor, l.runtime.kvTensorsPerToken))
  }

  function TensorPageOffset(l: Layout, tensor: nat): Result<nat, LayoutError> {
    match l.geometry
    case Uniform(_, pageBytes) => CheckedMul(tensor, pageBytes).OkOr(SizeOverflow)
    case Pair(_, _, keyPage) =>
      if tensor == 0 then Ok(0) else if tensor == 1 then Ok(keyPage)
      else Err(TensorOutOfRange(tensor, l.runtime.kvTensorsPerToken))
  }

  function TensorTokenSizeBytes(l: Layout, tensor: nat): Result<nat, LayoutError> {
    if tensor >= l.runtime.kvTensorsPerToken then Err(TensorOutOfRange(tensor, l.runtime.kvTensorsPerToken))
    else TensorTokenBytes(l, tensor)
  }

  datatype Coord = Coord(page: nat, layer: nat, tensor: nat, token: nat)

  function TensorTokenByteRange(l: Layout, c: Coord): Result<Range, LayoutError> {
    if c.page >= l.pageCount then Err(PageOutOfRange(c.page, l.pageCount))
    else if c.layer >= l.runtime.numLayers then Err(LayerOutOfRange(c.layer, l.runtime.numLayers))
    else if c.tensor >= l.runtime.kvTensorsPerToken then Err(TensorOutOfRange(c.tensor, l.runtime.kvTensorsPerToken))
    else if c.token >= l.runtime.pageSize then Err(TokenOutOfRange(c.token, l.runtime.pageSize))
    else
      var pageOffset :- CheckedMul(c.page, l.runtime.pageSizeBytes).OkOr(SizeOverflow);
      var layerOffset :- CheckedMul(c.layer, l.bytesPerLayerPage).OkOr(SizeOverflow);
      var tensorOffset :- TensorPageOffset(l, c.tensor);
      var tokenBytes :- TensorTokenBytes(l, c.tensor);
      var tokenOffset :- CheckedMul(c.token, tokenBytes).OkOr(SizeOverflow);
      var a :- CheckedAdd(pageOffset, layerOffset).OkOr(SizeOverflow);
      var b :- CheckedAdd(a, tensorOffset).OkOr(SizeOverflow);
      var start :- CheckedAdd(b, tokenOffset).OkOr(SizeOverflow);
      var end :- CheckedAdd(start, tokenBytes).OkOr(SizeOverflow);
      Ok(Range(start, end))
  }

  function TensorSlotByteRange(l: Layout, layer: nat, tensor: nat, slot: nat): Result<Range, LayoutError>
    requires l.runtime.pageSize > 0
  {
    if slot >= l.slotCount then Err(SlotOutOfRange(slot, l.slotCount))
    else TensorTokenByteRange(l, SlotCoord(l, layer, tensor, slot))
  }

  function SlotCoord(l: Layout, layer: nat, tensor: nat, slot: nat): Coord
    requires l.runtime.pageSize > 0
  {
    Coord(Quot(slot, l.runtime.pageSize), layer, tensor, Rem(slot, l.runtime.pageSize))
  }

  datatype CopyGeometry = CopyGeometry(
    pageSize: nat, pageStrideBytes: nat, keyOffsetBytes: nat, valueOffsetBytes: nat, tokenBytes: nat) {

    /** Where the kernels find the slot's row: page stride, tensor offset, token offset. */
    function Address(offset: nat, slot: nat): nat
      requires pageSize > 0
    {
      PagedAddress(pageSize, pageStrideBytes, offset, tokenBytes, slot)
    }
  }

  function KvPairCopyGeometry(l: Layout, layer: nat): Result<CopyGeometry, LayoutError> {
    if layer >= l.runtime.numLayers then Err(LayerOutOfRange(layer, l.runtime.numLayers))
    else if l.runtime.kvTensorsPerToken < 2 then Err(KvPairRequiresTwoTensors(l.runtime.kvTensorsPerToken))
    else
      var layerOffset :- CheckedMul(layer, l.bytesPerLayerPage).OkOr(SizeOverflow);
      var key :- TensorTokenBytes(l, 0);
      var value :- TensorTokenBytes(l, 1);
      if key != value then Err(UnevenKvPairCopy(key, value))
      else
        var keyPageOffset :- TensorPageOffset(l, 0);
        var keyOffset :- CheckedAdd(layerOffset, keyPageOffset).OkOr(SizeOverflow);
        var valuePageOffset :- TensorPageOffset(l, 1);
        var valueOffset :- CheckedAdd(layerOffset, valuePageOffset).OkOr(SizeOverflow);
        Ok(CopyGeometry(l.runtime.pageSize, l.runtime.pageSizeBytes, keyOffset, valueOffset, key))
  }

  // ---------- what acceptance guarantees ----------

  ghost predicate InRange(l: Layout, c: Coord) {
    && c.page < l.pageCount
    && c.layer < l.runtime.numLayers
    && c.tensor < l.runtime.kvTensorsPerToken
    && c.token < l.runtime.pageSize
  }

  /** Bytes of one token of a tensor, and where the tensor starts inside a layer page. */
  ghost function TokenBytes(l: Layout, tensor: nat): nat {
    match l.geometry
    case Uniform(tokenBytes, _) => tokenBytes
    case Pair(key, value, _) => if tensor == 0 then key else value
  }

  ghost function TensorOffset(l: Layout, tensor: nat): nat {
    match l.geometry
    case Uniform(_, pageBytes) => tensor * pageBytes
    case Pair(_, _, keyPage) => if tensor == 0 then 0 else keyPage
  }

  /** The nested extents: tokens fill tensors, tensors fill a layer page, layer pages a page, pages the pool. */
  ghost predicate Nested(l: Layout) {
    && l.runtime.pageSize > 0 && l.runtime.numLayers > 0 && l.runtime.kvTensorsPerToken > 0
    && l.bytesPerLayerPage > 0
    && l.runtime.pageSizeBytes == l.runtime.numLayers * l.bytesPerLayerPage
    && l.totalByteLen == l.pageCount * l.runtime.pageSizeBytes
    && l.totalByteLen <= USIZE_MAX
    && l.slotCount == l.pageCount * l.runtime.pageSize
    && l.bytesPerTokenPerLayer <= l.bytesPerLayerPage
    && match l.geometry
       case Uniform(tokenBytes, pageBytes) =>
         && tokenBytes > 0 && pageBytes == l.runtime.pageSize * tokenBytes
         && l.bytesPerLayerPage == l.runtime.kvTensorsPerToken * pageBytes
       case Pair(key, value, keyPage) =>
         && key > 0 && value > 0 && l.runtime.kvTensorsPerToken == 2
         && keyPage == l.runtime.pageSize * key
         && l.bytesPerLayerPage == keyPage + l.runtime.pageSize * value
  }

  lemma MulAssoc(a: int, b: int, c: int)
    ensures a * (b * c) == (a * b) * c
    ensures a * (b * c) == b * (a * c)
  {
  }

  lemma ExactDiv(a: nat, d: nat)
    requires d > 0 && a % d == 0
    ensures a == d * (a / d)
    ensures a > 0 ==> a / d > 0
  {
  }

  lemma AcceptedNested(l: Layout)
    requires Accepted(l)
    ensures Nested(l)
  {
    var r := l.runtime;
    var perLayer := l.bytesPerTokenPerLayer;
    ExactDiv(r.bytesPerToken, r.numLayers);
    MulAssoc(r.pageSize, r.numLayers, perLayer);
    MulPos(r.pageSize, perLayer);
    match l.geometry
    case Uniform(tokenBytes, pageBytes) =>
      ExactDiv(perLayer, r.kvTensorsPerToken);
      MulAssoc(r.pageSize, r.kvTensorsPerToken, tokenBytes);
    case Pair(key, value, keyPage) =>
      assert r.pageSize * (key + value) == r.pageSize * key + r.pageSize * value;
  }

  ghost function Start(l: Layout, c: Coord): nat {
    c.page * l.runtime.pageSizeBytes + c.layer * l.bytesPerLayerPage + TensorOffset(l, c.tensor)
      + c.token * TokenBytes(l, c.tensor)
  }

  lemma TensorExtent(l: Layout, tensor: nat)
    requires Nested(l) && tensor < l.runtime.kvTensorsPerToken
    ensures TokenBytes(l, tensor) > 0
    ensures TensorOffset(l, tensor) + l.runtime.pageSize * TokenBytes(l, tensor) <= l.bytesPerLayerPage
  {
    match l.geometry
    case Uniform(tokenBytes, pageBytes) =>
      MulLe(tensor + 1, l.runtime.kvTensorsPerToken, pageBytes);
      assert (tensor + 1) * pageBytes == tensor * pageBytes + pageBytes;
    case Pair(_, _, _) =>
  }

  lemma CoordExtent(l: Layout, c: Coord)
    requires Nested(l) && InRange(l, c)
    ensures c.token * TokenBytes(l, c.tensor) + TokenBytes(l, c.tensor) <= l.runtime.pageSize * TokenBytes(l, c.tensor)
    ensures c.layer * l.bytesPerLayerPage + l.bytesPerLayerPage <= l.runtime.pageSizeBytes
    ensures c.page * l.runtime.pageSizeBytes + l.runtime.pageSizeBytes <= l.totalByteLen
  {
    NextMultiple(c.token, l.runtime.pageSize, TokenBytes(l, c.tensor));
    NextMultiple(c.layer, l.runtime.numLayers, l.bytesPerLayerPage);
    NextMultiple(c.page, l.pageCount, l.runtime.pageSizeBytes);
  }

  /** A byte range is reported exactly for in-range coordinates, lies in the pool, and never overflows. */
  lemma RangeExact(l: Layout, c: Coord)
    requires Nested(l)
    ensures InRange(l, c) ==>
              && TensorTokenByteRange(l, c) == Ok(Range(Start(l, c), Start(l, c) + TokenBytes(l, c.tensor)))
              && TokenBytes(l, c.tensor) > 0
              && Start(l, c) + TokenBytes(l, c.tensor) <= l.totalByteLen
    ensures !InRange(l, c) ==> TensorTokenByteRange(l, c).Err? && TensorTokenByteRange(l, c).error != SizeOverflow
  {
    if InRange(l, c) {
      TensorExtent(l, c.tensor);
      CoordExtent(l, c);
    }
  }

  /** An out-of-range coordinate is reported by its first index that is too large, with that index and its bound. */
  lemma RangeErrors(l: Layout, c: Coord)
    requires Nested(l)
    ensures c.page >= l.pageCount ==> TensorTokenByteRange(l, c) == Err(PageOutOfRange(c.page, l.pageCount))
    ensures c.page < l.pageCount && c.layer >= l.runtime.numLayers ==>
              TensorTokenByteRange(l, c) == Err(LayerOutOfRange(c.layer, l.runtime.numLayers))
    ensures c.page < l.pageCount && c.layer < l.runtime.numLayers && c.tensor >= l.runtime.kvTensorsPerToken ==>
              TensorTokenByteRange(l, c) == Err(TensorOutOfRange(c.tensor, l.runtime.kvTensorsPerToken))
    ensures c.page < l.pageCount && c.layer < l.runtime.numLayers && c.tensor < l.runtime.kvTensorsPerToken
            && c.token >= l.runtime.pageSize ==>
              TensorTokenByteRange(l, c) == Err(TokenOutOfRange(c.token, l.runtime.pageSize))
  {
  }

  /** Sizes and copy geometries name the index that is too large, or what makes the two rows unequal. */
  lemma GeometryErrors(l: Layout, layer: nat, tensor: nat)
    ensures tensor >= l.runtime.kvTensorsPerToken ==>
              TensorTokenSizeBytes(l, tensor) == Err(TensorOutOfRange(tensor, l.runtime.kvTensorsPerToken))
    ensures layer >= l.runtime.numLayers ==>
              KvPairCopyGeometry(l, layer) == Err(LayerOutOfRange(layer, l.runtime.numLayers))
    ensures layer < l.runtime.numLayers && l.runtime.kvTensorsPerToken < 2 ==>
              KvPairCopyGeometry(l, layer) == Err(KvPairRequiresTwoTensors(l.runtime.kvTensorsPerToken))
    ensures layer < l.runtime.numLayers && l.runtime.kvTensorsPerToken >= 2 && TokenBytes(l, 0) != TokenBytes(l, 1)
            && layer * l.bytesPerLayerPage <= USIZE_MAX ==>
              KvPairCopyGeometry(l, layer) == Err(UnevenKvPairCopy(TokenBytes(l, 0), TokenBytes(l, 1)))
  {
  }

  // ---------- the tiling ----------

  /** The coordinate whose range holds byte b, read off by division with remainder. */
  ghost function Locate(l: Layout, b: nat): Coord
    requires Nested(l) && b < l.totalByteLen
  {
    MulPos(l.runtime.numLayers, l.bytesPerLayerPage);
    NestedDivisible(l);
    var inPage := Rem(b, l.runtime.pageSizeBytes);
    LocateTensor(l.geometry, Quot(b, l.runtime.pageSizeBytes), Quot(inPage, l.bytesPerLayerPage),
                 Rem(inPage, l.bytesPerLayerPage))
  }

  ghost predicate Divisible(g: Geometry) {
    match g
    case Uniform(tokenBytes, pageBytes) => tokenBytes > 0 && pageBytes > 0
    case Pair(key, value, _) => key > 0 && value > 0
  }

  lemma NestedDivisible(l: Layout)
    requires Nested(l)
    ensures Divisible(l.geometry)
  {
    if l.geometry.Uniform? {
      MulPos(l.runtime.pageSize, l.geometry.tokenBytes);
    }
  }

  ghost function LocateTensor(g: Geometry, page: nat, layer: nat, rest: nat): Coord
    requires Divisible(g)
  {
    match g
    case Uniform(tokenBytes, pageBytes) =>
      Coord(page, layer, Quot(rest, pageBytes), Quot(Rem(rest, pageBytes), tokenBytes))
    case Pair(key, value, keyPage) =>
      if rest < keyPage then Coord(page, layer, 0, Quot(rest, key))
      else Coord(page, layer, 1, Quot(rest - keyPage, value))
  }

  /** Every byte of a layer page belongs to a token of a tensor. */
  lemma LocateTensorCovers(l: Layout, page: nat, layer: nat, rest: nat)
    requires Nested(l) && Divisible(l.geometry) && rest < l.bytesPerLayerPage
    ensures var c := LocateTensor(l.geometry, page, layer, rest);
            && c.page == page && c.layer == layer
            && c.tensor < l.runtime.kvTensorsPerToken && c.token < l.runtime.pageSize
            && var at := TensorOffset(l, c.tensor) + c.token * TokenBytes(l, c.tensor);
               at <= rest < at + TokenBytes(l, c.tensor)
  {
    match l.geometry
    case Uniform(tokenBytes, pageBytes) =>
      QuotBelow(rest, pageBytes, l.runtime.kvTensorsPerToken);
      QuotBelow(Rem(rest, pageBytes), tokenBytes, l.runtime.pageSize);
    case Pair(key, value, keyPage) =>
      if rest < keyPage {
        QuotBelow(rest, key, l.runtime.pageSize);
      } else {
        QuotBelow(rest - keyPage, value, l.runtime.pageSize);
      }
  }

  lemma LocateTensorUnique(l: Layout, c: Coord, rest: nat, x: nat)
    requires Nested(l) && Divisible(l.geometry) && InRange(l, c) && x < TokenBytes(l, c.tensor)
    requires rest == TensorOffset(l, c.tensor) + c.token * TokenBytes(l, c.tensor) + x
    ensures LocateTensor(l.geometry, c.page, c.layer, rest) == c
  {
    if l.geometry.Uniform? {
      LocateUniform(l.geometry, l.runtime.pageSize, c, rest, x);
    } else if c.tensor == 0 {
      LocateKey(l.geometry, l.runtime.pageSize, c, rest, x);
    } else {
      LocateValue(l.geometry, c, rest, x);
    }
  }

  lemma LocateUniform(g: Geometry, pageSize: nat, c: Coord, rest: nat, x: nat)
    requires g.Uniform? && Divisible(g) && g.pageBytes == pageSize * g.tokenBytes && c.token < pageSize
             && x < g.tokenBytes
    requires rest == c.tensor * g.pageBytes + c.token * g.tokenBytes + x
    ensures LocateTensor(g, c.page, c.layer, rest) == c
  {
    UniformDigits(pageSize, g.tokenBytes, g.pageBytes, c.tensor, c.token, x, rest);
  }

  lemma LocateKey(g: Geometry, pageSize: nat, c: Coord, rest: nat, x: nat)
    requires g.Pair? && Divisible(g) && g.keyPageBytes == pageSize * g.keyTokenBytes && c.tensor == 0
             && c.token < pageSize && x < g.keyTokenBytes
    requires rest == c.token * g.keyTokenBytes + x
    ensures LocateTensor(g, c.page, c.layer, rest) == c
  {
    KeyDigits(pageSize, g.keyTokenBytes, g.keyPageBytes, c.token, x, rest);
  }

  lemma LocateValue(g: Geometry, c: Coord, rest: nat, x: nat)
    requires g.Pair? && Divisible(g) && c.tensor == 1 && x < g.valueTokenBytes
    requires rest == g.keyPageBytes + c.token * g.valueTokenBytes + x
    ensures LocateTensor(g, c.page, c.layer, rest) == c
  {
    QuotRemUnique(rest - g.keyPageBytes, g.valueTokenBytes, c.token, x);
  }

  lemma KeyDigits(pageSize: nat, key: nat, keyPage: nat, token: nat, x: nat, rest: nat)
    requires keyPage == pageSize * key && token < pageSize && x < key && rest == token * key + x
    ensures rest < keyPage && Quot(rest, key) == token
  {
    DigitBound(token, x, key, pageSize);
    QuotRemUnique(rest, key, token, x);
  }

  lemma UniformDigits(pageSize: nat, tokenBytes: nat, pageBytes: nat, tensor: nat, token: nat, x: nat, rest: nat)
    requires pageBytes == pageSize * tokenBytes > 0 && token < pageSize && x < tokenBytes
    requires rest == tensor * pageBytes + token * tokenBytes + x
    ensures Quot(rest, pageBytes) == tensor && Quot(Rem(rest, pageBytes), tokenBytes) == token
  {
    var inTensor := token * tokenBytes + x;
    DigitBound(token, x, tokenBytes, pageSize);
    QuotRemUnique(rest, pageBytes, tensor, inTensor);
    QuotRemUnique(inTensor, tokenBytes, token, x);
  }

  /** The ranges cover the pool: every byte lies in the range of the coordinate it is located at. */
  lemma RangesCover(l: Layout, b: nat)
    requires Nested(l) && b < l.totalByteLen
    ensures InRange(l, Locate(l, b))
    ensures var r := TensorTokenByteRange(l, Locate(l, b)); r.Ok? && r.value.start <= b < r.value.end
  {
    var d, page := l.runtime.pageSizeBytes, l.bytesPerLayerPage;
    MulPos(l.runtime.numLayers, page);
    NestedDivisible(l);
    QuotBelow(b, d, l.pageCount);
    QuotBelow(Rem(b, d), page, l.runtime.numLayers);
    LocateTensorCovers(l, Quot(b, d), Quot(Rem(b, d), page), Rem(Rem(b, d), page));
    RangeExact(l, Locate(l, b));
  }

  /** The ranges are disjoint: a byte of a coordinate's range is located at that coordinate and no other. */
  lemma RangesDisjoint(l: Layout, c: Coord, b: nat)
    requires Nested(l) && InRange(l, c) && TensorTokenByteRange(l, c).Ok?
    requires TensorTokenByteRange(l, c).value.start <= b < TensorTokenByteRange(l, c).value.end
    ensures b < l.totalByteLen && Locate(l, b) == c
  {
    RangeExact(l, c);
    TensorExtent(l, c.tensor);
    CoordExtent(l, c);
    NestedDivisible(l);
    var x := b - Start(l, c);
    var rest := TensorOffset(l, c.tensor) + c.token * TokenBytes(l, c.tensor) + x;
    QuotRemUnique(b, l.runtime.pageSizeBytes, c.page, c.layer * l.bytesPerLayerPage + rest);
    QuotRemUnique(c.layer * l.bytesPerLayerPage + rest, l.bytesPerLayerPage, c.layer, rest);
    LocateTensorUnique(l, c, rest, x);
  }

  /** Slots are tokens of pages: distinct (layer, tensor, slot) triples own disjoint byte ranges of the pool. */
  lemma SlotRanges(l: Layout, layer: nat, tensor: nat, slot: nat)
    requires Nested(l)
    ensures layer < l.runtime.numLayers && tensor < l.runtime.kvTensorsPerToken && slot < l.slotCount
       <==> TensorSlotByteRange(l, layer, tensor, slot).Ok?
    ensures TensorSlotByteRange(l, layer, tensor, slot).Ok? ==>
              && InRange(l, SlotCoord(l, layer, tensor, slot))
              && TensorSlotByteRange(l, layer, tensor, slot)
                 == TensorTokenByteRange(l, SlotCoord(l, layer, tensor, slot))
    ensures slot >= l.slotCount ==>
              TensorSlotByteRange(l, layer, tensor, slot) == Err(SlotOutOfRange(slot, l.slotCount))
  {
    if slot < l.slotCount {
      QuotBelow(slot, l.runtime.pageSize, l.pageCount);
      RangeExact(l, SlotCoord(l, layer, tensor, slot));
    }
  }

  /** The device address formula of the copy kernels is the start of the slot's byte range. */
  lemma CopyGeometryAddresses(l: Layout, layer: nat, slot: nat)
    requires Nested(l) && slot < l.slotCount
    ensures KvPairCopyGeometry(l, layer).Ok? <==>
              layer < l.runtime.numLayers && l.runtime.kvTensorsPerToken >= 2 && TokenBytes(l, 0) == TokenBytes(l, 1)
    ensures KvPairCopyGeometry(l, layer).Ok? ==>
              var g := KvPairCopyGeometry(l, layer).value;
              && g.pageSize == l.runtime.pageSize > 0
              && TensorSlotByteRange(l, layer, 0, slot)
                 == Ok(Range(g.Address(g.keyOffsetBytes, slot), g.Address(g.keyOffsetBytes, slot) + g.tokenBytes))
              && TensorSlotByteRange(l, layer, 1, slot)
                 == Ok(Range(g.Address(g.valueOffsetBytes, slot), g.Address(g.valueOffsetBytes, slot) + g.tokenBytes))
  {
    if layer < l.runtime.numLayers && l.runtime.kvTensorsPerToken >= 2 {
      SlotRanges(l, layer, 0, slot);
      SlotRanges(l, layer, 1, slot);
      RangeExact(l, SlotCoord(l, layer, 0, slot));
      RangeExact(l, SlotCoord(l, layer, 1, slot));
      OffsetsFit(l, layer);
    }
  }

  lemma OffsetsFit(l: Layout, layer: nat)
    requires Nested(l) && layer < l.runtime.numLayers && l.runtime.kvTensorsPerToken >= 2 && l.pageCount > 0
    ensures layer * l.bytesPerLayerPage + TensorOffset(l, 0) <= USIZE_MAX
    ensures layer * l.bytesPerLayerPage + TensorOffset(l, 1) <= USIZE_MAX
  {
    TensorExtent(l, 0);
    TensorExtent(l, 1);
    CoordExtent(l, Coord(0, layer, 0, 0));
  }

  /**
   * For every layout a constructor accepts, the (page, layer, tensor, token) ranges tile the pool: each byte lies
   * in the range of exactly one coordinate, and no in-range query reports an overflow.
   */
  lemma LayoutTilesPool(l: Layout, b: nat)
    requires Accepted(l) && b < l.totalByteLen
    ensures exists c :: InRange(l, c) && Holds(l, c, b)
    ensures forall c, c' :: InRange(l, c) && InRange(l, c') && Holds(l, c, b) && Holds(l, c', b) ==> c == c'
    ensures forall c :: InRange(l, c) <==> TensorTokenByteRange(l, c).Ok?
    ensures forall c :: TensorTokenByteRange(l, c).Err? ==> TensorTokenByteRange(l, c).error != SizeOverflow
  {
    AcceptedNested(l);
    RangesCover(l, b);
    assert Holds(l, Locate(l, b), b);
    forall c, c' | InRange(l, c) && InRange(l, c') && Holds(l, c, b) && Holds(l, c', b)
      ensures c == c'
    {
      RangesDisjoint(l, c, b);
      RangesDisjoint(l, c', b);
    }
    forall c
      ensures InRange(l, c) <==> TensorTokenByteRange(l, c).Ok?
      ensures TensorTokenByteRange(l, c).Err? ==> TensorTokenByteRange(l, c).error != SizeOverflow
    {
      RangeExact(l, c);
    }
  }

  ghost predicate Holds(l: Layout, c: Coord, b: nat) {
    var r := TensorTokenByteRange(l, c);
    r.Ok? && r.value.start <= b < r.value.end
  }
}
