/**
 * One geometry, several users: the copy plan built from a layout's copy geometry (`cuda/kv_cache.rs`), and what the
 * scatter kernel run on it does to the layout's rows.
 */
module DeviceCache {
  import opened Basics
  import opened KvStorage
  import opened KvLayout
  import K = KvCopyKernels

  datatype PlanError = Geometry(layout: LayoutError) | Copy(copy: K.CopyError)

  function CopyLayoutOf(g: CopyGeometry): K.CopyLayout {
    K.CopyLayout(g.pageSize, g.pageStrideBytes, g.keyOffsetBytes, g.valueOffsetBytes, g.tokenBytes)
  }

  /** `kv_pair_copy_plan`. */
  function PlanFor(l: Layout, layer: nat, rows: nat, keyStride: nat, valueStride: nat): Result<K.Plan, PlanError> {
    match KvPairCopyGeometry(l, layer)
    case Err(e) => Err(Geometry(e))
    case Ok(g) =>
      match K.NewPlan(rows, l.slotCount, CopyLayoutOf(g), keyStride, valueStride)
      case Err(e) => Err(Copy(e))
      case Ok(p) => Ok(p)
  }

  /** The layer's tensors lie in disjoint regions inside the page. */
  lemma Regions(l: Layout, layer: nat)
    requires Nested(l) && l.pageCount > 0 && KvPairCopyGeometry(l, layer).Ok?
    ensures var g := KvPairCopyGeometry(l, layer).value;
            && g.pageSize == l.runtime.pageSize && g.pageStrideBytes == l.runtime.pageSizeBytes
               && g.tokenBytes == TokenBytes(l, 0) > 0
            && g.keyOffsetBytes == layer * l.bytesPerLayerPage + TensorOffset(l, 0)
            && g.keyOffsetBytes + g.pageSize * g.tokenBytes <= g.valueOffsetBytes
            && g.valueOffsetBytes + g.pageSize * g.tokenBytes <= g.pageStrideBytes
            && g.pageStrideBytes <= l.totalByteLen
  {
    TensorExtent(l, 0);
    TensorExtent(l, 1);
    CoordExtent(l, Coord(0, layer, 0, 0));
    OffsetsFit(l, layer);
  }

  /** The row buffers and the launch fit the machine word. */
  predicate RowsFit(rows: nat, rowBytes: nat, keyStride: nat, valueStride: nat) {
    && rows > 0 && rowBytes <= keyStride && rowBytes <= valueStride
    && (rows - 1) * keyStride + rowBytes <= USIZE_MAX && (rows - 1) * valueStride + rowBytes <= USIZE_MAX
    && rows * K.SLOT_INDEX_BYTES <= USIZE_MAX && rows * rowBytes * 2 + K.BLOCK_SIZE - 1 <= USIZE_MAX
    && (rows * rowBytes * 2 + K.BLOCK_SIZE - 1) / K.BLOCK_SIZE <= U32_MAX
  }

  /** The end of the last slot's rows lies in the pool, so that computing it cannot overflow. */
  lemma PoolFits(l: Layout, layer: nat)
    requires Nested(l) && l.pageCount > 0 && KvPairCopyGeometry(l, layer).Ok?
    ensures var g := KvPairCopyGeometry(l, layer).value;
            l.slotCount > 0
            && PagedAddress(g.pageSize, g.pageStrideBytes, g.valueOffsetBytes, g.tokenBytes, l.slotCount - 1)
               + g.tokenBytes <= l.totalByteLen
  {
    MulPos(l.pageCount, l.runtime.pageSize);
    CopyGeometryAddresses(l, layer, l.slotCount - 1);
    SlotRanges(l, layer, 1, l.slotCount - 1);
    RangeExact(l, SlotCoord(l, layer, 1, l.slotCount - 1));
  }

  lemma PoolRequiredFits(slots: nat, c: K.CopyLayout, pageBytes: nat)
    requires slots > 0 && c.pageSize > 0 && c.valueOffset + pageBytes <= USIZE_MAX
    requires PagedAddress(c.pageSize, c.pageStride, c.valueOffset, c.rowBytes, slots - 1) + c.rowBytes <= USIZE_MAX
    ensures K.PoolRequired(slots, c, pageBytes, c.valueOffset + pageBytes).Ok?
  {
  }

  /** Beyond what the geometry needs, the plan is accepted exactly when the row buffers fit. */
  lemma PlanForIff(l: Layout, layer: nat, rows: nat, keyStride: nat, valueStride: nat)
    requires Nested(l) && l.pageCount > 0 && KvPairCopyGeometry(l, layer).Ok?
    ensures PlanFor(l, layer, rows, keyStride, valueStride).Ok? <==>
              RowsFit(rows, TokenBytes(l, 0), keyStride, valueStride)
  {
    var g := KvPairCopyGeometry(l, layer).value;
    var c := CopyLayoutOf(g);
    Regions(l, layer);
    PoolFits(l, layer);
    NewPlanIff(l.slotCount, c, rows, keyStride, valueStride);
  }

  lemma NewPlanIff(slots: nat, c: K.CopyLayout, rows: nat, keyStride: nat, valueStride: nat)
    requires slots > 0 && c.pageSize > 0 && c.pageStride > 0 && c.rowBytes > 0
    requires c.keyOffset + c.pageSize * c.rowBytes <= c.valueOffset
             && c.valueOffset + c.pageSize * c.rowBytes <= c.pageStride <= USIZE_MAX
    requires PagedAddress(c.pageSize, c.pageStride, c.valueOffset, c.rowBytes, slots - 1) + c.rowBytes <= USIZE_MAX
    ensures K.NewPlan(rows, slots, c, keyStride, valueStride).Ok? <==> RowsFit(rows, c.rowBytes, keyStride, valueStride)
  {
    var pageBytes := c.pageSize * c.rowBytes;
    PoolRequiredFits(slots, c, pageBytes);
    assert K.PageRegionEnd(c.keyOffset, pageBytes, c.pageStride) == Ok(c.keyOffset + pageBytes);
    assert K.PageRegionEnd(c.valueOffset, pageBytes, c.pageStride) == Ok(c.valueOffset + pageBytes);
    assert Max(c.keyOffset + pageBytes, c.valueOffset + pageBytes) == c.valueOffset + pageBytes;
    if rows > 0 {
      StridedFits(rows, keyStride, c.rowBytes);
      StridedFits(rows, valueStride, c.rowBytes);
    }
  }

  lemma StridedFits(rows: nat, stride: nat, rowBytes: nat)
    requires rows > 0
    ensures K.StridedRowsRequired(rows, stride, rowBytes).Ok? <==> (rows - 1) * stride + rowBytes <= USIZE_MAX
  {
  }

  // ---------- scattering is putting rows ----------

  /** The stored row of a (layer, tensor, slot). */
  ghost function RowIn(l: Layout, pool: seq<Byte>, layer: nat, tensor: nat, slot: nat): seq<Byte>
    requires Nested(l) && |pool| == l.totalByteLen && layer < l.runtime.numLayers
             && tensor < l.runtime.kvTensorsPerToken && slot < l.slotCount
  {
    SlotRanges(l, layer, tensor, slot);
    RangeExact(l, SlotCoord(l, layer, tensor, slot));
    var r := TensorSlotByteRange(l, layer, tensor, slot).value;
    pool[r.start..r.end]
  }

  lemma DenseBound(r: nat, rows: nat, stride: nat, rowBytes: nat)
    requires r < rows
    ensures 0 <= r * stride && r * stride + rowBytes <= (rows - 1) * stride + rowBytes
  {
    MulLe(r, rows - 1, stride);
    MulLe(0, r, stride);
  }

  /** Row r of the key or value buffer. */
  ghost function DenseRow(p: K.Plan, keys: seq<Byte>, values: seq<Byte>, tensor: nat, r: nat): seq<Byte>
    requires K.Sound(p) && p.keyRequired <= |keys| && p.valueRequired <= |values| && r < p.rowCount
  {
    DenseBound(r, p.rowCount, p.keyStride, p.layout.rowBytes);
    DenseBound(r, p.rowCount, p.valueStride, p.layout.rowBytes);
    if tensor == 1 then values[r * p.valueStride..r * p.valueStride + p.layout.rowBytes]
    else keys[r * p.keyStride..r * p.keyStride + p.layout.rowBytes]
  }

  /** The plan's address of a byte is its place in the slot's range. */
  lemma AddressInRange(l: Layout, layer: nat, p: K.Plan, isValue: bool, slot: nat, byte: nat)
    requires Nested(l) && slot < l.slotCount && KvPairCopyGeometry(l, layer).Ok?
             && p.layout == CopyLayoutOf(KvPairCopyGeometry(l, layer).value)
    ensures p.layout.pageSize > 0
    ensures TensorSlotByteRange(l, layer, if isValue then 1 else 0, slot)
         == Ok(Range(K.PoolAddress(p, isValue, slot, 0), K.PoolAddress(p, isValue, slot, 0) + p.layout.rowBytes))
    ensures K.PoolAddress(p, isValue, slot, byte) == K.PoolAddress(p, isValue, slot, 0) + byte
  {
    CopyGeometryAddresses(l, layer, slot);
  }

  /** A written byte lies in the range of the row it was written for, and in no other. */
  lemma AddressedElsewhere(l: Layout, layer: nat, p: K.Plan, slots: seq<nat>, other: nat, tensor: nat, slot: nat,
                           x: nat)
    requires Nested(l) && KvPairCopyGeometry(l, layer).Ok?
             && p.layout == CopyLayoutOf(KvPairCopyGeometry(l, layer).value) && p.slotCount == l.slotCount
    requires K.Sound(p) && p.rowCount <= |slots| && K.Addressed(p, slots, x)
    requires other < l.runtime.numLayers && tensor < l.runtime.kvTensorsPerToken && slot < l.slotCount
    requires var r := TensorSlotByteRange(l, other, tensor, slot); r.Ok? && r.value.start <= x < r.value.end
    ensures other == layer && tensor < 2 && slot in slots[..p.rowCount]
  {
    var it :| K.ValidItem(p, it) && slots[it.row] < p.slotCount
        && K.PoolAddress(p, it.isValue, slots[it.row], it.byte) == x;
    var t := if it.isValue then 1 else 0;
    AddressInRange(l, layer, p, it.isValue, slots[it.row], it.byte);
    SlotRanges(l, layer, t, slots[it.row]);
    SlotRanges(l, other, tensor, slot);
    RangesDisjoint(l, SlotCoord(l, layer, t, slots[it.row]), x);
    RangesDisjoint(l, SlotCoord(l, other, tensor, slot), x);
    SameSlot(l, slots[it.row], slot);
    assert slots[..p.rowCount][it.row] == slot;
  }

  lemma SameSlot(l: Layout, a: nat, b: nat)
    requires l.runtime.pageSize > 0 && Quot(a, l.runtime.pageSize) == Quot(b, l.runtime.pageSize)
             && Rem(a, l.runtime.pageSize) == Rem(b, l.runtime.pageSize)
    ensures a == b
  {
  }

  /** What both lemmas need of the plan: it is the layer's, and the buffers are large enough for it. */
  ghost predicate PlanOf(l: Layout, layer: nat, p: K.Plan, keys: nat, values: nat, slots: nat) {
    && Nested(l) && KvPairCopyGeometry(l, layer).Ok? && p.layout == CopyLayoutOf(KvPairCopyGeometry(l, layer).value)
       && p.slotCount == l.slotCount
    && layer < l.runtime.numLayers && 2 <= l.runtime.kvTensorsPerToken
    && K.Sound(p) && K.RowBuffers(p, keys, values, slots) && p.poolRequired <= l.totalByteLen
  }

  lemma ByteWritten(l: Layout, layer: nat, p: K.Plan, after: seq<Byte>, keys: seq<Byte>, values: seq<Byte>,
                    slots: seq<nat>, isValue: bool, r: nat, b: nat)
    requires PlanOf(l, layer, p, |keys|, |values|, |slots|) && |after| == l.totalByteLen
    requires K.RowsAt(p, after, keys, values, slots) && r < p.rowCount && slots[r] < l.slotCount
             && b < p.layout.rowBytes
    ensures ByteEqual(after, K.PoolAddress(p, isValue, slots[r], 0), if isValue then values else keys,
                      K.RowAddress(p, K.Item(isValue, r, 0)), b)
  {
    var it := K.Item(isValue, r, b);
    K.PoolBound(p, isValue, slots[r], b);
    K.RowBound(p, it);
    assert K.ByteAt(p, after, keys, values, slots, it);
    AddressInRange(l, layer, p, isValue, slots[r], b);
  }

  lemma RowInIs(l: Layout, pool: seq<Byte>, layer: nat, tensor: nat, slot: nat, start: nat, n: nat)
    requires Nested(l) && |pool| == l.totalByteLen && layer < l.runtime.numLayers
             && tensor < l.runtime.kvTensorsPerToken && slot < l.slotCount
    requires TensorSlotByteRange(l, layer, tensor, slot) == Ok(Range(start, start + n))
    ensures start + n <= |pool| && RowIn(l, pool, layer, tensor, slot) == pool[start..start + n]
  {
    SlotRanges(l, layer, tensor, slot);
    RangeExact(l, SlotCoord(l, layer, tensor, slot));
  }

  lemma SlicesEqual(a: seq<Byte>, i: nat, b: seq<Byte>, j: nat, n: nat)
    requires i + n <= |a| && j + n <= |b| && RowEqual(a, i, b, j, n)
    ensures a[i..i + n] == b[j..j + n]
  {
    var x, y := a[i..i + n], b[j..j + n];
    forall k: nat | k < n
      ensures x[k] == y[k]
    {
      assert ByteEqual(a, i, b, j, k);
    }
  }

  ghost predicate RowEqual(a: seq<Byte>, i: nat, b: seq<Byte>, j: nat, n: nat) {
    forall k: nat :: k < n ==> ByteEqual(a, i, b, j, k)
  }

  ghost predicate ByteEqual(a: seq<Byte>, i: nat, b: seq<Byte>, j: nat, k: nat) {
    i + k < |a| && j + k < |b| && a[i + k] == b[j + k]
  }

  lemma RowWritten(l: Layout, layer: nat, p: K.Plan, after: seq<Byte>, keys: seq<Byte>, values: seq<Byte>,
                   slots: seq<nat>, tensor: nat, r: nat)
    requires PlanOf(l, layer, p, |keys|, |values|, |slots|) && |after| == l.totalByteLen
    requires K.RowsAt(p, after, keys, values, slots) && tensor < 2 && r < p.rowCount && slots[r] < l.slotCount
    ensures RowIn(l, after, layer, tensor, slots[r]) == DenseRow(p, keys, values, tensor, r)
  {
    var isValue := tensor == 1;
    var start, from := K.PoolAddress(p, isValue, slots[r], 0), K.RowAddress(p, K.Item(isValue, r, 0));
    AddressInRange(l, layer, p, isValue, slots[r], 0);
    RowInIs(l, after, layer, tensor, slots[r], start, p.layout.rowBytes);
    DenseRowIs(p, keys, values, tensor, r);
    BytesWritten(l, layer, p, after, keys, values, slots, isValue, r);
    SlicesEqual(after, start, if isValue then values else keys, from, p.layout.rowBytes);
  }

  lemma BytesWritten(l: Layout, layer: nat, p: K.Plan, after: seq<Byte>, keys: seq<Byte>, values: seq<Byte>,
                     slots: seq<nat>, isValue: bool, r: nat)
    requires PlanOf(l, layer, p, |keys|, |values|, |slots|) && |after| == l.totalByteLen
    requires K.RowsAt(p, after, keys, values, slots) && r < p.rowCount && slots[r] < l.slotCount
    ensures RowEqual(after, K.PoolAddress(p, isValue, slots[r], 0),
                     if isValue then values else keys, K.RowAddress(p, K.Item(isValue, r, 0)), p.layout.rowBytes)
  {
    var start, from := K.PoolAddress(p, isValue, slots[r], 0), K.RowAddress(p, K.Item(isValue, r, 0));
    var buffer := if isValue then values else keys;
    forall b: nat | b < p.layout.rowBytes
      ensures ByteEqual(after, start, buffer, from, b)
    {
      ByteWritten(l, layer, p, after, keys, values, slots, isValue, r, b);
    }
  }

  lemma DenseRowIs(p: K.Plan, keys: seq<Byte>, values: seq<Byte>, tensor: nat, r: nat)
    requires K.Sound(p) && p.keyRequired <= |keys| && p.valueRequired <= |values| && r < p.rowCount && tensor < 2
    ensures var buffer := if tensor == 1 then values else keys;
            var from := K.RowAddress(p, K.Item(tensor == 1, r, 0));
            from + p.layout.rowBytes <= |buffer|
            && DenseRow(p, keys, values, tensor, r) == buffer[from..from + p.layout.rowBytes]
  {
    DenseBound(r, p.rowCount, p.keyStride, p.layout.rowBytes);
    DenseBound(r, p.rowCount, p.valueStride, p.layout.rowBytes);
  }

  lemma RowKept(l: Layout, layer: nat, p: K.Plan, before: seq<Byte>, after: seq<Byte>, slots: seq<nat>, a: nat, t: nat,
                s: nat)
    requires PlanOf(l, layer, p, p.keyRequired, p.valueRequired, |slots|) && |before| == |after| == l.totalByteLen
    requires forall x: nat :: x < |before| && !K.Addressed(p, slots, x) ==> after[x] == before[x]
    requires Untouched(l, layer, p, slots, a, t, s)
    ensures RowIn(l, after, a, t, s) == RowIn(l, before, a, t, s)
  {
    SlotRanges(l, a, t, s);
    RangeExact(l, SlotCoord(l, a, t, s));
    var range := TensorSlotByteRange(l, a, t, s).value;
    forall x: nat | range.start <= x < range.end
      ensures after[x] == before[x]
    {
      if K.Addressed(p, slots, x) {
        AddressedElsewhere(l, layer, p, slots, a, t, s, x);
      }
    }
  }

  /** The buffers' rows stand at the listed slots of the layer; every other row is as before. */
  ghost predicate RowsPut(l: Layout, layer: nat, p: K.Plan, before: seq<Byte>, after: seq<Byte>, keys: seq<Byte>,
                          values: seq<Byte>, slots: seq<nat>)
    requires PlanOf(l, layer, p, |keys|, |values|, |slots|) && |before| == |after| == l.totalByteLen
  {
    && (forall i: nat, t: nat :: i < p.rowCount && t < 2 && slots[i] < l.slotCount ==>
          RowIn(l, after, layer, t, slots[i]) == DenseRow(p, keys, values, t, i))
    && (forall a: nat, t: nat, s: nat :: Untouched(l, layer, p, slots, a, t, s) ==>
          RowIn(l, after, a, t, s) == RowIn(l, before, a, t, s))
  }

  ghost predicate Untouched(l: Layout, layer: nat, p: K.Plan, slots: seq<nat>, a: nat, t: nat, s: nat)
    requires p.rowCount <= |slots|
  {
    && a < l.runtime.numLayers && t < l.runtime.kvTensorsPerToken && s < l.slotCount
    && (a != layer || t >= 2 || s !in slots[..p.rowCount])
  }

  lemma AllRowsPut(l: Layout, layer: nat, p: K.Plan, before: seq<Byte>, after: seq<Byte>, keys: seq<Byte>,
                   values: seq<Byte>, slots: seq<nat>)
    requires PlanOf(l, layer, p, |keys|, |values|, |slots|) && |before| == |after| == l.totalByteLen
    requires K.RowsAt(p, after, keys, values, slots)
    requires forall x: nat :: x < |before| && !K.Addressed(p, slots, x) ==> after[x] == before[x]
    ensures RowsPut(l, layer, p, before, after, keys, values, slots)
  {
    forall i: nat, t: nat | i < p.rowCount && t < 2 && slots[i] < l.slotCount
      ensures RowIn(l, after, layer, t, slots[i]) == DenseRow(p, keys, values, t, i)
    {
      RowWritten(l, layer, p, after, keys, values, slots, t, i);
    }
    forall a: nat, t: nat, s: nat | Untouched(l, layer, p, slots, a, t, s)
      ensures RowIn(l, after, a, t, s) == RowIn(l, before, a, t, s)
    {
      RowKept(l, layer, p, before, after, slots, a, t, s);
    }
  }

  /** The buffers hold the rows the strides spread over them. */
  ghost predicate BuffersHold(l: Layout, rows: nat, keyStride: nat, valueStride: nat, keys: nat, values: nat) {
    rows > 0 ==>
      (rows - 1) * keyStride + TokenBytes(l, 0) <= keys && (rows - 1) * valueStride + TokenBytes(l, 0) <= values
  }

  /**
   * Scattering through the plan of a layer, in any thread order, puts the buffers' rows at the listed slots of that
   * layer and leaves every other row of the layout as it was.
   */
  method ScatterRows(l: Layout, layer: nat, keyStride: nat, valueStride: nat, rows: nat, keys: seq<Byte>,
                     values: seq<Byte>, slots: seq<nat>, pool: array<Byte>)
    returns (r: Result<bool, PlanError>, ghost p: K.Plan)
    requires Nested(l) && l.pageCount > 0 && pool.Length == l.totalByteLen && rows <= |slots| && NoDup(slots[..rows])
    requires BuffersHold(l, rows, keyStride, valueStride, |keys|, |values|)
    modifies pool
    ensures r.Ok? <==> KvPairCopyGeometry(l, layer).Ok? && RowsFit(rows, TokenBytes(l, 0), keyStride, valueStride)
    ensures r.Err? ==> pool[..] == old(pool[..])
    ensures r.Ok? ==> (r.value <==> exists i :: 0 <= i < rows && slots[i] >= l.slotCount)
    ensures r.Ok? ==> PlanFor(l, layer, rows, keyStride, valueStride) == Ok(p) && p.rowCount == rows
    ensures r.Ok? ==>
              PlanOf(l, layer, p, |keys|, |values|, |slots|)
              && RowsPut(l, layer, p, old(pool[..]), pool[..], keys, values, slots)
  {
    p := *;
    if KvPairCopyGeometry(l, layer).Err? {
      return Err(Geometry(KvPairCopyGeometry(l, layer).error)), p;
    }
    PlanForIff(l, layer, rows, keyStride, valueStride);
    var plan := PlanFor(l, layer, rows, keyStride, valueStride);
    if plan.Err? {
      return Err(plan.error), p;
    }
    p := plan.value;
    PlanSound(l, layer, rows, keyStride, valueStride, plan.value);
    var error := K.Scatter(plan.value, keys, values, slots, pool);
    AllRowsPut(l, layer, plan.value, old(pool[..]), pool[..], keys, values, slots);
    return Ok(error), p;
  }

  lemma PlanSound(l: Layout, layer: nat, rows: nat, keyStride: nat, valueStride: nat, p: K.Plan)
    requires Nested(l) && l.pageCount > 0 && PlanFor(l, layer, rows, keyStride, valueStride) == Ok(p)
    ensures K.Sound(p) && p.rowCount == rows && p.slotCount == l.slotCount && p.keyStride == keyStride
            && p.valueStride == valueStride
    ensures p.layout == CopyLayoutOf(KvPairCopyGeometry(l, layer).value) && p.layout.rowBytes == TokenBytes(l, 0)
            && p.poolRequired <= l.totalByteLen
    ensures layer < l.runtime.numLayers && 2 <= l.runtime.kvTensorsPerToken
  {
    PlanFields(rows, l.slotCount, CopyLayoutOf(KvPairCopyGeometry(l, layer).value), keyStride, valueStride, p);
    K.AcceptedSound(p);
    Regions(l, layer);
    PoolFits(l, layer);
    PoolRequiredIs(p);
  }

  lemma PlanFields(rows: nat, slots: nat, c: K.CopyLayout, keyStride: nat, valueStride: nat, p: K.Plan)
    requires K.NewPlan(rows, slots, c, keyStride, valueStride) == Ok(p)
    ensures p.rowCount == rows && p.slotCount == slots && p.layout == c
    ensures p.keyStride == keyStride && p.valueStride == valueStride
  {
  }

  lemma PoolRequiredIs(p: K.Plan)
    requires K.Sound(p) && p.layout.keyOffset <= p.layout.valueOffset
    ensures p.poolRequired == p.layout.rowBytes + PagedAddress(
              p.layout.pageSize, p.layout.pageStride, p.layout.valueOffset, p.layout.rowBytes, p.slotCount - 1)
  {
  }
}
