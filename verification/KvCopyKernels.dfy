/** The scatter and gather kernels of `cuda_kv_kernels.rs`, run as their threads in an arbitrary order. */
module KvCopyKernels {
  import opened Basics
  import opened KernelLaunch
  import opened KvStorage

  const BLOCK_SIZE := 256
  const SLOT_INDEX_BYTES := 8

  datatype CopyLayout = CopyLayout(pageSize: nat, pageStride: nat, keyOffset: nat, valueOffset: nat, rowBytes: nat)

  datatype Plan = Plan(
    rowCount: nat, slotCount: nat, layout: CopyLayout, keyStride: nat, valueStride: nat,
    keyRequired: nat, valueRequired: nat, slotsRequired: nat, poolRequired: nat, grid: nat)

  datatype CopyError =
    | ZeroDimension
    | ShapeOverflow
    | DimensionTooLarge(value: nat)
    | RowStrideTooSmall(rowBytes: nat, stride: nat)
    | TensorPageRegionOutOfBounds(offset: nat, bytes: nat, stride: nat)
    | TensorPageRegionsOverlap(keyOffset: nat, valueOffset: nat, bytes: nat)

  function PageRegionEnd(offset: nat, bytes: nat, stride: nat): Result<nat, CopyError> {
    var end :- CheckedAdd(offset, bytes).OkOr(ShapeOverflow);
    if end > stride then Err(TensorPageRegionOutOfBounds(offset, bytes, stride)) else Ok(end)
  }

  function StridedRowsRequired(rows: nat, stride: nat, rowBytes: nat): Result<nat, CopyError>
    requires rows > 0
  {
    var offset :- CheckedMul(rows - 1, stride).OkOr(ShapeOverflow);
    CheckedAdd(offset, rowBytes).OkOr(ShapeOverflow)
  }

  /** `pool_required_bytes`: the end of the last slot's row in whichever tensor lies higher in its page. */
  function PoolRequired(slotCount: nat, l: CopyLayout, pageBytes: nat, tensorEnd: nat): Result<nat, CopyError>
    requires slotCount > 0 && l.pageSize > 0 && pageBytes <= tensorEnd
  {
    var last := slotCount - 1;
    var page :- CheckedMul(Quot(last, l.pageSize), l.pageStride).OkOr(ShapeOverflow);
    var token :- CheckedMul(Rem(last, l.pageSize), l.rowBytes).OkOr(ShapeOverflow);
    var row :- CheckedAdd(tensorEnd - pageBytes, token).OkOr(ShapeOverflow);
    var end :- CheckedAdd(row, l.rowBytes).OkOr(ShapeOverflow);
    CheckedAdd(page, end).OkOr(ShapeOverflow)
  }

  function NewPlan(rows: nat, slots: nat, l: CopyLayout, keyStride: nat, valueStride: nat): Result<Plan, CopyError> {
    if rows == 0 || slots == 0 || l.pageSize == 0 || l.pageStride == 0 || l.rowBytes == 0 then Err(ZeroDimension)
    else if keyStride < l.rowBytes then Err(RowStrideTooSmall(l.rowBytes, keyStride))
    else if valueStride < l.rowBytes then Err(RowStrideTooSmall(l.rowBytes, valueStride))
    else
      var pageBytes :- CheckedMul(l.pageSize, l.rowBytes).OkOr(ShapeOverflow);
      var keyEnd :- PageRegionEnd(l.keyOffset, pageBytes, l.pageStride);
      var valueEnd :- PageRegionEnd(l.valueOffset, pageBytes, l.pageStride);
      if l.keyOffset < valueEnd && l.valueOffset < keyEnd then
        Err(TensorPageRegionsOverlap(l.keyOffset, l.valueOffset, pageBytes))
      else
        var keyRows :- StridedRowsRequired(rows, keyStride, l.rowBytes);
        var valueRows :- StridedRowsRequired(rows, valueStride, l.rowBytes);
        var slotBytes :- CheckedMul(rows, SLOT_INDEX_BYTES).OkOr(ShapeOverflow);
        var pool :- PoolRequired(slots, l, pageBytes, Max(keyEnd, valueEnd));
        var plane :- CheckedMul(rows, l.rowBytes).OkOr(ShapeOverflow);
        var threads :- CheckedMul(plane, 2).OkOr(ShapeOverflow);
        var padded :- CheckedAdd(threads, BLOCK_SIZE - 1).OkOr(ShapeOverflow);
        var grid := padded / BLOCK_SIZE;
        if grid > U32_MAX then Err(DimensionTooLarge(grid))
        else Ok(Plan(rows, slots, l, keyStride, valueStride, keyRows, valueRows, slotBytes, pool, grid))
  }

  /** The plan is one `new` returned. */
  ghost predicate Accepted(p: Plan) {
    NewPlan(p.rowCount, p.slotCount, p.layout, p.keyStride, p.valueStride) == Ok(p)
  }

  /** What acceptance means for the addresses: positive sizes, disjoint regions inside a page, enough threads. */
  ghost predicate Sound(p: Plan) {
    var l := p.layout;
    && p.rowCount > 0 && p.slotCount > 0 && l.pageSize > 0 && l.rowBytes > 0
    && l.rowBytes <= p.keyStride && l.rowBytes <= p.valueStride
    && l.keyOffset + l.pageSize * l.rowBytes <= l.pageStride
    && l.valueOffset + l.pageSize * l.rowBytes <= l.pageStride
    && (l.keyOffset + l.pageSize * l.rowBytes <= l.valueOffset
        || l.valueOffset + l.pageSize * l.rowBytes <= l.keyOffset)
    && p.keyRequired == (p.rowCount - 1) * p.keyStride + l.rowBytes
    && p.valueRequired == (p.rowCount - 1) * p.valueStride + l.rowBytes
    && p.poolRequired == Quot(p.slotCount - 1, l.pageSize) * l.pageStride + Max(l.keyOffset, l.valueOffset)
                         + Rem(p.slotCount - 1, l.pageSize) * l.rowBytes + l.rowBytes
    && p.grid * BLOCK_SIZE >= 2 * (p.rowCount * l.rowBytes)
  }

  /** One index of eight bytes per row, and just enough blocks of 256 threads for the bytes of both tensors. */
  lemma LaunchExact(p: Plan)
    requires Accepted(p)
    ensures p.slotsRequired == 8 * p.rowCount
    ensures p.grid * 256 - 256 < 2 * (p.rowCount * p.layout.rowBytes) <= p.grid * 256
  {
    AcceptedSound(p);
    var threads := p.rowCount * p.layout.rowBytes * 2;
    DivModSplit(threads + 255, 256);
  }

  lemma AcceptedSound(p: Plan)
    requires Accepted(p)
    ensures Sound(p)
  {
  }

  /** Where the last slot's row of a tensor ends. */
  function LastRowEnd(l: CopyLayout, offset: nat, slots: nat): nat
    requires l.pageSize > 0 && slots > 0
  {
    PagedAddress(l.pageSize, l.pageStride, offset, l.rowBytes, slots - 1) + l.rowBytes
  }

  /** Two regions within a page that do not meet, and rows, pool and launch of expressible size. */
  ghost predicate PlanFits(rows: nat, slots: nat, l: CopyLayout, keyStride: nat, valueStride: nat) {
    && rows > 0 && slots > 0 && l.pageSize > 0 && l.pageStride > 0 && 0 < l.rowBytes <= keyStride
    && l.rowBytes <= valueStride
    && l.keyOffset + l.pageSize * l.rowBytes <= l.pageStride
    && l.valueOffset + l.pageSize * l.rowBytes <= l.pageStride
    && (l.keyOffset + l.pageSize * l.rowBytes <= l.valueOffset
        || l.valueOffset + l.pageSize * l.rowBytes <= l.keyOffset)
    && (rows - 1) * keyStride + l.rowBytes <= USIZE_MAX && (rows - 1) * valueStride + l.rowBytes <= USIZE_MAX
    && LastRowEnd(l, l.keyOffset, slots) <= USIZE_MAX && LastRowEnd(l, l.valueOffset, slots) <= USIZE_MAX
    && 2 * (rows * l.rowBytes) <= U32_MAX * 256
  }

  /** With a page stride of one machine word, a plan is accepted exactly when its numbers fit. */
  lemma AcceptedIff(rows: nat, slots: nat, l: CopyLayout, keyStride: nat, valueStride: nat)
    requires l.pageStride <= USIZE_MAX
    ensures NewPlan(rows, slots, l, keyStride, valueStride).Ok? <==> PlanFits(rows, slots, l, keyStride, valueStride)
  {
    var threads := rows * l.rowBytes * 2;
    DivModSplit(threads + 255, 256);
    if PlanFits(rows, slots, l, keyStride, valueStride) {
      MulPos(rows, l.rowBytes);
      PoolFits(l, slots);
    }
  }

  lemma PoolFits(l: CopyLayout, slots: nat)
    requires l.pageSize > 0 && slots > 0
    requires LastRowEnd(l, l.keyOffset, slots) <= USIZE_MAX && LastRowEnd(l, l.valueOffset, slots) <= USIZE_MAX
    ensures var pageBytes := l.pageSize * l.rowBytes;
            PoolRequired(slots, l, pageBytes, Max(l.keyOffset + pageBytes, l.valueOffset + pageBytes)).Ok?
  {
    MulLe(0, Rem(slots - 1, l.pageSize), l.rowBytes);
    MulLe(0, Quot(slots - 1, l.pageSize), l.pageStride);
  }

  /** Why a plan is rejected, in order of the checks. */
  lemma PlanErrors(rows: nat, slots: nat, l: CopyLayout, keyStride: nat, valueStride: nat)
    ensures rows == 0 || slots == 0 || l.pageSize == 0 || l.pageStride == 0 || l.rowBytes == 0 ==>
              NewPlan(rows, slots, l, keyStride, valueStride) == Err(ZeroDimension)
    ensures rows > 0 && slots > 0 && l.pageSize > 0 && l.pageStride > 0 && keyStride < l.rowBytes ==>
              NewPlan(rows, slots, l, keyStride, valueStride) == Err(RowStrideTooSmall(l.rowBytes, keyStride))
    ensures rows > 0 && slots > 0 && l.pageSize > 0 && l.pageStride > 0 && valueStride < l.rowBytes <= keyStride ==>
              NewPlan(rows, slots, l, keyStride, valueStride) == Err(RowStrideTooSmall(l.rowBytes, valueStride))
    ensures NewPlan(rows, slots, l, keyStride, valueStride).Err?
            && NewPlan(rows, slots, l, keyStride, valueStride).error.TensorPageRegionsOverlap? ==>
              NewPlan(rows, slots, l, keyStride, valueStride)
              == Err(TensorPageRegionsOverlap(l.keyOffset, l.valueOffset, l.pageSize * l.rowBytes))
  {
  }

  // ---------- one thread ----------

  /** The byte a thread works on. */
  datatype Item = Item(isValue: bool, row: nat, byte: nat)

  function Plane(p: Plan): nat {
    p.rowCount * p.layout.rowBytes
  }

  function ItemOf(p: Plan, index: nat): Item
    requires p.layout.rowBytes > 0
  {
    var isValue := index >= Plane(p);
    var inPlane := if isValue then index - Plane(p) else index;
    Item(isValue, Quot(inPlane, p.layout.rowBytes), Rem(inPlane, p.layout.rowBytes))
  }

  /** Where a byte of a slot's row lives in the pool. */
  function PoolAddress(p: Plan, isValue: bool, slot: nat, byte: nat): nat
    requires p.layout.pageSize > 0
  {
    PagedAddress(p.layout.pageSize, p.layout.pageStride, if isValue then p.layout.valueOffset else p.layout.keyOffset,
                 p.layout.rowBytes, slot) + byte
  }

  /** Where a byte of a row lives in the dense row buffer. */
  function RowAddress(p: Plan, it: Item): nat {
    it.row * (if it.isValue then p.valueStride else p.keyStride) + it.byte
  }

  ghost predicate ValidItem(p: Plan, it: Item) {
    it.row < p.rowCount && it.byte < p.layout.rowBytes
  }

  lemma ItemInRange(p: Plan, index: nat)
    requires Sound(p) && index < 2 * Plane(p)
    ensures ValidItem(p, ItemOf(p, index))
  {
    QuotBelow(if index >= Plane(p) then index - Plane(p) else index, p.layout.rowBytes, p.rowCount);
  }

  /** The thread responsible for an item. */
  ghost function ThreadOf(p: Plan, it: Item): nat {
    (if it.isValue then Plane(p) else 0) + it.row * p.layout.rowBytes + it.byte
  }

  lemma ThreadOfItem(p: Plan, it: Item)
    requires Sound(p) && ValidItem(p, it)
    ensures ThreadOf(p, it) < 2 * Plane(p) && ItemOf(p, ThreadOf(p, it)) == it
  {
    var inPlane := it.row * p.layout.rowBytes + it.byte;
    DigitBound(it.row, it.byte, p.layout.rowBytes, p.rowCount);
    assert inPlane < Plane(p);
    QuotRemUnique(inPlane, p.layout.rowBytes, it.row, it.byte);
  }

  lemma ItemsDistinct(p: Plan, i: nat, j: nat)
    requires Sound(p) && i < j < 2 * Plane(p)
    ensures ItemOf(p, i) != ItemOf(p, j)
  {
  }

  // ---------- bounds and disjointness ----------

  lemma InPage(p: Plan, isValue: bool, slot: nat, byte: nat)
    requires Sound(p) && byte < p.layout.rowBytes
    ensures var l := p.layout;
            var off := if isValue then l.valueOffset else l.keyOffset;
            off <= off + Rem(slot, l.pageSize) * l.rowBytes + byte < off + l.pageSize * l.rowBytes <= l.pageStride
  {
    DigitBound(Rem(slot, p.layout.pageSize), byte, p.layout.rowBytes, p.layout.pageSize);
  }

  /** Every access to an in-range slot lies below `pool_required_bytes`. */
  lemma PoolBound(p: Plan, isValue: bool, slot: nat, byte: nat)
    requires Sound(p) && slot < p.slotCount && byte < p.layout.rowBytes
    ensures PoolAddress(p, isValue, slot, byte) < p.poolRequired
  {
    var l := p.layout;
    PagedMonotone(l.pageSize, l.pageStride, if isValue then l.valueOffset else l.keyOffset, l.rowBytes, slot,
                  p.slotCount - 1);
  }

  /** The bound is tight: the last byte of the last slot's row in the higher tensor is the last required byte. */
  lemma PoolBoundTight(p: Plan)
    requires Sound(p)
    ensures PoolAddress(p, p.layout.keyOffset <= p.layout.valueOffset, p.slotCount - 1, p.layout.rowBytes - 1)
         == p.poolRequired - 1
  {
  }

  lemma RowBound(p: Plan, it: Item)
    requires Sound(p) && ValidItem(p, it)
    ensures RowAddress(p, it) < if it.isValue then p.valueRequired else p.keyRequired
  {
    MulLe(it.row, p.rowCount - 1, if it.isValue then p.valueStride else p.keyStride);
  }

  /** Pool bytes of different (tensor, slot, byte) triples are different. */
  lemma PoolInjective(p: Plan, v: bool, slot: nat, byte: nat, v': bool, slot': nat, byte': nat)
    requires Sound(p) && byte < p.layout.rowBytes && byte' < p.layout.rowBytes
    requires PoolAddress(p, v, slot, byte) == PoolAddress(p, v', slot', byte')
    ensures v == v' && slot == slot' && byte == byte'
  {
    var l := p.layout;
    var off, off' := if v then l.valueOffset else l.keyOffset, if v' then l.valueOffset else l.keyOffset;
    var rest, rest' :=
      off + Rem(slot, l.pageSize) * l.rowBytes + byte, off' + Rem(slot', l.pageSize) * l.rowBytes + byte';
    InPage(p, v, slot, byte);
    InPage(p, v', slot', byte');
    QuotRemUnique(PoolAddress(p, v, slot, byte), l.pageStride, Quot(slot, l.pageSize), rest);
    QuotRemUnique(PoolAddress(p, v', slot', byte'), l.pageStride, Quot(slot', l.pageSize), rest');
    assert rest == rest' && v == v';
    QuotRemUnique(rest - off, l.rowBytes, Rem(slot, l.pageSize), byte);
    QuotRemUnique(rest' - off', l.rowBytes, Rem(slot', l.pageSize), byte');
  }

  lemma RowInjective(p: Plan, a: Item, b: Item)
    requires Sound(p) && ValidItem(p, a) && ValidItem(p, b) && a.isValue == b.isValue
    requires RowAddress(p, a) == RowAddress(p, b)
    ensures a == b
  {
    var stride := if a.isValue then p.valueStride else p.keyStride;
    QuotRemUnique(RowAddress(p, a), stride, a.row, a.byte);
    QuotRemUnique(RowAddress(p, b), stride, b.row, b.byte);
  }

  // ---------- scatter ----------

  ghost predicate RowBuffers(p: Plan, keys: int, values: int, slots: int) {
    p.keyRequired <= keys && p.valueRequired <= values && p.rowCount <= slots
  }

  function ScatterThread(p: Plan, keys: seq<Byte>, values: seq<Byte>, slots: seq<nat>, index: nat): Effect<Byte>
    requires Sound(p) && RowBuffers(p, |keys|, |values|, |slots|)
  {
    if index >= 2 * Plane(p) then Skip else
    var it := ItemOf(p, index);
    ItemInRange(p, index);
    RowBound(p, it);
    var slot := slots[it.row];
    if slot >= p.slotCount then Flag
    else Store(false, PoolAddress(p, it.isValue, slot, it.byte),
               if it.isValue then values[RowAddress(p, it)] else keys[RowAddress(p, it)])
  }

  lemma ScatterRaceFree(p: Plan, keys: seq<Byte>, values: seq<Byte>, slots: seq<nat>, i: nat, j: nat)
    requires Sound(p) && RowBuffers(p, |keys|, |values|, |slots|) && NoDup(slots[..p.rowCount]) && i < j
    requires ScatterThread(p, keys, values, slots, i).Store? && ScatterThread(p, keys, values, slots, j).Store?
    ensures ScatterThread(p, keys, values, slots, i).addr != ScatterThread(p, keys, values, slots, j).addr
  {
    var a, b := ItemOf(p, i), ItemOf(p, j);
    ItemInRange(p, i);
    ItemInRange(p, j);
    ItemsDistinct(p, i, j);
    if PoolAddress(p, a.isValue, slots[a.row], a.byte) == PoolAddress(p, b.isValue, slots[b.row], b.byte) {
      PoolInjective(p, a.isValue, slots[a.row], a.byte, b.isValue, slots[b.row], b.byte);
      SameRow(slots, p.rowCount, a.row, b.row);
    }
  }

  lemma SameRow(slots: seq<nat>, rows: nat, a: nat, b: nat)
    requires rows <= |slots| && NoDup(slots[..rows]) && a < rows && b < rows && slots[a] == slots[b]
    ensures a == b
  {
    assert slots[..rows][a] == slots[..rows][b];
  }

  /** The pool holds the given rows at the given slots. */
  ghost predicate RowsAt(p: Plan, pool: seq<Byte>, keys: seq<Byte>, values: seq<Byte>, slots: seq<nat>)
    requires Sound(p) && RowBuffers(p, |keys|, |values|, |slots|) && p.poolRequired <= |pool|
  {
    forall it :: ValidItem(p, it) && slots[it.row] < p.slotCount ==> ByteAt(p, pool, keys, values, slots, it)
  }

  ghost predicate ByteAt(p: Plan, pool: seq<Byte>, keys: seq<Byte>, values: seq<Byte>, slots: seq<nat>, it: Item)
    requires Sound(p) && RowBuffers(p, |keys|, |values|, |slots|) && p.poolRequired <= |pool|
    requires ValidItem(p, it) && slots[it.row] < p.slotCount
  {
    PoolBound(p, it.isValue, slots[it.row], it.byte);
    RowBound(p, it);
    pool[PoolAddress(p, it.isValue, slots[it.row], it.byte)]
    == if it.isValue then values[RowAddress(p, it)] else keys[RowAddress(p, it)]
  }

  /** The pool address belongs to a row of some listed slot. */
  ghost predicate Addressed(p: Plan, slots: seq<nat>, x: nat)
    requires Sound(p) && p.rowCount <= |slots|
  {
    exists it ::
      ValidItem(p, it) && slots[it.row] < p.slotCount && PoolAddress(p, it.isValue, slots[it.row], it.byte) == x
  }

  function ScatterKernel(p: Plan, keys: seq<Byte>, values: seq<Byte>, slots: seq<nat>): (k: nat --> Effect<Byte>)
    requires Sound(p) && RowBuffers(p, |keys|, |values|, |slots|)
    ensures forall i: nat :: k.requires(i) && k(i) == ScatterThread(p, keys, values, slots, i)
  {
    (i: nat) requires Sound(p) && RowBuffers(p, |keys|, |values|, |slots|) => ScatterThread(p, keys, values, slots, i)
  }

  lemma ScatterLaunchable(p: Plan, keys: seq<Byte>, values: seq<Byte>, slots: seq<nat>, n: nat, pool: nat, other: nat)
    requires Sound(p) && RowBuffers(p, |keys|, |values|, |slots|) && NoDup(slots[..p.rowCount])
             && p.poolRequired <= pool
    ensures RaceFree(n, ScatterKernel(p, keys, values, slots))
    ensures InBounds(n, ScatterKernel(p, keys, values, slots), pool, other)
  {
    var thread := ScatterKernel(p, keys, values, slots);
    forall i: nat, j: nat | i < j < n && thread(i).Store? && thread(j).Store?
      ensures thread(i).addr != thread(j).addr
    {
      ScatterRaceFree(p, keys, values, slots, i, j);
    }
    forall i: nat | i < n && thread(i).Store?
      ensures thread(i).addr < pool && !thread(i).second
    {
      ItemInRange(p, i);
      PoolBound(p, ItemOf(p, i).isValue, slots[ItemOf(p, i).row], ItemOf(p, i).byte);
    }
  }

  lemma ScatterStores(p: Plan, keys: seq<Byte>, values: seq<Byte>, slots: seq<nat>, it: Item)
    requires Sound(p) && RowBuffers(p, |keys|, |values|, |slots|) && ValidItem(p, it) && slots[it.row] < p.slotCount
    ensures RowAddress(p, it) < if it.isValue then |values| else |keys|
    ensures ThreadOf(p, it) < p.grid * BLOCK_SIZE
    ensures ScatterThread(p, keys, values, slots, ThreadOf(p, it))
         == Store(false, PoolAddress(p, it.isValue, slots[it.row], it.byte),
                  if it.isValue then values[RowAddress(p, it)] else keys[RowAddress(p, it)])
  {
    ThreadOfItem(p, it);
    RowBound(p, it);
  }

  lemma ScatterWritten(p: Plan, keys: seq<Byte>, values: seq<Byte>, slots: seq<nat>, n: nat, x: nat)
    requires Sound(p) && RowBuffers(p, |keys|, |values|, |slots|)
             && Written(n, ScatterKernel(p, keys, values, slots), false, x)
    ensures Addressed(p, slots, x)
  {
    var thread := ScatterKernel(p, keys, values, slots);
    var i: nat :| i < n && thread(i).Store? && thread(i).second == false && thread(i).addr == x;
    ItemInRange(p, i);
    var it := ItemOf(p, i);
    assert PoolAddress(p, it.isValue, slots[it.row], it.byte) == x;
  }

  /**
   * Scattering to distinct slots, in any thread order: every in-range row is stored, all other pool bytes are
   * kept, and the error flag is raised exactly when some slot is out of range.
   */
  method Scatter(p: Plan, keys: seq<Byte>, values: seq<Byte>, slots: seq<nat>, pool: array<Byte>) returns (error: bool)
    requires Sound(p) && RowBuffers(p, |keys|, |values|, |slots|) && p.poolRequired <= pool.Length
    requires NoDup(slots[..p.rowCount])
    modifies pool
    ensures error <==> exists r :: 0 <= r < p.rowCount && slots[r] >= p.slotCount
    ensures RowsAt(p, pool[..], keys, values, slots)
    ensures forall x: nat :: x < pool.Length && !Addressed(p, slots, x) ==> pool[x] == old(pool[x])
  {
    var n := p.grid * BLOCK_SIZE;
    var none := new Byte[0];
    ScatterLaunchable(p, keys, values, slots, n, pool.Length, 0);
    error := Launch(pool, none, n, ScatterKernel(p, keys, values, slots));
    ScatterFlag(p, keys, values, slots);
    forall it | ValidItem(p, it) && slots[it.row] < p.slotCount
      ensures ByteAt(p, pool[..], keys, values, slots, it)
    {
      ScatterStores(p, keys, values, slots, it);
    }
    forall x: nat | x < pool.Length && Written(n, ScatterKernel(p, keys, values, slots), false, x)
      ensures Addressed(p, slots, x)
    {
      ScatterWritten(p, keys, values, slots, n, x);
    }
  }

  lemma ScatterFlag(p: Plan, keys: seq<Byte>, values: seq<Byte>, slots: seq<nat>)
    requires Sound(p) && RowBuffers(p, |keys|, |values|, |slots|)
    ensures (exists i: nat :: i < p.grid * BLOCK_SIZE && ScatterThread(p, keys, values, slots, i).Flag?)
       <==> exists r :: 0 <= r < p.rowCount && slots[r] >= p.slotCount
  {
    if i: nat :| i < p.grid * BLOCK_SIZE && ScatterThread(p, keys, values, slots, i).Flag? {
      ItemInRange(p, i);
      assert slots[ItemOf(p, i).row] >= p.slotCount;
    }
    if r :| 0 <= r < p.rowCount && slots[r] >= p.slotCount {
      var it := Item(false, r, 0);
      ThreadOfItem(p, it);
      assert ScatterThread(p, keys, values, slots, ThreadOf(p, it)).Flag?;
    }
  }

  // ---------- gather ----------

  function GatherThread(p: Plan, pool: seq<Byte>, slots: seq<nat>, index: nat): Effect<Byte>
    requires Sound(p) && p.poolRequired <= |pool| && p.rowCount <= |slots|
  {
    if index >= 2 * Plane(p) then Skip else
    var it := ItemOf(p, index);
    ItemInRange(p, index);
    var slot := slots[it.row];
    if slot >= p.slotCount then Flag else
    PoolBound(p, it.isValue, slot, it.byte);
    Store(it.isValue, RowAddress(p, it), pool[PoolAddress(p, it.isValue, slot, it.byte)])
  }

  function GatherKernel(p: Plan, pool: seq<Byte>, slots: seq<nat>): (k: nat --> Effect<Byte>)
    requires Sound(p) && p.poolRequired <= |pool| && p.rowCount <= |slots|
    ensures forall i: nat :: k.requires(i) && k(i) == GatherThread(p, pool, slots, i)
  {
    (i: nat) requires Sound(p) && p.poolRequired <= |pool| && p.rowCount <= |slots| => GatherThread(p, pool, slots, i)
  }

  lemma GatherLaunchable(p: Plan, pool: seq<Byte>, slots: seq<nat>, n: nat, keys: nat, values: nat)
    requires Sound(p) && p.poolRequired <= |pool| && RowBuffers(p, keys, values, |slots|)
    ensures RaceFree(n, GatherKernel(p, pool, slots)) && InBounds(n, GatherKernel(p, pool, slots), keys, values)
  {
    var thread := GatherKernel(p, pool, slots);
    forall i: nat, j: nat | i < j < n && thread(i).Store? && thread(j).Store? && thread(i).second == thread(j).second
      ensures thread(i).addr != thread(j).addr
    {
      GatherRaceFree(p, pool, slots, i, j);
    }
    forall i: nat | i < n && thread(i).Store?
      ensures thread(i).addr < if thread(i).second then values else keys
    {
      ItemInRange(p, i);
      RowBound(p, ItemOf(p, i));
    }
  }

  lemma GatherRaceFree(p: Plan, pool: seq<Byte>, slots: seq<nat>, i: nat, j: nat)
    requires Sound(p) && p.poolRequired <= |pool| && p.rowCount <= |slots| && i < j
    requires GatherThread(p, pool, slots, i).Store? && GatherThread(p, pool, slots, j).Store?
    requires GatherThread(p, pool, slots, i).second == GatherThread(p, pool, slots, j).second
    ensures GatherThread(p, pool, slots, i).addr != GatherThread(p, pool, slots, j).addr
  {
    ItemInRange(p, i);
    ItemInRange(p, j);
    ItemsDistinct(p, i, j);
    if RowAddress(p, ItemOf(p, i)) == RowAddress(p, ItemOf(p, j)) {
      RowInjective(p, ItemOf(p, i), ItemOf(p, j));
    }
  }

  lemma GatherStores(p: Plan, pool: seq<Byte>, slots: seq<nat>, it: Item)
    requires Sound(p) && p.poolRequired <= |pool| && p.rowCount <= |slots| && ValidItem(p, it)
             && slots[it.row] < p.slotCount
    ensures PoolAddress(p, it.isValue, slots[it.row], it.byte) < |pool|
    ensures ThreadOf(p, it) < p.grid * BLOCK_SIZE
    ensures GatherThread(p, pool, slots, ThreadOf(p, it))
         == Store(it.isValue, RowAddress(p, it), pool[PoolAddress(p, it.isValue, slots[it.row], it.byte)])
  {
    ThreadOfItem(p, it);
    PoolBound(p, it.isValue, slots[it.row], it.byte);
  }

  lemma GatherFlag(p: Plan, pool: seq<Byte>, slots: seq<nat>)
    requires Sound(p) && p.poolRequired <= |pool| && p.rowCount <= |slots|
    ensures (exists i: nat :: i < p.grid * BLOCK_SIZE && GatherThread(p, pool, slots, i).Flag?)
       <==> exists r :: 0 <= r < p.rowCount && slots[r] >= p.slotCount
  {
    if i: nat :| i < p.grid * BLOCK_SIZE && GatherThread(p, pool, slots, i).Flag? {
      ItemInRange(p, i);
      assert slots[ItemOf(p, i).row] >= p.slotCount;
    }
    if r :| 0 <= r < p.rowCount && slots[r] >= p.slotCount {
      var it := Item(false, r, 0);
      ThreadOfItem(p, it);
      assert GatherThread(p, pool, slots, ThreadOf(p, it)).Flag?;
    }
  }

  /** Gathering, in any thread order, fills the row buffers with the rows the pool holds at the listed slots. */
  method Gather(p: Plan, pool: seq<Byte>, slots: seq<nat>, keys: array<Byte>, values: array<Byte>) returns (error: bool)
    requires Sound(p) && p.poolRequired <= |pool| && RowBuffers(p, keys.Length, values.Length, |slots|)
             && keys != values
    modifies keys, values
    ensures error <==> exists r :: 0 <= r < p.rowCount && slots[r] >= p.slotCount
    ensures RowsAt(p, pool, keys[..], values[..], slots)
    ensures forall x: nat :: x < keys.Length && !InRow(p, slots, false, x) ==> keys[x] == old(keys[x])
    ensures forall x: nat :: x < values.Length && !InRow(p, slots, true, x) ==> values[x] == old(values[x])
  {
    var n := p.grid * BLOCK_SIZE;
    GatherLaunchable(p, pool, slots, n, keys.Length, values.Length);
    error := Launch(keys, values, n, GatherKernel(p, pool, slots));
    GatherFlag(p, pool, slots);
    forall it | ValidItem(p, it) && slots[it.row] < p.slotCount
      ensures ByteAt(p, pool, keys[..], values[..], slots, it)
    {
      GatherStores(p, pool, slots, it);
      RowBound(p, it);
    }
    forall isValue, x: nat | Written(n, GatherKernel(p, pool, slots), isValue, x)
      ensures InRow(p, slots, isValue, x)
    {
      GatherWritten(p, pool, slots, n, isValue, x);
    }
  }

  /** The byte of a row buffer belongs to the row of some listed slot. */
  ghost predicate InRow(p: Plan, slots: seq<nat>, isValue: bool, x: nat)
    requires Sound(p) && p.rowCount <= |slots|
  {
    exists it :: ValidItem(p, it) && it.isValue == isValue && slots[it.row] < p.slotCount && RowAddress(p, it) == x
  }

  lemma GatherWritten(p: Plan, pool: seq<Byte>, slots: seq<nat>, n: nat, isValue: bool, x: nat)
    requires Sound(p) && p.poolRequired <= |pool| && p.rowCount <= |slots|
             && Written(n, GatherKernel(p, pool, slots), isValue, x)
    ensures InRow(p, slots, isValue, x)
  {
    var thread := GatherKernel(p, pool, slots);
    var i: nat :| i < n && thread(i).Store? && thread(i).second == isValue && thread(i).addr == x;
    ItemInRange(p, i);
    assert RowAddress(p, ItemOf(p, i)) == x;
  }

  // ---------- what the two kernels mean together ----------

  /** Pools that hold the same rows and agree elsewhere are equal: the scatter result is unique. */
  lemma ScatterDeterminesPool(p: Plan, before: seq<Byte>, a: seq<Byte>, b: seq<Byte>, keys: seq<Byte>,
                              values: seq<Byte>, slots: seq<nat>)
    requires Sound(p) && RowBuffers(p, |keys|, |values|, |slots|) && p.poolRequired <= |before| == |a| == |b|
    requires RowsAt(p, a, keys, values, slots) && RowsAt(p, b, keys, values, slots)
    requires forall x: nat :: x < |before| && !Addressed(p, slots, x) ==> a[x] == before[x] && b[x] == before[x]
    ensures a == b
  {
    forall x: nat | x < |a|
      ensures a[x] == b[x]
    {
      if Addressed(p, slots, x) {
        var it :| ValidItem(p, it) && slots[it.row] < p.slotCount
            && PoolAddress(p, it.isValue, slots[it.row], it.byte) == x;
        assert ByteAt(p, a, keys, values, slots, it) && ByteAt(p, b, keys, values, slots, it);
      }
    }
  }

  /** Gathering what was scattered returns the rows, whatever the schedules of the two launches. */
  lemma GatherAfterScatter(p: Plan, pool: seq<Byte>, keys: seq<Byte>, values: seq<Byte>, keys': seq<Byte>,
                           values': seq<Byte>, slots: seq<nat>, it: Item)
    requires Sound(p) && RowBuffers(p, |keys|, |values|, |slots|) && RowBuffers(p, |keys'|, |values'|, |slots|)
             && p.poolRequired <= |pool|
    requires RowsAt(p, pool, keys, values, slots) && RowsAt(p, pool, keys', values', slots)
    requires ValidItem(p, it) && slots[it.row] < p.slotCount
    ensures RowAddress(p, it) < if it.isValue then Min(|values|, |values'|) else Min(|keys|, |keys'|)
    ensures if it.isValue then values'[RowAddress(p, it)] == values[RowAddress(p, it)]
            else keys'[RowAddress(p, it)] == keys[RowAddress(p, it)]
  {
    RowBound(p, it);
    assert ByteAt(p, pool, keys, values, slots, it) && ByteAt(p, pool, keys', values', slots, it);
  }

  method ScatterThenGather(p: Plan, keys: seq<Byte>, values: seq<Byte>, slots: seq<nat>, pool: array<Byte>,
                           keys': array<Byte>, values': array<Byte>)
    returns (error: bool)
    requires Sound(p) && RowBuffers(p, |keys|, |values|, |slots|)
             && RowBuffers(p, keys'.Length, values'.Length, |slots|)
    requires p.poolRequired <= pool.Length && NoDup(slots[..p.rowCount])
    requires keys' != values' && pool != keys' && pool != values'
    requires forall r :: 0 <= r < p.rowCount ==> slots[r] < p.slotCount
    modifies pool, keys', values'
    ensures !error
    ensures forall it :: ValidItem(p, it) ==>
              RowAddress(p, it) < (if it.isValue then Min(|values|, values'.Length) else Min(|keys|, keys'.Length))
              && if it.isValue then values'[RowAddress(p, it)] == values[RowAddress(p, it)]
                 else keys'[RowAddress(p, it)] == keys[RowAddress(p, it)]
  {
    var scatterError := Scatter(p, keys, values, slots, pool);
    error := Gather(p, pool[..], slots, keys', values');
    forall it | ValidItem(p, it)
      ensures RowAddress(p, it) < if it.isValue then Min(|values|, values'.Length) else Min(|keys|, keys'.Length)
      ensures if it.isValue then values'[RowAddress(p, it)] == values[RowAddress(p, it)]
              else keys'[RowAddress(p, it)] == keys[RowAddress(p, it)]
    {
      GatherAfterScatter(p, pool[..], keys, values, keys'[..], values'[..], slots, it);
    }
  }
}
