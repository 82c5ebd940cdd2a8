/** The paged KV slot allocator of `cache.rs`: a free list of pages, tail-slot reuse and release. */
module PageAllocator {
  import opened Basics

  datatype AllocationError =
    | ZeroPageSize
    | ZeroSlotCapacity
    | SlotCapacityNotPageAligned(slotCapacity: nat, pageSize: nat)
    | OutOfSlots(requested: nat, available: nat)

  /** The value of an allocator: capacity and page size are fixed, the free list is ordered. */
  datatype Pool = Pool(capacity: nat, pageSize: nat, free: seq<nat>, inUse: set<nat>) {

    /** Free and allocated pages partition the pool and no page is listed twice. */
    ghost predicate Valid() {
      && pageSize > 0
      && capacity % pageSize == 0
      && NoDup(free)
      && (forall p :: p in free ==> p !in inUse && p < capacity / pageSize)
      && (forall p :: p in inUse ==> p < capacity / pageSize)
      && (forall p: nat :: p < capacity / pageSize ==> p in free || p in inUse)
    }
  }

  /** The first `n` slots of the given pages, page after page. */
  function SlotsOf(pages: seq<nat>, n: nat, pageSize: nat): (slots: seq<nat>)
    requires pageSize > 0 && n <= |pages| * pageSize
  {
    seq(n, i requires 0 <= i < n => PageSlot(pages, i, pageSize))
  }

  function PageSlot(pages: seq<nat>, i: nat, pageSize: nat): nat
    requires pageSize > 0 && i < |pages| * pageSize
  {
    BlockInRange(i, |pages|, pageSize);
    pages[i / pageSize] * pageSize + i % pageSize
  }

  lemma BlockInRange(i: nat, count: nat, pageSize: nat)
    requires pageSize > 0 && i < count * pageSize
    ensures i / pageSize < count
  {
    if i / pageSize >= count {
      MulLe(count, i / pageSize, pageSize);
    }
  }

  /** Slots after the last one of a sequence that lie in the same, still allocated, page. */
  function TailSlots(p: Pool, sequence: seq<nat>): (t: nat)
    requires p.pageSize > 0
    ensures t < p.pageSize
  {
    if sequence == [] || sequence[|sequence| - 1] / p.pageSize !in p.inUse then 0
    else p.pageSize - sequence[|sequence| - 1] % p.pageSize - 1
  }

  function Pages(p: Pool, sequence: seq<nat>, n: nat): nat
    requires p.pageSize > 0
  {
    CeilDiv(n - Min(TailSlots(p, sequence), n), p.pageSize)
  }

  /** What `allocate_for_sequence` returns. */
  function Allocated(p: Pool, sequence: seq<nat>, n: nat): Result<seq<nat>, AllocationError>
    requires p.pageSize > 0
  {
    var reuse := Min(TailSlots(p, sequence), n);
    var need := Pages(p, sequence, n);
    if need > |p.free| then
      Err(OutOfSlots(n, reuse + |p.free| * p.pageSize))
    else
      CeilDivCovers(n - reuse, p.pageSize);
      Ok(TailRun(sequence, reuse) + SlotsOf(p.free[..need], n - reuse, p.pageSize))
  }

  /** The pool `allocate_for_sequence` leaves behind. */
  function AfterAllocate(p: Pool, sequence: seq<nat>, n: nat): Pool
    requires p.pageSize > 0
  {
    var need := Pages(p, sequence, n);
    if need > |p.free| then p
    else p.(free := p.free[need..], inUse := p.inUse + set x | x in p.free[..need])
  }

  function TailRun(sequence: seq<nat>, reuse: nat): seq<nat>
  {
    if sequence == [] then [] else seq(reuse, i requires 0 <= i => sequence[|sequence| - 1] + 1 + i)
  }

  lemma CeilDivCovers(n: nat, d: nat)
    requires d > 0
    ensures n <= CeilDiv(n, d) * d < n + d
  {
    DivModSplit(n + d - 1, d);
  }

  /** The pages `release` gives back, in the order their first slots are listed. */
  function Released(p: Pool, slots: seq<nat>): seq<nat>
    requires p.pageSize > 0
  {
    if slots == [] then [] else
    var before := Released(p, slots[..|slots| - 1]);
    var slot := slots[|slots| - 1];
    if slot < p.capacity && slot % p.pageSize == 0 && slot / p.pageSize in p.inUse && slot / p.pageSize !in before
    then before + [slot / p.pageSize]
    else before
  }

  function AfterRelease(p: Pool, slots: seq<nat>): Pool
    requires p.pageSize > 0
  {
    var back := Released(p, slots);
    p.(free := back + p.free, inUse := p.inUse - set x | x in back)
  }

  function FreshPool(capacity: nat, pageSize: nat): Pool
    requires pageSize > 0
  {
    Pool(capacity, pageSize, seq(capacity / pageSize, i requires 0 <= i => i), {})
  }

  class CachePageAllocator {
    const slotCapacity: nat
    const pageSize: nat
    var freePageIndices: seq<nat>
    var allocatedPageIndices: set<nat>

    function View(): Pool
      reads this
    {
      Pool(slotCapacity, pageSize, freePageIndices, allocatedPageIndices)
    }

    constructor (slotCapacity: nat, pageSize: nat)
      requires pageSize > 0
      ensures View() == FreshPool(slotCapacity, pageSize)
    {
      this.slotCapacity, this.pageSize := slotCapacity, pageSize;
      freePageIndices := seq(slotCapacity / pageSize, i requires 0 <= i => i);
      allocatedPageIndices := {};
    }

    static method WithPageSize(slotCapacity: nat, pageSize: nat)
      returns (r: Result<CachePageAllocator, AllocationError>)
      ensures r.Ok? <==> pageSize > 0 && slotCapacity > 0 && slotCapacity % pageSize == 0
      ensures r.Err? ==> r.error == if pageSize == 0 then ZeroPageSize else if slotCapacity == 0 then ZeroSlotCapacity
                                    else SlotCapacityNotPageAligned(slotCapacity, pageSize)
      ensures r.Ok? ==> fresh(r.value) && r.value.View() == FreshPool(slotCapacity, pageSize)
      ensures r.Ok? ==> r.value.View().Valid()
    {
      if pageSize == 0 {
        return Err(ZeroPageSize);
      }
      if slotCapacity == 0 {
        return Err(ZeroSlotCapacity);
      }
      if slotCapacity % pageSize != 0 {
        return Err(SlotCapacityNotPageAligned(slotCapacity, pageSize));
      }
      var allocator := new CachePageAllocator(slotCapacity, pageSize);
      FreshPoolValid(slotCapacity, pageSize);
      return Ok(allocator);
    }

    method AllocateForSequence(sequence: seq<nat>, slotCount: nat)
      returns (r: Result<seq<nat>, AllocationError>)
      requires pageSize > 0
      modifies this
      ensures r == Allocated(old(View()), sequence, slotCount)
      ensures View() == AfterAllocate(old(View()), sequence, slotCount)
    {
      if slotCount == 0 {
        NothingRequested(View(), sequence);
        return Ok([]);
      }
      var reusable := Min(TailSlots(View(), sequence), slotCount);
      var newSlotCount := slotCount - reusable;
      var required := CeilDiv(newSlotCount, pageSize);
      if required > |freePageIndices| {
        return Err(OutOfSlots(slotCount, reusable + |freePageIndices| * pageSize));
      }
      CeilDivCovers(newSlotCount, pageSize);
      var newSlots := TakePages(required, newSlotCount);
      return Ok(TailRun(sequence, reusable) + newSlots);
    }

    /** The page loop of `allocate_for_sequence`: pop a page, mark it, list its first slots. */
    method TakePages(required: nat, newSlotCount: nat) returns (slots: seq<nat>)
      requires pageSize > 0 && required <= |freePageIndices|
      requires newSlotCount <= required * pageSize < newSlotCount + pageSize
      modifies this
      ensures slots == SlotsOf(old(freePageIndices)[..required], newSlotCount, pageSize)
      ensures freePageIndices == old(freePageIndices)[required..]
      ensures allocatedPageIndices == old(allocatedPageIndices) + set x | x in old(freePageIndices)[..required]
    {
      ghost var free, covered := freePageIndices, 0;
      slots := [];
      var remaining := newSlotCount;
      for k := 0 to required
        invariant covered == k * pageSize
        invariant 0 <= remaining <= newSlotCount <= remaining + covered
        invariant remaining > 0 ==> remaining + covered == newSlotCount
        invariant freePageIndices == free[k..]
        invariant allocatedPageIndices == old(allocatedPageIndices) + set x | x in free[..k]
        invariant slots == SlotsOf(free[..k], newSlotCount - remaining, pageSize)
      {
        var page := freePageIndices[0];
        freePageIndices := freePageIndices[1..];
        allocatedPageIndices := allocatedPageIndices + {page};
        var inPage := Min(remaining, pageSize);
        assert free[..k + 1] == free[..k] + [page];
        SlotsOfNextPage(free[..k], page, newSlotCount - remaining, inPage, pageSize);
        slots := slots + seq(inPage, i requires 0 <= i => page * pageSize + i);
        remaining := remaining - inPage;
        OneMore(k, pageSize);
        covered := covered + pageSize;
      }
    }

    method Release(cachePages: seq<nat>)
      requires pageSize > 0
      modifies this
      ensures View() == AfterRelease(old(View()), cachePages)
    {
      ghost var before := View();
      var released := [];
      for i := 0 to |cachePages|
        invariant freePageIndices == before.free
        invariant released == Released(before, cachePages[..i])
        invariant allocatedPageIndices == before.inUse - set x | x in released
      {
        assert cachePages[..i + 1][..i] == cachePages[..i];
        var slot := cachePages[i];
        if slot < slotCapacity && slot % pageSize == 0 {
          var page := slot / pageSize;
          if page in allocatedPageIndices {
            allocatedPageIndices := allocatedPageIndices - {page};
            released := released + [page];
          }
        }
      }
      assert cachePages[..|cachePages|] == cachePages;
      var k := |released|;
      while k > 0
        invariant 0 <= k <= |released|
        invariant freePageIndices == released[k..] + before.free
        invariant allocatedPageIndices == before.inUse - set x | x in released
      {
        k := k - 1;
        freePageIndices := [released[k]] + freePageIndices;
      }
    }

    method Reset()
      requires pageSize > 0
      modifies this
      ensures View() == FreshPool(slotCapacity, pageSize)
    {
      freePageIndices := seq(slotCapacity / pageSize, i requires 0 <= i => i);
      allocatedPageIndices := {};
    }
  }

  lemma NothingRequested(p: Pool, sequence: seq<nat>)
    requires p.pageSize > 0
    ensures Allocated(p, sequence, 0) == Ok([]) && AfterAllocate(p, sequence, 0) == p
  {
    assert TailRun(sequence, 0) == [];
    assert Pages(p, sequence, 0) == 0 by { DivModUnique(p.pageSize - 1, p.pageSize, 0, p.pageSize - 1); }
    AllocatedShape(p, sequence, 0, 0, 0);
    assert Allocated(p, sequence, 0).value == [];
    assert AfterAllocate(p, sequence, 0).inUse == p.inUse;
  }

  lemma FreshPoolValid(capacity: nat, pageSize: nat)
    requires pageSize > 0 && capacity % pageSize == 0
    ensures FreshPool(capacity, pageSize).Valid()
  {
    var free := FreshPool(capacity, pageSize).free;
    forall p: nat | p < capacity / pageSize
      ensures p in free
    {
      assert free[p] == p;
    }
  }

  /** Extending a page list by one page appends that page's first slots. */
  lemma SlotsOfNextPage(pages: seq<nat>, page: nat, n: nat, inPage: nat, pageSize: nat)
    requires pageSize > 0 && inPage <= pageSize && n <= |pages| * pageSize
    requires inPage > 0 ==> n == |pages| * pageSize
    ensures n + inPage <= |pages + [page]| * pageSize
    ensures SlotsOf(pages + [page], n + inPage, pageSize)
         == SlotsOf(pages, n, pageSize) + seq(inPage, i requires 0 <= i => page * pageSize + i)
  {
    OneMore(|pages|, pageSize);
    forall i | 0 <= i < n + inPage
      ensures PageSlot(pages + [page], i, pageSize)
           == if i < n then PageSlot(pages, i, pageSize) else page * pageSize + (i - n)
    {
      if i < n {
        BlockInRange(i, |pages|, pageSize);
      } else {
        DivModUnique(i, pageSize, |pages|, i - n);
      }
    }
  }

  lemma OneMore(k: nat, d: nat)
    ensures (k + 1) * d == k * d + d
  {
  }

  // ---------- what one allocation returns ----------

  lemma PageSlotDigits(pages: seq<nat>, i: nat, pageSize: nat)
    requires pageSize > 0 && i < |pages| * pageSize
    ensures i / pageSize < |pages|
    ensures PageSlot(pages, i, pageSize) / pageSize == pages[i / pageSize]
    ensures PageSlot(pages, i, pageSize) % pageSize == i % pageSize
  {
    BlockInRange(i, |pages|, pageSize);
    DivModUnique(PageSlot(pages, i, pageSize), pageSize, pages[i / pageSize], i % pageSize);
  }

  lemma TailRunDigits(p: Pool, sequence: seq<nat>, i: nat)
    requires p.pageSize > 0 && i < TailSlots(p, sequence)
    ensures sequence != []
    ensures var last := sequence[|sequence| - 1];
            && (last + 1 + i) / p.pageSize == last / p.pageSize
            && (last + 1 + i) % p.pageSize == last % p.pageSize + 1 + i
            && last / p.pageSize in p.inUse
  {
    var last := sequence[|sequence| - 1];
    DivModUnique(last + 1 + i, p.pageSize, last / p.pageSize, last % p.pageSize + 1 + i);
  }

  /** A successful allocation is the rest of the tail page, then free pages in list order. */
  lemma AllocatedShape(p: Pool, sequence: seq<nat>, n: nat, reuse: nat, need: nat)
    requires p.pageSize > 0 && Allocated(p, sequence, n).Ok?
    requires reuse == Min(TailSlots(p, sequence), n) && need == Pages(p, sequence, n)
    ensures need <= |p.free| && n - reuse <= need * p.pageSize
    ensures Allocated(p, sequence, n).value == TailRun(sequence, reuse) + SlotsOf(p.free[..need], n - reuse, p.pageSize)
    ensures |TailRun(sequence, reuse)| == reuse
  {
    CeilDivCovers(n - reuse, p.pageSize);
  }

  /** The k-th returned slot continues the tail page. */
  ghost predicate OnTailPage(p: Pool, sequence: seq<nat>, slot: nat, k: nat)
    requires p.pageSize > 0
  {
    && sequence != []
    && slot == sequence[|sequence| - 1] + 1 + k
    && slot / p.pageSize == sequence[|sequence| - 1] / p.pageSize
    && slot / p.pageSize in p.inUse
    && slot % p.pageSize == sequence[|sequence| - 1] % p.pageSize + 1 + k
  }

  /** The slot is the m-th one of the pages at the front of the free list. */
  ghost predicate OnFreePage(p: Pool, slot: nat, m: nat)
    requires p.pageSize > 0
  {
    && m / p.pageSize < |p.free|
    && slot / p.pageSize == p.free[m / p.pageSize]
    && slot % p.pageSize == m % p.pageSize
  }

  /** Every returned slot either continues the tail page or comes from the front of the free list. */
  ghost predicate Placed(p: Pool, sequence: seq<nat>, slots: seq<nat>)
    requires p.pageSize > 0
  {
    PlacedAfter(p, sequence, slots, TailSlots(p, sequence))
  }

  ghost predicate PlacedAfter(p: Pool, sequence: seq<nat>, slots: seq<nat>, tail: nat)
    requires p.pageSize > 0
  {
    forall k :: 0 <= k < |slots| ==>
      if k < tail then OnTailPage(p, sequence, slots[k], k) else OnFreePage(p, slots[k], k - tail)
  }

  lemma AllocatedPlaced(p: Pool, sequence: seq<nat>, n: nat)
    requires p.pageSize > 0 && Allocated(p, sequence, n).Ok?
    ensures |Allocated(p, sequence, n).value| == n
    ensures Placed(p, sequence, Allocated(p, sequence, n).value)
  {
    var tail := TailSlots(p, sequence);
    var reuse, need := Min(tail, n), Pages(p, sequence, n);
    AllocatedShape(p, sequence, n, reuse, need);
    var slots := Allocated(p, sequence, n).value;
    forall k | 0 <= k < n
      ensures if k < tail then OnTailPage(p, sequence, slots[k], k) else OnFreePage(p, slots[k], k - tail)
    {
      if k < tail {
        TailRunDigits(p, sequence, k);
      } else {
        FreeDigits(p, need, n - reuse, k - reuse);
      }
    }
  }

  lemma FreeDigits(p: Pool, need: nat, count: nat, m: nat)
    requires p.pageSize > 0 && need <= |p.free| && m < count <= need * p.pageSize
    ensures OnFreePage(p, SlotsOf(p.free[..need], count, p.pageSize)[m], m)
  {
    PageSlotDigits(p.free[..need], m, p.pageSize);
  }

  lemma PageFits(page: nat, r: nat, capacity: nat, pageSize: nat)
    requires pageSize > 0 && capacity % pageSize == 0 && r < pageSize
    ensures page < capacity / pageSize ==> page * pageSize + r < capacity
  {
    if page < capacity / pageSize {
      DigitBound(page, r, pageSize, capacity / pageSize);
    }
  }

  /**
   * `allocate_for_sequence` succeeds exactly when the request fits into the tail page plus the free
   * pages; it then returns n distinct slots of the pool, and otherwise reports precisely what fits.
   */
  lemma AllocateExact(p: Pool, sequence: seq<nat>, n: nat)
    requires p.Valid()
    ensures var fits := TailSlots(p, sequence) + |p.free| * p.pageSize;
            && (Allocated(p, sequence, n).Ok? <==> n <= fits)
            && (n > fits ==>
                  Allocated(p, sequence, n) == Err(OutOfSlots(n, fits)) && AfterAllocate(p, sequence, n) == p)
    ensures Allocated(p, sequence, n).Ok? ==>
              var slots := Allocated(p, sequence, n).value;
              && |slots| == n && NoDup(slots)
              && forall k :: 0 <= k < n ==> slots[k] < p.capacity
    ensures AfterAllocate(p, sequence, n).Valid()
  {
    FitsExactly(n, TailSlots(p, sequence), |p.free|, p.pageSize);
    AfterAllocateValid(p, sequence, n);
    if Allocated(p, sequence, n).Ok? {
      var slots := Allocated(p, sequence, n).value;
      AllocatedPlaced(p, sequence, n);
      forall i, j | 0 <= i < j < n
        ensures slots[i] != slots[j]
      {
        PlacedDistinct(p, sequence, slots, TailSlots(p, sequence), i, j);
      }
      forall k | 0 <= k < n ensures slots[k] < p.capacity { PlacedInRange(p, sequence, slots, k); }
    }
  }

  lemma PlacedInRange(p: Pool, sequence: seq<nat>, slots: seq<nat>, k: nat)
    requires p.Valid() && Placed(p, sequence, slots) && k < |slots|
    ensures slots[k] < p.capacity
  {
    assert slots[k] / p.pageSize in p.inUse || slots[k] / p.pageSize in p.free;
    SlotFits(slots[k], p.capacity, p.pageSize);
  }

  lemma SlotFits(slot: nat, capacity: nat, pageSize: nat)
    requires pageSize > 0 && capacity % pageSize == 0
    ensures slot / pageSize < capacity / pageSize <==> slot < capacity
  {
    DivModSplit(slot, pageSize);
    DivModSplit(capacity, pageSize);
    if slot / pageSize < capacity / pageSize {
      DigitBound(slot / pageSize, slot % pageSize, pageSize, capacity / pageSize);
    } else {
      MulLe(capacity / pageSize, slot / pageSize, pageSize);
    }
  }

  lemma PlacedDistinct(p: Pool, sequence: seq<nat>, slots: seq<nat>, tail: nat, i: nat, j: nat)
    requires p.Valid() && PlacedAfter(p, sequence, slots, tail) && i < j < |slots|
    ensures slots[i] != slots[j]
  {
    if tail <= i {
      FreeSlotsDiffer(p, slots[i], slots[j], i - tail, j - tail);
    } else if tail <= j {
      TailAndFreeDiffer(p, sequence, slots[i], slots[j], i, j - tail);
    }
  }

  lemma TailAndFreeDiffer(p: Pool, sequence: seq<nat>, a: nat, b: nat, i: nat, j: nat)
    requires p.Valid() && OnTailPage(p, sequence, a, i) && OnFreePage(p, b, j)
    ensures a != b
  {
    var page, free := a / p.pageSize, b / p.pageSize;
    assert page in p.inUse;
    assert free !in p.inUse by { FreeNotInUse(p, j / p.pageSize); }
  }

  lemma FreeNotInUse(p: Pool, k: nat)
    requires p.Valid() && k < |p.free|
    ensures p.free[k] !in p.inUse
  {
    assert p.free[k] in p.free;
  }

  lemma FreeSlotsDiffer(p: Pool, a: nat, b: nat, i: nat, j: nat)
    requires p.pageSize > 0 && NoDup(p.free) && OnFreePage(p, a, i) && OnFreePage(p, b, j) && i < j
    ensures a != b
  {
    DivModSplit(i, p.pageSize);
    DivModSplit(j, p.pageSize);
  }

  lemma FitsExactly(n: nat, tail: nat, free: nat, pageSize: nat)
    requires pageSize > 0
    ensures CeilDiv(n - Min(tail, n), pageSize) <= free <==> n <= tail + free * pageSize
  {
    var m: nat := n - Min(tail, n);
    var need := CeilDiv(m, pageSize);
    CeilDivCovers(m, pageSize);
    if need <= free {
      MulLe(need, free, pageSize);
    } else {
      MulLe(free + 1, need, pageSize);
    }
  }

  lemma AfterAllocateValid(p: Pool, sequence: seq<nat>, n: nat)
    requires p.Valid()
    ensures AfterAllocate(p, sequence, n).Valid()
  {
    var need := Pages(p, sequence, n);
    if need <= |p.free| {
      var q := AfterAllocate(p, sequence, n);
      forall x | x in q.free
        ensures x in p.free && x !in q.inUse
      {
        var i :| 0 <= i < |q.free| && q.free[i] == x;
        assert p.free[need + i] == x;
        assert x !in p.free[..need];
      }
      forall x: nat | x < p.capacity / p.pageSize
        ensures x in q.free || x in q.inUse
      {
        if x in p.free {
          var i :| 0 <= i < |p.free| && p.free[i] == x;
          if i < need {
            assert p.free[..need][i] == x;
          } else {
            assert q.free[i - need] == x;
          }
        }
      }
    }
  }

  // ---------- release ----------

  lemma {:induction false} ReleasedNothing(p: Pool, slots: seq<nat>)
    requires p.pageSize > 0
    requires forall k :: 0 <= k < |slots| ==> slots[k] % p.pageSize != 0
    ensures Released(p, slots) == []
  {
    if slots != [] {
      ReleasedNothing(p, slots[..|slots| - 1]);
    }
  }

  lemma CeilDivStep(n: nat, d: nat)
    requires d > 0 && n > 0
    ensures CeilDiv(n, d) == if (n - 1) % d == 0 then CeilDiv(n - 1, d) + 1 else CeilDiv(n - 1, d)
    ensures (n - 1) % d == 0 ==> (n - 1) / d == CeilDiv(n - 1, d)
    ensures (n - 1) / d == CeilDiv(n, d) - 1
  {
    var q, r := (n - 1) / d, (n - 1) % d;
    assert (q + 1) * d == q * d + d;
    DivModUnique(n + d - 1, d, q + 1, r);
    if r == 0 {
      DivModUnique(n - 1 + d - 1, d, q, d - 1);
    } else {
      DivModUnique(n - 1 + d - 1, d, q + 1, r - 1);
    }
  }

  /** Releasing mid-page slots followed by the slots of held pages gives back exactly those pages, in order. */
  lemma {:induction false} ReleasedPages(p: Pool, tail: seq<nat>, pages: seq<nat>, n: nat)
    requires p.pageSize > 0 && p.capacity % p.pageSize == 0 && n <= |pages| * p.pageSize
    requires forall k :: 0 <= k < |tail| ==> tail[k] % p.pageSize != 0
    requires NoDup(pages)
    requires forall k :: 0 <= k < |pages| ==> pages[k] in p.inUse && pages[k] < p.capacity / p.pageSize
    ensures CeilDiv(n, p.pageSize) <= |pages|
    ensures Released(p, tail + SlotsOf(pages, n, p.pageSize)) == pages[..CeilDiv(n, p.pageSize)]
  {
    var slots := tail + SlotsOf(pages, n, p.pageSize);
    if n == 0 {
      assert slots == tail;
      ReleasedNothing(p, tail);
      DivModUnique(p.pageSize - 1, p.pageSize, 0, p.pageSize - 1);
    } else {
      ReleasedPages(p, tail, pages, n - 1);
      CeilDivStep(n, p.pageSize);
      SlotsOfNext(pages, n, p.pageSize);
      var slot, q, r := PageSlot(pages, n - 1, p.pageSize), (n - 1) / p.pageSize, (n - 1) % p.pageSize;
      assert slots == tail + SlotsOf(pages, n - 1, p.pageSize) + [slot];
      PageSlotDigits(pages, n - 1, p.pageSize);
      PageFits(pages[q], r, p.capacity, p.pageSize);
      ReleasedNext(p, tail + SlotsOf(pages, n - 1, p.pageSize), slot, pages, q, CeilDiv(n - 1, p.pageSize));
    }
  }

  lemma SlotsOfNext(pages: seq<nat>, n: nat, pageSize: nat)
    requires pageSize > 0 && 0 < n <= |pages| * pageSize
    ensures SlotsOf(pages, n, pageSize) == SlotsOf(pages, n - 1, pageSize) + [PageSlot(pages, n - 1, pageSize)]
  {
  }

  /** One more slot, of page number q: it gives a page back when it is the page's first. */
  lemma ReleasedNext(p: Pool, held: seq<nat>, slot: nat, pages: seq<nat>, q: nat, before: nat)
    requires p.pageSize > 0 && NoDup(pages) && q < |pages| && before <= |pages| && Released(p, held) == pages[..before]
    requires slot / p.pageSize == pages[q] && pages[q] in p.inUse && slot < p.capacity
    requires slot % p.pageSize == 0 ==> q == before
    ensures Released(p, held + [slot]) == if slot % p.pageSize == 0 then pages[..before + 1] else pages[..before]
  {
    ReleasedPush(p, held, slot);
    NextPage(pages, q);
  }

  lemma ReleasedPush(p: Pool, slots: seq<nat>, slot: nat)
    requires p.pageSize > 0
    ensures var before := Released(p, slots);
            Released(p, slots + [slot])
            == if slot < p.capacity && slot % p.pageSize == 0 && slot / p.pageSize in p.inUse
               && slot / p.pageSize !in before
               then before + [slot / p.pageSize] else before
  {
    assert (slots + [slot])[..|slots|] == slots;
  }

  lemma NextPage(pages: seq<nat>, k: nat)
    requires NoDup(pages) && k < |pages|
    ensures pages[k] !in pages[..k] && pages[..k] + [pages[k]] == pages[..k + 1]
  {
  }

  /** Releasing what an allocation returned restores the free list, in order, and the allocated set. */
  lemma ReleaseUndoesAllocate(p: Pool, sequence: seq<nat>, n: nat)
    requires p.Valid() && Allocated(p, sequence, n).Ok?
    ensures AfterRelease(AfterAllocate(p, sequence, n), Allocated(p, sequence, n).value) == p
  {
    var q := AfterAllocate(p, sequence, n);
    var reuse := Min(TailSlots(p, sequence), n);
    var need := Pages(p, sequence, n);
    var pages := p.free[..need];
    forall k | 0 <= k < reuse
      ensures TailRun(sequence, reuse)[k] % q.pageSize != 0
    {
      TailRunDigits(p, sequence, k);
    }
    CeilDivCovers(n - reuse, p.pageSize);
    ReleasedPages(q, TailRun(sequence, reuse), pages, n - reuse);
    assert pages[..need] == pages;
    assert pages + p.free[need..] == p.free;
    assert q.inUse - (set x | x in pages) == p.inUse;
  }

  lemma ReleaseValid(p: Pool, pages: seq<nat>, q: Pool)
    requires p.Valid() && NoDup(pages)
    requires forall b :: 0 <= b < |pages| ==> pages[b] in p.inUse && pages[b] < p.capacity / p.pageSize
    requires q == p.(free := pages + p.free, inUse := p.inUse - set x | x in pages)
    ensures q.Valid()
  {
    forall x: nat | x < p.capacity / p.pageSize
      ensures x in q.free || x in q.inUse
    {
      assert x in p.free ==> x in q.free;
    }
  }

  lemma {:induction false} ReleasedAreHeld(p: Pool, slots: seq<nat>)
    requires p.pageSize > 0
    ensures NoDup(Released(p, slots))
    ensures forall k :: 0 <= k < |Released(p, slots)| ==> Released(p, slots)[k] in p.inUse
  {
    if slots != [] {
      ReleasedAreHeld(p, slots[..|slots| - 1]);
    }
  }

  /** Whatever slots are released, the pool stays a partition. */
  lemma AfterReleaseValid(p: Pool, slots: seq<nat>)
    requires p.Valid()
    ensures AfterRelease(p, slots).Valid()
  {
    ReleasedAreHeld(p, slots);
    ReleaseValid(p, Released(p, slots), AfterRelease(p, slots));
  }
}
