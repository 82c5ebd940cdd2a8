/** Whole runs of the page allocator: many sequences grow and finish in any order. */
module PageOwnership {
  import opened Basics
  import opened PageAllocator

  /** The allocator together with the slot list of every live sequence. */
  datatype System = System(pool: Pool, live: map<nat, seq<nat>>) {
    function Slots(id: nat): seq<nat> {
      if id in live then live[id] else []
    }
  }

  /** A sequence grows by n slots, starting from the empty list, or ends and releases its whole list. */
  datatype Op = Grow(id: nat, n: nat) | Finish(id: nat)

  function Step(s: System, op: Op): System
    requires s.pool.pageSize > 0
  {
    match op
    case Grow(id, n) =>
      (match Allocated(s.pool, s.Slots(id), n)
       case Ok(slots) => System(AfterAllocate(s.pool, s.Slots(id), n), s.live[id := s.Slots(id) + slots])
       case Err(_) => s)
    case Finish(id) => System(AfterRelease(s.pool, s.Slots(id)), s.live - {id})
  }

  function Run(s: System, ops: seq<Op>): (t: System)
    requires s.pool.pageSize > 0
    ensures t.pool.pageSize == s.pool.pageSize && t.pool.capacity == s.pool.capacity
  {
    if ops == [] then s else Step(Run(s, ops[..|ops| - 1]), ops[|ops| - 1])
  }

  /** The pages each live sequence holds, in block order. */
  type Ownership = map<nat, seq<nat>>

  ghost predicate HoldsPages(pool: Pool, slots: seq<nat>, pages: seq<nat>)
    requires pool.pageSize > 0
  {
    && |pages| == CeilDiv(|slots|, pool.pageSize)
    && |slots| <= |pages| * pool.pageSize
    && slots == SlotsOf(pages, |slots|, pool.pageSize)
  }

  /** No page appears twice, in one sequence or in two. */
  ghost predicate Exclusive(o: Ownership) {
    forall a, i, b, j | a in o && b in o && 0 <= i < |o[a]| && 0 <= j < |o[b]| ::
      o[a][i] == o[b][j] ==> a == b && i == j
  }

  ghost predicate Holder(o: Ownership, a: nat, page: int) {
    a in o && page in o[a]
  }

  ghost predicate Owned(s: System, o: Ownership)
    requires s.pool.pageSize > 0
  {
    && o.Keys == s.live.Keys
    && (forall id :: id in s.live ==> HoldsPages(s.pool, s.live[id], o[id]))
    && Exclusive(o)
    && (forall a, i :: a in o && 0 <= i < |o[a]| ==> o[a][i] in s.pool.inUse)
    && (forall page :: page in s.pool.inUse ==> exists a :: Holder(o, a, page))
  }

  ghost predicate Inv(s: System) {
    s.pool.Valid() && exists o :: Owned(s, o)
  }

  // ---------- growing ----------

  /** The tail a page-backed sequence can reuse is what its last page still has room for. */
  lemma TailOfPages(p: Pool, slots: seq<nat>, pages: seq<nat>)
    requires p.pageSize > 0 && HoldsPages(p, slots, pages)
    requires forall b :: 0 <= b < |pages| ==> pages[b] in p.inUse
    ensures TailSlots(p, slots) == |pages| * p.pageSize - |slots|
  {
    var n := |slots|;
    CeilDivCovers(n, p.pageSize);
    if n == 0 {
      DivModUnique(p.pageSize - 1, p.pageSize, 0, p.pageSize - 1);
    } else {
      assert slots[n - 1] == PageSlot(pages, n - 1, p.pageSize);
      PageSlotDigits(pages, n - 1, p.pageSize);
      CeilDivStep(n, p.pageSize);
      DivModSplit(n - 1, p.pageSize);
      SplitProduct((n - 1) / p.pageSize, 1, p.pageSize);
    }
  }

  /** A slot on the tail page is the next one of the sequence's own last page. */
  lemma TailSlotContinues(p: Pool, slots: seq<nat>, pages: seq<nat>, more: seq<nat>, slot: nat, k: nat)
    requires p.pageSize > 0 && HoldsPages(p, slots, pages)
    requires OnTailPage(p, slots, slot, k)
    requires |slots| + k < |pages| * p.pageSize
    ensures |slots| + k < |pages + more| * p.pageSize
    ensures slot == PageSlot(pages + more, |slots| + k, p.pageSize)
  {
    var n, d := |slots|, p.pageSize;
    MulLe(|pages|, |pages + more|, d);
    assert slots[n - 1] == PageSlot(pages, n - 1, d);
    PageSlotDigits(pages, n - 1, d);
    DivModSplit(n - 1, d);
    DivModUnique(n + k, d, (n - 1) / d, (n - 1) % d + 1 + k);
  }

  /** Skipping whole pages moves the quotient and keeps the remainder. */
  lemma SkipPages(b: nat, m: nat, d: nat)
    requires d > 0
    ensures (b * d + m) / d == b + m / d && (b * d + m) % d == m % d
  {
    DivModSplit(m, d);
    SplitProduct(b, m / d, d);
    DivModUnique(b * d + m, d, b + m / d, m % d);
  }

  lemma FreeSlotContinues(p: Pool, pages: seq<nat>, need: nat, slot: nat, m: nat)
    requires p.pageSize > 0 && need <= |p.free| && OnFreePage(p, slot, m) && m < need * p.pageSize
    ensures |pages| * p.pageSize + m < |pages + p.free[..need]| * p.pageSize
    ensures slot == PageSlot(pages + p.free[..need], |pages| * p.pageSize + m, p.pageSize)
  {
    var d := p.pageSize;
    BlockInRange(m, need, d);
    SplitProduct(|pages|, need, d);
    SlotOnLaterPage(pages, p.free[..need], slot, m, d);
  }

  lemma SlotOnLaterPage(pages: seq<nat>, more: seq<nat>, slot: nat, m: nat, d: nat)
    requires d > 0 && m / d < |more| && slot / d == more[m / d] && slot % d == m % d
    requires |pages| * d + m < |pages + more| * d
    ensures slot == PageSlot(pages + more, |pages| * d + m, d)
  {
    SkipPages(|pages|, m, d);
    PageSlotIs(pages + more, |pages| * d + m, d, |pages| + m / d, slot);
  }

  lemma PageSlotIs(pages: seq<nat>, i: nat, d: nat, q: nat, slot: nat)
    requires d > 0 && i < |pages| * d && i / d == q < |pages| && slot / d == pages[q] && slot % d == i % d
    ensures slot == PageSlot(pages, i, d)
  {
    DivModSplit(slot, d);
  }

  lemma CeilDivAppend(n: nat, k: nat, blocks: nat, d: nat)
    requires d > 0 && blocks == CeilDiv(n, d)
    ensures blocks + CeilDiv(k - Min(blocks * d - n, k), d) == CeilDiv(n + k, d)
  {
    CeilDivCovers(n, d);
    var tail := blocks * d - n;
    if k <= tail {
      DivModUnique(0 + d - 1, d, 0, d - 1);
      if n + k > 0 {
        CeilDivCovers(n + k, d);
        CeilDivTight(n + k, d, blocks);
      }
    } else {
      var more := CeilDiv(k - tail, d);
      CeilDivCovers(k - tail, d);
      assert (blocks + more) * d == blocks * d + more * d;
      CeilDivTight(n + k, d, blocks + more);
    }
  }

  lemma CeilDivTight(n: nat, d: nat, q: nat)
    requires d > 0 && n <= q * d < n + d
    ensures CeilDiv(n, d) == q
  {
    DivModUnique(n + d - 1, d, q, n + d - 1 - q * d);
  }

  /** Growing a page-backed sequence appends the pages just taken from the free list. */
  lemma GrownSequence(p: Pool, slots: seq<nat>, pages: seq<nat>, k: nat)
    requires p.pageSize > 0 && HoldsPages(p, slots, pages) && Allocated(p, slots, k).Ok?
    requires forall b :: 0 <= b < |pages| ==> pages[b] in p.inUse
    ensures Pages(p, slots, k) <= |p.free|
    ensures HoldsPages(p, slots + Allocated(p, slots, k).value, pages + p.free[..Pages(p, slots, k)])
  {
    var d, n, need := p.pageSize, |slots|, Pages(p, slots, k);
    var got := Allocated(p, slots, k).value;
    var all := pages + p.free[..need];
    TailOfPages(p, slots, pages);
    AllocatedPlaced(p, slots, k);
    CeilDivAppend(n, k, |pages|, d);
    CeilDivCovers(n + k, d);
    forall i | 0 <= i < n + k
      ensures (slots + got)[i] == PageSlot(all, i, d)
    {
      GrownSlot(p, slots, pages, need, got, i);
    }
    assert slots + got == SlotsOf(all, n + k, d);
  }

  lemma GrownSlot(p: Pool, slots: seq<nat>, pages: seq<nat>, need: nat, got: seq<nat>, i: nat)
    requires p.pageSize > 0 && HoldsPages(p, slots, pages) && Placed(p, slots, got)
    requires TailSlots(p, slots) == |pages| * p.pageSize - |slots|
    requires need <= |p.free|
    requires i < |slots| + |got| <= |pages + p.free[..need]| * p.pageSize
    ensures (slots + got)[i] == PageSlot(pages + p.free[..need], i, p.pageSize)
  {
    var d, n := p.pageSize, |slots|;
    if i < n {
      assert slots[i] == PageSlot(pages, i, d);
      BlockInRange(i, |pages|, d);
    } else {
      NewSlot(p, slots, pages, need, got, TailSlots(p, slots), i - n);
    }
  }

  lemma NewSlot(p: Pool, slots: seq<nat>, pages: seq<nat>, need: nat, got: seq<nat>, tail: nat, k: nat)
    requires p.pageSize > 0 && HoldsPages(p, slots, pages) && PlacedAfter(p, slots, got, tail)
    requires tail == |pages| * p.pageSize - |slots|
    requires need <= |p.free| && k < |got|
    requires |slots| + k < |pages + p.free[..need]| * p.pageSize
    ensures got[k] == PageSlot(pages + p.free[..need], |slots| + k, p.pageSize)
  {
    if k < tail {
      TailSlotContinues(p, slots, pages, p.free[..need], got[k], k);
    } else {
      NewFreeSlot(p, |slots|, pages, need, got[k], tail, k);
    }
  }

  lemma NewFreeSlot(p: Pool, n: nat, pages: seq<nat>, need: nat, slot: nat, tail: nat, k: nat)
    requires p.pageSize > 0 && tail == |pages| * p.pageSize - n && tail <= k
    requires need <= |p.free| && OnFreePage(p, slot, k - tail)
    requires n + k < |pages + p.free[..need]| * p.pageSize
    ensures slot == PageSlot(pages + p.free[..need], n + k, p.pageSize)
  {
    SplitProduct(|pages|, need, p.pageSize);
    FreeSlotContinues(p, pages, need, slot, k - tail);
  }

  lemma NoPages(p: Pool)
    requires p.pageSize > 0
    ensures HoldsPages(p, [], [])
  {
    DivModUnique(p.pageSize - 1, p.pageSize, 0, p.pageSize - 1);
  }

  lemma GrowOwned(s: System, o: Ownership, id: nat, n: nat) returns (o': Ownership)
    requires s.pool.Valid() && Owned(s, o) && Allocated(s.pool, s.Slots(id), n).Ok?
    ensures Owned(Step(s, Grow(id, n)), o')
  {
    var p, slots := s.pool, s.Slots(id);
    var pages := if id in o then o[id] else [];
    var need := Pages(p, slots, n);
    if id !in s.live {
      NoPages(p);
    }
    GrownSequence(p, slots, pages, n);
    o' := o[id := pages + p.free[..need]];
    ExclusiveAfterGrow(s, o, id, pages, p.free[..need]);
    HoldersAfterGrow(o, id, pages, p.free[..need], p.inUse);
  }

  lemma ExclusiveAfterGrow(s: System, o: Ownership, id: nat, pages: seq<nat>, taken: seq<nat>)
    requires s.pool.pageSize > 0 && Owned(s, o) && NoDup(taken) && pages == if id in o then o[id] else []
    requires forall b :: 0 <= b < |taken| ==> taken[b] !in s.pool.inUse
    ensures Exclusive(o[id := pages + taken])
  {
  }

  lemma HoldersAfterGrow(o: Ownership, id: nat, pages: seq<nat>, taken: seq<nat>, inUse: set<nat>)
    requires pages == if id in o then o[id] else []
    requires forall page :: page in inUse ==> exists a :: Holder(o, a, page)
    ensures var o' := o[id := pages + taken];
            forall page :: page in inUse || page in taken ==> exists a :: Holder(o', a, page)
  {
    var o' := o[id := pages + taken];
    forall page | page in inUse || page in taken
      ensures exists a :: Holder(o', a, page)
    {
      if page in taken {
        assert Holder(o', id, page);
      } else {
        var a :| Holder(o, a, page);
        assert Holder(o', a, page);
      }
    }
  }

  // ---------- finishing ----------

  lemma FinishOwned(s: System, o: Ownership, id: nat) returns (o': Ownership)
    requires s.pool.Valid() && Owned(s, o)
    ensures Step(s, Finish(id)).pool.Valid()
    ensures Owned(Step(s, Finish(id)), o')
  {
    var p, slots := s.pool, s.Slots(id);
    if id !in s.live {
      assert Released(p, slots) == [];
      assert s.live - {id} == s.live;
      assert Step(s, Finish(id)) == s;
      o' := o;
    } else {
      var pages := o[id];
      ReleasedPages(p, [], pages, |slots|);
      assert [] + SlotsOf(pages, |slots|, p.pageSize) == slots;
      assert pages[..|pages|] == pages;
      ReleaseValid(p, pages, AfterRelease(p, slots));
      o' := o - {id};
      HoldersAfterFinish(s, o, id);
    }
  }

  lemma HoldersAfterFinish(s: System, o: Ownership, id: nat)
    requires s.pool.pageSize > 0 && Owned(s, o) && id in o
    ensures forall page :: page in s.pool.inUse && page !in o[id] ==> exists a :: Holder(o - {id}, a, page)
    ensures forall a, i :: a in o && a != id && 0 <= i < |o[a]| ==> o[a][i] !in o[id]
  {
    forall page | page in s.pool.inUse && page !in o[id]
      ensures exists a :: Holder(o - {id}, a, page)
    {
      var a :| Holder(o, a, page);
      assert Holder(o - {id}, a, page);
    }
  }

  // ---------- runs ----------

  lemma StepInv(s: System, op: Op)
    requires Inv(s)
    ensures Inv(Step(s, op))
  {
    var o :| Owned(s, o);
    match op
    case Grow(id, n) =>
      AfterAllocateValid(s.pool, s.Slots(id), n);
      if Allocated(s.pool, s.Slots(id), n).Ok? {
        var o' := GrowOwned(s, o, id, n);
      }
    case Finish(id) =>
      var o' := FinishOwned(s, o, id);
  }

  lemma {:induction false} RunInv(s: System, ops: seq<Op>)
    requires Inv(s)
    ensures Inv(Run(s, ops))
  {
    if ops != [] {
      RunInv(s, ops[..|ops| - 1]);
      StepInv(Run(s, ops[..|ops| - 1]), ops[|ops| - 1]);
    }
  }

  /**
   * In every state an allocator can reach, free and allocated pages partition the pool, every
   * allocated page holds slots of exactly one live sequence, and no two positions of live sequences
   * name the same slot.
   */
  lemma OwnershipOverRuns(capacity: nat, pageSize: nat, ops: seq<Op>)
    requires pageSize > 0 && capacity % pageSize == 0
    ensures var s := Run(System(FreshPool(capacity, pageSize), map[]), ops);
            && s.pool.Valid()
            && (forall a, i, b, j | a in s.live && b in s.live && 0 <= i < |s.live[a]| && 0 <= j < |s.live[b]| ::
                  s.live[a][i] == s.live[b][j] ==> a == b && i == j)
            && (forall a, i :: a in s.live && 0 <= i < |s.live[a]| ==>
                  s.live[a][i] < capacity && s.live[a][i] / pageSize in s.pool.inUse
                  && s.live[a][i] % pageSize == i % pageSize)
            && (forall page :: page in s.pool.inUse ==> HeldByOne(s, page))
  {
    var init := System(FreshPool(capacity, pageSize), map[]);
    FreshPoolValid(capacity, pageSize);
    assert Owned(init, map[]);
    RunInv(init, ops);
    var s := Run(init, ops);
    var o :| Owned(s, o);
    SlotsAligned(s, o);
    AllDisjoint(s, o);
    forall page | page in s.pool.inUse
      ensures HeldByOne(s, page)
    {
      PageHeld(s, o, page);
    }
  }

  lemma SlotsAligned(s: System, o: Ownership)
    requires s.pool.Valid() && Owned(s, o)
    ensures forall a, i :: a in s.live && 0 <= i < |s.live[a]| ==>
              s.live[a][i] < s.pool.capacity && s.live[a][i] / s.pool.pageSize in s.pool.inUse
              && s.live[a][i] % s.pool.pageSize == i % s.pool.pageSize
  {
    forall a, i | a in s.live && 0 <= i < |s.live[a]|
      ensures s.live[a][i] < s.pool.capacity && s.live[a][i] / s.pool.pageSize in s.pool.inUse
              && s.live[a][i] % s.pool.pageSize == i % s.pool.pageSize
    {
      SlotAligned(s, o, a, i);
    }
  }

  lemma AllDisjoint(s: System, o: Ownership)
    requires s.pool.Valid() && Owned(s, o)
    ensures forall a, i, b, j | a in s.live && b in s.live && 0 <= i < |s.live[a]| && 0 <= j < |s.live[b]| ::
              s.live[a][i] == s.live[b][j] ==> a == b && i == j
  {
    forall a, i, b, j | a in s.live && b in s.live && 0 <= i < |s.live[a]| && 0 <= j < |s.live[b]|
                        && s.live[a][i] == s.live[b][j]
      ensures a == b && i == j
    {
      SlotsDisjoint(s, o, a, i, b, j);
    }
  }

  /** Exactly one live sequence has a slot on the page. */
  ghost predicate HeldByOne(s: System, page: nat)
    requires s.pool.pageSize > 0
  {
    && (exists a :: a in s.live && OnPage(s, a, page))
    && (forall a, b :: a in s.live && b in s.live && OnPage(s, a, page) && OnPage(s, b, page) ==> a == b)
  }

  ghost predicate OnPage(s: System, a: nat, page: nat)
    requires s.pool.pageSize > 0 && a in s.live
  {
    exists i :: 0 <= i < |s.live[a]| && s.live[a][i] / s.pool.pageSize == page
  }

  lemma SlotAligned(s: System, o: Ownership, a: nat, i: nat)
    requires s.pool.Valid() && Owned(s, o) && a in s.live && i < |s.live[a]|
    ensures s.live[a][i] < s.pool.capacity && s.live[a][i] / s.pool.pageSize in s.pool.inUse
    ensures s.live[a][i] % s.pool.pageSize == i % s.pool.pageSize
  {
    SlotPage(s, o, a, i);
    SlotFits(s.live[a][i], s.pool.capacity, s.pool.pageSize);
  }

  lemma SlotPage(s: System, o: Ownership, a: nat, i: nat)
    requires s.pool.pageSize > 0 && Owned(s, o) && a in s.live && i < |s.live[a]|
    ensures 0 <= i / s.pool.pageSize < |o[a]| && s.live[a][i] / s.pool.pageSize == o[a][i / s.pool.pageSize]
    ensures s.live[a][i] % s.pool.pageSize == i % s.pool.pageSize
  {
    HeldSlot(s.pool, s.live[a], o[a], i);
  }

  lemma HeldSlot(p: Pool, slots: seq<nat>, pages: seq<nat>, i: nat)
    requires p.pageSize > 0 && HoldsPages(p, slots, pages) && i < |slots|
    ensures 0 <= i / p.pageSize < |pages| && slots[i] / p.pageSize == pages[i / p.pageSize]
    ensures slots[i] % p.pageSize == i % p.pageSize
  {
    assert slots[i] == PageSlot(pages, i, p.pageSize);
    PageSlotDigits(pages, i, p.pageSize);
  }

  lemma FirstSlotOfBlock(p: Pool, slots: seq<nat>, pages: seq<nat>, b: nat)
    requires p.pageSize > 0 && HoldsPages(p, slots, pages) && b < |pages|
    ensures 0 <= b * p.pageSize < |slots| && slots[b * p.pageSize] / p.pageSize == pages[b]
  {
    var d := p.pageSize;
    CeilDivCovers(|slots|, d);
    MulLe(b + 1, |pages|, d);
    assert (b + 1) * d == b * d + d;
    MulLe(0, b, d);
    DivModUnique(b * d, d, b, 0);
    assert slots[b * d] == PageSlot(pages, b * d, d);
    PageSlotDigits(pages, b * d, d);
  }

  lemma PageHeld(s: System, o: Ownership, page: nat)
    requires s.pool.pageSize > 0 && Owned(s, o) && page in s.pool.inUse
    ensures HeldByOne(s, page)
  {
    var a :| Holder(o, a, page);
    var b :| 0 <= b < |o[a]| && o[a][b] == page;
    FirstSlotOfBlock(s.pool, s.live[a], o[a], b);
    var first := b * s.pool.pageSize;
    assert s.live[a][first] / s.pool.pageSize == page;
    assert OnPage(s, a, page);
    forall x | x in s.live && OnPage(s, x, page)
      ensures x == a
    {
      OnPageHolder(s, o, x, page);
    }
  }

  lemma OnPageHolder(s: System, o: Ownership, x: nat, page: nat)
    requires s.pool.pageSize > 0 && Owned(s, o) && x in s.live && OnPage(s, x, page)
    ensures Holder(o, x, page)
  {
    var i :| 0 <= i < |s.live[x]| && s.live[x][i] / s.pool.pageSize == page;
    SlotHolder(s, o, x, i);
  }

  lemma SlotHolder(s: System, o: Ownership, a: nat, i: nat)
    requires s.pool.pageSize > 0 && Owned(s, o) && a in s.live && i < |s.live[a]|
    ensures Holder(o, a, s.live[a][i] / s.pool.pageSize)
  {
    SlotPage(s, o, a, i);
  }

  lemma SlotsDisjoint(s: System, o: Ownership, a: nat, i: nat, b: nat, j: nat)
    requires s.pool.pageSize > 0 && Owned(s, o) && a in s.live && b in s.live
    requires i < |s.live[a]| && j < |s.live[b]| && s.live[a][i] == s.live[b][j]
    ensures a == b && i == j
  {
    SlotPage(s, o, a, i);
    SlotPage(s, o, b, j);
    SamePage(o, a, i / s.pool.pageSize, b, j / s.pool.pageSize);
    DivModSplit(i, s.pool.pageSize);
    DivModSplit(j, s.pool.pageSize);
  }

  lemma SamePage(o: Ownership, a: nat, i: int, b: nat, j: int)
    requires Exclusive(o) && a in o && b in o && 0 <= i < |o[a]| && 0 <= j < |o[b]| && o[a][i] == o[b][j]
    ensures a == b && i == j
  {
  }
}
