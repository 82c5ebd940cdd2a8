/** Reusing cached prefixes with the allocator: a page holding shared slots is never written again. */
module PrefixReuse {
  import opened Basics
  import opened PageAllocator
  import R = RadixCache

  /** Position i of the list lies at offset i of its page, modulo the page size. */
  ghost predicate Aligned(slots: seq<nat>, pageSize: nat)
    requires pageSize > 0
  {
    forall i :: 0 <= i < |slots| ==> slots[i] % pageSize == i % pageSize
  }

  lemma ModAdd(a: nat, b: nat, d: nat)
    requires d > 0
    ensures (a + b) % d == (a % d + b) % d
    ensures a % d + b < d ==> (a + b) % d == a % d + b
  {
    var q, r := (a % d + b) / d, (a % d + b) % d;
    assert (a / d + q) * d == (a / d) * d + q * d;
    DivModUnique(a + b, d, a / d + q, r);
    if a % d + b < d {
      DivModUnique(a % d + b, d, 0, a % d + b);
    }
  }

  /**
   * Growing an aligned slot list keeps it aligned exactly when it ends on a page boundary or its last
   * page is still allocated.
   */
  lemma GrowthKeepsAlignmentIff(p: Pool, s: seq<nat>, n: nat)
    requires p.pageSize > 0 && Aligned(s, p.pageSize) && Allocated(p, s, n).Ok?
    ensures Aligned(s + Allocated(p, s, n).value, p.pageSize)
       <==> n == 0 || |s| % p.pageSize == 0 || s[|s| - 1] / p.pageSize in p.inUse
  {
    var d, got := p.pageSize, Allocated(p, s, n).value;
    AllocatedPlaced(p, s, n);
    if n == 0 {
      assert s + got == s;
    } else if |s| % d == 0 || s[|s| - 1] / d in p.inUse {
      forall i | 0 <= i < |s + got|
        ensures (s + got)[i] % d == i % d
      {
        if i >= |s| {
          GrownOffset(p, s, got, i - |s|);
        }
      }
    } else {
      FirstOffset(p, s, got);
      assert (s + got)[|s|] == got[0];
    }
  }

  /** What the tail of an aligned list leaves open brings the next position to a page boundary. */
  lemma TailOfAligned(p: Pool, s: seq<nat>)
    requires p.pageSize > 0 && Aligned(s, p.pageSize)
    requires |s| % p.pageSize == 0 || s[|s| - 1] / p.pageSize in p.inUse
    ensures (|s| + TailSlots(p, s)) % p.pageSize == 0
    ensures |s| % p.pageSize == 0 <==> TailSlots(p, s) == 0
  {
    var d := p.pageSize;
    if s != [] {
      var r := (|s| - 1) % d;
      ModAdd(|s| - 1, 1, d);
      if |s| % d == 0 {
        if r + 1 < d {
          DivModUnique(r + 1, d, 0, r + 1);
        }
      } else {
        ModAdd(|s| - 1, d - r, d);
        DivModUnique(d, d, 1, 0);
      }
    }
  }

  lemma GrownOffset(p: Pool, s: seq<nat>, got: seq<nat>, k: nat)
    requires p.pageSize > 0 && Aligned(s, p.pageSize) && Placed(p, s, got) && k < |got|
    requires |s| % p.pageSize == 0 || s[|s| - 1] / p.pageSize in p.inUse
    ensures got[k] % p.pageSize == (|s| + k) % p.pageSize
  {
    var d, tail := p.pageSize, TailSlots(p, s);
    TailOfAligned(p, s);
    if k < tail {
      ModAdd(|s| - 1, 1 + k, d);
    } else {
      ModAdd(|s| + tail, k - tail, d);
    }
  }

  lemma FirstOffset(p: Pool, s: seq<nat>, got: seq<nat>)
    requires p.pageSize > 0 && Placed(p, s, got) && got != []
    requires |s| % p.pageSize != 0 && s[|s| - 1] / p.pageSize !in p.inUse
    ensures got[0] % p.pageSize == 0
  {
    assert TailSlots(p, s) == 0;
    assert OnFreePage(p, got[0], 0);
    DivModUnique(0, p.pageSize, 0, 0);
  }

  ghost predicate AlignedLog(log: seq<R.Op>, pageSize: nat)
    requires pageSize > 0
  {
    forall i :: 0 <= i < |log| && log[i].Insert? ==> Aligned(log[i].pages, pageSize)
  }

  /** The matched slots inherit alignment from the inserts that placed them. */
  lemma MatchAligned(log: seq<R.Op>, ids: seq<nat>, pageSize: nat)
    requires pageSize > 0 && AlignedLog(log, pageSize)
    ensures var pages := R.AlignedMatch(R.Run(log), ids, pageSize).cachePages;
            Aligned(pages, pageSize) && |pages| % pageSize == 0
  {
    var m := R.Match(R.Run(log), ids);
    R.MatchIsLog(log, ids);
    var aligned := AlignDown(m.matchedTokenCount, pageSize);
    AlignDownMultiple(m.matchedTokenCount, pageSize);
    forall i | 0 <= i < aligned
      ensures m.cachePages[i] % pageSize == i % pageSize
    {
      SlotFromLog(log, ids, i, pageSize);
    }
  }

  lemma SlotFromLog(log: seq<R.Op>, ids: seq<nat>, i: nat, pageSize: nat)
    requires pageSize > 0 && AlignedLog(log, pageSize) && i < |R.Match(R.Run(log), ids).cachePages|
    ensures R.Match(R.Run(log), ids).cachePages[i] % pageSize == i % pageSize
  {
    R.MatchIsLog(log, ids);
    var k := i + 1;
    assert R.Logged(log, ids[..k]);
    var j :| R.Latest(log, ids[..i + 1], j);
    assert |ids[..i + 1]| <= |log[j].ids|;
  }

  /**
   * Allocating after a page-aligned match reuses no tail slot: every slot returned lies in a page just taken
   * from the free list, and the extended list stays aligned.
   */
  lemma AlignedMatchTakesFreePages(p: Pool, log: seq<R.Op>, ids: seq<nat>, n: nat)
    requires p.Valid() && AlignedLog(log, p.pageSize)
    ensures var prefix := R.AlignedMatch(R.Run(log), ids, p.pageSize).cachePages;
            && TailSlots(p, prefix) == 0
            && (Allocated(p, prefix, n).Ok? ==>
                  var got := Allocated(p, prefix, n).value;
                  && |got| == n && Aligned(prefix + got, p.pageSize)
                  && forall k :: 0 <= k < n ==> FreshPage(p, got[k]))
  {
    var prefix := R.AlignedMatch(R.Run(log), ids, p.pageSize).cachePages;
    MatchAligned(log, ids, p.pageSize);
    TailOfAligned(p, prefix);
    if Allocated(p, prefix, n).Ok? {
      AllocatedPlaced(p, prefix, n);
      GrowthKeepsAlignmentIff(p, prefix, n);
      NewPages(p, prefix, Allocated(p, prefix, n).value);
    }
  }

  /** The slot's page was free, so nothing else lives there, before the allocation took it. */
  ghost predicate FreshPage(p: Pool, slot: nat)
    requires p.pageSize > 0
  {
    slot / p.pageSize in p.free && slot / p.pageSize !in p.inUse
  }

  lemma NewPages(p: Pool, s: seq<nat>, got: seq<nat>)
    requires p.Valid() && Placed(p, s, got)
    ensures forall k :: 0 <= k < |got| ==>
              FreshPage(p, got[k]) || (TailSlots(p, s) > 0 && s != [] && got[k] / p.pageSize == s[|s| - 1] / p.pageSize)
  {
    var tail := TailSlots(p, s);
    forall k | 0 <= k < |got|
      ensures FreshPage(p, got[k]) || (tail > 0 && s != [] && got[k] / p.pageSize == s[|s| - 1] / p.pageSize)
    {
      NewPage(p, s, got, tail, k);
    }
  }

  lemma NewPage(p: Pool, s: seq<nat>, got: seq<nat>, tail: nat, k: nat)
    requires p.Valid() && PlacedAfter(p, s, got, tail) && k < |got|
    ensures FreshPage(p, got[k]) || (tail > 0 && s != [] && got[k] / p.pageSize == s[|s| - 1] / p.pageSize)
  {
    if tail <= k {
      assert OnFreePage(p, got[k], k - tail);
      assert got[k] / p.pageSize in p.free;
    }
  }

  ghost predicate InPages(slots: seq<nat>, pages: set<nat>, pageSize: nat)
    requires pageSize > 0
  {
    forall i :: 0 <= i < |slots| ==> slots[i] / pageSize in pages
  }

  lemma FreeSlotTaken(p: Pool, slot: nat, m: nat, need: nat)
    requires p.pageSize > 0 && OnFreePage(p, slot, m) && m < need * p.pageSize && need <= |p.free|
    ensures slot / p.pageSize in p.free[..need]
  {
    BlockInRange(m, need, p.pageSize);
    assert p.free[..need][m / p.pageSize] == slot / p.pageSize;
  }

  lemma PlacedTaken(p: Pool, s: seq<nat>, got: seq<nat>, tail: nat, need: nat, k: nat)
    requires p.pageSize > 0 && PlacedAfter(p, s, got, tail) && |got| <= tail + need * p.pageSize && need <= |p.free|
             && k < |got|
    ensures got[k] / p.pageSize in p.inUse || got[k] / p.pageSize in p.free[..need]
  {
    if k >= tail {
      FreeSlotTaken(p, got[k], k - tail, need);
    }
  }

  lemma TakenInUse(p: Pool, s: seq<nat>, n: nat)
    requires p.Valid() && Allocated(p, s, n).Ok?
    ensures InPages(Allocated(p, s, n).value, AfterAllocate(p, s, n).inUse, p.pageSize)
    ensures p.inUse <= AfterAllocate(p, s, n).inUse
  {
    var tail, need := TailSlots(p, s), Pages(p, s, n);
    CeilDivCovers(n - Min(tail, n), p.pageSize);
    AllocatedPlaced(p, s, n);
    TakenAll(p, s, Allocated(p, s, n).value, tail, need, AfterAllocate(p, s, n).inUse);
  }

  lemma TakenAll(p: Pool, s: seq<nat>, got: seq<nat>, tail: nat, need: nat, inUse: set<nat>)
    requires p.pageSize > 0 && PlacedAfter(p, s, got, tail) && |got| <= tail + need * p.pageSize && need <= |p.free|
    requires inUse == p.inUse + set x | x in p.free[..need]
    ensures InPages(got, inUse, p.pageSize)
  {
    forall k | 0 <= k < |got|
      ensures got[k] / p.pageSize in inUse
    {
      PlacedTaken(p, s, got, tail, need, k);
    }
  }
}
