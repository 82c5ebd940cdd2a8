/**
 * Requests over the shared radix cache and the page allocator (`scheduler.rs`): admission through the cache, prefill in
 * chunks that are published as they complete, decoding, failures, aborts and flushes, in any order.
 */
module Serving {
  import opened Basics
  import opened PageAllocator
  import opened PrefixReuse
  import R = RadixCache

  // ---------- the machine ----------

  /**
   * A request between its arrival and its end. `slots` is its slot list, of which the last `recent` were allocated for
   * the forward pass under way; `uncached` is the prompt length its match left open. `matched` and `published` are
   * history: how many slots came from the cache, and how many of the list the cache has been given.
   */
  datatype Request = Request(
    ids: seq<nat>, slots: seq<nat>, processed: nat, chunk: nat, uncached: nat, recent: nat,
    decoding: bool, forward: bool, matched: nat, published: nat)

  datatype State = State(pool: Pool, cache: R.RadixNode, live: map<nat, Request>)

  /** What a completed request does: go on, finish, or stay because the worker refused to finish it. */
  datatype Outcome = Continue | Finish | FinishRefused

  /** `Lose`: a later readiness check failed; the decode requests prepared before it are dropped, pages and all. */
  datatype Event =
    | Enqueue(id: nat, ids: seq<nat>)
    | PreparePrefill(id: nat, budget: nat)
    | PrepareDecode(id: nat)
    | Restore(id: nat)
    | Complete(id: nat, outcome: Outcome)
    | Requeue(id: nat)
    | Fail(id: nat)
    | Abort(id: nat)
    | Lose(id: nat)
    | Flush

  function Arrived(ids: seq<nat>): Request {
    Request(ids, [], 0, 0, |ids|, 0, false, false, 0, 0)
  }

  function MatchFor(s: State, r: Request): R.PrefixMatch
    requires s.pool.pageSize > 0
  {
    R.AlignedMatch(s.cache, r.ids, s.pool.pageSize)
  }

  /** A prompt the cache holds completely: its last token is computed again, into its cached slot. */
  predicate Replays(s: State, r: Request)
    requires s.pool.pageSize > 0
  {
    r.processed == 0 && r.ids != [] && MatchFor(s, r).remainingInputIds == []
  }

  /** The request as its match leaves it; a request that has made progress is not matched again. */
  function Matched(s: State, r: Request): Request
    requires s.pool.pageSize > 0
  {
    if r.processed != 0 then r else
    var m := MatchFor(s, r);
    var replay := Replays(s, r);
    r.(slots := m.cachePages, recent := 0, matched := |m.cachePages|, published := |m.cachePages|,
       processed := if replay then |r.ids| - 1 else m.matchedTokenCount,
       uncached := if replay then 1 else |m.remainingInputIds|)
  }

  function Put(s: State, id: nat, r: Request): State {
    s.(live := s.live[id := r])
  }

  function Drop(s: State, id: nat): State {
    s.(live := s.live - {id})
  }

  /** Slots appended for the next forward pass; without room the request stays as it is. */
  function Extended(s: State, id: nat, r: Request, n: nat): State
    requires s.pool.pageSize > 0
  {
    match Allocated(s.pool, r.slots, n)
    case Ok(got) =>
      Put(s.(pool := AfterAllocate(s.pool, r.slots, n)), id,
          r.(slots := r.slots + got, recent := n, chunk := n, forward := true))
    case Err(_) => Put(s, id, r)
  }

  function Prefill(s: State, id: nat, budget: nat): State
    requires s.pool.pageSize > 0 && id in s.live
  {
    var r := Matched(s, s.live[id]);
    if Replays(s, s.live[id]) then Put(s, id, r.(chunk := 1, forward := true))
    else Extended(s, id, r, ChunkLen(r, budget))
  }

  /** The allocator takes back the pages whose first slot lies at position `from` or later. */
  function ReleasedFrom(s: State, r: Request, from: nat): Pool
    requires s.pool.pageSize > 0
  {
    if from <= |r.slots| then AfterRelease(s.pool, r.slots[from..]) else s.pool
  }

  /** The prompt's slots stay with the cache, the rest is released. */
  function Ended(s: State, id: nat): State
    requires s.pool.pageSize > 0 && id in s.live
  {
    Drop(s.(pool := ReleasedFrom(s, s.live[id], |s.live[id].ids|)), id)
  }

  /** Where the current chunk begins in the slot list. */
  function Settled(r: Request): nat {
    if r.recent <= |r.slots| then |r.slots| - r.recent else 0
  }

  /** A prefill chunk that completed: progress, and the slots so far go to the cache. */
  function Published(s: State, id: nat): State
    requires id in s.live
  {
    var r := s.live[id];
    var processed := Min(r.processed + (if r.chunk > 0 then r.chunk else r.uncached), |r.ids|);
    var end := Min(processed, |r.slots|);
    Put(s.(cache := R.InsertPath(s.cache, r.ids[..end], r.slots[..end])), id,
        r.(processed := processed, recent := 0, published := Max(r.published, end)))
  }

  function Parked(s: State, id: nat, decoding: bool): State
    requires id in s.live
  {
    Put(s, id, s.live[id].(forward := false, recent := 0, chunk := 0, decoding := decoding))
  }

  function Completed(s: State, id: nat, outcome: Outcome): State
    requires s.pool.pageSize > 0 && id in s.live
  {
    var t := if s.live[id].decoding then s else Published(s, id);
    if !t.live[id].decoding && t.live[id].processed < |t.live[id].ids| then Parked(t, id, false)
    else if outcome.Finish? then Ended(t, id)
    else Parked(t, id, true)
  }

  /** The prepared forward pass is taken back: its pages are released and its slots forgotten. */
  function Restored(s: State, id: nat): State
    requires s.pool.pageSize > 0 && id in s.live
  {
    var r := s.live[id];
    Put(s.(pool := ReleasedFrom(s, r, Settled(r))), id,
        r.(slots := r.slots[..Settled(r)], forward := false, recent := 0, chunk := 0))
  }

  /** The forward pass failed: the request is gone with what it prepared. */
  function Failed(s: State, id: nat): State
    requires s.pool.pageSize > 0 && id in s.live
  {
    Drop(s.(pool := ReleasedFrom(s, s.live[id], Settled(s.live[id]))), id)
  }

  /** No request waits in a queue; `flush_cache` does not look at forward passes under way. */
  predicate QueuesEmpty(s: State) {
    forall id :: id in s.live ==> s.live[id].forward
  }

  function Serve(s: State, e: Event): (t: State)
    requires s.pool.pageSize > 0
    ensures t.pool.pageSize == s.pool.pageSize && t.pool.capacity == s.pool.capacity
  {
    match e
    case Enqueue(id, ids) => if id in s.live then s else Put(s, id, Arrived(ids))
    case PreparePrefill(id, budget) =>
      if id in s.live && !s.live[id].forward && !s.live[id].decoding then Prefill(s, id, budget) else s
    case PrepareDecode(id) =>
      if id in s.live && !s.live[id].forward && s.live[id].decoding then Extended(s, id, s.live[id], 1) else s
    case Restore(id) => if id in s.live && s.live[id].forward then Restored(s, id) else s
    case Complete(id, outcome) => if id in s.live && s.live[id].forward then Completed(s, id, outcome) else s
    case Requeue(id) => if id in s.live && s.live[id].forward then Parked(s, id, true) else s
    case Fail(id) =>
      if id in s.live && s.live[id].forward then Failed(s, id) else s
    case Abort(id) => if id in s.live && !s.live[id].forward then Ended(s, id) else s
    case Lose(id) => if id in s.live && s.live[id].forward && s.live[id].decoding then Drop(s, id) else s
    case Flush =>
      if QueuesEmpty(s) then State(FreshPool(s.pool.capacity, s.pool.pageSize), R.EMPTY, s.live) else s
  }

  // ---------- the invariant ----------

  /** From position m on, two slots share a page exactly when their positions share a block. */
  ghost predicate Blocks(slots: seq<nat>, m: nat, d: nat)
    requires d > 0
  {
    forall j: nat, k: nat :: m <= j < |slots| && m <= k < |slots| ==> InStep(slots, j, k, d)
  }

  ghost predicate InStep(slots: seq<nat>, j: nat, k: nat, d: nat)
    requires d > 0 && j < |slots| && k < |slots|
  {
    slots[j] / d == slots[k] / d <==> j / d == k / d
  }

  ghost predicate RequestSafe(r: Request, inUse: set<nat>, d: nat)
    requires d > 0
  {
    && r.matched % d == 0 && r.matched <= r.published <= |r.ids| && r.published + r.recent <= |r.slots|
    && Aligned(r.slots, d) && Blocks(r.slots, r.matched, d) && InPages(r.slots, inUse, d)
  }

  /** The slots past the match lie in pages the request took itself. */
  function Own(r: Request): seq<nat> {
    if r.matched <= |r.slots| then r.slots[r.matched..] else []
  }

  ghost predicate OwnPage(r: Request, d: nat, page: int)
    requires d > 0
  {
    exists j :: 0 <= j < |Own(r)| && Own(r)[j] / d == page
  }

  ghost predicate Apart(a: seq<nat>, b: seq<nat>, d: nat)
    requires d > 0
  {
    forall i, j :: 0 <= i < |a| && 0 <= j < |b| ==> a[i] / d != b[j] / d
  }

  /** If the slot lies in one of the request's own pages, it is one the request has published. */
  ghost predicate Covered(r: Request, x: nat, d: nat)
    requires d > 0
  {
    OwnPage(r, d, x / d) ==> exists j :: r.matched <= j < r.published && j < |r.slots| && r.slots[j] == x
  }

  ghost predicate CachedSlot(root: R.RadixNode, path: seq<nat>, x: nat) {
    path != [] && R.PageAt(root, path) == Some(x)
  }

  ghost predicate MatchedSlot(s: State, id: nat, i: nat, x: nat) {
    id in s.live && i < s.live[id].matched && i < |s.live[id].slots| && s.live[id].slots[i] == x
  }

  /** Slots that several parties may read: those in the cache, and those some request got from it. */
  ghost predicate Shared(s: State, x: nat) {
    (exists path :: CachedSlot(s.cache, path, x)) || exists id: nat, i: nat :: MatchedSlot(s, id, i, x)
  }

  ghost predicate Safe(s: State) {
    var d := s.pool.pageSize;
    && s.pool.Valid()
    && (forall path, x: nat :: CachedSlot(s.cache, path, x) ==> x % d == (|path| - 1) % d)
    && (forall x: nat :: Shared(s, x) ==>
          x / d in s.pool.inUse && forall id :: id in s.live ==> Covered(s.live[id], x, d))
    && (forall id :: id in s.live ==> RequestSafe(s.live[id], s.pool.inUse, d))
    && (forall a, b :: a in s.live && b in s.live && a != b ==> Apart(Own(s.live[a]), Own(s.live[b]), d))
  }

  /** Somebody, the request itself included, refers to the slot. */
  ghost predicate Referenced(s: State, x: nat) {
    (exists path :: CachedSlot(s.cache, path, x)) || exists id :: id in s.live && x in s.live[id].slots
  }

  // ---------- growing a slot list ----------

  /** The block after the tail: everything before it lies in a smaller block. */
  lemma EarlierBlock(i: nat, n: nat, d: nat)
    requires d > 0 && n % d == 0 && i < n
    ensures i / d < n / d
  {
    DivModSplit(n, d);
    BlockInRange(i, n / d, d);
  }

  lemma LaterBlock(n: nat, k: nat, d: nat)
    requires d > 0 && n % d == 0
    ensures (n + k) / d == n / d + k / d
  {
    DivModSplit(n, d);
    DivModSplit(k, d);
    assert (n / d + k / d) * d == n / d * d + k / d * d;
    DivModUnique(n + k, d, n / d + k / d, k % d);
  }

  lemma SameBlock(a: nat, k: nat, d: nat)
    requires d > 0 && a % d + k < d
    ensures (a + k) / d == a / d
  {
    DivModSplit(a, d);
    DivModUnique(a + k, d, a / d, a % d + k);
  }

  /** A list that a request may extend: aligned, in allocated pages, past the match in its own order. */
  ghost predicate Growable(p: Pool, slots: seq<nat>, m: nat) {
    p.Valid() && m % p.pageSize == 0 && m <= |slots| && Aligned(slots, p.pageSize)
    && InPages(slots, p.inUse, p.pageSize)
  }

  lemma TailIsOwn(p: Pool, slots: seq<nat>, m: nat)
    requires Growable(p, slots, m)
    ensures (|slots| + TailSlots(p, slots)) % p.pageSize == 0
    ensures TailSlots(p, slots) > 0 ==> m < |slots|
  {
    if slots != [] {
      assert slots[|slots| - 1] / p.pageSize in p.inUse;
    }
    TailOfAligned(p, slots);
  }

  /** A slot on the tail continues the block of the last one. */
  lemma TailPosition(p: Pool, slots: seq<nat>, m: nat, got: seq<nat>, tail: nat, k: nat)
    requires Growable(p, slots, m) && m < |slots| && PlacedAfter(p, slots, got, tail) && k < tail && k < |got|
    ensures got[k] / p.pageSize == slots[|slots| - 1] / p.pageSize
    ensures (|slots| + k) / p.pageSize == (|slots| - 1) / p.pageSize
    ensures got[k] % p.pageSize == (|slots| - 1) % p.pageSize + 1 + k
  {
    assert OnTailPage(p, slots, got[k], k);
    SameBlock(|slots| - 1, 1 + k, p.pageSize);
  }

  /** A slot past the tail lies in the free page its block number names. */
  lemma FreePosition(p: Pool, n: nat, slots: seq<nat>, got: seq<nat>, tail: nat, k: nat)
    requires p.pageSize > 0 && PlacedAfter(p, slots, got, tail) && tail <= k < |got| && n == |slots|
             && (n + tail) % p.pageSize == 0
    ensures var q := (n + k) / p.pageSize - (n + tail) / p.pageSize;
            0 <= q < |p.free| && got[k] / p.pageSize == p.free[q]
  {
    assert OnFreePage(p, got[k], k - tail);
    LaterBlock(n + tail, k - tail, p.pageSize);
  }

  /** Growing keeps pages and blocks in step. */
  lemma GrownBlocks(p: Pool, slots: seq<nat>, m: nat, got: seq<nat>)
    requires Growable(p, slots, m) && Blocks(slots, m, p.pageSize) && Placed(p, slots, got)
    ensures Blocks(slots + got, m, p.pageSize)
  {
    var all, d, tail := slots + got, p.pageSize, TailSlots(p, slots);
    TailIsOwn(p, slots, m);
    forall j: nat, k: nat | m <= j < |all| && m <= k < |all|
      ensures InStep(all, j, k, d)
    {
      PairInStep(p, slots, m, got, tail, j, k);
    }
  }

  /** A position up to the end of the tail shares page and block with a position of the old list. */
  lemma OldPosition(p: Pool, slots: seq<nat>, m: nat, got: seq<nat>, tail: nat, j: nat) returns (i: nat)
    requires Growable(p, slots, m) && PlacedAfter(p, slots, got, tail) && (tail > 0 ==> m < |slots|)
    requires (|slots| + tail) % p.pageSize == 0 && m <= j < |slots| + tail && j < |slots + got|
    ensures m <= i < |slots| && (slots + got)[j] / p.pageSize == slots[i] / p.pageSize
    ensures j / p.pageSize == i / p.pageSize < (|slots| + tail) / p.pageSize
  {
    if j >= |slots| {
      i := |slots| - 1;
      TailPosition(p, slots, m, got, tail, j - |slots|);
    } else {
      i := j;
    }
    EarlierBlock(i, |slots| + tail, p.pageSize);
  }

  lemma NewPosition(p: Pool, slots: seq<nat>, m: nat, got: seq<nat>, tail: nat, j: nat) returns (q: nat)
    requires Growable(p, slots, m) && PlacedAfter(p, slots, got, tail)
    requires (|slots| + tail) % p.pageSize == 0 && |slots| + tail <= j < |slots + got|
    ensures q < |p.free| && (slots + got)[j] / p.pageSize == p.free[q] && p.free[q] !in p.inUse
    ensures j / p.pageSize == (|slots| + tail) / p.pageSize + q
  {
    FreePosition(p, |slots|, slots, got, tail, j - |slots|);
    q := j / p.pageSize - (|slots| + tail) / p.pageSize;
    assert p.free[q] in p.free;
  }

  lemma PairInStep(p: Pool, slots: seq<nat>, m: nat, got: seq<nat>, tail: nat, j: nat, k: nat)
    requires Growable(p, slots, m) && Blocks(slots, m, p.pageSize) && PlacedAfter(p, slots, got, tail)
             && (tail > 0 ==> m < |slots|)
    requires (|slots| + tail) % p.pageSize == 0 && m <= j < |slots + got| && m <= k < |slots + got|
    ensures InStep(slots + got, j, k, p.pageSize)
  {
    var end := |slots| + tail;
    if j < end && k < end {
      var i := OldPosition(p, slots, m, got, tail, j);
      var i' := OldPosition(p, slots, m, got, tail, k);
      assert InStep(slots, i, i', p.pageSize);
    } else if j < end {
      MixedPair(p, slots, m, got, tail, j, k);
    } else if k < end {
      MixedPair(p, slots, m, got, tail, k, j);
    } else {
      var q := NewPosition(p, slots, m, got, tail, j);
      var q' := NewPosition(p, slots, m, got, tail, k);
    }
  }

  lemma MixedPair(p: Pool, slots: seq<nat>, m: nat, got: seq<nat>, tail: nat, j: nat, k: nat)
    requires Growable(p, slots, m) && PlacedAfter(p, slots, got, tail) && (tail > 0 ==> m < |slots|)
    requires (|slots| + tail) % p.pageSize == 0 && m <= j < |slots| + tail <= k < |slots + got|
    ensures (slots + got)[j] / p.pageSize != (slots + got)[k] / p.pageSize && j / p.pageSize != k / p.pageSize
  {
    var i := OldPosition(p, slots, m, got, tail, j);
    var q := NewPosition(p, slots, m, got, tail, k);
    assert slots[i] / p.pageSize in p.inUse;
  }

  /** The new slots lie in pages that were free, or in the last of the request's own pages. */
  lemma GrownPages(p: Pool, slots: seq<nat>, m: nat, got: seq<nat>, k: nat)
    requires Growable(p, slots, m) && Placed(p, slots, got) && k < |got|
    ensures FreshPage(p, got[k]) || (m < |slots| && got[k] / p.pageSize == slots[|slots| - 1] / p.pageSize)
  {
    TailIsOwn(p, slots, m);
    NewPage(p, slots, got, TailSlots(p, slots), k);
  }

  /** A new slot on the request's last page is none the list holds already. */
  lemma NotInOwn(p: Pool, slots: seq<nat>, m: nat, got: seq<nat>, k: nat, q: nat)
    requires Growable(p, slots, m) && Blocks(slots, m, p.pageSize) && Placed(p, slots, got) && k < |got|
             && m <= q < |slots|
    ensures got[k] != slots[q]
  {
    var d, tail := p.pageSize, TailSlots(p, slots);
    TailIsOwn(p, slots, m);
    if k < tail {
      TailPosition(p, slots, m, got, tail, k);
      assert InStep(slots, q, |slots| - 1, d);
      DivModSplit(q, d);
      DivModSplit(|slots| - 1, d);
    } else {
      NewPage(p, slots, got, tail, k);
      FreePosition(p, |slots|, slots, got, tail, k);
    }
  }

  // ---------- extending a request ----------

  /** The request after an allocation: the same, with more slots of its own. */
  ghost predicate Grown(r: Request, r': Request, got: seq<nat>) {
    r'.slots == r.slots + got && r'.ids == r.ids && r'.matched == r.matched && r'.published == r.published
    && r'.recent == |got|
  }

  lemma OwnGrown(r: Request, r': Request, got: seq<nat>)
    requires r.matched <= |r.slots| && Grown(r, r', got)
    ensures Own(r') == Own(r) + got
  {
  }

  /** Every page of the grown request was its own, or free. */
  lemma OwnPagesGrown(p: Pool, r: Request, r': Request, got: seq<nat>, i: nat)
    requires p.Valid() && RequestSafe(r, p.inUse, p.pageSize) && Placed(p, r.slots, got) && Grown(r, r', got)
             && i < |Own(r')|
    ensures OwnPage(r, p.pageSize, Own(r')[i] / p.pageSize) || FreshPage(p, Own(r')[i])
  {
    OwnGrown(r, r', got);
    if i < |Own(r)| {
      OldOwnPage(r, got, Own(r'), p.pageSize, i);
    } else {
      NewOwnPage(p, r, got, Own(r'), i);
    }
  }

  lemma OldOwnPage(r: Request, got: seq<nat>, own: seq<nat>, d: nat, i: nat)
    requires d > 0 && own == Own(r) + got && i < |Own(r)|
    ensures OwnPage(r, d, own[i] / d)
  {
    assert Own(r)[i] == own[i];
  }

  lemma NewOwnPage(p: Pool, r: Request, got: seq<nat>, own: seq<nat>, i: nat)
    requires p.Valid() && RequestSafe(r, p.inUse, p.pageSize) && Placed(p, r.slots, got)
    requires own == Own(r) + got && |Own(r)| <= i < |own|
    ensures OwnPage(r, p.pageSize, own[i] / p.pageSize) || FreshPage(p, own[i])
  {
    var k := i - |Own(r)|;
    assert own[i] == got[k];
    GrownPages(p, r.slots, r.matched, got, k);
    if !FreshPage(p, got[k]) {
      OwnPageAt(r, |r.slots| - 1, p.pageSize, got[k] / p.pageSize);
    }
  }

  lemma OwnPageAt(r: Request, j: nat, d: nat, page: int)
    requires d > 0 && r.matched <= j < |r.slots| && r.slots[j] / d == page
    ensures OwnPage(r, d, page)
  {
    assert Own(r)[j - r.matched] / d == page;
  }

  lemma OwnPageBefore(p: Pool, r: Request, r': Request, got: seq<nat>, page: int)
    requires p.Valid() && RequestSafe(r, p.inUse, p.pageSize) && Placed(p, r.slots, got) && Grown(r, r', got)
    requires OwnPage(r', p.pageSize, page) && page in p.inUse
    ensures OwnPage(r, p.pageSize, page)
  {
    var i :| 0 <= i < |Own(r')| && Own(r')[i] / p.pageSize == page;
    OwnPagesGrown(p, r, r', got, i);
  }

  lemma CoveredAgain(r: Request, r': Request, x: nat, d: nat)
    requires d > 0 && Covered(r, x, d) && (OwnPage(r', d, x / d) ==> OwnPage(r, d, x / d))
    requires r.slots <= r'.slots && r'.matched == r.matched && r'.published == r.published
    ensures Covered(r', x, d)
  {
    if OwnPage(r', d, x / d) {
      var j :| r.matched <= j < r.published && j < |r.slots| && r.slots[j] == x;
      assert r'.slots[j] == x;
    }
  }

  lemma CoveredGrown(p: Pool, r: Request, r': Request, got: seq<nat>, x: nat)
    requires p.Valid() && RequestSafe(r, p.inUse, p.pageSize) && Placed(p, r.slots, got) && Grown(r, r', got)
    requires Covered(r, x, p.pageSize) && x / p.pageSize in p.inUse
    ensures Covered(r', x, p.pageSize)
  {
    if OwnPage(r', p.pageSize, x / p.pageSize) {
      OwnPageBefore(p, r, r', got, x / p.pageSize);
    }
    CoveredAgain(r, r', x, p.pageSize);
  }

  lemma ApartGrown(p: Pool, r: Request, r': Request, got: seq<nat>, b: Request)
    requires p.Valid() && RequestSafe(r, p.inUse, p.pageSize) && Placed(p, r.slots, got) && Grown(r, r', got)
    requires RequestSafe(b, p.inUse, p.pageSize) && Apart(Own(r), Own(b), p.pageSize)
    ensures Apart(Own(r'), Own(b), p.pageSize) && Apart(Own(b), Own(r'), p.pageSize)
  {
    forall i, j | 0 <= i < |Own(r')| && 0 <= j < |Own(b)|
      ensures Own(r')[i] / p.pageSize != Own(b)[j] / p.pageSize
    {
      GrownApartAt(p, r, r', got, b, i, j);
    }
    ApartBothWays(Own(r'), Own(b), p.pageSize);
  }

  lemma ApartBothWays(a: seq<nat>, b: seq<nat>, d: nat)
    requires d > 0 && Apart(a, b, d)
    ensures Apart(b, a, d)
  {
  }

  lemma GrownApartAt(p: Pool, r: Request, r': Request, got: seq<nat>, b: Request, i: nat, j: nat)
    requires p.Valid() && RequestSafe(r, p.inUse, p.pageSize) && Placed(p, r.slots, got) && Grown(r, r', got)
    requires RequestSafe(b, p.inUse, p.pageSize) && Apart(Own(r), Own(b), p.pageSize)
    requires i < |Own(r')| && j < |Own(b)|
    ensures Own(r')[i] / p.pageSize != Own(b)[j] / p.pageSize
  {
    OwnPagesGrown(p, r, r', got, i);
    ApartAt(p, r, b, Own(r')[i], j);
  }

  lemma ApartAt(p: Pool, r: Request, b: Request, x: nat, j: nat)
    requires p.Valid() && RequestSafe(b, p.inUse, p.pageSize) && Apart(Own(r), Own(b), p.pageSize) && j < |Own(b)|
    requires OwnPage(r, p.pageSize, x / p.pageSize) || FreshPage(p, x)
    ensures x / p.pageSize != Own(b)[j] / p.pageSize
  {
    OwnInUse(b, p.inUse, p.pageSize, j);
    PageApart(r, b, p.pageSize, x / p.pageSize, j);
  }

  lemma OwnInUse(b: Request, inUse: set<nat>, d: nat, j: nat)
    requires d > 0 && RequestSafe(b, inUse, d) && j < |Own(b)|
    ensures Own(b)[j] / d in inUse
  {
    assert Own(b)[j] == b.slots[b.matched + j];
  }

  lemma PageApart(r: Request, b: Request, d: nat, page: int, j: nat)
    requires d > 0 && Apart(Own(r), Own(b), d) && j < |Own(b)|
    ensures OwnPage(r, d, page) ==> Own(b)[j] / d != page
  {
  }

  lemma RequestGrown(p: Pool, r: Request, r': Request, n: nat)
    requires p.Valid() && RequestSafe(r, p.inUse, p.pageSize) && Allocated(p, r.slots, n).Ok?
             && Grown(r, r', Allocated(p, r.slots, n).value)
    ensures RequestSafe(r', AfterAllocate(p, r.slots, n).inUse, p.pageSize)
  {
    var got, d := Allocated(p, r.slots, n).value, p.pageSize;
    AllocatedPlaced(p, r.slots, n);
    if r.slots != [] {
      assert r.slots[|r.slots| - 1] / d in p.inUse;
    }
    GrowthKeepsAlignmentIff(p, r.slots, n);
    GrownBlocks(p, r.slots, r.matched, got);
    TakenInUse(p, r.slots, n);
  }

  ghost predicate SharedSafe(s: State, x: nat) {
    && s.pool.pageSize > 0 && x / s.pool.pageSize in s.pool.inUse
    && forall id :: id in s.live ==> Covered(s.live[id], x, s.pool.pageSize)
  }

  lemma SharedExtended(s: State, t: State, id: nat, got: seq<nat>, x: nat)
    requires Safe(s) && id in s.live && id in t.live && Placed(s.pool, s.live[id].slots, got)
             && Grown(s.live[id], t.live[id], got)
    requires t.cache == s.cache && t.pool.pageSize == s.pool.pageSize && s.pool.inUse <= t.pool.inUse
    requires t.live == s.live[id := t.live[id]] && Shared(t, x)
    ensures SharedSafe(t, x)
  {
    SharedBefore(s, t, id, x);
    CoveredGrown(s.pool, s.live[id], t.live[id], got, x);
  }

  lemma ExtendSafe(s: State, id: nat, r: Request, n: nat)
    requires Safe(s) && id in s.live && s.live[id] == r
    ensures Safe(Extended(s, id, r, n))
  {
    var p, t := s.pool, Extended(s, id, r, n);
    if Allocated(p, r.slots, n).Ok? {
      var got, r' := Allocated(p, r.slots, n).value, t.live[id];
      AllocatedPlaced(p, r.slots, n);
      AfterAllocateValid(p, r.slots, n);
      TakenInUse(p, r.slots, n);
      RequestGrown(p, r, r', n);
      forall x: nat | Shared(t, x)
        ensures SharedSafe(t, x)
      {
        SharedExtended(s, t, id, got, x);
      }
      forall b | b in s.live && b != id
        ensures Apart(Own(r'), Own(s.live[b]), p.pageSize) && Apart(Own(s.live[b]), Own(r'), p.pageSize)
      {
        ApartGrown(p, r, r', got, s.live[b]);
      }
    } else {
      assert t == s;
    }
  }

  lemma SharedBefore(s: State, t: State, id: nat, x: nat)
    requires Shared(t, x) && t.cache == s.cache && id in s.live && id in t.live
    requires forall b :: b in t.live && b != id ==> b in s.live && t.live[b] == s.live[b]
    requires t.live[id].matched == s.live[id].matched <= |s.live[id].slots| && s.live[id].slots <= t.live[id].slots
    ensures Shared(s, x)
  {
    if !exists path :: CachedSlot(s.cache, path, x) {
      var b: nat, i: nat :| MatchedSlot(t, b, i, x);
      assert MatchedSlot(s, b, i, x);
    }
  }

  // ---------- an allocated slot is nobody's ----------

  /** Whoever refers to a slot in one of the request's own pages refers to a slot of the request's list. */
  lemma ReferencedIsOwn(s: State, id: nat, x: nat)
    requires Safe(s) && id in s.live && OwnPage(s.live[id], s.pool.pageSize, x / s.pool.pageSize) && Referenced(s, x)
    ensures exists q :: s.live[id].matched <= q < |s.live[id].slots| && s.live[id].slots[q] == x
  {
    if Shared(s, x) {
      assert SharedSafe(s, x);
      assert Covered(s.live[id], x, s.pool.pageSize);
    } else {
      var b, i := ReferencedBy(s, x);
      OwnedByOne(s, id, b, i);
    }
  }

  lemma ReferencedBy(s: State, x: nat) returns (b: nat, i: nat)
    requires Referenced(s, x) && !Shared(s, x)
    ensures b in s.live && s.live[b].matched <= i < |s.live[b].slots| && s.live[b].slots[i] == x
  {
    b :| b in s.live && x in s.live[b].slots;
    i :| 0 <= i < |s.live[b].slots| && s.live[b].slots[i] == x;
    assert !MatchedSlot(s, b, i, x);
  }

  /** A page of a request's own holds no own slot of another. */
  lemma OwnedByOne(s: State, id: nat, b: nat, i: nat)
    requires Safe(s) && id in s.live && b in s.live && s.live[b].matched <= i < |s.live[b].slots|
    requires OwnPage(s.live[id], s.pool.pageSize, s.live[b].slots[i] / s.pool.pageSize)
    ensures b == id
  {
    var a, r := s.live[b], s.live[id];
    assert Own(a)[i - a.matched] == a.slots[i];
    NotApart(Own(a), i - a.matched, r, s.pool.pageSize);
  }

  lemma NotApart(a: seq<nat>, i: nat, r: Request, d: nat)
    requires d > 0 && i < |a| && OwnPage(r, d, a[i] / d)
    ensures !Apart(a, Own(r), d)
  {
    var j :| 0 <= j < |Own(r)| && Own(r)[j] / d == a[i] / d;
  }

  lemma ReferencedInUse(s: State, x: nat)
    requires Safe(s) && Referenced(s, x)
    ensures x / s.pool.pageSize in s.pool.inUse
  {
    if Shared(s, x) {
      assert SharedSafe(s, x);
    } else {
      var b :| b in s.live && x in s.live[b].slots;
      assert RequestSafe(s.live[b], s.pool.inUse, s.pool.pageSize);
    }
  }

  /** What the allocator hands to a request is referred to by nobody: not the cache, not any request. */
  lemma AllocatedUnreferenced(s: State, id: nat, n: nat, k: nat)
    requires Safe(s) && id in s.live && Allocated(s.pool, s.live[id].slots, n).Ok?
             && k < |Allocated(s.pool, s.live[id].slots, n).value|
    ensures !Referenced(s, Allocated(s.pool, s.live[id].slots, n).value[k])
  {
    var p, r := s.pool, s.live[id];
    var got := Allocated(p, r.slots, n).value;
    assert RequestSafe(r, p.inUse, p.pageSize);
    AllocatedPlaced(p, r.slots, n);
    GrownPages(p, r.slots, r.matched, got, k);
    if Referenced(s, got[k]) {
      ReferencedInUse(s, got[k]);
      assert Own(r)[|Own(r)| - 1] == r.slots[|r.slots| - 1];
      ReferencedIsOwn(s, id, got[k]);
      var q :| r.matched <= q < |r.slots| && r.slots[q] == got[k];
      NotInOwn(p, r.slots, r.matched, got, k, q);
    }
  }

  // ---------- releasing the end of a slot list ----------

  /** Only pages whose first slot is listed are released. */
  lemma {:induction false} ReleasedFirst(p: Pool, slots: seq<nat>, page: int)
    requires p.pageSize > 0 && page in Released(p, slots)
    ensures exists i :: 0 <= i < |slots| && slots[i] / p.pageSize == page && slots[i] % p.pageSize == 0
  {
    var n := |slots| - 1;
    if page in Released(p, slots[..n]) {
      ReleasedFirst(p, slots[..n], page);
      var i :| 0 <= i < n && slots[..n][i] / p.pageSize == page && slots[..n][i] % p.pageSize == 0;
      assert slots[i] / p.pageSize == page && slots[i] % p.pageSize == 0;
    } else {
      assert slots[n] / p.pageSize == page;
    }
  }

  /** A page released from position c on holds no earlier slot of the request. */
  lemma KeptBefore(p: Pool, r: Request, c: nat, q: nat)
    requires p.Valid() && RequestSafe(r, p.inUse, p.pageSize) && r.matched <= q < c <= |r.slots|
    ensures r.slots[q] / p.pageSize !in Released(p, r.slots[c..])
  {
    var d, page := p.pageSize, r.slots[q] / p.pageSize;
    if page in Released(p, r.slots[c..]) {
      ReleasedFirst(p, r.slots[c..], page);
      var i :| 0 <= i < |r.slots[c..]| && r.slots[c..][i] / d == page && r.slots[c..][i] % d == 0;
      assert InStep(r.slots, q, c + i, d);
      FirstOfBlock(r.slots, q, c + i, d);
    }
  }

  lemma FirstOfBlock(slots: seq<nat>, q: nat, j: nat, d: nat)
    requires d > 0 && q < j < |slots| && Aligned(slots, d) && slots[j] % d == 0
    ensures q / d != j / d
  {
    EarlierBlock(q, j, d);
  }

  lemma ReleasedIsOwn(p: Pool, r: Request, c: nat, page: int)
    requires p.pageSize > 0 && r.matched <= c <= |r.slots| && page in Released(p, r.slots[c..])
    ensures OwnPage(r, p.pageSize, page)
  {
    ReleasedFirst(p, r.slots[c..], page);
    var i :| 0 <= i < |r.slots[c..]| && r.slots[c..][i] / p.pageSize == page;
    assert Own(r)[c - r.matched + i] == r.slots[c..][i];
  }

  /** The request keeps its first c slots; the allocator takes back what begins later. */
  ghost predicate CutTo(s: State, t: State, id: nat, c: nat) {
    && s.pool.pageSize > 0 && id in s.live && id in t.live && s.live[id].published <= c <= |s.live[id].slots|
    && t.cache == s.cache && t.pool == AfterRelease(s.pool, s.live[id].slots[c..]) && t.live == s.live[id := t.live[id]]
    && t.live[id].slots == s.live[id].slots[..c] && t.live[id].recent == 0 && t.live[id].ids == s.live[id].ids
    && t.live[id].matched == s.live[id].matched && t.live[id].published == s.live[id].published
  }

  lemma SharedKept(s: State, id: nat, c: nat, x: nat)
    requires Safe(s) && id in s.live && s.live[id].published <= c <= |s.live[id].slots| && Shared(s, x)
    ensures x / s.pool.pageSize in AfterRelease(s.pool, s.live[id].slots[c..]).inUse
  {
    var p, r := s.pool, s.live[id];
    assert SharedSafe(s, x);
    if x / p.pageSize in Released(p, r.slots[c..]) {
      ReleasedIsOwn(p, r, c, x / p.pageSize);
      assert Covered(r, x, p.pageSize);
      var j :| r.matched <= j < r.published && j < |r.slots| && r.slots[j] == x;
      KeptBefore(p, r, c, j);
    }
  }

  lemma SharedCut(s: State, t: State, id: nat, c: nat, x: nat)
    requires Safe(s) && CutTo(s, t, id, c) && Shared(t, x)
    ensures Shared(s, x) && SharedSafe(t, x)
  {
    var d, r, r' := s.pool.pageSize, s.live[id], t.live[id];
    assert RequestSafe(r, s.pool.inUse, d);
    if !exists path :: CachedSlot(s.cache, path, x) {
      var b: nat, i: nat :| MatchedSlot(t, b, i, x);
      assert MatchedSlot(s, b, i, x);
    }
    SharedKept(s, id, c, x);
    assert SharedSafe(s, x);
    CoveredCut(r, r', c, x, d);
  }

  lemma CoveredCut(r: Request, r': Request, c: nat, x: nat, d: nat)
    requires d > 0 && Covered(r, x, d) && r.matched <= r.published <= c <= |r.slots|
    requires r'.slots == r.slots[..c] && r'.matched == r.matched && r'.published == r.published
    ensures Covered(r', x, d)
  {
    assert Own(r') == Own(r)[..c - r.matched];
    if OwnPage(r', d, x / d) {
      var i :| 0 <= i < |Own(r')| && Own(r')[i] / d == x / d;
      assert Own(r)[i] / d == x / d;
      var j :| r.matched <= j < r.published && j < |r.slots| && r.slots[j] == x;
      assert r'.slots[j] == x;
    }
  }

  /** The slots of the others, and those the request keeps, stay in allocated pages. */
  lemma PagesKept(s: State, t: State, id: nat, c: nat, b: nat, i: nat)
    requires Safe(s) && CutTo(s, t, id, c) && b in t.live && i < |t.live[b].slots|
    ensures t.live[b].slots[i] / s.pool.pageSize in t.pool.inUse
  {
    var d, x := s.pool.pageSize, t.live[b].slots[i];
    assert RequestSafe(s.live[b], s.pool.inUse, d) && RequestSafe(s.live[id], s.pool.inUse, d);
    assert s.live[b].slots[i] == x;
    if i < s.live[b].matched {
      assert MatchedSlot(s, b, i, x);
      SharedKept(s, id, c, x);
    } else if b == id {
      KeptBefore(s.pool, s.live[id], c, i);
    } else {
      OthersKept(s, id, c, b, i);
    }
  }

  lemma OthersKept(s: State, id: nat, c: nat, b: nat, i: nat)
    requires Safe(s) && id in s.live && b in s.live && b != id && s.live[id].matched <= c <= |s.live[id].slots|
    requires s.live[b].matched <= i < |s.live[b].slots|
    ensures s.live[b].slots[i] / s.pool.pageSize !in Released(s.pool, s.live[id].slots[c..])
  {
    var page := s.live[b].slots[i] / s.pool.pageSize;
    if page in Released(s.pool, s.live[id].slots[c..]) {
      ReleasedIsOwn(s.pool, s.live[id], c, page);
      OwnedByOne(s, id, b, i);
    }
  }

  lemma RequestCut(s: State, t: State, id: nat, c: nat, b: nat)
    requires Safe(s) && CutTo(s, t, id, c) && b in t.live
    ensures RequestSafe(t.live[b], t.pool.inUse, s.pool.pageSize)
  {
    assert RequestSafe(s.live[b], s.pool.inUse, s.pool.pageSize);
    forall i: nat | i < |t.live[b].slots|
      ensures t.live[b].slots[i] / s.pool.pageSize in t.pool.inUse
    {
      PagesKept(s, t, id, c, b, i);
    }
    if b == id {
      BlocksCut(s.live[id].slots, s.live[id].matched, c, s.pool.pageSize);
    }
  }

  lemma BlocksCut(slots: seq<nat>, m: nat, c: nat, d: nat)
    requires d > 0 && Blocks(slots, m, d) && c <= |slots|
    ensures Blocks(slots[..c], m, d)
  {
    forall j: nat, k: nat | m <= j < c && m <= k < c
      ensures InStep(slots[..c], j, k, d)
    {
      assert InStep(slots, j, k, d);
    }
  }

  lemma ApartPrefix(a: seq<nat>, b: seq<nat>, a': seq<nat>, b': seq<nat>, d: nat)
    requires d > 0 && Apart(a, b, d) && a' <= a && b' <= b
    ensures Apart(a', b', d)
  {
  }

  lemma CutSafe(s: State, t: State, id: nat, c: nat)
    requires Safe(s) && CutTo(s, t, id, c)
    ensures Safe(t)
  {
    AfterReleaseValid(s.pool, s.live[id].slots[c..]);
    forall x: nat | Shared(t, x)
      ensures SharedSafe(t, x)
    {
      SharedCut(s, t, id, c, x);
    }
    forall b | b in t.live
      ensures RequestSafe(t.live[b], t.pool.inUse, s.pool.pageSize)
    {
      RequestCut(s, t, id, c, b);
    }
    assert RequestSafe(s.live[id], s.pool.inUse, s.pool.pageSize);
    assert Own(t.live[id]) == Own(s.live[id])[..c - s.live[id].matched];
    forall a, b | a in t.live && b in t.live && a != b
      ensures Apart(Own(t.live[a]), Own(t.live[b]), s.pool.pageSize)
    {
      ApartPrefix(Own(s.live[a]), Own(s.live[b]), Own(t.live[a]), Own(t.live[b]), s.pool.pageSize);
    }
  }

  /** A request that leaves takes nothing from the others. */
  lemma DropSafe(s: State, id: nat)
    requires Safe(s)
    ensures Safe(Drop(s, id))
  {
    var t := Drop(s, id);
    forall x: nat | Shared(t, x)
      ensures SharedSafe(t, x)
    {
      if !exists path :: CachedSlot(s.cache, path, x) {
        var b: nat, i: nat :| MatchedSlot(t, b, i, x);
        assert MatchedSlot(s, b, i, x);
      }
      assert SharedSafe(s, x);
    }
  }

  lemma EndSafe(s: State, id: nat)
    requires Safe(s) && id in s.live
    ensures Safe(Ended(s, id))
  {
    var r := s.live[id];
    var c := |r.ids|;
    assert RequestSafe(r, s.pool.inUse, s.pool.pageSize);
    if c <= |r.slots| {
      var t := Put(s.(pool := AfterRelease(s.pool, r.slots[c..])), id, r.(slots := r.slots[..c], recent := 0));
      CutSafe(s, t, id, c);
      DropSafe(t, id);
      assert Drop(t, id) == Ended(s, id);
    } else {
      DropSafe(s, id);
    }
  }

  lemma RestoreSafe(s: State, id: nat)
    requires Safe(s) && id in s.live
    ensures Safe(Restored(s, id)) && Safe(Failed(s, id))
  {
    var r, t := s.live[id], Restored(s, id);
    assert RequestSafe(r, s.pool.inUse, s.pool.pageSize);
    CutSafe(s, t, id, Settled(r));
    DropSafe(t, id);
    assert Drop(t, id) == Failed(s, id);
  }

  // ---------- matching, publishing, parking ----------

  /** The slots a match returns are cached ones, position by position, up to a page boundary. */
  lemma MatchIsCached(s: State, r: Request)
    requires s.pool.pageSize > 0
    ensures var m := MatchFor(s, r);
            && |m.cachePages| == m.matchedTokenCount <= |r.ids| && |m.cachePages| % s.pool.pageSize == 0
            && m.remainingInputIds == r.ids[m.matchedTokenCount..]
            && forall i :: 0 <= i < |m.cachePages| ==> CachedSlot(s.cache, r.ids[..i + 1], m.cachePages[i])
  {
    var d, pages := s.pool.pageSize, R.Walk(s.cache, r.ids);
    R.WalkIsPageAt(s.cache, r.ids);
    R.AlignedMatchIsPrefix(s.cache, r.ids, d);
    AlignDownMultiple(|pages|, d);
  }

  lemma MatchSafe(s: State, id: nat)
    requires Safe(s) && id in s.live
    ensures Safe(Put(s, id, Matched(s, s.live[id])))
  {
    var d, r, r' := s.pool.pageSize, s.live[id], Matched(s, s.live[id]);
    var t := Put(s, id, r');
    if r.processed != 0 {
      assert t == s;
    } else {
      MatchIsCached(s, r);
      MatchedRequestSafe(s, r);
      assert Own(r') == [];
      forall x: nat | Shared(t, x)
        ensures SharedSafe(t, x)
      {
        SharedMatched(s, t, id, x);
      }
      forall a, b | a in t.live && b in t.live && a != b
        ensures Apart(Own(t.live[a]), Own(t.live[b]), d)
      {
        if a != id && b != id {
          assert Apart(Own(s.live[a]), Own(s.live[b]), d);
        }
      }
    }
  }

  lemma MatchedRequestSafe(s: State, r: Request)
    requires Safe(s) && r.processed == 0
    ensures RequestSafe(Matched(s, r), s.pool.inUse, s.pool.pageSize)
  {
    var d, m := s.pool.pageSize, MatchFor(s, r);
    MatchIsCached(s, r);
    forall i | 0 <= i < |m.cachePages|
      ensures m.cachePages[i] % d == i % d && m.cachePages[i] / d in s.pool.inUse
    {
      assert CachedSlot(s.cache, r.ids[..i + 1], m.cachePages[i]);
      assert Shared(s, m.cachePages[i]);
    }
  }

  lemma SharedMatched(s: State, t: State, id: nat, x: nat)
    requires Safe(s) && id in s.live && s.live[id].processed == 0 && t == Put(s, id, Matched(s, s.live[id]))
             && Shared(t, x)
    ensures SharedSafe(t, x)
  {
    MatchIsCached(s, s.live[id]);
    if b: nat, i: nat :| MatchedSlot(t, b, i, x) {
      if b == id {
        assert CachedSlot(s.cache, s.live[id].ids[..i + 1], x);
      } else {
        assert MatchedSlot(s, b, i, x);
      }
    }
    assert Shared(s, x);
    assert SharedSafe(s, x);
    assert Own(t.live[id]) == [];
  }

  /** Changing what the invariant does not speak of. */
  ghost predicate SameHolding(r: Request, r': Request) {
    r'.ids == r.ids && r'.slots == r.slots && r'.matched == r.matched && r'.published == r.published
    && r'.recent <= r.recent
  }

  lemma SharedParked(s: State, id: nat, r': Request, x: nat)
    requires Safe(s) && id in s.live && SameHolding(s.live[id], r') && Shared(Put(s, id, r'), x)
    ensures SharedSafe(Put(s, id, r'), x)
  {
    assert RequestSafe(s.live[id], s.pool.inUse, s.pool.pageSize);
    SharedBefore(s, Put(s, id, r'), id, x);
    assert SharedSafe(s, x);
    CoveredMore(s.live[id], r', x, s.pool.pageSize);
  }

  lemma ParkSafe(s: State, id: nat, r': Request)
    requires Safe(s) && id in s.live && SameHolding(s.live[id], r')
    ensures Safe(Put(s, id, r'))
  {
    var t := Put(s, id, r');
    assert RequestSafe(s.live[id], s.pool.inUse, s.pool.pageSize);
    forall x: nat | Shared(t, x)
      ensures SharedSafe(t, x)
    {
      SharedParked(s, id, r', x);
    }
    assert Own(r') == Own(s.live[id]);
    forall a, b | a in t.live && b in t.live && a != b
      ensures Apart(Own(t.live[a]), Own(t.live[b]), s.pool.pageSize)
    {
      assert Apart(Own(s.live[a]), Own(s.live[b]), s.pool.pageSize);
    }
  }

  lemma EnqueueSafe(s: State, id: nat, ids: seq<nat>)
    requires Safe(s) && id !in s.live
    ensures Safe(Put(s, id, Arrived(ids)))
  {
    var t := Put(s, id, Arrived(ids));
    forall x: nat | Shared(t, x)
      ensures SharedSafe(t, x)
    {
      if !exists path :: CachedSlot(s.cache, path, x) {
        var b: nat, i: nat :| MatchedSlot(t, b, i, x);
        assert MatchedSlot(s, b, i, x);
      }
      assert SharedSafe(s, x);
    }
    DivModUnique(0, s.pool.pageSize, 0, 0);
  }

  /** Publishing the first `end` slots of a request under the first tokens of its prompt. */
  ghost predicate PublishedTo(s: State, t: State, id: nat, end: nat) {
    && id in s.live && id in t.live && end <= |s.live[id].ids| && end <= |s.live[id].slots|
    && t.pool == s.pool && t.live == s.live[id := t.live[id]]
    && t.cache == R.InsertPath(s.cache, s.live[id].ids[..end], s.live[id].slots[..end])
    && t.live[id].ids == s.live[id].ids && t.live[id].slots == s.live[id].slots
       && t.live[id].matched == s.live[id].matched
    && t.live[id].recent == 0 && t.live[id].published == Max(s.live[id].published, end)
  }

  lemma PublishedAt(s: State, t: State, id: nat, end: nat, path: seq<nat>, x: nat)
    requires PublishedTo(s, t, id, end) && CachedSlot(t.cache, path, x)
    ensures CachedSlot(s.cache, path, x) || (|path| <= end && s.live[id].slots[|path| - 1] == x)
  {
    R.InsertPageAt(s.cache, s.live[id].ids[..end], s.live[id].slots[..end], path);
  }

  /** Every slot that is shared afterwards was shared before, or is one of those just published. */
  lemma SharedPublished(s: State, t: State, id: nat, end: nat, x: nat)
    requires PublishedTo(s, t, id, end) && Shared(t, x)
    ensures Shared(s, x) || exists i :: 0 <= i < end && s.live[id].slots[i] == x
  {
    if path :| CachedSlot(t.cache, path, x) {
      PublishedAt(s, t, id, end, path, x);
    } else {
      var b: nat, i: nat :| MatchedSlot(t, b, i, x);
      assert MatchedSlot(s, b, i, x);
    }
  }

  lemma PublishedSharedSafe(s: State, t: State, id: nat, end: nat, x: nat)
    requires Safe(s) && PublishedTo(s, t, id, end) && Shared(t, x)
    ensures SharedSafe(t, x)
  {
    var d, r := s.pool.pageSize, s.live[id];
    SharedPublished(s, t, id, end, x);
    assert RequestSafe(r, s.pool.inUse, d);
    assert Own(t.live[id]) == Own(r);
    if Shared(s, x) {
      assert SharedSafe(s, x);
      CoveredMore(r, t.live[id], x, d);
    } else {
      var i :| 0 <= i < end && r.slots[i] == x;
      if i < r.matched {
        assert MatchedSlot(s, id, i, x);
      }
      assert t.live[id].slots[i] == x;
      assert Own(r)[i - r.matched] == x;
      forall b | b in t.live && b != id
        ensures Covered(t.live[b], x, d)
      {
        OthersDoNotOwn(Own(r), i - r.matched, s.live[b], d);
      }
    }
  }

  lemma OthersDoNotOwn(a: seq<nat>, i: nat, r: Request, d: nat)
    requires d > 0 && i < |a| && Apart(a, Own(r), d)
    ensures !OwnPage(r, d, a[i] / d)
  {
  }

  lemma CoveredMore(r: Request, r': Request, x: nat, d: nat)
    requires d > 0 && Covered(r, x, d) && r'.slots == r.slots && r'.matched == r.matched && r'.published >= r.published
    ensures Covered(r', x, d)
  {
    if OwnPage(r', d, x / d) {
      assert Own(r') == Own(r);
      var i :| 0 <= i < |Own(r')| && Own(r')[i] / d == x / d;
      assert Own(r)[i] / d == x / d;
      var j :| r.matched <= j < r.published && j < |r.slots| && r.slots[j] == x;
      assert r'.slots[j] == x;
    }
  }

  lemma PublishSafe(s: State, t: State, id: nat, end: nat)
    requires Safe(s) && PublishedTo(s, t, id, end)
    ensures Safe(t)
  {
    var d := s.pool.pageSize;
    assert RequestSafe(s.live[id], s.pool.inUse, d);
    forall x: nat | Shared(t, x)
      ensures SharedSafe(t, x)
    {
      PublishedSharedSafe(s, t, id, end, x);
    }
    forall path, x: nat | CachedSlot(t.cache, path, x)
      ensures x % d == (|path| - 1) % d
    {
      PublishedAt(s, t, id, end, path, x);
    }
    assert Own(t.live[id]) == Own(s.live[id]);
    forall a, b | a in t.live && b in t.live && a != b
      ensures Apart(Own(t.live[a]), Own(t.live[b]), d)
    {
      assert Apart(Own(s.live[a]), Own(s.live[b]), d);
    }
  }

  lemma CompleteSafe(s: State, id: nat, outcome: Outcome)
    requires Safe(s) && id in s.live
    ensures Safe(Completed(s, id, outcome))
  {
    var r := s.live[id];
    assert RequestSafe(r, s.pool.inUse, s.pool.pageSize);
    if r.decoding {
      FinishSafe(s, id, outcome);
    } else {
      var t := Published(s, id);
      var end := |t.live[id].slots|;
      PublishStepSafe(s, id);
      FinishSafe(t, id, outcome);
    }
  }

  lemma PublishStepSafe(s: State, id: nat)
    requires Safe(s) && id in s.live
    ensures Safe(Published(s, id))
  {
    var r, t := s.live[id], Published(s, id);
    var end := Min(t.live[id].processed, |r.slots|);
    var quiet := r.(recent := 0, processed := t.live[id].processed);
    ParkSafe(s, id, quiet);
    PublishSafe(Put(s, id, quiet), t, id, end);
  }

  lemma FinishSafe(t: State, id: nat, outcome: Outcome)
    requires Safe(t) && id in t.live
    ensures Safe(Ended(t, id)) && Safe(Parked(t, id, true)) && Safe(Parked(t, id, false))
  {
    EndSafe(t, id);
    ParkSafe(t, id, t.live[id].(forward := false, recent := 0, chunk := 0, decoding := true));
    ParkSafe(t, id, t.live[id].(forward := false, recent := 0, chunk := 0, decoding := false));
  }

  /** How much of the prompt the next chunk takes. */
  function ChunkLen(r: Request, budget: nat): nat {
    if r.processed < |r.ids| then Min(|r.ids| - r.processed, budget) else 0
  }

  lemma PrefillSafe(s: State, id: nat, budget: nat)
    requires Safe(s) && id in s.live
    ensures Safe(Prefill(s, id, budget))
  {
    MatchSafe(s, id);
    if Replays(s, s.live[id]) {
      ReplaySafe(s, id, Matched(s, s.live[id]), Matched(s, s.live[id]).(chunk := 1, forward := true));
    } else {
      ExtendMatched(s, id, Matched(s, s.live[id]), ChunkLen(Matched(s, s.live[id]), budget));
    }
  }

  lemma ReplaySafe(s: State, id: nat, r: Request, r': Request)
    requires Safe(Put(s, id, r)) && SameHolding(r, r')
    ensures Safe(Put(s, id, r'))
  {
    ParkSafe(Put(s, id, r), id, r');
    assert Put(Put(s, id, r), id, r') == Put(s, id, r');
  }

  lemma ExtendMatched(s: State, id: nat, r: Request, n: nat)
    requires Safe(Put(s, id, r))
    ensures Safe(Extended(s, id, r, n))
  {
    var t := Put(s, id, r);
    ExtendSafe(t, id, r, n);
    assert Extended(t, id, r, n).live == Extended(s, id, r, n).live;
  }

  // ---------- flushing ----------

  /** No forward pass under way holds a slot. */
  predicate NothingHeld(s: State) {
    forall id :: id in s.live ==> s.live[id].slots == []
  }

  /**
   * `flush_cache` looks only at the queues. It keeps the invariant exactly when no forward pass under way holds slots:
   * otherwise the allocator forgets pages that are in use.
   */
  lemma FlushSafeIff(s: State)
    requires Safe(s) && QueuesEmpty(s)
    ensures Safe(Serve(s, Flush)) <==> NothingHeld(s)
  {
    var t := Serve(s, Flush);
    FreshPoolValid(s.pool.capacity, s.pool.pageSize);
    if Safe(t) {
      forall id | id in s.live
        ensures s.live[id].slots == []
      {
        assert RequestSafe(t.live[id], {}, t.pool.pageSize);
        if s.live[id].slots != [] {
          FirstInPages(s.live[id].slots, t.pool.inUse, t.pool.pageSize);
        }
      }
    }
    if NothingHeld(s) {
      forall id | id in t.live
        ensures RequestSafe(t.live[id], t.pool.inUse, t.pool.pageSize)
      {
        assert RequestSafe(s.live[id], s.pool.inUse, s.pool.pageSize);
      }
      EmptyCaches();
    }
  }

  lemma FirstInPages(slots: seq<nat>, pages: set<nat>, d: nat)
    requires d > 0 && slots != [] && InPages(slots, pages, d)
    ensures pages != {}
  {
    assert slots[0] / d in pages;
  }

  lemma EmptyCaches()
    ensures forall path, x: nat :: !CachedSlot(R.EMPTY, path, x)
  {
  }

  /** Some allocation for a request that arrives now returns a slot somebody refers to. */
  ghost predicate HandsOutReferenced(s: State)
    requires s.pool.pageSize > 0
  {
    exists n: nat, k: nat :: HandsOut(s, n, k)
  }

  ghost predicate HandsOut(s: State, n: nat, k: nat)
    requires s.pool.pageSize > 0
  {
    && Allocated(s.pool, [], n).Ok? && k < |Allocated(s.pool, [], n).value|
    && Referenced(s, Allocated(s.pool, [], n).value[k])
  }

  /** What comes of a flush that passes the queue check: a slot goes to two requests iff a forward pass holds slots. */
  lemma FlushSharesIff(s: State)
    requires Safe(s) && QueuesEmpty(s)
    ensures HandsOutReferenced(Serve(s, Flush)) <==> !NothingHeld(s)
  {
    var t := Serve(s, Flush);
    EmptyCaches();
    if !NothingHeld(s) {
      var id :| id in s.live && s.live[id].slots != [];
      var x := s.live[id].slots[0];
      assert RequestSafe(s.live[id], s.pool.inUse, s.pool.pageSize);
      SlotInPool(s.pool, x);
      FreshHandsOutAll(s.pool.capacity, s.pool.pageSize, x);
      assert x in t.live[id].slots;
      assert HandsOut(t, s.pool.capacity, x);
    }
  }

  lemma SlotInPool(p: Pool, x: nat)
    requires p.Valid() && x / p.pageSize in p.inUse
    ensures x < p.capacity
  {
    DivModSplit(p.capacity, p.pageSize);
    NextMultiple(x / p.pageSize, p.capacity / p.pageSize, p.pageSize);
    DivModSplit(x, p.pageSize);
  }

  /** An allocation of everything from a fresh pool returns the slots in order. */
  lemma FreshHandsOutAll(capacity: nat, pageSize: nat, x: nat)
    requires pageSize > 0 && capacity % pageSize == 0 && x < capacity
    ensures var p := FreshPool(capacity, pageSize);
            && Allocated(p, [], capacity).Ok? && |Allocated(p, [], capacity).value| == capacity
            && Allocated(p, [], capacity).value[x] == x
  {
    var p := FreshPool(capacity, pageSize);
    FreshAccepts(capacity, pageSize);
    AllocatedPlaced(p, [], capacity);
    FreshPlaced(p, Allocated(p, [], capacity).value, x);
    FreshFree(capacity, pageSize, x / pageSize);
    FreshSlot(p, Allocated(p, [], capacity).value[x], x);
  }

  lemma FreshAccepts(capacity: nat, pageSize: nat)
    requires pageSize > 0 && capacity % pageSize == 0
    ensures var p := FreshPool(capacity, pageSize);
            Allocated(p, [], capacity).Ok? && |Allocated(p, [], capacity).value| == capacity
  {
    FreshPoolValid(capacity, pageSize);
    AllocateExact(FreshPool(capacity, pageSize), [], capacity);
    DivModSplit(capacity, pageSize);
  }

  lemma FreshPlaced(p: Pool, slots: seq<nat>, x: nat)
    requires p.pageSize > 0 && Placed(p, [], slots) && x < |slots|
    ensures OnFreePage(p, slots[x], x)
  {
    assert TailSlots(p, []) == 0;
  }

  lemma FreshFree(capacity: nat, pageSize: nat, k: nat)
    requires pageSize > 0 && k < |FreshPool(capacity, pageSize).free|
    ensures FreshPool(capacity, pageSize).free[k] == k
  {
  }

  lemma FreshSlot(p: Pool, y: nat, x: nat)
    requires p.pageSize > 0 && OnFreePage(p, y, x) && p.free[x / p.pageSize] == x / p.pageSize
    ensures y == x
  {
    DivModSplit(x, p.pageSize);
    DivModSplit(y, p.pageSize);
  }

  // ---------- dropped requests ----------

  /**
   * A prepared decode request that is dropped leaves its pages behind: they stay allocated, and no request owns them.
   * No other request is dropped that way.
   */
  lemma LostPagesLeak(s: State, id: nat)
    requires Safe(s) && id in s.live
    ensures var r, t := s.live[id], Serve(s, Lose(id));
            if !(r.forward && r.decoding) then t == s
            else && t.live == s.live - {id} && t.pool == s.pool && t.cache == s.cache
                 && forall page: nat :: OwnPage(r, s.pool.pageSize, page) ==> Leaked(t, page)
  {
    var d := s.pool.pageSize;
    forall page: nat | OwnPage(s.live[id], d, page)
      ensures page in s.pool.inUse && forall b :: b in s.live && b != id ==> !OwnPage(s.live[b], d, page)
    {
      var i :| 0 <= i < |Own(s.live[id])| && Own(s.live[id])[i] / d == page;
      assert RequestSafe(s.live[id], s.pool.inUse, d);
      OwnInUse(s.live[id], s.pool.inUse, d, i);
      forall b | b in s.live && b != id
        ensures !OwnPage(s.live[b], d, page)
      {
        assert Apart(Own(s.live[id]), Own(s.live[b]), d);
      }
    }
  }

  /** Allocated, and nobody's own. */
  ghost predicate Leaked(s: State, page: nat)
    requires s.pool.pageSize > 0
  {
    page in s.pool.inUse && forall b :: b in s.live ==> !OwnPage(s.live[b], s.pool.pageSize, page)
  }

  // ---------- whole runs ----------

  /** The caller flushes only between forward passes. */
  ghost predicate QuietFlush(s: State, e: Event) {
    e.Flush? && QueuesEmpty(s) ==> NothingHeld(s)
  }

  lemma ServeSafe(s: State, e: Event)
    requires Safe(s) && QuietFlush(s, e)
    ensures Safe(Serve(s, e))
  {
    match e
    case Enqueue(_, _) => PrepareStepSafe(s, e);
    case PreparePrefill(_, _) => PrepareStepSafe(s, e);
    case PrepareDecode(_) => PrepareStepSafe(s, e);
    case Restore(id) => RestoreStepSafe(s, id);
    case Fail(id) => RestoreStepSafe(s, id);
    case Abort(id) => AbortStepSafe(s, id);
    case Lose(id) => DropSafe(s, id);
    case Complete(_, _) => CompleteStepSafe(s, e);
    case Requeue(_) => CompleteStepSafe(s, e);
    case Flush => if QueuesEmpty(s) { FlushSafeIff(s); }
  }

  lemma CompleteStepSafe(s: State, e: Event)
    requires Safe(s) && (e.Complete? || e.Requeue?)
    ensures Safe(Serve(s, e))
  {
    match e
    case Complete(id, outcome) => if id in s.live { CompleteSafe(s, id, outcome); }
    case Requeue(id) => if id in s.live { FinishSafe(s, id, Continue); }
  }

  lemma PrepareStepSafe(s: State, e: Event)
    requires Safe(s) && (e.Enqueue? || e.PreparePrefill? || e.PrepareDecode?)
    ensures Safe(Serve(s, e))
  {
    match e
    case Enqueue(id, ids) => if id !in s.live { EnqueueSafe(s, id, ids); }
    case PreparePrefill(id, budget) => if id in s.live { PrefillSafe(s, id, budget); }
    case PrepareDecode(id) => if id in s.live { ExtendSafe(s, id, s.live[id], 1); }
  }

  lemma RestoreStepSafe(s: State, id: nat)
    requires Safe(s)
    ensures Safe(Serve(s, Restore(id))) && Safe(Serve(s, Fail(id)))
  {
    if id in s.live {
      RestoreSafe(s, id);
    }
  }

  lemma AbortStepSafe(s: State, id: nat)
    requires Safe(s)
    ensures Safe(Serve(s, Abort(id)))
  {
    if id in s.live {
      EndSafe(s, id);
    }
  }

  function Initial(capacity: nat, pageSize: nat): State
    requires pageSize > 0
  {
    State(FreshPool(capacity, pageSize), R.EMPTY, map[])
  }

  function ServeAll(s: State, events: seq<Event>): (t: State)
    requires s.pool.pageSize > 0
    ensures t.pool.pageSize == s.pool.pageSize && t.pool.capacity == s.pool.capacity
  {
    if events == [] then s else Serve(ServeAll(s, events[..|events| - 1]), events[|events| - 1])
  }

  /** Every flush of the run happened between forward passes. */
  ghost predicate QuietRun(s: State, events: seq<Event>)
    requires s.pool.pageSize > 0
  {
    forall i :: 0 <= i < |events| ==> QuietFlush(ServeAll(s, events[..i]), events[i])
  }

  lemma {:induction false} ServeAllSafe(capacity: nat, pageSize: nat, events: seq<Event>)
    requires pageSize > 0 && capacity % pageSize == 0 && QuietRun(Initial(capacity, pageSize), events)
    ensures Safe(ServeAll(Initial(capacity, pageSize), events))
  {
    var s := Initial(capacity, pageSize);
    if events == [] {
      FreshPoolValid(capacity, pageSize);
      EmptyCaches();
    } else {
      var n := |events| - 1;
      forall i | 0 <= i < n
        ensures QuietFlush(ServeAll(s, events[..n][..i]), events[..n][i])
      {
        assert events[..n][..i] == events[..i];
      }
      ServeAllSafe(capacity, pageSize, events[..n]);
      assert QuietFlush(ServeAll(s, events[..n]), events[n]);
      ServeSafe(ServeAll(s, events[..n]), events[n]);
    }
  }

  /**
   * In every run whose flushes fall between forward passes: whatever a request is allocated next, for a prefill chunk
   * or a decode step, is a slot that neither the cache nor any request, itself included, refers to.
   */
  lemma AllocatedSlotsAreUnshared(capacity: nat, pageSize: nat, events: seq<Event>, id: nat, n: nat)
    requires pageSize > 0 && capacity % pageSize == 0 && QuietRun(Initial(capacity, pageSize), events)
    ensures var s := ServeAll(Initial(capacity, pageSize), events);
            id in s.live ==>
              && NewSlotsUnreferenced(s, id, n)
              && NewSlotsUnreferenced(Put(s, id, Matched(s, s.live[id])), id, n)
  {
    ServeAllSafe(capacity, pageSize, events);
    var s := ServeAll(Initial(capacity, pageSize), events);
    if id in s.live {
      MatchSafe(s, id);
      SafeAllocates(s, id, n);
      SafeAllocates(Put(s, id, Matched(s, s.live[id])), id, n);
    }
  }

  ghost predicate NewSlotsUnreferenced(s: State, id: nat, n: nat)
    requires s.pool.pageSize > 0 && id in s.live
  {
    var r := Allocated(s.pool, s.live[id].slots, n);
    r.Ok? ==> forall k :: 0 <= k < |r.value| ==> !Referenced(s, r.value[k])
  }

  lemma SafeAllocates(s: State, id: nat, n: nat)
    requires Safe(s) && id in s.live
    ensures NewSlotsUnreferenced(s, id, n)
  {
    if Allocated(s.pool, s.live[id].slots, n).Ok? {
      forall k: nat | k < |Allocated(s.pool, s.live[id].slots, n).value|
        ensures !Referenced(s, Allocated(s.pool, s.live[id].slots, n).value[k])
      {
        AllocatedUnreferenced(s, id, n, k);
      }
    }
  }

  // ---------- a slot belongs to one position ----------

  /** The slot stands for this position of a token sequence, in the cache or in a request. */
  ghost predicate StandsAt(s: State, x: nat, i: nat) {
    || (exists path :: |path| == i + 1 && CachedSlot(s.cache, path, x))
    || exists id :: id in s.live && i < |s.live[id].slots| && s.live[id].slots[i] == x
  }

  ghost predicate Positioned(s: State) {
    forall x: nat, i: nat, j: nat :: StandsAt(s, x, i) && StandsAt(s, x, j) ==> i == j
  }

  /** In particular, no request lists a slot twice. */
  lemma ListsAreDistinct(s: State, id: nat)
    requires Positioned(s) && id in s.live
    ensures NoDup(s.live[id].slots)
  {
    var slots := s.live[id].slots;
    forall i, j | 0 <= i < j < |slots|
      ensures slots[i] != slots[j]
    {
      assert StandsAt(s, slots[i], i) && StandsAt(s, slots[j], j);
    }
  }

  lemma StandsReferenced(s: State, x: nat, i: nat)
    requires StandsAt(s, x, i)
    ensures Referenced(s, x)
  {
  }

  lemma ExtendStands(s: State, t: State, id: nat, got: seq<nat>, x: nat, i: nat)
    requires id in s.live && id in t.live && t.cache == s.cache && t.live == s.live[id := t.live[id]]
    requires t.live[id].slots == s.live[id].slots + got && StandsAt(t, x, i)
    ensures StandsAt(s, x, i) || exists k :: 0 <= k < |got| && got[k] == x && i == |s.live[id].slots| + k
  {
    if !exists path :: |path| == i + 1 && CachedSlot(s.cache, path, x) {
      var b :| b in t.live && i < |t.live[b].slots| && t.live[b].slots[i] == x;
      if b == id && i >= |s.live[id].slots| {
        assert got[i - |s.live[id].slots|] == x;
      } else {
        assert s.live[b].slots[i] == x;
      }
    }
  }

  lemma ExtendPositioned(s: State, id: nat, r: Request, n: nat)
    requires Safe(s) && Positioned(s) && id in s.live && s.live[id] == r
    ensures Positioned(Extended(s, id, r, n))
  {
    var t := Extended(s, id, r, n);
    if Allocated(s.pool, r.slots, n).Ok? {
      var got := Allocated(s.pool, r.slots, n).value;
      AllocateExact(s.pool, r.slots, n);
      SafeAllocates(s, id, n);
      forall x: nat, i: nat, j: nat | StandsAt(t, x, i) && StandsAt(t, x, j)
        ensures i == j
      {
        ExtendStands(s, t, id, got, x, i);
        ExtendStands(s, t, id, got, x, j);
        if StandsAt(s, x, i) {
          StandsReferenced(s, x, i);
        } else if StandsAt(s, x, j) {
          StandsReferenced(s, x, j);
        }
      }
    } else {
      assert t == s;
    }
  }

  /** Steps that only forget or repeat what stands somewhere. */
  lemma FewerPositioned(s: State, t: State)
    requires Positioned(s) && forall x: nat, i: nat :: StandsAt(t, x, i) ==> StandsAt(s, x, i)
    ensures Positioned(t)
  {
  }

  /** Every list of t is a prefix of a list of s, or cached there position by position. */
  ghost predicate Repeats(s: State, t: State) {
    forall id, i :: id in t.live && 0 <= i < |t.live[id].slots| ==> StandsAt(s, t.live[id].slots[i], i)
  }

  lemma SameCachePositioned(s: State, t: State)
    requires Positioned(s) && t.cache == s.cache && Repeats(s, t)
    ensures Positioned(t)
  {
    FewerPositioned(s, t);
  }

  ghost predicate ListsKept(s: State, t: State) {
    forall id :: id in t.live ==> id in s.live && t.live[id].slots <= s.live[id].slots
  }

  lemma KeptLists(s: State, t: State)
    requires ListsKept(s, t)
    ensures Repeats(s, t)
  {
    forall id, i | id in t.live && 0 <= i < |t.live[id].slots|
      ensures StandsAt(s, t.live[id].slots[i], i)
    {
      assert s.live[id].slots[i] == t.live[id].slots[i];
    }
  }

  lemma MatchPositioned(s: State, id: nat)
    requires s.pool.pageSize > 0 && Positioned(s) && id in s.live
    ensures Positioned(Put(s, id, Matched(s, s.live[id])))
  {
    var r, t := s.live[id], Put(s, id, Matched(s, s.live[id]));
    MatchIsCached(s, r);
    forall b, i | b in t.live && 0 <= i < |t.live[b].slots|
      ensures StandsAt(s, t.live[b].slots[i], i)
    {
      if b == id && r.processed == 0 {
        assert CachedSlot(s.cache, r.ids[..i + 1], t.live[b].slots[i]);
      } else {
        assert s.live[b].slots[i] == t.live[b].slots[i];
      }
    }
    SameCachePositioned(s, t);
  }

  lemma PublishPositioned(s: State, id: nat)
    requires Positioned(s) && id in s.live
    ensures Positioned(Published(s, id))
  {
    var t, r := Published(s, id), s.live[id];
    var end := Min(t.live[id].processed, |r.slots|);
    KeptLists(s, t);
    forall x: nat, i: nat | StandsAt(t, x, i)
      ensures StandsAt(s, x, i)
    {
      if path :| |path| == i + 1 && CachedSlot(t.cache, path, x) {
        R.InsertPageAt(s.cache, r.ids[..end], r.slots[..end], path);
      }
    }
    FewerPositioned(s, t);
  }

  lemma PrefillPositioned(s: State, id: nat, budget: nat)
    requires Safe(s) && Positioned(s) && id in s.live
    ensures Positioned(Prefill(s, id, budget))
  {
    var r := Matched(s, s.live[id]);
    var t := Put(s, id, r);
    MatchSafe(s, id);
    MatchPositioned(s, id);
    if Replays(s, s.live[id]) {
      var u := Prefill(s, id, budget);
      KeptLists(t, u);
      SameCachePositioned(t, u);
    } else {
      ExtendPositioned(t, id, r, ChunkLen(r, budget));
      assert Extended(t, id, r, ChunkLen(r, budget)).live == Extended(s, id, r, ChunkLen(r, budget)).live;
    }
  }

  lemma CompletePositioned(s: State, id: nat, outcome: Outcome)
    requires s.pool.pageSize > 0 && Positioned(s) && id in s.live
    ensures Positioned(Completed(s, id, outcome))
  {
    var t := if s.live[id].decoding then s else Published(s, id);
    if !s.live[id].decoding {
      PublishPositioned(s, id);
    }
    var u := Completed(s, id, outcome);
    KeptLists(t, u);
    SameCachePositioned(t, u);
  }

  lemma ServePositioned(s: State, e: Event)
    requires Safe(s) && Positioned(s) && QuietFlush(s, e)
    ensures Positioned(Serve(s, e))
  {
    match e
    case PreparePrefill(id, budget) => if id in s.live { PrefillPositioned(s, id, budget); }
    case PrepareDecode(id) => if id in s.live { ExtendPositioned(s, id, s.live[id], 1); }
    case Complete(id, outcome) => if id in s.live { CompletePositioned(s, id, outcome); }
    case Enqueue(_, _) => SameCachePositioned(s, Serve(s, e));
    case Flush => FlushPositioned(s);
    case _ => KeepPositioned(s, e);
  }

  ghost predicate TakesBack(e: Event) {
    e.Restore? || e.Requeue? || e.Fail? || e.Abort? || e.Lose?
  }

  lemma ListsAreKept(s: State, e: Event)
    requires s.pool.pageSize > 0 && TakesBack(e)
    ensures Serve(s, e).cache == s.cache && ListsKept(s, Serve(s, e))
  {
  }

  lemma KeepPositioned(s: State, e: Event)
    requires s.pool.pageSize > 0 && Positioned(s) && TakesBack(e)
    ensures Positioned(Serve(s, e))
  {
    ListsAreKept(s, e);
    KeptLists(s, Serve(s, e));
    SameCachePositioned(s, Serve(s, e));
  }

  lemma FlushPositioned(s: State)
    requires s.pool.pageSize > 0 && Positioned(s) && QuietFlush(s, Flush)
    ensures Positioned(Serve(s, Flush))
  {
    if QueuesEmpty(s) {
      EmptyCaches();
    }
  }

  // ---------- what does not hold, and exactly when ----------

  /** The slots the forward pass of a prepared prefill writes. */
  function PrefillWrites(s: State, id: nat, budget: nat): seq<nat>
    requires s.pool.pageSize > 0 && id in s.live
  {
    var r := Matched(s, s.live[id]);
    if Replays(s, s.live[id]) then (if r.slots == [] then [] else [r.slots[|r.slots| - 1]])
    else match Allocated(s.pool, r.slots, ChunkLen(r, budget))
      case Ok(got) => got
      case Err(_) => []
  }

  /**
   * A prefill writes a slot the cache holds exactly when the whole prompt was matched and its last token is replayed.
   */
  lemma PrefillWritesCachedIff(s: State, id: nat, budget: nat)
    requires Safe(s) && id in s.live
    ensures (exists x, path :: x in PrefillWrites(s, id, budget) && CachedSlot(s.cache, path, x)) <==>
              Replays(s, s.live[id])
  {
    var r := s.live[id];
    if Replays(s, r) {
      MatchIsCached(s, r);
      var i := |MatchFor(s, r).cachePages| - 1;
      assert CachedSlot(s.cache, r.ids[..i + 1], MatchFor(s, r).cachePages[i]);
      assert MatchFor(s, r).cachePages[i] in PrefillWrites(s, id, budget);
    } else {
      MatchSafe(s, id);
      SafeAllocates(Put(s, id, Matched(s, r)), id, ChunkLen(Matched(s, r), budget));
    }
  }

  /** Everything the request holds is in the cache, as right after a completed chunk. */
  ghost predicate HeldByCache(s: State, id: nat) {
    && id in s.live && 0 < |s.live[id].slots| <= |s.live[id].ids|
    && forall i :: 0 <= i < |s.live[id].slots| ==> CachedSlot(s.cache, s.live[id].ids[..i + 1], s.live[id].slots[i])
  }

  lemma ChunkIsHeld(s: State, id: nat)
    requires id in s.live && s.live[id].slots != []
    requires |s.live[id].slots| <= Published(s, id).live[id].processed
    ensures HeldByCache(Published(s, id), id)
  {
    var r, t := s.live[id], Published(s, id);
    var end := |r.slots|;
    assert r.slots[..end] == r.slots;
    forall i | 0 <= i < |r.slots|
      ensures CachedSlot(t.cache, r.ids[..i + 1], r.slots[i])
    {
      R.InsertPageAt(s.cache, r.ids[..end], r.slots, r.ids[..i + 1]);
      assert r.ids[..i + 1] <= r.ids[..end];
    }
  }

  /**
   * Pages, unlike slots, are shared: after a chunk was published, the next slot the request gets lies in a page that
   * also holds a cached slot exactly when the published length is no multiple of the page size.
   */
  lemma SharesCachedPageIff(s: State, id: nat, n: nat)
    requires Safe(s) && HeldByCache(s, id) && n > 0 && Allocated(s.pool, s.live[id].slots, n).Ok?
    ensures var got := Allocated(s.pool, s.live[id].slots, n).value;
            (exists k, path, x: nat ::
               0 <= k < |got| && CachedSlot(s.cache, path, x) && got[k] / s.pool.pageSize == x / s.pool.pageSize)
            <==> |s.live[id].slots| % s.pool.pageSize != 0
  {
    if |s.live[id].slots| % s.pool.pageSize == 0 {
      NewPagesUncached(s, id, n);
    } else {
      TailPageCached(s, id, n);
    }
  }

  lemma NewPagesUncached(s: State, id: nat, n: nat)
    requires Safe(s) && id in s.live && Allocated(s.pool, s.live[id].slots, n).Ok?
             && |s.live[id].slots| % s.pool.pageSize == 0
    ensures var got := Allocated(s.pool, s.live[id].slots, n).value;
            forall k, path, x: nat :: 0 <= k < |got| && CachedSlot(s.cache, path, x) ==>
              got[k] / s.pool.pageSize != x / s.pool.pageSize
  {
    var p, slots := s.pool, s.live[id].slots;
    var got := Allocated(p, slots, n).value;
    assert RequestSafe(s.live[id], p.inUse, p.pageSize);
    AllocatedPlaced(p, slots, n);
    TailOfAligned(p, slots);
    forall k: nat, path, x: nat | k < |got| && CachedSlot(s.cache, path, x)
      ensures got[k] / p.pageSize != x / p.pageSize
    {
      NewPage(p, slots, got, 0, k);
      assert Shared(s, x);
    }
  }

  lemma TailPageCached(s: State, id: nat, n: nat)
    requires Safe(s) && HeldByCache(s, id) && n > 0 && Allocated(s.pool, s.live[id].slots, n).Ok?
    requires |s.live[id].slots| % s.pool.pageSize != 0
    ensures var got, last := Allocated(s.pool, s.live[id].slots, n).value, |s.live[id].slots| - 1;
            && 0 < |got| && got[0] / s.pool.pageSize == s.live[id].slots[last] / s.pool.pageSize
            && CachedSlot(s.cache, s.live[id].ids[..last + 1], s.live[id].slots[last])
  {
    var p, slots := s.pool, s.live[id].slots;
    assert RequestSafe(s.live[id], p.inUse, p.pageSize);
    AllocatedPlaced(p, slots, n);
    TailOfAligned(p, slots);
    assert OnTailPage(p, slots, Allocated(p, slots, n).value[0], 0);
  }

  /** A five-token prompt on pages of four: its first decode slot is 5, next to the cached slot 4. */
  lemma FivePromptSharesPage()
    ensures var p := FreshPool(8, 4);
            var slots, ids := [0, 1, 2, 3, 4], [10, 11, 12, 13, 14];
            var after, cache := AfterAllocate(p, [], 5), R.InsertPath(R.EMPTY, ids, slots);
            && Allocated(p, [], 5) == Ok(slots)
            && Allocated(after, slots, 1) == Ok([5])
            && CachedSlot(cache, ids, 4) && 5 / 4 == 4 / 4
  {
    var p := FreshPool(8, 4);
    var slots, ids := [0, 1, 2, 3, 4], [10, 11, 12, 13, 14];
    assert p.free == [0, 1];
    assert Pages(p, [], 5) == 2;
    assert SlotsOf([0, 1], 5, 4) == slots;
    assert TailRun([], 0) + SlotsOf(p.free[..2], 5, 4) == slots;
    var after := AfterAllocate(p, [], 5);
    assert p.free[..2][1] == 1;
    assert TailSlots(after, slots) == 3;
    assert Pages(after, slots, 1) == 0;
    assert TailRun(slots, 1) + SlotsOf(after.free[..0], 0, 4) == [5];
    R.InsertPageAt(R.EMPTY, ids, slots, ids);
  }

  // One slot and one prompt token: the request takes slot 0, and a flush falls into its forward pass.

  lemma OnlySlot(p: Pool, none: seq<nat>)
    requires p.Valid() && p.capacity == 1 && p.pageSize == 1 && |p.free| == 1 && none == []
    ensures Allocated(p, none, 1) == Ok([0])
  {
    AllocateExact(p, none, 1);
    var got := Allocated(p, none, 1).value;
    assert |got| == 1 && got[0] < 1;
    assert got == [0];
  }

  lemma OneSlotPool(capacity: nat)
    requires capacity == 1
    ensures var p := FreshPool(capacity, 1); p.Valid() && p.capacity == 1 && p.pageSize == 1 && |p.free| == 1
  {
    FreshPoolValid(capacity, 1);
  }

  /** The request just arrived, with one free slot. */
  ghost predicate OneArrived(s: State) {
    && s.pool.Valid() && s.pool.capacity == 1 && s.pool.pageSize == 1 && |s.pool.free| == 1
    && s.cache == R.EMPTY && s.live == map[0 := Arrived([7])]
  }

  function OneRequest(): Request {
    Arrived([7]).(slots := [0], recent := 1, chunk := 1, forward := true)
  }

  lemma OnePrepared(s: State)
    requires OneArrived(s)
    ensures Serve(s, PreparePrefill(0, 1)).live == map[0 := OneRequest()]
    ensures Serve(s, PreparePrefill(0, 1)).pool.capacity == 1 && Serve(s, PreparePrefill(0, 1)).pool.pageSize == 1
  {
    var r := Arrived([7]);
    OnlySlot(s.pool, []);
    assert R.Walk(R.EMPTY, [7]) == [];
    assert MatchFor(s, r) == R.PrefixMatch(0, [], [7]);
    assert Matched(s, r) == r && ChunkLen(r, 1) == 1;
    assert [] + [0] == [0];
  }

  lemma OneFlushed(s: State)
    requires s.pool.pageSize > 0 && s.live == map[0 := OneRequest()]
    ensures Serve(s, Flush) == State(FreshPool(s.pool.capacity, s.pool.pageSize), R.EMPTY, s.live)
  {
    assert QueuesEmpty(s);
  }

  lemma OneCompleted(s: State)
    requires s.pool.pageSize > 0 && s.cache == R.EMPTY && s.live == map[0 := OneRequest()]
    ensures Serve(s, Complete(0, Continue)).pool == s.pool && CachedSlot(Serve(s, Complete(0, Continue)).cache, [7], 0)
  {
    var t := Published(s, 0);
    assert [7][..1] == [7] && [0][..1] == [0];
    assert t.cache == R.InsertPath(R.EMPTY, [7], [0]);
    R.InsertPageAt(R.EMPTY, [7], [0], [7]);
  }

  /**
   * The flush passes the queue check; afterwards the request publishes slot 0 and the allocator hands the same slot to
   * the next request.
   */
  lemma FlushDuringForwardShares(capacity: nat)
    requires capacity == 1
    ensures var arrived := Serve(Initial(capacity, 1), Enqueue(0, [7]));
            var forward := Serve(arrived, PreparePrefill(0, 1));
            var s := Serve(Serve(forward, Flush), Complete(0, Continue));
            CachedSlot(s.cache, [7], 0) && Allocated(s.pool, Arrived([8]).slots, 1) == Ok([0])
  {
    var arrived := Serve(Initial(capacity, 1), Enqueue(0, [7]));
    OneSlotPool(capacity);
    OnePrepared(arrived);
    var forward := Serve(arrived, PreparePrefill(0, 1));
    var flushed := Serve(forward, Flush);
    OneFlushed(forward);
    OneCompleted(flushed);
    OneSlotPool(forward.pool.capacity);
    OnlySlot(flushed.pool, Arrived([8]).slots);
  }
}
