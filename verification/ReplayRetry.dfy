/** Replaying a fully matched prompt (`scheduler.rs`): what happens when the prepared replay is taken back. */
module ReplayRetry {
  import opened Basics
  import opened KvStorage
  import opened RowOrigin
  import opened DecoderProbe
  import opened SharedDecode
  import opened PutBack
  import D = CachedDecode
  import P = PageAllocator
  import S = Serving
  import R = RadixCache

  // ---------- any state ----------

  /**
   * A fully matched prompt prepared for its pass is accepted exactly when that pass is the replay of its last slot:
   * a slot newly allocated for it lies past the end of the prompt.
   */
  lemma ReplayAcceptedIff(c: Machine, id: nat)
    requires Good(c) && id in c.serving.live && id !in c.early && c.serving.live[id].forward
    requires !c.serving.live[id].decoding && Replaying(c, id)
    ensures Accepted(c, id) <==> c.serving.live[id].recent == 0 && c.serving.live[id].chunk == 1
  {
    ReplayAt(c, id);
    if c.serving.live[id].recent == 0 && c.serving.live[id].chunk == 1 {
      FirstReplayAccepted(c, id);
    } else if BatchValid(c, id) {
      NewSlotRejected(c, id);
    }
  }

  /** Where a replaying request stands. */
  ghost predicate AtReplay(c: Machine, id: nat) {
    && id in c.serving.live
    && var r, n := c.serving.live[id], |c.serving.live[id].ids|;
       && n > 0 && !r.decoding && Start(c, id) == n - 1 && S.Settled(r) == n <= |r.slots| && NoDup(r.slots)
       && Tokens(c, id) == r.ids && PreparedFor(r) && r.forward && Outputs(c, id) == []
  }

  lemma ReplayAt(c: Machine, id: nat)
    requires Good(c) && id in c.serving.live && id !in c.early && c.serving.live[id].forward
    requires !c.serving.live[id].decoding && Replaying(c, id)
    ensures AtReplay(c, id)
  {
    assert Consistent(c, id);
    S.ListsAreDistinct(c.serving, id);
  }

  lemma FirstReplayAccepted(c: Machine, id: nat)
    requires AtReplay(c, id) && c.serving.live[id].recent == 0 && c.serving.live[id].chunk == 1
    ensures Accepted(c, id)
  {
    var r, n := c.serving.live[id], |c.serving.live[id].ids|;
    assert r.slots[..n] == r.slots && Outs(r) == [r.slots[n - 1]];
  }

  lemma NewSlotRejected(c: Machine, id: nat)
    requires AtReplay(c, id) && BatchValid(c, id) && !(c.serving.live[id].recent == 0 && c.serving.live[id].chunk == 1)
    ensures !Accepted(c, id)
  {
    var r, n := c.serving.live[id], |c.serving.live[id].ids|;
    if Fed(c, id) != [] {
      assert Outs(r)[0] == r.slots[n] != r.slots[n - 1];
      assert !SlotMatches(n - 1 + 0, Outs(r)[0], r.slots[..End(c, id)]);
    }
  }

  /** No decoder lets a pass through whose slots do not match. */
  lemma {:induction false} OnlyMatched(m: D.Decoder, sh: D.Shape, store: Store, tokens: seq<nat>, start: nat,
                                       outs: seq<nat>, sequence: seq<nat>)
    requires |outs| == |tokens| && Chunk(m, sh, store, tokens, start, outs, sequence).0.Ok?
    ensures tokens != [] && AllMatch(start, outs, sequence)
    decreases |tokens|
  {
    MatchFirst(start, outs, sequence);
    var next := D.ForwardToken(m, sh, store, tokens[0], start, outs[0], sequence).1;
    if |tokens| > 1 {
      D.ChunkUnfolds(m, sh, store, start, tokens, outs, sequence);
      OnlyMatched(m, sh, next, tokens[1..], start + 1, outs[1..], sequence);
    }
  }

  lemma OnlyAccepted(m: D.Decoder, sh: D.Shape, c: Machine, id: nat)
    requires id in c.serving.live && Call(m, sh, c, id).logits.Some?
    ensures Accepted(c, id)
  {
    var r := c.serving.live[id];
    OnlyMatched(m, sh, c.store, Fed(c, id), Start(c, id), Outs(r), r.slots[..End(c, id)]);
  }

  /** Taken back and prepared again, a replay is a pass into a new slot, under every budget that allows one. */
  lemma RetryTakesSlot(m: D.Decoder, sh: D.Shape, c: Machine, id: nat, budget: nat)
    requires Good(c) && id in c.serving.live && id !in c.early && c.serving.live[id].forward
    requires !c.serving.live[id].decoding && Replaying(c, id) && |c.serving.live[id].ids| >= 2 && budget > 0
    ensures var back := Step(m, sh, c, Schedule(S.Restore(id)));
            var t := Step(m, sh, back, Schedule(S.PreparePrefill(id, budget)));
            && id in t.serving.live
            && (t.serving.live[id].forward ==>
                  t.serving.live[id].recent == 1 && !Accepted(t, id) && Call(m, sh, t, id).logits.None?)
  {
    var back := Step(m, sh, c, Schedule(S.Restore(id)));
    var t := Step(m, sh, back, Schedule(S.PreparePrefill(id, budget)));
    ScheduleGood(m, sh, c, S.Restore(id));
    ScheduleGood(m, sh, back, S.PreparePrefill(id, budget));
    RetryState(c.serving, id, budget);
    if t.serving.live[id].forward {
      assert Consistent(t, id);
      ReplayAcceptedIff(t, id);
      if Call(m, sh, t, id).logits.Some? {
        OnlyAccepted(m, sh, t, id);
      }
    }
  }

  lemma RetryState(s: S.State, id: nat, budget: nat)
    requires S.Safe(s) && id in s.live && s.live[id].forward && !s.live[id].decoding && budget > 0
    requires s.live[id].processed + 1 == |s.live[id].ids| && s.live[id].processed > 0
    ensures var back := S.Serve(s, S.Restore(id));
            var t := S.Serve(back, S.PreparePrefill(id, budget));
            && id in back.live && id in t.live && t.cache == s.cache
            && t.live[id].ids == s.live[id].ids && t.live[id].processed == s.live[id].processed
            && t.live[id].published == s.live[id].published && !t.live[id].decoding
            && (t.live[id].forward ==> t.live[id].recent == t.live[id].chunk == 1)
            && (P.Allocated(back.pool, back.live[id].slots, 1).Ok? ==> t.live[id].forward)
  {
    var back := S.Serve(s, S.Restore(id));
    assert S.Matched(back, back.live[id]) == back.live[id];
  }

  // ---------- a run ----------

  /** A prompt the cache holds completely, in whole pages, is replayed when it comes again. */
  lemma CachedPromptReplays(s: S.State, ids: seq<nat>, slots: seq<nat>)
    requires s.pool.pageSize > 0 && ids != [] && |ids| % s.pool.pageSize == 0 && |slots| == |ids|
    requires forall i :: 0 <= i < |ids| ==> R.PageAt(s.cache, ids[..i + 1]) == Some(slots[i])
    ensures S.Replays(s, S.Arrived(ids)) && |S.MatchFor(s, S.Arrived(ids)).cachePages| == |ids|
  {
    var d, count := s.pool.pageSize, |R.Walk(s.cache, ids)|;
    R.WalkIsPageAt(s.cache, ids);
    var k := if count < |ids| then count else 0;
    assert R.PageAt(s.cache, ids[..k + 1]) == Some(slots[k]);
    WholeMultiple(|ids|, d);
    assert S.MatchFor(s, S.Arrived(ids)).remainingInputIds == ids[|ids|..] == [];
  }

  lemma WholeMultiple(n: nat, d: nat)
    requires d > 0 && n % d == 0
    ensures AlignDown(n, d) == n
  {
    DivModSplit(n, d);
  }

  ghost predicate HasRoom(p: P.Pool) {
    p.Valid() && |p.free| > 0
  }

  lemma RoomAllocates(p: P.Pool, slots: seq<nat>)
    requires HasRoom(p)
    ensures P.Allocated(p, slots, 1).Ok?
  {
    P.AllocateExact(p, slots, 1);
    MulLe(1, |p.free|, p.pageSize);
  }

  lemma ReleaseNothing(p: P.Pool)
    requires HasRoom(p)
    ensures HasRoom(P.AfterRelease(p, []))
  {
    P.AfterReleaseValid(p, []);
  }

  /** The prompt is computed in one pass, published, and the request ends. */
  lemma FirstRequest(m: D.Decoder, sh: D.Shape, c: Machine, ids: seq<nat>, token: nat)
    requires Good(c) && Total(m, sh, c.serving.pool.capacity) && Shaped(m, c.store, c.serving.pool.capacity)
    requires 0 in c.serving.live && c.serving.live.Keys == {0} && 0 !in c.early && Outputs(c, 0) == [] && ids != []
    requires c.serving.cache == R.EMPTY && HasRoom(c.serving.pool)
    requires var r := c.serving.live[0]; r.ids == ids && |r.slots| == r.recent == r.chunk == |ids| && r.processed == 0
                                         && r.forward && !r.decoding
    ensures var t := Step(m, sh, c, Execute(0, S.Finish, token));
            && t.serving.live == map[] && HasRoom(t.serving.pool) && t.serving.pool.pageSize == c.serving.pool.pageSize
            && forall i :: 0 <= i < |ids| ==>
                 R.PageAt(t.serving.cache, ids[..i + 1]) == Some(c.serving.live[0].slots[i])
  {
    FirstAccepted(c, ids);
    CallTotal(m, sh, c, 0);
    FirstFinished(c.serving, ids);
  }

  lemma FirstAccepted(c: Machine, ids: seq<nat>)
    requires 0 in c.serving.live && Outputs(c, 0) == [] && ids != []
    requires var r := c.serving.live[0]; r.ids == ids && |r.slots| == r.recent == r.chunk == |ids| && r.processed == 0
                                         && r.forward && !r.decoding
    ensures Accepted(c, 0)
  {
    var r, n := c.serving.live[0], |ids|;
    assert Tokens(c, 0) == ids && Start(c, 0) == 0 && End(c, 0) == n;
    assert Outs(r) == r.slots[0..] == r.slots && r.slots[..n] == r.slots;
    assert BatchValid(c, 0) && Fed(c, 0) == ids[0..n] == ids;
    EachMatches(r.slots);
  }

  lemma EachMatches(slots: seq<nat>)
    ensures AllMatch(0, slots, slots)
  {
  }

  lemma FirstFinished(s: S.State, ids: seq<nat>)
    requires HasRoom(s.pool) && s.live.Keys == {0} && s.cache == R.EMPTY && ids != []
    requires var r := s.live[0]; r.ids == ids && |r.slots| == r.recent == r.chunk == |ids| && r.processed == 0
                                 && r.forward && !r.decoding
    ensures var t := S.Serve(s, S.Complete(0, S.Finish));
            && t.live == map[] && HasRoom(t.pool) && t.pool.pageSize == s.pool.pageSize
            && t.cache == R.InsertPath(R.EMPTY, ids, s.live[0].slots)
            && forall i :: 0 <= i < |ids| ==> R.PageAt(t.cache, ids[..i + 1]) == Some(s.live[0].slots[i])
  {
    var slots, n := s.live[0].slots, |ids|;
    assert slots[n..] == [] && slots[..n] == slots && ids[..n] == ids;
    ReleaseNothing(s.pool);
    forall i | 0 <= i < n
      ensures R.PageAt(R.InsertPath(R.EMPTY, ids, slots), ids[..i + 1]) == Some(slots[i])
    {
      R.InsertPageAt(R.EMPTY, ids, slots, ids[..i + 1]);
    }
  }

  /** The same prompt again, prepared: a replay. */
  lemma SecondRequest(m: D.Decoder, sh: D.Shape, c: Machine, ids: seq<nat>, slots: seq<nat>)
    requires Good(c) && c.serving.live == map[] && HasRoom(c.serving.pool) && |slots| == |ids| > 0
    requires |ids| % c.serving.pool.pageSize == 0
    requires forall i :: 0 <= i < |ids| ==> R.PageAt(c.serving.cache, ids[..i + 1]) == Some(slots[i])
    ensures var arrived := Step(m, sh, c, Schedule(S.Enqueue(1, ids)));
            var t := Step(m, sh, arrived, Schedule(S.PreparePrefill(1, |ids|)));
            && Good(t) && 1 in t.serving.live && 1 !in t.early && t.serving.live[1].ids == ids
            && t.serving.live[1].forward && !t.serving.live[1].decoding && Replaying(t, 1) && Accepted(t, 1)
            && HasRoom(t.serving.pool) && t.serving.pool == c.serving.pool
  {
    var arrived := Step(m, sh, c, Schedule(S.Enqueue(1, ids)));
    var t := Step(m, sh, arrived, Schedule(S.PreparePrefill(1, |ids|)));
    ScheduleGood(m, sh, c, S.Enqueue(1, ids));
    ScheduleGood(m, sh, arrived, S.PreparePrefill(1, |ids|));
    CachedPromptReplays(arrived.serving, ids, slots);
    assert Consistent(t, 1);
    ReplayAcceptedIff(t, 1);
  }

  /** The events: the prompt is served, comes again, is prepared, taken back and prepared again. */
  function RetryEvents(ids: seq<nat>, token: nat): seq<Event> {
    ReplayEvents(ids, token) + [Schedule(S.Restore(1))] + [Schedule(S.PreparePrefill(1, 1))]
  }

  function ReplayEvents(ids: seq<nat>, token: nat): seq<Event> {
    [Schedule(S.Enqueue(0, ids))] + [Schedule(S.PreparePrefill(0, |ids|))] + [Execute(0, S.Finish, token)]
    + [Schedule(S.Enqueue(1, ids))] + [Schedule(S.PreparePrefill(1, |ids|))]
  }

  ghost function ReplayRun(m: D.Decoder, sh: D.Shape, c: Machine, ids: seq<nat>, token: nat): Machine
    requires c.serving.pool.pageSize > 0
  {
    var arrived := Step(m, sh, c, Schedule(S.Enqueue(0, ids)));
    var prepared := Step(m, sh, arrived, Schedule(S.PreparePrefill(0, |ids|)));
    var served := Step(m, sh, prepared, Execute(0, S.Finish, token));
    Step(m, sh, Step(m, sh, served, Schedule(S.Enqueue(1, ids))), Schedule(S.PreparePrefill(1, |ids|)))
  }

  lemma ReplayUnfolds(m: D.Decoder, sh: D.Shape, c: Machine, ids: seq<nat>, token: nat)
    requires c.serving.pool.pageSize > 0
    ensures Final(m, sh, c, ReplayEvents(ids, token)) == ReplayRun(m, sh, c, ids, token)
    ensures Run(m, sh, c, ReplayEvents(ids, token))
  {
    var e2 := [Schedule(S.Enqueue(0, ids))] + [Schedule(S.PreparePrefill(0, |ids|))];
    TwoSteps(m, sh, c, [], Schedule(S.Enqueue(0, ids)), Schedule(S.PreparePrefill(0, |ids|)));
    assert [] + [Schedule(S.Enqueue(0, ids))] == [Schedule(S.Enqueue(0, ids))];
    FinalNext(m, sh, c, e2, Execute(0, S.Finish, token));
    TwoSteps(m, sh, c, e2 + [Execute(0, S.Finish, token)], Schedule(S.Enqueue(1, ids)),
             Schedule(S.PreparePrefill(1, |ids|)));
  }

  lemma ReplayStates(m: D.Decoder, sh: D.Shape, c: Machine, ids: seq<nat>, token: nat)
    requires Good(c) && c.serving.live == map[] && c.serving.cache == R.EMPTY && c.serving.pool.inUse == {}
    requires ids != [] && |ids| % c.serving.pool.pageSize == 0
    requires |c.serving.pool.free| * c.serving.pool.pageSize > |ids|
    requires Total(m, sh, c.serving.pool.capacity) && Shaped(m, c.store, c.serving.pool.capacity)
    ensures var t := ReplayRun(m, sh, c, ids, token);
            && Good(t) && 1 in t.serving.live && 1 !in t.early && t.serving.live[1].ids == ids
            && t.serving.live[1].forward && !t.serving.live[1].decoding && Replaying(t, 1) && Accepted(t, 1)
            && HasRoom(t.serving.pool)
  {
    var arrived := Step(m, sh, c, Schedule(S.Enqueue(0, ids)));
    var prepared := Step(m, sh, arrived, Schedule(S.PreparePrefill(0, |ids|)));
    var served := Step(m, sh, prepared, Execute(0, S.Finish, token));
    ScheduleGood(m, sh, c, S.Enqueue(0, ids));
    AlonePrepared(arrived.serving, ids, |ids|);
    ScheduleGood(m, sh, arrived, S.PreparePrefill(0, |ids|));
    RoomBehind(arrived.serving.pool, |ids|);
    StepGood(m, sh, prepared, Execute(0, S.Finish, token));
    FirstRequest(m, sh, prepared, ids, token);
    SecondRequest(m, sh, served, ids, prepared.serving.live[0].slots);
  }

  /** Whole pages were taken, and not all of them. */
  lemma RoomBehind(p: P.Pool, n: nat)
    requires p.Valid() && n > 0 && n % p.pageSize == 0 && n < |p.free| * p.pageSize
    ensures HasRoom(P.AfterAllocate(p, [], n))
  {
    P.AfterAllocateValid(p, [], n);
    WholePages(n, p.pageSize, |p.free|);
  }

  /**
   * A prompt of whole pages is served on an empty server and comes again. Its replay is accepted; taken back and
   * prepared once more, it is a pass into a new slot, which every decoder rejects.
   */
  lemma RetriedReplayFails(m: D.Decoder, sh: D.Shape, capacity: nat, pageSize: nat, store: Store, ids: seq<nat>,
                           token: nat)
    requires Setup(m, sh, capacity, pageSize, store) && 2 <= |ids| < capacity && |ids| % pageSize == 0
    ensures var start := Start0(capacity, pageSize, store);
            var first := Final(m, sh, start, ReplayEvents(ids, token));
            var again := Final(m, sh, start, RetryEvents(ids, token));
            && Run(m, sh, start, RetryEvents(ids, token))
            && 1 in first.serving.live && Call(m, sh, first, 1).logits.Some?
            && 1 in again.serving.live && again.serving.live[1].forward && Call(m, sh, again, 1).logits.None?
  {
    var start, events := Start0(capacity, pageSize, store), ReplayEvents(ids, token);
    InitialGood(capacity, pageSize, store);
    FreshRoom(capacity, pageSize);
    ReplayStates(m, sh, start, ids, token);
    ReplayUnfolds(m, sh, start, ids, token);
    var first := Final(m, sh, start, events);
    RunSame(m, sh, store, m, sh, store, capacity, pageSize, events);
    CallTotal(m, sh, first, 1);
    TwoSteps(m, sh, start, events, Schedule(S.Restore(1)), Schedule(S.PreparePrefill(1, 1)));
    RetryTakesSlot(m, sh, first, 1, 1);
    RetryHasSlot(m, sh, first, 1);
  }

  /** With a free page, the second preparation succeeds. */
  lemma RetryHasSlot(m: D.Decoder, sh: D.Shape, c: Machine, id: nat)
    requires Good(c) && id in c.serving.live && id !in c.early && c.serving.live[id].forward
    requires !c.serving.live[id].decoding && Replaying(c, id) && |c.serving.live[id].ids| >= 2
    requires Accepted(c, id) && HasRoom(c.serving.pool)
    ensures var back := Step(m, sh, c, Schedule(S.Restore(id)));
            var t := Step(m, sh, back, Schedule(S.PreparePrefill(id, 1)));
            id in t.serving.live && t.serving.live[id].forward
  {
    var back := Step(m, sh, c, Schedule(S.Restore(id)));
    ReplayAcceptedIff(c, id);
    RetryState(c.serving, id, 1);
    assert c.serving.live[id].slots[S.Settled(c.serving.live[id])..] == [];
    ReleaseNothing(c.serving.pool);
    RoomAllocates(back.serving.pool, back.serving.live[id].slots);
  }
}
