/**
 * Several requests in one forward pass: the batch builder flattens their tokens and slots, validation compares totals
 * only, and the decoder cuts the flattened lists by token counts (`model_executor.rs`, `cpu_reference.rs`).
 */
module WorkerBatch {
  import opened Basics
  import opened KvStorage
  import opened RowOrigin
  import opened SharedDecode
  import D = CachedDecode
  import S = Serving
  import opened PageAllocator

  /**
   * What the builder adds for a request: its input tokens from a position on, their output slots, the number of tokens
   * of its sequence so far, and the slots listed for them.
   */
  datatype Item = Item(inputs: seq<nat>, start: nat, outs: seq<nat>, tokens: nat, slots: seq<nat>)

  /** A prefill lists slots up to the end of its chunk, a decode step all it has. */
  function ItemOf(c: Machine, id: nat): Item
    requires id in c.serving.live && Start(c, id) <= End(c, id)
  {
    var r := c.serving.live[id];
    Item(Fed(c, id), Start(c, id), Outs(r), End(c, id),
          if r.decoding then r.slots else r.slots[..Min(End(c, id), |r.slots|)])
  }

  function AllOuts(batch: seq<Item>): seq<nat> {
    if batch == [] then [] else batch[0].outs + AllOuts(batch[1..])
  }

  function AllSlots(batch: seq<Item>): seq<nat> {
    if batch == [] then [] else batch[0].slots + AllSlots(batch[1..])
  }

  function InputTotal(batch: seq<Item>): nat {
    if batch == [] then 0 else |batch[0].inputs| + InputTotal(batch[1..])
  }

  function TokenTotal(batch: seq<Item>): nat {
    if batch == [] then 0 else batch[0].tokens + TokenTotal(batch[1..])
  }

  /** `validate_model_worker_batch`: as many output slots as inputs, as many slots as tokens, taken together. */
  predicate TotalsMatch(batch: seq<Item>) {
    InputTotal(batch) == |AllOuts(batch)| && TokenTotal(batch) == |AllSlots(batch)|
  }

  /** What a batch leaves: the logits of all its requests, or none. */
  datatype Ran = Ran(logits: Option<seq<Vec>>, store: Store)

  /** The decoder's loop: each request takes its share of what is left of the flattened lists. */
  ghost function Forward(m: D.Decoder, sh: D.Shape, store: Store, batch: seq<Item>, outs: seq<nat>,
                         slots: seq<nat>): Ran
    requires InputTotal(batch) == |outs| && TokenTotal(batch) == |slots|
    decreases |batch|
  {
    if batch == [] then Ran(Some([]), store) else
    var e := batch[0];
    var first := Turn(m, sh, store, e, outs[..|e.inputs|], slots[..e.tokens]);
    if first.logits.None? then first
    else Joined(first.logits.value, Forward(m, sh, first.store, batch[1..], outs[|e.inputs|..], slots[e.tokens..]))
  }

  /** One request's turn, with its share of output slots and sequence slots. */
  ghost function Turn(m: D.Decoder, sh: D.Shape, store: Store, e: Item, outs: seq<nat>, sequence: seq<nat>): Ran
    requires |outs| == |e.inputs|
  {
    var (v, next) := Chunk(m, sh, store, e.inputs, e.start, outs, sequence);
    Ran(if v.Ok? then Some([v.value]) else None, next)
  }

  function Joined(logits: seq<Vec>, rest: Ran): Ran {
    Ran(if rest.logits.Some? then Some(logits + rest.logits.value) else None, rest.store)
  }

  ghost function Execution(m: D.Decoder, sh: D.Shape, store: Store, batch: seq<Item>): Ran {
    if TotalsMatch(batch) then Forward(m, sh, store, batch, AllOuts(batch), AllSlots(batch)) else Ran(None, store)
  }

  // ---------- the same requests one by one ----------

  /** The requests of a batch: different ones, prepared, and each with a token the builder can take a position of. */
  ghost predicate Batchable(c: Machine, ids: seq<nat>) {
    NoDup(ids) && Members(c, ids)
  }

  ghost predicate Members(c: Machine, ids: seq<nat>) {
    forall k :: 0 <= k < |ids| ==> Member(c, ids[k])
  }

  ghost predicate Member(c: Machine, id: nat) {
    && id in c.serving.live && c.serving.live[id].forward && Start(c, id) <= End(c, id)
    && (c.serving.live[id].decoding ==> Tokens(c, id) != [])
  }

  function ItemsOf(c: Machine, ids: seq<nat>): (batch: seq<Item>)
    requires Members(c, ids)
    ensures |batch| == |ids|
  {
    if ids == [] then [] else [ItemOf(c, ids[0])] + ItemsOf(c, ids[1..])
  }

  /** Forward passes of single requests, up to the first that fails. */
  ghost function OneByOne(m: D.Decoder, sh: D.Shape, c: Machine, ids: seq<nat>): Ran
    requires forall k :: 0 <= k < |ids| ==> ids[k] in c.serving.live
    decreases |ids|
  {
    if ids == [] then Ran(Some([]), c.store) else
    var pass := Call(m, sh, c, ids[0]);
    if pass.logits.None? then Ran(None, pass.store)
    else Joined([pass.logits.value], OneByOne(m, sh, After(m, sh, c, ids[0]), ids[1..]))
  }

  // ---------- what the scheduler prepares ----------

  /** A prepared chunk ends within the prompt and within the slot list. */
  ghost predicate ChunksFit(s: S.State) {
    forall id :: id in s.live && s.live[id].forward && !s.live[id].decoding ==> ChunkFits(s.live[id])
  }

  predicate ChunkFits(r: S.Request) {
    r.processed + r.chunk <= |r.ids| && r.processed + r.chunk <= |r.slots|
  }

  /** A request that waits for its next chunk has the slots of what it has processed. */
  ghost predicate Waiting(r: S.Request) {
    r.processed <= |r.slots| && r.processed <= |r.ids| && r.chunk == 0
  }

  lemma PrefillFits(s: S.State, id: nat, budget: nat)
    requires S.Safe(s) && id in s.live && !s.live[id].forward && Waiting(s.live[id])
    ensures var t := S.Prefill(s, id, budget); id in t.live && (t.live[id].forward ==> ChunkFits(t.live[id]))
  {
    var r := S.Matched(s, s.live[id]);
    MatchedFits(s, s.live[id]);
    if !S.Replays(s, s.live[id]) {
      ExtendedFits(s, id, r, S.ChunkLen(r, budget));
    }
  }

  lemma MatchedFits(s: S.State, r: S.Request)
    requires s.pool.pageSize > 0 && !r.forward && Waiting(r)
    ensures var t := S.Matched(s, r);
            Waiting(t) && !t.forward && (S.Replays(s, r) ==> t.processed < |t.ids| && t.processed < |t.slots|)
  {
    S.MatchIsCached(s, r);
  }

  lemma ExtendedFits(s: S.State, id: nat, r: S.Request, n: nat)
    requires s.pool.pageSize > 0 && !r.forward && Waiting(r) && r.processed + n <= |r.ids|
    ensures var t := S.Extended(s, id, r, n); id in t.live && (t.live[id].forward ==> ChunkFits(t.live[id]))
  {
    if Allocated(s.pool, r.slots, n).Ok? {
      AllocatedPlaced(s.pool, r.slots, n);
    }
  }

  lemma PrefillOthers(s: S.State, id: nat, budget: nat, b: nat)
    requires s.pool.pageSize > 0 && id in s.live && b != id
    ensures var t := S.Prefill(s, id, budget);
            (b in t.live <==> b in s.live) && (b in s.live ==> t.live[b] == s.live[b])
  {
  }

  lemma ServeFits(s: S.State, e: S.Event)
    requires S.Safe(s) && ChunksFit(s)
    requires forall id :: id in s.live && !s.live[id].decoding && !s.live[id].forward ==> Waiting(s.live[id])
    ensures ChunksFit(S.Serve(s, e))
  {
    if e.PreparePrefill? && e.id in s.live && !s.live[e.id].forward && !s.live[e.id].decoding {
      PrefillFits(s, e.id, e.budget);
      forall b | b in S.Serve(s, e).live && S.Serve(s, e).live[b].forward && !S.Serve(s, e).live[b].decoding
        ensures ChunkFits(S.Serve(s, e).live[b])
      {
        if b != e.id { PrefillOthers(s, e.id, e.budget, b); }
      }
    }
  }

  lemma GoodWaits(c: Machine)
    requires Good(c)
    ensures forall id :: id in c.serving.live && !c.serving.live[id].decoding && !c.serving.live[id].forward ==>
              Waiting(c.serving.live[id])
  {
    forall id | id in c.serving.live && !c.serving.live[id].decoding && !c.serving.live[id].forward
      ensures Waiting(c.serving.live[id])
    {
      assert Consistent(c, id);
    }
  }

  lemma StepFits(m: D.Decoder, sh: D.Shape, c: Machine, e: Event)
    requires Good(c) && ChunksFit(c.serving)
    ensures ChunksFit(Step(m, sh, c, e).serving)
  {
    GoodWaits(c);
    match e
    case Schedule(step) => ServeFits(c.serving, step);
    case Compute(_) =>
    case Execute(id, outcome, _) =>
      ServeFits(c.serving, S.Fail(id));
      ServeFits(c.serving, S.Complete(id, outcome));
  }

  lemma {:induction false} RunFits(m: D.Decoder, sh: D.Shape, c: Machine, events: seq<Event>)
    requires Good(c) && Sound(m, c.store, c.origin) && ChunksFit(c.serving) && Run(m, sh, c, events)
    ensures ChunksFit(Final(m, sh, c, events).serving)
  {
    if events != [] {
      var n := |events| - 1;
      RunFits(m, sh, c, events[..n]);
      RunGood(m, sh, c, events[..n]);
      StepFits(m, sh, Final(m, sh, c, events[..n]), events[n]);
    }
  }

  // ---------- totals that match ----------

  /** No request has more output slots than inputs, so equal totals mean equal counts throughout. */
  lemma OutsBelowInputs(c: Machine, id: nat)
    requires Good(c) && ChunksFit(c.serving) && Member(c, id)
    ensures |ItemOf(c, id).outs| <= |ItemOf(c, id).inputs|
    ensures c.serving.live[id].decoding ==> |ItemOf(c, id).inputs| == |ItemOf(c, id).outs| == 1
  {
    assert Consistent(c, id);
    var r := c.serving.live[id];
    assert S.RequestSafe(r, c.serving.pool.inUse, c.serving.pool.pageSize);
  }

  lemma {:induction false} OutsTotal(c: Machine, ids: seq<nat>)
    requires Good(c) && ChunksFit(c.serving) && Members(c, ids)
    ensures |AllOuts(ItemsOf(c, ids))| <= InputTotal(ItemsOf(c, ids))
  {
    if ids != [] {
      assert ItemsOf(c, ids)[1..] == ItemsOf(c, ids[1..]);
      OutsBelowInputs(c, ids[0]);
      OutsTotal(c, ids[1..]);
    }
  }

  /** The counts of one request match exactly when its pass alone would be accepted. */
  predicate CountsMatch(e: Item) {
    |e.inputs| == |e.outs| && e.tokens == |e.slots|
  }

  lemma CountsMatchIff(c: Machine, id: nat)
    requires Member(c, id)
    ensures BatchValid(c, id) <==> CountsMatch(ItemOf(c, id))
  {
  }

  /** A prefill whose output slots match lists a slot for every token. */
  lemma PrefillMatches(c: Machine, id: nat)
    requires Good(c) && ChunksFit(c.serving) && Member(c, id) && !c.serving.live[id].decoding
    requires |ItemOf(c, id).inputs| == |ItemOf(c, id).outs|
    ensures ItemOf(c, id).tokens == |ItemOf(c, id).slots|
  {
    assert Consistent(c, id);
  }

  lemma {:induction false} NotListed(c: Machine, ids: seq<nat>, x: nat)
    requires Members(c, ids) && forall k :: 0 <= k < |ids| ==> x !in c.serving.live[ids[k]].slots
    ensures x !in AllSlots(ItemsOf(c, ids))
  {
    if ids != [] {
      assert ItemsOf(c, ids)[1..] == ItemsOf(c, ids[1..]);
      NotListed(c, ids[1..], x);
    }
  }

  /** The slot a decode step is to write stands at no other place of its own list or of the other requests'. */
  lemma OutSlotElsewhere(c: Machine, id: nat, rest: seq<nat>, k: nat)
    requires Good(c) && Member(c, id) && c.serving.live[id].decoding && Members(c, rest) && id !in rest
    requires k < |ItemOf(c, id).slots + AllSlots(ItemsOf(c, rest))| && k != |ItemOf(c, id).slots| - 1
    ensures ItemOf(c, id).outs == [ItemOf(c, id).slots[|ItemOf(c, id).slots| - 1]]
    ensures (ItemOf(c, id).slots + AllSlots(ItemsOf(c, rest)))[k] != ItemOf(c, id).outs[0]
  {
    var r := c.serving.live[id];
    var last := |r.slots| - 1;
    DecodeOut(c, id);
    PrivateSlot(c.serving, id, last);
    NotListed(c, rest, r.slots[last]);
    S.ListsAreDistinct(c.serving, id);
  }

  lemma DecodeOut(c: Machine, id: nat)
    requires Good(c) && Member(c, id) && c.serving.live[id].decoding
    ensures var r := c.serving.live[id];
            |r.slots| > 0 && r.published <= |r.slots| - 1 && ItemOf(c, id).outs == [r.slots[|r.slots| - 1]]
  {
    assert Consistent(c, id);
    assert S.RequestSafe(c.serving.live[id], c.serving.pool.inUse, c.serving.pool.pageSize);
  }

  /**
   * A request whose slots are too many or too few cannot make up for another: the slot at its position is a different
   * one of its own, or one of a later request, and the decoder's check fails before anything is written.
   */
  lemma MismatchRejected(m: D.Decoder, sh: D.Shape, c: Machine, id: nat, rest: seq<nat>)
    requires Good(c) && ChunksFit(c.serving) && Member(c, id) && Members(c, rest) && id !in rest
    requires |ItemOf(c, id).inputs| == |ItemOf(c, id).outs| && !CountsMatch(ItemOf(c, id))
    requires ItemOf(c, id).tokens <= |ItemOf(c, id).slots + AllSlots(ItemsOf(c, rest))|
    ensures var e := ItemOf(c, id);
            Turn(m, sh, c.store, e, e.outs, (e.slots + AllSlots(ItemsOf(c, rest)))[..e.tokens])
            == Ran(None, c.store)
  {
    if !c.serving.live[id].decoding {
      PrefillMatches(c, id);
    } else {
      var e := ItemOf(c, id);
      DecodeStart(c, id);
      OutSlotElsewhere(c, id, rest, e.start);
      OneToken(m, sh, c.store, e.inputs, e.start, e.outs, (e.slots + AllSlots(ItemsOf(c, rest)))[..e.tokens]);
    }
  }

  lemma DecodeStart(c: Machine, id: nat)
    requires Good(c) && Member(c, id) && c.serving.live[id].decoding
    ensures |ItemOf(c, id).inputs| == 1 && ItemOf(c, id).start == ItemOf(c, id).tokens - 1
    ensures ItemOf(c, id).slots == c.serving.live[id].slots
  {
  }

  /** One token whose slot is not the one at its position. */
  lemma OneToken(m: D.Decoder, sh: D.Shape, store: Store, inputs: seq<nat>, start: nat, outs: seq<nat>,
                 sequence: seq<nat>)
    requires |inputs| == |outs| == 1 && start < |sequence| && sequence[start] != outs[0]
    ensures var (v, next) := Chunk(m, sh, store, inputs, start, outs, sequence); v.Err? && next == store
  {
  }

  /** The first item apart from the rest. */
  lemma Unfolded(c: Machine, ids: seq<nat>)
    requires Batchable(c, ids) && ids != []
    ensures Batchable(c, ids[1..]) && ids[0] !in ids[1..]
    ensures var batch, e, rest := ItemsOf(c, ids), ItemOf(c, ids[0]), ItemsOf(c, ids[1..]);
            && batch[0] == e && batch[1..] == rest
            && AllOuts(batch) == e.outs + AllOuts(rest) && AllSlots(batch) == e.slots + AllSlots(rest)
            && InputTotal(batch) == |e.inputs| + InputTotal(rest) && TokenTotal(batch) == e.tokens + TokenTotal(rest)
  {
    assert ItemsOf(c, ids)[1..] == ItemsOf(c, ids[1..]);
  }

  /** Matching totals: the batch does what its requests do one by one. */
  lemma {:induction false} ForwardIsOneByOne(m: D.Decoder, sh: D.Shape, c: Machine, ids: seq<nat>)
    requires Good(c) && ChunksFit(c.serving) && Batchable(c, ids) && TotalsMatch(ItemsOf(c, ids))
    ensures var batch := ItemsOf(c, ids);
            Forward(m, sh, c.store, batch, AllOuts(batch), AllSlots(batch)) == OneByOne(m, sh, c, ids)
    decreases |ids|
  {
    if ids != [] {
      var id, rest := ids[0], ids[1..];
      Unfolded(c, ids);
      OutsTotal(c, rest);
      OutsBelowInputs(c, id);
      if CountsMatch(ItemOf(c, id)) {
        CallGood(m, sh, c, id);
        ItemsKept(m, sh, c, id, rest);
        ForwardIsOneByOne(m, sh, After(m, sh, c, id), rest);
        var left := ItemsOf(c, rest);
        OwnCall(m, sh, c, id);
        FirstMatches(m, sh, c.store, ItemsOf(c, ids), AllOuts(left), AllSlots(left),
                     OneByOne(m, sh, After(m, sh, c, id), rest));
      } else {
        MismatchRejected(m, sh, c, id, rest);
        FirstRejected(m, sh, c, ids);
      }
    }
  }

  /** The first request's share is its own outs and slots; `tail` is what the others yield. */
  lemma FirstMatches(m: D.Decoder, sh: D.Shape, store: Store, batch: seq<Item>, outs: seq<nat>, slots: seq<nat>,
                     tail: Ran)
    requires batch != [] && CountsMatch(batch[0])
    requires InputTotal(batch[1..]) == |outs| && TokenTotal(batch[1..]) == |slots|
    requires var first := Turn(m, sh, store, batch[0], batch[0].outs, batch[0].slots);
             first.logits.Some? ==> tail == Forward(m, sh, first.store, batch[1..], outs, slots)
    ensures var first := Turn(m, sh, store, batch[0], batch[0].outs, batch[0].slots);
            Forward(m, sh, store, batch, batch[0].outs + outs, batch[0].slots + slots)
            == if first.logits.None? then first else Joined(first.logits.value, tail)
  {
    Cut(batch[0].outs, outs);
    Cut(batch[0].slots, slots);
  }

  lemma FirstRejected(m: D.Decoder, sh: D.Shape, c: Machine, ids: seq<nat>)
    requires Batchable(c, ids) && ids != [] && TotalsMatch(ItemsOf(c, ids)) && !BatchValid(c, ids[0])
    requires |ItemOf(c, ids[0]).inputs| == |ItemOf(c, ids[0]).outs|
    requires var e := ItemOf(c, ids[0]);
             Turn(m, sh, c.store, e, e.outs, (e.slots + AllSlots(ItemsOf(c, ids[1..])))[..e.tokens])
             == Ran(None, c.store)
    ensures var batch := ItemsOf(c, ids);
            Forward(m, sh, c.store, batch, AllOuts(batch), AllSlots(batch)) == OneByOne(m, sh, c, ids)
  {
    Unfolded(c, ids);
    Cut(ItemOf(c, ids[0]).outs, AllOuts(ItemsOf(c, ids[1..])));
  }

  lemma Cut(a: seq<nat>, b: seq<nat>)
    ensures (a + b)[..|a|] == a && (a + b)[|a|..] == b
  {
  }

  lemma OwnCall(m: D.Decoder, sh: D.Shape, c: Machine, id: nat)
    requires Member(c, id) && CountsMatch(ItemOf(c, id))
    ensures var e, pass := ItemOf(c, id), Call(m, sh, c, id);
            Turn(m, sh, c.store, e, e.outs, e.slots)
            == Ran(if pass.logits.Some? then Some([pass.logits.value]) else None, pass.store)
  {
    CountsMatchIff(c, id);
    assert ItemOf(c, id).slots == c.serving.live[id].slots[..End(c, id)];
  }

  /** A forward pass changes no item. */
  lemma ItemsKept(m: D.Decoder, sh: D.Shape, c: Machine, id: nat, ids: seq<nat>)
    requires id in c.serving.live && Members(c, ids)
    ensures Members(After(m, sh, c, id), ids)
    ensures ItemsOf(After(m, sh, c, id), ids) == ItemsOf(c, ids)
  {
    SameItems(c, After(m, sh, c, id), ids);
  }

  lemma {:induction false} SameItems(c: Machine, t: Machine, ids: seq<nat>)
    requires t == c.(store := t.store, origin := t.origin) && Members(c, ids)
    ensures Members(t, ids) && ItemsOf(t, ids) == ItemsOf(c, ids)
  {
    if ids != [] {
      SameItem(c, t, ids[0]);
      SameItems(c, t, ids[1..]);
      forall k | 0 <= k < |ids|
        ensures Member(t, ids[k])
      {
        if k > 0 { assert Member(t, ids[1..][k - 1]); }
      }
    }
  }

  lemma SameItem(c: Machine, t: Machine, id: nat)
    requires t == c.(store := t.store, origin := t.origin) && Member(c, id)
    ensures Member(t, id) && ItemOf(t, id) == ItemOf(c, id)
  {
    assert Outputs(t, id) == Outputs(c, id);
  }

  // ---------- totals that differ ----------

  /** If every request's pass succeeds, every count matches, and so do the totals. */
  lemma {:induction false} SuccessMatches(m: D.Decoder, sh: D.Shape, c: Machine, ids: seq<nat>)
    requires Batchable(c, ids) && OneByOne(m, sh, c, ids).logits.Some?
    ensures TotalsMatch(ItemsOf(c, ids))
    decreases |ids|
  {
    if ids != [] {
      Unfolded(c, ids);
      CountsMatchIff(c, ids[0]);
      ItemsKept(m, sh, c, ids[0], ids[1..]);
      SuccessMatches(m, sh, After(m, sh, c, ids[0]), ids[1..]);
    }
  }

  /**
   * A batch succeeds exactly when the passes of its requests, one by one, all do, with the same logits and the same
   * store. One that fails stops where they would stop, or, if its totals differ, before the first.
   */
  lemma BatchIsOneByOne(m: D.Decoder, sh: D.Shape, c: Machine, ids: seq<nat>)
    requires Good(c) && ChunksFit(c.serving) && Batchable(c, ids)
    ensures var run, single := Execution(m, sh, c.store, ItemsOf(c, ids)), OneByOne(m, sh, c, ids);
            && run.logits == single.logits
            && run.store == if TotalsMatch(ItemsOf(c, ids)) then single.store else c.store
  {
    if TotalsMatch(ItemsOf(c, ids)) {
      ForwardIsOneByOne(m, sh, c, ids);
    } else if OneByOne(m, sh, c, ids).logits.Some? {
      SuccessMatches(m, sh, c, ids);
    }
  }

  // ---------- over whole runs ----------

  /** The logits of the requests' own tokens, but for those put back before their prompt was done. */
  ghost predicate OwnLogits(m: D.Decoder, c: Machine, ids: seq<nat>, logits: seq<Vec>) {
    |logits| == |ids| && forall k :: 0 <= k < |ids| ==> OwnLogit(m, c, ids[k], logits[k])
  }

  ghost predicate OwnLogit(m: D.Decoder, c: Machine, id: nat, logits: Vec) {
    id in c.serving.live && (id !in c.early ==>
      0 < End(c, id) <= |Tokens(c, id)| && D.Logits(m, Tokens(c, id)[..End(c, id)]) == Some(logits))
  }

  lemma {:induction false} OneByOneOwn(m: D.Decoder, sh: D.Shape, c: Machine, ids: seq<nat>)
    requires Good(c) && Sound(m, c.store, c.origin) && Batchable(c, ids) && OneByOne(m, sh, c, ids).logits.Some?
    ensures OwnLogits(m, c, ids, OneByOne(m, sh, c, ids).logits.value)
    decreases |ids|
  {
    if ids != [] {
      var id, rest, t := ids[0], ids[1..], After(m, sh, c, ids[0]);
      CallOwn(m, sh, c, id);
      CallGood(m, sh, c, id);
      CallSound(m, sh, c, id);
      ItemsKept(m, sh, c, id, rest);
      OneByOneOwn(m, sh, t, rest);
      OwnLogitsKept(m, c, t, rest, OneByOne(m, sh, t, rest).logits.value);
      OwnJoined(m, c, ids, Call(m, sh, c, id).logits.value, OneByOne(m, sh, t, rest).logits.value);
    }
  }

  lemma CallOwn(m: D.Decoder, sh: D.Shape, c: Machine, id: nat)
    requires Good(c) && Sound(m, c.store, c.origin) && id in c.serving.live && Call(m, sh, c, id).logits.Some?
    ensures OwnLogit(m, c, id, Call(m, sh, c, id).logits.value)
  {
    if id !in c.early {
      CallComputes(m, sh, c, id);
    }
  }

  lemma OwnJoined(m: D.Decoder, c: Machine, ids: seq<nat>, first: Vec, rest: seq<Vec>)
    requires ids != [] && OwnLogit(m, c, ids[0], first) && OwnLogits(m, c, ids[1..], rest)
    ensures OwnLogits(m, c, ids, [first] + rest)
  {
    forall k | 0 <= k < |ids|
      ensures OwnLogit(m, c, ids[k], ([first] + rest)[k])
    {
      if k > 0 { assert OwnLogit(m, c, ids[1..][k - 1], rest[k - 1]); }
    }
  }

  lemma OwnLogitsKept(m: D.Decoder, c: Machine, t: Machine, ids: seq<nat>, logits: seq<Vec>)
    requires t == c.(store := t.store, origin := t.origin) && OwnLogits(m, t, ids, logits)
    ensures OwnLogits(m, c, ids, logits)
  {
    forall k | 0 <= k < |ids|
      ensures OwnLogit(m, c, ids[k], logits[k])
    {
      assert OwnLogit(m, t, ids[k], logits[k]);
    }
  }

  /**
   * After any run, a batch of prepared requests that succeeds returns for each of them the logits of its own tokens,
   * unless it was put back before its prompt was done and lost track of it.
   */
  lemma BatchIsRecomputation(m: D.Decoder, sh: D.Shape, capacity: nat, pageSize: nat, store: Store, events: seq<Event>,
                             ids: seq<nat>)
    requires pageSize > 0 && capacity % pageSize == 0 && Run(m, sh, Start0(capacity, pageSize, store), events)
    requires Batchable(Final(m, sh, Start0(capacity, pageSize, store), events), ids)
    ensures var c := Final(m, sh, Start0(capacity, pageSize, store), events);
            var run := Execution(m, sh, c.store, ItemsOf(c, ids));
            run.logits.Some? ==> OwnLogits(m, c, ids, run.logits.value)
  {
    var start := Start0(capacity, pageSize, store);
    InitialGood(capacity, pageSize, store);
    RunGood(m, sh, start, events);
    RunFits(m, sh, start, events);
    var c := Final(m, sh, start, events);
    BatchIsOneByOne(m, sh, c, ids);
    if OneByOne(m, sh, c, ids).logits.Some? {
      OneByOneOwn(m, sh, c, ids);
    }
  }

  /** When a request of the batch is completed makes no difference to the passes of the others. */
  lemma CompletionWaits(m: D.Decoder, sh: D.Shape, c: Machine, a: nat, b: nat, outcome: S.Outcome, token: nat)
    requires c.serving.pool.pageSize > 0 && a in c.serving.live && b in c.serving.live && a != b
             && c.serving.live[a].forward
    ensures var t := Finished(c, a, outcome, token);
            b in t.serving.live && Call(m, sh, t, b) == Call(m, sh, c, b)
    ensures Finished(After(m, sh, c, b), a, outcome, token) == After(m, sh, Finished(c, a, outcome, token), b)
  {
    CompletedOthers(c.serving, a, outcome, b);
    CallSame(m, sh, c, Finished(c, a, outcome, token), b);
    FinishedRest(c, a, outcome, token, Call(m, sh, c, b).store, Call(m, sh, c, b).origin);
  }

  lemma CompletedOthers(s: S.State, a: nat, outcome: S.Outcome, b: nat)
    requires s.pool.pageSize > 0 && a in s.live && b in s.live && a != b
    ensures var t := S.Serve(s, S.Complete(a, outcome)); b in t.live && t.live[b] == s.live[b]
  {
  }

  lemma CallSame(m: D.Decoder, sh: D.Shape, c: Machine, t: Machine, b: nat)
    requires b in c.serving.live && b in t.serving.live && t.serving.live[b] == c.serving.live[b]
    requires Outputs(t, b) == Outputs(c, b) && t.store == c.store && t.origin == c.origin
    ensures Call(m, sh, t, b) == Call(m, sh, c, b)
  {
    assert Start(t, b) == Start(c, b) && End(t, b) == End(c, b);
    assert BatchValid(t, b) <==> BatchValid(c, b);
    assert BatchValid(c, b) ==> Fed(t, b) == Fed(c, b);
  }

  lemma FinishedRest(c: Machine, a: nat, outcome: S.Outcome, token: nat, store: Store, origin: Origin)
    requires c.serving.pool.pageSize > 0 && a in c.serving.live
    ensures Finished(c.(store := store, origin := origin), a, outcome, token)
         == Finished(c, a, outcome, token).(store := store, origin := origin)
  {
    var t := c.(store := store, origin := origin);
    assert Outputs(t, a) == Outputs(c, a);
  }
}
