/**
 * Decoding over shared prefixes: the scheduler's requests run on the KV store, reusing rows that other requests
 * computed (`scheduler.rs`, `model_executor.rs`, `cpu_reference.rs`), and still compute what each would compute alone.
 */
module SharedDecode {
  import opened Basics
  import opened KvStorage
  import opened RowOrigin
  import D = CachedDecode
  import P = PageAllocator
  import S = Serving
  import R = RadixCache

  /**
   * The scheduler's state, the KV store, the tokens generated so far, where the rows in the store come from, and the
   * requests that went to the decode queue before their prompt was done and lost track of it.
   */
  datatype Machine = Machine(
    serving: S.State, store: Store, outputs: map<nat, seq<nat>>, origin: Origin, early: set<nat>)

  /**
   * A scheduling step, a forward pass whose batch fails as a whole afterwards, or a forward pass that is completed with
   * a sampled token, or fails by itself.
   */
  datatype Event = Schedule(step: S.Event) | Compute(id: nat) | Execute(id: nat, outcome: S.Outcome, token: nat)

  function Outputs(c: Machine, id: nat): seq<nat> {
    if id in c.outputs then c.outputs[id] else []
  }

  /** Prompt and generated tokens. */
  function Tokens(c: Machine, id: nat): seq<nat>
    requires id in c.serving.live
  {
    c.serving.live[id].ids + Outputs(c, id)
  }

  /** The output slots of the prepared forward pass: the new ones, or the replayed one. */
  function Outs(r: S.Request): seq<nat> {
    if r.recent == 0 && r.chunk == 1 && r.slots != [] then [r.slots[|r.slots| - 1]] else r.slots[S.Settled(r)..]
  }

  /** Where the prompt will stand after the chunk. */
  function ChunkEnd(r: S.Request): nat {
    Min(r.processed + (if r.chunk > 0 then r.chunk else r.uncached), |r.ids|)
  }

  /** The first position the forward pass computes. */
  function Start(c: Machine, id: nat): nat
    requires id in c.serving.live
  {
    var r := c.serving.live[id];
    if !r.decoding then r.processed
    else if Tokens(c, id) == [] then 0
    else |Tokens(c, id)| - 1
  }

  /** The position after the last one it computes. */
  function End(c: Machine, id: nat): nat
    requires id in c.serving.live
  {
    if c.serving.live[id].decoding then |Tokens(c, id)| else ChunkEnd(c.serving.live[id])
  }

  /** The batch builder and its validation: as many output slots as tokens, and as many slots as tokens seen. */
  ghost predicate BatchValid(c: Machine, id: nat)
    requires id in c.serving.live
  {
    var r := c.serving.live[id];
    && Start(c, id) <= End(c, id) && End(c, id) - Start(c, id) == |Outs(r)|
    && End(c, id) <= |r.slots| && (r.decoding ==> End(c, id) == |r.slots|)
  }

  /** The input tokens of the forward pass; a decode step without any generated token is fed token 0. */
  function Fed(c: Machine, id: nat): seq<nat>
    requires id in c.serving.live && Start(c, id) <= End(c, id)
  {
    if c.serving.live[id].decoding && Outputs(c, id) == [] && Tokens(c, id) != [] then [0]
    else Tokens(c, id)[Start(c, id)..End(c, id)]
  }

  /** What a forward pass leaves: logits if it succeeds, the store, and the record of its rows. */
  datatype Pass = Pass(logits: Option<Vec>, store: Store, origin: Origin)

  /** The forward pass of one request. */
  ghost function Call(m: D.Decoder, sh: D.Shape, c: Machine, id: nat): Pass
    requires id in c.serving.live
  {
    if !BatchValid(c, id) then Pass(None, c.store, c.origin) else
    var r, start := c.serving.live[id], Start(c, id);
    var sequence := r.slots[..End(c, id)];
    var (v, next) := Chunk(m, sh, c.store, Fed(c, id), start, Outs(r), sequence);
    Pass(if v.Ok? then Some(v.value) else None, next,
         ChunkOrigin(m, sh, c.store, c.origin, Fed(c, id), start, Outs(r), sequence))
  }

  /** The machine after a forward pass, whatever becomes of the request. */
  ghost function After(m: D.Decoder, sh: D.Shape, c: Machine, id: nat): Machine
    requires id in c.serving.live
  {
    c.(store := Call(m, sh, c, id).store, origin := Call(m, sh, c, id).origin)
  }

  /** The request has exactly the rows before the last token of its prompt, and that token is 0. */
  ghost predicate OnTrack(origin: Origin, r: S.Request, settled: nat) {
    && r.ids != [] && settled == |r.ids| - 1 && Rooted(origin, r.ids, r.slots, |r.ids| - 1)
    && r.ids[|r.ids| - 1] == 0
  }

  /** Put back before any output: its next pass decodes, reading token 0. */
  predicate PutBackEarly(c: Machine, step: S.Event) {
    step.Requeue? && step.id in c.serving.live && c.serving.live[step.id].forward && Outputs(c, step.id) == []
  }

  ghost function EarlyAfter(c: Machine, step: S.Event): set<nat> {
    if step.Enqueue? && step.id !in c.serving.live then c.early - {step.id}
    else if !PutBackEarly(c, step) then c.early
    else if OnTrack(c.origin, c.serving.live[step.id], |c.serving.live[step.id].slots|) then c.early - {step.id}
    else c.early + {step.id}
  }

  ghost function Step(m: D.Decoder, sh: D.Shape, c: Machine, e: Event): (c': Machine)
    requires c.serving.pool.pageSize > 0
    ensures c'.serving.pool.pageSize == c.serving.pool.pageSize
    ensures c'.serving.pool.capacity == c.serving.pool.capacity
  {
    match e
    case Schedule(step) =>
      var arrives := step.Enqueue? && step.id !in c.serving.live;
      c.(serving := S.Serve(c.serving, step), outputs := if arrives then c.outputs[step.id := []] else c.outputs,
         early := EarlyAfter(c, step))
    case Compute(id) =>
      if id in c.serving.live && c.serving.live[id].forward then After(m, sh, c, id) else c
    case Execute(id, outcome, token) =>
      if id !in c.serving.live || !c.serving.live[id].forward then c
      else if Call(m, sh, c, id).logits.None? then
        var t := After(m, sh, c, id);
        t.(serving := S.Serve(c.serving, S.Fail(id)))
      else Finished(After(m, sh, c, id), id, outcome, token)
  }

  /** A forward pass that succeeded: prefill progress is published, and the sampled token is appended. */
  function Finished(c: Machine, id: nat, outcome: S.Outcome, token: nat): Machine
    requires c.serving.pool.pageSize > 0 && id in c.serving.live
  {
    c.(serving := S.Serve(c.serving, S.Complete(id, outcome)),
       outputs := if c.serving.live[id].decoding || ChunkEnd(c.serving.live[id]) == |c.serving.live[id].ids|
                  then c.outputs[id := Outputs(c, id) + [token]] else c.outputs)
  }

  // ---------- the invariant ----------

  ghost predicate CacheRooted(c: Machine) {
    forall path, x: nat :: S.CachedSlot(c.serving.cache, path, x) ==> Roots(c.origin, x, path)
  }

  /** A prompt that was matched completely waits to replay its last token; all its rows are there already. */
  ghost predicate Replaying(c: Machine, id: nat)
    requires id in c.serving.live
  {
    var r := c.serving.live[id];
    r.processed + 1 == |r.ids| == r.published == r.matched == S.Settled(r)
    && Rooted(c.origin, Tokens(c, id), r.slots, |r.ids|)
  }

  /** What a request has computed is in its slots, and what it computes next is not yet published. */
  ghost predicate Tracked(c: Machine, id: nat)
    requires id in c.serving.live
  {
    var r := c.serving.live[id];
    && Start(c, id) <= S.Settled(r) && Start(c, id) <= |Tokens(c, id)|
    && Rooted(c.origin, Tokens(c, id), r.slots, Start(c, id))
    && (!r.decoding ==> Outputs(c, id) == [] && (r.processed >= r.published || Replaying(c, id)))
    && (r.decoding ==> r.published < |Tokens(c, id)|)
    && (r.decoding && Outputs(c, id) == [] ==> r.ids[|r.ids| - 1] == 0)
  }

  /**
   * A request put back early: before its first output it is not on track; afterwards some row of its prompt is not
   * its own.
   */
  ghost predicate Astray(c: Machine, id: nat)
    requires id in c.serving.live
  {
    var r := c.serving.live[id];
    && r.decoding
    && if Outputs(c, id) == [] then !OnTrack(c.origin, r, S.Settled(r))
       else |r.ids| <= S.Settled(r) && !Rooted(c.origin, r.ids, r.slots, |r.ids|)
  }

  /** Without a forward pass nothing is prepared; a decode pass prepares one slot, a prefill its chunk or a replay. */
  predicate PreparedFor(r: S.Request) {
    && (!r.forward ==> r.recent == 0 && r.chunk == 0)
    && (r.forward && r.decoding ==> r.recent == 1 && r.chunk == 1)
    && (r.forward && !r.decoding ==> r.recent == r.chunk || (r.recent == 0 && r.chunk == 1))
  }

  ghost predicate Consistent(c: Machine, id: nat)
    requires id in c.serving.live
  {
    PreparedFor(c.serving.live[id]) && if id in c.early then Astray(c, id) else Tracked(c, id)
  }

  ghost predicate Good(c: Machine) {
    && S.Safe(c.serving) && S.Positioned(c.serving) && CacheRooted(c)
    && forall id :: id in c.serving.live ==> Consistent(c, id)
  }

  // ---------- what a forward pass may overwrite ----------

  /** A slot past what the request has published is read by nobody else. */
  lemma PrivateSlot(s: S.State, id: nat, j: nat)
    requires S.Safe(s) && S.Positioned(s) && id in s.live && s.live[id].published <= j < |s.live[id].slots|
    ensures forall path :: !S.CachedSlot(s.cache, path, s.live[id].slots[j])
    ensures forall b :: b in s.live && b != id ==> s.live[id].slots[j] !in s.live[b].slots
  {
    var r, x := s.live[id], s.live[id].slots[j];
    assert S.RequestSafe(r, s.pool.inUse, s.pool.pageSize);
    NotShared(s, id, j);
    forall b | b in s.live && b != id
      ensures x !in s.live[b].slots
    {
      if x in s.live[b].slots {
        var i :| 0 <= i < |s.live[b].slots| && s.live[b].slots[i] == x;
        NotInOthers(s, id, j, b, i);
      }
    }
  }

  lemma OwnsItsPage(s: S.State, id: nat, j: nat)
    requires S.Safe(s) && id in s.live && s.live[id].matched <= j < |s.live[id].slots|
    ensures S.OwnPage(s.live[id], s.pool.pageSize, s.live[id].slots[j] / s.pool.pageSize)
  {
    var r := s.live[id];
    assert S.Own(r)[j - r.matched] == r.slots[j];
  }

  lemma NotShared(s: S.State, id: nat, j: nat)
    requires S.Safe(s) && S.Positioned(s) && id in s.live && s.live[id].published <= j < |s.live[id].slots|
    ensures !S.Shared(s, s.live[id].slots[j])
  {
    var r, x := s.live[id], s.live[id].slots[j];
    assert S.RequestSafe(r, s.pool.inUse, s.pool.pageSize);
    if S.Shared(s, x) {
      OwnsItsPage(s, id, j);
      assert S.SharedSafe(s, x);
      assert S.Covered(r, x, s.pool.pageSize);
      S.ListsAreDistinct(s, id);
      assert false;
    }
  }

  lemma NotInOthers(s: S.State, id: nat, j: nat, b: nat, i: nat)
    requires S.Safe(s) && S.Positioned(s) && id in s.live && s.live[id].published <= j < |s.live[id].slots|
    requires b in s.live && b != id && i < |s.live[b].slots|
    ensures s.live[b].slots[i] != s.live[id].slots[j]
  {
    var d, r, x := s.pool.pageSize, s.live[id], s.live[id].slots[j];
    assert S.RequestSafe(r, s.pool.inUse, d) && S.RequestSafe(s.live[b], s.pool.inUse, d);
    if s.live[b].slots[i] == x {
      NotShared(s, id, j);
      assert i < s.live[b].matched ==> S.MatchedSlot(s, b, i, x);
      assert S.Own(s.live[b])[i - s.live[b].matched] == x;
      OwnsItsPage(s, id, j);
      S.NotApart(S.Own(s.live[b]), i - s.live[b].matched, r, d);
    }
  }

  // ---------- a forward pass leaves everybody else's rows ----------

  lemma RootedShorter(origin: Origin, tokens: seq<nat>, slots: seq<nat>, end: nat, n: nat)
    requires n <= end <= |slots|
    ensures Rooted(origin, tokens, slots[..end], n) <==> Rooted(origin, tokens, slots, n)
  {
    if n <= |tokens| {
      forall j | 0 <= j < n
        ensures Roots(origin, slots[..end][j], tokens[..j + 1]) <==> Roots(origin, slots[j], tokens[..j + 1])
      {
      }
    }
  }

  lemma FromShorter(before: Origin, after: Origin, slots: seq<nat>, end: nat, n: nat)
    requires end <= |slots| && OriginFrom(before, after, slots[..end], n)
    ensures OriginFrom(before, after, slots, n)
  {
    forall x | forall j :: n <= j < |slots| ==> slots[j] != x
      ensures SameAt(before, after, x)
    {
      forall j | n <= j < |slots[..end]|
        ensures slots[..end][j] != x
      {
        assert slots[j] != x;
      }
    }
  }

  lemma CallFrom(m: D.Decoder, sh: D.Shape, c: Machine, id: nat)
    requires id in c.serving.live
    ensures OriginFrom(c.origin, Call(m, sh, c, id).origin, c.serving.live[id].slots, Start(c, id))
  {
    var r := c.serving.live[id];
    if BatchValid(c, id) {
      ChunkOriginFrom(m, sh, c.store, c.origin, Fed(c, id), Start(c, id), Outs(r), r.slots[..End(c, id)]);
      FromShorter(c.origin, Call(m, sh, c, id).origin, r.slots, End(c, id), Start(c, id));
    }
  }

  /** A decode step of a displaced request writes past everything published. */
  lemma PublishedBefore(c: Machine, id: nat)
    requires Good(c) && id in c.serving.live && BatchValid(c, id)
    requires c.serving.live[id].decoding || c.serving.live[id].processed >= c.serving.live[id].published
    ensures c.serving.live[id].published <= Start(c, id)
  {
    assert Consistent(c, id);
    assert S.RequestSafe(c.serving.live[id], c.serving.pool.inUse, c.serving.pool.pageSize);
  }

  /** A replay leaves the record as it is. */
  lemma ReplayKeepsOrigin(m: D.Decoder, sh: D.Shape, c: Machine, id: nat)
    requires Good(c) && id in c.serving.live && BatchValid(c, id) && !c.serving.live[id].decoding && Replaying(c, id)
    ensures Call(m, sh, c, id).origin == c.origin
  {
    var r, tokens, start := c.serving.live[id], Tokens(c, id), Start(c, id);
    assert Consistent(c, id) && tokens == r.ids;
    if End(c, id) == start {
      assert Fed(c, id) == [];
    } else {
      assert Fed(c, id) == [tokens[start]];
      var sequence := r.slots[..End(c, id)];
      RootedShorter(c.origin, tokens, r.slots, End(c, id), start + 1);
      TokenKeepsOrigin(m, sh, c.store, c.origin, tokens, start, Outs(r)[0], sequence);
    }
  }

  lemma TokenKeepsOrigin(m: D.Decoder, sh: D.Shape, store: Store, origin: Origin, tokens: seq<nat>, i: nat, out: nat,
                         sequence: seq<nat>)
    requires i < |tokens| && i < |sequence| && Rooted(origin, tokens, sequence, i + 1)
    ensures TokenOrigin(m, sh, store, origin, tokens[i], i, out, sequence) == origin
  {
    assert Rooted(origin, tokens, sequence, i);
    PathOfRooted(origin, tokens, sequence, i, tokens[i]);
    assert tokens[..i] + [tokens[i]] == tokens[..i + 1];
    assert Roots(origin, sequence[i], tokens[..i + 1]);
  }

  /** Neither a cached slot nor a slot of another request changes its row. */
  ghost predicate LeavesOthers(c: Machine, id: nat, after: Origin) {
    && (forall path, x: nat :: S.CachedSlot(c.serving.cache, path, x) ==> SameAt(c.origin, after, x))
    && (forall b, j: nat :: b in c.serving.live && b != id && j < |c.serving.live[b].slots| ==>
          SameAt(c.origin, after, c.serving.live[b].slots[j]))
  }

  lemma CallLeavesOthers(m: D.Decoder, sh: D.Shape, c: Machine, id: nat)
    requires Good(c) && id in c.serving.live
    ensures LeavesOthers(c, id, Call(m, sh, c, id).origin)
  {
    var r := c.serving.live[id];
    assert Consistent(c, id);
    if BatchValid(c, id) {
      if r.decoding || r.processed >= r.published {
        PublishedBefore(c, id);
        CallFrom(m, sh, c, id);
        PrivateChange(c, id, Call(m, sh, c, id).origin, Start(c, id));
      } else {
        ReplayKeepsOrigin(m, sh, c, id);
      }
    }
  }

  lemma PrivateChange(c: Machine, id: nat, after: Origin, n: nat)
    requires S.Safe(c.serving) && S.Positioned(c.serving) && id in c.serving.live && c.serving.live[id].published <= n
    requires OriginFrom(c.origin, after, c.serving.live[id].slots, n)
    ensures LeavesOthers(c, id, after)
  {
    var r := c.serving.live[id];
    forall path, x: nat | S.CachedSlot(c.serving.cache, path, x)
      ensures SameAt(c.origin, after, x)
    {
      forall j | n <= j < |r.slots|
        ensures r.slots[j] != x
      {
        PrivateSlot(c.serving, id, j);
      }
    }
    forall b, j: nat | b in c.serving.live && b != id && j < |c.serving.live[b].slots|
      ensures SameAt(c.origin, after, c.serving.live[b].slots[j])
    {
      forall k | n <= k < |r.slots|
        ensures r.slots[k] != c.serving.live[b].slots[j]
      {
        NotInOthers(c.serving, id, k, b, j);
      }
    }
  }

  lemma RootedSame(before: Origin, after: Origin, tokens: seq<nat>, slots: seq<nat>, n: nat)
    requires forall j :: 0 <= j < n && j < |slots| ==> SameAt(before, after, slots[j])
    ensures Rooted(before, tokens, slots, n) <==> Rooted(after, tokens, slots, n)
  {
    if Rooted(before, tokens, slots, n) {
      RootedKept(before, after, tokens, slots, n);
    }
    if Rooted(after, tokens, slots, n) {
      RootedKept(after, before, tokens, slots, n);
    }
  }

  lemma RootedSameBefore(before: Origin, after: Origin, tokens: seq<nat>, slots: seq<nat>, n: nat, k: nat)
    requires NoDup(slots) && OriginFrom(before, after, slots, n) && k <= n
    ensures Rooted(before, tokens, slots, k) <==> Rooted(after, tokens, slots, k)
  {
    forall j | 0 <= j < k && j < |slots|
      ensures SameAt(before, after, slots[j])
    {
    }
    RootedSame(before, after, tokens, slots, k);
  }

  /** A request none of whose rows changed is as consistent as before. */
  lemma OtherKept(c: Machine, c': Machine, b: nat)
    requires b in c.serving.live && Consistent(c, b) && c' == c.(store := c'.store, origin := c'.origin)
    requires forall j: nat :: j < |c.serving.live[b].slots| ==> SameAt(c.origin, c'.origin, c.serving.live[b].slots[j])
    ensures Consistent(c', b)
  {
    var r := c.serving.live[b];
    forall tokens, n: nat
      ensures Rooted(c.origin, tokens, r.slots, n) <==> Rooted(c'.origin, tokens, r.slots, n)
    {
      RootedSame(c.origin, c'.origin, tokens, r.slots, n);
    }
  }

  lemma SelfKept(m: D.Decoder, sh: D.Shape, c: Machine, id: nat)
    requires Good(c) && id in c.serving.live
    ensures Consistent(After(m, sh, c, id), id)
  {
    var r, c', start := c.serving.live[id], After(m, sh, c, id), Start(c, id);
    assert Consistent(c, id);
    CallFrom(m, sh, c, id);
    S.ListsAreDistinct(c.serving, id);
    if id in c.early {
      AstrayKept(c, c', id);
    } else {
      if !r.decoding && r.processed < r.published {
        ReplayKept(m, sh, c, id);
      }
      TrackedKept(c, c', id);
    }
  }

  lemma TrackedKept(c: Machine, c': Machine, id: nat)
    requires c' == c.(store := c'.store, origin := c'.origin) && id in c.serving.live && Tracked(c, id)
    requires NoDup(c.serving.live[id].slots) && OriginFrom(c.origin, c'.origin, c.serving.live[id].slots, Start(c, id))
    requires var r := c.serving.live[id]; !r.decoding && r.processed < r.published ==> Replaying(c', id)
    ensures Tracked(c', id)
  {
    var r, start := c.serving.live[id], Start(c, id);
    assert Tokens(c', id) == Tokens(c, id) && Start(c', id) == start;
    RootedSameBefore(c.origin, c'.origin, Tokens(c, id), r.slots, start, start);
  }

  lemma AstrayKept(c: Machine, c': Machine, id: nat)
    requires c' == c.(store := c'.store, origin := c'.origin) && id in c.serving.live && Astray(c, id)
    requires NoDup(c.serving.live[id].slots) && OriginFrom(c.origin, c'.origin, c.serving.live[id].slots, Start(c, id))
    ensures Astray(c', id)
  {
    var r := c.serving.live[id];
    assert Tokens(c', id) == Tokens(c, id);
    if Outputs(c, id) != [] {
      RootedSameBefore(c.origin, c'.origin, r.ids, r.slots, Start(c, id), |r.ids|);
    } else if r.ids != [] {
      RootedSameBefore(c.origin, c'.origin, r.ids, r.slots, Start(c, id), |r.ids| - 1);
    }
  }

  lemma ReplayKept(m: D.Decoder, sh: D.Shape, c: Machine, id: nat)
    requires Good(c) && id in c.serving.live && !c.serving.live[id].decoding && Replaying(c, id)
    ensures Replaying(After(m, sh, c, id), id)
  {
    if BatchValid(c, id) {
      ReplayKeepsOrigin(m, sh, c, id);
    }
  }

  /** Whatever it computes, a forward pass leaves a good machine. */
  lemma CallGood(m: D.Decoder, sh: D.Shape, c: Machine, id: nat)
    requires Good(c) && id in c.serving.live
    ensures Good(After(m, sh, c, id))
  {
    var c' := After(m, sh, c, id);
    CallLeavesOthers(m, sh, c, id);
    forall path, x: nat | S.CachedSlot(c.serving.cache, path, x)
      ensures Roots(c'.origin, x, path)
    {
      assert Roots(c.origin, x, path) && SameAt(c.origin, c'.origin, x);
    }
    forall b | b in c.serving.live
      ensures Consistent(c', b)
    {
      assert Consistent(c, b);
      if b == id {
        SelfKept(m, sh, c, id);
      } else {
        OtherKept(c, c', b);
      }
    }
  }

  // ---------- a forward pass computes the request's own logits ----------

  lemma FedOwn(c: Machine, id: nat)
    requires id in c.serving.live && Tracked(c, id) && Start(c, id) <= End(c, id)
    ensures Start(c, id) <= End(c, id) <= |Tokens(c, id)|
    ensures Fed(c, id) == Tokens(c, id)[Start(c, id)..End(c, id)]
  {
    var r := c.serving.live[id];
    if r.decoding && Outputs(c, id) == [] && Tokens(c, id) != [] {
      assert Tokens(c, id) == r.ids;
    }
  }

  /** A request that lost no track computes its own logits and leaves its rows. */
  lemma CallComputes(m: D.Decoder, sh: D.Shape, c: Machine, id: nat)
    requires Good(c) && Sound(m, c.store, c.origin) && id in c.serving.live && id !in c.early
    requires Call(m, sh, c, id).logits.Some?
    ensures Start(c, id) < End(c, id) <= |Tokens(c, id)| && End(c, id) <= |c.serving.live[id].slots|
    ensures D.Logits(m, Tokens(c, id)[..End(c, id)]) == Call(m, sh, c, id).logits
  {
    var r := c.serving.live[id];
    assert Consistent(c, id);
    FedOwn(c, id);
    S.ListsAreDistinct(c.serving, id);
    RootedShorter(c.origin, Tokens(c, id), r.slots, End(c, id), Start(c, id));
    ChunkOverOwnRows(m, sh, c.store, c.origin, Tokens(c, id), Start(c, id), End(c, id), Outs(r), r.slots[..End(c, id)]);
  }

  /** A request that lost no track, and whose pass succeeded, has its own rows up to where it stands. */
  lemma CallRoots(m: D.Decoder, sh: D.Shape, c: Machine, id: nat)
    requires Good(c) && id in c.serving.live && id !in c.early && Call(m, sh, c, id).logits.Some?
    ensures Start(c, id) < End(c, id) <= |Tokens(c, id)| && End(c, id) <= |c.serving.live[id].slots|
    ensures Rooted(Call(m, sh, c, id).origin, Tokens(c, id), c.serving.live[id].slots, End(c, id))
  {
    var r, start, end := c.serving.live[id], Start(c, id), End(c, id);
    assert Consistent(c, id);
    FedOwn(c, id);
    S.ListsAreDistinct(c.serving, id);
    RootedShorter(c.origin, Tokens(c, id), r.slots, end, start);
    ChunkRoots(m, sh, c.store, c.origin, Tokens(c, id), start, end, Outs(r), r.slots[..end]);
    RootedShorter(Call(m, sh, c, id).origin, Tokens(c, id), r.slots, end, end);
  }

  /** Every forward pass leaves the record right. */
  lemma CallSound(m: D.Decoder, sh: D.Shape, c: Machine, id: nat)
    requires S.Positioned(c.serving) && Sound(m, c.store, c.origin) && id in c.serving.live
    ensures Sound(m, Call(m, sh, c, id).store, Call(m, sh, c, id).origin)
  {
    if BatchValid(c, id) {
      S.ListsAreDistinct(c.serving, id);
      var r := c.serving.live[id];
      ChunkSound(m, sh, c.store, c.origin, Fed(c, id), Start(c, id), Outs(r), r.slots[..End(c, id)]);
    }
  }

  // ---------- scheduling steps ----------

  lemma RootedLonger(origin: Origin, tokens: seq<nat>, slots: seq<nat>, slots': seq<nat>, n: nat)
    requires n <= |slots| && n <= |slots'| && slots[..n] == slots'[..n]
    ensures Rooted(origin, tokens, slots, n) <==> Rooted(origin, tokens, slots', n)
  {
    RootedShorter(origin, tokens, slots, n, n);
    RootedShorter(origin, tokens, slots', n, n);
  }

  /** Cached slots, position by position, hold the rows of the tokens they were found under. */
  lemma CachedRows(c: Machine, tokens: seq<nat>, slots: seq<nat>)
    requires CacheRooted(c) && |slots| <= |tokens|
    requires forall i :: 0 <= i < |slots| ==> S.CachedSlot(c.serving.cache, tokens[..i + 1], slots[i])
    ensures Rooted(c.origin, tokens, slots, |slots|)
  {
  }

  /** A machine whose request id changed, and whose other requests did not. */
  ghost predicate OnlyRequest(c: Machine, c': Machine, id: nat) {
    && c'.origin == c.origin && c'.serving.cache == c.serving.cache
    && (forall b :: b in c'.serving.live && b != id ==>
          b in c.serving.live && c'.serving.live[b] == c.serving.live[b] && Outputs(c', b) == Outputs(c, b)
          && (b in c'.early <==> b in c.early))
  }

  lemma SameRequest(c: Machine, c': Machine, b: nat)
    requires b in c.serving.live && Consistent(c, b) && b in c'.serving.live && c'.origin == c.origin
    requires c'.serving.live[b] == c.serving.live[b] && Outputs(c', b) == Outputs(c, b)
    requires b in c'.early <==> b in c.early
    ensures Consistent(c', b)
  {
  }

  lemma OnlyRequestGood(c: Machine, c': Machine, id: nat)
    requires Good(c) && OnlyRequest(c, c', id) && S.Safe(c'.serving) && S.Positioned(c'.serving)
    requires id in c'.serving.live ==> Consistent(c', id)
    ensures Good(c')
  {
    forall b | b in c'.serving.live
      ensures Consistent(c', b)
    {
      if b != id {
        SameRequest(c, c', b);
      }
    }
  }

  /** Same request, its settled slots still in front and no more of them. */
  ghost predicate SameProgress(r: S.Request, r': S.Request) {
    && r'.ids == r.ids && r'.processed == r.processed && r'.decoding == r.decoding
    && r'.matched == r.matched && r'.published == r.published
    && S.Settled(r) == S.Settled(r') && S.Settled(r) <= |r.slots| && S.Settled(r) <= |r'.slots|
    && r.slots[..S.Settled(r)] == r'.slots[..S.Settled(r)]
  }

  /** The request keeps what it has computed when its list grows, or loses only its newest slots. */
  lemma ListChanged(c: Machine, c': Machine, id: nat)
    requires id in c.serving.live && id in c'.serving.live && Consistent(c, id) && c'.origin == c.origin
    requires Outputs(c', id) == Outputs(c, id) && (id in c'.early <==> id in c.early)
    requires SameProgress(c.serving.live[id], c'.serving.live[id]) && PreparedFor(c'.serving.live[id])
    ensures Consistent(c', id)
  {
    var r, r' := c.serving.live[id], c'.serving.live[id];
    forall tokens, n: nat | n <= S.Settled(r)
      ensures Rooted(c.origin, tokens, r.slots, n) <==> Rooted(c.origin, tokens, r'.slots, n)
    {
      PrefixAgrees(r.slots, r'.slots, n, S.Settled(r));
      RootedLonger(c.origin, tokens, r.slots, r'.slots, n);
    }
  }

  lemma PrefixAgrees(a: seq<nat>, b: seq<nat>, k: nat, n: nat)
    requires k <= n <= |a| && n <= |b| && a[..n] == b[..n]
    ensures a[..k] == b[..k]
  {
    assert a[..n][..k] == a[..k] && b[..n][..k] == b[..k];
  }

  /** After its match a request stands where the cache's rows end, or one before the end of its prompt. */
  lemma MatchedTracked(c: Machine, c': Machine, id: nat)
    requires Good(c) && id in c.serving.live && !c.serving.live[id].decoding
    requires c' == c.(serving := S.Put(c.serving, id, S.Matched(c.serving, c.serving.live[id])))
    ensures Consistent(c', id) || c.serving.live[id].forward
  {
    var r, r' := c.serving.live[id], c'.serving.live[id];
    assert Consistent(c, id);
    if r.processed == 0 {
      S.MatchIsCached(c.serving, r);
      assert Tokens(c', id) == r.ids;
      CachedRows(c, r.ids, r'.slots);
      if S.Replays(c.serving, r) {
        assert r.ids[|r'.slots|..] == [];
      }
      RootedLess(c.origin, r.ids, r'.slots, |r'.slots|, Start(c', id));
    }
  }

  lemma RootedLess(origin: Origin, tokens: seq<nat>, slots: seq<nat>, n: nat, k: nat)
    requires Rooted(origin, tokens, slots, n) && k <= n
    ensures Rooted(origin, tokens, slots, k)
  {
  }

  lemma ServingKept(c: Machine, step: S.Event)
    requires S.Safe(c.serving) && S.Positioned(c.serving) && S.QuietFlush(c.serving, step)
    ensures S.Safe(S.Serve(c.serving, step)) && S.Positioned(S.Serve(c.serving, step))
  {
    S.ServeSafe(c.serving, step);
    S.ServePositioned(c.serving, step);
  }

  lemma ExtendedProgress(s: S.State, id: nat, r: S.Request, n: nat)
    requires S.Safe(S.Put(s, id, r)) && r.recent == 0
    ensures id in S.Extended(s, id, r, n).live && SameProgress(r, S.Extended(s, id, r, n).live[id])
  {
    AllocatedLength(S.Put(s, id, r), r, n);
  }

  lemma AllocatedLength(s: S.State, r: S.Request, n: nat)
    requires S.Safe(s)
    ensures P.Allocated(s.pool, r.slots, n).Ok? ==> |P.Allocated(s.pool, r.slots, n).value| == n
  {
    P.AllocateExact(s.pool, r.slots, n);
  }

  lemma PrefillProgress(s: S.State, id: nat, budget: nat)
    requires S.Safe(s) && id in s.live && PreparedFor(s.live[id]) && !s.live[id].forward && !s.live[id].decoding
    ensures var t := S.Prefill(s, id, budget);
            id in t.live && SameProgress(S.Matched(s, s.live[id]), t.live[id]) && PreparedFor(t.live[id])
  {
    var r := S.Matched(s, s.live[id]);
    S.MatchSafe(s, id);
    if !S.Replays(s, s.live[id]) {
      ExtendedProgress(s, id, r, S.ChunkLen(r, budget));
    }
  }

  lemma PrefillGood(c: Machine, c': Machine, id: nat, budget: nat)
    requires Good(c) && id in c.serving.live && !c.serving.live[id].decoding && !c.serving.live[id].forward
    requires c' == c.(serving := S.Prefill(c.serving, id, budget))
    ensures Good(c')
  {
    var matched := c.(serving := S.Put(c.serving, id, S.Matched(c.serving, c.serving.live[id])));
    assert Consistent(c, id);
    S.PrefillSafe(c.serving, id, budget);
    S.PrefillPositioned(c.serving, id, budget);
    MatchedTracked(c, matched, id);
    PrefillProgress(c.serving, id, budget);
    ListChanged(matched, c', id);
    PrefillOthers(c, c', id, budget);
    OnlyRequestGood(c, c', id);
  }

  lemma PrefillOthers(c: Machine, c': Machine, id: nat, budget: nat)
    requires c.serving.pool.pageSize > 0 && id in c.serving.live
    requires c' == c.(serving := S.Prefill(c.serving, id, budget))
    ensures OnlyRequest(c, c', id)
  {
  }

  lemma DecodeGood(c: Machine, c': Machine, id: nat)
    requires Good(c) && id in c.serving.live && c.serving.live[id].decoding && !c.serving.live[id].forward
    requires c' == c.(serving := S.Extended(c.serving, id, c.serving.live[id], 1))
    ensures Good(c')
  {
    assert Consistent(c, id);
    S.ExtendSafe(c.serving, id, c.serving.live[id], 1);
    S.ExtendPositioned(c.serving, id, c.serving.live[id], 1);
    DecodeProgress(c.serving, id);
    ListChanged(c, c', id);
    DecodeOthers(c, c', id);
    OnlyRequestGood(c, c', id);
  }

  lemma DecodeProgress(s: S.State, id: nat)
    requires S.Safe(s) && id in s.live && PreparedFor(s.live[id]) && s.live[id].decoding && !s.live[id].forward
    ensures var t := S.Extended(s, id, s.live[id], 1);
            id in t.live && SameProgress(s.live[id], t.live[id]) && PreparedFor(t.live[id])
  {
    assert S.Put(s, id, s.live[id]) == s;
    ExtendedProgress(s, id, s.live[id], 1);
  }

  lemma DecodeOthers(c: Machine, c': Machine, id: nat)
    requires c.serving.pool.pageSize > 0 && id in c.serving.live
    requires c' == c.(serving := S.Extended(c.serving, id, c.serving.live[id], 1))
    ensures OnlyRequest(c, c', id)
  {
  }

  lemma RestoreProgress(s: S.State, id: nat)
    requires S.Safe(s) && id in s.live
    ensures SameProgress(s.live[id], S.Restored(s, id).live[id]) && PreparedFor(S.Restored(s, id).live[id])
  {
    assert S.RequestSafe(s.live[id], s.pool.inUse, s.pool.pageSize);
  }

  lemma RestoreGood(c: Machine, c': Machine, id: nat)
    requires Good(c) && c' == c.(serving := S.Serve(c.serving, S.Restore(id)))
    ensures Good(c')
  {
    ServingKept(c, S.Restore(id));
    if id in c.serving.live && c.serving.live[id].forward {
      assert Consistent(c, id);
      RestoreProgress(c.serving, id);
      ListChanged(c, c', id);
      OnlyRequestGood(c, c', id);
    }
  }

  lemma EnqueueGood(c: Machine, c': Machine, id: nat, ids: seq<nat>)
    requires Good(c) && id !in c.serving.live
    requires c' == c.(serving := S.Put(c.serving, id, S.Arrived(ids)), outputs := c.outputs[id := []],
                      early := c.early - {id})
    ensures Good(c')
  {
    S.EnqueueSafe(c.serving, id, ids);
    S.SameCachePositioned(c.serving, c'.serving);
    OnlyRequestGood(c, c', id);
  }

  lemma FlushGood(c: Machine, c': Machine)
    requires Good(c) && S.QuietFlush(c.serving, S.Flush) && c' == c.(serving := S.Serve(c.serving, S.Flush))
    ensures Good(c')
  {
    ServingKept(c, S.Flush);
    S.EmptyCaches();
    forall b | b in c'.serving.live
      ensures Consistent(c', b)
    {
      SameRequest(c, c', b);
    }
  }

  /** Completions come with a forward pass here. */
  ghost predicate Scheduling(step: S.Event) {
    !step.Complete?
  }

  lemma ScheduleGood(m: D.Decoder, sh: D.Shape, c: Machine, step: S.Event)
    requires Good(c) && Scheduling(step) && S.QuietFlush(c.serving, step)
    ensures Good(Step(m, sh, c, Schedule(step)))
  {
    match step
    case Enqueue(_, _) => PrepareGood(m, sh, c, step);
    case PreparePrefill(_, _) => PrepareGood(m, sh, c, step);
    case PrepareDecode(_) => PrepareGood(m, sh, c, step);
    case Restore(id) => RestoreGood(c, Step(m, sh, c, Schedule(step)), id);
    case Fail(id) => RemoveGood(c, Step(m, sh, c, Schedule(step)), step, id);
    case Abort(id) => RemoveGood(c, Step(m, sh, c, Schedule(step)), step, id);
    case Lose(id) => RemoveGood(c, Step(m, sh, c, Schedule(step)), step, id);
    case Requeue(id) => RequeueGood(c, Step(m, sh, c, Schedule(step)), id);
    case Flush => FlushGood(c, Step(m, sh, c, Schedule(step)));
  }

  lemma PrepareGood(m: D.Decoder, sh: D.Shape, c: Machine, step: S.Event)
    requires Good(c) && (step.Enqueue? || step.PreparePrefill? || step.PrepareDecode?)
    ensures Good(Step(m, sh, c, Schedule(step)))
  {
    var c' := Step(m, sh, c, Schedule(step));
    match step
    case Enqueue(id, ids) => if id !in c.serving.live { EnqueueGood(c, c', id, ids); }
    case PreparePrefill(id, budget) =>
      if id in c.serving.live && !c.serving.live[id].forward && !c.serving.live[id].decoding {
        PrefillGood(c, c', id, budget);
      }
    case PrepareDecode(id) =>
      if id in c.serving.live && !c.serving.live[id].forward && c.serving.live[id].decoding {
        DecodeGood(c, c', id);
      }
  }

  predicate Removes(step: S.Event, id: nat) {
    step == S.Fail(id) || step == S.Abort(id) || step == S.Lose(id)
  }

  /** A failed, aborted or lost request leaves the others as they are. */
  lemma RemoveGood(c: Machine, c': Machine, step: S.Event, id: nat)
    requires Good(c) && Removes(step, id) && c' == c.(serving := S.Serve(c.serving, step))
    ensures Good(c')
  {
    ServingKept(c, step);
    RemoveOthers(c, c', step, id);
    if c' != c {
      OnlyRequestGood(c, c', id);
    }
  }

  lemma RemoveOthers(c: Machine, c': Machine, step: S.Event, id: nat)
    requires c.serving.pool.pageSize > 0 && Removes(step, id)
    requires c' == c.(serving := S.Serve(c.serving, step))
    ensures c' == c || (OnlyRequest(c, c', id) && id !in c'.serving.live)
  {
  }

  /** A request put back is on track, or astray, or was decoding already. */
  lemma RequeueGood(c: Machine, c': Machine, id: nat)
    requires Good(c)
    requires c' == c.(serving := S.Serve(c.serving, S.Requeue(id)), early := EarlyAfter(c, S.Requeue(id)))
    ensures Good(c')
  {
    ServingKept(c, S.Requeue(id));
    if id in c.serving.live && c.serving.live[id].forward {
      assert S.Serve(c.serving, S.Requeue(id)) == S.Parked(c.serving, id, true);
      RequeueConsistent(c, c', id);
      RequeueOnly(c, c', id);
      OnlyRequestGood(c, c', id);
    } else {
      assert c' == c;
    }
  }

  lemma RequeueOnly(c: Machine, c': Machine, id: nat)
    requires id in c.serving.live
    requires c' == c.(serving := S.Parked(c.serving, id, true), early := EarlyAfter(c, S.Requeue(id)))
    ensures OnlyRequest(c, c', id)
  {
  }

  lemma RequeueConsistent(c: Machine, c': Machine, id: nat)
    requires Good(c) && id in c.serving.live && c.serving.live[id].forward
    requires c' == c.(serving := S.Parked(c.serving, id, true), early := EarlyAfter(c, S.Requeue(id)))
    ensures Consistent(c', id)
  {
    var r := c.serving.live[id];
    assert Consistent(c, id);
    assert S.RequestSafe(r, c.serving.pool.inUse, c.serving.pool.pageSize);
    if Outputs(c, id) == [] {
      assert Tokens(c', id) == r.ids;
    }
  }

  // ---------- completing a forward pass ----------

  /** Publishing computed rows keeps the cache's promise. */
  lemma PublishRooted(c: Machine, id: nat)
    requires CacheRooted(c) && id in c.serving.live && !c.serving.live[id].decoding && Outputs(c, id) == []
    requires ChunkEnd(c.serving.live[id]) <= |c.serving.live[id].slots|
    requires Rooted(c.origin, Tokens(c, id), c.serving.live[id].slots, ChunkEnd(c.serving.live[id]))
    ensures CacheRooted(c.(serving := S.Published(c.serving, id)))
  {
    var r, c' := c.serving.live[id], c.(serving := S.Published(c.serving, id));
    var end := ChunkEnd(r);
    forall path, x: nat | S.CachedSlot(c'.serving.cache, path, x)
      ensures Roots(c.origin, x, path)
    {
      R.InsertPageAt(c.serving.cache, r.ids[..end], r.slots[..end], path);
      if path <= r.ids[..end] {
        var j := |path| - 1;
        assert path == Tokens(c, id)[..j + 1] && r.slots[j] == x;
        assert Roots(c.origin, r.slots[j], Tokens(c, id)[..j + 1]);
      }
    }
  }

  /** Where a request that lost no track stands after a pass that succeeded. */
  ghost predicate Advanced(c: Machine, id: nat) {
    && id in c.serving.live && id !in c.early && c.serving.live[id].forward
    && Start(c, id) < End(c, id) <= |Tokens(c, id)| && End(c, id) <= |c.serving.live[id].slots|
    && Rooted(c.origin, Tokens(c, id), c.serving.live[id].slots, End(c, id))
  }

  lemma TokenAppended(origin: Origin, tokens: seq<nat>, token: nat, slots: seq<nat>, n: nat)
    requires Rooted(origin, tokens, slots, n)
    ensures Rooted(origin, tokens + [token], slots, n)
  {
    forall j | 0 <= j < n
      ensures Roots(origin, slots[j], (tokens + [token])[..j + 1])
    {
      assert (tokens + [token])[..j + 1] == tokens[..j + 1];
      assert Roots(origin, slots[j], tokens[..j + 1]);
    }
  }

  /** The pass reaches the end of the tokens exactly when it is a decode step or the prompt's last chunk. */
  lemma EndsAtTokens(c: Machine, id: nat)
    requires id in c.serving.live && Tracked(c, id)
    ensures End(c, id) == |Tokens(c, id)| <==>
              c.serving.live[id].decoding || ChunkEnd(c.serving.live[id]) == |c.serving.live[id].ids|
  {
  }

  /** A decode step, or the last chunk of the prompt: the sampled token comes next. */
  lemma GenerationTracked(c: Machine, c': Machine, id: nat, outcome: S.Outcome, token: nat)
    requires c.serving.pool.pageSize > 0 && Advanced(c, id) && Tracked(c, id) && End(c, id) == |Tokens(c, id)|
    requires c.serving.live[id].published <= |c.serving.live[id].ids|
    requires c'.serving == S.Completed(c.serving, id, outcome) && c'.origin == c.origin && id in c'.serving.live
    requires Outputs(c', id) == Outputs(c, id) + [token]
    ensures Tracked(c', id)
  {
    assert Tokens(c', id) == Tokens(c, id) + [token];
    TokenAppended(c.origin, Tokens(c, id), token, c.serving.live[id].slots, End(c, id));
  }

  /** A chunk that is not the last: the prompt goes on behind it. */
  lemma ChunkTracked(c: Machine, c': Machine, id: nat, outcome: S.Outcome)
    requires c.serving.pool.pageSize > 0 && Advanced(c, id) && Tracked(c, id) && End(c, id) < |Tokens(c, id)|
    requires c'.serving == S.Completed(c.serving, id, outcome) && c'.origin == c.origin && id in c'.serving.live
    requires Outputs(c', id) == Outputs(c, id)
    ensures Tracked(c', id)
  {
    assert Outputs(c, id) == [] && Tokens(c, id) == c.serving.live[id].ids;
  }

  lemma FinishedConsistent(c: Machine, c': Machine, id: nat, outcome: S.Outcome, token: nat)
    requires Good(c) && Advanced(c, id) && c' == Finished(c, id, outcome, token) && id in c'.serving.live
    ensures Consistent(c', id)
  {
    assert Consistent(c, id);
    assert S.RequestSafe(c.serving.live[id], c.serving.pool.inUse, c.serving.pool.pageSize);
    EndsAtTokens(c, id);
    if End(c, id) == |Tokens(c, id)| {
      GenerationTracked(c, c', id, outcome, token);
    } else {
      ChunkTracked(c, c', id, outcome);
    }
  }

  lemma FinishedCache(c: Machine, c': Machine, id: nat, outcome: S.Outcome, token: nat)
    requires Good(c) && Advanced(c, id) && c' == Finished(c, id, outcome, token)
    ensures CacheRooted(c')
  {
    assert Consistent(c, id);
    if !c.serving.live[id].decoding {
      PublishRooted(c, id);
    }
  }

  lemma FinishedOthers(c: Machine, c': Machine, id: nat, outcome: S.Outcome, token: nat)
    requires Good(c) && id in c.serving.live && c.serving.live[id].forward && c' == Finished(c, id, outcome, token)
    ensures forall b :: b in c'.serving.live && b != id ==> Consistent(c', b)
  {
    forall b | b in c'.serving.live && b != id
      ensures Consistent(c', b)
    {
      SameRequest(c, c', b);
    }
  }

  lemma FinishedGood(c: Machine, c': Machine, id: nat, outcome: S.Outcome, token: nat)
    requires Good(c) && Advanced(c, id) && c' == Finished(c, id, outcome, token)
    ensures Good(c')
  {
    ServingKept(c, S.Complete(id, outcome));
    FinishedCache(c, c', id, outcome, token);
    if id in c'.serving.live {
      FinishedConsistent(c, c', id, outcome, token);
    }
    FinishedOthers(c, c', id, outcome, token);
  }

  // ---------- completing a pass of a request that went astray ----------

  /** Its pass decodes at the last of its positions, into the slot just prepared. */
  lemma AstrayPass(m: D.Decoder, sh: D.Shape, c: Machine, id: nat)
    requires Good(c) && id in c.serving.live && id in c.early && Call(m, sh, c, id).logits.Some?
    ensures var r, n := c.serving.live[id], |Tokens(c, id)|;
            && 0 < n == |r.slots| && Start(c, id) == S.Settled(r) == n - 1 && End(c, id) == n
            && Outs(r) == [r.slots[n - 1]] && |Fed(c, id)| == 1
  {
    assert Consistent(c, id);
    PassFeeds(m, sh, c, id);
    DecodeBatch(c, id);
  }

  /** A pass that succeeds has a valid batch with some input. */
  lemma PassFeeds(m: D.Decoder, sh: D.Shape, c: Machine, id: nat)
    requires id in c.serving.live && Call(m, sh, c, id).logits.Some?
    ensures BatchValid(c, id) && Fed(c, id) != []
  {
  }

  lemma DecodeBatch(c: Machine, id: nat)
    requires id in c.serving.live && c.serving.live[id].decoding && PreparedFor(c.serving.live[id])
    requires BatchValid(c, id) && Fed(c, id) != []
    ensures var r, n := c.serving.live[id], |Tokens(c, id)|;
            && 0 < n == |r.slots| && Start(c, id) == S.Settled(r) == n - 1 && End(c, id) == n
            && Outs(r) == [r.slots[n - 1]] && |Fed(c, id)| == 1
  {
  }

  /** The row it leaves ends in the token it was fed. */
  lemma AstrayLeaves(m: D.Decoder, sh: D.Shape, c: Machine, id: nat)
    requires Good(c) && id in c.serving.live && id in c.early && Call(m, sh, c, id).logits.Some?
    ensures !Roots(Call(m, sh, c, id).origin, c.serving.live[id].slots[|Tokens(c, id)| - 1], Tokens(c, id))
            || Fed(c, id) == [Tokens(c, id)[|Tokens(c, id)| - 1]]
  {
    AstrayPass(m, sh, c, id);
  }

  lemma RootedLast(origin: Origin, tokens: seq<nat>, slots: seq<nat>)
    requires tokens != [] && Rooted(origin, tokens, slots, |tokens|)
    ensures Rooted(origin, tokens, slots, |tokens| - 1) && Roots(origin, slots[|tokens| - 1], tokens)
  {
    assert Roots(origin, slots[|tokens| - 1], tokens[..|tokens| - 1 + 1]);
    assert tokens[..|tokens|] == tokens;
  }

  /** After the pass some row of the prompt is not its own, and stays so. */
  lemma AstrayAfter(m: D.Decoder, sh: D.Shape, c: Machine, id: nat)
    requires Good(c) && id in c.serving.live && id in c.early && Call(m, sh, c, id).logits.Some?
    ensures var r := c.serving.live[id];
            |r.ids| <= |r.slots| && !Rooted(Call(m, sh, c, id).origin, r.ids, r.slots, |r.ids|)
  {
    var r, origin := c.serving.live[id], Call(m, sh, c, id).origin;
    var n := |r.ids|;
    assert Consistent(c, id);
    AstrayPass(m, sh, c, id);
    CallFrom(m, sh, c, id);
    S.ListsAreDistinct(c.serving, id);
    if Outputs(c, id) == [] {
      assert Tokens(c, id) == r.ids;
      RootedSameBefore(c.origin, origin, r.ids, r.slots, n - 1, n - 1);
      AstrayLeaves(m, sh, c, id);
      if Rooted(origin, r.ids, r.slots, n) {
        RootedLast(origin, r.ids, r.slots);
      }
    } else {
      RootedSameBefore(c.origin, origin, r.ids, r.slots, Start(c, id), n);
    }
  }

  lemma AstrayGood(m: D.Decoder, sh: D.Shape, c: Machine, id: nat, outcome: S.Outcome, token: nat)
    requires Good(c) && id in c.serving.live && id in c.early && c.serving.live[id].forward
    requires Call(m, sh, c, id).logits.Some?
    ensures Good(Finished(After(m, sh, c, id), id, outcome, token))
  {
    var t := After(m, sh, c, id);
    var c' := Finished(t, id, outcome, token);
    assert Consistent(c, id);
    CallGood(m, sh, c, id);
    AstrayAfter(m, sh, c, id);
    ServingKept(t, S.Complete(id, outcome));
    AstrayFinished(t, c', id, outcome, token);
    OnlyRequestGood(t, c', id);
  }

  lemma AstrayFinished(c: Machine, c': Machine, id: nat, outcome: S.Outcome, token: nat)
    requires c.serving.pool.pageSize > 0 && id in c.serving.live && id in c.early
    requires c.serving.live[id].forward && c.serving.live[id].decoding
    requires var r := c.serving.live[id]; |r.ids| <= |r.slots| && !Rooted(c.origin, r.ids, r.slots, |r.ids|)
    requires c' == Finished(c, id, outcome, token)
    ensures OnlyRequest(c, c', id) && (id in c'.serving.live ==> Consistent(c', id))
  {
  }

  lemma ExecuteGood(m: D.Decoder, sh: D.Shape, c: Machine, id: nat, outcome: S.Outcome, token: nat)
    requires Good(c) && id in c.serving.live && c.serving.live[id].forward
    ensures Good(Step(m, sh, c, Execute(id, outcome, token)))
  {
    var t := After(m, sh, c, id);
    CallGood(m, sh, c, id);
    if Call(m, sh, c, id).logits.None? {
      RemoveGood(t, t.(serving := S.Serve(c.serving, S.Fail(id))), S.Fail(id), id);
    } else if id in c.early {
      AstrayGood(m, sh, c, id, outcome, token);
    } else {
      PassGood(m, sh, c, id, outcome, token);
    }
  }

  lemma PassGood(m: D.Decoder, sh: D.Shape, c: Machine, id: nat, outcome: S.Outcome, token: nat)
    requires Good(c) && id in c.serving.live && c.serving.live[id].forward && id !in c.early
    requires Call(m, sh, c, id).logits.Some? && Good(After(m, sh, c, id))
    ensures Good(Finished(After(m, sh, c, id), id, outcome, token))
  {
    var t := After(m, sh, c, id);
    CallRoots(m, sh, c, id);
    FinishedGood(t, Finished(t, id, outcome, token), id, outcome, token);
  }

  // ---------- whole runs ----------

  ghost predicate Allowed(c: Machine, e: Event) {
    e.Schedule? ==> Scheduling(e.step) && S.QuietFlush(c.serving, e.step)
  }

  lemma StepGood(m: D.Decoder, sh: D.Shape, c: Machine, e: Event)
    requires Good(c) && Allowed(c, e)
    ensures Good(Step(m, sh, c, e))
  {
    match e
    case Schedule(step) => ScheduleGood(m, sh, c, step);
    case Compute(id) => if id in c.serving.live { CallGood(m, sh, c, id); }
    case Execute(id, outcome, token) =>
      if id in c.serving.live && c.serving.live[id].forward { ExecuteGood(m, sh, c, id, outcome, token); }
  }

  lemma StepSound(m: D.Decoder, sh: D.Shape, c: Machine, e: Event)
    requires S.Positioned(c.serving) && c.serving.pool.pageSize > 0 && Sound(m, c.store, c.origin)
    ensures Sound(m, Step(m, sh, c, e).store, Step(m, sh, c, e).origin)
  {
    match e
    case Schedule(_) =>
    case Compute(id) => if id in c.serving.live { CallSound(m, sh, c, id); }
    case Execute(id, _, _) => if id in c.serving.live { CallSound(m, sh, c, id); }
  }

  ghost function Final(m: D.Decoder, sh: D.Shape, c: Machine, events: seq<Event>): (t: Machine)
    requires c.serving.pool.pageSize > 0
    ensures t.serving.pool.pageSize == c.serving.pool.pageSize && t.serving.pool.capacity == c.serving.pool.capacity
  {
    if events == [] then c else Step(m, sh, Final(m, sh, c, events[..|events| - 1]), events[|events| - 1])
  }

  ghost predicate Run(m: D.Decoder, sh: D.Shape, c: Machine, events: seq<Event>)
    requires c.serving.pool.pageSize > 0
  {
    events == []
    || (Run(m, sh, c, events[..|events| - 1])
        && Allowed(Final(m, sh, c, events[..|events| - 1]), events[|events| - 1]))
  }

  ghost function Start0(capacity: nat, pageSize: nat, store: Store): Machine
    requires pageSize > 0
  {
    Machine(S.Initial(capacity, pageSize), store, map[], map[], {})
  }

  lemma InitialGood(capacity: nat, pageSize: nat, store: Store)
    requires pageSize > 0 && capacity % pageSize == 0
    ensures Good(Start0(capacity, pageSize, store))
  {
    S.ServeAllSafe(capacity, pageSize, []);
    S.EmptyCaches();
  }

  lemma {:induction false} RunGood(m: D.Decoder, sh: D.Shape, c: Machine, events: seq<Event>)
    requires Good(c) && Sound(m, c.store, c.origin) && Run(m, sh, c, events)
    ensures Good(Final(m, sh, c, events))
    ensures Sound(m, Final(m, sh, c, events).store, Final(m, sh, c, events).origin)
  {
    if events != [] {
      var n := |events| - 1;
      RunGood(m, sh, c, events[..n]);
      StepGood(m, sh, Final(m, sh, c, events[..n]), events[n]);
      StepSound(m, sh, Final(m, sh, c, events[..n]), events[n]);
    }
  }

  /** Every slot the radix cache holds has, in every layer, the row of the path it is filed under. */
  ghost predicate CacheHolds(m: D.Decoder, c: Machine) {
    forall path, x: nat :: S.CachedSlot(c.serving.cache, path, x) ==> PathHeld(m, c.store, path, x)
  }

  /**
   * Decoding over shared prefixes equals recomputation. After any run, whatever prefixes requests took over from each
   * other, replays included, and whatever the store held at first: a forward pass that succeeds returns the logits of
   * the request's own tokens, unless the request was put back before its prompt was done and lost track of it; and
   * every slot in the radix cache holds, in every layer, the row of the path it is filed under.
   */
  lemma SharedDecodingIsRecomputation(m: D.Decoder, sh: D.Shape, capacity: nat, pageSize: nat, store: Store,
                                      events: seq<Event>, id: nat)
    requires pageSize > 0 && capacity % pageSize == 0 && Run(m, sh, Start0(capacity, pageSize, store), events)
    ensures var c := Final(m, sh, Start0(capacity, pageSize, store), events);
            && CacheHolds(m, c)
            && (id in c.serving.live && id !in c.early && Call(m, sh, c, id).logits.Some? ==>
                  && 0 < End(c, id) <= |Tokens(c, id)|
                  && D.Logits(m, Tokens(c, id)[..End(c, id)]) == Call(m, sh, c, id).logits)
  {
    var c := Final(m, sh, Start0(capacity, pageSize, store), events);
    InitialGood(capacity, pageSize, store);
    RunGood(m, sh, Start0(capacity, pageSize, store), events);
    if id in c.serving.live && id !in c.early && Call(m, sh, c, id).logits.Some? {
      CallComputes(m, sh, c, id);
    }
  }
}
