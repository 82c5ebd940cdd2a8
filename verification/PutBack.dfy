/**
 * Requests put back into the decode queue before their first output (`scheduler.rs`): over whole runs, exactly which of
 * them still compute the logits of their own tokens.
 */
module PutBack {
  import opened Basics
  import opened KvStorage
  import opened RowOrigin
  import opened DecoderProbe
  import opened SharedDecode
  import D = CachedDecode
  import P = PageAllocator
  import Q = PrefixReuse
  import S = Serving
  import R = RadixCache

  // ---------- slot lists fit the store ----------

  lemma {:induction false} DistinctBelow(s: seq<nat>, n: nat)
    requires NoDup(s) && forall j :: 0 <= j < |s| ==> s[j] < n
    ensures |s| <= n
    decreases n
  {
    if s != [] {
      assert s[0] < n;
      if i :| 0 <= i < |s| && s[i] == n - 1 {
        var rest := s[..i] + s[i + 1..];
        forall j | 0 <= j < |rest|
          ensures rest[j] < n - 1 && rest[j] == s[if j < i then j else j + 1]
        {
        }
        DistinctBelow(rest, n - 1);
      } else {
        DistinctBelow(s, n - 1);
      }
    }
  }

  lemma ListWithin(s: S.State, id: nat, end: nat)
    requires S.Safe(s) && S.Positioned(s) && id in s.live && end <= |s.live[id].slots|
    ensures Within(s.live[id].slots[..end], s.pool.capacity) && NoDup(s.live[id].slots[..end])
  {
    var slots, d := s.live[id].slots, s.pool.pageSize;
    assert S.RequestSafe(s.live[id], s.pool.inUse, d);
    S.ListsAreDistinct(s, id);
    forall j | 0 <= j < |slots|
      ensures slots[j] < s.pool.capacity
    {
      assert slots[j] / d in s.pool.inUse;
      P.SlotFits(slots[j], s.pool.capacity, d);
    }
    DistinctBelow(slots, s.pool.capacity);
  }

  // ---------- one schedule, many decoders ----------

  /** The machines differ at most in their stores. */
  ghost predicate SameRun(c: Machine, c': Machine) {
    c'.serving == c.serving && c'.outputs == c.outputs && c'.origin == c.origin && c'.early == c.early
  }

  /** The pass is accepted: a valid batch, with every output slot the one its position names. */
  ghost predicate Accepted(c: Machine, id: nat)
    requires id in c.serving.live
  {
    && BatchValid(c, id) && Fed(c, id) != []
    && AllMatch(Start(c, id), Outs(c.serving.live[id]), c.serving.live[id].slots[..End(c, id)])
  }

  /** The pass went as the schedule decides. */
  ghost predicate Scheduled(c: Machine, id: nat, pass: Pass)
    requires id in c.serving.live
  {
    && (pass.logits.Some? <==> Accepted(c, id))
    && pass.origin == if BatchValid(c, id)
                      then MatchedOrigin(c.origin, Fed(c, id), Start(c, id), Outs(c.serving.live[id]),
                                         c.serving.live[id].slots[..End(c, id)])
                      else c.origin
  }

  lemma ScheduledSame(c: Machine, c': Machine, id: nat, pass: Pass, pass': Pass)
    requires SameRun(c, c') && id in c.serving.live && Scheduled(c, id, pass) && Scheduled(c', id, pass')
    ensures (pass.logits.Some? <==> pass'.logits.Some?) && pass.origin == pass'.origin
  {
  }

  /** Under a decoder that accepts every input, the schedule decides which passes succeed and which rows they leave. */
  lemma CallTotal(m: D.Decoder, sh: D.Shape, c: Machine, id: nat)
    requires Good(c) && Total(m, sh, c.serving.pool.capacity) && Shaped(m, c.store, c.serving.pool.capacity)
    requires id in c.serving.live
    ensures Scheduled(c, id, Call(m, sh, c, id)) && Shaped(m, Call(m, sh, c, id).store, c.serving.pool.capacity)
  {
    if BatchValid(c, id) {
      var sequence := c.serving.live[id].slots[..End(c, id)];
      ListWithin(c.serving, id, End(c, id));
      TotalChunk(m, sh, c.store, c.origin, Fed(c, id), Start(c, id), Outs(c.serving.live[id]), sequence,
                 c.serving.pool.capacity);
    }
  }

  lemma CallSame(m: D.Decoder, sh: D.Shape, c: Machine, m': D.Decoder, sh': D.Shape, c': Machine, id: nat)
    requires Good(c) && Total(m, sh, c.serving.pool.capacity) && Shaped(m, c.store, c.serving.pool.capacity)
    requires Total(m', sh', c.serving.pool.capacity) && Shaped(m', c'.store, c.serving.pool.capacity)
    requires SameRun(c, c') && id in c.serving.live
    ensures Call(m, sh, c, id).logits.Some? <==> Call(m', sh', c', id).logits.Some?
    ensures SameRun(After(m, sh, c, id), After(m', sh', c', id))
    ensures Shaped(m, Call(m, sh, c, id).store, c.serving.pool.capacity)
    ensures Shaped(m', Call(m', sh', c', id).store, c.serving.pool.capacity)
  {
    SameGood(c, c');
    CallTotal(m, sh, c, id);
    CallTotal(m', sh', c', id);
    ScheduledSame(c, c', id, Call(m, sh, c, id), Call(m', sh', c', id));
  }

  lemma SameGood(c: Machine, c': Machine)
    requires Good(c) && SameRun(c, c')
    ensures Good(c')
  {
    forall id | id in c'.serving.live
      ensures Consistent(c', id)
    {
      SameRequest(c, c', id);
    }
  }

  /** The pass an event makes, if any. */
  predicate Passes(c: Machine, e: Event) {
    !e.Schedule? && e.id in c.serving.live && c.serving.live[e.id].forward
  }

  lemma StepStore(m: D.Decoder, sh: D.Shape, c: Machine, e: Event)
    requires c.serving.pool.pageSize > 0
    ensures Passes(c, e) ==> Step(m, sh, c, e).store == Call(m, sh, c, e.id).store
                             && Step(m, sh, c, e).origin == Call(m, sh, c, e.id).origin
    ensures !Passes(c, e) ==> Step(m, sh, c, e).store == c.store && Step(m, sh, c, e).origin == c.origin
  {
  }

  /** Agreeing on a pass, machines agree on the step. */
  lemma StepAgrees(m: D.Decoder, sh: D.Shape, c: Machine, m': D.Decoder, sh': D.Shape, c': Machine, e: Event)
    requires c.serving.pool.pageSize > 0 && SameRun(c, c')
    requires Passes(c, e) ==> (Call(m, sh, c, e.id).logits.Some? <==> Call(m', sh', c', e.id).logits.Some?)
                              && Call(m, sh, c, e.id).origin == Call(m', sh', c', e.id).origin
    ensures SameRun(Step(m, sh, c, e), Step(m', sh', c', e))
  {
  }

  lemma StepSame(m: D.Decoder, sh: D.Shape, c: Machine, m': D.Decoder, sh': D.Shape, c': Machine, e: Event)
    requires Good(c) && Total(m, sh, c.serving.pool.capacity) && Shaped(m, c.store, c.serving.pool.capacity)
    requires Total(m', sh', c.serving.pool.capacity) && Shaped(m', c'.store, c.serving.pool.capacity)
    requires SameRun(c, c')
    ensures SameRun(Step(m, sh, c, e), Step(m', sh', c', e))
    ensures Shaped(m, Step(m, sh, c, e).store, c.serving.pool.capacity)
    ensures Shaped(m', Step(m', sh', c', e).store, c.serving.pool.capacity)
  {
    if Passes(c, e) {
      CallSame(m, sh, c, m', sh', c', e.id);
    }
    StepStore(m, sh, c, e);
    StepStore(m', sh', c', e);
    StepAgrees(m, sh, c, m', sh', c', e);
  }

  /** A decoder and a store it runs on, from an empty server. */
  ghost predicate Setup(m: D.Decoder, sh: D.Shape, capacity: nat, pageSize: nat, store: Store) {
    pageSize > 0 && capacity % pageSize == 0 && Total(m, sh, capacity) && Shaped(m, store, capacity)
  }

  lemma RunIsGood(m: D.Decoder, sh: D.Shape, capacity: nat, pageSize: nat, store: Store, events: seq<Event>)
    requires pageSize > 0 && capacity % pageSize == 0 && Run(m, sh, Start0(capacity, pageSize, store), events)
    ensures Good(Final(m, sh, Start0(capacity, pageSize, store), events))
  {
    InitialGood(capacity, pageSize, store);
    RunGood(m, sh, Start0(capacity, pageSize, store), events);
  }

  lemma {:induction false} RunSame(m: D.Decoder, sh: D.Shape, store: Store, m': D.Decoder, sh': D.Shape, store': Store,
                                   capacity: nat, pageSize: nat, events: seq<Event>)
    requires Setup(m, sh, capacity, pageSize, store) && Setup(m', sh', capacity, pageSize, store')
    requires Run(m, sh, Start0(capacity, pageSize, store), events)
    ensures Run(m', sh', Start0(capacity, pageSize, store'), events)
    ensures var c := Final(m, sh, Start0(capacity, pageSize, store), events);
            var c' := Final(m', sh', Start0(capacity, pageSize, store'), events);
            SameRun(c, c') && Shaped(m, c.store, capacity) && Shaped(m', c'.store, capacity)
  {
    if events != [] {
      var n := |events| - 1;
      RunSame(m, sh, store, m', sh', store', capacity, pageSize, events[..n]);
      RunIsGood(m, sh, capacity, pageSize, store, events[..n]);
      StepSame(m, sh, Final(m, sh, Start0(capacity, pageSize, store), events[..n]),
               m', sh', Final(m', sh', Start0(capacity, pageSize, store'), events[..n]), events[n]);
    }
  }

  // ---------- the probes of a run ----------

  ghost function ProbeRun(a: Aim, capacity: nat, pageSize: nat, events: seq<Event>): (c: Machine)
    requires pageSize > 0
    ensures c.serving.pool.capacity == capacity && c.serving.pool.pageSize == pageSize
  {
    Final(Probe(a, capacity), WIDTHS, Start0(capacity, pageSize, Blank(|a.chain|, capacity)), events)
  }

  ghost function RunFamily(capacity: nat, pageSize: nat, events: seq<Event>): Family
    requires pageSize > 0
  {
    a => ProbeRun(a, capacity, pageSize, events).store
  }

  lemma ProbeSetup(a: Aim, capacity: nat, pageSize: nat)
    requires capacity <= USIZE_MAX && pageSize > 0 && capacity % pageSize == 0
    ensures Setup(Probe(a, capacity), WIDTHS, capacity, pageSize, Blank(|a.chain|, capacity))
  {
    ProbeTotal(a, capacity);
    BlankThin(a, capacity);
  }

  /** All probes see the run of the given decoder. */
  lemma ProbeSame(m: D.Decoder, sh: D.Shape, capacity: nat, pageSize: nat, store: Store, events: seq<Event>, a: Aim)
    requires capacity <= USIZE_MAX && Setup(m, sh, capacity, pageSize, store)
    requires Run(m, sh, Start0(capacity, pageSize, store), events)
    ensures Run(Probe(a, capacity), WIDTHS, Start0(capacity, pageSize, Blank(|a.chain|, capacity)), events)
    ensures SameRun(Final(m, sh, Start0(capacity, pageSize, store), events), ProbeRun(a, capacity, pageSize, events))
  {
    ProbeSetup(a, capacity, pageSize);
    RunSame(m, sh, store, Probe(a, capacity), WIDTHS, Blank(|a.chain|, capacity), capacity, pageSize, events);
  }

  /** The family of probes follows the record of the run. */
  lemma {:induction false} RunFollows(m: D.Decoder, sh: D.Shape, capacity: nat, pageSize: nat, store: Store,
                                      events: seq<Event>)
    requires capacity <= USIZE_MAX && Setup(m, sh, capacity, pageSize, store)
    requires Run(m, sh, Start0(capacity, pageSize, store), events)
    ensures Following(RunFamily(capacity, pageSize, events),
                      Final(m, sh, Start0(capacity, pageSize, store), events).origin, capacity)
  {
    if events == [] {
      BlankFollows(RunFamily(capacity, pageSize, events), capacity);
    } else {
      var n := |events| - 1;
      RunFollows(m, sh, capacity, pageSize, store, events[..n]);
      assert events == events[..n] + [events[n]];
      NextFollows(m, sh, capacity, pageSize, store, events[..n], events[n]);
    }
  }

  lemma NextFollows(m: D.Decoder, sh: D.Shape, capacity: nat, pageSize: nat, store: Store, before: seq<Event>, e: Event)
    requires capacity <= USIZE_MAX && Setup(m, sh, capacity, pageSize, store)
    requires Run(m, sh, Start0(capacity, pageSize, store), before)
    requires Following(RunFamily(capacity, pageSize, before),
                       Final(m, sh, Start0(capacity, pageSize, store), before).origin, capacity)
    ensures Following(RunFamily(capacity, pageSize, before + [e]),
                      Step(m, sh, Final(m, sh, Start0(capacity, pageSize, store), before), e).origin, capacity)
  {
    var c := Final(m, sh, Start0(capacity, pageSize, store), before);
    if Passes(c, e) && BatchValid(c, e.id) {
      PassFollows(m, sh, capacity, pageSize, store, before, e);
    } else {
      StepStore(m, sh, c, e);
      QuietStores(m, sh, capacity, pageSize, store, before, e);
      var f, g := RunFamily(capacity, pageSize, before), RunFamily(capacity, pageSize, before + [e]);
      SameFamily(f, g, c.origin, capacity);
    }
  }

  lemma EventAppended(events: seq<Event>, e: Event)
    ensures (events + [e])[..|events + [e]| - 1] == events && (events + [e])[|events + [e]| - 1] == e
  {
  }

  /** Without a pass over a valid batch, no store changes. */
  lemma QuietStores(m: D.Decoder, sh: D.Shape, capacity: nat, pageSize: nat, store: Store, before: seq<Event>, e: Event)
    requires capacity <= USIZE_MAX && Setup(m, sh, capacity, pageSize, store)
    requires Run(m, sh, Start0(capacity, pageSize, store), before)
    requires var c := Final(m, sh, Start0(capacity, pageSize, store), before);
             !(Passes(c, e) && BatchValid(c, e.id))
    ensures forall a :: RunFamily(capacity, pageSize, before + [e])(a) == RunFamily(capacity, pageSize, before)(a)
  {
    EventAppended(before, e);
    forall a
      ensures RunFamily(capacity, pageSize, before + [e])(a) == RunFamily(capacity, pageSize, before)(a)
    {
      ProbeSame(m, sh, capacity, pageSize, store, before, a);
      StepStore(Probe(a, capacity), WIDTHS, ProbeRun(a, capacity, pageSize, before), e);
    }
  }

  lemma PassFollows(m: D.Decoder, sh: D.Shape, capacity: nat, pageSize: nat, store: Store, before: seq<Event>, e: Event)
    requires capacity <= USIZE_MAX && Setup(m, sh, capacity, pageSize, store)
    requires Run(m, sh, Start0(capacity, pageSize, store), before)
    requires var c := Final(m, sh, Start0(capacity, pageSize, store), before);
             && Passes(c, e) && BatchValid(c, e.id)
             && Following(RunFamily(capacity, pageSize, before), c.origin, capacity)
    ensures Following(RunFamily(capacity, pageSize, before + [e]),
                      Step(m, sh, Final(m, sh, Start0(capacity, pageSize, store), before), e).origin, capacity)
  {
    var c, id := Final(m, sh, Start0(capacity, pageSize, store), before), e.id;
    var f, g := RunFamily(capacity, pageSize, before), RunFamily(capacity, pageSize, before + [e]);
    var start, outs, sequence := Start(c, id), Outs(c.serving.live[id]), c.serving.live[id].slots[..End(c, id)];
    RunIsGood(m, sh, capacity, pageSize, store, before);
    RunSame(m, sh, store, m, sh, store, capacity, pageSize, before);
    CallTotal(m, sh, c, id);
    StepStore(m, sh, c, e);
    ListWithin(c.serving, id, End(c, id));
    forall a
      ensures g(a) == ChunkFamily(f, capacity, Fed(c, id), start, outs, sequence)(a)
    {
      ProbeStep(m, sh, capacity, pageSize, store, before, e, a);
    }
    ChunkFollows(f, c.origin, capacity, Fed(c, id), start, outs, sequence, g);
  }

  lemma ProbeStep(m: D.Decoder, sh: D.Shape, capacity: nat, pageSize: nat, store: Store, before: seq<Event>, e: Event,
                  a: Aim)
    requires capacity <= USIZE_MAX && Setup(m, sh, capacity, pageSize, store)
    requires Run(m, sh, Start0(capacity, pageSize, store), before)
    requires var c := Final(m, sh, Start0(capacity, pageSize, store), before);
             Passes(c, e) && BatchValid(c, e.id)
    ensures var c := Final(m, sh, Start0(capacity, pageSize, store), before);
            var r := c.serving.live[e.id];
            ProbeRun(a, capacity, pageSize, before + [e]).store
            == Chunk(Probe(a, capacity), WIDTHS, ProbeRun(a, capacity, pageSize, before).store, Fed(c, e.id),
                     Start(c, e.id), Outs(r), r.slots[..End(c, e.id)]).1
  {
    EventAppended(before, e);
    ProbeSame(m, sh, capacity, pageSize, store, before, a);
    StepChunk(Probe(a, capacity), WIDTHS, Final(m, sh, Start0(capacity, pageSize, store), before),
              ProbeRun(a, capacity, pageSize, before), e);
  }

  lemma StepChunk(m: D.Decoder, sh: D.Shape, c: Machine, p: Machine, e: Event)
    requires c.serving.pool.pageSize > 0 && SameRun(c, p) && Passes(c, e) && BatchValid(c, e.id)
    ensures var r := c.serving.live[e.id];
            Step(m, sh, p, e).store
            == Chunk(m, sh, p.store, Fed(c, e.id), Start(c, e.id), Outs(r), r.slots[..End(c, e.id)]).1
  {
    StepStore(m, sh, p, e);
    SamePass(c, p, e.id);
  }

  lemma SamePass(c: Machine, p: Machine, id: nat)
    requires SameRun(c, p) && id in c.serving.live && BatchValid(c, id)
    ensures BatchValid(p, id) && Fed(p, id) == Fed(c, id) && Start(p, id) == Start(c, id) && End(p, id) == End(c, id)
  {
    assert Tokens(p, id) == Tokens(c, id);
  }

  // ---------- a request that went astray is seen by a probe ----------

  /** It is fed a token that is not its own, or one of the rows before is not. */
  lemma AstrayForeign(m: D.Decoder, sh: D.Shape, c: Machine, id: nat) returns (k: nat)
    requires Good(c) && id in c.serving.live && id in c.early && Call(m, sh, c, id).logits.Some?
    ensures var last := |Tokens(c, id)| - 1;
            && 0 <= last && End(c, id) == last + 1 && |c.serving.live[id].slots| == last + 1
            && (Fed(c, id) != [Tokens(c, id)[last]]
                || (k < last && !Roots(c.origin, c.serving.live[id].slots[k], Tokens(c, id)[..k + 1])))
  {
    var r, tokens := c.serving.live[id], Tokens(c, id);
    assert Consistent(c, id);
    AstrayPass(m, sh, c, id);
    k := 0;
    if Fed(c, id) == [tokens[|tokens| - 1]] {
      var n := if Outputs(c, id) == [] then |r.ids| - 1 else |r.ids|;
      assert tokens[..|r.ids|] == r.ids;
      assert Outputs(c, id) == [] ==> tokens == r.ids;
      assert !Rooted(c.origin, r.ids, r.slots, n);
      k :| 0 <= k < n && !Roots(c.origin, r.slots[k], r.ids[..k + 1]);
      assert tokens[..k + 1] == r.ids[..k + 1];
    }
  }

  /** The pass of a displaced request on a probe: one token. */
  lemma OneTokenPass(a: Aim, capacity: nat, c: Machine, id: nat)
    requires capacity <= USIZE_MAX && c.serving.pool.capacity == capacity && Good(c) && Thin(a, c.store, capacity)
    requires id in c.serving.live && id in c.early && Call(Probe(a, capacity), WIDTHS, c, id).logits.Some?
    ensures var last := |Tokens(c, id)| - 1;
            && 0 <= last && Start(c, id) <= End(c, id) && |Fed(c, id)| == 1
            && Call(Probe(a, capacity), WIDTHS, c, id).logits == Some([ReadWord(a, c, id, c.store)])
  {
    var m, r := Probe(a, capacity), c.serving.live[id];
    AstrayPass(m, WIDTHS, c, id);
    var n := |Tokens(c, id)|;
    ListWithin(c.serving, id, n);
    assert r.slots[..n] == r.slots;
    ProbeToken(a, capacity, c.store, Fed(c, id)[0], n - 1, Outs(r)[0], r.slots);
  }

  ghost predicate WrongUnder(a: Aim, capacity: nat, pageSize: nat, events: seq<Event>, id: nat)
    requires pageSize > 0
  {
    var m, c := Probe(a, capacity), ProbeRun(a, capacity, pageSize, events);
    && id in c.serving.live && Tokens(c, id) != [] && Call(m, WIDTHS, c, id).logits.Some?
    && Call(m, WIDTHS, c, id).logits != D.Logits(m, Tokens(c, id))
  }

  /** The probe's pass reads a mark where its own row of the tokens has the other one. */
  ghost predicate AimedAt(a: Aim, c: Machine, id: nat, store: Store)
    requires id in c.serving.live
  {
    var tokens := Tokens(c, id);
    && tokens != [] && Start(c, id) <= End(c, id) && |Fed(c, id)| == 1
    && if a.chain == [] then Fed(c, id)[0] != a.want == tokens[|tokens| - 1]
       else Handed(a, store, |a.chain| - 1, |tokens| - 1, c.serving.live[id].slots) == ZERO
            && OwnWord(a, tokens, |a.chain|, |tokens| - 1) == ONE
  }

  lemma FindAim(m: D.Decoder, sh: D.Shape, c: Machine, id: nat, f: Family) returns (a: Aim)
    requires Good(c) && id in c.serving.live && id in c.early && Call(m, sh, c, id).logits.Some?
    requires Following(f, c.origin, c.serving.pool.capacity)
    ensures AimedAt(a, c, id, f(a))
  {
    var tokens, slots := Tokens(c, id), c.serving.live[id].slots;
    var k := AstrayForeign(m, sh, c, id);
    AstrayPass(m, sh, c, id);
    if Fed(c, id) != [tokens[|tokens| - 1]] {
      a := Aim([], tokens[|tokens| - 1], 0);
    } else {
      ListWithin(c.serving, id, |slots|);
      assert slots[..|slots|] == slots;
      var b := Revealed(f, c.origin, c.serving.pool.capacity, slots[k], tokens[..k + 1]);
      a := Longer(b, k);
      ReadsForeign(f, b, k, slots, tokens);
    }
  }

  /** For every pass of a request that went astray there is a decoder, on the same schedule, whose logits are wrong. */
  lemma EarlyGoesWrong(m: D.Decoder, sh: D.Shape, capacity: nat, pageSize: nat, store: Store, events: seq<Event>,
                       id: nat) returns (a: Aim)
    requires capacity <= USIZE_MAX && Setup(m, sh, capacity, pageSize, store)
    requires Run(m, sh, Start0(capacity, pageSize, store), events)
    requires var c := Final(m, sh, Start0(capacity, pageSize, store), events);
             id in c.serving.live && id in c.early && Call(m, sh, c, id).logits.Some?
    ensures WrongUnder(a, capacity, pageSize, events, id)
  {
    a := AimOfRun(m, sh, capacity, pageSize, store, events, id);
    ProbePass(m, sh, capacity, pageSize, store, events, id, a);
    AimIsWrong(a, capacity, Final(m, sh, Start0(capacity, pageSize, store), events),
               ProbeRun(a, capacity, pageSize, events), id);
  }

  lemma AimOfRun(m: D.Decoder, sh: D.Shape, capacity: nat, pageSize: nat, store: Store, events: seq<Event>, id: nat)
    returns (a: Aim)
    requires capacity <= USIZE_MAX && Setup(m, sh, capacity, pageSize, store)
    requires Run(m, sh, Start0(capacity, pageSize, store), events)
    requires var c := Final(m, sh, Start0(capacity, pageSize, store), events);
             id in c.serving.live && id in c.early && Call(m, sh, c, id).logits.Some?
    ensures AimedAt(a, Final(m, sh, Start0(capacity, pageSize, store), events), id,
                    ProbeRun(a, capacity, pageSize, events).store)
  {
    var c := Final(m, sh, Start0(capacity, pageSize, store), events);
    RunIsGood(m, sh, capacity, pageSize, store, events);
    RunFollows(m, sh, capacity, pageSize, store, events);
    a := FindAim(m, sh, c, id, RunFamily(capacity, pageSize, events));
  }

  /** The word a one-token pass of a probe returns. */
  ghost function ReadWord(a: Aim, c: Machine, id: nat, store: Store): F32
    requires id in c.serving.live && Start(c, id) <= End(c, id) && |Fed(c, id)| == 1 && Tokens(c, id) != []
  {
    if a.chain == [] then Bit(Fed(c, id)[0] == a.want)
    else Handed(a, store, |a.chain| - 1, |Tokens(c, id)| - 1, c.serving.live[id].slots)
  }

  lemma AimIsWrong(a: Aim, capacity: nat, c: Machine, p: Machine, id: nat)
    requires id in c.serving.live && SameRun(c, p) && AimedAt(a, c, id, p.store)
    requires Call(Probe(a, capacity), WIDTHS, p, id).logits == Some([ReadWord(a, c, id, p.store)])
    ensures Call(Probe(a, capacity), WIDTHS, p, id).logits != D.Logits(Probe(a, capacity), Tokens(p, id))
  {
    OwnLogits(a, capacity, Tokens(c, id));
    assert [ReadWord(a, c, id, p.store)][0] == ZERO;
    assert Tokens(p, id) == Tokens(c, id);
  }

  lemma ReadsForeign(f: Family, b: Aim, k: nat, slots: seq<nat>, tokens: seq<nat>)
    requires Agreeing(f) && k < |tokens| - 1 && |slots| == |tokens| && Shows(f, b, slots[k], tokens[..k + 1])
    ensures var a, last := Longer(b, k), |tokens| - 1;
            && Handed(a, f(a), |a.chain| - 1, last, slots) == ZERO
            && OwnWord(a, tokens, |a.chain|, last) == ONE
  {
    var a, n := Longer(b, k), |b.chain|;
    assert a.chain[n] == k && a.chain[..n] == b.chain == Longer(b, 0).chain[..n];
    assert SameBelow(a, Longer(b, 0), n);
    assert Word(f(a), n, slots[k]) == Word(f(Longer(b, 0)), n, slots[k]);
    assert tokens[..k + 1][..k + 1] == tokens[..k + 1] && b.chain[..n] == b.chain;
    OwnWordSame(a, b, tokens, tokens[..k + 1], n, k);
  }

  /** On the same schedule the probe's pass succeeds as well, with the one word it reads. */
  lemma ProbePass(m: D.Decoder, sh: D.Shape, capacity: nat, pageSize: nat, store: Store, events: seq<Event>, id: nat,
                  a: Aim)
    requires capacity <= USIZE_MAX && Setup(m, sh, capacity, pageSize, store)
    requires Run(m, sh, Start0(capacity, pageSize, store), events)
    requires var c := Final(m, sh, Start0(capacity, pageSize, store), events);
             id in c.serving.live && id in c.early && Call(m, sh, c, id).logits.Some?
    ensures var c := Final(m, sh, Start0(capacity, pageSize, store), events);
            var p := ProbeRun(a, capacity, pageSize, events);
            && SameRun(c, p) && Start(c, id) <= End(c, id) && |Fed(c, id)| == 1 && Tokens(c, id) != []
            && Call(Probe(a, capacity), WIDTHS, p, id).logits == Some([ReadWord(a, c, id, p.store)])
  {
    var c, p := Final(m, sh, Start0(capacity, pageSize, store), events), ProbeRun(a, capacity, pageSize, events);
    ProbeSucceeds(m, sh, capacity, pageSize, store, events, id, a);
    ProbeThin(m, sh, capacity, pageSize, store, events, a);
    OneTokenPass(a, capacity, p, id);
    ReadWordSame(a, c, p, id);
  }

  lemma ReadWordSame(a: Aim, c: Machine, p: Machine, id: nat)
    requires SameRun(c, p) && id in p.serving.live && Start(p, id) <= End(p, id) && |Fed(p, id)| == 1
    requires Tokens(p, id) != []
    ensures Start(c, id) <= End(c, id) && Fed(c, id) == Fed(p, id) && Tokens(c, id) == Tokens(p, id)
    ensures ReadWord(a, c, id, p.store) == ReadWord(a, p, id, p.store)
  {
  }

  lemma ProbeThin(m: D.Decoder, sh: D.Shape, capacity: nat, pageSize: nat, store: Store, events: seq<Event>, a: Aim)
    requires capacity <= USIZE_MAX && Setup(m, sh, capacity, pageSize, store)
    requires Run(m, sh, Start0(capacity, pageSize, store), events)
    ensures Thin(a, ProbeRun(a, capacity, pageSize, events).store, capacity)
  {
    RunFollows(m, sh, capacity, pageSize, store, events);
    assert RunFamily(capacity, pageSize, events)(a) == ProbeRun(a, capacity, pageSize, events).store;
  }

  lemma ProbeSucceeds(m: D.Decoder, sh: D.Shape, capacity: nat, pageSize: nat, store: Store, events: seq<Event>,
                      id: nat, a: Aim)
    requires capacity <= USIZE_MAX && Setup(m, sh, capacity, pageSize, store)
    requires Run(m, sh, Start0(capacity, pageSize, store), events)
    requires var c := Final(m, sh, Start0(capacity, pageSize, store), events);
             id in c.serving.live && Call(m, sh, c, id).logits.Some?
    ensures var c := Final(m, sh, Start0(capacity, pageSize, store), events);
            var p := ProbeRun(a, capacity, pageSize, events);
            && SameRun(c, p) && Good(p)
            && Call(Probe(a, capacity), WIDTHS, p, id).logits.Some?
  {
    var c, p := Final(m, sh, Start0(capacity, pageSize, store), events), ProbeRun(a, capacity, pageSize, events);
    RunIsGood(m, sh, capacity, pageSize, store, events);
    ProbeSetup(a, capacity, pageSize);
    RunSame(m, sh, store, Probe(a, capacity), WIDTHS, Blank(|a.chain|, capacity), capacity, pageSize, events);
    CallSame(m, sh, c, Probe(a, capacity), WIDTHS, p, id);
    SameGood(c, p);
  }

  // ---------- exactly which requests compute their own logits ----------

  ghost predicate ReturnsOwn(m: D.Decoder, sh: D.Shape, capacity: nat, pageSize: nat, store: Store,
                             events: seq<Event>, id: nat)
    requires pageSize > 0
  {
    var c := Final(m, sh, Start0(capacity, pageSize, store), events);
    && id in c.serving.live && 0 < End(c, id) <= |Tokens(c, id)|
    && Call(m, sh, c, id).logits == D.Logits(m, Tokens(c, id)[..End(c, id)])
    && Call(m, sh, c, id).logits.Some?
  }

  /**
   * After any run: a pass that succeeds returns the logits of the request's own tokens, for all decoders that accept
   * every input and all initial stores, exactly when the request is not one of those put back early.
   */
  lemma OwnForAllIff(m: D.Decoder, sh: D.Shape, capacity: nat, pageSize: nat, store: Store, events: seq<Event>, id: nat)
    requires capacity <= USIZE_MAX && Setup(m, sh, capacity, pageSize, store)
    requires Run(m, sh, Start0(capacity, pageSize, store), events)
    requires var c := Final(m, sh, Start0(capacity, pageSize, store), events);
             id in c.serving.live && Call(m, sh, c, id).logits.Some?
    ensures (forall m', sh', store' :: Setup(m', sh', capacity, pageSize, store') ==>
               ReturnsOwn(m', sh', capacity, pageSize, store', events, id))
       <==> id !in Final(m, sh, Start0(capacity, pageSize, store), events).early
  {
    var c := Final(m, sh, Start0(capacity, pageSize, store), events);
    if id in c.early {
      var a := EarlyGoesWrong(m, sh, capacity, pageSize, store, events, id);
      ProbeSetup(a, capacity, pageSize);
      WrongIsNotOwn(m, sh, capacity, pageSize, store, events, id, a);
    } else {
      forall m', sh', store' | Setup(m', sh', capacity, pageSize, store')
        ensures ReturnsOwn(m', sh', capacity, pageSize, store', events, id)
      {
        OwnUnder(m, sh, capacity, pageSize, store, events, id, m', sh', store');
      }
    }
  }

  lemma WrongIsNotOwn(m: D.Decoder, sh: D.Shape, capacity: nat, pageSize: nat, store: Store, events: seq<Event>,
                      id: nat, a: Aim)
    requires capacity <= USIZE_MAX && Setup(m, sh, capacity, pageSize, store)
    requires Run(m, sh, Start0(capacity, pageSize, store), events)
    requires var c := Final(m, sh, Start0(capacity, pageSize, store), events);
             id in c.serving.live && id in c.early && Call(m, sh, c, id).logits.Some?
    requires WrongUnder(a, capacity, pageSize, events, id)
    ensures !ReturnsOwn(Probe(a, capacity), WIDTHS, capacity, pageSize, Blank(|a.chain|, capacity), events, id)
  {
    var c, p := Final(m, sh, Start0(capacity, pageSize, store), events), ProbeRun(a, capacity, pageSize, events);
    RunIsGood(m, sh, capacity, pageSize, store, events);
    ProbeSame(m, sh, capacity, pageSize, store, events, a);
    SameGood(c, p);
    AstrayPass(Probe(a, capacity), WIDTHS, p, id);
    assert Tokens(p, id)[..End(p, id)] == Tokens(p, id);
  }

  lemma OwnUnder(m: D.Decoder, sh: D.Shape, capacity: nat, pageSize: nat, store: Store, events: seq<Event>, id: nat,
                 m': D.Decoder, sh': D.Shape, store': Store)
    requires Setup(m, sh, capacity, pageSize, store) && Setup(m', sh', capacity, pageSize, store')
    requires Run(m, sh, Start0(capacity, pageSize, store), events)
    requires var c := Final(m, sh, Start0(capacity, pageSize, store), events);
             id in c.serving.live && id !in c.early && Call(m, sh, c, id).logits.Some?
    ensures ReturnsOwn(m', sh', capacity, pageSize, store', events, id)
  {
    var c := Final(m, sh, Start0(capacity, pageSize, store), events);
    var c' := Final(m', sh', Start0(capacity, pageSize, store'), events);
    RunIsGood(m, sh, capacity, pageSize, store, events);
    RunSame(m, sh, store, m', sh', store', capacity, pageSize, events);
    CallSame(m, sh, c, m', sh', c', id);
    SharedDecodingIsRecomputation(m', sh', capacity, pageSize, store', events, id);
  }

  // ---------- when a request is put back early ----------

  /** A prefill pass that succeeds computes all slots of the list. */
  lemma PassEndsList(m: D.Decoder, sh: D.Shape, c: Machine, id: nat)
    requires Good(c) && id in c.serving.live && id !in c.early && !c.serving.live[id].decoding
    requires Call(m, sh, c, id).logits.Some?
    ensures End(c, id) == |c.serving.live[id].slots|
  {
    var r, start := c.serving.live[id], Start(c, id);
    assert Consistent(c, id);
    CallRoots(m, sh, c, id);
    S.ListsAreDistinct(c.serving, id);
    assert SlotMatches(start, Outs(r)[0], r.slots[..End(c, id)]);
    if r.recent == 0 && r.chunk == 1 {
      assert r.slots[start] == r.slots[|r.slots| - 1];
    } else {
      assert r.slots[start] == r.slots[S.Settled(r)];
    }
  }

  /**
   * Put back after its pass succeeded: a request that was on its way stays so exactly when the pass ended one token
   * before the end of the prompt, and that token is 0.
   */
  lemma PutBackAfterPass(m: D.Decoder, sh: D.Shape, c: Machine, id: nat)
    requires Good(c) && id in c.serving.live && id !in c.early && c.serving.live[id].forward
    requires !c.serving.live[id].decoding && Call(m, sh, c, id).logits.Some?
    ensures var t := Step(m, sh, After(m, sh, c, id), Schedule(S.Requeue(id)));
            var ids := c.serving.live[id].ids;
            id in t.serving.live
            && (id !in t.early <==> End(c, id) + 1 == |ids| && ids[|ids| - 1] == 0)
  {
    PassLeaves(m, sh, c, id);
    PutBackFrom(m, sh, After(m, sh, c, id), id, End(c, id));
  }

  lemma PassLeaves(m: D.Decoder, sh: D.Shape, c: Machine, id: nat)
    requires Good(c) && id in c.serving.live && id !in c.early
    requires !c.serving.live[id].decoding && Call(m, sh, c, id).logits.Some?
    ensures var r := c.serving.live[id];
            && Outputs(c, id) == [] && End(c, id) == |r.slots|
            && Rooted(Call(m, sh, c, id).origin, r.ids, r.slots, End(c, id))
  {
    assert Consistent(c, id);
    CallRoots(m, sh, c, id);
    PassEndsList(m, sh, c, id);
    assert Tokens(c, id) == c.serving.live[id].ids;
  }

  lemma PutBackFrom(m: D.Decoder, sh: D.Shape, c: Machine, id: nat, end: nat)
    requires c.serving.pool.pageSize > 0 && id in c.serving.live && c.serving.live[id].forward && Outputs(c, id) == []
    requires var r := c.serving.live[id]; Rooted(c.origin, r.ids, r.slots, end) && end == |r.slots|
    ensures var t, ids := Step(m, sh, c, Schedule(S.Requeue(id))), c.serving.live[id].ids;
            id in t.serving.live && (id !in t.early <==> end + 1 == |ids| && ids[|ids| - 1] == 0)
  {
    OnTrackAfterPass(c.origin, c.serving.live[id], end);
    RequeueEarly(m, sh, c, id);
  }

  /** What putting back does to a request without output. */
  lemma RequeueEarly(m: D.Decoder, sh: D.Shape, c: Machine, id: nat)
    requires c.serving.pool.pageSize > 0 && id in c.serving.live && c.serving.live[id].forward && Outputs(c, id) == []
    ensures var r, t := c.serving.live[id], Step(m, sh, c, Schedule(S.Requeue(id)));
            && t.serving == S.Parked(c.serving, id, true) && t.outputs == c.outputs && t.origin == c.origin
            && (id in t.early <==> !OnTrack(c.origin, r, |r.slots|))
  {
  }

  lemma OnTrackAfterPass(origin: Origin, r: S.Request, end: nat)
    requires Rooted(origin, r.ids, r.slots, end) && end == |r.slots|
    ensures OnTrack(origin, r, |r.slots|) <==> end + 1 == |r.ids| && r.ids[|r.ids| - 1] == 0
  {
  }

  /** Once it has output, an early request stays one for as long as it lives. */
  lemma EarlyPersists(m: D.Decoder, sh: D.Shape, c: Machine, e: Event, id: nat)
    requires c.serving.pool.pageSize > 0 && id in c.serving.live && id in c.early && Outputs(c, id) != []
    ensures var t := Step(m, sh, c, e); id in t.serving.live ==> id in t.early && Outputs(t, id) != []
  {
  }

  // ---------- a prompt put back on an empty server ----------

  /** The prompt's first pass, over all but its last token, is run or not, and the request is put back. */
  function PutBackEvents(ids: seq<nat>, computed: bool): seq<Event>
    requires ids != []
  {
    [Schedule(S.Enqueue(0, ids))] + [Schedule(S.PreparePrefill(0, |ids| - 1))]
    + (if computed then [Compute(0)] else []) + [Schedule(S.Requeue(0))] + [Schedule(S.PrepareDecode(0))]
  }

  lemma FinalNext(m: D.Decoder, sh: D.Shape, c: Machine, events: seq<Event>, e: Event)
    requires c.serving.pool.pageSize > 0
    ensures Final(m, sh, c, events + [e]) == Step(m, sh, Final(m, sh, c, events), e)
    ensures Run(m, sh, c, events + [e]) <==> Run(m, sh, c, events) && Allowed(Final(m, sh, c, events), e)
  {
    EventAppended(events, e);
  }

  /** The prompt alone on an empty server. */
  ghost predicate Alone(s: S.State, ids: seq<nat>) {
    && s.pool.Valid() && s.pool.inUse == {} && |s.pool.free| * s.pool.pageSize >= |ids|
    && s.cache == R.EMPTY && s.live == map[0 := S.Arrived(ids)]
  }

  lemma FreshRoom(capacity: nat, pageSize: nat)
    requires pageSize > 0 && capacity % pageSize == 0
    ensures var p := P.FreshPool(capacity, pageSize);
            p.Valid() && p.inUse == {} && |p.free| * pageSize == capacity
  {
    P.FreshPoolValid(capacity, pageSize);
    DivModSplit(capacity, pageSize);
  }

  lemma AlonePrepared(s: S.State, ids: seq<nat>, n: nat)
    requires Alone(s, ids) && 0 < n <= |ids|
    ensures var t := S.Serve(s, S.PreparePrefill(0, n));
            && P.Allocated(s.pool, [], n).Ok? && |P.Allocated(s.pool, [], n).value| == n
            && t.pool == P.AfterAllocate(s.pool, [], n) && t.cache == s.cache && t.live.Keys == {0}
            && t.live[0] == S.Arrived(ids).(slots := P.Allocated(s.pool, [], n).value, recent := n, chunk := n,
                                            forward := true)
  {
    var r := S.Arrived(ids);
    assert R.Walk(R.EMPTY, ids) == [];
    assert S.MatchFor(s, r) == R.PrefixMatch(0, [], ids);
    assert S.Matched(s, r) == r && S.ChunkLen(r, n) == n;
    P.AllocateExact(s.pool, [], n);
    assert [] + P.Allocated(s.pool, [], n).value == P.Allocated(s.pool, [], n).value;
  }

  /** There is room for one more slot. */
  lemma RoomForOne(p: P.Pool, n: nat, got: seq<nat>, q: P.Pool)
    requires p.Valid() && n < |p.free| * p.pageSize && P.Allocated(p, [], n) == Ok(got) && |got| == n > 0
    requires q == P.AfterAllocate(p, [], n) && Q.Aligned(got, p.pageSize) && Q.InPages(got, q.inUse, p.pageSize)
    ensures P.Allocated(q, got, 1).Ok? && |P.Allocated(q, got, 1).value| == 1
  {
    var d := p.pageSize;
    P.AfterAllocateValid(p, [], n);
    P.AllocateExact(q, got, 1);
    assert got[n - 1] / d in q.inUse;
    Q.TailOfAligned(q, got);
    if n % d == 0 {
      P.CeilDivCovers(n, d);
      WholePages(n, d, |p.free|);
      MulLe(1, |q.free|, d);
    }
  }

  lemma WholePages(n: nat, d: nat, free: nat)
    requires d > 0 && n % d == 0 && n < free * d
    ensures CeilDiv(n, d) < free
  {
    DivModSplit(n, d);
    DivModUnique(n + d - 1, d, n / d, d - 1);
    P.BlockInRange(n, free, d);
  }

  ghost predicate PreparedAlone(c: Machine, ids: seq<nat>) {
    && Good(c) && 0 in c.serving.live && 0 !in c.early && Outputs(c, 0) == [] && |ids| >= 2
    && WaitsForPass(c.serving, ids)
  }

  /** All but the last token of the prompt are prepared, and there is room for one more slot. */
  ghost predicate WaitsForPass(s: S.State, ids: seq<nat>)
    requires s.pool.pageSize > 0 && 0 in s.live && ids != []
  {
    var r, n := s.live[0], |ids| - 1;
    && r.ids == ids && |r.slots| == n && r.recent == r.chunk == n && r.processed == 0 && r.forward && !r.decoding
    && P.Allocated(s.pool, r.slots, 1).Ok?
  }

  lemma GetsPrepared(m: D.Decoder, sh: D.Shape, c: Machine, ids: seq<nat>)
    requires Good(c) && c.serving.live == map[] && c.serving.cache == R.EMPTY && |ids| >= 2
    requires c.serving.pool.inUse == {} && |c.serving.pool.free| * c.serving.pool.pageSize >= |ids|
    ensures var arrived := Step(m, sh, c, Schedule(S.Enqueue(0, ids)));
            var t := Step(m, sh, arrived, Schedule(S.PreparePrefill(0, |ids| - 1)));
            PreparedAlone(t, ids) && t.origin == c.origin
  {
    var arrived := Step(m, sh, c, Schedule(S.Enqueue(0, ids)));
    ScheduleGood(m, sh, c, S.Enqueue(0, ids));
    ArrivedAlone(m, sh, c, ids);
    ArrivedPrepared(m, sh, arrived, ids);
  }

  lemma ArrivedAlone(m: D.Decoder, sh: D.Shape, c: Machine, ids: seq<nat>)
    requires Good(c) && c.serving.live == map[] && c.serving.cache == R.EMPTY && |ids| >= 2
    requires c.serving.pool.inUse == {} && |c.serving.pool.free| * c.serving.pool.pageSize >= |ids|
    ensures var t := Step(m, sh, c, Schedule(S.Enqueue(0, ids)));
            Alone(t.serving, ids) && 0 !in t.early && Outputs(t, 0) == [] && t.origin == c.origin
  {
  }

  lemma ArrivedPrepared(m: D.Decoder, sh: D.Shape, c: Machine, ids: seq<nat>)
    requires Good(c) && Alone(c.serving, ids) && 0 !in c.early && Outputs(c, 0) == [] && |ids| >= 2
    ensures var t := Step(m, sh, c, Schedule(S.PreparePrefill(0, |ids| - 1)));
            PreparedAlone(t, ids) && t.origin == c.origin
  {
    ScheduleGood(m, sh, c, S.PreparePrefill(0, |ids| - 1));
    PrefillStep(m, sh, c, |ids| - 1);
    AloneRoom(c.serving, ids);
  }

  lemma PrefillStep(m: D.Decoder, sh: D.Shape, c: Machine, n: nat)
    requires c.serving.pool.pageSize > 0
    ensures Step(m, sh, c, Schedule(S.PreparePrefill(0, n)))
         == c.(serving := S.Serve(c.serving, S.PreparePrefill(0, n)))
  {
  }

  lemma AloneRoom(s: S.State, ids: seq<nat>)
    requires Alone(s, ids) && |ids| >= 2 && S.Safe(S.Serve(s, S.PreparePrefill(0, |ids| - 1)))
    ensures var t := S.Serve(s, S.PreparePrefill(0, |ids| - 1));
            0 in t.live && WaitsForPass(t, ids)
  {
    var t := S.Serve(s, S.PreparePrefill(0, |ids| - 1));
    AlonePrepared(s, ids, |ids| - 1);
    assert S.RequestSafe(t.live[0], t.pool.inUse, t.pool.pageSize);
    RoomForOne(s.pool, |ids| - 1, t.live[0].slots, t.pool);
  }

  /** Put back and prepared again, the pass is accepted; the request is early unless it was on track. */
  lemma PutBackAccepted(m: D.Decoder, sh: D.Shape, c: Machine, ids: seq<nat>)
    requires PreparedAlone(c, ids)
    ensures var back := Step(m, sh, c, Schedule(S.Requeue(0)));
            var t := Step(m, sh, back, Schedule(S.PrepareDecode(0)));
            && 0 in t.serving.live && Accepted(t, 0)
            && (0 in t.early <==> !OnTrack(c.origin, c.serving.live[0], |ids| - 1))
  {
    var back := Step(m, sh, c, Schedule(S.Requeue(0)));
    RequeueEarly(m, sh, c, 0);
    DecodePrepared(m, sh, back, 0);
    AllocatedLength(c.serving, c.serving.live[0], 1);
    DecodeAccepted(Step(m, sh, back, Schedule(S.PrepareDecode(0))), ids);
  }

  lemma DecodePrepared(m: D.Decoder, sh: D.Shape, c: Machine, id: nat)
    requires c.serving.pool.pageSize > 0 && id in c.serving.live
    requires c.serving.live[id].decoding && !c.serving.live[id].forward
    requires P.Allocated(c.serving.pool, c.serving.live[id].slots, 1).Ok?
    ensures var r, t := c.serving.live[id], Step(m, sh, c, Schedule(S.PrepareDecode(id)));
            && id in t.serving.live && t.outputs == c.outputs && t.early == c.early
            && t.serving.live[id] == r.(slots := r.slots + P.Allocated(c.serving.pool, r.slots, 1).value, recent := 1,
                                        chunk := 1, forward := true)
  {
  }

  lemma DecodeAccepted(t: Machine, ids: seq<nat>)
    requires 0 in t.serving.live && Outputs(t, 0) == [] && ids != []
    requires var r := t.serving.live[0];
             r.ids == ids && r.decoding && r.recent == r.chunk == 1 && |r.slots| == |ids|
    ensures Accepted(t, 0)
  {
    var r := t.serving.live[0];
    assert Tokens(t, 0) == ids;
    assert r.slots[..|ids|] == r.slots && Outs(r) == [r.slots[|ids| - 1]];
  }

  /** The machine after those events. */
  ghost function PutBackRun(m: D.Decoder, sh: D.Shape, c: Machine, ids: seq<nat>, computed: bool): Machine
    requires c.serving.pool.pageSize > 0 && ids != []
  {
    var arrived := Step(m, sh, c, Schedule(S.Enqueue(0, ids)));
    var prepared := Step(m, sh, arrived, Schedule(S.PreparePrefill(0, |ids| - 1)));
    var t := if computed then Step(m, sh, prepared, Compute(0)) else prepared;
    Step(m, sh, Step(m, sh, t, Schedule(S.Requeue(0))), Schedule(S.PrepareDecode(0)))
  }

  lemma PutBackUnfolds(m: D.Decoder, sh: D.Shape, c: Machine, ids: seq<nat>, computed: bool)
    requires c.serving.pool.pageSize > 0 && ids != []
    ensures Final(m, sh, c, PutBackEvents(ids, computed)) == PutBackRun(m, sh, c, ids, computed)
    ensures Run(m, sh, c, PutBackEvents(ids, computed))
  {
    var e2 := [Schedule(S.Enqueue(0, ids))] + [Schedule(S.PreparePrefill(0, |ids| - 1))];
    var e3 := if computed then e2 + [Compute(0)] else e2;
    TwoSteps(m, sh, c, [], Schedule(S.Enqueue(0, ids)), Schedule(S.PreparePrefill(0, |ids| - 1)));
    assert [] + [Schedule(S.Enqueue(0, ids))] == [Schedule(S.Enqueue(0, ids))];
    FinalNext(m, sh, c, e2, Compute(0));
    TwoSteps(m, sh, c, e3, Schedule(S.Requeue(0)), Schedule(S.PrepareDecode(0)));
    assert e3 + [Schedule(S.Requeue(0))] + [Schedule(S.PrepareDecode(0))] == PutBackEvents(ids, computed);
  }

  /** Two scheduling steps that complete nothing and flush nothing are always allowed. */
  lemma TwoSteps(m: D.Decoder, sh: D.Shape, c: Machine, events: seq<Event>, d: Event, e: Event)
    requires c.serving.pool.pageSize > 0 && d.Schedule? && e.Schedule?
    requires !d.step.Complete? && !d.step.Flush? && !e.step.Complete? && !e.step.Flush?
    ensures Final(m, sh, c, events + [d] + [e]) == Step(m, sh, Step(m, sh, Final(m, sh, c, events), d), e)
    ensures Run(m, sh, c, events) ==> Run(m, sh, c, events + [d] + [e])
  {
    FinalNext(m, sh, c, events, d);
    FinalNext(m, sh, c, events + [d], e);
  }

  lemma PutBackStates(m: D.Decoder, sh: D.Shape, c: Machine, ids: seq<nat>, computed: bool)
    requires Good(c) && c.serving.live == map[] && c.serving.cache == R.EMPTY && c.origin == map[] && |ids| >= 2
    requires c.serving.pool.inUse == {} && |c.serving.pool.free| * c.serving.pool.pageSize >= |ids|
    requires Total(m, sh, c.serving.pool.capacity) && Shaped(m, c.store, c.serving.pool.capacity)
    ensures var t := PutBackRun(m, sh, c, ids, computed);
            && 0 in t.serving.live && Accepted(t, 0)
            && (0 !in t.early <==> computed && ids[|ids| - 1] == 0)
  {
    var arrived := Step(m, sh, c, Schedule(S.Enqueue(0, ids)));
    var prepared := Step(m, sh, arrived, Schedule(S.PreparePrefill(0, |ids| - 1)));
    var t := if computed then Step(m, sh, prepared, Compute(0)) else prepared;
    GetsPrepared(m, sh, c, ids);
    ComputedOrNot(m, sh, prepared, t, ids, computed);
    PutBackAccepted(m, sh, t, ids);
  }

  /**
   * Every prompt of two or more tokens, put back on an empty server after all but its last token were prepared: the
   * pass is accepted, and it is one that computes the prompt's own logits exactly when the rows were computed before
   * and the last token is 0.
   */
  lemma PutBackIff(m: D.Decoder, sh: D.Shape, capacity: nat, pageSize: nat, store: Store, ids: seq<nat>,
                   computed: bool)
    requires Setup(m, sh, capacity, pageSize, store) && 2 <= |ids| <= capacity
    ensures var events := PutBackEvents(ids, computed);
            var c := Final(m, sh, Start0(capacity, pageSize, store), events);
            && Run(m, sh, Start0(capacity, pageSize, store), events)
            && 0 in c.serving.live && Call(m, sh, c, 0).logits.Some?
            && (0 !in c.early <==> computed && ids[|ids| - 1] == 0)
  {
    var start, events := Start0(capacity, pageSize, store), PutBackEvents(ids, computed);
    InitialGood(capacity, pageSize, store);
    FreshRoom(capacity, pageSize);
    PutBackStates(m, sh, start, ids, computed);
    PutBackUnfolds(m, sh, start, ids, computed);
    RunIsGood(m, sh, capacity, pageSize, store, events);
    RunSame(m, sh, store, m, sh, store, capacity, pageSize, events);
    CallTotal(m, sh, Final(m, sh, start, events), 0);
  }

  lemma ComputedOrNot(m: D.Decoder, sh: D.Shape, c: Machine, t: Machine, ids: seq<nat>, computed: bool)
    requires PreparedAlone(c, ids) && c.origin == map[]
    requires Total(m, sh, c.serving.pool.capacity) && Shaped(m, c.store, c.serving.pool.capacity)
    requires t == if computed then Step(m, sh, c, Compute(0)) else c
    ensures PreparedAlone(t, ids)
    ensures OnTrack(t.origin, t.serving.live[0], |ids| - 1) <==> computed && ids[|ids| - 1] == 0
  {
    if computed {
      ChunkComputed(m, sh, c, ids);
      CallGood(m, sh, c, 0);
      OnTrackAfterPass(t.origin, c.serving.live[0], |ids| - 1);
    } else {
      assert !Roots(c.origin, c.serving.live[0].slots[0], ids[..1]);
    }
  }

  /** The pass over all but the last token leaves their rows. */
  lemma ChunkComputed(m: D.Decoder, sh: D.Shape, c: Machine, ids: seq<nat>)
    requires PreparedAlone(c, ids)
    requires Total(m, sh, c.serving.pool.capacity) && Shaped(m, c.store, c.serving.pool.capacity)
    ensures Rooted(Call(m, sh, c, 0).origin, ids, c.serving.live[0].slots, |ids| - 1)
  {
    var r, n := c.serving.live[0], |ids| - 1;
    assert Tokens(c, 0) == ids;
    assert Outs(r) == r.slots && r.slots[..n] == r.slots && Fed(c, 0) == ids[0..n];
    CallTotal(m, sh, c, 0);
    CallRoots(m, sh, c, 0);
  }
}
