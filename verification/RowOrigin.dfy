/**
 * Where the rows in the KV store come from: for every slot whose content is known, the token path whose last row a
 * forward pass left there. Rows found through their slots are the rows of those paths.
 */
module RowOrigin {
  import opened Basics
  import opened KvStorage
  import D = CachedDecode

  type Origin = map<nat, seq<nat>>

  predicate Roots(origin: Origin, x: nat, path: seq<nat>) {
    x in origin && origin[x] == path
  }

  /** Slot j of the list holds the row of the first j + 1 tokens, for the first n positions. */
  ghost predicate Rooted(origin: Origin, tokens: seq<nat>, slots: seq<nat>, n: nat) {
    && n <= |tokens| && n <= |slots|
    && forall j :: 0 <= j < n ==> Roots(origin, slots[j], tokens[..j + 1])
  }

  /** The path of a token computed at position i over the rows in the slots before it, if these continue one path. */
  ghost function PathAt(origin: Origin, sequence: seq<nat>, i: nat, token: nat): Option<seq<nat>> {
    if i == 0 then Some([token])
    else if i <= |sequence| && sequence[i - 1] in origin && |origin[sequence[i - 1]]| == i
            && Rooted(origin, origin[sequence[i - 1]], sequence, i)
    then Some(origin[sequence[i - 1]] + [token])
    else None
  }

  lemma PathOfRooted(origin: Origin, tokens: seq<nat>, sequence: seq<nat>, i: nat, token: nat)
    requires Rooted(origin, tokens, sequence, i)
    ensures PathAt(origin, sequence, i, token) == Some(tokens[..i] + [token])
  {
    if i > 0 {
      var g := origin[sequence[i - 1]];
      assert Roots(origin, sequence[i - 1], tokens[..i - 1 + 1]);
      assert g == tokens[..i];
      forall j | 0 <= j < i
        ensures Roots(origin, sequence[j], g[..j + 1])
      {
        assert Roots(origin, sequence[j], tokens[..j + 1]);
        assert g[..j + 1] == tokens[..j + 1];
      }
      assert Rooted(origin, g, sequence, i);
    } else {
      assert tokens[..0] + [token] == [token];
    }
  }

  ghost function Marked(origin: Origin, x: nat, path: Option<seq<nat>>): Origin {
    match path
    case Some(p) => origin[x := p]
    case None => origin - {x}
  }

  predicate SlotMatches(position: nat, out: nat, sequence: seq<nat>) {
    position < |sequence| && sequence[position] == out
  }

  /** A token step leaves the row of its path; a failed one leaves nothing known, unless it rewrote the same row. */
  ghost function TokenOrigin(m: D.Decoder, sh: D.Shape, store: Store, origin: Origin, token: nat, position: nat,
                             out: nat, sequence: seq<nat>): Origin {
    if !SlotMatches(position, out, sequence) then origin else
    var path := PathAt(origin, sequence, position, token);
    if D.ForwardToken(m, sh, store, token, position, out, sequence).0.Ok? then Marked(origin, out, path)
    else if path.Some? && Roots(origin, out, path.value) then origin
    else origin - {out}
  }

  /** The same for the tokens of a chunk, up to the first one that fails. */
  ghost function ChunkOrigin(m: D.Decoder, sh: D.Shape, store: Store, origin: Origin, tokens: seq<nat>, start: nat,
                             outs: seq<nat>, sequence: seq<nat>): Origin
    requires |outs| == |tokens|
    decreases |tokens|
  {
    if tokens == [] then origin else
    var (r, next) := D.ForwardToken(m, sh, store, tokens[0], start, outs[0], sequence);
    var marked := TokenOrigin(m, sh, store, origin, tokens[0], start, outs[0], sequence);
    if r.Err? || |tokens| == 1 then marked
    else ChunkOrigin(m, sh, next, marked, tokens[1..], start + 1, outs[1..], sequence)
  }

  ghost function Chunk(m: D.Decoder, sh: D.Shape, store: Store, tokens: seq<nat>, start: nat, outs: seq<nat>,
                       sequence: seq<nat>): (Result<Vec, D.DecodeError>, Store)
    requires |outs| == |tokens|
  {
    D.ForwardChunk(m, sh, store, tokens, D.From(start, |tokens|), outs, sequence)
  }

  // ---------- what is recorded is there ----------

  /** The slot holds, in every layer, the row of the last token of the path. */
  ghost predicate PathHeld(m: D.Decoder, store: Store, path: seq<nat>, x: nat)
    requires path != []
  {
    forall l :: 0 <= l < m.layerCount ==> InStore(store, l, x) && D.RowAt(m, path, l, |path| - 1) == Some(store[l][x])
  }

  ghost predicate Sound(m: D.Decoder, store: Store, origin: Origin) {
    forall x :: x in origin ==> origin[x] != [] && PathHeld(m, store, origin[x], x)
  }

  lemma RootedHolds(m: D.Decoder, store: Store, origin: Origin, tokens: seq<nat>, slots: seq<nat>, n: nat)
    requires Sound(m, store, origin) && Rooted(origin, tokens, slots, n)
    ensures D.Holds(m, store, tokens, slots, n, m.layerCount)
  {
    forall l, j | 0 <= l < m.layerCount && 0 <= j < n
      ensures D.RowHeld(m, store, tokens, slots, l, j)
    {
      assert Roots(origin, slots[j], tokens[..j + 1]);
      assert PathHeld(m, store, tokens[..j + 1], slots[j]);
      assert tokens[..j + 1] + tokens[j + 1..] == tokens;
      D.HiddenCausal(m, tokens[..j + 1], tokens[j + 1..], l, j);
    }
  }

  lemma LastHeld(m: D.Decoder, store: Store, path: seq<nat>, slots: seq<nat>)
    requires path != [] && D.Holds(m, store, path, slots, |path|, m.layerCount)
    ensures PathHeld(m, store, path, slots[|path| - 1])
  {
    var last := |path| - 1;
    forall l | 0 <= l < m.layerCount
      ensures InStore(store, l, slots[last]) && D.RowAt(m, path, l, last) == Some(store[l][slots[last]])
    {
      assert D.RowHeld(m, store, path, slots, l, last);
    }
  }

  lemma PathKept(m: D.Decoder, before: Store, after: Store, out: nat, path: seq<nat>, x: nat)
    requires path != [] && PathHeld(m, before, path, x)
    requires x != out && (after == before || D.OnlySlot(before, after, out))
    ensures PathHeld(m, after, path, x)
  {
    forall l | 0 <= l < m.layerCount
      ensures InStore(after, l, x) && D.RowAt(m, path, l, |path| - 1) == Some(after[l][x])
    {
      assert InStore(before, l, x);
    }
  }

  /** A successful token step leaves the row of its path. */
  lemma TokenLeaves(m: D.Decoder, sh: D.Shape, store: Store, origin: Origin, token: nat, position: nat, out: nat,
                    sequence: seq<nat>)
    requires Sound(m, store, origin) && NoDup(sequence) && SlotMatches(position, out, sequence)
    requires PathAt(origin, sequence, position, token).Some?
    requires D.ForwardToken(m, sh, store, token, position, out, sequence).0.Ok?
    ensures var path := PathAt(origin, sequence, position, token).value;
            path != [] && PathHeld(m, D.ForwardToken(m, sh, store, token, position, out, sequence).1, path, out)
  {
    var g := if position == 0 then [] else origin[sequence[position - 1]];
    RootedHolds(m, store, origin, g, sequence, position);
    assert sequence[..|sequence|] == sequence;
    D.TokenIsRecomputation(m, sh, store, g, token, out, sequence, |sequence|);
    var path := g + [token];
    assert position == 0 ==> path == [token];
    assert PathAt(origin, sequence, position, token) == Some(path) && |path| == position + 1;
    LastHeld(m, D.ForwardToken(m, sh, store, token, position, out, sequence).1, path, sequence);
  }

  /** Computing a token whose row is there already writes that row again, or nothing. */
  lemma TokenRepeats(m: D.Decoder, sh: D.Shape, store: Store, origin: Origin, token: nat, position: nat, out: nat,
                     sequence: seq<nat>)
    requires Sound(m, store, origin) && NoDup(sequence) && SlotMatches(position, out, sequence)
    requires PathAt(origin, sequence, position, token).Some?
    requires Roots(origin, out, PathAt(origin, sequence, position, token).value)
    ensures D.ForwardToken(m, sh, store, token, position, out, sequence).1 == store
  {
    var path := PathAt(origin, sequence, position, token).value;
    PathRooted(origin, sequence, position, token);
    RootedHolds(m, store, origin, path, sequence, position + 1);
    ReplayedToken(m, sh, store, path, sequence, position, out);
  }

  lemma PathRooted(origin: Origin, sequence: seq<nat>, position: nat, token: nat)
    requires position < |sequence| && PathAt(origin, sequence, position, token).Some?
    requires Roots(origin, sequence[position], PathAt(origin, sequence, position, token).value)
    ensures var path := PathAt(origin, sequence, position, token).value;
            |path| == position + 1 && path[position] == token && Rooted(origin, path, sequence, position + 1)
  {
    var path := PathAt(origin, sequence, position, token).value;
    if position > 0 {
      var g := origin[sequence[position - 1]];
      forall j | 0 <= j < position + 1
        ensures Roots(origin, sequence[j], path[..j + 1])
      {
        if j < position {
          assert Roots(origin, sequence[j], g[..j + 1]);
          assert path[..j + 1] == g[..j + 1];
        } else {
          assert path[..j + 1] == path;
        }
      }
    } else {
      assert path[..1] == path;
    }
  }

  lemma TokenSound(m: D.Decoder, sh: D.Shape, store: Store, origin: Origin, token: nat, position: nat, out: nat,
                   sequence: seq<nat>)
    requires Sound(m, store, origin) && NoDup(sequence)
    ensures Sound(m, D.ForwardToken(m, sh, store, token, position, out, sequence).1,
                  TokenOrigin(m, sh, store, origin, token, position, out, sequence))
  {
    var (r, next) := D.ForwardToken(m, sh, store, token, position, out, sequence);
    var after := TokenOrigin(m, sh, store, origin, token, position, out, sequence);
    D.TokenTouches(m, sh, store, token, position, out, sequence);
    forall x | x in after
      ensures after[x] != [] && PathHeld(m, next, after[x], x)
    {
      if x != out {
        SoundElsewhere(m, store, next, origin, out, x);
      } else if SlotMatches(position, out, sequence) {
        if r.Ok? {
          TokenLeaves(m, sh, store, origin, token, position, out, sequence);
        } else {
          TokenRepeats(m, sh, store, origin, token, position, out, sequence);
        }
      }
    }
  }

  lemma SoundElsewhere(m: D.Decoder, store: Store, next: Store, origin: Origin, out: nat, x: nat)
    requires Sound(m, store, origin) && x in origin && x != out && (next == store || D.OnlySlot(store, next, out))
    ensures origin[x] != [] && PathHeld(m, next, origin[x], x)
  {
    PathKept(m, store, next, out, origin[x], x);
  }

  /** Whatever a chunk computes, and however it fails, the record stays right. */
  lemma {:induction false} ChunkSound(m: D.Decoder, sh: D.Shape, store: Store, origin: Origin, tokens: seq<nat>,
                                      start: nat, outs: seq<nat>, sequence: seq<nat>)
    requires Sound(m, store, origin) && NoDup(sequence) && |outs| == |tokens|
    ensures Sound(m, Chunk(m, sh, store, tokens, start, outs, sequence).1,
                  ChunkOrigin(m, sh, store, origin, tokens, start, outs, sequence))
    decreases |tokens|
  {
    if tokens != [] {
      var (r, next) := D.ForwardToken(m, sh, store, tokens[0], start, outs[0], sequence);
      var marked := TokenOrigin(m, sh, store, origin, tokens[0], start, outs[0], sequence);
      TokenSound(m, sh, store, origin, tokens[0], start, outs[0], sequence);
      if r.Ok? && |tokens| > 1 {
        D.ChunkUnfolds(m, sh, store, start, tokens, outs, sequence);
        ChunkSound(m, sh, next, marked, tokens[1..], start + 1, outs[1..], sequence);
      }
    }
  }

  // ---------- what a chunk changes ----------

  ghost predicate SameAt(before: Origin, after: Origin, x: nat) {
    (x in before <==> x in after) && (x in before ==> after[x] == before[x])
  }

  /** The records agree outside the list's slots from position n on. */
  ghost predicate OriginFrom(before: Origin, after: Origin, slots: seq<nat>, n: nat) {
    forall x :: (forall j :: n <= j < |slots| ==> slots[j] != x) ==> SameAt(before, after, x)
  }

  lemma {:induction false} ChunkOriginFrom(m: D.Decoder, sh: D.Shape, store: Store, origin: Origin, tokens: seq<nat>,
                                           start: nat, outs: seq<nat>, sequence: seq<nat>)
    requires |outs| == |tokens|
    ensures OriginFrom(origin, ChunkOrigin(m, sh, store, origin, tokens, start, outs, sequence), sequence, start)
    decreases |tokens|
  {
    if tokens != [] {
      var (r, next) := D.ForwardToken(m, sh, store, tokens[0], start, outs[0], sequence);
      var marked := TokenOrigin(m, sh, store, origin, tokens[0], start, outs[0], sequence);
      TokenOriginFrom(m, sh, store, origin, tokens[0], start, outs[0], sequence);
      if r.Ok? && |tokens| > 1 {
        ChunkOriginFrom(m, sh, next, marked, tokens[1..], start + 1, outs[1..], sequence);
        var after := ChunkOrigin(m, sh, next, marked, tokens[1..], start + 1, outs[1..], sequence);
        OriginTwice(origin, marked, after, sequence, start);
      }
    }
  }

  lemma TokenOriginFrom(m: D.Decoder, sh: D.Shape, store: Store, origin: Origin, token: nat, position: nat, out: nat,
                        sequence: seq<nat>)
    ensures OriginFrom(origin, TokenOrigin(m, sh, store, origin, token, position, out, sequence), sequence, position)
  {
    var after := TokenOrigin(m, sh, store, origin, token, position, out, sequence);
    forall x | forall j :: position <= j < |sequence| ==> sequence[j] != x
      ensures SameAt(origin, after, x)
    {
      if SlotMatches(position, out, sequence) {
        assert sequence[position] != x;
      }
    }
  }

  lemma OriginTwice(a: Origin, b: Origin, c: Origin, slots: seq<nat>, n: nat)
    requires OriginFrom(a, b, slots, n) && OriginFrom(b, c, slots, n + 1)
    ensures OriginFrom(a, c, slots, n)
  {
    forall x | forall j :: n <= j < |slots| ==> slots[j] != x
      ensures SameAt(a, c, x)
    {
      assert SameAt(a, b, x) && SameAt(b, c, x);
    }
  }

  lemma RootedKept(before: Origin, after: Origin, tokens: seq<nat>, slots: seq<nat>, n: nat)
    requires Rooted(before, tokens, slots, n) && forall j :: 0 <= j < n ==> SameAt(before, after, slots[j])
    ensures Rooted(after, tokens, slots, n)
  {
    forall j | 0 <= j < n
      ensures Roots(after, slots[j], tokens[..j + 1])
    {
      assert Roots(before, slots[j], tokens[..j + 1]) && SameAt(before, after, slots[j]);
    }
  }

  // ---------- what a chunk computes over its own rows ----------

  /** Over the rows of the tokens before it, a chunk that succeeds returns the recomputed logits and leaves its rows. */
  lemma ChunkOverOwnRows(m: D.Decoder, sh: D.Shape, store: Store, origin: Origin, tokens: seq<nat>, start: nat,
                         end: nat, outs: seq<nat>, sequence: seq<nat>)
    requires Sound(m, store, origin) && NoDup(sequence) && Rooted(origin, tokens, sequence, start)
    requires start <= end <= |tokens| && end <= |sequence| && |outs| == end - start
    requires Chunk(m, sh, store, tokens[start..end], start, outs, sequence).0.Ok?
    ensures start < end
    ensures D.Logits(m, tokens[..end]) == Some(Chunk(m, sh, store, tokens[start..end], start, outs, sequence).0.value)
    ensures Rooted(ChunkOrigin(m, sh, store, origin, tokens[start..end], start, outs, sequence), tokens, sequence, end)
  {
    var done, chunk := tokens[..start], tokens[start..end];
    RootedPrefix(origin, tokens, sequence, start);
    RootedHolds(m, store, origin, done, sequence, start);
    assert |done| == start && done + chunk == tokens[..end];
    assert sequence[..|sequence|] == sequence;
    D.ChunkIsRecomputation(m, sh, store, done, chunk, outs, sequence, |sequence|);
    ChunkRoots(m, sh, store, origin, tokens, start, end, outs, sequence);
  }

  lemma RootedPrefix(origin: Origin, tokens: seq<nat>, slots: seq<nat>, n: nat)
    requires Rooted(origin, tokens, slots, n)
    ensures Rooted(origin, tokens[..n], slots, n)
  {
    forall j | 0 <= j < n
      ensures Roots(origin, slots[j], tokens[..n][..j + 1])
    {
      assert tokens[..n][..j + 1] == tokens[..j + 1];
      assert Roots(origin, slots[j], tokens[..j + 1]);
    }
  }

  lemma {:induction false} ChunkRoots(m: D.Decoder, sh: D.Shape, store: Store, origin: Origin, tokens: seq<nat>,
                                      start: nat, end: nat, outs: seq<nat>, sequence: seq<nat>)
    requires NoDup(sequence) && Rooted(origin, tokens, sequence, start)
    requires start <= end <= |tokens| && end <= |sequence| && |outs| == end - start
    requires Chunk(m, sh, store, tokens[start..end], start, outs, sequence).0.Ok?
    ensures Rooted(ChunkOrigin(m, sh, store, origin, tokens[start..end], start, outs, sequence), tokens, sequence, end)
    decreases end - start
  {
    var chunk := tokens[start..end];
    if chunk != [] {
      var next := D.ForwardToken(m, sh, store, chunk[0], start, outs[0], sequence).1;
      var marked := TokenOrigin(m, sh, store, origin, chunk[0], start, outs[0], sequence);
      if |chunk| > 1 {
        D.ChunkUnfolds(m, sh, store, start, chunk, outs, sequence);
      }
      TokenRoots(m, sh, store, origin, tokens, start, outs[0], sequence);
      if |chunk| > 1 {
        assert chunk[1..] == tokens[start + 1..end];
        ChunkRoots(m, sh, next, marked, tokens, start + 1, end, outs[1..], sequence);
      }
    }
  }

  lemma TokenRoots(m: D.Decoder, sh: D.Shape, store: Store, origin: Origin, tokens: seq<nat>, i: nat, out: nat,
                   sequence: seq<nat>)
    requires NoDup(sequence) && Rooted(origin, tokens, sequence, i) && i < |tokens| && i < |sequence|
    requires D.ForwardToken(m, sh, store, tokens[i], i, out, sequence).0.Ok?
    ensures Rooted(TokenOrigin(m, sh, store, origin, tokens[i], i, out, sequence), tokens, sequence, i + 1)
  {
    var after := TokenOrigin(m, sh, store, origin, tokens[i], i, out, sequence);
    PathOfRooted(origin, tokens, sequence, i, tokens[i]);
    assert tokens[..i] + [tokens[i]] == tokens[..i + 1];
    forall j | 0 <= j < i + 1
      ensures Roots(after, sequence[j], tokens[..j + 1])
    {
      if j < i {
        assert Roots(origin, sequence[j], tokens[..j + 1]);
      }
    }
  }

  // ---------- replaying leaves the store as it is ----------

  lemma PutSame(store: Store, layer: nat, slot: nat, e: Entry)
    requires InStore(store, layer, slot) && store[layer][slot] == e
    ensures Put(store, layer, slot, e) == store
  {
    assert store[layer][slot := e] == store[layer];
  }

  lemma LayerRewritesRow(m: D.Decoder, sh: D.Shape, store: Store, tokens: seq<nat>, slots: seq<nat>, hidden: Vec,
                         layer: nat, at: D.At)
    requires D.Placed(tokens, slots, at) && D.Hidden(m, tokens, layer, at.position) == Some(hidden)
    requires D.RowHeld(m, store, tokens, slots, layer, at.position)
    ensures D.ForwardLayer(m, sh, store, hidden, layer, at).1 == store
  {
    var projected := m.project(layer, hidden, at.position);
    if projected.Some? {
      var e := Entry(projected.value.key, projected.value.value);
      assert D.RowAt(m, tokens, layer, at.position) == Some(e);
      PutSame(store, layer, at.slot, e);
    }
  }

  lemma {:induction false} ReplayedLayers(m: D.Decoder, sh: D.Shape, store: Store, tokens: seq<nat>, slots: seq<nat>,
                                          hidden: Vec, layer: nat, at: D.At)
    requires D.Placed(tokens, slots, at) && layer <= m.layerCount
    requires D.Ready(m, store, tokens, slots, hidden, layer, at)
    requires D.Holds(m, store, tokens, slots, at.position + 1, m.layerCount)
    ensures D.ForwardLayers(m, sh, store, hidden, layer, at).1 == store
    decreases m.layerCount - layer
  {
    if layer < m.layerCount {
      ReplayedLayer(m, sh, store, tokens, slots, hidden, layer, at);
      LayersNext(m, sh, store, hidden, layer, at);
      var r := D.ForwardLayer(m, sh, store, hidden, layer, at).0;
      if r.Ok? {
        ReplayedLayers(m, sh, store, tokens, slots, r.value, layer + 1, at);
      }
    }
  }

  lemma LayersNext(m: D.Decoder, sh: D.Shape, store: Store, hidden: Vec, layer: nat, at: D.At)
    requires layer < m.layerCount && D.ForwardLayer(m, sh, store, hidden, layer, at).1 == store
    ensures var r := D.ForwardLayer(m, sh, store, hidden, layer, at).0;
            D.ForwardLayers(m, sh, store, hidden, layer, at)
            == if r.Err? then (r, store) else D.ForwardLayers(m, sh, store, r.value, layer + 1, at)
  {
  }

  lemma ReplayedLayer(m: D.Decoder, sh: D.Shape, store: Store, tokens: seq<nat>, slots: seq<nat>, hidden: Vec,
                      layer: nat, at: D.At)
    requires D.Placed(tokens, slots, at) && layer < m.layerCount
    requires D.Ready(m, store, tokens, slots, hidden, layer, at)
    requires D.Holds(m, store, tokens, slots, at.position + 1, m.layerCount)
    ensures var (r, next) := D.ForwardLayer(m, sh, store, hidden, layer, at);
            next == store && (r.Ok? ==> D.Ready(m, store, tokens, slots, r.value, layer + 1, at))
  {
    assert D.RowHeld(m, store, tokens, slots, layer, at.position);
    LayerRewritesRow(m, sh, store, tokens, slots, hidden, layer, at);
    D.LayerIsRecomputation(m, sh, store, tokens, slots, hidden, layer, at);
  }

  lemma HeldIsReady(m: D.Decoder, store: Store, tokens: seq<nat>, slots: seq<nat>, hidden: Vec, layer: nat, at: D.At)
    requires D.Placed(tokens, slots, at) && layer <= m.layerCount
    requires D.Hidden(m, tokens, layer, at.position) == Some(hidden)
    requires D.Holds(m, store, tokens, slots, at.position + 1, m.layerCount)
    ensures D.Ready(m, store, tokens, slots, hidden, layer, at)
  {
  }

  /** Computing a token whose row is there already writes that row again, or nothing. */
  lemma ReplayedToken(m: D.Decoder, sh: D.Shape, store: Store, tokens: seq<nat>, slots: seq<nat>, i: nat, outSlot: nat)
    requires i < |tokens| && i < |slots| && NoDup(slots) && D.Holds(m, store, tokens, slots, i + 1, m.layerCount)
    ensures D.ForwardToken(m, sh, store, tokens[i], i, outSlot, slots).1 == store
  {
    if i < m.maxPositions && slots[i] == outSlot && m.embed(tokens[i]).Some? {
      HeldIsReady(m, store, tokens, slots, m.embed(tokens[i]).value, 0, D.At(i, outSlot, slots[..i + 1]));
      ReplayedLayers(m, sh, store, tokens, slots, m.embed(tokens[i]).value, 0, D.At(i, outSlot, slots[..i + 1]));
    }
  }
}
