/** Incremental decoding over the paged KV cache (`cpu_reference.rs`) against recomputation from the token prefix. */
module CachedDecode {
  import opened Basics
  import opened KvStorage

  datatype DecodeError = PositionTooLarge | SlotMismatch | TokenOutsideVocabulary | Kernel | Cache | NoInputTokens

  datatype Projection = Projection(query: Vec, key: Vec, value: Vec)

  /**
   * A dense decoder as the pure functions it is made of; `None` is a rejected shape. `project` normalizes,
   * projects and rotates, `attend` is attention over the gathered rows with the output projection, `add` adds a
   * residual, `feedForward` is the norm and the feed-forward block, `head` is the final norm and the logits.
   */
  datatype Decoder = Decoder(
    layerCount: nat,
    maxPositions: nat,
    embed: nat -> Option<Vec>,
    project: (nat, Vec, nat) -> Option<Projection>,
    attend: (nat, Vec, Vec, Vec, nat) -> Option<Vec>,
    add: (Vec, Vec) -> Option<Vec>,
    feedForward: (nat, Vec) -> Option<Vec>,
    head: Vec -> Option<Vec>)

  /** Row widths the cache was built for. */
  datatype Shape = Shape(keyWidth: nat, valueWidth: nat)

  /** The arguments of one token's forward pass that every layer shares. */
  datatype At = At(position: nat, slot: nat, slots: seq<nat>)

  // ---------- the incremental pass, on the map the cache stands for ----------

  ghost predicate Writable(sh: Shape, store: Store, layer: nat, at: At, p: Projection) {
    |p.key| == sh.keyWidth && |p.value| == sh.valueWidth && InStore(store, layer, at.slot)
  }

  ghost predicate Gatherable(sh: Shape, store: Store, layer: nat, slots: seq<nat>) {
    GatherFits(slots, sh.keyWidth, sh.valueWidth) && forall i :: 0 <= i < |slots| ==> InStore(store, layer, slots[i])
  }

  ghost function ForwardLayer(m: Decoder, sh: Shape, store: Store, hidden: Vec, layer: nat,
                              at: At): (Result<Vec, DecodeError>, Store) {
    match m.project(layer, hidden, at.position)
    case None => (Err(Kernel), store)
    case Some(p) =>
      if !Writable(sh, store, layer, at, p) then (Err(Cache), store) else
      var written := Put(store, layer, at.slot, Entry(p.key, p.value));
      if !Gatherable(sh, written, layer, at.slots) then (Err(Cache), written) else
      (Combine(m, layer, hidden, p.query, Keys(written, layer, at.slots), Values(written, layer, at.slots), |at.slots|)
       .OkOr(Kernel), written)
  }

  /** Attention, its residual, the feed-forward block and its residual. */
  function Combine(m: Decoder, layer: nat, hidden: Vec, query: Vec, keys: Vec, values: Vec, count: nat): Option<Vec> {
    var attention :- m.attend(layer, query, keys, values, count);
    var middle :- m.add(hidden, attention);
    var more :- m.feedForward(layer, middle);
    m.add(middle, more)
  }

  ghost function ForwardLayers(m: Decoder, sh: Shape, store: Store, hidden: Vec, layer: nat,
                               at: At): (Result<Vec, DecodeError>, Store)
    decreases m.layerCount - layer
  {
    if layer >= m.layerCount then (Ok(hidden), store) else
    var (r, next) := ForwardLayer(m, sh, store, hidden, layer, at);
    if r.Err? then (r, next) else ForwardLayers(m, sh, next, r.value, layer + 1, at)
  }

  ghost function ForwardToken(m: Decoder, sh: Shape, store: Store, token: nat, position: nat, outSlot: nat,
                              sequence: seq<nat>)
    : (Result<Vec, DecodeError>, Store)
  {
    if position >= m.maxPositions then (Err(PositionTooLarge), store)
    else if position >= |sequence| || sequence[position] != outSlot then (Err(SlotMismatch), store)
    else match m.embed(token)
      case None => (Err(TokenOutsideVocabulary), store)
      case Some(hidden) =>
        var (r, next) := ForwardLayers(m, sh, store, hidden, 0, At(position, outSlot, sequence[..position + 1]));
        if r.Err? then (r, next) else (m.head(r.value).OkOr(Kernel), next)
  }

  /** One request of a batch: its new tokens in order; the logits of the last one are returned. */
  ghost function ForwardChunk(m: Decoder, sh: Shape, store: Store, tokens: seq<nat>, positions: seq<nat>,
                              outs: seq<nat>, sequence: seq<nat>)
    : (Result<Vec, DecodeError>, Store)
    requires |outs| == |positions| == |tokens|
    decreases |tokens|
  {
    if tokens == [] then (Err(NoInputTokens), store) else
    var (r, next) := ForwardToken(m, sh, store, tokens[0], positions[0], outs[0], sequence);
    if r.Err? || |tokens| == 1 then (r, next)
    else ForwardChunk(m, sh, next, tokens[1..], positions[1..], outs[1..], sequence)
  }

  /** The positions the batch builder lists: consecutive ones. */
  function From(start: nat, n: nat): (positions: seq<nat>)
    ensures |positions| == n && forall i :: 0 <= i < n ==> positions[i] == start + i
  {
    seq(n, i requires 0 <= i => start + i)
  }

  // ---------- the same pass as executed on the byte cache ----------

  method RunLayer(m: Decoder, cache: CpuReferenceKvCache, hidden: Vec, layer: nat, at: At)
    returns (r: Result<Vec, DecodeError>)
    requires cache.Valid()
    modifies cache.data
    ensures (r, cache.View())
         == ForwardLayer(m, Shape(cache.keyWidth, cache.valueWidth), old(cache.View()), hidden, layer, at)
  {
    ghost var before := cache.View();
    var projected := m.project(layer, hidden, at.position);
    if projected.None? {
      return Err(Kernel);
    }
    var p := projected.value;
    var written := cache.Write(layer, at.slot, p.key, p.value);
    if written.Err? {
      return Err(Cache);
    }
    var rows := cache.Gather(layer, at.slots);
    if rows.Err? {
      return Err(Cache);
    }
    var attention := m.attend(layer, p.query, rows.value.0, rows.value.1, |at.slots|);
    if attention.None? {
      return Err(Kernel);
    }
    var afterAttention := m.add(hidden, attention.value);
    if afterAttention.None? {
      return Err(Kernel);
    }
    var feedForward := m.feedForward(layer, afterAttention.value);
    if feedForward.None? {
      return Err(Kernel);
    }
    r := m.add(afterAttention.value, feedForward.value).OkOr(Kernel);
  }

  method RunToken(m: Decoder, cache: CpuReferenceKvCache, token: nat, position: nat, outSlot: nat, sequence: seq<nat>)
    returns (r: Result<Vec, DecodeError>)
    requires cache.Valid()
    modifies cache.data
    ensures (r, cache.View())
         == ForwardToken(m, Shape(cache.keyWidth, cache.valueWidth), old(cache.View()), token, position, outSlot,
                         sequence)
  {
    if position >= m.maxPositions {
      return Err(PositionTooLarge);
    }
    if position >= |sequence| || sequence[position] != outSlot {
      return Err(SlotMismatch);
    }
    var embedded := m.embed(token);
    if embedded.None? {
      return Err(TokenOutsideVocabulary);
    }
    ghost var sh := Shape(cache.keyWidth, cache.valueWidth);
    var hidden := embedded.value;
    var at := At(position, outSlot, sequence[..position + 1]);
    for layer := 0 to m.layerCount
      invariant ForwardLayers(m, sh, old(cache.View()), embedded.value, 0, at)
             == ForwardLayers(m, sh, cache.View(), hidden, layer, at)
    {
      var next := RunLayer(m, cache, hidden, layer, at);
      if next.Err? {
        return Err(next.error);
      }
      hidden := next.value;
    }
    r := m.head(hidden).OkOr(Kernel);
  }

  /** After i tokens: what is left of the chunk, run from the present store, still gives the chunk's outcome. */
  ghost predicate ChunkAt(m: Decoder, sh: Shape, start: Store, tokens: seq<nat>, positions: seq<nat>, outs: seq<nat>,
                          sequence: seq<nat>,
                          i: nat, r: Result<Vec, DecodeError>, now: Store)
    requires |outs| == |positions| == |tokens| && i <= |tokens|
  {
    var whole := ForwardChunk(m, sh, start, tokens, positions, outs, sequence);
    if i < |tokens| then whole == ForwardChunk(m, sh, now, tokens[i..], positions[i..], outs[i..], sequence)
       else whole == (r, now)
  }

  lemma ChunkStep(m: Decoder, sh: Shape, start: Store, tokens: seq<nat>, positions: seq<nat>, outs: seq<nat>,
                  sequence: seq<nat>,
                  i: nat, r: Result<Vec, DecodeError>, now: Store, r': Result<Vec, DecodeError>, next: Store)
    requires |outs| == |positions| == |tokens| && i < |tokens|
             && ChunkAt(m, sh, start, tokens, positions, outs, sequence, i, r, now)
    requires (r', next) == ForwardToken(m, sh, now, tokens[i], positions[i], outs[i], sequence)
    ensures r'.Ok? ==> ChunkAt(m, sh, start, tokens, positions, outs, sequence, i + 1, r', next)
    ensures r'.Err? ==> ForwardChunk(m, sh, start, tokens, positions, outs, sequence) == (r', next)
  {
    assert tokens[i..][1..] == tokens[i + 1..] && outs[i..][1..] == outs[i + 1..]
           && positions[i..][1..] == positions[i + 1..];
  }

  lemma ChunkStart(m: Decoder, sh: Shape, start: Store, tokens: seq<nat>, positions: seq<nat>, outs: seq<nat>,
                   sequence: seq<nat>)
    requires |outs| == |positions| == |tokens|
    ensures ChunkAt(m, sh, start, tokens, positions, outs, sequence, 0, Err(NoInputTokens), start)
  {
    assert tokens[0..] == tokens && outs[0..] == outs && positions[0..] == positions;
  }

  method RunChunk(m: Decoder, cache: CpuReferenceKvCache, tokens: seq<nat>, positions: seq<nat>, outs: seq<nat>,
                  sequence: seq<nat>)
    returns (r: Result<Vec, DecodeError>)
    requires cache.Valid() && |outs| == |positions| == |tokens|
    modifies cache.data
    ensures (r, cache.View())
         == ForwardChunk(m, Shape(cache.keyWidth, cache.valueWidth), old(cache.View()), tokens, positions, outs,
                         sequence)
  {
    ghost var sh, start := Shape(cache.keyWidth, cache.valueWidth), cache.View();
    r := Err(NoInputTokens);
    ChunkStart(m, sh, start, tokens, positions, outs, sequence);
    for i := 0 to |tokens|
      invariant ChunkAt(m, sh, start, tokens, positions, outs, sequence, i, r, cache.View())
    {
      ghost var last, now := r, cache.View();
      r := RunToken(m, cache, tokens[i], positions[i], outs[i], sequence);
      ChunkStep(m, sh, start, tokens, positions, outs, sequence, i, last, now, r, cache.View());
      if r.Err? {
        return;
      }
    }
  }

  // ---------- recomputation from the token prefix ----------

  /** The hidden state entering a layer at position i, computed from the tokens alone. */
  ghost function Hidden(m: Decoder, tokens: seq<nat>, layer: nat, i: nat): Option<Vec>
    requires i < |tokens|
    decreases layer, 0
  {
    if layer == 0 then m.embed(tokens[i]) else
    var hidden :- Hidden(m, tokens, layer - 1, i);
    var p :- m.project(layer - 1, hidden, i);
    var rows :- Rows(m, tokens, layer - 1, i + 1);
    var attention :- m.attend(layer - 1, p.query, ConcatKeys(rows), ConcatValues(rows), i + 1);
    var middle :- m.add(hidden, attention);
    var more :- m.feedForward(layer - 1, middle);
    m.add(middle, more)
  }

  /** The key and value a layer computes at position i. */
  ghost function RowAt(m: Decoder, tokens: seq<nat>, layer: nat, i: nat): Option<Entry>
    requires i < |tokens|
    decreases layer, 1
  {
    var hidden :- Hidden(m, tokens, layer, i);
    var p :- m.project(layer, hidden, i);
    Some(Entry(p.key, p.value))
  }

  ghost function Rows(m: Decoder, tokens: seq<nat>, layer: nat, n: nat): Option<seq<Entry>>
    requires n <= |tokens|
    decreases layer, 2 + n
  {
    if n == 0 then Some([]) else
    var rows :- Rows(m, tokens, layer, n - 1);
    var row :- RowAt(m, tokens, layer, n - 1);
    Some(rows + [row])
  }

  ghost function ConcatKeys(rows: seq<Entry>): Vec {
    if rows == [] then [] else ConcatKeys(rows[..|rows| - 1]) + rows[|rows| - 1].key
  }

  ghost function ConcatValues(rows: seq<Entry>): Vec {
    if rows == [] then [] else ConcatValues(rows[..|rows| - 1]) + rows[|rows| - 1].value
  }

  /** The logits after the given tokens: a function of the tokens and nothing else. */
  ghost function Logits(m: Decoder, tokens: seq<nat>): Option<Vec>
    requires tokens != []
  {
    var hidden :- Hidden(m, tokens, m.layerCount, |tokens| - 1);
    m.head(hidden)
  }

  /** The recomputation is causal: later tokens do not change earlier states. */
  lemma {:induction false} HiddenCausal(m: Decoder, tokens: seq<nat>, more: seq<nat>, layer: nat, i: nat)
    requires i < |tokens|
    ensures Hidden(m, tokens + more, layer, i) == Hidden(m, tokens, layer, i)
    decreases layer, 0
  {
    if layer > 0 {
      HiddenCausal(m, tokens, more, layer - 1, i);
      RowsCausal(m, tokens, more, layer - 1, i + 1);
      HiddenFrom(m, tokens, tokens + more, layer - 1, i);
    } else {
      assert (tokens + more)[i] == tokens[i];
    }
  }

  /** The next hidden state depends on the one below and the rows below. */
  lemma HiddenFrom(m: Decoder, tokens: seq<nat>, other: seq<nat>, layer: nat, i: nat)
    requires i < |tokens| && i < |other|
    requires Hidden(m, other, layer, i) == Hidden(m, tokens, layer, i)
    requires Rows(m, other, layer, i + 1) == Rows(m, tokens, layer, i + 1)
    ensures Hidden(m, other, layer + 1, i) == Hidden(m, tokens, layer + 1, i)
  {
  }

  lemma {:induction false} RowsCausal(m: Decoder, tokens: seq<nat>, more: seq<nat>, layer: nat, n: nat)
    requires n <= |tokens|
    ensures Rows(m, tokens + more, layer, n) == Rows(m, tokens, layer, n)
    decreases layer, 1 + n
  {
    if n > 0 {
      RowsCausal(m, tokens, more, layer, n - 1);
      HiddenCausal(m, tokens, more, layer, n - 1);
    }
  }

  // ---------- the cache holds what recomputation would compute ----------

  /** For the first n positions and every layer below `top`, the request's slots hold the recomputed rows. */
  ghost predicate Holds(m: Decoder, store: Store, tokens: seq<nat>, slots: seq<nat>, n: nat, top: nat) {
    && n <= |tokens| && n <= |slots|
    && forall l, j :: 0 <= l < top && 0 <= j < n ==> RowHeld(m, store, tokens, slots, l, j)
  }

  ghost predicate RowHeld(m: Decoder, store: Store, tokens: seq<nat>, slots: seq<nat>, layer: nat, j: nat)
    requires j < |tokens| && j < |slots|
  {
    InStore(store, layer, slots[j]) && RowAt(m, tokens, layer, j) == Some(store[layer][slots[j]])
  }

  lemma {:induction false} GatherIsRows(m: Decoder, store: Store, tokens: seq<nat>, slots: seq<nat>, layer: nat, n: nat)
    requires n <= |tokens| && n <= |slots|
    requires forall j :: 0 <= j < n ==> RowHeld(m, store, tokens, slots, layer, j)
    ensures forall j :: 0 <= j < n ==> InStore(store, layer, slots[..n][j])
    ensures Rows(m, tokens, layer, n).Some?
    ensures ConcatKeys(Rows(m, tokens, layer, n).value) == Keys(store, layer, slots[..n])
    ensures ConcatValues(Rows(m, tokens, layer, n).value) == Values(store, layer, slots[..n])
  {
    if n > 0 {
      GatherIsRows(m, store, tokens, slots, layer, n - 1);
      assert RowHeld(m, store, tokens, slots, layer, n - 1);
      assert forall j :: 0 <= j < n ==> RowHeld(m, store, tokens, slots, layer, j) && InStore(store, layer, slots[j]);
      KeysNext(store, layer, slots, n - 1);
      RowsNext(m, tokens, layer, n - 1, store[layer][slots[n - 1]]);
    }
  }

  /** One more row is concatenated at the end. */
  lemma RowsNext(m: Decoder, tokens: seq<nat>, layer: nat, n: nat, row: Entry)
    requires n < |tokens| && Rows(m, tokens, layer, n).Some? && RowAt(m, tokens, layer, n) == Some(row)
    ensures Rows(m, tokens, layer, n + 1).Some?
    ensures ConcatKeys(Rows(m, tokens, layer, n + 1).value)
         == ConcatKeys(Rows(m, tokens, layer, n).value) + row.key
    ensures ConcatValues(Rows(m, tokens, layer, n + 1).value)
         == ConcatValues(Rows(m, tokens, layer, n).value) + row.value
  {
    var rows := Rows(m, tokens, layer, n).value;
    var all := rows + [row];
    assert all[..|all| - 1] == rows;
  }

  /** Stores that agree except, possibly, on one slot. */
  ghost predicate OnlySlot(before: Store, after: Store, slot: nat) {
    && |before| == |after|
    && forall l :: 0 <= l < |before| ==>
         && |before[l]| == |after[l]|
         && forall s :: 0 <= s < |before[l]| && s != slot ==> after[l][s] == before[l][s]
  }

  lemma {:induction false} LayersTouchOnlySlot(m: Decoder, sh: Shape, store: Store, hidden: Vec, layer: nat, at: At)
    ensures OnlySlot(store, ForwardLayers(m, sh, store, hidden, layer, at).1, at.slot)
    decreases m.layerCount - layer
  {
    if layer < m.layerCount {
      var (r, next) := ForwardLayer(m, sh, store, hidden, layer, at);
      assert OnlySlot(store, next, at.slot);
      if r.Ok? {
        LayersTouchOnlySlot(m, sh, next, r.value, layer + 1, at);
      }
    }
  }

  /** Whatever token it is fed, a token step touches only its output slot. */
  lemma TokenTouches(m: Decoder, sh: Shape, store: Store, token: nat, position: nat, out: nat, sequence: seq<nat>)
    ensures var next := ForwardToken(m, sh, store, token, position, out, sequence).1;
            next == store || (position < |sequence| && sequence[position] == out && OnlySlot(store, next, out))
  {
    if position < m.maxPositions && position < |sequence| && sequence[position] == out && m.embed(token).Some? {
      LayersTouchOnlySlot(m, sh, store, m.embed(token).value, 0, At(position, out, sequence[..position + 1]));
    }
  }

  /** What a forward pass over one token needs: its sequence lists distinct slots and ends with the output slot. */
  ghost predicate Placed(tokens: seq<nat>, slots: seq<nat>, at: At) {
    && at.position < |tokens| && at.position < |slots| && NoDup(slots)
    && at.slot == slots[at.position] && at.slots == slots[..at.position + 1]
  }

  /** The token's hidden state before a layer is the recomputed one, and the rows below it are in the cache. */
  ghost predicate Ready(m: Decoder, store: Store, tokens: seq<nat>, slots: seq<nat>, hidden: Vec, layer: nat, at: At)
    requires Placed(tokens, slots, at)
  {
    && Hidden(m, tokens, layer, at.position) == Some(hidden)
    && Holds(m, store, tokens, slots, at.position, m.layerCount)
    && Holds(m, store, tokens, slots, at.position + 1, layer)
  }

  /** One layer, run on a cache that holds the earlier rows, computes the next recomputed hidden state. */
  lemma LayerIsRecomputation(m: Decoder, sh: Shape, store: Store, tokens: seq<nat>, slots: seq<nat>, hidden: Vec,
                             layer: nat, at: At)
    requires Placed(tokens, slots, at) && layer < m.layerCount && Ready(m, store, tokens, slots, hidden, layer, at)
    ensures var (r, next) := ForwardLayer(m, sh, store, hidden, layer, at);
            && Holds(m, next, tokens, slots, at.position, m.layerCount)
            && (r.Ok? ==> Ready(m, next, tokens, slots, r.value, layer + 1, at))
  {
    var (r, next) := ForwardLayer(m, sh, store, hidden, layer, at);
    assert OnlySlot(store, next, at.slot);
    KeepsEarlier(m, store, next, tokens, slots, at.position, m.layerCount, at.slot);
    if r.Ok? {
      var p := m.project(layer, hidden, at.position).value;
      assert RowAt(m, tokens, layer, at.position) == Some(next[layer][at.slot]);
      NewRowHeld(m, store, next, tokens, slots, layer, at);
      GatherIsRows(m, next, tokens, slots, layer, at.position + 1);
    }
  }

  lemma KeepsEarlier(m: Decoder, before: Store, after: Store, tokens: seq<nat>, slots: seq<nat>, n: nat, top: nat,
                     slot: nat)
    requires Holds(m, before, tokens, slots, n, top) && OnlySlot(before, after, slot)
    requires forall j :: 0 <= j < n ==> slots[j] != slot
    ensures Holds(m, after, tokens, slots, n, top)
  {
    forall l, j | 0 <= l < top && 0 <= j < n
      ensures RowHeld(m, after, tokens, slots, l, j)
    {
      assert RowHeld(m, before, tokens, slots, l, j);
    }
  }

  lemma NewRowHeld(m: Decoder, store: Store, next: Store, tokens: seq<nat>, slots: seq<nat>, layer: nat, at: At)
    requires Placed(tokens, slots, at) && layer < m.layerCount && InStore(store, layer, at.slot)
    requires Holds(m, next, tokens, slots, at.position, m.layerCount)
    requires Holds(m, store, tokens, slots, at.position + 1, layer)
    requires exists e :: next == Put(store, layer, at.slot, e) && RowAt(m, tokens, layer, at.position) == Some(e)
    ensures Holds(m, next, tokens, slots, at.position + 1, layer + 1)
  {
    forall l, j | 0 <= l < layer + 1 && 0 <= j < at.position + 1
      ensures RowHeld(m, next, tokens, slots, l, j)
    {
      if j < at.position {
        assert RowHeld(m, next, tokens, slots, l, j);
      } else if l < layer {
        assert RowHeld(m, store, tokens, slots, l, j);
      }
    }
  }

  lemma {:induction false} LayersAreRecomputation(m: Decoder, sh: Shape, store: Store, tokens: seq<nat>,
                                                  slots: seq<nat>, hidden: Vec, layer: nat, at: At)
    requires Placed(tokens, slots, at) && layer <= m.layerCount && Ready(m, store, tokens, slots, hidden, layer, at)
    ensures var (r, next) := ForwardLayers(m, sh, store, hidden, layer, at);
            r.Ok? ==> Ready(m, next, tokens, slots, r.value, m.layerCount, at)
    decreases m.layerCount - layer
  {
    if layer < m.layerCount {
      var (r, next) := ForwardLayer(m, sh, store, hidden, layer, at);
      LayerIsRecomputation(m, sh, store, tokens, slots, hidden, layer, at);
      if r.Ok? {
        LayersAreRecomputation(m, sh, next, tokens, slots, r.value, layer + 1, at);
      }
    }
  }

  lemma HoldsExtended(m: Decoder, store: Store, tokens: seq<nat>, more: seq<nat>, slots: seq<nat>, n: nat)
    requires Holds(m, store, tokens, slots, n, m.layerCount)
    ensures Holds(m, store, tokens + more, slots, n, m.layerCount)
  {
    forall l, j | 0 <= l < m.layerCount && 0 <= j < n
      ensures RowHeld(m, store, tokens + more, slots, l, j)
    {
      assert RowHeld(m, store, tokens, slots, l, j);
      HiddenCausal(m, tokens, more, l, j);
    }
  }

  /** A successful token step returns the recomputed logits and extends the held prefix; any step touches one slot. */
  lemma TokenIsRecomputation(m: Decoder, sh: Shape, store: Store, done: seq<nat>, token: nat, outSlot: nat,
                             slots: seq<nat>, visible: nat)
    requires NoDup(slots) && visible <= |slots| && Holds(m, store, done, slots, |done|, m.layerCount)
    ensures var (r, next) := ForwardToken(m, sh, store, token, |done|, outSlot, slots[..visible]);
            && (next == store || (|done| < |slots| && OnlySlot(store, next, slots[|done|])))
            && (r.Ok? ==> |done| < |slots| && Logits(m, done + [token]) == Some(r.value)
                          && Holds(m, next, done + [token], slots, |done| + 1, m.layerCount))
  {
    var i, tokens, sequence := |done|, done + [token], slots[..visible];
    if i < m.maxPositions && i < visible && slots[i] == outSlot && m.embed(token).Some? {
      var at := At(i, outSlot, sequence[..i + 1]);
      assert sequence[..i + 1] == slots[..i + 1];
      LayersTouchOnlySlot(m, sh, store, m.embed(token).value, 0, at);
      HoldsExtended(m, store, done, [token], slots, i);
      LayersAreRecomputation(m, sh, store, tokens, slots, m.embed(token).value, 0, at);
    }
  }

  // ---------- chunks, and runs of many requests ----------

  /** Stores that agree outside the request's slots from position n on. */
  ghost predicate OnlyFrom(before: Store, after: Store, slots: seq<nat>, n: nat) {
    && |before| == |after|
    && forall l :: 0 <= l < |before| ==>
         && |before[l]| == |after[l]|
         && forall s :: 0 <= s < |before[l]| && (forall j :: n <= j < |slots| ==> slots[j] != s) ==>
              after[l][s] == before[l][s]
  }

  lemma {:induction false} ChunkIsRecomputation(m: Decoder, sh: Shape, store: Store, done: seq<nat>, tokens: seq<nat>,
                                                outs: seq<nat>, slots: seq<nat>, visible: nat)
    requires |outs| == |tokens| && NoDup(slots) && visible <= |slots|
             && Holds(m, store, done, slots, |done|, m.layerCount)
    ensures var (r, next) := ForwardChunk(m, sh, store, tokens, From(|done|, |tokens|), outs, slots[..visible]);
            ChunkDone(m, store, done, tokens, slots, r, next)
    decreases |tokens|
  {
    if tokens != [] {
      var first := ForwardToken(m, sh, store, tokens[0], |done|, outs[0], slots[..visible]);
      TokenDone(m, sh, store, done, tokens[0], outs[0], slots, visible);
      if first.0.Ok? && |tokens| > 1 {
        ChunkIsRecomputation(m, sh, first.1, done + [tokens[0]], tokens[1..], outs[1..], slots, visible);
        ChunkGoesOn(m, sh, store, done, tokens, outs, slots, visible);
      } else {
        ChunkEnds(m, store, done, tokens, slots, first.0, first.1);
      }
    }
  }

  /** A first token that succeeds, and the rest behind it. */
  lemma ChunkGoesOn(m: Decoder, sh: Shape, store: Store, done: seq<nat>, tokens: seq<nat>, outs: seq<nat>,
                    slots: seq<nat>, visible: nat)
    requires |outs| == |tokens| > 1 && visible <= |slots|
    requires var (r, mid) := ForwardToken(m, sh, store, tokens[0], |done|, outs[0], slots[..visible]);
             r.Ok? && OnlyFrom(store, mid, slots, |done|)
             && var (r', next) :=
                  ForwardChunk(m, sh, mid, tokens[1..], From(|done + [tokens[0]]|, |tokens[1..]|), outs[1..],
                               slots[..visible]);
                ChunkDone(m, mid, done + [tokens[0]], tokens[1..], slots, r', next)
    ensures var (r, next) := ForwardChunk(m, sh, store, tokens, From(|done|, |tokens|), outs, slots[..visible]);
            ChunkDone(m, store, done, tokens, slots, r, next)
  {
    var mid := ForwardToken(m, sh, store, tokens[0], |done|, outs[0], slots[..visible]).1;
    ChunkUnfolds(m, sh, store, |done|, tokens, outs, slots[..visible]);
    var last := ForwardChunk(m, sh, store, tokens, From(|done|, |tokens|), outs, slots[..visible]);
    ChunkNext(m, store, mid, done, tokens, slots, last.0, last.1);
  }

  lemma ChunkEnds(m: Decoder, store: Store, done: seq<nat>, tokens: seq<nat>, slots: seq<nat>,
                  r: Result<Vec, DecodeError>, next: Store)
    requires tokens != [] && (r.Err? || |tokens| == 1) && ChunkDone(m, store, done, [tokens[0]], slots, r, next)
    ensures ChunkDone(m, store, done, tokens, slots, r, next)
  {
    if r.Ok? {
      assert tokens == [tokens[0]];
    }
  }

  lemma TokenDone(m: Decoder, sh: Shape, store: Store, done: seq<nat>, token: nat, out: nat, slots: seq<nat>,
                  visible: nat)
    requires NoDup(slots) && visible <= |slots| && Holds(m, store, done, slots, |done|, m.layerCount)
    ensures var (r, next) := ForwardToken(m, sh, store, token, |done|, out, slots[..visible]);
            ChunkDone(m, store, done, [token], slots, r, next)
  {
    TokenIsRecomputation(m, sh, store, done, token, out, slots, visible);
  }

  /**
   * A chunk behind `done` wrote only from there on; if it succeeded, it left its rows and returns the recomputed
   * logits.
   */
  ghost predicate ChunkDone(m: Decoder, store: Store, done: seq<nat>, tokens: seq<nat>, slots: seq<nat>,
                            r: Result<Vec, DecodeError>, next: Store) {
    && OnlyFrom(store, next, slots, |done|)
    && (r.Ok? ==> tokens != [] && Logits(m, done + tokens) == Some(r.value)
                  && Holds(m, next, done + tokens, slots, |done + tokens|, m.layerCount))
  }

  lemma ChunkNext(m: Decoder, store: Store, mid: Store, done: seq<nat>, tokens: seq<nat>, slots: seq<nat>,
                  r: Result<Vec, DecodeError>, next: Store)
    requires tokens != [] && OnlyFrom(store, mid, slots, |done|)
    requires ChunkDone(m, mid, done + [tokens[0]], tokens[1..], slots, r, next)
    ensures ChunkDone(m, store, done, tokens, slots, r, next)
  {
    assert done + [tokens[0]] + tokens[1..] == done + tokens;
  }

  lemma ChunkUnfolds(m: Decoder, sh: Shape, store: Store, start: nat, tokens: seq<nat>, outs: seq<nat>,
                     sequence: seq<nat>)
    requires |outs| == |tokens| > 1 && ForwardToken(m, sh, store, tokens[0], start, outs[0], sequence).0.Ok?
    ensures ForwardChunk(m, sh, store, tokens, From(start, |tokens|), outs, sequence)
         == ForwardChunk(m, sh, ForwardToken(m, sh, store, tokens[0], start, outs[0], sequence).1, tokens[1..],
                         From(start + 1, |tokens| - 1), outs[1..], sequence)
  {
    FromNext(start, |tokens|);
  }

  lemma FromNext(start: nat, n: nat)
    requires n > 0
    ensures From(start, n)[1..] == From(start + 1, n - 1)
  {
  }

  /** The requests being served: the slot list of each, and how many tokens of which prefix each has completed. */
  datatype State = State(store: Store, done: map<nat, seq<nat>>)

  /**
   * A forward call for one request: its next tokens, the output slots it names, how much of its slot list it passes.
   */
  datatype Call = Call(request: nat, tokens: seq<nat>, outs: seq<nat>, visible: nat)

  ghost function Done(s: State, request: nat): seq<nat> {
    if request in s.done then s.done[request] else []
  }

  ghost predicate WellFormed(slots: map<nat, seq<nat>>, call: Call) {
    call.request in slots && call.visible <= |slots[call.request]| && |call.outs| == |call.tokens|
  }

  ghost function Outcome(m: Decoder, sh: Shape, slots: map<nat, seq<nat>>, s: State,
                         call: Call): (Result<Vec, DecodeError>, Store)
    requires WellFormed(slots, call)
  {
    ForwardChunk(m, sh, s.store, call.tokens, From(|Done(s, call.request)|, |call.tokens|), call.outs,
                 slots[call.request][..call.visible])
  }

  /** A call moves its request forward exactly when it succeeds. */
  ghost function Step(m: Decoder, sh: Shape, slots: map<nat, seq<nat>>, s: State, call: Call): State
    requires WellFormed(slots, call)
  {
    var (r, next) := Outcome(m, sh, slots, s, call);
    State(next, if r.Ok? then s.done[call.request := Done(s, call.request) + call.tokens] else s.done)
  }

  ghost function Run(m: Decoder, sh: Shape, slots: map<nat, seq<nat>>, s: State, calls: seq<Call>): State
    requires forall i :: 0 <= i < |calls| ==> WellFormed(slots, calls[i])
  {
    if calls == [] then s else
    Step(m, sh, slots, Run(m, sh, slots, s, calls[..|calls| - 1]), calls[|calls| - 1])
  }

  /** Slot lists without repetition that do not meet. */
  ghost predicate Disjoint(slots: map<nat, seq<nat>>) {
    && (forall r :: r in slots ==> NoDup(slots[r]))
    && (forall a, i, b, j | a in slots && b in slots && a != b && 0 <= i < |slots[a]| && 0 <= j < |slots[b]| ::
          slots[a][i] != slots[b][j])
  }

  ghost predicate Inv(m: Decoder, slots: map<nat, seq<nat>>, s: State) {
    forall r :: r in slots ==> Holds(m, s.store, Done(s, r), slots[r], |Done(s, r)|, m.layerCount)
  }

  lemma StepInv(m: Decoder, sh: Shape, slots: map<nat, seq<nat>>, s: State, call: Call)
    requires Disjoint(slots) && Inv(m, slots, s) && WellFormed(slots, call)
    ensures Inv(m, slots, Step(m, sh, slots, s, call))
    ensures Outcome(m, sh, slots, s, call).0.Ok? ==>
              && call.tokens != []
              && Logits(m, Done(s, call.request) + call.tokens) == Some(Outcome(m, sh, slots, s, call).0.value)
  {
    var c, t := call.request, Step(m, sh, slots, s, call);
    ChunkIsRecomputation(m, sh, s.store, Done(s, c), call.tokens, call.outs, slots[c], call.visible);
    forall r | r in slots
      ensures Holds(m, t.store, Done(t, r), slots[r], |Done(t, r)|, m.layerCount)
    {
      assert Holds(m, s.store, Done(s, r), slots[r], |Done(s, r)|, m.layerCount);
      if r != c || Outcome(m, sh, slots, s, call).0.Err? {
        assert Done(t, r) == Done(s, r);
        KeepsOthers(m, s.store, t.store, Done(s, r), slots[r], slots[c], |Done(s, c)|);
      }
    }
  }

  lemma KeepsOthers(m: Decoder, before: Store, after: Store, tokens: seq<nat>, slots: seq<nat>, writer: seq<nat>,
                    from: nat)
    requires Holds(m, before, tokens, slots, |tokens|, m.layerCount) && OnlyFrom(before, after, writer, from)
    requires forall i, j :: 0 <= i < |tokens| && from <= j < |writer| ==> slots[i] != writer[j]
    ensures Holds(m, after, tokens, slots, |tokens|, m.layerCount)
  {
    forall l, j | 0 <= l < m.layerCount && 0 <= j < |tokens|
      ensures RowHeld(m, after, tokens, slots, l, j)
    {
      assert RowHeld(m, before, tokens, slots, l, j);
    }
  }

  lemma {:induction false} RunInv(m: Decoder, sh: Shape, slots: map<nat, seq<nat>>, store: Store, calls: seq<Call>)
    requires Disjoint(slots) && forall i :: 0 <= i < |calls| ==> WellFormed(slots, calls[i])
    ensures Inv(m, slots, Run(m, sh, slots, State(store, map[]), calls))
  {
    if calls != [] {
      RunInv(m, sh, slots, store, calls[..|calls| - 1]);
      StepInv(m, sh, slots, Run(m, sh, slots, State(store, map[]), calls[..|calls| - 1]), calls[|calls| - 1]);
    }
  }

  /**
   * Cached decoding equals recomputation: from any initial cache contents and after any interleaving of calls,
   * successful or not, by requests with disjoint slot lists, a call that succeeds returns exactly the logits
   * recomputed from its own request's tokens. Chunk boundaries and other requests make no difference.
   */
  lemma CachedDecodingIsRecomputation(m: Decoder, sh: Shape, slots: map<nat, seq<nat>>, store: Store, calls: seq<Call>,
                                      call: Call)
    requires Disjoint(slots) && WellFormed(slots, call) && forall i :: 0 <= i < |calls| ==> WellFormed(slots, calls[i])
    ensures var s := Run(m, sh, slots, State(store, map[]), calls);
            var r := Outcome(m, sh, slots, s, call).0;
            r.Ok? ==> call.tokens != [] && Logits(m, Done(s, call.request) + call.tokens) == Some(r.value)
  {
    RunInv(m, sh, slots, store, calls);
    StepInv(m, sh, slots, Run(m, sh, slots, State(store, map[]), calls), call);
  }

  /**
   * Two servers, with different histories and cache contents, agree on a request's logits once it has seen the same
   * tokens.
   */
  lemma HistoriesDoNotMatter(m: Decoder, sh: Shape, slots1: map<nat, seq<nat>>, store1: Store, calls1: seq<Call>,
                             call1: Call,
                             slots2: map<nat, seq<nat>>, store2: Store, calls2: seq<Call>, call2: Call)
    requires Disjoint(slots1) && WellFormed(slots1, call1)
             && forall i :: 0 <= i < |calls1| ==> WellFormed(slots1, calls1[i])
    requires Disjoint(slots2) && WellFormed(slots2, call2)
             && forall i :: 0 <= i < |calls2| ==> WellFormed(slots2, calls2[i])
    ensures var s1, s2 :=
              Run(m, sh, slots1, State(store1, map[]), calls1), Run(m, sh, slots2, State(store2, map[]), calls2);
            var r1, r2 := Outcome(m, sh, slots1, s1, call1).0, Outcome(m, sh, slots2, s2, call2).0;
            r1.Ok? && r2.Ok? && Done(s1, call1.request) + call1.tokens == Done(s2, call2.request) + call2.tokens ==>
              r1 == r2
  {
    CachedDecodingIsRecomputation(m, sh, slots1, store1, calls1, call1);
    CachedDecodingIsRecomputation(m, sh, slots2, store2, calls2, call2);
  }
}
