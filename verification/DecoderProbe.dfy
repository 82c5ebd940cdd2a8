/**
 * Decoders that accept every input, and among them probes: decoders whose logits show whether a chosen row, or a row it
 * was computed from, is the row of a chosen path.
 */
module DecoderProbe {
  import opened Basics
  import opened KvStorage
  import opened RowOrigin
  import D = CachedDecode

  // ---------- decoders that accept every input ----------

  ghost predicate Total(m: D.Decoder, sh: D.Shape, capacity: nat) {
    && (forall t :: m.embed(t).Some?)
    && (forall l, h, p :: m.project(l, h, p).Some?
                          && |m.project(l, h, p).value.key| == sh.keyWidth
                          && |m.project(l, h, p).value.value| == sh.valueWidth)
    && (forall l, q, k, v, n :: m.attend(l, q, k, v, n).Some?)
    && (forall h, x :: m.add(h, x).Some?)
    && (forall l, h :: m.feedForward(l, h).Some?)
    && (forall v :: m.head(v).Some?)
    && m.maxPositions >= capacity && capacity * sh.keyWidth <= USIZE_MAX && capacity * sh.valueWidth <= USIZE_MAX
  }

  /** The store has every slot in every layer of the decoder. */
  ghost predicate Shaped(m: D.Decoder, store: Store, capacity: nat) {
    forall l, x :: 0 <= l < m.layerCount && 0 <= x < capacity ==> InStore(store, l, x)
  }

  predicate Within(slots: seq<nat>, capacity: nat) {
    |slots| <= capacity && forall j :: 0 <= j < |slots| ==> slots[j] < capacity
  }

  /** The arguments of a token step name slots of the store. */
  ghost predicate AtWithin(at: D.At, capacity: nat) {
    at.slot < capacity && Within(at.slots, capacity)
  }

  lemma GatherWithin(slots: seq<nat>, sh: D.Shape, capacity: nat)
    requires |slots| <= capacity && capacity * sh.keyWidth <= USIZE_MAX && capacity * sh.valueWidth <= USIZE_MAX
    ensures GatherFits(slots, sh.keyWidth, sh.valueWidth)
  {
    MulLe(|slots|, capacity, sh.keyWidth);
    MulLe(|slots|, capacity, sh.valueWidth);
  }

  lemma TotalLayer(m: D.Decoder, sh: D.Shape, store: Store, hidden: Vec, layer: nat, at: D.At, capacity: nat)
    requires Total(m, sh, capacity) && Shaped(m, store, capacity) && AtWithin(at, capacity) && layer < m.layerCount
    ensures D.ForwardLayer(m, sh, store, hidden, layer, at).0.Ok?
    ensures Shaped(m, D.ForwardLayer(m, sh, store, hidden, layer, at).1, capacity)
  {
    var p := m.project(layer, hidden, at.position).value;
    assert InStore(store, layer, at.slot);
    var written := Put(store, layer, at.slot, Entry(p.key, p.value));
    PutShaped(m, store, layer, at.slot, Entry(p.key, p.value), capacity);
    GatherWithin(at.slots, sh, capacity);
    forall i | 0 <= i < |at.slots|
      ensures InStore(written, layer, at.slots[i])
    {
    }
  }

  lemma PutShaped(m: D.Decoder, store: Store, layer: nat, slot: nat, entry: Entry, capacity: nat)
    requires Shaped(m, store, capacity) && InStore(store, layer, slot)
    ensures Shaped(m, Put(store, layer, slot, entry), capacity)
  {
    forall l, x | 0 <= l < m.layerCount && 0 <= x < capacity
      ensures InStore(Put(store, layer, slot, entry), l, x)
    {
      assert InStore(store, l, x);
    }
  }

  lemma {:induction false} TotalLayers(m: D.Decoder, sh: D.Shape, store: Store, hidden: Vec, layer: nat, at: D.At,
                                       capacity: nat)
    requires Total(m, sh, capacity) && Shaped(m, store, capacity) && AtWithin(at, capacity)
    ensures D.ForwardLayers(m, sh, store, hidden, layer, at).0.Ok?
    ensures Shaped(m, D.ForwardLayers(m, sh, store, hidden, layer, at).1, capacity)
    decreases m.layerCount - layer
  {
    if layer < m.layerCount {
      TotalLayer(m, sh, store, hidden, layer, at, capacity);
      var (r, next) := D.ForwardLayer(m, sh, store, hidden, layer, at);
      TotalLayers(m, sh, next, r.value, layer + 1, at, capacity);
    }
  }

  /** Such a decoder accepts a token exactly when its output slot is the one its position names. */
  lemma TotalToken(m: D.Decoder, sh: D.Shape, store: Store, token: nat, position: nat, out: nat, sequence: seq<nat>,
                   capacity: nat)
    requires Total(m, sh, capacity) && Shaped(m, store, capacity) && Within(sequence, capacity)
    ensures D.ForwardToken(m, sh, store, token, position, out, sequence).0.Ok? <==> SlotMatches(position, out, sequence)
    ensures Shaped(m, D.ForwardToken(m, sh, store, token, position, out, sequence).1, capacity)
  {
    if SlotMatches(position, out, sequence) {
      var at := D.At(position, out, sequence[..position + 1]);
      TotalLayers(m, sh, store, m.embed(token).value, 0, at, capacity);
    }
  }

  /** Every token's output slot is the one its position names. */
  ghost predicate AllMatch(start: nat, outs: seq<nat>, sequence: seq<nat>) {
    forall k: nat :: k < |outs| ==> SlotMatches(start + k, outs[k], sequence)
  }

  /** Where the rows come from after a chunk, as far as its slots match. */
  ghost function MatchedOrigin(origin: Origin, tokens: seq<nat>, start: nat, outs: seq<nat>, sequence: seq<nat>): Origin
    requires |outs| == |tokens|
    decreases |tokens|
  {
    if tokens == [] || !SlotMatches(start, outs[0], sequence) then origin else
    var marked := Marked(origin, outs[0], PathAt(origin, sequence, start, tokens[0]));
    MatchedOrigin(marked, tokens[1..], start + 1, outs[1..], sequence)
  }

  /** Such a decoder accepts a chunk exactly when all its slots match; all of them leave the same record. */
  lemma {:induction false} TotalChunk(m: D.Decoder, sh: D.Shape, store: Store, origin: Origin, tokens: seq<nat>,
                                      start: nat, outs: seq<nat>, sequence: seq<nat>, capacity: nat)
    requires Total(m, sh, capacity) && Shaped(m, store, capacity) && Within(sequence, capacity) && |outs| == |tokens|
    ensures Chunk(m, sh, store, tokens, start, outs, sequence).0.Ok?
       <==> tokens != [] && AllMatch(start, outs, sequence)
    ensures ChunkOrigin(m, sh, store, origin, tokens, start, outs, sequence)
         == MatchedOrigin(origin, tokens, start, outs, sequence)
    ensures Shaped(m, Chunk(m, sh, store, tokens, start, outs, sequence).1, capacity)
    decreases |tokens|
  {
    if tokens != [] {
      TotalToken(m, sh, store, tokens[0], start, outs[0], sequence, capacity);
      MatchFirst(start, outs, sequence);
      var (r, next) := D.ForwardToken(m, sh, store, tokens[0], start, outs[0], sequence);
      if r.Ok? && |tokens| > 1 {
        var marked := Marked(origin, outs[0], PathAt(origin, sequence, start, tokens[0]));
        TotalChunk(m, sh, next, marked, tokens[1..], start + 1, outs[1..], sequence, capacity);
        TotalChunkGoesOn(m, sh, store, origin, tokens, start, outs, sequence);
      } else {
        TotalChunkEnds(m, sh, store, origin, tokens, start, outs, sequence);
      }
    }
  }

  lemma TotalChunkGoesOn(m: D.Decoder, sh: D.Shape, store: Store, origin: Origin, tokens: seq<nat>, start: nat,
                         outs: seq<nat>, sequence: seq<nat>)
    requires |outs| == |tokens| > 1 && SlotMatches(start, outs[0], sequence)
    requires D.ForwardToken(m, sh, store, tokens[0], start, outs[0], sequence).0.Ok?
    ensures var next := D.ForwardToken(m, sh, store, tokens[0], start, outs[0], sequence).1;
            var marked := Marked(origin, outs[0], PathAt(origin, sequence, start, tokens[0]));
            && Chunk(m, sh, store, tokens, start, outs, sequence)
               == Chunk(m, sh, next, tokens[1..], start + 1, outs[1..], sequence)
            && ChunkOrigin(m, sh, store, origin, tokens, start, outs, sequence)
               == ChunkOrigin(m, sh, next, marked, tokens[1..], start + 1, outs[1..], sequence)
            && MatchedOrigin(origin, tokens, start, outs, sequence)
               == MatchedOrigin(marked, tokens[1..], start + 1, outs[1..], sequence)
  {
    D.ChunkUnfolds(m, sh, store, start, tokens, outs, sequence);
  }

  lemma MatchFirst(start: nat, outs: seq<nat>, sequence: seq<nat>)
    requires outs != []
    ensures AllMatch(start, outs, sequence)
       <==> SlotMatches(start, outs[0], sequence) && AllMatch(start + 1, outs[1..], sequence)
  {
    if SlotMatches(start, outs[0], sequence) && AllMatch(start + 1, outs[1..], sequence) {
      forall k: nat | k < |outs|
        ensures SlotMatches(start + k, outs[k], sequence)
      {
        assert k > 0 ==> SlotMatches(start + 1 + (k - 1), outs[1..][k - 1], sequence);
      }
    }
    if AllMatch(start, outs, sequence) {
      assert SlotMatches(start + 0, outs[0], sequence);
      forall k: nat | k < |outs[1..]|
        ensures SlotMatches(start + 1 + k, outs[1..][k], sequence)
      {
        assert SlotMatches(start + (k + 1), outs[k + 1], sequence);
      }
    }
  }

  lemma TotalChunkEnds(m: D.Decoder, sh: D.Shape, store: Store, origin: Origin, tokens: seq<nat>, start: nat,
                       outs: seq<nat>, sequence: seq<nat>)
    requires |outs| == |tokens| > 0
    requires var r := D.ForwardToken(m, sh, store, tokens[0], start, outs[0], sequence).0;
             (r.Ok? <==> SlotMatches(start, outs[0], sequence)) && (r.Err? || |tokens| == 1)
    ensures Chunk(m, sh, store, tokens, start, outs, sequence)
         == D.ForwardToken(m, sh, store, tokens[0], start, outs[0], sequence)
    ensures ChunkOrigin(m, sh, store, origin, tokens, start, outs, sequence)
         == MatchedOrigin(origin, tokens, start, outs, sequence)
  {
  }

  // ---------- probes ----------

  const ZERO: F32 := F32(0, 0, 0, 0)
  const ONE: F32 := F32(1, 0, 0, 0)

  function Bit(b: bool): F32 {
    if b then ONE else ZERO
  }

  /** The chain of positions a probe reads, and the token and position it looks for at the end of the chain. */
  datatype Aim = Aim(chain: seq<nat>, want: nat, at: nat)

  /** One-word values: the first layer marks the token wanted, every layer hands on the value at its chain position. */
  function Probe(a: Aim, positions: nat): D.Decoder {
    D.Decoder(|a.chain|, positions,
              (t: nat) => Some([Bit(t == a.want)]),
              (l: nat, h: Vec, p: nat) => Some(D.Projection([], [], [if l == 0 && p != a.at then ZERO else Head(h)])),
              (l: nat, q: Vec, k: Vec, v: Vec, n: nat) =>
                Some([if l < |a.chain| && a.chain[l] + 1 < |v| then v[a.chain[l]] else ZERO]),
              (h: Vec, x: Vec) => Some(x),
              (l: nat, h: Vec) => Some(h),
              (v: Vec) => Some(v))
  }

  function Head(v: Vec): F32 {
    if v == [] then ZERO else v[0]
  }

  const WIDTHS := D.Shape(0, 1)

  lemma ProbeTotal(a: Aim, capacity: nat)
    requires capacity <= USIZE_MAX
    ensures Total(Probe(a, capacity), WIDTHS, capacity)
  {
  }

  /** The store of a probe: one word per slot and layer. */
  ghost predicate Thin(a: Aim, store: Store, capacity: nat) {
    forall l, x :: 0 <= l < |a.chain| && 0 <= x < capacity ==> InStore(store, l, x) && |store[l][x].value| == 1
  }

  function Blank(layers: nat, capacity: nat): Store {
    seq(layers, l => seq(capacity, x => Entry([], [ZERO])))
  }

  lemma BlankThin(a: Aim, capacity: nat)
    ensures Thin(a, Blank(|a.chain|, capacity), capacity)
  {
  }

  // ---------- one token on a probe ----------

  /** The word a store holds for a slot in a layer. */
  ghost function Word(store: Store, l: nat, x: nat): F32 {
    if InStore(store, l, x) then Head(store[l][x].value) else ZERO
  }

  lemma {:induction false} ValuesAt(store: Store, layer: nat, slots: seq<nat>, k: nat)
    requires forall i :: 0 <= i < |slots| ==> InStore(store, layer, slots[i]) && |store[layer][slots[i]].value| == 1
    requires k < |slots|
    ensures |Values(store, layer, slots)| == |slots| && Values(store, layer, slots)[k] == Word(store, layer, slots[k])
  {
    var n := |slots| - 1;
    if n > 0 {
      ValuesAt(store, layer, slots[..n], if k < n then k else 0);
    }
  }

  ghost predicate LastIsOut(at: D.At, capacity: nat) {
    && AtWithin(at, capacity) && NoDup(at.slots)
    && at.position + 1 == |at.slots| && at.slots[at.position] == at.slot
  }

  /** The word handed on by a layer: the one at its chain position, if that lies before the token. */
  ghost function Handed(a: Aim, store: Store, layer: nat, position: nat, slots: seq<nat>): F32 {
    if layer < |a.chain| && a.chain[layer] < position && a.chain[layer] < |slots|
    then Word(store, layer, slots[a.chain[layer]]) else ZERO
  }

  /** A layer writes the hidden word, and hands on the word at its chain position. */
  ghost predicate LayerDone(a: Aim, before: Store, hidden: Vec, layer: nat, at: D.At, handed: Vec, after: Store) {
    && Word(after, layer, at.slot) == (if layer == 0 && at.position != a.at then ZERO else Head(hidden))
    && (forall l: nat, x: nat :: (l, x) != (layer, at.slot) ==> Word(after, l, x) == Word(before, l, x))
    && handed == [Handed(a, before, layer, at.position, at.slots)]
  }

  lemma ProbeLayer(a: Aim, capacity: nat, store: Store, hidden: Vec, layer: nat, at: D.At)
    requires capacity <= USIZE_MAX && Thin(a, store, capacity) && LastIsOut(at, capacity) && layer < |a.chain|
    ensures var (r, next) := D.ForwardLayer(Probe(a, capacity), WIDTHS, store, hidden, layer, at);
            r.Ok? && Thin(a, next, capacity) && LayerDone(a, store, hidden, layer, at, r.value, next)
  {
    var m := Probe(a, capacity);
    ProbeTotal(a, capacity);
    assert Shaped(m, store, capacity);
    TotalLayer(m, WIDTHS, store, hidden, layer, at, capacity);
    var p := m.project(layer, hidden, at.position).value;
    assert InStore(store, layer, at.slot);
    var next := Put(store, layer, at.slot, Entry(p.key, p.value));
    assert Thin(a, next, capacity);
    ValuesAt(next, layer, at.slots, if a.chain[layer] < at.position then a.chain[layer] else 0);
    if a.chain[layer] < at.position {
      assert at.slots[a.chain[layer]] != at.slot;
    }
  }

  /** What the layers from one on leave: lower rows as they were, higher rows the words read one layer below. */
  ghost predicate LayersDone(a: Aim, before: Store, hidden: Vec, layer: nat, at: D.At, handed: Vec, after: Store) {
    && (forall l: nat, x: nat :: l < layer || x != at.slot ==> Word(after, l, x) == Word(before, l, x))
    && (layer < |a.chain| ==>
          Word(after, layer, at.slot) == if layer == 0 && at.position != a.at then ZERO else Head(hidden))
    && (forall l: nat :: layer <= l < |a.chain| - 1 ==>
          Word(after, l + 1, at.slot) == Handed(a, before, l, at.position, at.slots))
    && (layer == |a.chain| ==> handed == hidden)
    && (layer < |a.chain| ==> handed == [Handed(a, before, |a.chain| - 1, at.position, at.slots)])
  }

  lemma LayersGoOn(a: Aim, capacity: nat, before: Store, hidden: Vec, layer: nat, at: D.At, handed: Vec, mid: Store,
                   last: Vec, after: Store)
    requires LastIsOut(at, capacity) && layer < |a.chain| && LayerDone(a, before, hidden, layer, at, handed, mid)
    requires LayersDone(a, mid, handed, layer + 1, at, last, after)
    ensures LayersDone(a, before, hidden, layer, at, last, after)
  {
    forall l: nat | l > layer
      ensures Handed(a, mid, l, at.position, at.slots) == Handed(a, before, l, at.position, at.slots)
    {
    }
  }

  lemma {:induction false} ProbeLayers(a: Aim, capacity: nat, store: Store, hidden: Vec, layer: nat, at: D.At)
    requires capacity <= USIZE_MAX && Thin(a, store, capacity) && LastIsOut(at, capacity) && layer <= |a.chain|
    ensures var (r, next) := D.ForwardLayers(Probe(a, capacity), WIDTHS, store, hidden, layer, at);
            r.Ok? && Thin(a, next, capacity) && LayersDone(a, store, hidden, layer, at, r.value, next)
    decreases |a.chain| - layer
  {
    if layer < |a.chain| {
      ProbeLayer(a, capacity, store, hidden, layer, at);
      var (r, next) := D.ForwardLayer(Probe(a, capacity), WIDTHS, store, hidden, layer, at);
      ProbeLayers(a, capacity, next, r.value, layer + 1, at);
      var (last, after) := D.ForwardLayers(Probe(a, capacity), WIDTHS, next, r.value, layer + 1, at);
      LayersGoOn(a, capacity, store, hidden, layer, at, r.value, next, last.value, after);
    }
  }

  /** A token step of a probe: its own slot gets the marks, all others stay. */
  ghost predicate Marks(a: Aim, before: Store, after: Store, token: nat, position: nat, out: nat, sequence: seq<nat>) {
    && (forall l: nat, x: nat :: x != out ==> Word(after, l, x) == Word(before, l, x))
    && (a.chain != [] ==> Word(after, 0, out) == if position != a.at then ZERO else Bit(token == a.want))
    && (forall l: nat :: l < |a.chain| - 1 ==> Word(after, l + 1, out) == Handed(a, before, l, position, sequence))
  }

  lemma ProbeToken(a: Aim, capacity: nat, store: Store, token: nat, position: nat, out: nat, sequence: seq<nat>)
    requires capacity <= USIZE_MAX && Thin(a, store, capacity) && Within(sequence, capacity) && NoDup(sequence)
    ensures var (r, next) := D.ForwardToken(Probe(a, capacity), WIDTHS, store, token, position, out, sequence);
            && Thin(a, next, capacity) && (r.Ok? <==> SlotMatches(position, out, sequence))
            && (r.Err? ==> next == store)
            && (r.Ok? ==> Marks(a, store, next, token, position, out, sequence))
            && (r.Ok? && a.chain == [] ==> r.value == [Bit(token == a.want)])
            && (r.Ok? && a.chain != [] ==> r.value == [Handed(a, store, |a.chain| - 1, position, sequence)])
  {
    var m := Probe(a, capacity);
    ProbeTotal(a, capacity);
    assert Shaped(m, store, capacity);
    TotalToken(m, WIDTHS, store, token, position, out, sequence, capacity);
    if SlotMatches(position, out, sequence) {
      var at := D.At(position, out, sequence[..position + 1]);
      ProbeLayers(a, capacity, store, [Bit(token == a.want)], 0, at);
      forall l: nat
        ensures Handed(a, store, l, position, at.slots) == Handed(a, store, l, position, sequence)
      {
      }
    }
  }

  // ---------- what a probe computes for a path ----------

  /** The word of a probe's own row. */
  function OwnWord(a: Aim, path: seq<nat>, l: nat, i: nat): F32
    requires i < |path|
    decreases l
  {
    if l == 0 then (if i != a.at then ZERO else Bit(path[i] == a.want))
    else if l - 1 < |a.chain| && a.chain[l - 1] < i then OwnWord(a, path, l - 1, a.chain[l - 1])
    else ZERO
  }

  lemma {:induction false} OwnHidden(a: Aim, positions: nat, path: seq<nat>, l: nat, i: nat)
    requires i < |path| && 0 < l <= |a.chain|
    ensures D.Hidden(Probe(a, positions), path, l, i) == Some([OwnWord(a, path, l, i)])
    decreases l, 0
  {
    var m := Probe(a, positions);
    OwnRows(a, positions, path, l - 1, i + 1);
    OwnRow(a, positions, path, l - 1, i);
  }

  lemma {:induction false} OwnRow(a: Aim, positions: nat, path: seq<nat>, l: nat, i: nat)
    requires i < |path| && l < |a.chain|
    ensures D.Hidden(Probe(a, positions), path, l, i).Some?
    ensures D.RowAt(Probe(a, positions), path, l, i) == Some(Entry([], [OwnWord(a, path, l, i)]))
    decreases l, 1
  {
    var m, word := Probe(a, positions), OwnWord(a, path, l, i);
    if l > 0 {
      OwnHidden(a, positions, path, l, i);
      assert Head([word]) == word;
      assert m.project(l, [word], i) == Some(D.Projection([], [], [word]));
    } else {
      assert Head([Bit(path[i] == a.want)]) == Bit(path[i] == a.want);
      assert m.project(0, [Bit(path[i] == a.want)], i) == Some(D.Projection([], [], [word]));
    }
  }

  lemma OwnRows(a: Aim, positions: nat, path: seq<nat>, l: nat, n: nat)
    requires n <= |path| && l < |a.chain|
    ensures var rows := D.Rows(Probe(a, positions), path, l, n);
            && rows.Some? && |D.ConcatValues(rows.value)| == n
            && forall k: nat :: k < n ==> D.ConcatValues(rows.value)[k] == OwnWord(a, path, l, k)
    decreases l, 2
  {
    var words := seq(n, k requires 0 <= k < n => OwnWord(a, path, l, k));
    forall k: nat | k < n
      ensures RowIsWord(Probe(a, positions), path, l, words, k)
    {
      OwnRow(a, positions, path, l, k);
    }
    RowsOfWords(Probe(a, positions), path, l, words, n);
    assert words[..n] == words;
    WordsOfEntries(words);
  }

  ghost predicate RowIsWord(m: D.Decoder, path: seq<nat>, l: nat, words: Vec, k: nat) {
    k < |words| && k < |path| && D.RowAt(m, path, l, k) == Some(Entry([], [words[k]]))
  }

  function Entries(words: Vec): seq<Entry> {
    seq(|words|, k requires 0 <= k < |words| => Entry([], [words[k]]))
  }

  lemma {:induction false} RowsOfWords(m: D.Decoder, path: seq<nat>, l: nat, words: Vec, n: nat)
    requires n <= |path| && n <= |words| && forall k: nat :: k < n ==> RowIsWord(m, path, l, words, k)
    ensures D.Rows(m, path, l, n) == Some(Entries(words[..n]))
  {
    if n > 0 {
      RowsOfWords(m, path, l, words, n - 1);
      var row := Entry([], [words[n - 1]]);
      assert RowIsWord(m, path, l, words, n - 1) && D.RowAt(m, path, l, n - 1) == Some(row);
      assert D.Rows(m, path, l, n) == Some(Entries(words[..n - 1]) + [row]);
      assert Entries(words[..n]) == Entries(words[..n - 1]) + [row];
    } else {
      assert Entries(words[..0]) == [];
    }
  }

  lemma {:induction false} WordsOfEntries(words: Vec)
    ensures D.ConcatValues(Entries(words)) == words
  {
    if words != [] {
      var n := |words| - 1;
      WordsOfEntries(words[..n]);
      assert Entries(words)[..n] == Entries(words[..n]);
      assert words == words[..n] + [words[n]];
    }
  }

  lemma OwnLogits(a: Aim, positions: nat, path: seq<nat>)
    requires path != []
    ensures a.chain == [] ==> D.Logits(Probe(a, positions), path) == Some([Bit(path[|path| - 1] == a.want)])
    ensures a.chain != [] ==>
              D.Logits(Probe(a, positions), path) == Some([OwnWord(a, path, |a.chain|, |path| - 1)])
  {
    if a.chain != [] {
      OwnHidden(a, positions, path, |a.chain|, |path| - 1);
    }
  }

  /** Rows of a layer depend only on the chain below it and on the tokens up to theirs. */
  lemma {:induction false} OwnWordSame(a: Aim, b: Aim, path: seq<nat>, q: seq<nat>, l: nat, i: nat)
    requires a.want == b.want && a.at == b.at && l <= |a.chain| && l <= |b.chain| && a.chain[..l] == b.chain[..l]
    requires i < |path| && i < |q| && path[..i + 1] == q[..i + 1]
    ensures OwnWord(a, path, l, i) == OwnWord(b, q, l, i)
    decreases l
  {
    assert path[i] == path[..i + 1][i] && q[i] == q[..i + 1][i];
    if l > 0 {
      var k := a.chain[l - 1];
      assert k == a.chain[..l][l - 1] == b.chain[..l][l - 1];
      if k < i {
        assert a.chain[..l - 1] == a.chain[..l][..l - 1] && b.chain[..l - 1] == b.chain[..l][..l - 1];
        assert path[..k + 1] == path[..i + 1][..k + 1] && q[..k + 1] == q[..i + 1][..k + 1];
        OwnWordSame(a, b, path, q, l - 1, k);
      }
    }
  }

  // ---------- families of probes ----------

  /** The stores of all probes at one time: every probe has seen the same passes. */
  type Family = Aim -> Store

  ghost predicate AllThin(f: Family, capacity: nat) {
    forall a :: Thin(a, f(a), capacity)
  }

  ghost predicate SameBelow(a: Aim, b: Aim, n: nat) {
    && a.want == b.want && a.at == b.at && n < |a.chain| && n < |b.chain| && a.chain[..n] == b.chain[..n]
  }

  /** Probes with a common chain agree on the layers it reaches. */
  ghost predicate Agreeing(f: Family) {
    forall a, b, n: nat, x: nat :: SameBelow(a, b, n) ==> Word(f(a), n, x) == Word(f(b), n, x)
  }

  function Longer(a: Aim, k: nat): Aim {
    Aim(a.chain + [k], a.want, a.at)
  }

  /** The probe's own row of the path carries the mark, the slot's row does not. */
  ghost predicate Shows(f: Family, a: Aim, x: nat, path: seq<nat>) {
    path != [] && Word(f(Longer(a, 0)), |a.chain|, x) == ZERO && OwnWord(a, path, |a.chain|, |path| - 1) == ONE
  }

  /** Whatever is not recorded is seen by some probe. */
  ghost predicate Reveals(f: Family, origin: Origin, capacity: nat) {
    forall x: nat, path: seq<nat> :: x < capacity && path != [] && !Roots(origin, x, path) ==>
      exists a :: Shows(f, a, x, path)
  }

  ghost function TokenFamily(f: Family, capacity: nat, token: nat, position: nat, out: nat,
                             sequence: seq<nat>): Family {
    a => D.ForwardToken(Probe(a, capacity), WIDTHS, f(a), token, position, out, sequence).1
  }

  lemma TokenThin(f: Family, capacity: nat, token: nat, position: nat, out: nat, sequence: seq<nat>)
    requires capacity <= USIZE_MAX && AllThin(f, capacity) && Within(sequence, capacity) && NoDup(sequence)
    ensures AllThin(TokenFamily(f, capacity, token, position, out, sequence), capacity)
    ensures SlotMatches(position, out, sequence) ==>
              Marked1(f, TokenFamily(f, capacity, token, position, out, sequence), token, position, out, sequence)
    ensures !SlotMatches(position, out, sequence) ==>
              forall a :: TokenFamily(f, capacity, token, position, out, sequence)(a) == f(a)
  {
    var g := TokenFamily(f, capacity, token, position, out, sequence);
    forall a
      ensures Thin(a, g(a), capacity)
      ensures if SlotMatches(position, out, sequence) then Marks(a, f(a), g(a), token, position, out, sequence)
              else g(a) == f(a)
    {
      ProbeToken(a, capacity, f(a), token, position, out, sequence);
    }
  }

  /** The probes of the family after a token was computed into the slot. */
  ghost predicate Marked1(f: Family, g: Family, token: nat, position: nat, out: nat, sequence: seq<nat>) {
    forall a :: Marks(a, f(a), g(a), token, position, out, sequence)
  }

  lemma MarksAgree(f: Family, g: Family, token: nat, position: nat, out: nat, sequence: seq<nat>)
    requires Agreeing(f) && Marked1(f, g, token, position, out, sequence)
    ensures Agreeing(g)
  {
    forall a, b, n: nat, x: nat | SameBelow(a, b, n)
      ensures Word(g(a), n, x) == Word(g(b), n, x)
    {
      assert Marks(a, f(a), g(a), token, position, out, sequence);
      assert Marks(b, f(b), g(b), token, position, out, sequence);
      if x == out && n > 0 {
        assert a.chain[n - 1] == a.chain[..n][n - 1] == b.chain[..n][n - 1] == b.chain[n - 1];
        assert a.chain[..n - 1] == a.chain[..n][..n - 1] && b.chain[..n - 1] == b.chain[..n][..n - 1];
        assert SameBelow(a, b, n - 1);
        assert Word(g(a), n - 1 + 1, out) == Handed(a, f(a), n - 1, position, sequence);
        assert Word(g(b), n - 1 + 1, out) == Handed(b, f(b), n - 1, position, sequence);
      }
    }
  }

  /** A slot that was not written shows what it showed before. */
  lemma ShowsElsewhere(f: Family, g: Family, token: nat, position: nat, out: nat, sequence: seq<nat>, a: Aim, x: nat,
                       path: seq<nat>)
    requires Marked1(f, g, token, position, out, sequence) && x != out && Shows(f, a, x, path)
    ensures Shows(g, a, x, path)
  {
    var b := Longer(a, 0);
    assert Marks(b, f(b), g(b), token, position, out, sequence);
  }

  /** Another token, or another position, is seen in the first layer. */
  lemma ShowsOtherToken(f: Family, g: Family, token: nat, position: nat, out: nat, sequence: seq<nat>, path: seq<nat>)
    requires Marked1(f, g, token, position, out, sequence) && path != []
    requires |path| != position + 1 || path[|path| - 1] != token
    ensures exists a :: Shows(g, a, out, path)
  {
    var a := Aim([], path[|path| - 1], |path| - 1);
    var b := Longer(a, 0);
    assert Marks(b, f(b), g(b), token, position, out, sequence);
    assert Shows(g, a, out, path);
  }

  /** A row before it that is not the path's is seen one layer further up. */
  lemma ShowsContext(f: Family, g: Family, token: nat, position: nat, out: nat, sequence: seq<nat>, path: seq<nat>,
                     a: Aim, k: nat)
    requires Agreeing(f) && Marked1(f, g, token, position, out, sequence)
    requires |path| == position + 1 && k < position < |sequence| && Shows(f, a, sequence[k], path[..k + 1])
    ensures Shows(g, Longer(a, k), out, path)
  {
    var n, c := |a.chain|, Longer(a, k);
    var b, old_ := Longer(c, 0), Longer(a, 0);
    assert Marks(b, f(b), g(b), token, position, out, sequence);
    assert b.chain[n] == k && b.chain[..n] == a.chain == old_.chain[..n];
    assert SameBelow(b, old_, n);
    assert Word(g(b), n + 1, out) == Handed(b, f(b), n, position, sequence) == Word(f(b), n, sequence[k]);
    assert Word(f(b), n, sequence[k]) == Word(f(old_), n, sequence[k]) == ZERO;
    assert c.chain[..n] == a.chain[..n] && c.chain[n] == k;
    assert path[..k + 1][..k + 1] == path[..k + 1];
    OwnWordSame(c, a, path, path[..k + 1], n, k);
    assert OwnWord(c, path, n + 1, position) == OwnWord(c, path, n, k);
  }

  /** After a token, whatever is not recorded is still seen. */
  lemma MarksReveal(f: Family, g: Family, origin: Origin, capacity: nat, token: nat, position: nat, out: nat,
                    sequence: seq<nat>)
    requires Agreeing(f) && Reveals(f, origin, capacity) && Marked1(f, g, token, position, out, sequence)
    requires Within(sequence, capacity) && SlotMatches(position, out, sequence)
    ensures Reveals(g, Marked(origin, out, PathAt(origin, sequence, position, token)), capacity)
  {
    var after := Marked(origin, out, PathAt(origin, sequence, position, token));
    forall x: nat, path: seq<nat> | x < capacity && path != [] && !Roots(after, x, path)
      ensures exists a :: Shows(g, a, x, path)
    {
      if x != out {
        assert !Roots(origin, x, path);
        var a := Revealed(f, origin, capacity, x, path);
        ShowsElsewhere(f, g, token, position, out, sequence, a, x, path);
      } else {
        OutRevealed(f, g, origin, capacity, token, position, out, sequence, path);
      }
    }
  }

  lemma OutRevealed(f: Family, g: Family, origin: Origin, capacity: nat, token: nat, position: nat, out: nat,
                    sequence: seq<nat>, path: seq<nat>)
    requires Agreeing(f) && Reveals(f, origin, capacity) && Marked1(f, g, token, position, out, sequence)
    requires Within(sequence, capacity) && SlotMatches(position, out, sequence)
    requires path != [] && !Roots(Marked(origin, out, PathAt(origin, sequence, position, token)), out, path)
    ensures exists a :: Shows(g, a, out, path)
  {
    if |path| != position + 1 || path[|path| - 1] != token {
      ShowsOtherToken(f, g, token, position, out, sequence, path);
    } else {
      var k := ForeignRow(origin, token, position, out, sequence, path);
      var a := Revealed(f, origin, capacity, sequence[k], path[..k + 1]);
      ShowsContext(f, g, token, position, out, sequence, path, a, k);
    }
  }

  lemma Revealed(f: Family, origin: Origin, capacity: nat, x: nat, path: seq<nat>) returns (a: Aim)
    requires Reveals(f, origin, capacity) && x < capacity && path != [] && !Roots(origin, x, path)
    ensures Shows(f, a, x, path)
  {
    a :| Shows(f, a, x, path);
  }

  /** A path that ends in the token and is not the one recorded differs in the row of an earlier position. */
  lemma ForeignRow(origin: Origin, token: nat, position: nat, out: nat, sequence: seq<nat>, path: seq<nat>)
    returns (k: nat)
    requires SlotMatches(position, out, sequence) && |path| == position + 1 && path[position] == token
    requires !Roots(Marked(origin, out, PathAt(origin, sequence, position, token)), out, path)
    ensures k < position && !Roots(origin, sequence[k], path[..k + 1])
  {
    assert path[..position] + [token] == path;
    if Rooted(origin, path, sequence, position) {
      PathOfRooted(origin, path, sequence, position, token);
      assert false;
    }
    k :| 0 <= k < position && !Roots(origin, sequence[k], path[..k + 1]);
  }

  ghost predicate Following(f: Family, origin: Origin, capacity: nat) {
    AllThin(f, capacity) && Agreeing(f) && Reveals(f, origin, capacity)
  }

  ghost function ChunkFamily(f: Family, capacity: nat, tokens: seq<nat>, start: nat, outs: seq<nat>,
                             sequence: seq<nat>): Family
    requires |outs| == |tokens|
  {
    a => Chunk(Probe(a, capacity), WIDTHS, f(a), tokens, start, outs, sequence).1
  }

  /** A chunk keeps the family in step with the record. */
  lemma {:induction false} ChunkFollows(f: Family, origin: Origin, capacity: nat, tokens: seq<nat>, start: nat,
                                        outs: seq<nat>, sequence: seq<nat>, g: Family)
    requires capacity <= USIZE_MAX && Following(f, origin, capacity) && Within(sequence, capacity) && NoDup(sequence)
    requires |outs| == |tokens| && forall a :: g(a) == ChunkFamily(f, capacity, tokens, start, outs, sequence)(a)
    ensures Following(g, MatchedOrigin(origin, tokens, start, outs, sequence), capacity)
    decreases |tokens|
  {
    if tokens == [] {
      SameFamily(f, g, origin, capacity);
    } else {
      var t := TokenFamily(f, capacity, tokens[0], start, outs[0], sequence);
      TokenThin(f, capacity, tokens[0], start, outs[0], sequence);
      if SlotMatches(start, outs[0], sequence) {
        var marked := Marked(origin, outs[0], PathAt(origin, sequence, start, tokens[0]));
        MarksAgree(f, t, tokens[0], start, outs[0], sequence);
        MarksReveal(f, t, origin, capacity, tokens[0], start, outs[0], sequence);
        FamilyGoesOn(f, capacity, tokens, start, outs, sequence, g);
        ChunkFollows(t, marked, capacity, tokens[1..], start + 1, outs[1..], sequence, g);
      } else {
        FamilyStops(f, capacity, tokens, start, outs, sequence, g);
        SameFamily(f, g, origin, capacity);
      }
    }
  }

  lemma SameFamily(f: Family, g: Family, origin: Origin, capacity: nat)
    requires Following(f, origin, capacity) && forall a :: g(a) == f(a)
    ensures Following(g, origin, capacity)
  {
    forall x: nat, path: seq<nat> | x < capacity && path != [] && !Roots(origin, x, path)
      ensures exists a :: Shows(g, a, x, path)
    {
      var a :| Shows(f, a, x, path);
      assert Shows(g, a, x, path);
    }
  }

  lemma FamilyGoesOn(f: Family, capacity: nat, tokens: seq<nat>, start: nat, outs: seq<nat>, sequence: seq<nat>,
                     g: Family)
    requires capacity <= USIZE_MAX && AllThin(f, capacity) && Within(sequence, capacity) && NoDup(sequence)
    requires |outs| == |tokens| > 0 && SlotMatches(start, outs[0], sequence)
    requires forall a :: g(a) == ChunkFamily(f, capacity, tokens, start, outs, sequence)(a)
    ensures var t := TokenFamily(f, capacity, tokens[0], start, outs[0], sequence);
            forall a :: g(a) == ChunkFamily(t, capacity, tokens[1..], start + 1, outs[1..], sequence)(a)
  {
    var t := TokenFamily(f, capacity, tokens[0], start, outs[0], sequence);
    forall a
      ensures g(a) == ChunkFamily(t, capacity, tokens[1..], start + 1, outs[1..], sequence)(a)
    {
      ProbeToken(a, capacity, f(a), tokens[0], start, outs[0], sequence);
      ChunkRest(Probe(a, capacity), f(a), tokens, start, outs, sequence);
    }
  }

  lemma ChunkRest(m: D.Decoder, store: Store, tokens: seq<nat>, start: nat, outs: seq<nat>, sequence: seq<nat>)
    requires |outs| == |tokens| > 0 && D.ForwardToken(m, WIDTHS, store, tokens[0], start, outs[0], sequence).0.Ok?
    ensures var next := D.ForwardToken(m, WIDTHS, store, tokens[0], start, outs[0], sequence).1;
            Chunk(m, WIDTHS, store, tokens, start, outs, sequence).1
            == Chunk(m, WIDTHS, next, tokens[1..], start + 1, outs[1..], sequence).1
  {
    if |tokens| > 1 {
      D.ChunkUnfolds(m, WIDTHS, store, start, tokens, outs, sequence);
    } else {
      assert tokens[1..] == [];
    }
  }

  lemma FamilyStops(f: Family, capacity: nat, tokens: seq<nat>, start: nat, outs: seq<nat>, sequence: seq<nat>,
                    g: Family)
    requires capacity <= USIZE_MAX && AllThin(f, capacity) && Within(sequence, capacity) && NoDup(sequence)
    requires |outs| == |tokens| > 0 && !SlotMatches(start, outs[0], sequence)
    requires forall a :: g(a) == ChunkFamily(f, capacity, tokens, start, outs, sequence)(a)
    ensures forall a :: g(a) == f(a)
  {
    forall a
      ensures g(a) == f(a)
    {
      ProbeToken(a, capacity, f(a), tokens[0], start, outs[0], sequence);
    }
  }

  /** At first nothing is recorded, and every probe's store is blank. */
  lemma BlankFollows(f: Family, capacity: nat)
    requires forall a :: f(a) == Blank(|a.chain|, capacity)
    ensures Following(f, map[], capacity)
  {
    forall a
      ensures Thin(a, f(a), capacity)
    {
      BlankThin(a, capacity);
    }
    forall x: nat, path: seq<nat> | x < capacity && path != [] && !Roots(map[], x, path)
      ensures exists a :: Shows(f, a, x, path)
    {
      var a := Aim([], path[|path| - 1], |path| - 1);
      assert f(Longer(a, 0)) == Blank(1, capacity);
      assert Shows(f, a, x, path);
    }
  }
}
