/**
 * What the recomputed logits are (`cpu_reference.rs`): a decoder that records its arguments spells out the whole
 * computation, and a decoder whose blocks add nothing passes the embedding on.
 */
module DecoderMeaning {
  import opened Basics
  import opened KvStorage
  import D = CachedDecode

  // ---------- the recorder ----------

  const EMBED: Byte := 1
  const QUERY: Byte := 2
  const KEY: Byte := 3
  const VALUE: Byte := 4
  const ATTEND: Byte := 5
  const ADD: Byte := 6
  const FEED: Byte := 7
  const HEAD: Byte := 8

  function Mark(kind: Byte): Vec {
    [F32(kind, 0, 0, 0)]
  }

  /** As many strokes, and an end. */
  function Number(n: nat): Vec {
    seq(n, k => F32(255, 0, 0, 0)) + [F32(0, 0, 0, 0)]
  }

  /** A projection of a hidden state at a position. */
  function Projected(kind: Byte, layer: nat, position: nat, hidden: Vec): Vec {
    Mark(kind) + Number(layer) + Number(position) + hidden
  }

  /** Every part writes down its name and its arguments. */
  function Recorder(layers: nat, positions: nat): D.Decoder {
    D.Decoder(layers, positions,
              (t: nat) => Some(Mark(EMBED) + Number(t)),
              (l: nat, h: Vec, p: nat) =>
                Some(D.Projection(Projected(QUERY, l, p, h), Projected(KEY, l, p, h), Projected(VALUE, l, p, h))),
              (l: nat, q: Vec, k: Vec, v: Vec, n: nat) => Some(Mark(ATTEND) + Number(l) + Number(n) + q + k + v),
              (a: Vec, b: Vec) => Some(Mark(ADD) + a + b),
              (l: nat, h: Vec) => Some(Mark(FEED) + Number(l) + h),
              (h: Vec) => Some(Mark(HEAD) + h))
  }

  /**
   * The state behind so many layers: x + FFN(x) with x = hidden + attention, where the attention is that of the
   * position's query over the keys and values of all positions up to it.
   */
  function HiddenRecord(tokens: seq<nat>, layers: nat, i: nat): Vec
    requires i < |tokens|
    decreases layers, 0
  {
    if layers == 0 then Mark(EMBED) + Number(tokens[i]) else
    var layer := layers - 1;
    var hidden := HiddenRecord(tokens, layer, i);
    var attention := Mark(ATTEND) + Number(layer) + Number(i + 1) + Projected(QUERY, layer, i, hidden)
                     + RowsRecord(KEY, tokens, layer, i + 1) + RowsRecord(VALUE, tokens, layer, i + 1);
    var x := Mark(ADD) + hidden + attention;
    Mark(ADD) + x + (Mark(FEED) + Number(layer) + x)
  }

  /** The keys, or values, of the first n positions, in order. */
  function RowsRecord(kind: Byte, tokens: seq<nat>, layer: nat, n: nat): Vec
    requires n <= |tokens|
    decreases layer, 1 + n
  {
    if n == 0 then []
    else RowsRecord(kind, tokens, layer, n - 1) + Projected(kind, layer, n - 1, HiddenRecord(tokens, layer, n - 1))
  }

  lemma {:induction false} RecordedHidden(layers: nat, positions: nat, tokens: seq<nat>, l: nat, i: nat)
    requires i < |tokens|
    ensures HiddenRecorded(Recorder(layers, positions), tokens, l, i)
    decreases l, 0
  {
    if l > 0 {
      RecordedHidden(layers, positions, tokens, l - 1, i);
      RecordedRows(layers, positions, tokens, l - 1, i + 1);
      LayerGoesOn(layers, positions, tokens, l, i);
    } else {
      EmbeddingRecorded(layers, positions, tokens, i);
    }
  }

  lemma EmbeddingRecorded(layers: nat, positions: nat, tokens: seq<nat>, i: nat)
    requires i < |tokens|
    ensures HiddenRecorded(Recorder(layers, positions), tokens, 0, i)
  {
  }

  ghost predicate HiddenRecorded(m: D.Decoder, tokens: seq<nat>, l: nat, i: nat)
    requires i < |tokens|
  {
    D.Hidden(m, tokens, l, i) == Some(HiddenRecord(tokens, l, i))
  }

  lemma LayerGoesOn(layers: nat, positions: nat, tokens: seq<nat>, l: nat, i: nat)
    requires i < |tokens| && l > 0 && HiddenRecorded(Recorder(layers, positions), tokens, l - 1, i)
    requires RowsRecorded(Recorder(layers, positions), tokens, l - 1, i + 1)
    ensures HiddenRecorded(Recorder(layers, positions), tokens, l, i)
  {
  }

  lemma {:induction false} RecordedRows(layers: nat, positions: nat, tokens: seq<nat>, l: nat, n: nat)
    requires n <= |tokens|
    ensures RowsRecorded(Recorder(layers, positions), tokens, l, n)
    decreases l, 1 + n
  {
    if n > 0 {
      RecordedRows(layers, positions, tokens, l, n - 1);
      RecordedHidden(layers, positions, tokens, l, n - 1);
      RowsGoOn(layers, positions, tokens, l, n - 1);
    }
  }

  ghost predicate RowsRecorded(m: D.Decoder, tokens: seq<nat>, l: nat, n: nat)
    requires n <= |tokens|
  {
    var rows := D.Rows(m, tokens, l, n);
    && rows.Some? && D.ConcatKeys(rows.value) == RowsRecord(KEY, tokens, l, n)
    && D.ConcatValues(rows.value) == RowsRecord(VALUE, tokens, l, n)
  }

  lemma RowsGoOn(layers: nat, positions: nat, tokens: seq<nat>, l: nat, n: nat)
    requires n < |tokens| && RowsRecorded(Recorder(layers, positions), tokens, l, n)
    requires HiddenRecorded(Recorder(layers, positions), tokens, l, n)
    ensures RowsRecorded(Recorder(layers, positions), tokens, l, n + 1)
  {
    var h := HiddenRecord(tokens, l, n);
    D.RowsNext(Recorder(layers, positions), tokens, l, n,
               Entry(Projected(KEY, l, n, h), Projected(VALUE, l, n, h)));
  }

  /** The logits of the recorder spell out the computation, for every depth and every token sequence. */
  lemma LogitsAreRecorded(layers: nat, positions: nat, tokens: seq<nat>)
    requires tokens != []
    ensures D.Logits(Recorder(layers, positions), tokens)
         == Some(Mark(HEAD) + HiddenRecord(tokens, layers, |tokens| - 1))
  {
    RecordedHidden(layers, positions, tokens, layers, |tokens| - 1);
  }

  // ---------- the residual stream ----------

  /** Attention and feed-forward blocks yield `zero`, and adding that changes nothing. */
  ghost predicate Silent(m: D.Decoder, zero: Vec) {
    && (forall l, h, p :: m.project(l, h, p).Some?)
    && (forall l, q, k, v, n :: m.attend(l, q, k, v, n) == Some(zero))
    && (forall l, h :: m.feedForward(l, h) == Some(zero))
    && (forall h :: m.add(h, zero) == Some(h))
  }

  ghost predicate Known(m: D.Decoder, tokens: seq<nat>) {
    forall j :: 0 <= j < |tokens| ==> m.embed(tokens[j]).Some?
  }

  lemma {:induction false} SilentHidden(m: D.Decoder, zero: Vec, tokens: seq<nat>, l: nat, i: nat)
    requires Silent(m, zero) && Known(m, tokens) && i < |tokens|
    ensures D.Hidden(m, tokens, l, i) == m.embed(tokens[i])
    decreases l, 0
  {
    if l > 0 {
      SilentHidden(m, zero, tokens, l - 1, i);
      SilentRows(m, zero, tokens, l - 1, i + 1);
    }
  }

  lemma {:induction false} SilentRows(m: D.Decoder, zero: Vec, tokens: seq<nat>, l: nat, n: nat)
    requires Silent(m, zero) && Known(m, tokens) && n <= |tokens|
    ensures D.Rows(m, tokens, l, n).Some?
    decreases l, 1 + n
  {
    if n > 0 {
      SilentRows(m, zero, tokens, l, n - 1);
      SilentHidden(m, zero, tokens, l, n - 1);
    }
  }

  /** The residual connections carry the embedding of the last token to the head, at any depth. */
  lemma EmbeddingPassesThrough(m: D.Decoder, zero: Vec, tokens: seq<nat>)
    requires Silent(m, zero) && Known(m, tokens) && tokens != []
    ensures D.Logits(m, tokens) == m.head(m.embed(tokens[|tokens| - 1]).value)
  {
    SilentHidden(m, zero, tokens, m.layerCount, |tokens| - 1);
  }
}
