/** The paged online-softmax kernel (`cuda_attention.rs`) against the two-pass CPU reference. */
module PagedAttention {
  import opened Basics
  import opened Sums
  import opened Strides
  import opened Softmax
  import opened CpuShapes
  import Cpu = CpuAttention

  datatype Layout = Layout(pageSize: nat, pageStride: nat, keyOffset: nat, valueOffset: nat, keyRowBytes: nat,
                           valueRowBytes: nat)

  datatype Config = Config(
    requestCount: nat, slotCount: nat, queryHeads: nat, kvHeads: nat,
    keyDim: nat, valueDim: nat, scale: real, layout: Layout)

  const BF16_BYTES := 2

  /** Initial running maximum: the most negative finite `f32`. */
  const LOWEST: real := -340282346600000000000000000000000000000.0

  /** What the plan constructor demands of the shape. */
  ghost predicate Planned(c: Config) {
    && c.layout.pageSize > 0 && 0 < c.kvHeads <= c.queryHeads && c.queryHeads % c.kvHeads == 0 && c.scale > 0.0
    && c.layout.keyRowBytes == c.kvHeads * c.keyDim * BF16_BYTES
    && c.layout.valueRowBytes == c.kvHeads * c.valueDim * BF16_BYTES
  }

  /** The loops over key and value components, which a block's threads count in 32 bits, come to their end. */
  predicate LoopsFit(c: Config, blockDim: nat) {
    StrideFits(c.keyDim, blockDim) && StrideFits(c.valueDim, blockDim)
  }

  /** The device inputs; `pool(a)` is the bf16 stored at byte address a. */
  datatype Inputs = Inputs(
    queries: seq<real>, requestIndices: seq<nat>, sequenceLengths: seq<nat>,
    slotOffsets: seq<nat>, slots: seq<nat>, pool: int -> real)

  /** What one block reports: its output vector, or the error bits it raised. */
  datatype Outcome = Output(vector: seq<real>) | Flagged(bits: nat)

  /** Byte address of the row of a slot: page stride, tensor offset, token offset. */
  function SlotRow(l: Layout, offset: nat, rowBytes: nat, slot: nat): nat
    requires l.pageSize > 0
  {
    PagedAddress(l.pageSize, l.pageStride, offset, rowBytes, slot)
  }

  function KeyAddress(c: Config, kvHead: nat, slot: nat): int
    requires c.layout.pageSize > 0
  {
    SlotRow(c.layout, c.layout.keyOffset, c.layout.keyRowBytes, slot) + kvHead * c.keyDim * BF16_BYTES
  }

  function ValueAddress(c: Config, kvHead: nat, slot: nat): int
    requires c.layout.pageSize > 0
  {
    SlotRow(c.layout, c.layout.valueOffset, c.layout.valueRowBytes, slot) + kvHead * c.valueDim * BF16_BYTES
  }

  function SlotOf(slots: seq<nat>, i: int): nat {
    if 0 <= i < |slots| then slots[i] else 0
  }

  /** Products of the query with the key row of the i-th token of the sequence that starts at `start`. */
  function KeyTerms(c: Config, inp: Inputs, queryOffset: int, kvHead: nat, start: nat): int -> int -> real
    requires c.layout.pageSize > 0
  {
    i => d =>
      At(inp.queries, queryOffset + d) * inp.pool(KeyAddress(c, kvHead, SlotOf(inp.slots, start + i)) + BF16_BYTES * d)
  }

  function ValueRows(c: Config, inp: Inputs, kvHead: nat, start: nat): int -> int -> real
    requires c.layout.pageSize > 0
  {
    i => d => inp.pool(ValueAddress(c, kvHead, SlotOf(inp.slots, start + i)) + BF16_BYTES * d)
  }

  function ScoreOf(terms: int -> int -> real, dim: nat, scale: real): int -> real {
    i => Sum(dim, terms(i)) * scale
  }

  function ColumnOf(rows: int -> int -> real, d: int): int -> real {
    i => rows(i)(d)
  }

  /** Thread 0's metadata check: the error bits, or the sequence start and length. */
  function Metadata(c: Config, inp: Inputs, query: nat): Result<(nat, nat), nat>
    requires query < |inp.requestIndices| && query < |inp.sequenceLengths| && |inp.slotOffsets| == c.requestCount + 1
  {
    var request := inp.requestIndices[query];
    if request >= c.requestCount then Err(1) else
    var start, end, length := inp.slotOffsets[request], inp.slotOffsets[request + 1], inp.sequenceLengths[query];
    if start > end || end > |inp.slots| || length == 0 || length > end - start then Err(2) else Ok((start, length))
  }

  /** The accumulator update of one token: every dimension is rescaled and extended, in any thread order. */
  method UpdateAccumulator(acc: array<real>, rescale: real, weight: real, value: int -> real, blockDim: nat)
    requires 0 < blockDim && StrideFits(acc.Length, blockDim)
    modifies acc
    ensures forall d :: 0 <= d < acc.Length ==> acc[d] == old(acc[d]) * rescale + weight * value(d)
  {
    var pending := Visited(acc.Length, blockDim);
    while pending != {}
      invariant forall d: nat :: d in pending ==> d < acc.Length
      invariant forall d: nat :: d < acc.Length ==>
        acc[d] == if d in pending then old(acc[d]) else old(acc[d]) * rescale + weight * value(d)
      decreases |pending|
    {
      var d :| d in pending;
      acc[d] := acc[d] * rescale + weight * value(d);
      pending := pending - {d};
    }
  }

  /** The running state stands for the weighted sums over the first t tokens, in every dimension. */
  ghost predicate OnlineAll(e: real -> real, t: nat, s: int -> real, rows: int -> int -> real, m: real,
                            denominator: real, acc: seq<real>) {
    && denominator * e(m) == Sum(t, Weight(e, s))
    && forall d :: 0 <= d < |acc| ==> Online(e, t, s, ColumnOf(rows, d), m, denominator, acc[d])
  }

  lemma OnlineStepAll(e: real -> real, t: nat, s: int -> real, rows: int -> int -> real, m: real, denominator: real,
                      before: seq<real>, next: real, after: seq<real>, rescale: real, weight: real)
    requires IsExp(e) && OnlineAll(e, t, s, rows, m, denominator, before) && |after| == |before|
    requires rescale == e(m - next) && weight == e(s(t) - next)
    requires forall d :: 0 <= d < |after| ==> after[d] == before[d] * rescale + weight * rows(t)(d)
    ensures OnlineAll(e, t + 1, s, rows, next, denominator * rescale + weight, after)
  {
    var none := (i: int) => 0.0;
    SumZero(t, Weighted(e, s, none));
    OnlineStep(e, t, s, none, m, denominator, 0.0, next);
    forall d | 0 <= d < |after|
      ensures Online(e, t + 1, s, ColumnOf(rows, d), next, denominator * rescale + weight, after[d])
    {
      OnlineStep(e, t, s, ColumnOf(rows, d), m, denominator, before[d], next);
    }
  }

  /** One token: block-wide dot product, new maximum, rescaling of denominator and accumulator. */
  method OnlineToken(e: real -> real, i: nat, ghost s: int -> real, terms: int -> real, keyDim: nat, scale: real,
                     rows: int -> int -> real,
                     blockDim: nat, m: real, denominator: real, accumulator: array<real>)
    returns (m': real, denominator': real)
    requires IsExp(e) && PowerOfTwo(blockDim) && s(i) == Sum(keyDim, terms) * scale
    requires StrideFits(keyDim, blockDim) && StrideFits(accumulator.Length, blockDim)
    requires OnlineAll(e, i, s, rows, m, denominator, accumulator[..])
    modifies accumulator
    ensures OnlineAll(e, i + 1, s, rows, m', denominator', accumulator[..])
    ensures m' >= m && m' >= s(i)
  {
    var dot := BlockSum(keyDim, terms, blockDim);
    var score := dot * scale;
    assert score == s(i);
    m' := if m <= score then score else m;
    var rescale, weight := e(m - m'), e(score - m');
    ghost var before := accumulator[..];
    UpdateAccumulator(accumulator, rescale, weight, rows(i), blockDim);
    OnlineStepAll(e, i, s, rows, m, denominator, before, m', accumulator[..], rescale, weight);
    denominator' := denominator * rescale + weight;
  }

  lemma OnlineStart(e: real -> real, s: int -> real, rows: int -> int -> real, acc: seq<real>)
    requires forall d :: 0 <= d < |acc| ==> acc[d] == 0.0
    ensures OnlineAll(e, 0, s, rows, LOWEST, 0.0, acc)
  {
  }

  /** The token loop of a block, for any key products and value rows; it stops at the first invalid token. */
  method OnlineLoop(e: real -> real, length: nat, valid: int -> bool, terms: int -> int -> real, keyDim: nat,
                    scale: real,
                    rows: int -> int -> real, valueDim: nat, blockDim: nat) returns (ok: bool, vector: seq<real>)
    requires IsExp(e) && PowerOfTwo(blockDim) && length > 0
    requires StrideFits(keyDim, blockDim) && StrideFits(valueDim, blockDim)
    ensures ok <==> forall i :: 0 <= i < length ==> valid(i)
    ensures ok ==> |vector| == valueDim
    ensures ok ==> forall d :: 0 <= d < valueDim ==>
              vector[d] == SoftmaxMean(e, length, ScoreOf(terms, keyDim, scale), ColumnOf(rows, d))
  {
    var accumulator := new real[valueDim](_ => 0.0);
    OnlineStart(e, ScoreOf(terms, keyDim, scale), rows, accumulator[..]);
    var runningMax, denominator;
    ok, runningMax, denominator :=
      OnlineTokens(e, length, valid, terms, keyDim, scale, rows, blockDim, accumulator);
    vector := [];
    if ok {
      vector := Divide(e, length, ScoreOf(terms, keyDim, scale), rows, runningMax, denominator, accumulator[..]);
    }
  }

  method OnlineTokens(e: real -> real, length: nat, valid: int -> bool, terms: int -> int -> real, keyDim: nat,
                      scale: real, rows: int -> int -> real, blockDim: nat, accumulator: array<real>)
    returns (ok: bool, runningMax: real, denominator: real)
    requires IsExp(e) && PowerOfTwo(blockDim)
    requires StrideFits(keyDim, blockDim) && StrideFits(accumulator.Length, blockDim)
    requires OnlineAll(e, 0, ScoreOf(terms, keyDim, scale), rows, LOWEST, 0.0, accumulator[..])
    modifies accumulator
    ensures ok <==> forall i :: 0 <= i < length ==> valid(i)
    ensures ok ==>
              OnlineAll(e, length, ScoreOf(terms, keyDim, scale), rows, runningMax, denominator, accumulator[..])
  {
    ghost var s := ScoreOf(terms, keyDim, scale);
    runningMax, denominator := LOWEST, 0.0;
    for i := 0 to length
      invariant forall j :: 0 <= j < i ==> valid(j)
      invariant OnlineAll(e, i, s, rows, runningMax, denominator, accumulator[..])
    {
      if !valid(i) {
        return false, runningMax, denominator;
      }
      runningMax, denominator :=
        OnlineToken(e, i, s, terms(i), keyDim, scale, rows, blockDim, runningMax, denominator, accumulator);
    }
    ok := true;
  }

  /** The final division of the accumulator by the denominator. */
  method Divide(e: real -> real, length: nat, ghost s: int -> real, ghost rows: int -> int -> real, ghost m: real,
                denominator: real, accumulator: seq<real>) returns (vector: seq<real>)
    requires IsExp(e) && length > 0 && OnlineAll(e, length, s, rows, m, denominator, accumulator)
    ensures |vector| == |accumulator|
    ensures forall d :: 0 <= d < |vector| ==> vector[d] == SoftmaxMean(e, length, s, ColumnOf(rows, d))
  {
    vector := [];
    for d := 0 to |accumulator|
      invariant |vector| == d && forall j :: 0 <= j < d ==> vector[j] == SoftmaxMean(e, length, s, ColumnOf(rows, j))
    {
      assert Online(e, length, s, ColumnOf(rows, d), m, denominator, accumulator[d]);
      OnlineResult(e, length, s, ColumnOf(rows, d), m, denominator, accumulator[d]);
      vector := vector + [accumulator[d] / denominator];
    }
  }

  function QueryOffset(c: Config, query: nat, head: nat): nat {
    (query * c.queryHeads + head) * c.keyDim
  }

  /** The attention output of one query head in dimension d, as a mean over the sequence's slots. */
  ghost function BlockOutput(e: real -> real, c: Config, inp: Inputs, query: nat, head: nat, start: nat, length: nat,
                             d: int): real
    requires IsExp(e) && Planned(c) && length > 0
  {
    var kvHead := Cpu.KvHead(c.queryHeads, c.kvHeads, head);
    SoftmaxMean(e, length, ScoreOf(KeyTerms(c, inp, QueryOffset(c, query, head), kvHead, start), c.keyDim, c.scale),
                ColumnOf(ValueRows(c, inp, kvHead, start), d))
  }

  function SlotsValid(c: Config, inp: Inputs, start: nat): int -> bool {
    i => SlotOf(inp.slots, start + i) < c.slotCount
  }

  /** A listed slot is read where it stands. */
  lemma ListedSlot(slots: seq<nat>, k: nat)
    requires k < |slots|
    ensures SlotOf(slots, k) == slots[k]
  {
  }

  /** A sequence's slots are valid exactly when the listed ones from its start on are below the slot count. */
  lemma SlotsValidIff(c: Config, inp: Inputs, query: nat)
    requires query < |inp.requestIndices| && query < |inp.sequenceLengths| && |inp.slotOffsets| == c.requestCount + 1
    requires Metadata(c, inp, query).Ok?
    ensures var (start, length) := Metadata(c, inp, query).value;
            && 0 < length && start + length <= |inp.slots|
            && ((forall i :: 0 <= i < length ==> SlotsValid(c, inp, start)(i)) <==>
                  forall k :: start <= k < start + length ==> inp.slots[k] < c.slotCount)
  {
    var (start, length) := Metadata(c, inp, query).value;
    forall k | start <= k < start + length
      ensures SlotsValid(c, inp, start)(k - start) <==> inp.slots[k] < c.slotCount
    {
      SlotValidAt(c, inp, start, k - start, k);
    }
    if forall k :: start <= k < start + length ==> inp.slots[k] < c.slotCount {
      forall i | 0 <= i < length
        ensures SlotsValid(c, inp, start)(i)
      {
        SlotValidAt(c, inp, start, i, start + i);
      }
    }
  }

  lemma SlotValidAt(c: Config, inp: Inputs, start: nat, i: nat, k: nat)
    requires k == start + i < |inp.slots|
    ensures SlotsValid(c, inp, start)(i) <==> inp.slots[k] < c.slotCount
  {
    ListedSlot(inp.slots, k);
  }

  /**
   * One block of the kernel. With valid metadata and slots, every output component is the softmax-weighted mean of
   * the sequence's value rows; otherwise the block raises bit 1 (request), 2 (range) or 4 (slot) and writes nothing.
   */
  method AttendBlock(e: real -> real, c: Config, inp: Inputs, query: nat, head: nat, blockDim: nat) returns (r: Outcome)
    requires IsExp(e) && Planned(c) && PowerOfTwo(blockDim) && LoopsFit(c, blockDim) && head < c.queryHeads
    requires query < |inp.requestIndices| && query < |inp.sequenceLengths| && |inp.slotOffsets| == c.requestCount + 1
    ensures Metadata(c, inp, query).Err? ==> r == Flagged(Metadata(c, inp, query).error)
    ensures Metadata(c, inp, query).Ok? ==>
              var (start, length) := Metadata(c, inp, query).value;
              && (r.Output? <==> forall i :: 0 <= i < length ==> SlotsValid(c, inp, start)(i))
              && (r.Flagged? ==> r.bits == 4)
              && (r.Output? ==> |r.vector| == c.valueDim
                                && forall d :: 0 <= d < c.valueDim ==>
                                     r.vector[d] == BlockOutput(e, c, inp, query, head, start, length, d))
  {
    var request := inp.requestIndices[query];
    if request >= c.requestCount {
      return Flagged(1);
    }
    var start, end, length := inp.slotOffsets[request], inp.slotOffsets[request + 1], inp.sequenceLengths[query];
    if start > end || end > |inp.slots| || length == 0 || length > end - start {
      return Flagged(2);
    }
    var kvHead := Cpu.KvHead(c.queryHeads, c.kvHeads, head);
    var ok, vector :=
      OnlineLoop(e, length, SlotsValid(c, inp, start), KeyTerms(c, inp, QueryOffset(c, query, head), kvHead, start),
                                 c.keyDim, c.scale, ValueRows(c, inp, kvHead, start), c.valueDim, blockDim);
    r := if ok then Output(vector) else Flagged(4);
  }

  // ---------- against the CPU reference ----------

  /** The rows a gather of the sequence's slots returns: row t is the slot's stored row, component by component. */
  ghost predicate Gathered(c: Config, inp: Inputs, start: nat, length: nat, rows: seq<real>, offset: nat, rowBytes: nat,
                           width: nat)
    requires c.layout.pageSize > 0
  {
    && |rows| == length * width
    && forall t: nat, x: nat :: t < length && x < width ==>
         Element(rows, width, t, x)
         == inp.pool(SlotRow(c.layout, offset, rowBytes, SlotOf(inp.slots, start + t)) + BF16_BYTES * x)
  }

  /**
   * The online kernel equals the two-pass reference: on the rows gathered from the pool, the CPU computes for every
   * query head and dimension exactly what the block computes, for every grouping of heads and every page mapping.
   */
  lemma KernelIsReference(e: real -> real, c: Config, inp: Inputs, query: nat, head: nat, start: nat, length: nat,
                          d: nat,
                          row: seq<real>, keys: seq<real>, values: seq<real>)
    requires IsExp(e) && Planned(c) && c.keyDim == c.valueDim && length > 0 && head < c.queryHeads && d < c.keyDim
    requires QueryRow(c, inp, query, row)
    requires Gathered(c, inp, start, length, keys, c.layout.keyOffset, c.layout.keyRowBytes, c.kvHeads * c.keyDim)
    requires Gathered(c, inp, start, length, values, c.layout.valueOffset, c.layout.valueRowBytes, c.kvHeads * c.keyDim)
    ensures var kvHead := Cpu.KvHead(c.queryHeads, c.kvHeads, head);
            var sh := Cpu.Shape(length, c.queryHeads, c.kvHeads, c.keyDim, c.scale);
            BlockOutput(e, c, inp, query, head, start, length, d)
            == SoftmaxMean(e, length, Cpu.Scores(row, keys, sh, head, kvHead), Cpu.ValueColumn(values, sh, kvHead, d))
  {
    var kvHead := Cpu.KvHead(c.queryHeads, c.kvHeads, head);
    var sh := Cpu.Shape(length, c.queryHeads, c.kvHeads, c.keyDim, c.scale);
    var terms, rows := KeyTerms(c, inp, QueryOffset(c, query, head), kvHead, start), ValueRows(c, inp, kvHead, start);
    KvHeadBelow(c, head);
    forall t | 0 <= t < length
      ensures ScoreOf(terms, c.keyDim, c.scale)(t) == Cpu.Scores(row, keys, sh, head, kvHead)(t)
    {
      SameScore(c, inp, query, head, kvHead, start, length, t, row, keys, sh);
    }
    SameColumn(c, inp, start, length, values, kvHead, d, sh);
    SoftmaxMeanExt(e, length, ScoreOf(terms, c.keyDim, c.scale), ColumnOf(rows, d),
                   Cpu.Scores(row, keys, sh, head, kvHead), Cpu.ValueColumn(values, sh, kvHead, d));
  }

  lemma SameColumn(c: Config, inp: Inputs, start: nat, length: nat, values: seq<real>, kvHead: nat, d: nat,
                   sh: Cpu.Shape)
    requires Planned(c) && c.keyDim == c.valueDim && kvHead < c.kvHeads && d < c.keyDim
    requires sh.kvHeads == c.kvHeads && sh.headDim == c.keyDim
    requires Gathered(c, inp, start, length, values, c.layout.valueOffset, c.layout.valueRowBytes, c.kvHeads * c.keyDim)
    ensures forall t :: 0 <= t < length ==>
              ColumnOf(ValueRows(c, inp, kvHead, start), d)(t) == Cpu.ValueColumn(values, sh, kvHead, d)(t)
  {
    forall t | 0 <= t < length
      ensures ColumnOf(ValueRows(c, inp, kvHead, start), d)(t) == Cpu.ValueColumn(values, sh, kvHead, d)(t)
    {
      var address := ValueAddress(c, kvHead, SlotOf(inp.slots, start + t)) + BF16_BYTES * d;
      assert ColumnOf(ValueRows(c, inp, kvHead, start), d)(t) == inp.pool(address);
      SameRow(c, inp, start, length, values, c.layout.valueOffset, c.layout.valueRowBytes, kvHead, t, d, sh);
    }
  }

  lemma KvHeadBelow(c: Config, head: nat)
    requires Planned(c) && head < c.queryHeads
    ensures Cpu.KvHead(c.queryHeads, c.kvHeads, head) < c.kvHeads
  {
    var group := Quot(c.queryHeads, c.kvHeads);
    Cpu.GroupNotEmpty(c.queryHeads, c.kvHeads);
    assert Rem(c.queryHeads, c.kvHeads) == 0;
    assert c.kvHeads * group == c.queryHeads;
    QuotBelow(head, group, c.kvHeads);
  }

  /** A component of a gathered row is the component the kernel reads. */
  lemma SameRow(c: Config, inp: Inputs, start: nat, length: nat, rows: seq<real>, offset: nat, rowBytes: nat,
                kvHead: nat, t: nat, d: nat, sh: Cpu.Shape)
    requires c.layout.pageSize > 0 && kvHead < c.kvHeads && t < length && d < c.keyDim
    requires sh.kvHeads == c.kvHeads && sh.headDim == c.keyDim
    requires Gathered(c, inp, start, length, rows, offset, rowBytes, c.kvHeads * c.keyDim)
    ensures At(rows, Cpu.RowOffset(sh, kvHead, t) + d)
         == inp.pool(SlotRow(c.layout, offset, rowBytes, SlotOf(inp.slots, start + t))
                     + kvHead * c.keyDim * BF16_BYTES + BF16_BYTES * d)
  {
    DigitBound(kvHead, d, c.keyDim, c.kvHeads);
    var x := kvHead * c.keyDim + d;
    assert Element(rows, c.kvHeads * c.keyDim, t, x) == At(rows, t * (c.kvHeads * c.keyDim) + x);
    assert kvHead * c.keyDim * BF16_BYTES + BF16_BYTES * d == BF16_BYTES * x;
  }

  lemma SameScore(c: Config, inp: Inputs, query: nat, head: nat, kvHead: nat, start: nat, length: nat, t: nat,
                  row: seq<real>, keys: seq<real>, sh: Cpu.Shape)
    requires c.layout.pageSize > 0 && kvHead < c.kvHeads && t < length && head < c.queryHeads
    requires sh.kvHeads == c.kvHeads && sh.headDim == c.keyDim && sh.scale == c.scale
    requires QueryRow(c, inp, query, row)
    requires Gathered(c, inp, start, length, keys, c.layout.keyOffset, c.layout.keyRowBytes, c.kvHeads * c.keyDim)
    ensures ScoreOf(KeyTerms(c, inp, QueryOffset(c, query, head), kvHead, start), c.keyDim, c.scale)(t)
         == Cpu.Scores(row, keys, sh, head, kvHead)(t)
  {
    SameTerms(c, inp, query, head, kvHead, start, length, t, row, keys, sh);
    SumsMeet(KeyTerms(c, inp, QueryOffset(c, query, head), kvHead, start), row, keys, sh, head, kvHead, t);
  }

  /** Equal terms give equal scores. */
  lemma SumsMeet(terms: int -> int -> real, row: seq<real>, keys: seq<real>, sh: Cpu.Shape, head: nat, kvHead: nat,
                 t: nat)
    requires forall d :: 0 <= d < sh.headDim ==>
               terms(t)(d) == Products(row, head * sh.headDim, keys, Cpu.RowOffset(sh, kvHead, t))(d)
    ensures ScoreOf(terms, sh.headDim, sh.scale)(t) == Cpu.Scores(row, keys, sh, head, kvHead)(t)
  {
    SumExt(sh.headDim, terms(t), Products(row, head * sh.headDim, keys, Cpu.RowOffset(sh, kvHead, t)));
  }

  lemma SameTerms(c: Config, inp: Inputs, query: nat, head: nat, kvHead: nat, start: nat, length: nat, t: nat,
                  row: seq<real>, keys: seq<real>, sh: Cpu.Shape)
    requires c.layout.pageSize > 0 && kvHead < c.kvHeads && t < length && head < c.queryHeads
    requires sh.kvHeads == c.kvHeads && sh.headDim == c.keyDim
    requires QueryRow(c, inp, query, row)
    requires Gathered(c, inp, start, length, keys, c.layout.keyOffset, c.layout.keyRowBytes, c.kvHeads * c.keyDim)
    ensures forall d :: 0 <= d < c.keyDim ==>
              KeyTerms(c, inp, QueryOffset(c, query, head), kvHead, start)(t)(d)
              == Products(row, head * c.keyDim, keys, Cpu.RowOffset(sh, kvHead, t))(d)
  {
    forall d | 0 <= d < c.keyDim
      ensures KeyTerms(c, inp, QueryOffset(c, query, head), kvHead, start)(t)(d)
           == Products(row, head * c.keyDim, keys, Cpu.RowOffset(sh, kvHead, t))(d)
    {
      SameTerm(c, inp, query, head, kvHead, start, length, t, row, keys, sh, d);
    }
  }

  lemma SameTerm(c: Config, inp: Inputs, query: nat, head: nat, kvHead: nat, start: nat, length: nat, t: nat,
                 row: seq<real>, keys: seq<real>, sh: Cpu.Shape, d: nat)
    requires c.layout.pageSize > 0 && kvHead < c.kvHeads && t < length && head < c.queryHeads && d < c.keyDim
    requires sh.kvHeads == c.kvHeads && sh.headDim == c.keyDim
    requires QueryRow(c, inp, query, row)
    requires Gathered(c, inp, start, length, keys, c.layout.keyOffset, c.layout.keyRowBytes, c.kvHeads * c.keyDim)
    ensures KeyTerms(c, inp, QueryOffset(c, query, head), kvHead, start)(t)(d)
         == Products(row, head * c.keyDim, keys, Cpu.RowOffset(sh, kvHead, t))(d)
  {
    var address := KeyAddress(c, kvHead, SlotOf(inp.slots, start + t)) + BF16_BYTES * d;
    var q, k := At(inp.queries, QueryOffset(c, query, head) + d), inp.pool(address);
    assert At(keys, Cpu.RowOffset(sh, kvHead, t) + d) == k by {
      SameRow(c, inp, start, length, keys, c.layout.keyOffset, c.layout.keyRowBytes, kvHead, t, d, sh);
    }
    assert At(row, head * c.keyDim + d) == q by { SameQuery(c, inp, query, head, row, d); }
    assert KeyTerms(c, inp, QueryOffset(c, query, head), kvHead, start)(t)(d) == q * k;
    assert Products(row, head * c.keyDim, keys, Cpu.RowOffset(sh, kvHead, t))(d) == q * k;
  }

  /** The query row handed to the CPU is the one the block reads. */
  ghost predicate QueryRow(c: Config, inp: Inputs, query: nat, row: seq<real>) {
    forall x: nat :: x < c.queryHeads * c.keyDim ==>
      At(row, x) == Element(inp.queries, c.queryHeads * c.keyDim, query, x)
  }

  lemma SameQuery(c: Config, inp: Inputs, query: nat, head: nat, row: seq<real>, d: nat)
    requires head < c.queryHeads && d < c.keyDim
    requires QueryRow(c, inp, query, row)
    ensures At(row, head * c.keyDim + d) == At(inp.queries, QueryOffset(c, query, head) + d)
  {
    DigitBound(head, d, c.keyDim, c.queryHeads);
    NestedOffset(query, c.queryHeads, head, c.keyDim, d);
    assert At(row, head * c.keyDim + d) == Element(inp.queries, c.queryHeads * c.keyDim, query, head * c.keyDim + d);
  }

  // ---------- the launch over all queries and heads ----------

  /** The bits the blocks of a query raise: a bad request index, a bad range, a bad slot, or nothing. */
  ghost function Bits(c: Config, inp: Inputs, query: nat): nat
    requires query < |inp.requestIndices| && query < |inp.sequenceLengths| && |inp.slotOffsets| == c.requestCount + 1
  {
    match Metadata(c, inp, query)
    case Err(bits) => bits
    case Ok((start, length)) => if forall i :: 0 <= i < length ==> SlotsValid(c, inp, start)(i) then 0 else 4
  }

  /** The device buffers list one entry per query. */
  ghost predicate Listed(c: Config, inp: Inputs, queries: nat) {
    queries <= |inp.requestIndices| && queries <= |inp.sequenceLengths| && |inp.slotOffsets| == c.requestCount + 1
  }

  /** The part of the output one block writes. */
  function Part(c: Config, output: seq<real>, query: nat, head: nat): (v: seq<real>)
    ensures |v| == c.valueDim
  {
    Cell(output, c.valueDim, c.queryHeads, query, head)
  }

  function WithPart(c: Config, output: seq<real>, query: nat, head: nat, v: seq<real>): (after: seq<real>)
    requires |v| == c.valueDim
    ensures |after| == |output|
  {
    WithCell(output, c.valueDim, c.queryHeads, query, head, v)
  }

  function OutputLength(c: Config, queries: nat): nat {
    CellsLength(c.valueDim, queries, c.queryHeads)
  }

  /** What a block leaves in its part of the output: the attention, or what was there. */
  ghost predicate BlockDone(e: real -> real, c: Config, inp: Inputs, query: nat, head: nat, before: seq<real>,
                            after: seq<real>)
    requires IsExp(e) && Planned(c) && Listed(c, inp, query + 1)
  {
    if Bits(c, inp, query) != 0 then Part(c, after, query, head) == Part(c, before, query, head)
    else
      var (start, length) := Metadata(c, inp, query).value;
      forall d: nat :: d < c.valueDim ==>
        Part(c, after, query, head)[d] == BlockOutput(e, c, inp, query, head, start, length, d)
  }

  /** The flag holds the bits of the blocks that ran; the others have left their part of the output alone. */
  ghost predicate LaunchState(e: real -> real, c: Config, inp: Inputs, queries: nat, pending: set<(nat, nat)>,
                              before: seq<real>, output: seq<real>, flag: set<nat>)
    requires IsExp(e) && Planned(c) && Listed(c, inp, queries)
  {
    && |before| == |output| == OutputLength(c, queries)
    && (forall q: nat, h: nat :: q < queries && h < c.queryHeads && (q, h) !in pending ==>
          BlockDone(e, c, inp, q, h, before, output))
    && (forall q: nat, h: nat :: q < queries && h < c.queryHeads && (q, h) in pending ==>
          Part(c, output, q, h) == Part(c, before, q, h))
    && (forall b :: b in flag <==> Raised(c, inp, queries, pending, b))
  }

  ghost predicate Raised(c: Config, inp: Inputs, queries: nat, pending: set<(nat, nat)>, b: nat)
    requires Listed(c, inp, queries)
  {
    b != 0 && exists q: nat, h: nat :: q < queries && h < c.queryHeads && (q, h) !in pending && Bits(c, inp, q) == b
  }

  /** Another block's part is not touched. */
  lemma OtherBlock(c: Config, queries: nat, output: seq<real>, query: nat, head: nat, v: seq<real>, q: nat, h: nat)
    requires query < queries && head < c.queryHeads && q < queries && h < c.queryHeads
    requires |output| == OutputLength(c, queries) && |v| == c.valueDim
    ensures Part(c, WithPart(c, output, query, head, v), q, h)
         == if (q, h) == (query, head) then v else Part(c, output, q, h)
  {
    CellWritten(output, c.valueDim, queries, c.queryHeads, query, head, v, q, h);
  }

  /** Equal parts carry the same result. */
  lemma DoneKept(e: real -> real, c: Config, inp: Inputs, q: nat, h: nat, before: seq<real>, output: seq<real>,
                 after: seq<real>)
    requires IsExp(e) && Planned(c) && Listed(c, inp, q + 1) && BlockDone(e, c, inp, q, h, before, output)
    requires Part(c, after, q, h) == Part(c, output, q, h)
    ensures BlockDone(e, c, inp, q, h, before, after)
  {
  }

  lemma BlockRan(e: real -> real, c: Config, inp: Inputs, queries: nat, pending: set<(nat, nat)>, before: seq<real>,
                 output: seq<real>, after: seq<real>,
                 flag: set<nat>, query: nat, head: nat)
    requires IsExp(e) && Planned(c) && Listed(c, inp, queries) && query < queries && head < c.queryHeads
             && (query, head) in pending
    requires LaunchState(e, c, inp, queries, pending, before, output, flag)
    requires |after| == |output| && BlockDone(e, c, inp, query, head, before, after)
    requires forall q: nat, h: nat :: q < queries && h < c.queryHeads && (q, h) != (query, head) ==>
               Part(c, after, q, h) == Part(c, output, q, h)
    ensures LaunchState(e, c, inp, queries, pending - {(query, head)}, before, after,
                        if Bits(c, inp, query) == 0 then flag else flag + {Bits(c, inp, query)})
  {
    var rest := pending - {(query, head)};
    forall q: nat, h: nat | q < queries && h < c.queryHeads && (q, h) !in rest
      ensures BlockDone(e, c, inp, q, h, before, after)
    {
      if (q, h) != (query, head) {
        DoneKept(e, c, inp, q, h, before, output, after);
      }
    }
    forall b
      ensures Raised(c, inp, queries, rest, b) <==>
                Raised(c, inp, queries, pending, b) || (b != 0 && b == Bits(c, inp, query))
    {
      RaisedNext(c, inp, queries, pending, query, head, b);
    }
  }

  lemma RaisedNext(c: Config, inp: Inputs, queries: nat, pending: set<(nat, nat)>, query: nat, head: nat, b: nat)
    requires Listed(c, inp, queries) && query < queries && head < c.queryHeads
    ensures Raised(c, inp, queries, pending - {(query, head)}, b) <==>
              Raised(c, inp, queries, pending, b) || (b != 0 && b == Bits(c, inp, query))
  {
    var rest := pending - {(query, head)};
    if Raised(c, inp, queries, rest, b) {
      var q: nat, h: nat :| q < queries && h < c.queryHeads && (q, h) !in rest && Bits(c, inp, q) == b;
      assert (q, h) != (query, head) ==> (q, h) !in pending;
    }
    if Raised(c, inp, queries, pending, b) {
      var q: nat, h: nat :| q < queries && h < c.queryHeads && (q, h) !in pending && Bits(c, inp, q) == b;
      assert (q, h) !in rest;
    }
    assert (query, head) !in rest;
  }

  /** One pending block: it writes its part, or raises its bits and writes nothing. */
  method RunBlock(e: real -> real, c: Config, inp: Inputs, queries: nat, ghost pending: set<(nat, nat)>,
                  ghost before: seq<real>,
                  output: seq<real>, flag: set<nat>, query: nat, head: nat, blockDim: nat)
    returns (output': seq<real>, flag': set<nat>)
    requires IsExp(e) && Planned(c) && PowerOfTwo(blockDim) && LoopsFit(c, blockDim) && Listed(c, inp, queries)
    requires query < queries && head < c.queryHeads && (query, head) in pending
    requires LaunchState(e, c, inp, queries, pending, before, output, flag)
    ensures LaunchState(e, c, inp, queries, pending - {(query, head)}, before, output', flag')
  {
    var r := AttendBlock(e, c, inp, query, head, blockDim);
    match r
    case Flagged(bits) =>
      FlaggedRan(e, c, inp, queries, pending, before, output, flag, query, head);
      output', flag' := output, flag + {bits};
    case Output(vector) =>
      OutputRan(e, c, inp, queries, pending, before, output, flag, query, head, vector);
      output', flag' := WithPart(c, output, query, head, vector), flag;
  }

  lemma FlaggedRan(e: real -> real, c: Config, inp: Inputs, queries: nat, pending: set<(nat, nat)>, before: seq<real>,
                   output: seq<real>, flag: set<nat>,
                   query: nat, head: nat)
    requires IsExp(e) && Planned(c) && Listed(c, inp, queries) && query < queries && head < c.queryHeads
             && (query, head) in pending
    requires LaunchState(e, c, inp, queries, pending, before, output, flag) && Bits(c, inp, query) != 0
    ensures LaunchState(e, c, inp, queries, pending - {(query, head)}, before, output, flag + {Bits(c, inp, query)})
  {
    BlockRan(e, c, inp, queries, pending, before, output, output, flag, query, head);
  }

  lemma OutputRan(e: real -> real, c: Config, inp: Inputs, queries: nat, pending: set<(nat, nat)>, before: seq<real>,
                  output: seq<real>, flag: set<nat>,
                  query: nat, head: nat, vector: seq<real>)
    requires IsExp(e) && Planned(c) && Listed(c, inp, queries) && query < queries && head < c.queryHeads
             && (query, head) in pending
    requires LaunchState(e, c, inp, queries, pending, before, output, flag) && Bits(c, inp, query) == 0
             && |vector| == c.valueDim
    requires var (start, length) := Metadata(c, inp, query).value;
             forall d :: 0 <= d < c.valueDim ==> vector[d] == BlockOutput(e, c, inp, query, head, start, length, d)
    ensures LaunchState(e, c, inp, queries, pending - {(query, head)}, before, WithPart(c, output, query, head, vector),
                        flag)
  {
    var after := WithPart(c, output, query, head, vector);
    OthersUntouched(c, queries, output, query, head, vector);
    DoneFromBlock(e, c, inp, before, after, query, head, vector);
    BlockRan(e, c, inp, queries, pending, before, output, after, flag, query, head);
  }

  lemma DoneFromBlock(e: real -> real, c: Config, inp: Inputs, before: seq<real>, after: seq<real>, query: nat,
                      head: nat, vector: seq<real>)
    requires IsExp(e) && Planned(c) && Listed(c, inp, query + 1) && Bits(c, inp, query) == 0
    requires |vector| == c.valueDim && Part(c, after, query, head) == vector
    requires var (start, length) := Metadata(c, inp, query).value;
             forall d :: 0 <= d < c.valueDim ==> vector[d] == BlockOutput(e, c, inp, query, head, start, length, d)
    ensures BlockDone(e, c, inp, query, head, before, after)
  {
  }

  lemma OthersUntouched(c: Config, queries: nat, output: seq<real>, query: nat, head: nat, vector: seq<real>)
    requires query < queries && head < c.queryHeads && |output| == OutputLength(c, queries) && |vector| == c.valueDim
    ensures var after := WithPart(c, output, query, head, vector);
            && Part(c, after, query, head) == vector
            && forall q: nat, h: nat :: q < queries && h < c.queryHeads && (q, h) != (query, head) ==>
                 Part(c, after, q, h) == Part(c, output, q, h)
  {
    var after := WithPart(c, output, query, head, vector);
    OtherBlock(c, queries, output, query, head, vector, query, head);
    forall q: nat, h: nat | q < queries && h < c.queryHeads && (q, h) != (query, head)
      ensures Part(c, after, q, h) == Part(c, output, q, h)
    {
      OtherBlock(c, queries, output, query, head, vector, q, h);
    }
  }

  lemma NothingRan(e: real -> real, c: Config, inp: Inputs, queries: nat, pending: set<(nat, nat)>, before: seq<real>)
    requires IsExp(e) && Planned(c) && Listed(c, inp, queries) && |before| == OutputLength(c, queries)
    requires pending == Tasks(queries, c.queryHeads)
    ensures LaunchState(e, c, inp, queries, pending, before, before, {})
  {
  }

  /**
   * The launch: every (query, head) block once, in any order, into one output buffer. Each valid query's blocks hold
   * its attention, the blocks of an invalid one are as before, and the flag is the union of the bits raised.
   */
  method Attend(e: real -> real, c: Config, inp: Inputs, queries: nat, before: seq<real>, blockDim: nat)
    returns (output: seq<real>, flag: set<nat>)
    requires IsExp(e) && Planned(c) && PowerOfTwo(blockDim) && LoopsFit(c, blockDim) && Listed(c, inp, queries)
             && |before| == OutputLength(c, queries)
    ensures LaunchState(e, c, inp, queries, {}, before, output, flag)
  {
    output, flag := before, {};
    var pending := Tasks(queries, c.queryHeads);
    NothingRan(e, c, inp, queries, pending, before);
    while pending != {}
      invariant forall q: nat, h: nat :: (q, h) in pending ==> q < queries && h < c.queryHeads
      invariant LaunchState(e, c, inp, queries, pending, before, output, flag)
      decreases |pending|
    {
      var task :| task in pending;
      output, flag := RunBlock(e, c, inp, queries, pending, before, output, flag, task.0, task.1, blockDim);
      pending := pending - {task};
    }
  }

  /**
   * The launch against the reference, for one of its queries: both succeed exactly as stated, and then the query's part
   * of the output is the reference's, for every head and dimension.
   */
  method CompareWithReference(e: real -> real, c: Config, inp: Inputs, queries: nat, before: seq<real>, blockDim: nat,
                              query: nat,
                              row: seq<real>, keys: seq<real>, values: seq<real>)
    returns (output: seq<real>, flag: set<nat>, reference: Result<seq<real>, KernelError>)
    requires IsExp(e) && Planned(c) && c.keyDim == c.valueDim && PowerOfTwo(blockDim) && Listed(c, inp, queries)
             && LoopsFit(c, blockDim)
    requires |before| == OutputLength(c, queries) && query < queries && Metadata(c, inp, query).Ok?
             && QueryRow(c, inp, query, row)
    requires var (start, length) := Metadata(c, inp, query).value;
             && Gathered(c, inp, start, length, keys, c.layout.keyOffset, c.layout.keyRowBytes, c.kvHeads * c.keyDim)
             && Gathered(c, inp, start, length, values, c.layout.valueOffset, c.layout.valueRowBytes,
                         c.kvHeads * c.keyDim)
    ensures LaunchState(e, c, inp, queries, {}, before, output, flag)
    ensures var length := Metadata(c, inp, query).value.1;
            reference.Ok? <==>
              c.keyDim > 0 && |row| == c.queryHeads * c.keyDim <= USIZE_MAX
              && length * (c.kvHeads * c.keyDim) <= USIZE_MAX
    ensures Bits(c, inp, query) == 0 && reference.Ok? ==> forall h: nat, d: nat :: h < c.queryHeads && d < c.keyDim ==>
              Part(c, output, query, h)[d] == Element(reference.value, c.keyDim, h, d)
  {
    var (start, length) := Metadata(c, inp, query).value;
    output, flag := Attend(e, c, inp, queries, before, blockDim);
    var sh := Cpu.Shape(length, c.queryHeads, c.kvHeads, c.keyDim, c.scale);
    AcceptedIff(c, length, |row|, |keys|, |values|, sh);
    reference := Cpu.GroupedQueryAttention(e, row, keys, values, sh);
    if Bits(c, inp, query) == 0 && reference.Ok? {
      forall h: nat, d: nat | h < c.queryHeads && d < c.keyDim
        ensures Part(c, output, query, h)[d] == Element(reference.value, c.keyDim, h, d)
      {
        assert BlockDone(e, c, inp, query, h, before, output);
        KernelIsReference(e, c, inp, query, h, start, length, d, row, keys, values);
      }
    }
  }

  /**
   * On gathered rows the reference rejects only an empty head, a query of the wrong length, or sizes past the word
   * bound.
   */
  lemma AcceptedIff(c: Config, length: nat, row: nat, keys: nat, values: nat, sh: Cpu.Shape)
    requires Planned(c) && length > 0 && sh == Cpu.Shape(length, c.queryHeads, c.kvHeads, c.keyDim, c.scale)
    requires keys == values == length * (c.kvHeads * c.keyDim)
    ensures Cpu.Accepts(row, keys, values, sh)
       <==> c.keyDim > 0 && row == c.queryHeads * c.keyDim <= USIZE_MAX && length * (c.kvHeads * c.keyDim) <= USIZE_MAX
  {
    var width := c.kvHeads * c.keyDim;
    if c.keyDim > 0 {
      MulPos(c.kvHeads, c.keyDim);
      MulPos(length, width);
    }
  }
}
