/**
 * Causal depthwise convolution, one token at a time: the CPU step (`cpu.rs`), the kernel that updates a channel segment
 * of a pool of states (`cuda_linear_attention.rs`), and the concatenated q/k/v use of both (`cpu_hybrid.rs`).
 */
module CausalConv {
  import opened Basics
  import opened Sums
  import opened CpuShapes
  import Delta = DeltaRule

  // ---------- one channel ----------

  /** The output of a channel: its newest weight times the input, plus the older weights times the history. */
  function Convolve(history: nat, w: int -> real, lane: int -> real, x: real): real {
    w(history) * x + Sum(history, Times(w, lane))
  }

  /** The history moves up by one and takes in the input. */
  function NextLane(history: nat, lane: int -> real, x: real): int -> real {
    step => if step + 1 < history then lane(step + 1) else x
  }

  lemma ConvolveExt(history: nat, w: int -> real, w': int -> real, lane: int -> real, lane': int -> real, x: real)
    requires forall i :: 0 <= i <= history ==> w(i) == w'(i)
    requires forall i :: 0 <= i < history ==> lane(i) == lane'(i)
    ensures Convolve(history, w, lane, x) == Convolve(history, w', lane', x)
  {
    SumExt(history, Times(w, lane), Times(w', lane'));
  }

  // ---------- the pool of states ----------

  /** State geometry: rows per slot and channels per row. */
  datatype Geometry = Geometry(history: nat, channels: nat)

  /** Address of one remembered input: slot, age step, channel. */
  function Cell(g: Geometry, slot: int, step: int, channel: int): int {
    (slot * g.history + step) * g.channels + channel
  }

  predicate InGeometry(g: Geometry, slot: int, step: int, channel: int) {
    0 <= slot && 0 <= step < g.history && 0 <= channel < g.channels
  }

  lemma CellInjective(g: Geometry, slot: int, step: int, channel: int, slot': int, step': int, channel': int)
    requires InGeometry(g, slot, step, channel) && InGeometry(g, slot', step', channel')
    requires Cell(g, slot, step, channel) == Cell(g, slot', step', channel')
    ensures slot == slot' && step == step' && channel == channel'
  {
    DivModUnique(Cell(g, slot, step, channel), g.channels, slot * g.history + step, channel);
    DivModUnique(Cell(g, slot, step, channel), g.channels, slot' * g.history + step', channel');
    DivModUnique(slot * g.history + step, g.history, slot, step);
    DivModUnique(slot * g.history + step, g.history, slot', step');
  }

  /** Size of a pool with that many slots. */
  function PoolCells(g: Geometry, slots: nat): nat {
    slots * g.history * g.channels
  }

  lemma CellBound(g: Geometry, slots: nat, slot: int, step: int, channel: int)
    requires InGeometry(g, slot, step, channel) && slot < slots
    ensures 0 <= Cell(g, slot, step, channel) < PoolCells(g, slots)
  {
    DigitBound(slot, step, g.history, slots);
    DigitBound(slot * g.history + step, channel, g.channels, slots * g.history);
  }

  function StateAt(g: Geometry, s: seq<real>, slot: int, step: int, channel: int): real {
    At(s, Cell(g, slot, step, channel))
  }

  /** The history of one channel in one slot, oldest input first. */
  function Lane(g: Geometry, s: seq<real>, slot: int, channel: int): int -> real {
    step => StateAt(g, s, slot, step, channel)
  }

  ghost predicate LaneStepped(g: Geometry, before: seq<real>, after: seq<real>, slot: int, channel: int, x: real) {
    forall step :: 0 <= step < g.history ==>
      Lane(g, after, slot, channel)(step) == NextLane(g.history, Lane(g, before, slot, channel), x)(step)
  }

  ghost predicate LaneKept(g: Geometry, before: seq<real>, after: seq<real>, slot: int, channel: int) {
    forall step :: 0 <= step < g.history ==> Lane(g, after, slot, channel)(step) == Lane(g, before, slot, channel)(step)
  }

  lemma KeptThenStepped(g: Geometry, start: seq<real>, before: seq<real>, after: seq<real>, slot: int, channel: int,
                        x: real)
    requires LaneKept(g, start, before, slot, channel) && LaneStepped(g, before, after, slot, channel, x)
    ensures LaneStepped(g, start, after, slot, channel, x)
  {
    forall step | 0 <= step < g.history
      ensures Lane(g, after, slot, channel)(step) == NextLane(g.history, Lane(g, start, slot, channel), x)(step)
    {
      if step + 1 < g.history {
        assert Lane(g, before, slot, channel)(step + 1) == Lane(g, start, slot, channel)(step + 1);
      }
    }
  }

  lemma SteppedThenKept(g: Geometry, start: seq<real>, before: seq<real>, after: seq<real>, slot: int, channel: int,
                        x: real)
    requires LaneStepped(g, start, before, slot, channel, x) && LaneKept(g, before, after, slot, channel)
    ensures LaneStepped(g, start, after, slot, channel, x)
  {
  }

  lemma KeptTwice(g: Geometry, start: seq<real>, before: seq<real>, after: seq<real>, slot: int, channel: int)
    requires LaneKept(g, start, before, slot, channel) && LaneKept(g, before, after, slot, channel)
    ensures LaneKept(g, start, after, slot, channel)
  {
  }

  // ---------- the CPU step ----------

  function Validate(input: nat, weight: nat, state: nat, channels: nat, kernelSize: nat): (r: Result<(), KernelError>)
    ensures r.Ok? <==>
              kernelSize >= 2 && input == channels && MatrixLen(weight, channels, kernelSize)
              && MatrixLen(state, kernelSize - 1, channels)
  {
    if channels == 0 || kernelSize == 0 then Err(InvalidArgument)
    else if input != channels then Err(ShapeMismatch)
    else
      var _ :- ValidateMatrixLen(weight, channels, kernelSize);
      ValidateMatrixLen(state, kernelSize - 1, channels)
  }

  method Outputs(input: seq<real>, weight: seq<real>, state: seq<real>, g: Geometry) returns (output: seq<real>)
    requires |input| == g.channels
    ensures |output| == g.channels
    ensures forall c: nat :: c < g.channels ==>
              output[c] == Convolve(g.history, Row(weight, c * (g.history + 1)), Lane(g, state, 0, c), input[c])
  {
    output := [];
    for channel := 0 to g.channels
      invariant |output| == channel
      invariant forall c: nat :: c < channel ==>
                  output[c] == Convolve(g.history, Row(weight, c * (g.history + 1)), Lane(g, state, 0, c), input[c])
    {
      var w := Row(weight, channel * (g.history + 1));
      var value := w(g.history) * input[channel];
      var older := SequentialSum(g.history, Times(w, Lane(g, state, 0, channel)));
      output := output + [value + older];
    }
  }

  /** `copy_within` moves all rows up by one; the input becomes the last row. */
  method ShiftRows(state: array<real>, input: seq<real>, g: Geometry)
    requires g.history > 0 && state.Length == g.history * g.channels && |input| == g.channels
    modifies state
    ensures forall c: nat :: c < g.channels ==> LaneStepped(g, old(state[..]), state[..], 0, c, input[c])
  {
    ghost var start := state[..];
    var last := (g.history - 1) * g.channels;
    assert last + g.channels == state.Length;
    assert last >= 0 by { MulLe(0, g.history - 1, g.channels); }
    forall i | 0 <= i < last {
      state[i] := state[i + g.channels];
    }
    forall i | 0 <= i < g.channels {
      state[last + i] := input[i];
    }
    assert forall i :: 0 <= i < last ==> state[..][i] == start[i + g.channels];
    assert forall i :: 0 <= i < g.channels ==> state[..][last + i] == input[i];
    ShiftedLanes(g, start, state[..], input, last);
  }

  lemma ShiftedLanes(g: Geometry, start: seq<real>, now: seq<real>, input: seq<real>, last: nat)
    requires g.history > 0 && |start| == |now| == g.history * g.channels && |input| == g.channels
             && last == (g.history - 1) * g.channels
    requires last + g.channels == |now|
    requires forall i :: 0 <= i < last ==> now[i] == start[i + g.channels]
    requires forall i :: 0 <= i < g.channels ==> now[last + i] == input[i]
    ensures forall c: nat :: c < g.channels ==> LaneStepped(g, start, now, 0, c, input[c])
  {
    forall c: nat, step | c < g.channels && 0 <= step < g.history
      ensures Lane(g, now, 0, c)(step) == NextLane(g.history, Lane(g, start, 0, c), input[c])(step)
    {
      ShiftedCell(g, start, now, input, last, c, step);
    }
  }

  lemma ShiftedCell(g: Geometry, start: seq<real>, now: seq<real>, input: seq<real>, last: nat, c: nat, step: nat)
    requires g.history > 0 && |start| == |now| == g.history * g.channels && |input| == g.channels
             && last == (g.history - 1) * g.channels
    requires last + g.channels == |now|
    requires forall i :: 0 <= i < last ==> now[i] == start[i + g.channels]
    requires forall i :: 0 <= i < g.channels ==> now[last + i] == input[i]
    requires c < g.channels && step < g.history
    ensures StateAt(g, now, 0, step, c) == if step + 1 < g.history then StateAt(g, start, 0, step + 1, c) else input[c]
  {
    DigitBound(step, c, g.channels, g.history);
    if step + 1 < g.history {
      DigitBound(step, c, g.channels, g.history - 1);
      assert Cell(g, 0, step + 1, c) == Cell(g, 0, step, c) + g.channels;
    } else {
      assert Cell(g, 0, step, c) == last + c;
    }
  }

  /**
   * `causal_depthwise_conv1d_step`: every channel is convolved with its history, then the history moves up. A kernel of
   * size one is always rejected, since its empty history fails the state check.
   */
  method Step(input: seq<real>, weight: seq<real>, state: array<real>, channels: nat, kernelSize: nat)
    returns (r: Result<seq<real>, KernelError>)
    modifies state
    ensures r.Ok? <==>
              kernelSize >= 2 && |input| == channels && MatrixLen(|weight|, channels, kernelSize)
              && MatrixLen(state.Length, kernelSize - 1, channels)
    ensures r.Err? ==>
              r.error == Validate(|input|, |weight|, state.Length, channels, kernelSize).error
              && state[..] == old(state[..])
    ensures r.Ok? ==> kernelSize >= 2 && |r.value| == |input| == channels
    ensures r.Ok? ==> var g := Geometry(kernelSize - 1, channels);
              forall c: nat :: c < channels ==>
                && r.value[c]
                   == Convolve(g.history, Row(weight, c * kernelSize), Lane(g, old(state[..]), 0, c), input[c])
                && LaneStepped(g, old(state[..]), state[..], 0, c, input[c])
  {
    if channels == 0 || kernelSize == 0 {
      return Err(InvalidArgument);
    }
    if |input| != channels {
      return Err(ShapeMismatch);
    }
    var _ :- ValidateMatrixLen(|weight|, channels, kernelSize);
    var _ :- ValidateMatrixLen(state.Length, kernelSize - 1, channels);
    var g := Geometry(kernelSize - 1, channels);
    var output := Outputs(input, weight, state[..], g);
    ShiftRows(state, input, g);
    return Ok(output);
  }

  // ---------- streaming is windowed convolution ----------

  /** Input i of a channel; inputs before the first are zero. */
  function InputAt(inputs: seq<seq<real>>, c: nat, i: int): real {
    if 0 <= i < |inputs| then At(inputs[i], c) else 0.0
  }

  /** The window of kernelSize inputs that ends at input n. */
  function Window(inputs: seq<seq<real>>, c: nat, kernelSize: nat, n: int): int -> real {
    j => InputAt(inputs, c, n - (kernelSize - 1) + j)
  }

  /** Direct causal convolution at position n. */
  function Direct(inputs: seq<seq<real>>, weight: seq<real>, c: nat, kernelSize: nat, n: int): real {
    Sum(kernelSize, Times(Row(weight, c * kernelSize), Window(inputs, c, kernelSize, n)))
  }

  /** The state holds the inputs just before position n. */
  ghost predicate Remembers(g: Geometry, inputs: seq<seq<real>>, n: nat, state: seq<real>) {
    forall c: nat, step :: c < g.channels && 0 <= step < g.history ==>
      Lane(g, state, 0, c)(step) == InputAt(inputs, c, n - g.history + step)
  }

  lemma ConvolveIsSum(history: nat, w: int -> real, lane: int -> real, x: real, window: int -> real)
    requires window(history) == x && forall i :: 0 <= i < history ==> lane(i) == window(i)
    ensures Convolve(history, w, lane, x) == Sum(history + 1, Times(w, window))
  {
    SumExt(history, Times(w, lane), Times(w, window));
  }

  lemma StepIsDirect(g: Geometry, inputs: seq<seq<real>>, weight: seq<real>, n: nat, state: seq<real>, c: nat)
    requires n < |inputs| && c < g.channels && Remembers(g, inputs, n, state)
    ensures Convolve(g.history, Row(weight, c * (g.history + 1)), Lane(g, state, 0, c), At(inputs[n], c))
         == Direct(inputs, weight, c, g.history + 1, n)
  {
    var window := Window(inputs, c, g.history + 1, n);
    assert window(g.history) == InputAt(inputs, c, n);
    ConvolveIsSum(g.history, Row(weight, c * (g.history + 1)), Lane(g, state, 0, c), At(inputs[n], c), window);
  }

  lemma RemembersNext(g: Geometry, inputs: seq<seq<real>>, n: nat, before: seq<real>, after: seq<real>)
    requires n < |inputs| && Remembers(g, inputs, n, before)
    requires forall c: nat :: c < g.channels ==> LaneStepped(g, before, after, 0, c, At(inputs[n], c))
    ensures Remembers(g, inputs, n + 1, after)
  {
    forall c: nat, step | c < g.channels && 0 <= step < g.history
      ensures Lane(g, after, 0, c)(step) == InputAt(inputs, c, n + 1 - g.history + step)
    {
      assert LaneStepped(g, before, after, 0, c, At(inputs[n], c));
      if step + 1 < g.history {
        assert Lane(g, before, 0, c)(step + 1) == InputAt(inputs, c, n - g.history + (step + 1));
      }
    }
  }

  /** From a zero state, feeding any number of inputs yields the direct convolution at every position and channel. */
  method Stream(inputs: seq<seq<real>>, weight: seq<real>, channels: nat, kernelSize: nat)
    returns (outputs: seq<seq<real>>)
    requires kernelSize >= 2 && MatrixLen(|weight|, channels, kernelSize) && (kernelSize - 1) * channels <= USIZE_MAX
    requires forall i :: 0 <= i < |inputs| ==> |inputs[i]| == channels
    ensures |outputs| == |inputs|
    ensures forall n :: 0 <= n < |inputs| ==> |outputs[n]| == channels
    ensures forall n, c: nat :: 0 <= n < |inputs| && c < channels ==>
              outputs[n][c] == Direct(inputs, weight, c, kernelSize, n)
  {
    var g := Geometry(kernelSize - 1, channels);
    MulPos(kernelSize - 1, channels);
    var state := new real[(kernelSize - 1) * channels](_ => 0.0);
    outputs := [];
    for n := 0 to |inputs|
      invariant |outputs| == n && forall i :: 0 <= i < n ==> |outputs[i]| == channels
      invariant forall i, c: nat :: 0 <= i < n && c < channels ==>
                  outputs[i][c] == Direct(inputs, weight, c, kernelSize, i)
      invariant Remembers(g, inputs, n, state[..])
    {
      ghost var before := state[..];
      var r := Step(inputs[n], weight, state, channels, kernelSize);
      assert r.Ok?;
      forall c: nat | c < channels
        ensures r.value[c] == Direct(inputs, weight, c, kernelSize, n)
      {
        StepIsDirect(g, inputs, weight, n, before, c);
      }
      RemembersNext(g, inputs, n, before, state[..]);
      outputs := outputs + [r.value];
    }
  }

  // ---------- the segment kernel ----------

  /** Storing one element changes that element only. */
  method Store(g: Geometry, state: array<real>, slot: nat, step: nat, channel: nat, x: real, ghost slots: nat)
    requires state.Length == PoolCells(g, slots) && slot < slots && InGeometry(g, slot, step, channel)
    modifies state
    ensures forall slot', step', c :: InGeometry(g, slot', step', c) && slot' < slots ==>
              StateAt(g, state[..], slot', step', c)
              == if slot' == slot && step' == step && c == channel then x
                 else old(StateAt(g, state[..], slot', step', c))
  {
    CellBound(g, slots, slot, step, channel);
    state[Cell(g, slot, step, channel)] := x;
    forall slot', step', c | InGeometry(g, slot', step', c) && slot' < slots
      ensures StateAt(g, state[..], slot', step', c)
           == if slot' == slot && step' == step && c == channel then x else old(StateAt(g, state[..], slot', step', c))
    {
      CellBound(g, slots, slot', step', c);
      if Cell(g, slot', step', c) == Cell(g, slot, step, channel) {
        CellInjective(g, slot, step, channel, slot', step', c);
      }
    }
  }

  function Moved(lane: int -> real, done: int): int -> real {
    step => if step < done then lane(step + 1) else lane(step)
  }

  /** The first `done` entries of the lane have moved up, everything else is as before. */
  ghost predicate Shifting(g: Geometry, start: seq<real>, now: seq<real>, slots: nat, slot: nat, channel: nat,
                           done: nat) {
    && (forall step :: 0 <= step < g.history ==>
          Lane(g, now, slot, channel)(step) == Moved(Lane(g, start, slot, channel), done)(step))
    && (forall slot': nat, c: nat :: slot' < slots && c < g.channels && (slot', c) != (slot, channel) ==>
          LaneKept(g, start, now, slot', c))
  }

  /** Storing into one lane keeps all the others. */
  method StoreInLane(g: Geometry, state: array<real>, slot: nat, step: nat, channel: nat, x: real, ghost slots: nat)
    requires state.Length == PoolCells(g, slots) && slot < slots && InGeometry(g, slot, step, channel)
    modifies state
    ensures forall step' :: 0 <= step' < g.history ==>
              Lane(g, state[..], slot, channel)(step')
              == if step' == step then x else Lane(g, old(state[..]), slot, channel)(step')
    ensures forall slot': nat, c: nat :: slot' < slots && c < g.channels && (slot', c) != (slot, channel) ==>
              LaneKept(g, old(state[..]), state[..], slot', c)
  {
    Store(g, state, slot, step, channel, x, slots);
  }

  /** A thread shifts its own lane in place, oldest entry first, and appends its input. */
  method ShiftLane(g: Geometry, state: array<real>, slot: nat, channel: nat, x: real, ghost slots: nat)
    requires g.history > 0 && state.Length == PoolCells(g, slots) && slot < slots && channel < g.channels
    modifies state
    ensures LaneStepped(g, old(state[..]), state[..], slot, channel, x)
    ensures forall slot': nat, c: nat :: slot' < slots && c < g.channels && (slot', c) != (slot, channel) ==>
              LaneKept(g, old(state[..]), state[..], slot', c)
  {
    ghost var start := state[..];
    for step := 0 to g.history - 1
      invariant Shifting(g, start, state[..], slots, slot, channel, step)
    {
      ghost var before := state[..];
      var newer := Lane(g, state[..], slot, channel)(step + 1);
      assert newer == Moved(Lane(g, start, slot, channel), step)(step + 1);
      StoreInLane(g, state, slot, step, channel, newer, slots);
      OthersKept(g, start, before, state[..], slots, slot, channel);
    }
    ghost var before := state[..];
    StoreInLane(g, state, slot, g.history - 1, channel, x, slots);
    OthersKept(g, start, before, state[..], slots, slot, channel);
  }

  lemma OthersKept(g: Geometry, start: seq<real>, before: seq<real>, after: seq<real>, slots: nat, slot: nat,
                   channel: nat)
    requires forall slot': nat, c: nat :: slot' < slots && c < g.channels && (slot', c) != (slot, channel) ==>
               LaneKept(g, start, before, slot', c)
    requires forall slot': nat, c: nat :: slot' < slots && c < g.channels && (slot', c) != (slot, channel) ==>
               LaneKept(g, before, after, slot', c)
    ensures forall slot': nat, c: nat :: slot' < slots && c < g.channels && (slot', c) != (slot, channel) ==>
              LaneKept(g, start, after, slot', c)
  {
    forall slot': nat, c: nat | slot' < slots && c < g.channels && (slot', c) != (slot, channel)
      ensures LaneKept(g, start, after, slot', c)
    {
      KeptTwice(g, start, before, after, slot', c);
    }
  }

  /** One channel segment: batch-major input and output, channel-major weights. */
  datatype Segment = Segment(channels: nat, input: seq<real>, weight: seq<real>)

  /** The output of one channel of one batch item. */
  function SegmentOutput(g: Geometry, seg: Segment, offset: nat, pool: seq<real>, slot: nat, batch: nat, c: nat): real {
    Convolve(g.history, Row(seg.weight, c * (g.history + 1)), Lane(g, pool, slot, offset + c),
             Element(seg.input, seg.channels, batch, c))
  }

  ghost predicate ThreadDone(g: Geometry, seg: Segment, offset: nat, slot: nat, batch: nat, c: nat, before: seq<real>,
                             after: seq<real>, output: seq<real>) {
    && LaneStepped(g, before, after, slot, offset + c, Element(seg.input, seg.channels, batch, c))
    && Element(output, seg.channels, batch, c) == SegmentOutput(g, seg, offset, before, slot, batch, c)
  }

  /** The lane belongs to the segment in one of the named slots. */
  ghost predicate Touched(seg: Segment, offset: nat, slots: seq<nat>, slot: nat, channel: nat) {
    slot in slots && offset <= channel < offset + seg.channels
  }

  ghost predicate LaunchState(g: Geometry, seg: Segment, offset: nat, slots: seq<nat>, slotCount: nat,
                              pending: set<(nat, nat)>,
                              start: seq<real>, now: seq<real>, output: seq<real>) {
    && |output| == |slots| * seg.channels
    && (forall b: nat, c: nat :: b < |slots| && c < seg.channels && (b, c) in pending ==>
          LaneKept(g, start, now, slots[b], offset + c))
    && (forall b: nat, c: nat :: b < |slots| && c < seg.channels && (b, c) !in pending ==>
          ThreadDone(g, seg, offset, slots[b], b, c, start, now, output))
    && (forall slot: nat, c: nat :: slot < slotCount && c < g.channels && !Touched(seg, offset, slots, slot, c) ==>
          LaneKept(g, start, now, slot, c))
  }

  lemma ThreadRan(g: Geometry, seg: Segment, offset: nat, slots: seq<nat>, slotCount: nat, pending: set<(nat, nat)>,
                  batch: nat, channel: nat,
                  start: seq<real>, before: seq<real>, after: seq<real>, output: seq<real>, output': seq<real>,
                  value: real)
    requires Delta.AllInRange(slots, slotCount) && NoDup(slots) && offset + seg.channels <= g.channels
    requires batch < |slots| && channel < seg.channels && (batch, channel) in pending
    requires LaunchState(g, seg, offset, slots, slotCount, pending, start, before, output)
    requires LaneStepped(g, before, after, slots[batch], offset + channel,
                         Element(seg.input, seg.channels, batch, channel))
    requires forall slot: nat, c: nat ::
               slot < slotCount && c < g.channels && (slot, c) != (slots[batch], offset + channel) ==>
                 LaneKept(g, before, after, slot, c)
    requires value == SegmentOutput(g, seg, offset, before, slots[batch], batch, channel)
    requires batch * seg.channels + channel < |output| && output' == output[batch * seg.channels + channel := value]
    ensures LaunchState(g, seg, offset, slots, slotCount, pending - {(batch, channel)}, start, after, output')
  {
    ThisThread(g, seg, offset, slots[batch], batch, channel, start, before, after, output', value);
    forall b: nat, c: nat | b < |slots| && c < seg.channels && (b, c) != (batch, channel)
      ensures (b, c) in pending ==> LaneKept(g, start, after, slots[b], offset + c)
      ensures (b, c) !in pending ==> ThreadDone(g, seg, offset, slots[b], b, c, start, after, output')
    {
      CellsApart(seg.channels, batch, channel, b, c);
      assert LaneKept(g, before, after, slots[b], offset + c);
      if (b, c) in pending {
        KeptTwice(g, start, before, after, slots[b], offset + c);
      } else {
        assert ThreadDone(g, seg, offset, slots[b], b, c, start, before, output);
        SteppedThenKept(g, start, before, after, slots[b], offset + c, Element(seg.input, seg.channels, b, c));
      }
    }
    forall slot: nat, c: nat | slot < slotCount && c < g.channels && !Touched(seg, offset, slots, slot, c)
      ensures LaneKept(g, start, after, slot, c)
    {
      KeptTwice(g, start, before, after, slot, c);
    }
  }

  lemma ThisThread(g: Geometry, seg: Segment, offset: nat, slot: nat, batch: nat, c: nat, start: seq<real>,
                   before: seq<real>, after: seq<real>,
                   output: seq<real>, value: real)
    requires LaneKept(g, start, before, slot, offset + c)
    requires LaneStepped(g, before, after, slot, offset + c, Element(seg.input, seg.channels, batch, c))
    requires value == SegmentOutput(g, seg, offset, before, slot, batch, c)
             && Element(output, seg.channels, batch, c) == value
    ensures ThreadDone(g, seg, offset, slot, batch, c, start, after, output)
  {
    var w := Row(seg.weight, c * (g.history + 1));
    KeptThenStepped(g, start, before, after, slot, offset + c, Element(seg.input, seg.channels, batch, c));
    ConvolveExt(g.history, w, w, Lane(g, before, slot, offset + c), Lane(g, start, slot, offset + c),
                Element(seg.input, seg.channels, batch, c));
  }

  /** One thread: convolve, then shift its lane. */
  method RunThread(g: Geometry, seg: Segment, offset: nat, state: array<real>, slot: nat, batch: nat, channel: nat,
                   ghost slotCount: nat) returns (value: real)
    requires g.history > 0 && offset + seg.channels <= g.channels && state.Length == PoolCells(g, slotCount)
    requires slot < slotCount && channel < seg.channels
    modifies state
    ensures LaneStepped(g, old(state[..]), state[..], slot, offset + channel,
                        Element(seg.input, seg.channels, batch, channel))
    ensures forall slot': nat, c: nat ::
              slot' < slotCount && c < g.channels && (slot', c) != (slot, offset + channel) ==>
                LaneKept(g, old(state[..]), state[..], slot', c)
    ensures value == SegmentOutput(g, seg, offset, old(state[..]), slot, batch, channel)
  {
    var x := Element(seg.input, seg.channels, batch, channel);
    var w, lane := Row(seg.weight, channel * (g.history + 1)), Lane(g, state[..], slot, offset + channel);
    value := w(g.history) * x;
    var older := SequentialSum(g.history, Times(w, lane));
    value := value + older;
    ShiftLane(g, state, slot, offset + channel, x, slotCount);
  }

  lemma NothingRun(g: Geometry, seg: Segment, offset: nat, slots: seq<nat>, slotCount: nat, pending: set<(nat, nat)>,
                   start: seq<real>, output: seq<real>)
    requires |output| == |slots| * seg.channels && pending == Tasks(|slots|, seg.channels)
    ensures LaunchState(g, seg, offset, slots, slotCount, pending, start, start, output)
  {
  }

  /** The launch of one segment: every (batch item, channel) once, in any order. */
  method LaunchSegment(g: Geometry, seg: Segment, offset: nat, slots: seq<nat>, slotCount: nat, state: array<real>)
    returns (output: seq<real>)
    requires g.history > 0 && offset + seg.channels <= g.channels && state.Length == PoolCells(g, slotCount)
    requires Delta.AllInRange(slots, slotCount) && NoDup(slots)
    modifies state
    ensures LaunchState(g, seg, offset, slots, slotCount, {}, old(state[..]), state[..], output)
  {
    output := seq(|slots| * seg.channels, _ => 0.0);
    ghost var start := state[..];
    var pending := Tasks(|slots|, seg.channels);
    NothingRun(g, seg, offset, slots, slotCount, pending, start, output);
    while pending != {}
      invariant forall b: nat, c: nat :: (b, c) in pending ==> b < |slots| && c < seg.channels
      invariant LaunchState(g, seg, offset, slots, slotCount, pending, start, state[..], output)
      decreases |pending|
    {
      var task :| task in pending;
      output := RunPending(g, seg, offset, slots, slotCount, pending, task.0, task.1, state, output, start);
      pending := pending - {task};
    }
  }

  /** One of the pending threads. */
  method RunPending(g: Geometry, seg: Segment, offset: nat, slots: seq<nat>, slotCount: nat,
                    ghost pending: set<(nat, nat)>, batch: nat, channel: nat,
                    state: array<real>, output: seq<real>, ghost start: seq<real>) returns (output': seq<real>)
    requires g.history > 0 && offset + seg.channels <= g.channels && state.Length == PoolCells(g, slotCount)
    requires Delta.AllInRange(slots, slotCount) && NoDup(slots)
    requires batch < |slots| && channel < seg.channels && (batch, channel) in pending
    requires LaunchState(g, seg, offset, slots, slotCount, pending, start, state[..], output)
    modifies state
    ensures LaunchState(g, seg, offset, slots, slotCount, pending - {(batch, channel)}, start, state[..], output')
  {
    ghost var before := state[..];
    var value := RunThread(g, seg, offset, state, slots[batch], batch, channel, slotCount);
    DigitBound(batch, channel, seg.channels, |slots|);
    output' := output[batch * seg.channels + channel := value];
    ThreadRan(g, seg, offset, slots, slotCount, pending, batch, channel, start, before, state[..], output, output',
              value);
  }

  // ---------- consecutive segments are one convolution ----------

  /** Where segment i begins: after the channels of the segments before it. */
  function Offset(segments: seq<Segment>, i: nat): nat
    requires i <= |segments|
  {
    if i == 0 then 0 else Offset(segments, i - 1) + segments[i - 1].channels
  }

  function Total(segments: seq<Segment>): nat {
    Offset(segments, |segments|)
  }

  /** Weights and inputs of the concatenated channels of the first n segments. */
  function JoinedWeight(segments: seq<Segment>, n: nat): seq<real>
    requires n <= |segments|
  {
    if n == 0 then [] else JoinedWeight(segments, n - 1) + segments[n - 1].weight
  }

  function ItemRow(seg: Segment, batch: nat): (row: seq<real>)
    ensures |row| == seg.channels
  {
    seq(seg.channels, c requires 0 <= c < seg.channels => Element(seg.input, seg.channels, batch, c))
  }

  function JoinedInput(segments: seq<Segment>, batch: nat, n: nat): seq<real>
    requires n <= |segments|
  {
    if n == 0 then [] else JoinedInput(segments, batch, n - 1) + ItemRow(segments[n - 1], batch)
  }

  ghost predicate Weighted(segments: seq<Segment>, kernelSize: nat) {
    forall i :: 0 <= i < |segments| ==> |segments[i].weight| == segments[i].channels * kernelSize
  }

  lemma {:induction false} OffsetMonotone(segments: seq<Segment>, i: nat, j: nat)
    requires i <= j <= |segments|
    ensures Offset(segments, i) <= Offset(segments, j)
    ensures i < j ==> Offset(segments, i) + segments[i].channels <= Offset(segments, j)
  {
    if i < j {
      OffsetMonotone(segments, i, j - 1);
    }
  }

  lemma {:induction false} JoinedInputSize(segments: seq<Segment>, batch: nat, n: nat)
    requires n <= |segments|
    ensures |JoinedInput(segments, batch, n)| == Offset(segments, n)
  {
    if n > 0 {
      JoinedInputSize(segments, batch, n - 1);
    }
  }

  lemma {:induction false} JoinedWeightSize(segments: seq<Segment>, kernelSize: nat, n: nat)
    requires Weighted(segments, kernelSize) && n <= |segments|
    ensures |JoinedWeight(segments, n)| == Offset(segments, n) * kernelSize
  {
    if n > 0 {
      JoinedWeightSize(segments, kernelSize, n - 1);
      SplitProduct(Offset(segments, n - 1), segments[n - 1].channels, kernelSize);
    }
  }

  /** Channel c of segment i is channel Offset(i) + c of the concatenation. */
  lemma {:induction false} JoinedInputAt(segments: seq<Segment>, batch: nat, n: nat, i: nat, c: nat)
    requires i < n <= |segments| && c < segments[i].channels
    ensures Offset(segments, i) + c < Offset(segments, n) == |JoinedInput(segments, batch, n)|
    ensures JoinedInput(segments, batch, n)[Offset(segments, i) + c]
         == Element(segments[i].input, segments[i].channels, batch, c)
  {
    JoinedInputSize(segments, batch, n - 1);
    if i < n - 1 {
      JoinedInputAt(segments, batch, n - 1, i, c);
    }
  }

  lemma {:induction false} JoinedWeightAt(segments: seq<Segment>, kernelSize: nat, n: nat, i: nat, c: nat)
    requires Weighted(segments, kernelSize) && i < n <= |segments| && c < segments[i].channels
    ensures Agree(kernelSize, Row(JoinedWeight(segments, n), (Offset(segments, i) + c) * kernelSize),
                  Row(segments[i].weight, c * kernelSize))
  {
    var before, last := JoinedWeight(segments, n - 1), segments[n - 1];
    JoinedWeightSize(segments, kernelSize, n - 1);
    if i < n - 1 {
      JoinedWeightAt(segments, kernelSize, n - 1, i, c);
      OffsetMonotone(segments, i, n - 1);
      WeightKept(before, last.weight, Offset(segments, n - 1), kernelSize, Offset(segments, i) + c);
    } else {
      WeightAppended(before, last.weight, Offset(segments, n - 1), kernelSize, c, last.channels);
    }
  }

  ghost predicate Agree(n: nat, a: int -> real, b: int -> real) {
    forall j :: 0 <= j < n ==> a(j) == b(j)
  }

  lemma WeightKept(a: seq<real>, b: seq<real>, rows: nat, kernelSize: nat, c: nat)
    requires |a| == rows * kernelSize && c < rows
    ensures Agree(kernelSize, Row(a + b, c * kernelSize), Row(a, c * kernelSize))
  {
    forall j | 0 <= j < kernelSize
      ensures Row(a + b, c * kernelSize)(j) == Row(a, c * kernelSize)(j)
    {
      DigitBound(c, j, kernelSize, rows);
      assert At(a + b, c * kernelSize + j) == At(a, c * kernelSize + j);
    }
  }

  lemma WeightAppended(a: seq<real>, b: seq<real>, rows: nat, kernelSize: nat, c: nat, more: nat)
    requires |a| == rows * kernelSize && |b| == more * kernelSize && c < more
    ensures Agree(kernelSize, Row(a + b, (rows + c) * kernelSize), Row(b, c * kernelSize))
  {
    assert (rows + c) * kernelSize == |a| + c * kernelSize;
    forall j | 0 <= j < kernelSize
      ensures Row(a + b, (rows + c) * kernelSize)(j) == Row(b, c * kernelSize)(j)
    {
      DigitBound(c, j, kernelSize, more);
      assert At(a + b, (rows + c) * kernelSize + j) == At(b, c * kernelSize + j);
    }
  }

  ghost predicate SegmentDone(g: Geometry, seg: Segment, offset: nat, slots: seq<nat>, start: seq<real>, now: seq<real>,
                              output: seq<real>) {
    forall b: nat, c: nat :: b < |slots| && c < seg.channels ==>
      ThreadDone(g, seg, offset, slots[b], b, c, start, now, output)
  }

  /** The segments up to i have run, each on its own range of channels; all other lanes are as before. */
  ghost predicate SegmentsRun(g: Geometry, segments: seq<Segment>, i: nat, slots: seq<nat>, slotCount: nat,
                              start: seq<real>, now: seq<real>, outputs: seq<seq<real>>) {
    && i <= |segments| && |outputs| == i
    && (forall j: nat :: j < i ==> SegmentDone(g, segments[j], Offset(segments, j), slots, start, now, outputs[j]))
    && (forall slot: nat, c: nat ::
          slot < slotCount && c < g.channels && !(slot in slots && c < Offset(segments, i)) ==>
            LaneKept(g, start, now, slot, c))
  }

  /** A segment keeps its result while another one runs on later channels. */
  lemma EarlierSegment(g: Geometry, seg: Segment, offset: nat, later: Segment, laterOffset: nat, slots: seq<nat>,
                       slotCount: nat,
                       start: seq<real>, before: seq<real>, after: seq<real>, output: seq<real>, next: seq<real>)
    requires offset + seg.channels <= laterOffset <= g.channels && Delta.AllInRange(slots, slotCount)
    requires SegmentDone(g, seg, offset, slots, start, before, output)
    requires LaunchState(g, later, laterOffset, slots, slotCount, {}, before, after, next)
    ensures SegmentDone(g, seg, offset, slots, start, after, output)
  {
    forall b: nat, c: nat | b < |slots| && c < seg.channels
      ensures ThreadDone(g, seg, offset, slots[b], b, c, start, after, output)
    {
      assert ThreadDone(g, seg, offset, slots[b], b, c, start, before, output);
      assert !Touched(later, laterOffset, slots, slots[b], offset + c);
      SteppedThenKept(g, start, before, after, slots[b], offset + c, Element(seg.input, seg.channels, b, c));
    }
  }

  /** The segment that just ran found its lanes untouched. */
  lemma ThisSegment(g: Geometry, seg: Segment, offset: nat, slots: seq<nat>, slotCount: nat, start: seq<real>,
                    before: seq<real>, after: seq<real>, output: seq<real>)
    requires Delta.AllInRange(slots, slotCount) && offset + seg.channels <= g.channels
    requires forall slot: nat, c: nat :: slot < slotCount && offset <= c < g.channels ==>
               LaneKept(g, start, before, slot, c)
    requires LaunchState(g, seg, offset, slots, slotCount, {}, before, after, output)
    ensures SegmentDone(g, seg, offset, slots, start, after, output)
  {
    forall b: nat, c: nat | b < |slots| && c < seg.channels
      ensures ThreadDone(g, seg, offset, slots[b], b, c, start, after, output)
    {
      assert ThreadDone(g, seg, offset, slots[b], b, c, before, after, output);
      ThisThread(g, seg, offset, slots[b], b, c, start, before, after, output, Element(output, seg.channels, b, c));
    }
  }

  lemma OtherLanesKept(g: Geometry, seg: Segment, offset: nat, slots: seq<nat>, slotCount: nat, start: seq<real>,
                       before: seq<real>, after: seq<real>, next: seq<real>)
    requires forall slot: nat, c: nat :: slot < slotCount && c < g.channels && !(slot in slots && c < offset) ==>
               LaneKept(g, start, before, slot, c)
    requires LaunchState(g, seg, offset, slots, slotCount, {}, before, after, next)
    ensures forall slot: nat, c: nat ::
              slot < slotCount && c < g.channels && !(slot in slots && c < offset + seg.channels) ==>
                LaneKept(g, start, after, slot, c)
  {
    forall slot: nat, c: nat | slot < slotCount && c < g.channels && !(slot in slots && c < offset + seg.channels)
      ensures LaneKept(g, start, after, slot, c)
    {
      assert !Touched(seg, offset, slots, slot, c);
      KeptTwice(g, start, before, after, slot, c);
    }
  }

  lemma SegmentRan(g: Geometry, segments: seq<Segment>, i: nat, slots: seq<nat>, slotCount: nat,
                   start: seq<real>, before: seq<real>, after: seq<real>, outputs: seq<seq<real>>, next: seq<real>)
    requires i < |segments| && Delta.AllInRange(slots, slotCount)
             && Offset(segments, i) + segments[i].channels <= g.channels
    requires SegmentsRun(g, segments, i, slots, slotCount, start, before, outputs)
    requires LaunchState(g, segments[i], Offset(segments, i), slots, slotCount, {}, before, after, next)
    ensures SegmentsRun(g, segments, i + 1, slots, slotCount, start, after, outputs + [next])
  {
    forall j: nat | j < i
      ensures SegmentDone(g, segments[j], Offset(segments, j), slots, start, after, outputs[j])
    {
      OffsetMonotone(segments, j, i);
      EarlierSegment(g, segments[j], Offset(segments, j), segments[i], Offset(segments, i), slots, slotCount, start,
                     before, after, outputs[j], next);
    }
    ThisSegment(g, segments[i], Offset(segments, i), slots, slotCount, start, before, after, next);
    OtherLanesKept(g, segments[i], Offset(segments, i), slots, slotCount, start, before, after, next);
  }

  method LaunchNext(g: Geometry, segments: seq<Segment>, i: nat, slots: seq<nat>, slotCount: nat, state: array<real>,
                    outputs: seq<seq<real>>, ghost start: seq<real>) returns (outputs': seq<seq<real>>)
    requires i < |segments| && g.history > 0 && g.channels == Total(segments)
    requires state.Length == PoolCells(g, slotCount) && Delta.AllInRange(slots, slotCount) && NoDup(slots)
    requires SegmentsRun(g, segments, i, slots, slotCount, start, state[..], outputs)
    modifies state
    ensures SegmentsRun(g, segments, i + 1, slots, slotCount, start, state[..], outputs')
  {
    ghost var before := state[..];
    OffsetMonotone(segments, i, |segments|);
    var next := LaunchSegment(g, segments[i], Offset(segments, i), slots, slotCount, state);
    SegmentRan(g, segments, i, slots, slotCount, start, before, state[..], outputs, next);
    outputs' := outputs + [next];
  }

  lemma NoSegmentRun(g: Geometry, segments: seq<Segment>, slots: seq<nat>, slotCount: nat, start: seq<real>)
    ensures SegmentsRun(g, segments, 0, slots, slotCount, start, start, [])
  {
  }

  /** Launching the segments one after the other, each at the channel offset where the previous one ended. */
  method LaunchSegments(g: Geometry, segments: seq<Segment>, slots: seq<nat>, slotCount: nat, state: array<real>)
    returns (outputs: seq<seq<real>>)
    requires g.history > 0 && g.channels == Total(segments) && state.Length == PoolCells(g, slotCount)
    requires Delta.AllInRange(slots, slotCount) && NoDup(slots)
    modifies state
    ensures SegmentsRun(g, segments, |segments|, slots, slotCount, old(state[..]), state[..], outputs)
  {
    ghost var start := state[..];
    outputs := [];
    NoSegmentRun(g, segments, slots, slotCount, start);
    for i := 0 to |segments|
      invariant SegmentsRun(g, segments, i, slots, slotCount, start, state[..], outputs)
    {
      outputs := LaunchNext(g, segments, i, slots, slotCount, state, outputs, start);
    }
  }

  /** A pool slot holds a CPU state. */
  ghost predicate SlotHolds(g: Geometry, pool: seq<real>, slot: nat, cpu: seq<real>) {
    forall c: nat :: c < g.channels ==> LanesAgree(g, pool, slot, cpu, c)
  }

  ghost predicate LanesAgree(g: Geometry, pool: seq<real>, slot: nat, cpu: seq<real>, c: nat) {
    forall step :: 0 <= step < g.history ==> Lane(g, pool, slot, c)(step) == Lane(g, cpu, 0, c)(step)
  }

  /** Every channel lies in some segment. */
  lemma {:induction false} SegmentOf(segments: seq<Segment>, n: nat, channel: nat) returns (i: nat, c: nat)
    requires n <= |segments| && channel < Offset(segments, n)
    ensures i < n && c < segments[i].channels && Offset(segments, i) + c == channel
  {
    if channel < Offset(segments, n - 1) {
      i, c := SegmentOf(segments, n - 1, channel);
    } else {
      i, c := n - 1, channel - Offset(segments, n - 1);
    }
  }

  lemma LanesStayEqual(g: Geometry, pool: seq<real>, pool': seq<real>, slot: nat, cpu: seq<real>, cpu': seq<real>,
                       c: nat, x: real)
    requires LanesAgree(g, pool, slot, cpu, c) && LaneStepped(g, pool, pool', slot, c, x)
             && LaneStepped(g, cpu, cpu', 0, c, x)
    ensures LanesAgree(g, pool', slot, cpu', c)
  {
    forall step | 0 <= step < g.history
      ensures Lane(g, pool', slot, c)(step) == Lane(g, cpu', 0, c)(step)
    {
      if step + 1 < g.history {
        assert Lane(g, pool, slot, c)(step + 1) == Lane(g, cpu, 0, c)(step + 1);
      }
    }
  }

  /** What a CPU step establishes for one channel. */
  ghost predicate ChannelStep(g: Geometry, input: seq<real>, weight: seq<real>, before: seq<real>, after: seq<real>,
                              out: seq<real>, c: nat) {
    && At(out, c) == Convolve(g.history, Row(weight, c * (g.history + 1)), Lane(g, before, 0, c), At(input, c))
    && LaneStepped(g, before, after, 0, c, At(input, c))
  }

  /** One channel: the thread of a segment and the CPU agree when input and weights do. */
  lemma SameChannel(g: Geometry, seg: Segment, offset: nat, slot: nat, batch: nat, c: nat, pool: seq<real>,
                    pool': seq<real>, output: seq<real>,
                    input: seq<real>, weight: seq<real>, cpu: seq<real>, cpu': seq<real>, out: seq<real>)
    requires ThreadDone(g, seg, offset, slot, batch, c, pool, pool', output)
    requires ChannelStep(g, input, weight, cpu, cpu', out, offset + c) && LanesAgree(g, pool, slot, cpu, offset + c)
    requires At(input, offset + c) == Element(seg.input, seg.channels, batch, c)
    requires Agree(g.history + 1, Row(weight, (offset + c) * (g.history + 1)), Row(seg.weight, c * (g.history + 1)))
    ensures LanesAgree(g, pool', slot, cpu', offset + c)
            && Element(output, seg.channels, batch, c) == At(out, offset + c)
  {
    var x := At(input, offset + c);
    LanesStayEqual(g, pool, pool', slot, cpu, cpu', offset + c, x);
    ConvolveExt(g.history, Row(seg.weight, c * (g.history + 1)), Row(weight, (offset + c) * (g.history + 1)),
                Lane(g, pool, slot, offset + c), Lane(g, cpu, 0, offset + c), x);
  }

  /** What the CPU step on the concatenated channels of one batch item establishes. */
  ghost predicate WholeStep(g: Geometry, segments: seq<Segment>, batch: nat, before: seq<real>, after: seq<real>,
                            out: seq<real>) {
    forall c: nat :: c < g.channels ==>
      ChannelStep(g, JoinedInput(segments, batch, |segments|), JoinedWeight(segments, |segments|), before, after, out,
                  c)
  }

  lemma SegmentChannel(g: Geometry, segments: seq<Segment>, slots: seq<nat>, slotCount: nat, pool: seq<real>,
                       pool': seq<real>, outputs: seq<seq<real>>,
                       batch: nat, cpu: seq<real>, cpu': seq<real>, out: seq<real>, i: nat, c: nat, channel: nat)
    requires g.channels == Total(segments) && Weighted(segments, g.history + 1) && batch < |slots|
    requires SegmentsRun(g, segments, |segments|, slots, slotCount, pool, pool', outputs)
    requires SlotHolds(g, pool, slots[batch], cpu) && WholeStep(g, segments, batch, cpu, cpu', out)
    requires i < |segments| && c < segments[i].channels && channel == Offset(segments, i) + c
    ensures LanesAgree(g, pool', slots[batch], cpu', channel)
    ensures Element(outputs[i], segments[i].channels, batch, c) == At(out, channel)
  {
    var offset, seg, n := Offset(segments, i), segments[i], |segments|;
    JoinedInputAt(segments, batch, n, i, c);
    JoinedWeightAt(segments, g.history + 1, n, i, c);
    assert SegmentDone(g, seg, offset, slots, pool, pool', outputs[i]);
    assert ThreadDone(g, seg, offset, slots[batch], batch, c, pool, pool', outputs[i]);
    SameChannel(g, seg, offset, slots[batch], batch, c, pool, pool', outputs[i], JoinedInput(segments, batch, n),
                JoinedWeight(segments, n), cpu, cpu', out);
  }

  lemma ChannelStaysEqual(g: Geometry, segments: seq<Segment>, slots: seq<nat>, slotCount: nat, pool: seq<real>,
                          pool': seq<real>, outputs: seq<seq<real>>,
                          batch: nat, cpu: seq<real>, cpu': seq<real>, out: seq<real>, channel: nat)
    requires g.channels == Total(segments) && Weighted(segments, g.history + 1) && batch < |slots|
             && channel < g.channels
    requires SegmentsRun(g, segments, |segments|, slots, slotCount, pool, pool', outputs)
    requires SlotHolds(g, pool, slots[batch], cpu) && WholeStep(g, segments, batch, cpu, cpu', out)
    ensures LanesAgree(g, pool', slots[batch], cpu', channel)
  {
    var i, c := SegmentOf(segments, |segments|, channel);
    SegmentChannel(g, segments, slots, slotCount, pool, pool', outputs, batch, cpu, cpu', out, i, c, channel);
  }

  /**
   * Segment launches over consecutive channel ranges equal one CPU step on the concatenated channels: slots that held
   * CPU states hold them after the step, and every segment's outputs are its range of the CPU output.
   */
  lemma SegmentsAreWhole(g: Geometry, segments: seq<Segment>, slots: seq<nat>, slotCount: nat, pool: seq<real>,
                         pool': seq<real>, outputs: seq<seq<real>>,
                         batch: nat, cpu: seq<real>, cpu': seq<real>, out: seq<real>)
    requires g.channels == Total(segments) && Weighted(segments, g.history + 1) && batch < |slots|
    requires SegmentsRun(g, segments, |segments|, slots, slotCount, pool, pool', outputs)
    requires SlotHolds(g, pool, slots[batch], cpu) && WholeStep(g, segments, batch, cpu, cpu', out)
    ensures SlotHolds(g, pool', slots[batch], cpu')
    ensures forall i: nat, c: nat :: i < |segments| && c < segments[i].channels ==>
              Element(outputs[i], segments[i].channels, batch, c) == At(out, Offset(segments, i) + c)
  {
    forall channel: nat | channel < g.channels
      ensures LanesAgree(g, pool', slots[batch], cpu', channel)
    {
      ChannelStaysEqual(g, segments, slots, slotCount, pool, pool', outputs, batch, cpu, cpu', out, channel);
    }
    forall i: nat, c: nat | i < |segments| && c < segments[i].channels
      ensures Element(outputs[i], segments[i].channels, batch, c) == At(out, Offset(segments, i) + c)
    {
      SegmentChannel(g, segments, slots, slotCount, pool, pool', outputs, batch, cpu, cpu', out, i, c,
                     Offset(segments, i) + c);
    }
  }

  /** The CPU step on the concatenated channels. */
  method StepJoined(g: Geometry, segments: seq<Segment>, batch: nat, cpu: array<real>)
    returns (r: Result<seq<real>, KernelError>)
    requires g.history > 0 && g.channels == Total(segments)
    modifies cpu
    ensures r.Ok? ==> WholeStep(g, segments, batch, old(cpu[..]), cpu[..], r.value)
  {
    r := Step(JoinedInput(segments, batch, |segments|), JoinedWeight(segments, |segments|), cpu, g.channels,
              g.history + 1);
  }

  /** Both on one item: the kernel launches per segment, the CPU on the concatenation. */
  method CompareItem(g: Geometry, segments: seq<Segment>, slots: seq<nat>, slotCount: nat, pool: array<real>,
                     batch: nat, cpu: array<real>)
    returns (outputs: seq<seq<real>>, reference: Result<seq<real>, KernelError>)
    requires g.history > 0 && g.channels == Total(segments) && Weighted(segments, g.history + 1) && pool != cpu
    requires pool.Length == PoolCells(g, slotCount) && Delta.AllInRange(slots, slotCount) && NoDup(slots)
             && batch < |slots|
    requires SlotHolds(g, pool[..], slots[batch], cpu[..])
    modifies pool, cpu
    ensures |outputs| == |segments|
    ensures reference.Ok? ==> SlotHolds(g, pool[..], slots[batch], cpu[..])
    ensures reference.Ok? ==> forall i: nat, c: nat :: i < |segments| && c < segments[i].channels ==>
              Element(outputs[i], segments[i].channels, batch, c) == At(reference.value, Offset(segments, i) + c)
  {
    outputs := LaunchSegments(g, segments, slots, slotCount, pool);
    reference := StepJoined(g, segments, batch, cpu);
    if reference.Ok? {
      SegmentsAreWhole(g, segments, slots, slotCount, old(pool[..]), pool[..], outputs, batch, old(cpu[..]), cpu[..],
                       reference.value);
    }
  }
}
