/**
 * Packed int4 weights: decoding and dequantization (`compressed_tensors.rs`), the GEMV kernel that works on the packed
 * words (`cuda_w4a16.rs`), and the CPU `linear` it must agree with.
 */
module Int4Gemv {
  import opened Basics
  import opened Sums
  import opened Strides
  import opened CpuShapes

  const PACKED_FACTOR: nat := 8
  const TWO31: int := 0x8000_0000

  /** Threads of a block as the launcher starts it. */
  const BLOCK_SIZE: nat := 256

  ghost predicate IsI32(x: int) {
    -TWO31 <= x < TWO31
  }

  /** The cast between `u32` and `i32` reinterprets the bits. */
  function AsU32(x: int): (r: nat)
    ensures r < TWO32
  {
    x % TWO32
  }

  function AsI32(x: nat): int {
    var y := x % TWO32;
    if y < TWO31 then y else y - TWO32
  }

  /** `(word >> (k * 4)) & 0xf`: shifting by four bits is division by sixteen. */
  function Nibble(word: nat, k: nat): (r: nat)
    ensures r < 16
  {
    if k == 0 then word % 16 else Nibble(word / 16, k - 1)
  }

  // ---------- packing ----------

  ghost predicate Int4(q: seq<int>) {
    forall i :: 0 <= i < |q| ==> -8 <= q[i] < 8
  }

  /** Values offset by eight, least significant nibble first. */
  function PackWord(q: seq<int>): (r: nat)
    requires Int4(q)
  {
    if q == [] then 0 else (q[0] + 8) + 16 * PackWord(q[1..])
  }

  function UnpackWord(word: nat, n: nat): (q: seq<int>)
    ensures |q| == n
    ensures forall k: nat :: k < n ==> q[k] == Nibble(word, k) - 8
  {
    if n == 0 then [] else [word % 16 - 8] + UnpackWord(word / 16, n - 1)
  }

  function Pow16(n: nat): nat {
    if n == 0 then 1 else 16 * Pow16(n - 1)
  }

  lemma {:induction false} NibbleOfPacked(q: seq<int>, k: nat)
    requires Int4(q) && k < |q|
    ensures Nibble(PackWord(q), k) == q[k] + 8
  {
    if k > 0 {
      NibbleOfPacked(q[1..], k - 1);
    }
  }

  lemma {:induction false} PackedBelow(q: seq<int>)
    requires Int4(q)
    ensures PackWord(q) < Pow16(|q|)
  {
    if q != [] {
      PackedBelow(q[1..]);
    }
  }

  /** Packing is onto: a word is the packing of its own nibbles. */
  lemma {:induction false} PackOfUnpacked(word: nat, n: nat)
    requires word < Pow16(n)
    ensures Int4(UnpackWord(word, n)) && PackWord(UnpackWord(word, n)) == word
  {
    if n > 0 {
      PackOfUnpacked(word / 16, n - 1);
      assert UnpackWord(word, n)[1..] == UnpackWord(word / 16, n - 1);
    }
  }

  /** Eight values per `i32`. */
  function PackAll(q: seq<int>): (words: seq<int>)
    requires Int4(q)
    ensures |words| == |q| / PACKED_FACTOR
  {
    if |q| < PACKED_FACTOR then [] else [AsI32(PackWord(q[..PACKED_FACTOR]))] + PackAll(q[PACKED_FACTOR..])
  }

  lemma CastBack(x: nat)
    requires x < TWO32
    ensures AsU32(AsI32(x)) == x && IsI32(AsI32(x))
  {
  }

  lemma {:induction false} PackedWordAt(q: seq<int>, i: nat)
    requires Int4(q) && i < |q| / PACKED_FACTOR
    ensures PACKED_FACTOR * i + PACKED_FACTOR <= |q|
    ensures Int4(q[PACKED_FACTOR * i..PACKED_FACTOR * i + PACKED_FACTOR])
    ensures AsU32(PackAll(q)[i]) == PackWord(q[PACKED_FACTOR * i..PACKED_FACTOR * i + PACKED_FACTOR])
  {
    if i == 0 {
      var word := q[..PACKED_FACTOR];
      PackedBelow(word);
      assert Pow16(8) == TWO32;
      CastBack(PackWord(word));
      assert q[0..PACKED_FACTOR] == word;
    } else {
      var rest := q[PACKED_FACTOR..];
      PackedWordAt(rest, i - 1);
      assert rest[PACKED_FACTOR * (i - 1)..PACKED_FACTOR * (i - 1) + PACKED_FACTOR]
          == q[PACKED_FACTOR * i..PACKED_FACTOR * i + PACKED_FACTOR];
    }
  }

  // ---------- bytes ----------

  ghost predicate Bytes(b: seq<nat>) {
    forall i :: 0 <= i < |b| ==> b[i] < 256
  }

  /** `i32::from_le_bytes`. */
  function FromLe(b: seq<nat>): int
    requires |b| == 4
  {
    AsI32(b[0] + 256 * (b[1] + 256 * (b[2] + 256 * b[3])))
  }

  function ToLe(x: int): (b: seq<nat>)
    ensures |b| == 4
  {
    var u := AsU32(x);
    [u % 256, u / 256 % 256, u / 65536 % 256, u / 16777216]
  }

  /** `decode_i32`: a byte length that is no multiple of four is refused. */
  function DecodeI32(bytes: seq<nat>): (r: Option<seq<int>>)
    ensures r.Some? <==> |bytes| % 4 == 0
    ensures r.Some? ==> |r.value| * 4 == |bytes|
  {
    if |bytes| == 0 then Some([])
    else if |bytes| < 4 then None
    else match DecodeI32(bytes[4..])
      case None => None
      case Some(rest) => Some([FromLe(bytes[..4])] + rest)
  }

  /** `packed_i32_bytes`, on a little-endian host. */
  function EncodeI32(words: seq<int>): (bytes: seq<nat>)
    ensures |bytes| == 4 * |words|
  {
    if words == [] then [] else ToLe(words[0]) + EncodeI32(words[1..])
  }

  lemma HigherBytes(u: nat)
    ensures u / 65536 == u / 256 / 256 && u / 16777216 == u / 65536 / 256
  {
  }

  lemma WordRoundTrip(x: int)
    requires IsI32(x)
    ensures FromLe(ToLe(x)) == x
  {
    var u := AsU32(x);
    HigherBytes(u);
    var b1 := u / 256;
    var b2 := b1 / 256;
    assert b1 == b1 % 256 + 256 * b2 && b2 == b2 % 256 + 256 * (b2 / 256);
    assert AsI32(u) == x;
  }

  lemma BytesRoundTrip(b: seq<nat>)
    requires |b| == 4 && Bytes(b)
    ensures ToLe(FromLe(b)) == b
  {
    var b2 := b[2] + 256 * b[3];
    var b1 := b[1] + 256 * b2;
    var u := b[0] + 256 * b1;
    CastBack(u);
    assert u / 256 == b1 && b1 / 256 == b2;
    assert u / 65536 == b2 && u / 16777216 == b[3];
  }

  lemma {:induction false} DecodeOfEncoded(words: seq<int>)
    requires forall i :: 0 <= i < |words| ==> IsI32(words[i])
    ensures DecodeI32(EncodeI32(words)) == Some(words)
  {
    if words != [] {
      DecodeOfEncoded(words[1..]);
      WordRoundTrip(words[0]);
      var bytes := EncodeI32(words);
      assert bytes[..4] == ToLe(words[0]) && bytes[4..] == EncodeI32(words[1..]);
      assert words == [words[0]] + words[1..];
    }
  }

  lemma {:induction false} EncodeOfDecoded(bytes: seq<nat>)
    requires Bytes(bytes) && |bytes| % 4 == 0
    ensures EncodeI32(DecodeI32(bytes).value) == bytes
  {
    if bytes != [] {
      EncodeOfDecoded(bytes[4..]);
      BytesRoundTrip(bytes[..4]);
      var words := DecodeI32(bytes).value;
      assert words[1..] == DecodeI32(bytes[4..]).value;
      assert bytes == bytes[..4] + bytes[4..];
    }
  }

  // ---------- the weight matrix ----------

  datatype Weight = Weight(rows: nat, columns: nat, groupSize: nat, packed: seq<int>, scales: seq<real>)

  datatype ShapeError = ZeroDimension | NotDivisible

  /** `validate_shape`; loading a tensor makes the same two tests. */
  function ValidateShape(rows: nat, columns: nat, groupSize: nat): (r: Result<(), ShapeError>)
    ensures r.Ok? <==>
              rows > 0 && columns > 0 && groupSize > 0 && Rem(columns, PACKED_FACTOR) == 0
              && Rem(columns, groupSize) == 0
  {
    if rows == 0 || columns == 0 || groupSize == 0 then Err(ZeroDimension)
    else if Rem(columns, PACKED_FACTOR) != 0 || Rem(columns, groupSize) != 0 then Err(NotDivisible)
    else Ok(())
  }

  /** What loading establishes: a valid shape and tensors of the matching sizes. */
  ghost predicate Loaded(w: Weight) {
    && ValidateShape(w.rows, w.columns, w.groupSize).Ok?
    && |w.packed| == w.rows * Quot(w.columns, PACKED_FACTOR)
    && |w.scales| == w.rows * Quot(w.columns, w.groupSize)
  }

  function WordIndex(w: Weight, row: nat, column: nat): nat {
    row * Quot(w.columns, PACKED_FACTOR) + Quot(column, PACKED_FACTOR)
  }

  function ScaleIndex(w: Weight, row: nat, column: nat): nat
    requires w.groupSize > 0
  {
    row * Quot(w.columns, w.groupSize) + Quot(column, w.groupSize)
  }

  /** The columns of a group, and only they, share a scale; the scales of a row follow those of the row before. */
  lemma ScaleOfGroup(w: Weight, groups: nat, row: nat, column: nat, group: nat)
    requires w.groupSize > 0 && w.columns == groups * w.groupSize && column < w.columns && group < groups
    ensures ScaleIndex(w, row, column) == row * groups + group <==>
              group * w.groupSize <= column < group * w.groupSize + w.groupSize
  {
    QuotRemUnique(w.columns, w.groupSize, groups, 0);
    if group * w.groupSize <= column < group * w.groupSize + w.groupSize {
      QuotRemUnique(column, w.groupSize, group, column - group * w.groupSize);
    }
  }

  /** Elements of different rows do not share a scale. */
  lemma ScalesOfRows(w: Weight, row: nat, column: nat, row': nat, column': nat)
    requires Loaded(w) && column < w.columns && column' < w.columns
             && ScaleIndex(w, row, column) == ScaleIndex(w, row', column')
    ensures row == row'
  {
    var groups := Quot(w.columns, w.groupSize);
    QuotBelow(column, w.groupSize, groups);
    QuotBelow(column', w.groupSize, groups);
    DivModUnique(ScaleIndex(w, row, column), groups, row, Quot(column, w.groupSize));
    DivModUnique(ScaleIndex(w, row, column), groups, row', Quot(column', w.groupSize));
  }

  /** Every element of a loaded matrix has its word and its scale. */
  lemma IndicesInRange(w: Weight, row: nat, column: nat)
    requires Loaded(w) && row < w.rows && column < w.columns
    ensures WordIndex(w, row, column) < |w.packed| && ScaleIndex(w, row, column) < |w.scales|
  {
    QuotBelow(column, PACKED_FACTOR, Quot(w.columns, PACKED_FACTOR));
    DigitBound(row, Quot(column, PACKED_FACTOR), Quot(w.columns, PACKED_FACTOR), w.rows);
    QuotBelow(column, w.groupSize, Quot(w.columns, w.groupSize));
    DigitBound(row, Quot(column, w.groupSize), Quot(w.columns, w.groupSize), w.rows);
  }

  function Quantized(w: Weight, row: nat, column: nat): int
    requires Loaded(w) && row < w.rows && column < w.columns
  {
    IndicesInRange(w, row, column);
    Nibble(AsU32(w.packed[WordIndex(w, row, column)]), Rem(column, PACKED_FACTOR)) - 8
  }

  function Scale(w: Weight, row: nat, column: nat): real
    requires Loaded(w) && row < w.rows && column < w.columns
  {
    IndicesInRange(w, row, column);
    w.scales[ScaleIndex(w, row, column)]
  }

  /** Extraction inverts packing: the element at (row, column) is the value packed there. */
  lemma ExtractionInvertsPacking(w: Weight, q: seq<int>, row: nat, column: nat)
    requires Loaded(w) && row < w.rows && column < w.columns
    requires Int4(q) && |q| == w.rows * w.columns && w.packed == PackAll(q)
    ensures row * w.columns + column < |q| && Quantized(w, row, column) == q[row * w.columns + column]
  {
    DigitBound(row, column, w.columns, w.rows);
    IndicesInRange(w, row, column);
    var i, k := WordIndex(w, row, column), Rem(column, PACKED_FACTOR);
    WordAddress(w.columns, row, column);
    PackedWordAt(q, i);
    NibbleOfPacked(q[PACKED_FACTOR * i..PACKED_FACTOR * i + PACKED_FACTOR], k);
  }

  lemma WordAddress(columns: nat, row: nat, column: nat)
    requires Rem(columns, PACKED_FACTOR) == 0
    ensures PACKED_FACTOR * (row * Quot(columns, PACKED_FACTOR) + Quot(column, PACKED_FACTOR))
              + Rem(column, PACKED_FACTOR) == row * columns + column
  {
    var c := Quot(columns, PACKED_FACTOR);
    assert columns == c * PACKED_FACTOR;
    assert row * columns == PACKED_FACTOR * (row * c);
  }

  // ---------- dequantization ----------

  function Dequantized(w: Weight, row: nat, column: nat): real
    requires Loaded(w) && row < w.rows && column < w.columns
  {
    Quantized(w, row, column) as real * Scale(w, row, column)
  }

  method DequantizeRow(w: Weight, row: nat) returns (values: seq<real>)
    requires Loaded(w) && row < w.rows
    ensures |values| == w.columns && forall c: nat :: c < w.columns ==> values[c] == Dequantized(w, row, c)
  {
    values := [];
    for column := 0 to w.columns
      invariant |values| == column && forall c: nat :: c < column ==> values[c] == Dequantized(w, row, c)
    {
      values := values + [Quantized(w, row, column) as real * Scale(w, row, column)];
    }
  }

  /** `dequantize_f32`: row after row, every element its quantized value times the scale of its group. */
  method Dequantize(w: Weight) returns (values: seq<real>)
    requires Loaded(w)
    ensures |values| == w.rows * w.columns
    ensures forall r: nat, c: nat :: r < w.rows && c < w.columns ==>
              Element(values, w.columns, r, c) == Dequantized(w, r, c)
  {
    values := [];
    for row := 0 to w.rows
      invariant |values| == row * w.columns
      invariant forall r: nat, c: nat :: r < row && c < w.columns ==>
                  Element(values, w.columns, r, c) == Dequantized(w, r, c)
    {
      var next := DequantizeRow(w, row);
      forall r: nat, c: nat | r <= row && c < w.columns
        ensures Element(values + next, w.columns, r, c) == Dequantized(w, r, c)
      {
        RowAppended(values, next, row, w.columns, r, c);
      }
      values := values + next;
    }
  }

  // ---------- linear ----------

  function BiasAt(bias: Option<seq<real>>, feature: nat): real {
    if bias.Some? then At(bias.value, feature) else 0.0
  }

  function ValidateLinear(input: nat, weight: nat, bias: Option<seq<real>>, rows: nat, inputs: nat,
                          outputs: nat): Result<(), KernelError> {
    var _ :- ValidateMatrixLen(input, rows, inputs);
    var _ :- ValidateMatrixLen(weight, outputs, inputs);
    if bias.Some? && |bias.value| != outputs then Err(ShapeMismatch) else Ok(())
  }

  /** Row times weight row, plus the bias. */
  function LinearAt(input: seq<real>, weight: seq<real>, bias: Option<seq<real>>, inputs: nat, row: nat,
                    feature: nat): real {
    Sum(inputs, Products(input, row * inputs, weight, feature * inputs)) + BiasAt(bias, feature)
  }

  /** Every feature is shifted by its own bias, if there is one. */
  lemma BiasShifts(input: seq<real>, weight: seq<real>, bias: seq<real>, inputs: nat, row: nat, feature: nat)
    requires feature < |bias|
    ensures LinearAt(input, weight, Some(bias), inputs, row, feature)
         == LinearAt(input, weight, None, inputs, row, feature) + bias[feature]
    ensures LinearAt(input, weight, None, inputs, row, feature)
         == Sum(inputs, i => At(input, row * inputs + i) * At(weight, feature * inputs + i))
  {
    SumExt(inputs, Products(input, row * inputs, weight, feature * inputs),
           i => At(input, row * inputs + i) * At(weight, feature * inputs + i));
  }

  method LinearRow(input: seq<real>, weight: seq<real>, bias: Option<seq<real>>, inputs: nat, outputs: nat, row: nat)
    returns (out: seq<real>)
    ensures |out| == outputs && forall f: nat :: f < outputs ==> out[f] == LinearAt(input, weight, bias, inputs, row, f)
  {
    out := [];
    for feature := 0 to outputs
      invariant |out| == feature
                && forall f: nat :: f < feature ==> out[f] == LinearAt(input, weight, bias, inputs, row, f)
    {
      var value := SequentialSum(inputs, Products(input, row * inputs, weight, feature * inputs));
      out := out + [value + BiasAt(bias, feature)];
    }
  }

  method Linear(input: seq<real>, weight: seq<real>, bias: Option<seq<real>>, rows: nat, inputs: nat, outputs: nat)
    returns (r: Result<seq<real>, KernelError>)
    ensures r.Ok? <==>
              MatrixLen(|input|, rows, inputs) && MatrixLen(|weight|, outputs, inputs)
              && (bias.Some? ==> |bias.value| == outputs)
    ensures r.Err? ==> r.error == ValidateLinear(|input|, |weight|, bias, rows, inputs, outputs).error
    ensures r.Ok? ==> |r.value| == rows * outputs
    ensures r.Ok? ==> forall i: nat, f: nat :: i < rows && f < outputs ==>
              Element(r.value, outputs, i, f) == LinearAt(input, weight, bias, inputs, i, f)
  {
    var _ :- ValidateMatrixLen(|input|, rows, inputs);
    var _ :- ValidateMatrixLen(|weight|, outputs, inputs);
    if bias.Some? && |bias.value| != outputs {
      return Err(ShapeMismatch);
    }
    var output := [];
    for row := 0 to rows
      invariant |output| == row * outputs
      invariant forall i: nat, f: nat :: i < row && f < outputs ==>
        Element(output, outputs, i, f) == LinearAt(input, weight, bias, inputs, i, f)
    {
      var next := LinearRow(input, weight, bias, inputs, outputs, row);
      forall i: nat, f: nat | i <= row && f < outputs
        ensures Element(output + next, outputs, i, f) == LinearAt(input, weight, bias, inputs, i, f)
      {
        RowAppended(output, next, row, outputs, i, f);
      }
      output := output + next;
    }
    return Ok(output);
  }

  // ---------- the kernel ----------

  /** What a thread adds for a column: input times quantized value times scale. */
  function Contribution(x: real, q: int, s: real): real {
    x * q as real * s
  }

  /** The kernel computes its two indices in 32 bits. */
  function KernelQuantized(w: Weight, row: nat, column: nat): int
    requires Loaded(w) && row < w.rows && column < w.columns
  {
    IndicesInRange(w, row, column);
    Nibble(AsU32(w.packed[Wrap32(WordIndex(w, row, column))]), Rem(column, PACKED_FACTOR)) - 8
  }

  function KernelScale(w: Weight, row: nat, column: nat): real
    requires Loaded(w) && row < w.rows && column < w.columns
  {
    IndicesInRange(w, row, column);
    w.scales[Wrap32(ScaleIndex(w, row, column))]
  }

  function KernelTerms(w: Weight, input: seq<real>, row: nat): int -> real
    requires Loaded(w) && row < w.rows
  {
    c => if 0 <= c < w.columns then Contribution(At(input, c), KernelQuantized(w, row, c), KernelScale(w, row, c))
    else 0.0
  }

  /** Neither tensor has more elements than 32 bits can number. */
  predicate IndexFits(w: Weight)
    requires w.groupSize > 0
  {
    w.rows * Quot(w.columns, PACKED_FACTOR) <= TWO32 && w.rows * Quot(w.columns, w.groupSize) <= TWO32
  }

  ghost predicate NoWrap(w: Weight, row: nat, column: nat)
    requires w.groupSize > 0
  {
    Wrap32(WordIndex(w, row, column)) == WordIndex(w, row, column)
    && Wrap32(ScaleIndex(w, row, column)) == ScaleIndex(w, row, column)
  }

  /** The last element of a matrix has the last word and the last scale. */
  lemma LastIndices(w: Weight)
    requires Loaded(w)
    ensures WordIndex(w, w.rows - 1, w.columns - 1) == w.rows * Quot(w.columns, PACKED_FACTOR) - 1
    ensures ScaleIndex(w, w.rows - 1, w.columns - 1) == w.rows * Quot(w.columns, w.groupSize) - 1
  {
    LastQuotient(w.columns, PACKED_FACTOR);
    LastQuotient(w.columns, w.groupSize);
    assert (w.rows - 1) * Quot(w.columns, PACKED_FACTOR) + Quot(w.columns, PACKED_FACTOR)
        == w.rows * Quot(w.columns, PACKED_FACTOR);
    assert (w.rows - 1) * Quot(w.columns, w.groupSize) + Quot(w.columns, w.groupSize)
        == w.rows * Quot(w.columns, w.groupSize);
  }

  lemma LastQuotient(n: nat, d: nat)
    requires d > 0 && n > 0 && Rem(n, d) == 0
    ensures Quot(n, d) > 0 && Quot(n - 1, d) == Quot(n, d) - 1
  {
    var q := Quot(n, d);
    assert n == q * d && (q - 1) * d + (d - 1) == n - 1;
    if q == 0 {
      assert false;
    }
    QuotRemUnique(n - 1, d, q - 1, d - 1);
  }

  /** No index wraps exactly when both tensors are small enough. */
  lemma NoWrapIff(w: Weight)
    requires Loaded(w)
    ensures (forall row: nat, column: nat :: row < w.rows && column < w.columns ==> NoWrap(w, row, column)) <==>
              IndexFits(w)
  {
    if IndexFits(w) {
      forall row: nat, column: nat | row < w.rows && column < w.columns
        ensures NoWrap(w, row, column)
      {
        IndicesInRange(w, row, column);
      }
    } else {
      LastIndices(w);
      assert !NoWrap(w, w.rows - 1, w.columns - 1);
    }
  }

  /** What a caller checks before the launch. */
  predicate KernelFits(w: Weight, blockDim: nat)
    requires w.groupSize > 0
  {
    IndexFits(w) && StrideFits(w.columns, blockDim)
  }

  /** No index wraps and every thread of a block comes to the end of its columns. */
  ghost predicate Exact(w: Weight, blockDim: nat)
    requires w.groupSize > 0
  {
    && (forall row: nat, column: nat :: row < w.rows && column < w.columns ==> NoWrap(w, row, column))
    && (forall t: nat :: t < blockDim ==> Ends(t, w.columns, blockDim))
  }

  /** That is so exactly under the caller's check. */
  lemma KernelFitsIff(w: Weight, blockDim: nat)
    requires Loaded(w) && PowerOfTwo(blockDim) && blockDim <= TWO32
    ensures Exact(w, blockDim) <==> KernelFits(w, blockDim)
  {
    NoWrapIff(w);
    StrideEndsIff(w.columns, blockDim);
  }

  /**
   * A shape the launcher accepts, of one row, whose indices all fit: thread 0 counts past the last columns to zero and
   * is below the bound after every number of steps.
   */
  lemma EndlessShape(w: Weight, steps: nat)
    requires Loaded(w) && w.rows == 1 && w.columns == 0xFFFF_FFF8 && w.groupSize == 8
    ensures ValidateShape(w.rows, w.columns, w.groupSize).Ok? && w.columns <= U32_MAX && IndexFits(w)
    ensures Counter(0, steps, BLOCK_SIZE) < w.columns && !KernelFits(w, BLOCK_SIZE)
  {
    QuotRemUnique(w.columns, PACKED_FACTOR, 0x1FFF_FFFF, 0);
    assert PowerOfTwo(BLOCK_SIZE);
    Thread0Counts(steps, BLOCK_SIZE);
  }

  /**
   * A shape the launcher accepts, with both dimensions far below 2^32: its 2^33 packed words cannot be numbered, and
   * row 2^19 reads the words of row 0.
   */
  lemma WrappingShape(w: Weight)
    requires Loaded(w) && w.rows == 0x10_0000 && w.columns == 0x1_0000
    ensures ValidateShape(w.rows, w.columns, w.groupSize).Ok? && w.rows <= U32_MAX && w.columns <= U32_MAX
            && !IndexFits(w)
    ensures forall column: nat :: column < w.columns ==> KernelQuantized(w, 0x8_0000, column) == Quantized(w, 0, column)
  {
    QuotRemUnique(w.columns, PACKED_FACTOR, 0x2000, 0);
    forall column: nat | column < w.columns
      ensures KernelQuantized(w, 0x8_0000, column) == Quantized(w, 0, column)
    {
      QuotBelow(column, PACKED_FACTOR, 0x2000);
      assert WordIndex(w, 0x8_0000, column) == TWO32 + Quot(column, PACKED_FACTOR);
      DivModUnique(WordIndex(w, 0x8_0000, column), TWO32, 1, Quot(column, PACKED_FACTOR));
    }
  }

  /** One block per row, in any order; each block sums its row by strides and a halving tree. */
  method Gemv(w: Weight, input: seq<real>, blockDim: nat) returns (output: seq<real>)
    requires Loaded(w) && PowerOfTwo(blockDim) && StrideFits(w.columns, blockDim)
    ensures |output| == w.rows && forall r: nat :: r < w.rows ==> output[r] == Sum(w.columns, KernelTerms(w, input, r))
  {
    var out := new real[w.rows];
    var pending := Threads(w.rows);
    while pending != {}
      invariant forall r: nat :: r in pending ==> r < w.rows
      invariant forall r: nat :: r < w.rows && r !in pending ==> out[r] == Sum(w.columns, KernelTerms(w, input, r))
      decreases |pending|
    {
      var row :| row in pending;
      var sum := BlockSum(w.columns, KernelTerms(w, input, row), blockDim);
      out[row] := sum;
      pending := pending - {row};
    }
    output := out[..];
  }

  lemma Regroup(x: real, q: int, s: real, y: real)
    requires y == q as real * s
    ensures Contribution(x, q, s) == x * y
  {
    var r := q as real;
    assert x * r * s == x * (r * s);
  }

  lemma SameTerm(w: Weight, input: seq<real>, row: nat, values: seq<real>, c: nat)
    requires Loaded(w) && row < w.rows && c < w.columns && NoWrap(w, row, c)
    requires Element(values, w.columns, row, c) == Dequantized(w, row, c)
    ensures KernelTerms(w, input, row)(c) == Products(input, 0, values, row * w.columns)(c)
  {
    var x, y := At(input, c), Dequantized(w, row, c);
    UnwrappedTerm(w, input, row, c);
    DequantizedTerm(w, x, row, c);
    ProductsAt(input, values, row * w.columns, c);
    assert At(values, row * w.columns + c) == y;
  }

  lemma DequantizedTerm(w: Weight, x: real, row: nat, c: nat)
    requires Loaded(w) && row < w.rows && c < w.columns
    ensures Contribution(x, Quantized(w, row, c), Scale(w, row, c)) == x * Dequantized(w, row, c)
  {
    Regroup(x, Quantized(w, row, c), Scale(w, row, c), Dequantized(w, row, c));
  }

  lemma UnwrappedTerm(w: Weight, input: seq<real>, row: nat, c: nat)
    requires Loaded(w) && row < w.rows && c < w.columns && NoWrap(w, row, c)
    ensures KernelTerms(w, input, row)(c) == Contribution(At(input, c), Quantized(w, row, c), Scale(w, row, c))
  {
  }

  lemma ProductsAt(a: seq<real>, b: seq<real>, j: int, c: nat)
    ensures Products(a, 0, b, j)(c) == At(a, c) * At(b, j + c)
  {
    var x, y := At(a, 0 + c), At(b, j + c);
    assert Products(a, 0, b, j)(c) == x * y;
  }

  /** Without wrapping, the packed row product is the plain dot product with the dequantized row. */
  lemma PackedRowIsLinear(w: Weight, input: seq<real>, row: nat, values: seq<real>)
    requires Loaded(w) && row < w.rows && IndexFits(w)
    requires forall r: nat, c: nat :: r < w.rows && c < w.columns ==>
               Element(values, w.columns, r, c) == Dequantized(w, r, c)
    ensures Sum(w.columns, KernelTerms(w, input, row)) == Sum(w.columns, Products(input, 0, values, row * w.columns))
  {
    forall c | 0 <= c < w.columns
      ensures KernelTerms(w, input, row)(c) == Products(input, 0, values, row * w.columns)(c)
    {
      NoWrapIff(w);
      SameTerm(w, input, row, values, c);
    }
    SumExt(w.columns, KernelTerms(w, input, row), Products(input, 0, values, row * w.columns));
  }

  /**
   * The packed product equals `linear` on the dequantized weights, whatever the block size, for all shapes that pass
   * the caller's check.
   */
  method CompareWithLinear(w: Weight, input: seq<real>, blockDim: nat)
    returns (kernel: seq<real>, reference: Result<seq<real>, KernelError>)
    requires Loaded(w) && PowerOfTwo(blockDim) && StrideFits(w.columns, blockDim)
    ensures reference.Ok? <==> |input| == w.columns <= USIZE_MAX && w.rows * w.columns <= USIZE_MAX
    ensures reference.Ok? && KernelFits(w, blockDim) ==> kernel == reference.value
  {
    kernel := Gemv(w, input, blockDim);
    var values := Dequantize(w);
    reference := Linear(input, values, None, 1, w.columns, w.rows);
    if reference.Ok? && IndexFits(w) {
      SameRows(w, input, values, kernel, reference.value);
    }
  }

  lemma SameRows(w: Weight, input: seq<real>, values: seq<real>, kernel: seq<real>, reference: seq<real>)
    requires Loaded(w) && IndexFits(w) && |kernel| == |reference| == w.rows
    requires forall r: nat, c: nat :: r < w.rows && c < w.columns ==>
               Element(values, w.columns, r, c) == Dequantized(w, r, c)
    requires forall r: nat :: r < w.rows ==> kernel[r] == Sum(w.columns, KernelTerms(w, input, r))
    requires forall f: nat :: f < w.rows ==>
               Element(reference, w.rows, 0, f) == LinearAt(input, values, None, w.columns, 0, f)
    ensures kernel == reference
  {
    forall r: nat | r < w.rows
      ensures kernel[r] == reference[r]
    {
      PackedRowIsLinear(w, input, r, values);
      assert Element(reference, w.rows, 0, r) == reference[r];
    }
  }
}
