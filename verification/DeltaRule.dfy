/**
 * The key-gated delta rule: the CPU step that makes three passes over a [head, key, value] state (`cpu.rs`) and the
 * fused kernel on a pool of transposed [slot, head, value, key] states (`cuda_linear_attention.rs`).
 */
module DeltaRule {
  import opened Basics
  import opened Sums
  import opened Strides
  import opened CpuShapes

  datatype Shape = Shape(heads: nat, keyDim: nat, valueDim: nat)

  // ---------- the rule on one column ----------

  /** What reaches one value column: its head's vectors, its value and the head's beta. */
  datatype Drive = Drive(query: int -> real, key: int -> real, decay: int -> real, value: real, beta: real)

  /** The correction: how far the decayed column, read at the key, misses the value. */
  function Correction(n: nat, d: Drive, decayed: int -> real): real {
    (d.value - Sum(n, Times(d.key, decayed))) * d.beta
  }

  function Corrected(key: int -> real, decayed: int -> real, delta: real): int -> real {
    i => Along(decayed(i), key(i), delta)
  }

  /** The column after one step: decay, then a correction along the key. */
  function NextColumn(n: nat, d: Drive, column: int -> real): int -> real {
    var decayed := Times(column, d.decay);
    Corrected(d.key, decayed, Correction(n, d, decayed))
  }

  /** The output of the column: its new state read at the query. */
  function ReadOut(n: nat, d: Drive, column: int -> real): real {
    Sum(n, Times(d.query, NextColumn(n, d, column)))
  }

  lemma TimesExt(n: nat, a: int -> real, b: int -> real, c: int -> real)
    requires forall i :: 0 <= i < n ==> b(i) == c(i)
    ensures Sum(n, Times(a, b)) == Sum(n, Times(a, c))
  {
    SumExt(n, Times(a, b), Times(a, c));
  }

  /** Equal columns have equal successors and outputs. */
  lemma StepExt(n: nat, d: Drive, a: int -> real, b: int -> real)
    requires forall i :: 0 <= i < n ==> a(i) == b(i)
    ensures forall i :: 0 <= i < n ==> NextColumn(n, d, a)(i) == NextColumn(n, d, b)(i)
    ensures ReadOut(n, d, a) == ReadOut(n, d, b)
  {
    var x, y := Times(a, d.decay), Times(b, d.decay);
    TimesExt(n, d.key, x, y);
    assert Correction(n, d, x) == Correction(n, d, y);
    TimesExt(n, d.query, NextColumn(n, d, a), NextColumn(n, d, b));
  }

  /** Two drives are the same as far as a column of n keys can tell. */
  ghost predicate SameDrive(n: nat, d: Drive, d': Drive) {
    && d.value == d'.value && d.beta == d'.beta
    && forall i :: 0 <= i < n ==> d.query(i) == d'.query(i) && d.key(i) == d'.key(i) && d.decay(i) == d'.decay(i)
  }

  lemma DriveExt(n: nat, d: Drive, d': Drive, column: int -> real)
    requires SameDrive(n, d, d')
    ensures forall i :: 0 <= i < n ==> NextColumn(n, d, column)(i) == NextColumn(n, d', column)(i)
    ensures ReadOut(n, d, column) == ReadOut(n, d', column)
  {
    var x, y := Times(column, d.decay), Times(column, d'.decay);
    SumExt(n, Times(d.key, x), Times(d'.key, y));
    assert Correction(n, d, x) == Correction(n, d', y);
    SumExt(n, Times(d.query, NextColumn(n, d, column)), Times(d'.query, NextColumn(n, d', column)));
  }

  // ---------- what the rule does ----------

  /** The decayed column plus beta times what it misses at the key, along the key. */
  lemma NextColumnIs(n: nat, d: Drive, column: int -> real, decayed: int -> real, k: int)
    requires forall i :: decayed(i) == d.decay(i) * column(i)
    ensures NextColumn(n, d, column)(k)
         == decayed(k) + d.beta * (d.value - Sum(n, Times(d.key, decayed))) * d.key(k)
  {
    TimesExt(n, d.key, Times(column, d.decay), decayed);
    AlongTheKey(decayed(k), d.beta, d.value - Sum(n, Times(d.key, decayed)), d.key(k));
  }

  lemma AlongTheKey(x: real, beta: real, miss: real, key: real)
    ensures Along(x, key, miss * beta) == x + beta * miss * key
  {
  }

  /** Read along any vector, the step adds beta times what the decayed column misses, times its product with the key. */
  lemma SteppedRead(n: nat, d: Drive, column: int -> real, decayed: int -> real, w: int -> real)
    requires forall i :: decayed(i) == d.decay(i) * column(i)
    ensures Sum(n, Times(w, NextColumn(n, d, column)))
         == Sum(n, Times(w, decayed))
            + d.beta * (d.value - Sum(n, Times(d.key, decayed))) * Sum(n, Times(w, d.key))
  {
    var delta := d.beta * (d.value - Sum(n, Times(d.key, decayed)));
    forall i | 0 <= i < n
      ensures NextColumn(n, d, column)(i) == Moved(decayed(i), delta, d.key(i))
    {
      NextColumnIs(n, d, column, decayed, i);
    }
    ReadAlong(n, w, NextColumn(n, d, column), decayed, delta, d.key);
    ThreeFactors(d.beta, d.value - Sum(n, Times(d.key, decayed)), delta, Sum(n, Times(w, d.key)));
  }

  lemma ThreeFactors(beta: real, miss: real, delta: real, s: real)
    requires delta == beta * miss
    ensures delta * s == beta * miss * s
  {
  }

  function Moved(x: real, delta: real, key: real): real {
    x + delta * key
  }

  lemma ReadAlong(n: nat, w: int -> real, next: int -> real, decayed: int -> real, delta: real, key: int -> real)
    requires forall i :: 0 <= i < n ==> next(i) == Moved(decayed(i), delta, key(i))
    ensures Sum(n, Times(w, next)) == Sum(n, Times(w, decayed)) + delta * Sum(n, Times(w, key))
  {
    forall i | 0 <= i < n
      ensures Times(w, next)(i) == Times(w, decayed)(i) + Multiple(delta, Times(w, key))(i)
    {
      MovedTerm(w, next, decayed, delta, key, i);
    }
    SumAdd(n, Times(w, decayed), Multiple(delta, Times(w, key)), Times(w, next));
    SumScale(n, delta, Times(w, key), Multiple(delta, Times(w, key)));
  }

  function Multiple(factor: real, f: int -> real): int -> real {
    i => factor * f(i)
  }

  lemma MovedTerm(w: int -> real, next: int -> real, decayed: int -> real, delta: real, key: int -> real, i: int)
    requires next(i) == Moved(decayed(i), delta, key(i))
    ensures Times(w, next)(i) == Times(w, decayed)(i) + Multiple(delta, Times(w, key))(i)
  {
    Spread(w(i), decayed(i), delta, key(i));
  }

  lemma Spread(w: real, x: real, delta: real, key: real)
    ensures w * Moved(x, delta, key) == w * x + delta * (w * key)
  {
  }

  /** With beta 1 and a key of length 1 the stepped column, read at the key, is the value. */
  lemma UnitKeyStores(n: nat, d: Drive, column: int -> real)
    requires d.beta == 1.0 && Sum(n, Times(d.key, d.key)) == 1.0
    ensures Sum(n, Times(d.key, NextColumn(n, d, column))) == d.value
  {
    SteppedRead(n, d, column, i => d.decay(i) * column(i), d.key);
  }

  /** Read at a vector orthogonal to the key, the stepped column is the decayed one. */
  lemma OrthogonalKept(n: nat, d: Drive, column: int -> real, decayed: int -> real, w: int -> real)
    requires forall i :: decayed(i) == d.decay(i) * column(i)
    requires Sum(n, Times(w, d.key)) == 0.0
    ensures Sum(n, Times(w, NextColumn(n, d, column))) == Sum(n, Times(w, decayed))
  {
    SteppedRead(n, d, column, decayed, w);
  }

  /** Reading at the query instead of the key: the output of a step. */
  lemma OutputIs(n: nat, d: Drive, column: int -> real, decayed: int -> real)
    requires forall i :: decayed(i) == d.decay(i) * column(i)
    ensures ReadOut(n, d, column)
         == Sum(n, Times(d.query, decayed))
            + d.beta * (d.value - Sum(n, Times(d.key, decayed))) * Sum(n, Times(d.query, d.key))
  {
    SteppedRead(n, d, column, decayed, d.query);
  }

  /** Inputs of one step, row-major over (row, component); a row is a head, or a (batch, head) pair. */
  datatype Inputs = Inputs(query: seq<real>, key: seq<real>, value: seq<real>, decay: seq<real>, beta: seq<real>)

  function DriveOf(sh: Shape, inp: Inputs, row: nat, v: nat): Drive {
    Drive(Row(inp.query, row * sh.keyDim), Row(inp.key, row * sh.keyDim), Row(inp.decay, row * sh.keyDim),
          At(inp.value, row * sh.valueDim + v), At(inp.beta, row))
  }

  /** The inputs without their first row. */
  function LaterRows(sh: Shape, inp: Inputs): Inputs
    requires |inp.query| >= sh.keyDim && |inp.key| >= sh.keyDim && |inp.decay| >= sh.keyDim
    requires |inp.value| >= sh.valueDim && |inp.beta| >= 1
  {
    Inputs(inp.query[sh.keyDim..], inp.key[sh.keyDim..], inp.value[sh.valueDim..], inp.decay[sh.keyDim..],
           inp.beta[1..])
  }

  /** Row 0 is driven by the first components of every input, and the others by what comes after them. */
  lemma RowsInOrder(sh: Shape, inp: Inputs, row: nat, v: nat)
    requires |inp.query| >= sh.keyDim && |inp.key| >= sh.keyDim && |inp.decay| >= sh.keyDim
    requires |inp.value| >= sh.valueDim && |inp.beta| >= 1 && v < sh.valueDim
    ensures SameDrive(sh.keyDim, DriveOf(sh, inp, row + 1, v), DriveOf(sh, LaterRows(sh, inp), row, v))
    ensures SameDrive(sh.keyDim, DriveOf(sh, inp, 0, v),
                      Drive(i => At(inp.query, i), i => At(inp.key, i), i => At(inp.decay, i), inp.value[v],
                            inp.beta[0]))
  {
    assert (row + 1) * sh.keyDim == sh.keyDim + row * sh.keyDim;
    assert (row + 1) * sh.valueDim == sh.valueDim + row * sh.valueDim;
    Shifted(inp.query, sh.keyDim, row * sh.keyDim);
    Shifted(inp.key, sh.keyDim, row * sh.keyDim);
    Shifted(inp.decay, sh.keyDim, row * sh.keyDim);
    Shifted(inp.value, sh.valueDim, row * sh.valueDim);
    assert Row(inp.value, sh.valueDim + row * sh.valueDim)(v) == Row(inp.value[sh.valueDim..], row * sh.valueDim)(v);
  }

  lemma Shifted(s: seq<real>, n: nat, base: nat)
    requires n <= |s|
    ensures forall i: nat :: Row(s, n + base)(i) == Row(s[n..], base)(i)
  {
    forall i: nat
      ensures Row(s, n + base)(i) == Row(s[n..], base)(i)
    {
      assert Row(s, n + base)(i) == At(s, n + base + i);
      assert Row(s[n..], base)(i) == At(s[n..], base + i);
    }
  }

  // ---------- the CPU layout ----------

  /** Address of (head, key, value) in the CPU state. */
  function Cell(sh: Shape, h: int, k: int, v: int): int {
    h * (sh.keyDim * sh.valueDim) + (k * sh.valueDim + v)
  }

  lemma CellBound(sh: Shape, h: int, k: int, v: int)
    requires 0 <= h < sh.heads && 0 <= k < sh.keyDim && 0 <= v < sh.valueDim
    ensures 0 <= k * sh.valueDim + v < sh.keyDim * sh.valueDim
    ensures 0 <= Cell(sh, h, k, v) < sh.heads * (sh.keyDim * sh.valueDim)
  {
    DigitBound(k, v, sh.valueDim, sh.keyDim);
    DigitBound(h, k * sh.valueDim + v, sh.keyDim * sh.valueDim, sh.heads);
  }

  lemma CellInjective(sh: Shape, h: int, k: int, v: int, h': int, k': int, v': int)
    requires 0 <= h < sh.heads && 0 <= k < sh.keyDim && 0 <= v < sh.valueDim
    requires 0 <= h' < sh.heads && 0 <= k' < sh.keyDim && 0 <= v' < sh.valueDim
    requires Cell(sh, h, k, v) == Cell(sh, h', k', v')
    ensures h == h' && k == k' && v == v'
  {
    CellBound(sh, h, k, v);
    CellBound(sh, h', k', v');
    DivModUnique(Cell(sh, h, k, v), sh.keyDim * sh.valueDim, h, k * sh.valueDim + v);
    DivModUnique(Cell(sh, h, k, v), sh.keyDim * sh.valueDim, h', k' * sh.valueDim + v');
    DivModUnique(k * sh.valueDim + v, sh.valueDim, k, v);
    DivModUnique(k * sh.valueDim + v, sh.valueDim, k', v');
  }

  predicate InShape(sh: Shape, h: int, k: int, v: int) {
    0 <= h < sh.heads && 0 <= k < sh.keyDim && 0 <= v < sh.valueDim
  }

  /** The element at (head, key, value). */
  function CpuAt(sh: Shape, s: seq<real>, h: int, k: int, v: int): real {
    At(s, Cell(sh, h, k, v))
  }

  /** The column of a head's value component, by key. */
  function CpuColumn(sh: Shape, s: seq<real>, h: int, v: int): int -> real {
    k => CpuAt(sh, s, h, k, v)
  }

  ghost predicate StateSize(sh: Shape, s: seq<real>) {
    |s| == sh.heads * (sh.keyDim * sh.valueDim)
  }

  /** Storing one element changes that element only. */
  lemma Stored(sh: Shape, before: seq<real>, after: seq<real>, h: int, k: int, v: int, x: real)
    requires StateSize(sh, before) && InShape(sh, h, k, v)
    requires 0 <= Cell(sh, h, k, v) < |before| && after == before[Cell(sh, h, k, v) := x]
    ensures forall h', k', v' :: InShape(sh, h', k', v') ==>
              CpuAt(sh, after, h', k', v') == if h' == h && k' == k && v' == v then x else CpuAt(sh, before, h', k', v')
  {
    forall h', k', v' | InShape(sh, h', k', v')
      ensures CpuAt(sh, after, h', k', v') == if h' == h && k' == k && v' == v then x else CpuAt(sh, before, h', k', v')
    {
      CellBound(sh, h', k', v');
      if Cell(sh, h', k', v') == Cell(sh, h, k, v) {
        CellInjective(sh, h, k, v, h', k', v');
      }
    }
  }

  method Store(sh: Shape, state: array<real>, h: nat, k: nat, v: nat, x: real)
    requires StateSize(sh, state[..]) && InShape(sh, h, k, v)
    modifies state
    ensures forall h', k', v' :: InShape(sh, h', k', v') ==>
              CpuAt(sh, state[..], h', k', v')
              == if h' == h && k' == k && v' == v then x else old(CpuAt(sh, state[..], h', k', v'))
  {
    CellBound(sh, h, k, v);
    state[Cell(sh, h, k, v)] := x;
    Stored(sh, old(state[..]), state[..], h, k, v, x);
  }

  // ---------- the three passes ----------

  /** First pass: every row of the head decays by its own factor. */
  method DecayRows(sh: Shape, state: array<real>, h: nat, decay: int -> real)
    requires StateSize(sh, state[..]) && h < sh.heads
    modifies state
    ensures forall h', k, v :: InShape(sh, h', k, v) ==>
              CpuAt(sh, state[..], h', k, v)
              == if h' == h then old(CpuAt(sh, state[..], h', k, v)) * decay(k) else old(CpuAt(sh, state[..], h', k, v))
  {
    ghost var start := state[..];
    for k := 0 to sh.keyDim
      invariant StateSize(sh, state[..])
      invariant forall h', k', v :: InShape(sh, h', k', v) ==>
        CpuAt(sh, state[..], h', k', v)
        == if h' == h && k' < k then CpuAt(sh, start, h', k', v) * decay(k') else CpuAt(sh, start, h', k', v)
    {
      for v := 0 to sh.valueDim
        invariant StateSize(sh, state[..])
        invariant forall h', k', v' :: InShape(sh, h', k', v') ==>
          CpuAt(sh, state[..], h', k', v')
          == if h' == h && (k' < k || (k' == k && v' < v)) then CpuAt(sh, start, h', k', v') * decay(k')
             else CpuAt(sh, start, h', k', v')
      {
        var x := CpuAt(sh, state[..], h, k, v);
        assert x == CpuAt(sh, start, h, k, v);
        Store(sh, state, h, k, v, x * decay(k));
      }
    }
  }

  /** Add a multiple of the key to one column. */
  method AddAlong(sh: Shape, state: array<real>, h: nat, v: nat, key: int -> real, delta: real)
    requires StateSize(sh, state[..]) && h < sh.heads && v < sh.valueDim
    modifies state
    ensures forall h', k, v' :: InShape(sh, h', k, v') ==>
              CpuAt(sh, state[..], h', k, v')
              == if h' == h && v' == v then Along(old(CpuAt(sh, state[..], h', k, v')), key(k), delta)
              else old(CpuAt(sh, state[..], h', k, v'))
  {
    ghost var start := state[..];
    for k := 0 to sh.keyDim
      invariant StateSize(sh, state[..])
      invariant forall h', k', v' :: InShape(sh, h', k', v') ==>
        CpuAt(sh, state[..], h', k', v')
        == if h' == h && v' == v && k' < k then Along(CpuAt(sh, start, h', k', v'), key(k'), delta)
        else CpuAt(sh, start, h', k', v')
    {
      var x := CpuAt(sh, state[..], h, k, v);
      assert x == CpuAt(sh, start, h, k, v);
      Store(sh, state, h, k, v, Along(x, key(k), delta));
    }
  }

  function Along(x: real, k: real, delta: real): real {
    x + k * delta
  }

  /** Second pass, one column: read at the key, then add the correction along it. */
  method CorrectColumn(sh: Shape, state: array<real>, h: nat, v: nat, d: Drive)
    requires StateSize(sh, state[..]) && h < sh.heads && v < sh.valueDim
    modifies state
    ensures forall h', k, v' :: InShape(sh, h', k, v') ==>
              CpuAt(sh, state[..], h', k, v') == if h' == h && v' == v
              then Along(old(CpuAt(sh, state[..], h', k, v')), d.key(k),
                         Correction(sh.keyDim, d, old(CpuColumn(sh, state[..], h, v))))
              else old(CpuAt(sh, state[..], h', k, v'))
  {
    var previous := SequentialSum(sh.keyDim, Times(d.key, CpuColumn(sh, state[..], h, v)));
    AddAlong(sh, state, h, v, d.key, (d.value - previous) * d.beta);
  }

  /** Second pass over all columns of a head that has already decayed. */
  method CorrectColumns(sh: Shape, state: array<real>, h: nat, inp: Inputs)
    requires StateSize(sh, state[..]) && h < sh.heads
    modifies state
    ensures forall h', k, v :: InShape(sh, h', k, v) ==>
              CpuAt(sh, state[..], h', k, v)
              == if h' == h then CorrectedAt(sh, inp, old(state[..]), h, k, v) else old(CpuAt(sh, state[..], h', k, v))
  {
    ghost var start := state[..];
    for v := 0 to sh.valueDim
      invariant StateSize(sh, state[..])
      invariant forall h', k, v' :: InShape(sh, h', k, v') ==>
        CpuAt(sh, state[..], h', k, v')
        == if h' == h && v' < v then CorrectedAt(sh, inp, start, h, k, v') else CpuAt(sh, start, h', k, v')
    {
      ghost var before := state[..];
      CorrectColumn(sh, state, h, v, DriveOf(sh, inp, h, v));
      ColumnSame(sh, before, start, h, v, DriveOf(sh, inp, h, v));
    }
  }

  function CorrectedAt(sh: Shape, inp: Inputs, decayed: seq<real>, h: nat, k: int, v: nat): real {
    var d := DriveOf(sh, inp, h, v);
    Corrected(d.key, CpuColumn(sh, decayed, h, v), Correction(sh.keyDim, d, CpuColumn(sh, decayed, h, v)))(k)
  }

  lemma ColumnSame(sh: Shape, a: seq<real>, b: seq<real>, h: nat, v: nat, d: Drive)
    requires h < sh.heads && v < sh.valueDim
    requires forall k :: 0 <= k < sh.keyDim ==> CpuAt(sh, a, h, k, v) == CpuAt(sh, b, h, k, v)
    ensures Correction(sh.keyDim, d, CpuColumn(sh, a, h, v)) == Correction(sh.keyDim, d, CpuColumn(sh, b, h, v))
  {
    TimesExt(sh.keyDim, d.key, CpuColumn(sh, a, h, v), CpuColumn(sh, b, h, v));
  }

  lemma DecayedColumn(sh: Shape, start: seq<real>, decayed: seq<real>, h: nat, v: nat, d: Drive)
    requires h < sh.heads && v < sh.valueDim
    requires forall k :: 0 <= k < sh.keyDim ==> CpuAt(sh, decayed, h, k, v) == CpuAt(sh, start, h, k, v) * d.decay(k)
    ensures forall k :: 0 <= k < sh.keyDim ==>
              Corrected(d.key, CpuColumn(sh, decayed, h, v), Correction(sh.keyDim, d, CpuColumn(sh, decayed, h, v)))(k)
              == NextColumn(sh.keyDim, d, CpuColumn(sh, start, h, v))(k)
  {
    SameCorrection(sh.keyDim, d, CpuColumn(sh, decayed, h, v), Times(CpuColumn(sh, start, h, v), d.decay));
  }

  lemma SameCorrection(n: nat, d: Drive, a: int -> real, b: int -> real)
    requires forall k :: 0 <= k < n ==> a(k) == b(k)
    ensures Correction(n, d, a) == Correction(n, d, b)
    ensures forall k :: 0 <= k < n ==>
              Corrected(d.key, a, Correction(n, d, a))(k) == Corrected(d.key, b, Correction(n, d, b))(k)
  {
    TimesExt(n, d.key, a, b);
  }

  /** The head's cells hold the successors of their columns. */
  ghost predicate HeadStepped(sh: Shape, inp: Inputs, before: seq<real>, after: seq<real>, h: nat) {
    forall k, v: nat :: 0 <= k < sh.keyDim && v < sh.valueDim ==>
      CpuAt(sh, after, h, k, v) == NextColumn(sh.keyDim, DriveOf(sh, inp, h, v), CpuColumn(sh, before, h, v))(k)
  }

  ghost predicate HeadKept(sh: Shape, before: seq<real>, after: seq<real>, h: nat) {
    forall k, v: nat :: 0 <= k < sh.keyDim && v < sh.valueDim ==>
      CpuAt(sh, after, h, k, v) == CpuAt(sh, before, h, k, v)
  }

  ghost predicate HeadRead(sh: Shape, inp: Inputs, before: seq<real>, h: nat, row: seq<real>) {
    && |row| == sh.valueDim
    && forall v: nat :: v < sh.valueDim ==>
         row[v] == ReadOut(sh.keyDim, DriveOf(sh, inp, h, v), CpuColumn(sh, before, h, v))
  }

  /** One head: the first two passes. */
  method UpdateHead(sh: Shape, state: array<real>, h: nat, inp: Inputs)
    requires StateSize(sh, state[..]) && h < sh.heads
    modifies state
    ensures HeadStepped(sh, inp, old(state[..]), state[..], h)
    ensures forall h': nat :: h' < sh.heads && h' != h ==> HeadKept(sh, old(state[..]), state[..], h')
  {
    ghost var start := state[..];
    DecayRows(sh, state, h, Row(inp.decay, h * sh.keyDim));
    ghost var decayed := state[..];
    CorrectColumns(sh, state, h, inp);
    forall v: nat | v < sh.valueDim
      ensures forall k :: 0 <= k < sh.keyDim ==>
                CorrectedAt(sh, inp, decayed, h, k, v)
                == NextColumn(sh.keyDim, DriveOf(sh, inp, h, v), CpuColumn(sh, start, h, v))(k)
    {
      DecayedColumn(sh, start, decayed, h, v, DriveOf(sh, inp, h, v));
    }
  }

  /** Third pass: the updated columns read at the query. */
  method ReadHead(sh: Shape, state: seq<real>, h: nat, inp: Inputs, ghost before: seq<real>) returns (row: seq<real>)
    requires h < sh.heads && HeadStepped(sh, inp, before, state, h)
    ensures HeadRead(sh, inp, before, h, row)
  {
    row := [];
    for v := 0 to sh.valueDim
      invariant |row| == v
      invariant forall v': nat :: v' < v ==>
                  row[v'] == ReadOut(sh.keyDim, DriveOf(sh, inp, h, v'), CpuColumn(sh, before, h, v'))
    {
      var d := DriveOf(sh, inp, h, v);
      var sum := SequentialSum(sh.keyDim, Times(d.query, CpuColumn(sh, state, h, v)));
      TimesExt(sh.keyDim, d.query, CpuColumn(sh, state, h, v), NextColumn(sh.keyDim, d, CpuColumn(sh, before, h, v)));
      row := row + [sum];
    }
  }

  /** Matching lengths everywhere and no negative decay. */
  predicate Accepts(sh: Shape, inp: Inputs, state: nat) {
    && MatrixLen(|inp.query|, sh.heads, sh.keyDim) && |inp.key| == |inp.decay| == |inp.query|
    && MatrixLen(|inp.value|, sh.heads, sh.valueDim) && |inp.beta| == sh.heads
    && sh.keyDim * sh.valueDim <= USIZE_MAX && MatrixLen(state, sh.heads, sh.keyDim * sh.valueDim)
    && forall i :: 0 <= i < |inp.decay| ==> inp.decay[i] >= 0.0
  }

  /** All checks of the CPU step, in order. */
  function Validate(sh: Shape, inp: Inputs, state: nat): (r: Result<(), KernelError>)
    ensures r.Ok? <==> Accepts(sh, inp, state)
  {
    if sh.heads == 0 || sh.keyDim == 0 || sh.valueDim == 0 then Err(InvalidArgument) else
    var _ :- ValidateMatrixLen(|inp.query|, sh.heads, sh.keyDim);
    var _ :- ValidateMatrixLen(|inp.key|, sh.heads, sh.keyDim);
    var _ :- ValidateMatrixLen(|inp.value|, sh.heads, sh.valueDim);
    var _ :- ValidateMatrixLen(|inp.decay|, sh.heads, sh.keyDim);
    if |inp.beta| != sh.heads then Err(ShapeMismatch) else
    var size :- CheckedMul(sh.keyDim, sh.valueDim).OkOr(InvalidArgument);
    var _ :- ValidateMatrixLen(state, sh.heads, size);
    if exists i :: 0 <= i < |inp.decay| && inp.decay[i] < 0.0 then Err(InvalidArgument) else Ok(())
  }

  /** The outputs of the first n heads. */
  ghost predicate OutputOf(sh: Shape, inp: Inputs, before: seq<real>, n: nat, output: seq<real>) {
    && |output| == n * sh.valueDim
    && forall h: nat, v: nat :: h < n && v < sh.valueDim ==>
         Element(output, sh.valueDim, h, v) == ReadOut(sh.keyDim, DriveOf(sh, inp, h, v), CpuColumn(sh, before, h, v))
  }

  /** The heads below n have stepped, the others are as before. */
  ghost predicate Progress(sh: Shape, inp: Inputs, start: seq<real>, now: seq<real>, n: nat) {
    && (forall h: nat :: h < n ==> HeadStepped(sh, inp, start, now, h))
    && (forall h: nat :: n <= h < sh.heads ==> HeadKept(sh, start, now, h))
  }

  method StepHeads(sh: Shape, inp: Inputs, state: array<real>) returns (output: seq<real>)
    requires StateSize(sh, state[..])
    modifies state
    ensures Progress(sh, inp, old(state[..]), state[..], sh.heads)
    ensures OutputOf(sh, inp, old(state[..]), sh.heads, output)
  {
    ghost var start := state[..];
    output := [];
    for head := 0 to sh.heads
      invariant Progress(sh, inp, start, state[..], head)
      invariant OutputOf(sh, inp, start, head, output)
    {
      ghost var before := state[..];
      UpdateHead(sh, state, head, inp);
      var row := ReadHead(sh, state[..], head, inp, before);
      HeadFromStart(sh, inp, start, before, state[..], head, row);
      ProgressStep(sh, inp, start, before, state[..], head);
      OutputAppended(sh, inp, start, head, output, row);
      output := output + row;
    }
  }

  /** `key_gated_delta_rule_step`: every column of every head takes one step; a rejected call changes nothing. */
  method KeyGatedStep(sh: Shape, inp: Inputs, state: array<real>) returns (r: Result<seq<real>, KernelError>)
    modifies state
    ensures r.Ok? <==> Accepts(sh, inp, state.Length)
    ensures r.Err? ==> r.error == Validate(sh, inp, state.Length).error && state[..] == old(state[..])
    ensures r.Ok? ==> StateSize(sh, old(state[..]))
    ensures r.Ok? ==> forall h: nat :: h < sh.heads ==> HeadStepped(sh, inp, old(state[..]), state[..], h)
    ensures r.Ok? ==> OutputOf(sh, inp, old(state[..]), sh.heads, r.value)
  {
    if sh.heads == 0 || sh.keyDim == 0 || sh.valueDim == 0 {
      return Err(InvalidArgument);
    }
    var _ :- ValidateMatrixLen(|inp.query|, sh.heads, sh.keyDim);
    var _ :- ValidateMatrixLen(|inp.key|, sh.heads, sh.keyDim);
    var _ :- ValidateMatrixLen(|inp.value|, sh.heads, sh.valueDim);
    var _ :- ValidateMatrixLen(|inp.decay|, sh.heads, sh.keyDim);
    if |inp.beta| != sh.heads {
      return Err(ShapeMismatch);
    }
    if sh.keyDim * sh.valueDim > USIZE_MAX {
      return Err(InvalidArgument);
    }
    var _ :- ValidateMatrixLen(state.Length, sh.heads, sh.keyDim * sh.valueDim);
    if exists i :: 0 <= i < |inp.decay| && inp.decay[i] < 0.0 {
      return Err(InvalidArgument);
    }
    var output := StepHeads(sh, inp, state);
    return Ok(output);
  }

  lemma ProgressStep(sh: Shape, inp: Inputs, start: seq<real>, before: seq<real>, after: seq<real>, n: nat)
    requires n < sh.heads && Progress(sh, inp, start, before, n) && HeadStepped(sh, inp, start, after, n)
    requires forall h: nat :: h < sh.heads && h != n ==> HeadKept(sh, before, after, h)
    ensures Progress(sh, inp, start, after, n + 1)
  {
    forall h: nat | h < n
      ensures HeadStepped(sh, inp, start, after, h)
    {
      SteppedKept(sh, inp, start, before, after, h);
    }
    forall h: nat | n < h < sh.heads
      ensures HeadKept(sh, start, after, h)
    {
      assert HeadKept(sh, start, before, h) && HeadKept(sh, before, after, h);
    }
  }

  lemma SteppedKept(sh: Shape, inp: Inputs, start: seq<real>, before: seq<real>, after: seq<real>, h: nat)
    requires HeadStepped(sh, inp, start, before, h) && HeadKept(sh, before, after, h)
    ensures HeadStepped(sh, inp, start, after, h)
  {
  }

  /** A head that had not been touched steps from its initial columns. */
  lemma HeadFromStart(sh: Shape, inp: Inputs, start: seq<real>, before: seq<real>, after: seq<real>, h: nat,
                      row: seq<real>)
    requires HeadKept(sh, start, before, h) && HeadStepped(sh, inp, before, after, h)
             && HeadRead(sh, inp, before, h, row)
    ensures HeadStepped(sh, inp, start, after, h) && HeadRead(sh, inp, start, h, row)
  {
    forall v: nat | v < sh.valueDim
      ensures ReadOut(sh.keyDim, DriveOf(sh, inp, h, v), CpuColumn(sh, before, h, v))
           == ReadOut(sh.keyDim, DriveOf(sh, inp, h, v), CpuColumn(sh, start, h, v))
      ensures forall k :: 0 <= k < sh.keyDim ==>
                NextColumn(sh.keyDim, DriveOf(sh, inp, h, v), CpuColumn(sh, before, h, v))(k)
                == NextColumn(sh.keyDim, DriveOf(sh, inp, h, v), CpuColumn(sh, start, h, v))(k)
    {
      StepExt(sh.keyDim, DriveOf(sh, inp, h, v), CpuColumn(sh, before, h, v), CpuColumn(sh, start, h, v));
    }
  }

  lemma OutputAppended(sh: Shape, inp: Inputs, before: seq<real>, n: nat, output: seq<real>, row: seq<real>)
    requires OutputOf(sh, inp, before, n, output) && HeadRead(sh, inp, before, n, row)
    ensures OutputOf(sh, inp, before, n + 1, output + row)
  {
    forall h: nat, v: nat | h < n + 1 && v < sh.valueDim
      ensures Element(output + row, sh.valueDim, h, v)
           == ReadOut(sh.keyDim, DriveOf(sh, inp, h, v), CpuColumn(sh, before, h, v))
    {
      RowAppended(output, row, n, sh.valueDim, h, v);
    }
  }

  // ---------- the state-index guard ----------

  datatype GuardError = StateIndexOutOfRange | DuplicateStateIndex

  ghost predicate AllInRange(slots: seq<nat>, slotCount: nat) {
    forall i :: 0 <= i < |slots| ==> slots[i] < slotCount
  }

  /**
   * One thread per row, in any order, each raising at most one flag bit. The guard passes exactly when all indices are
   * in range and distinct; an index out of range is reported in preference to a duplicate.
   */
  method GuardStateIndices(slots: seq<nat>, slotCount: nat) returns (r: Result<(), GuardError>)
    ensures r.Ok? <==> AllInRange(slots, slotCount) && NoDup(slots)
    ensures r == Err(StateIndexOutOfRange) <==> !AllInRange(slots, slotCount)
  {
    var outOfRange, duplicate := false, false;
    var pending := Threads(|slots|);
    while pending != {}
      invariant forall i: nat :: i in pending ==> i < |slots|
      invariant outOfRange <==> exists i: nat :: i < |slots| && i !in pending && slots[i] >= slotCount
      invariant duplicate ==> !NoDup(slots)
      invariant !duplicate ==> forall i: nat, j: nat :: i < j < |slots| && j !in pending && slots[j] < slotCount ==>
                  slots[i] != slots[j]
      decreases |pending|
    {
      var row :| row in pending;
      if slots[row] >= slotCount {
        outOfRange := true;
      } else {
        var previous := 0;
        while previous < row && slots[previous] != slots[row]
          invariant 0 <= previous <= row
          invariant forall i :: 0 <= i < previous ==> slots[i] != slots[row]
        {
          previous := previous + 1;
        }
        if previous < row {
          duplicate := true;
        }
      }
      pending := pending - {row};
    }
    if outOfRange {
      return Err(StateIndexOutOfRange);
    }
    if duplicate {
      return Err(DuplicateStateIndex);
    }
    return Ok(());
  }

  // ---------- the fused kernel ----------

  lemma PutRow(before: seq<real>, after: seq<real>, base: nat, n: nat, i: nat, x: real)
    requires i < n && base + n <= |before| && after == before[base + i := x]
    ensures Row(before, base)(i) == before[base + i]
    ensures forall j :: 0 <= j < n ==> Row(after, base)(j) == if j == i then x else Row(before, base)(j)
  {
    forall j | 0 <= j < n
      ensures Row(after, base)(j) == At(after, base + j) && Row(before, base)(j) == At(before, base + j)
    {
    }
  }

  /** First loop of a thread: decay the column in place and read it at the key. */
  method DecayAndRead(state: array<real>, base: nat, n: nat, key: int -> real, decay: int -> real)
    returns (previous: real)
    requires base + n <= state.Length
    modifies state
    ensures forall i :: 0 <= i < n ==> Row(state[..], base)(i) == Times(Row(old(state[..]), base), decay)(i)
    ensures forall x :: 0 <= x < state.Length && !(base <= x < base + n) ==> state[x] == old(state[x])
    ensures previous == Sum(n, Times(key, Times(Row(old(state[..]), base), decay)))
  {
    ghost var start := state[..];
    ghost var decayed := Times(Row(start, base), decay);
    previous := 0.0;
    for i := 0 to n
      invariant forall j :: 0 <= j < n ==> Row(state[..], base)(j) == if j < i then decayed(j) else Row(start, base)(j)
      invariant forall x :: 0 <= x < state.Length && !(base <= x < base + i) ==> state[x] == start[x]
      invariant previous == Sum(i, Times(key, decayed))
    {
      var next := state[base + i] * decay(i);
      ghost var before := state[..];
      state[base + i] := next;
      PutRow(before, state[..], base, n, i, next);
      assert next == decayed(i);
      previous := previous + key(i) * next;
    }
  }

  /** Second loop: add the correction along the key and read the result at the query. */
  method CorrectAndRead(state: array<real>, base: nat, n: nat, key: int -> real, query: int -> real, delta: real)
    returns (result: real)
    requires base + n <= state.Length
    modifies state
    ensures forall i :: 0 <= i < n ==> Row(state[..], base)(i) == Corrected(key, Row(old(state[..]), base), delta)(i)
    ensures forall x :: 0 <= x < state.Length && !(base <= x < base + n) ==> state[x] == old(state[x])
    ensures result == Sum(n, Times(query, Corrected(key, Row(old(state[..]), base), delta)))
  {
    ghost var start := state[..];
    ghost var corrected := Corrected(key, Row(start, base), delta);
    result := 0.0;
    for i := 0 to n
      invariant forall j :: 0 <= j < n ==>
                  Row(state[..], base)(j) == if j < i then corrected(j) else Row(start, base)(j)
      invariant forall x :: 0 <= x < state.Length && !(base <= x < base + i) ==> state[x] == start[x]
      invariant result == Sum(i, Times(query, corrected))
    {
      var next := Along(state[base + i], key(i), delta);
      ghost var before := state[..];
      state[base + i] := next;
      PutRow(before, state[..], base, n, i, next);
      assert next == corrected(i);
      result := result + query(i) * next;
    }
  }

  /** One thread's work on one value column of the pool. */
  method FusedColumn(state: array<real>, base: nat, n: nat, d: Drive) returns (result: real)
    requires base + n <= state.Length
    modifies state
    ensures forall i :: 0 <= i < n ==> Row(state[..], base)(i) == NextColumn(n, d, Row(old(state[..]), base))(i)
    ensures forall x :: 0 <= x < state.Length && !(base <= x < base + n) ==> state[x] == old(state[x])
    ensures result == ReadOut(n, d, Row(old(state[..]), base))
  {
    ghost var start := Row(state[..], base);
    var previous := DecayAndRead(state, base, n, d.key, d.decay);
    ghost var decayed := Row(state[..], base);
    var delta := (d.value - previous) * d.beta;
    result := CorrectAndRead(state, base, n, d.key, d.query, delta);
    assert delta == Correction(n, d, Times(start, d.decay));
    TimesExt(n, d.query, Corrected(d.key, decayed, delta), NextColumn(n, d, start));
  }

  // ---------- the launch ----------

  /** Number of a value column in the pool, by slot, head and value component. */
  function ColumnId(sh: Shape, slot: nat, h: nat, v: nat): nat {
    (slot * sh.heads + h) * sh.valueDim + v
  }

  /** Where the kernel finds it. */
  function ColumnBase(sh: Shape, slot: nat, h: nat, v: nat): nat {
    (slot * sh.heads + h) * sh.keyDim * sh.valueDim + v * sh.keyDim
  }

  lemma BaseOfId(sh: Shape, slot: nat, h: nat, v: nat)
    ensures ColumnBase(sh, slot, h, v) == ColumnId(sh, slot, h, v) * sh.keyDim
  {
    var row := slot * sh.heads + h;
    assert row * sh.keyDim * sh.valueDim == row * sh.valueDim * sh.keyDim;
    assert (row * sh.valueDim + v) * sh.keyDim == row * sh.valueDim * sh.keyDim + v * sh.keyDim;
  }

  /** How many value columns a pool of that many slots has. */
  function PoolColumns(sh: Shape, slotCount: nat): nat {
    slotCount * sh.heads * sh.valueDim
  }

  lemma IdBound(sh: Shape, slotCount: nat, slot: nat, h: nat, v: nat)
    requires slot < slotCount && h < sh.heads && v < sh.valueDim
    ensures ColumnId(sh, slot, h, v) < PoolColumns(sh, slotCount)
  {
    DigitBound(slot, h, sh.heads, slotCount);
    DigitBound(slot * sh.heads + h, v, sh.valueDim, slotCount * sh.heads);
  }

  lemma IdInjective(sh: Shape, slot: nat, h: nat, v: nat, slot': nat, h': nat, v': nat)
    requires h < sh.heads && v < sh.valueDim && h' < sh.heads && v' < sh.valueDim
    requires ColumnId(sh, slot, h, v) == ColumnId(sh, slot', h', v')
    ensures slot == slot' && h == h' && v == v'
  {
    DivModUnique(ColumnId(sh, slot, h, v), sh.valueDim, slot * sh.heads + h, v);
    DivModUnique(ColumnId(sh, slot, h, v), sh.valueDim, slot' * sh.heads + h', v');
    DivModUnique(slot * sh.heads + h, sh.heads, slot, h);
    DivModUnique(slot * sh.heads + h, sh.heads, slot', h');
  }

  /** The column a (row, value) thread works on; a row is batch * heads + head. */
  function TaskId(sh: Shape, slots: seq<nat>, row: nat, v: nat): nat
    requires sh.heads > 0 && row < |slots| * sh.heads
  {
    QuotBelow(row, sh.heads, |slots|);
    ColumnId(sh, slots[Quot(row, sh.heads)], Rem(row, sh.heads), v)
  }

  /** Distinct slots give distinct threads distinct columns. */
  lemma TasksDistinct(sh: Shape, slots: seq<nat>, row: nat, v: nat, row': nat, v': nat)
    requires sh.heads > 0 && row < |slots| * sh.heads && row' < |slots| * sh.heads && v < sh.valueDim
             && v' < sh.valueDim
    requires NoDup(slots) && (row, v) != (row', v')
    ensures TaskId(sh, slots, row, v) != TaskId(sh, slots, row', v')
  {
    if TaskId(sh, slots, row, v) == TaskId(sh, slots, row', v') {
      QuotBelow(row, sh.heads, |slots|);
      QuotBelow(row', sh.heads, |slots|);
      var b, b' := Quot(row, sh.heads), Quot(row', sh.heads);
      IdInjective(sh, slots[b], Rem(row, sh.heads), v, slots[b'], Rem(row', sh.heads), v');
    }
  }

  function PoolColumn(sh: Shape, pool: seq<real>, id: nat): int -> real {
    Row(pool, id * sh.keyDim)
  }

  ghost predicate ColumnStepped(sh: Shape, d: Drive, before: seq<real>, after: seq<real>, id: nat) {
    forall k :: 0 <= k < sh.keyDim ==>
      PoolColumn(sh, after, id)(k) == NextColumn(sh.keyDim, d, PoolColumn(sh, before, id))(k)
  }

  ghost predicate ColumnKept(sh: Shape, before: seq<real>, after: seq<real>, id: nat) {
    forall k :: 0 <= k < sh.keyDim ==> PoolColumn(sh, after, id)(k) == PoolColumn(sh, before, id)(k)
  }

  /** Work on one column leaves every other column alone. */
  lemma OtherColumn(sh: Shape, before: seq<real>, after: seq<real>, id: nat, other: nat)
    requires |before| == |after| && id != other
    requires forall x :: 0 <= x < |after| && !(id * sh.keyDim <= x < id * sh.keyDim + sh.keyDim) ==>
               after[x] == before[x]
    ensures ColumnKept(sh, before, after, other)
  {
    if other < id {
      NextMultiple(other, id, sh.keyDim);
    } else {
      NextMultiple(id, other, sh.keyDim);
    }
    forall k | 0 <= k < sh.keyDim
      ensures PoolColumn(sh, after, other)(k) == PoolColumn(sh, before, other)(k)
    {
      var x := other * sh.keyDim + k;
      assert At(after, x) == At(before, x);
    }
  }

  lemma SteppedThenKept(sh: Shape, d: Drive, start: seq<real>, before: seq<real>, after: seq<real>, id: nat)
    requires ColumnStepped(sh, d, start, before, id) && ColumnKept(sh, before, after, id)
    ensures ColumnStepped(sh, d, start, after, id)
  {
  }

  lemma KeptThenStepped(sh: Shape, d: Drive, start: seq<real>, before: seq<real>, after: seq<real>, id: nat)
    requires ColumnKept(sh, start, before, id) && ColumnStepped(sh, d, before, after, id)
    ensures ColumnStepped(sh, d, start, after, id)
    ensures ReadOut(sh.keyDim, d, PoolColumn(sh, before, id)) == ReadOut(sh.keyDim, d, PoolColumn(sh, start, id))
  {
    StepExt(sh.keyDim, d, PoolColumn(sh, before, id), PoolColumn(sh, start, id));
  }

  /** One thread: its column steps, all others stay. */
  method RunTask(sh: Shape, inp: Inputs, state: array<real>, slot: nat, h: nat, row: nat, v: nat, ghost columns: nat)
    returns (result: real)
    requires ColumnId(sh, slot, h, v) < columns && state.Length == columns * sh.keyDim
    modifies state
    ensures ColumnStepped(sh, DriveOf(sh, inp, row, v), old(state[..]), state[..], ColumnId(sh, slot, h, v))
    ensures forall id: nat :: id != ColumnId(sh, slot, h, v) ==> ColumnKept(sh, old(state[..]), state[..], id)
    ensures result == ReadOut(sh.keyDim, DriveOf(sh, inp, row, v),
                              PoolColumn(sh, old(state[..]), ColumnId(sh, slot, h, v)))
  {
    BaseOfId(sh, slot, h, v);
    NextMultiple(ColumnId(sh, slot, h, v), columns, sh.keyDim);
    ghost var before := state[..];
    result := FusedColumn(state, ColumnBase(sh, slot, h, v), sh.keyDim, DriveOf(sh, inp, row, v));
    forall id: nat | id != ColumnId(sh, slot, h, v)
      ensures ColumnKept(sh, before, state[..], id)
    {
      OtherColumn(sh, before, state[..], ColumnId(sh, slot, h, v), id);
    }
  }

  /** The done tasks have stepped their columns and written their outputs; everything else in the pool is as it was. */
  ghost predicate LaunchState(sh: Shape, inp: Inputs, slots: seq<nat>, pending: set<(nat, nat)>, start: seq<real>,
                              now: seq<real>, output: seq<real>)
    requires sh.heads > 0
  {
    && |output| == |slots| * sh.heads * sh.valueDim
    && (forall row: nat, v: nat :: row < |slots| * sh.heads && v < sh.valueDim && (row, v) in pending ==>
          ColumnKept(sh, start, now, TaskId(sh, slots, row, v)))
    && (forall row: nat, v: nat :: row < |slots| * sh.heads && v < sh.valueDim && (row, v) !in pending ==>
          TaskDone(sh, inp, slots, row, v, start, now, output))
    && (forall id: nat :: !Addressed(sh, slots, id) ==> ColumnKept(sh, start, now, id))
  }

  ghost predicate TaskDone(sh: Shape, inp: Inputs, slots: seq<nat>, row: nat, v: nat, start: seq<real>, now: seq<real>,
                           output: seq<real>)
    requires sh.heads > 0 && row < |slots| * sh.heads
  {
    var id, d := TaskId(sh, slots, row, v), DriveOf(sh, inp, row, v);
    ColumnStepped(sh, d, start, now, id)
    && Element(output, sh.valueDim, row, v) == ReadOut(sh.keyDim, d, PoolColumn(sh, start, id))
  }

  /** Some thread works on this column. */
  ghost predicate Addressed(sh: Shape, slots: seq<nat>, id: nat)
    requires sh.heads > 0
  {
    exists row: nat, v: nat :: row < |slots| * sh.heads && v < sh.valueDim && TaskId(sh, slots, row, v) == id
  }

  lemma TaskRan(sh: Shape, inp: Inputs, slots: seq<nat>, pending: set<(nat, nat)>, row: nat, v: nat, start: seq<real>,
                before: seq<real>, after: seq<real>, output: seq<real>, output': seq<real>, result: real)
    requires sh.heads > 0 && NoDup(slots) && row < |slots| * sh.heads && v < sh.valueDim && (row, v) in pending
    requires LaunchState(sh, inp, slots, pending, start, before, output)
    requires ColumnStepped(sh, DriveOf(sh, inp, row, v), before, after, TaskId(sh, slots, row, v))
    requires forall id: nat :: id != TaskId(sh, slots, row, v) ==> ColumnKept(sh, before, after, id)
    requires result == ReadOut(sh.keyDim, DriveOf(sh, inp, row, v), PoolColumn(sh, before, TaskId(sh, slots, row, v)))
    requires row * sh.valueDim + v < |output| && output' == output[row * sh.valueDim + v := result]
    ensures LaunchState(sh, inp, slots, pending - {(row, v)}, start, after, output')
  {
    var id := TaskId(sh, slots, row, v);
    KeptThenStepped(sh, DriveOf(sh, inp, row, v), start, before, after, id);
    assert TaskDone(sh, inp, slots, row, v, start, after, output');
    forall row': nat, v': nat | row' < |slots| * sh.heads && v' < sh.valueDim && (row', v') != (row, v)
      ensures (row', v') in pending ==> ColumnKept(sh, start, after, TaskId(sh, slots, row', v'))
      ensures (row', v') !in pending ==> TaskDone(sh, inp, slots, row', v', start, after, output')
    {
      OtherTask(sh, inp, slots, pending, row, v, row', v', start, before, after, output, output', result);
    }
    forall other: nat | !Addressed(sh, slots, other)
      ensures ColumnKept(sh, start, after, other)
    {
      assert other != id;
      assert ColumnKept(sh, start, before, other) && ColumnKept(sh, before, after, other);
    }
  }

  lemma OtherTask(sh: Shape, inp: Inputs, slots: seq<nat>, pending: set<(nat, nat)>, row: nat, v: nat, row': nat,
                  v': nat, start: seq<real>,
                  before: seq<real>, after: seq<real>, output: seq<real>, output': seq<real>, result: real)
    requires sh.heads > 0 && NoDup(slots) && row < |slots| * sh.heads && v < sh.valueDim
    requires row' < |slots| * sh.heads && v' < sh.valueDim && (row', v') != (row, v)
    requires LaunchState(sh, inp, slots, pending, start, before, output)
    requires forall id: nat :: id != TaskId(sh, slots, row, v) ==> ColumnKept(sh, before, after, id)
    requires row * sh.valueDim + v < |output| && output' == output[row * sh.valueDim + v := result]
    ensures (row', v') in pending ==> ColumnKept(sh, start, after, TaskId(sh, slots, row', v'))
    ensures (row', v') !in pending ==> TaskDone(sh, inp, slots, row', v', start, after, output')
  {
    TasksDistinct(sh, slots, row', v', row, v);
    var id := TaskId(sh, slots, row', v');
    assert ColumnKept(sh, before, after, id);
    if (row', v') in pending {
      assert ColumnKept(sh, start, before, id);
    } else {
      assert TaskDone(sh, inp, slots, row', v', start, before, output);
      SteppedThenKept(sh, DriveOf(sh, inp, row', v'), start, before, after, id);
      CellsApart(sh.valueDim, row, v, row', v');
    }
  }

  lemma NothingRun(sh: Shape, inp: Inputs, slots: seq<nat>, pending: set<(nat, nat)>, start: seq<real>,
                   output: seq<real>)
    requires sh.heads > 0 && |output| == |slots| * sh.heads * sh.valueDim
             && pending == Tasks(|slots| * sh.heads, sh.valueDim)
    ensures LaunchState(sh, inp, slots, pending, start, start, output)
  {
  }

  /** One of the pending threads. */
  method RunPending(sh: Shape, inp: Inputs, slots: seq<nat>, slotCount: nat, ghost pending: set<(nat, nat)>, row: nat,
                    v: nat,
                    state: array<real>, output: seq<real>, ghost start: seq<real>) returns (output': seq<real>)
    requires sh.heads > 0 && AllInRange(slots, slotCount) && NoDup(slots)
             && state.Length == PoolColumns(sh, slotCount) * sh.keyDim
    requires row < |slots| * sh.heads && v < sh.valueDim && (row, v) in pending
    requires LaunchState(sh, inp, slots, pending, start, state[..], output)
    modifies state
    ensures LaunchState(sh, inp, slots, pending - {(row, v)}, start, state[..], output')
  {
    QuotBelow(row, sh.heads, |slots|);
    var slot, head := slots[Quot(row, sh.heads)], Rem(row, sh.heads);
    IdBound(sh, slotCount, slot, head, v);
    DigitBound(row, v, sh.valueDim, |slots| * sh.heads);
    ghost var before := state[..];
    var result := RunTask(sh, inp, state, slot, head, row, v, PoolColumns(sh, slotCount));
    output' := output[row * sh.valueDim + v := result];
    TaskRan(sh, inp, slots, pending, row, v, start, before, state[..], output, output', result);
  }

  /** The launch: every (row, value component) once, in any order. */
  method FusedKernel(sh: Shape, inp: Inputs, slots: seq<nat>, slotCount: nat, state: array<real>, blockDim: nat)
    returns (output: seq<real>)
    requires 0 < blockDim && StrideFits(sh.valueDim, blockDim)
    requires sh.heads > 0 && AllInRange(slots, slotCount) && NoDup(slots)
    requires state.Length == PoolColumns(sh, slotCount) * sh.keyDim
    modifies state
    ensures LaunchState(sh, inp, slots, {}, old(state[..]), state[..], output)
  {
    output := seq(|slots| * sh.heads * sh.valueDim, _ => 0.0);
    ghost var start := state[..];
    var components := Visited(sh.valueDim, blockDim);
    var pending := set row: nat, v: nat | row < |slots| * sh.heads && v in components :: (row, v);
    assert pending == Tasks(|slots| * sh.heads, sh.valueDim);
    NothingRun(sh, inp, slots, pending, start, output);
    while pending != {}
      invariant forall row: nat, v: nat :: (row, v) in pending ==> row < |slots| * sh.heads && v < sh.valueDim
      invariant LaunchState(sh, inp, slots, pending, start, state[..], output)
      decreases |pending|
    {
      var task :| task in pending;
      output := RunPending(sh, inp, slots, slotCount, pending, task.0, task.1, state, output, start);
      pending := pending - {task};
    }
  }

  /** The host call: guard first, then the launch. A rejected call leaves the pool alone. */
  method KeyGatedDecode(sh: Shape, inp: Inputs, slots: seq<nat>, slotCount: nat, state: array<real>, blockDim: nat)
    returns (r: Result<seq<real>, GuardError>)
    requires 0 < blockDim && StrideFits(sh.valueDim, blockDim)
    requires sh.heads > 0 && state.Length == PoolColumns(sh, slotCount) * sh.keyDim
    modifies state
    ensures r.Ok? <==> AllInRange(slots, slotCount) && NoDup(slots)
    ensures r.Err? ==> state[..] == old(state[..]) && (r.error.StateIndexOutOfRange? <==> !AllInRange(slots, slotCount))
    ensures r.Ok? ==> LaunchState(sh, inp, slots, {}, old(state[..]), state[..], r.value)
  {
    var guard := GuardStateIndices(slots, slotCount);
    if guard.Err? {
      return Err(guard.error);
    }
    var output := FusedKernel(sh, inp, slots, slotCount, state, blockDim);
    return Ok(output);
  }

  // ---------- kernel against CPU ----------

  /** A pool slot holds the transpose of a CPU state. */
  ghost predicate Transposed(sh: Shape, pool: seq<real>, slot: nat, cpu: seq<real>) {
    forall h: nat, v: nat :: h < sh.heads && v < sh.valueDim ==> ColumnsAgree(sh, pool, slot, cpu, h, v)
  }

  ghost predicate ColumnsAgree(sh: Shape, pool: seq<real>, slot: nat, cpu: seq<real>, h: nat, v: nat) {
    forall k :: 0 <= k < sh.keyDim ==> PoolColumn(sh, pool, ColumnId(sh, slot, h, v))(k) == CpuColumn(sh, cpu, h, v)(k)
  }

  /** The CPU inputs are the rows of one batch item. */
  ghost predicate ItemInputs(sh: Shape, inp: Inputs, batch: nat, item: Inputs) {
    forall h: nat, v: nat :: h < sh.heads && v < sh.valueDim ==>
      SameDrive(sh.keyDim, DriveOf(sh, inp, batch * sh.heads + h, v), DriveOf(sh, item, h, v))
  }

  lemma RowOfItem(sh: Shape, slots: seq<nat>, batch: nat, h: nat, v: nat)
    requires batch < |slots| && h < sh.heads
    ensures batch * sh.heads + h < |slots| * sh.heads
            && TaskId(sh, slots, batch * sh.heads + h, v) == ColumnId(sh, slots[batch], h, v)
  {
    DigitBound(batch, h, sh.heads, |slots|);
    QuotRemUnique(batch * sh.heads + h, sh.heads, batch, h);
  }

  /** One column: from the same column and the same drive, both sides reach the same column and the same output. */
  lemma SameColumnStep(sh: Shape, d: Drive, d': Drive, pool: seq<real>, pool': seq<real>, cpu: seq<real>,
                       cpu': seq<real>, slot: nat, h: nat, v: nat)
    requires ColumnsAgree(sh, pool, slot, cpu, h, v) && SameDrive(sh.keyDim, d, d')
    requires ColumnStepped(sh, d, pool, pool', ColumnId(sh, slot, h, v))
    requires forall k :: 0 <= k < sh.keyDim ==>
               CpuAt(sh, cpu', h, k, v) == NextColumn(sh.keyDim, d', CpuColumn(sh, cpu, h, v))(k)
    ensures ColumnsAgree(sh, pool', slot, cpu', h, v)
    ensures ReadOut(sh.keyDim, d, PoolColumn(sh, pool, ColumnId(sh, slot, h, v)))
         == ReadOut(sh.keyDim, d', CpuColumn(sh, cpu, h, v))
  {
    DriveExt(sh.keyDim, d, d', PoolColumn(sh, pool, ColumnId(sh, slot, h, v)));
    StepExt(sh.keyDim, d', PoolColumn(sh, pool, ColumnId(sh, slot, h, v)), CpuColumn(sh, cpu, h, v));
  }

  /**
   * The fused kernel equals the CPU step: whatever the thread order, each addressed slot that held the transpose of a
   * CPU state holds the transpose of the state after the three passes, and the outputs of its rows are equal.
   */
  lemma FusedIsCpu(sh: Shape, inp: Inputs, slots: seq<nat>, pool: seq<real>, pool': seq<real>, output: seq<real>,
                   batch: nat, item: Inputs, cpu: seq<real>, cpu': seq<real>, row: seq<real>)
    requires sh.heads > 0 && batch < |slots| && ItemInputs(sh, inp, batch, item)
             && Transposed(sh, pool, slots[batch], cpu)
    requires LaunchState(sh, inp, slots, {}, pool, pool', output)
    requires forall h: nat :: h < sh.heads ==> HeadStepped(sh, item, cpu, cpu', h)
    requires OutputOf(sh, item, cpu, sh.heads, row)
    ensures Transposed(sh, pool', slots[batch], cpu')
    ensures forall h: nat, v: nat :: h < sh.heads && v < sh.valueDim ==>
              Element(output, sh.valueDim, batch * sh.heads + h, v) == Element(row, sh.valueDim, h, v)
  {
    forall h: nat, v: nat | h < sh.heads && v < sh.valueDim
      ensures ColumnsAgree(sh, pool', slots[batch], cpu', h, v)
      ensures Element(output, sh.valueDim, batch * sh.heads + h, v) == Element(row, sh.valueDim, h, v)
    {
      RowOfItem(sh, slots, batch, h, v);
      assert TaskDone(sh, inp, slots, batch * sh.heads + h, v, pool, pool', output);
      assert HeadStepped(sh, item, cpu, cpu', h);
      SameColumnStep(sh, DriveOf(sh, inp, batch * sh.heads + h, v), DriveOf(sh, item, h, v), pool, pool', cpu, cpu',
                     slots[batch], h, v);
    }
  }

  /** Slots that no row names keep every element. */
  lemma OtherSlotsKept(sh: Shape, inp: Inputs, slots: seq<nat>, pool: seq<real>, pool': seq<real>, output: seq<real>,
                       slot: nat, h: nat, v: nat)
    requires sh.heads > 0 && slot !in slots && h < sh.heads && v < sh.valueDim
    requires LaunchState(sh, inp, slots, {}, pool, pool', output)
    ensures ColumnKept(sh, pool, pool', ColumnId(sh, slot, h, v))
  {
    var id := ColumnId(sh, slot, h, v);
    if Addressed(sh, slots, id) {
      var row: nat, v': nat :| row < |slots| * sh.heads && v' < sh.valueDim && TaskId(sh, slots, row, v') == id;
      QuotBelow(row, sh.heads, |slots|);
      IdInjective(sh, slot, h, v, slots[Quot(row, sh.heads)], Rem(row, sh.heads), v');
    }
  }

  /** Both calls on the same item: the kernel's slot stays the transpose of the CPU state. */
  method CompareItem(sh: Shape, inp: Inputs, slots: seq<nat>, slotCount: nat, pool: array<real>, batch: nat,
                     item: Inputs, cpu: array<real>, blockDim: nat)
    returns (fused: Result<seq<real>, GuardError>, reference: Result<seq<real>, KernelError>)
    requires 0 < blockDim && StrideFits(sh.valueDim, blockDim)
    requires sh.heads > 0 && pool.Length == PoolColumns(sh, slotCount) * sh.keyDim && pool != cpu
    requires batch < |slots| && ItemInputs(sh, inp, batch, item) && Transposed(sh, pool[..], slots[batch], cpu[..])
    modifies pool, cpu
    ensures fused.Ok? && reference.Ok? ==> Transposed(sh, pool[..], slots[batch], cpu[..])
    ensures fused.Ok? && reference.Ok? ==> forall h: nat, v: nat :: h < sh.heads && v < sh.valueDim ==>
              Element(fused.value, sh.valueDim, batch * sh.heads + h, v) == Element(reference.value, sh.valueDim, h, v)
  {
    fused := KeyGatedDecode(sh, inp, slots, slotCount, pool, blockDim);
    reference := KeyGatedStep(sh, item, cpu);
    if fused.Ok? && reference.Ok? {
      FusedIsCpu(sh, inp, slots, old(pool[..]), pool[..], fused.value, batch, item, old(cpu[..]), cpu[..],
                 reference.value);
    }
  }
}
