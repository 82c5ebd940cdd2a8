/** What the kernels share: the CPU's shape validation (`cpu.rs`), row-major matrices and buffers of blocks. */
module CpuShapes {
  import opened Basics
  import opened Sums

  datatype KernelError = InvalidArgument | ShapeMismatch

  predicate MatrixLen(len: nat, rows: nat, cols: nat) {
    rows > 0 && cols > 0 && rows * cols <= USIZE_MAX && len == rows * cols
  }

  /** `validate_matrix_len`: the dimensions are judged before the length. */
  function ValidateMatrixLen(len: nat, rows: nat, cols: nat): (r: Result<(), KernelError>)
    ensures r.Ok? <==> MatrixLen(len, rows, cols)
    ensures r == Err(InvalidArgument) <==> rows == 0 || cols == 0 || rows * cols > USIZE_MAX
  {
    if rows == 0 || cols == 0 || CheckedMul(rows, cols).None? then Err(InvalidArgument)
    else if len != rows * cols then Err(ShapeMismatch)
    else Ok(())
  }

  /** Component d of row h of a matrix with rows of the given width. */
  function Element(matrix: seq<real>, width: nat, h: nat, d: nat): real {
    At(matrix, h * width + d)
  }

  /** Product of component d of two rows that start at the given offsets. */
  function Products(a: seq<real>, i: int, b: seq<real>, j: int): int -> real {
    d => At(a, i + d) * At(b, j + d)
  }

  /** Appending a row leaves the earlier rows in place. */
  lemma RowAppended(matrix: seq<real>, row: seq<real>, rows: nat, width: nat, h: nat, d: nat)
    requires |matrix| == rows * width && |row| == width && h <= rows && d < width
    ensures |matrix + row| == (rows + 1) * width
    ensures Element(matrix + row, width, h, d) == if h == rows then row[d] else Element(matrix, width, h, d)
  {
    if h < rows {
      DigitBound(h, d, width, rows);
    }
  }

  // ---------- buffers as blocks ----------

  /** Row `index` of a buffer with rows of the given width. */
  function Block(buffer: seq<real>, width: nat, index: nat): (v: seq<real>)
    ensures |v| == width
  {
    seq(width, x requires 0 <= x < width => Element(buffer, width, index, x))
  }

  /** The buffer with one block replaced. */
  function Spliced(buffer: seq<real>, width: nat, index: nat, v: seq<real>): (after: seq<real>)
    requires |v| == width
    ensures |after| == |buffer|
  {
    StoredAt(buffer, index * width, v)
  }

  /** The buffer with `v` stored from `base` on. */
  function StoredAt(buffer: seq<real>, base: nat, v: seq<real>): (after: seq<real>)
    ensures |after| == |buffer|
  {
    seq(|buffer|, i requires 0 <= i < |buffer| => SplicedAt(buffer, base, v, i))
  }

  function SplicedAt(buffer: seq<real>, base: nat, v: seq<real>, i: int): real {
    if base <= i < base + |v| then v[i - base] else At(buffer, i)
  }

  /** Writing one block leaves the others alone. */
  lemma BlockWritten(buffer: seq<real>, width: nat, blocks: nat, index: nat, v: seq<real>, other: nat)
    requires |buffer| == blocks * width && index < blocks && other < blocks && |v| == width
    ensures Block(Spliced(buffer, width, index, v), width, other)
         == if other == index then v else Block(buffer, width, other)
  {
    var after := Spliced(buffer, width, index, v);
    forall x: nat | x < width
      ensures Block(after, width, other)[x] == if other == index then v[x] else Block(buffer, width, other)[x]
    {
      ElementWritten(buffer, width, blocks, index, v, other, x);
    }
  }

  /** Blocks indexed by row and column. */
  function Cell(buffer: seq<real>, width: nat, columns: nat, row: nat, column: nat): (v: seq<real>)
    ensures |v| == width
  {
    Block(buffer, width, row * columns + column)
  }

  function WithCell(buffer: seq<real>, width: nat, columns: nat, row: nat, column: nat,
                    v: seq<real>): (after: seq<real>)
    requires |v| == width
    ensures |after| == |buffer|
  {
    Spliced(buffer, width, row * columns + column, v)
  }

  function CellsLength(width: nat, rows: nat, columns: nat): nat {
    rows * columns * width
  }

  /** Writing one cell leaves the others alone. */
  lemma CellWritten(buffer: seq<real>, width: nat, rows: nat, columns: nat, row: nat, column: nat, v: seq<real>,
                    row': nat, column': nat)
    requires |buffer| == CellsLength(width, rows, columns) && |v| == width
    requires row < rows && column < columns && row' < rows && column' < columns
    ensures Cell(WithCell(buffer, width, columns, row, column, v), width, columns, row', column')
         == if (row', column') == (row, column) then v else Cell(buffer, width, columns, row', column')
  {
    DigitBound(row, column, columns, rows);
    DigitBound(row', column', columns, rows);
    if (row', column') != (row, column) {
      CellsApart(columns, row, column, row', column');
    }
    BlockPicked(buffer, width, rows * columns, row * columns + column, v, row' * columns + column',
                (row', column') == (row, column));
  }

  lemma BlockPicked(buffer: seq<real>, width: nat, blocks: nat, index: nat, v: seq<real>, other: nat, same: bool)
    requires |buffer| == blocks * width && index < blocks && other < blocks && |v| == width
             && (same <==> other == index)
    ensures Block(Spliced(buffer, width, index, v), width, other) == if same then v else Block(buffer, width, other)
  {
    BlockWritten(buffer, width, blocks, index, v, other);
  }

  lemma ElementWritten(buffer: seq<real>, width: nat, blocks: nat, index: nat, v: seq<real>, other: nat, x: nat)
    requires |buffer| == blocks * width && index < blocks && other < blocks && |v| == width && x < width
    ensures Element(Spliced(buffer, width, index, v), width, other, x)
         == if other == index then v[x] else Element(buffer, width, other, x)
  {
    DigitBound(other, x, width, blocks);
    if other != index {
      BlocksApart(index, other, width, x);
    }
    SplicedElement(buffer, Spliced(buffer, width, index, v), index * width, v, other * width + x);
    SplicedCases(buffer, index * width, v, other * width, x, other == index);
  }

  lemma SplicedCases(buffer: seq<real>, base: nat, v: seq<real>, start: nat, x: nat, same: bool)
    requires x < |v|
    requires if same then start == base else start + x < base || base + |v| <= start + x
    ensures SplicedAt(buffer, base, v, start + x) == if same then v[x] else At(buffer, start + x)
  {
  }

  lemma SplicedElement(buffer: seq<real>, after: seq<real>, base: nat, v: seq<real>, i: nat)
    requires |after| == |buffer| && i < |buffer|
    requires forall k :: 0 <= k < |after| ==> after[k] == SplicedAt(buffer, base, v, k)
    ensures At(after, i) == SplicedAt(buffer, base, v, i)
  {
  }
}
