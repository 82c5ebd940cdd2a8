/** Shared vocabulary: results, the machine word bound, mixed-radix arithmetic and thread sets. */
module Basics {

  datatype Option<+T> = None | Some(value: T) {
    predicate IsFailure() {
      None?
    }

    function PropagateFailure<U>(): Option<U>
      requires None?
    {
      None
    }

    function Extract(): T
      requires Some?
    {
      value
    }

    function OkOr<E>(error: E): Result<T, E> {
      if Some? then Ok(value) else Err(error)
    }
  }

  datatype Result<+T, +E> = Ok(value: T) | Err(error: E) {
    predicate IsFailure() {
      Err?
    }

    function PropagateFailure<U>(): Result<U, E>
      requires Err?
    {
      Err(error)
    }

    function Extract(): T
      requires Ok?
    {
      value
    }
  }

  /** The largest `usize` of the 64-bit targets; every checked operation compares against it. */
  const USIZE_MAX: nat := 0xFFFF_FFFF_FFFF_FFFF

  const U32_MAX: nat := 0xFFFF_FFFF

  const TWO32: nat := 0x1_0000_0000

  /** The value of a 32-bit unsigned computation. */
  function Wrap32(x: nat): (r: nat)
    ensures r <= x && r < TWO32 && (r == x <==> x < TWO32)
  {
    x % TWO32
  }

  function CheckedMul(a: nat, b: nat): Option<nat> {
    if a * b <= USIZE_MAX then Some(a * b) else None
  }

  function CheckedAdd(a: nat, b: nat): Option<nat> {
    if a + b <= USIZE_MAX then Some(a + b) else None
  }

  function Min(a: int, b: int): int {
    if a <= b then a else b
  }

  function Max(a: int, b: int): int {
    if a <= b then b else a
  }

  function CeilDiv(a: nat, b: nat): nat
    requires b > 0
  {
    (a + b - 1) / b
  }

  ghost predicate NoDup<T>(s: seq<T>) {
    forall i, j :: 0 <= i < j < |s| ==> s[i] != s[j]
  }

  /** The largest multiple of d up to n. */
  function AlignDown(n: nat, d: nat): (r: nat)
    requires d > 0
    ensures r <= n < r + d
  {
    DivModSplit(n, d);
    n / d * d
  }

  lemma AlignDownMultiple(n: nat, d: nat)
    requires d > 0
    ensures AlignDown(n, d) % d == 0
  {
    DivModUnique(n / d * d, d, n / d, 0);
  }

  /** Quotient and remainder as naturals, with the facts division by a variable does not give for free. */
  function Quot(a: nat, d: nat): (q: nat)
    requires d > 0
    ensures q * d <= a < q * d + d
  {
    a / d
  }

  function Rem(a: nat, d: nat): (r: nat)
    requires d > 0
    ensures r < d && a == Quot(a, d) * d + r
  {
    a % d
  }

  lemma QuotRemUnique(a: nat, d: nat, q: nat, r: nat)
    requires r < d && a == q * d + r
    ensures Quot(a, d) == q && Rem(a, d) == r
  {
    DivModUnique(a, d, q, r);
  }

  lemma QuotBelow(a: nat, d: nat, n: nat)
    requires d > 0 && a < n * d
    ensures Quot(a, d) < n
  {
    if Quot(a, d) >= n {
      MulLe(n, Quot(a, d), d);
    }
  }

  /** Division with remainder is the only way to write `a` in radix `n`. */
  lemma DivModUnique(a: int, n: int, q: int, r: int)
    requires n > 0 && 0 <= r < n && a == q * n + r
    ensures a / n == q && a % n == r
  {
    var d := a / n - q;
    assert d * n == r - a % n;
    MulSpread(d, n);
  }

  lemma MulSpread(d: int, n: int)
    requires n > 0
    ensures d >= 1 ==> d * n >= n
    ensures d <= -1 ==> d * n <= -n
  {
  }

  lemma DivModSplit(a: int, n: int)
    requires n > 0
    ensures a == (a / n) * n + a % n && 0 <= a % n < n
  {
  }

  lemma MulLe(a: int, b: int, n: int)
    requires a <= b && 0 <= n
    ensures a * n <= b * n
  {
  }

  lemma MulPos(a: int, b: int)
    requires a > 0 && b > 0
    ensures a * b > 0 && a * b >= a && a * b >= b
  {
    MulLe(1, b, a);
    MulLe(1, a, b);
  }

  lemma NextMultiple(a: int, b: int, n: int)
    requires a < b && 0 <= n
    ensures a * n + n <= b * n
  {
    MulLe(a + 1, b, n);
  }

  lemma SplitProduct(a: int, b: int, d: int)
    ensures (a + b) * d == a * d + b * d
  {
  }

  /** A digit below its radix keeps a mixed-radix number below the next multiple. */
  lemma DigitBound(q: int, r: int, n: int, m: int)
    requires 0 <= q < m && 0 <= r < n
    ensures 0 <= q * n && q * n + r < m * n
  {
    NextMultiple(q, m, n);
    MulLe(0, q, n);
  }

  /** Offset of element d of row head of block query, counted in blocks or in rows. */
  lemma NestedOffset(query: nat, heads: nat, head: nat, dim: nat, d: nat)
    ensures query * (heads * dim) + (head * dim + d) == (query * heads + head) * dim + d
  {
    assert query * (heads * dim) == (query * heads) * dim;
  }

  /** Byte address of a slot's row of a tensor: page stride, offset of the tensor in its page, rows before it. */
  function PagedAddress(pageSize: nat, pageStride: nat, offset: nat, rowBytes: nat, slot: nat): nat
    requires pageSize > 0
  {
    Quot(slot, pageSize) * pageStride + offset + Rem(slot, pageSize) * rowBytes
  }

  /** Rows of a tensor that fits its page lie in slot order. */
  lemma PagedMonotone(pageSize: nat, pageStride: nat, offset: nat, rowBytes: nat, slot: nat, last: nat)
    requires pageSize > 0 && slot <= last && offset + pageSize * rowBytes <= pageStride
    ensures PagedAddress(pageSize, pageStride, offset, rowBytes, slot)
         <= PagedAddress(pageSize, pageStride, offset, rowBytes, last)
  {
    var page, lastPage, token, lastToken :=
      Quot(slot, pageSize), Quot(last, pageSize), Rem(slot, pageSize), Rem(last, pageSize);
    QuotMonotone(slot, last, pageSize);
    if page < lastPage {
      NextMultiple(page, lastPage, pageStride);
      NextMultiple(token, pageSize, rowBytes);
      MulLe(0, lastToken, rowBytes);
    } else {
      MulLe(token, lastToken, rowBytes);
    }
  }

  lemma QuotMonotone(a: nat, b: nat, d: nat)
    requires d > 0 && a <= b
    ensures Quot(a, d) <= Quot(b, d)
    ensures Quot(a, d) == Quot(b, d) ==> Rem(a, d) <= Rem(b, d)
  {
    if Quot(a, d) > Quot(b, d) {
      NextMultiple(Quot(b, d), Quot(a, d), d);
    }
  }

  /** Offsets inside different blocks of a buffer differ. */
  lemma BlocksApart(index: nat, other: nat, width: nat, x: nat)
    requires index != other && x < width
    ensures other * width + x < index * width || index * width + width <= other * width + x
  {
    if other < index {
      NextMultiple(other, index, width);
    } else {
      NextMultiple(index, other, width);
    }
  }

  /** The identifiers of the `n` threads of a launch. */
  function Threads(n: nat): (s: set<nat>)
    ensures forall i: nat :: i in s <==> i < n
  {
    if n == 0 then {} else Threads(n - 1) + {n - 1}
  }

  /** The same for a launch over rows and columns. */
  function Tasks(rows: nat, columns: nat): set<(nat, nat)> {
    set row: nat, column: nat | row < rows && column < columns :: (row, column)
  }

  lemma CellsApart(width: nat, row: nat, column: nat, row': nat, column': nat)
    requires column < width && column' < width && (row', column') != (row, column)
    ensures row * width + column != row' * width + column'
  {
    if row * width + column == row' * width + column' {
      DivModUnique(row * width + column, width, row, column);
      DivModUnique(row * width + column, width, row', column');
    }
  }
}
