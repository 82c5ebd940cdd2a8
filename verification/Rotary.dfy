/**
 * What the rotary embedding does to a vector (`rotary.rs`, `cuda_mla.rs`): a position turns every pair of components by
 * so many times the pair's frequency, so products of rotated vectors see relative positions only.
 */
module Rotary {
  import opened Basics
  import opened Sums
  import opened CpuShapes
  import opened AbsorbedMla

  // ---------- sine and cosine ----------

  /** The addition laws. */
  ghost predicate Adds(cos: real -> real, sin: real -> real, x: real, y: real) {
    && cos(x + y) == cos(x) * cos(y) - sin(x) * sin(y)
    && sin(x + y) == sin(x) * cos(y) + cos(x) * sin(y)
  }

  ghost predicate OnCircle(cos: real -> real, sin: real -> real, x: real) {
    cos(x) * cos(x) + sin(x) * sin(x) == 1.0
  }

  ghost predicate Trigonometric(cos: real -> real, sin: real -> real) {
    && cos(0.0) == 1.0 && sin(0.0) == 0.0
    && (forall x, y :: Adds(cos, sin, x, y)) && forall x :: OnCircle(cos, sin, x)
  }

  // ---------- one pair ----------

  /** The two components of a pair as a position leaves them. */
  function TurnedFirst(rope: Rope, position: nat, p: int, a: real, b: real): real {
    rope.AtPosition(position).first(p, a, b)
  }

  function TurnedSecond(rope: Rope, position: nat, p: int, a: real, b: real): real {
    rope.AtPosition(position).second(p, a, b)
  }

  /** The pair turned by an angle with this cosine and sine, and scaled. */
  function Turn1(a: real, b: real, c: real, s: real, m: real): real {
    (a * c - b * s) * m
  }

  function Turn2(a: real, b: real, c: real, s: real, m: real): real {
    (b * c + a * s) * m
  }

  lemma TurnFurther(a: real, b: real, c: real, s: real, c': real, s': real, m: real, c2: real, s2: real)
    requires c2 == c * c' - s * s' && s2 == s * c' + c * s'
    ensures Turn1(a, b, c2, s2, m) == Turn1(a, b, c, s, m) * c' - Turn2(a, b, c, s, m) * s'
    ensures Turn2(a, b, c2, s2, m) == Turn2(a, b, c, s, m) * c' + Turn1(a, b, c, s, m) * s'
  {
  }

  lemma AngleNext(rope: Rope, position: nat, p: int)
    ensures rope.Angle(position + 1, p) == rope.Angle(position, p) + rope.frequency(p)
  {
  }

  lemma TurnedIs(rope: Rope, position: nat, p: int, a: real, b: real)
    requires !rope.skip
    ensures var c, s := rope.cos(rope.Angle(position, p)), rope.sin(rope.Angle(position, p));
            && TurnedFirst(rope, position, p, a, b) == Turn1(a, b, c, s, rope.magnitude)
            && TurnedSecond(rope, position, p, a, b) == Turn2(a, b, c, s, rope.magnitude)
  {
  }

  /** At position 0 a pair is scaled by the magnitude. */
  lemma StartIsScaled(rope: Rope, p: int, a: real, b: real)
    requires Trigonometric(rope.cos, rope.sin) && !rope.skip
    ensures TurnedFirst(rope, 0, p, a, b) == a * rope.magnitude && TurnedSecond(rope, 0, p, a, b) == b * rope.magnitude
  {
    assert rope.Angle(0, p) == 0.0;
    TurnedIs(rope, 0, p, a, b);
  }

  /** The pair (x, y), turned by an angle with this cosine and sine. */
  predicate Turns(x: real, y: real, c: real, s: real, x': real, y': real) {
    x' == x * c - y * s && y' == y * c + x * s
  }

  /** One position more is one more turn, by the pair's own frequency. */
  lemma NextTurns(rope: Rope, position: nat, p: int, a: real, b: real)
    requires Trigonometric(rope.cos, rope.sin) && !rope.skip
    ensures var x, y := TurnedFirst(rope, position, p, a, b), TurnedSecond(rope, position, p, a, b);
            var c, s := rope.cos(rope.frequency(p)), rope.sin(rope.frequency(p));
            Turns(x, y, c, s, TurnedFirst(rope, position + 1, p, a, b), TurnedSecond(rope, position + 1, p, a, b))
  {
    var f, angle, next := rope.frequency(p), rope.Angle(position, p), rope.Angle(position + 1, p);
    AngleNext(rope, position, p);
    assert Adds(rope.cos, rope.sin, angle, f);
    TurnedIs(rope, position, p, a, b);
    TurnedIs(rope, position + 1, p, a, b);
    TurnFurther(a, b, rope.cos(angle), rope.sin(angle), rope.cos(f), rope.sin(f), rope.magnitude, rope.cos(next),
                rope.sin(next));
  }

  // ---------- products ----------

  function Product(x: real, y: real, z: real, w: real): real {
    x * z + y * w
  }

  /** Turning two pairs by the same angle keeps their product. */
  lemma TurnKeepsProduct(x: real, y: real, z: real, w: real, c: real, s: real, x': real, y': real, z': real, w': real)
    requires c * c + s * s == 1.0
    requires Turns(x, y, c, s, x', y') && Turns(z, w, c, s, z', w')
    ensures Product(x', y', z', w') == Product(x, y, z, w)
  {
    assert x' * z' + y' * w' == (x * z + y * w) * (c * c + s * s);
  }

  /** The product of a pair at one position and a pair at another. */
  function PairProduct(rope: Rope, p: int, a: real, b: real, i: nat, a': real, b': real, j: nat): real {
    Product(TurnedFirst(rope, i, p, a, b), TurnedSecond(rope, i, p, a, b),
            TurnedFirst(rope, j, p, a', b'), TurnedSecond(rope, j, p, a', b'))
  }

  /** It depends on the distance of the positions only. */
  lemma {:induction false} PairProductShifted(rope: Rope, p: int, a: real, b: real, i: nat, a': real, b': real, j: nat,
                                              shift: nat)
    requires Trigonometric(rope.cos, rope.sin)
    ensures PairProduct(rope, p, a, b, i + shift, a', b', j + shift) == PairProduct(rope, p, a, b, i, a', b', j)
  {
    if shift > 0 {
      PairProductShifted(rope, p, a, b, i, a', b', j, shift - 1);
      PairProductNext(rope, p, a, b, i + shift - 1, a', b', j + shift - 1);
    }
  }

  lemma PairProductNext(rope: Rope, p: int, a: real, b: real, i: nat, a': real, b': real, j: nat)
    requires Trigonometric(rope.cos, rope.sin)
    ensures PairProduct(rope, p, a, b, i + 1, a', b', j + 1) == PairProduct(rope, p, a, b, i, a', b', j)
  {
    if !rope.skip {
      NextTurns(rope, i, p, a, b);
      NextTurns(rope, j, p, a', b');
      var f := rope.frequency(p);
      assert OnCircle(rope.cos, rope.sin, f);
      TurnKeepsProduct(TurnedFirst(rope, i, p, a, b), TurnedSecond(rope, i, p, a, b),
                       TurnedFirst(rope, j, p, a', b'), TurnedSecond(rope, j, p, a', b'), rope.cos(f), rope.sin(f),
                       TurnedFirst(rope, i + 1, p, a, b), TurnedSecond(rope, i + 1, p, a, b),
                       TurnedFirst(rope, j + 1, p, a', b'), TurnedSecond(rope, j + 1, p, a', b'));
    }
  }

  // ---------- whole vectors ----------

  /** What a sum takes from pair p. */
  function PairTerms(style: Style, half: nat, f: int -> real): int -> real {
    p => if p < 0 then 0.0 else f(First(style, half, p)) + f(Second(style, half, p))
  }

  /** A sum over all components is a sum over the pairs. */
  lemma SumByPairs(style: Style, half: nat, f: int -> real)
    ensures Sum(2 * half, f) == Sum(half, PairTerms(style, half, f))
  {
    if style.Interleaved? {
      SumInterleaved(half, half, f);
    } else {
      SumHalves(half, f, i => f(half + i));
    }
  }

  lemma SumHalves(half: nat, f: int -> real, high: int -> real)
    requires forall i :: 0 <= i < half ==> high(i) == f(half + i)
    ensures Sum(2 * half, f) == Sum(half, PairTerms(Neox, half, f))
  {
    SumConcat(half, half, f, high);
    forall p | 0 <= p < half
      ensures PairTerms(Neox, half, f)(p) == f(p) + high(p)
    {
      NeoxTerm(half, f, p);
    }
    SumAdd(half, f, high, PairTerms(Neox, half, f));
  }

  lemma NeoxTerm(half: nat, f: int -> real, p: nat)
    requires p < half
    ensures PairTerms(Neox, half, f)(p) == f(p) + f(half + p)
  {
    assert First(Neox, half, p) == p && Second(Neox, half, p) == half + p;
  }

  lemma {:induction false} SumInterleaved(n: nat, half: nat, f: int -> real)
    ensures Sum(2 * n, f) == Sum(n, PairTerms(Interleaved, half, f))
  {
    if n > 0 {
      SumInterleaved(n - 1, half, f);
      assert Sum(2 * n, f) == Sum(2 * n - 1, f) + f(2 * n - 1);
      assert Sum(2 * n - 1, f) == Sum(2 * (n - 1), f) + f(2 * n - 2);
      var i, j := First(Interleaved, half, n - 1), Second(Interleaved, half, n - 1);
      assert i == 2 * n - 2 && j == 2 * n - 1;
      assert PairTerms(Interleaved, half, f)(n - 1) == f(i) + f(j);
      assert PairTerms(Interleaved, half, f)(n - 1) == f(2 * n - 2) + f(2 * n - 1);
    }
  }

  /** Without rotary embedding the vector stays. */
  lemma SkipKeeps(rope: Rope, position: nat, half: nat, v: seq<real>, out: seq<real>)
    requires rope.skip && IsRotated(rope.AtPosition(position), half, v, out)
    ensures out == v
  {
    forall x | 0 <= x < 2 * half
      ensures out[x] == v[x]
    {
      var p: nat := if rope.style.Interleaved? then x / 2 else if x < half then x else x - half;
      assert x == First(rope.style, half, p) || x == Second(rope.style, half, p);
      assert PairRotated(rope.AtPosition(position), half, v, out, p);
    }
  }

  lemma RotatedPair(rope: Rope, position: nat, half: nat, v: seq<real>, out: seq<real>, p: nat)
    requires IsRotated(rope.AtPosition(position), half, v, out) && p < half
    ensures var i, j := First(rope.style, half, p), Second(rope.style, half, p);
            && i < |out| == |v| && j < |out|
            && out[i] == TurnedFirst(rope, position, p, v[i], v[j])
            && out[j] == TurnedSecond(rope, position, p, v[i], v[j])
  {
    assert PairRotated(rope.AtPosition(position), half, v, out, p);
  }

  /** The product of two rotated vectors depends on the distance of their positions only, for both pairings. */
  lemma RelativePositions(rope: Rope, half: nat, v: seq<real>, w: seq<real>, i: nat, j: nat, shift: nat,
                          atI: seq<real>, atJ: seq<real>, laterI: seq<real>, laterJ: seq<real>)
    requires Trigonometric(rope.cos, rope.sin)
    requires IsRotated(rope.AtPosition(i), half, v, atI) && IsRotated(rope.AtPosition(j), half, w, atJ)
    requires IsRotated(rope.AtPosition(i + shift), half, v, laterI)
    requires IsRotated(rope.AtPosition(j + shift), half, w, laterJ)
    ensures Sum(2 * half, Products(laterI, 0, laterJ, 0)) == Sum(2 * half, Products(atI, 0, atJ, 0))
  {
    var f, g := Products(laterI, 0, laterJ, 0), Products(atI, 0, atJ, 0);
    SumByPairs(rope.style, half, f);
    SumByPairs(rope.style, half, g);
    forall p | 0 <= p < half
      ensures PairTerms(rope.style, half, f)(p) == PairTerms(rope.style, half, g)(p)
    {
      SamePairTerm(rope, half, v, w, i, j, shift, atI, atJ, laterI, laterJ, p);
    }
    SumExt(half, PairTerms(rope.style, half, f), PairTerms(rope.style, half, g));
  }

  lemma SamePairTerm(rope: Rope, half: nat, v: seq<real>, w: seq<real>, i: nat, j: nat, shift: nat, atI: seq<real>,
                     atJ: seq<real>, laterI: seq<real>, laterJ: seq<real>, p: nat)
    requires Trigonometric(rope.cos, rope.sin) && p < half
    requires IsRotated(rope.AtPosition(i), half, v, atI) && IsRotated(rope.AtPosition(j), half, w, atJ)
    requires IsRotated(rope.AtPosition(i + shift), half, v, laterI)
    requires IsRotated(rope.AtPosition(j + shift), half, w, laterJ)
    ensures PairTerms(rope.style, half, Products(laterI, 0, laterJ, 0))(p)
         == PairTerms(rope.style, half, Products(atI, 0, atJ, 0))(p)
  {
    var x, y := First(rope.style, half, p), Second(rope.style, half, p);
    PairTermIs(rope, half, v, w, i, j, atI, atJ, p);
    PairTermIs(rope, half, v, w, i + shift, j + shift, laterI, laterJ, p);
    PairProductShifted(rope, p, v[x], v[y], i, w[x], w[y], j, shift);
  }

  lemma PairTermIs(rope: Rope, half: nat, v: seq<real>, w: seq<real>, i: nat, j: nat, atI: seq<real>, atJ: seq<real>,
                   p: nat)
    requires p < half
    requires IsRotated(rope.AtPosition(i), half, v, atI) && IsRotated(rope.AtPosition(j), half, w, atJ)
    ensures var x, y := First(rope.style, half, p), Second(rope.style, half, p);
            && x < |v| == |w| && y < |v|
            && PairTerms(rope.style, half, Products(atI, 0, atJ, 0))(p)
               == PairProduct(rope, p, v[x], v[y], i, w[x], w[y], j)
  {
    var x, y := First(rope.style, half, p), Second(rope.style, half, p);
    RotatedPair(rope, i, half, v, atI, p);
    RotatedPair(rope, j, half, w, atJ, p);
    ProductAt(atI, atJ, x);
    ProductAt(atI, atJ, y);
  }

  lemma ProductAt(a: seq<real>, b: seq<real>, x: nat)
    requires x < |a| && x < |b|
    ensures Products(a, 0, b, 0)(x) == a[x] * b[x]
  {
    assert At(a, 0 + x) == a[x] && At(b, 0 + x) == b[x];
  }
}
