/** `LogitSampler` (`model_executor.rs`): temperature, top-k, top-p and min-p filtering, then an inverse-CDF draw. */
module Sampler {
  import opened Basics
  import opened Sums
  import opened Softmax

  datatype Sampling = Sampling(temperature: Option<real>, topP: Option<real>, topK: Option<int>, minP: Option<real>)

  datatype SampleError = EmptyVocabulary | InvalidProbabilityDistribution

  /** `f32::EPSILON` and the largest `f32` below one. */
  const EPSILON: real := 0.00000011920928955078125
  const LARGEST_BELOW_ONE: real := 0.999999940395355224609375

  /** One unit in the last place of 1, and half of it below 1. */
  lemma UnitsInTheLastPlace()
    ensures EPSILON * 8388608.0 == 1.0 && (1.0 - LARGEST_BELOW_ONE) * 16777216.0 == 1.0
  {
  }

  datatype Candidate = Candidate(token: nat, p: real)

  // ---------- greedy ----------

  predicate LastMaximum(logits: seq<real>, g: nat) {
    && g < |logits|
    && forall j :: 0 <= j < |logits| ==> if j <= g then logits[j] <= logits[g] else logits[j] < logits[g]
  }

  /** `argmax_token`: of several maxima, `max_by` returns the last. */
  method Argmax(logits: seq<real>) returns (r: Result<nat, SampleError>)
    ensures r.Ok? <==> logits != []
    ensures r.Err? ==> r.error == EmptyVocabulary
    ensures r.Ok? ==> LastMaximum(logits, r.value)
  {
    if logits == [] {
      return Err(EmptyVocabulary);
    }
    var best := 0;
    for i := 1 to |logits|
      invariant 0 <= best < i
      invariant forall j :: 0 <= j < i ==> if j <= best then logits[j] <= logits[best] else logits[j] < logits[best]
    {
      if logits[best] <= logits[i] {
        best := i;
      }
    }
    return Ok(best);
  }

  // ---------- the stable descending order ----------

  /** More probable first; equally probable candidates stay in token order. */
  predicate Precedes(a: Candidate, b: Candidate) {
    a.p > b.p || (a.p == b.p && a.token < b.token)
  }

  ghost predicate Ordered(c: seq<Candidate>) {
    forall i, j :: 0 <= i < j < |c| ==> Precedes(c[i], c[j])
  }

  /** In front of the first candidate that is not strictly more probable. */
  function Insert(x: Candidate, c: seq<Candidate>): seq<Candidate> {
    if c == [] || c[0].p <= x.p then [x] + c else [c[0]] + Insert(x, c[1..])
  }

  /** A stable descending sort. */
  function StableSort(c: seq<Candidate>): seq<Candidate> {
    if c == [] then [] else Insert(c[0], StableSort(c[1..]))
  }

  lemma {:induction false} InsertElements(x: Candidate, c: seq<Candidate>)
    ensures multiset(Insert(x, c)) == multiset(c) + multiset{x}
  {
    if c != [] && c[0].p > x.p {
      InsertElements(x, c[1..]);
      assert c == [c[0]] + c[1..];
    }
  }

  lemma {:induction false} InsertOrdered(x: Candidate, c: seq<Candidate>)
    requires Ordered(c) && forall i :: 0 <= i < |c| ==> x.token < c[i].token
    ensures Ordered(Insert(x, c))
  {
    if c != [] && c[0].p > x.p {
      var rest := Insert(x, c[1..]);
      InsertOrdered(x, c[1..]);
      InsertElements(x, c[1..]);
      forall i | 0 <= i < |rest|
        ensures Precedes(c[0], rest[i])
      {
        assert rest[i] in multiset(rest);
        assert rest[i] == x || rest[i] in c[1..];
      }
    }
  }

  ghost predicate TokensAscend(c: seq<Candidate>) {
    forall i, j :: 0 <= i < j < |c| ==> c[i].token < c[j].token
  }

  lemma {:induction false} SortElements(c: seq<Candidate>)
    ensures multiset(StableSort(c)) == multiset(c) && |StableSort(c)| == |c|
  {
    if c != [] {
      SortElements(c[1..]);
      InsertElements(c[0], StableSort(c[1..]));
      assert c == [c[0]] + c[1..];
      assert |multiset(StableSort(c))| == |c|;
    }
  }

  lemma {:induction false} SortCorrect(c: seq<Candidate>)
    requires TokensAscend(c)
    ensures multiset(StableSort(c)) == multiset(c) && Ordered(StableSort(c)) && |StableSort(c)| == |c|
  {
    SortElements(c);
    if c != [] {
      var rest := StableSort(c[1..]);
      SortCorrect(c[1..]);
      forall i | 0 <= i < |rest|
        ensures c[0].token < rest[i].token
      {
        assert rest[i] in multiset(c[1..]);
      }
      InsertOrdered(c[0], rest);
    }
  }

  /** The order is total, so the sorted arrangement is the only one. */
  lemma {:induction false} OrderedUnique(a: seq<Candidate>, b: seq<Candidate>)
    requires Ordered(a) && Ordered(b) && multiset(a) == multiset(b)
    ensures a == b
  {
    assert |multiset(a)| == |a| && |multiset(b)| == |b|;
    if a != [] {
      assert a[0] in multiset(b) && b[0] in multiset(a);
      assert a[0] == b[0];
      assert a == [a[0]] + a[1..] && b == [b[0]] + b[1..];
      assert multiset(a[1..]) == multiset(a) - multiset{a[0]};
      OrderedUnique(a[1..], b[1..]);
    }
  }

  // ---------- cumulative probabilities ----------

  function Probability(c: seq<Candidate>): int -> real {
    i => if 0 <= i < |c| then c[i].p else 0.0
  }

  function Share(c: seq<Candidate>, z: real): int -> real
    requires z != 0.0
  {
    i => Probability(c)(i) / z
  }

  ghost predicate Positive(c: seq<Candidate>) {
    forall i :: 0 <= i < |c| ==> c[i].p > 0.0
  }

  /** Total probability of the first k candidates. */
  function Mass(c: seq<Candidate>, k: nat): real {
    Sum(k, Probability(c))
  }

  /** The same as a fraction of z. */
  function Fraction(c: seq<Candidate>, z: real, k: nat): real
    requires z != 0.0
  {
    Mass(c, k) / z
  }

  lemma {:induction false} MassGrows(c: seq<Candidate>, i: nat, j: nat)
    requires Positive(c) && i <= j <= |c|
    ensures Mass(c, i) <= Mass(c, j) && (i < j ==> Mass(c, i) < Mass(c, j))
  {
    if i < j {
      MassGrows(c, i, j - 1);
    }
  }

  lemma {:induction false} MassOfPrefix(c: seq<Candidate>, n: nat, k: nat)
    requires k <= n <= |c|
    ensures Mass(c[..n], k) == Mass(c, k)
  {
    SumExt(k, Probability(c[..n]), Probability(c));
  }

  lemma ShareIsMass(c: seq<Candidate>, z: real, k: nat)
    requires z > 0.0
    ensures Sum(k, Share(c, z)) == Fraction(c, z, k)
  {
    var f := Share(c, z);
    forall i | 0 <= i < k
      ensures Probability(c)(i) == z * f(i)
    {
      var p := Probability(c)(i);
      assert p / z * z == p;
    }
    SumScale(k, z, f, Probability(c));
  }

  // ---------- the filters ----------

  /** `top_k` truncates only when it is positive and below the candidate count. */
  function TopKCount(topK: Option<int>, n: nat): (k: nat)
    ensures k <= n && (n > 0 ==> k > 0)
  {
    if topK.Some? && 0 < topK.value < n then topK.value else n
  }

  /** k is the length of the shortest prefix whose share of the mass reaches topP, or everything. */
  ghost predicate ShortestReaching(c: seq<Candidate>, z: real, topP: real, k: nat)
    requires z > 0.0
  {
    && k <= |c|
    && (forall i: nat :: i < k ==> Fraction(c, z, i) < topP)
    && (k < |c| ==> Fraction(c, z, k) >= topP)
  }

  /** The first m candidates meet the threshold, the next one does not. */
  ghost predicate MeetsMinimum(c: seq<Candidate>, threshold: real, m: nat) {
    && m <= |c|
    && (forall i :: 0 <= i < m ==> c[i].p >= threshold)
    && (m < |c| ==> c[m].p < threshold)
  }

  /** In order, none of the later ones meets it either. */
  lemma RestBelow(c: seq<Candidate>, threshold: real, m: nat, i: nat)
    requires Ordered(c) && MeetsMinimum(c, threshold, m) && m <= i < |c|
    ensures c[i].p < threshold
  {
    if m < i {
      assert Precedes(c[m], c[i]);
    }
  }

  lemma ShortestUnique(c: seq<Candidate>, z: real, topP: real, k: nat, k': nat)
    requires z > 0.0 && ShortestReaching(c, z, topP, k) && ShortestReaching(c, z, topP, k')
    ensures k == k'
  {
  }

  lemma MinimumUnique(c: seq<Candidate>, threshold: real, m: nat, m': nat)
    requires MeetsMinimum(c, threshold, m) && MeetsMinimum(c, threshold, m')
    ensures m == m'
  {
  }

  lemma DivideLe(a: real, b: real, z: real)
    requires z > 0.0 && a <= b
    ensures a / z <= b / z
  {
  }

  /** Every longer prefix reaches topP too. */
  lemma ReachingStays(c: seq<Candidate>, z: real, topP: real, k: nat, i: nat)
    requires z > 0.0 && Positive(c) && k <= i <= |c| && Fraction(c, z, k) >= topP
    ensures Fraction(c, z, i) >= topP
  {
    MassGrows(c, k, i);
    DivideLe(Mass(c, k), Mass(c, i), z);
  }

  /** The two counts over the first i candidates. */
  ghost predicate Counted(c: seq<Candidate>, z: real, topP: real, threshold: real, i: nat, k: nat, m: nat)
    requires z > 0.0 && i <= |c|
  {
    && k <= i && (forall j: nat :: j < k ==> Fraction(c, z, j) < topP) && (k < i ==> Fraction(c, z, k) >= topP)
    && m <= i && (forall j :: 0 <= j < m ==> c[j].p >= threshold) && (m < i ==> c[m].p < threshold)
  }

  /** One more candidate is kept exactly when both counts are still complete and it passes both tests. */
  lemma CountNext(c: seq<Candidate>, z: real, topP: real, threshold: real, i: nat, k: nat, m: nat)
    requires z > 0.0 && Positive(c) && Ordered(c) && i < |c| && Counted(c, z, topP, threshold, i, k, m)
    ensures Fraction(c, z, i) < topP ==> k == i
    ensures c[i].p >= threshold ==> m == i
    ensures Counted(c, z, topP, threshold, i + 1, if Fraction(c, z, i) < topP then i + 1 else k,
                    if c[i].p >= threshold then i + 1 else m)
  {
    if k < i {
      ReachingStays(c, z, topP, k, i);
    }
    if m < i {
      assert Precedes(c[m], c[i]);
    }
  }

  /**
   * The filter loop keeps a candidate when the share before it is below topP and it meets the minimum. What it keeps
   * is a prefix: the shorter of the shortest prefix reaching topP and the candidates meeting the minimum.
   */
  method Filter(c: seq<Candidate>, z: real, topP: real, threshold: real) returns (kept: seq<Candidate>)
    requires z > 0.0 && Positive(c) && Ordered(c)
    ensures exists k: nat, m: nat ::
              ShortestReaching(c, z, topP, k) && MeetsMinimum(c, threshold, m) && kept == c[..Min(k, m)]
  {
    var cumulative := 0.0;
    ghost var k: nat, m: nat := 0, 0;
    kept := [];
    for i := 0 to |c|
      invariant cumulative == Sum(i, Share(c, z))
      invariant Counted(c, z, topP, threshold, i, k, m)
      invariant kept == c[..Min(k, m)]
    {
      ShareIsMass(c, z, i);
      CountNext(c, z, topP, threshold, i, k, m);
      var keepForTopP := cumulative < topP;
      cumulative := cumulative + c[i].p / z;
      if keepForTopP && c[i].p >= threshold {
        kept := kept + [c[i]];
      }
      k := if keepForTopP then i + 1 else k;
      m := if c[i].p >= threshold then i + 1 else m;
    }
    assert ShortestReaching(c, z, topP, k) && MeetsMinimum(c, threshold, m);
  }

  /** Something is kept exactly when topP is positive and minP at most one. */
  lemma KeptNonEmpty(c: seq<Candidate>, z: real, topP: real, minP: real, k: nat, m: nat)
    requires z > 0.0 && c != [] && Positive(c)
    requires ShortestReaching(c, z, topP, k) && MeetsMinimum(c, c[0].p * minP, m)
    ensures Min(k, m) > 0 <==> topP > 0.0 && minP <= 1.0
  {
    assert Fraction(c, z, 0) == 0.0;
    var p := c[0].p;
    ThresholdMet(p, minP);
  }

  lemma ThresholdMet(p: real, minP: real)
    requires p > 0.0
    ensures p >= p * minP <==> minP <= 1.0
  {
    if minP > 1.0 {
      assert p * (minP - 1.0) > 0.0;
    } else {
      assert p * (1.0 - minP) >= 0.0;
    }
  }

  // ---------- the draw ----------

  /** Non-finite random values become zero, the others are clamped below one. */
  function BoundedUnit(random: Option<real>): (u: real)
    ensures 0.0 <= u < 1.0
  {
    match random
    case None => 0.0
    case Some(x) => if x < 0.0 then 0.0 else if x > LARGEST_BELOW_ONE then LARGEST_BELOW_ONE else x
  }

  /** The draw, scaled to the mass that is left. */
  function Target(u: real, total: real): real {
    u * total
  }

  /** The cumulative interval of candidate i contains the target. */
  ghost predicate Hits(c: seq<Candidate>, target: real, i: nat) {
    i < |c| && Mass(c, i) <= target < Mass(c, i + 1)
  }

  /** The intervals are disjoint. */
  lemma HitUnique(c: seq<Candidate>, target: real, i: nat, j: nat)
    requires Positive(c) && Hits(c, target, i) && Hits(c, target, j)
    ensures i == j
  {
    if i < j {
      MassGrows(c, i + 1, j);
    } else if j < i {
      MassGrows(c, j + 1, i);
    }
  }

  /** The draw loop; the last candidate is the answer only for a target that reaches the total. */
  method Draw(c: seq<Candidate>, target: real) returns (i: nat)
    requires c != [] && target >= 0.0
    ensures i < |c|
    ensures target < Mass(c, |c|) ==> Hits(c, target, i)
    ensures target >= Mass(c, |c|) && Positive(c) ==> i == |c| - 1
  {
    var cumulative := 0.0;
    i := 0;
    while i < |c|
      invariant i <= |c| && cumulative == Mass(c, i) && cumulative <= target
    {
      cumulative := cumulative + c[i].p;
      if target < cumulative {
        if Positive(c) {
          MassGrows(c, i + 1, |c|);
        }
        return;
      }
      i := i + 1;
    }
    i := |c| - 1;
  }

  // ---------- one row ----------

  predicate Greedy(s: Sampling) {
    || (s.temperature.None? && s.topP.None? && s.topK.None? && s.minP.None?)
    || Temperature(s) <= EPSILON
    || s.topK == Some(1)
  }

  function Temperature(s: Sampling): real {
    if s.temperature.Some? then s.temperature.value else 1.0
  }

  function TopP(s: Sampling): real {
    if s.topP.Some? then s.topP.value else 1.0
  }

  function MinP(s: Sampling): real {
    if s.minP.Some? then s.minP.value else 0.0
  }

  /** Every token with the exponential of its scaled logit, shifted by m. */
  function Exponentials(e: real -> real, logits: seq<real>, t: real, m: real): (c: seq<Candidate>)
    requires t > 0.0
    ensures |c| == |logits| && forall i :: 0 <= i < |c| ==> c[i] == Candidate(i, e(logits[i] / t - m))
  {
    seq(|logits|, i requires 0 <= i < |logits| => Candidate(i, e(logits[i] / t - m)))
  }

  method MaxScaled(logits: seq<real>, t: real) returns (m: real)
    requires logits != [] && t > 0.0
    ensures (exists i :: 0 <= i < |logits| && m == logits[i] / t)
            && forall i :: 0 <= i < |logits| ==> logits[i] / t <= m
  {
    m := logits[0] / t;
    for i := 1 to |logits|
      invariant exists j :: 0 <= j < i && m == logits[j] / t
      invariant forall j :: 0 <= j < i ==> logits[j] / t <= m
    {
      if m <= logits[i] / t {
        m := logits[i] / t;
      }
    }
  }

  /** The candidates in order, after top-k. */
  function Ranked(e: real -> real, logits: seq<real>, s: Sampling, m: real): (c: seq<Candidate>)
    requires Temperature(s) > 0.0
  {
    var sorted := StableSort(Exponentials(e, logits, Temperature(s), m));
    sorted[..TopKCount(s.topK, |sorted|)]
  }

  lemma RankedSound(e: real -> real, logits: seq<real>, s: Sampling, m: real)
    requires IsExp(e) && Temperature(s) > 0.0
    ensures var c := Ranked(e, logits, s, m);
            Ordered(c) && Positive(c) && |c| == TopKCount(s.topK, |logits|)
            && forall i :: 0 <= i < |c| ==> c[i].token < |logits|
  {
    var all := Exponentials(e, logits, Temperature(s), m);
    SortCorrect(all);
    var sorted := StableSort(all);
    forall i | 0 <= i < |sorted|
      ensures sorted[i].p > 0.0 && sorted[i].token < |logits|
    {
      assert sorted[i] in multiset(all);
    }
  }

  // ---------- greedy against the order ----------

  ghost predicate Increasing(e: real -> real) {
    forall x, y :: x < y ==> e(x) < e(y)
  }

  ghost predicate UniqueMaximum(logits: seq<real>, g: nat) {
    g < |logits| && forall j :: 0 <= j < |logits| && j != g ==> logits[j] < logits[g]
  }

  lemma QuotientOrder(a: real, b: real, t: real)
    requires t > 0.0
    ensures a < b <==> a / t < b / t
  {
    assert a == a / t * t && b == b / t * t;
  }

  /** Larger logits are more probable, equal ones equally. */
  lemma LogitOrder(e: real -> real, a: real, b: real, t: real, m: real)
    requires Increasing(e) && t > 0.0
    ensures a < b <==> e(a / t - m) < e(b / t - m)
  {
    QuotientOrder(a, b, t);
    QuotientOrder(b, a, t);
  }

  /** In front of the order stands the first of the maximal logits. */
  lemma FrontIsFirst(e: real -> real, logits: seq<real>, t: real, m: real)
    requires Increasing(e) && t > 0.0 && logits != []
    ensures var c := StableSort(Exponentials(e, logits, t, m));
            c != [] && c[0].token < |logits|
            && forall j :: 0 <= j < |logits| ==>
                 if j < c[0].token then logits[j] < logits[c[0].token] else logits[j] <= logits[c[0].token]
  {
    var all := Exponentials(e, logits, t, m);
    SortCorrect(all);
    var c := StableSort(all);
    assert c[0] in multiset(all);
    var f := c[0].token;
    forall j | 0 <= j < |logits|
      ensures if j < f then logits[j] < logits[f] else logits[j] <= logits[f]
    {
      assert all[j] in multiset(c);
      FrontPrecedes(c, all[j]);
      FirstOfBoth(e, logits, t, m, f, j);
    }
  }

  lemma FrontPrecedes(c: seq<Candidate>, x: Candidate)
    requires Ordered(c) && x in multiset(c)
    ensures x == c[0] || Precedes(c[0], x)
  {
    var i :| 0 <= i < |c| && c[i] == x;
    assert i > 0 ==> Precedes(c[0], c[i]);
  }

  lemma FirstOfBoth(e: real -> real, logits: seq<real>, t: real, m: real, f: nat, j: nat)
    requires Increasing(e) && t > 0.0 && f < |logits| && j < |logits|
    requires var all := Exponentials(e, logits, t, m); all[j] == all[f] || Precedes(all[f], all[j])
    ensures if j < f then logits[j] < logits[f] else logits[j] <= logits[f]
  {
    LogitOrder(e, logits[j], logits[f], t, m);
    LogitOrder(e, logits[f], logits[j], t, m);
  }

  /**
   * The greedy token is the candidate in front, which top-k 1 would keep, exactly when the maximal logit is unique:
   * of several maxima, greedy sampling takes the last and the order puts the first in front.
   */
  lemma GreedyIsFrontIff(e: real -> real, logits: seq<real>, t: real, m: real, g: nat)
    requires Increasing(e) && t > 0.0 && LastMaximum(logits, g)
    ensures StableSort(Exponentials(e, logits, t, m)) != []
    ensures StableSort(Exponentials(e, logits, t, m))[0].token == g <==> UniqueMaximum(logits, g)
  {
    FrontIsFirst(e, logits, t, m);
    var f := StableSort(Exponentials(e, logits, t, m))[0].token;
    if f != g {
      assert logits[f] == logits[g];
    }
  }

  /** Two equal logits: greedy sampling takes token 1, the order puts token 0 in front. */
  lemma EqualLogits(e: real -> real, x: real, t: real, m: real)
    requires Increasing(e) && t > 0.0
    ensures LastMaximum([x, x], 1)
    ensures StableSort(Exponentials(e, [x, x], t, m)) != [] && StableSort(Exponentials(e, [x, x], t, m))[0].token == 0
  {
    var logits := [x, x];
    GreedyIsFrontIff(e, logits, t, m, 1);
    assert logits[0] == logits[1];
    FrontIsFirst(e, logits, t, m);
  }

  // ---------- only ratios matter ----------

  ghost function Grown(x: Candidate, f: real): Candidate {
    Candidate(x.token, f * x.p)
  }

  /** The same candidates with all probabilities multiplied by f. */
  ghost function Scaled(c: seq<Candidate>, f: real): (r: seq<Candidate>)
    ensures |r| == |c| && forall i :: 0 <= i < |c| ==> r[i] == Grown(c[i], f)
  {
    seq(|c|, i requires 0 <= i < |c| => Grown(c[i], f))
  }

  lemma ScaleOrder(a: real, b: real, f: real)
    requires f > 0.0
    ensures (a <= b <==> f * a <= f * b) && (a < b <==> f * a < f * b)
  {
    if a < b {
      assert f * (b - a) > 0.0;
    } else if b < a {
      assert f * (a - b) > 0.0;
    }
  }

  lemma ScaledCons(x: Candidate, c: seq<Candidate>, f: real)
    ensures Scaled([x] + c, f) == [Grown(x, f)] + Scaled(c, f)
  {
  }

  lemma {:induction false} InsertScaled(x: Candidate, c: seq<Candidate>, f: real)
    requires f > 0.0
    ensures Insert(Grown(x, f), Scaled(c, f)) == Scaled(Insert(x, c), f)
    decreases |c|, 1
  {
    if c == [] {
      ScaledCons(x, c, f);
    } else {
      ScaleOrder(c[0].p, x.p, f);
      if c[0].p <= x.p {
        ScaledCons(x, c, f);
      } else {
        InsertLater(x, c, f);
      }
    }
  }

  lemma {:induction false} InsertLater(x: Candidate, c: seq<Candidate>, f: real)
    requires f > 0.0 && c != [] && c[0].p > x.p && Grown(c[0], f).p > Grown(x, f).p
    ensures Insert(Grown(x, f), Scaled(c, f)) == Scaled(Insert(x, c), f)
    decreases |c|, 0
  {
    InsertScaled(x, c[1..], f);
    assert Scaled(c, f)[1..] == Scaled(c[1..], f);
    ScaledCons(c[0], Insert(x, c[1..]), f);
  }

  lemma {:induction false} SortScaled(c: seq<Candidate>, f: real)
    requires f > 0.0
    ensures StableSort(Scaled(c, f)) == Scaled(StableSort(c), f)
  {
    if c != [] {
      SortScaled(c[1..], f);
      assert Scaled(c, f)[1..] == Scaled(c[1..], f);
      InsertScaled(c[0], StableSort(c[1..]), f);
    }
  }

  lemma PrefixScaled(c: seq<Candidate>, f: real, n: nat)
    requires n <= |c|
    ensures Scaled(c[..n], f) == Scaled(c, f)[..n]
  {
  }

  lemma MassScaled(c: seq<Candidate>, f: real, k: nat)
    ensures Mass(Scaled(c, f), k) == f * Mass(c, k)
  {
    SumScale(k, f, Probability(c), Probability(Scaled(c, f)));
  }

  lemma RatioScaled(a: real, z: real, f: real)
    requires f > 0.0 && z > 0.0
    ensures f * z > 0.0 && f * a / (f * z) == a / z
  {
    var q := a / z;
    assert q * z == a;
    assert q * (f * z) == f * a;
  }

  lemma ExponentialsScaled(e: real -> real, logits: seq<real>, t: real, m: real)
    requires IsExp(e) && t > 0.0
    ensures e(m) > 0.0 && Exponentials(e, logits, t, 0.0) == Scaled(Exponentials(e, logits, t, m), e(m))
  {
    ExpShift(e, m, m);
    forall i | 0 <= i < |logits|
      ensures Exponentials(e, logits, t, 0.0)[i] == Scaled(Exponentials(e, logits, t, m), e(m))[i]
    {
      var x := logits[i] / t;
      assert x - 0.0 == x;
      ExpShift(e, x, m);
    }
  }

  /** Subtracting the maximum before exponentiating scales every probability by the same factor. */
  lemma ShiftScales(e: real -> real, logits: seq<real>, s: Sampling, m: real)
    requires IsExp(e) && Temperature(s) > 0.0
    ensures e(m) > 0.0 && Ranked(e, logits, s, 0.0) == Scaled(Ranked(e, logits, s, m), e(m))
  {
    var t := Temperature(s);
    ExponentialsScaled(e, logits, t, m);
    SortScaled(Exponentials(e, logits, t, m), e(m));
    var sorted := StableSort(Exponentials(e, logits, t, m));
    PrefixScaled(sorted, e(m), TopKCount(s.topK, |sorted|));
  }

  // ---------- the meaning of a sampled row ----------

  /** k and m are the prefixes top-p and min-p keep, and i is the candidate of the kept prefix that the draw u hits. */
  ghost predicate IsChoice(c: seq<Candidate>, topP: real, minP: real, u: real, k: nat, m: nat, i: nat) {
    && c != [] && Mass(c, |c|) > 0.0
    && ShortestReaching(c, Mass(c, |c|), topP, k)
    && MeetsMinimum(c, c[0].p * minP, m)
    && Hits(c[..Min(k, m)], Target(u, Mass(c, Min(k, m))), i)
  }

  /** The filters and the draw name one candidate. */
  lemma ChoiceUnique(c: seq<Candidate>, topP: real, minP: real, u: real, k: nat, m: nat, i: nat, k': nat, m': nat,
                     i': nat)
    requires Positive(c) && IsChoice(c, topP, minP, u, k, m, i) && IsChoice(c, topP, minP, u, k', m', i')
    ensures k == k' && m == m' && i == i'
  {
    ShortestUnique(c, Mass(c, |c|), topP, k, k');
    MinimumUnique(c, c[0].p * minP, m, m');
    HitUnique(c[..Min(k, m)], Target(u, Mass(c, Min(k, m))), i, i');
  }

  lemma FractionScaled(c: seq<Candidate>, z: real, f: real, z': real, i: nat)
    requires f > 0.0 && z > 0.0 && z' == f * z
    ensures z' > 0.0 && Fraction(Scaled(c, f), z', i) == Fraction(c, z, i)
  {
    MassScaled(c, f, i);
    RatioScaled(Mass(c, i), z, f);
  }

  lemma ShortestScaled(c: seq<Candidate>, z: real, f: real, z': real, topP: real, k: nat)
    requires f > 0.0 && z > 0.0 && z' == f * z && ShortestReaching(c, z, topP, k)
    ensures z' > 0.0 && ShortestReaching(Scaled(c, f), z', topP, k)
  {
    FractionScaled(c, z, f, z', k);
    forall i: nat | i < k
      ensures Fraction(Scaled(c, f), z', i) < topP
    {
      FractionScaled(c, z, f, z', i);
    }
  }

  lemma MinimumScaled(c: seq<Candidate>, threshold: real, f: real, m: nat)
    requires f > 0.0 && MeetsMinimum(c, threshold, m)
    ensures MeetsMinimum(Scaled(c, f), f * threshold, m)
  {
    forall i | 0 <= i < |c|
      ensures Scaled(c, f)[i].p >= f * threshold <==> c[i].p >= threshold
    {
      ScaleOrder(threshold, c[i].p, f);
    }
  }

  lemma HitsScaled(c: seq<Candidate>, target: real, f: real, i: nat)
    requires f > 0.0 && Hits(c, target, i)
    ensures Hits(Scaled(c, f), f * target, i)
  {
    MassScaled(c, f, i);
    MassScaled(c, f, i + 1);
    ScaleOrder(Mass(c, i), target, f);
    ScaleOrder(target, Mass(c, i + 1), f);
  }

  lemma ChoiceScaled(c: seq<Candidate>, topP: real, minP: real, u: real, k: nat, m: nat, i: nat, f: real)
    requires f > 0.0 && IsChoice(c, topP, minP, u, k, m, i)
    ensures IsChoice(Scaled(c, f), topP, minP, u, k, m, i)
  {
    TopPScaled(c, topP, k, f);
    ThresholdScaled(c, minP, m, f);
    KeptScaled(c, Min(k, m), u, i, f);
  }

  lemma TopPScaled(c: seq<Candidate>, topP: real, k: nat, f: real)
    requires f > 0.0 && Mass(c, |c|) > 0.0 && ShortestReaching(c, Mass(c, |c|), topP, k)
    ensures Mass(Scaled(c, f), |c|) > 0.0 && ShortestReaching(Scaled(c, f), Mass(Scaled(c, f), |c|), topP, k)
  {
    MassScaled(c, f, |c|);
    ShortestScaled(c, Mass(c, |c|), f, Mass(Scaled(c, f), |c|), topP, k);
  }

  lemma ThresholdScaled(c: seq<Candidate>, minP: real, m: nat, f: real)
    requires f > 0.0 && c != [] && MeetsMinimum(c, c[0].p * minP, m)
    ensures MeetsMinimum(Scaled(c, f), Scaled(c, f)[0].p * minP, m)
  {
    MinimumScaled(c, c[0].p * minP, f, m);
    Commute(f, c[0].p, minP);
    assert Scaled(c, f)[0].p == f * c[0].p;
  }

  lemma KeptScaled(c: seq<Candidate>, n: nat, u: real, i: nat, f: real)
    requires f > 0.0 && n <= |c| && Hits(c[..n], Target(u, Mass(c, n)), i)
    ensures Hits(Scaled(c, f)[..n], Target(u, Mass(Scaled(c, f), n)), i)
  {
    MassScaled(c, f, n);
    HitsScaled(c[..n], Target(u, Mass(c, n)), f, i);
    Commute(f, u, Mass(c, n));
    PrefixScaled(c, f, n);
  }

  /** The token the softmax distribution of the scaled logits assigns to the draw u, after the three filters. */
  ghost predicate SampledToken(e: real -> real, logits: seq<real>, s: Sampling, u: real, token: nat)
    requires Temperature(s) > 0.0
  {
    var c := Ranked(e, logits, s, 0.0);
    exists k: nat, m: nat, i: nat :: IsChoice(c, TopP(s), MinP(s), u, k, m, i) && i < |c| && token == c[i].token
  }

  lemma TargetBelow(u: real, total: real)
    requires 0.0 <= u < 1.0 && total > 0.0
    ensures 0.0 <= Target(u, total) < total
  {
    assert (1.0 - u) * total > 0.0;
  }

  /** The draw from what is left: it fails only when nothing is. The last-element fallback is never taken. */
  method DrawKept(kept: seq<Candidate>, u: real) returns (r: Result<nat, SampleError>)
    requires Positive(kept) && 0.0 <= u < 1.0
    ensures r.Ok? <==> kept != []
    ensures r.Err? ==> r.error == InvalidProbabilityDistribution
    ensures r.Ok? ==> Hits(kept, Target(u, Mass(kept, |kept|)), r.value)
  {
    var total := SequentialSum(|kept|, Probability(kept));
    MassGrows(kept, 0, |kept|);
    if total <= 0.0 {
      return Err(InvalidProbabilityDistribution);
    }
    var target := Target(u, total);
    TargetBelow(u, total);
    assert target < Mass(kept, |kept|);
    var chosen := Draw(kept, target);
    return Ok(chosen);
  }

  /** Filtering and drawing from ranked candidates: fails exactly when the filters leave nothing. */
  method FilterAndDraw(c: seq<Candidate>, topP: real, minP: real, u: real)
    returns (r: Result<nat, SampleError>, ghost k: nat, ghost m: nat, ghost i: nat)
    requires c != [] && Positive(c) && Ordered(c) && 0.0 <= u < 1.0
    ensures r.Ok? <==> topP > 0.0 && minP <= 1.0
    ensures r.Err? ==> r.error == InvalidProbabilityDistribution
    ensures r.Ok? ==> IsChoice(c, topP, minP, u, k, m, i) && i < |c| && r.value == c[i].token
  {
    var z := SequentialSum(|c|, Probability(c));
    MassGrows(c, 0, |c|);
    var threshold := c[0].p * minP;
    var kept := Filter(c, z, topP, threshold);
    k, m :| ShortestReaching(c, z, topP, k) && MeetsMinimum(c, threshold, m) && kept == c[..Min(k, m)];
    KeptNonEmpty(c, z, topP, minP, k, m);
    var drawn := DrawKept(kept, u);
    if drawn.Err? {
      return Err(drawn.error), k, m, 0;
    }
    i := drawn.value;
    r := Ok(kept[drawn.value].token);
    MadeChoice(c, topP, minP, u, k, m, i, kept);
  }

  lemma MadeChoice(c: seq<Candidate>, topP: real, minP: real, u: real, k: nat, m: nat, i: nat, kept: seq<Candidate>)
    requires c != [] && Mass(c, |c|) > 0.0 && ShortestReaching(c, Mass(c, |c|), topP, k)
             && MeetsMinimum(c, c[0].p * minP, m)
    requires kept == c[..Min(k, m)] && Hits(kept, Target(u, Mass(kept, |kept|)), i)
    ensures IsChoice(c, topP, minP, u, k, m, i)
  {
    MassOfPrefix(c, Min(k, m), Min(k, m));
  }

  /**
   * `sample_row`, after token penalties: an empty vocabulary is an error, greedy settings pick the last maximal logit,
   * and otherwise the token is the one the draw hits in the filtered softmax distribution.
   */
  method SampleRow(e: real -> real, logits: seq<real>, s: Sampling, random: Option<real>)
    returns (r: Result<nat, SampleError>)
    requires IsExp(e)
    ensures logits == [] ==> r == Err(EmptyVocabulary)
    ensures logits != [] && Greedy(s) ==> r.Ok? && LastMaximum(logits, r.value)
    ensures logits != [] && !Greedy(s) ==> (r.Ok? <==> TopP(s) > 0.0 && MinP(s) <= 1.0)
    ensures logits != [] && !Greedy(s) && r.Err? ==> r.error == InvalidProbabilityDistribution
    ensures logits != [] && !Greedy(s) && r.Ok? ==>
              r.value < |logits| && SampledToken(e, logits, s, BoundedUnit(random), r.value)
  {
    if s.temperature.None? && s.topP.None? && s.topK.None? && s.minP.None? {
      r := Argmax(logits);
      return;
    }
    if (if s.temperature.Some? then s.temperature.value else 1.0) <= EPSILON || s.topK == Some(1) {
      r := Argmax(logits);
      return;
    }
    if logits == [] {
      return Err(EmptyVocabulary);
    }
    var shift := MaxScaled(logits, Temperature(s));
    var c := Ranked(e, logits, s, shift);
    RankedSound(e, logits, s, shift);
    ghost var k, m, i;
    r, k, m, i := FilterAndDraw(c, TopP(s), MinP(s), BoundedUnit(random));
    if r.Ok? {
      ShiftScales(e, logits, s, shift);
      ChoiceScaled(c, TopP(s), MinP(s), BoundedUnit(random), k, m, i, e(shift));
    }
  }

  /** At most one token is the sampled one, so the row's outcome is determined by the distribution and the draw. */
  lemma SampledTokenUnique(e: real -> real, logits: seq<real>, s: Sampling, u: real, token: nat, token': nat)
    requires IsExp(e) && Temperature(s) > 0.0
    requires SampledToken(e, logits, s, u, token) && SampledToken(e, logits, s, u, token')
    ensures token == token'
  {
    var c := Ranked(e, logits, s, 0.0);
    RankedSound(e, logits, s, 0.0);
    var k: nat, m: nat, i: nat :| IsChoice(c, TopP(s), MinP(s), u, k, m, i) && i < |c| && token == c[i].token;
    var k': nat, m': nat, i': nat :| IsChoice(c, TopP(s), MinP(s), u, k', m', i') && i' < |c| && token' == c[i'].token;
    ChoiceUnique(c, TopP(s), MinP(s), u, k, m, i, k', m', i');
  }

  /** A candidate is drawn for exactly the u of an interval as long as its share of the kept mass. */
  lemma DrawnInProportion(c: seq<Candidate>, u: real, i: nat)
    requires Positive(c) && i < |c|
    ensures Mass(c, |c|) > 0.0
    ensures Hits(c, Target(u, Mass(c, |c|)), i) <==>
              Mass(c, i) / Mass(c, |c|) <= u < Mass(c, i) / Mass(c, |c|) + c[i].p / Mass(c, |c|)
  {
    MassGrows(c, 0, |c|);
    var total := Mass(c, |c|);
    var low, high := Mass(c, i), Mass(c, i + 1);
    CrossMultiply(low, u, total);
    CrossMultiply(high, u, total);
    assert high / total == low / total + c[i].p / total;
  }

  lemma CrossMultiply(a: real, u: real, z: real)
    requires z > 0.0
    ensures a <= u * z <==> a / z <= u
  {
    var q := a / z;
    assert q * z == a;
    ScaleOrder(q, u, z);
  }
}
