/**
 * What `sample_row` draws from (`model_executor.rs`), said of the logits and the settings alone: no sorting, no list of
 * candidates, only which tokens are ahead of which and what they weigh.
 */
module SamplerMeaning {
  import opened Basics
  import opened Sums
  import opened Softmax
  import opened Sampler

  // ---------- the distribution ----------

  /** What a token weighs: the exponential of its logit, divided by the temperature if there is one. */
  function TokenWeight(e: real -> real, logits: seq<real>, s: Sampling, b: nat): real
    requires b < |logits| && (s.temperature.Some? ==> s.temperature.value > 0.0)
  {
    if s.temperature.Some? then e(logits[b] / s.temperature.value) else e(logits[b])
  }

  predicate IsAhead(logits: seq<real>, a: nat, b: nat)
    requires a < |logits| && b < |logits|
  {
    logits[a] > logits[b] || (logits[a] == logits[b] && a < b)
  }

  /** The tokens with a larger logit, and among those with an equal one the smaller. */
  function Ahead(logits: seq<real>, b: nat): set<nat>
    requires b < |logits|
  {
    set a: nat | a < |logits| && IsAhead(logits, a, b)
  }

  /** What the tokens of a set weigh together. */
  function TotalWeight(e: real -> real, logits: seq<real>, s: Sampling, tokens: set<nat>): real
    requires s.temperature.Some? ==> s.temperature.value > 0.0
  {
    Sum(|logits|, WeightIn(e, logits, s, tokens))
  }

  function WeightIn(e: real -> real, logits: seq<real>, s: Sampling, tokens: set<nat>): int -> real
    requires s.temperature.Some? ==> s.temperature.value > 0.0
  {
    a => if 0 <= a < |logits| && a in tokens then TokenWeight(e, logits, s, a) else 0.0
  }

  /** So much of a whole. */
  function Part(share: real, whole: real): real {
    share * whole
  }

  /** top-k: a positive count lets that many tokens through, those with the fewest ahead. */
  predicate TopKAdmits(logits: seq<real>, s: Sampling, b: nat)
    requires b < |logits|
  {
    s.topK.Some? && s.topK.value > 0 ==> |Ahead(logits, b)| < s.topK.value
  }

  function Admitted(logits: seq<real>, s: Sampling): set<nat> {
    set b: nat | b < |logits| && TopKAdmits(logits, s, b)
  }

  /** top-p: the admitted tokens ahead weigh less than that share of all admitted ones. */
  predicate TopPKeeps(e: real -> real, logits: seq<real>, s: Sampling, b: nat)
    requires b < |logits| && (s.temperature.Some? ==> s.temperature.value > 0.0)
  {
    s.topP.Some? ==>
      TotalWeight(e, logits, s, Admitted(logits, s) * Ahead(logits, b))
      < Part(s.topP.value, TotalWeight(e, logits, s, Admitted(logits, s)))
  }

  /** min-p: the token weighs at least that share of any other. */
  ghost predicate MinPKeeps(e: real -> real, logits: seq<real>, s: Sampling, b: nat)
    requires b < |logits| && (s.temperature.Some? ==> s.temperature.value > 0.0)
  {
    s.minP.Some? ==>
      forall a: nat :: a < |logits| ==> Part(s.minP.value, TokenWeight(e, logits, s, a)) <= TokenWeight(e, logits, s, b)
  }

  ghost predicate IsKept(e: real -> real, logits: seq<real>, s: Sampling, b: nat)
    requires b < |logits| && (s.temperature.Some? ==> s.temperature.value > 0.0)
  {
    b in Admitted(logits, s) && TopPKeeps(e, logits, s, b) && MinPKeeps(e, logits, s, b)
  }

  ghost function Kept(e: real -> real, logits: seq<real>, s: Sampling): set<nat>
    requires s.temperature.Some? ==> s.temperature.value > 0.0
  {
    set b: nat | b < |logits| && IsKept(e, logits, s, b)
  }

  /** The draw falls into the token's share of what is kept, behind the shares of the kept tokens ahead of it. */
  ghost predicate Drawn(e: real -> real, logits: seq<real>, s: Sampling, u: real, b: nat)
    requires s.temperature.Some? ==> s.temperature.value > 0.0
  {
    var kept := Kept(e, logits, s);
    && b in kept
    && var before := TotalWeight(e, logits, s, kept * Ahead(logits, b));
       before <= Part(u, TotalWeight(e, logits, s, kept)) < before + TokenWeight(e, logits, s, b)
  }

  // ---------- the order, token by token ----------

  /** The tokens of the first n candidates. */
  function TokensOf(c: seq<Candidate>, n: nat): set<nat>
    requires n <= |c|
  {
    set i | 0 <= i < n :: c[i].token
  }

  /** The candidates in order, over the whole vocabulary. */
  ghost predicate Arranged(e: real -> real, logits: seq<real>, s: Sampling, c: seq<Candidate>)
    requires s.temperature.Some? ==> s.temperature.value > 0.0
  {
    && |c| == |logits| && Ordered(c)
    && (forall i :: 0 <= i < |c| ==> c[i].token < |logits| && c[i].p == TokenWeight(e, logits, s, c[i].token))
    && (forall b: nat :: b < |logits| ==> b in TokensOf(c, |c|))
  }

  lemma SortArranges(e: real -> real, logits: seq<real>, s: Sampling)
    requires IsExp(e) && Temperature(s) > 0.0
    ensures Arranged(e, logits, s, StableSort(Exponentials(e, logits, Temperature(s), 0.0)))
  {
    var all := Exponentials(e, logits, Temperature(s), 0.0);
    var c := StableSort(all);
    SortCorrect(all);
    forall i | 0 <= i < |c|
      ensures c[i].token < |logits| && c[i].p == TokenWeight(e, logits, s, c[i].token)
    {
      assert c[i] in multiset(all);
      var j :| 0 <= j < |all| && all[j] == c[i];
      WeightOf(e, logits, s, j);
    }
    forall b: nat | b < |logits|
      ensures b in TokensOf(c, |c|)
    {
      assert all[b] in multiset(c);
      var i :| 0 <= i < |c| && c[i] == all[b];
    }
  }

  lemma WeightOf(e: real -> real, logits: seq<real>, s: Sampling, j: nat)
    requires Temperature(s) > 0.0 && j < |logits|
    ensures Exponentials(e, logits, Temperature(s), 0.0)[j] == Candidate(j, TokenWeight(e, logits, s, j))
  {
    var x := logits[j] / Temperature(s);
    assert x - 0.0 == x;
    assert logits[j] / 1.0 == logits[j];
  }

  /** A token precedes another in the order exactly when it is ahead. */
  lemma PrecedesIffAhead(e: real -> real, logits: seq<real>, s: Sampling, a: nat, b: nat)
    requires Increasing(e) && (s.temperature.Some? ==> s.temperature.value > 0.0) && a < |logits| && b < |logits|
    ensures Precedes(Candidate(a, TokenWeight(e, logits, s, a)), Candidate(b, TokenWeight(e, logits, s, b)))
       <==> IsAhead(logits, a, b)
  {
    if s.temperature.Some? {
      QuotientOrder(logits[a], logits[b], s.temperature.value);
      QuotientOrder(logits[b], logits[a], s.temperature.value);
    }
  }

  /** The tokens before position i are those ahead of the token there. */
  lemma AheadIsPrefix(e: real -> real, logits: seq<real>, s: Sampling, c: seq<Candidate>, i: nat)
    requires Increasing(e) && (s.temperature.Some? ==> s.temperature.value > 0.0) && Arranged(e, logits, s, c)
    requires i < |c|
    ensures c[i].token < |logits| && Ahead(logits, c[i].token) == TokensOf(c, i)
  {
    var b := c[i].token;
    forall a: nat | a < |logits|
      ensures IsAhead(logits, a, b) <==> a in TokensOf(c, i)
    {
      assert a in TokensOf(c, |c|);
      var j :| 0 <= j < |c| && c[j].token == a;
      PrecedesIffAhead(e, logits, s, a, b);
      assert c[j] == Candidate(a, TokenWeight(e, logits, s, a)) && c[i] == Candidate(b, TokenWeight(e, logits, s, b));
      PositionOf(e, logits, s, c, i, j);
    }
  }

  lemma PositionOf(e: real -> real, logits: seq<real>, s: Sampling, c: seq<Candidate>, i: nat, j: nat)
    requires (s.temperature.Some? ==> s.temperature.value > 0.0) && Arranged(e, logits, s, c) && i < |c| && j < |c|
    ensures Precedes(c[j], c[i]) <==> j < i
    ensures c[j].token in TokensOf(c, i) <==> j < i
  {
    if c[j].token in TokensOf(c, i) {
      var h :| 0 <= h < i && c[h].token == c[j].token;
      assert c[h] == c[j];
    }
  }

  lemma InPrefixIff(e: real -> real, logits: seq<real>, s: Sampling, c: seq<Candidate>, n: nat, i: nat)
    requires (s.temperature.Some? ==> s.temperature.value > 0.0) && Arranged(e, logits, s, c) && n <= |c| && i < |c|
    ensures c[i].token in TokensOf(c, n) <==> i < n
  {
    if n < |c| {
      PositionOf(e, logits, s, c, n, i);
    }
  }

  lemma PrefixSize(e: real -> real, logits: seq<real>, s: Sampling, c: seq<Candidate>, n: nat)
    requires (s.temperature.Some? ==> s.temperature.value > 0.0) && Arranged(e, logits, s, c) && n <= |c|
    ensures |TokensOf(c, n)| == n
  {
    forall i: nat | i < |c|
      ensures c[i].token !in TokensOf(c, i)
    {
      PositionOf(e, logits, s, c, i, i);
    }
    DistinctSize(c, n);
  }

  lemma {:induction false} DistinctSize(c: seq<Candidate>, n: nat)
    requires n <= |c| && forall i: nat :: i < n ==> c[i].token !in TokensOf(c, i)
    ensures |TokensOf(c, n)| == n
  {
    if n == 0 {
      assert TokensOf(c, 0) == {};
    } else {
      DistinctSize(c, n - 1);
      PrefixNext(c, n - 1);
      OneMore(TokensOf(c, n - 1), c[n - 1].token);
    }
  }

  lemma OneMore(tokens: set<nat>, b: nat)
    requires b !in tokens
    ensures |tokens + {b}| == |tokens| + 1
  {
  }

  lemma PrefixNext(c: seq<Candidate>, n: nat)
    requires n < |c|
    ensures TokensOf(c, n + 1) == TokensOf(c, n) + {c[n].token}
  {
  }

  // ---------- what prefixes weigh ----------

  lemma {:induction false} SumSingle(n: nat, f: int -> real, b: nat)
    requires b < n && forall a :: 0 <= a < n && a != b ==> f(a) == 0.0
    ensures Sum(n, f) == f(b)
  {
    if b == n - 1 {
      SumZero(n - 1, f);
    } else {
      SumSingle(n - 1, f, b);
    }
  }

  lemma TotalAdd(e: real -> real, logits: seq<real>, s: Sampling, tokens: set<nat>, b: nat)
    requires (s.temperature.Some? ==> s.temperature.value > 0.0) && b < |logits| && b !in tokens
    ensures TotalWeight(e, logits, s, tokens + {b})
         == TotalWeight(e, logits, s, tokens) + TokenWeight(e, logits, s, b)
  {
    SumAdd(|logits|, WeightIn(e, logits, s, tokens), WeightIn(e, logits, s, {b}),
           WeightIn(e, logits, s, tokens + {b}));
    SumSingle(|logits|, WeightIn(e, logits, s, {b}), b);
  }

  /** The mass of a prefix of the order is what its tokens weigh. */
  lemma {:induction false} PrefixWeight(e: real -> real, logits: seq<real>, s: Sampling, c: seq<Candidate>, n: nat)
    requires (s.temperature.Some? ==> s.temperature.value > 0.0) && Arranged(e, logits, s, c) && n <= |c|
    ensures Mass(c, n) == TotalWeight(e, logits, s, TokensOf(c, n))
  {
    if n == 0 {
      assert TokensOf(c, 0) == {};
      SumZero(|logits|, WeightIn(e, logits, s, {}));
    } else {
      PrefixWeight(e, logits, s, c, n - 1);
      PositionOf(e, logits, s, c, n - 1, n - 1);
      PrefixNext(c, n - 1);
      TotalAdd(e, logits, s, TokensOf(c, n - 1), c[n - 1].token);
    }
  }

  // ---------- the three filters ----------

  /** The candidates after top-k are the admitted tokens. */
  lemma AdmittedIsPrefix(e: real -> real, logits: seq<real>, s: Sampling, c: seq<Candidate>)
    requires Increasing(e) && (s.temperature.Some? ==> s.temperature.value > 0.0) && Arranged(e, logits, s, c)
    ensures Admitted(logits, s) == TokensOf(c, TopKCount(s.topK, |c|))
  {
    forall b: nat | b < |logits|
      ensures b in Admitted(logits, s) <==> b in TokensOf(c, TopKCount(s.topK, |c|))
    {
      assert b in TokensOf(c, |c|);
      var i :| 0 <= i < |c| && c[i].token == b;
      AheadIsPrefix(e, logits, s, c, i);
      PrefixSize(e, logits, s, c, i);
      InPrefixIff(e, logits, s, c, TopKCount(s.topK, |c|), i);
    }
  }

  /** Everything there is about the ranked candidates of a row. */
  ghost predicate IsRow(e: real -> real, logits: seq<real>, s: Sampling, c: seq<Candidate>, r: seq<Candidate>) {
    && IsExp(e) && Increasing(e) && Temperature(s) > 0.0 && Arranged(e, logits, s, c)
    && r == c[..TopKCount(s.topK, |c|)] && r == Ranked(e, logits, s, 0.0) && r != []
    && Positive(r) && Ordered(r) && r[0] == c[0]
  }

  lemma RowOf(e: real -> real, logits: seq<real>, s: Sampling) returns (c: seq<Candidate>)
    requires IsExp(e) && Increasing(e) && Temperature(s) > 0.0 && logits != []
    ensures IsRow(e, logits, s, c, Ranked(e, logits, s, 0.0))
  {
    c := StableSort(Exponentials(e, logits, Temperature(s), 0.0));
    SortArranges(e, logits, s);
    RankedSound(e, logits, s, 0.0);
  }

  lemma AdmittedAhead(e: real -> real, logits: seq<real>, s: Sampling, c: seq<Candidate>, r: seq<Candidate>, i: nat)
    requires IsRow(e, logits, s, c, r) && i < |r|
    ensures c[i].token < |logits| && Ahead(logits, c[i].token) == TokensOf(c, i)
    ensures Admitted(logits, s) * Ahead(logits, c[i].token) == TokensOf(c, i)
    ensures Mass(r, i) == TotalWeight(e, logits, s, TokensOf(c, i))
    ensures Mass(r, |r|) == TotalWeight(e, logits, s, Admitted(logits, s))
  {
    AheadIsPrefix(e, logits, s, c, i);
    AdmittedIsPrefix(e, logits, s, c);
    MassOfPrefix(c, |r|, i);
    MassOfPrefix(c, |r|, |r|);
    PrefixWeight(e, logits, s, c, i);
    PrefixWeight(e, logits, s, c, |r|);
  }

  /** top-p keeps the positions before the shortest prefix that reaches it ends. */
  lemma TopPIsPrefix(e: real -> real, logits: seq<real>, s: Sampling, c: seq<Candidate>, r: seq<Candidate>, k: nat,
                     i: nat)
    requires IsRow(e, logits, s, c, r) && i < |r| && c[i].token < |logits|
    requires Mass(r, |r|) > 0.0 && ShortestReaching(r, Mass(r, |r|), TopP(s), k)
    ensures TopPKeeps(e, logits, s, c[i].token) <==> i < k
  {
    AdmittedAhead(e, logits, s, c, r, i);
    ReachedAt(r, TopP(s), k, i);
    if s.topP.None? {
      MassGrows(r, i, |r|);
      assert Part(TopP(s), Mass(r, |r|)) == Mass(r, |r|);
    }
  }

  lemma ReachedAt(r: seq<Candidate>, topP: real, k: nat, i: nat)
    requires Positive(r) && i < |r| && Mass(r, |r|) > 0.0 && ShortestReaching(r, Mass(r, |r|), topP, k)
    ensures Mass(r, i) < Part(topP, Mass(r, |r|)) <==> i < k
  {
    Below(Mass(r, i), topP, Mass(r, |r|));
    assert Fraction(r, Mass(r, |r|), i) == Mass(r, i) / Mass(r, |r|);
    if k <= i {
      ReachingStays(r, Mass(r, |r|), topP, k, i);
    }
  }

  lemma Below(a: real, share: real, z: real)
    requires z > 0.0
    ensures a < Part(share, z) <==> a / z < share
  {
    var q := a / z;
    assert q * z == a;
    ScaleOrder(q, share, z);
  }

  /** min-p keeps the positions that meet the threshold. */
  lemma MinPIsPrefix(e: real -> real, logits: seq<real>, s: Sampling, c: seq<Candidate>, r: seq<Candidate>, m: nat,
                     i: nat)
    requires IsExp(e) && Temperature(s) > 0.0 && Arranged(e, logits, s, c)
    requires i < |r| <= |c| && r[0] == c[0] && r[i] == c[i] && Ordered(r) && c[i].token < |logits|
    requires MeetsMinimum(r, r[0].p * MinP(s), m)
    ensures MinPKeeps(e, logits, s, c[i].token) <==> i < m
  {
    ThresholdAt(r, r[0].p * MinP(s), m, i);
    MinPKeepsIff(e, logits, s, c, i, r[0].p * MinP(s));
  }

  lemma ThresholdAt(r: seq<Candidate>, threshold: real, m: nat, i: nat)
    requires Ordered(r) && MeetsMinimum(r, threshold, m) && i < |r|
    ensures i < m <==> r[i].p >= threshold
  {
    if m <= i {
      RestBelow(r, threshold, m, i);
    }
  }

  /** The first candidate sets the threshold. */
  lemma MinPKeepsIff(e: real -> real, logits: seq<real>, s: Sampling, c: seq<Candidate>, i: nat,
                     threshold: real)
    requires IsExp(e) && Temperature(s) > 0.0 && Arranged(e, logits, s, c) && i < |c| && c[i].token < |logits|
    requires threshold == c[0].p * MinP(s)
    ensures MinPKeeps(e, logits, s, c[i].token) <==> threshold <= c[i].p
  {
    FirstWeighsMost(e, logits, s, c, c[i].token);
    Absent(c[0].p);
    if s.minP.Some? {
      var q := s.minP.value;
      FirstThreshold(c[0].p, q);
      if threshold <= c[i].p {
        forall a: nat | a < |logits|
          ensures Part(q, TokenWeight(e, logits, s, a)) <= TokenWeight(e, logits, s, c[i].token)
        {
          FirstWeighsMost(e, logits, s, c, a);
          ShareBelow(TokenWeight(e, logits, s, a), c[0].p, q, c[i].p);
        }
      } else {
        assert Part(q, TokenWeight(e, logits, s, c[0].token)) > TokenWeight(e, logits, s, c[i].token);
      }
    }
  }

  lemma Absent(p: real)
    ensures p * 0.0 == 0.0
  {
  }

  lemma FirstThreshold(p: real, q: real)
    ensures p * q == Part(q, p)
  {
  }

  lemma FirstWeighsMost(e: real -> real, logits: seq<real>, s: Sampling, c: seq<Candidate>, a: nat)
    requires IsExp(e) && Temperature(s) > 0.0 && Arranged(e, logits, s, c) && a < |logits|
    ensures |c| > 0 && 0.0 < TokenWeight(e, logits, s, a) <= c[0].p
  {
    assert a in TokensOf(c, |c|);
    var i :| 0 <= i < |c| && c[i].token == a;
    assert i > 0 ==> Precedes(c[0], c[i]);
  }

  lemma ShareBelow(x: real, most: real, q: real, y: real)
    requires 0.0 < x <= most && y > 0.0 && most * q <= y
    ensures Part(q, x) <= y
  {
    if q > 0.0 {
      assert (most - x) * q >= 0.0;
    } else {
      assert x * -q >= 0.0;
    }
  }

  /** What all three filters keep are the tokens of the prefix the filter loop keeps. */
  lemma KeptIsPrefix(e: real -> real, logits: seq<real>, s: Sampling, c: seq<Candidate>, r: seq<Candidate>, k: nat,
                     m: nat)
    requires IsRow(e, logits, s, c, r) && Mass(r, |r|) > 0.0 && ShortestReaching(r, Mass(r, |r|), TopP(s), k)
    requires MeetsMinimum(r, r[0].p * MinP(s), m)
    ensures Min(k, m) <= |c| && Kept(e, logits, s) == TokensOf(c, Min(k, m))
  {
    forall b: nat | b < |logits|
      ensures IsKept(e, logits, s, b) <==> b in TokensOf(c, Min(k, m))
    {
      assert b in TokensOf(c, |c|);
      var i :| 0 <= i < |c| && c[i].token == b;
      KeptAt(e, logits, s, c, r, k, m, i);
      InPrefixIff(e, logits, s, c, Min(k, m), i);
    }
  }

  lemma KeptAt(e: real -> real, logits: seq<real>, s: Sampling, c: seq<Candidate>, r: seq<Candidate>, k: nat, m: nat,
               i: nat)
    requires IsRow(e, logits, s, c, r) && Mass(r, |r|) > 0.0 && ShortestReaching(r, Mass(r, |r|), TopP(s), k)
    requires MeetsMinimum(r, r[0].p * MinP(s), m) && i < |c| && c[i].token < |logits|
    ensures IsKept(e, logits, s, c[i].token) <==> i < k && i < m
  {
    AdmittedIsPrefix(e, logits, s, c);
    InPrefixIff(e, logits, s, c, |r|, i);
    if i < |r| {
      TopPIsPrefix(e, logits, s, c, r, k, i);
      MinPIsPrefix(e, logits, s, c, r, m, i);
    }
  }

  // ---------- the draw ----------

  /** The prefixes the two filters keep exist. */
  lemma {:induction false} PrefixesExist(c: seq<Candidate>, z: real, topP: real, threshold: real, n: nat)
    returns (k: nat, m: nat)
    requires z > 0.0 && Positive(c) && Ordered(c) && n <= |c|
    ensures Counted(c, z, topP, threshold, n, k, m)
  {
    if n == 0 {
      k, m := 0, 0;
    } else {
      k, m := PrefixesExist(c, z, topP, threshold, n - 1);
      CountNext(c, z, topP, threshold, n - 1, k, m);
      k := if Fraction(c, z, n - 1) < topP then n else k;
      m := if c[n - 1].p >= threshold then n else m;
    }
  }

  /** The draw in terms of the order. */
  lemma DrawnAt(e: real -> real, logits: seq<real>, s: Sampling, c: seq<Candidate>, u: real, n: nat, i: nat)
    requires Increasing(e) && (s.temperature.Some? ==> s.temperature.value > 0.0) && Arranged(e, logits, s, c)
    requires n <= |c| && i < |c| && c[i].token < |logits| && Kept(e, logits, s) == TokensOf(c, n)
    ensures Drawn(e, logits, s, u, c[i].token) <==>
              i < n && Mass(c, i) <= Target(u, Mass(c, n)) < Mass(c, i) + c[i].p
  {
    InPrefixIff(e, logits, s, c, n, i);
    AheadIsPrefix(e, logits, s, c, i);
    PrefixWeight(e, logits, s, c, i);
    PrefixWeight(e, logits, s, c, n);
    assert i < n ==> TokensOf(c, n) * TokensOf(c, i) == TokensOf(c, i);
  }

  lemma HitsAt(c: seq<Candidate>, n: nat, target: real, i: nat)
    requires n <= |c| && i < |c|
    ensures Hits(c[..n], target, i) <==> i < n && Mass(c, i) <= target < Mass(c, i) + c[i].p
  {
    if i < n {
      MassOfPrefix(c, n, i);
      MassOfPrefix(c, n, i + 1);
      assert Mass(c, i + 1) == Mass(c, i) + c[i].p;
    }
  }

  /** Position i is hit exactly when the draw falls into its token's share. */
  lemma HitsIffDrawn(e: real -> real, logits: seq<real>, s: Sampling, c: seq<Candidate>, r: seq<Candidate>, u: real,
                     k: nat, m: nat, i: nat)
    requires IsRow(e, logits, s, c, r) && Mass(r, |r|) > 0.0 && ShortestReaching(r, Mass(r, |r|), TopP(s), k)
    requires MeetsMinimum(r, r[0].p * MinP(s), m) && i < |c| && c[i].token < |logits|
    ensures Drawn(e, logits, s, u, c[i].token) <==> Hits(r[..Min(k, m)], Target(u, Mass(r, Min(k, m))), i)
  {
    var n: nat := Min(k, m);
    KeptIsPrefix(e, logits, s, c, r, k, m);
    DrawnAt(e, logits, s, c, u, n, i);
    MassOfPrefix(c, |r|, n);
    assert r[..n] == c[..n];
    HitsAt(c, n, Target(u, Mass(r, n)), i);
  }

  lemma ChosenIsDrawn(e: real -> real, logits: seq<real>, s: Sampling, c: seq<Candidate>, r: seq<Candidate>, u: real,
                      b: nat)
    requires IsRow(e, logits, s, c, r) && b < |logits| && SampledToken(e, logits, s, u, b)
    ensures Drawn(e, logits, s, u, b)
  {
    var k: nat, m: nat, i: nat :| IsChoice(r, TopP(s), MinP(s), u, k, m, i) && i < |r| && b == r[i].token;
    ChoiceIsDrawn(e, logits, s, c, r, u, k, m, i);
  }

  lemma ChoiceIsDrawn(e: real -> real, logits: seq<real>, s: Sampling, c: seq<Candidate>, r: seq<Candidate>, u: real,
                      k: nat, m: nat, i: nat)
    requires IsRow(e, logits, s, c, r) && i < |r| && r[i].token < |logits|
    requires IsChoice(r, TopP(s), MinP(s), u, k, m, i)
    ensures Drawn(e, logits, s, u, r[i].token)
  {
    HitsIffDrawn(e, logits, s, c, r, u, k, m, i);
  }

  lemma DrawnIsChosen(e: real -> real, logits: seq<real>, s: Sampling, c: seq<Candidate>, r: seq<Candidate>, u: real,
                      b: nat)
    requires IsRow(e, logits, s, c, r) && b < |logits| && Drawn(e, logits, s, u, b)
    ensures SampledToken(e, logits, s, u, b)
  {
    MassGrows(r, 0, |r|);
    var k, m := PrefixesExist(r, Mass(r, |r|), TopP(s), r[0].p * MinP(s), |r|);
    assert b in TokensOf(c, |c|);
    var i :| 0 <= i < |c| && c[i].token == b;
    HitsIffDrawn(e, logits, s, c, r, u, k, m, i);
    assert IsChoice(r, TopP(s), MinP(s), u, k, m, i) && r[i] == c[i];
  }

  /**
   * The sampled token is the one drawn: what sorting, cutting, filtering in order and walking along cumulative
   * probabilities arrive at is the token whose share of the kept weight the draw falls into.
   */
  lemma SampledIffDrawn(e: real -> real, logits: seq<real>, s: Sampling, u: real, b: nat)
    requires IsExp(e) && Increasing(e) && Temperature(s) > 0.0 && b < |logits|
    ensures SampledToken(e, logits, s, u, b) <==> Drawn(e, logits, s, u, b)
  {
    var r := Ranked(e, logits, s, 0.0);
    var c := RowOf(e, logits, s);
    if SampledToken(e, logits, s, u, b) {
      ChosenIsDrawn(e, logits, s, c, r, u, b);
    }
    if Drawn(e, logits, s, u, b) {
      DrawnIsChosen(e, logits, s, c, r, u, b);
    }
  }

  /** The ranked candidates are the admitted tokens: the first topK of the order, or the whole vocabulary. */
  lemma CandidatesAreAdmitted(e: real -> real, logits: seq<real>, s: Sampling)
    requires IsExp(e) && Increasing(e) && Temperature(s) > 0.0 && logits != []
    ensures var c := Ranked(e, logits, s, 0.0); TokensOf(c, |c|) == Admitted(logits, s)
    ensures |Admitted(logits, s)|
         == if s.topK.Some? && 0 < s.topK.value < |logits| then s.topK.value else |logits|
  {
    var c := RowOf(e, logits, s);
    RankedTokens(e, logits, s, c);
    if s.topK.Some? && 0 < s.topK.value < |logits| {
      AdmittedIsSome(e, logits, s, c);
    } else {
      AdmittedIsAll(e, logits, s, c);
    }
  }

  lemma RankedTokens(e: real -> real, logits: seq<real>, s: Sampling, c: seq<Candidate>)
    requires Temperature(s) > 0.0 && IsRow(e, logits, s, c, Ranked(e, logits, s, 0.0))
    ensures var r := Ranked(e, logits, s, 0.0); TokensOf(r, |r|) == Admitted(logits, s)
  {
    var r := Ranked(e, logits, s, 0.0);
    AdmittedIsPrefix(e, logits, s, c);
    SameTokens(c, r);
  }

  lemma SameTokens(c: seq<Candidate>, r: seq<Candidate>)
    requires r <= c
    ensures TokensOf(r, |r|) == TokensOf(c, |r|)
  {
  }

  lemma AdmittedIsAll(e: real -> real, logits: seq<real>, s: Sampling, c: seq<Candidate>)
    requires Increasing(e) && (s.temperature.Some? ==> s.temperature.value > 0.0) && Arranged(e, logits, s, c)
    requires !(s.topK.Some? && 0 < s.topK.value < |logits|)
    ensures |Admitted(logits, s)| == |logits|
  {
    forall b: nat | b < |logits|
      ensures b in Admitted(logits, s) && b in TokensOf(c, |c|)
    {
      assert b in TokensOf(c, |c|);
      var i :| 0 <= i < |c| && c[i].token == b;
      AheadIsPrefix(e, logits, s, c, i);
      PrefixSize(e, logits, s, c, i);
    }
    assert Admitted(logits, s) == TokensOf(c, |c|);
    PrefixSize(e, logits, s, c, |c|);
  }

  lemma AdmittedIsSome(e: real -> real, logits: seq<real>, s: Sampling, c: seq<Candidate>)
    requires Increasing(e) && (s.temperature.Some? ==> s.temperature.value > 0.0) && Arranged(e, logits, s, c)
    requires s.topK.Some? && 0 < s.topK.value < |logits|
    ensures |Admitted(logits, s)| == s.topK.value
  {
    var k := s.topK.value;
    forall b: nat | b < |logits|
      ensures b in Admitted(logits, s) <==> b in TokensOf(c, k)
    {
      assert b in TokensOf(c, |c|);
      var i :| 0 <= i < |c| && c[i].token == b;
      AheadIsPrefix(e, logits, s, c, i);
      PrefixSize(e, logits, s, c, i);
      InPrefixIff(e, logits, s, c, k, i);
    }
    assert Admitted(logits, s) == TokensOf(c, k);
    PrefixSize(e, logits, s, c, k);
  }

  /** With a positive topK fewer tokens than that are ahead of the sampled one. */
  lemma SampledWithinTopK(e: real -> real, logits: seq<real>, s: Sampling, u: real, b: nat)
    requires IsExp(e) && Increasing(e) && Temperature(s) > 0.0 && b < |logits| && SampledToken(e, logits, s, u, b)
    ensures s.topK.Some? && s.topK.value > 0 ==> |Ahead(logits, b)| < s.topK.value
  {
    SampledIffDrawn(e, logits, s, u, b);
  }

  // ---------- the draw's bound ----------

  function Distance(x: real, y: real): real {
    if x < y then y - x else x - y
  }

  /** The random value is replaced by the nearest one from 0 to 1 - 2^-24; a value that is not finite by 0. */
  lemma NearestUnit(random: Option<real>, y: real)
    requires 0.0 <= y && (1.0 - y) * 16777216.0 >= 1.0
    ensures random.None? ==> BoundedUnit(random) == 0.0
    ensures random.Some? ==> Distance(BoundedUnit(random), random.value) <= Distance(y, random.value)
    ensures 0.0 <= BoundedUnit(random) && (1.0 - BoundedUnit(random)) * 16777216.0 >= 1.0
  {
  }
}
