/** The CPU reference `grouped_query_attention` (`cpu.rs`): two passes over the scores of every query head. */
module CpuAttention {
  import opened Basics
  import opened Sums
  import opened Softmax
  import opened CpuShapes

  datatype Shape = Shape(tokenCount: nat, queryHeads: nat, kvHeads: nat, headDim: nat, scale: real)

  predicate Accepts(query: nat, keys: nat, values: nat, sh: Shape) {
    && MatrixLen(query, sh.queryHeads, sh.headDim)
    && sh.kvHeads * sh.headDim <= USIZE_MAX
    && MatrixLen(keys, sh.tokenCount, sh.kvHeads * sh.headDim)
    && MatrixLen(values, sh.tokenCount, sh.kvHeads * sh.headDim)
    && sh.kvHeads > 0 && sh.queryHeads % sh.kvHeads == 0
    && sh.scale > 0.0
  }

  /** The checks in the order the kernel makes them. */
  function Validate(query: nat, keys: nat, values: nat, sh: Shape): (r: Result<(), KernelError>)
    ensures r.Ok? <==> Accepts(query, keys, values, sh)
  {
    var _ :- ValidateMatrixLen(query, sh.queryHeads, sh.headDim);
    var width :- CheckedMul(sh.kvHeads, sh.headDim).OkOr(InvalidArgument);
    var _ :- ValidateMatrixLen(keys, sh.tokenCount, width);
    var _ :- ValidateMatrixLen(values, sh.tokenCount, width);
    if sh.kvHeads == 0 || sh.queryHeads % sh.kvHeads != 0 then Err(InvalidArgument)
    else if sh.scale <= 0.0 then Err(InvalidArgument)
    else Ok(())
  }

  /** The KV head a query head shares. */
  function KvHead(queryHeads: nat, kvHeads: nat, head: nat): nat
    requires 0 < kvHeads <= queryHeads
  {
    GroupNotEmpty(queryHeads, kvHeads);
    Quot(head, Quot(queryHeads, kvHeads))
  }

  lemma GroupNotEmpty(queryHeads: nat, kvHeads: nat)
    requires 0 < kvHeads <= queryHeads
    ensures Quot(queryHeads, kvHeads) > 0
  {
  }

  /** In groups of equal size, the query heads of a KV head are the consecutive ones of its group. */
  lemma KvHeadIff(queryHeads: nat, kvHeads: nat, group: nat, head: nat, kv: nat)
    requires 0 < kvHeads <= queryHeads && queryHeads == kvHeads * group && head < queryHeads
    ensures KvHead(queryHeads, kvHeads, head) == kv <==> kv * group <= head < kv * group + group
  {
    QuotRemUnique(queryHeads, kvHeads, group, 0);
    if kv * group <= head < kv * group + group {
      QuotRemUnique(head, group, kv, head - kv * group);
    }
  }

  /** So many query heads share a KV head. */
  lemma SharersCounted(queryHeads: nat, kvHeads: nat, group: nat, kv: nat)
    requires 0 < kvHeads <= queryHeads && queryHeads == kvHeads * group && kv < kvHeads
    ensures |set head: nat | head < queryHeads && KvHead(queryHeads, kvHeads, head) == kv| == group
  {
    NextMultiple(kv, kvHeads, group);
    forall head: nat | head < queryHeads
      ensures KvHead(queryHeads, kvHeads, head) == kv <==> kv * group <= head < kv * group + group
    {
      KvHeadIff(queryHeads, kvHeads, group, head, kv);
    }
    assert (set head: nat | head < queryHeads && KvHead(queryHeads, kvHeads, head) == kv) == Range(kv * group, group);
  }

  /** So many consecutive numbers. */
  function Range(from: nat, n: nat): (s: set<nat>)
    ensures forall i: nat :: i in s <==> from <= i < from + n
    ensures |s| == n
  {
    if n == 0 then {} else Range(from, n - 1) + {from + n - 1}
  }

  /** From one query head to the next the shared head stays or is the next one. */
  lemma KvHeadsAscend(queryHeads: nat, kvHeads: nat, head: nat)
    requires 0 < kvHeads <= queryHeads && queryHeads % kvHeads == 0 && head + 1 < queryHeads
    ensures KvHead(queryHeads, kvHeads, head) <= KvHead(queryHeads, kvHeads, head + 1)
         <= KvHead(queryHeads, kvHeads, head) + 1
  {
    var group := Quot(queryHeads, kvHeads);
    assert Rem(queryHeads, kvHeads) == 0;
    var kv, next := KvHead(queryHeads, kvHeads, head), KvHead(queryHeads, kvHeads, head + 1);
    KvHeadIff(queryHeads, kvHeads, group, head, kv);
    KvHeadIff(queryHeads, kvHeads, group, head + 1, next);
    if next < kv {
      NextMultiple(next, kv, group);
    } else if kv + 1 < next {
      NextMultiple(kv + 1, next, group);
    }
  }

  /** Offset of a token's row of a KV head in the gathered rows. */
  function RowOffset(sh: Shape, kvHead: nat, token: int): int {
    token * (sh.kvHeads * sh.headDim) + kvHead * sh.headDim
  }

  /** Score of every token for one query head. */
  function Scores(query: seq<real>, keys: seq<real>, sh: Shape, head: nat, kvHead: nat): int -> real {
    t => Sum(sh.headDim, Products(query, head * sh.headDim, keys, RowOffset(sh, kvHead, t))) * sh.scale
  }

  function ValueColumn(values: seq<real>, sh: Shape, kvHead: nat, d: int): int -> real {
    t => At(values, RowOffset(sh, kvHead, t) + d)
  }

  function Normalized(p: seq<real>, z: real, v: int -> real): int -> real {
    i => if z == 0.0 then 0.0 else Portion(At(p, i), z, v(i))
  }

  method Maximum(s: seq<real>) returns (m: real)
    requires s != []
    ensures m in s && forall i :: 0 <= i < |s| ==> s[i] <= m
  {
    m := s[0];
    for i := 1 to |s|
      invariant m in s && forall j :: 0 <= j < i ==> s[j] <= m
    {
      if m <= s[i] {
        m := s[i];
      }
    }
  }

  /** Exponentials of the shifted scores and their sum. */
  method ShiftedExponentials(e: real -> real, scores: seq<real>, m: real) returns (p: seq<real>, z: real)
    ensures |p| == |scores| && forall i :: 0 <= i < |p| ==> p[i] == e(scores[i] - m)
    ensures z == Sum(|p|, i => At(p, i))
  {
    p := [];
    for i := 0 to |scores|
      invariant |p| == i && forall j :: 0 <= j < i ==> p[j] == e(scores[j] - m)
    {
      p := p + [e(scores[i] - m)];
    }
    z := SequentialSum(|p|, i => At(p, i));
  }

  /** output[d] += probability / normalizer * value, token by token. */
  method AccumulateRows(p: seq<real>, z: real, columns: int -> int -> real, dim: nat) returns (out: seq<real>)
    requires z != 0.0
    ensures |out| == dim && forall d :: 0 <= d < dim ==> out[d] == Sum(|p|, Normalized(p, z, columns(d)))
  {
    var acc := new real[dim](_ => 0.0);
    for t := 0 to |p|
      invariant forall d :: 0 <= d < dim ==> acc[d] == Sum(t, Normalized(p, z, columns(d)))
    {
      for d := 0 to dim
        invariant forall d' :: 0 <= d' < dim ==>
                    acc[d'] == Sum(if d' < d then t + 1 else t, Normalized(p, z, columns(d')))
      {
        acc[d] := acc[d] + p[t] / z * columns(d)(t);
      }
    }
    out := acc[..];
  }

  /** One query head: scores, maximum, exponentials, normalization, weighted rows. */
  method AttendHead(e: real -> real, scores: int -> real, columns: int -> int -> real, tokens: nat, dim: nat)
    returns (out: seq<real>)
    requires IsExp(e) && tokens > 0
    ensures |out| == dim && forall d :: 0 <= d < dim ==> out[d] == SoftmaxMean(e, tokens, scores, columns(d))
  {
    var row := [];
    for t := 0 to tokens
      invariant |row| == t && forall j :: 0 <= j < t ==> row[j] == scores(j)
    {
      row := row + [scores(t)];
    }
    var m := Maximum(row);
    var p, z := ShiftedExponentials(e, row, m);
    NormalizerPositive(e, scores, m, p, z);
    out := AccumulateRows(p, z, columns, dim);
    forall d | 0 <= d < dim
      ensures out[d] == SoftmaxMean(e, tokens, scores, columns(d))
    {
      HeadResult(e, scores, columns(d), m, p, z);
    }
  }

  lemma NormalizerPositive(e: real -> real, scores: int -> real, m: real, p: seq<real>, z: real)
    requires IsExp(e) && p != [] && z == Sum(|p|, i => At(p, i))
             && forall i :: 0 <= i < |p| ==> p[i] == e(scores(i) - m)
    ensures z > 0.0
  {
    TwoPassWeights(e, |p|, scores, m, i => At(p, i));
  }

  lemma HeadResult(e: real -> real, scores: int -> real, column: int -> real, m: real, p: seq<real>, z: real)
    requires IsExp(e) && p != [] && z == Sum(|p|, i => At(p, i))
             && forall i :: 0 <= i < |p| ==> p[i] == e(scores(i) - m)
    ensures Sum(|p|, Normalized(p, z, column)) == SoftmaxMean(e, |p|, scores, column)
  {
    NormalizerPositive(e, scores, m, p, z);
    TwoPassResult(e, |p|, scores, column, m, i => At(p, i), Normalized(p, z, column));
  }

  /** Every output row is the softmax-weighted mean of the shared KV head's value rows. */
  method GroupedQueryAttention(e: real -> real, query: seq<real>, keys: seq<real>, values: seq<real>, sh: Shape)
    returns (r: Result<seq<real>, KernelError>)
    requires IsExp(e)
    ensures r.Ok? <==> Accepts(|query|, |keys|, |values|, sh)
    ensures r.Err? ==> r.error == Validate(|query|, |keys|, |values|, sh).error
    ensures r.Ok? ==> sh.tokenCount > 0 && 0 < sh.kvHeads <= sh.queryHeads
    ensures r.Ok? ==> |r.value| == |query| && forall h: nat, d: nat :: h < sh.queryHeads && d < sh.headDim ==>
              Element(r.value, sh.headDim, h, d)
              == SoftmaxMean(e, sh.tokenCount, Scores(query, keys, sh, h, KvHead(sh.queryHeads, sh.kvHeads, h)),
                             ValueColumn(values, sh, KvHead(sh.queryHeads, sh.kvHeads, h), d))
    ensures r.Ok? ==> forall group: nat, kv: nat, member: nat ::
              sh.queryHeads == sh.kvHeads * group && kv < sh.kvHeads && member < group ==>
              MemberAttends(e, query, keys, values, sh, group, kv, member, r.value)
  {
    var _ :- ValidateMatrixLen(|query|, sh.queryHeads, sh.headDim);
    if sh.kvHeads * sh.headDim > USIZE_MAX {
      return Err(InvalidArgument);
    }
    var _ :- ValidateMatrixLen(|keys|, sh.tokenCount, sh.kvHeads * sh.headDim);
    var _ :- ValidateMatrixLen(|values|, sh.tokenCount, sh.kvHeads * sh.headDim);
    if sh.kvHeads == 0 || sh.queryHeads % sh.kvHeads != 0 || sh.scale <= 0.0 {
      return Err(InvalidArgument);
    }
    HeadsShare(sh);
    var output := AttendHeads(e, query, keys, values, sh);
    MembersAttend(e, query, keys, values, sh, output);
    return Ok(output);
  }

  /** Head after head, appended to the output. */
  method AttendHeads(e: real -> real, query: seq<real>, keys: seq<real>, values: seq<real>, sh: Shape)
    returns (output: seq<real>)
    requires IsExp(e) && sh.tokenCount > 0 && 0 < sh.kvHeads <= sh.queryHeads
    ensures |output| == sh.queryHeads * sh.headDim
    ensures forall h: nat, d: nat :: h < sh.queryHeads && d < sh.headDim ==>
              Element(output, sh.headDim, h, d)
              == SoftmaxMean(e, sh.tokenCount, Scores(query, keys, sh, h, KvHead(sh.queryHeads, sh.kvHeads, h)),
                             ValueColumn(values, sh, KvHead(sh.queryHeads, sh.kvHeads, h), d))
  {
    output := [];
    for head := 0 to sh.queryHeads
      invariant |output| == head * sh.headDim
      invariant forall h: nat, d: nat :: h < head && d < sh.headDim ==>
        Element(output, sh.headDim, h, d)
        == SoftmaxMean(e, sh.tokenCount, Scores(query, keys, sh, h, KvHead(sh.queryHeads, sh.kvHeads, h)),
                       ValueColumn(values, sh, KvHead(sh.queryHeads, sh.kvHeads, h), d))
    {
      var kvHead := KvHead(sh.queryHeads, sh.kvHeads, head);
      var row := AttendHead(e, Scores(query, keys, sh, head, kvHead), d => ValueColumn(values, sh, kvHead, d),
                            sh.tokenCount, sh.headDim);
      forall h: nat, d: nat | h < head && d < sh.headDim
        ensures Element(output + row, sh.headDim, h, d) == Element(output, sh.headDim, h, d)
      {
        DigitBound(h, d, sh.headDim, head);
      }
      output := output + row;
    }
  }

  /** The query heads of a group attend to the keys and values of the group's KV head. */
  ghost predicate MemberAttends(e: real -> real, query: seq<real>, keys: seq<real>, values: seq<real>, sh: Shape,
                                group: nat, kv: nat, member: nat, output: seq<real>)
    requires IsExp(e) && sh.tokenCount > 0
  {
    forall d: nat :: d < sh.headDim ==>
      Element(output, sh.headDim, kv * group + member, d)
      == SoftmaxMean(e, sh.tokenCount, Scores(query, keys, sh, kv * group + member, kv), ValueColumn(values, sh, kv, d))
  }

  lemma MembersAttend(e: real -> real, query: seq<real>, keys: seq<real>, values: seq<real>, sh: Shape,
                      output: seq<real>)
    requires IsExp(e) && sh.tokenCount > 0 && 0 < sh.kvHeads <= sh.queryHeads
    requires forall h: nat, d: nat :: h < sh.queryHeads && d < sh.headDim ==>
               Element(output, sh.headDim, h, d)
               == SoftmaxMean(e, sh.tokenCount, Scores(query, keys, sh, h, KvHead(sh.queryHeads, sh.kvHeads, h)),
                              ValueColumn(values, sh, KvHead(sh.queryHeads, sh.kvHeads, h), d))
    ensures forall group: nat, kv: nat, member: nat ::
              sh.queryHeads == sh.kvHeads * group && kv < sh.kvHeads && member < group ==>
              MemberAttends(e, query, keys, values, sh, group, kv, member, output)
  {
    forall group: nat, kv: nat, member: nat |
      sh.queryHeads == sh.kvHeads * group && kv < sh.kvHeads && member < group
      ensures MemberAttends(e, query, keys, values, sh, group, kv, member, output)
    {
      DigitBound(kv, member, group, sh.kvHeads);
      KvHeadIff(sh.queryHeads, sh.kvHeads, group, kv * group + member, kv);
    }
  }

  lemma HeadsShare(sh: Shape)
    requires sh.queryHeads > 0 && sh.kvHeads > 0 && sh.queryHeads % sh.kvHeads == 0
    ensures sh.kvHeads <= sh.queryHeads
  {
  }
}
