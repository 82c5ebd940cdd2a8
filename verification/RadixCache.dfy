/** The token radix cache of `cache.rs`, against the log of inserts, and its use with the allocator. */
module RadixCache {
  import opened Basics

  datatype RadixNode = RadixNode(cachePage: Option<nat>, children: map<nat, RadixNode>)

  const EMPTY := RadixNode(None, map[])

  datatype PrefixMatch = PrefixMatch(matchedTokenCount: nat, cachePages: seq<nat>, remainingInputIds: seq<nat>)

  datatype RadixCacheError = TokenPageLengthMismatch(tokenCount: nat, cachePageCount: nat)

  function InsertPath(node: RadixNode, ids: seq<nat>, pages: seq<nat>): RadixNode
    requires |ids| == |pages|
    decreases |ids|
  {
    if ids == [] then node else
    var child := if ids[0] in node.children then node.children[ids[0]] else EMPTY;
    node.(children := node.children[ids[0] := InsertPath(child.(cachePage := Some(pages[0])), ids[1..], pages[1..])])
  }

  /** The node at the end of the path, created where missing, records the slot. */
  function SetAt(node: RadixNode, path: seq<nat>, page: nat): RadixNode
    decreases |path|
  {
    if path == [] then node.(cachePage := Some(page)) else
    var child := if path[0] in node.children then node.children[path[0]] else EMPTY;
    node.(children := node.children[path[0] := SetAt(child, path[1..], page)])
  }

  /** One more step of the descent is one more token of the path. */
  lemma {:induction false} InsertNext(node: RadixNode, ids: seq<nat>, pages: seq<nat>, i: nat)
    requires i < |ids| == |pages|
    ensures InsertPath(node, ids[..i + 1], pages[..i + 1])
         == SetAt(InsertPath(node, ids[..i], pages[..i]), ids[..i + 1], pages[i])
    decreases i
  {
    var path := ids[..i + 1];
    if i == 0 {
      assert path == [ids[0]] && pages[..1] == [pages[0]] && ids[..0] == [] && pages[..0] == [];
    } else {
      var child := if ids[0] in node.children then node.children[ids[0]] else EMPTY;
      assert ids[..i][1..] == ids[1..][..i - 1] && pages[..i][1..] == pages[1..][..i - 1];
      assert path[1..] == ids[1..][..i] && pages[..i + 1][1..] == pages[1..][..i];
      InsertNext(child.(cachePage := Some(pages[0])), ids[1..], pages[1..], i - 1);
    }
  }

  class RadixCache {
    var root: RadixNode

    constructor ()
      ensures root == EMPTY
    {
      root := EMPTY;
    }

    method Clear()
      modifies this
      ensures root == EMPTY
    {
      root := EMPTY;
    }

    /** Enters, or creates, one child after the other and records its slot there. */
    method Insert(ids: seq<nat>, pages: seq<nat>) returns (r: Result<(), RadixCacheError>)
      modifies this
      ensures r == if |ids| == |pages| then Ok(()) else Err(TokenPageLengthMismatch(|ids|, |pages|))
      ensures root == Apply(old(root), Op.Insert(ids, pages))
      ensures forall path :: PageAt(root, path)
                          == if r.Ok? && path != [] && path <= ids then Some(pages[|path| - 1])
                             else PageAt(old(root), path)
    {
      if |ids| != |pages| {
        return Err(TokenPageLengthMismatch(|ids|, |pages|));
      }
      ghost var start := root;
      for i := 0 to |ids|
        invariant root == InsertPath(start, ids[..i], pages[..i])
      {
        InsertNext(start, ids, pages, i);
        root := SetAt(root, ids[..i + 1], pages[i]);
      }
      assert ids[..|ids|] == ids && pages[..|ids|] == pages;
      forall path
        ensures PageAt(root, path) == if path != [] && path <= ids then Some(pages[|path| - 1]) else PageAt(start, path)
      {
        InsertPageAt(start, ids, pages, path);
      }
      return Ok(());
    }

    method MatchPrefix(ids: seq<nat>) returns (m: PrefixMatch)
      ensures m == Match(root, ids)
    {
      var matched := 0;
      var pages := [];
      var node := root;
      while matched < |ids|
        invariant 0 <= matched <= |ids|
        invariant Walk(root, ids) == pages + Walk(node, ids[matched..])
        invariant |pages| == matched
      {
        ghost var rest := ids[matched..];
        assert rest[0] == ids[matched];
        if ids[matched] !in node.children {
          break;
        }
        var child := node.children[ids[matched]];
        if child.cachePage.None? {
          break;
        }
        pages := pages + [child.cachePage.value];
        assert rest[1..] == ids[matched + 1..];
        matched := matched + 1;
        node := child;
      }
      m := PrefixMatch(matched, pages, ids[matched..]);
    }

    method MatchPrefixPageAligned(ids: seq<nat>, pageSize: nat) returns (m: PrefixMatch)
      requires pageSize > 0
      ensures m == AlignedMatch(root, ids, pageSize)
    {
      m := MatchPrefix(ids);
      var aligned := AlignDown(m.matchedTokenCount, pageSize);
      m := PrefixMatch(aligned, m.cachePages[..aligned], ids[aligned..]);
    }
  }

  /** The slots met on the walk along the query, up to the first missing child. */
  function Walk(node: RadixNode, ids: seq<nat>): (pages: seq<nat>)
    ensures |pages| <= |ids|
    decreases |ids|
  {
    if ids == [] || ids[0] !in node.children || node.children[ids[0]].cachePage.None? then []
    else [node.children[ids[0]].cachePage.value] + Walk(node.children[ids[0]], ids[1..])
  }

  function Match(root: RadixNode, ids: seq<nat>): PrefixMatch {
    var pages := Walk(root, ids);
    PrefixMatch(|pages|, pages, ids[|pages|..])
  }

  function AlignedMatch(root: RadixNode, ids: seq<nat>, pageSize: nat): PrefixMatch
    requires pageSize > 0
  {
    var m := Match(root, ids);
    var aligned := AlignDown(m.matchedTokenCount, pageSize);
    PrefixMatch(aligned, m.cachePages[..aligned], ids[aligned..])
  }

  lemma AlignedMatchIsPrefix(root: RadixNode, ids: seq<nat>, pageSize: nat)
    requires pageSize > 0
    ensures AlignedMatch(root, ids, pageSize).cachePages <= Walk(root, ids)
  {
    var pages := Walk(root, ids);
    assert AlignedMatch(root, ids, pageSize).cachePages == pages[..AlignDown(|pages|, pageSize)];
  }

  /** It is the longest match of whole pages, and what it leaves over is the rest of the query. */
  lemma AlignedMatchIsLongest(root: RadixNode, ids: seq<nat>, pageSize: nat)
    requires pageSize > 0
    ensures var m, pages := AlignedMatch(root, ids, pageSize), Walk(root, ids);
            && m.matchedTokenCount % pageSize == 0 && m.matchedTokenCount <= |pages| < m.matchedTokenCount + pageSize
            && m.cachePages == pages[..m.matchedTokenCount] && ids == ids[..m.matchedTokenCount] + m.remainingInputIds
  {
    AlignDownMultiple(|Walk(root, ids)|, pageSize);
  }

  datatype Op = Insert(ids: seq<nat>, pages: seq<nat>) | Clear

  function Apply(node: RadixNode, op: Op): RadixNode {
    match op
    case Insert(ids, pages) => if |ids| == |pages| then InsertPath(node, ids, pages) else node
    case Clear => EMPTY
  }

  function Run(ops: seq<Op>): RadixNode {
    if ops == [] then EMPTY else Apply(Run(ops[..|ops| - 1]), ops[|ops| - 1])
  }

  // ---------- what a tree denotes ----------

  /** The slot recorded for exactly this token path. */
  function PageAt(node: RadixNode, path: seq<nat>): Option<nat>
    decreases |path|
  {
    if path == [] then node.cachePage
    else if path[0] in node.children then PageAt(node.children[path[0]], path[1..])
    else None
  }

  lemma {:induction false} InsertPageAt(node: RadixNode, ids: seq<nat>, pages: seq<nat>, path: seq<nat>)
    requires |ids| == |pages|
    ensures PageAt(InsertPath(node, ids, pages), path)
         == if path != [] && path <= ids then Some(pages[|path| - 1]) else PageAt(node, path)
    decreases |ids|
  {
    if ids != [] && path != [] && path[0] == ids[0] {
      var child := if ids[0] in node.children then node.children[ids[0]] else EMPTY;
      InsertPageAt(child.(cachePage := Some(pages[0])), ids[1..], pages[1..], path[1..]);
      assert path <= ids <==> path[1..] <= ids[1..];
    }
  }

  /** The walk returns, for every i, the slot recorded for the first i+1 tokens, and is as long as possible. */
  lemma {:induction false} WalkIsPageAt(node: RadixNode, ids: seq<nat>)
    ensures forall i :: 0 <= i < |Walk(node, ids)| ==> PageAt(node, ids[..i + 1]) == Some(Walk(node, ids)[i])
    ensures |Walk(node, ids)| < |ids| ==> PageAt(node, ids[..|Walk(node, ids)| + 1]).None?
    decreases |ids|
  {
    if ids == [] || ids[0] !in node.children || node.children[ids[0]].cachePage.None? {
      if ids != [] {
        assert ids[..1] == [ids[0]];
      }
    } else {
      var child := node.children[ids[0]];
      WalkIsPageAt(child, ids[1..]);
      forall i | 0 <= i <= |Walk(node, ids)| && i < |ids|
        ensures i == 0 ==> PageAt(node, ids[..i + 1]) == child.cachePage
        ensures i > 0 ==> PageAt(node, ids[..i + 1]) == PageAt(child, ids[1..][..i])
      {
        assert ids[..i + 1][1..] == ids[1..][..i];
      }
    }
  }

  // ---------- the tree against the log ----------

  ghost predicate Sets(op: Op, path: seq<nat>) {
    op.Insert? && |op.ids| == |op.pages| && path <= op.ids
  }

  /** The i-th operation is the latest insert sharing the path, and the cache was not cleared since. */
  ghost predicate Latest(ops: seq<Op>, path: seq<nat>, i: int) {
    && 0 <= i < |ops| && Sets(ops[i], path)
    && forall j :: i < j < |ops| ==> !Sets(ops[j], path) && !ops[j].Clear?
  }

  /** The path begins some sequence inserted since the last clear. */
  ghost predicate Logged(ops: seq<Op>, path: seq<nat>) {
    exists i :: Latest(ops, path, i)
  }

  lemma {:induction false} TreeIsLog(ops: seq<Op>, path: seq<nat>)
    requires path != []
    ensures PageAt(Run(ops), path).Some? <==> Logged(ops, path)
    ensures forall i :: Latest(ops, path, i) ==> PageAt(Run(ops), path) == Some(ops[i].pages[|path| - 1])
  {
    if ops != [] {
      var n := |ops| - 1;
      var init, op := ops[..n], ops[n];
      TreeIsLog(init, path);
      LatestStep(ops, path);
      if op.Insert? && |op.ids| == |op.pages| {
        InsertPageAt(Run(init), op.ids, op.pages, path);
      }
    }
  }

  lemma LatestStep(ops: seq<Op>, path: seq<nat>)
    requires ops != []
    ensures var n := |ops| - 1;
            && (Sets(ops[n], path) ==> Latest(ops, path, n))
            && (forall i :: Latest(ops, path, i) ==> (Sets(ops[n], path) ==> i == n))
            && (!Sets(ops[n], path) ==> forall i :: Latest(ops, path, i) <==>
                  !ops[n].Clear? && Latest(ops[..n], path, i))
  {
    var n := |ops| - 1;
    if !Sets(ops[n], path) {
      forall i
        ensures Latest(ops, path, i) <==> !ops[n].Clear? && Latest(ops[..n], path, i)
      {
        if Latest(ops, path, i) {
          assert i != n && !ops[n].Clear?;
          assert forall j :: i < j < n ==> ops[..n][j] == ops[j];
        }
        if !ops[n].Clear? && Latest(ops[..n], path, i) {
          assert forall j :: i < j < n ==> ops[j] == ops[..n][j];
        }
      }
    }
  }

  /**
   * `match_prefix` after any run: it matches the longest query prefix that begins a sequence inserted since
   * the last clear, and its i-th slot is the one placed by the latest insert sharing the first i+1 tokens.
   */
  lemma MatchIsLog(ops: seq<Op>, ids: seq<nat>)
    ensures var m := Match(Run(ops), ids);
            && m.matchedTokenCount == |m.cachePages| <= |ids|
            && ids == ids[..m.matchedTokenCount] + m.remainingInputIds
            && (forall k :: 0 < k <= |ids| ==> (k <= m.matchedTokenCount <==> Logged(ops, ids[..k])))
            && (forall k, i :: 0 <= k < m.matchedTokenCount && Latest(ops, ids[..k + 1], i) ==>
                  m.cachePages[k] == ops[i].pages[k])
  {
    var root, m := Run(ops), Match(Run(ops), ids);
    WalkIsPageAt(root, ids);
    forall k | 0 < k <= |ids|
      ensures k <= m.matchedTokenCount <==> Logged(ops, ids[..k])
    {
      MatchedIffLogged(ops, ids, k);
    }
    assert m.matchedTokenCount == |Walk(root, ids)|;
    forall k, i | 0 <= k < m.matchedTokenCount && Latest(ops, ids[..k + 1], i)
      ensures m.cachePages[k] == ops[i].pages[k]
    {
      TreeIsLog(ops, ids[..k + 1]);
      assert PageAt(root, ids[..k + 1]) == Some(m.cachePages[k]);
    }
  }

  lemma MatchedIffLogged(ops: seq<Op>, ids: seq<nat>, k: nat)
    requires 0 < k <= |ids|
    ensures k <= |Walk(Run(ops), ids)| <==> Logged(ops, ids[..k])
  {
    var count := |Walk(Run(ops), ids)|;
    WalkIsPageAt(Run(ops), ids);
    TreeIsLog(ops, ids[..k]);
    if k <= count {
      var i := k - 1;
      assert PageAt(Run(ops), ids[..i + 1]) == Some(Walk(Run(ops), ids)[i]);
    } else if Logged(ops, ids[..k]) {
      var i :| Latest(ops, ids[..k], i);
      LatestPrefix(ops, ids, k, count + 1, i);
      TreeIsLog(ops, ids[..count + 1]);
      assert false;
    }
  }

  /** If some insert shares the longer prefix, some insert is the latest to share the shorter one. */
  lemma LatestPrefix(ops: seq<Op>, ids: seq<nat>, k: nat, l: nat, i: nat)
    requires l <= k <= |ids| && Latest(ops, ids[..k], i)
    ensures Logged(ops, ids[..l])
  {
    assert ids[..l] <= ids[..k];
    assert Sets(ops[i], ids[..l]);
    var j := i;
    var n := i + 1;
    while n < |ops|
      invariant i <= j < n <= |ops| && Sets(ops[j], ids[..l])
      invariant forall x :: j < x < n ==> !Sets(ops[x], ids[..l]) && !ops[x].Clear?
    {
      if Sets(ops[n], ids[..l]) {
        j := n;
      }
      n := n + 1;
    }
    assert Latest(ops, ids[..l], j);
  }
}
