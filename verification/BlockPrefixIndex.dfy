/** The per-worker block-hash prefix tree of `cache.rs`, against the log of operations that built it. */
module BlockPrefixIndex {
  import opened Basics

  /** A block hash is the leading 64 bits of a digest, read as an `i64`. */
  type BlockHash = x: int | -0x8000_0000_0000_0000 <= x < 0x8000_0000_0000_0000

  datatype Worker = Worker(endpoint: string, dpRank: nat)

  /** A node owns its children, as in the source; the root's own worker set stays empty. */
  datatype Node = Node(workers: set<Worker>, children: map<BlockHash, Node>) {
    predicate IsEmpty() {
      workers == {} && children == map[]
    }
  }

  const EMPTY := Node({}, map[])

  datatype PrefixMatch = PrefixMatch(matchedBlocks: nat, workers: set<Worker>)

  function InsertChain(node: Node, worker: Worker, hashes: seq<BlockHash>): Node
    decreases |hashes|
  {
    if hashes == [] then node else
    var child := if hashes[0] in node.children then node.children[hashes[0]] else EMPTY;
    var child := child.(workers := child.workers + {worker});
    node.(children := node.children[hashes[0] := InsertChain(child, worker, hashes[1..])])
  }

  /** `remove_worker_from_chain`: an emptied child is dropped by its parent. */
  function RemoveChain(node: Node, worker: Worker, hashes: seq<BlockHash>): Node
    decreases |hashes|
  {
    if hashes == [] || hashes[0] !in node.children then node else
    var child := node.children[hashes[0]];
    var child := RemoveChain(child.(workers := child.workers - {worker}), worker, hashes[1..]);
    if child.IsEmpty() then node.(children := node.children - {hashes[0]})
    else node.(children := node.children[hashes[0] := child])
  }

  function ClearNode(node: Node, worker: Worker): Node {
    Node(node.workers - {worker},
         map h | h in node.children && !ClearNode(node.children[h], worker).IsEmpty() ::
           ClearNode(node.children[h], worker))
  }

  class KvBlockPrefixIndex {
    var root: Node

    constructor ()
      ensures Valid() && root == EMPTY
    {
      root := EMPTY;
    }

    /** What every method keeps: nothing is recorded at the root, and no node is empty. */
    ghost predicate Valid()
      reads this
    {
      Pruned(root) && root.workers == {}
    }

    /** Enters, or creates, one child after the other and adds the worker there. */
    method Insert(worker: Worker, hashes: seq<BlockHash>)
      requires Valid()
      modifies this
      ensures Valid() && root == Apply(old(root), Op.Insert(worker, hashes))
      ensures forall path ::
                WorkersAt(root, path) == WorkersAt(old(root), path) + if path != [] && path <= hashes then {worker}
                else {}
    {
      ghost var start := root;
      for i := 0 to |hashes|
        invariant root == InsertChain(start, worker, hashes[..i])
      {
        InsertNext(start, worker, hashes, i);
        root := AddAt(root, hashes[..i + 1], worker);
      }
      assert hashes[..|hashes|] == hashes;
      InsertPruned(start, worker, hashes);
      forall path
        ensures WorkersAt(root, path) == WorkersAt(start, path) + if path != [] && path <= hashes then {worker} else {}
      {
        InsertWorkers(start, worker, hashes, path);
      }
    }

    /** Drops the worker along the chain; on the way back every emptied child is removed. */
    method Remove(worker: Worker, hashes: seq<BlockHash>)
      requires Valid()
      modifies this
      ensures Valid() && root == Apply(old(root), Op.Remove(worker, hashes))
      ensures forall path ::
                WorkersAt(root, path) == WorkersAt(old(root), path) - if path != [] && path <= hashes then {worker}
                else {}
    {
      ghost var start := root;
      var after, _ := RemoveFromChain(root, worker, hashes);
      root := after;
      forall path
        ensures WorkersAt(root, path) == WorkersAt(start, path) - if path != [] && path <= hashes then {worker} else {}
      {
        RemoveWorkers(start, worker, hashes, path);
      }
      RemovePruned(start, worker, hashes);
    }

    /** Drops the worker everywhere, keeping only children that still hold something. */
    method ClearWorker(worker: Worker)
      requires Valid()
      modifies this
      ensures Valid() && root == Apply(old(root), Op.Clear(worker))
      ensures forall path :: WorkersAt(root, path) == WorkersAt(old(root), path) - {worker}
    {
      ghost var start := root;
      root := ClearFromNode(root, worker);
      forall path
        ensures WorkersAt(root, path) == WorkersAt(start, path) - {worker}
      {
        ClearWorkers(start, worker, path);
      }
      ClearPruned(start, worker);
    }

    /** The walk down the tree finds the longest live prefix of the query and the workers holding it. */
    method MatchPrefix(hashes: seq<BlockHash>) returns (m: PrefixMatch)
      requires Valid()
      ensures m.matchedBlocks <= |hashes|
      ensures forall k :: 0 < k <= |hashes| ==> (k <= m.matchedBlocks <==> LivePrefix(root, hashes[..k]))
      ensures m.workers == if m.matchedBlocks == 0 then {} else WorkersAt(root, hashes[..m.matchedBlocks])
    {
      var node := root;
      var matched := 0;
      var workers := {};
      while matched < |hashes|
        invariant 0 <= matched <= |hashes|
        invariant Find(root, hashes[..matched]) == Some(node)
        invariant workers == if matched == 0 then {} else node.workers
      {
        if hashes[matched] !in node.children {
          break;
        }
        node := node.children[hashes[matched]];
        workers := node.workers;
        FindNext(root, hashes, matched);
        matched := matched + 1;
      }
      m := PrefixMatch(matched, workers);
      FindWorkers(root, hashes[..matched]);
      forall k | 0 < k <= |hashes|
        ensures k <= matched <==> LivePrefix(root, hashes[..k])
      {
        FoundPrefix(root, hashes, matched, k);
        LiveIffFound(root, hashes[..k]);
      }
    }
  }

  /** The node at the end of the path, created where missing, gains the worker. */
  function AddAt(node: Node, path: seq<BlockHash>, worker: Worker): Node
    decreases |path|
  {
    if path == [] then node.(workers := node.workers + {worker}) else
    var child := if path[0] in node.children then node.children[path[0]] else EMPTY;
    node.(children := node.children[path[0] := AddAt(child, path[1..], worker)])
  }

  /** One more step of the descent is one more block of the chain. */
  lemma {:induction false} InsertNext(node: Node, worker: Worker, hashes: seq<BlockHash>, i: nat)
    requires i < |hashes|
    ensures InsertChain(node, worker, hashes[..i + 1])
         == AddAt(InsertChain(node, worker, hashes[..i]), hashes[..i + 1], worker)
    decreases i
  {
    var chain := hashes[..i + 1];
    if i == 0 {
      assert chain == [hashes[0]] && hashes[..0] == [];
    } else {
      var child := if hashes[0] in node.children then node.children[hashes[0]] else EMPTY;
      assert hashes[..i][1..] == hashes[1..][..i - 1] && chain[1..] == hashes[1..][..i];
      InsertNext(child.(workers := child.workers + {worker}), worker, hashes[1..], i - 1);
    }
  }

  /** `remove_worker_from_chain`: the node afterwards, and whether its parent should drop it. */
  method RemoveFromChain(node: Node, worker: Worker, hashes: seq<BlockHash>) returns (after: Node, empty: bool)
    ensures after == RemoveChain(node, worker, hashes) && (empty <==> after.IsEmpty())
    decreases |hashes|
  {
    after := node;
    if hashes != [] && hashes[0] in node.children {
      var child := node.children[hashes[0]];
      child := child.(workers := child.workers - {worker});
      var drop;
      child, drop := RemoveFromChain(child, worker, hashes[1..]);
      after := node.(children := if drop then node.children - {hashes[0]} else node.children[hashes[0] := child]);
    }
    empty := after.workers == {} && after.children == map[];
  }

  /** `clear_worker_from_block_node`: the children are retained or dropped one by one, in any order. */
  method ClearFromNode(node: Node, worker: Worker) returns (after: Node)
    ensures after == ClearNode(node, worker)
    decreases node
  {
    var kept: map<BlockHash, Node> := map[];
    var pending := node.children.Keys;
    while pending != {}
      invariant pending <= node.children.Keys && Retained(node, worker, pending, kept)
      decreases |pending|
    {
      var h :| h in pending;
      var child := ClearFromNode(node.children[h], worker);
      RetainNext(node, worker, pending, kept, h, child);
      if !(child.workers == {} && child.children == map[]) {
        kept := kept[h := child];
      }
      pending := pending - {h};
    }
    after := Node(node.workers - {worker}, kept);
    AllRetained(node, worker, kept);
  }

  /** The children seen so far: the cleared ones, without those that became empty. */
  ghost predicate Retained(node: Node, worker: Worker, pending: set<BlockHash>, kept: map<BlockHash, Node>) {
    && (forall h :: h in kept ==>
          h in node.children && h !in pending && kept[h] == ClearNode(node.children[h], worker) && !kept[h].IsEmpty())
    && (forall h :: h in node.children && h !in pending && !ClearNode(node.children[h], worker).IsEmpty() ==> h in kept)
  }

  lemma RetainNext(node: Node, worker: Worker, pending: set<BlockHash>, kept: map<BlockHash, Node>, h: BlockHash,
                   child: Node)
    requires Retained(node, worker, pending, kept) && h in pending && h in node.children
             && child == ClearNode(node.children[h], worker)
    ensures Retained(node, worker, pending - {h}, if child.IsEmpty() then kept else kept[h := child])
  {
  }

  lemma AllRetained(node: Node, worker: Worker, kept: map<BlockHash, Node>)
    requires Retained(node, worker, {}, kept)
    ensures ClearNode(node, worker) == Node(node.workers - {worker}, kept)
  {
    assert kept.Keys == ClearNode(node, worker).children.Keys;
  }

  datatype Op =
    | Insert(worker: Worker, hashes: seq<BlockHash>)
    | Remove(worker: Worker, hashes: seq<BlockHash>)
    | Clear(worker: Worker)

  function Apply(node: Node, op: Op): Node {
    match op
    case Insert(w, hs) => InsertChain(node, w, hs)
    case Remove(w, hs) => RemoveChain(node, w, hs)
    case Clear(w) => ClearNode(node, w)
  }

  function Run(ops: seq<Op>): Node {
    if ops == [] then EMPTY else Apply(Run(ops[..|ops| - 1]), ops[|ops| - 1])
  }

  // ---------- what a tree denotes ----------

  function Find(node: Node, path: seq<BlockHash>): Option<Node> {
    if path == [] then Some(node)
    else if path[0] in node.children then Find(node.children[path[0]], path[1..])
    else None
  }

  /** The workers recorded for exactly this block path. */
  function WorkersAt(node: Node, path: seq<BlockHash>): set<Worker> {
    if path == [] then node.workers
    else if path[0] in node.children then WorkersAt(node.children[path[0]], path[1..])
    else {}
  }

  /** Some worker holds the path or an extension of it. */
  ghost predicate LivePrefix(node: Node, path: seq<BlockHash>) {
    exists more :: WorkersAt(node, path + more) != {}
  }

  /** Every non-root node carries a worker or has children, all the way down. */
  ghost predicate Pruned(node: Node) {
    forall h :: h in node.children ==> !node.children[h].IsEmpty() && Pruned(node.children[h])
  }

  // ---------- the relation each operation computes ----------

  lemma {:induction false} InsertWorkers(node: Node, w: Worker, hs: seq<BlockHash>, path: seq<BlockHash>)
    ensures WorkersAt(InsertChain(node, w, hs), path)
         == WorkersAt(node, path) + if path != [] && path <= hs then {w} else {}
    decreases |hs|
  {
    if hs != [] && path != [] && path[0] == hs[0] {
      var child := if hs[0] in node.children then node.children[hs[0]] else EMPTY;
      InsertWorkers(child.(workers := child.workers + {w}), w, hs[1..], path[1..]);
      assert path <= hs <==> path[1..] <= hs[1..];
      if path[1..] == [] {
        assert path[1..] <= hs[1..];
      }
    }
  }

  lemma {:induction false} RemoveWorkers(node: Node, w: Worker, hs: seq<BlockHash>, path: seq<BlockHash>)
    ensures WorkersAt(RemoveChain(node, w, hs), path)
         == WorkersAt(node, path) - if path != [] && path <= hs then {w} else {}
    decreases |hs|
  {
    if hs != [] && path != [] && path[0] == hs[0] && hs[0] in node.children {
      var child := node.children[hs[0]];
      RemoveWorkers(child.(workers := child.workers - {w}), w, hs[1..], path[1..]);
      assert path <= hs <==> path[1..] <= hs[1..];
      if path[1..] == [] {
        assert path[1..] <= hs[1..];
      }
    }
  }

  lemma {:induction false} ClearWorkers(node: Node, w: Worker, path: seq<BlockHash>)
    ensures WorkersAt(ClearNode(node, w), path) == WorkersAt(node, path) - {w}
    decreases |path|
  {
    if path != [] && path[0] in node.children {
      ClearWorkers(node.children[path[0]], w, path[1..]);
      EmptyHoldsNothing(ClearNode(node.children[path[0]], w), path[1..]);
    }
  }

  lemma EmptyHoldsNothing(node: Node, path: seq<BlockHash>)
    ensures node.IsEmpty() ==> WorkersAt(node, path) == {}
  {
  }

  // ---------- pruning ----------

  lemma PrunedChild(node: Node, h: BlockHash)
    requires Pruned(node) && h in node.children
    ensures Pruned(node.children[h]) && !node.children[h].IsEmpty()
  {
  }

  lemma PrunedAnyWorkers(node: Node, workers: set<Worker>)
    requires Pruned(node)
    ensures Pruned(node.(workers := workers))
  {
  }

  lemma {:induction false} InsertPruned(node: Node, w: Worker, hs: seq<BlockHash>)
    requires Pruned(node)
    ensures Pruned(InsertChain(node, w, hs))
    ensures node.workers != {} ==> !InsertChain(node, w, hs).IsEmpty()
    decreases |hs|
  {
    if hs != [] {
      var child := if hs[0] in node.children then node.children[hs[0]] else EMPTY;
      if hs[0] in node.children {
        PrunedChild(node, hs[0]);
      }
      PrunedAnyWorkers(child, child.workers + {w});
      InsertPruned(child.(workers := child.workers + {w}), w, hs[1..]);
    }
  }

  lemma {:induction false} RemovePruned(node: Node, w: Worker, hs: seq<BlockHash>)
    requires Pruned(node)
    ensures Pruned(RemoveChain(node, w, hs))
    decreases |hs|
  {
    if hs != [] && hs[0] in node.children {
      var child := node.children[hs[0]];
      PrunedChild(node, hs[0]);
      PrunedAnyWorkers(child, child.workers - {w});
      RemovePruned(child.(workers := child.workers - {w}), w, hs[1..]);
    }
  }

  lemma {:induction false} ClearPruned(node: Node, w: Worker)
    ensures Pruned(ClearNode(node, w))
    decreases node
  {
    forall h | h in node.children
      ensures Pruned(ClearNode(node.children[h], w))
    {
      ClearPruned(node.children[h], w);
    }
  }

  lemma {:induction false} RunPruned(ops: seq<Op>)
    ensures Pruned(Run(ops)) && Run(ops).workers == {}
  {
    if ops != [] {
      var before, op := Run(ops[..|ops| - 1]), ops[|ops| - 1];
      RunPruned(ops[..|ops| - 1]);
      match op
      case Insert(w, hs) => InsertPruned(before, w, hs);
      case Remove(w, hs) => RemovePruned(before, w, hs);
      case Clear(w) => ClearPruned(before, w);
    }
  }

  lemma SomeChild(children: map<BlockHash, Node>) returns (h: BlockHash)
    requires children != map[]
    ensures h in children
  {
    assert |children| != 0;
    h :| h in children;
  }

  /** Pruning is complete: below every node of a pruned tree there is a worker. */
  lemma {:induction false} WorkerBelow(node: Node) returns (path: seq<BlockHash>)
    requires Pruned(node) && !node.IsEmpty()
    ensures WorkersAt(node, path) != {}
    decreases node
  {
    if node.workers != {} {
      path := [];
    } else {
      var h := SomeChild(node.children);
      var rest := WorkerBelow(node.children[h]);
      path := [h] + rest;
    }
  }

  // ---------- the tree against the log ----------

  /** The operation records the pair; the last one to mention it decides. */
  ghost predicate Adds(op: Op, path: seq<BlockHash>, w: Worker) {
    op.Insert? && op.worker == w && path <= op.hashes
  }

  ghost predicate Drops(op: Op, path: seq<BlockHash>, w: Worker) {
    op.worker == w && (op.Clear? || (op.Remove? && path <= op.hashes))
  }

  /** Some insert covers the path and nothing later drops it. */
  ghost predicate Logged(ops: seq<Op>, path: seq<BlockHash>, w: Worker) {
    exists i :: 0 <= i < |ops| && Adds(ops[i], path, w) && forall j :: i < j < |ops| ==> !Drops(ops[j], path, w)
  }

  /** After any run the tree denotes exactly the relation described by the log. */
  lemma {:induction false} TreeIsLog(ops: seq<Op>, path: seq<BlockHash>, w: Worker)
    ensures w in WorkersAt(Run(ops), path) <==> path != [] && Logged(ops, path, w)
  {
    if ops == [] {
      assert WorkersAt(EMPTY, path) == {};
    } else {
      var n := |ops| - 1;
      var init, op := ops[..n], ops[n];
      TreeIsLog(init, path, w);
      LoggedStep(ops, path, w);
      match op
      case Insert(v, hs) => InsertWorkers(Run(init), v, hs, path);
      case Remove(v, hs) =>
        RemoveWorkers(Run(init), v, hs, path);
      case Clear(v) => ClearWorkers(Run(init), v, path);
    }
  }

  lemma LoggedStep(ops: seq<Op>, path: seq<BlockHash>, w: Worker)
    requires ops != []
    ensures var op := ops[|ops| - 1];
            Logged(ops, path, w) <==> Adds(op, path, w) || (Logged(ops[..|ops| - 1], path, w) && !Drops(op, path, w))
  {
    var n := |ops| - 1;
    var init, op := ops[..n], ops[n];
    if Logged(ops, path, w) && !Adds(op, path, w) {
      var i :| 0 <= i < |ops| && Adds(ops[i], path, w) && forall j :: i < j < |ops| ==> !Drops(ops[j], path, w);
      assert Adds(init[i], path, w);
    }
    if Logged(init, path, w) && !Drops(op, path, w) {
      var i :| 0 <= i < |init| && Adds(init[i], path, w) && forall j :: i < j < |init| ==> !Drops(init[j], path, w);
      assert Adds(ops[i], path, w);
      assert forall j :: i < j < |init| ==> init[j] == ops[j];
    }
    if Adds(op, path, w) {
      assert Adds(ops[n], path, w);
    }
  }

  ghost predicate SameAt(a: Node, b: Node, path: seq<BlockHash>) {
    WorkersAt(a, path) == WorkersAt(b, path)
  }

  /** Pruned trees are canonical: trees denoting the same relation are equal. */
  lemma {:induction false} Canonical(a: Node, b: Node)
    requires Pruned(a) && Pruned(b)
    requires forall path :: SameAt(a, b, path)
    ensures a == b
    decreases a
  {
    assert SameAt(a, b, []);
    SameChildren(a, b);
    SameChildren(b, a);
    forall h | h in a.children
      ensures a.children[h] == b.children[h]
    {
      forall path
        ensures SameAt(a.children[h], b.children[h], path)
      {
        assert SameAt(a, b, [h] + path);
        BelowChild(a, h, path);
        BelowChild(b, h, path);
      }
      Canonical(a.children[h], b.children[h]);
    }
    assert a.children == b.children;
  }

  lemma SameChildren(a: Node, b: Node)
    requires Pruned(a)
    requires forall path :: SameAt(a, b, path) || SameAt(b, a, path)
    ensures a.children.Keys <= b.children.Keys
  {
    forall h | h in a.children
      ensures h in b.children
    {
      SameChild(a, b, h);
    }
  }

  lemma SameChild(a: Node, b: Node, h: BlockHash)
    requires Pruned(a) && h in a.children
    requires forall path :: SameAt(a, b, path) || SameAt(b, a, path)
    ensures h in b.children
  {
    var rest := WorkerBelow(a.children[h]);
    BelowChild(a, h, rest);
    BelowChild(b, h, rest);
    assert SameAt(a, b, [h] + rest) || SameAt(b, a, [h] + rest);
  }

  lemma BelowChild(node: Node, h: BlockHash, rest: seq<BlockHash>)
    ensures WorkersAt(node, [h] + rest) == if h in node.children then WorkersAt(node.children[h], rest) else {}
  {
    assert ([h] + rest)[1..] == rest;
  }

  /** Two runs that leave the same relation leave the same tree. */
  lemma SameRelationSameTree(ops1: seq<Op>, ops2: seq<Op>)
    requires forall path, w :: path != [] ==> (Logged(ops1, path, w) <==> Logged(ops2, path, w))
    ensures Run(ops1) == Run(ops2)
  {
    RunPruned(ops1);
    RunPruned(ops2);
    forall path
      ensures SameAt(Run(ops1), Run(ops2), path)
    {
      forall w
        ensures w in WorkersAt(Run(ops1), path) <==> w in WorkersAt(Run(ops2), path)
      {
        TreeIsLog(ops1, path, w);
        TreeIsLog(ops2, path, w);
      }
    }
    Canonical(Run(ops1), Run(ops2));
  }

  // ---------- matching ----------

  lemma {:induction false} FindNext(node: Node, hashes: seq<BlockHash>, k: nat)
    requires k < |hashes| && Find(node, hashes[..k]).Some?
    requires hashes[k] in Find(node, hashes[..k]).value.children
    ensures Find(node, hashes[..k + 1]) == Some(Find(node, hashes[..k]).value.children[hashes[k]])
    decreases k
  {
    if k > 0 {
      assert hashes[..k][1..] == hashes[1..][..k - 1];
      assert hashes[..k + 1][1..] == hashes[1..][..k];
      FindNext(node.children[hashes[0]], hashes[1..], k - 1);
    } else {
      assert hashes[..1] == [hashes[0]];
    }
  }

  lemma {:induction false} FindWorkers(node: Node, path: seq<BlockHash>)
    ensures WorkersAt(node, path) == if Find(node, path).Some? then Find(node, path).value.workers else {}
    decreases |path|
  {
    if path != [] && path[0] in node.children {
      FindWorkers(node.children[path[0]], path[1..]);
    }
  }

  lemma {:induction false} FindPrefix(node: Node, path: seq<BlockHash>, k: nat)
    requires k <= |path| && Find(node, path).Some?
    ensures Find(node, path[..k]).Some?
    decreases k
  {
    if k > 0 {
      assert path[..k][1..] == path[1..][..k - 1];
      FindPrefix(node.children[path[0]], path[1..], k - 1);
    }
  }

  lemma {:induction false} FindStep(node: Node, hashes: seq<BlockHash>, k: nat)
    requires k < |hashes| && Find(node, hashes[..k + 1]).Some?
    ensures Find(node, hashes[..k]).Some? && hashes[k] in Find(node, hashes[..k]).value.children
    decreases k
  {
    if k > 0 {
      assert hashes[..k][1..] == hashes[1..][..k - 1];
      assert hashes[..k + 1][1..] == hashes[1..][..k];
      FindStep(node.children[hashes[0]], hashes[1..], k - 1);
    } else {
      assert hashes[..1] == [hashes[0]];
    }
  }

  lemma FoundPrefix(root: Node, hashes: seq<BlockHash>, matched: nat, k: nat)
    requires matched <= |hashes| && 0 < k <= |hashes| && Find(root, hashes[..matched]).Some?
    requires matched < |hashes| ==> hashes[matched] !in Find(root, hashes[..matched]).value.children
    ensures k <= matched <==> Find(root, hashes[..k]).Some?
  {
    if k <= matched {
      FindPrefix(root, hashes[..matched], k);
      assert hashes[..matched][..k] == hashes[..k];
    } else if Find(root, hashes[..k]).Some? {
      FindPrefix(root, hashes[..k], matched + 1);
      assert hashes[..k][..matched + 1] == hashes[..matched + 1];
      FindStep(root, hashes, matched);
      assert false;
    }
  }

  lemma {:induction false} FindAppend(node: Node, path: seq<BlockHash>, more: seq<BlockHash>)
    ensures Find(node, path + more) == if Find(node, path).Some? then Find(Find(node, path).value, more) else None
    decreases |path|
  {
    if path == [] {
      assert path + more == more;
    } else {
      assert (path + more)[1..] == path[1..] + more;
      if path[0] in node.children {
        FindAppend(node.children[path[0]], path[1..], more);
      }
    }
  }

  lemma {:induction false} FindPruned(node: Node, path: seq<BlockHash>)
    requires Pruned(node) && Find(node, path).Some?
    ensures Pruned(Find(node, path).value) && (path != [] ==> !Find(node, path).value.IsEmpty())
    decreases |path|
  {
    if path != [] {
      PrunedChild(node, path[0]);
      FindPruned(node.children[path[0]], path[1..]);
    }
  }

  /** In a pruned tree the nodes are exactly the live prefixes: nothing live is dropped, nothing dead kept. */
  lemma LiveIffFound(node: Node, path: seq<BlockHash>)
    requires Pruned(node) && path != []
    ensures LivePrefix(node, path) <==> Find(node, path).Some?
  {
    if LivePrefix(node, path) {
      var more :| WorkersAt(node, path + more) != {};
      FindWorkers(node, path + more);
      FindAppend(node, path, more);
    }
    if Find(node, path).Some? {
      FindPruned(node, path);
      var more := WorkerBelow(Find(node, path).value);
      FindWorkers(Find(node, path).value, more);
      FindAppend(node, path, more);
      FindWorkers(node, path + more);
    }
  }

  // ---------- a claim that does not hold: a worker at a node is also at its parent ----------

  ghost predicate PrefixClosed(node: Node) {
    forall p, q, w :: p != [] && p <= q && w in WorkersAt(node, q) ==> w in WorkersAt(node, p)
  }

  /** Removing a chain shorter than what was inserted leaves a worker below a node that no longer lists it. */
  lemma RemoveShorterChainBreaksClosure(w: Worker)
    ensures PrefixClosed(Run([Insert(w, [1, 2])]))
    ensures !PrefixClosed(Run([Insert(w, [1, 2]), Remove(w, [1])]))
  {
    var one, two := [Insert(w, [1, 2])], [Insert(w, [1, 2]), Remove(w, [1])];
    var tree, after := Run(one), Run(two);
    assert one[..|one| - 1] == [] && two[..|two| - 1] == one;
    assert Run([]) == EMPTY;
    assert tree == InsertChain(EMPTY, w, [1, 2]) && after == RemoveChain(tree, w, [1]);
    InsertKeepsClosed(EMPTY, w, [1, 2]);
    InsertWorkers(EMPTY, w, [1, 2], [1, 2]);
    RemoveWorkers(tree, w, [1], [1, 2]);
    RemoveWorkers(tree, w, [1], [1]);
    assert w in WorkersAt(after, [1, 2]) && w !in WorkersAt(after, [1]);
    assert [1] <= [1, 2];
  }

  lemma InsertKeepsClosed(node: Node, w: Worker, hs: seq<BlockHash>)
    requires PrefixClosed(node)
    ensures PrefixClosed(InsertChain(node, w, hs))
  {
    forall p, q, v | p != [] && p <= q && v in WorkersAt(InsertChain(node, w, hs), q)
      ensures v in WorkersAt(InsertChain(node, w, hs), p)
    {
      InsertWorkers(node, w, hs, p);
      InsertWorkers(node, w, hs, q);
    }
  }

  lemma ClearKeepsClosed(node: Node, w: Worker)
    requires PrefixClosed(node)
    ensures PrefixClosed(ClearNode(node, w))
  {
    forall p, q, v | p != [] && p <= q && v in WorkersAt(ClearNode(node, w), q)
      ensures v in WorkersAt(ClearNode(node, w), p)
    {
      ClearWorkers(node, w, p);
      ClearWorkers(node, w, q);
    }
  }

  /**
   * Removal keeps the claim exactly when the worker holds, under the first removed block, only prefixes of the chain.
   */
  lemma RemoveKeepsClosedIff(node: Node, w: Worker, hs: seq<BlockHash>)
    requires PrefixClosed(node) && hs != []
    ensures PrefixClosed(RemoveChain(node, w, hs))
       <==> forall q :: q != [] && q[0] == hs[0] && w in WorkersAt(node, q) ==> q <= hs
  {
    var after := RemoveChain(node, w, hs);
    if PrefixClosed(after) {
      forall q | q != [] && q[0] == hs[0] && w in WorkersAt(node, q)
        ensures q <= hs
      {
        RemoveWorkers(node, w, hs, q);
        RemoveWorkers(node, w, hs, q[..1]);
        assert q[..1] <= hs;
        assert q[..1] <= q;
      }
    }
    if forall q :: q != [] && q[0] == hs[0] && w in WorkersAt(node, q) ==> q <= hs {
      forall p, q, v | p != [] && p <= q && v in WorkersAt(after, q)
        ensures v in WorkersAt(after, p)
      {
        RemoveWorkers(node, w, hs, p);
        RemoveWorkers(node, w, hs, q);
      }
    }
  }
}
