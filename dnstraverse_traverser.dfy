/**
 * `Traverser#run` of the middle iteration: a depth-first walk of the
 * resolution tree over an explicit stack holding nodes and two kinds of
 * marker. A marker sits directly above the node it belongs to; when it is
 * popped, the node beneath is popped with it and calculated. The stack
 * discipline makes every calculation happen after its children's (post-order),
 * so when the walk ends the root node is calculated and its probabilities sum
 * to 1.
 *
 * The stack machinery here is shared with the other two drivers.
 */
module DnstraverseTraversers {
  import opened Wrappers
  import opened ReferralStats
  import opened Referrals

  /** A stack entry: a node, or a marker saying that the node beneath it is due for a calculation. */
  datatype Item = Ref(id: NodeId) | CalcResolve | CalcAnswer

  /** The deepest stack this driver accepts. */
  const MaxStack: nat := 1000

  /** `stack.push(*ids.reverse)`: the ids pushed last first, so that they pop in order. */
  function Pushed(ids: seq<NodeId>): (r: seq<Item>)
    ensures |r| == |ids|
    ensures forall c :: Ref(c) in r <==> c in ids
  {
    var r := seq(|ids|, i requires 0 <= i < |ids| => Ref(ids[|ids| - 1 - i]));
    assert forall c :: c in ids ==> Ref(c) in r by {
      forall c | c in ids ensures Ref(c) in r {
        var i :| 0 <= i < |ids| && ids[i] == c;
        assert r[|ids| - 1 - i] == Ref(c);
      }
    }
    r
  }

  /** The ids in a node's child lists, none once they are dropped. */
  function ChildIds(n: Node): seq<NodeId>
  {
    if n.children.Some? then AllChildren(n.children.value) else []
  }

  /** Node `c` exists and is calculated. */
  predicate Done(nodes: seq<Node>, c: NodeId)
  {
    c < |nodes| && nodes[c].calculated
  }

  // ---------------------------------------------------------------------
  // The stack discipline

  /**
   * The `:calc_answer` marker at `k` sits on a processed node, each of whose
   * children is calculated, still on the stack above the marker, or one of
   * the `dropped` nodes a memo hit took off the stack uncalculated.
   */
  ghost predicate Waiting(nodes: seq<Node>, stack: seq<Item>, k: nat, dropped: set<NodeId>)
    requires k < |stack|
  {
    0 < k && stack[k - 1].Ref? && stack[k - 1].id < |nodes| && nodes[stack[k - 1].id].processed &&
    forall c :: c in ChildIds(nodes[stack[k - 1].id]) ==> Done(nodes, c) || c in dropped || Ref(c) in stack[k + 1..]
  }

  /**
   * The stack is well formed: every node on it exists, every marker sits
   * directly above a node, and every `:calc_answer` marker is `Waiting`.
   */
  ghost predicate StackOk(nodes: seq<Node>, stack: seq<Item>, dropped: set<NodeId>)
  {
    (forall k :: 0 <= k < |stack| && stack[k].Ref? ==> stack[k].id < |nodes|) &&
    (forall k :: 0 <= k < |stack| && stack[k].CalcResolve? ==> 0 < k && stack[k - 1].Ref?) &&
    (forall k :: 0 <= k < |stack| && stack[k].CalcAnswer? ==> Waiting(nodes, stack, k, dropped))
  }

  /**
   * What the tree operations do to the arena, seen from the stack: nodes
   * are only added, no node changes parent, a calculated node stays
   * calculated, and a processed node stays processed and gains no child
   * that is not calculated.
   */
  ghost predicate Kept(nodes: seq<Node>, nodes': seq<Node>)
  {
    |nodes| <= |nodes'| &&
    forall i :: 0 <= i < |nodes| ==>
      nodes'[i].parent == nodes[i].parent &&
      (nodes[i].calculated ==> nodes'[i].calculated) &&
      (nodes[i].processed ==>
        nodes'[i].processed && forall c :: c in ChildIds(nodes'[i]) ==> c in ChildIds(nodes[i]) || Done(nodes', c))
  }

  /** Every node that was on the stack is on the new one, calculated or dropped. */
  ghost predicate NoneLost(stack: seq<Item>, stack': seq<Item>, nodes': seq<Node>, dropped: set<NodeId>)
  {
    forall c :: Ref(c) in stack ==> Ref(c) in stack' || Done(nodes', c) || c in dropped
  }

  lemma KeptTrans(a: seq<Node>, b: seq<Node>, c: seq<Node>)
    requires Kept(a, b) && Kept(b, c)
    ensures Kept(a, c)
  {
  }

  /** Changing one node in a way that keeps its calculation, its processing and its children keeps the arena. */
  lemma KeptUpdate(nodes: seq<Node>, nodes': seq<Node>, x: NodeId, n: Node)
    requires x < |nodes| <= |nodes'| && nodes'[..|nodes|] == nodes[x := n]
    requires n.parent == nodes[x].parent && (nodes[x].calculated ==> n.calculated)
    requires nodes[x].processed ==> n.processed && forall c :: c in ChildIds(n) ==> c in ChildIds(nodes[x])
    ensures Kept(nodes, nodes')
  {
    forall i | 0 <= i < |nodes| ensures nodes'[i] == nodes[x := n][i] {
      assert nodes'[i] == nodes'[..|nodes|][i];
    }
  }

  /** Setting one node in a way that keeps its calculation, its processing and its children keeps the arena. */
  lemma KeptSet(nodes: seq<Node>, x: NodeId, n: Node)
    requires x < |nodes|
    requires n.parent == nodes[x].parent && (nodes[x].calculated ==> n.calculated)
    requires nodes[x].processed ==>
      n.processed && forall c :: c in ChildIds(n) ==> c in ChildIds(nodes[x]) || Done(nodes[x := n], c)
    ensures Kept(nodes, nodes[x := n])
  {
  }

  /** A kept arena keeps the stack well formed. */
  lemma StackKept(nodes: seq<Node>, nodes': seq<Node>, stack: seq<Item>, dropped: set<NodeId>)
    requires StackOk(nodes, stack, dropped) && Kept(nodes, nodes')
    ensures StackOk(nodes', stack, dropped)
  {
    forall k | 0 <= k < |stack| && stack[k].CalcAnswer? ensures Waiting(nodes', stack, k, dropped) {
      assert Waiting(nodes, stack, k, dropped);
      var y := stack[k - 1].id;
      forall c | c in ChildIds(nodes'[y]) ensures Done(nodes', c) || c in dropped || Ref(c) in stack[k + 1..] {
        assert c in ChildIds(nodes[y]) || Done(nodes', c);
      }
    }
  }

  /**
   * Post-order: when a `:calc_answer` marker is on top, every child of the
   * node beneath it is already calculated or was dropped.
   */
  lemma PostOrder(nodes: seq<Node>, stack: seq<Item>, dropped: set<NodeId>)
    requires StackOk(nodes, stack, dropped) && |stack| > 0 && stack[|stack| - 1] == CalcAnswer
    ensures |stack| >= 2 && stack[|stack| - 2].Ref? && stack[|stack| - 2].id < |nodes|
    ensures var x := stack[|stack| - 2].id;
      nodes[x].processed && forall c :: c in ChildIds(nodes[x]) ==> Done(nodes, c) || c in dropped
  {
    var k := |stack| - 1;
    assert Waiting(nodes, stack, k, dropped);
    assert stack[k + 1..] == [];
  }

  /** Pushing a node's `:calc_resolve` marker and its resolve children over it. */
  lemma PushResolve(nodes: seq<Node>, stack: seq<Item>, ids: seq<NodeId>, dropped: set<NodeId>)
    requires StackOk(nodes, stack, dropped) && |stack| > 0 && stack[|stack| - 1].Ref?
    requires forall c :: c in ids ==> c < |nodes|
    ensures StackOk(nodes, stack + [CalcResolve] + Pushed(ids), dropped)
  {
    var s := stack + [CalcResolve] + Pushed(ids);
    forall k | 0 <= k < |s| && s[k].CalcAnswer? ensures Waiting(nodes, s, k, dropped) {
      assert k < |stack| && s[k] == stack[k];
      assert Waiting(nodes, stack, k, dropped);
      assert s[k + 1..] == stack[k + 1..] + [CalcResolve] + Pushed(ids);
    }
    forall k | 0 <= k < |s| && s[k].Ref? ensures s[k].id < |nodes| {
      if k >= |stack| + 1 {
        assert s[k] in Pushed(ids);
      }
    }
  }

  /**
   * Pushing a processed node's `:calc_answer` marker and the children still
   * to be walked over it: every child is then calculated or above the marker.
   */
  lemma PushAnswer(nodes: seq<Node>, stack: seq<Item>, ids: seq<NodeId>, dropped: set<NodeId>)
    requires StackOk(nodes, stack, dropped) && |stack| > 0 && stack[|stack| - 1].Ref?
    requires var x := stack[|stack| - 1].id;
      nodes[x].processed && forall c :: c in ChildIds(nodes[x]) ==> Done(nodes, c) || c in ids
    requires forall c :: c in ids ==> c < |nodes|
    ensures StackOk(nodes, stack + [CalcAnswer] + Pushed(ids), dropped)
  {
    var s := stack + [CalcAnswer] + Pushed(ids);
    forall k | 0 <= k < |s| && s[k].CalcAnswer? ensures Waiting(nodes, s, k, dropped) {
      if k < |stack| {
        assert s[k] == stack[k];
        assert Waiting(nodes, stack, k, dropped);
        assert s[k + 1..] == stack[k + 1..] + [CalcAnswer] + Pushed(ids);
      } else {
        assert k == |stack|;
        assert s[k + 1..] == Pushed(ids);
        assert s[k - 1] == stack[|stack| - 1];
      }
    }
    forall k | 0 <= k < |s| && s[k].Ref? ensures s[k].id < |nodes| {
      if k >= |stack| + 1 {
        assert s[k] in Pushed(ids);
      }
    }
  }

  /** Popping a `:calc_resolve` marker leaves its node on top of a well-formed stack. */
  lemma PopResolve(nodes: seq<Node>, stack: seq<Item>, dropped: set<NodeId>)
    requires StackOk(nodes, stack, dropped) && |stack| > 0 && stack[|stack| - 1] == CalcResolve
    ensures |stack| >= 2 && stack[|stack| - 2].Ref? && stack[|stack| - 2].id < |nodes|
    ensures StackOk(nodes, stack[..|stack| - 1], dropped)
    ensures forall c :: Ref(c) in stack ==> Ref(c) in stack[..|stack| - 1]
  {
    var s := stack[..|stack| - 1];
    assert stack == s + [CalcResolve];
    forall k | 0 <= k < |s| && s[k].CalcAnswer? ensures Waiting(nodes, s, k, dropped) {
      assert Waiting(nodes, stack, k, dropped);
      var y := stack[k - 1].id;
      assert stack[k + 1..] == s[k + 1..] + [CalcResolve];
      forall c | c in ChildIds(nodes[y]) ensures Done(nodes, c) || c in dropped || Ref(c) in s[k + 1..] {
        if !Done(nodes, c) && c !in dropped {
          assert Ref(c) in stack[k + 1..];
        }
      }
    }
  }

  /**
   * Popping a `:calc_answer` marker and its node once the node is
   * calculated: what waited for the node has it.
   */
  lemma PopAnswer(nodes: seq<Node>, nodes': seq<Node>, stack: seq<Item>, dropped: set<NodeId>)
    requires StackOk(nodes, stack, dropped) && |stack| >= 2 && stack[|stack| - 1] == CalcAnswer && stack[|stack| - 2].Ref?
    requires Kept(nodes, nodes') && Done(nodes', stack[|stack| - 2].id)
    ensures StackOk(nodes', stack[..|stack| - 2], dropped)
    ensures NoneLost(stack, stack[..|stack| - 2], nodes', dropped)
  {
    StackKept(nodes, nodes', stack, dropped);
    PopDone(nodes', stack, dropped);
  }

  /** `PopAnswer` on an arena that has not changed since the stack was checked. */
  lemma PopDone(nodes: seq<Node>, stack: seq<Item>, dropped: set<NodeId>)
    requires StackOk(nodes, stack, dropped) && |stack| >= 2 && stack[|stack| - 1] == CalcAnswer && stack[|stack| - 2].Ref?
    requires Done(nodes, stack[|stack| - 2].id)
    ensures StackOk(nodes, stack[..|stack| - 2], dropped)
    ensures NoneLost(stack, stack[..|stack| - 2], nodes, dropped)
  {
    var x := stack[|stack| - 2].id;
    var s := stack[..|stack| - 2];
    assert stack == s + [Ref(x), CalcAnswer];
    forall k | 0 <= k < |s| && s[k].CalcAnswer? ensures Waiting(nodes, s, k, dropped) {
      assert Waiting(nodes, stack, k, dropped);
      var y := stack[k - 1].id;
      assert stack[k + 1..] == s[k + 1..] + [Ref(x), CalcAnswer];
      forall c | c in ChildIds(nodes[y]) ensures Done(nodes, c) || c in dropped || Ref(c) in s[k + 1..] {
        if !Done(nodes, c) && c !in dropped {
          assert Ref(c) in stack[k + 1..];
        }
      }
    }
  }

  // ---------------------------------------------------------------------
  // The fast-mode memo

  /** The memo key of a node: `qname:qclass:qtype:server`, a nil server printing empty. */
  function MemoKey(n: Node): string
  {
    n.qname + ":" + n.qclass + ":" + n.qtype + ":" + n.server.GetOr("")
  }

  /** Every memoised node exists and is calculated. */
  ghost predicate MemoDone(nodes: seq<Node>, answered: map<string, NodeId>)
  {
    forall key :: key in answered ==> Done(nodes, answered[key])
  }

  /** The children that have no memo entry, in order: the ones fast mode still walks. */
  function Unmemoised(nodes: seq<Node>, children: seq<NodeId>, answered: map<string, NodeId>): (r: seq<NodeId>)
    requires forall i :: 0 <= i < |children| ==> children[i] < |nodes|
    ensures forall c: NodeId :: c in r <==> c in children && MemoKey(nodes[c]) !in answered
  {
    if children == [] then []
    else
      var init := children[..|children| - 1];
      var c := children[|children| - 1];
      assert forall d :: d in children <==> d in init || d == c;
      Unmemoised(nodes, init, answered) + (if MemoKey(nodes[c]) in answered then [] else [c])
  }

  /** The child lists after `replace_child` has swapped each memoised child for its memo entry, in order. */
  function SwapHits(h: seq<(ChildKey, seq<NodeId>)>, nodes: seq<Node>, children: seq<NodeId>,
                    answered: map<string, NodeId>): seq<(ChildKey, seq<NodeId>)>
    requires forall i :: 0 <= i < |children| ==> children[i] < |nodes|
  {
    if children == [] then h
    else
      var init := children[..|children| - 1];
      var c := children[|children| - 1];
      var h' := SwapHits(h, nodes, init, answered);
      if MemoKey(nodes[c]) in answered then Swapped(h', c, answered[MemoKey(nodes[c])]) else h'
  }

  /** After `replace_child(before, after)` a child is `after` or a child from before other than `before`. */
  lemma {:induction false} SwappedChildren(h: seq<(ChildKey, seq<NodeId>)>, before: NodeId, after: NodeId)
    ensures forall c :: c in AllChildren(Swapped(h, before, after)) ==> c == after || (c in AllChildren(h) && c != before)
  {
    if h != [] {
      var init := h[..|h| - 1];
      SwappedChildren(init, before, after);
      var r := Swapped(h, before, after);
      assert r[..|r| - 1] == Swapped(init, before, after);
      assert AllChildren(r) == AllChildren(Swapped(init, before, after)) + r[|r| - 1].1;
      assert AllChildren(h) == AllChildren(init) + h[|h| - 1].1;
      var last, prev := r[|r| - 1].1, h[|h| - 1].1;
      forall j | 0 <= j < |last| ensures last[j] == after || (last[j] in prev && last[j] != before) {
        assert prev[j] in prev;
      }
    }
  }

  /** One swap keeps every child of the node calculated, kept or still to be looked at. */
  lemma SwapKeepsCovered(nodes: seq<Node>, h: seq<(ChildKey, seq<NodeId>)>, c: NodeId, hit: bool, after: NodeId,
                         kept: seq<NodeId>, rest: seq<NodeId>)
    requires forall d :: d in AllChildren(h) ==> Done(nodes, d) || d in kept || d in [c] + rest
    requires hit ==> Done(nodes, after)
    ensures var h' := if hit then Swapped(h, c, after) else h;
      var kept' := if hit then kept else kept + [c];
      forall d :: d in AllChildren(h') ==> Done(nodes, d) || d in kept' || d in rest
  {
    if hit {
      SwappedChildren(h, c, after);
    }
  }

  /**
   * The fast-mode pass after `i` children: node `x` has had the memoised
   * ones among them swapped, the others are kept, and every child of `x` is
   * calculated, kept or not yet looked at.
   */
  ghost predicate Swapping(n0: seq<Node>, x: NodeId, children: seq<NodeId>, answered: map<string, NodeId>,
                           i: nat, nodes: seq<Node>, kept: seq<NodeId>)
    requires x < |n0| && n0[x].children.Some? && i <= |children|
    requires forall j :: 0 <= j < |children| ==> children[j] < |n0|
  {
    var h := SwapHits(n0[x].children.value, n0, children[..i], answered);
    nodes == n0[x := n0[x].(children := Some(h))] &&
    kept == Unmemoised(n0, children[..i], answered) &&
    forall d :: d in AllChildren(h) ==> Done(n0, d) || d in kept || d in children[i..]
  }

  /** One more child looked at keeps `Swapping`. */
  lemma SwappingStep(n0: seq<Node>, x: NodeId, children: seq<NodeId>, answered: map<string, NodeId>,
                     i: nat, nodes: seq<Node>, kept: seq<NodeId>, hit: bool)
    requires x < |n0| && n0[x].children.Some? && i < |children|
    requires forall j :: 0 <= j < |children| ==> children[j] < |n0|
    requires MemoDone(n0, answered) && Swapping(n0, x, children, answered, i, nodes, kept)
    requires hit <==> MemoKey(nodes[children[i]]) in answered
    ensures var c := children[i];
      var h := nodes[x].children.value;
      Swapping(n0, x, children, answered, i + 1,
        nodes[x := nodes[x].(children := Some(if hit then Swapped(h, c, answered[MemoKey(nodes[c])]) else h))],
        if hit then kept else kept + [c])
  {
    var c := children[i];
    assert children[..i + 1][..i] == children[..i];
    assert children[..i + 1][i] == c;
    assert children[i..] == [c] + children[i + 1..];
    assert MemoKey(nodes[c]) == MemoKey(n0[c]);
    var h := SwapHits(n0[x].children.value, n0, children[..i], answered);
    var after := if hit then answered[MemoKey(n0[c])] else c;
    SwapKeepsCovered(n0, h, c, hit, after, kept, children[i + 1..]);
  }

  /**
   * The loop body of the fast-mode pass: swap child `children[i]` for its
   * memo entry, if it has one, and keep it otherwise.
   */
  method SwapOne(tree: Tree, x: NodeId, children: seq<NodeId>, i: nat, answered: map<string, NodeId>,
                 ghost n0: seq<Node>, ghost kept: seq<NodeId>) returns (hit: bool)
    requires tree.Valid() && tree.Sound() && x < |n0| && n0[x].children.Some? && i < |children|
    requires forall j :: 0 <= j < |children| ==> children[j] < |n0|
    requires MemoDone(n0, answered) && Swapping(n0, x, children, answered, i, tree.nodes, kept)
    modifies tree`nodes
    ensures tree.Valid() && tree.Sound() && |tree.nodes| == |n0|
    ensures hit <==> MemoKey(n0[children[i]]) in answered
    ensures Swapping(n0, x, children, answered, i + 1, tree.nodes, if hit then kept else kept + [children[i]])
  {
    var c := children[i];
    var key := MemoKey(tree.nodes[c]);
    hit := key in answered;
    SwappingStep(n0, x, children, answered, i, tree.nodes, kept, hit);
    if hit {
      var _ := tree.ReplaceChild(x, c, answered[key]);
    }
  }

  /** Once every child has been looked at, each child of `x` is calculated or kept. */
  lemma SwappingDone(n0: seq<Node>, x: NodeId, children: seq<NodeId>, answered: map<string, NodeId>,
                     nodes: seq<Node>, kept: seq<NodeId>)
    requires x < |n0| && n0[x].children.Some?
    requires forall j :: 0 <= j < |children| ==> children[j] < |n0|
    requires Swapping(n0, x, children, answered, |children|, nodes, kept)
    requires children == ChildIds(n0[x])
    ensures nodes == n0[x := n0[x].(children := Some(SwapHits(n0[x].children.value, n0, children, answered)))]
    ensures kept == Unmemoised(n0, children, answered)
    ensures forall c :: c in ChildIds(nodes[x]) ==> Done(nodes, c) || c in kept
    ensures forall c :: c in kept ==> c < |nodes| && MemoKey(nodes[c]) !in answered
    ensures Kept(n0, nodes)
  {
    assert children[..|children|] == children;
    assert children[|children|..] == [];
    KeptSet(n0, x, nodes[x]);
    forall c | c in kept ensures c < |nodes| && MemoKey(nodes[c]) !in answered {
      assert MemoKey(nodes[c]) == MemoKey(n0[c]);
    }
  }

  /**
   * The fast-mode pass over a processed node's children: each child whose
   * key is memoised is swapped for the memoised node in every child list of
   * the node; the others are kept, in order, to be walked. Afterwards every
   * child of the node is either calculated or kept.
   */
  method SwapMemoised(tree: Tree, x: NodeId, children: seq<NodeId>, answered: map<string, NodeId>)
    returns (kept: seq<NodeId>)
    requires tree.Valid() && tree.Sound() && x < |tree.nodes| && tree.nodes[x].children.Some?
    requires MemoDone(tree.nodes, answered)
    requires forall i :: 0 <= i < |children| ==> children[i] < |tree.nodes|
    requires children == ChildIds(tree.nodes[x])
    modifies tree`nodes
    ensures tree.Valid() && tree.Sound() && Kept(old(tree.nodes), tree.nodes)
    ensures forall c :: c in kept ==> c < |tree.nodes| && MemoKey(tree.nodes[c]) !in answered
    ensures tree.nodes ==
      old(tree.nodes)[x := old(tree.nodes)[x].(children := Some(SwapHits(old(tree.nodes)[x].children.value, old(tree.nodes), children, answered)))]
    ensures kept == Unmemoised(old(tree.nodes), children, answered)
    ensures forall c :: c in ChildIds(tree.nodes[x]) ==> Done(tree.nodes, c) || c in kept
  {
    ghost var n0 := tree.nodes;
    kept := [];
    for i := 0 to |children|
      invariant tree.Valid() && tree.Sound() && |tree.nodes| == |n0|
      invariant Swapping(n0, x, children, answered, i, tree.nodes, kept)
    {
      var hit := SwapOne(tree, x, children, i, answered, n0, kept);
      if !hit {
        kept := kept + [children[i]];
      }
    }
    SwappingDone(n0, x, children, answered, tree.nodes, kept);
  }

  // ---------------------------------------------------------------------
  // The steps of `run`, shared by the drivers

  /** `:calc_resolve`: pop the node beneath the marker, `resolve_calculate` it and push it back. */
  method CalcResolveStep(tree: Tree, stack: seq<Item>, ghost dropped: set<NodeId>) returns (r: Result<seq<Item>>)
    requires tree.Valid() && tree.Sound() && StackOk(tree.nodes, stack, dropped)
    requires |stack| > 0 && stack[|stack| - 1] == CalcResolve
    modifies tree`nodes
    ensures tree.Valid() && tree.Sound() && Kept(old(tree.nodes), tree.nodes)
    ensures |stack| >= 2 && stack[|stack| - 2].Ref?
    ensures r.Ok? ==>
      r.value == stack[..|stack| - 1] && StackOk(tree.nodes, r.value, dropped) && NoneLost(stack, r.value, tree.nodes, dropped)
    ensures r.Ok? ==>
      var x := stack[|stack| - 2].id;
      var p := old(tree.nodes)[x];
      ResolveStats(old(tree.nodes), p).Some? && tree.nodes == old(tree.nodes)[x := Resolution(p, ResolveStats(old(tree.nodes), p).value)]
  {
    PopResolve(tree.nodes, stack, dropped);
    var x := stack[|stack| - 2].id;
    ghost var before := tree.nodes;
    var e := tree.ResolveCalculate(x);
    if e.Err? {
      return Err(e.error);
    }
    KeptSet(before, x, tree.nodes[x]);
    StackKept(before, tree.nodes, stack[..|stack| - 1], dropped);
    return Ok(stack[..|stack| - 1]);
  }

  /**
   * `:calc_answer`: pop the node beneath the marker, `answer_calculate` it
   * and `cleanup` it, keeping the parts in `keep`. Its children are all
   * calculated by then.
   */
  method CalcAnswerStep(tree: Tree, stack: seq<Item>, keep: set<Part>, ghost dropped: set<NodeId>) returns (r: Result<seq<Item>>)
    requires tree.Valid() && tree.Sound() && StackOk(tree.nodes, stack, dropped)
    requires |stack| > 0 && stack[|stack| - 1] == CalcAnswer
    modifies tree`nodes
    ensures |stack| >= 2 && stack[|stack| - 2].Ref?
    ensures tree.Valid() && tree.Sound() && Kept(old(tree.nodes), tree.nodes)
    ensures r.Ok? ==>
      var x := stack[|stack| - 2].id;
      r.value == stack[..|stack| - 2] && StackOk(tree.nodes, r.value, dropped) && NoneLost(stack, r.value, tree.nodes, dropped) &&
      AnswerOf(old(tree.nodes), old(tree.nodes)[x]).Ok? &&
      tree.nodes == old(tree.nodes)[x := Cleaned(old(tree.nodes)[x].(stats := Some(AnswerOf(old(tree.nodes), old(tree.nodes)[x]).value),
                                                                    calculated := true), keep)] &&
      Total(tree.nodes[x].stats.value) == 1.0
  {
    PostOrder(tree.nodes, stack, dropped);
    var x := stack[|stack| - 2].id;
    ghost var before := tree.nodes;
    var e := tree.AnswerCalculate(x);
    if e.Err? {
      return Err(e.error);
    }
    tree.Cleanup(x, keep);
    KeptUpdate(before, tree.nodes, x, tree.nodes[x]);
    PopAnswer(before, tree.nodes, stack, dropped);
    return Ok(stack[..|stack| - 2]);
  }

  /**
   * An unresolved node: push it back, then `:calc_resolve`, then its resolve
   * children reversed so that they pop in the order `resolve` made them.
   */
  method ExpandResolve(tree: Tree, stack: seq<Item>, ghost dropped: set<NodeId>) returns (r: Result<seq<Item>>)
    requires tree.Valid() && tree.CachesValid() && tree.Sound() && StackOk(tree.nodes, stack, dropped)
    requires |stack| > 0 && stack[|stack| - 1].Ref? && !Resolved(tree.nodes[stack[|stack| - 1].id])
    modifies tree`nodes
    ensures tree.Valid() && tree.Sound() && Kept(old(tree.nodes), tree.nodes)
    ensures r.Err? ==> tree.nodes == old(tree.nodes)
    ensures r.Ok? && Glueless(old(tree.nodes)[stack[|stack| - 1].id]) ==>
      r.value == stack + [CalcResolve] && tree.nodes == old(tree.nodes)
    ensures r.Ok? && !Glueless(old(tree.nodes)[stack[|stack| - 1].id]) ==>
      var x := stack[|stack| - 1].id;
      var list := old(tree.nodes)[x].resolves.GetOr([]) + Range(|old(tree.nodes)|, |tree.nodes|);
      |tree.nodes| > |old(tree.nodes)| && tree.nodes[x].resolves == Some(list) &&
      r.value == stack + [CalcResolve] + Pushed(list)
    ensures r.Ok? ==> StackOk(tree.nodes, r.value, dropped) && NoneLost(stack, r.value, tree.nodes, dropped)
  {
    var x := stack[|stack| - 1].id;
    ghost var before := tree.nodes;
    var ids := tree.Resolve(x);
    if ids.Err? {
      return Err(ids.error);
    }
    if ids.value != [] {
      assert tree.nodes[x] == tree.nodes[..|before|][x];
      KeptUpdate(before, tree.nodes, x, tree.nodes[x]);
      assert tree.nodes[x].resolves == Some(ids.value);
      assert NodeLinked(tree.nodes[x], |tree.nodes|);
    }
    StackKept(before, tree.nodes, stack, dropped);
    PushResolve(tree.nodes, stack, ids.value, dropped);
    return Ok(stack + [CalcResolve] + Pushed(ids.value));
  }

  /** A kept arena keeps the memo's nodes calculated. */
  lemma MemoKept(nodes: seq<Node>, nodes': seq<Node>, answered: map<string, NodeId>)
    requires MemoDone(nodes, answered) && Kept(nodes, nodes')
    ensures MemoDone(nodes', answered)
  {
  }

  /**
   * `process` on node `x` as the traverser calls it: only `x` changes among
   * the old nodes, it keeps its calculation, and on success it is processed
   * and its children are what the traverser is handed.
   */
  method ProcessStep(tree: Tree, x: NodeId) returns (r: Result<seq<NodeId>>)
    requires tree.Valid() && tree.CachesValid() && tree.Sound() && tree.dqc.Valid() && x < |tree.nodes|
    requires Resolved(tree.nodes[x]) && !tree.nodes[x].processed
    modifies tree`nodes, tree`Caches, tree.dqc, tree.dqc.resolver
    ensures tree.Valid() && tree.CachesValid() && tree.Sound() && tree.dqc.Valid()
    ensures |tree.nodes| >= |old(tree.nodes)| && tree.nodes[..|old(tree.nodes)|] == old(tree.nodes)[x := tree.nodes[x]]
    ensures r.Ok? ==> tree.nodes[x].calculated == old(tree.nodes)[x].calculated && Kept(old(tree.nodes), tree.nodes)
    ensures r.Ok? ==>
      tree.nodes[x].processed && tree.nodes[x].children.Some? && r.value == ChildIds(tree.nodes[x]) &&
      forall i :: 0 <= i < |r.value| ==> r.value[i] < |tree.nodes|
  {
    ghost var before := tree.nodes;
    r := tree.Process(x);
    if r.Ok? {
      ProcessKeepsCalculation(before[x], x, before, tree.nodes, tree.maxdepth, old(tree.dqc.cache).Values);
      AllChildrenLinked(tree.nodes[x].children.value, |tree.nodes|);
      forall i | 0 <= i < |r.value| ensures r.value[i] < |tree.nodes| {
        assert r.value[i] in r.value;
      }
      assert tree.nodes[x] == tree.nodes[..|before|][x];
      KeptUpdate(before, tree.nodes, x, tree.nodes[x]);
    }
  }

  /**
   * `process` on node `x`, then in fast mode the swap of its memoised
   * children: every child of `x` is then calculated or among the children
   * still to be walked.
   */
  method ProcessChildren(tree: Tree, x: NodeId, fast: bool, answered: map<string, NodeId>) returns (r: Result<seq<NodeId>>)
    requires tree.Valid() && tree.CachesValid() && tree.Sound() && tree.dqc.Valid() && x < |tree.nodes|
    requires Resolved(tree.nodes[x]) && !tree.nodes[x].processed && MemoDone(tree.nodes, answered)
    modifies tree`nodes, tree`Caches, tree.dqc, tree.dqc.resolver
    ensures tree.Valid() && tree.CachesValid() && tree.Sound() && tree.dqc.Valid()
    ensures r.Ok? ==> Kept(old(tree.nodes), tree.nodes) && MemoDone(tree.nodes, answered)
    ensures r.Ok? ==>
      tree.nodes[x].processed && (forall c :: c in r.value ==> c < |tree.nodes|) &&
      (forall c :: c in ChildIds(tree.nodes[x]) ==> Done(tree.nodes, c) || c in r.value) &&
      (!fast ==> r.value == ChildIds(tree.nodes[x])) &&
      (fast ==> forall c :: c in r.value ==> MemoKey(tree.nodes[c]) !in answered)
  {
    ghost var before := tree.nodes;
    r := ProcessStep(tree, x);
    if r.Err? {
      return;
    }
    MemoKept(before, tree.nodes, answered);
    if fast {
      ghost var mid := tree.nodes;
      var kept := SwapMemoised(tree, x, r.value, answered);
      KeptTrans(before, mid, tree.nodes);
      MemoKept(mid, tree.nodes, answered);
      r := Ok(kept);
    }
  }

  /**
   * A resolved, unprocessed node: push it back, then `:calc_answer`, then
   * the children `process` gives, reversed. In fast mode, the children whose
   * key is memoised are first swapped for the memoised nodes and not pushed.
   */
  method ExpandProcess(tree: Tree, stack: seq<Item>, fast: bool, answered: map<string, NodeId>, ghost dropped: set<NodeId>) returns (r: Result<seq<Item>>)
    requires tree.Valid() && tree.CachesValid() && tree.Sound() && tree.dqc.Valid() && StackOk(tree.nodes, stack, dropped)
    requires |stack| > 0 && stack[|stack| - 1].Ref?
    requires Resolved(tree.nodes[stack[|stack| - 1].id]) && !tree.nodes[stack[|stack| - 1].id].processed
    requires MemoDone(tree.nodes, answered)
    modifies tree`nodes, tree`Caches, tree.dqc, tree.dqc.resolver
    ensures tree.Valid() && tree.CachesValid() && tree.Sound() && tree.dqc.Valid()
    ensures r.Ok? ==> Kept(old(tree.nodes), tree.nodes) && MemoDone(tree.nodes, answered)
    ensures r.Ok? ==> StackOk(tree.nodes, r.value, dropped) && NoneLost(stack, r.value, tree.nodes, dropped)
    ensures r.Ok? ==>
      var x := stack[|stack| - 1].id;
      tree.nodes[x].processed && |r.value| > |stack| && r.value[..|stack| + 1] == stack + [CalcAnswer] &&
      (!fast ==> r.value == stack + [CalcAnswer] + Pushed(ChildIds(tree.nodes[x]))) &&
      (fast ==> forall c: NodeId :: Ref(c) in r.value[|stack| + 1..] ==> c < |tree.nodes| && MemoKey(tree.nodes[c]) !in answered)
  {
    var x := stack[|stack| - 1].id;
    ghost var before := tree.nodes;
    var kept := ProcessChildren(tree, x, fast, answered);
    if kept.Err? {
      return Err(kept.error);
    }
    StackKept(before, tree.nodes, stack, dropped);
    PushAnswer(tree.nodes, stack, kept.value, dropped);
    r := Ok(stack + [CalcAnswer] + Pushed(kept.value));
    assert r.value[|stack| + 1..] == Pushed(kept.value);
  }

  // ---------------------------------------------------------------------
  // The traverser

  /**
   * A traverser over a tree of referrals. In fast mode it remembers each
   * node it has calculated under its memo key and does not walk a child
   * whose key it has seen, linking the remembered node in its place.
   */
  class Traverser {
    const tree: Tree
    const fast: bool
    var answered: map<string, NodeId>

    /** `initialize`, but for the resolvers, logging and progress callbacks. */
    constructor(tree: Tree, fast: bool)
      ensures this.tree == tree && this.fast == fast && answered == map[]
    {
      this.tree := tree;
      this.fast := fast;
      answered := map[];
    }

    /** `:calc_answer`, then in fast mode remember the answered node under its key. */
    method Answer(stack: seq<Item>, keep: set<Part>) returns (r: Result<seq<Item>>)
      requires tree.Valid() && tree.Sound() && StackOk(tree.nodes, stack, {}) && MemoDone(tree.nodes, answered)
      requires |stack| > 0 && stack[|stack| - 1] == CalcAnswer
      modifies this`answered, tree`nodes
      ensures tree.Valid() && tree.Sound() && (!fast ==> answered == old(answered))
      ensures r.Ok? ==> Kept(old(tree.nodes), tree.nodes) && MemoDone(tree.nodes, answered)
      ensures r.Ok? ==> StackOk(tree.nodes, r.value, {}) && NoneLost(stack, r.value, tree.nodes, {})
      ensures r.Ok? && fast ==>
        var x := stack[|stack| - 2].id;
        answered == old(answered)[MemoKey(tree.nodes[x]) := x]
    {
      ghost var before := tree.nodes;
      r := CalcAnswerStep(tree, stack, keep, {});
      if r.Ok? {
        MemoKept(before, tree.nodes, answered);
        var x := stack[|stack| - 2].id;
        assert Done(tree.nodes, x);
        if fast {
          answered := answered[MemoKey(tree.nodes[x]) := x];
        }
      }
    }

    /** A node on top: resolve it if it is not, process it if it is not, and otherwise fail. */
    method Visit(stack: seq<Item>) returns (r: Result<seq<Item>>)
      requires tree.Valid() && tree.CachesValid() && tree.Sound() && tree.dqc.Valid()
      requires StackOk(tree.nodes, stack, {}) && MemoDone(tree.nodes, answered)
      requires |stack| > 0 && stack[|stack| - 1].Ref?
      modifies tree`nodes, tree`Caches, tree.dqc, tree.dqc.resolver
      ensures tree.Valid() && tree.CachesValid() && tree.Sound() && tree.dqc.Valid()
      ensures r.Ok? ==> Kept(old(tree.nodes), tree.nodes) && MemoDone(tree.nodes, answered)
      ensures r.Ok? ==> StackOk(tree.nodes, r.value, {}) && NoneLost(stack, r.value, tree.nodes, {})
      ensures var n := old(tree.nodes)[stack[|stack| - 1].id];
        Resolved(n) && n.processed ==> r == Err("Fatal stack error")
    {
      var x := stack[|stack| - 1].id;
      if !Resolved(tree.nodes[x]) {
        ghost var before := tree.nodes;
        r := ExpandResolve(tree, stack, {});
        if r.Ok? {
          MemoKept(before, tree.nodes, answered);
        }
      } else if !tree.nodes[x].processed {
        r := ExpandProcess(tree, stack, fast, answered, {});
      } else {
        r := Err("Fatal stack error");
      }
    }

    /** One turn of `run`'s loop on a non-empty stack: act on the top, giving the stack for the next turn. */
    method Step(stack: seq<Item>, keep: set<Part>) returns (r: Result<seq<Item>>)
      requires tree.Valid() && tree.CachesValid() && tree.Sound() && tree.dqc.Valid()
      requires StackOk(tree.nodes, stack, {}) && MemoDone(tree.nodes, answered) && stack != []
      modifies this`answered, tree`nodes, tree`Caches, tree.dqc, tree.dqc.resolver
      ensures tree.Valid() && tree.CachesValid() && tree.Sound() && tree.dqc.Valid()
      ensures !fast ==> answered == old(answered)
      ensures r.Ok? ==> Kept(old(tree.nodes), tree.nodes) && MemoDone(tree.nodes, answered)
      ensures r.Ok? ==> StackOk(tree.nodes, r.value, {}) && NoneLost(stack, r.value, tree.nodes, {})
    {
      match stack[|stack| - 1]
      case CalcResolve =>
        ghost var before := tree.nodes;
        r := CalcResolveStep(tree, stack, {});
        if r.Ok? {
          MemoKept(before, tree.nodes, answered);
        }
      case CalcAnswer =>
        r := Answer(stack, keep);
      case Ref(_) =>
        r := Visit(stack);
    }

    /**
     * `run`: walk the tree from `root` depth first with an explicit stack,
     * calculating each node's resolution after its resolve children and its
     * answer after its children, and cleaning each node up as it is answered.
     * A stack deeper than 1000 is an error, and so is a node met again once
     * resolved and processed. `fuel` bounds the number of steps. On success
     * the root is calculated and its answer probabilities sum to one.
     */
    method Run(root: NodeId, keep: set<Part>, fuel: nat) returns (r: Result<()>)
      requires tree.Valid() && tree.CachesValid() && tree.Sound() && tree.dqc.Valid() && root < |tree.nodes|
      requires MemoDone(tree.nodes, answered)
      modifies this`answered, tree`nodes, tree`Caches, tree.dqc, tree.dqc.resolver
      ensures tree.Valid() && tree.CachesValid() && tree.Sound() && tree.dqc.Valid()
      ensures !fast ==> answered == old(answered)
      ensures r.Ok? ==> MemoDone(tree.nodes, answered) && Kept(old(tree.nodes), tree.nodes)
      ensures r.Ok? ==>
        root < |tree.nodes| && tree.nodes[root].calculated && tree.nodes[root].stats.Some? &&
        Total(tree.nodes[root].stats.value) == 1.0
    {
      ghost var start := tree.nodes;
      var stack := [Ref(root)];
      var steps := 0;
      while stack != []
        invariant tree.Valid() && tree.CachesValid() && tree.Sound() && tree.dqc.Valid()
        invariant StackOk(tree.nodes, stack, {}) && MemoDone(tree.nodes, answered) && Kept(start, tree.nodes)
        invariant Done(tree.nodes, root) || Ref(root) in stack
        invariant !fast ==> answered == old(answered)
        invariant steps <= fuel
        decreases fuel - steps
      {
        if steps == fuel {
          return Err("step limit reached");
        }
        steps := steps + 1;
        if |stack| > MaxStack {
          return Err("bad stack");
        }
        ghost var before := tree.nodes;
        var next := Step(stack, keep);
        if next.Err? {
          return Err(next.error);
        }
        KeptTrans(start, before, tree.nodes);
        stack := next.value;
      }
      return Ok(());
    }
  }
}
