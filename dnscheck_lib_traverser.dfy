/**
 * `Traverser#run` of the `dnscheck/lib` iteration: the simplest stack
 * driver, with no fast mode, a stack limit of 100 and a `cleanup` switch.
 * The tree it walks is the arena of `Referrals`, which can be cleaned, in
 * place of this iteration's own `Referral`, which cannot; the stack
 * discipline and the steps are the ones `DnstraverseTraversers` proves.
 */
module DnscheckLibTraversers {
  import opened Wrappers
  import opened ReferralStats
  import opened Referrals
  import opened DnstraverseTraversers

  /** The deepest stack this driver accepts. */
  const StackLimit: nat := 100

  /**
   * The `cleanup` switch as `run` computes it from its `:cleanup` argument:
   * `args[:cleanup] || true`, which is true whatever was passed.
   */
  function CleanupFlagAsWritten(arg: Option<bool>): (r: bool)
  {
    match arg
    case None => true
    case Some(b) => b || true
  }

  /**
   * Passing `:cleanup => false` does not switch cleaning off, so every run
   * calls `cleanup` on each calculated node; the `dnscheck/lib` `Referral`
   * has no such method, and the call raises `NoMethodError` there.
   */
  lemma CleanupCannotBeDisabled(arg: Option<bool>)
    ensures CleanupFlagAsWritten(arg)
    ensures CleanupFlagAsWritten(Some(false)) != CleanupFlag(Some(false))
  {
  }

  /** The switch as it is evidently meant: true unless `false` is passed. */
  function CleanupFlag(arg: Option<bool>): (r: bool)
    ensures r <==> arg != Some(false)
  {
    arg.GetOr(true)
  }

  /** The parts a calculated node keeps: nothing when cleaning, everything otherwise. */
  function KeepParts(cleanup: bool): (r: set<Part>)
    ensures cleanup ==> r == {}
    ensures !cleanup ==> KeepInfocache in r && KeepChildren in r && KeepResolves in r && KeepResponses in r
  {
    if cleanup then {} else {KeepInfocache, KeepChildren, KeepResolves, KeepResponses}
  }

  /** Keeping every part, `cleanup` leaves a node as it was. */
  lemma KeepAllKeepsNode(n: Node)
    ensures Cleaned(n, KeepParts(false)) == n
  {
  }

  /**
   * One turn of `run`'s loop on a non-empty stack: a marker pops the node
   * beneath it and calculates it; a node is resolved if it is not, processed
   * if it is not, and otherwise the walk fails.
   */
  method Step(tree: Tree, stack: seq<Item>, keep: set<Part>) returns (r: Result<seq<Item>>)
    requires tree.Valid() && tree.CachesValid() && tree.Sound() && tree.dqc.Valid()
    requires StackOk(tree.nodes, stack, {}) && stack != []
    modifies tree`nodes, tree`Caches, tree.dqc, tree.dqc.resolver
    ensures tree.Valid() && tree.CachesValid() && tree.Sound() && tree.dqc.Valid()
    ensures r.Ok? ==> Kept(old(tree.nodes), tree.nodes)
    ensures r.Ok? ==> StackOk(tree.nodes, r.value, {}) && NoneLost(stack, r.value, tree.nodes, {})
    ensures stack[|stack| - 1].Ref? ==>
      var n := old(tree.nodes)[stack[|stack| - 1].id];
      Resolved(n) && n.processed ==> r == Err("Fatal stack error")
  {
    match stack[|stack| - 1]
    case CalcResolve =>
      r := CalcResolveStep(tree, stack, {});
    case CalcAnswer =>
      r := CalcAnswerStep(tree, stack, keep, {});
    case Ref(x) =>
      if !Resolved(tree.nodes[x]) {
        r := ExpandResolve(tree, stack, {});
      } else if !tree.nodes[x].processed {
        r := ExpandProcess(tree, stack, false, map[], {});
      } else {
        r := Err("Fatal stack error");
      }
  }

  /**
   * `run`: walk the tree from `root` depth first, calculating each node's
   * resolution after its resolve children and its answer after its
   * children, and cleaning each answered node up unless `:cleanup => false`
   * was passed. A stack deeper than 100 is an error. `fuel` bounds the
   * number of steps. On success the root is calculated and its answer
   * probabilities sum to one.
   */
  method Run(tree: Tree, root: NodeId, cleanupArg: Option<bool>, fuel: nat) returns (r: Result<()>)
    requires tree.Valid() && tree.CachesValid() && tree.Sound() && tree.dqc.Valid() && root < |tree.nodes|
    modifies tree`nodes, tree`Caches, tree.dqc, tree.dqc.resolver
    ensures tree.Valid() && tree.CachesValid() && tree.Sound() && tree.dqc.Valid()
    ensures r.Ok? ==> Kept(old(tree.nodes), tree.nodes)
    ensures r.Ok? ==>
      root < |tree.nodes| && tree.nodes[root].calculated && tree.nodes[root].stats.Some? &&
      Total(tree.nodes[root].stats.value) == 1.0
  {
    var keep := KeepParts(CleanupFlag(cleanupArg));
    ghost var start := tree.nodes;
    var stack := [Ref(root)];
    var steps := 0;
    while stack != []
      invariant tree.Valid() && tree.CachesValid() && tree.Sound() && tree.dqc.Valid()
      invariant StackOk(tree.nodes, stack, {}) && Kept(start, tree.nodes)
      invariant Done(tree.nodes, root) || Ref(root) in stack
      invariant steps <= fuel
      decreases fuel - steps
    {
      if steps == fuel {
        return Err("step limit reached");
      }
      steps := steps + 1;
      if |stack| > StackLimit {
        return Err("bad stack");
      }
      ghost var before := tree.nodes;
      var next := Step(tree, stack, keep);
      if next.Err? {
        return Err(next.error);
      }
      KeptTrans(start, before, tree.nodes);
      stack := next.value;
    }
    return Ok(());
  }
}
