/**
 * `Traverser#run` of the newest iteration: the same stack walk as the
 * middle one, but fast mode looks a node up when it is visited rather than
 * when its parent pushes it, a memo hit swaps the node for the memoised one
 * in its parent's child lists and drops it from the stack uncalculated, and
 * every calculated node with a server adds its addresses to the `@seen`
 * table that `servers_encountered` returns.
 *
 * The Referral class this driver was written against is not part of this
 * model; it walks the arena of `Referrals`. Two things of that class enter
 * as parameters of the traverser: the set of nodes its loop detection marks
 * (`loop?`), and the text of `txt_ips_verbose`, which formats weights as
 * percentages.
 */
module Traversers {
  import opened Wrappers
  import opened Names
  import opened Lists
  import opened Outcomes
  import opened ReferralStats
  import opened Referrals
  import opened DnstraverseTraversers

  /** The deepest stack this driver accepts. */
  const StackLimit: nat := 1000

  // ---------------------------------------------------------------------
  // The fast-mode key

  /** The text the key is made from: `qname:qclass:qtype:server:txt_ips_verbose`, a nil server printing empty. */
  function KeyText(n: Node, ipsText: string): string
  {
    n.qname + ":" + n.qclass + ":" + n.qtype + ":" + n.server.GetOr("") + ":" + ipsText
  }

  /** Ruby's `String#downcase!`: the lower-cased string, or nil when nothing changed. */
  function DowncaseBang(s: string): (r: Option<string>)
    ensures r.None? <==> Lower(s) == s
    ensures r.Some? ==> r.value == Lower(s)
  {
    if Lower(s) == s then None else Some(Lower(s))
  }

  /** The key as `run` computes it, with `downcase!`. */
  function FastKeyAsWritten(n: Node, ipsText: string): Option<string>
  {
    DowncaseBang(KeyText(n, ipsText))
  }

  /**
   * Any two nodes whose key texts are already lower case get the same key,
   * nil, however different they are. The class and type are part of the
   * text and default to `IN` and `A`, so this happens when they are passed
   * in lower case and the name, server and address text are lower case too.
   */
  lemma FastKeyAsWrittenCollides(a: Node, b: Node, ta: string, tb: string)
    requires Lower(KeyText(a, ta)) == KeyText(a, ta) && Lower(KeyText(b, tb)) == KeyText(b, tb)
    requires KeyText(a, ta) != KeyText(b, tb)
    ensures FastKeyAsWritten(a, ta) == FastKeyAsWritten(b, tb) == None
  {
  }

  /** The key as it is evidently meant: the key text lower-cased. */
  function FastKey(n: Node, ipsText: string): (r: string)
    ensures r == Lower(r)
  {
    LowerIdempotent(KeyText(n, ipsText));
    Lower(KeyText(n, ipsText))
  }

  /** Two nodes share a key exactly when their key texts agree but for case. */
  lemma FastKeySeparates(a: Node, b: Node, ta: string, tb: string)
    ensures FastKey(a, ta) == FastKey(b, tb) <==> EqualIgnoreCase(KeyText(a, ta), KeyText(b, tb))
  {
  }

  // ---------------------------------------------------------------------
  // What is remembered

  /** Some response of the node was reclassified `referral_lame`. */
  predicate Special(n: Node)
  {
    n.responses.Some? && exists i :: 0 <= i < |n.responses.value| && n.responses.value[i].1.status == ReferralLame
  }

  /** The `@seen` table is well formed: every server name is lower case and lists each address once. */
  predicate SeenOk(seen: map<string, seq<string>>)
  {
    forall k :: k in seen ==> Lower(k) == k && NoDups(seen[k])
  }

  /**
   * The `@seen` update as written: the list is started afresh unless the
   * server name, as given, is a key, although the keys are lower case.
   */
  function SeenAsWritten(seen: map<string, seq<string>>, server: string, ips: seq<string>): map<string, seq<string>>
    requires forall k :: k in seen ==> Lower(k) == k
  {
    var k := Lower(server);
    var base := if server in seen then seen[k] else [];
    seen[k := Uniq(base + ips)]
  }

  /**
   * A server name with capitals, already seen in lower case, has its list
   * started afresh: only the new addresses remain, where the intended update
   * keeps the old ones too.
   */
  lemma SeenAsWrittenForgets(seen: map<string, seq<string>>, server: string, ips: seq<string>)
    requires SeenOk(seen) && Lower(server) != server && Lower(server) in seen
    ensures forall ip :: ip in SeenAsWritten(seen, server, ips)[Lower(server)] <==> ip in ips
    ensures forall ip :: ip in seen[Lower(server)] ==> ip in SeenUpdate(seen, server, ips)[Lower(server)]
  {
    assert server !in seen;
  }

  /** The `@seen` update as it is evidently meant: the addresses join the list kept under the lower-cased name. */
  function SeenUpdate(seen: map<string, seq<string>>, server: string, ips: seq<string>): (r: map<string, seq<string>>)
    ensures r.Keys == seen.Keys + {Lower(server)}
    ensures forall k :: k in seen && k != Lower(server) ==> r[k] == seen[k]
    ensures forall ip :: ip in r[Lower(server)] <==>
      ip in ips || (Lower(server) in seen && ip in seen[Lower(server)])
    ensures NoDups(r[Lower(server)])
  {
    var k := Lower(server);
    var base := if k in seen then seen[k] else [];
    seen[k := Uniq(base + ips)]
  }

  /** The update keeps the table well formed, and the addresses already listed keep their places. */
  lemma SeenUpdateKeeps(seen: map<string, seq<string>>, server: string, ips: seq<string>)
    requires SeenOk(seen)
    ensures SeenOk(SeenUpdate(seen, server, ips))
    ensures Lower(server) in seen ==>
      var before := seen[Lower(server)];
      var after := SeenUpdate(seen, server, ips)[Lower(server)];
      |before| <= |after| && after[..|before|] == before
  {
    LowerIdempotent(server);
    var k := Lower(server);
    if k in seen {
      UniqAppend(seen[k], ips);
      UniqOfNoDups(seen[k]);
    }
  }

  // ---------------------------------------------------------------------
  // Dropping a memoised node

  /** Popping a node uncalculated keeps the stack well formed once the node counts as dropped. */
  lemma DropTop(nodes: seq<Node>, stack: seq<Item>, dropped: set<NodeId>)
    requires StackOk(nodes, stack, dropped) && |stack| > 0 && stack[|stack| - 1].Ref?
    ensures var x := stack[|stack| - 1].id;
      StackOk(nodes, stack[..|stack| - 1], dropped + {x}) &&
      NoneLost(stack, stack[..|stack| - 1], nodes, dropped + {x})
  {
    var x := stack[|stack| - 1].id;
    var s := stack[..|stack| - 1];
    var d := dropped + {x};
    assert stack == s + [Ref(x)];
    forall k | 0 <= k < |s| && s[k].CalcAnswer? ensures Waiting(nodes, s, k, d) {
      assert Waiting(nodes, stack, k, dropped);
      var y := stack[k - 1].id;
      assert stack[k + 1..] == s[k + 1..] + [Ref(x)];
      forall c | c in ChildIds(nodes[y]) ensures Done(nodes, c) || c in d || Ref(c) in s[k + 1..] {
        if !Done(nodes, c) && c !in dropped && c != x {
          assert Ref(c) in stack[k + 1..];
        }
      }
    }
  }

  /**
   * A memo hit: node `x` on top of the stack is swapped for the calculated
   * node `m` in its parent's child lists and popped without being expanded.
   * A node without a parent cannot be swapped, and `run` fails on it.
   */
  method SkipMemoised(tree: Tree, stack: seq<Item>, m: NodeId, ghost dropped: set<NodeId>) returns (r: Result<seq<Item>>)
    requires tree.Valid() && tree.Sound() && StackOk(tree.nodes, stack, dropped)
    requires |stack| > 0 && stack[|stack| - 1].Ref? && Done(tree.nodes, m)
    modifies tree`nodes
    ensures tree.Valid() && tree.Sound()
    ensures var x := stack[|stack| - 1].id;
      old(tree.nodes)[x].parent.None? ==> r.Err?
    ensures r.Err? ==> tree.nodes == old(tree.nodes)
    ensures r.Ok? ==>
      var x := stack[|stack| - 1].id;
      var p := old(tree.nodes)[x].parent;
      p.Some? && old(tree.nodes)[p.value].children.Some? &&
      tree.nodes == old(tree.nodes)[p.value := old(tree.nodes)[p.value].(children :=
        Some(Swapped(old(tree.nodes)[p.value].children.value, x, m)))] &&
      r.value == stack[..|stack| - 1] && Kept(old(tree.nodes), tree.nodes) &&
      StackOk(tree.nodes, r.value, dropped + {x}) && NoneLost(stack, r.value, tree.nodes, dropped + {x})
  {
    var x := stack[|stack| - 1].id;
    var p := tree.nodes[x].parent;
    if p.None? {
      return Err("undefined method replace_child for nil");
    }
    ghost var before := tree.nodes;
    var e := tree.ReplaceChild(p.value, x, m);
    if e.Err? {
      return Err(e.error);
    }
    var h := before[p.value].children.value;
    SwappedChildren(h, x, m);
    KeptSet(before, p.value, tree.nodes[p.value]);
    StackKept(before, tree.nodes, stack, dropped);
    DropTop(tree.nodes, stack, dropped);
    return Ok(stack[..|stack| - 1]);
  }

  // ---------------------------------------------------------------------
  // The traverser

  /**
   * A traverser over a tree of referrals. In fast mode it remembers each
   * normal node it has calculated under its key and swaps any later node with
   * the same key for it. It records the addresses of every server it has
   * calculated a node for.
   */
  class Traverser {
    const tree: Tree
    const fast: bool
    /** The nodes the Referral's loop detection marks as loops. */
    const loops: set<NodeId>
    /** `txt_ips_verbose` of a node. */
    const ipsText: Node -> string
    var answered: map<string, NodeId>
    var seen: map<string, seq<string>>

    /** `initialize`, but for the resolvers, logging and progress callbacks. */
    constructor(tree: Tree, fast: bool, loops: set<NodeId>, ipsText: Node -> string)
      ensures this.tree == tree && this.fast == fast && this.loops == loops && this.ipsText == ipsText
      ensures answered == map[] && seen == map[]
    {
      this.tree := tree;
      this.fast := fast;
      this.loops := loops;
      this.ipsText := ipsText;
      answered := map[];
      seen := map[];
    }

    /** The status of node `x` is `:normal`: it is neither a no-glue referral nor a loop. */
    predicate Normal(n: Node, x: NodeId)
    {
      !Glueless(n) && x !in loops
    }

    /** `servers_encountered`: each server name met, lower case, with its addresses, each once. */
    function ServersEncountered(): (r: map<string, seq<string>>)
      reads this
      requires SeenOk(seen)
      ensures forall k :: k in r ==> Lower(k) == k && NoDups(r[k])
    {
      seen
    }

    /**
     * `:calc_answer`: calculate and clean up the node beneath the marker; in
     * fast mode remember it if it is normal and none of its responses is a
     * lame referral; and add its addresses to `@seen` if it has a server.
     */
    method Answer(stack: seq<Item>, keep: set<Part>, ghost dropped: set<NodeId>) returns (r: Result<seq<Item>>)
      requires tree.Valid() && tree.Sound() && StackOk(tree.nodes, stack, dropped) && MemoDone(tree.nodes, answered)
      requires SeenOk(seen) && |stack| > 0 && stack[|stack| - 1] == CalcAnswer
      modifies this`answered, this`seen, tree`nodes
      ensures tree.Valid() && tree.Sound() && SeenOk(seen) && (!fast ==> answered == old(answered))
      ensures |stack| >= 2 && stack[|stack| - 2].Ref? && stack[|stack| - 2].id < |old(tree.nodes)|
      ensures r.Ok? ==> Kept(old(tree.nodes), tree.nodes) && MemoDone(tree.nodes, answered)
      ensures r.Ok? ==> StackOk(tree.nodes, r.value, dropped) && NoneLost(stack, r.value, tree.nodes, dropped)
      ensures r.Ok? ==>
        var x := stack[|stack| - 2].id;
        var n := old(tree.nodes)[x];
        answered == (if fast && Normal(n, x) && !Special(n) then old(answered)[FastKey(n, ipsText(n)) := x] else old(answered)) &&
        seen == (if n.server.Some? then SeenUpdate(old(seen), n.server.value, NonPlaceholders(n.serverips.GetOr([])))
                 else old(seen))
    {
      PostOrder(tree.nodes, stack, dropped);
      var x := stack[|stack| - 2].id;
      var n := tree.nodes[x];
      ghost var before := tree.nodes;
      r := CalcAnswerStep(tree, stack, keep, dropped);
      if r.Err? {
        return;
      }
      MemoKept(before, tree.nodes, answered);
      Remember(n, x);
      Record(n);
    }

    /** In fast mode, remember calculated node `x` under its key if it is normal and has no lame referral. */
    method Remember(n: Node, x: NodeId)
      requires MemoDone(tree.nodes, answered) && Done(tree.nodes, x)
      modifies this`answered
      ensures MemoDone(tree.nodes, answered)
      ensures answered == (if fast && Normal(n, x) && !Special(n) then old(answered)[FastKey(n, ipsText(n)) := x] else old(answered))
    {
      var special := Special(n);
      if fast && Normal(n, x) && !special {
        answered := answered[FastKey(n, ipsText(n)) := x];
      }
    }

    /** Add the addresses of node `n`, if it has a server, to the list `@seen` keeps for the server. */
    method Record(n: Node)
      requires SeenOk(seen)
      modifies this`seen
      ensures SeenOk(seen)
      ensures seen == (if n.server.Some? then SeenUpdate(old(seen), n.server.value, NonPlaceholders(n.serverips.GetOr([])))
                       else old(seen))
    {
      if n.server.Some? {
        var ips := IpsAsArray(n);
        SeenUpdateKeeps(seen, n.server.value, ips);
        seen := SeenUpdate(seen, n.server.value, ips);
      }
    }

    /**
     * A node on top: in fast mode a memo hit on a node that is neither
     * no-glue nor a loop swaps it for the memoised node and drops it;
     * otherwise it is resolved if it is not and processed if it is (the
     * Referral refuses to process a node twice).
     */
    method Visit(stack: seq<Item>, ghost dropped: set<NodeId>) returns (r: Result<seq<Item>>, ghost dropped': set<NodeId>)
      requires tree.Valid() && tree.CachesValid() && tree.Sound() && tree.dqc.Valid()
      requires StackOk(tree.nodes, stack, dropped) && MemoDone(tree.nodes, answered)
      requires |stack| > 0 && stack[|stack| - 1].Ref?
      modifies tree`nodes, tree`Caches, tree.dqc, tree.dqc.resolver
      ensures tree.Valid() && tree.CachesValid() && tree.Sound() && tree.dqc.Valid()
      ensures !fast ==> dropped' == dropped
      ensures var x := stack[|stack| - 1].id;
        dropped' == dropped || (r.Ok? && dropped' == dropped + {x} && x < |tree.nodes| && tree.nodes[x].parent.Some?)
      ensures r.Ok? ==> Kept(old(tree.nodes), tree.nodes) && MemoDone(tree.nodes, answered)
      ensures r.Ok? ==> StackOk(tree.nodes, r.value, dropped') && NoneLost(stack, r.value, tree.nodes, dropped')
      ensures var x := stack[|stack| - 1].id;
        var n := old(tree.nodes)[x];
        fast && FastKey(n, ipsText(n)) in answered && Normal(n, x) && r.Ok? ==> r.value == stack[..|stack| - 1]
    {
      dropped' := dropped;
      var x := stack[|stack| - 1].id;
      var n := tree.nodes[x];
      if fast && FastKey(n, ipsText(n)) in answered && Normal(n, x) {
        r := Hit(stack, dropped);
        if r.Ok? {
          dropped' := dropped + {x};
        }
      } else {
        r := Expand(stack, dropped);
      }
    }

    /** A memo hit on the node on top: swap it for the memoised node in its parent and drop it. */
    method Hit(stack: seq<Item>, ghost dropped: set<NodeId>) returns (r: Result<seq<Item>>)
      requires tree.Valid() && tree.Sound() && StackOk(tree.nodes, stack, dropped) && MemoDone(tree.nodes, answered)
      requires |stack| > 0 && stack[|stack| - 1].Ref?
      requires var n := tree.nodes[stack[|stack| - 1].id]; FastKey(n, ipsText(n)) in answered
      modifies tree`nodes
      ensures tree.Valid() && tree.Sound()
      ensures r.Ok? ==>
        var x := stack[|stack| - 1].id;
        r.value == stack[..|stack| - 1] && Kept(old(tree.nodes), tree.nodes) && MemoDone(tree.nodes, answered) &&
        StackOk(tree.nodes, r.value, dropped + {x}) && NoneLost(stack, r.value, tree.nodes, dropped + {x}) &&
        x < |tree.nodes| && tree.nodes[x].parent.Some?
    {
      var x := stack[|stack| - 1].id;
      var n := tree.nodes[x];
      ghost var before := tree.nodes;
      r := SkipMemoised(tree, stack, answered[FastKey(n, ipsText(n))], dropped);
      if r.Ok? {
        MemoKept(before, tree.nodes, answered);
        assert tree.nodes[x].parent == before[x].parent;
      }
    }

    /** A node on top that is not a memo hit: resolve it if it is not, and process it otherwise. */
    method Expand(stack: seq<Item>, ghost dropped: set<NodeId>) returns (r: Result<seq<Item>>)
      requires tree.Valid() && tree.CachesValid() && tree.Sound() && tree.dqc.Valid()
      requires StackOk(tree.nodes, stack, dropped) && MemoDone(tree.nodes, answered)
      requires |stack| > 0 && stack[|stack| - 1].Ref?
      modifies tree`nodes, tree`Caches, tree.dqc, tree.dqc.resolver
      ensures tree.Valid() && tree.CachesValid() && tree.Sound() && tree.dqc.Valid()
      ensures r.Ok? ==> Kept(old(tree.nodes), tree.nodes) && MemoDone(tree.nodes, answered)
      ensures r.Ok? ==> StackOk(tree.nodes, r.value, dropped) && NoneLost(stack, r.value, tree.nodes, dropped)
      ensures var n := old(tree.nodes)[stack[|stack| - 1].id];
        Resolved(n) && n.processed ==> r == Err("This Referral object has already been processed")
    {
      var x := stack[|stack| - 1].id;
      var n := tree.nodes[x];
      ghost var before := tree.nodes;
      if !Resolved(n) {
        r := ExpandResolve(tree, stack, dropped);
      } else if n.processed {
        return Err("This Referral object has already been processed");
      } else {
        r := ExpandProcess(tree, stack, false, map[], dropped);
      }
      if r.Ok? {
        MemoKept(before, tree.nodes, answered);
      }
    }

    /** One turn of `run`'s loop on a non-empty stack: act on the top, giving the stack for the next turn. */
    method Step(stack: seq<Item>, keep: set<Part>, ghost dropped: set<NodeId>) returns (r: Result<seq<Item>>, ghost dropped': set<NodeId>)
      requires tree.Valid() && tree.CachesValid() && tree.Sound() && tree.dqc.Valid()
      requires StackOk(tree.nodes, stack, dropped) && MemoDone(tree.nodes, answered) && SeenOk(seen) && stack != []
      modifies this`answered, this`seen, tree`nodes, tree`Caches, tree.dqc, tree.dqc.resolver
      ensures tree.Valid() && tree.CachesValid() && tree.Sound() && tree.dqc.Valid() && SeenOk(seen)
      ensures !fast ==> answered == old(answered)
      ensures !fast ==> dropped' == dropped
      ensures dropped' == dropped ||
        (r.Ok? && stack[|stack| - 1].Ref? && dropped' == dropped + {stack[|stack| - 1].id} &&
         stack[|stack| - 1].id < |tree.nodes| && tree.nodes[stack[|stack| - 1].id].parent.Some?)
      ensures r.Ok? ==> Kept(old(tree.nodes), tree.nodes) && MemoDone(tree.nodes, answered)
      ensures r.Ok? ==> StackOk(tree.nodes, r.value, dropped') && NoneLost(stack, r.value, tree.nodes, dropped')
    {
      dropped' := dropped;
      match stack[|stack| - 1]
      case CalcResolve =>
        ghost var before := tree.nodes;
        r := CalcResolveStep(tree, stack, dropped);
        if r.Ok? {
          MemoKept(before, tree.nodes, answered);
        }
      case CalcAnswer =>
        r := Answer(stack, keep, dropped);
      case Ref(_) =>
        r, dropped' := Visit(stack, dropped);
    }

    /**
     * `run`: walk the tree from `root` depth first, as the middle iteration
     * does, cleaning each answered node up keeping the parts in `keep`. A
     * stack deeper than 1000 is an error. `fuel` bounds the number of steps.
     * On success the root is calculated, with probabilities summing to one,
     * unless fast mode swapped it for a memoised node in its parent.
     */
    method Run(root: NodeId, keep: set<Part>, fuel: nat) returns (r: Result<()>)
      requires tree.Valid() && tree.CachesValid() && tree.Sound() && tree.dqc.Valid() && root < |tree.nodes|
      requires MemoDone(tree.nodes, answered) && SeenOk(seen)
      modifies this`answered, this`seen, tree`nodes, tree`Caches, tree.dqc, tree.dqc.resolver
      ensures tree.Valid() && tree.CachesValid() && tree.Sound() && tree.dqc.Valid() && SeenOk(seen)
      ensures !fast ==> answered == old(answered)
      ensures r.Ok? ==> MemoDone(tree.nodes, answered) && Kept(old(tree.nodes), tree.nodes)
      ensures r.Ok? ==> root < |tree.nodes| && (tree.nodes[root].calculated || (fast && tree.nodes[root].parent.Some?))
      ensures r.Ok? && tree.nodes[root].calculated ==>
        tree.nodes[root].stats.Some? && Total(tree.nodes[root].stats.value) == 1.0
    {
      ghost var start := tree.nodes;
      ghost var dropped: set<NodeId> := {};
      var stack := [Ref(root)];
      var steps := 0;
      while stack != []
        invariant tree.Valid() && tree.CachesValid() && tree.Sound() && tree.dqc.Valid() && SeenOk(seen)
        invariant StackOk(tree.nodes, stack, dropped) && MemoDone(tree.nodes, answered) && Kept(start, tree.nodes)
        invariant Done(tree.nodes, root) || Ref(root) in stack || root in dropped
        invariant forall d :: d in dropped ==> d < |tree.nodes| && tree.nodes[d].parent.Some?
        invariant !fast ==> answered == old(answered) && dropped == {}
        invariant steps <= fuel
        decreases fuel - steps
      {
        if steps == fuel {
          return Err("step limit reached");
        }
        steps := steps + 1;
        if |stack| > StackLimit {
          return Err("bad stack");
        }
        ghost var before := tree.nodes;
        var next;
        ghost var dropped';
        next, dropped' := Step(stack, keep, dropped);
        if next.Err? {
          return Err(next.error);
        }
        KeptTrans(start, before, tree.nodes);
        forall d | d in dropped' ensures d < |tree.nodes| && tree.nodes[d].parent.Some? {
          if d in dropped {
            assert d < |before| && before[d].parent.Some?;
            assert Kept(before, tree.nodes);
            assert tree.nodes[d].parent == before[d].parent;
          }
        }
        stack := next.value;
        dropped := dropped';
      }
      return Ok(());
    }
  }
}
