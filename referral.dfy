/**
 * `Referral`, the node of the resolution tree: one referral to one server
 * for one (qname, qclass, qtype). A node first resolves the server's name to
 * addresses (its resolve children), then queries each address (its process
 * children), and finally combines what its children found into `stats`,
 * whose probabilities sum to 1.
 *
 * The nodes live in an arena (`Tree.nodes`) and refer to each other by
 * `NodeId`; the parent is held as an index.
 */
module Referrals {
  import opened Wrappers
  import opened Names
  import opened DnsMessage
  import opened Outcomes
  import opened Hashes
  import opened CacheRecords
  import opened ReferralStats
  import opened InfoCaches
  import opened DecodedQueries
  import opened DecodedQueryCaches
  import MessageUtility
  import DnstraverseResponses
  import DnstraverseResponseNoGlue

  type NodeId = nat

  type Response = DnstraverseResponses.Response

  /** The key of a child list: an address, or `:rootroot` for the roots under the root-root node. */
  datatype ChildKey = RootRoot | Ip(ip: string)

  /** What `cleanup` can be asked to keep. */
  datatype Part = KeepInfocache | KeepChildren | KeepResolves | KeepResponses

  datatype Node = Node(
    server: Option<string>,                      // nil for the root-root node
    serverips: Option<seq<string>>,              // addresses, `key:` placeholders after a failed resolve
    qname: string,
    qclass: string,
    qtype: string,
    nsatype: string,
    refid: string,
    refkey: string,
    bailiwick: Option<string>,
    parent: Option<NodeId>,
    parentIp: Option<string>,
    referralResolution: bool,
    infocache: InfoCache?,
    resolves: Option<seq<NodeId>>,               // the resolve children
    responses: Option<Hash<string, Response>>,   // per address
    children: Option<Hash<ChildKey, seq<NodeId>>>,
    stats: Option<Stats>,
    statsResolve: Option<Stats>,
    serverweights: Weights,
    processed: bool,
    calculated: bool)

  // ---------------------------------------------------------------------
  // Small pieces of the node

  /** The number of dots in a string (the depth of a refid). */
  function CountDots(s: string): nat
  {
    if s == [] then 0 else CountDots(s[..|s| - 1]) + (if s[|s| - 1] == '.' then 1 else 0)
  }

  function DigitChar(d: nat): char
    requires d < 10
  {
    ('0' as int + d) as char
  }

  /** A number as Ruby interpolates it. */
  function Decimal(n: nat): (r: string)
    ensures |r| > 0
  {
    if n < 10 then [DigitChar(n)] else Decimal(n / 10) + [DigitChar(n % 10)]
  }

  /** The addresses of a list that are not `key:` placeholders, in order. */
  function NonPlaceholders(ips: seq<string>): (r: seq<string>)
  {
    if ips == [] then []
    else NonPlaceholders(ips[..|ips| - 1]) + (if IsPlaceholder(ips[|ips| - 1]) then [] else [ips[|ips| - 1]])
  }

  /** Exactly the real addresses of the list stay, and only they. */
  lemma {:induction false} NonPlaceholdersMembers(ips: seq<string>)
    ensures forall x :: x in NonPlaceholders(ips) <==> x in ips && !IsPlaceholder(x)
    ensures |NonPlaceholders(ips)| <= |ips|
  {
    if ips != [] {
      NonPlaceholdersMembers(ips[..|ips| - 1]);
      assert ips == ips[..|ips| - 1] + [ips[|ips| - 1]];
    }
  }

  /** `ips_as_array`: the known addresses of the server, without placeholders; empty before they are known. */
  method IpsAsArray(n: Node) returns (r: seq<string>)
    ensures n.serverips.None? ==> r == []
    ensures n.serverips.Some? ==> r == NonPlaceholders(n.serverips.value)
  {
    r := [];
    if n.serverips.None? {
      return;
    }
    var ips := n.serverips.value;
    for i := 0 to |ips|
      invariant r == NonPlaceholders(ips[..i])
    {
      assert ips[..i + 1][..i] == ips[..i];
      if !IsPlaceholder(ips[i]) {
        r := r + [ips[i]];
      }
    }
    assert ips[..|ips|] == ips;
  }

  /** `inside_bailiwick?`: every name is inside a nil bailiwick. */
  predicate InsideBailiwickOf(n: Node, name: string)
  {
    InsideBailiwick(name, n.bailiwick)
  }

  /** `noglue?`: no addresses are known and the server lies inside the bailiwick that referred to it. */
  predicate Glueless(n: Node)
  {
    n.serverips.None? && InsideBailiwickOf(n, n.server.GetOr(""))
  }

  /** `resolved?`: the root-root node always is; any other node once it has addresses. */
  predicate Resolved(n: Node)
  {
    n.server.None? || n.serverips.Some?
  }

  /** A node waiting for its address is either glueless or can look its server up. */
  lemma NotGluelessOutsideBailiwick(n: Node)
    requires !Resolved(n) && !Glueless(n)
    ensures n.bailiwick.Some? && !InsideBailiwick(n.server.value, n.bailiwick)
  {
  }

  /** The RuntimeError a query is made from once the depth limit is reached. */
  function MaxdepthError(maxdepth: nat): Reply
  {
    Raised("Maxdepth " + Decimal(maxdepth) + " exceeded")
  }

  /** The message handed to a query: the max-depth error once the refid is `maxdepth` dots deep, else none. */
  function QueryMessage(refid: string, maxdepth: nat): (r: Option<Reply>)
    ensures r.Some? <==> CountDots(refid) >= maxdepth
    ensures r.Some? ==> r.value.Raised?
  {
    if CountDots(refid) >= maxdepth then Some(MaxdepthError(maxdepth)) else None
  }

  /** What a stats entry keeps of a response. */
  function OutcomeOf(r: Response): Outcome
  {
    Outcome(r.status, r.decodedQuery.decoded.answers.GetOr([]), r.statsKey)
  }

  /** The no-glue stand-in `resolve_calculate` records: the parent's address asked, the server unreachable. */
  function NoGlueOf(n: Node): DnstraverseResponseNoGlue.NoGlue
  {
    DnstraverseResponseNoGlue.NoGlue(n.qname, n.qclass, n.qtype, n.parentIp.GetOr(""), n.bailiwick, n.server.GetOr(""))
  }

  function NoGlueOutcome(n: Node): (r: Outcome)
    ensures r.status == Outcomes.NoGlue && IsPlaceholder(r.key)
  {
    var g := NoGlueOf(n);
    Outcome(g.Status(), [], g.StatsKey())
  }

  /** The stats of a list of nodes, nil for a node not yet calculated. */
  function ChildStats(nodes: seq<Node>, ids: seq<NodeId>): (r: seq<Option<Stats>>)
    ensures |r| == |ids|
    ensures forall i :: 0 <= i < |ids| ==> r[i] == (if ids[i] < |nodes| then nodes[ids[i]].stats else None)
  {
    seq(|ids|, i requires 0 <= i < |ids| => if ids[i] < |nodes| then nodes[ids[i]].stats else None)
  }

  /** What `answer_calculate` finds for one address of a node: its children's stats and its response. */
  function IpInfoOf(nodes: seq<Node>, n: Node, ip: string): IpInfo
  {
    var cs := if n.children.Some? then Lookup(n.children.value, Ip(ip)) else None;
    var r := if n.responses.Some? then Lookup(n.responses.value, ip) else None;
    IpInfo(if cs.Some? then Some(ChildStats(nodes, cs.value)) else None,
           if r.Some? then Some(OutcomeOf(r.value)) else None)
  }

  function InfoOf(nodes: seq<Node>, n: Node): string -> IpInfo
  {
    ip => IpInfoOf(nodes, n, ip)
  }

  /** Every child of a node, list after list in key order (`children.values.flatten`). */
  function AllChildren(h: Hash<ChildKey, seq<NodeId>>): seq<NodeId>
  {
    if h == [] then [] else AllChildren(h[..|h| - 1]) + h[|h| - 1].1
  }

  // ---------------------------------------------------------------------
  // The loops of the calculations, each proved against its specification

  /** `serverweights[ip] = 1.0 / serverips.length` for each given address. */
  method InitialServerWeights(ips: seq<string>) returns (w: Weights)
    ensures w == InitialWeights(ips, |ips|)
  {
    w := [];
    for i := 0 to |ips|
      invariant w == InitialWeights(ips[..i], |ips|)
    {
      assert ips[..i + 1][..i] == ips[..i];
      w := Put(w, ips[i], 1.0 / |ips| as real);
    }
    assert ips[..|ips|] == ips;
  }

  /**
   * `stats_calculate_children(stats, children, weight)`: each child's
   * entries, scaled by `(1 / |children|) * weight`, copied in or added to the
   * entry already under their key.
   */
  method StatsCalculateChildren(s0: Stats, cs: seq<Stats>, w: real) returns (s: Stats)
    ensures s == Combine(s0, cs, w)
  {
    s := s0;
    if cs == [] {
      return;
    }
    var pct := Mul(1.0 / |cs| as real, w);
    for i := 0 to |cs|
      invariant s == CombineAt(s0, cs[..i], pct)
    {
      assert cs[..i + 1][..i] == cs[..i];
      var child := cs[i];
      ghost var before := s;
      for j := 0 to |child|
        invariant s == AddScaled(before, child[..j], pct)
      {
        assert child[..j + 1][..j] == child[..j];
        s := Accumulate(s, child[j].0, Scale(child[j].1, pct));
      }
      assert child[..|child|] == child;
    }
    assert cs[..|cs|] == cs;
  }

  /**
   * The weights loop of `resolve_calculate`: an answered entry's probability
   * split evenly over its answer addresses, any other entry's kept under its
   * key.
   */
  method WeighResolution(sr: Stats) returns (w: Weights)
    ensures w == ResolveWeights(sr)
  {
    w := [];
    for i := 0 to |sr|
      invariant w == ResolveWeights(sr[..i])
    {
      assert sr[..i + 1][..i] == sr[..i];
      var (key, e) := sr[i];
      if e.outcome.status == Answered {
        var addrs := MessageUtility.Addresses(e.outcome.answers);
        if addrs != [] {
          var share := e.prob / |addrs| as real;
          ghost var before := w;
          for j := 0 to |addrs|
            invariant w == Spread(before, addrs[..j], share)
          {
            assert addrs[..j + 1][..j] == addrs[..j];
            w := WAccumulate(w, addrs[j], share);
          }
          assert addrs[..|addrs|] == addrs;
        }
      } else {
        w := WAccumulate(w, key, e.prob);
      }
    }
    assert sr[..|sr|] == sr;
  }

  /** The per-address loop of `answer_calculate`, with terminal entries accumulated. */
  method AnswerLoop(ips: seq<string>, w: Weights, sr: Option<Stats>, info: string -> IpInfo) returns (r: Result<Stats>)
    ensures r == AnswerStats(ips, w, sr, info, false)
  {
    var s: Stats := [];
    for i := 0 to |ips|
      invariant AnswerStats(ips[..i], w, sr, info, false) == Ok(s)
    {
      assert ips[..i + 1][..i] == ips[..i];
      var step := AnswerStep(s, ips[i], w, sr, info(ips[i]), false);
      if step.Err? {
        AnswerStatsStopsAtError(ips, i + 1, w, sr, info);
        return step;
      }
      s := step.value;
    }
    assert ips[..|ips|] == ips;
    return Ok(s);
  }

  /** Once an address fails, the calculation fails with that error. */
  lemma {:induction false} AnswerStatsStopsAtError(ips: seq<string>, k: nat, w: Weights, sr: Option<Stats>, info: string -> IpInfo)
    requires 0 < k <= |ips|
    requires AnswerStats(ips[..k], w, sr, info, false).Err?
    ensures AnswerStats(ips, w, sr, info, false) == AnswerStats(ips[..k], w, sr, info, false)
    decreases |ips| - k
  {
    if k < |ips| {
      assert ips[..k + 1][..k] == ips[..k];
      AnswerStatsStopsAtError(ips, k + 1, w, sr, info);
    } else {
      assert ips[..k] == ips;
    }
  }

  // ---------------------------------------------------------------------
  // Child nodes

  /** The arguments `make_referral` merges over the parent's own. */
  datatype RefArgs = RefArgs(qname: string, qclass: string, qtype: string, bailiwick: Option<string>,
                             infocache: InfoCache?, parentIp: Option<string>, referralResolution: bool)

  /**
   * A new node for a start server: `Referral.new` with the server's name and
   * addresses, each given address weighted 1/n, nothing resolved,
   * processed or calculated yet.
   */
  function Spawn(p: Node, pid: NodeId, s: Starter, refid: string, refkey: string, a: RefArgs): Node
  {
    Node(Some(s.name), s.ips, a.qname, a.qclass, a.qtype, p.nsatype, refid, refkey, a.bailiwick, Some(pid),
         a.parentIp, a.referralResolution, a.infocache, None, Some([]), Some([]), None, None,
         if s.ips.Some? then InitialWeights(s.ips.value, |s.ips.value|) else [], false, false)
  }

  /** The children one parent spawns, one per starter, numbered `prefix1`, `prefix2`, ... . */
  function SpawnList(p: Node, pid: NodeId, starters: seq<Starter>, prefix: string, refkey: string, a: RefArgs): (r: seq<Node>)
    ensures |r| == |starters|
  {
    if starters == [] then [] else
      SpawnList(p, pid, starters[..|starters| - 1], prefix, refkey, a) +
        [Spawn(p, pid, starters[|starters| - 1], prefix + Decimal(|starters|), refkey, a)]
  }

  /** The `k`th child is spawned from the `k`th starter, numbered `k + 1`. */
  lemma {:induction false} SpawnListAt(p: Node, pid: NodeId, starters: seq<Starter>, prefix: string, refkey: string, a: RefArgs, k: nat)
    requires k < |starters|
    ensures SpawnList(p, pid, starters, prefix, refkey, a)[k] == Spawn(p, pid, starters[k], prefix + Decimal(k + 1), refkey, a)
  {
    if k < |starters| - 1 {
      var init := starters[..|starters| - 1];
      SpawnListAt(p, pid, init, prefix, refkey, a, k);
    }
  }

  /** The servers of a list of nodes, as start servers. */
  function StartersOf(ns: seq<Node>): (r: seq<Starter>)
    ensures |r| == |ns|
  {
    seq(|ns|, i requires 0 <= i < |ns| => Starter(ns[i].server.GetOr(""), ns[i].serverips))
  }

  /** Each spawned child is asked of its own starter, in order. */
  lemma SpawnListStarters(p: Node, pid: NodeId, starters: seq<Starter>, prefix: string, refkey: string, a: RefArgs)
    ensures StartersOf(SpawnList(p, pid, starters, prefix, refkey, a)) == starters
  {
    var l := SpawnList(p, pid, starters, prefix, refkey, a);
    forall k | 0 <= k < |starters|
      ensures StartersOf(l)[k] == starters[k]
    {
      SpawnListAt(p, pid, starters, prefix, refkey, a, k);
    }
  }

  /** The ids `from`, `from + 1`, ..., `to - 1`. */
  function Range(from: nat, to: nat): (r: seq<NodeId>)
    requires from <= to
    ensures |r| == to - from && forall k :: 0 <= k < |r| ==> r[k] == from + k
  {
    seq(to - from, k requires 0 <= k < to - from => from + k)
  }

  // ---------------------------------------------------------------------
  // What every node keeps true

  /**
   * A node's probabilities are in order: calculated stats and resolution
   * stats sum to 1 and keep the answers of answered entries; the weights of
   * the known addresses sum to 1; no child list is empty; every response
   * that answered has answers.
   */
  predicate NodeSound(n: Node)
  {
    (n.stats.Some? ==> Total(n.stats.value) == 1.0 && WellFormed(n.stats.value)) &&
    (n.calculated ==> n.stats.Some?) &&
    (n.statsResolve.Some? ==> Total(n.statsResolve.value) == 1.0 && WellFormed(n.statsResolve.value)) &&
    (n.serverips.Some? ==> |n.serverips.value| > 0 && SumWeights(n.serverips.value, n.serverweights) == 1.0) &&
    (n.resolves.Some? ==> |n.resolves.value| > 0) &&
    (n.children.Some? ==> forall i :: 0 <= i < |n.children.value| ==> |n.children.value[i].1| > 0) &&
    (n.responses.Some? ==> forall i :: 0 <= i < |n.responses.value| ==> Present(OutcomeOf(n.responses.value[i].1)))
  }

  predicate AllSound(nodes: seq<Node>)
  {
    forall id :: 0 <= id < |nodes| ==> NodeSound(nodes[id])
  }

  /** Every id a node holds, as its parent, in its resolve children or in its child lists, is below `bound`. */
  predicate NodeLinked(n: Node, bound: nat)
  {
    (n.parent.Some? ==> n.parent.value < bound) &&
    (n.resolves.Some? ==> forall j :: 0 <= j < |n.resolves.value| ==> n.resolves.value[j] < bound) &&
    (n.children.Some? ==>
      forall i, j :: 0 <= i < |n.children.value| && 0 <= j < |n.children.value[i].1| ==> n.children.value[i].1[j] < bound)
  }

  /** The arena is closed: no node refers to a node that is not there. */
  predicate AllLinked(nodes: seq<Node>)
  {
    forall id :: 0 <= id < |nodes| ==> NodeLinked(nodes[id], |nodes|)
  }

  /** Every child of a linked node is in the arena. */
  lemma {:induction false} AllChildrenLinked(h: Hash<ChildKey, seq<NodeId>>, bound: nat)
    requires forall i, j :: 0 <= i < |h| && 0 <= j < |h[i].1| ==> h[i].1[j] < bound
    ensures forall c :: c in AllChildren(h) ==> c < bound
  {
    if h != [] {
      AllChildrenLinked(h[..|h| - 1], bound);
    }
  }

  /** Adding nodes keeps the old ones linked. */
  lemma LinkedGrows(n: Node, bound: nat, bound': nat)
    requires NodeLinked(n, bound) && bound <= bound'
    ensures NodeLinked(n, bound')
  {
  }

  lemma SpawnSound(p: Node, pid: NodeId, s: Starter, refid: string, refkey: string, a: RefArgs)
    requires s.ips.Some? ==> |s.ips.value| > 0
    ensures NodeSound(Spawn(p, pid, s, refid, refkey, a))
  {
    if s.ips.Some? {
      InitialWeightsSumToOne(s.ips.value);
    }
  }

  /** The children's stats seen from a node of a sound arena. */
  lemma ChildStatsSound(nodes: seq<Node>, ids: seq<NodeId>)
    requires AllSound(nodes)
    ensures forall j :: 0 <= j < |ids| && ChildStats(nodes, ids)[j].Some? ==>
      Total(ChildStats(nodes, ids)[j].value) == 1.0 && WellFormed(ChildStats(nodes, ids)[j].value)
  {
    forall j | 0 <= j < |ids| && ChildStats(nodes, ids)[j].Some?
      ensures Total(ChildStats(nodes, ids)[j].value) == 1.0 && WellFormed(ChildStats(nodes, ids)[j].value)
    {
      assert NodeSound(nodes[ids[j]]);
    }
  }

  /** What `answer_calculate` needs of the addresses of a sound node. */
  lemma InfoSound(nodes: seq<Node>, n: Node, ips: seq<string>)
    requires AllSound(nodes) && NodeSound(n)
    ensures ChildListsNonEmpty(ips, InfoOf(nodes, n))
    ensures ChildrenSumToOne(ips, InfoOf(nodes, n))
    ensures InfoWellFormed(ips, InfoOf(nodes, n))
  {
    var info := InfoOf(nodes, n);
    forall i | 0 <= i < |ips|
      ensures info(ips[i]).children.Some? ==> |info(ips[i]).children.value| > 0
      ensures info(ips[i]).children.Some? ==> forall j :: 0 <= j < |info(ips[i]).children.value| ==>
        (info(ips[i]).children.value[j].Some? ==>
           Total(info(ips[i]).children.value[j].value) == 1.0 && WellFormed(info(ips[i]).children.value[j].value))
      ensures info(ips[i]).response.Some? ==> Present(info(ips[i]).response.value)
    {
      var ip := ips[i];
      assert info(ip) == IpInfoOf(nodes, n, ip);
      if n.children.Some? && Lookup(n.children.value, Ip(ip)).Some? {
        var list := Lookup(n.children.value, Ip(ip)).value;
        var k :| 0 <= k < |n.children.value| && n.children.value[k] == (Ip(ip), list);
        ChildStatsSound(nodes, list);
      }
      if n.responses.Some? && Lookup(n.responses.value, ip).Some? {
        var r := Lookup(n.responses.value, ip).value;
        var k :| 0 <= k < |n.responses.value| && n.responses.value[k] == (ip, r);
      }
    }
  }

  // ---------------------------------------------------------------------
  // The calculations as functions of the arena

  /**
   * The resolution stats `resolve_calculate` builds: a single no-glue entry
   * at probability 1 for a glueless server, otherwise the resolve
   * children's stats combined at weight 1; nil when a resolve child has not
   * been calculated (Ruby fails on its nil stats).
   */
  function ResolveStats(nodes: seq<Node>, n: Node): Option<Stats>
  {
    if Glueless(n) then
      var o := NoGlueOutcome(n);
      Some([(o.key, Entry(1.0, o))])
    else if n.resolves.None? then None
    else
      var cs := AllCalculated(ChildStats(nodes, n.resolves.value));
      if cs.None? then None else Some(Combine([], cs.value, 1.0))
  }

  /** The node after `resolve_calculate`: the resolution stats, the weights they give and those weights' keys as addresses. */
  function Resolution(n: Node, sr: Stats): Node
  {
    var w := ResolveWeights(sr);
    n.(statsResolve := Some(sr), serverweights := w, serverips := Some(Keys(w)))
  }

  /**
   * The stats `answer_calculate` builds: for the root-root node its roots
   * combined at weight 1; for any other node each address contributing its
   * weight, terminal entries accumulated under the response's key.
   */
  function AnswerOf(nodes: seq<Node>, n: Node): Result<Stats>
  {
    if n.server.None? then
      var roots := if n.children.Some? then Lookup(n.children.value, RootRoot) else None;
      if roots.None? then Err("undefined method for nil")
      else
        var cs := AllCalculated(ChildStats(nodes, roots.value));
        if cs.None? then Err("undefined method for nil") else Ok(Combine([], cs.value, 1.0))
    else if n.serverips.None? then Err("undefined method for nil")
    else AnswerStats(n.serverips.value, n.serverweights, n.statsResolve, InfoOf(nodes, n), false)
  }

  /** A glueless server resolves to exactly one placeholder address, carrying all the weight. */
  lemma NoGlueResolvesToItsKey(nodes: seq<Node>, n: Node)
    requires Glueless(n)
    ensures var sr := ResolveStats(nodes, n).value;
      var k := NoGlueOutcome(n).key;
      ResolveWeights(sr) == [(k, 1.0)] && Keys(ResolveWeights(sr)) == [k] && IsPlaceholder(k)
  {
    var o := NoGlueOutcome(n);
    var sr := [(o.key, Entry(1.0, o))];
    assert sr[..0] == [];
    assert ResolveWeights(sr) == WeighEntry([], o.key, Entry(1.0, o));
  }

  /** Combining calculated children of a sound arena at weight 1 gives stats that sum to 1. */
  lemma CombinedSound(nodes: seq<Node>, ids: seq<NodeId>)
    requires AllSound(nodes) && |ids| > 0
    requires AllCalculated(ChildStats(nodes, ids)).Some?
    ensures var s := Combine([], AllCalculated(ChildStats(nodes, ids)).value, 1.0);
      Total(s) == 1.0 && WellFormed(s)
  {
    var cs := AllCalculated(ChildStats(nodes, ids)).value;
    ChildStatsSound(nodes, ids);
    forall i | 0 <= i < |cs| ensures Total(cs[i]) == 1.0 && WellFormed(cs[i]) {
      assert ChildStats(nodes, ids)[i] == Some(cs[i]);
    }
    CombineConserves([], cs, 1.0);
    CombineWellFormed([], cs, 1.0);
  }

  /** Resolution stats summing to 1 give a non-empty address list whose weights sum to 1. */
  lemma WeightsSound(sr: Stats)
    requires Total(sr) == 1.0 && WellFormed(sr)
    ensures var w := ResolveWeights(sr);
      |Keys(w)| > 0 && SumWeights(Keys(w), w) == 1.0
  {
    var w := ResolveWeights(sr);
    ResolveWeightsTotal(sr);
    ResolveWeightsDistinct(sr);
    SumOverKeys(w);
  }

  /** A sound node's resolution keeps the node sound. */
  lemma ResolutionSound(nodes: seq<Node>, n: Node)
    requires AllSound(nodes) && NodeSound(n)
    requires ResolveStats(nodes, n).Some?
    ensures NodeSound(Resolution(n, ResolveStats(nodes, n).value))
  {
    if !Glueless(n) {
      CombinedSound(nodes, n.resolves.value);
    }
    WeightsSound(ResolveStats(nodes, n).value);
  }

  /** A sound node's answer sums to 1. */
  lemma AnswerSound(nodes: seq<Node>, n: Node)
    requires AllSound(nodes) && NodeSound(n)
    requires AnswerOf(nodes, n).Ok?
    ensures Total(AnswerOf(nodes, n).value) == 1.0
    ensures WellFormed(AnswerOf(nodes, n).value)
  {
    if n.server.None? {
      var list := Lookup(n.children.value, RootRoot).value;
      var k :| 0 <= k < |n.children.value| && n.children.value[k] == (RootRoot, list);
      CombinedSound(nodes, list);
    } else {
      var ips := n.serverips.value;
      InfoSound(nodes, n, ips);
      AnswerStatsConserve(ips, n.serverweights, n.statsResolve, InfoOf(nodes, n));
      AnswerStatsWellFormed(ips, n.serverweights, n.statsResolve, InfoOf(nodes, n), false);
    }
  }


  /** Children spawned from usable starters are sound. */
  lemma {:induction false} SpawnListSound(p: Node, pid: NodeId, starters: seq<Starter>, prefix: string, refkey: string, a: RefArgs)
    requires Usable(starters) || starters == []
    ensures AllSound(SpawnList(p, pid, starters, prefix, refkey, a))
  {
    if starters != [] {
      var init := starters[..|starters| - 1];
      assert Usable(init) || init == [] by {
        if init != [] {
          forall i | 0 <= i < |init| && init[i].ips.Some? ensures |init[i].ips.value| > 0 {
            assert init[i] == starters[i];
          }
        }
      }
      SpawnListSound(p, pid, init, prefix, refkey, a);
      SpawnSound(p, pid, starters[|starters| - 1], prefix + Decimal(|starters|), refkey, a);
    }
  }

  /** A child list after `map!` replaces `before` by `after`. */
  function SwapIds(l: seq<NodeId>, before: NodeId, after: NodeId): (r: seq<NodeId>)
    ensures |r| == |l|
  {
    seq(|l|, j requires 0 <= j < |l| => if l[j] == before then after else l[j])
  }

  /** Every child list after `replace_child(before, after)`. */
  function Swapped(h: Hash<ChildKey, seq<NodeId>>, before: NodeId, after: NodeId): (r: Hash<ChildKey, seq<NodeId>>)
    ensures |r| == |h|
  {
    seq(|h|, i requires 0 <= i < |h| => (h[i].0, SwapIds(h[i].1, before, after)))
  }

  /**
   * `replace_child` keeps every key and the length and order of every list,
   * puts `after` exactly where `before` was, and leaves no `before` behind.
   */
  lemma SwappedSpec(h: Hash<ChildKey, seq<NodeId>>, before: NodeId, after: NodeId)
    ensures Keys(Swapped(h, before, after)) == Keys(h)
    ensures forall i :: 0 <= i < |h| ==> |Swapped(h, before, after)[i].1| == |h[i].1|
    ensures forall i, j :: 0 <= i < |h| && 0 <= j < |h[i].1| ==>
      Swapped(h, before, after)[i].1[j] == (if h[i].1[j] == before then after else h[i].1[j])
    ensures before != after ==> forall i :: 0 <= i < |h| ==> before !in Swapped(h, before, after)[i].1
  {
    var r := Swapped(h, before, after);
    assert forall i :: 0 <= i < |h| ==> Keys(r)[i] == Keys(h)[i];
  }

  /** What `cleanup` leaves of a node: the parts not asked for are dropped; flags and stats stay. */
  function Cleaned(n: Node, keep: set<Part>): (r: Node)
    ensures r.stats == n.stats && r.statsResolve == n.statsResolve && r.calculated == n.calculated
    ensures r.processed == n.processed && r.serverips == n.serverips
  {
    n.(infocache := if KeepInfocache in keep then n.infocache else null,
       children := if KeepChildren in keep then n.children else None,
       resolves := if KeepResolves in keep then n.resolves else None,
       responses := if KeepResponses in keep then n.responses else None)
  }

  /** A lookup in a table that may have been dropped. */
  function LookupOpt<K(==), V>(h: Option<Hash<K, V>>, k: K): Option<V>
  {
    if h.Some? then Lookup(h.value, k) else None
  }

  /** `process_add_roots` joins the refid and the root's number with a dot unless the refid is empty. */
  function Dot(refid: string): string
  {
    if refid == "" then "" else "."
  }

  /** Every spawned child has the parent, the parent address and the query fields it was given. */
  lemma {:induction false} SpawnListFields(p: Node, pid: NodeId, starters: seq<Starter>, prefix: string, refkey: string, a: RefArgs)
    ensures var r := SpawnList(p, pid, starters, prefix, refkey, a);
      forall k :: 0 <= k < |r| ==>
        r[k].parent == Some(pid) && r[k].parentIp == a.parentIp && r[k].qname == a.qname &&
        r[k].qclass == a.qclass && r[k].qtype == a.qtype && r[k].nsatype == p.nsatype &&
        r[k].bailiwick == a.bailiwick && r[k].infocache == a.infocache &&
        r[k].referralResolution == a.referralResolution && !r[k].processed && !r[k].calculated
  {
    var r := SpawnList(p, pid, starters, prefix, refkey, a);
    forall k | 0 <= k < |r|
      ensures r[k].parent == Some(pid) && r[k].parentIp == a.parentIp && r[k].qname == a.qname &&
        r[k].qclass == a.qclass && r[k].qtype == a.qtype && r[k].nsatype == p.nsatype &&
        r[k].bailiwick == a.bailiwick && r[k].infocache == a.infocache &&
        r[k].referralResolution == a.referralResolution && !r[k].processed && !r[k].calculated
    {
      SpawnListAt(p, pid, starters, prefix, refkey, a, k);
    }
  }

  /** Storing a non-empty child list keeps a node sound. */
  lemma PutChildrenSound(n: Node, key: ChildKey, ids: seq<NodeId>)
    requires NodeSound(n) && n.children.Some? && |ids| > 0
    ensures NodeSound(n.(children := Some(Put(n.children.value, key, ids))))
  {
    var c := Put(n.children.value, key, ids);
    PutEntries(n.children.value, key, ids);
    forall i | 0 <= i < |c| ensures |c[i].1| > 0 {
      assert c[i] in c;
      if c[i] != (key, ids) {
        var j :| 0 <= j < |n.children.value| && n.children.value[j] == c[i];
      }
    }
  }

  /** Storing a child list of nodes that are there keeps a node linked. */
  lemma PutChildrenLinked(n: Node, key: ChildKey, ids: seq<NodeId>, bound: nat)
    requires NodeLinked(n, bound) && n.children.Some? && forall j :: 0 <= j < |ids| ==> ids[j] < bound
    ensures NodeLinked(n.(children := Some(Put(n.children.value, key, ids))), bound)
  {
    var c: Hash<ChildKey, seq<NodeId>> := Put(n.children.value, key, ids);
    PutEntries(n.children.value, key, ids);
    forall i | 0 <= i < |c| ensures forall j :: 0 <= j < |c[i].1| ==> c[i].1[j] < bound {
      var e := c[i];
      assert e in c;
      if e != (key, ids) {
        assert e in n.children.value;
        var k :| 0 <= k < |n.children.value| && n.children.value[k] == e;
      }
    }
  }

  /** Storing a response that answered with answers keeps a node sound. */
  lemma PutResponseSound(n: Node, ip: string, rs: Response)
    requires NodeSound(n) && n.responses.Some? && Present(OutcomeOf(rs))
    ensures NodeSound(n.(responses := Some(Put(n.responses.value, ip, rs))))
  {
    var c := Put(n.responses.value, ip, rs);
    PutEntries(n.responses.value, ip, rs);
    forall i | 0 <= i < |c| ensures Present(OutcomeOf(c[i].1)) {
      assert c[i] in c;
      if c[i] != (ip, rs) {
        var j :| 0 <= j < |n.responses.value| && n.responses.value[j] == c[i];
      }
    }
  }

  // ---------------------------------------------------------------------
  // What `process_normal` leaves behind

  /** The addresses `process_normal` queries: the ones `resolve_calculate` did not leave as placeholders. */
  predicate Queried(ip: string, ips: seq<string>)
  {
    ip in ips && !IsPlaceholder(ip)
  }

  /**
   * Node `p` after `process_normal` has gone through the addresses `ips`,
   * seen as `n`: only the responses and the children changed; every queried
   * address has a response, and a restart or referral also has a child
   * list; nothing else was added or replaced.
   */
  ghost predicate NormalAfter(p: Node, n: Node, ips: seq<string>)
  {
    n == p.(responses := n.responses, children := n.children) &&
    (forall ip :: Queried(ip, ips) ==> LookupOpt(n.responses, ip).Some?) &&
    (forall ip :: !Queried(ip, ips) ==> LookupOpt(n.responses, ip) == LookupOpt(p.responses, ip)) &&
    (forall ip :: (Queried(ip, ips) && LookupOpt(n.responses, ip).Some? &&
                   LookupOpt(n.responses, ip).value.status in {Restart, Referral}) ==>
       LookupOpt(n.children, Ip(ip)).Some?) &&
    LookupOpt(n.children, RootRoot) == LookupOpt(p.children, RootRoot) &&
    (forall ip :: !Queried(ip, ips) ==> LookupOpt(n.children, Ip(ip)) == LookupOpt(p.children, Ip(ip)))
  }

  /** Once the depth limit is reached, every response stored came from the max-depth error or from the memo as it was. */
  ghost predicate DepthGuarded(n: Node, ips: seq<string>, maxdepth: nat, memo: set<DecodedQuery>)
  {
    forall ip :: Queried(ip, ips) && LookupOpt(n.responses, ip).Some? ==>
      LookupOpt(n.responses, ip).value.decodedQuery.message == MaxdepthError(maxdepth) ||
      LookupOpt(n.responses, ip).value.decodedQuery in memo
  }

  /** Children spawned by `process_normal` on node `pid`: each asks from a queried address, in `p`'s class and type. */
  ghost predicate SpawnedBy(p: Node, pid: NodeId, ips: seq<string>, spawned: seq<Node>)
  {
    forall k :: 0 <= k < |spawned| ==>
      spawned[k].parent == Some(pid) && spawned[k].parentIp.Some? && Queried(spawned[k].parentIp.value, ips) &&
      spawned[k].qclass == p.qclass && spawned[k].qtype == p.qtype && spawned[k].nsatype == p.nsatype &&
      spawned[k].referralResolution == p.referralResolution && !spawned[k].processed && !spawned[k].calculated
  }

  /** A placeholder address is skipped: nothing changes. */
  lemma NormalSkip(p: Node, n: Node, ips: seq<string>, ip: string)
    requires NormalAfter(p, n, ips) && IsPlaceholder(ip)
    ensures NormalAfter(p, n, ips + [ip])
    ensures forall x :: Queried(x, ips + [ip]) <==> Queried(x, ips)
  {
  }

  /** One queried address: the response stored, and, for a restart or referral, the child list. */
  lemma NormalStep(p: Node, n: Node, ips: seq<string>, ip: string, rs: Response, ids: Option<seq<NodeId>>)
    requires NormalAfter(p, n, ips) && !IsPlaceholder(ip) && n.responses.Some?
    requires rs.status in {Restart, Referral} ==> ids.Some?
    requires ids.Some? ==> n.children.Some?
    ensures var n' := n.(responses := Some(Put(n.responses.value, ip, rs)),
                         children := if ids.Some? then Some(Put(n.children.value, Ip(ip), ids.value)) else n.children);
      NormalAfter(p, n', ips + [ip]) &&
      forall x :: LookupOpt(n'.responses, x) == if x == ip then Some(rs) else LookupOpt(n.responses, x)
  {
    var n' := n.(responses := Some(Put(n.responses.value, ip, rs)),
                 children := if ids.Some? then Some(Put(n.children.value, Ip(ip), ids.value)) else n.children);
    forall x
      ensures LookupOpt(n'.responses, x) == if x == ip then Some(rs) else LookupOpt(n.responses, x)
    {
      PutLookup(n.responses.value, ip, rs, x);
    }
    forall k
      ensures LookupOpt(n'.children, k) == if ids.Some? && k == Ip(ip) then ids else LookupOpt(n.children, k)
    {
      if ids.Some? {
        PutLookup(n.children.value, Ip(ip), ids.value, k);
      }
    }
  }

  /** The children of one more address join those spawned so far. */
  lemma SpawnedByAppend(p: Node, pid: NodeId, ips: seq<string>, ip: string, before: seq<Node>, more: seq<Node>)
    requires SpawnedBy(p, pid, ips, before) && Queried(ip, ips + [ip])
    requires forall k :: 0 <= k < |more| ==>
      more[k].parent == Some(pid) && more[k].parentIp == Some(ip) &&
      more[k].qclass == p.qclass && more[k].qtype == p.qtype && more[k].nsatype == p.nsatype &&
      more[k].referralResolution == p.referralResolution && !more[k].processed && !more[k].calculated
    ensures SpawnedBy(p, pid, ips + [ip], before + more)
  {
  }

  /** Two steps that each keep the nodes before them but for `id` keep the first prefix but for `id`. */
  lemma PrefixKept(base: seq<Node>, mid: seq<Node>, last: seq<Node>, id: NodeId)
    requires id < |base| <= |mid| <= |last|
    requires mid[..|base|] == base[id := mid[id]] && last[..|mid|] == mid[id := last[id]]
    ensures last[..|base|] == base[id := last[id]]
  {
    assert forall k :: 0 <= k < |base| ==> last[k] == last[..|mid|][k];
  }

  /** What follows the first prefix grows by what the second step appended. */
  lemma SuffixGrows(base: seq<Node>, mid: seq<Node>, last: seq<Node>, id: NodeId)
    requires id < |base| <= |mid| <= |last|
    requires last[..|mid|] == mid[id := last[id]]
    ensures last[|base|..] == mid[|base|..] + last[|mid|..]
  {
    assert forall k :: |base| <= k < |mid| ==> last[k] == last[..|mid|][k];
  }

  /** One more stored response keeps the depth guard, given the memo's new entries come from the max-depth error. */
  lemma DepthStep(n: Node, n': Node, done: seq<string>, ip: string, rs: Response, maxdepth: nat,
                  memo: set<DecodedQuery>, values: set<DecodedQuery>)
    requires DepthGuarded(n, done, maxdepth, memo)
    requires forall x :: LookupOpt(n'.responses, x) == if x == ip then Some(rs) else LookupOpt(n.responses, x)
    requires rs.decodedQuery.message == MaxdepthError(maxdepth) || rs.decodedQuery in values
    requires forall v :: v in values && v !in memo ==> v.message == MaxdepthError(maxdepth)
    ensures DepthGuarded(n', done + [ip], maxdepth, memo)
  {
    forall x | Queried(x, done + [ip]) && LookupOpt(n'.responses, x).Some?
      ensures LookupOpt(n'.responses, x).value.decodedQuery.message == MaxdepthError(maxdepth) ||
              LookupOpt(n'.responses, x).value.decodedQuery in memo
    {
      if x != ip {
        assert Queried(x, done);
      }
    }
  }

  /** The children spawned from `ip` appended after `before` keep `SpawnedBy` over the whole tail past `base`. */
  lemma SpawnedByTail(p: Node, id: NodeId, done: seq<string>, ip: string, base: seq<Node>, before: seq<Node>, after: seq<Node>)
    requires id < |base| <= |before| <= |after| && after[..|before|] == before[id := after[id]]
    requires SpawnedBy(p, id, done, before[|base|..]) && !IsPlaceholder(ip)
    requires forall k :: |before| <= k < |after| ==>
      after[k].parent == Some(id) && after[k].parentIp == Some(ip) &&
      after[k].qclass == p.qclass && after[k].qtype == p.qtype && after[k].nsatype == p.nsatype &&
      after[k].referralResolution == p.referralResolution && !after[k].processed && !after[k].calculated
    ensures SpawnedBy(p, id, done + [ip], after[|base|..])
  {
    var more := after[|before|..];
    assert forall k :: 0 <= k < |more| ==> more[k] == after[|before| + k];
    SpawnedByAppend(p, id, done, ip, before[|base|..], more);
    SuffixGrows(base, before, after, id);
  }

  /**
   * Node `id`, which was `p` in `base`, after `process_normal` has gone
   * through the addresses `done`: the nodes before it unchanged but for
   * `id`, the children spawned since appended, and, at the depth limit,
   * every decoded query memoised since (`memo` being the memo before) made
   * from the max-depth error.
   */
  ghost predicate NormalState(nodes: seq<Node>, values: set<DecodedQuery>, id: NodeId, p: Node, base: seq<Node>,
                              done: seq<string>, memo: set<DecodedQuery>, maxdepth: nat)
  {
    id < |base| <= |nodes| && base[id] == p && nodes[..|base|] == base[id := nodes[id]] &&
    NormalAfter(p, nodes[id], done) &&
    SpawnedBy(p, id, done, nodes[|base|..]) &&
    (CountDots(p.refid) >= maxdepth ==>
      DepthGuarded(nodes[id], done, maxdepth, memo) &&
      forall v :: v in values && v !in memo ==> v.message == MaxdepthError(maxdepth))
  }

  /** One queried address, as `NormalAddress` does it, moves `NormalState` on by that address. */
  lemma NormalStateStep(base: seq<Node>, before: seq<Node>, after: seq<Node>, values: set<DecodedQuery>,
                        values': set<DecodedQuery>, id: NodeId, p: Node, done: seq<string>, memo: set<DecodedQuery>,
                        maxdepth: nat, ip: string, rs: Response, ids: Option<seq<NodeId>>)
    requires NormalState(before, values, id, p, base, done, memo, maxdepth) && !IsPlaceholder(ip)
    requires |after| >= |before| && after[..|before|] == before[id := after[id]]
    requires before[id].responses.Some? && (ids.Some? ==> before[id].children.Some?)
    requires rs.status in {Restart, Referral} <==> ids.Some?
    requires after[id] == before[id].(responses := Some(Put(before[id].responses.value, ip, rs)),
      children := if ids.Some? then Some(Put(before[id].children.value, Ip(ip), ids.value)) else before[id].children)
    requires ids.None? ==> |after| == |before|
    requires forall k :: |before| <= k < |after| ==>
      after[k].parent == Some(id) && after[k].parentIp == Some(ip) &&
      after[k].qclass == p.qclass && after[k].qtype == p.qtype && after[k].nsatype == p.nsatype &&
      after[k].referralResolution == p.referralResolution && !after[k].processed && !after[k].calculated
    requires CountDots(p.refid) >= maxdepth ==>
      (rs.decodedQuery.message == MaxdepthError(maxdepth) || rs.decodedQuery in values) &&
      forall v :: v in values' && v !in values ==> v.message == MaxdepthError(maxdepth)
    ensures NormalState(after, values', id, p, base, done + [ip], memo, maxdepth)
  {
    NormalNodesStep(base, before, after, values, values', id, p, done, memo, maxdepth, ip, rs, ids);
    if CountDots(p.refid) >= maxdepth {
      NormalDepthStep(before[id], after[id], values, values', done, memo, maxdepth, ip, rs);
    }
  }

  /** The node and tree half of `NormalStateStep`: the prefix, the node's stored answers and the spawned tail. */
  lemma NormalNodesStep(base: seq<Node>, before: seq<Node>, after: seq<Node>, values: set<DecodedQuery>,
                        values': set<DecodedQuery>, id: NodeId, p: Node, done: seq<string>, memo: set<DecodedQuery>,
                        maxdepth: nat, ip: string, rs: Response, ids: Option<seq<NodeId>>)
    requires NormalState(before, values, id, p, base, done, memo, maxdepth) && !IsPlaceholder(ip)
    requires |after| >= |before| && after[..|before|] == before[id := after[id]]
    requires before[id].responses.Some? && (ids.Some? ==> before[id].children.Some?)
    requires rs.status in {Restart, Referral} <==> ids.Some?
    requires after[id] == before[id].(responses := Some(Put(before[id].responses.value, ip, rs)),
      children := if ids.Some? then Some(Put(before[id].children.value, Ip(ip), ids.value)) else before[id].children)
    requires ids.None? ==> |after| == |before|
    requires forall k :: |before| <= k < |after| ==>
      after[k].parent == Some(id) && after[k].parentIp == Some(ip) &&
      after[k].qclass == p.qclass && after[k].qtype == p.qtype && after[k].nsatype == p.nsatype &&
      after[k].referralResolution == p.referralResolution && !after[k].processed && !after[k].calculated
    requires CountDots(p.refid) >= maxdepth ==>
      (rs.decodedQuery.message == MaxdepthError(maxdepth) || rs.decodedQuery in values) &&
      forall v :: v in values' && v !in values ==> v.message == MaxdepthError(maxdepth)
    ensures id < |base| <= |after| && base[id] == p && after[..|base|] == base[id := after[id]]
    ensures NormalAfter(p, after[id], done + [ip]) && SpawnedBy(p, id, done + [ip], after[|base|..])
  {
    PrefixKept(base, before, after, id);
    NormalStep(p, before[id], done, ip, rs, ids);
    SpawnedByTail(p, id, done, ip, base, before, after);
  }

  /** The depth half of `NormalStateStep`: the guard on stored answers and the memo's new entries. */
  lemma NormalDepthStep(n: Node, n': Node, values: set<DecodedQuery>, values': set<DecodedQuery>, done: seq<string>,
                        memo: set<DecodedQuery>, maxdepth: nat, ip: string, rs: Response)
    requires DepthGuarded(n, done, maxdepth, memo)
    requires forall v :: v in values && v !in memo ==> v.message == MaxdepthError(maxdepth)
    requires n.responses.Some? && n'.responses == Some(Put(n.responses.value, ip, rs))
    requires rs.decodedQuery.message == MaxdepthError(maxdepth) || rs.decodedQuery in values
    requires forall v :: v in values' && v !in values ==> v.message == MaxdepthError(maxdepth)
    ensures DepthGuarded(n', done + [ip], maxdepth, memo)
    ensures forall v :: v in values' && v !in memo ==> v.message == MaxdepthError(maxdepth)
  {
    forall x
      ensures LookupOpt(n'.responses, x) == if x == ip then Some(rs) else LookupOpt(n.responses, x)
    {
      PutLookup(n.responses.value, ip, rs, x);
    }
    DepthStep(n, n', done, ip, rs, maxdepth, memo, values);
  }

  /** Referrals spawned from `ip` under node `id` carry its question and are neither processed nor calculated. */
  lemma SpawnedTailFields(before: seq<Node>, after: seq<Node>, id: NodeId, ip: string, p: Node, q: Node,
                          starters: seq<Starter>, prefix: string, refkey: string, a: RefArgs)
    requires |after| >= |before|
    requires after[|before|..] == SpawnList(q, id, starters, prefix, refkey, a)
    requires a.parentIp == Some(ip) && a.qclass == p.qclass && a.qtype == p.qtype && q.nsatype == p.nsatype &&
      a.referralResolution == p.referralResolution
    ensures forall k :: |before| <= k < |after| ==>
      after[k].parent == Some(id) && after[k].parentIp == Some(ip) &&
      after[k].qclass == p.qclass && after[k].qtype == p.qtype && after[k].nsatype == p.nsatype &&
      after[k].referralResolution == p.referralResolution && !after[k].processed && !after[k].calculated
  {
    var spawned := after[|before|..];
    SpawnListFields(q, id, starters, prefix, refkey, a);
    assert forall k :: |before| <= k < |after| ==> after[k] == spawned[k - |before|];
  }

  /** `NormalStateStep` in the terms `StoreResponse` promises: the stored response and the spawned referrals. */
  lemma StoredStep(base: seq<Node>, before: seq<Node>, after: seq<Node>, values: set<DecodedQuery>,
                   values': set<DecodedQuery>, id: NodeId, p: Node, done: seq<string>, memo: set<DecodedQuery>,
                   maxdepth: nat, ip: string, rs: Response)
    requires NormalState(before, values, id, p, base, done, memo, maxdepth) && !IsPlaceholder(ip)
    requires CountDots(p.refid) >= maxdepth ==>
      (rs.decodedQuery.message == MaxdepthError(maxdepth) || rs.decodedQuery in values) &&
      forall v :: v in values' && v !in values ==> v.message == MaxdepthError(maxdepth)
    requires rs.status == Restart || rs.status == Referral ==> rs.starters.Some? && rs.decodedQuery.decoded.endname.Some?
    requires |after| >= |before| && after[..|before|] == before[id := after[id]]
    requires var q := before[id];
      var n := after[id];
      q.responses.Some? && n == q.(responses := Some(Put(q.responses.value, ip, rs)), children := n.children) &&
      (rs.status != Restart && rs.status != Referral ==> n.children == q.children && |after| == |before|) &&
      (rs.status == Restart || rs.status == Referral ==>
        q.children.Some? &&
        n.children == Some(Put(q.children.value, Ip(ip), Range(|before|, |after|))) &&
        after[|before|..] ==
          SpawnList(q, id, rs.starters.value, q.refid + ".", q.refkey + "." + Decimal(|rs.starters.value|),
            RefArgs(rs.decodedQuery.decoded.endname.value, q.qclass, q.qtype, rs.startersBailiwick, rs.infocache,
                    Some(ip), q.referralResolution)))
    ensures NormalState(after, values', id, p, base, done + [ip], memo, maxdepth)
  {
    var q := before[id];
    if rs.status in {Restart, Referral} {
      var a := RefArgs(rs.decodedQuery.decoded.endname.value, q.qclass, q.qtype, rs.startersBailiwick, rs.infocache,
                       Some(ip), q.referralResolution);
      SpawnedTailFields(before, after, id, ip, p, q, rs.starters.value, q.refid + ".",
                        q.refkey + "." + Decimal(|rs.starters.value|), a);
      NormalStateStep(base, before, after, values, values', id, p, done, memo, maxdepth, ip, rs,
                      Some(Range(|before|, |after|)));
    } else {
      NormalStateStep(base, before, after, values, values', id, p, done, memo, maxdepth, ip, rs, None);
    }
  }

  /**
   * `process_normal` has run on node `id`, which was `p` in `base`: the
   * nodes before it unchanged but for `id`, whose responses and children
   * (whatever its processed flag) are those of every queried address, the
   * nodes after them its new children, and the depth guard kept.
   */
  ghost predicate ProcessedNormally(p: Node, id: NodeId, base: seq<Node>, nodes: seq<Node>, maxdepth: nat,
                                    memo: set<DecodedQuery>)
  {
    id < |base| <= |nodes| && nodes[..|base|] == base[id := nodes[id]] && p.serverips.Some? &&
    NormalAfter(p, nodes[id].(processed := p.processed), p.serverips.value) &&
    SpawnedBy(p, id, p.serverips.value, nodes[|base|..]) &&
    (CountDots(p.refid) >= maxdepth ==> DepthGuarded(nodes[id], p.serverips.value, maxdepth, memo))
  }

  /**
   * `process_add_roots` has run on node `id`, which was `p` in `base`: its
   * only other change is the `:rootroot` list, the nodes after `base`, which
   * are its children asking its own query with no bailiwick.
   */
  ghost predicate RootsAdded(p: Node, id: NodeId, base: seq<Node>, nodes: seq<Node>)
  {
    id < |base| <= |nodes| && nodes[..|base|] == base[id := nodes[id]] && p.children.Some? &&
    nodes[id].(processed := p.processed) == p.(children := Some(Put(p.children.value, RootRoot, Range(|base|, |nodes|)))) &&
    nodes[|base|..] ==
      SpawnList(p, id, StartersOf(nodes[|base|..]), p.refid + Dot(p.refid), p.refkey + Dot(p.refid) + Decimal(|nodes| - |base|),
                RefArgs(p.qname, p.qclass, p.qtype, None, p.infocache, None, p.referralResolution))
  }

  /** Marking the node processed keeps what either kind of processing did. */
  lemma MarkedKeeps(p: Node, id: NodeId, base: seq<Node>, nodes: seq<Node>, maxdepth: nat, memo: set<DecodedQuery>)
    requires id < |nodes|
    ensures var marked := nodes[id := nodes[id].(processed := true)];
      (ProcessedNormally(p, id, base, nodes, maxdepth, memo) ==> ProcessedNormally(p, id, base, marked, maxdepth, memo)) &&
      (RootsAdded(p, id, base, nodes) ==> RootsAdded(p, id, base, marked))
  {
    var marked := nodes[id := nodes[id].(processed := true)];
    assert marked[id].(processed := p.processed) == nodes[id].(processed := p.processed);
    if id < |base| <= |nodes| {
      assert marked[|base|..] == nodes[|base|..];
      assert marked[..|base|] == nodes[..|base|][id := marked[id]];
    }
  }

  /** Either kind of processing leaves the node's calculation as it was. */
  lemma ProcessKeepsCalculation(p: Node, id: NodeId, base: seq<Node>, nodes: seq<Node>, maxdepth: nat, memo: set<DecodedQuery>)
    requires ProcessedNormally(p, id, base, nodes, maxdepth, memo) || RootsAdded(p, id, base, nodes)
    ensures nodes[id].calculated == p.calculated && nodes[id].stats == p.stats
  {
    var n := nodes[id].(processed := p.processed);
    assert n.calculated == nodes[id].calculated && n.stats == nodes[id].stats;
  }

  /** Appending the children spawned by node `pid` keeps the arena sound and closed. */
  lemma SpawnedClosed(base: seq<Node>, pid: NodeId, starters: seq<Starter>, prefix: string, refkey: string, a: RefArgs)
    requires AllSound(base) && AllLinked(base) && pid < |base| && Usable(starters)
    ensures var nodes := base + SpawnList(base[pid], pid, starters, prefix, refkey, a);
      AllSound(nodes) && AllLinked(nodes) && forall id :: |base| <= id < |nodes| ==> nodes[id].infocache == a.infocache
  {
    var spawned := SpawnList(base[pid], pid, starters, prefix, refkey, a);
    SpawnListSound(base[pid], pid, starters, prefix, refkey, a);
    var bound := |base| + |spawned|;
    SpawnListLinked(base[pid], pid, starters, prefix, refkey, a, bound);
    assert forall k :: 0 <= k < |spawned| ==> NodeLinked(spawned[k], bound);
    AppendClosed(base, spawned);
  }

  /** The spawned children refer only to their parent, and carry the cache they were given. */
  lemma SpawnListLinked(p: Node, pid: NodeId, starters: seq<Starter>, prefix: string, refkey: string, a: RefArgs,
                        bound: nat)
    requires pid < bound
    ensures forall k :: 0 <= k < |starters| ==>
      NodeLinked(SpawnList(p, pid, starters, prefix, refkey, a)[k], bound) &&
      SpawnList(p, pid, starters, prefix, refkey, a)[k].infocache == a.infocache
  {
    var r := SpawnList(p, pid, starters, prefix, refkey, a);
    forall k | 0 <= k < |r|
      ensures NodeLinked(r[k], bound) && r[k].infocache == a.infocache
    {
      SpawnListAt(p, pid, starters, prefix, refkey, a, k);
    }
  }

  /** Sound nodes linked within the longer arena, appended to a closed arena, keep it sound and closed. */
  lemma AppendClosed(base: seq<Node>, more: seq<Node>)
    requires AllSound(base) && AllLinked(base) && AllSound(more)
    requires forall k :: 0 <= k < |more| ==> NodeLinked(more[k], |base| + |more|)
    ensures AllSound(base + more) && AllLinked(base + more)
  {
    var nodes := base + more;
    forall id | 0 <= id < |nodes|
      ensures NodeSound(nodes[id]) && NodeLinked(nodes[id], |nodes|)
    {
      if id < |base| {
        assert nodes[id] == base[id];
        LinkedGrows(base[id], |base|, |nodes|);
      } else {
        assert nodes[id] == more[id - |base|];
      }
    }
  }

  // ---------------------------------------------------------------------
  // The arena

  /** The root-root node: no server, the roots to be added as its children. */
  function RootNode(qname: string, qclass: string, qtype: string, nsatype: string, cache: InfoCache): Node
  {
    Node(None, None, qname, qclass, qtype, nsatype, "", "", None, None, None, false, cache,
         None, Some([]), Some([]), None, None, [], false, false)
  }

  /** `Referral.new` for a child: the fields merged from the parent, the weights set by a loop. */
  method NewReferral(p: Node, pid: NodeId, s: Starter, refid: string, refkey: string, a: RefArgs) returns (n: Node)
    ensures n == Spawn(p, pid, s, refid, refkey, a)
  {
    var w: Weights := [];
    if s.ips.Some? {
      w := InitialServerWeights(s.ips.value);
    }
    n := Node(Some(s.name), s.ips, a.qname, a.qclass, a.qtype, p.nsatype, refid, refkey, a.bailiwick, Some(pid),
              a.parentIp, a.referralResolution, a.infocache, None, Some([]), Some([]), None, None, w, false, false);
  }

  /**
   * The nodes of one traversal, a node's id being its place in `nodes`.
   * Every node's cache is one of `Caches`, a set closed under parents whose
   * caches are all valid; every node is sound.
   */
  class Tree {
    var nodes: seq<Node>
    ghost var Caches: set<InfoCache>
    const dqc: DecodedQueryCache
    const maxdepth: nat

    ghost predicate Valid()
      reads this`nodes, this`Caches
    {
      forall id :: 0 <= id < |nodes| && nodes[id].infocache != null ==> nodes[id].infocache in Caches
    }

    ghost predicate CachesValid()
      reads this`Caches, Caches
    {
      forall c :: c in Caches ==> c.Repr <= Caches && c.Valid()
    }

    ghost predicate Sound()
      reads this`nodes
    {
      AllSound(nodes) && AllLinked(nodes)
    }

    /**
     * `Referral.new` for the root-root node: class IN, type A and address
     * type A unless given, depth 10 unless given, a fresh cache holding the
     * root hints when they are given.
     */
    constructor(dqc: DecodedQueryCache, maxdepth: Option<nat>, qname: string, qclass: Option<string>,
                qtype: Option<string>, nsatype: Option<string>, roots: Option<seq<Server>>)
      ensures Valid() && CachesValid() && Sound()
      ensures this.dqc == dqc && this.maxdepth == maxdepth.GetOr(10) && |nodes| == 1
      ensures nodes[0].infocache != null && fresh(nodes[0].infocache) && nodes[0].infocache.parent == null
      ensures nodes[0] == RootNode(qname, qclass.GetOr("IN"), qtype.GetOr("A"), nsatype.GetOr("A"), nodes[0].infocache)
      ensures nodes[0].infocache.data == if roots.Some? then Replaced(map[], HintRecords("", roots.value)) else map[]
    {
      var cache := new InfoCache(null);
      if roots.Some? {
        cache.AddHints("", roots.value);
      }
      this.dqc := dqc;
      this.maxdepth := maxdepth.GetOr(10);
      nodes := [RootNode(qname, qclass.GetOr("IN"), qtype.GetOr("A"), nsatype.GetOr("A"), cache)];
      Caches := {cache};
    }

    /** One node replaced by a sound one whose cache is known. */
    method SetNode(id: NodeId, n: Node)
      requires Valid() && Sound() && id < |nodes| && NodeSound(n) && NodeLinked(n, |nodes|)
      requires n.infocache != null ==> n.infocache in Caches
      modifies this`nodes
      ensures Valid() && Sound()
      ensures nodes == old(nodes)[id := n]
    {
      nodes := nodes[id := n];
    }

    /**
     * The children `resolve`, `process_add_roots` and `make_referrals`
     * create: one per starter, numbered `prefix1`, `prefix2`, ..., added
     * after the nodes there are.
     */
    method SpawnAll(pid: NodeId, starters: seq<Starter>, prefix: string, refkey: string, a: RefArgs)
      returns (ids: seq<NodeId>)
      requires Valid() && Sound() && pid < |nodes|
      requires Usable(starters)
      requires a.infocache != null ==> a.infocache in Caches
      modifies this`nodes
      ensures Valid() && Sound()
      ensures nodes == old(nodes) + SpawnList(old(nodes)[pid], pid, starters, prefix, refkey, a)
      ensures ids == Range(|old(nodes)|, |nodes|)
    {
      var p := nodes[pid];
      ids := [];
      for k := 0 to |starters|
        invariant nodes == old(nodes) + SpawnList(p, pid, starters[..k], prefix, refkey, a)
        invariant ids == Range(|old(nodes)|, |nodes|)
      {
        assert starters[..k + 1][..k] == starters[..k];
        var n := NewReferral(p, pid, starters[k], prefix + Decimal(k + 1), refkey, a);
        ids := ids + [|nodes|];
        nodes := nodes + [n];
      }
      assert starters[..|starters|] == starters;
      SpawnedClosed(old(nodes), pid, starters, prefix, refkey, a);
    }

    /** The resolve children of `resolve`, spawned from the given starters and appended to the node's list. */
    method AddResolves(id: NodeId, starters: seq<Starter>, bailiwick: string) returns (list: seq<NodeId>)
      requires Valid() && Sound() && id < |nodes| && Usable(starters)
      requires !Resolved(nodes[id])
      modifies this`nodes
      ensures Valid() && Sound() && |nodes| == |old(nodes)| + |starters|
      ensures var p := old(nodes)[id];
        list == p.resolves.GetOr([]) + Range(|old(nodes)|, |nodes|) &&
        nodes[..|old(nodes)|] == old(nodes)[id := p.(resolves := Some(list))] &&
        nodes[|old(nodes)|..] == SpawnList(p, id, starters, p.refid + ".0.", p.refkey + ".0." + Decimal(|starters|),
          RefArgs(p.server.value, "IN", p.nsatype, Some(bailiwick), p.infocache, None, true))
    {
      var p := nodes[id];
      var a := RefArgs(p.server.value, "IN", p.nsatype, Some(bailiwick), p.infocache, None, true);
      var ids := SpawnAll(id, starters, p.refid + ".0.", p.refkey + ".0." + Decimal(|starters|), a);
      list := p.resolves.GetOr([]) + ids;
      ghost var before := nodes;
      SetNode(id, p.(resolves := Some(list)));
      assert nodes[|old(nodes)|..] == before[|old(nodes)|..];
    }

    /**
     * `resolve`: an error once resolved; nothing for a glueless server;
     * otherwise one address-resolution child per start server of the
     * server's name, asking for its `nsatype` records in class IN within the
     * bailiwick the cache gives, added to the resolve children that are
     * returned.
     */
    method Resolve(id: NodeId) returns (r: Result<seq<NodeId>>)
      requires Valid() && CachesValid() && Sound() && id < |nodes|
      modifies this`nodes
      ensures Valid() && Sound() && |nodes| >= |old(nodes)|
      ensures var p := old(nodes)[id];
        (Resolved(p) ==> r.Err? && nodes == old(nodes)) &&
        (!Resolved(p) && Glueless(p) ==> r == Ok([]) && nodes == old(nodes)) &&
        (!Resolved(p) && !Glueless(p) ==>
          (r.Err? <==> p.infocache == null || p.infocache.GetNs(p.server.value).Err?) &&
          (r.Err? ==> nodes == old(nodes)) && (r.Ok? ==> r.value != []))
      ensures r.Ok? && r.value != [] ==>
        var p := old(nodes)[id];
        var children := nodes[|old(nodes)|..];
        |children| > 0 && children[0].bailiwick.Some? && !Resolved(p) && p.infocache != null &&
        r.value == p.resolves.GetOr([]) + Range(|old(nodes)|, |nodes|) &&
        nodes[..|old(nodes)|] == old(nodes)[id := p.(resolves := Some(r.value))] &&
        p.infocache.StartServersOf(p.server.value, "A", StartersOf(children), children[0].bailiwick.value) &&
        children == SpawnList(p, id, StartersOf(children), p.refid + ".0.", p.refkey + ".0." + Decimal(|children|),
                              RefArgs(p.server.value, "IN", p.nsatype, children[0].bailiwick, p.infocache, None, true))
    {
      var p := nodes[id];
      if Resolved(p) {
        return Err("This Referral object has already been resolved");
      }
      if Glueless(p) {
        return Ok([]);
      }
      if p.infocache == null {
        return Err("undefined method get_startservers for nil");
      }
      var found := p.infocache.GetStartServers(p.server.value, "A");
      if found.Err? {
        return Err(found.error);
      }
      var (starters, newBailiwick) := found.value;
      p.infocache.StartServersUsable(p.server.value, "A", starters, newBailiwick);
      var list := AddResolves(id, starters, newBailiwick);
      ghost var children := nodes[|old(nodes)|..];
      ghost var refkey := p.refkey + ".0." + Decimal(|starters|);
      ghost var a := RefArgs(p.server.value, "IN", p.nsatype, Some(newBailiwick), p.infocache, None, true);
      SpawnListStarters(p, id, starters, p.refid + ".0.", refkey, a);
      SpawnListAt(p, id, starters, p.refid + ".0.", refkey, a, 0);
      return Ok(list);
    }

    /**
     * `resolve_calculate`: the resolution stats, the address weights they
     * give and those weights' keys as the server's addresses. An error (nil
     * in Ruby) when the resolve children are missing or not calculated.
     */
    method ResolveCalculate(id: NodeId) returns (r: Result<()>)
      requires Valid() && Sound() && id < |nodes|
      modifies this`nodes
      ensures Valid() && Sound()
      ensures r.Ok? <==> ResolveStats(old(nodes), old(nodes)[id]).Some?
      ensures r.Err? ==> nodes == old(nodes)
      ensures r.Ok? ==>
        nodes == old(nodes)[id := Resolution(old(nodes)[id], ResolveStats(old(nodes), old(nodes)[id]).value)]
    {
      var p := nodes[id];
      var sr: Stats;
      if Glueless(p) {
        var g := NoGlueOf(p);
        var o := Outcome(g.Status(), [], g.StatsKey());
        sr := [(o.key, Entry(1.0, o))];
      } else {
        if p.resolves.None? {
          return Err("undefined method length for nil");
        }
        var cs := AllCalculated(ChildStats(nodes, p.resolves.value));
        if cs.None? {
          return Err("undefined method each_pair for nil");
        }
        sr := StatsCalculateChildren([], cs.value, 1.0);
      }
      var w := WeighResolution(sr);
      ResolutionSound(nodes, p);
      SetNode(id, p.(statsResolve := Some(sr), serverweights := w, serverips := Some(Keys(w))));
      return Ok(());
    }

    /**
     * `answer_calculate`: the node's stats, which sum to 1, and the
     * calculated flag. An error when something the calculation reads is nil.
     */
    method AnswerCalculate(id: NodeId) returns (r: Result<()>)
      requires Valid() && Sound() && id < |nodes|
      modifies this`nodes
      ensures Valid() && Sound()
      ensures r.Ok? <==> AnswerOf(old(nodes), old(nodes)[id]).Ok?
      ensures r.Err? ==> nodes == old(nodes)
      ensures r.Ok? ==>
        nodes == old(nodes)[id := old(nodes)[id].(stats := Some(AnswerOf(old(nodes), old(nodes)[id]).value), calculated := true)]
      ensures r.Ok? ==> Total(nodes[id].stats.value) == 1.0
    {
      var p := nodes[id];
      var s: Stats;
      if p.server.None? {
        if p.children.None? {
          return Err("undefined method for nil");
        }
        var roots := Lookup(p.children.value, RootRoot);
        if roots.None? {
          return Err("undefined method for nil");
        }
        var cs := AllCalculated(ChildStats(nodes, roots.value));
        if cs.None? {
          return Err("undefined method for nil");
        }
        s := StatsCalculateChildren([], cs.value, 1.0);
      } else {
        if p.serverips.None? {
          return Err("undefined method for nil");
        }
        var res := AnswerLoop(p.serverips.value, p.serverweights, p.statsResolve, InfoOf(nodes, p));
        if res.Err? {
          return Err(res.error);
        }
        s := res.value;
      }
      AnswerSound(nodes, p);
      SetNode(id, p.(stats := Some(s), calculated := true));
      return Ok(());
    }

    /** `replace_child`: `map!` over every child list of the node. */
    method ReplaceChild(id: NodeId, before: NodeId, after: NodeId) returns (r: Result<()>)
      requires Valid() && Sound() && id < |nodes| && after < |nodes|
      modifies this`nodes
      ensures Valid() && Sound()
      ensures r.Err? <==> old(nodes)[id].children.None?
      ensures r.Err? ==> nodes == old(nodes)
      ensures r.Ok? ==>
        nodes == old(nodes)[id := old(nodes)[id].(children := Some(Swapped(old(nodes)[id].children.value, before, after)))]
    {
      var p := nodes[id];
      if p.children.None? {
        return Err("undefined method each_key for nil");
      }
      var h := p.children.value;
      var out := h;
      for i := 0 to |h|
        invariant |out| == |h|
        invariant forall k :: 0 <= k < i ==> out[k] == Swapped(h, before, after)[k]
        invariant forall k :: i <= k < |h| ==> out[k] == h[k]
      {
        var list := out[i].1;
        var mapped := list;
        for j := 0 to |list|
          invariant |mapped| == |list|
          invariant forall m :: 0 <= m < j ==> mapped[m] == (if list[m] == before then after else list[m])
          invariant forall m :: j <= m < |list| ==> mapped[m] == list[m]
        {
          if mapped[j] == before {
            mapped := mapped[j := after];
          }
        }
        assert mapped == SwapIds(h[i].1, before, after);
        out := out[i := (out[i].0, mapped)];
      }
      assert out == Swapped(h, before, after);
      SwappedSpec(h, before, after);
      SetNode(id, p.(children := Some(out)));
      return Ok(());
    }

    /** `cleanup(keep)`: the parts of the node not asked for are dropped. */
    method Cleanup(id: NodeId, keep: set<Part>)
      requires Valid() && Sound() && id < |nodes|
      modifies this`nodes
      ensures Valid() && Sound()
      ensures nodes == old(nodes)[id := Cleaned(old(nodes)[id], keep)]
    {
      SetNode(id, Cleaned(nodes[id], keep));
    }

    /**
     * `make_referrals`: one child per start server of the response, asking
     * for the name its CNAME chain ended at within the new bailiwick, on the
     * response's cache, from the address that referred; numbered
     * `<refid>.1`, `<refid>.2`, ... .
     */
    method MakeReferrals(id: NodeId, ip: string, rs: Response) returns (ids: seq<NodeId>)
      requires Valid() && CachesValid() && Sound() && id < |nodes|
      requires rs.infocache != null && rs.infocache.Valid() && rs.infocache.Repr <= Caches + {rs.infocache}
      requires rs.starters.Some? && Usable(rs.starters.value) && rs.decodedQuery.decoded.endname.Some?
      modifies this`nodes, this`Caches
      ensures Valid() && CachesValid() && Sound() && Caches == old(Caches) + {rs.infocache}
      ensures var p := old(nodes)[id];
        nodes == old(nodes) + SpawnList(p, id, rs.starters.value, p.refid + ".", p.refkey + "." + Decimal(|rs.starters.value|),
          RefArgs(rs.decodedQuery.decoded.endname.value, p.qclass, p.qtype, rs.startersBailiwick, rs.infocache, Some(ip),
                  p.referralResolution))
      ensures ids == Range(|old(nodes)|, |nodes|)
    {
      Caches := Caches + {rs.infocache};
      var p := nodes[id];
      var starters := rs.starters.value;
      var a := RefArgs(rs.decodedQuery.decoded.endname.value, p.qclass, p.qtype, rs.startersBailiwick, rs.infocache,
                       Some(ip), p.referralResolution);
      ids := SpawnAll(id, starters, p.refid + ".", p.refkey + "." + Decimal(|starters|), a);
    }

    /**
     * The response `process_normal` makes for one address of a node: the
     * query of the node's name, class and type within its bailiwick on a
     * child of its cache, made from the max-depth error once the refid is
     * `maxdepth` dots deep (unless the decoded query is already memoised).
     */
    method QueryIp(p: Node, ip: string) returns (r: Result<Response>)
      requires dqc.Valid() && (p.infocache != null ==> p.infocache.Valid())
      modifies dqc, dqc.resolver
      ensures dqc.Valid()
      ensures CountDots(p.refid) >= maxdepth ==>
        forall v :: v in dqc.cache.Values && v !in old(dqc.cache).Values ==> v.message == MaxdepthError(maxdepth)
      ensures r.Ok? ==>
        var rs := r.value;
        fresh(rs) && rs.infocache != null && fresh(rs.infocache) && rs.infocache.Valid() &&
        rs.infocache.parent == p.infocache && Present(OutcomeOf(rs)) &&
        (CountDots(p.refid) >= maxdepth ==>
          rs.decodedQuery.message == MaxdepthError(maxdepth) ||
          rs.decodedQuery in old(dqc.cache).Values) &&
        (rs.status == Restart || rs.status == Referral ==>
          rs.starters.Some? && Usable(rs.starters.value) && rs.decodedQuery.decoded.endname.Some?)
    {
      var m := QueryMessage(p.refid, maxdepth);
      r := DnstraverseResponses.New(dqc, Some(p.qname), Some(p.qclass), Some(p.qtype), Some(ip), p.bailiwick, m,
                                    p.infocache);
      if r.Ok? {
        DnstraverseResponses.Carries(r.value);
      }
    }

    /**
     * The referral half of `StoreResponse`: the children `rs` names spawned
     * under `ip`, and `stored` put in the node's place with their list
     * under `ip`.
     */
    method StoreReferrals(id: NodeId, ip: string, rs: Response, stored: Node) returns (ids: seq<NodeId>)
      requires Valid() && CachesValid() && Sound() && id < |nodes|
      requires rs.infocache != null && rs.infocache.Valid() && rs.infocache.parent == nodes[id].infocache
      requires rs.starters.Some? && Usable(rs.starters.value) && rs.decodedQuery.decoded.endname.Some?
      requires stored == nodes[id].(responses := stored.responses) && stored.children.Some? && NodeSound(stored)
      modifies this`nodes, this`Caches
      ensures Valid() && CachesValid() && Sound() && old(Caches) <= Caches
      ensures |nodes| >= |old(nodes)| && nodes[..|old(nodes)|] == old(nodes)[id := nodes[id]]
      ensures ids == Range(|old(nodes)|, |nodes|)
      ensures nodes[id] == stored.(children := Some(Put(stored.children.value, Ip(ip), ids)))
      ensures var p := old(nodes)[id];
        nodes[|old(nodes)|..] ==
          SpawnList(p, id, rs.starters.value, p.refid + ".", p.refkey + "." + Decimal(|rs.starters.value|),
            RefArgs(rs.decodedQuery.decoded.endname.value, p.qclass, p.qtype, rs.startersBailiwick, rs.infocache,
                    Some(ip), p.referralResolution))
    {
      ids := MakeReferrals(id, ip, rs);
      ghost var spawned := nodes;
      PutChildrenSound(stored, Ip(ip), ids);
      LinkedGrows(stored, |old(nodes)|, |nodes|);
      PutChildrenLinked(stored, Ip(ip), ids, |nodes|);
      SetNode(id, stored.(children := Some(Put(stored.children.value, Ip(ip), ids))));
      assert nodes[|old(nodes)|..] == spawned[|old(nodes)|..];
    }

    /**
     * The rest of one address of `process_normal`: the response stored
     * under the address; a restart or referral also spawns its children
     * under the address.
     */
    method StoreResponse(id: NodeId, ip: string, rs: Response) returns (r: Result<()>)
      requires Valid() && CachesValid() && Sound() && id < |nodes|
      requires rs.infocache != null && rs.infocache.Valid() && rs.infocache.parent == nodes[id].infocache
      requires Present(OutcomeOf(rs))
      requires rs.status == Restart || rs.status == Referral ==>
        rs.starters.Some? && Usable(rs.starters.value) && rs.decodedQuery.decoded.endname.Some?
      modifies this`nodes, this`Caches
      ensures Valid() && CachesValid() && Sound() && old(Caches) <= Caches
      ensures |nodes| >= |old(nodes)| && nodes[..|old(nodes)|] == old(nodes)[id := nodes[id]]
      ensures r.Err? ==> nodes == old(nodes)
      ensures var p := old(nodes)[id];
        r.Err? <==> p.responses.None? || ((rs.status == Restart || rs.status == Referral) && p.children.None?)
      ensures r.Ok? ==>
        var p := old(nodes)[id];
        var n := nodes[id];
        p.responses.Some? && n == p.(responses := Some(Put(p.responses.value, ip, rs)), children := n.children) &&
        (rs.status != Restart && rs.status != Referral ==> n.children == p.children && |nodes| == |old(nodes)|) &&
        (rs.status == Restart || rs.status == Referral ==>
          p.children.Some? &&
          n.children == Some(Put(p.children.value, Ip(ip), Range(|old(nodes)|, |nodes|))) &&
          nodes[|old(nodes)|..] ==
            SpawnList(p, id, rs.starters.value, p.refid + ".", p.refkey + "." + Decimal(|rs.starters.value|),
              RefArgs(rs.decodedQuery.decoded.endname.value, p.qclass, p.qtype, rs.startersBailiwick, rs.infocache,
                      Some(ip), p.referralResolution)))
    {
      var p := nodes[id];
      if p.responses.None? {
        return Err("undefined method []= for nil");
      }
      var stored := p.(responses := Some(Put(p.responses.value, ip, rs)));
      PutResponseSound(p, ip, rs);
      if rs.status == Restart || rs.status == Referral {
        if p.children.None? {
          return Err("undefined method []= for nil");
        }
        var ids := StoreReferrals(id, ip, rs, stored);
      } else {
        SetNode(id, stored);
      }
      return Ok(());
    }

    /** `NormalState` of the arena and the memo. */
    ghost predicate NormalSoFar(id: NodeId, p: Node, base: seq<Node>, done: seq<string>, memo: set<DecodedQuery>)
      reads this`nodes, dqc
    {
      NormalState(nodes, dqc.cache.Values, id, p, base, done, memo, maxdepth)
    }

    /** The body of `process_normal`'s loop for an address that is not a placeholder. */
    method NormalAddress(id: NodeId, ip: string, ghost p: Node, ghost base: seq<Node>, ghost done: seq<string>,
                         ghost memo: set<DecodedQuery>) returns (r: Result<()>)
      requires Valid() && CachesValid() && Sound() && dqc.Valid()
      requires NormalSoFar(id, p, base, done, memo) && !IsPlaceholder(ip)
      modifies this`nodes, this`Caches, dqc, dqc.resolver
      ensures Valid() && CachesValid() && Sound() && dqc.Valid() && old(Caches) <= Caches
      ensures r.Err? ==> nodes == old(nodes)
      ensures r.Ok? ==> NormalSoFar(id, p, base, done + [ip], memo)
    {
      var n := nodes[id];
      ghost var values := dqc.cache.Values;
      var q := QueryIp(n, ip);
      if q.Err? {
        return Err(q.error);
      }
      var rs := q.value;
      ghost var before := nodes;
      var stored := StoreResponse(id, ip, rs);
      if stored.Err? {
        return Err(stored.error);
      }
      StoredStep(base, before, nodes, values, dqc.cache.Values, id, p, done, memo, maxdepth, ip, rs);
      return Ok(());
    }

    /**
     * `process_normal`: every address that is not a placeholder is queried in
     * turn, its response stored and, for a restart or referral, its children
     * spawned. An error (a raise in Ruby) when the node has no addresses or no
     * table to store into.
     */
    method ProcessNormal(id: NodeId) returns (r: Result<()>)
      requires Valid() && CachesValid() && Sound() && dqc.Valid() && id < |nodes|
      modifies this`nodes, this`Caches, dqc, dqc.resolver
      ensures Valid() && CachesValid() && Sound() && dqc.Valid() && old(Caches) <= Caches
      ensures |nodes| >= |old(nodes)| && nodes[..|old(nodes)|] == old(nodes)[id := nodes[id]]
      ensures old(nodes)[id].serverips.None? ==> r.Err? && nodes == old(nodes)
      ensures r.Ok? ==> ProcessedNormally(old(nodes)[id], id, old(nodes), nodes, maxdepth, old(dqc.cache).Values)
    {
      var p := nodes[id];
      if p.serverips.None? {
        return Err("undefined method each for nil");
      }
      var ips := p.serverips.value;
      ghost var base := nodes;
      ghost var memo := dqc.cache.Values;
      assert nodes[|base|..] == [];
      for i := 0 to |ips|
        invariant Valid() && CachesValid() && Sound() && dqc.Valid() && old(Caches) <= Caches
        invariant NormalSoFar(id, p, base, ips[..i], memo)
      {
        var ip := ips[i];
        assert ips[..i + 1] == ips[..i] + [ip];
        if IsPlaceholder(ip) {
          NormalSkip(p, nodes[id], ips[..i], ip);
        } else {
          r := NormalAddress(id, ip, p, base, ips[..i], memo);
          if r.Err? {
            return;
          }
        }
      }
      assert ips[..|ips|] == ips;
      return Ok(());
    }

    /**
     * `process_add_roots`: the root-root node's children are the start
     * servers of the root zone from its cache, numbered after its refid (no
     * dot when it is empty), asking its own query with no bailiwick, listed
     * under `:rootroot`.
     */
    method ProcessAddRoots(id: NodeId) returns (r: Result<seq<NodeId>>)
      requires Valid() && CachesValid() && Sound() && id < |nodes|
      modifies this`nodes
      ensures Valid() && Sound() && |nodes| >= |old(nodes)|
      ensures var p := old(nodes)[id];
        r.Err? <==> p.infocache == null || p.infocache.GetNs("").Err? || p.children.None?
      ensures r.Err? ==> nodes == old(nodes)
      ensures r.Ok? ==>
        var p := old(nodes)[id];
        p.infocache != null && RootsAdded(p, id, old(nodes), nodes) && r.value == Range(|old(nodes)|, |nodes|) &&
        p.infocache.StartServersOf("", p.nsatype, StartersOf(nodes[|old(nodes)|..]), p.infocache.GetNs("").value[0].name)
    {
      var p := nodes[id];
      if p.infocache == null {
        return Err("undefined method get_startservers for nil");
      }
      var found := p.infocache.GetStartServers("", p.nsatype);
      if found.Err? {
        return Err(found.error);
      }
      if p.children.None? {
        return Err("undefined method []= for nil");
      }
      var (starters, bailiwick) := found.value;
      p.infocache.StartServersUsable("", p.nsatype, starters, bailiwick);
      var prefix := p.refid + Dot(p.refid);
      var refkey := p.refkey + Dot(p.refid) + Decimal(|starters|);
      var a := RefArgs(p.qname, p.qclass, p.qtype, None, p.infocache, None, p.referralResolution);
      var ids := SpawnAll(id, starters, prefix, refkey, a);
      ghost var spawned := nodes;
      PutChildrenSound(p, RootRoot, ids);
      LinkedGrows(p, |old(nodes)|, |nodes|);
      PutChildrenLinked(p, RootRoot, ids, |nodes|);
      SetNode(id, p.(children := Some(Put(p.children.value, RootRoot, ids))));
      assert nodes[|old(nodes)|..] == spawned[|old(nodes)|..];
      SpawnListStarters(p, id, starters, prefix, refkey, a);
      return Ok(ids);
    }

    /** The branch of `process`: the root-root node adds the roots, any other node queries its addresses. */
    method ProcessBranch(id: NodeId) returns (r: Result<()>)
      requires Valid() && CachesValid() && Sound() && dqc.Valid() && id < |nodes|
      modifies this`nodes, this`Caches, dqc, dqc.resolver
      ensures Valid() && CachesValid() && Sound() && dqc.Valid() && old(Caches) <= Caches
      ensures |nodes| >= |old(nodes)| && nodes[..|old(nodes)|] == old(nodes)[id := nodes[id]]
      ensures r.Ok? ==>
        var p := old(nodes)[id];
        (p.server.Some? ==> ProcessedNormally(p, id, old(nodes), nodes, maxdepth, old(dqc.cache).Values)) &&
        (p.server.None? ==> RootsAdded(p, id, old(nodes), nodes))
    {
      if nodes[id].server.Some? {
        r := ProcessNormal(id);
      } else {
        var roots := ProcessAddRoots(id);
        r := if roots.Ok? then Ok(()) else Err(roots.error);
      }
    }

    /**
     * What `process` does to a node it accepts: the branch, then the node
     * is marked processed and every child it has is returned, list after
     * list (an error when it has no child table).
     */
    method ProcessResolved(id: NodeId) returns (r: Result<seq<NodeId>>)
      requires Valid() && CachesValid() && Sound() && dqc.Valid() && id < |nodes|
      modifies this`nodes, this`Caches, dqc, dqc.resolver
      ensures Valid() && CachesValid() && Sound() && dqc.Valid() && old(Caches) <= Caches
      ensures |nodes| >= |old(nodes)| && nodes[..|old(nodes)|] == old(nodes)[id := nodes[id]]
      ensures r.Ok? ==>
        var p := old(nodes)[id];
        var n := nodes[id];
        n.processed && n.children.Some? && r.value == AllChildren(n.children.value) &&
        (p.server.Some? ==> ProcessedNormally(p, id, old(nodes), nodes, maxdepth, old(dqc.cache).Values)) &&
        (p.server.None? ==> RootsAdded(p, id, old(nodes), nodes))
    {
      var done := ProcessBranch(id);
      if done.Err? {
        return Err(done.error);
      }
      var n := nodes[id];
      MarkedKeeps(old(nodes)[id], id, old(nodes), nodes, maxdepth, old(dqc.cache).Values);
      SetNode(id, n.(processed := true));
      if n.children.None? {
        return Err("undefined method values for nil");
      }
      return Ok(AllChildren(n.children.value));
    }

    /**
     * `process`: an error once processed or while not resolved; otherwise
     * the node is processed as `ProcessResolved` says.
     */
    method Process(id: NodeId) returns (r: Result<seq<NodeId>>)
      requires Valid() && CachesValid() && Sound() && dqc.Valid() && id < |nodes|
      modifies this`nodes, this`Caches, dqc, dqc.resolver
      ensures Valid() && CachesValid() && Sound() && dqc.Valid() && old(Caches) <= Caches
      ensures |nodes| >= |old(nodes)| && nodes[..|old(nodes)|] == old(nodes)[id := nodes[id]]
      ensures old(nodes)[id].processed ==> r == Err("This Referral object has already been processed") && nodes == old(nodes)
      ensures !old(nodes)[id].processed && !Resolved(old(nodes)[id]) ==>
        r == Err("You need to resolve this Referral object") && nodes == old(nodes)
      ensures r.Ok? ==>
        var p := old(nodes)[id];
        var n := nodes[id];
        !p.processed && Resolved(p) && n.processed && n.children.Some? && r.value == AllChildren(n.children.value) &&
        (p.server.Some? ==> ProcessedNormally(p, id, old(nodes), nodes, maxdepth, old(dqc.cache).Values)) &&
        (p.server.None? ==> RootsAdded(p, id, old(nodes), nodes))
    {
      if nodes[id].processed {
        return Err("This Referral object has already been processed");
      }
      if !Resolved(nodes[id]) {
        return Err("You need to resolve this Referral object");
      }
      r := ProcessResolved(id);
    }
  }
}
