/**
 * The `Referral` of the oldest traverser (`DNSCheck::Referral` at the top of
 * `dnscheck/`). It shares its resolution, its child combination and most of
 * its per-address processing with the `dnscheck/lib` node, and differs in
 * these ways:
 * - without resolution, addresses are weighted 1/n at calculation time;
 * - queries always go out at the 512-byte default buffer size, with no
 *   EDNS0 fallback;
 * - there is no depth limit and no lameness test;
 * - `answer_calculate` keys an outcome with the question of the stored
 *   message.
 */
module DnscheckReferrals {
  import opened Wrappers
  import opened Names
  import opened DnsMessage
  import opened Outcomes
  import opened Hashes
  import opened MessageUtility
  import opened CacheRecords
  import opened ReferralStats
  import opened DnscheckLibInfoCaches
  import opened DnscheckLibReferrals
  import Referrals

  /** `Dnsruby::Resolver::DefaultUDPSize`, which every query of this iteration uses. */
  const DefaultUdpSize: nat := 512

  /**
   * One address of `process_normal`: the server is asked at the default
   * buffer size, whatever the node's depth, and the reply examined as in
   * the later iteration without the lameness test. No warning is kept.
   */
  function OldVisitOf(c: Ctx, ip: string): Result<Visit>
  {
    Examine(c.(lameCheck := false), c.send(ip, c.q.qname, c.q.qtype, DefaultUdpSize), [])
  }

  /** `OldVisitOf` for a fixed context, as the loop of `process_normal` applies it. */
  function OldVisitor(c: Ctx): string -> Result<Visit>
  {
    ip => OldVisitOf(c, ip)
  }

  /**
   * Every address is queried, however deep the node; a visit adds no
   * warning, and any children it records are child referrals, never a lame
   * verdict.
   */
  lemma OldVisitQueriesAlways(c: Ctx, ip: string)
    requires OldVisitOf(c, ip).Ok?
    ensures var v := OldVisitOf(c, ip).value;
      v.reply == c.send(ip, c.q.qname, c.q.qtype, DefaultUdpSize) && v.warnings == [] &&
      (v.kids.Some? ==> v.kids.value.Spawned? && |v.kids.value.specs| > 0)
  {
    var c' := c.(lameCheck := false);
    var v := OldVisitOf(c, ip).value;
    if v.kids.Some? {
      SpawnedChildren(c', v.reply.msg, v.cache.value.0);
    }
  }

  // ---------------------------------------------------------------------
  // answer_calculate

  /**
   * What `answer_calculate` makes of one queried address. The outcome key
   * is built from the stored message's own question. As written
   * (`asWritten`) that question is read before the exception test, so an
   * exception reply fails the calculation; otherwise an exception is keyed
   * with the node's question, as the later iteration does. A message whose
   * CNAME chain never ends, and an address with neither a terminal outcome
   * nor children, give an `IpInfo` with neither, which the calculation
   * rejects as Ruby does on nil.
   */
  function OldInfo(reply: Option<Reply>, kids: Option<Kids>, ip: string, q: Question,
                   calculated: Spec -> Option<Stats>, asWritten: bool): IpInfo
  {
    var children := if kids.Some? && kids.value.Spawned? then IpInfo(Some(Calc(calculated, kids.value.specs)), None)
                    else IpInfo(None, None);
    if reply.None? then children
    else if reply.value.Raised? then
      if asWritten then IpInfo(None, None)
      else
        var key := TerminalKey("exception", ip + ":" + q.qname + ":" + q.qclass + ":" + q.qtype, Some(reply.value.text));
        IpInfo(None, Some(Outcome(Exception, [], key)))
    else
      var m := reply.value.msg;
      if |m.question| == 0 then IpInfo(None, None)
      else
        var mq := m.question[0];
        var e := EndName(m, mq.qname, mq.qtype);
        if e.None? then IpInfo(None, None)
        else
          var at := ip + ":" + e.value + ":" + mq.qclass + ":" + mq.qtype;
          var ans := Answers(m, e.value, None, mq.qtype);
          if m.rcode != NoError then IpInfo(None, Some(Outcome(Error, [], TerminalKey("error", at, Some(RCodeName(m.rcode))))))
          else if ans.Some? then IpInfo(None, Some(Outcome(Answered, ans.value, TerminalKey("answer", at, None))))
          else if MessageUtility.NoData(m) then IpInfo(None, Some(Outcome(NoData, [], TerminalKey("nodata", at, None))))
          else children
  }

  /**
   * As written, an address whose stored reply is an exception makes the
   * calculation fail; read exception first it enters an exception outcome
   * at the address's weight.
   */
  lemma ExceptionReplyFailsAsWritten(s: Stats, ip: string, w: Weights, sr: Option<Stats>, text: string, kids: Option<Kids>,
                                     q: Question, calculated: Spec -> Option<Stats>)
    requires !IsPlaceholder(ip) && Lookup(w, ip).Some?
    ensures AnswerStep(s, ip, w, sr, OldInfo(Some(Raised(text)), kids, ip, q, calculated, true), false).Err?
    ensures var key := TerminalKey("exception", ip + ":" + q.qname + ":" + q.qclass + ":" + q.qtype, Some(text));
      AnswerStep(s, ip, w, sr, OldInfo(Some(Raised(text)), kids, ip, q, calculated, false), false) ==
        Ok(Accumulate(s, key, Entry(Lookup(w, ip).value, Outcome(Exception, [], key))))
  {
  }

  /** For a reply that is a message the two readings agree. */
  lemma OldInfoAgreesOnMessages(m: Message, kids: Option<Kids>, ip: string, q: Question, calculated: Spec -> Option<Stats>)
    ensures OldInfo(Some(Msg(m)), kids, ip, q, calculated, true) == OldInfo(Some(Msg(m)), kids, ip, q, calculated, false)
  {
  }

  /**
   * A `key:` placeholder as written: its resolution entry is entered at its
   * probability times the address's weight, accumulating with an entry
   * already there.
   */
  function PlaceholderStepAsWritten(s: Stats, ip: string, w: Weights, sr: Option<Stats>): Result<Stats>
  {
    var weight := Lookup(w, ip);
    if weight.None? then Err("undefined method for nil")
    else if sr.None? || Lookup(sr.value, ip).None? then Err("undefined method for nil")
    else
      var e := Lookup(sr.value, ip).value;
      Ok(Accumulate(s, ip, e.(prob := Mul(e.prob, weight.value))))
  }

  /**
   * The address loop of `answer_calculate` as written: placeholders scaled
   * by their weight again, terminal outcomes assigned rather than added.
   */
  function AnswerStatsAsWritten(ips: seq<string>, w: Weights, sr: Option<Stats>, info: string -> IpInfo): Result<Stats>
  {
    if ips == [] then Ok([])
    else
      var prev := AnswerStatsAsWritten(ips[..|ips| - 1], w, sr, info);
      var ip := ips[|ips| - 1];
      if prev.Err? then prev
      else if IsPlaceholder(ip) then PlaceholderStepAsWritten(prev.value, ip, w, sr)
      else AnswerStep(prev.value, ip, w, sr, info(ip), true)
  }

  /**
   * A placeholder's weight is its resolution entry's probability `p`, so as
   * written it contributes `p` squared, less than its weight: a resolution
   * that failed with probability 0.5 contributes 0.25. Entered once, it
   * contributes `p`.
   */
  lemma PlaceholderSquaredAsWritten(k: string, o: Outcome, p: real)
    requires IsPlaceholder(k) && 0.0 < p < 1.0
    ensures var sr := [(k, Entry(p, o))];
      var w := [(k, p)];
      var info := (ip: string) => IpInfo(None, None);
      SumWeights([k], w) == p &&
      AnswerStatsAsWritten([k], w, Some(sr), info) == Ok([(k, Entry(p * p, o))]) && p * p < p &&
      AnswerStats([k], w, Some(sr), info, false) == Ok(sr)
  {
    var sr := [(k, Entry(p, o))];
    var w := [(k, p)];
    var info := (ip: string) => IpInfo(None, None);
    var ks: seq<string> := [k];
    assert ks[..0] == [];
    assert Lookup(w, k) == Some(p);
    assert Lookup(sr, k) == Some(Entry(p, o));
    assert AnswerStatsAsWritten(ks, w, Some(sr), info) == Ok([(k, Entry(p * p, o))]) by {
      assert AnswerStatsAsWritten(ks[..0], w, Some(sr), info) == Ok([]);
      assert Put([], k, Entry(p * p, o)) == [(k, Entry(p * p, o))];
      assert PlaceholderStepAsWritten([], k, w, Some(sr)) == Ok(Accumulate([], k, Entry(Mul(p, p), o)));
    }
    assert AnswerStats(ks, w, Some(sr), info, false) == Ok(sr) by {
      assert AnswerStats(ks[..0], w, Some(sr), info, false) == Ok([]);
      assert Put([], k, Entry(p, o)) == sr;
      assert AnswerStep([], k, w, Some(sr), info(k), false) == Ok(sr);
    }
    assert p * p < 1.0 * p;
  }

  /** An address's children, when it has them, are at least one and each sums to 1. */
  lemma OldInfoSound(reply: Option<Reply>, kids: Option<Kids>, ip: string, q: Question, calculated: Spec -> Option<Stats>)
    requires CalculatedSound(calculated)
    requires kids.Some? && kids.value.Spawned? ==> |kids.value.specs| > 0
    ensures var info := OldInfo(reply, kids, ip, q, calculated, false);
      info.children.Some? ==>
        |info.children.value| > 0 &&
        forall j :: 0 <= j < |info.children.value| && info.children.value[j].Some? ==> Total(info.children.value[j].value) == 1.0
  {
    var info := OldInfo(reply, kids, ip, q, calculated, false);
    if info.children.Some? {
      forall j | 0 <= j < |info.children.value| && info.children.value[j].Some?
        ensures Total(info.children.value[j].value) == 1.0
      {
        assert info.children.value[j] == calculated(kids.value.specs[j]);
      }
    }
  }

  /** Without resolution each listed address weighs 1/n, n being the length of the list. */
  lemma FixedWeightIsShare(ips: seq<string>, ip: string)
    requires ip in ips
    ensures Lookup(InitialWeights(ips, |ips|), ip) == Some(1.0 / |ips| as real)
  {
    InitialWeightsLookup(ips, |ips|, ip);
  }

  // ---------------------------------------------------------------------
  // The node

  class Referral {
    const resolver: Resolver
    const qname: string
    const qclass: string
    const qtype: string
    const nsatype: string
    const infocache: InfoCache
    const refid: string
    const server: Option<string>
    const bailiwick: Option<string>
    const referralResolution: bool
    var serverips: Option<seq<string>>
    var serverweights: Option<Weights>
    var noglue: bool
    var resolves: Option<seq<Spec>>
    var statsResolve: Option<Stats>
    var stats: Option<Stats>
    var responses: Hash<string, Reply>
    var responsesInfocache: Hash<string, map<string, seq<RR>>>
    var responsesBad: Hash<string, seq<RR>>
    var children: Hash<string, Kids>
    var rootroot: Option<seq<Spec>>

    ghost predicate Valid()
      reads this, infocache
    {
      infocache.Valid()
    }

    /** The weight of each address: from the resolution, or 1/n for each of the n given addresses. */
    function Weighting(): Weights
      reads this
    {
      if serverweights.Some? then serverweights.value
      else if serverips.Some? then InitialWeights(serverips.value, |serverips.value|)
      else []
    }

    /**
     * What makes the node's calculations conserve probability: the weights
     * of its addresses sum to 1, its resolution keeps its answers, and
     * every child list it made is non-empty.
     */
    ghost predicate Sound()
      reads this
    {
      (server.Some? && serverips.Some? ==> |serverips.value| > 0 && SumWeights(serverips.value, Weighting()) == 1.0) &&
      (statsResolve.Some? ==> WellFormed(statsResolve.value)) &&
      (resolves.Some? ==> |resolves.value| > 0) &&
      (rootroot.Some? ==> |rootroot.value| > 0) &&
      SpawnedNonEmpty(children)
    }

    /** `resolved?`: the root-root node, a glueless server, or addresses known. */
    predicate Resolved()
      reads this
    {
      server.None? || noglue || serverips.Some?
    }

    /** `processed?`: some child list (or the root list) is recorded. */
    predicate Processed()
      reads this
    {
      |children| > 0 || rootroot.Some?
    }

    /** The node's query context: every query at the default size, no depth limit, no lameness test. */
    function Context(): Ctx
      reads this, resolver, infocache
    {
      Ctx(resolver.send, DefaultUdpSize, Question(qname, qclass, qtype), nsatype, refid, 0, bailiwick,
          referralResolution, infocache.data, false)
    }

    function Current(): Progress
      reads this
    {
      Progress(responses, responsesInfocache, responsesBad, children, [])
    }

    /**
     * `Referral.new`: class IN, type A, address type A and refid "" unless
     * given; a fresh cache unless one is given; root hints added to the
     * cache when `roots` are given. No weights are set.
     */
    constructor(resolver: Resolver, qname: string, qclass: Option<string>, qtype: Option<string>, nsatype: Option<string>,
                infocache: InfoCache?, roots: Option<seq<Server>>, refid: Option<string>, server: Option<string>,
                serverips: Option<seq<string>>, bailiwick: Option<string>, referralResolution: Option<bool>)
      requires infocache != null ==> infocache.Valid()
      modifies if infocache != null then {infocache} else {}
      ensures Valid()
      ensures this.resolver == resolver && this.qname == qname && this.qclass == qclass.GetOr("IN")
      ensures this.qtype == qtype.GetOr("A") && this.nsatype == nsatype.GetOr("A") && this.refid == refid.GetOr("")
      ensures this.server == server && this.serverips == serverips && this.bailiwick == bailiwick
      ensures this.referralResolution == referralResolution.GetOr(false)
      ensures infocache != null ==> this.infocache == infocache
      ensures infocache == null ==> fresh(this.infocache)
      ensures this.infocache.data ==
        var base := if infocache != null then old(infocache.data) else map[];
        if roots.Some? then Replaced(base, HintRecords("", roots.value)) else base
      ensures serverweights.None? && !noglue && resolves.None? && statsResolve.None? && stats.None? && rootroot.None?
      ensures responses == [] && responsesInfocache == [] && responsesBad == [] && children == []
      ensures serverips != Some([]) ==> Sound()
    {
      this.resolver := resolver;
      this.qname := qname;
      this.qclass := qclass.GetOr("IN");
      this.qtype := qtype.GetOr("A");
      this.nsatype := nsatype.GetOr("A");
      this.refid := refid.GetOr("");
      this.server := server;
      this.serverips := serverips;
      this.bailiwick := bailiwick;
      this.referralResolution := referralResolution.GetOr(false);
      var cache := NodeCache(infocache, roots);
      this.infocache := cache;
      serverweights, noglue, resolves, statsResolve, stats, rootroot := None, false, None, None, None, None;
      responses, responsesInfocache, responsesBad, children := [], [], [], [];
      new;
      if serverips.Some? && |serverips.value| > 0 {
        InitialWeightsSumToOne(serverips.value);
      }
    }

    /**
     * `resolve`: an error if the node is resolved; a glueless server is
     * marked and yields no children; otherwise one address-resolution child
     * per start server of the server's name, numbered `<refid>.0.1`, …,
     * appended to the node's resolve children.
     */
    method Resolve() returns (r: Result<seq<Spec>>)
      requires Valid() && Sound()
      modifies this`noglue, this`resolves
      ensures Valid() && Sound()
      ensures old(Resolved()) ==> r.Err? && noglue == old(noglue) && resolves == old(resolves)
      ensures !old(Resolved()) && Glueless(server.value, bailiwick) ==>
        r == Ok([]) && noglue && resolves == old(resolves)
      ensures !old(Resolved()) && !Glueless(server.value, bailiwick) ==>
        var found := StartersIn(infocache.data, server.value, nsatype);
        noglue == old(noglue) &&
        (r.Err? <==> found.Err?) &&
        (r.Ok? ==>
          resolves == Some(old(resolves).GetOr([]) +
            Spawn(found.value.0, refid + ".0.", Question(server.value, "IN", nsatype), Some(found.value.1), true, infocache.data)) &&
          r.value == resolves.value)
    {
      if Resolved() {
        return Err("This Referral object has already been resolved");
      }
      if Glueless(server.value, bailiwick) {
        noglue := true;
        return Ok([]);
      }
      var found := infocache.GetStartServers(server.value, nsatype);
      infocache.GetNsIn(server.value);
      if found.Err? {
        return Err(found.error);
      }
      var (starters, newBailiwick) := found.value;
      infocache.StartServersIn(server.value, nsatype, starters, newBailiwick);
      var specs := Spawn(starters, refid + ".0.", Question(server.value, "IN", nsatype), Some(newBailiwick), true, infocache.data);
      resolves := Some(resolves.GetOr([]) + specs);
      return Ok(resolves.value);
    }

    /** The statistics of the resolution: the no-glue outcome with certainty, or the resolve children combined. */
    function ResolutionOf(calculated: Spec -> Option<Stats>): Option<Stats>
      reads this
    {
      if noglue then
        var key := TerminalKey("noglue", server.GetOr("") + ":" + qname + ":" + qclass + ":" + qtype, None);
        Some([(key, Entry(1.0, Outcome(NoGlue, [], key)))])
      else if resolves.None? then None
      else
        var cs := AllCalculated(Calc(calculated, resolves.value));
        if cs.None? then None else Some(Combine([], cs.value, 1.0))
    }

    /**
     * `resolve_calculate`: the resolution statistics, the address weights
     * they give (split over an answer's addresses; see `NoSplitWeights` for
     * the loop as written) and their keys as the server's addresses. With
     * the children's statistics summing to 1, the weights sum to 1.
     */
    method ResolveCalculate(calculated: Spec -> Option<Stats>) returns (r: Result<()>)
      requires Sound() && CalculatedSound(calculated)
      modifies this`statsResolve, this`serverweights, this`serverips
      ensures Sound()
      ensures r.Ok? <==> old(ResolutionOf(calculated)).Some?
      ensures r.Err? ==> statsResolve == old(statsResolve) && serverweights == old(serverweights) && serverips == old(serverips)
      ensures r.Ok? ==>
        statsResolve == old(ResolutionOf(calculated)) &&
        serverweights == Some(ResolveWeights(statsResolve.value)) && serverips == Some(Keys(serverweights.value))
      ensures r.Ok? ==> Total(statsResolve.value) == 1.0 && SumWeights(serverips.value, Weighting()) == 1.0
    {
      var sr: Stats;
      if noglue {
        var key := TerminalKey("noglue", server.GetOr("") + ":" + qname + ":" + qclass + ":" + qtype, None);
        sr := [(key, Entry(1.0, Outcome(NoGlue, [], key)))];
        assert sr[..0] == [];
      } else {
        if resolves.None? {
          return Err("undefined method length for nil");
        }
        var cs := AllCalculated(Calc(calculated, resolves.value));
        if cs.None? {
          return Err("undefined method each_pair for nil");
        }
        CalcSound(calculated, resolves.value);
        sr := Referrals.StatsCalculateChildren([], cs.value, 1.0);
        CombineConserves([], cs.value, 1.0);
        CombineWellFormed([], cs.value, 1.0);
      }
      var w := Referrals.WeighResolution(sr);
      Referrals.WeightsSound(sr);
      statsResolve, serverweights, serverips := Some(sr), Some(w), Some(Keys(w));
      return Ok(());
    }

    /** The address information of `answer_calculate`, exceptions read first. */
    function Info(calculated: Spec -> Option<Stats>): string -> IpInfo
      reads this
    {
      var rs := responses;
      var ch := children;
      var q := Question(qname, qclass, qtype);
      ip => OldInfo(Lookup(rs, ip), Lookup(ch, ip), ip, q, calculated, false)
    }

    /** The statistics `answer_calculate` builds. */
    function AnswerOf(calculated: Spec -> Option<Stats>): Result<Stats>
      reads this
    {
      if server.None? then
        if rootroot.None? then Err("undefined method length for nil")
        else
          var cs := AllCalculated(Calc(calculated, rootroot.value));
          if cs.None? then Err("undefined method each_pair for nil") else Ok(Combine([], cs.value, 1.0))
      else if serverips.None? then Err("undefined method each for nil")
      else AnswerStats(serverips.value, Weighting(), statsResolve, Info(calculated), false)
    }

    lemma InfoConserves(calculated: Spec -> Option<Stats>)
      requires Sound() && CalculatedSound(calculated) && serverips.Some?
      ensures ChildListsNonEmpty(serverips.value, Info(calculated))
      ensures ChildrenSumToOne(serverips.value, Info(calculated))
    {
      var info := Info(calculated);
      var ips := serverips.value;
      forall i | 0 <= i < |ips|
        ensures info(ips[i]).children.Some? ==> |info(ips[i]).children.value| > 0
        ensures forall j :: info(ips[i]).children.Some? && 0 <= j < |info(ips[i]).children.value| ==>
          (info(ips[i]).children.value[j].Some? ==> Total(info(ips[i]).children.value[j].value) == 1.0)
      {
        var kids := Lookup(children, ips[i]);
        if kids.Some? {
          var k :| 0 <= k < |children| && children[k] == (ips[i], kids.value);
        }
        OldInfoSound(Lookup(responses, ips[i]), kids, ips[i], Question(qname, qclass, qtype), calculated);
      }
    }

    /**
     * `answer_calculate`: for the root-root node its roots combined at
     * weight 1; otherwise each address contributing exactly its weight (its
     * resolution weight, or 1/n). When the node is sound and its children's
     * statistics sum to 1, so do the node's.
     */
    method AnswerCalculate(calculated: Spec -> Option<Stats>) returns (r: Result<()>)
      requires Sound() && CalculatedSound(calculated)
      modifies this`stats
      ensures r.Ok? <==> AnswerOf(calculated).Ok?
      ensures r.Err? ==> stats == old(stats)
      ensures r.Ok? ==> stats == Some(AnswerOf(calculated).value) && Total(stats.value) == 1.0
    {
      if server.None? {
        if rootroot.None? {
          return Err("undefined method length for nil");
        }
        var cs := AllCalculated(Calc(calculated, rootroot.value));
        if cs.None? {
          return Err("undefined method each_pair for nil");
        }
        CalcSound(calculated, rootroot.value);
        var s := Referrals.StatsCalculateChildren([], cs.value, 1.0);
        CombineConserves([], cs.value, 1.0);
        stats := Some(s);
        return Ok(());
      }
      if serverips.None? {
        return Err("undefined method each for nil");
      }
      var info := Info(calculated);
      var res := Referrals.AnswerLoop(serverips.value, Weighting(), statsResolve, info);
      if res.Err? {
        return Err(res.error);
      }
      InfoConserves(calculated);
      AnswerStatsConserve(serverips.value, Weighting(), statsResolve, info);
      stats := Some(res.value);
      return Ok(());
    }

    /**
     * The per-address step of `process_normal`: the query goes to `ip` at
     * the default buffer size, which the resolver keeps afterwards.
     */
    method VisitAddress(ip: string) returns (r: Result<Visit>)
      requires Valid()
      modifies resolver
      ensures resolver.udpSize == DefaultUdpSize
      ensures r == OldVisitOf(Context(), ip)
    {
      resolver.nameserver := ip;
      resolver.udpSize := DefaultUdpSize;
      var reply := resolver.Query(qname, qtype);
      r := ExamineReply(Context(), infocache, reply, []);
    }

    /** One visit entered into the node's hashes. */
    method Record(ip: string, v: Visit)
      requires Sound() && v.warnings == []
      requires v.kids.Some? && v.kids.value.Spawned? ==> |v.kids.value.specs| > 0
      modifies this`responses, this`responsesInfocache, this`responsesBad, this`children
      ensures Sound()
      ensures Current() == Apply(old(Current()), ip, v)
    {
      var p := Apply(Current(), ip, v);
      if v.kids.Some? {
        PutSpawnedNonEmpty(children, ip, v.kids.value);
      }
      responses, responsesInfocache, responsesBad, children := p.responses, p.caches, p.bad, p.children;
    }

    /** One address of `process_normal`'s loop: its visit entered into the node's hashes, or the visit's error. */
    method NormalAddress(ip: string) returns (r: Result<()>)
      requires Valid() && Sound()
      modifies this`responses, this`responsesInfocache, this`responsesBad, this`children, resolver
      ensures Valid() && Sound() && Context() == old(Context())
      ensures resolver.udpSize == DefaultUdpSize
      ensures var v := OldVisitOf(old(Context()), ip);
        (v.Err? ==> r == Err(v.error)) && (v.Ok? ==> r == Ok(()) && Current() == Apply(old(Current()), ip, v.value))
    {
      var v := VisitAddress(ip);
      if v.Err? {
        return Err(v.error);
      }
      OldVisitQueriesAlways(Context(), ip);
      Record(ip, v.value);
      return Ok(());
    }

    /**
     * `process_normal`: every address that is not a placeholder visited in
     * order, its reply, enriched cache, out-of-bailiwick records and children
     * assigned under it. An error when there are no addresses or a visit
     * raises. Any query leaves the resolver at the default buffer size.
     */
    method ProcessNormal() returns (r: Result<()>)
      requires Valid() && Sound()
      modifies this`responses, this`responsesInfocache, this`responsesBad, this`children, resolver
      ensures Valid() && Sound()
      ensures resolver.udpSize == old(resolver.udpSize) || resolver.udpSize == DefaultUdpSize
      ensures serverips.None? ==> r.Err?
      ensures serverips.Some? ==>
        var all := VisitAll(OldVisitor(Context()), old(Current()), serverips.value);
        (r.Ok? <==> all.Ok?) && (r.Ok? ==> Current() == all.value)
    {
      if serverips.None? {
        return Err("undefined method each for nil");
      }
      var ips := serverips.value;
      ghost var c := Context();
      ghost var visit := OldVisitor(c);
      ghost var p0 := Current();
      for i := 0 to |ips|
        invariant Valid() && Sound() && Context() == c
        invariant resolver.udpSize == old(resolver.udpSize) || resolver.udpSize == DefaultUdpSize
        invariant VisitAll(visit, p0, ips[..i]) == Ok(Current())
      {
        VisitAllNext(visit, p0, ips, i);
        if IsPlaceholder(ips[i]) {
          continue;
        }
        r := NormalAddress(ips[i]);
        if r.Err? {
          VisitAllStopsAtError(visit, p0, ips, i + 1);
          return;
        }
      }
      assert ips[..|ips|] == ips;
      return Ok(());
    }

    /**
     * `process_add_roots`: one child per root server known to the cache,
     * numbered from 1 under the node's refid, with the node's question, no
     * bailiwick and the node's cache.
     */
    method ProcessAddRoots() returns (r: Result<()>)
      requires Valid() && Sound()
      modifies this`rootroot
      ensures Valid() && Sound()
      ensures var found := StartersIn(infocache.data, "", nsatype);
        (r.Err? <==> found.Err?) &&
        (r.Err? ==> rootroot == old(rootroot)) &&
        (r.Ok? ==> rootroot == Some(Spawn(found.value.0, if refid == "" then "" else refid + ".",
                                          Question(qname, qclass, qtype), None, referralResolution, infocache.data)))
    {
      var found := infocache.GetStartServers("", nsatype);
      infocache.GetNsIn("");
      if found.Err? {
        return Err(found.error);
      }
      var (starters, b) := found.value;
      infocache.StartServersIn("", nsatype, starters, b);
      rootroot := Some(Spawn(starters, if refid == "" then "" else refid + ".", Question(qname, qclass, qtype), None,
                             referralResolution, infocache.data));
      return Ok(());
    }

    /**
     * `process`: an error if the node is processed or not resolved; the
     * root-root node adds the roots, any other node queries its addresses.
     * The result is every child made, in order.
     */
    method Process() returns (r: Result<seq<Spec>>)
      requires Valid() && Sound()
      modifies this`responses, this`responsesInfocache, this`responsesBad, this`children, this`rootroot, resolver
      ensures Valid() && Sound()
      ensures old(Processed()) || !old(Resolved()) ==> r.Err? && Current() == old(Current()) && rootroot == old(rootroot)
      ensures r.Ok? ==> r.value == rootroot.GetOr([]) + AllSpawned(children)
      ensures r.Ok? && server.Some? ==>
        serverips.Some? && VisitAll(OldVisitor(Context()), old(Current()), serverips.value) == Ok(Current())
    {
      if Processed() {
        return Err("This Referral object has already been processed");
      }
      if !Resolved() {
        return Err("You need to resolve this Referral object");
      }
      var done: Result<()>;
      if server.Some? {
        done := ProcessNormal();
      } else {
        done := ProcessAddRoots();
      }
      if done.Err? {
        return Err(done.error);
      }
      return Ok(rootroot.GetOr([]) + AllSpawned(children));
    }
  }
}
