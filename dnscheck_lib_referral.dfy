/**
 * The `Referral` of the earlier traverser (`DNSCheck::Referral` under
 * `dnscheck/lib`): one node of the delegation walk, with the query
 * classification, the lameness test and the depth guard written inline
 * rather than in a separate response object.
 *
 * A child `Referral` is represented by the arguments it is created with
 * (`Spec`); the traversal that calculates the children hands their
 * statistics back to the calculations as the function `calculated`.
 */
module DnscheckLibReferrals {
  import opened Wrappers
  import opened Names
  import opened DnsMessage
  import opened Outcomes
  import opened Hashes
  import opened Sorting
  import opened MessageUtility
  import opened CacheRecords
  import opened ReferralStats
  import opened DnscheckLibInfoCaches
  import InfoCaches
  import DecodedQueries
  import Referrals

  // ---------------------------------------------------------------------
  // Children

  /**
   * The arguments of a child `Referral` beyond those it inherits unchanged
   * (resolver, `nsatype`, `maxdepth`). A child only ever reads the cache it
   * is given, so the cache is carried as its map.
   */
  datatype Spec = Spec(server: string, serverips: Option<seq<string>>, qname: string, qclass: string, qtype: string,
                       bailiwick: Option<string>, refid: string, referralResolution: bool, cache: map<string, seq<RR>>)

  /** What `process_normal` leaves for an address: its child referrals, or the error standing for a lame delegation. */
  datatype Kids = Spawned(specs: seq<Spec>) | Lame(text: string)

  /** The error stored instead of children when the start servers are not the servers the referral names. */
  const LameText: string := "Improper or lame delegation"

  /** One child per starter, numbered from 1 after `prefix`. */
  function Spawn(starters: seq<InfoCaches.Starter>, prefix: string, q: Question, bailiwick: Option<string>,
                 resolution: bool, cache: map<string, seq<RR>>): seq<Spec>
  {
    seq(|starters|, k requires 0 <= k < |starters| =>
      Spec(starters[k].name, starters[k].ips, q.qname, q.qclass, q.qtype, bailiwick,
           prefix + Referrals.Decimal(k + 1), resolution, cache))
  }

  lemma {:induction false} CountDotsAppend(a: string, b: string)
    ensures Referrals.CountDots(a + b) == Referrals.CountDots(a) + Referrals.CountDots(b)
    decreases |b|
  {
    if b != [] {
      var ab := a + b;
      CountDotsAppend(a, b[..|b| - 1]);
      assert ab[..|ab| - 1] == a + b[..|b| - 1];
      assert ab[|ab| - 1] == b[|b| - 1];
    } else {
      assert a + b == a;
    }
  }

  lemma {:induction false} DecimalHasNoDots(n: nat)
    ensures Referrals.CountDots(Referrals.Decimal(n)) == 0
  {
    if n >= 10 {
      DecimalHasNoDots(n / 10);
      CountDotsAppend(Referrals.Decimal(n / 10), [Referrals.DigitChar(n % 10)]);
    }
  }

  /**
   * A spawned child sits one level below `prefix`: its refid has as many dots
   * as the prefix, so a child of `refid + "."` is one dot deeper than its
   * parent and the depth guard is reached after `maxdepth` generations.
   */
  lemma SpawnDepth(starters: seq<InfoCaches.Starter>, prefix: string, q: Question, bailiwick: Option<string>,
                   resolution: bool, cache: map<string, seq<RR>>, k: nat)
    requires k < |starters|
    ensures |Spawn(starters, prefix, q, bailiwick, resolution, cache)| == |starters|
    ensures Referrals.CountDots(Spawn(starters, prefix, q, bailiwick, resolution, cache)[k].refid) == Referrals.CountDots(prefix)
  {
    var children := Spawn(starters, prefix, q, bailiwick, resolution, cache);
    assert children[k].refid == prefix + Referrals.Decimal(k + 1);
    CountDotsAppend(prefix, Referrals.Decimal(k + 1));
    DecimalHasNoDots(k + 1);
  }

  // ---------------------------------------------------------------------
  // resolve: the no-glue test

  /**
   * The no-glue test as written: a bailiwick is set and the server name
   * matches `/.#{bailiwick}$/i`, whose first dot (and every dot of the
   * bailiwick) matches any character.
   */
  predicate GluelessAsWritten(server: string, bailiwick: Option<string>)
  {
    bailiwick.Some? && RegexEndMatch(server, "." + bailiwick.value)
  }

  /** The test as it is evidently meant: the server name lies strictly below the bailiwick. */
  predicate Glueless(server: string, bailiwick: Option<string>)
  {
    bailiwick.Some? && InsideBailiwick(server, bailiwick) && !EqualIgnoreCase(server, bailiwick.value)
  }

  /** Every name strictly below the bailiwick passes the regex too. */
  lemma GluelessImpliesAsWritten(server: string, bailiwick: Option<string>)
    requires '\n' !in server
    ensures Glueless(server, bailiwick) ==> GluelessAsWritten(server, bailiwick)
  {
    InsideImpliesAsWritten(server, bailiwick);
  }

  /** The regex also declares "telecom" glueless under "com", a name outside the zone. */
  lemma GluelessAsWrittenOutsideZone()
    ensures GluelessAsWritten("telecom", Some("com"))
    ensures !Glueless("telecom", Some("com"))
  {
    AsWrittenAcceptsOutsideName();
  }

  // ---------------------------------------------------------------------
  // resolve_calculate: weights without splitting

  /** Each address gains the whole of `p`. */
  function Repeat(w: Weights, addrs: seq<string>, p: real): Weights
  {
    if addrs == [] then w else WAccumulate(Repeat(w, addrs[..|addrs| - 1], p), addrs[|addrs| - 1], p)
  }

  /**
   * The weights loop of `resolve_calculate` as written: every answer address
   * of an answered entry receives the entry's whole probability, any other
   * entry's probability goes to its `key:` string.
   */
  function NoSplitWeights(sr: Stats): Weights
  {
    if sr == [] then [] else
      var last := sr[|sr| - 1];
      var w := NoSplitWeights(sr[..|sr| - 1]);
      if last.1.outcome.status == Answered then Repeat(w, MessageUtility.Addresses(last.1.outcome.answers), last.1.prob)
      else WAccumulate(w, last.0, last.1.prob)
  }

  /** The probability an entry hands out: once per answer address when answered, once otherwise. */
  function Claimed(sr: Stats): real
  {
    if sr == [] then 0.0 else
      var e := sr[|sr| - 1].1;
      Claimed(sr[..|sr| - 1]) + (if e.outcome.status == Answered then Mul(|e.outcome.answers| as real, e.prob) else e.prob)
  }

  lemma {:induction false} RepeatTotal(w: Weights, addrs: seq<string>, p: real)
    ensures WTotal(Repeat(w, addrs, p)) == WTotal(w) + Mul(|addrs| as real, p)
  {
    if addrs != [] {
      RepeatTotal(w, addrs[..|addrs| - 1], p);
      WAccumulateTotal(Repeat(w, addrs[..|addrs| - 1], p), addrs[|addrs| - 1], p);
      MulSucc(|addrs| - 1, p);
    }
  }

  /** The weights as written sum to the claimed probability, which counts an answer once per address. */
  lemma {:induction false} NoSplitWeightsTotal(sr: Stats)
    ensures WTotal(NoSplitWeights(sr)) == Claimed(sr)
  {
    if sr != [] {
      var init := sr[..|sr| - 1];
      var e := sr[|sr| - 1].1;
      NoSplitWeightsTotal(init);
      if e.outcome.status == Answered {
        RepeatTotal(NoSplitWeights(init), MessageUtility.Addresses(e.outcome.answers), e.prob);
      } else {
        WAccumulateTotal(NoSplitWeights(init), sr[|sr| - 1].0, e.prob);
      }
    }
  }

  /**
   * A server name resolved with certainty to two addresses: as written each
   * address gets weight 1, so the weights sum to 2; split, they sum to the
   * resolution's total of 1.
   */
  lemma NoSplitOverweights()
    ensures var a := RR("ns.example.net", "IN", "A", "192.0.2.1");
      var b := RR("ns.example.net", "IN", "A", "192.0.2.2");
      var o := Outcome(Answered, [a, b], "key:answer");
      var sr := [(o.key, Entry(1.0, o))];
      Total(sr) == 1.0 && WTotal(NoSplitWeights(sr)) == 2.0 && WTotal(ResolveWeights(sr)) == 1.0
  {
    var a := RR("ns.example.net", "IN", "A", "192.0.2.1");
    var b := RR("ns.example.net", "IN", "A", "192.0.2.2");
    var o := Outcome(Answered, [a, b], "key:answer");
    var sr := [(o.key, Entry(1.0, o))];
    assert sr[..0] == [];
    NoSplitWeightsTotal(sr);
    assert Claimed(sr) == Mul(2.0, 1.0);
    ResolveWeightsTotal(sr);
    assert Total(sr[..0]) == 0.0;
  }

  // ---------------------------------------------------------------------
  // done? and the per-address classification of answer_calculate

  /**
   * `done?(msg)` on a message: error, answered, nodata or not done, in that
   * order, with the answer sought for the name the CNAME chain from the
   * message's question ends at. An error when the message has no question
   * or the chain never ends.
   */
  function Done(m: Message): (r: Result<Option<Status>>)
  {
    if |m.question| == 0 then Err("undefined method qtype for nil")
    else
      var q := m.question[0];
      var e := EndName(m, q.qname, q.qtype);
      if e.None? then Err("CNAME chain from " + q.qname + " never ends")
      else if m.rcode != NoError then Ok(Some(Error))
      else if Answers(m, e.value, None, q.qtype).Some? then Ok(Some(Answered))
      else if MessageUtility.NoData(m) then Ok(Some(NoData))
      else Ok(None)
  }

  /** A message that is not done is a referral: no error, no answer, no SOA and at least one NS record. */
  lemma NotDoneIsReferral(m: Message)
    requires Done(m) == Ok(None)
    ensures m.rcode == NoError && |Authority(m).soa| == 0 && |Authority(m).ns| > 0
    ensures Answers(m, EndName(m, m.question[0].qname, m.question[0].qtype).value, None, m.question[0].qtype).None?
  {
  }

  /** The lower-cased statistics key of a terminal outcome. */
  function TerminalKey(outcome: string, q: string, extra: Option<string>): string
  {
    Lower("key:" + outcome + ":" + q + (if extra.Some? then ":" + extra.value else ""))
  }

  /**
   * What `answer_calculate` makes of one queried address: a terminal outcome
   * (exception, error, answer, nodata, then a lame delegation, in that
   * order) entered at the address's weight, or else the address's children.
   * A missing response or child list, and a CNAME chain that never ends,
   * give an `IpInfo` with neither, which the calculation rejects as Ruby
   * does on nil.
   */
  function AddressInfo(reply: Option<Reply>, kids: Option<Kids>, ip: string, q: Question,
                       calculated: Spec -> Option<Stats>): IpInfo
  {
    if reply.None? then IpInfo(None, None)
    else if reply.value.Raised? then
      var key := TerminalKey("exception", ip + ":" + q.qname + ":" + q.qclass + ":" + q.qtype, Some(reply.value.text));
      IpInfo(None, Some(Outcome(Exception, [], key)))
    else
      var m := reply.value.msg;
      var e := EndName(m, q.qname, q.qtype);
      if e.None? then IpInfo(None, None)
      else
        var at := ip + ":" + e.value + ":" + q.qclass + ":" + q.qtype;
        var ans := Answers(m, e.value, None, q.qtype);
        if m.rcode != NoError then IpInfo(None, Some(Outcome(Error, [], TerminalKey("error", at, Some(RCodeName(m.rcode))))))
        else if ans.Some? then IpInfo(None, Some(Outcome(Answered, ans.value, TerminalKey("answer", at, None))))
        else if MessageUtility.NoData(m) then IpInfo(None, Some(Outcome(NoData, [], TerminalKey("nodata", at, None))))
        else if kids.Some? && kids.value.Lame? then
          IpInfo(None, Some(Outcome(ReferralLame, [], TerminalKey("referral exception", at, Some(kids.value.text)))))
        else if kids.Some? then IpInfo(Some(Calc(calculated, kids.value.specs)), None)
        else IpInfo(None, None)
  }

  /** The statistics of each child, in order. */
  function Calc(calculated: Spec -> Option<Stats>, specs: seq<Spec>): (r: seq<Option<Stats>>)
    ensures |r| == |specs|
  {
    seq(|specs|, i requires 0 <= i < |specs| => calculated(specs[i]))
  }

  /**
   * `answer_calculate` and `done?` agree on a message that echoes the
   * node's question: the address ends in a terminal outcome of status `s`
   * exactly when `done?` says `s`, and when `done?` says not done the
   * address's stats come from its children or its lameness.
   */
  lemma AddressInfoAgreesWithDone(m: Message, kids: Option<Kids>, ip: string, q: Question, calculated: Spec -> Option<Stats>)
    requires |m.question| > 0 && m.question[0].qname == q.qname && m.question[0].qtype == q.qtype
    requires Done(m).Ok?
    ensures var info := AddressInfo(Some(Msg(m)), kids, ip, q, calculated);
      (forall s :: Done(m) == Ok(Some(s)) <==> info.response.Some? && info.response.value.status == s && s != ReferralLame) &&
      (Done(m) == Ok(None) ==>
        (kids.Some? && kids.value.Lame? ==> info.response.Some? && info.response.value.status == ReferralLame) &&
        (kids.Some? && kids.value.Spawned? ==> info == IpInfo(Some(Calc(calculated, kids.value.specs)), None)))
  {
  }

  // ---------------------------------------------------------------------
  // process_normal: one address at a time

  /**
   * What a node's queries depend on besides the address; `lameCheck` says
   * whether referrals are compared with the start servers (the oldest
   * iteration does not compare).
   */
  datatype Ctx = Ctx(send: Transport, udp: nat, q: Question, nsatype: string, refid: string, maxdepth: nat,
                     bailiwick: Option<string>, resolution: bool, data: map<string, seq<RR>>, lameCheck: bool)

  /**
   * What `process_normal` records for one address: the reply (or the error
   * standing in for it), the warnings the query added, the cache the reply
   * enriched together with its out-of-bailiwick records, and the children.
   */
  datatype Visit = Visit(reply: Reply, warnings: seq<string>, cache: Option<(map<string, seq<RR>>, seq<RR>)>, kids: Option<Kids>)

  /**
   * The children of a referral reply `m`, given the cache it enriched: the
   * start servers for the name the CNAME chain ends at, when their sorted
   * names are the sorted NS targets of the reply (or lameness is not
   * checked); a lame delegation otherwise. An error when the chain never ends or no start server is
   * known.
   */
  function KidsOf(c: Ctx, m: Message, data: map<string, seq<RR>>): Result<Kids>
  {
    var name := EndName(m, c.q.qname, c.q.qtype);
    if name.None? then Err("CNAME chain from " + c.q.qname + " never ends")
    else
      var found := StartersIn(data, name.value, c.nsatype);
      if found.Err? then Err(found.error)
      else
        var (starters, newBailiwick) := found.value;
        if !c.lameCheck || Sort(InfoCaches.StarterNames(starters)) == Sort(DecodedQueries.TargetNames(Authority(m).ns)) then
          Ok(Spawned(Spawn(starters, c.refid + ".", Question(name.value, c.q.qclass, c.q.qtype), Some(newBailiwick), c.resolution, data)))
        else Ok(Lame(LameText))
  }

  /**
   * What one reply gives: an exception or a non-NOERROR reply is kept as it
   * is; a reply that fails validation is an error; a NOERROR reply enriches
   * a copy of the node's cache with its in-bailiwick records and, unless it
   * is done, yields children.
   */
  function Examine(c: Ctx, reply: Reply, warns: seq<string>): Result<Visit>
  {
    if reply.Raised? then Ok(Visit(reply, warns, None, None))
    else
      var m := reply.msg;
      var valid := Validate(m, Some(c.q.qname), None, Some(c.q.qtype));
      if valid.Err? then Err(valid.error)
      else if m.rcode != NoError then Ok(Visit(reply, warns, None, None))
      else
        var cacheable := CacheableRecords(m, c.bailiwick);
        var data := Replaced(c.data, cacheable.good);
        var v := Visit(reply, warns, Some((data, cacheable.bad)), None);
        var done := Done(m);
        if done.Err? then Err(done.error)
        else if done.value.Some? then Ok(v)
        else
          var kids := KidsOf(c, m, data);
          if kids.Err? then Err(kids.error) else Ok(v.(kids := Some(kids.value)))
  }

  /**
   * One address of `process_normal`: past the depth limit the reply is the
   * max-depth error and nothing is asked; otherwise the server is queried
   * with the EDNS0 fallback and the reply examined.
   */
  function VisitOf(c: Ctx, ip: string): Result<Visit>
  {
    if Referrals.CountDots(c.refid) >= c.maxdepth then Ok(Visit(Referrals.MaxdepthError(c.maxdepth), [], None, None))
    else
      var (reply, warns) := DecodedQueries.EdnsQuery(c.send, ip, c.q.qname, c.q.qtype, c.udp);
      Examine(c, reply, warns)
  }

  /** The reply's part of a visit: validation, the enriched copy of the node's cache, and the children of a referral. */
  method ExamineReply(c: Ctx, infocache: InfoCache, reply: Reply, warns: seq<string>) returns (r: Result<Visit>)
    requires infocache.Valid() && infocache.data == c.data
    ensures r == Examine(c, reply, warns)
  {
    if reply.Raised? {
      return Ok(Visit(reply, warns, None, None));
    }
    var m := reply.msg;
    var valid := Validate(m, Some(c.q.qname), None, Some(c.q.qtype));
    if valid.Err? {
      return Err(valid.error);
    }
    if m.rcode != NoError {
      return Ok(Visit(reply, warns, None, None));
    }
    var cache := new InfoCache(infocache);
    var cacheable := CacheableRecords(m, c.bailiwick);
    cache.Add(cacheable.good);
    var v := Visit(reply, warns, Some((cache.data, cacheable.bad)), None);
    var done := Done(m);
    if done.Err? {
      return Err(done.error);
    }
    if done.value.Some? {
      return Ok(v);
    }
    var kids := Delegation(c, m, cache);
    if kids.Err? {
      return Err(kids.error);
    }
    return Ok(v.(kids := Some(kids.value)));
  }

  /** The children of a referral reply, looked up in the cache it enriched. */
  method Delegation(c: Ctx, m: Message, cache: InfoCache) returns (r: Result<Kids>)
    requires cache.Valid()
    ensures r == KidsOf(c, m, cache.data)
  {
    var name := EndName(m, c.q.qname, c.q.qtype);
    if name.None? {
      return Err("CNAME chain from " + c.q.qname + " never ends");
    }
    var found := cache.GetStartServers(name.value, c.nsatype);
    cache.GetNsIn(name.value);
    if found.Err? {
      return Err(found.error);
    }
    var (starters, newBailiwick) := found.value;
    cache.StartServersIn(name.value, c.nsatype, starters, newBailiwick);
    if !c.lameCheck || Sort(InfoCaches.StarterNames(starters)) == Sort(DecodedQueries.TargetNames(Authority(m).ns)) {
      return Ok(Spawned(Spawn(starters, c.refid + ".", Question(name.value, c.q.qclass, c.q.qtype), Some(newBailiwick), c.resolution, cache.data)));
    }
    return Ok(Lame(LameText));
  }

  /** `VisitOf` for a fixed context, as the loop of `process_normal` applies it. */
  function Visitor(c: Ctx): string -> Result<Visit>
  {
    ip => VisitOf(c, ip)
  }

  /**
   * Lameness is a comparison of name multisets: a referral is lame exactly
   * when its start servers are not, counted with multiplicity, the NS
   * targets of the reply.
   */
  lemma LameIffNamesDiffer(c: Ctx, m: Message, data: map<string, seq<RR>>)
    requires c.lameCheck && KidsOf(c, m, data).Ok?
    ensures var starters := StartersIn(data, EndName(m, c.q.qname, c.q.qtype).value, c.nsatype).value.0;
      KidsOf(c, m, data).value.Lame? <==>
        multiset(InfoCaches.StarterNames(starters)) != multiset(DecodedQueries.TargetNames(Authority(m).ns))
  {
    var starters := StartersIn(data, EndName(m, c.q.qname, c.q.qtype).value, c.nsatype).value.0;
    SortAlikeIffSameStrings(InfoCaches.StarterNames(starters), DecodedQueries.TargetNames(Authority(m).ns));
  }

  /**
   * Each child of a referral asks the node's question for the name the CNAME
   * chain ended at, reads the enriched cache, and sits one level deeper
   * than the node; there is at least one.
   */
  lemma SpawnedChildren(c: Ctx, m: Message, data: map<string, seq<RR>>)
    requires KidsOf(c, m, data).Ok? && KidsOf(c, m, data).value.Spawned?
    ensures var specs := KidsOf(c, m, data).value.specs;
      |specs| > 0 &&
      forall k :: 0 <= k < |specs| ==>
        specs[k].qname == EndName(m, c.q.qname, c.q.qtype).value && specs[k].qtype == c.q.qtype &&
        specs[k].cache == data &&
        Referrals.CountDots(specs[k].refid) == Referrals.CountDots(c.refid) + 1
  {
    var name := EndName(m, c.q.qname, c.q.qtype).value;
    var (starters, nb) := StartersIn(data, name, c.nsatype).value;
    CountDotsAppend(c.refid, ".");
    assert "."[..0] == [];
    forall k | 0 <= k < |starters|
      ensures Referrals.CountDots(KidsOf(c, m, data).value.specs[k].refid) == Referrals.CountDots(c.refid) + 1
    {
      SpawnDepth(starters, c.refid + ".", Question(name, c.q.qclass, c.q.qtype), Some(nb), c.resolution, data, k);
    }
  }

  /**
   * Children (or a lame verdict) come only from a valid NOERROR reply that
   * is not done, asked within the depth limit.
   */
  lemma KidsOnlyFromReferrals(c: Ctx, ip: string)
    requires VisitOf(c, ip).Ok? && VisitOf(c, ip).value.kids.Some?
    ensures var v := VisitOf(c, ip).value;
      Referrals.CountDots(c.refid) < c.maxdepth &&
      v.reply.Msg? && v.reply.msg.rcode == NoError && Done(v.reply.msg) == Ok(None) && v.cache.Some? &&
      KidsOf(c, v.reply.msg, v.cache.value.0) == Ok(v.kids.value)
  {
    if Referrals.CountDots(c.refid) < c.maxdepth {
      var (reply, warns) := DecodedQueries.EdnsQuery(c.send, ip, c.q.qname, c.q.qtype, c.udp);
      ExaminedKids(c, reply, warns);
    }
  }

  /** Children (or a lame verdict) come only from a valid NOERROR reply that is not done. */
  lemma ExaminedKids(c: Ctx, reply: Reply, warns: seq<string>)
    requires Examine(c, reply, warns).Ok? && Examine(c, reply, warns).value.kids.Some?
    ensures var v := Examine(c, reply, warns).value;
      v.reply == reply && reply.Msg? && reply.msg.rcode == NoError && Done(reply.msg) == Ok(None) && v.cache.Some? &&
      KidsOf(c, reply.msg, v.cache.value.0) == Ok(v.kids.value)
  {
  }

  lemma VisitKidsNonEmpty(c: Ctx, ip: string)
    requires VisitOf(c, ip).Ok? && VisitOf(c, ip).value.kids.Some?
    ensures VisitOf(c, ip).value.kids.value.Spawned? ==> |VisitOf(c, ip).value.kids.value.specs| > 0
  {
    KidsOnlyFromReferrals(c, ip);
    var v := VisitOf(c, ip).value;
    if v.kids.value.Spawned? {
      SpawnedChildren(c, v.reply.msg, v.cache.value.0);
    }
  }

  /** Past the depth limit no address is queried: each gets the max-depth error and nothing else. */
  lemma TooDeepAsksNothing(c: Ctx, ip: string)
    requires Referrals.CountDots(c.refid) >= c.maxdepth
    ensures VisitOf(c, ip) == Ok(Visit(Referrals.MaxdepthError(c.maxdepth), [], None, None))
    ensures VisitOf(c, ip).value.reply.Raised?
  {
  }

  /** The hashes `process_normal` fills, and the node's warnings. */
  datatype Progress = Progress(responses: Hash<string, Reply>, caches: Hash<string, map<string, seq<RR>>>,
                               bad: Hash<string, seq<RR>>, children: Hash<string, Kids>, warnings: seq<string>)

  /** One address's visit entered into the hashes: each is assigned under the address. */
  function Apply(p: Progress, ip: string, v: Visit): Progress
  {
    Progress(Put(p.responses, ip, v.reply),
             if v.cache.Some? then Put(p.caches, ip, v.cache.value.0) else p.caches,
             if v.cache.Some? then Put(p.bad, ip, v.cache.value.1) else p.bad,
             if v.kids.Some? then Put(p.children, ip, v.kids.value) else p.children,
             p.warnings + v.warnings)
  }

  /** The loop of `process_normal` over `ips`: placeholders skipped, the first error ends it. */
  function VisitAll(visit: string -> Result<Visit>, p: Progress, ips: seq<string>): Result<Progress>
  {
    if ips == [] then Ok(p)
    else
      var prev := VisitAll(visit, p, ips[..|ips| - 1]);
      var ip := ips[|ips| - 1];
      if prev.Err? || IsPlaceholder(ip) then prev
      else
        var v := visit(ip);
        if v.Err? then Err(v.error) else Ok(Apply(prev.value, ip, v.value))
  }

  lemma VisitAllNext(visit: string -> Result<Visit>, p: Progress, ips: seq<string>, i: nat)
    requires i < |ips|
    ensures var prev := VisitAll(visit, p, ips[..i]);
      VisitAll(visit, p, ips[..i + 1]) ==
        if prev.Err? || IsPlaceholder(ips[i]) then prev
        else if visit(ips[i]).Err? then Err(visit(ips[i]).error)
        else Ok(Apply(prev.value, ips[i], visit(ips[i]).value))
  {
    assert ips[..i + 1][..i] == ips[..i];
  }

  lemma {:induction false} VisitAllStopsAtError(visit: string -> Result<Visit>, p: Progress, ips: seq<string>, k: nat)
    requires 0 < k <= |ips|
    requires VisitAll(visit, p, ips[..k]).Err?
    ensures VisitAll(visit, p, ips) == VisitAll(visit, p, ips[..k])
    decreases |ips| - k
  {
    if k < |ips| {
      assert ips[..k + 1][..k] == ips[..k];
      VisitAllStopsAtError(visit, p, ips, k + 1);
    } else {
      assert ips[..k] == ips;
    }
  }

  /** Every spawned child list is non-empty. */
  predicate SpawnedNonEmpty(h: Hash<string, Kids>)
  {
    forall i :: 0 <= i < |h| && h[i].1.Spawned? ==> |h[i].1.specs| > 0
  }

  lemma {:induction false} PutSpawnedNonEmpty(h: Hash<string, Kids>, ip: string, k: Kids)
    requires SpawnedNonEmpty(h)
    requires k.Spawned? ==> |k.specs| > 0
    ensures SpawnedNonEmpty(Put(h, ip, k))
  {
    if h != [] && h[0].0 != ip {
      PutSpawnedNonEmpty(h[1..], ip, k);
      var p := Put(h, ip, k);
      assert p == [h[0]] + Put(h[1..], ip, k);
      forall i | 0 <= i < |p| && p[i].1.Spawned? ensures |p[i].1.specs| > 0 {
        if i > 0 {
          assert p[i] == Put(h[1..], ip, k)[i - 1];
        }
      }
    }
  }

  /** Every child list, in hash order (`children.values.flatten`, lame entries dropped). */
  function AllSpawned(h: Hash<string, Kids>): seq<Spec>
  {
    if h == [] then [] else AllSpawned(h[..|h| - 1]) + (if h[|h| - 1].1.Spawned? then h[|h| - 1].1.specs else [])
  }

  /** A successful calculation: each child's statistics sum to 1 and keep their answers. */
  ghost predicate CalculatedSound(calculated: Spec -> Option<Stats>)
  {
    forall sp :: calculated(sp).Some? ==> Total(calculated(sp).value) == 1.0 && WellFormed(calculated(sp).value)
  }

  lemma CalcSound(calculated: Spec -> Option<Stats>, specs: seq<Spec>)
    requires CalculatedSound(calculated)
    requires AllCalculated(Calc(calculated, specs)).Some?
    ensures var cs := AllCalculated(Calc(calculated, specs)).value;
      |cs| == |specs| && forall i :: 0 <= i < |cs| ==> Total(cs[i]) == 1.0 && WellFormed(cs[i])
  {
    var cs := AllCalculated(Calc(calculated, specs)).value;
    forall i | 0 <= i < |cs| ensures Total(cs[i]) == 1.0 && WellFormed(cs[i]) {
      assert calculated(specs[i]) == Some(cs[i]);
    }
  }

  /**
   * The cache a `Referral` is built with: the one given, or a new one, with
   * the root hints added when roots are given.
   */
  method NodeCache(infocache: InfoCache?, roots: Option<seq<Server>>) returns (cache: InfoCache)
    requires infocache != null ==> infocache.Valid()
    modifies if infocache != null then {infocache} else {}
    ensures cache.Valid()
    ensures infocache != null ==> cache == infocache
    ensures infocache == null ==> fresh(cache)
    ensures cache.data ==
      var base := if infocache != null then old(infocache.data) else map[];
      if roots.Some? then Replaced(base, HintRecords("", roots.value)) else base
  {
    if infocache != null {
      cache := infocache;
    } else {
      cache := new InfoCache(null);
    }
    if roots.Some? {
      cache.AddHints("", roots.value);
    }
  }

  /** An address's children, when it has them, are at least one and each sums to 1. */
  lemma AddressInfoSound(reply: Option<Reply>, kids: Option<Kids>, ip: string, q: Question, calculated: Spec -> Option<Stats>)
    requires CalculatedSound(calculated)
    requires kids.Some? && kids.value.Spawned? ==> |kids.value.specs| > 0
    ensures var info := AddressInfo(reply, kids, ip, q, calculated);
      info.children.Some? ==>
        |info.children.value| > 0 &&
        forall j :: 0 <= j < |info.children.value| && info.children.value[j].Some? ==> Total(info.children.value[j].value) == 1.0
  {
    var info := AddressInfo(reply, kids, ip, q, calculated);
    if info.children.Some? {
      forall j | 0 <= j < |info.children.value| && info.children.value[j].Some?
        ensures Total(info.children.value[j].value) == 1.0
      {
        assert info.children.value[j] == calculated(kids.value.specs[j]);
      }
    }
  }

  // ---------------------------------------------------------------------
  // The node

  class Referral {
    const resolver: Resolver
    const qname: string
    const qclass: string
    const qtype: string
    const nsatype: string
    const infocache: InfoCache
    const refid: string
    const server: Option<string>
    const bailiwick: Option<string>
    const maxdepth: nat
    const referralResolution: bool
    var serverips: Option<seq<string>>
    var serverweights: Weights
    var noglue: bool
    var resolves: Option<seq<Spec>>
    var statsResolve: Option<Stats>
    var stats: Option<Stats>
    var responses: Hash<string, Reply>
    var responsesInfocache: Hash<string, map<string, seq<RR>>>
    var responsesBad: Hash<string, seq<RR>>
    var children: Hash<string, Kids>
    var rootroot: Option<seq<Spec>>
    var warnings: seq<string>

    ghost predicate Valid()
      reads this, infocache
    {
      infocache.Valid()
    }

    /**
     * What makes the node's calculations conserve probability: the weights
     * of its addresses sum to 1, its resolution keeps its answers, and
     * every child list it made is non-empty.
     */
    ghost predicate Sound()
      reads this
    {
      (server.Some? && serverips.Some? ==> |serverips.value| > 0 && SumWeights(serverips.value, serverweights) == 1.0) &&
      (statsResolve.Some? ==> WellFormed(statsResolve.value)) &&
      (resolves.Some? ==> |resolves.value| > 0) &&
      (rootroot.Some? ==> |rootroot.value| > 0) &&
      SpawnedNonEmpty(children)
    }

    /** `resolved?`: the root-root node, a glueless server, or addresses known. */
    predicate Resolved()
      reads this
    {
      server.None? || noglue || serverips.Some?
    }

    /** `processed?`: some child list (or the root list) is recorded. */
    predicate Processed()
      reads this
    {
      |children| > 0 || rootroot.Some?
    }

    /** The node's query context. */
    function Context(): Ctx
      reads this, resolver, infocache
    {
      Ctx(resolver.send, resolver.udpSize, Question(qname, qclass, qtype), nsatype, refid, maxdepth, bailiwick,
          referralResolution, infocache.data, true)
    }

    function Current(): Progress
      reads this
    {
      Progress(responses, responsesInfocache, responsesBad, children, warnings)
    }

    /**
     * `Referral.new`: class IN, type A, address type A, refid "" and a
     * depth limit of 10 unless given; a fresh cache unless one is given;
     * root hints added to the cache when `roots` are given; and, when the
     * server's addresses are given, weight 1/n for each of them.
     */
    constructor(resolver: Resolver, qname: string, qclass: Option<string>, qtype: Option<string>, nsatype: Option<string>,
                infocache: InfoCache?, roots: Option<seq<Server>>, refid: Option<string>, server: Option<string>,
                serverips: Option<seq<string>>, bailiwick: Option<string>, maxdepth: Option<nat>,
                referralResolution: Option<bool>)
      requires infocache != null ==> infocache.Valid()
      modifies if infocache != null then {infocache} else {}
      ensures Valid()
      ensures this.resolver == resolver && this.qname == qname && this.qclass == qclass.GetOr("IN")
      ensures this.qtype == qtype.GetOr("A") && this.nsatype == nsatype.GetOr("A") && this.refid == refid.GetOr("")
      ensures this.server == server && this.serverips == serverips && this.bailiwick == bailiwick
      ensures this.maxdepth == maxdepth.GetOr(10) && this.referralResolution == referralResolution.GetOr(false)
      ensures infocache != null ==> this.infocache == infocache
      ensures infocache == null ==> fresh(this.infocache)
      ensures this.infocache.data ==
        var base := if infocache != null then old(infocache.data) else map[];
        if roots.Some? then Replaced(base, HintRecords("", roots.value)) else base
      ensures serverweights == if serverips.Some? then InitialWeights(serverips.value, |serverips.value|) else []
      ensures !noglue && resolves.None? && statsResolve.None? && stats.None? && rootroot.None?
      ensures responses == [] && responsesInfocache == [] && responsesBad == [] && children == [] && warnings == []
      ensures serverips != Some([]) ==> Sound()
    {
      this.resolver := resolver;
      this.qname := qname;
      this.qclass := qclass.GetOr("IN");
      this.qtype := qtype.GetOr("A");
      this.nsatype := nsatype.GetOr("A");
      this.refid := refid.GetOr("");
      this.server := server;
      this.serverips := serverips;
      this.bailiwick := bailiwick;
      this.maxdepth := maxdepth.GetOr(10);
      this.referralResolution := referralResolution.GetOr(false);
      var cache := NodeCache(infocache, roots);
      this.infocache := cache;
      noglue, resolves, statsResolve, stats, rootroot := false, None, None, None, None;
      responses, responsesInfocache, responsesBad, children, warnings := [], [], [], [], [];
      serverweights := [];
      new;
      if serverips.Some? {
        serverweights := Referrals.InitialServerWeights(serverips.value);
        if |serverips.value| > 0 {
          InitialWeightsSumToOne(serverips.value);
        }
      }
    }

    /**
     * `resolve`: an error if the node is resolved; a glueless server
     * (strictly inside its bailiwick, without addresses) is marked and
     * yields no children; otherwise one address-resolution child per start
     * server of the server's name, asking for its `nsatype` records in class
     * IN within the new bailiwick, numbered `<refid>.0.1`, `<refid>.0.2`, …,
     * appended to the node's resolve children.
     */
    method Resolve() returns (r: Result<seq<Spec>>)
      requires Valid() && Sound()
      modifies this`noglue, this`resolves
      ensures Valid() && Sound()
      ensures old(Resolved()) ==> r.Err? && noglue == old(noglue) && resolves == old(resolves)
      ensures !old(Resolved()) && Glueless(server.value, bailiwick) ==>
        r == Ok([]) && noglue && resolves == old(resolves)
      ensures !old(Resolved()) && !Glueless(server.value, bailiwick) ==>
        var found := StartersIn(infocache.data, server.value, nsatype);
        noglue == old(noglue) &&
        (r.Err? <==> found.Err?) &&
        (r.Ok? ==>
          resolves == Some(old(resolves).GetOr([]) +
            Spawn(found.value.0, refid + ".0.", Question(server.value, "IN", nsatype), Some(found.value.1), true, infocache.data)) &&
          r.value == resolves.value)
    {
      if Resolved() {
        return Err("This Referral object has already been resolved");
      }
      if Glueless(server.value, bailiwick) {
        noglue := true;
        return Ok([]);
      }
      var found := infocache.GetStartServers(server.value, nsatype);
      infocache.GetNsIn(server.value);
      if found.Err? {
        return Err(found.error);
      }
      var (starters, newBailiwick) := found.value;
      infocache.StartServersIn(server.value, nsatype, starters, newBailiwick);
      var specs := Spawn(starters, refid + ".0.", Question(server.value, "IN", nsatype), Some(newBailiwick), true, infocache.data);
      resolves := Some(resolves.GetOr([]) + specs);
      return Ok(resolves.value);
    }

    /** The statistics of the resolution: the no-glue outcome with certainty, or the resolve children combined. */
    function ResolutionOf(calculated: Spec -> Option<Stats>): Option<Stats>
      reads this
    {
      if noglue then
        var key := TerminalKey("noglue", server.GetOr("") + ":" + qname + ":" + qclass + ":" + qtype, None);
        Some([(key, Entry(1.0, Outcome(NoGlue, [], key)))])
      else if resolves.None? then None
      else
        var cs := AllCalculated(Calc(calculated, resolves.value));
        if cs.None? then None else Some(Combine([], cs.value, 1.0))
    }

    /**
     * `resolve_calculate`: the resolution statistics, the address weights
     * they give and those weights' keys as the server's addresses. The
     * weights split an answer's probability over its addresses (the loop as
     * written gives each address all of it; see `NoSplitWeights`). An error
     * when the resolve children are missing or not calculated. With the
     * children's statistics summing to 1, the weights sum to 1.
     */
    method ResolveCalculate(calculated: Spec -> Option<Stats>) returns (r: Result<()>)
      requires Sound() && CalculatedSound(calculated)
      modifies this`statsResolve, this`serverweights, this`serverips
      ensures Sound()
      ensures r.Ok? <==> old(ResolutionOf(calculated)).Some?
      ensures r.Err? ==> statsResolve == old(statsResolve) && serverweights == old(serverweights) && serverips == old(serverips)
      ensures r.Ok? ==>
        statsResolve == old(ResolutionOf(calculated)) &&
        serverweights == ResolveWeights(statsResolve.value) && serverips == Some(Keys(serverweights))
      ensures r.Ok? ==> Total(statsResolve.value) == 1.0 && SumWeights(serverips.value, serverweights) == 1.0
    {
      var sr: Stats;
      if noglue {
        var key := TerminalKey("noglue", server.GetOr("") + ":" + qname + ":" + qclass + ":" + qtype, None);
        sr := [(key, Entry(1.0, Outcome(NoGlue, [], key)))];
        assert sr[..0] == [];
      } else {
        if resolves.None? {
          return Err("undefined method length for nil");
        }
        var cs := AllCalculated(Calc(calculated, resolves.value));
        if cs.None? {
          return Err("undefined method each_pair for nil");
        }
        CalcSound(calculated, resolves.value);
        sr := Referrals.StatsCalculateChildren([], cs.value, 1.0);
        CombineConserves([], cs.value, 1.0);
        CombineWellFormed([], cs.value, 1.0);
      }
      var w := Referrals.WeighResolution(sr);
      Referrals.WeightsSound(sr);
      statsResolve, serverweights, serverips := Some(sr), w, Some(Keys(w));
      return Ok(());
    }

    /** The address information of `answer_calculate`, from the node's responses and children. */
    function Info(calculated: Spec -> Option<Stats>): string -> IpInfo
      reads this
    {
      var rs := responses;
      var ch := children;
      var q := Question(qname, qclass, qtype);
      ip => AddressInfo(Lookup(rs, ip), Lookup(ch, ip), ip, q, calculated)
    }

    /** The statistics `answer_calculate` builds. */
    function AnswerOf(calculated: Spec -> Option<Stats>): Result<Stats>
      reads this
    {
      if server.None? then
        if rootroot.None? then Err("undefined method length for nil")
        else
          var cs := AllCalculated(Calc(calculated, rootroot.value));
          if cs.None? then Err("undefined method each_pair for nil") else Ok(Combine([], cs.value, 1.0))
      else if serverips.None? then Err("undefined method each for nil")
      else AnswerStats(serverips.value, serverweights, statsResolve, Info(calculated), false)
    }

    /**
     * `answer_calculate`: for the root-root node its roots combined at
     * weight 1; otherwise each address contributing exactly its weight, as
     * a copied resolution placeholder, a terminal outcome or its children
     * combined. When the node is sound and its children's statistics sum to
     * 1, so do the node's.
     */
    method AnswerCalculate(calculated: Spec -> Option<Stats>) returns (r: Result<()>)
      requires Sound() && CalculatedSound(calculated)
      modifies this`stats
      ensures r.Ok? <==> AnswerOf(calculated).Ok?
      ensures r.Err? ==> stats == old(stats)
      ensures r.Ok? ==> stats == Some(AnswerOf(calculated).value) && Total(stats.value) == 1.0
    {
      if server.None? {
        if rootroot.None? {
          return Err("undefined method length for nil");
        }
        var cs := AllCalculated(Calc(calculated, rootroot.value));
        if cs.None? {
          return Err("undefined method each_pair for nil");
        }
        CalcSound(calculated, rootroot.value);
        var s := Referrals.StatsCalculateChildren([], cs.value, 1.0);
        CombineConserves([], cs.value, 1.0);
        stats := Some(s);
        return Ok(());
      }
      if serverips.None? {
        return Err("undefined method each for nil");
      }
      var info := Info(calculated);
      var res := Referrals.AnswerLoop(serverips.value, serverweights, statsResolve, info);
      if res.Err? {
        return Err(res.error);
      }
      InfoConserves(calculated);
      AnswerStatsConserve(serverips.value, serverweights, statsResolve, info);
      stats := Some(res.value);
      return Ok(());
    }

    lemma InfoConserves(calculated: Spec -> Option<Stats>)
      requires Sound() && CalculatedSound(calculated) && serverips.Some?
      ensures ChildListsNonEmpty(serverips.value, Info(calculated))
      ensures ChildrenSumToOne(serverips.value, Info(calculated))
    {
      var info := Info(calculated);
      var ips := serverips.value;
      forall i | 0 <= i < |ips|
        ensures info(ips[i]).children.Some? ==> |info(ips[i]).children.value| > 0
        ensures forall j :: info(ips[i]).children.Some? && 0 <= j < |info(ips[i]).children.value| ==>
          (info(ips[i]).children.value[j].Some? ==> Total(info(ips[i]).children.value[j].value) == 1.0)
      {
        var kids := Lookup(children, ips[i]);
        if kids.Some? {
          var k :| 0 <= k < |children| && children[k] == (ips[i], kids.value);
        }
        AddressInfoSound(Lookup(responses, ips[i]), kids, ips[i], Question(qname, qclass, qtype), calculated);
      }
    }

    /**
     * The per-address step of `process_normal` (the body of its loop): the
     * query goes to `ip`, the reply is checked, a copy of the node's cache
     * takes the reply's in-bailiwick records, and the children or the lame
     * verdict are worked out. Only the resolver is changed.
     */
    method VisitAddress(ip: string) returns (r: Result<Visit>)
      requires Valid()
      modifies resolver
      ensures resolver.udpSize == old(resolver.udpSize)
      ensures r == VisitOf(Context(), ip)
    {
      if Referrals.CountDots(refid) >= maxdepth {
        return Ok(Visit(Referrals.MaxdepthError(maxdepth), [], None, None));
      }
      resolver.nameserver := ip;
      var reply, warns := DecodedQueries.MakeQueryMessage(resolver, qname, qtype);
      r := ExamineReply(Context(), infocache, reply, warns);
    }

    /**
     * `process_normal`: every address that is not a placeholder visited in
     * order, its reply, enriched cache, out-of-bailiwick records and children
     * assigned under it and its warnings appended. An error when there are
     * no addresses or a visit raises.
     */
    method ProcessNormal() returns (r: Result<()>)
      requires Valid() && Sound()
      modifies this`responses, this`responsesInfocache, this`responsesBad, this`children, this`warnings, resolver
      ensures Valid() && Sound()
      ensures resolver.udpSize == old(resolver.udpSize)
      ensures serverips.None? ==> r.Err?
      ensures serverips.Some? ==>
        var all := VisitAll(Visitor(Context()), old(Current()), serverips.value);
        (r.Ok? <==> all.Ok?) && (r.Ok? ==> Current() == all.value)
    {
      if serverips.None? {
        return Err("undefined method each for nil");
      }
      var ips := serverips.value;
      ghost var c := Context();
      ghost var visit := Visitor(c);
      ghost var p0 := Current();
      for i := 0 to |ips|
        invariant Valid() && Sound() && Context() == c
        invariant VisitAll(visit, p0, ips[..i]) == Ok(Current())
      {
        VisitAllNext(visit, p0, ips, i);
        if IsPlaceholder(ips[i]) {
          continue;
        }
        assert visit(ips[i]) == VisitOf(c, ips[i]);
        r := NormalAddress(ips[i]);
        if r.Err? {
          VisitAllStopsAtError(visit, p0, ips, i + 1);
          return;
        }
      }
      assert ips[..|ips|] == ips;
      return Ok(());
    }

    /** One address of `process_normal`'s loop: its visit entered into the node's hashes, or the visit's error. */
    method NormalAddress(ip: string) returns (r: Result<()>)
      requires Valid() && Sound()
      modifies this`responses, this`responsesInfocache, this`responsesBad, this`children, this`warnings, resolver
      ensures Valid() && Sound() && Context() == old(Context())
      ensures resolver.udpSize == old(resolver.udpSize)
      ensures var v := VisitOf(old(Context()), ip);
        (v.Err? ==> r == Err(v.error)) && (v.Ok? ==> r == Ok(()) && Current() == Apply(old(Current()), ip, v.value))
    {
      var v := VisitAddress(ip);
      if v.Err? {
        return Err(v.error);
      }
      if v.value.kids.Some? {
        VisitKidsNonEmpty(Context(), ip);
      }
      Record(ip, v.value);
      return Ok(());
    }

    /** One visit entered into the node's hashes. */
    method Record(ip: string, v: Visit)
      requires Sound()
      requires v.kids.Some? && v.kids.value.Spawned? ==> |v.kids.value.specs| > 0
      modifies this`responses, this`responsesInfocache, this`responsesBad, this`children, this`warnings
      ensures Sound()
      ensures Current() == Apply(old(Current()), ip, v)
    {
      var p := Apply(Current(), ip, v);
      if v.kids.Some? {
        PutSpawnedNonEmpty(children, ip, v.kids.value);
      }
      responses, responsesInfocache, responsesBad, children, warnings := p.responses, p.caches, p.bad, p.children, p.warnings;
    }

    /**
     * `process_add_roots`: one child per root server known to the cache,
     * numbered from 1 under the node's refid, with the node's question, no
     * bailiwick and the node's cache.
     */
    method ProcessAddRoots() returns (r: Result<()>)
      requires Valid() && Sound()
      modifies this`rootroot
      ensures Valid() && Sound()
      ensures var found := StartersIn(infocache.data, "", nsatype);
        (r.Err? <==> found.Err?) &&
        (r.Err? ==> rootroot == old(rootroot)) &&
        (r.Ok? ==> rootroot == Some(Spawn(found.value.0, if refid == "" then "" else refid + ".",
                                          Question(qname, qclass, qtype), None, referralResolution, infocache.data)))
    {
      var found := infocache.GetStartServers("", nsatype);
      infocache.GetNsIn("");
      if found.Err? {
        return Err(found.error);
      }
      var (starters, b) := found.value;
      infocache.StartServersIn("", nsatype, starters, b);
      rootroot := Some(Spawn(starters, if refid == "" then "" else refid + ".", Question(qname, qclass, qtype), None,
                             referralResolution, infocache.data));
      return Ok(());
    }

    /**
     * `process`: an error if the node is processed or not resolved; the
     * root-root node adds the roots, any other node queries its addresses.
     * The result is every child made, in order.
     */
    method Process() returns (r: Result<seq<Spec>>)
      requires Valid() && Sound()
      modifies this`responses, this`responsesInfocache, this`responsesBad, this`children, this`warnings, this`rootroot, resolver
      ensures Valid() && Sound()
      ensures old(Processed()) || !old(Resolved()) ==> r.Err? && Current() == old(Current()) && rootroot == old(rootroot)
      ensures r.Ok? ==> r.value == rootroot.GetOr([]) + AllSpawned(children)
      ensures r.Ok? && server.Some? ==>
        serverips.Some? && VisitAll(Visitor(Context()), old(Current()), serverips.value) == Ok(Current())
    {
      if Processed() {
        return Err("This Referral object has already been processed");
      }
      if !Resolved() {
        return Err("You need to resolve this Referral object");
      }
      var done: Result<()>;
      if server.Some? {
        done := ProcessNormal();
      } else {
        done := ProcessAddRoots();
      }
      if done.Err? {
        return Err(done.error);
      }
      return Ok(rootroot.GetOr([]) + AllSpawned(children));
    }
  }
}
