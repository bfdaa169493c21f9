/**
 * The `Response` of the middle iteration: the same enrichment of a decoded
 * query as the newest one, but a referral is lame when its start servers are
 * not exactly the servers the authority section named, and the statistics
 * key leads with the address.
 */
module DnstraverseResponses {
  import opened Wrappers
  import opened Names
  import opened DnsMessage
  import opened Outcomes
  import opened InfoCaches
  import opened DecodedQueries
  import opened DecodedQueryCaches
  import opened Sorting
  import Responses

  /** The statistics key: responses agreeing on address, status, name, class and type are merged. */
  function StatsKey(ip: string, status: Status, qname: string, qclass: string, qtype: string): (r: string)
    ensures IsPlaceholder(r)
  {
    var r := "key:" + ip + ":" + StatusName(status) + ":" + (qname + ":" + qclass + ":" + qtype);
    assert r[..4] == "key:";
    r
  }

  /** Two outcomes from one address with different statuses are kept apart. */
  lemma StatsKeySeparatesStatuses(ip: string, a: Status, qname: string, qclass: string, qtype: string,
                                  b: Status, qname': string, qclass': string, qtype': string)
    requires a != b
    ensures StatsKey(ip, a, qname, qclass, qtype) != StatsKey(ip, b, qname', qclass', qtype')
  {
    StatusNameInjective(a, b);
    StatusNameHasNoColon(a);
    StatusNameHasNoColon(b);
    FieldBeforeColon("key:" + ip + ":", StatusName(a), StatusName(b),
      qname + ":" + qclass + ":" + qtype, qname' + ":" + qclass' + ":" + qtype');
  }

  /**
   * The lameness test: the sorted lower-cased starter names differ from the
   * sorted authority names. Two lists sort alike exactly when they hold the
   * same names the same number of times.
   */
  predicate NamesDiffer(starters: seq<Starter>, authoritynames: seq<string>)
  {
    Sort(StarterNames(starters)) != Sort(authoritynames)
  }

  /** The sorted comparison is a comparison of the names counted with multiplicity, whatever their order. */
  lemma NamesDifferByCount(starters: seq<Starter>, authoritynames: seq<string>)
    ensures NamesDiffer(starters, authoritynames) <==> multiset(StarterNames(starters)) != multiset(authoritynames)
  {
    SortAlikeIffSameStrings(StarterNames(starters), authoritynames);
  }

  /** The status after `evaluate`: a referral whose starters are not its authorities is lame. */
  function EvaluatedStatus(decoded: Status, starters: seq<Starter>, authoritynames: seq<string>): (r: Status)
    ensures r == decoded || (decoded == Referral && r == ReferralLame)
    ensures decoded == Referral ==> (r == ReferralLame <==> NamesDiffer(starters, authoritynames))
  {
    if decoded == Referral && NamesDiffer(starters, authoritynames) then ReferralLame else decoded
  }

  /** `Enriched`, and the status is the classifier's but for a lame referral. */
  ghost predicate Evaluated(dq: DecodedQuery, cache: InfoCache, data0: map<string, seq<RR>>,
                            r: Result<()>, status: Status, starters: Option<seq<Starter>>, bailiwick: Option<string>)
    reads cache.Repr
    requires dq.Classified() && cache.Valid()
  {
    ClassifiedShape(dq);
    Responses.Enriched(dq, cache, data0, r, starters, bailiwick) &&
    (r.Ok? ==>
      status ==
        if dq.decoded.status == Referral && starters.Some?
        then EvaluatedStatus(Referral, starters.value, dq.decoded.authoritynames.value)
        else dq.decoded.status)
  }

  /**
   * `evaluate`: the records and starters as in every iteration; a referral
   * whose start servers are not its authority names is lame.
   */
  method Evaluate(dq: DecodedQuery, cache: InfoCache)
    returns (r: Result<()>, status: Status, starters: Option<seq<Starter>>, bailiwick: Option<string>)
    requires dq.Classified() && cache.Valid()
    modifies cache`data
    ensures cache.Valid()
    ensures Evaluated(dq, cache, old(cache.data), r, status, starters, bailiwick)
    ensures starters.Some? ==> bailiwick.Some? && Usable(starters.value)
  {
    ClassifiedShape(dq);
    var d := dq.decoded;
    if d.status != Exception {
      cache.Add(d.cacheable.good);
    }
    status, starters, bailiwick := d.status, None, None;
    if d.status == Restart || d.status == Referral {
      var found := cache.GetStartServers(d.endname.value, "A");
      if found.Err? {
        return Err(found.error), status, starters, bailiwick;
      }
      var (list, newBailiwick) := found.value;
      cache.StartServersUsable(d.endname.value, "A", list, newBailiwick);
      if d.status == Referral {
        status := EvaluatedStatus(d.status, list, d.authoritynames.value);
      }
      starters, bailiwick := Some(list), Some(newBailiwick);
    }
    return Ok(()), status, starters, bailiwick;
  }

  /** A response of this iteration; `cleanup` drops the cache and the starters. */
  class Response {
    const decodedQuery: DecodedQuery
    const status: Status
    const statsKey: string
    var infocache: InfoCache?
    var starters: Option<seq<Starter>>
    var startersBailiwick: Option<string>

    /** The fields as `initialize` leaves them once `evaluate` and `update_stats_key` have run. */
    constructor(decodedQuery: DecodedQuery, infocache: InfoCache, status: Status,
                starters: Option<seq<Starter>>, startersBailiwick: Option<string>)
      ensures this.decodedQuery == decodedQuery && this.infocache == infocache && this.status == status
      ensures this.starters == starters && this.startersBailiwick == startersBailiwick
      ensures statsKey == StatsKey(decodedQuery.ip, status, decodedQuery.qname, decodedQuery.qclass, decodedQuery.qtype)
    {
      this.decodedQuery := decodedQuery;
      this.infocache := infocache;
      this.status := status;
      this.starters := starters;
      this.startersBailiwick := startersBailiwick;
      statsKey := StatsKey(decodedQuery.ip, status, decodedQuery.qname, decodedQuery.qclass, decodedQuery.qtype);
    }

    /** `cleanup`: only the cache and the starters go. */
    method Cleanup()
      modifies this`infocache, this`starters, this`startersBailiwick
      ensures infocache == null && starters == None && startersBailiwick == None
    {
      infocache := null;
      starters := None;
      startersBailiwick := None;
    }
  }

  /**
   * What a response built on a classified query carries: an answered
   * response has answers, and a restart or referral has the name its CNAME
   * chain ended at.
   */
  lemma Carries(resp: Response)
    requires resp.decodedQuery.Classified()
    requires resp.status == resp.decodedQuery.decoded.status ||
      (resp.decodedQuery.decoded.status == Referral && resp.status == ReferralLame)
    ensures resp.status == Answered ==>
      resp.decodedQuery.decoded.answers.Some? && |resp.decodedQuery.decoded.answers.value| > 0
    ensures resp.status in {Restart, Referral, ReferralLame} ==> resp.decodedQuery.decoded.endname.Some?
  {
    var dq := resp.decodedQuery;
    ClassifiedShape(dq);
    if resp.status == Answered {
      AnsweredCarriesAnswers(dq.message, dq.qname, dq.qtype, dq.bailiwick);
    }
  }

  /** What a successful `evaluate` leaves: the classifier's status or a lame referral, and starters exactly for a restart or referral. */
  lemma EvaluatedShape(dq: DecodedQuery, cache: InfoCache, data0: map<string, seq<RR>>,
                       status: Status, starters: Option<seq<Starter>>, bailiwick: Option<string>)
    requires dq.Classified() && cache.Valid()
    requires Evaluated(dq, cache, data0, Ok(()), status, starters, bailiwick)
    ensures status == dq.decoded.status || (dq.decoded.status == Referral && status == ReferralLame)
    ensures starters.Some? <==> dq.decoded.status in {Restart, Referral}
  {
    ClassifiedShape(dq);
  }

  /** A new response holding the given fields; the cache it holds keeps what `evaluate` left in it. */
  method Wrap(dq: DecodedQuery, cache: InfoCache, status: Status, starters: Option<seq<Starter>>, bailiwick: Option<string>)
    returns (resp: Response)
    requires dq.Classified() && cache.Valid()
    requires Evaluated(dq, cache, map[], Ok(()), status, starters, bailiwick)
    ensures fresh(resp) && resp.decodedQuery == dq && resp.infocache == cache && resp.status == status
    ensures resp.starters == starters && resp.startersBailiwick == bailiwick
    ensures cache.Valid() && Evaluated(dq, resp.infocache, map[], Ok(()), resp.status, resp.starters, resp.startersBailiwick)
    ensures resp.statsKey == StatsKey(dq.ip, status, dq.qname, dq.qclass, dq.qtype)
  {
    resp := new Response(dq, cache, status, starters, bailiwick);
  }

  /**
   * The part of `Response.new` after the decoded query is found: `evaluate`
   * on a fresh child of `parentCache`, then the response's fields and key.
   */
  method Respond(dq: DecodedQuery, parentCache: InfoCache?) returns (r: Result<Response>)
    requires dq.Classified()
    requires parentCache != null ==> parentCache.Valid()
    ensures parentCache != null ==> parentCache.data == old(parentCache.data)
    ensures r.Ok? ==>
      var resp := r.value;
      fresh(resp) && resp.infocache != null && fresh(resp.infocache) && resp.infocache.Valid() &&
      resp.infocache.parent == parentCache && resp.decodedQuery == dq &&
      (resp.starters.Some? ==> resp.startersBailiwick.Some? && Usable(resp.starters.value)) &&
      Evaluated(dq, resp.infocache, map[], Ok(()), resp.status, resp.starters, resp.startersBailiwick) &&
      resp.statsKey == StatsKey(dq.ip, resp.status, dq.qname, dq.qclass, dq.qtype)
  {
    var cache := new InfoCache(parentCache);
    var e, status, starters, newBailiwick := Evaluate(dq, cache);
    if e.Err? {
      return Err(e.error);
    }
    var resp := Wrap(dq, cache, status, starters, newBailiwick);
    return Ok(resp);
  }

  /**
   * `Response.new`: the decoded query from the cache (its errors are
   * raised), evaluated on a fresh child of `parentCache`, which is left as
   * it was.
   */
  method New(dqc: DecodedQueryCache, qname: Option<string>, qclass: Option<string>, qtype: Option<string>,
             ip: Option<string>, bailiwick: Option<string>, message: Option<Reply>,
             parentCache: InfoCache?) returns (r: Result<Response>)
    requires dqc.Valid()
    requires parentCache != null ==> parentCache.Valid()
    modifies dqc, dqc.resolver
    ensures dqc.Valid()
    ensures parentCache != null ==> parentCache.data == old(parentCache.data)
    ensures message.Some? ==>
      forall v :: v in dqc.cache.Values && v !in old(dqc.cache).Values ==> v.message == message.value
    ensures r.Ok? ==>
      var resp := r.value;
      fresh(resp) && resp.infocache != null && fresh(resp.infocache) && resp.infocache.Valid() &&
      resp.infocache.parent == parentCache && resp.decodedQuery.Classified() &&
      (message.Some? ==> resp.decodedQuery.message == message.value || resp.decodedQuery in old(dqc.cache).Values) &&
      (resp.status == resp.decodedQuery.decoded.status ||
       (resp.decodedQuery.decoded.status == Referral && resp.status == ReferralLame)) &&
      (resp.starters.Some? <==> resp.decodedQuery.decoded.status in {Restart, Referral}) &&
      (resp.starters.Some? ==> resp.startersBailiwick.Some? && Usable(resp.starters.value)) &&
      Evaluated(resp.decodedQuery, resp.infocache, map[], Ok(()), resp.status, resp.starters, resp.startersBailiwick) &&
      resp.statsKey == StatsKey(resp.decodedQuery.ip, resp.status, resp.decodedQuery.qname,
                                resp.decodedQuery.qclass, resp.decodedQuery.qtype)
  {
    var dq := dqc.Query(qname, qclass, qtype, ip, bailiwick, message);
    if dq.Err? {
      return Err(dq.error);
    }
    r := Respond(dq.value, parentCache);
    if r.Ok? {
      var resp := r.value;
      EvaluatedShape(resp.decodedQuery, resp.infocache, map[], resp.status, resp.starters, resp.startersBailiwick);
    }
  }
}
