/**
 * The newest `Response`: a decoded query enriched with a cache of its own
 * (a child of the cache the query started from), the start servers for a
 * restart or a referral, and a lameness verdict by bailiwick extension.
 */
module Responses {
  import opened Wrappers
  import opened Names
  import opened DnsMessage
  import opened Outcomes
  import opened CacheRecords
  import opened InfoCaches
  import opened DecodedQueries
  import opened DecodedQueryCaches
  import opened Sorting

  /** The statistics key: responses with equal keys are merged. */
  function StatsKey(status: Status, ip: string, server: Option<string>, qname: string, qclass: string, qtype: string): (r: string)
    ensures IsPlaceholder(r)
  {
    var r := "key:" + StatusName(status) + ":" + (ip + ":" + server.GetOr("") + ":" + qname + ":" + qclass + ":" + qtype);
    assert r[..4] == "key:";
    r
  }

  /**
   * The status comes first in the key, so responses of different statuses
   * are never merged, whatever their other fields.
   */
  lemma StatsKeySeparatesStatuses(a: Status, ip: string, server: Option<string>, qname: string, qclass: string, qtype: string,
                                  b: Status, ip': string, server': Option<string>, qname': string, qclass': string, qtype': string)
    requires a != b
    ensures StatsKey(a, ip, server, qname, qclass, qtype) != StatsKey(b, ip', server', qname', qclass', qtype')
  {
    StatusNameInjective(a, b);
    StatusNameHasNoColon(a);
    StatusNameHasNoColon(b);
    FieldBeforeColon("key:", StatusName(a), StatusName(b),
      ip + ":" + server.GetOr("") + ":" + qname + ":" + qclass + ":" + qtype,
      ip' + ":" + server'.GetOr("") + ":" + qname' + ":" + qclass' + ":" + qtype');
  }

  /**
   * The lameness test of `evaluate` as intended: the query had a bailiwick
   * and the new bailiwick does not end in "." + that bailiwick, compared
   * case-sensitively as the source's regex does.
   */
  predicate NotDeeper(bailiwick: Option<string>, newBailiwick: string)
  {
    bailiwick.Some? && !EndsWith(newBailiwick, "." + bailiwick.value)
  }

  /**
   * The test `starters_bailiwick =~ /\.#{bailiwick}$/` as the source writes
   * it: the first dot is escaped, but the dots of the interpolated bailiwick
   * match any character but a newline; case counts.
   */
  predicate DeeperAsWritten(bailiwick: string, newBailiwick: string)
  {
    var p := "." + bailiwick;
    var n := |newBailiwick|;
    |p| <= n && newBailiwick[n - |p|] == '.' &&
    forall i :: 1 <= i < |p| ==>
      if p[i] == '.' then newBailiwick[n - |p| + i] != '\n' else newBailiwick[n - |p| + i] == p[i]
  }

  /** The lameness verdict as written: a referral is lame unless the regex matches. */
  function LameTestAsWritten(bailiwick: Option<string>, newBailiwick: string): (r: bool)
    ensures bailiwick.None? ==> !r
  {
    bailiwick.Some? && !DeeperAsWritten(bailiwick.value, newBailiwick)
  }

  /**
   * As written, a referral from the zone "example.com" to the unrelated zone
   * "sub.example-com" is not lame; the intended test calls it lame.
   */
  lemma NotLameAsWrittenOutsideZone()
    ensures !LameTestAsWritten(Some("example.com"), "sub.example-com")
    ensures NotDeeper(Some("example.com"), "sub.example-com")
  {
    var n := "sub.example-com";
    var p := ".example.com";
    assert n[|n| - |p|..] == ".example-com";
    assert n[|n| - |p|..][8] != p[8];
    assert forall i :: 1 <= i < |p| ==> if p[i] == '.' then n[|n| - |p| + i] != '\n' else n[|n| - |p| + i] == p[i];
  }

  /** The status `evaluate` settles on, given the classifier's status and, for a referral, the new bailiwick. */
  function EvaluatedStatus(decoded: Status, bailiwick: Option<string>, newBailiwick: string): (r: Status)
    ensures r == decoded || (decoded == Referral && r == ReferralLame)
    ensures decoded == Referral ==> (r == ReferralLame <==> NotDeeper(bailiwick, newBailiwick))
  {
    if decoded == Referral && NotDeeper(bailiwick, newBailiwick) then ReferralLame else decoded
  }

  /**
   * A referral that is not lame moves strictly down the tree: the new
   * bailiwick lies inside the old one and is longer than it.
   */
  lemma NonLameReferralDescends(bailiwick: string, newBailiwick: string)
    requires EvaluatedStatus(Referral, Some(bailiwick), newBailiwick) == Referral
    ensures InsideBailiwick(newBailiwick, Some(bailiwick))
    ensures |newBailiwick| > |bailiwick|
  {
    var suffix := "." + bailiwick;
    var n := |newBailiwick|;
    var m := |suffix|;
    LowerAt(newBailiwick);
    LowerAt(bailiwick);
    LowerAt(suffix);
    assert Lower(suffix) == "." + Lower(bailiwick) by {
      forall i | 0 <= i < m ensures Lower(suffix)[i] == ("." + Lower(bailiwick))[i] {
        if i > 0 {
          assert suffix[i] == bailiwick[i - 1];
        }
      }
    }
    assert Lower(newBailiwick)[n - m..] == Lower(suffix) by {
      forall i | 0 <= i < m ensures Lower(newBailiwick)[n - m..][i] == Lower(suffix)[i] {
        assert newBailiwick[n - m + i] == suffix[i];
      }
    }
  }

  /** The warning `evaluate` adds when the referred names are not the expected ones. */
  const MismatchWarning := "Referred authority names do not match query cache expectations"

  /**
   * What `evaluate` does to the cache and the starters in every iteration,
   * from the cache contents it started with: the cache holds the
   * in-bailiwick records unless the query raised; a restart or referral has
   * the start servers of the name the CNAME chain ended at (an error when no
   * zone is known); nothing else has starters.
   */
  ghost predicate Enriched(dq: DecodedQuery, cache: InfoCache, data0: map<string, seq<RR>>,
                           r: Result<()>, starters: Option<seq<Starter>>, bailiwick: Option<string>)
    reads cache.Repr
    requires dq.Classified() && cache.Valid()
  {
    ClassifiedShape(dq);
    var d := dq.decoded;
    cache.data == (if d.status == Exception then data0 else Replaced(data0, d.cacheable.good)) &&
    (r.Err? ==> starters == None && bailiwick == None) &&
    (d.status != Restart && d.status != Referral ==> r.Ok? && starters == None && bailiwick == None) &&
    ((d.status == Restart || d.status == Referral) ==>
      (r.Err? <==> cache.GetNs(d.endname.value).Err?) &&
      (r.Ok? ==>
        starters.Some? && bailiwick.Some? &&
        cache.StartServersOf(d.endname.value, "A", starters.value, bailiwick.value)))
  }

  /** `Enriched`, and the status is the classifier's but for a lame referral. */
  ghost predicate Evaluated(dq: DecodedQuery, cache: InfoCache, data0: map<string, seq<RR>>,
                            r: Result<()>, status: Status, starters: Option<seq<Starter>>, bailiwick: Option<string>)
    reads cache.Repr
    requires dq.Classified() && cache.Valid()
  {
    Enriched(dq, cache, data0, r, starters, bailiwick) &&
    (r.Ok? ==>
      status == if starters.Some? then EvaluatedStatus(dq.decoded.status, dq.bailiwick, bailiwick.value) else dq.decoded.status)
  }

  /** The warnings after `evaluate`: one more when a referral's starter names are not its authority names. */
  function WarnedAfter(d: Decoded, starters: Option<seq<Starter>>, warnings0: Option<seq<string>>): Option<seq<string>>
  {
    if d.status == Referral && starters.Some? && d.authoritynames.Some? &&
       Sort(StarterNames(starters.value)) != Sort(d.authoritynames.value)
    then Some(warnings0.GetOr([]) + [MismatchWarning])
    else warnings0
  }

  /**
   * `evaluate` on the decoded query and the response's cache: unless the
   * query raised, its in-bailiwick records go into the cache; a restart or
   * referral takes its start servers from the cache for the name the CNAME
   * chain ended at; a referral is lame when it does not descend, and a
   * mismatch between starter and authority names only adds a warning.
   */
  method Evaluate(dq: DecodedQuery, cache: InfoCache)
    returns (r: Result<()>, status: Status, starters: Option<seq<Starter>>, bailiwick: Option<string>)
    requires dq.Classified() && cache.Valid()
    modifies cache`data, dq`warnings
    ensures cache.Valid()
    ensures Evaluated(dq, cache, old(cache.data), r, status, starters, bailiwick)
    ensures dq.warnings == WarnedAfter(dq.decoded, starters, old(dq.warnings))
  {
    ClassifiedShape(dq);
    var d := dq.decoded;
    if d.status != Exception {
      cache.Add(d.cacheable.good);
    }
    status, starters, bailiwick := d.status, None, None;
    if d.status == Restart || d.status == Referral {
      var found := cache.GetStartServers(d.endname.value, "A");
      if found.Err? {
        return Err(found.error), status, starters, bailiwick;
      }
      var (list, newBailiwick) := found.value;
      if d.status == Referral {
        status := EvaluatedStatus(d.status, dq.bailiwick, newBailiwick);
        if Sort(StarterNames(list)) != Sort(d.authoritynames.value) {
          dq.WarningsAdd(One(MismatchWarning));
        }
      }
      starters, bailiwick := Some(list), Some(newBailiwick);
    }
    return Ok(()), status, starters, bailiwick;
  }

  /**
   * A response: a decoded query with the enrichments of `evaluate`. The
   * status and the key are set once; `cleanup` drops the cache and the
   * starters.
   */
  class Response {
    const decodedQuery: DecodedQuery
    const server: Option<string>
    const status: Status
    const statsKey: string
    var infocache: InfoCache?
    var starters: Option<seq<Starter>>
    var startersBailiwick: Option<string>

    /** The fields as `initialize` leaves them once `evaluate` and `update_stats_key` have run. */
    constructor(decodedQuery: DecodedQuery, server: Option<string>, infocache: InfoCache, status: Status,
                starters: Option<seq<Starter>>, startersBailiwick: Option<string>)
      ensures this.decodedQuery == decodedQuery && this.server == server && this.infocache == infocache
      ensures this.status == status && this.starters == starters && this.startersBailiwick == startersBailiwick
      ensures statsKey == StatsKey(status, decodedQuery.ip, server, decodedQuery.qname, decodedQuery.qclass, decodedQuery.qtype)
    {
      this.decodedQuery := decodedQuery;
      this.server := server;
      this.infocache := infocache;
      this.status := status;
      this.starters := starters;
      this.startersBailiwick := startersBailiwick;
      statsKey := StatsKey(status, decodedQuery.ip, server, decodedQuery.qname, decodedQuery.qclass, decodedQuery.qtype);
    }

    /** `cleanup`: the cache and the starters go; the status and the key stay. */
    method Cleanup()
      modifies this`infocache, this`starters, this`startersBailiwick
      ensures infocache == null && starters == None && startersBailiwick == None
    {
      infocache := null;
      starters := None;
      startersBailiwick := None;
    }
  }

  /** What a successful `evaluate` leaves: the classifier's status or a lame referral, and starters exactly for a restart or referral. */
  lemma EvaluatedShape(dq: DecodedQuery, cache: InfoCache, data0: map<string, seq<RR>>,
                       status: Status, starters: Option<seq<Starter>>, bailiwick: Option<string>)
    requires dq.Classified() && cache.Valid()
    requires Evaluated(dq, cache, data0, Ok(()), status, starters, bailiwick)
    ensures status == dq.decoded.status || (dq.decoded.status == Referral && status == ReferralLame)
    ensures starters.Some? <==> dq.decoded.status in {Restart, Referral}
  {
    ClassifiedShape(dq);
  }

  /** A new response holding the given fields; the cache it holds keeps what `evaluate` left in it. */
  method Wrap(dq: DecodedQuery, server: Option<string>, cache: InfoCache, status: Status,
              starters: Option<seq<Starter>>, bailiwick: Option<string>) returns (resp: Response)
    requires dq.Classified() && cache.Valid()
    requires Evaluated(dq, cache, map[], Ok(()), status, starters, bailiwick)
    ensures fresh(resp) && resp.decodedQuery == dq && resp.server == server && resp.infocache == cache
    ensures resp.status == status && resp.starters == starters && resp.startersBailiwick == bailiwick
    ensures resp.statsKey == StatsKey(status, dq.ip, server, dq.qname, dq.qclass, dq.qtype)
    ensures cache.Valid() && Evaluated(dq, resp.infocache, map[], Ok(()), resp.status, resp.starters, resp.startersBailiwick)
  {
    resp := new Response(dq, server, cache, status, starters, bailiwick);
  }

  /**
   * The part of `Response.new` after the decoded query is found: `evaluate`
   * on a fresh child of `parentCache`, then the response's fields and key.
   */
  method Respond(dq: DecodedQuery, server: Option<string>, parentCache: InfoCache?) returns (r: Result<Response>)
    requires dq.Classified()
    requires parentCache != null ==> parentCache.Valid()
    modifies dq`warnings
    ensures parentCache != null ==> parentCache.data == old(parentCache.data)
    ensures r.Ok? ==>
      var resp := r.value;
      fresh(resp) && resp.infocache != null && fresh(resp.infocache) && resp.infocache.Valid() &&
      resp.infocache.parent == parentCache && resp.decodedQuery == dq && resp.server == server &&
      Evaluated(dq, resp.infocache, map[], Ok(()), resp.status, resp.starters, resp.startersBailiwick) &&
      resp.statsKey == StatsKey(resp.status, dq.ip, server, dq.qname, dq.qclass, dq.qtype)
  {
    var cache := new InfoCache(parentCache);
    var e, status, starters, newBailiwick := Evaluate(dq, cache);
    if e.Err? {
      return Err(e.error);
    }
    var resp := Wrap(dq, server, cache, status, starters, newBailiwick);
    return Ok(resp);
  }

  /**
   * `Response.new`: the decoded query comes from the cache (its errors are
   * raised), is evaluated on a fresh child of `parentCache`, which itself is
   * left as it was, and the key is set from the final status.
   */
  method New(dqc: DecodedQueryCache, qname: Option<string>, qclass: Option<string>, qtype: Option<string>,
             ip: Option<string>, bailiwick: Option<string>, message: Option<Reply>, server: Option<string>,
             parentCache: InfoCache?) returns (r: Result<Response>)
    requires dqc.Valid()
    requires parentCache != null ==> parentCache.Valid()
    modifies dqc, dqc.resolver, dqc.cache.Values
    ensures dqc.Valid()
    ensures parentCache != null ==> parentCache.data == old(parentCache.data)
    ensures r.Ok? ==>
      var resp := r.value;
      fresh(resp) && resp.infocache != null && fresh(resp.infocache) && resp.infocache.Valid() &&
      resp.infocache.parent == parentCache && resp.decodedQuery.Classified() && resp.server == server &&
      (resp.status == resp.decodedQuery.decoded.status ||
       (resp.decodedQuery.decoded.status == Referral && resp.status == ReferralLame)) &&
      (resp.starters.Some? <==> resp.decodedQuery.decoded.status in {Restart, Referral}) &&
      Evaluated(resp.decodedQuery, resp.infocache, map[], Ok(()), resp.status, resp.starters, resp.startersBailiwick) &&
      resp.statsKey == StatsKey(resp.status, resp.decodedQuery.ip, server, resp.decodedQuery.qname,
                                resp.decodedQuery.qclass, resp.decodedQuery.qtype)
  {
    var dq := dqc.Query(qname, qclass, qtype, ip, bailiwick, message);
    if dq.Err? {
      return Err(dq.error);
    }
    r := Respond(dq.value, server, parentCache);
    if r.Ok? {
      var resp := r.value;
      EvaluatedShape(resp.decodedQuery, resp.infocache, map[], resp.status, resp.starters, resp.startersBailiwick);
    }
  }
}
