/**
 * `DecodedQueryCache`: a memo table of decoded queries keyed by
 * (ip, qname, qclass, qtype, bailiwick), with a counter of hits.
 */
module DecodedQueryCaches {
  import opened Wrappers
  import opened DnsMessage
  import opened DecodedQueries

  /** The memo key; a nil bailiwick prints as the empty string. */
  function CacheKey(ip: string, qname: string, qclass: string, qtype: string, bailiwick: Option<string>): string
  {
    "key:dqc:" + ip + ":" + qname + ":" + qclass + ":" + qtype + ":" + bailiwick.GetOr("")
  }

  class DecodedQueryCache {
    const resolver: Resolver
    var cache: map<string, DecodedQuery>
    var cacheHits: nat
    /** Never incremented by this class. */
    var requests: nat

    /** Every stored query carries its own classification. */
    ghost predicate Valid()
      reads this
    {
      forall k :: k in cache ==> cache[k].Classified()
    }

    constructor(resolver: Resolver)
      ensures Valid()
      ensures this.resolver == resolver && cache == map[] && cacheHits == 0 && requests == 0
    {
      this.resolver := resolver;
      cache := map[];
      cacheHits := 0;
      requests := 0;
    }

    /**
     * `query`: a missing qname, qclass, qtype or ip is an error. A hit
     * returns the stored object, whatever message is handed in, and counts
     * one hit; a miss constructs one decoded query and stores it, counting
     * nothing.
     */
    method Query(qname: Option<string>, qclass: Option<string>, qtype: Option<string>, ip: Option<string>,
                 bailiwick: Option<string>, message: Option<Reply>) returns (r: Result<DecodedQuery>)
      requires Valid()
      modifies this, resolver
      ensures Valid()
      ensures r.Ok? ==> r.value.Classified()
      ensures r.Ok? && message.Some? ==> r.value.message == message.value || r.value in old(cache).Values
      ensures message.Some? ==> forall v :: v in cache.Values && v !in old(cache).Values ==> v.message == message.value
      ensures requests == old(requests)
      ensures qname.None? || qclass.None? || qtype.None? || ip.None? ==>
        r.Err? && cache == old(cache) && cacheHits == old(cacheHits)
      ensures qname.Some? && qclass.Some? && qtype.Some? && ip.Some? ==>
        var key := CacheKey(ip.value, qname.value, qclass.value, qtype.value, bailiwick);
        (key in old(cache) ==>
          r == Ok(old(cache)[key]) && cache == old(cache) && cacheHits == old(cacheHits) + 1) &&
        (key !in old(cache) && r.Ok? ==>
          fresh(r.value) && cache == old(cache)[key := r.value] && cacheHits == old(cacheHits) &&
          r.value.qname == qname.value && r.value.qclass == qclass.value && r.value.qtype == qtype.value &&
          r.value.ip == ip.value && r.value.bailiwick == bailiwick) &&
        (key !in old(cache) && r.Err? ==> cache == old(cache) && cacheHits == old(cacheHits))
    {
      if qname.None? {
        return Err("Must pass qname");
      }
      if qclass.None? {
        return Err("Must pass qclass");
      }
      if qtype.None? {
        return Err("Must pass qtype");
      }
      if ip.None? {
        return Err("Must pass ip");
      }
      var key := CacheKey(ip.value, qname.value, qclass.value, qtype.value, bailiwick);
      if key in cache {
        cacheHits := cacheHits + 1;
        return Ok(cache[key]);
      }
      var dq := Make(message, qname.value, qclass.value, qtype.value, ip.value, bailiwick, resolver);
      if dq.Err? {
        return Err(dq.error);
      }
      cache := cache[key := dq.value];
      return Ok(dq.value);
    }
  }

  /** `DecodedQueryCache.new` raises without a resolver. */
  method New(resolver: Resolver?) returns (r: Result<DecodedQueryCache>)
    ensures resolver == null <==> r.Err?
    ensures r.Ok? ==> fresh(r.value) && r.value.Valid() && r.value.resolver == resolver && r.value.cache == map[] && r.value.cacheHits == 0
  {
    if resolver == null {
      return Err("Must pass resolver");
    }
    var c := new DecodedQueryCache(resolver);
    return Ok(c);
  }

  /**
   * Two calls with the same arguments give the very same object: after a
   * successful first call, the second is a hit, returns that object and only
   * counts the hit.
   */
  method QueryTwice(c: DecodedQueryCache, qname: string, qclass: string, qtype: string, ip: string,
                    bailiwick: Option<string>, m1: Option<Reply>, m2: Option<Reply>)
    returns (r1: Result<DecodedQuery>, r2: Result<DecodedQuery>)
    requires c.Valid()
    modifies c, c.resolver
    ensures r1.Ok? ==> r2 == r1 && c.cacheHits == old(c.cacheHits) + (if CacheKey(ip, qname, qclass, qtype, bailiwick) in old(c.cache) then 2 else 1)
  {
    r1 := c.Query(Some(qname), Some(qclass), Some(qtype), Some(ip), bailiwick, m1);
    r2 := c.Query(Some(qname), Some(qclass), Some(qtype), Some(ip), bailiwick, m2);
  }
}
