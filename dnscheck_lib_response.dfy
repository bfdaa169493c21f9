/**
 * The all-in-one `Response` of the earlier traverser: it classifies the
 * message itself (there is no separate decoded query), stores the
 * in-bailiwick records in a copy of the cache it is given before it
 * classifies, and judges a referral lame when its start servers are not the
 * servers the authority section names. The start servers come from
 * `InfoCache.GetStartServers`, the lookup of the `Referral` of the same
 * iteration: the `DNSCheck::InfoCache` this `Response` is built on has no
 * such lookup, and the source's call to it fails.
 */
module DnscheckLibResponses {
  import opened Wrappers
  import opened Names
  import opened DnsMessage
  import opened Outcomes
  import opened MessageUtility
  import opened CacheRecords
  import opened DnscheckLibInfoCaches
  import InfoCaches
  import DecodedQueries
  import DnstraverseResponses

  /** What `process` works out about a message. */
  datatype Processed = Processed(
    status: Status,
    endname: Option<string>,
    auth: AuthoritySplit,
    cacheable: Cacheable,
    starters: Option<seq<InfoCaches.Starter>>,
    startersBailiwick: Option<string>,
    exceptionMessage: Option<string>,
    errorMessage: Option<string>,
    answers: Option<seq<RR>>)

  /** The three fields of a question. */
  datatype Field = QName | QClass | QType

  function FieldOf(q: Question, f: Field): string
  {
    match f
    case QName => q.qname
    case QClass => q.qclass
    case QType => q.qtype
  }

  /** A query argument, or the field of the message's first question when it is not given; Ruby raises when there is none. */
  function FromQuestion(arg: Option<string>, reply: Reply, field: Field): (r: Result<string>)
    ensures arg.Some? ==> r == Ok(arg.value)
    ensures arg.None? ==> (r.Ok? <==> reply.Msg? && |reply.msg.question| > 0)
  {
    if arg.Some? then Ok(arg.value)
    else if reply.Msg? && |reply.msg.question| > 0 then Ok(FieldOf(reply.msg.question[0], field))
    else Err("undefined method for the first question")
  }

  /** A nameserver argument, or the address the message came from. */
  function FromAnswerfrom(arg: Option<string>, reply: Reply): (r: Result<string>)
    ensures arg.Some? ==> r == Ok(arg.value)
    ensures arg.None? ==> (r.Ok? <==> reply.Msg?)
  {
    if arg.Some? then Ok(arg.value)
    else if reply.Msg? then Ok(reply.msg.answerfrom)
    else Err("undefined method answerfrom")
  }

  /**
   * What `process` leaves behind: an exception is only recorded; any other
   * message has its in-bailiwick records added to the cache first, whatever
   * its response code, and is then classified in the newer classifier's
   * order. A restart or referral takes its start servers from the cache for
   * the name the CNAME chain ended at, and a referral whose start servers are
   * not its authority names is lame.
   */
  ghost predicate ProcessedFrom(reply: Reply, qname: string, qtype: string, bailiwick: Option<string>,
                                cache: InfoCache, data0: map<string, seq<RR>>, r: Result<Processed>)
    reads cache
    requires cache.Valid()
  {
    var p := DecodedQueries.Process(reply, qname, qtype, bailiwick);
    (reply.Raised? ==>
      cache.data == data0 &&
      r == Ok(Processed(Exception, None, AuthoritySplit([], [], []), Cacheable([], []), None, None, Some(reply.text), None, None))) &&
    (reply.Msg? ==>
      cache.data == Replaced(data0, CacheableRecords(reply.msg, bailiwick).good) &&
      (p.Err? ==> r.Err?) &&
      (p.Ok? ==>
        var d := p.value;
        (d.status != Restart && d.status != Referral ==>
          r == Ok(Processed(d.status, d.endname, d.auth, d.cacheable, None, None, None, d.errorMessage, d.answers))) &&
        ((d.status == Restart || d.status == Referral) ==>
          (r.Err? <==> cache.GetNs(d.endname.value).Err?) &&
          (r.Ok? ==>
            var v := r.value;
            v.endname == d.endname && v.auth == d.auth && v.cacheable == d.cacheable &&
            v.starters.Some? && v.startersBailiwick.Some? &&
            v.exceptionMessage.None? && v.errorMessage.None? && v.answers.None? &&
            cache.StartServersOf(d.endname.value, "A", v.starters.value, v.startersBailiwick.value) &&
            v.status ==
              if d.status == Referral
              then DnstraverseResponses.EvaluatedStatus(Referral, v.starters.value, DecodedQueries.TargetNames(d.auth.ns))
              else Restart))))
  }

  /**
   * `process` and its `process_*` helpers. `Err` stands for what Ruby
   * raises: a failed start-server lookup, or a CNAME chain that never ends
   * (on which the source loops).
   */
  method Process(reply: Reply, qname: string, qtype: string, bailiwick: Option<string>, cache: InfoCache)
    returns (r: Result<Processed>)
    requires cache.Valid()
    modifies cache
    ensures cache.Valid()
    ensures ProcessedFrom(reply, qname, qtype, bailiwick, cache, old(cache.data), r)
  {
    if reply.Raised? {
      return Ok(Processed(Exception, None, AuthoritySplit([], [], []), Cacheable([], []), None, None, Some(reply.text), None, None));
    }
    var m := reply.msg;
    var auth := Authority(m);
    var cacheable := CacheableRecords(m, bailiwick);
    cache.Add(cacheable.good);
    DecodedQueries.ProcessClassifies(reply, qname, qtype, bailiwick);
    var end := EndName(m, qname, qtype);
    if end.None? {
      return Err("CNAME chain from " + qname + " never ends");
    }
    var e := end.value;
    if !InsideBailiwick(e, bailiwick) {
      var found := cache.GetStartServers(e, "A");
      if found.Err? {
        return Err(found.error);
      }
      return Ok(Processed(Restart, Some(e), auth, cacheable, Some(found.value.0), Some(found.value.1), None, None, None));
    }
    if m.rcode != NoError {
      return Ok(Processed(Error, Some(e), auth, cacheable, None, None, None, Some(DecodedQueries.ErrorMessage(m.rcode)), None));
    }
    var answers := Answers(m, e, None, qtype);
    if answers.Some? {
      return Ok(Processed(Answered, Some(e), auth, cacheable, None, None, None, None, answers));
    }
    if |auth.soa| > 0 || |auth.ns| == 0 {
      return Ok(Processed(NoData, Some(e), auth, cacheable, None, None, None, None, None));
    }
    var found := cache.GetStartServers(e, "A");
    if found.Err? {
      return Err(found.error);
    }
    var (starters, newBailiwick) := found.value;
    var status := DnstraverseResponses.EvaluatedStatus(Referral, starters, DecodedQueries.TargetNames(auth.ns));
    return Ok(Processed(status, Some(e), auth, cacheable, Some(starters), Some(newBailiwick), None, None, None));
  }

  /** A response of this iteration: everything is set once, by `initialize`. */
  class Response {
    const message: Reply
    const qname: string
    const qclass: string
    const qtype: string
    const ip: string
    const bailiwick: Option<string>
    const infocache: InfoCache
    const processed: Processed
    const key: string

    /** The fields once `process` has run and the key is set. */
    constructor(message: Reply, qname: string, qclass: string, qtype: string, ip: string,
                bailiwick: Option<string>, infocache: InfoCache, processed: Processed)
      ensures this.message == message && this.qname == qname && this.qclass == qclass && this.qtype == qtype
      ensures this.ip == ip && this.bailiwick == bailiwick && this.infocache == infocache && this.processed == processed
      ensures key == DnstraverseResponses.StatsKey(ip, processed.status, qname, qclass, qtype)
    {
      this.message := message;
      this.qname := qname;
      this.qclass := qclass;
      this.qtype := qtype;
      this.ip := ip;
      this.bailiwick := bailiwick;
      this.infocache := infocache;
      this.processed := processed;
      key := DnstraverseResponses.StatsKey(ip, processed.status, qname, qclass, qtype);
    }
  }

  /**
   * The part of `Response.new` once the query fields are known: `process`
   * on a copy of `initCache`, then the key.
   */
  method Respond(message: Reply, qname: string, qclass: string, qtype: string, ip: string,
                 bailiwick: Option<string>, initCache: InfoCache?) returns (r: Result<Response>)
    requires initCache != null ==> initCache.Valid()
    ensures initCache != null ==> initCache.data == old(initCache.data)
    ensures r.Ok? ==>
      var resp := r.value;
      fresh(resp) && fresh(resp.infocache) && resp.infocache.Valid() &&
      resp.qname == qname && resp.qclass == qclass && resp.qtype == qtype && resp.ip == ip &&
      resp.bailiwick == bailiwick && resp.message == message &&
      ProcessedFrom(message, qname, qtype, bailiwick, resp.infocache,
                    if initCache == null then map[] else old(initCache.data), Ok(resp.processed)) &&
      resp.key == DnstraverseResponses.StatsKey(ip, resp.processed.status, qname, qclass, qtype)
  {
    var cache := new InfoCache(initCache);
    var p := Process(message, qname, qtype, bailiwick, cache);
    if p.Err? {
      return Err(p.error);
    }
    var resp := new Response(message, qname, qclass, qtype, ip, bailiwick, cache, p.value);
    return Ok(resp);
  }

  /**
   * `Response.new`: the query fields default to the message's question and
   * sender; the cache is a copy of the one given, which is left as it was.
   */
  method New(message: Reply, qname: Option<string>, qclass: Option<string>, qtype: Option<string>, ip: Option<string>,
             bailiwick: Option<string>, initCache: InfoCache?) returns (r: Result<Response>)
    requires initCache != null ==> initCache.Valid()
    ensures initCache != null ==> initCache.data == old(initCache.data)
    ensures r.Ok? ==>
      var resp := r.value;
      fresh(resp) && fresh(resp.infocache) && resp.infocache.Valid() &&
      Ok(resp.qname) == FromQuestion(qname, message, QName) &&
      Ok(resp.qclass) == FromQuestion(qclass, message, QClass) &&
      Ok(resp.qtype) == FromQuestion(qtype, message, QType) &&
      Ok(resp.ip) == FromAnswerfrom(ip, message) &&
      resp.bailiwick == bailiwick && resp.message == message &&
      ProcessedFrom(message, resp.qname, resp.qtype, bailiwick, resp.infocache,
                    if initCache == null then map[] else old(initCache.data), Ok(resp.processed)) &&
      resp.key == DnstraverseResponses.StatsKey(resp.ip, resp.processed.status, resp.qname, resp.qclass, resp.qtype)
  {
    var n := FromQuestion(qname, message, QName);
    var c := FromQuestion(qclass, message, QClass);
    var t := FromQuestion(qtype, message, QType);
    var a := FromAnswerfrom(ip, message);
    if n.Err? || c.Err? || t.Err? || a.Err? {
      return Err("undefined method for a missing question or sender");
    }
    r := Respond(message, n.value, c.value, t.value, a.value, bailiwick, initCache);
  }

  /**
   * Before the lameness verdict, this classifier and the newer one agree:
   * the status is the newer classifier's, except that a referral may be
   * lame.
   */
  lemma AgreesWithDecodedQuery(reply: Reply, qname: string, qtype: string, bailiwick: Option<string>,
                               cache: InfoCache, data0: map<string, seq<RR>>, r: Result<Processed>)
    requires cache.Valid()
    requires ProcessedFrom(reply, qname, qtype, bailiwick, cache, data0, r)
    requires r.Ok?
    ensures DecodedQueries.Process(reply, qname, qtype, bailiwick).Ok?
    ensures var s := DecodedQueries.Process(reply, qname, qtype, bailiwick).value.status;
      r.value.status == s || (s == Referral && r.value.status == ReferralLame)
  {
    DecodedQueries.ProcessClassifies(reply, qname, qtype, bailiwick);
  }
}
