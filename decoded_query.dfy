/**
 * `DecodedQuery`: one query to one server, made (or handed in), checked and
 * classified. Classification is a fixed chain of guards ending in one of six
 * statuses; the query itself retries at 512 bytes when a server seems not to
 * understand EDNS0 (section 5.3 of RFC 2671).
 */
module DecodedQueries {
  import opened Wrappers
  import opened Names
  import opened DnsMessage
  import opened MessageUtility
  import opened Outcomes

  /** What `process` leaves behind. Fields a status does not set stay None (nil), and for an exception the authority split and the cacheable records are empty. */
  datatype Decoded = Decoded(
    status: Status,
    endname: Option<string>,
    auth: AuthoritySplit,
    cacheable: Cacheable,
    answers: Option<seq<RR>>,
    exceptionMessage: Option<string>,
    errorMessage: Option<string>,
    authoritynames: Option<seq<string>>)

  /** The response codes after which the query is retried without EDNS0. */
  predicate EdnsSuspect(c: RCode)
  {
    c == FormErr || c == NotImp || c == ServFail
  }

  /** The warning recorded when the 512-byte retry works where the first query did not. */
  function EdnsWarning(answerfrom: string): string
  {
    answerfrom + " doesn't seem to support EDNS0"
  }

  /**
   * `makequery_message`: the reply kept and the warnings it adds, given the
   * nameserver and the resolver's configured buffer size `udp`.
   */
  function EdnsQuery(send: Transport, ip: string, qname: string, qtype: string, udp: nat): (Reply, seq<string>)
  {
    var first := send(ip, qname, qtype, udp);
    if first.Raised? || udp == 512 || !EdnsSuspect(first.msg.rcode) then (first, [])
    else
      var retry := send(ip, qname, qtype, 512);
      if retry.Raised? || EdnsSuspect(retry.msg.rcode) then (first, [])
      else (retry, [EdnsWarning(first.msg.answerfrom)])
  }

  /**
   * The fallback keeps the first reply unless it is a message with FORMERR,
   * NOTIMP or SERVFAIL at a size other than 512 and the 512-byte retry is a
   * message with any other code; in that case alone it keeps the retry and
   * adds exactly one warning.
   */
  lemma EdnsFallback(send: Transport, ip: string, qname: string, qtype: string, udp: nat)
    ensures var first := send(ip, qname, qtype, udp);
      var retry := send(ip, qname, qtype, 512);
      var fallback := first.Msg? && udp != 512 && EdnsSuspect(first.msg.rcode) &&
        retry.Msg? && !EdnsSuspect(retry.msg.rcode);
      (fallback ==> EdnsQuery(send, ip, qname, qtype, udp) == (retry, [EdnsWarning(first.msg.answerfrom)])) &&
      (!fallback ==> EdnsQuery(send, ip, qname, qtype, udp) == (first, []))
  {
  }

  /** The reply kept is never an EDNS-suspect message when the retry would have produced a message that is not. */
  lemma EdnsNeverKeepsWorseReply(send: Transport, ip: string, qname: string, qtype: string, udp: nat)
    requires udp != 512
    requires send(ip, qname, qtype, 512).Msg? && !EdnsSuspect(send(ip, qname, qtype, 512).msg.rcode)
    ensures var r := EdnsQuery(send, ip, qname, qtype, udp).0;
      r.Raised? || !EdnsSuspect(r.msg.rcode)
  {
  }

  /**
   * `makequery_message`: query at the configured size, retry at 512 if the
   * reply suggests the server does not understand EDNS0, and put the
   * configured size back.
   */
  method MakeQueryMessage(resolver: Resolver, qname: string, qtype: string) returns (reply: Reply, warnings: seq<string>)
    modifies resolver
    ensures resolver.udpSize == old(resolver.udpSize) && resolver.nameserver == old(resolver.nameserver)
    ensures (reply, warnings) == EdnsQuery(resolver.send, resolver.nameserver, qname, qtype, resolver.udpSize)
  {
    var mySize := resolver.udpSize;
    resolver.udpSize := mySize;
    var first := resolver.Query(qname, qtype);
    if first.Raised? || mySize == 512 || !EdnsSuspect(first.msg.rcode) {
      return first, [];
    }
    resolver.udpSize := 512;
    var retry := resolver.Query(qname, qtype);
    resolver.udpSize := mySize;
    if retry.Raised? || EdnsSuspect(retry.msg.rcode) {
      return first, [];
    }
    return retry, [EdnsWarning(first.msg.answerfrom)];
  }

  /** `process_error`'s message for each response code, with `NOTIMP` and `REFUSED` read as Dnsruby's codes. */
  function ErrorMessage(c: RCode): string
  {
    match c
    case FormErr => "Formate error (FORMERR)"
    case ServFail => "Server failure (SERVFAIL)"
    case NXDomain => "No such domain (NXDOMAIN)"
    case NotImp => "Not implemented (NOTIMP)"
    case Refused => "Refused"
    case _ => RCodeName(c)
  }

  /**
   * `process_error`'s message as the source writes it: the last two `when`
   * clauses name the constants `NOTIMP` and `REFUSED`, which nothing
   * defines, so every code but the first three raises `NameError`.
   */
  function ErrorMessageAsWritten(c: RCode): (r: Result<string>)
    ensures r.Ok? <==> c in {FormErr, ServFail, NXDomain}
  {
    match c
    case FormErr => Ok("Formate error (FORMERR)")
    case ServFail => Ok("Server failure (SERVFAIL)")
    case NXDomain => Ok("No such domain (NXDOMAIN)")
    case _ => Err("uninitialized constant NOTIMP")
  }

  /** As written, a REFUSED reply makes `process_error` raise; the intended text is "Refused". */
  lemma RefusedRaisesAsWritten()
    ensures ErrorMessageAsWritten(Refused).Err?
    ensures ErrorMessage(Refused) == "Refused"
  {
  }

  /**
   * The corrected messages keep the source's text wherever the source does
   * not raise, and give NOTIMP and REFUSED their own texts.
   */
  lemma ErrorMessageExtendsAsWritten(c: RCode)
    ensures ErrorMessageAsWritten(c).Ok? ==> ErrorMessage(c) == ErrorMessageAsWritten(c).value
    ensures c == NotImp ==> ErrorMessage(c) == "Not implemented (NOTIMP)"
    ensures c == Refused ==> ErrorMessage(c) == "Refused"
  {
  }

  /** The lower-cased NS targets of an authority section, in order. */
  function TargetNames(ns: seq<RR>): (r: seq<string>)
    ensures |r| == |ns|
    ensures forall i :: 0 <= i < |ns| ==> r[i] == Lower(ns[i].rdata)
  {
    if ns == [] then [] else [Lower(ns[0].rdata)] + TargetNames(ns[1..])
  }

  /** A `Decoded` with only the status and the message's workings set. */
  function Base(status: Status, endname: string, m: Message, bailiwick: Option<string>): Decoded
  {
    Decoded(status, Some(endname), Authority(m), CacheableRecords(m, bailiwick), None, None, None, None)
  }

  /**
   * `process`: the guard chain. A reply that is an exception is `exception`;
   * otherwise the CNAME chain is followed from the query name, and the name it
   * ends at decides the rest. `Err` stands for the CNAME loop on which the
   * source never returns.
   */
  function Process(reply: Reply, qname: string, qtype: string, bailiwick: Option<string>): (r: Result<Decoded>)
  {
    match reply
    case Raised(text) =>
      Ok(Decoded(Exception, None, AuthoritySplit([], [], []), Cacheable([], []), None, Some(text), None, None))
    case Msg(m) =>
      var end := EndName(m, qname, qtype);
      if end.None? then Err("CNAME chain from " + qname + " never ends")
      else
        var e := end.value;
        var auth := Authority(m);
        if !InsideBailiwick(e, bailiwick) then Ok(Base(Restart, e, m, bailiwick))
        else if m.rcode != NoError then Ok(Base(Error, e, m, bailiwick).(errorMessage := Some(ErrorMessage(m.rcode))))
        else
          var answers := Answers(m, e, None, qtype);
          if answers.Some? then Ok(Base(Answered, e, m, bailiwick).(answers := answers))
          else if |auth.soa| > 0 || |auth.ns| == 0 then Ok(Base(NoData, e, m, bailiwick))
          else if auth.ns != [] then Ok(Base(Referral, e, m, bailiwick).(authoritynames := Some(TargetNames(auth.ns))))
          else Ok(Base(Restart, e, m, bailiwick))
  }

  /**
   * The classification is total and each status has exactly one condition:
   * the guards are tried in the order exception, restart, error, answered,
   * nodata, referral. In particular `restart` happens only outside the
   * bailiwick: the last fallback to restart can never be reached.
   */
  lemma ProcessClassifies(reply: Reply, qname: string, qtype: string, bailiwick: Option<string>)
    ensures reply.Raised? ==>
      Process(reply, qname, qtype, bailiwick).Ok? && Process(reply, qname, qtype, bailiwick).value.status == Exception
    ensures reply.Msg? ==> (Process(reply, qname, qtype, bailiwick).Err? <==> EndName(reply.msg, qname, qtype).None?)
    ensures reply.Msg? && Process(reply, qname, qtype, bailiwick).Ok? ==>
      var m := reply.msg;
      var d := Process(reply, qname, qtype, bailiwick).value;
      var e := EndName(m, qname, qtype).value;
      var inside := InsideBailiwick(e, bailiwick);
      var noerror := m.rcode == NoError;
      var answered := Answers(m, e, None, qtype).Some?;
      d.endname == Some(e) &&
      (d.status == Exception ==> false) &&
      (d.status == Restart <==> !inside) &&
      (d.status == Error <==> inside && !noerror) &&
      (d.status == Answered <==> inside && noerror && answered) &&
      (d.status == NoData <==> inside && noerror && !answered && MessageUtility.NoData(m)) &&
      (d.status == Referral <==> inside && noerror && !answered && !MessageUtility.NoData(m))
  {
  }

  /**
   * An `answered` query carries a non-empty list of exactly the answer
   * records for the name the CNAME chain ended at and the type asked for.
   */
  lemma AnsweredCarriesAnswers(reply: Reply, qname: string, qtype: string, bailiwick: Option<string>)
    requires Process(reply, qname, qtype, bailiwick).Ok?
    requires Process(reply, qname, qtype, bailiwick).value.status == Answered
    ensures var d := Process(reply, qname, qtype, bailiwick).value;
      d.answers.Some? && |d.answers.value| > 0 && d.endname.Some? &&
      forall rr :: rr in d.answers.value <==> rr in reply.msg.answer && Matches(rr, d.endname.value, "IN", qtype)
  {
    var e := EndName(reply.msg, qname, qtype).value;
    AnswersSpec(reply.msg, e, None, qtype);
  }

  /**
   * A `referral` names its authorities: the lower-cased targets of the
   * authority section's IN NS records, in section order, and there is at
   * least one.
   */
  lemma ReferralNamesAuthorities(reply: Reply, qname: string, qtype: string, bailiwick: Option<string>)
    requires Process(reply, qname, qtype, bailiwick).Ok?
    requires Process(reply, qname, qtype, bailiwick).value.status == Referral
    ensures var d := Process(reply, qname, qtype, bailiwick).value;
      d.authoritynames.Some? && |d.auth.ns| > 0 &&
      d.auth.ns == Lists.Filter(reply.msg.authority, IsInNs) &&
      d.authoritynames.value == TargetNames(d.auth.ns)
  {
    AuthorityNs(reply.msg.authority);
  }

  /**
   * What the later stages rely on: every status but `exception` comes with
   * the name the CNAME chain ended at, `answered` with its non-empty
   * answers and `referral` with the authority names.
   */
  lemma ClassifiedShape(dq: DecodedQuery)
    requires dq.Classified()
    ensures dq.decoded.status == Exception <==> dq.message.Raised?
    ensures dq.decoded.status != Exception ==> dq.decoded.endname.Some?
    ensures dq.decoded.status == Answered ==> dq.decoded.answers.Some? && |dq.decoded.answers.value| > 0
    ensures dq.decoded.status == Referral ==> dq.decoded.authoritynames.Some?
    ensures dq.decoded.status !in {ReferralLame, NoGlue}
  {
    ProcessClassifies(dq.message, dq.qname, dq.qtype, dq.bailiwick);
    if dq.decoded.status == Answered {
      AnsweredCarriesAnswers(dq.message, dq.qname, dq.qtype, dq.bailiwick);
    }
    if dq.decoded.status == Referral {
      ReferralNamesAuthorities(dq.message, dq.qname, dq.qtype, dq.bailiwick);
    }
  }

  /**
   * The cache key of `DecodedQueryCache` prints a nil bailiwick and the root
   * bailiwick `""` alike. The two give the same classification, so sharing
   * a cache entry between them is harmless.
   */
  lemma NilAndRootBailiwickAgree(reply: Reply, qname: string, qtype: string)
    ensures Process(reply, qname, qtype, None) == Process(reply, qname, qtype, Some(""))
  {
    if reply.Msg? {
      CacheableWithoutBailiwick(reply.msg.additional + reply.msg.authority);
      RootBailiwickCachesAll(reply.msg.additional + reply.msg.authority);
    }
  }

  /** A root bailiwick lets every record through, like a nil one. */
  lemma {:induction false} RootBailiwickCachesAll(rrs: seq<RR>)
    ensures SplitByBailiwick(rrs, Some("")) == SplitByBailiwick(rrs, None)
  {
    if rrs != [] {
      RootBailiwickCachesAll(rrs[..|rrs| - 1]);
    }
  }

  /** What `warnings_add` is given: an array, whose elements are appended one by one, or a single warning. */
  datatype WarningArg = Many(items: seq<string>) | One(item: string)

  function WarningItems(w: WarningArg): seq<string>
  {
    match w
    case Many(items) => items
    case One(item) => [item]
  }

  /** A query as made and classified. Everything but the warnings is fixed once constructed. */
  class DecodedQuery {
    const message: Reply
    const qname: string
    const qclass: string
    const qtype: string
    const ip: string
    const bailiwick: Option<string>
    const decoded: Decoded
    var warnings: Option<seq<string>>

    /** Construction classifies the message; the CNAME chain has to end for construction to return. */
    constructor(message: Reply, qname: string, qclass: string, qtype: string, ip: string, bailiwick: Option<string>)
      requires Process(message, qname, qtype, bailiwick).Ok?
      ensures this.message == message && this.qname == qname && this.qclass == qclass
      ensures this.qtype == qtype && this.ip == ip && this.bailiwick == bailiwick
      ensures decoded == Process(message, qname, qtype, bailiwick).value
      ensures warnings == None
      ensures Classified()
    {
      this.message := message;
      this.qname := qname;
      this.qclass := qclass;
      this.qtype := qtype;
      this.ip := ip;
      this.bailiwick := bailiwick;
      decoded := Process(message, qname, qtype, bailiwick).value;
      warnings := None;
    }

    /** `warnings_add`: the list is created on first use; an array is appended element by element, anything else as one entry. */
    method WarningsAdd(w: WarningArg)
      modifies this`warnings
      ensures warnings == Some(old(warnings).GetOr([]) + WarningItems(w))
    {
      var list := if warnings.Some? then warnings.value else [];
      match w {
        case Many(items) =>
          list := list + items;
        case One(item) =>
          list := list + [item];
      }
      warnings := Some(list);
    }

    /** The stored classification is what `process` gives for the stored message. */
    predicate Classified()
    {
      Process(message, qname, qtype, bailiwick) == Ok(decoded)
    }

    /** `inside_bailiwick?` for the query's own bailiwick. */
    predicate InsideBailiwickOf(name: string)
    {
      InsideBailiwick(name, bailiwick)
    }
  }

  /**
   * `DecodedQuery.new`: query `ip` unless a message (or exception) is handed
   * in, check that the reply echoes the question (`msg_validate`, whose
   * ResolveError is the `Err` here), then classify.
   */
  method Make(message: Option<Reply>, qname: string, qclass: string, qtype: string, ip: string,
              bailiwick: Option<string>, resolver: Resolver) returns (r: Result<DecodedQuery>)
    modifies resolver
    ensures resolver.udpSize == old(resolver.udpSize)
    ensures message.Some? ==> resolver.nameserver == old(resolver.nameserver)
    ensures message.None? ==> resolver.nameserver == ip
    ensures var reply := if message.Some? then message.value else EdnsQuery(resolver.send, ip, qname, qtype, resolver.udpSize).0;
      var valid := message.Some? || reply.Raised? || Validate(reply.msg, Some(qname), Some(qclass), Some(qtype)).Ok?;
      (r.Ok? <==> valid && Process(reply, qname, qtype, bailiwick).Ok?) &&
      (r.Ok? ==>
        (fresh(r.value) && r.value.message == reply && r.value.qname == qname &&
         r.value.qclass == qclass && r.value.qtype == qtype && r.value.ip == ip &&
         r.value.bailiwick == bailiwick && r.value.decoded == Process(reply, qname, qtype, bailiwick).value &&
         r.value.Classified() &&
         r.value.warnings == (if message.None? && EdnsQuery(resolver.send, ip, qname, qtype, resolver.udpSize).1 != []
                              then Some(EdnsQuery(resolver.send, ip, qname, qtype, resolver.udpSize).1) else None)))
  {
    var reply: Reply;
    var warnings: seq<string> := [];
    if message.Some? {
      reply := message.value;
    } else {
      resolver.nameserver := ip;
      reply, warnings := MakeQueryMessage(resolver, qname, qtype);
      if reply.Msg? {
        var v := Validate(reply.msg, Some(qname), Some(qclass), Some(qtype));
        if v.Err? {
          return Err(v.error);
        }
      }
    }
    var p := Process(reply, qname, qtype, bailiwick);
    if p.Err? {
      return Err(p.error);
    }
    var dq := new DecodedQuery(reply, qname, qclass, qtype, ip, bailiwick);
    if warnings != [] {
      dq.WarningsAdd(Many(warnings));
      assert [] + warnings == warnings;
    }
    return Ok(dq);
  }
}
