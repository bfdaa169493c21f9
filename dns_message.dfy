/**
 * DNS records, messages and the transport seen by the traverser. The wire
 * library's objects become values; the network becomes a function.
 */
module DnsMessage {
  /**
   * A resource record. `rdata` is the record's data as text: the target name
   * of an NS or CNAME record (`domainname`), the address of an A or AAAA record
   * (`address`), and the string the summary groups answers by.
   */
  datatype RR = RR(name: string, klass: string, rtype: string, rdata: string)

  /** Response codes; `OtherRCode` stands for any code the traverser does not name, with the name it prints as. */
  datatype RCode = NoError | FormErr | ServFail | NXDomain | NotImp | Refused | OtherRCode(name: string)

  datatype Question = Question(qname: string, qclass: string, qtype: string)

  datatype Message = Message(
    answerfrom: string,
    rcode: RCode,
    question: seq<Question>,
    answer: seq<RR>,
    authority: seq<RR>,
    additional: seq<RR>)

  /** What a query yields: a message, or the exception object the resolver hands back in its place (`Raised`). */
  datatype Reply = Msg(msg: Message) | Raised(text: string)

  /** The network: what the server at `ip` replies to (qname, qtype) when asked with the given UDP buffer size. */
  type Transport = (string, string, string, nat) -> Reply

  /**
   * The resolver object shared by every query of a traversal: the transport,
   * the nameserver it is pointed at and the EDNS0 UDP buffer size it
   * advertises, both of which callers set before querying.
   */
  class Resolver {
    const send: Transport
    var nameserver: string
    var udpSize: nat

    constructor(send: Transport, udpSize: nat)
      ensures this.send == send && this.udpSize == udpSize && nameserver == ""
    {
      this.send := send;
      this.udpSize := udpSize;
      nameserver := "";
    }

    /** `query(name, type)`: ask the current nameserver with the current buffer size. */
    method Query(qname: string, qtype: string) returns (r: Reply)
      ensures r == send(nameserver, qname, qtype, udpSize)
    {
      r := send(nameserver, qname, qtype, udpSize);
    }
  }

  /** The name a response code prints as. */
  function RCodeName(c: RCode): string
  {
    match c
    case NoError => "NOERROR"
    case FormErr => "FORMERR"
    case ServFail => "SERVFAIL"
    case NXDomain => "NXDOMAIN"
    case NotImp => "NOTIMP"
    case Refused => "REFUSED"
    case OtherRCode(n) => n
  }
}
