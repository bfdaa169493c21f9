/**
 * `Response::NoGlue`: the stand-in response for a referral to a server
 * whose address nobody gave. It carries no decoded query, cache or
 * starters, its status is always `noglue`, and its statistics key adds the
 * server and the bailiwick, so that every glueless server is counted apart.
 */
module DnstraverseResponseNoGlue {
  import opened Wrappers
  import opened Names
  import opened Outcomes
  import DnstraverseResponses

  /** We asked `ip` about `qname`/`qclass`/`qtype` and were referred to `server` in `bailiwick` without glue. */
  datatype NoGlue = NoGlue(qname: string, qclass: string, qtype: string, ip: string,
                           bailiwick: Option<string>, server: string)
  {
    /** The status is fixed. */
    function Status(): (r: Status)
      ensures r == Outcomes.NoGlue && r != Referral && r != ReferralLame
    {
      Outcomes.NoGlue
    }

    /** The statistics key: the ordinary key's fields, then the server and the bailiwick (nil prints empty). */
    function StatsKey(): (r: string)
      ensures IsPlaceholder(r)
    {
      var r := "key:" + ip + ":" + StatusName(Status()) + ":" +
        (qname + ":" + qclass + ":" + qtype + ":" + server + ":" + bailiwick.GetOr(""));
      assert r[..4] == "key:";
      r
    }

    /** `to_s`. */
    function Describe(): (r: string)
      ensures |r| > |server| && r[|r| - |server|..] == server
    {
      "No glue for " + server
    }
  }

  /**
   * A glueless referral is never merged with a response from the same
   * address whose status is anything but `noglue`.
   */
  lemma KeyApartFromResponses(n: NoGlue, s: Status, qname: string, qclass: string, qtype: string)
    requires s != Outcomes.NoGlue
    ensures n.StatsKey() != DnstraverseResponses.StatsKey(n.ip, s, qname, qclass, qtype)
  {
    StatusNameInjective(Outcomes.NoGlue, s);
    StatusNameHasNoColon(Outcomes.NoGlue);
    StatusNameHasNoColon(s);
    FieldBeforeColon("key:" + n.ip + ":", StatusName(Outcomes.NoGlue), StatusName(s),
      n.qname + ":" + n.qclass + ":" + n.qtype + ":" + n.server + ":" + n.bailiwick.GetOr(""),
      qname + ":" + qclass + ":" + qtype);
  }

  /**
   * Two glueless referrals for the same query from the same address to
   * different servers (host names, which hold no colon) are counted apart.
   */
  lemma KeySeparatesServers(n: NoGlue, m: NoGlue)
    requires n.ip == m.ip && n.qname == m.qname && n.qclass == m.qclass && n.qtype == m.qtype
    requires ':' !in n.server && ':' !in m.server && n.server != m.server
    ensures n.StatsKey() != m.StatsKey()
  {
    var pre := "key:" + n.ip + ":" + StatusName(Outcomes.NoGlue) + ":" + n.qname + ":" + n.qclass + ":" + n.qtype + ":";
    FieldBeforeColon(pre, n.server, m.server, n.bailiwick.GetOr(""), m.bailiwick.GetOr(""));
    assert n.StatsKey() == pre + n.server + ":" + n.bailiwick.GetOr("");
    assert m.StatsKey() == pre + m.server + ":" + m.bailiwick.GetOr("");
  }
}
