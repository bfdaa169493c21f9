/**
 * The record cache of the earlier traverser (`DNSCheck::InfoCache`): one map
 * per cache, no parent; a cache built from another starts from a copy of its
 * map, so what is added to the copy never reaches the original.
 */
module DnscheckLibInfoCaches {
  import opened Wrappers
  import opened Names
  import opened DnsMessage
  import opened CacheRecords
  import InfoCaches
  import MessageUtility

  /** `get?` on a cache's map: the entry under the lower-cased key of class IN, or nil. */
  function GetIn(data: map<string, seq<RR>>, qname: string, qtype: string): Option<seq<RR>>
  {
    var k := QueryKey(qname, None, qtype);
    if k in data then Some(data[k]) else None
  }

  /** `get_ns?` on a cache's map. */
  function NsIn(data: map<string, seq<RR>>, domain: string): Result<seq<RR>>
    decreases |domain|
  {
    var rrs := GetIn(data, domain, "NS");
    if rrs.Some? then Ok(rrs.value)
    else if domain == "" then Err("No nameservers available for  -- no root hints set??")
    else NsIn(data, StripLabel(domain))
  }

  /** The start servers and the new bailiwick a `Referral` derives for `domain` from a cache's map. */
  function StartersIn(data: map<string, seq<RR>>, domain: string, nsatype: string): Result<(seq<InfoCaches.Starter>, string)>
  {
    var ns := NsIn(data, domain);
    if ns.Err? then Err(ns.error)
    else if ns.value == [] then Err("undefined method name for nil")
    else
      Ok((seq(|ns.value|, i requires 0 <= i < |ns.value| =>
            InfoCaches.Starter(ns.value[i].rdata, InfoCaches.IpsOf(GetIn(data, ns.value[i].rdata, nsatype)))),
          ns.value[0].name))
  }

  class InfoCache {
    var data: map<string, seq<RR>>

    ghost predicate Valid()
      reads this
    {
      NonEmptyEntries(data)
    }

    /** `initialize(initobj)`: a copy of the map of `initobj` when it is a cache, an empty map otherwise. */
    constructor(initobj: InfoCache?)
      requires initobj != null ==> initobj.Valid()
      ensures Valid()
      ensures data == if initobj == null then map[] else initobj.data
    {
      data := if initobj == null then map[] else initobj.data;
    }

    /**
     * `add`: every key occurring in `rrs` is cleared, then each record is
     * pushed under its key; keys not in `rrs` keep their records.
     */
    method Add(rrs: seq<RR>)
      requires Valid()
      modifies this
      ensures Valid()
      ensures data == Replaced(old(data), rrs)
    {
      ghost var d0 := data;
      for i := 0 to |rrs|
        invariant data == Cleared(d0, rrs[..i])
      {
        assert rrs[..i + 1][..i] == rrs[..i];
        data := data[KeyOf(rrs[i]) := []];
      }
      assert rrs[..|rrs|] == rrs;
      ghost var c := data;
      for i := 0 to |rrs|
        invariant data == Pushed(c, rrs[..i])
      {
        assert rrs[..i + 1][..i] == rrs[..i];
        var key := KeyOf(rrs[i]);
        ClearedAt(d0, rrs, key);
        PushedKeys(c, rrs[..i], key);
        assert rrs[i] in rrs;
        data := data[key := data[key] + [rrs[i]]];
      }
      ReplacedNonEmpty(d0, rrs);
    }

    /**
     * `add_hints(domain, servers)`: adds, as one `add`, an NS record owned
     * by `domain` for each server and an A or AAAA record for each of its
     * addresses.
     */
    method AddHints(domain: string, servers: seq<Server>)
      requires Valid()
      modifies this
      ensures Valid()
      ensures data == Replaced(old(data), HintRecords(domain, servers))
    {
      var rrs := BuildHintRecords(domain, servers);
      Add(rrs);
    }

    /** `get?`: this cache's entry under the lower-cased key (class IN by default), or nil. */
    function Get(qname: string, qclass: Option<string>, qtype: string): (r: Option<seq<RR>>)
      reads this
      requires Valid()
      ensures r.Some? <==> QueryKey(qname, qclass, qtype) in data
      ensures r.Some? ==> r.value == data[QueryKey(qname, qclass, qtype)] && |r.value| > 0
    {
      var k := QueryKey(qname, qclass, qtype);
      if k in data then Some(data[k]) else None
    }

    /**
     * `get_ns?`: the NS records of the closest enclosing zone in this cache,
     * trying the domain and then each name left by dropping the leftmost
     * label, down to the root ''; an error when the root has none either.
     */
    function GetNs(domain: string): (r: Result<seq<RR>>)
      reads this
      requires Valid()
      ensures r.Ok? ==> |r.value| > 0
      decreases |domain|
    {
      var rrs := Get(domain, None, "NS");
      if rrs.Some? then Ok(rrs.value)
      else if domain == "" then Err("No nameservers available for  -- no root hints set??")
      else GetNs(StripLabel(domain))
    }

    /** `get_ns?` fails only when no name on the suffix chain has NS records in this cache. */
    lemma {:induction false} GetNsFailsOnlyWithoutNs(domain: string)
      requires Valid()
      ensures GetNs(domain).Err? ==>
        forall j :: 0 <= j < |Suffixes(domain)| ==> Get(Suffixes(domain)[j], None, "NS").None?
      decreases |domain|
    {
      if GetNs(domain).Err? && domain != "" {
        var rest := StripLabel(domain);
        GetNsFailsOnlyWithoutNs(rest);
        var s := Suffixes(domain);
        assert s == [domain] + Suffixes(rest);
      }
    }

    /** A found NS set is the entry of the first name on the suffix chain that has one. */
    lemma {:induction false} GetNsClosest(domain: string)
      requires Valid()
      ensures GetNs(domain).Ok? ==>
        exists j :: 0 <= j < |Suffixes(domain)| && Get(Suffixes(domain)[j], None, "NS") == Some(GetNs(domain).value) &&
          forall i :: 0 <= i < j ==> Get(Suffixes(domain)[i], None, "NS").None?
      decreases |domain|
    {
      if GetNs(domain).Ok? {
        var s := Suffixes(domain);
        SuffixesEndAtRoot(domain);
        if Get(domain, None, "NS").Some? {
          assert Get(s[0], None, "NS") == Some(GetNs(domain).value);
        } else {
          var rest := StripLabel(domain);
          GetNsClosest(rest);
          SuffixesShift(domain);
          var j :| 0 <= j < |Suffixes(rest)| && Get(Suffixes(rest)[j], None, "NS") == Some(GetNs(rest).value) &&
            forall i :: 0 <= i < j ==> Get(Suffixes(rest)[i], None, "NS").None?;
          assert s[j + 1] == Suffixes(rest)[j];
          assert forall i :: 0 < i < j + 1 ==> s[i] == Suffixes(rest)[i - 1];
        }
      }
    }

    /** ... and then it does fail: the root has no NS records either. */
    lemma GetNsFailsWithoutNs(domain: string)
      requires Valid()
      requires forall j :: 0 <= j < |Suffixes(domain)| ==> Get(Suffixes(domain)[j], None, "NS").None?
      ensures GetNs(domain).Err?
    {
      GetNsClosest(domain);
    }

    /**
     * What the start-server lookup of this iteration's `Referral` returns
     * for `domain` on this cache: one starter per NS record of the closest
     * known zone, with the cached addresses of type `nsatype` or nil, and the
     * owner of the first NS record as the new bailiwick.
     */
    predicate StartServersOf(domain: string, nsatype: string, starters: seq<InfoCaches.Starter>, bailiwick: string)
      reads this
      requires Valid()
    {
      GetNs(domain).Ok? &&
      var ns := GetNs(domain).value;
      |starters| == |ns| && bailiwick == ns[0].name &&
      forall i :: 0 <= i < |ns| ==>
        starters[i] == InfoCaches.Starter(ns[i].rdata, InfoCaches.IpsOf(Get(ns[i].rdata, None, nsatype)))
    }

    /** The lookup on the object is the lookup on its map. */
    lemma {:induction false} GetNsIn(domain: string)
      requires Valid()
      ensures GetNs(domain) == NsIn(data, domain)
      decreases |domain|
    {
      if Get(domain, None, "NS").None? && domain != "" {
        GetNsIn(StripLabel(domain));
      }
    }

    /** What `StartServersOf` states is what `StartersIn` computes on the map. */
    lemma StartServersIn(domain: string, nsatype: string, starters: seq<InfoCaches.Starter>, bailiwick: string)
      requires Valid()
      ensures StartServersOf(domain, nsatype, starters, bailiwick) <==> StartersIn(data, domain, nsatype) == Ok((starters, bailiwick))
    {
      GetNsIn(domain);
      if GetNs(domain).Ok? {
        var ns := GetNs(domain).value;
        assert forall i :: 0 <= i < |ns| ==> Get(ns[i].rdata, None, nsatype) == GetIn(data, ns[i].rdata, nsatype);
        if StartServersOf(domain, nsatype, starters, bailiwick) {
          assert starters == StartersIn(data, domain, nsatype).value.0;
        }
      }
    }

    /**
     * The start-server lookup of the `Referral` of this iteration, run on this
     * cache; an error when `get_ns?` raises. `DNSCheck::InfoCache` itself has
     * no such method: the `Response` of this iteration calls it on a cache all
     * the same.
     */
    method GetStartServers(domain: string, nsatype: string) returns (r: Result<(seq<InfoCaches.Starter>, string)>)
      requires Valid()
      ensures r.Err? <==> GetNs(domain).Err?
      ensures r.Err? ==> r.error == GetNs(domain).error
      ensures r.Ok? ==> StartServersOf(domain, nsatype, r.value.0, r.value.1)
    {
      var found := GetNs(domain);
      if found.Err? {
        return Err(found.error);
      }
      var ns := found.value;
      var starters: seq<InfoCaches.Starter> := [];
      for i := 0 to |ns|
        invariant |starters| == i
        invariant forall t :: 0 <= t < i ==>
          starters[t] == InfoCaches.Starter(ns[t].rdata, InfoCaches.IpsOf(Get(ns[t].rdata, None, nsatype)))
      {
        var iprrs := Get(ns[i].rdata, None, nsatype);
        var ips := if iprrs.Some? then Some(MessageUtility.Addresses(iprrs.value)) else None;
        starters := starters + [InfoCaches.Starter(ns[i].rdata, ips)];
      }
      return Ok((starters, ns[0].name));
    }
  }
}
