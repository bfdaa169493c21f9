/**
 * The record cache of the traversal (`InfoCache`): records keyed by
 * lower-cased (name, class, type), each cache with an optional parent that a
 * lookup falls back to. A response's cache is a child of the cache its query
 * started from, so what one branch of the traversal learns is invisible to
 * the others.
 */
module InfoCaches {
  import opened Wrappers
  import opened Names
  import opened DnsMessage
  import opened Lists
  import opened CacheRecords
  import MessageUtility

  /** A candidate server: its name and its addresses when the cache knows them. */
  datatype Starter = Starter(name: string, ips: Option<seq<string>>)

  /** The lower-cased names of the start servers, in order. */
  function StarterNames(starters: seq<Starter>): (r: seq<string>)
    ensures |r| == |starters|
    ensures forall i :: 0 <= i < |starters| ==> r[i] == Lower(starters[i].name)
  {
    if starters == [] then [] else [Lower(starters[0].name)] + StarterNames(starters[1..])
  }

  /** Starters a referral can be made from: at least one, and every address list known is non-empty. */
  predicate Usable(starters: seq<Starter>)
  {
    |starters| > 0 && forall i :: 0 <= i < |starters| ==> starters[i].ips.Some? ==> |starters[i].ips.value| > 0
  }

  /** The addresses of a lookup result, or nil for no result. */
  function IpsOf(rrs: Option<seq<RR>>): Option<seq<string>>
  {
    match rrs
    case None => None
    case Some(list) => Some(MessageUtility.Addresses(list))
  }

  class InfoCache {
    var data: map<string, seq<RR>>
    const parent: InfoCache?
    /** This cache and its ancestors. */
    ghost const Repr: set<InfoCache>
    ghost const depth: nat

    /** The parent chain is finite and each cache sits above none of its ancestors. */
    ghost predicate Linked()
      decreases depth
    {
      this in Repr &&
      (parent == null ==> Repr == {this}) &&
      (parent != null ==>
        parent.depth < depth && this !in parent.Repr && Repr == {this} + parent.Repr && parent.Linked())
    }

    ghost predicate Valid()
      reads Repr
      decreases depth
    {
      Linked() && NonEmptyEntries(data) && (parent != null ==> parent.Valid())
    }

    /** `initialize(parent)`: an empty cache above `parent`. */
    constructor(parent: InfoCache?)
      requires parent != null ==> parent.Valid()
      ensures Valid()
      ensures this.parent == parent && data == map[]
      ensures Repr == {this} + (if parent == null then {} else parent.Repr)
    {
      this.parent := parent;
      data := map[];
      Repr := {this} + (if parent == null then {} else parent.Repr);
      depth := if parent == null then 0 else parent.depth + 1;
    }

    /**
     * `get?`: the records under the lower-cased key (class IN by default):
     * this cache's entry when it has one, otherwise the parent's answer, and
     * nil at the top of the chain.
     */
    function Get(qname: string, qclass: Option<string>, qtype: string): (r: Option<seq<RR>>)
      reads Repr
      requires Valid()
      ensures r.Some? ==> |r.value| > 0
      ensures QueryKey(qname, qclass, qtype) in data ==> r == Some(data[QueryKey(qname, qclass, qtype)])
      ensures QueryKey(qname, qclass, qtype) !in data && parent != null ==> r == parent.Get(qname, qclass, qtype)
      decreases depth
    {
      var k := QueryKey(qname, qclass, qtype);
      if k in data then Some(data[k])
      else if parent == null then None
      else parent.Get(qname, qclass, qtype)
    }

    /**
     * A lookup sees only this cache and its ancestors: it finds the entry of
     * one of them, and it finds nothing only when none of them has the key.
     */
    lemma {:induction false} GetScoped(qname: string, qclass: Option<string>, qtype: string)
      requires Valid()
      ensures Get(qname, qclass, qtype).Some? ==>
        exists c :: (c in Repr && QueryKey(qname, qclass, qtype) in c.data &&
          c.data[QueryKey(qname, qclass, qtype)] == Get(qname, qclass, qtype).value)
      ensures Get(qname, qclass, qtype).None? ==> forall c :: c in Repr ==> QueryKey(qname, qclass, qtype) !in c.data
      decreases depth
    {
      if QueryKey(qname, qclass, qtype) !in data && parent != null {
        parent.GetScoped(qname, qclass, qtype);
      }
    }

    /**
     * `add`: every key occurring in `rrs` is cleared, then each record is
     * pushed under its key; keys not in `rrs` keep their records, and no
     * other cache changes.
     */
    method Add(rrs: seq<RR>)
      requires Valid()
      modifies this`data
      ensures Valid()
      ensures data == Replaced(old(data), rrs)
    {
      ghost var d0 := data;
      for i := 0 to |rrs|
        invariant data == Cleared(d0, rrs[..i])
      {
        assert rrs[..i + 1][..i] == rrs[..i];
        data := data[KeyOf(rrs[i]) := []];
      }
      assert rrs[..|rrs|] == rrs;
      ghost var c := data;
      for i := 0 to |rrs|
        invariant data == Pushed(c, rrs[..i])
      {
        assert rrs[..i + 1][..i] == rrs[..i];
        var key := KeyOf(rrs[i]);
        ClearedAt(d0, rrs, key);
        PushedKeys(c, rrs[..i], key);
        assert rrs[i] in rrs;
        data := data[key := data[key] + [rrs[i]]];
      }
      ReplacedNonEmpty(d0, rrs);
    }

    /**
     * `add_hints(domain, servers)`: adds, as one `add`, an NS record owned
     * by `domain` for each server and an A or AAAA record for each of its
     * addresses.
     */
    method AddHints(domain: string, servers: seq<Server>)
      requires Valid()
      modifies this`data
      ensures Valid()
      ensures data == Replaced(old(data), HintRecords(domain, servers))
    {
      var rrs := BuildHintRecords(domain, servers);
      Add(rrs);
    }

    /**
     * `get_ns?`: the NS records of the closest enclosing zone the cache
     * knows, trying the domain and then each name left by dropping the
     * leftmost label, down to the root ''; an error when the root has none
     * either (section 5.3.3 of RFC 1034).
     */
    function GetNs(domain: string): (r: Result<seq<RR>>)
      reads Repr
      requires Valid()
      ensures r.Ok? ==> |r.value| > 0
      decreases |domain|
    {
      var rrs := Get(domain, None, "NS");
      if rrs.Some? then Ok(rrs.value)
      else if domain == "" then Err("No nameservers available for  -- no root hints set??")
      else GetNs(StripLabel(domain))
    }

    /** `get_ns?` fails only when no name on the suffix chain has NS records. */
    lemma {:induction false} GetNsFailsOnlyWithoutNs(domain: string)
      requires Valid()
      ensures GetNs(domain).Err? ==>
        forall j :: 0 <= j < |Suffixes(domain)| ==> Get(Suffixes(domain)[j], None, "NS").None?
      decreases |domain|
    {
      if GetNs(domain).Err? && domain != "" {
        var rest := StripLabel(domain);
        GetNsFailsOnlyWithoutNs(rest);
        var s := Suffixes(domain);
        assert s == [domain] + Suffixes(rest);
      }
    }

    /** ... and then it does fail: the root has no NS records either. */
    lemma GetNsFailsWithoutNs(domain: string)
      requires Valid()
      requires forall j :: 0 <= j < |Suffixes(domain)| ==> Get(Suffixes(domain)[j], None, "NS").None?
      ensures GetNs(domain).Err?
    {
      GetNsClosest(domain);
    }

    /**
     * A found NS set is the one of the first name on the suffix chain that
     * has one: the closest enclosing zone the cache knows.
     */
    lemma {:induction false} GetNsClosest(domain: string)
      requires Valid()
      ensures GetNs(domain).Ok? ==>
        exists j :: 0 <= j < |Suffixes(domain)| && Get(Suffixes(domain)[j], None, "NS") == Some(GetNs(domain).value) &&
          forall i :: 0 <= i < j ==> Get(Suffixes(domain)[i], None, "NS").None?
      decreases |domain|
    {
      if GetNs(domain).Ok? {
        var s := Suffixes(domain);
        SuffixesEndAtRoot(domain);
        if Get(domain, None, "NS").Some? {
          assert Get(s[0], None, "NS") == Some(GetNs(domain).value);
        } else {
          var rest := StripLabel(domain);
          GetNsClosest(rest);
          SuffixesShift(domain);
          var j :| 0 <= j < |Suffixes(rest)| && Get(Suffixes(rest)[j], None, "NS") == Some(GetNs(rest).value) &&
            forall i :: 0 <= i < j ==> Get(Suffixes(rest)[i], None, "NS").None?;
          assert s[j + 1] == Suffixes(rest)[j];
          assert forall i :: 0 < i < j + 1 ==> s[i] == Suffixes(rest)[i - 1];
        }
      }
    }

    /** What `get_startservers(domain, nsatype)` returns when `get_ns?` finds a zone. */
    predicate StartServersOf(domain: string, nsatype: string, starters: seq<Starter>, bailiwick: string)
      reads Repr
      requires Valid()
    {
      GetNs(domain).Ok? &&
      var ns := GetNs(domain).value;
      |starters| == |ns| && bailiwick == ns[0].name &&
      forall i :: 0 <= i < |ns| ==> starters[i] == Starter(ns[i].rdata, IpsOf(Get(ns[i].rdata, None, nsatype)))
    }

    /** A found zone has at least one server, and a cached address set is never empty. */
    lemma StartServersUsable(domain: string, nsatype: string, starters: seq<Starter>, bailiwick: string)
      requires Valid()
      requires StartServersOf(domain, nsatype, starters, bailiwick)
      ensures Usable(starters)
    {
      var ns := GetNs(domain).value;
      forall i | 0 <= i < |starters| && starters[i].ips.Some? ensures |starters[i].ips.value| > 0 {
        assert starters[i] == Starter(ns[i].rdata, IpsOf(Get(ns[i].rdata, None, nsatype)));
      }
    }

    /**
     * `get_startservers(domain, nsatype)`: one starter per NS record of the
     * closest known zone, in NS order, each with the cached addresses of type
     * `nsatype` of the server (nil when none are cached), and the owner name
     * of the first NS record as the new bailiwick; an error when `get_ns?`
     * raises.
     */
    method GetStartServers(domain: string, nsatype: string) returns (r: Result<(seq<Starter>, string)>)
      requires Valid()
      ensures r.Err? <==> GetNs(domain).Err?
      ensures r.Ok? ==> StartServersOf(domain, nsatype, r.value.0, r.value.1)
    {
      var found := GetNs(domain);
      if found.Err? {
        return Err(found.error);
      }
      var ns := found.value;
      var starters: seq<Starter> := [];
      for i := 0 to |ns|
        invariant |starters| == i
        invariant forall t :: 0 <= t < i ==> starters[t] == Starter(ns[t].rdata, IpsOf(Get(ns[t].rdata, None, nsatype)))
      {
        var nameserver := ns[i].rdata;
        var iprrs := Get(nameserver, None, nsatype);
        var ips := if iprrs.Some? then Some(MessageUtility.Addresses(iprrs.value)) else None;
        starters := starters + [Starter(nameserver, ips)];
      }
      return Ok((starters, ns[0].name));
    }
  }
}
