/**
 * What the two record caches share: the lower-cased "name:class:type" key,
 * the replace-per-key update that `add` performs, and the records that
 * `add_hints` builds from a server list.
 */
module CacheRecords {
  import opened Wrappers
  import opened Names
  import opened DnsMessage
  import opened Lists

  /** The cache key: "name:class:type", lower-cased. */
  function Key(name: string, klass: string, rtype: string): string
  {
    Lower(name + ":" + klass + ":" + rtype)
  }

  /** The key a record is stored under. */
  function KeyOf(rr: RR): string
  {
    Key(rr.name, rr.klass, rr.rtype)
  }

  /** The key `get?` looks up: the class defaults to IN. */
  function QueryKey(qname: string, qclass: Option<string>, qtype: string): string
  {
    Key(qname, qclass.GetOr("IN"), qtype)
  }

  /** The keys the records of `rrs` are stored under. */
  function KeysOf(rrs: seq<RR>): set<string>
  {
    set rr | rr in rrs :: KeyOf(rr)
  }

  predicate HasKey(k: string, rr: RR)
  {
    KeyOf(rr) == k
  }

  function KeyFilter(k: string): RR -> bool
  {
    (rr: RR) => HasKey(k, rr)
  }

  /** The records of `rrs` stored under `k`, in input order. */
  function WithKey(rrs: seq<RR>, k: string): seq<RR>
  {
    Filter(rrs, KeyFilter(k))
  }

  /** `WithKey` holds each record stored under `k` as often as `rrs` does, and nothing else. */
  lemma {:induction false} WithKeyCounts(rrs: seq<RR>, k: string)
    ensures forall rr :: multiset(WithKey(rrs, k))[rr] == if KeyOf(rr) == k then multiset(rrs)[rr] else 0
  {
    if rrs != [] {
      WithKeyCounts(rrs[1..], k);
      assert rrs == [rrs[0]] + rrs[1..];
    }
  }

  /** Every key of `rrs` has at least one record. */
  lemma WithKeyNonEmpty(rrs: seq<RR>, k: string)
    requires k in KeysOf(rrs)
    ensures |WithKey(rrs, k)| > 0
  {
    var rr :| rr in rrs && KeyOf(rr) == k;
    WithKeyCounts(rrs, k);
    assert rr in multiset(WithKey(rrs, k));
  }

  /** A key no record of `rrs` has selects nothing. */
  lemma WithKeyEmpty(rrs: seq<RR>, k: string)
    requires k !in KeysOf(rrs)
    ensures WithKey(rrs, k) == []
  {
    WithKeyCounts(rrs, k);
    var w := WithKey(rrs, k);
    forall rr ensures multiset(w)[rr] == 0 {
      if KeyOf(rr) == k {
        assert rr !in rrs;
      }
    }
    assert multiset(w) == multiset{};
  }

  /** A cache map whose entries are all non-empty. */
  ghost predicate NonEmptyEntries(d: map<string, seq<RR>>)
  {
    forall k :: k in d ==> |d[k]| > 0
  }

  /** The first loop of `add`: every key of `rrs` set to an empty list, in input order. */
  function Cleared(d: map<string, seq<RR>>, rrs: seq<RR>): map<string, seq<RR>>
  {
    if rrs == [] then d else Cleared(d, rrs[..|rrs| - 1])[KeyOf(rrs[|rrs| - 1]) := []]
  }

  /** The second loop of `add`: each record appended under its key. */
  function Pushed(d: map<string, seq<RR>>, rrs: seq<RR>): map<string, seq<RR>>
  {
    if rrs == [] then d
    else
      var m := Pushed(d, rrs[..|rrs| - 1]);
      var k := KeyOf(rrs[|rrs| - 1]);
      m[k := (if k in m then m[k] else []) + [rrs[|rrs| - 1]]]
  }

  /** The map after `add(rrs)`. */
  function Replaced(d: map<string, seq<RR>>, rrs: seq<RR>): map<string, seq<RR>>
  {
    Pushed(Cleared(d, rrs), rrs)
  }

  lemma {:induction false} ClearedAt(d: map<string, seq<RR>>, rrs: seq<RR>, k: string)
    ensures k in Cleared(d, rrs) <==> k in d || k in KeysOf(rrs)
    ensures k in KeysOf(rrs) ==> Cleared(d, rrs)[k] == []
    ensures k !in KeysOf(rrs) && k in d ==> Cleared(d, rrs)[k] == d[k]
  {
    if rrs != [] {
      var init := rrs[..|rrs| - 1];
      ClearedAt(d, init, k);
      assert rrs == init + [rrs[|rrs| - 1]];
      assert KeysOf(rrs) == KeysOf(init) + {KeyOf(rrs[|rrs| - 1])};
    }
  }

  lemma {:induction false} PushedKeys(d: map<string, seq<RR>>, rrs: seq<RR>, k: string)
    ensures k in Pushed(d, rrs) <==> k in d || k in KeysOf(rrs)
  {
    if rrs != [] {
      var init := rrs[..|rrs| - 1];
      PushedKeys(d, init, k);
      assert rrs == init + [rrs[|rrs| - 1]];
      assert KeysOf(rrs) == KeysOf(init) + {KeyOf(rrs[|rrs| - 1])};
    }
  }

  lemma {:induction false} PushedAt(d: map<string, seq<RR>>, rrs: seq<RR>, k: string)
    ensures k in Pushed(d, rrs) ==> Pushed(d, rrs)[k] == (if k in d then d[k] else []) + WithKey(rrs, k)
  {
    if rrs != [] {
      var init := rrs[..|rrs| - 1];
      var last := rrs[|rrs| - 1];
      PushedAt(d, init, k);
      assert rrs == init + [last];
      FilterSnoc(init, last, KeyFilter(k));
      if k !in Pushed(d, init) {
        PushedKeys(d, init, k);
        WithKeyEmpty(init, k);
      }
    } else {
      assert Filter(rrs, KeyFilter(k)) == [];
    }
  }

  /**
   * After `add(rrs)` each key of `rrs` holds exactly the records of `rrs`
   * with that key, in input order, whatever it held before; every other key
   * keeps its entry, and no key is added but those of `rrs`.
   */
  lemma ReplacedAt(d: map<string, seq<RR>>, rrs: seq<RR>, k: string)
    ensures k in Replaced(d, rrs) <==> k in d || k in KeysOf(rrs)
    ensures k in KeysOf(rrs) ==> Replaced(d, rrs)[k] == WithKey(rrs, k)
    ensures k !in KeysOf(rrs) && k in d ==> Replaced(d, rrs)[k] == d[k]
  {
    ClearedAt(d, rrs, k);
    PushedKeys(Cleared(d, rrs), rrs, k);
    PushedAt(Cleared(d, rrs), rrs, k);
    if k !in KeysOf(rrs) {
      WithKeyEmpty(rrs, k);
    }
  }

  /** The update replaces: what a key of `rrs` held before makes no difference afterwards. */
  lemma ReplaceNotAppend(d1: map<string, seq<RR>>, d2: map<string, seq<RR>>, rrs: seq<RR>, k: string)
    requires k in KeysOf(rrs)
    ensures k in Replaced(d1, rrs) && k in Replaced(d2, rrs) && Replaced(d1, rrs)[k] == Replaced(d2, rrs)[k]
  {
    ReplacedAt(d1, rrs, k);
    ReplacedAt(d2, rrs, k);
  }

  /** Adding the same records twice is adding them once. */
  lemma ReplacedIdempotent(d: map<string, seq<RR>>, rrs: seq<RR>)
    ensures Replaced(Replaced(d, rrs), rrs) == Replaced(d, rrs)
  {
    forall k ensures k in Replaced(Replaced(d, rrs), rrs) <==> k in Replaced(d, rrs) {
      ReplacedAt(d, rrs, k);
      ReplacedAt(Replaced(d, rrs), rrs, k);
    }
    forall k | k in Replaced(d, rrs) ensures Replaced(Replaced(d, rrs), rrs)[k] == Replaced(d, rrs)[k] {
      ReplacedAt(d, rrs, k);
      ReplacedAt(Replaced(d, rrs), rrs, k);
    }
  }

  /** The update never creates an empty entry. */
  lemma ReplacedNonEmpty(d: map<string, seq<RR>>, rrs: seq<RR>)
    requires NonEmptyEntries(d)
    ensures NonEmptyEntries(Replaced(d, rrs))
  {
    forall k | k in Replaced(d, rrs) ensures |Replaced(d, rrs)[k]| > 0 {
      ReplacedAt(d, rrs, k);
      if k in KeysOf(rrs) {
        WithKeyNonEmpty(rrs, k);
      }
    }
  }

  /** A server of a hint list: its name and its addresses. */
  datatype Server = Server(name: string, ips: seq<string>)

  /** The type `add_hints` gives an address: A for four dot-separated digit groups, AAAA otherwise. */
  function AddressType(ip: string): string
  {
    if IsDottedQuad(ip) then "A" else "AAAA"
  }

  /** The address records of one server, in address order. */
  function AddressRecords(name: string, ips: seq<string>): (r: seq<RR>)
    ensures |r| == |ips|
    ensures forall i :: 0 <= i < |ips| ==> r[i] == RR(name, "IN", AddressType(ips[i]), ips[i])
  {
    if ips == [] then [] else AddressRecords(name, ips[..|ips| - 1]) + [RR(name, "IN", AddressType(ips[|ips| - 1]), ips[|ips| - 1])]
  }

  /** The records of one server: the NS record owned by the domain, then its address records. */
  function ServerRecords(domain: string, server: Server): seq<RR>
  {
    [RR(domain, "IN", "NS", server.name)] + AddressRecords(server.name, server.ips)
  }

  /** The records `add_hints(domain, servers)` builds, server by server. */
  function HintRecords(domain: string, servers: seq<Server>): seq<RR>
  {
    if servers == [] then []
    else HintRecords(domain, servers[..|servers| - 1]) + ServerRecords(domain, servers[|servers| - 1])
  }

  lemma HintStep(domain: string, servers: seq<Server>, i: nat)
    requires i < |servers|
    ensures HintRecords(domain, servers[..i + 1]) == HintRecords(domain, servers[..i]) + ServerRecords(domain, servers[i])
  {
    assert servers[..i + 1][..i] == servers[..i];
  }

  lemma AddressStep(name: string, ips: seq<string>, j: nat)
    requires j < |ips|
    ensures AddressRecords(name, ips[..j + 1]) == AddressRecords(name, ips[..j]) + [RR(name, "IN", AddressType(ips[j]), ips[j])]
  {
    assert ips[..j + 1][..j] == ips[..j];
  }

  /** The NS record a hint list gives a server. */
  function HintNs(domain: string, server: Server): RR
  {
    RR(domain, "IN", "NS", server.name)
  }

  /** A hint record of one server: its NS record, or an address record of one of its addresses, typed by the dotted-quad test. */
  predicate IsHintOf(domain: string, s: Server, rr: RR)
  {
    rr == HintNs(domain, s) || (rr.rdata in s.ips && rr == RR(s.name, "IN", AddressType(rr.rdata), rr.rdata))
  }

  /** The records of one server include its NS record and one record per address. */
  lemma ServerRecordsComplete(domain: string, s: Server)
    ensures HintNs(domain, s) in ServerRecords(domain, s)
    ensures forall ip :: ip in s.ips ==> RR(s.name, "IN", AddressType(ip), ip) in ServerRecords(domain, s)
  {
    var own := ServerRecords(domain, s);
    var addrs := AddressRecords(s.name, s.ips);
    assert own[0] == HintNs(domain, s);
    forall ip | ip in s.ips ensures RR(s.name, "IN", AddressType(ip), ip) in own {
      var i :| 0 <= i < |s.ips| && s.ips[i] == ip;
      assert addrs[i] in addrs;
    }
  }

  /** The records of one server are its NS record and its address records only. */
  lemma ServerRecordsSound(domain: string, s: Server)
    ensures forall rr :: rr in ServerRecords(domain, s) ==> IsHintOf(domain, s, rr)
  {
    var addrs := AddressRecords(s.name, s.ips);
    forall rr | rr in addrs ensures IsHintOf(domain, s, rr) {
      var i :| 0 <= i < |addrs| && addrs[i] == rr;
      assert s.ips[i] in s.ips;
    }
  }

  /** The inner loop of `add_hints`: one server's NS record and address records. */
  method BuildServerRecords(domain: string, server: Server) returns (rrs: seq<RR>)
    ensures rrs == ServerRecords(domain, server)
  {
    rrs := [RR(domain, "IN", "NS", server.name)];
    for j := 0 to |server.ips|
      invariant rrs == [RR(domain, "IN", "NS", server.name)] + AddressRecords(server.name, server.ips[..j])
    {
      var ip := server.ips[j];
      AddressStep(server.name, server.ips, j);
      rrs := rrs + [RR(server.name, "IN", AddressType(ip), ip)];
    }
    assert server.ips[..|server.ips|] == server.ips;
  }

  /** The record list `add_hints` collects before its single `add`. */
  method BuildHintRecords(domain: string, servers: seq<Server>) returns (rrs: seq<RR>)
    ensures rrs == HintRecords(domain, servers)
  {
    rrs := [];
    for i := 0 to |servers|
      invariant rrs == HintRecords(domain, servers[..i])
    {
      var more := BuildServerRecords(domain, servers[i]);
      HintStep(domain, servers, i);
      rrs := rrs + more;
    }
    assert servers[..|servers|] == servers;
  }

  lemma {:induction false} HintRecordsComplete(domain: string, servers: seq<Server>)
    ensures forall s :: s in servers ==> HintNs(domain, s) in HintRecords(domain, servers)
    ensures forall s, ip :: s in servers && ip in s.ips ==>
      RR(s.name, "IN", AddressType(ip), ip) in HintRecords(domain, servers)
  {
    if servers != [] {
      var init := servers[..|servers| - 1];
      var last := servers[|servers| - 1];
      HintRecordsComplete(domain, init);
      ServerRecordsComplete(domain, last);
      assert servers == init + [last];
    }
  }

  /** Every hint record is the NS record or an address record of some server of the list. */
  lemma {:induction false} HintRecordsSound(domain: string, servers: seq<Server>)
    ensures forall rr :: rr in HintRecords(domain, servers) ==> exists s :: s in servers && IsHintOf(domain, s, rr)
  {
    if servers != [] {
      var init := servers[..|servers| - 1];
      var last := servers[|servers| - 1];
      HintRecordsSound(domain, init);
      ServerRecordsSound(domain, last);
      assert servers == init + [last];
      forall rr | rr in HintRecords(domain, servers) ensures exists s :: s in servers && IsHintOf(domain, s, rr) {
        if rr in HintRecords(domain, init) {
          var s :| s in init && IsHintOf(domain, s, rr);
          assert s in servers;
        } else {
          assert IsHintOf(domain, last, rr);
        }
      }
    }
  }

  /** There is one hint record per server and one per address. */
  lemma {:induction false} HintRecordsCount(domain: string, servers: seq<Server>)
    ensures |HintRecords(domain, servers)| == |servers| + AddressCount(servers)
  {
    if servers != [] {
      HintRecordsCount(domain, servers[..|servers| - 1]);
    }
  }

  function AddressCount(servers: seq<Server>): nat
  {
    if servers == [] then 0 else AddressCount(servers[..|servers| - 1]) + |servers[|servers| - 1].ips|
  }

  /** The NS record of a hint list is found under the key `get?` uses for (domain, NS). */
  lemma HintNsKey(domain: string, server: Server)
    ensures KeyOf(HintNs(domain, server)) == QueryKey(domain, None, "NS")
  {
  }
}
