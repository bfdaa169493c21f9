/**
 * The message helpers: section filters, the authority split, CNAME-chain
 * following (section 3.6.2 of RFC 1034), the NODATA test (section 2.2 of
 * RFC 2308), the in-bailiwick split of cacheable records and the check of the
 * echoed question. None of them changes anything outside the call.
 */
module MessageUtility {
  import opened Wrappers
  import opened Names
  import opened DnsMessage
  import opened Lists

  /** Name, class and type all match, ignoring case (`casecmp`). */
  predicate Matches(rr: RR, qname: string, qclass: string, qtype: string)
  {
    EqualIgnoreCase(rr.name, qname) && EqualIgnoreCase(rr.klass, qclass) && EqualIgnoreCase(rr.rtype, qtype)
  }

  /** The records of a section matching (qname, qclass, qtype), in section order; the class defaults to IN. */
  function Select(section: seq<RR>, qname: string, qclass: Option<string>, qtype: string): (r: seq<RR>)
    ensures |r| <= |section|
  {
    if section == [] then []
    else
      (if Matches(section[0], qname, qclass.GetOr("IN"), qtype) then [section[0]] else [])
      + Select(section[1..], qname, qclass, qtype)
  }

  /** A selection holds exactly the matching records of the section. */
  lemma {:induction false} SelectMembers(section: seq<RR>, qname: string, qclass: Option<string>, qtype: string)
    ensures forall rr :: rr in Select(section, qname, qclass, qtype) <==>
      rr in section && Matches(rr, qname, qclass.GetOr("IN"), qtype)
  {
    if section != [] {
      SelectMembers(section[1..], qname, qclass, qtype);
      assert section == [section[0]] + section[1..];
    }
  }

  /** Selecting from two sections in a row is selecting from each in turn: a selection keeps section order. */
  lemma {:induction false} SelectAppend(a: seq<RR>, b: seq<RR>, qname: string, qclass: Option<string>, qtype: string)
    ensures Select(a + b, qname, qclass, qtype) == Select(a, qname, qclass, qtype) + Select(b, qname, qclass, qtype)
  {
    if a != [] {
      var head := if Matches(a[0], qname, qclass.GetOr("IN"), qtype) then [a[0]] else [];
      assert (a + b)[0] == a[0];
      assert (a + b)[1..] == a[1..] + b;
      assert Select(a + b, qname, qclass, qtype) == head + Select(a[1..] + b, qname, qclass, qtype);
      SelectAppend(a[1..], b, qname, qclass, qtype);
      assert Select(a, qname, qclass, qtype) == head + Select(a[1..], qname, qclass, qtype);
    } else {
      assert a + b == b;
    }
  }

  /** `msg_answers?`: the matching answer records, or nil in place of an empty list. */
  function Answers(m: Message, qname: string, qclass: Option<string>, qtype: string): (r: Option<seq<RR>>)
    ensures r.Some? ==> |r.value| > 0
  {
    var ans := Select(m.answer, qname, qclass, qtype);
    if |ans| > 0 then Some(ans) else None
  }

  /** `msg_additional?`: the matching additional records, or nil in place of an empty list. */
  function Additional(m: Message, qname: string, qclass: Option<string>, qtype: string): (r: Option<seq<RR>>)
    ensures r.Some? ==> |r.value| > 0
  {
    var add := Select(m.additional, qname, qclass, qtype);
    if |add| > 0 then Some(add) else None
  }

  /**
   * A lookup in a section gives nil exactly when no record matches, and
   * otherwise a list of exactly the matching records.
   */
  lemma LookupSpec(section: seq<RR>, qname: string, qclass: Option<string>, qtype: string)
    ensures |Select(section, qname, qclass, qtype)| == 0 ==>
      forall rr :: rr in section ==> !Matches(rr, qname, qclass.GetOr("IN"), qtype)
    ensures (forall rr :: rr in section ==> !Matches(rr, qname, qclass.GetOr("IN"), qtype)) ==>
      |Select(section, qname, qclass, qtype)| == 0
    ensures forall rr :: rr in Select(section, qname, qclass, qtype) <==>
      rr in section && Matches(rr, qname, qclass.GetOr("IN"), qtype)
  {
    var sel := Select(section, qname, qclass, qtype);
    SelectMembers(section, qname, qclass, qtype);
    if |sel| > 0 {
      assert sel[0] in sel;
    }
  }

  /** `msg_answers?` is nil iff no answer record matches; otherwise it holds exactly the matching ones. */
  lemma AnswersSpec(m: Message, qname: string, qclass: Option<string>, qtype: string)
    ensures Answers(m, qname, qclass, qtype).None? ==>
      forall rr :: rr in m.answer ==> !Matches(rr, qname, qclass.GetOr("IN"), qtype)
    ensures (forall rr :: rr in m.answer ==> !Matches(rr, qname, qclass.GetOr("IN"), qtype)) ==>
      Answers(m, qname, qclass, qtype).None?
    ensures Answers(m, qname, qclass, qtype).Some? ==>
      forall rr :: rr in Answers(m, qname, qclass, qtype).value <==>
        rr in m.answer && Matches(rr, qname, qclass.GetOr("IN"), qtype)
  {
    LookupSpec(m.answer, qname, qclass, qtype);
  }

  /** `msg_additional?` is nil iff no additional record matches; otherwise it holds exactly the matching ones. */
  lemma AdditionalSpec(m: Message, qname: string, qclass: Option<string>, qtype: string)
    ensures Additional(m, qname, qclass, qtype).None? ==>
      forall rr :: rr in m.additional ==> !Matches(rr, qname, qclass.GetOr("IN"), qtype)
    ensures (forall rr :: rr in m.additional ==> !Matches(rr, qname, qclass.GetOr("IN"), qtype)) ==>
      Additional(m, qname, qclass, qtype).None?
    ensures Additional(m, qname, qclass, qtype).Some? ==>
      forall rr :: rr in Additional(m, qname, qclass, qtype).value <==>
        rr in m.additional && Matches(rr, qname, qclass.GetOr("IN"), qtype)
  {
    LookupSpec(m.additional, qname, qclass, qtype);
  }

  function Addresses(rrs: seq<RR>): (r: seq<string>)
    ensures |r| == |rrs|
    ensures forall i :: 0 <= i < |rrs| ==> r[i] == rrs[i].rdata
  {
    if rrs == [] then [] else [rrs[0].rdata] + Addresses(rrs[1..])
  }

  /**
   * `msg_additional_ips?`: the addresses of the matching additional records.
   * The `select` result is always truthy, so this is a list, possibly empty, never nil.
   */
  function AdditionalIps(m: Message, qname: string, qclass: Option<string>, qtype: string): seq<string>
  {
    Addresses(Select(m.additional, qname, qclass, qtype))
  }

  /** The addresses are those of the matching additional records; the list is empty exactly when `msg_additional?` is nil. */
  lemma AdditionalIpsSpec(m: Message, qname: string, qclass: Option<string>, qtype: string)
    ensures forall ip :: ip in AdditionalIps(m, qname, qclass, qtype) <==>
      exists rr :: rr in m.additional && Matches(rr, qname, qclass.GetOr("IN"), qtype) && rr.rdata == ip
    ensures |AdditionalIps(m, qname, qclass, qtype)| == 0 <==> Additional(m, qname, qclass, qtype).None?
  {
    var sel := Select(m.additional, qname, qclass, qtype);
    var r := AdditionalIps(m, qname, qclass, qtype);
    SelectMembers(m.additional, qname, qclass, qtype);
    forall ip | ip in r
      ensures exists rr :: rr in m.additional && Matches(rr, qname, qclass.GetOr("IN"), qtype) && rr.rdata == ip
    {
      var i :| 0 <= i < |r| && r[i] == ip;
      assert sel[i] in sel;
    }
    forall rr | rr in sel ensures rr.rdata in r {
      var i :| 0 <= i < |sel| && sel[i] == rr;
      assert r[i] == rr.rdata;
    }
  }

  predicate IsInNs(rr: RR)
  {
    EqualIgnoreCase(rr.rtype, "NS") && EqualIgnoreCase(rr.klass, "IN")
  }

  predicate IsInSoa(rr: RR)
  {
    EqualIgnoreCase(rr.rtype, "SOA") && EqualIgnoreCase(rr.klass, "IN")
  }

  predicate IsSoaOnly(rr: RR)
  {
    IsInSoa(rr) && !IsInNs(rr)
  }

  predicate IsOtherAuthority(rr: RR)
  {
    !IsInNs(rr) && !IsInSoa(rr)
  }

  /** The three parts of an authority section. */
  datatype AuthoritySplit = AuthoritySplit(ns: seq<RR>, soa: seq<RR>, other: seq<RR>)

  /** `msg_authority`'s loop: each record is pushed onto the NS, SOA or other list. */
  function SplitAuthority(section: seq<RR>): AuthoritySplit
  {
    if section == [] then AuthoritySplit([], [], [])
    else
      var r := SplitAuthority(section[..|section| - 1]);
      var rr := section[|section| - 1];
      if IsInNs(rr) then r.(ns := r.ns + [rr])
      else if IsInSoa(rr) then r.(soa := r.soa + [rr])
      else r.(other := r.other + [rr])
  }

  function Authority(m: Message): AuthoritySplit
  {
    SplitAuthority(m.authority)
  }

  /** The NS part is the section's IN NS records, in section order. */
  lemma {:induction false} AuthorityNs(section: seq<RR>)
    ensures SplitAuthority(section).ns == Filter(section, IsInNs)
  {
    if section != [] {
      var init := section[..|section| - 1];
      var rr := section[|section| - 1];
      AuthorityNs(init);
      assert section == init + [rr];
      FilterSnoc(init, rr, IsInNs);
    }
  }

  /** The SOA part is the section's IN SOA records, in section order (a record both NS and SOA cannot exist: types differ). */
  lemma {:induction false} AuthoritySoa(section: seq<RR>)
    ensures SplitAuthority(section).soa == Filter(section, IsSoaOnly)
  {
    if section != [] {
      var init := section[..|section| - 1];
      var rr := section[|section| - 1];
      AuthoritySoa(init);
      assert section == init + [rr];
      FilterSnoc(init, rr, IsSoaOnly);
    }
  }

  /** The third part holds every record that is neither IN NS nor IN SOA, in section order. */
  lemma {:induction false} AuthorityOther(section: seq<RR>)
    ensures SplitAuthority(section).other == Filter(section, IsOtherAuthority)
  {
    if section != [] {
      var init := section[..|section| - 1];
      var rr := section[|section| - 1];
      AuthorityOther(init);
      assert section == init + [rr];
      FilterSnoc(init, rr, IsOtherAuthority);
    }
  }

  /** The last record of a section goes to exactly one of the three parts. */
  lemma SplitAuthorityLast(section: seq<RR>)
    requires section != []
    ensures var r := SplitAuthority(section[..|section| - 1]);
      var rr := section[|section| - 1];
      var s := SplitAuthority(section);
      s == r.(ns := r.ns + [rr]) || s == r.(soa := r.soa + [rr]) || s == r.(other := r.other + [rr])
  {
  }

  /** Adding one record to one part adds it once to the parts together. */
  lemma AddedToOnePart(r: AuthoritySplit, s: AuthoritySplit, rr: RR)
    requires s == r.(ns := r.ns + [rr]) || s == r.(soa := r.soa + [rr]) || s == r.(other := r.other + [rr])
    ensures multiset(s.ns) + multiset(s.soa) + multiset(s.other)
      == multiset(r.ns) + multiset(r.soa) + multiset(r.other) + multiset{rr}
  {
    if s == r.(ns := r.ns + [rr]) {
      assert multiset(s.ns) == multiset(r.ns) + multiset{rr};
    } else if s == r.(soa := r.soa + [rr]) {
      assert multiset(s.soa) == multiset(r.soa) + multiset{rr};
    } else {
      assert multiset(s.other) == multiset(r.other) + multiset{rr};
    }
  }

  /** Together the three parts hold every record of the section exactly once. */
  lemma {:induction false} AuthorityPartition(section: seq<RR>)
    ensures multiset(SplitAuthority(section).ns) + multiset(SplitAuthority(section).soa)
      + multiset(SplitAuthority(section).other) == multiset(section)
  {
    if section != [] {
      var init := section[..|section| - 1];
      var rr := section[|section| - 1];
      AuthorityPartition(init);
      SplitAuthorityLast(section);
      AddedToOnePart(SplitAuthority(init), SplitAuthority(section), rr);
      assert section == init + [rr];
      assert multiset(section) == multiset(init) + multiset{rr};
    }
  }

  /** No record is both NS and SOA. */
  lemma NsIsNotSoa(rr: RR)
    ensures !(IsInNs(rr) && IsInSoa(rr))
  {
    if EqualIgnoreCase(rr.rtype, "NS") {
      assert |Lower(rr.rtype)| == |Lower("NS")|;
      assert |Lower("NS")| != |Lower("SOA")|;
    }
  }

  /** `msg_nodata?`: an IN SOA record in the authority section, or no IN NS record. */
  predicate NoData(m: Message)
  {
    var a := Authority(m);
    |a.soa| > 0 || |a.ns| == 0
  }

  /** NODATA in terms of the authority section itself. */
  lemma NoDataSpec(m: Message)
    ensures NoData(m) <==>
      (exists rr :: rr in m.authority && IsInSoa(rr)) || (forall rr :: rr in m.authority ==> !IsInNs(rr))
  {
    AuthorityNs(m.authority);
    AuthoritySoa(m.authority);
    FilterMembers(m.authority, IsInNs);
    FilterMembers(m.authority, IsSoaOnly);
    var a := Authority(m);
    if exists rr :: rr in m.authority && IsInSoa(rr) {
      var rr :| rr in m.authority && IsInSoa(rr);
      var i :| 0 <= i < |m.authority| && m.authority[i] == rr;
      NsIsNotSoa(rr);
      assert IsSoaOnly(m.authority[i]);
      assert rr in a.soa;
    }
    if |a.soa| > 0 {
      assert a.soa[0] in m.authority;
      assert IsInSoa(a.soa[0]);
    }
    if |a.ns| > 0 {
      assert a.ns[0] in m.authority;
    }
    if !(forall rr :: rr in m.authority ==> !IsInNs(rr)) {
      var rr :| rr in m.authority && IsInNs(rr);
      var i :| 0 <= i < |m.authority| && m.authority[i] == rr;
      assert rr in a.ns;
    }
  }

  /*
   * CNAME chains. The loop of `msg_follow_cnames` is first written for an
   * arbitrary step and stop test (`Chase`), whose properties are proved once;
   * `FollowCnames` instantiates it with the message's answers.
   */

  /** The point reached after `k` applications of `step`. */
  function Iterate(step: string -> string, x: string, k: nat): string
  {
    if k == 0 then x else step(Iterate(step, x, k - 1))
  }

  /** Apply `step` until `stop` holds, for at most `fuel` tests: None means the loop had not returned by then. */
  function Chase(step: string -> string, stop: string -> bool, x: string, fuel: nat): (r: Option<string>)
    ensures r.Some? ==> stop(r.value)
    decreases fuel
  {
    if fuel == 0 then None
    else if stop(x) then Some(x)
    else Chase(step, stop, step(x), fuel - 1)
  }

  /** The number of failed tests before `stop` holds, at most `fuel`. */
  function Steps(step: string -> string, stop: string -> bool, x: string, fuel: nat): nat
    decreases fuel
  {
    if fuel == 0 || stop(x) then 0 else 1 + Steps(step, stop, step(x), fuel - 1)
  }

  lemma {:induction false} IterateShift(step: string -> string, x: string, k: nat)
    ensures Iterate(step, x, k + 1) == Iterate(step, step(x), k)
  {
    if k > 0 {
      IterateShift(step, x, k - 1);
    }
  }

  /** `Steps` counts the tests that fail before `stop` holds: each point before it continues, the point it reaches is the result. */
  lemma {:induction false} StepsSpec(step: string -> string, stop: string -> bool, x: string, fuel: nat)
    ensures Steps(step, stop, x, fuel) <= fuel
    ensures forall k :: 0 <= k < Steps(step, stop, x, fuel) ==> !stop(Iterate(step, x, k))
    ensures Steps(step, stop, x, fuel) < fuel ==> stop(Iterate(step, x, Steps(step, stop, x, fuel)))
    ensures Chase(step, stop, x, fuel) ==
      if Steps(step, stop, x, fuel) < fuel then Some(Iterate(step, x, Steps(step, stop, x, fuel))) else None
    decreases fuel
  {
    if fuel > 0 && !stop(x) {
      var n := Steps(step, stop, step(x), fuel - 1);
      StepsSpec(step, stop, step(x), fuel - 1);
      IterateShift(step, x, n);
      forall k | 0 < k <= n ensures Iterate(step, x, k) == Iterate(step, step(x), k - 1) {
        IterateShift(step, x, k - 1);
      }
    }
  }

  /** The cut-off loop returns the first point of the iteration at which `stop` holds, if one comes within the fuel. */
  lemma ChaseOnPath(step: string -> string, stop: string -> bool, x: string, fuel: nat)
    ensures Chase(step, stop, x, fuel).None? <==> forall k :: 0 <= k < fuel ==> !stop(Iterate(step, x, k))
    ensures Chase(step, stop, x, fuel).Some? ==>
      Steps(step, stop, x, fuel) < fuel &&
      Chase(step, stop, x, fuel).value == Iterate(step, x, Steps(step, stop, x, fuel)) &&
      forall k :: 0 <= k < Steps(step, stop, x, fuel) ==> !stop(Iterate(step, x, k))
  {
    StepsSpec(step, stop, x, fuel);
  }

  /** Two points of an iteration at the same value stay together. */
  lemma {:induction false} IterateAfterEqual(step: string -> string, x: string, i: nat, j: nat, r: nat)
    requires Iterate(step, x, i) == Iterate(step, x, j)
    ensures Iterate(step, x, i + r) == Iterate(step, x, j + r)
  {
    if r > 0 {
      IterateAfterEqual(step, x, i, j, r - 1);
    }
  }

  /** When the iteration comes back to an earlier point before it ever stops, it never stops. */
  lemma {:induction false} NeverStopsOnCycle(step: string -> string, stop: string -> bool, x: string, a: nat, b: nat, k: nat)
    requires a < b
    requires Iterate(step, x, a) == Iterate(step, x, b)
    requires forall t :: 0 <= t < b ==> !stop(Iterate(step, x, t))
    ensures !stop(Iterate(step, x, k))
    decreases k
  {
    if k >= b {
      IterateAfterEqual(step, x, a, b, k - b);
      NeverStopsOnCycle(step, stop, x, a, b, k - (b - a));
    }
  }

  /** Values below `bound`, more than `bound` of them, contain a repeat. */
  lemma {:induction false} Pigeonhole(f: seq<nat>, bound: nat)
    requires |f| > bound
    requires forall i :: 0 <= i < |f| ==> f[i] < bound
    ensures exists i, j :: 0 <= i < j < |f| && f[i] == f[j]
    decreases bound
  {
    var last := f[|f| - 1];
    if exists i :: 0 <= i < |f| - 1 && f[i] == last {
      var i :| 0 <= i < |f| - 1 && f[i] == last;
      assert f[i] == f[|f| - 1];
    } else {
      var g := seq(|f| - 1, i requires 0 <= i < |f| - 1 => if f[i] > last then f[i] - 1 else f[i]);
      Pigeonhole(g, bound - 1);
      var i, j :| 0 <= i < j < |g| && g[i] == g[j];
      assert f[i] == f[j];
    }
  }

  /**
   * When every step that does not stop lands in `targets`, a loop that has not
   * stopped after |targets| + 2 tests never stops: it is on a cycle.
   */
  lemma ChaseNoneDiverges(step: string -> string, stop: string -> bool, x: string, targets: seq<string>)
    requires forall y :: !stop(y) ==> step(y) in targets
    requires Chase(step, stop, x, |targets| + 2).None?
    ensures forall k: nat :: !stop(Iterate(step, x, k))
  {
    var bound := |targets|;
    StepsSpec(step, stop, x, bound + 2);
    assert Steps(step, stop, x, bound + 2) == bound + 2;
    // Points 1 .. bound + 1 of the iteration are among the targets: record the index of each.
    var f: seq<nat> := [];
    while |f| < bound + 1
      invariant |f| <= bound + 1
      invariant forall t :: 0 <= t < |f| ==> f[t] < bound && targets[f[t]] == Iterate(step, x, t + 1)
    {
      var here := Iterate(step, x, |f|);
      assert !stop(here);
      var t :| 0 <= t < bound && targets[t] == step(here);
      f := f + [t];
    }
    Pigeonhole(f, bound);
    var i, j :| 0 <= i < j < |f| && f[i] == f[j];
    forall k: nat ensures !stop(Iterate(step, x, k)) {
      NeverStopsOnCycle(step, stop, x, i + 1, j + 1, k);
    }
  }

  /** When the iteration returns to an earlier point before stopping, no fuel is enough. */
  lemma ChaseCycleNone(step: string -> string, stop: string -> bool, x: string, a: nat, b: nat, fuel: nat)
    requires a < b
    requires Iterate(step, x, a) == Iterate(step, x, b)
    requires forall t :: 0 <= t < b ==> !stop(Iterate(step, x, t))
    ensures Chase(step, stop, x, fuel).None?
  {
    forall k | 0 <= k < fuel ensures !stop(Iterate(step, x, k)) {
      NeverStopsOnCycle(step, stop, x, a, b, k);
    }
    ChaseOnPath(step, stop, x, fuel);
  }

  /** `msg_follow_cnames` goes on from a name with no answer of the type asked for but a CNAME answer. */
  predicate Continues(m: Message, name: string, qtype: string)
  {
    Answers(m, name, None, qtype).None? && Answers(m, name, None, "CNAME").Some?
  }

  /** The next name on the chain: the target of the first CNAME answer for `name`. */
  function NextName(m: Message, name: string, qtype: string): string
  {
    if Continues(m, name, qtype) then Answers(m, name, None, "CNAME").value[0].rdata else name
  }

  /** One step of the chain, as a function value. */
  function Step(m: Message, qtype: string): string -> string
  {
    (n: string) => NextName(m, n, qtype)
  }

  /** The loop's exit test, as a function value. */
  function Stops(m: Message, qtype: string): string -> bool
  {
    (n: string) => !Continues(m, n, qtype)
  }

  /** The loop of `msg_follow_cnames`, cut off after `fuel` tests. */
  function FollowCnames(m: Message, name: string, qtype: string, fuel: nat): (r: Option<string>)
    ensures r.Some? ==> !Continues(m, r.value, qtype)
  {
    Chase(Step(m, qtype), Stops(m, qtype), name, fuel)
  }

  /**
   * The name `msg_follow_cnames` returns, or None when it never returns
   * (`EndNameNoneDiverges`).
   */
  function EndName(m: Message, name: string, qtype: string): (r: Option<string>)
    ensures r.Some? ==> !Continues(m, r.value, qtype)
  {
    FollowCnames(m, name, qtype, |m.answer| + 2)
  }

  /** The name reached after `k` steps along the CNAME chain. */
  function Path(m: Message, name: string, qtype: string, k: nat): string
  {
    Iterate(Step(m, qtype), name, k)
  }

  /** A step that continues the chain lands on the data of an answer record. */
  lemma NextIsAnswerData(m: Message, name: string, qtype: string)
    requires Continues(m, name, qtype)
    ensures NextName(m, name, qtype) in Addresses(m.answer)
  {
    var sel := Select(m.answer, name, None, "CNAME");
    SelectMembers(m.answer, name, None, "CNAME");
    assert sel[0] in sel;
    var t :| 0 <= t < |m.answer| && m.answer[t] == sel[0];
    assert Addresses(m.answer)[t] == sel[0].rdata;
  }

  /**
   * The returned name is the first name on the chain at which the loop stops:
   * every earlier name has a CNAME answer and no answer of the type asked for.
   */
  lemma EndNameIsFirstStop(m: Message, name: string, qtype: string)
    ensures EndName(m, name, qtype).Some? ==>
      var n := Steps(Step(m, qtype), Stops(m, qtype), name, |m.answer| + 2);
      EndName(m, name, qtype).value == Path(m, name, qtype, n) &&
      forall k :: 0 <= k < n ==> Continues(m, Path(m, name, qtype, k), qtype)
  {
    StepsSpec(Step(m, qtype), Stops(m, qtype), name, |m.answer| + 2);
    var n := Steps(Step(m, qtype), Stops(m, qtype), name, |m.answer| + 2);
    forall k | 0 <= k < n ensures Continues(m, Path(m, name, qtype, k), qtype) {
      assert !Stops(m, qtype)(Iterate(Step(m, qtype), name, k));
    }
  }

  /**
   * When `EndName` is None the chain continues at every step: the source loop
   * runs forever, round a CNAME cycle.
   */
  lemma EndNameNoneDiverges(m: Message, name: string, qtype: string)
    requires EndName(m, name, qtype).None?
    ensures forall k: nat :: Continues(m, Path(m, name, qtype, k), qtype)
  {
    forall y | !Stops(m, qtype)(y) ensures Step(m, qtype)(y) in Addresses(m.answer) {
      NextIsAnswerData(m, y, qtype);
    }
    ChaseNoneDiverges(Step(m, qtype), Stops(m, qtype), name, Addresses(m.answer));
    forall k: nat ensures Continues(m, Path(m, name, qtype, k), qtype) {
      assert !Stops(m, qtype)(Iterate(Step(m, qtype), name, k));
    }
  }

  /** A chain that comes back to a name it has passed never returns. */
  lemma CnameLoopHasNoEnd(m: Message, name: string, qtype: string, a: nat, b: nat)
    requires a < b
    requires Path(m, name, qtype, a) == Path(m, name, qtype, b)
    requires forall t :: 0 <= t < b ==> Continues(m, Path(m, name, qtype, t), qtype)
    ensures EndName(m, name, qtype).None?
  {
    forall t | 0 <= t < b ensures !Stops(m, qtype)(Iterate(Step(m, qtype), name, t)) {
      assert Continues(m, Path(m, name, qtype, t), qtype);
    }
    ChaseCycleNone(Step(m, qtype), Stops(m, qtype), name, a, b, |m.answer| + 2);
  }

  /**
   * In the two-record cycle a CNAME b, b CNAME a, with a and b different
   * names, a name of the cycle has no answer of another type and goes on to
   * the other name.
   */
  lemma CycleStep(m: Message, a: string, b: string, qtype: string)
    requires m.answer == [RR(a, "IN", "CNAME", b), RR(b, "IN", "CNAME", a)]
    requires !EqualIgnoreCase(a, b) && !EqualIgnoreCase(qtype, "CNAME")
    ensures Continues(m, a, qtype) && NextName(m, a, qtype) == b
    ensures Continues(m, b, qtype) && NextName(m, b, qtype) == a
  {
    assert m.answer[1..][1..] == [];
    assert Select(m.answer, a, None, qtype) == [];
    assert Select(m.answer, a, None, "CNAME") == [m.answer[0]];
    assert Select(m.answer, b, None, qtype) == [];
    assert Select(m.answer, b, None, "CNAME") == [m.answer[1]];
  }

  /**
   * Two names whose CNAME records point at each other: `msg_follow_cnames`
   * never returns for a type other than CNAME.
   */
  lemma CnameCycleHasNoEnd(m: Message, a: string, b: string, qtype: string)
    requires m.answer == [RR(a, "IN", "CNAME", b), RR(b, "IN", "CNAME", a)]
    requires !EqualIgnoreCase(a, b) && !EqualIgnoreCase(qtype, "CNAME")
    ensures EndName(m, a, qtype).None?
  {
    CycleStep(m, a, b, qtype);
    assert Path(m, a, qtype, 0) == a;
    assert Path(m, a, qtype, 1) == Step(m, qtype)(a) == b;
    assert Path(m, a, qtype, 2) == Step(m, qtype)(b) == a;
    CnameLoopHasNoEnd(m, a, qtype, 0, 2);
  }

  /** The two lists `msg_cacheable` returns: records inside and outside the bailiwick. */
  datatype Cacheable = Cacheable(good: seq<RR>, bad: seq<RR>)

  /** The loop of `msg_cacheable` over a list of records. */
  function SplitByBailiwick(rrs: seq<RR>, bailiwick: Option<string>): Cacheable
  {
    if rrs == [] then Cacheable([], [])
    else
      var c := SplitByBailiwick(rrs[..|rrs| - 1], bailiwick);
      var rr := rrs[|rrs| - 1];
      if InsideBailiwick(rr.name, bailiwick) then c.(good := c.good + [rr]) else c.(bad := c.bad + [rr])
  }

  /**
   * `msg_cacheable`: the additional section then the authority section, split
   * by the bailiwick test; `:good` and `:bad` select one of the two lists.
   */
  function CacheableRecords(m: Message, bailiwick: Option<string>): Cacheable
  {
    SplitByBailiwick(m.additional + m.authority, bailiwick)
  }

  predicate InBailiwick(bailiwick: Option<string>, rr: RR)
  {
    InsideBailiwick(rr.name, bailiwick)
  }

  predicate OutOfBailiwick(bailiwick: Option<string>, rr: RR)
  {
    !InsideBailiwick(rr.name, bailiwick)
  }

  /** The record tests as function values, for `Filter`. */
  function InFilter(bailiwick: Option<string>): RR -> bool
  {
    (rr: RR) => InBailiwick(bailiwick, rr)
  }

  function OutFilter(bailiwick: Option<string>): RR -> bool
  {
    (rr: RR) => OutOfBailiwick(bailiwick, rr)
  }

  /** `good` holds exactly the records at or below the bailiwick, in order. */
  lemma {:induction false} CacheableGood(rrs: seq<RR>, bailiwick: Option<string>)
    ensures SplitByBailiwick(rrs, bailiwick).good == Filter(rrs, InFilter(bailiwick))
  {
    if rrs != [] {
      var init := rrs[..|rrs| - 1];
      var rr := rrs[|rrs| - 1];
      CacheableGood(init, bailiwick);
      assert rrs == init + [rr];
      FilterSnoc(init, rr, InFilter(bailiwick));
    }
  }

  /** `bad` holds exactly the other records, in order. */
  lemma {:induction false} CacheableBad(rrs: seq<RR>, bailiwick: Option<string>)
    ensures SplitByBailiwick(rrs, bailiwick).bad == Filter(rrs, OutFilter(bailiwick))
  {
    if rrs != [] {
      var init := rrs[..|rrs| - 1];
      var rr := rrs[|rrs| - 1];
      CacheableBad(init, bailiwick);
      assert rrs == init + [rr];
      FilterSnoc(init, rr, OutFilter(bailiwick));
    }
  }

  /** Every record lands in exactly one of the two lists. */
  lemma {:induction false} CacheablePartition(rrs: seq<RR>, bailiwick: Option<string>)
    ensures multiset(SplitByBailiwick(rrs, bailiwick).good) + multiset(SplitByBailiwick(rrs, bailiwick).bad) == multiset(rrs)
  {
    if rrs != [] {
      var init := rrs[..|rrs| - 1];
      CacheablePartition(init, bailiwick);
      assert rrs == init + [rrs[|rrs| - 1]];
    }
  }

  /** Without a bailiwick every record is good. */
  lemma {:induction false} CacheableWithoutBailiwick(rrs: seq<RR>)
    ensures SplitByBailiwick(rrs, None).good == rrs
    ensures SplitByBailiwick(rrs, None).bad == []
  {
    if rrs != [] {
      CacheableWithoutBailiwick(rrs[..|rrs| - 1]);
      assert rrs == rrs[..|rrs| - 1] + [rrs[|rrs| - 1]];
    }
  }

  /**
   * `msg_validate`: a message with an error code passes unchecked; otherwise
   * it must echo exactly one question whose supplied name, class (IN by
   * default) and type match, ignoring case, or a ResolveError is raised.
   */
  function Validate(m: Message, qname: Option<string>, qclass: Option<string>, qtype: Option<string>): (r: Result<()>)
    ensures r.Ok? <==>
      m.rcode != NoError ||
      (|m.question| == 1 &&
       (qname.Some? ==> EqualIgnoreCase(qname.value, m.question[0].qname)) &&
       EqualIgnoreCase(qclass.GetOr("IN"), m.question[0].qclass) &&
       (qtype.Some? ==> EqualIgnoreCase(qtype.value, m.question[0].qtype)))
  {
    if m.rcode != NoError then Ok(())
    else if |m.question| != 1 then Err(m.answerfrom + " returned unexpected question size")
    else
      var q := m.question[0];
      if qname.Some? && Lower(qname.value) != Lower(q.qname) then
        Err(m.answerfrom + " returned mismatched qname " + q.qname + " instead of expected " + qname.value)
      else if Lower(qclass.GetOr("IN")) != Lower(q.qclass) then
        Err(m.answerfrom + " returned mismatched qclass " + q.qclass + " instead of expected " + qclass.GetOr("IN"))
      else if qtype.Some? && Lower(qtype.value) != Lower(q.qtype) then
        Err(m.answerfrom + " returned mismatched qtype " + q.qtype + " instead of expected " + qtype.value)
      else Ok(())
  }
}
