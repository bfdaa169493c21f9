/**
 * The probability bookkeeping of a referral node: `stats` maps an outcome
 * key to its probability and the response it stands for,
 * `stats_calculate_children` merges children's stats scaled by a weight,
 * `resolve_calculate` turns the stats of a name-server resolution into
 * per-address weights, and `answer_calculate` gives every server address
 * exactly its weight. Probabilities are exact reals.
 */
module ReferralStats {
  import opened Wrappers
  import opened DnsMessage
  import opened Outcomes
  import opened Hashes
  import MessageUtility
  import opened Names

  /** What a stats entry keeps of the response that produced it: its status, its answers and its stats key. */
  datatype Outcome = Outcome(status: Status, answers: seq<RR>, key: string)

  datatype Entry = Entry(prob: real, outcome: Outcome)

  type Stats = Hash<string, Entry>

  type Weights = Hash<string, real>

  /** The total probability of a stats hash. */
  function Total(s: Stats): real
  {
    if s == [] then 0.0 else s[0].1.prob + Total(s[1..])
  }

  /** The total weight of a weights hash. */
  function WTotal(w: Weights): real
  {
    if w == [] then 0.0 else w[0].1 + WTotal(w[1..])
  }

  /** A product as a function of its two factors. */
  function Mul(a: real, b: real): real
  {
    a * b
  }

  lemma MulDistrib(a: real, b: real, c: real)
    ensures Mul(a, b + c) == Mul(a, b) + Mul(a, c)
  {
  }

  lemma MulSucc(k: nat, c: real)
    ensures Mul((k + 1) as real, c) == Mul(k as real, c) + c
  {
  }

  lemma MulInverse(n: real, x: real)
    requires n > 0.0
    ensures Mul(n, x / n) == x
    ensures Mul(Mul(1.0 / n, x), n) == x
  {
  }

  lemma {:induction false} TotalSnoc(s: Stats, p: (string, Entry))
    ensures Total(s + [p]) == Total(s) + p.1.prob
  {
    if s != [] {
      assert (s + [p])[1..] == s[1..] + [p];
      TotalSnoc(s[1..], p);
    }
  }

  lemma {:induction false} WTotalSnoc(w: Weights, p: (string, real))
    ensures WTotal(w + [p]) == WTotal(w) + p.1
  {
    if w != [] {
      assert (w + [p])[1..] == w[1..] + [p];
      WTotalSnoc(w[1..], p);
    }
  }

  lemma TotalOfLast(s: Stats)
    requires s != []
    ensures Total(s) == Total(s[..|s| - 1]) + s[|s| - 1].1.prob
  {
    TotalSnoc(s[..|s| - 1], s[|s| - 1]);
    assert s == s[..|s| - 1] + [s[|s| - 1]];
  }

  /** Assigning an entry removes the old entry's probability and adds the new one's. */
  lemma {:induction false} TotalPut(s: Stats, k: string, e: Entry)
    ensures Total(Put(s, k, e)) == Total(s) - (if Lookup(s, k).Some? then Lookup(s, k).value.prob else 0.0) + e.prob
  {
    if s != [] && s[0].0 != k {
      TotalPut(s[1..], k, e);
      assert Put(s, k, e)[1..] == Put(s[1..], k, e);
    }
  }

  lemma {:induction false} WTotalPut(w: Weights, k: string, x: real)
    ensures WTotal(Put(w, k, x)) == WTotal(w) - Lookup(w, k).GetOr(0.0) + x
  {
    if w != [] && w[0].0 != k {
      WTotalPut(w[1..], k, x);
      assert Put(w, k, x)[1..] == Put(w[1..], k, x);
    }
  }

  /**
   * `stats[key]` for one scaled entry: a copy of it when the key is new,
   * otherwise its probability added to the entry already there.
   */
  function Accumulate(s: Stats, k: string, e: Entry): Stats
  {
    match Lookup(s, k)
    case None => Put(s, k, e)
    case Some(prior) => Put(s, k, prior.(prob := prior.prob + e.prob))
  }

  /** Accumulating adds exactly the entry's probability to the total. */
  lemma AccumulateTotal(s: Stats, k: string, e: Entry)
    ensures Total(Accumulate(s, k, e)) == Total(s) + e.prob
  {
    match Lookup(s, k)
    case None => TotalPut(s, k, e);
    case Some(prior) => TotalPut(s, k, prior.(prob := prior.prob + e.prob));
  }

  /** `weights[key] ||= 0; weights[key] += x`. */
  function WAccumulate(w: Weights, k: string, x: real): Weights
  {
    Put(w, k, Lookup(w, k).GetOr(0.0) + x)
  }

  lemma WAccumulateTotal(w: Weights, k: string, x: real)
    ensures WTotal(WAccumulate(w, k, x)) == WTotal(w) + x
  {
    WTotalPut(w, k, Lookup(w, k).GetOr(0.0) + x);
  }

  function Scale(e: Entry, pct: real): Entry
  {
    e.(prob := Mul(e.prob, pct))
  }

  /** One child's entries, each scaled by `pct`, accumulated in the child's order. */
  function AddScaled(s: Stats, child: Stats, pct: real): Stats
  {
    if child == [] then s
    else
      var last := child[|child| - 1];
      Accumulate(AddScaled(s, child[..|child| - 1], pct), last.0, Scale(last.1, pct))
  }

  /** Merging one child adds `pct` times the child's total. */
  lemma {:induction false} AddScaledTotal(s: Stats, child: Stats, pct: real)
    ensures Total(AddScaled(s, child, pct)) == Total(s) + Mul(pct, Total(child))
  {
    if child != [] {
      var init := child[..|child| - 1];
      var last := child[|child| - 1];
      AddScaledTotal(s, init, pct);
      AccumulateTotal(AddScaled(s, init, pct), last.0, Scale(last.1, pct));
      TotalOfLast(child);
      MulDistrib(pct, Total(init), last.1.prob);
    }
  }

  /** Every child merged at the same share `pct`, in list order. */
  function CombineAt(s: Stats, cs: seq<Stats>, pct: real): Stats
  {
    if cs == [] then s else AddScaled(CombineAt(s, cs[..|cs| - 1], pct), cs[|cs| - 1], pct)
  }

  /** The sum of the children's totals. */
  function SumTotals(cs: seq<Stats>): real
  {
    if cs == [] then 0.0 else SumTotals(cs[..|cs| - 1]) + Total(cs[|cs| - 1])
  }

  /**
   * `stats_calculate_children(stats, children, weight)`: each child's
   * entries scaled by `(1 / |children|) * weight`. With no children nothing
   * is added.
   */
  function Combine(s: Stats, cs: seq<Stats>, w: real): Stats
  {
    if cs == [] then s else CombineAt(s, cs, Mul(1.0 / |cs| as real, w))
  }

  lemma {:induction false} CombineAtTotal(s: Stats, cs: seq<Stats>, pct: real)
    ensures Total(CombineAt(s, cs, pct)) == Total(s) + Mul(pct, SumTotals(cs))
  {
    if cs != [] {
      CombineAtTotal(s, cs[..|cs| - 1], pct);
      AddScaledTotal(CombineAt(s, cs[..|cs| - 1], pct), cs[|cs| - 1], pct);
      MulDistrib(pct, SumTotals(cs[..|cs| - 1]), Total(cs[|cs| - 1]));
    }
  }

  lemma {:induction false} SumTotalsOfUnits(cs: seq<Stats>)
    requires forall i :: 0 <= i < |cs| ==> Total(cs[i]) == 1.0
    ensures SumTotals(cs) == |cs| as real
  {
    if cs != [] {
      SumTotalsOfUnits(cs[..|cs| - 1]);
    }
  }

  /**
   * Combining children whose stats each sum to 1 adds exactly the weight:
   * probability mass is conserved.
   */
  lemma CombineConserves(s: Stats, cs: seq<Stats>, w: real)
    requires |cs| > 0
    requires forall i :: 0 <= i < |cs| ==> Total(cs[i]) == 1.0
    ensures Total(Combine(s, cs, w)) == Total(s) + w
  {
    var n := |cs| as real;
    CombineAtTotal(s, cs, Mul(1.0 / n, w));
    SumTotalsOfUnits(cs);
    MulInverse(n, w);
  }

  /** Accumulation keeps the keys of a stats hash distinct. */
  lemma AccumulateDistinct(s: Stats, k: string, e: Entry)
    requires DistinctKeys(s)
    ensures DistinctKeys(Accumulate(s, k, e))
  {
    match Lookup(s, k)
    case None => PutDistinct(s, k, e);
    case Some(prior) => PutDistinct(s, k, prior.(prob := prior.prob + e.prob));
  }

  lemma {:induction false} AddScaledDistinct(s: Stats, child: Stats, pct: real)
    requires DistinctKeys(s)
    ensures DistinctKeys(AddScaled(s, child, pct))
  {
    if child != [] {
      var last := child[|child| - 1];
      AddScaledDistinct(s, child[..|child| - 1], pct);
      AccumulateDistinct(AddScaled(s, child[..|child| - 1], pct), last.0, Scale(last.1, pct));
    }
  }

  lemma {:induction false} CombineAtDistinct(s: Stats, cs: seq<Stats>, pct: real)
    requires DistinctKeys(s)
    ensures DistinctKeys(CombineAt(s, cs, pct))
  {
    if cs != [] {
      CombineAtDistinct(s, cs[..|cs| - 1], pct);
      AddScaledDistinct(CombineAt(s, cs[..|cs| - 1], pct), cs[|cs| - 1], pct);
    }
  }

  /** Stats merged per key never list a key twice. */
  lemma CombineDistinct(s: Stats, cs: seq<Stats>, w: real)
    requires DistinctKeys(s)
    ensures DistinctKeys(Combine(s, cs, w))
  {
    if cs != [] {
      CombineAtDistinct(s, cs, Mul(1.0 / |cs| as real, w));
    }
  }

  // ---------------------------------------------------------------------
  // resolve_calculate: from resolution stats to server weights

  /** An answered outcome has answers. */
  predicate Present(o: Outcome)
  {
    o.status == Answered ==> |o.answers| > 0
  }

  /** An answered entry has answers to spread its probability over. */
  predicate AnswersPresent(e: Entry)
  {
    Present(e.outcome)
  }

  predicate WellFormed(s: Stats)
  {
    forall i :: 0 <= i < |s| ==> AnswersPresent(s[i].1)
  }

  lemma {:induction false} PutWellFormed(s: Stats, k: string, e: Entry)
    requires WellFormed(s) && AnswersPresent(e)
    ensures WellFormed(Put(s, k, e))
  {
    if s != [] && s[0].0 != k {
      PutWellFormed(s[1..], k, e);
      var p := Put(s, k, e);
      assert p == [s[0]] + Put(s[1..], k, e);
      forall i | 0 <= i < |p| ensures AnswersPresent(p[i].1) {
        if i > 0 {
          assert p[i] == Put(s[1..], k, e)[i - 1];
        }
      }
    }
  }

  lemma AccumulateWellFormed(s: Stats, k: string, e: Entry)
    requires WellFormed(s) && AnswersPresent(e)
    ensures WellFormed(Accumulate(s, k, e))
  {
    match Lookup(s, k)
    case None => PutWellFormed(s, k, e);
    case Some(prior) =>
      var i :| 0 <= i < |s| && s[i] == (k, prior);
      PutWellFormed(s, k, prior.(prob := prior.prob + e.prob));
  }

  lemma {:induction false} AddScaledWellFormed(s: Stats, child: Stats, pct: real)
    requires WellFormed(s) && WellFormed(child)
    ensures WellFormed(AddScaled(s, child, pct))
  {
    if child != [] {
      var last := child[|child| - 1];
      AddScaledWellFormed(s, child[..|child| - 1], pct);
      AccumulateWellFormed(AddScaled(s, child[..|child| - 1], pct), last.0, Scale(last.1, pct));
    }
  }

  lemma {:induction false} CombineAtWellFormed(s: Stats, cs: seq<Stats>, pct: real)
    requires WellFormed(s)
    requires forall i :: 0 <= i < |cs| ==> WellFormed(cs[i])
    ensures WellFormed(CombineAt(s, cs, pct))
  {
    if cs != [] {
      CombineAtWellFormed(s, cs[..|cs| - 1], pct);
      AddScaledWellFormed(CombineAt(s, cs[..|cs| - 1], pct), cs[|cs| - 1], pct);
    }
  }

  /** Merging keeps every answered entry's answers. */
  lemma CombineWellFormed(s: Stats, cs: seq<Stats>, w: real)
    requires WellFormed(s)
    requires forall i :: 0 <= i < |cs| ==> WellFormed(cs[i])
    ensures WellFormed(Combine(s, cs, w))
  {
    if cs != [] {
      CombineAtWellFormed(s, cs, Mul(1.0 / |cs| as real, w));
    }
  }

  /** Each address gains `share`. */
  function Spread(w: Weights, addrs: seq<string>, share: real): Weights
  {
    if addrs == [] then w else WAccumulate(Spread(w, addrs[..|addrs| - 1], share), addrs[|addrs| - 1], share)
  }

  lemma {:induction false} SpreadTotal(w: Weights, addrs: seq<string>, share: real)
    ensures WTotal(Spread(w, addrs, share)) == WTotal(w) + Mul(|addrs| as real, share)
  {
    if addrs != [] {
      SpreadTotal(w, addrs[..|addrs| - 1], share);
      WAccumulateTotal(Spread(w, addrs[..|addrs| - 1], share), addrs[|addrs| - 1], share);
      MulSucc(|addrs| - 1, share);
    }
  }

  /**
   * The weights one resolution entry contributes: an answered entry's
   * probability split evenly over its answer addresses, any other entry's
   * probability kept under its own `key:` string.
   */
  function WeighEntry(w: Weights, k: string, e: Entry): Weights
  {
    if e.outcome.status == Answered then
      var addrs := MessageUtility.Addresses(e.outcome.answers);
      if addrs == [] then w else Spread(w, addrs, e.prob / |addrs| as real)
    else WAccumulate(w, k, e.prob)
  }

  /** The server weights `resolve_calculate` derives from `stats_resolve`, in its order. */
  function ResolveWeights(sr: Stats): Weights
  {
    if sr == [] then [] else
      var last := sr[|sr| - 1];
      WeighEntry(ResolveWeights(sr[..|sr| - 1]), last.0, last.1)
  }

  lemma WeighEntryTotal(w: Weights, k: string, e: Entry)
    requires AnswersPresent(e)
    ensures WTotal(WeighEntry(w, k, e)) == WTotal(w) + e.prob
  {
    if e.outcome.status == Answered {
      var addrs := MessageUtility.Addresses(e.outcome.answers);
      var n := |addrs| as real;
      SpreadTotal(w, addrs, e.prob / n);
      MulInverse(n, e.prob);
    } else {
      WAccumulateTotal(w, k, e.prob);
    }
  }

  /** The weights sum to the total probability of the resolution. */
  lemma {:induction false} ResolveWeightsTotal(sr: Stats)
    requires WellFormed(sr)
    ensures WTotal(ResolveWeights(sr)) == Total(sr)
  {
    if sr != [] {
      var init := sr[..|sr| - 1];
      var last := sr[|sr| - 1];
      ResolveWeightsTotal(init);
      WeighEntryTotal(ResolveWeights(init), last.0, last.1);
      assert sr == init + [last];
      TotalSnoc(init, last);
    }
  }

  lemma WAccumulateDistinct(w: Weights, k: string, x: real)
    requires DistinctKeys(w)
    ensures DistinctKeys(WAccumulate(w, k, x))
  {
    PutDistinct(w, k, Lookup(w, k).GetOr(0.0) + x);
  }

  lemma {:induction false} SpreadDistinct(w: Weights, addrs: seq<string>, share: real)
    requires DistinctKeys(w)
    ensures DistinctKeys(Spread(w, addrs, share))
  {
    if addrs != [] {
      SpreadDistinct(w, addrs[..|addrs| - 1], share);
      WAccumulateDistinct(Spread(w, addrs[..|addrs| - 1], share), addrs[|addrs| - 1], share);
    }
  }

  /** `serverips`, the keys of the weights, never repeats an address. */
  lemma {:induction false} ResolveWeightsDistinct(sr: Stats)
    ensures DistinctKeys(ResolveWeights(sr))
  {
    if sr != [] {
      var prev := ResolveWeights(sr[..|sr| - 1]);
      var last := sr[|sr| - 1];
      ResolveWeightsDistinct(sr[..|sr| - 1]);
      if last.1.outcome.status == Answered {
        var addrs := MessageUtility.Addresses(last.1.outcome.answers);
        if addrs != [] {
          SpreadDistinct(prev, addrs, last.1.prob / |addrs| as real);
        }
      } else {
        WAccumulateDistinct(prev, last.0, last.1.prob);
      }
    }
  }

  // ---------------------------------------------------------------------
  // Weights of a server address list

  /** The sum of the weights of a list of addresses, counting repeats; a missing weight counts 0. */
  function SumWeights(ips: seq<string>, w: Weights): real
  {
    if ips == [] then 0.0 else SumWeights(ips[..|ips| - 1], w) + Lookup(w, ips[|ips| - 1]).GetOr(0.0)
  }

  /** `serverweights[ip] = 1.0 / n` for each listed address, `n` being the length of the whole list. */
  function InitialWeights(ips: seq<string>, n: nat): Weights
    requires |ips| <= n
  {
    if ips == [] then [] else Put(InitialWeights(ips[..|ips| - 1], n), ips[|ips| - 1], 1.0 / n as real)
  }

  lemma {:induction false} InitialWeightsLookup(ips: seq<string>, n: nat, ip: string)
    requires 0 < |ips| <= n
    ensures Lookup(InitialWeights(ips, n), ip) == if ip in ips then Some(1.0 / n as real) else None
  {
    var init := ips[..|ips| - 1];
    if init != [] {
      InitialWeightsLookup(init, n, ip);
    }
    PutLookup(InitialWeights(init, n), ips[|ips| - 1], 1.0 / n as real, ip);
    assert ips == init + [ips[|ips| - 1]];
  }

  lemma {:induction false} SumOfEqualWeights(ips: seq<string>, w: Weights, c: real)
    requires forall i :: 0 <= i < |ips| ==> Lookup(w, ips[i]) == Some(c)
    ensures SumWeights(ips, w) == Mul(|ips| as real, c)
  {
    if ips != [] {
      var init := ips[..|ips| - 1];
      SumOfEqualWeights(init, w, c);
      assert Lookup(w, ips[|ips| - 1]) == Some(c);
      MulSucc(|init|, c);
    }
  }

  /**
   * The weights set at construction sum to 1 over the address list, even
   * when an address is listed twice: each listing counts 1/n.
   */
  lemma InitialWeightsSumToOne(ips: seq<string>)
    requires |ips| > 0
    ensures SumWeights(ips, InitialWeights(ips, |ips|)) == 1.0
  {
    var n := |ips|;
    var w := InitialWeights(ips, n);
    forall i | 0 <= i < n ensures Lookup(w, ips[i]) == Some(1.0 / n as real) {
      InitialWeightsLookup(ips, n, ips[i]);
    }
    SumOfEqualWeights(ips, w, 1.0 / n as real);
    MulInverse(n as real, 1.0);
  }

  lemma {:induction false} SumWeightsSkip(ips: seq<string>, w: Weights)
    requires w != []
    requires w[0].0 !in ips
    ensures SumWeights(ips, w) == SumWeights(ips, w[1..])
  {
    if ips != [] {
      SumWeightsSkip(ips[..|ips| - 1], w);
    }
  }

  lemma {:induction false} SumWeightsCons(k: string, ips: seq<string>, w: Weights)
    ensures SumWeights([k] + ips, w) == Lookup(w, k).GetOr(0.0) + SumWeights(ips, w)
    decreases |ips|
  {
    if ips != [] {
      var init := ips[..|ips| - 1];
      SumWeightsCons(k, init, w);
      assert ([k] + ips)[..|ips|] == [k] + init;
    }
  }

  /** Summed over its own keys, a weights hash gives its total. */
  lemma {:induction false} SumOverKeys(w: Weights)
    requires DistinctKeys(w)
    ensures SumWeights(Keys(w), w) == WTotal(w)
  {
    if w != [] {
      var rest := w[1..];
      assert DistinctKeys(rest) by {
        forall i, j | 0 <= i < j < |rest| ensures rest[i].0 != rest[j].0 {
          assert rest[i] == w[i + 1] && rest[j] == w[j + 1];
        }
      }
      SumOverKeys(rest);
      assert Keys(w) == [w[0].0] + Keys(rest);
      SumWeightsCons(w[0].0, Keys(rest), w);
      assert w[0].0 !in Keys(rest) by {
        forall i | 0 <= i < |rest| ensures Keys(rest)[i] != w[0].0 {
          assert rest[i] == w[i + 1];
        }
      }
      SumWeightsSkip(Keys(rest), w);
    }
  }

  // ---------------------------------------------------------------------
  // answer_calculate: every server address gets exactly its weight

  /** What a node knows about one address when its answer is calculated. */
  datatype IpInfo = IpInfo(children: Option<seq<Option<Stats>>>, response: Option<Outcome>)

  /** The children's stats, when every child has been calculated. */
  function AllCalculated(cs: seq<Option<Stats>>): (r: Option<seq<Stats>>)
    ensures r.Some? ==> |r.value| == |cs| && forall i :: 0 <= i < |cs| ==> cs[i] == Some(r.value[i])
    ensures r.None? ==> exists i :: 0 <= i < |cs| && cs[i].None?
  {
    if cs == [] then Some([])
    else
      var init := AllCalculated(cs[..|cs| - 1]);
      if init.None? || cs[|cs| - 1].None? then None
      else Some(init.value + [cs[|cs| - 1].value])
  }

  /**
   * One address of `answer_calculate`, with the terminal entry assigned as
   * written (`assign`) or accumulated (`!assign`):
   * - a `key:` placeholder copies its resolution entry, failing on a
   *   duplicate key or a probability other than the weight;
   * - an address with children combines them at its weight;
   * - otherwise the address's response is entered at its weight under the
   *   response's stats key.
   * A missing weight, entry, response or child statistic is the error
   * Ruby raises on `nil`.
   */
  function AnswerStep(s: Stats, ip: string, w: Weights, sr: Option<Stats>, info: IpInfo, assign: bool): Result<Stats>
  {
    var weight := Lookup(w, ip);
    if weight.None? then Err("undefined method for nil")
    else if IsPlaceholder(ip) then
      if Lookup(s, ip).Some? then Err("duplicate key found")
      else if sr.None? || Lookup(sr.value, ip).None? then Err("undefined method for nil")
      else if Lookup(sr.value, ip).value.prob != weight.value then Err("unexpected probability")
      else Ok(Put(s, ip, Lookup(sr.value, ip).value))
    else if info.children.Some? then
      var cs := AllCalculated(info.children.value);
      if cs.None? then Err("undefined method for nil")
      else Ok(Combine(s, cs.value, weight.value))
    else if info.response.None? then Err("undefined method for nil")
    else
      var r := info.response.value;
      var e := Entry(weight.value, r);
      if assign then Ok(Put(s, r.key, e)) else Ok(Accumulate(s, r.key, e))
  }

  /** The stats of a node that queried `ips`: each address in list order, from empty stats. */
  function AnswerStats(ips: seq<string>, w: Weights, sr: Option<Stats>, info: string -> IpInfo, assign: bool): Result<Stats>
  {
    if ips == [] then Ok([])
    else
      var prev := AnswerStats(ips[..|ips| - 1], w, sr, info, assign);
      if prev.Err? then prev
      else AnswerStep(prev.value, ips[|ips| - 1], w, sr, info(ips[|ips| - 1]), assign)
  }

  /** Every child list of the addresses is non-empty. */
  predicate ChildListsNonEmpty(ips: seq<string>, info: string -> IpInfo)
  {
    forall i :: 0 <= i < |ips| ==> info(ips[i]).children.Some? ==> |info(ips[i]).children.value| > 0
  }

  /** Every calculated child's stats sum to 1. */
  predicate ChildrenSumToOne(ips: seq<string>, info: string -> IpInfo)
  {
    forall i, j :: 0 <= i < |ips| && info(ips[i]).children.Some? && 0 <= j < |info(ips[i]).children.value| ==>
      (info(ips[i]).children.value[j].Some? ==> Total(info(ips[i]).children.value[j].value) == 1.0)
  }

  /** The calculated children's stats and the responses of the addresses keep their answers. */
  predicate InfoWellFormed(ips: seq<string>, info: string -> IpInfo)
  {
    (forall i, j :: 0 <= i < |ips| && info(ips[i]).children.Some? && 0 <= j < |info(ips[i]).children.value| ==>
      (info(ips[i]).children.value[j].Some? ==> WellFormed(info(ips[i]).children.value[j].value))) &&
    (forall i :: 0 <= i < |ips| && info(ips[i]).response.Some? ==> Present(info(ips[i]).response.value))
  }

  lemma {:induction false} AnswerStatsWellFormed(ips: seq<string>, w: Weights, sr: Option<Stats>, info: string -> IpInfo, assign: bool)
    requires AnswerStats(ips, w, sr, info, assign).Ok?
    requires sr.Some? ==> WellFormed(sr.value)
    requires InfoWellFormed(ips, info)
    ensures WellFormed(AnswerStats(ips, w, sr, info, assign).value)
  {
    if ips != [] {
      var init := ips[..|ips| - 1];
      var ip := ips[|ips| - 1];
      assert InfoWellFormed(init, info) by {
        forall i | 0 <= i < |init| ensures init[i] == ips[i] { }
      }
      AnswerStatsWellFormed(init, w, sr, info, assign);
      var s := AnswerStats(init, w, sr, info, assign).value;
      var inf := info(ip);
      if IsPlaceholder(ip) {
        var e := Lookup(sr.value, ip).value;
        var k :| 0 <= k < |sr.value| && sr.value[k] == (ip, e);
        PutWellFormed(s, ip, e);
      } else if inf.children.Some? {
        var cs := AllCalculated(inf.children.value).value;
        forall j | 0 <= j < |cs| ensures WellFormed(cs[j]) {
          assert inf.children.value[j] == Some(cs[j]);
        }
        CombineWellFormed(s, cs, Lookup(w, ip).value);
      } else {
        var e := Entry(Lookup(w, ip).value, inf.response.value);
        if assign {
          PutWellFormed(s, e.outcome.key, e);
        } else {
          AccumulateWellFormed(s, e.outcome.key, e);
        }
      }
    }
  }

  /** One address adds exactly its weight, when the terminal entry accumulates. */
  lemma AnswerStepConserves(s: Stats, ip: string, w: Weights, sr: Option<Stats>, info: IpInfo)
    requires AnswerStep(s, ip, w, sr, info, false).Ok?
    requires info.children.Some? ==> |info.children.value| > 0
    requires info.children.Some? ==> forall j :: 0 <= j < |info.children.value| ==>
      (info.children.value[j].Some? ==> Total(info.children.value[j].value) == 1.0)
    ensures Total(AnswerStep(s, ip, w, sr, info, false).value) == Total(s) + Lookup(w, ip).value
  {
    var weight := Lookup(w, ip).value;
    if IsPlaceholder(ip) {
      TotalPut(s, ip, Lookup(sr.value, ip).value);
    } else if info.children.Some? {
      var cs := AllCalculated(info.children.value).value;
      CombineConserves(s, cs, weight);
    } else {
      AccumulateTotal(s, info.response.value.key, Entry(weight, info.response.value));
    }
  }

  /**
   * The headline of `answer_calculate`: when it succeeds, the node's stats
   * sum to the sum of its addresses' weights. With weights summing to 1 the
   * node's outcomes sum to 1.
   */
  lemma {:induction false} AnswerStatsConserve(ips: seq<string>, w: Weights, sr: Option<Stats>, info: string -> IpInfo)
    requires AnswerStats(ips, w, sr, info, false).Ok?
    requires ChildListsNonEmpty(ips, info)
    requires ChildrenSumToOne(ips, info)
    ensures Total(AnswerStats(ips, w, sr, info, false).value) == SumWeights(ips, w)
  {
    if ips != [] {
      var init := ips[..|ips| - 1];
      var ip := ips[|ips| - 1];
      AnswerStatsConserve(init, w, sr, info);
      var prev := AnswerStats(init, w, sr, info, false).value;
      AnswerStepConserves(prev, ip, w, sr, info(ip));
    }
  }

  /**
   * As written, the terminal entry is assigned: an address listed twice
   * whose two visits produce the same stats key keeps only one weight.
   */
  lemma AnswerStatsAsWrittenLosesMass()
    ensures var o := Outcome(Answered, [], "key:192.0.2.1:answered:example.com:IN:A");
      var info := (ip: string) => IpInfo(None, Some(o));
      var w := [("192.0.2.1", 0.5)];
      var ips := ["192.0.2.1", "192.0.2.1"];
      SumWeights(ips, w) == 1.0 &&
      AnswerStats(ips, w, None, info, true) == Ok([(o.key, Entry(0.5, o))]) &&
      AnswerStats(ips, w, None, info, false) == Ok([(o.key, Entry(1.0, o))])
  {
    var o := Outcome(Answered, [], "key:192.0.2.1:answered:example.com:IN:A");
    var info := (ip: string) => IpInfo(None, Some(o));
    var ip := "192.0.2.1";
    var w := [(ip, 0.5)];
    var ips := [ip, ip];
    var e := Entry(0.5, o);
    var once := [(o.key, e)];
    assert !IsPlaceholder(ip) by {
      assert ip[..4] == "192.";
    }
    assert Lookup(w, ip) == Some(0.5);
    var single: seq<string> := [ip];
    assert ips[..1] == single;
    assert single[..0] == [];
    assert AnswerStats(single, w, None, info, true) == Ok(once);
    assert AnswerStats(single, w, None, info, false) == Ok(once);
    assert Lookup(once, o.key) == Some(e);
    assert Put(once, o.key, e) == once;
    assert Accumulate(once, o.key, e) == [(o.key, Entry(1.0, o))];
    assert SumWeights(single, w) == 0.5;
  }
}
