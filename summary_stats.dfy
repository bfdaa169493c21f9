/**
 * `SummaryStats` of the newest iteration: the root's outcome probabilities
 * bucketed by status, the answered mass grouped by the set of record data
 * it answered with, and the report `text` prints from the two. The
 * percentages `txt_prob` formats are left as reals.
 */
module SummaryStats {
  import opened Wrappers
  import opened DnsMessage
  import opened Outcomes
  import opened Hashes
  import opened ReferralStats
  import opened Lists
  import opened Sorting

  // ---------------------------------------------------------------------
  // Buckets by status

  /** `summary`: a probability per status, in the order the statuses first occur. */
  type Buckets = Hash<Status, real>

  function BTotal(b: Buckets): real
  {
    if b == [] then 0.0 else b[0].1 + BTotal(b[1..])
  }

  /** The mass of the entries with status `t`: the reference the buckets are checked against. */
  function StatusMass(s: Stats, t: Status): real
  {
    if s == [] then 0.0
    else StatusMass(s[..|s| - 1], t) + (if s[|s| - 1].1.outcome.status == t then s[|s| - 1].1.prob else 0.0)
  }

  /** Some entry has status `t`. */
  predicate HasStatus(s: Stats, t: Status)
  {
    exists i :: 0 <= i < |s| && s[i].1.outcome.status == t
  }

  /** `s[type] ||= { :prob => 0.0 }; s[type][:prob] += prob`. */
  function AddTo(b: Buckets, t: Status, p: real): Buckets
  {
    Put(b, t, Lookup(b, t).GetOr(0.0) + p)
  }

  /** `get_summary_stats`: the fold of `AddTo` over the root's stats, in order. */
  function GetSummaryStats(s: Stats): Buckets
  {
    if s == [] then []
    else
      var e := s[|s| - 1].1;
      AddTo(GetSummaryStats(s[..|s| - 1]), e.outcome.status, e.prob)
  }

  lemma {:induction false} BTotalPut(b: Buckets, k: Status, v: real)
    ensures BTotal(Put(b, k, v)) == BTotal(b) - Lookup(b, k).GetOr(0.0) + v
  {
    if b != [] && b[0].0 != k {
      BTotalPut(b[1..], k, v);
      assert Put(b, k, v)[1..] == Put(b[1..], k, v);
    }
  }

  lemma AddToTotal(b: Buckets, t: Status, p: real)
    ensures BTotal(AddTo(b, t, p)) == BTotal(b) + p
  {
    BTotalPut(b, t, Lookup(b, t).GetOr(0.0) + p);
  }

  /** The last entry of a non-empty hash is the last of its initial part and itself. */
  lemma HasStatusSnoc(s: Stats, t: Status)
    requires s != []
    ensures HasStatus(s, t) <==> HasStatus(s[..|s| - 1], t) || s[|s| - 1].1.outcome.status == t
  {
    var init := s[..|s| - 1];
    if HasStatus(s, t) && s[|s| - 1].1.outcome.status != t {
      var i :| 0 <= i < |s| && s[i].1.outcome.status == t;
      assert init[i].1.outcome.status == t;
    }
    if HasStatus(init, t) {
      var i :| 0 <= i < |init| && init[i].1.outcome.status == t;
      assert s[i] == init[i];
    }
  }

  /** Adding to a bucket creates it if it is missing and keeps every key once. */
  lemma AddToKeys(b: Buckets, t: Status, p: real)
    requires DistinctKeys(b)
    ensures DistinctKeys(AddTo(b, t, p))
    ensures forall u :: u in Keys(AddTo(b, t, p)) <==> u in Keys(b) || u == t
  {
    var v := Lookup(b, t).GetOr(0.0) + p;
    assert AddTo(b, t, p) == Put(b, t, v);
    PutDistinct(b, t, v);
    PutKeys(b, t, v);
    if t !in Keys(b) {
      assert Keys(AddTo(b, t, p)) == Keys(b) + [t];
    }
  }

  /** Adding to a bucket raises that bucket by `p` and no other. */
  lemma AddToLookup(b: Buckets, t: Status, p: real, u: Status)
    ensures Lookup(AddTo(b, t, p), u).GetOr(0.0) == Lookup(b, u).GetOr(0.0) + (if u == t then p else 0.0)
  {
    var v := Lookup(b, t).GetOr(0.0) + p;
    assert AddTo(b, t, p) == Put(b, t, v);
    PutLookup(b, t, v, u);
    if u == t {
      assert Lookup(AddTo(b, t, p), u) == Some(v);
    } else {
      assert Lookup(AddTo(b, t, p), u) == Lookup(b, u);
    }
  }

  /** The summary has a bucket for exactly the statuses present in the stats, once each. */
  lemma {:induction false} SummaryKeys(s: Stats)
    ensures DistinctKeys(GetSummaryStats(s))
    ensures forall t :: t in Keys(GetSummaryStats(s)) <==> HasStatus(s, t)
  {
    if s != [] {
      var init := s[..|s| - 1];
      var e := s[|s| - 1].1;
      SummaryKeys(init);
      AddToKeys(GetSummaryStats(init), e.outcome.status, e.prob);
      forall t ensures t in Keys(GetSummaryStats(s)) <==> HasStatus(s, t) {
        HasStatusSnoc(s, t);
      }
    }
  }

  /** Each bucket holds the mass of its status; a missing bucket reads as zero. */
  lemma {:induction false} SummaryMass(s: Stats, t: Status)
    ensures Lookup(GetSummaryStats(s), t).GetOr(0.0) == StatusMass(s, t)
  {
    if s != [] {
      var init := s[..|s| - 1];
      var e := s[|s| - 1].1;
      SummaryMass(init, t);
      AddToLookup(GetSummaryStats(init), e.outcome.status, e.prob, t);
    }
  }

  /** The buckets share out the whole mass of the stats. */
  lemma {:induction false} SummaryTotal(s: Stats)
    ensures BTotal(GetSummaryStats(s)) == Total(s)
  {
    if s != [] {
      var init := s[..|s| - 1];
      var e := s[|s| - 1].1;
      SummaryTotal(init);
      AddToTotal(GetSummaryStats(init), e.outcome.status, e.prob);
      TotalOfLast(s);
    }
  }

  /** For a calculated root, whose stats sum to one, the buckets sum to one. */
  lemma SummaryOfCalculatedRoot(s: Stats)
    requires Total(s) == 1.0
    ensures BTotal(GetSummaryStats(s)) == 1.0
  {
    SummaryTotal(s);
  }

  // ---------------------------------------------------------------------
  // Answer groups

  /** The record data of each answer, in order. */
  function Rdatas(rrs: seq<RR>): (r: seq<string>)
    ensures |r| == |rrs| && forall i :: 0 <= i < |rrs| ==> r[i] == rrs[i].rdata
  {
    if rrs == [] then [] else [rrs[0].rdata] + Rdatas(rrs[1..])
  }

  /** `parts.join("@@@")`. */
  function JoinAt(parts: seq<string>): string
  {
    if parts == [] then ""
    else if |parts| == 1 then parts[0]
    else parts[0] + "@@@" + JoinAt(parts[1..])
  }

  /** The key of an answer group: the record data sorted and joined with `@@@`. */
  function GroupKey(rrs: seq<RR>): string
  {
    JoinAt(Sort(Rdatas(rrs)))
  }

  /** Answers with the same record data, in whatever order, fall in the same group. */
  lemma GroupKeyIgnoresOrder(a: seq<RR>, b: seq<RR>)
    requires multiset(Rdatas(a)) == multiset(Rdatas(b))
    ensures GroupKey(a) == GroupKey(b)
  {
    SortedUnique(Sort(Rdatas(a)), Sort(Rdatas(b)));
  }

  /** An answer group: its probability and the records of the entry that created it. */
  datatype Group = Group(prob: real, rrs: seq<RR>)

  type Groups = Hash<string, Group>

  function GTotal(g: Groups): real
  {
    if g == [] then 0.0 else g[0].1.prob + GTotal(g[1..])
  }

  /** One entry of the root's stats added to the answer groups. */
  function AddAnswer(g: Groups, e: Entry): Groups
  {
    if e.outcome.status != Answered then g
    else
      var k := GroupKey(e.outcome.answers);
      match Lookup(g, k)
      case None => Put(g, k, Group(0.0 + e.prob, e.outcome.answers))
      case Some(prior) => Put(g, k, prior.(prob := prior.prob + e.prob))
  }

  /** `get_answer_stats`: the fold of `AddAnswer` over the root's stats, in order. */
  function GetAnswerStats(s: Stats): Groups
  {
    if s == [] then [] else AddAnswer(GetAnswerStats(s[..|s| - 1]), s[|s| - 1].1)
  }

  /** The records of the first answered entry whose group key is `k`. */
  function FirstAnswers(s: Stats, k: string): Option<seq<RR>>
  {
    if s == [] then None
    else
      var f := FirstAnswers(s[..|s| - 1], k);
      var e := s[|s| - 1].1;
      if f.Some? then f
      else if e.outcome.status == Answered && GroupKey(e.outcome.answers) == k then Some(e.outcome.answers)
      else None
  }

  lemma {:induction false} GTotalPut(g: Groups, k: string, v: Group)
    ensures GTotal(Put(g, k, v)) == GTotal(g) - (if Lookup(g, k).Some? then Lookup(g, k).value.prob else 0.0) + v.prob
  {
    if g != [] && g[0].0 != k {
      GTotalPut(g[1..], k, v);
      assert Put(g, k, v)[1..] == Put(g[1..], k, v);
    }
  }

  /** The answer groups share out exactly the mass of the answered entries. */
  lemma {:induction false} AnswerTotal(s: Stats)
    ensures GTotal(GetAnswerStats(s)) == StatusMass(s, Answered)
  {
    if s != [] {
      var init := s[..|s| - 1];
      var e := s[|s| - 1].1;
      var g := GetAnswerStats(init);
      AnswerTotal(init);
      if e.outcome.status == Answered {
        var k := GroupKey(e.outcome.answers);
        match Lookup(g, k)
        case None => GTotalPut(g, k, Group(0.0 + e.prob, e.outcome.answers));
        case Some(prior) => GTotalPut(g, k, prior.(prob := prior.prob + e.prob));
      }
    }
  }

  /** The answer groups add up to the `answered` bucket of the summary. */
  lemma AnswersMatchSummary(s: Stats)
    ensures GTotal(GetAnswerStats(s)) == Lookup(GetSummaryStats(s), Answered).GetOr(0.0)
  {
    AnswerTotal(s);
    SummaryMass(s, Answered);
  }

  /** Adding an entry keeps every group key once. */
  lemma AddAnswerDistinct(g: Groups, e: Entry)
    requires DistinctKeys(g)
    ensures DistinctKeys(AddAnswer(g, e))
  {
    if e.outcome.status == Answered {
      var k := GroupKey(e.outcome.answers);
      match Lookup(g, k)
      case None => PutDistinct(g, k, Group(0.0 + e.prob, e.outcome.answers));
      case Some(prior) => PutDistinct(g, k, prior.(prob := prior.prob + e.prob));
    }
  }

  /**
   * Adding an entry creates its group if the entry is answered and the group
   * is missing, with the entry's records; a group already there keeps its
   * records.
   */
  lemma AddAnswerLookup(g: Groups, e: Entry, k: string)
    ensures Lookup(AddAnswer(g, e), k).Some? <==>
      Lookup(g, k).Some? || (e.outcome.status == Answered && GroupKey(e.outcome.answers) == k)
    ensures Lookup(g, k).Some? ==> Lookup(AddAnswer(g, e), k).value.rrs == Lookup(g, k).value.rrs
    ensures Lookup(g, k).None? && Lookup(AddAnswer(g, e), k).Some? ==>
      Lookup(AddAnswer(g, e), k).value.rrs == e.outcome.answers
  {
    if e.outcome.status == Answered {
      var key := GroupKey(e.outcome.answers);
      var v := match Lookup(g, key)
        case None => Group(0.0 + e.prob, e.outcome.answers)
        case Some(prior) => prior.(prob := prior.prob + e.prob);
      assert AddAnswer(g, e) == Put(g, key, v);
      assert Lookup(g, key).Some? ==> v.rrs == Lookup(g, key).value.rrs;
      PutLookup(g, key, v, k);
    }
  }

  /** No group key occurs twice. */
  lemma {:induction false} AnswerDistinct(s: Stats)
    ensures DistinctKeys(GetAnswerStats(s))
  {
    if s != [] {
      AnswerDistinct(s[..|s| - 1]);
      AddAnswerDistinct(GetAnswerStats(s[..|s| - 1]), s[|s| - 1].1);
    }
  }

  /**
   * There is a group for exactly the keys of the answered entries, and each
   * keeps the records of the first entry with its key.
   */
  lemma {:induction false} AnswerGroup(s: Stats, k: string)
    ensures Lookup(GetAnswerStats(s), k).Some? <==> FirstAnswers(s, k).Some?
    ensures Lookup(GetAnswerStats(s), k).Some? ==> Lookup(GetAnswerStats(s), k).value.rrs == FirstAnswers(s, k).value
  {
    if s != [] {
      AnswerGroup(s[..|s| - 1], k);
      AddAnswerLookup(GetAnswerStats(s[..|s| - 1]), s[|s| - 1].1, k);
    }
  }

  /** An answered entry is represented: its key has a group. */
  lemma {:induction false} AnsweredHasGroup(s: Stats, i: nat)
    requires i < |s| && s[i].1.outcome.status == Answered
    ensures FirstAnswers(s, GroupKey(s[i].1.outcome.answers)).Some?
  {
    if i < |s| - 1 {
      AnsweredHasGroup(s[..|s| - 1], i);
    }
  }

  // ---------------------------------------------------------------------
  // The report

  /** A line of `text`: an answer group, or a category with its probability and phrase. */
  datatype Line = AnsweredLine(prob: real, records: seq<RR>) | CategoryLine(prob: real, phrase: string)

  /** The fixed phrase of each status; any other status prints its name. */
  function Phrase(t: Status): string
  {
    match t
    case NoData => "found no such record"
    case ReferralLame => "resulted in a lame referral"
    case Exception => "resulted in an exception"
    case Error => "resulted in an error"
    case NoGlue => "found no glue"
    case _ => StatusName(t)
  }

  /** One line per answer group, in order. */
  function GroupLines(a: Groups): (r: seq<Line>)
    ensures |r| == |a| && forall i :: 0 <= i < |a| ==> r[i] == AnsweredLine(a[i].1.prob, a[i].1.rrs)
  {
    if a == [] then [] else GroupLines(a[..|a| - 1]) + [AnsweredLine(a[|a| - 1].1.prob, a[|a| - 1].1.rrs)]
  }

  /** The first pass of `text`: the answer groups wherever `answered` is met among the buckets. */
  function FirstPass(b: Buckets, a: Groups): seq<Line>
  {
    if b == [] then [] else FirstPass(b[..|b| - 1], a) + (if b[|b| - 1].0 == Answered then GroupLines(a) else [])
  }

  /** The second pass of `text`: a line for every bucket other than `answered`. */
  function SecondPass(b: Buckets): seq<Line>
  {
    if b == [] then []
    else SecondPass(b[..|b| - 1]) + (if b[|b| - 1].0 != Answered then [CategoryLine(b[|b| - 1].1, Phrase(b[|b| - 1].0))] else [])
  }

  /** `text`: the answer lines, then the category lines, appended to the output as the buckets are walked twice. */
  method Text(b: Buckets, a: Groups) returns (o: seq<Line>)
    ensures o == FirstPass(b, a) + SecondPass(b)
  {
    o := [];
    for i := 0 to |b|
      invariant o == FirstPass(b[..i], a)
    {
      assert b[..i + 1][..i] == b[..i];
      if b[i].0 == Answered {
        for j := 0 to |a|
          invariant o == FirstPass(b[..i], a) + GroupLines(a[..j])
        {
          assert a[..j + 1][..j] == a[..j];
          o := o + [AnsweredLine(a[j].1.prob, a[j].1.rrs)];
        }
        assert a[..|a|] == a;
      }
    }
    assert b[..|b|] == b;
    ghost var first := o;
    for i := 0 to |b|
      invariant o == first + SecondPass(b[..i])
    {
      assert b[..i + 1][..i] == b[..i];
      if b[i].0 != Answered {
        o := o + [CategoryLine(b[i].1, Phrase(b[i].0))];
      }
    }
    assert b[..|b|] == b;
  }

  /** The first pass gives the answer groups once when `answered` is a bucket, and nothing otherwise. */
  lemma {:induction false} FirstPassOnce(b: Buckets, a: Groups)
    requires DistinctKeys(b)
    ensures FirstPass(b, a) == if Answered in Keys(b) then GroupLines(a) else []
  {
    if b != [] {
      var init := b[..|b| - 1];
      InitDistinct(b);
      LastKeyFresh(b);
      FirstPassOnce(init, a);
      KeysOfLast(b);
      assert FirstPass(b, a) == FirstPass(init, a) + (if b[|b| - 1].0 == Answered then GroupLines(a) else []);
    }
  }

  /** The second pass holds only category lines, and one for every bucket other than `answered`. */
  lemma {:induction false} SecondPassLines(b: Buckets)
    ensures forall i :: 0 <= i < |SecondPass(b)| ==> SecondPass(b)[i].CategoryLine?
    ensures forall t, p :: (t, p) in b && t != Answered ==> CategoryLine(p, Phrase(t)) in SecondPass(b)
  {
    if b != [] {
      SecondPassLines(b[..|b| - 1]);
      forall t, p | (t, p) in b && t != Answered ensures CategoryLine(p, Phrase(t)) in SecondPass(b) {
        if (t, p) != b[|b| - 1] {
          var i :| 0 <= i < |b| && b[i] == (t, p);
          assert b[..|b| - 1][i] == (t, p);
        }
      }
    }
  }

  /**
   * The report of a summary: every answer group's line comes before every
   * category line, the groups appear once if anything was answered, and
   * every other bucket has its line.
   */
  lemma TextOrder(s: Stats, o: seq<Line>)
    requires o == FirstPass(GetSummaryStats(s), GetAnswerStats(s)) + SecondPass(GetSummaryStats(s))
    ensures forall i, j :: 0 <= i < j < |o| && o[j].AnsweredLine? ==> o[i].AnsweredLine?
    ensures HasStatus(s, Answered) ==>
      |GetAnswerStats(s)| <= |o| && o[..|GetAnswerStats(s)|] == GroupLines(GetAnswerStats(s))
    ensures !HasStatus(s, Answered) ==> forall i :: 0 <= i < |o| ==> o[i].CategoryLine?
    ensures forall t, p :: (t, p) in GetSummaryStats(s) && t != Answered ==> CategoryLine(p, Phrase(t)) in o
  {
    var b := GetSummaryStats(s);
    var a := GetAnswerStats(s);
    SummaryKeys(s);
    FirstPassOnce(b, a);
    SecondPassLines(b);
    var first := FirstPass(b, a);
    forall t, p | (t, p) in b && t != Answered ensures CategoryLine(p, Phrase(t)) in o {
      assert CategoryLine(p, Phrase(t)) in SecondPass(b);
    }
  }
}
