/**
 * Host-name and string helpers shared by every iteration of the traverser:
 * ASCII case folding (Ruby's `downcase` and `casecmp`), suffix tests, the
 * bailiwick test, label stripping for the closest-zone search and the
 * dotted-quad test that picks A or AAAA for a root hint.
 */
module Names {
  import opened Wrappers

  function LowerChar(c: char): char
  {
    if 'A' <= c <= 'Z' then (c as int + 32) as char else c
  }

  /** ASCII lower-casing, as Ruby's `String#downcase` does on host names. */
  function Lower(s: string): (r: string)
    ensures |r| == |s|
  {
    if s == [] then [] else [LowerChar(s[0])] + Lower(s[1..])
  }

  /** Lower-casing works character by character. */
  lemma {:induction false} LowerAt(s: string)
    ensures forall i :: 0 <= i < |s| ==> Lower(s)[i] == LowerChar(s[i])
  {
    if s != [] {
      LowerAt(s[1..]);
    }
  }

  /** Lower-casing twice is lower-casing once. */
  lemma {:induction false} LowerIdempotent(s: string)
    ensures Lower(Lower(s)) == Lower(s)
  {
    if s != [] {
      LowerIdempotent(s[1..]);
      assert Lower(s)[1..] == Lower(s[1..]);
    }
  }

  /** Ruby's `a.casecmp(b) == 0`. */
  predicate EqualIgnoreCase(a: string, b: string)
  {
    Lower(a) == Lower(b)
  }

  predicate StartsWith(s: string, prefix: string)
  {
    |prefix| <= |s| && s[..|prefix|] == prefix
  }

  predicate EndsWith(s: string, suffix: string)
  {
    |suffix| <= |s| && s[|s| - |suffix|..] == suffix
  }

  /**
   * Whether `name` lies at or below the zone `bailiwick`, ignoring case.
   * A nil bailiwick admits every name and the root zone `""` contains every
   * name; otherwise the name is the zone itself or ends in "." + zone.
   */
  predicate InsideBailiwick(name: string, bailiwick: Option<string>)
  {
    match bailiwick
    case None => true
    case Some(bw) =>
      EqualIgnoreCase(name, bw) || bw == "" || EndsWith(Lower(name), "." + Lower(bw))
  }

  /**
   * One character of a regular expression made of literal characters and
   * `.`, matched case-insensitively: `.` matches any character but a newline.
   */
  predicate PatternCharMatch(c: char, p: char)
  {
    if p == '.' then c != '\n' else LowerChar(c) == LowerChar(p)
  }

  /** Ruby's `s =~ /#{pattern}$/i` for a pattern of literal characters and dots, on a one-line string. */
  predicate RegexEndMatch(s: string, pattern: string)
  {
    |pattern| <= |s| &&
    forall i :: 0 <= i < |pattern| ==> PatternCharMatch(s[|s| - |pattern| + i], pattern[i])
  }

  /**
   * The bailiwick test as the source writes it: case-insensitive equality, or
   * the interpolated regex `/#{"." + bailiwick}$/i`, whose dots are wildcards.
   */
  predicate InsideBailiwickAsWritten(name: string, bailiwick: Option<string>)
  {
    match bailiwick
    case None => true
    case Some(bw) => EqualIgnoreCase(name, bw) || RegexEndMatch(name, "." + bw)
  }

  /** Ruby's `ip =~ /^key:/`: the entry is a placeholder for a failed resolution, not an address. */
  predicate IsPlaceholder(ip: string)
  {
    StartsWith(ip, "key:")
  }

  /** Index of the first occurrence of `c` in `s`. */
  function IndexOf(s: string, c: char): (i: nat)
    requires c in s
    ensures i < |s| && s[i] == c
    ensures forall j :: 0 <= j < i ==> s[j] != c
  {
    if s[0] == c then 0 else 1 + IndexOf(s[1..], c)
  }

  /** Drops the leftmost label: everything up to and including the first dot, or the whole name when it has none. */
  function StripLabel(d: string): (r: string)
    ensures d != "" ==> |r| < |d|
    ensures '.' in d ==> d == d[..IndexOf(d, '.')] + "." + r
    ensures '.' !in d ==> r == ""
  {
    if '.' in d then d[IndexOf(d, '.') + 1..] else ""
  }

  /** The names the closest-zone search visits: `d`, then each label-stripped suffix, down to the root `""`. */
  function Suffixes(d: string): (r: seq<string>)
    decreases |d|
  {
    if d == "" then [""] else [d] + Suffixes(StripLabel(d))
  }

  lemma {:induction false} SuffixesEndAtRoot(d: string)
    ensures |Suffixes(d)| >= 1 && Suffixes(d)[0] == d && "" in Suffixes(d)
    decreases |d|
  {
    if d != "" {
      SuffixesEndAtRoot(StripLabel(d));
    }
  }

  /** Past its first name, the chain of a name is the chain of the name with its leftmost label dropped. */
  lemma SuffixesShift(d: string)
    requires d != ""
    ensures |Suffixes(d)| == |Suffixes(StripLabel(d))| + 1 && Suffixes(d)[0] == d
    ensures forall i :: 0 < i < |Suffixes(d)| ==> Suffixes(d)[i] == Suffixes(StripLabel(d))[i - 1]
  {
  }

  lemma EndsWithTrans(pre: string, s: string, t: string)
    requires EndsWith(s, t)
    ensures EndsWith(pre + s, t)
  {
    assert (pre + s)[|pre + s| - |t|..] == s[|s| - |t|..];
  }

  lemma EndsWithFirstDot(pre: string, s: string, b: string)
    requires '.' !in pre
    requires EndsWith(pre + "." + s, "." + b)
    ensures b == s || EndsWith(s, "." + b)
  {
    var n := pre + "." + s;
    var p := |n| - |b| - 1;
    assert n[p] == '.';
    if p == |pre| {
      assert b == n[p + 1..];
      assert n[p + 1..] == s;
    } else if p > |pre| {
      assert s[|s| - |b| - 1..] == n[p..];
    }
  }

  /** Past the first dot, "ends in . + b" means "is b or ends in . + b" of the stripped name. */
  lemma EndsWithAfterStrip(n: string, b: string)
    requires '.' in n
    ensures EndsWith(n, "." + b) <==> (b == StripLabel(n) || EndsWith(StripLabel(n), "." + b))
  {
    var pre := n[..IndexOf(n, '.')];
    assert '.' !in pre;
    EndsWithPastLabel(pre, StripLabel(n), b);
  }

  /** `EndsWithAfterStrip` for a name written as its first label, a dot and the rest. */
  lemma EndsWithPastLabel(pre: string, s: string, b: string)
    requires '.' !in pre
    ensures EndsWith(pre + "." + s, "." + b) <==> (b == s || EndsWith(s, "." + b))
  {
    if EndsWith(s, "." + b) {
      EndsWithTrans(pre + ".", s, "." + b);
      assert pre + "." + s == (pre + ".") + s;
    }
    if b == s {
      EndsWithTrans(pre, "." + s, "." + b);
      assert pre + "." + s == pre + ("." + s);
    }
    if EndsWith(pre + "." + s, "." + b) {
      EndsWithFirstDot(pre, s, b);
    }
  }

  /**
   * A zone `b` lies on the suffix chain of `n` exactly when `n` is `b`, `b` is
   * the root, or `n` ends in "." + `b`: the bailiwick test and the closest-zone
   * search agree on which zones enclose a name.
   */
  lemma {:induction false} OnSuffixChain(n: string, b: string)
    ensures b in Suffixes(n) <==> (n == b || b == "" || EndsWith(n, "." + b))
    decreases |n|
  {
    if n == "" {
      assert Suffixes(n) == [""];
    } else {
      var s := StripLabel(n);
      assert Suffixes(n) == [n] + Suffixes(s);
      OnSuffixChain(s, b);
      EndsWithDotHasDot(n, b);
      if '.' !in n {
        assert s == "";
        assert Suffixes(s) == [""];
      } else {
        EndsWithAfterStrip(n, b);
      }
    }
  }

  lemma EndsWithDotHasDot(n: string, b: string)
    ensures EndsWith(n, "." + b) ==> '.' in n
  {
    if EndsWith(n, "." + b) {
      assert n[|n| - |b| - 1] == '.';
    }
  }

  /** The bailiwick test accepts exactly the names whose suffix chain reaches the bailiwick. */
  lemma InsideBailiwickOnSuffixChain(name: string, bw: string)
    ensures InsideBailiwick(name, Some(bw)) <==> Lower(bw) in Suffixes(Lower(name))
  {
    OnSuffixChain(Lower(name), Lower(bw));
    assert bw == "" <==> Lower(bw) == "";
  }

  /** Every name the intended test accepts is accepted by the regex the source writes. */
  lemma InsideImpliesAsWritten(name: string, bw: Option<string>)
    requires '\n' !in name
    ensures InsideBailiwick(name, bw) ==> InsideBailiwickAsWritten(name, bw)
  {
    if bw.Some? && InsideBailiwick(name, bw) && !EqualIgnoreCase(name, bw.value) {
      var b := bw.value;
      var p := "." + b;
      if b == "" {
        assert |name| > 0;
        assert PatternCharMatch(name[|name| - 1], '.');
      } else {
        var ln := Lower(name);
        LowerAt(name);
        LowerAt(b);
        assert EndsWith(ln, "." + Lower(b));
        forall i | 0 <= i < |p|
          ensures PatternCharMatch(name[|name| - |p| + i], p[i])
        {
          assert ln[|ln| - |p| + i] == ("." + Lower(b))[i];
          if i > 0 {
            assert p[i] == b[i - 1];
            assert ("." + Lower(b))[i] == LowerChar(b[i - 1]);
            if b[i - 1] == '.' {
              assert name[|name| - |p| + i] != '\n';
            }
          } else {
            assert name[|name| - |p|] != '\n';
          }
        }
      }
    }
  }

  /** The regex accepts a name outside the zone: its leading dot matches any character. */
  lemma AsWrittenAcceptsOutsideName()
    ensures InsideBailiwickAsWritten("telecom", Some("com"))
    ensures !InsideBailiwick("telecom", Some("com"))
  {
    assert PatternCharMatch("telecom"[3], '.');
    assert Lower("telecom") == "telecom";
    assert Lower("com") == "com";
    assert "telecom"[7 - 4..] == "ecom";
  }

  /** The regex also accepts a name in a sibling zone: the dot inside the bailiwick matches any character. */
  lemma AsWrittenAcceptsSiblingZone()
    ensures InsideBailiwickAsWritten("ns.myexample.com", Some("example.com"))
    ensures !InsideBailiwick("ns.myexample.com", Some("example.com"))
  {
    SiblingZoneMatches("ns.myexample.com", "example.com");
  }

  /** The steps of the sibling-zone example, on names the solver does not expand. */
  lemma SiblingZoneMatches(n: string, b: string)
    requires n == "ns.myexample.com" && b == "example.com"
    ensures InsideBailiwickAsWritten(n, Some(b))
    ensures !InsideBailiwick(n, Some(b))
  {
    var p := "." + b;
    assert n[4..] == "yexample.com";
    assert forall i :: 0 <= i < |p| ==> PatternCharMatch(n[|n| - |p| + i], p[i]);
    LowerAt(n);
    assert Lower(n)[4] == 'y';
    assert ("." + Lower(b))[0] == '.';
    assert Lower(n)[|n| - |p|..][0] != ("." + Lower(b))[0];
  }

  /** Ruby's `s.split(sep, -1)`: the pieces between separators, empty ones included. */
  function Split(s: string, sep: char): (r: seq<string>)
    ensures |r| >= 1
    ensures forall i :: 0 <= i < |r| ==> sep !in r[i]
    decreases |s|
  {
    if sep !in s then [s]
    else
      var i := IndexOf(s, sep);
      [s[..i]] + Split(s[i + 1..], sep)
  }

  /** Ruby's `parts.join(sep)`. */
  function Join(parts: seq<string>, sep: char): string
  {
    if parts == [] then ""
    else if |parts| == 1 then parts[0]
    else parts[0] + [sep] + Join(parts[1..], sep)
  }

  /** Joining the pieces of a split gives back the string. */
  lemma {:induction false} JoinSplit(s: string, sep: char)
    ensures Join(Split(s, sep), sep) == s
    decreases |s|
  {
    if sep in s {
      var i := IndexOf(s, sep);
      var rest := Split(s[i + 1..], sep);
      JoinSplit(s[i + 1..], sep);
      assert Split(s, sep) == [s[..i]] + rest;
      assert ([s[..i]] + rest)[1..] == rest;
      assert Join(Split(s, sep), sep) == s[..i] + [sep] + Join(rest, sep);
      assert s == s[..i] + [sep] + s[i + 1..];
    }
  }

  /** Splitting a join of separator-free pieces gives back the pieces, so such joins are injective. */
  lemma {:induction false} SplitJoin(parts: seq<string>, sep: char)
    requires |parts| >= 1
    requires forall i :: 0 <= i < |parts| ==> sep !in parts[i]
    ensures Split(Join(parts, sep), sep) == parts
  {
    if |parts| > 1 {
      SplitJoin(parts[1..], sep);
      var s := Join(parts, sep);
      assert s == parts[0] + [sep] + Join(parts[1..], sep);
      assert s[|parts[0]|] == sep;
      assert sep in s;
      assert IndexOf(s, sep) == |parts[0]|;
      assert s[..|parts[0]|] == parts[0];
      assert s[|parts[0]| + 1..] == Join(parts[1..], sep);
    }
  }

  lemma JoinInjective(a: seq<string>, b: seq<string>, sep: char)
    requires |a| >= 1 && |b| >= 1
    requires forall i :: 0 <= i < |a| ==> sep !in a[i]
    requires forall i :: 0 <= i < |b| ==> sep !in b[i]
    ensures Join(a, sep) == Join(b, sep) <==> a == b
  {
    SplitJoin(a, sep);
    SplitJoin(b, sep);
  }

  /**
   * Statistics keys are fields joined by `:`. Two keys that agree up to a
   * point and then continue with different colon-free fields differ,
   * whatever follows.
   */
  lemma FieldBeforeColon(pre: string, a: string, b: string, ra: string, rb: string)
    requires ':' !in a && ':' !in b && a != b
    ensures pre + a + ":" + ra != pre + b + ":" + rb
  {
    var x := pre + a + ":" + ra;
    var y := pre + b + ":" + rb;
    if |a| < |b| {
      assert x[|pre| + |a|] == ':' && y[|pre| + |a|] == b[|a|];
    } else if |b| < |a| {
      assert y[|pre| + |b|] == ':' && x[|pre| + |b|] == a[|b|];
    } else {
      assert x[|pre|..|pre| + |a|] == a && y[|pre|..|pre| + |b|] == b;
    }
  }

  predicate IsDigit(c: char)
  {
    '0' <= c <= '9'
  }

  /** Ruby's `ip =~ /\A(\d+)\.(\d+)\.(\d+)\.(\d+)\z/`: four non-empty groups of digits. */
  predicate IsDottedQuad(s: string)
  {
    var parts := Split(s, '.');
    |parts| == 4 &&
    forall i :: 0 <= i < 4 ==> |parts[i]| > 0 && forall j :: 0 <= j < |parts[i]| ==> IsDigit(parts[i][j])
  }

  /** A join of digit-only pieces holds only digits and separators. */
  lemma {:induction false} JoinOfDigits(parts: seq<string>, sep: char)
    requires forall i, j :: 0 <= i < |parts| && 0 <= j < |parts[i]| ==> IsDigit(parts[i][j])
    ensures forall k :: 0 <= k < |Join(parts, sep)| ==> IsDigit(Join(parts, sep)[k]) || Join(parts, sep)[k] == sep
  {
    if |parts| > 1 {
      JoinOfDigits(parts[1..], sep);
      var tail := Join(parts[1..], sep);
      assert Join(parts, sep) == parts[0] + [sep] + tail;
      forall k | 0 <= k < |Join(parts, sep)|
        ensures IsDigit(Join(parts, sep)[k]) || Join(parts, sep)[k] == sep
      {
        if k < |parts[0]| {
          assert Join(parts, sep)[k] == parts[0][k];
        } else if k > |parts[0]| {
          assert Join(parts, sep)[k] == tail[k - |parts[0]| - 1];
        }
      }
    }
  }

  /** A dotted quad is made of digits and dots only. */
  lemma DottedQuadShape(s: string)
    requires IsDottedQuad(s)
    ensures forall k :: 0 <= k < |s| ==> IsDigit(s[k]) || s[k] == '.'
  {
    JoinSplit(s, '.');
    JoinOfDigits(Split(s, '.'), '.');
  }
}
