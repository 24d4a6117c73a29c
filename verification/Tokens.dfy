/** Field names as runs of alphanumeric characters: splitting, underscore-joining, and what a
    word-boundary match between two underscore-joined names means. */
module Tokens {
  import opened WordMatch

  predicate IsToken(t: string) {
    |t| > 0 && forall i :: 0 <= i < |t| ==> IsAlphanumeric(t[i])
  }

  predicate AreTokens(ts: seq<string>) {
    forall i :: 0 <= i < |ts| ==> IsToken(ts[i])
  }

  /** The length of the alphanumeric run a name starts with. */
  function RunLength(s: string): (n: nat)
    ensures n <= |s|
    ensures forall i :: 0 <= i < n ==> IsAlphanumeric(s[i])
    ensures n < |s| ==> !IsAlphanumeric(s[n])
  {
    if s == [] || !IsAlphanumeric(s[0]) then 0 else 1 + RunLength(s[1..])
  }

  /** `splitTokens`. */
  function SplitTokens(s: string): (ts: seq<string>)
    ensures AreTokens(ts)
    decreases |s|
  {
    var n := RunLength(s);
    if s == [] then []
    else if n == 0 then SplitTokens(s[1..])
    else [s[..n]] + SplitTokens(s[n..])
  }

  /** `strings.Join(ts, "_")`. */
  function Join(ts: seq<string>): string {
    if ts == [] then "" else if |ts| == 1 then ts[0] else ts[0] + "_" + Join(ts[1..])
  }

  lemma {:induction false} RunLengthOfPrefix(t: string, rest: string)
    requires forall i :: 0 <= i < |t| ==> IsAlphanumeric(t[i])
    requires rest == "" || !IsAlphanumeric(rest[0])
    ensures RunLength(t + rest) == |t|
  {
    if t == "" {
      assert t + rest == rest;
    } else {
      assert (t + rest)[1..] == t[1..] + rest;
      RunLengthOfPrefix(t[1..], rest);
    }
  }

  /** A leading run is the first token. */
  lemma SplitRun(t: string, rest: string)
    requires IsToken(t) && (rest == "" || !IsAlphanumeric(rest[0]))
    ensures SplitTokens(t + rest) == [t] + SplitTokens(rest)
  {
    RunLengthOfPrefix(t, rest);
    assert (t + rest)[..|t|] == t && (t + rest)[|t|..] == rest;
  }

  lemma SplitSeparator(c: char, rest: string)
    requires !IsAlphanumeric(c)
    ensures SplitTokens([c] + rest) == SplitTokens(rest)
  {
    assert RunLength([c] + rest) == 0 && ([c] + rest)[1..] == rest;
  }

  /** Splitting undoes joining. */
  lemma {:induction false} SplitOfJoin(ts: seq<string>)
    requires AreTokens(ts)
    ensures SplitTokens(Join(ts)) == ts
  {
    if |ts| == 1 {
      assert ts[0] + "" == ts[0] && SplitTokens("") == [];
      SplitRun(ts[0], "");
    } else if |ts| > 1 {
      assert Join(ts) == ts[0] + ("_" + Join(ts[1..]));
      SplitRun(ts[0], "_" + Join(ts[1..]));
      SplitSeparator('_', Join(ts[1..]));
      SplitOfJoin(ts[1..]);
      assert ts == [ts[0]] + ts[1..];
    }
  }

  /** Every token of a name stands in it between word boundaries. */
  lemma {:induction false} TokenStandsBounded(s: string, t: string) returns (at: nat)
    requires t in SplitTokens(s)
    ensures BoundedAt(s, t, at)
    decreases |s|
  {
    hide *;
    MemberIsToken(s, t);
    var n := RunLength(s);
    if n == 0 {
      SkipsSeparator(s);
      var a := TokenStandsBounded(s[1..], t);
      ShiftBounded(s, t, 1, a);
      at := a + 1;
    } else {
      LeadingRun(s);
      if t == s[..n] {
        at := 0;
      } else {
        MemberOfCons(s[..n], SplitTokens(s[n..]), t);
        var a := TokenStandsBounded(s[n..], t);
        TokenStartsAlphanumeric(s[n..], t, a);
        ShiftBounded(s, t, n, a);
        at := a + n;
      }
    }
  }

  lemma MemberOfCons(first: string, rest: seq<string>, t: string)
    requires t in [first] + rest && t != first
    ensures t in rest
  {
  }

  lemma MemberIsToken(s: string, t: string)
    requires t in SplitTokens(s)
    ensures IsToken(t) && s != ""
  {
  }

  lemma SkipsSeparator(s: string)
    requires s != "" && RunLength(s) == 0
    ensures !IsAlphanumeric(s[0]) && SplitTokens(s) == SplitTokens(s[1..])
  {
  }

  lemma LeadingRun(s: string)
    requires RunLength(s) > 0
    ensures var n := RunLength(s); SplitTokens(s) == [s[..n]] + SplitTokens(s[n..]) && BoundedAt(s, s[..n], 0)
  {
    assert s[0..RunLength(s)] == s[..RunLength(s)];
  }

  lemma TokenStartsAlphanumeric(s: string, t: string, at: nat)
    requires IsToken(t) && BoundedAt(s, t, at)
    ensures at < |s| && IsAlphanumeric(s[at])
  {
    assert s[at] == s[at..at + |t|][0];
  }

  lemma ShiftBounded(s: string, p: string, n: nat, a: nat)
    requires n <= |s| && BoundedAt(s[n..], p, a)
    requires a > 0 || n == 0 || !IsAlphanumeric(s[n-1])
    ensures BoundedAt(s, p, a + n)
  {
    assert s[a + n..a + n + |p|] == s[n..][a..a + |p|];
  }

  // ---------------------------------------------------------------- matching joined names

  predicate SublistAt(part: seq<string>, whole: seq<string>, k: nat) {
    k + |part| <= |whole| && whole[k..k + |part|] == part
  }

  predicate IsSublist(part: seq<string>, whole: seq<string>) {
    exists k: nat :: k <= |whole| && SublistAt(part, whole, k)
  }

  lemma {:induction false} JoinOfConcat(a: seq<string>, b: seq<string>)
    requires a != [] && b != []
    ensures Join(a + b) == Join(a) + "_" + Join(b)
  {
    assert (a + b)[1..] == a[1..] + b;
    if |a| > 1 {
      JoinOfConcat(a[1..], b);
    }
  }

  lemma BoundedBetween(head: string, p: string, tail: string)
    requires (head == "" || !IsAlphanumeric(head[|head|-1])) && (tail == "" || !IsAlphanumeric(tail[0]))
    ensures BoundedAt(head + (p + tail), p, |head|)
  {
    assert (head + (p + tail))[|head|..|head| + |p|] == p;
  }

  /** A contiguous sublist of tokens is a bounded occurrence of the joined name. */
  lemma SublistStandsBounded(part: seq<string>, whole: seq<string>, k: nat) returns (at: nat)
    requires part != [] && SublistAt(part, whole, k)
    ensures BoundedAt(Join(whole), Join(part), at)
  {
    var front, back := whole[..k], whole[k + |part|..];
    var tail := if back == [] then "" else "_" + Join(back);
    var head := if front == [] then "" else Join(front) + "_";
    JoinThreeParts(front, part, back);
    assert whole == front + (part + back);
    BoundedBetween(head, Join(part), tail);
    at := |head|;
  }

  lemma JoinThreeParts(front: seq<string>, part: seq<string>, back: seq<string>)
    requires part != []
    ensures Join(front + (part + back)) ==
            (if front == [] then "" else Join(front) + "_") +
                (Join(part) + (if back == [] then "" else "_" + Join(back)))
  {
    if back == [] {
      assert part + back == part;
    } else {
      JoinOfConcat(part, back);
    }
    if front == [] {
      assert front + (part + back) == part + back;
    } else {
      JoinOfConcat(front, part + back);
    }
  }

  lemma JoinNotEmpty(ts: seq<string>)
    requires AreTokens(ts) && ts != []
    ensures |Join(ts)| >= |ts[0]| > 0 && Join(ts)[..|ts[0]|] == ts[0]
    ensures |ts| > 1 ==> |Join(ts)| > |ts[0]| && Join(ts)[|ts[0]|] == '_' && Join(ts)[|ts[0]| + 1..] == Join(ts[1..])
    ensures |ts| == 1 ==> Join(ts) == ts[0]
  {
    assert IsToken(ts[0]);
  }

  /** If a joined name starts with another one and the match ends on a word boundary, the tokens do. */
  lemma {:induction false} BoundedPrefixIsSublist(part: seq<string>, whole: seq<string>)
    requires AreTokens(part) && AreTokens(whole) && part != [] && whole != []
    requires BoundedAt(Join(whole), Join(part), 0)
    ensures SublistAt(part, whole, 0)
  {
    var p, w := Join(part), Join(whole);
    JoinNotEmpty(part);
    JoinNotEmpty(whole);
    FirstTokensAgree(part, whole);
    var n := |part[0]|;
    if |part| > 1 {
      assert w[n+1..][..|Join(part[1..])|] == w[..|p|][n+1..] == p[n+1..];
      BoundedPrefixIsSublist(part[1..], whole[1..]);
      hide *;
      assert SublistAt(part, whole, 0) by { PrependToken(part, whole); }
    }
  }

  lemma PrependToken(part: seq<string>, whole: seq<string>)
    requires part != [] && whole != [] && part[0] == whole[0] && SublistAt(part[1..], whole[1..], 0)
    ensures SublistAt(part, whole, 0)
  {
    assert whole[..|part|] == [whole[0]] + whole[1..][..|part|-1];
    assert part == [part[0]] + part[1..];
  }

  /** A joined name that starts another and ends on a word boundary starts with the same token, and
      goes on only if the other does. */
  lemma FirstTokensAgree(part: seq<string>, whole: seq<string>)
    requires AreTokens(part) && AreTokens(whole) && part != [] && whole != []
    requires BoundedAt(Join(whole), Join(part), 0)
    ensures part[0] == whole[0] && (|part| > 1 ==> |whole| > 1)
  {
    var p, w := Join(part), Join(whole);
    JoinNotEmpty(part);
    JoinNotEmpty(whole);
    assert IsToken(part[0]) && IsToken(whole[0]);
    hide *;
    StartsSame(p, w, part[0], whole[0]);
  }

  /** Two runs that start two texts, one a bounded prefix of the other, are the same run. */
  lemma StartsSame(p: string, w: string, t: string, u: string)
    requires BoundedAt(w, p, 0) && IsToken(t) && IsToken(u)
    requires |t| <= |p| && p[..|t|] == t && (|t| < |p| ==> p[|t|] == '_')
    requires |u| <= |w| && w[..|u|] == u && (|u| < |w| ==> w[|u|] == '_')
    ensures t == u && (|t| < |p| ==> |u| < |w|)
  {
    assert p == w[..|p|];
    SameStart(p, w);
    SameStart(t, p);
    SameStart(u, w);
    assert |t| == |u|;
  }

  lemma SameStart(a: string, b: string)
    requires |a| <= |b| && b[..|a|] == a
    ensures forall i :: 0 <= i < |a| ==> a[i] == b[i]
  {
    assert forall i :: 0 <= i < |a| ==> b[..|a|][i] == b[i];
  }

  /** A bounded occurrence that does not start a joined name lies in what follows its first token. */
  lemma OccurrenceIsPastFirstToken(whole: seq<string>, p: string, at: nat)
    requires AreTokens(whole) && whole != [] && |p| > 0 && at > 0
    requires BoundedAt(Join(whole), p, at)
    ensures |whole| > 1 && at > |whole[0]| && BoundedAt(Join(whole[1..]), p, at - |whole[0]| - 1)
  {
    JoinNotEmpty(whole);
    assert IsToken(whole[0]);
    var w, m := Join(whole), |whole[0]|;
    assert at - 1 >= m by {
      assert forall i :: 0 <= i < m ==> w[..m][i] == w[i];
    }
    assert w[m+1..][at-m-1..at-m-1 + |p|] == w[at..at + |p|];
  }

  lemma {:induction false} BoundedIsSublist(part: seq<string>, whole: seq<string>, at: nat) returns (k: nat)
    requires AreTokens(part) && AreTokens(whole) && part != []
    requires BoundedAt(Join(whole), Join(part), at)
    ensures SublistAt(part, whole, k)
  {
    JoinNotEmpty(part);
    if whole == [] {
      assert false;
    } else if at == 0 {
      BoundedPrefixIsSublist(part, whole);
      k := 0;
    } else {
      OccurrenceIsPastFirstToken(whole, Join(part), at);
      var j := BoundedIsSublist(part, whole[1..], at - |whole[0]| - 1);
      k := j + 1;
      hide Join, IsToken, BoundedAt;
      assert whole[1..][j..j + |part|] == whole[k..k + |part|];
    }
  }

  /** The word-boundary match of two underscore-joined names is contiguous token-sublist inclusion. */
  lemma JoinedMatchIsSublist(part: seq<string>, whole: seq<string>)
    requires AreTokens(part) && AreTokens(whole) && part != []
    requires !HasWordBorder(Join(part))
    ensures Matches(Join(whole), Join(part)) <==> IsSublist(part, whole)
  {
    JoinNotEmpty(part);
    MatchesIff(Join(whole), Join(part));
    if Matches(Join(whole), Join(part)) {
      var at: nat :| BoundedAt(Join(whole), Join(part), at);
      var k := BoundedIsSublist(part, whole, at);
      assert k <= |whole|;
    }
    if IsSublist(part, whole) {
      var k: nat :| k <= |whole| && SublistAt(part, whole, k);
      var at := SublistStandsBounded(part, whole, k);
    }
  }
}
