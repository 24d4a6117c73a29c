/** `redaction/sensitive_fields.go`: which field names are sensitive, over any lists of default,
    short and exempt names. `SensitiveDefaults` holds the repository's own lists. */
module SensitiveNames {
  import opened WordMatch
  import opened Tokens

  datatype Lists = Lists(defaults: seq<string>, short: seq<string>, clear: seq<string>)

  // ---------------------------------------------------------------- normalization

  function LowerChar(c: char): char {
    if IsUpper(c) then (c as int + 32) as char else c
  }

  /** `strings.ToLower` on ASCII. */
  function Lower(s: string): (r: string)
    ensures |r| == |s|
    ensures forall i :: 0 <= i < |s| ==> r[i] == LowerChar(s[i])
  {
    if s == [] then [] else [LowerChar(s[0])] + Lower(s[1..])
  }

  predicate HasUpper(s: string) {
    exists i :: 0 <= i < |s| && IsUpper(s[i])
  }

  /** Whether camelCase splitting puts an underscore before character `i`. */
  predicate StartsWord(s: string, i: nat)
    requires i < |s|
  {
    i > 0 && IsUpper(s[i]) &&
    (IsLower(s[i-1]) || IsDigit(s[i-1]) || (IsUpper(s[i-1]) && i + 1 < |s| && IsLower(s[i+1])))
  }

  /** `normalizeFieldName` of the first `n` characters. */
  function NormalizePrefix(s: string, n: nat): string
    requires n <= |s|
  {
    if n == 0 then [] else NormalizePrefix(s, n-1) + (if StartsWord(s, n-1) then ['_'] else []) + [s[n-1]]
  }

  function Normalize(s: string): string {
    Lower(NormalizePrefix(s, |s|))
  }

  method NormalizeFieldName(fieldName: string) returns (r: string)
    ensures r == Normalize(fieldName)
  {
    var b := [];
    for i := 0 to |fieldName|
      invariant b == NormalizePrefix(fieldName, i)
    {
      if i > 0 {
        var prev := fieldName[i-1];
        if IsUpper(fieldName[i]) &&
           (IsLower(prev) || IsDigit(prev) || (IsUpper(prev) && i + 1 < |fieldName| && IsLower(fieldName[i+1]))) {
          b := b + ['_'];
        }
      }
      b := b + [fieldName[i]];
    }
    r := Lower(b);
  }

  /** Without capitals there is nothing to split and nothing to lower. */
  lemma NormalizeWithoutUpper(s: string)
    requires !HasUpper(s)
    ensures Normalize(s) == s && Lower(s) == s
  {
    PrefixWithoutUpper(s, |s|);
    assert s[..|s|] == s;
  }

  lemma {:induction false} LowerOfConcat(a: string, b: string)
    ensures Lower(a + b) == Lower(a) + Lower(b)
  {
    var r := Lower(a) + Lower(b);
    assert forall i :: 0 <= i < |a + b| ==> Lower(a + b)[i] == r[i];
  }

  /** A lowercase word followed by a capitalized one or by an acronym, as in "sessionToken" and
      "sessionID". */
  lemma CamelPairIsSplit(u: string, v: string)
    requires u != "" && !HasUpper(u) && (IsLower(u[|u|-1]) || IsDigit(u[|u|-1]))
    requires v != "" && IsUpper(v[0]) && (!HasUpper(v[1..]) || forall i :: 0 <= i < |v| ==> IsUpper(v[i]))
    ensures Normalize(u + v) == Lower(u) + "_" + Lower(v)
  {
    var s := u + v;
    forall i | 0 <= i < |s| ensures StartsWord(s, i) <==> i == |u| {
      assert i > |u| ==> s[i] == v[1..][i - |u| - 1];
      assert i > |u| && !HasUpper(v[1..]) ==> !IsUpper(s[i]);
    }
    JoinedAt(s, u, v);
  }

  /** An acronym followed by a capitalized word, as in "APIKey". */
  lemma AcronymPairIsSplit(u: string, v: string)
    requires u != "" && forall i :: 0 <= i < |u| ==> IsUpper(u[i])
    requires |v| >= 2 && IsUpper(v[0]) && IsLower(v[1]) && !HasUpper(v[1..])
    ensures Normalize(u + v) == Lower(u) + "_" + Lower(v)
  {
    var s := u + v;
    forall i | 0 <= i < |s| ensures StartsWord(s, i) <==> i == |u| {
      assert i > |u| ==> s[i] == v[1..][i - |u| - 1];
    }
    JoinedAt(s, u, v);
  }

  lemma JoinedAt(s: string, u: string, v: string)
    requires s == u + v && v != "" && forall i :: 0 <= i < |s| ==> (StartsWord(s, i) <==> i == |u|)
    ensures Normalize(s) == Lower(u) + "_" + Lower(v)
  {
    assert s[..|u|] == u && s[|u|..] == v;
    SplitsAt(s, |u|, u + "_" + v);
    LowerOfConcat(u + "_", v);
    LowerOfConcat(u, "_");
    assert Lower("_") == "_";
  }

  lemma SplitsAt(s: string, at: nat, r: string)
    requires at < |s| && forall i :: 0 <= i < |s| ==> (StartsWord(s, i) <==> i == at)
    requires r == s[..at] + "_" + s[at..]
    ensures NormalizePrefix(s, |s|) == r
  {
    PrefixSplitsAt(s, at, |s|);
    assert s[at..|s|] == s[at..];
  }

  lemma {:induction false} PrefixSplitsAt(s: string, at: nat, n: nat)
    requires at < |s| && n <= |s| && forall i :: 0 <= i < |s| ==> (StartsWord(s, i) <==> i == at)
    ensures NormalizePrefix(s, n) == if n <= at then s[..n] else s[..at] + "_" + s[at..n]
  {
    if n > 0 {
      PrefixSplitsAt(s, at, n - 1);
    }
  }

  lemma {:induction false} PrefixWithoutUpper(s: string, n: nat)
    requires !HasUpper(s) && n <= |s|
    ensures NormalizePrefix(s, n) == s[..n]
  {
    if n > 0 {
      PrefixWithoutUpper(s, n - 1);
    }
  }

  // ---------------------------------------------------------------- plural folding

  predicate EndsInS(t: string) {
    |t| >= 2 && t[|t|-1] == 's'
  }

  /** A token of some default field. */
  predicate Known(lists: Lists, t: string) {
    exists k :: 0 <= k < |lists.defaults| && t in SplitTokens(lists.defaults[k])
  }

  predicate Folds(lists: Lists, t: string, always: bool) {
    EndsInS(t) && (Known(lists, t[..|t|-1]) || always)
  }

  function FoldToken(lists: Lists, t: string, always: bool): string {
    if Folds(lists, t, always) then t[..|t|-1] else t
  }

  function Fold(lists: Lists, tokens: seq<string>, foldAll: bool): (r: seq<string>)
    ensures |r| == |tokens|
    ensures forall i :: 0 <= i < |tokens| ==> r[i] == FoldToken(lists, tokens[i], foldAll && i == |tokens| - 1)
  {
    seq(|tokens|, i requires 0 <= i < |tokens| => FoldToken(lists, tokens[i], foldAll && i == |tokens| - 1))
  }

  /** `singularizeTokens`. */
  function Singularize(lists: Lists, tokens: seq<string>, foldAll: bool): (seq<string>, string) {
    var folded := Fold(lists, tokens, foldAll);
    if folded == tokens then (tokens, "") else (tokens + folded, Join(folded))
  }

  method SingularizeTokens(lists: Lists, tokens: seq<string>, foldAll: bool)
    returns (all: seq<string>, singular: string)
    ensures (all, singular) == Singularize(lists, tokens, foldAll)
  {
    var folded := new string[|tokens|](i requires 0 <= i < |tokens| => tokens[i]);
    var any := false;
    for i := 0 to |tokens|
      invariant forall k :: 0 <= k < i ==> folded[k] == FoldToken(lists, tokens[k], foldAll && k == |tokens| - 1)
      invariant forall k :: i <= k < |tokens| ==> folded[k] == tokens[k]
      invariant any <==> exists k :: 0 <= k < i && folded[k] != tokens[k]
    {
      var token := tokens[i];
      if |token| < 2 || token[|token|-1] != 's' {
        continue;
      }
      var singularToken := token[..|token|-1];
      if !Known(lists, singularToken) && (!foldAll || i != |tokens| - 1) {
        continue;
      }
      folded[i] := singularToken;
      any := true;
    }
    assert folded[..] == Fold(lists, tokens, foldAll);
    if !any {
      return tokens, "";
    }
    return tokens + folded[..], Join(folded[..]);
  }

  // ---------------------------------------------------------------- the two lists

  predicate DefaultMatches(lists: Lists, candidates: seq<string>, tokens: seq<string>, d: string) {
    if d in lists.short then d in tokens
    else exists k :: 0 <= k < |candidates| && Matches(candidates[k], d)
  }

  predicate DefaultsMatch(lists: Lists, candidates: seq<string>, tokens: seq<string>) {
    exists j :: 0 <= j < |lists.defaults| && DefaultMatches(lists, candidates, tokens, lists.defaults[j])
  }

  method MatchesDefaultFields(lists: Lists, candidates: seq<string>, tokens: seq<string>) returns (found: bool)
    ensures found == DefaultsMatch(lists, candidates, tokens)
  {
    for j := 0 to |lists.defaults|
      invariant forall k :: 0 <= k < j ==> !DefaultMatches(lists, candidates, tokens, lists.defaults[k])
    {
      var sensitive := lists.defaults[j];
      if sensitive in lists.short {
        if sensitive in tokens {
          return true;
        }
        continue;
      }
      for k := 0 to |candidates|
        invariant forall i :: 0 <= i < k ==> !Matches(candidates[i], sensitive)
      {
        var hit := MatchesWordBoundary(candidates[k], sensitive);
        if hit {
          return true;
        }
      }
    }
    return false;
  }

  predicate ExtraMatches(candidates: seq<string>, e: string) {
    exists k :: 0 <= k < |candidates| &&
      (Matches(candidates[k], Lower(e)) || Matches(candidates[k], Join(SplitTokens(Normalize(e)))))
  }

  predicate ExtrasMatch(candidates: seq<string>, extra: seq<string>) {
    exists j :: 0 <= j < |extra| && ExtraMatches(candidates, extra[j])
  }

  method MatchesExtraFields(candidates: seq<string>, extra: seq<string>) returns (found: bool)
    ensures found == ExtrasMatch(candidates, extra)
  {
    hide Matches, Normalize, SplitTokens, Join, Lower;
    for j := 0 to |extra|
      invariant forall i :: 0 <= i < j ==> !ExtraMatches(candidates, extra[i])
    {
      var e := extra[j];
      var eLower := Lower(e);
      var normalized := NormalizeFieldName(e);
      var eCanonical := Join(SplitTokens(normalized));
      for k := 0 to |candidates|
        invariant forall i :: 0 <= i < k ==> !Matches(candidates[i], eLower) && !Matches(candidates[i], eCanonical)
      {
        var hit := MatchesWordBoundary(candidates[k], eLower);
        if !hit && eCanonical != eLower {
          hit := MatchesWordBoundary(candidates[k], eCanonical);
        }
        if hit {
          return true;
        }
      }
    }
    return false;
  }

  // ---------------------------------------------------------------- IsSensitiveField

  function NormalizedName(f: string): string {
    if Lower(f) == f then f else Normalize(f)
  }

  function Candidates(f: string, singular: string): seq<string> {
    [NormalizedName(f)] + (if Lower(f) != NormalizedName(f) then [Lower(f)] else []) +
        (if singular != "" then [singular] else [])
  }

  predicate EqualsExtra(f: string, extra: seq<string>) {
    exists j :: 0 <= j < |extra| && Lower(extra[j]) == Lower(f)
  }

  /** The map shortcuts: the lowered name, the normalized name, or its singular is a default field. */
  predicate ShortcutHit(lists: Lists, f: string, extra: seq<string>) {
    var singular := Singularize(lists, SplitTokens(NormalizedName(f)), |extra| > 0).1;
    || Lower(f) in lists.defaults
    || EqualsExtra(f, extra)
    || (Lower(f) != f && NormalizedName(f) in lists.defaults)
    || (singular != "" && singular in lists.defaults)
  }

  /** The full matching path, without any shortcut. */
  predicate FullMatch(lists: Lists, f: string, extra: seq<string>) {
    var base := SplitTokens(NormalizedName(f));
    var (tokens, singular) := Singularize(lists, base, |extra| > 0);
    var candidates := Candidates(f, singular);
    || ExtrasMatch(candidates, extra)
    || (DefaultsMatch(lists, candidates, tokens) && Join(base) !in lists.clear)
  }

  predicate Sensitive(lists: Lists, f: string, extra: seq<string>) {
    ShortcutHit(lists, f, extra) || FullMatch(lists, f, extra)
  }

  method IsSensitiveField(lists: Lists, fieldName: string, extra: seq<string>) returns (sensitive: bool)
    ensures sensitive == Sensitive(lists, fieldName, extra)
  {
    hide Singularize, Normalize, SplitTokens, DefaultsMatch, ExtrasMatch, Join, Lower;
    var lowerField := Lower(fieldName);
    if lowerField in lists.defaults {
      return true;
    }
    for j := 0 to |extra|
      invariant forall i :: 0 <= i < j ==> Lower(extra[i]) != lowerField
    {
      if Lower(extra[j]) == lowerField {
        return true;
      }
    }
    var normalized := lowerField;
    if lowerField != fieldName {
      normalized := NormalizeFieldName(fieldName);
      if normalized in lists.defaults {
        return true;
      }
    }
    var base := SplitTokens(normalized);
    var tokens, singular := SingularizeTokens(lists, base, |extra| > 0);
    if singular != "" && singular in lists.defaults {
      return true;
    }
    var candidates := [normalized];
    if lowerField != normalized {
      candidates := candidates + [lowerField];
    }
    if singular != "" {
      candidates := candidates + [singular];
    }
    assert candidates == Candidates(fieldName, singular);
    var byExtra := MatchesExtraFields(candidates, extra);
    if byExtra {
      return true;
    }
    var byDefault := MatchesDefaultFields(lists, candidates, tokens);
    return byDefault && Join(base) !in lists.clear;
  }

  // ---------------------------------------------------------------- facts about the lists

  /** A default entry is its tokens joined by underscores, the scan never misses it, and a compound
      entry does not end in a plural. */
  ghost predicate GoodDefault(d: string) {
    var ts := SplitTokens(d);
    && ts != [] && d == Join(ts) && !HasWordBorder(d)
    && (|ts| > 1 ==> !EndsInS(ts[|ts|-1]))
  }

  /** An exempt entry is joined tokens, and neither it nor its singular is a default entry. */
  ghost predicate GoodClear(lists: Lists, c: string) {
    && c !in lists.defaults
    && forall foldAll :: Join(Fold(lists, SplitTokens(c), foldAll)) !in lists.defaults
  }

  ghost predicate GoodLists(lists: Lists) {
    && (forall d :: d in lists.defaults ==> GoodDefault(d))
    && (forall d :: d in lists.short ==> |SplitTokens(d)| == 1)
    && (forall c :: c in lists.clear ==> GoodClear(lists, c))
  }

  // ---------------------------------------------------------------- extra names only add

  lemma FoldedAreTokens(lists: Lists, tokens: seq<string>, foldAll: bool)
    requires AreTokens(tokens)
    ensures AreTokens(Fold(lists, tokens, foldAll))
  {
    forall i | 0 <= i < |tokens| ensures IsToken(Fold(lists, tokens, foldAll)[i]) {
      assert IsToken(tokens[i]);
    }
  }

  /** The two foldings differ at most in the last token, which then is a plural the first one kept. */
  lemma FoldAllChangesOnlyTheNoun(lists: Lists, base: seq<string>)
    requires base != []
    ensures var less, more := Fold(lists, base, false), Fold(lists, base, true);
            && (forall i :: 0 <= i < |base| - 1 ==> less[i] == more[i])
            && (less[|base|-1] != more[|base|-1] ==> less[|base|-1] == base[|base|-1] && EndsInS(base[|base|-1]))
            && (less[|base|-1] == more[|base|-1] ==> less == more)
  {
  }

  lemma SublistNeedsRoom(part: seq<string>, whole: seq<string>, k: nat)
    requires part != [] && SublistAt(part, whole, k)
    ensures whole != []
  {
  }

  lemma SublistSurvives(part: seq<string>, less: seq<string>, more: seq<string>, k: nat)
    requires part != [] && |less| == |more| && SublistAt(part, less, k)
    requires forall i :: 0 <= i < |less| - 1 ==> less[i] == more[i]
    ensures SublistAt(part, more, k) || (k + |part| == |less| && part[|part|-1] == less[|less|-1] != more[|less|-1])
  {
    assert part[|part|-1] == less[k..k + |part|][|part|-1] == less[k + |part| - 1];
    if k + |part| < |less| || less[|less|-1] == more[|less|-1] {
      assert more[k..k + |part|] == less[k..k + |part|];
    }
  }

  /** A default name found in the folded spelling without extra names is found with them too, either
      still in the folded spelling or, when only the noun folds further, in the name itself. */
  lemma FoldAllKeepsDefaults(lists: Lists, name: string, d: string)
    requires GoodDefault(d)
    requires Matches(Join(Fold(lists, SplitTokens(name), false)), d)
    ensures Matches(Join(Fold(lists, SplitTokens(name), true)), d) || Matches(name, d)
  {
    hide Join, Matches, Fold, FoldToken, SplitTokens, SublistAt, EndsInS, HasWordBorder;
    var base, part := SplitTokens(name), SplitTokens(d);
    var less, more := Fold(lists, base, false), Fold(lists, base, true);
    FoldedAreTokens(lists, base, false);
    FoldedAreTokens(lists, base, true);
    JoinedMatchIsSublist(part, less);
    JoinedMatchIsSublist(part, more);
    var k: nat :| k <= |less| && SublistAt(part, less, k);
    assert base != [] by {
      assert SublistAt(part, less, k);
      SublistNeedsRoom(part, less, k);
    }
    FoldAllChangesOnlyTheNoun(lists, base);
    SublistSurvives(part, less, more, k);
    if !SublistAt(part, more, k) {
      NounStandsInName(name, d);
    }
  }

  /** A one-token default that is a name's last token is matched in the name itself. */
  lemma NounStandsInName(name: string, d: string)
    requires GoodDefault(d)
    requires var base, part := SplitTokens(name), SplitTokens(d);
             base != [] && EndsInS(part[|part|-1]) && part[|part|-1] == base[|base|-1]
    ensures Matches(name, d)
  {
    var base, part := SplitTokens(name), SplitTokens(d);
    assert |part| == 1 && d == part[0];
    var at := TokenStandsBounded(name, base[|base|-1]);
    JoinNotEmpty(part);
    MatchesIff(name, d);
  }

  lemma FoldAllKeepsSingular(lists: Lists, base: seq<string>)
    requires GoodLists(lists) && AreTokens(base)
    requires var s := Singularize(lists, base, false).1; s != "" && s in lists.defaults
    ensures Singularize(lists, base, true).1 == Singularize(lists, base, false).1
  {
    var less, more := Fold(lists, base, false), Fold(lists, base, true);
    FoldedAreTokens(lists, base, false);
    SplitOfJoin(less);
    assert GoodDefault(Join(less));
    FoldAllChangesOnlyTheNoun(lists, base);
    assert less != base;
    assert |base| == 1 && less[0] == base[0] ==> less == base;
  }

  lemma FoldAllKeepsTokens(lists: Lists, base: seq<string>, d: string)
    requires d in Singularize(lists, base, false).0
    ensures d in Singularize(lists, base, true).0
  {
    var less, more := Fold(lists, base, false), Fold(lists, base, true);
    if d !in base {
      var i :| 0 <= i < |base| && less[i] == d;
      assert more[i] == d;
      assert more != base by { assert base[i] in base; }
    }
  }

  lemma CandidatesHoldBothSpellings(f: string, singular: string)
    ensures NormalizedName(f) in Candidates(f, singular) && Lower(f) in Candidates(f, singular)
    ensures singular != "" ==> singular in Candidates(f, singular)
  {
    var c := Candidates(f, singular);
    assert c[0] == NormalizedName(f);
    assert Lower(f) != NormalizedName(f) ==> c[1] == Lower(f);
    assert singular != "" ==> c[|c|-1] == singular;
  }

  lemma AnyCandidateMatches(f: string, singular: string, d: string)
    ensures var c := Candidates(f, singular);
            (exists k :: 0 <= k < |c| && Matches(c[k], d)) <==>
            Matches(NormalizedName(f), d) || Matches(Lower(f), d) || (singular != "" && Matches(singular, d))
  {
    hide Matches, Lower, NormalizedName;
    CandidatesHoldBothSpellings(f, singular);
  }

  lemma FoldAllKeepsMatch(lists: Lists, f: string, d: string)
    requires GoodLists(lists) && d in lists.defaults
    requires var (tokens, singular) := Singularize(lists, SplitTokens(NormalizedName(f)), false);
             DefaultMatches(lists, Candidates(f, singular), tokens, d)
    ensures var (tokens, singular) := Singularize(lists, SplitTokens(NormalizedName(f)), true);
            DefaultMatches(lists, Candidates(f, singular), tokens, d)
  {
    var base := SplitTokens(NormalizedName(f));
    if d in lists.short {
      FoldAllKeepsTokens(lists, base, d);
    } else {
      var singular0, singular1 := Singularize(lists, base, false).1, Singularize(lists, base, true).1;
      AnyCandidateMatches(f, singular0, d);
      AnyCandidateMatches(f, singular1, d);
      if singular0 != "" && Matches(singular0, d) {
        FoldAllKeepsDefaults(lists, NormalizedName(f), d);
        FoldAllFolds(lists, base);
      }
    }
  }

  lemma FoldAllFolds(lists: Lists, base: seq<string>)
    ensures Fold(lists, base, false) != base ==> Fold(lists, base, true) != base
    ensures AreTokens(base) && Fold(lists, base, true) != base ==> Join(Fold(lists, base, true)) != ""
  {
    if AreTokens(base) && base != [] {
      FoldedAreTokens(lists, base, true);
      JoinNotEmpty(Fold(lists, base, true));
    }
  }

  /** Passing extra names never turns a sensitive field non-sensitive, although they widen the plural
      folding and so change the spelling the default list is matched against. */
  lemma ExtraNamesNeverHide(lists: Lists, f: string, extra: seq<string>)
    requires GoodLists(lists) && Sensitive(lists, f, [])
    ensures Sensitive(lists, f, extra)
  {
    if extra != [] && !ShortcutHit(lists, f, extra) {
      var base := SplitTokens(NormalizedName(f));
      if ShortcutHit(lists, f, []) {
        FoldAllKeepsSingular(lists, base);
      } else {
        var (tokens, singular) := Singularize(lists, base, false);
        var j :| 0 <= j < |lists.defaults| && DefaultMatches(lists, Candidates(f, singular), tokens, lists.defaults[j]);
        FoldAllKeepsMatch(lists, f, lists.defaults[j]);
      }
    }
  }

  /** More extra names never hide what fewer would have shown. */
  lemma MoreExtraNamesNeverHide(lists: Lists, f: string, fewer: seq<string>, more: seq<string>)
    requires GoodLists(lists) && Sensitive(lists, f, fewer)
    requires forall e :: e in fewer ==> e in more
    ensures Sensitive(lists, f, more)
  {
    if fewer == [] {
      ExtraNamesNeverHide(lists, f, more);
    } else {
      assert fewer[0] in more;
      if EqualsExtra(f, fewer) {
        var j :| 0 <= j < |fewer| && Lower(fewer[j]) == Lower(f);
        assert fewer[j] in more;
        assert EqualsExtra(f, more);
      } else {
        var (tokens, singular) := Singularize(lists, SplitTokens(NormalizedName(f)), true);
        if ExtrasMatch(Candidates(f, singular), fewer) {
          var j :| 0 <= j < |fewer| && ExtraMatches(Candidates(f, singular), fewer[j]);
          assert fewer[j] in more;
          assert ExtrasMatch(Candidates(f, singular), more);
        }
      }
    }
  }

  // ---------------------------------------------------------------- the shortcuts are only shortcuts

  lemma DefaultMatchesItself(lists: Lists, candidates: seq<string>, tokens: seq<string>, d: string)
    requires GoodLists(lists) && d in lists.defaults && d in candidates
    requires d in lists.short ==> d in tokens
    ensures DefaultsMatch(lists, candidates, tokens)
  {
    assert GoodDefault(d);
    JoinNotEmpty(SplitTokens(d));
    MatchesItself(d);
    var j :| 0 <= j < |lists.defaults| && lists.defaults[j] == d;
    assert DefaultMatches(lists, candidates, tokens, lists.defaults[j]);
  }

  lemma ShortNameIsItsToken(lists: Lists, d: string)
    requires GoodLists(lists) && d in lists.defaults && d in lists.short
    ensures SplitTokens(d) == [d]
  {
    assert GoodDefault(d);
    assert Join(SplitTokens(d)) == SplitTokens(d)[0];
  }

  lemma ExtraEqualIsFullMatch(f: string, singular: string, extra: seq<string>)
    requires f != "" && EqualsExtra(f, extra)
    ensures ExtrasMatch(Candidates(f, singular), extra)
  {
    var c := Candidates(f, singular);
    CandidatesHoldBothSpellings(f, singular);
    var k :| 0 <= k < |c| && c[k] == Lower(f);
    var j :| 0 <= j < |extra| && Lower(extra[j]) == Lower(f);
    MatchesItself(Lower(f));
    assert ExtraMatches(c, extra[j]);
  }

  lemma NormalizedDefaultIsFullMatch(lists: Lists, f: string, foldAll: bool)
    requires GoodLists(lists) && NormalizedName(f) in lists.defaults
    ensures var base := SplitTokens(NormalizedName(f));
            var (tokens, singular) := Singularize(lists, base, foldAll);
            DefaultsMatch(lists, Candidates(f, singular), tokens) && Join(base) !in lists.clear
  {
    var name := NormalizedName(f);
    var (tokens, singular) := Singularize(lists, SplitTokens(name), foldAll);
    assert GoodDefault(name);
    if name in lists.short {
      ShortNameIsItsToken(lists, name);
    }
    CandidatesHoldBothSpellings(f, singular);
    DefaultMatchesItself(lists, Candidates(f, singular), tokens, name);
  }

  /** All that the map lookups can add to the full matching path, for every non-empty name and any good
      lists: a lowered name that is a default, and a short one or one whose camelCase pieces spell an
      exempt name. `SensitiveShortcuts` tells exactly what they add on the repository's lists. */
  lemma WhatTheShortcutsCanAdd(lists: Lists, f: string, extra: seq<string>)
    requires GoodLists(lists) && f != ""
    ensures Sensitive(lists, f, extra) <==>
            || FullMatch(lists, f, extra)
            || (Lower(f) in lists.defaults
                && (Lower(f) in lists.short || Join(SplitTokens(NormalizedName(f))) in lists.clear))
  {
    var base := SplitTokens(NormalizedName(f));
    var (tokens, singular) := Singularize(lists, base, |extra| > 0);
    if Lower(f) in lists.defaults {
      if Lower(f) !in lists.short {
        CandidatesHoldBothSpellings(f, singular);
        DefaultMatchesItself(lists, Candidates(f, singular), tokens, Lower(f));
      }
    } else if EqualsExtra(f, extra) {
      ExtraEqualIsFullMatch(f, singular, extra);
    } else if NormalizedName(f) in lists.defaults {
      NormalizedDefaultIsFullMatch(lists, f, |extra| > 0);
    } else if singular != "" && singular in lists.defaults {
      SingularIsFullMatch(lists, f, base, |extra| > 0);
    }
  }

  /** For a non-empty name without uppercase, the answer is the one the full matching path gives: the
      map lookups only make it faster. */
  lemma ShortcutsChangeNothing(lists: Lists, f: string, extra: seq<string>)
    requires GoodLists(lists) && f != "" && !HasUpper(f)
    ensures Sensitive(lists, f, extra) <==> FullMatch(lists, f, extra)
  {
    NormalizeWithoutUpper(f);
    WhatTheShortcutsCanAdd(lists, f, extra);
    if f in lists.defaults {
      NormalizedDefaultIsFullMatch(lists, f, |extra| > 0);
    }
  }

  lemma SingularIsFullMatch(lists: Lists, f: string, base: seq<string>, foldAll: bool)
    requires GoodLists(lists) && AreTokens(base)
    requires var s := Singularize(lists, base, foldAll).1; s != "" && s in lists.defaults
    ensures var (tokens, singular) := Singularize(lists, base, foldAll);
            DefaultsMatch(lists, Candidates(f, singular), tokens) && Join(base) !in lists.clear
  {
    var (tokens, singular) := Singularize(lists, base, foldAll);
    var folded := Fold(lists, base, foldAll);
    FoldedAreTokens(lists, base, foldAll);
    SplitOfJoin(folded);
    if singular in lists.short {
      ShortNameIsItsToken(lists, singular);
    }
    CandidatesHoldBothSpellings(f, singular);
    DefaultMatchesItself(lists, Candidates(f, singular), tokens, singular);
    SplitOfJoin(base);
    assert Join(base) in lists.clear ==> Join(Fold(lists, base, foldAll)) !in lists.defaults;
  }

  /** The empty name is sensitive only through an empty extra name, which the full path never matches. */
  lemma EmptyName(lists: Lists, extra: seq<string>)
    requires GoodLists(lists)
    ensures Sensitive(lists, "", extra) <==> "" in extra
    ensures !FullMatch(lists, "", extra)
  {
    assert Lower("") == "" && SplitTokens("") == [];
    assert "" !in lists.defaults;
    assert Candidates("", "") == [""];
    forall p: string ensures !Matches("", p) {
    }
    assert Singularize(lists, [], |extra| > 0) == ([], "");
    forall j | 0 <= j < |lists.defaults| ensures !DefaultMatches(lists, [""], [], lists.defaults[j]) {
    }
    if "" in extra {
      var j :| 0 <= j < |extra| && extra[j] == "";
      assert Lower(extra[j]) == "";
    }
    if EqualsExtra("", extra) {
      var j :| 0 <= j < |extra| && Lower(extra[j]) == Lower("");
      assert extra[j] == "";
    }
  }
}
