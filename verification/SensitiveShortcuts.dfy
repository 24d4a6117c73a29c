/** What the map lookups of `IsSensitiveField` add to its full matching path, exactly, on the
    repository's own lists. */
module SensitiveShortcuts {
  import opened WordMatch
  import opened Tokens
  import opened SensitiveNames
  import opened SensitiveDefaults

  // ---------------------------------------------------------------- a name without its separators

  function Letters(s: string): (r: string)
    ensures |r| <= |s|
    ensures s != "" && IsAlphanumeric(s[0]) ==> r != "" && r[0] == s[0]
  {
    if s == "" then "" else (if IsAlphanumeric(s[0]) then [s[0]] else "") + Letters(s[1..])
  }

  lemma {:induction false} LettersOfConcat(a: string, b: string)
    ensures Letters(a + b) == Letters(a) + Letters(b)
  {
    if a == "" {
      assert a + b == b;
    } else {
      assert (a + b)[1..] == a[1..] + b;
      LettersOfConcat(a[1..], b);
    }
  }

  lemma {:induction false} LettersOfToken(t: string)
    requires forall i :: 0 <= i < |t| ==> IsAlphanumeric(t[i])
    ensures Letters(t) == t
  {
    if t != "" {
      LettersOfToken(t[1..]);
    }
  }

  lemma {:induction false} LettersOfPrefix(f: string, n: nat)
    requires n <= |f|
    ensures Letters(Lower(NormalizePrefix(f, n))) == Letters(Lower(f[..n]))
  {
    if n > 0 {
      LettersOfPrefix(f, n - 1);
      var front, bar, last := NormalizePrefix(f, n - 1), if StartsWord(f, n - 1) then "_" else "", [f[n-1]];
      assert NormalizePrefix(f, n) == front + bar + last;
      assert f[..n] == f[..n-1] + last;
      BarHasNoLetters(bar);
      hide *;
      LettersOfLowered(front + bar, last);
      LettersOfLowered(front, bar);
      LettersOfLowered(f[..n-1], last);
    }
  }

  lemma BarHasNoLetters(bar: string)
    requires bar == "_" || bar == ""
    ensures Letters(Lower(bar)) == ""
  {
    assert Lower("_") == "_";
  }

  lemma LettersOfLowered(a: string, b: string)
    ensures Letters(Lower(a + b)) == Letters(Lower(a)) + Letters(Lower(b))
  {
    hide *;
    LowerOfConcat(a, b);
    LettersOfConcat(Lower(a), Lower(b));
  }

  /** Splitting a name at its capitals changes neither its letters nor its ends. */
  lemma NormalizeKeepsLetters(f: string)
    ensures Letters(NormalizedName(f)) == Letters(Lower(f))
    ensures f != "" ==> var n := NormalizedName(f);
            n != "" && n[0] == Lower(f)[0] && n[|n|-1] == Lower(f)[|f|-1]
  {
    hide Letters, NormalizePrefix;
    if Lower(f) != f {
      LettersOfPrefix(f, |f|);
      assert f[..|f|] == f;
      if f != "" {
        PrefixStarts(f, |f|);
      }
    }
  }

  lemma {:induction false} PrefixStarts(f: string, n: nat)
    requires 0 < n <= |f|
    ensures var p := NormalizePrefix(f, n); p != "" && p[0] == f[0] && p[|p|-1] == f[n-1]
  {
    if n > 1 {
      PrefixStarts(f, n - 1);
    }
  }

  lemma {:induction false} LettersOfJoinedTokens(s: string)
    ensures Letters(Join(SplitTokens(s))) == Letters(s)
    decreases |s|
  {
    var n := RunLength(s);
    if s == "" {
    } else if n == 0 {
      LettersOfJoinedTokens(s[1..]);
    } else {
      var t, rest := s[..n], SplitTokens(s[n..]);
      LettersOfJoinedTokens(s[n..]);
      assert s == t + s[n..];
      LettersOfConcat(t, s[n..]);
      JoinCons(t, rest);
    }
  }

  lemma JoinCons(t: string, rest: seq<string>)
    ensures Letters(Join([t] + rest)) == Letters(t) + Letters(Join(rest))
  {
    assert ([t] + rest)[1..] == rest;
    if rest != [] {
      LettersOfConcat(t + "_", Join(rest));
      LettersOfConcat(t, "_");
      assert Letters("_") == "";
    }
  }

  // ---------------------------------------------------------------- what the lists must look like

  /** Three letters, or one of the two short names of four. */
  predicate ShortShape(d: string) {
    IsToken(d) && (|d| == 3 || d == "auth" || d == "city")
  }

  /** Longer than any default name with the same first letter, separators apart. */
  predicate ExemptShape(c: string) {
    var l := Letters(c);
    l != "" && (((l[0] == 'i' || l[0] == 't') && |l| >= 9) || (l[0] == 'n' && |l| >= 19))
  }

  ghost predicate Separable(lists: Lists) {
    && GoodLists(lists) && AllGood(lists.defaults)
    && (forall d :: d in lists.short ==> d in lists.defaults && ShortShape(d))
    && (forall c :: c in lists.clear ==> ExemptShape(c))
  }

  // ---------------------------------------------------------------- pieces of a short name

  /** A proper piece of a name. */
  ghost predicate PieceOf(t: string, d: string) {
    |t| < |d| && exists i :: PieceAt(t, d, i)
  }

  predicate PieceAt(t: string, d: string, i: int) {
    0 <= i <= |d| - |t| && d[i..i + |t|] == t
  }

  lemma MiddlePiece(x: string, t: string, y: string)
    requires x != "" || y != ""
    ensures PieceOf(t, x + (t + y))
  {
    var d := x + (t + y);
    assert d[|x|..|x| + |t|] == t;
    assert PieceAt(t, d, |x|);
  }

  lemma EndsInLetter(b: string)
    requires b != "" && IsAlphanumeric(b[|b|-1])
    ensures Letters(b) != ""
  {
    hide Letters;
    var last := [b[|b|-1]];
    assert b == b[..|b|-1] + last;
    LettersOfConcat(b[..|b|-1], last);
    LettersOfToken(last);
  }

  lemma CutAround(n: string, t: string, at: nat) returns (a: string, b: string)
    requires BoundedAt(n, t, at)
    ensures n == a + (t + b) && (a != "" ==> a[0] == n[0]) && (b != "" ==> b[|b|-1] == n[|n|-1])
  {
    a, b := n[..at], n[at + |t|..];
    assert n[at..at + |t|] == t;
  }

  /** A word standing in a name that was split is a proper piece of the unsplit name. */
  lemma WordIsPiece(n: string, d: string, t: string, at: nat)
    requires BoundedAt(n, t, at) && IsToken(t) && n != d && Letters(n) == d
    requires n != "" && IsAlphanumeric(n[0]) && IsAlphanumeric(n[|n|-1])
    ensures PieceOf(t, d)
  {
    hide *;
    var a, b := CutAround(n, t, at);
    LettersOfConcat(a, t + b);
    LettersOfConcat(t, b);
    WordLetters(t);
    if b != "" {
      EndsInLetter(b);
    }
    assert a == "" && b == "" ==> a + (t + b) == t;
    MiddlePiece(Letters(a), t, Letters(b));
  }

  lemma WordLetters(t: string)
    requires IsToken(t)
    ensures Letters(t) == t
  {
    LettersOfToken(t);
  }

  /** The word a default name starts with. */
  function FirstWord(e: string): string {
    e[..RunLength(e)]
  }

  lemma FirstWordIsNoPiece(e: string, d: string)
    requires GoodEntry(e) && ShortShape(d)
    ensures IsToken(FirstWord(e)) && |FirstWord(e)| >= 3 && !PieceOf(FirstWord(e), d)
  {
    hide RunLength, PieceAt;
    assert PlainAt(e, 0) && PlainAt(e, 1) && PlainAt(e, 2) && (|e| > 3 ==> PlainAt(e, 3));
    forall i | |FirstWord(e)| < |d| ensures !PieceAt(FirstWord(e), d, i) {
      FirstWordIsNotAt(e, d, i);
    }
  }

  lemma FirstWordIsNotAt(e: string, d: string, i: int)
    requires GoodEntry(e) && ShortShape(d) && |FirstWord(e)| < |d|
    ensures !PieceAt(FirstWord(e), d, i)
  {
    hide RunLength;
    var t := FirstWord(e);
    assert PlainAt(e, 0) && PlainAt(e, 1) && PlainAt(e, 2) && (|e| > 3 ==> PlainAt(e, 3));
    assert |t| == 3 && |d| == 4 && t[0] == e[0] && t[1] == e[1];
    assert 0 <= i <= 1 ==> d[i..i + 3][0] == d[i] && d[i..i + 3][1] == d[i+1];
  }

  /** Where a default name matches, its first word stands between word boundaries. */
  lemma FirstWordStands(cand: string, e: string) returns (at: nat)
    requires GoodDefault(e) && Matches(cand, e)
    ensures BoundedAt(cand, e, at) && BoundedAt(cand, FirstWord(e), at)
  {
    hide Matches, RunLength, SplitTokens, Join;
    MatchesIff(cand, e);
    at :| BoundedAt(cand, e, at);
    var n := RunLength(e);
    assert cand[at..at + |e|] == e;
    assert cand[at..at + n] == e[..n];
    assert n < |e| ==> cand[at + n] == e[n];
  }

  lemma ShortLetters(f: string)
    requires ShortShape(Lower(f))
    ensures f != "" && Letters(Lower(f)) == Lower(f) && Letters(NormalizedName(f)) == Lower(f)
    ensures var n := NormalizedName(f); n != "" && IsAlphanumeric(n[0]) && IsAlphanumeric(n[|n|-1])
  {
    hide Lower, NormalizedName, Letters;
    LettersOfToken(Lower(f));
    NormalizeKeepsLetters(f);
  }

  /** No default name starts with a word of the split name, folded or not. */
  lemma NoTokenIsFirstWord(lists: Lists, f: string, foldAll: bool, e: string)
    requires GoodEntry(e) && ShortShape(Lower(f)) && NormalizedName(f) != Lower(f)
    ensures FirstWord(e) !in SplitTokens(NormalizedName(f))
    ensures FirstWord(e) !in Fold(lists, SplitTokens(NormalizedName(f)), foldAll)
  {
    hide GoodEntry, SplitTokens, NormalizedName, Lower, FirstWord, BoundedAt, Letters, Known;
    var n, d, t := NormalizedName(f), Lower(f), FirstWord(e);
    var base := SplitTokens(n);
    ShortLetters(f);
    FirstWordIsNoPiece(e, d);
    forall u | u in base ensures PieceOf(u, d) && |u| <= 3 {
      var at := TokenStandsBounded(n, u);
      MemberIsToken(n, u);
      WordIsPiece(n, d, u, at);
    }
  }

  lemma NoCandidateMatches(lists: Lists, f: string, foldAll: bool, e: string)
    requires GoodEntry(e) && GoodDefault(e) && e != Lower(f) && ShortShape(Lower(f)) && NormalizedName(f) != Lower(f)
    ensures !Matches(NormalizedName(f), e) && !Matches(Lower(f), e)
    ensures !Matches(Join(Fold(lists, SplitTokens(NormalizedName(f)), foldAll)), e)
  {
    hide GoodEntry, GoodDefault, Matches, SplitTokens, NormalizedName, Lower, FirstWord, Letters, Fold;
    var n, d, t := NormalizedName(f), Lower(f), FirstWord(e);
    ShortLetters(f);
    FirstWordIsNoPiece(e, d);
    if Matches(n, e) {
      var at := FirstWordStands(n, e);
      WordIsPiece(n, d, t, at);
    }
    if Matches(d, e) {
      var at := FirstWordStands(d, e);
      WholeWord(d, t, at);
      WholeWord(d, e, at);
    }
    var folded := Fold(lists, SplitTokens(n), foldAll);
    if Matches(Join(folded), e) {
      var at := FirstWordStands(Join(folded), e);
      FoldedAreTokens(lists, SplitTokens(n), foldAll);
      assert Join([t]) == t;
      var k := BoundedIsSublist([t], folded, at);
      assert folded[k..k + 1] == [t];
      assert folded[k] == t;
      NoTokenIsFirstWord(lists, f, foldAll, e);
    }
  }

  /** Only the whole of a word stands between word boundaries in it. */
  lemma WholeWord(d: string, p: string, at: nat)
    requires IsToken(d) && BoundedAt(d, p, at) && p != ""
    ensures p == d
  {
    assert at == 0 && at + |p| == |d|;
    assert d[0..|d|] == d;
  }

  /** No default name matches the pieces of a short one, nor their singulars. */
  lemma PiecesMatchNothing(lists: Lists, f: string, foldAll: bool)
    requires Separable(lists) && Lower(f) in lists.short && NormalizedName(f) != Lower(f)
    ensures var (tokens, singular) := Singularize(lists, SplitTokens(NormalizedName(f)), foldAll);
            !DefaultsMatch(lists, Candidates(f, singular), tokens)
  {
    hide GoodEntry, GoodDefault, Matches, SplitTokens, NormalizedName, Lower, FirstWord, Fold, Candidates, Join;
    var base := SplitTokens(NormalizedName(f));
    var (tokens, singular) := Singularize(lists, base, foldAll);
    forall j | 0 <= j < |lists.defaults|
      ensures !DefaultMatches(lists, Candidates(f, singular), tokens, lists.defaults[j])
    {
      var e := lists.defaults[j];
      assert GoodDefault(e) && GoodEntry(e);
      if e in lists.short {
        ShortFirstWord(e);
        NoTokenIsFirstWord(lists, f, foldAll, e);
      } else {
        NoCandidateMatches(lists, f, foldAll, e);
        AnyCandidateMatches(f, singular, e);
      }
    }
  }

  lemma ShortFirstWord(e: string)
    requires ShortShape(e)
    ensures FirstWord(e) == e
  {
    RunLengthOfPrefix(e, "");
    assert e + "" == e;
  }

  // ---------------------------------------------------------------- the exact difference

  /** No default name spells an exempt one once its capitals are split. */
  lemma NeverExempt(lists: Lists, f: string)
    requires Separable(lists) && Lower(f) in lists.defaults
    ensures Join(SplitTokens(NormalizedName(f))) !in lists.clear
  {
    hide Lower, NormalizedName, Letters, SplitTokens, Join, DistinctStarts, NoCompoundPlural, LongStart, GoodLists;
    var d := Lower(f);
    assert GoodEntry(d) && PlainAt(d, 0);
    NormalizeKeepsLetters(f);
    LettersOfJoinedTokens(NormalizedName(f));
    assert Letters(d)[0] == d[0] && |Letters(d)| <= |d|;
  }

  /** For every non-empty name and any extra names: the lookups add exactly the capitalized spellings
      that fall apart into pieces of a short default name, unless an extra name matches them anyway. */
  lemma WhatTheShortcutsAdd(lists: Lists, f: string, extra: seq<string>)
    requires Separable(lists) && f != ""
    ensures var singular := Singularize(lists, SplitTokens(NormalizedName(f)), |extra| > 0).1;
            Sensitive(lists, f, extra) && !FullMatch(lists, f, extra) <==>
            Lower(f) in lists.short && NormalizedName(f) != Lower(f) && !ExtrasMatch(Candidates(f, singular), extra)
  {
    hide Singularize, SplitTokens, NormalizedName, Lower, DefaultsMatch, ExtrasMatch, Candidates, Join, GoodLists,
        AllGood;
    WhatTheShortcutsCanAdd(lists, f, extra);
    if Lower(f) in lists.defaults {
      NeverExempt(lists, f);
    }
    if Lower(f) in lists.short {
      if NormalizedName(f) == Lower(f) {
        NormalizedDefaultIsFullMatch(lists, f, |extra| > 0);
      } else {
        PiecesMatchNothing(lists, f, |extra| > 0);
      }
    }
  }

  // ---------------------------------------------------------------- on the repository's lists

  lemma ShortNamesAreDefaults()
    ensures forall d :: d in SHORT ==> d in DEFAULTS
  {
    assert "key" == DEFAULTS_1[4] && "auth" == DEFAULTS_2[1] && "jwt" == DEFAULTS_6[0];
    assert "cvv" == DEFAULTS_9[3] && "cvc" == DEFAULTS_9[4];
    assert "ssn" == DEFAULTS_10[0] && "pin" == DEFAULTS_10[2] && "otp" == DEFAULTS_10[3];
    assert "bic" == DEFAULTS_13[2] && "pan" == DEFAULTS_13[3] && "dob" == DEFAULTS_15[2] && "bsb" == DEFAULTS_16[2];
    assert "city" == DEFAULTS_22[1] && "zip" == DEFAULTS_22[2];
  }

  lemma ExemptLetters(c: string, a: string, bar: string, b: string)
    requires c == a + (bar + b) && a != "" && IsAlphanumeric(a[0])
    ensures Letters(c) != "" && Letters(c)[0] == a[0] && |Letters(c)| == |Letters(a)| + |Letters(bar)| + |Letters(b)|
  {
    hide Letters;
    LettersOfConcat(a, bar + b);
    LettersOfConcat(bar, b);
  }

  lemma ExemptShapes()
    ensures forall c :: c in CLEAR ==> ExemptShape(c)
  {
    LongExemptShapes();
    WordLengths();
    hide Letters;
    ExemptLetters("idempotency_key", "idempotency", "_", "key");
    ExemptLetters("ip_address", "ip", "_", "address");
    ExemptLetters("tipo_conta", "tipo", "_", "conta");
  }

  lemma LongExemptShapes()
    ensures ExemptShape("idempotency_key_digest") && ExemptShape("tipo_chave_pix")
            && ExemptShape("nome_fantasia_ausente")
  {
    WordLengths();
    hide Letters;
    ExemptLetters("idempotency_key_digest", "idempotency", "_key_", "digest");
    ExemptLetters("chave_pix", "chave", "_", "pix");
    ExemptLetters("tipo_chave_pix", "tipo", "_", "chave_pix");
    ExemptLetters("fantasia_ausente", "fantasia", "_", "ausente");
    ExemptLetters("nome_fantasia_ausente", "nome", "_", "fantasia_ausente");
  }

  lemma WordLengths()
    ensures |Letters("idempotency")| == 11 && |Letters("ip")| == 2 && |Letters("address")| == 7
    ensures |Letters("tipo")| == 4 && |Letters("conta")| == 5 && |Letters("chave")| == 5 && |Letters("pix")| == 3
    ensures |Letters("nome")| == 4 && |Letters("fantasia")| == 8 && |Letters("ausente")| == 7
  {
    hide Letters;
    LettersOfToken("idempotency");
    LettersOfToken("ip");
    LettersOfToken("address");
    LettersOfToken("tipo");
    LettersOfToken("conta");
    LettersOfToken("chave");
    LettersOfToken("pix");
    LettersOfToken("nome");
    LettersOfToken("fantasia");
    LettersOfToken("ausente");
  }

  /** The repository's lists meet every requirement of the theorem. */
  lemma ListsAreSeparable()
    ensures Separable(LISTS)
  {
    ListsAreGood();
    DefaultsAreGood();
    ShortNamesAreDefaults();
    ShortShapes();
    ExemptShapes();
    hide GoodLists, AllGood, ShortShape, ExemptShape;
  }

  lemma ShortShapes()
    ensures forall d :: d in SHORT ==> ShortShape(d)
  {
    forall d | d in SHORT ensures ShortShape(d) {
      assert IsToken(d);
    }
  }

  /** For every name at all, without extra names. */
  lemma WhatTheShortcutsAddToTheDefaults(f: string)
    ensures Sensitive(LISTS, f, []) && !FullMatch(LISTS, f, []) <==> Lower(f) in SHORT && NormalizedName(f) != Lower(f)
  {
    hide Sensitive, FullMatch, Separable, Lower, NormalizedName;
    ListsAreSeparable();
    if f == "" {
      EmptyIsNoDefault();
    } else {
      WhatTheShortcutsAdd(LISTS, f, []);
    }
  }

  lemma EmptyIsNoDefault()
    ensures !Sensitive(LISTS, "", []) && Lower("") !in SHORT
  {
    ListsAreGood();
    EmptyName(LISTS, []);
    hide Sensitive, FullMatch;
    assert Lower("") == "";
  }

  /** "pAn" is the short default "pan" to the lookup and the two tokens "p" and "an" to the full path;
      "PAN" stays one token, and both find it. */
  lemma UppercaseShortName()
    ensures Sensitive(LISTS, "pAn", []) && !FullMatch(LISTS, "pAn", [])
    ensures Sensitive(LISTS, "PAN", []) && FullMatch(LISTS, "PAN", [])
  {
    Spellings();
    hide *;
    WhatTheShortcutsAddToTheDefaults("pAn");
    WhatTheShortcutsAddToTheDefaults("PAN");
    ShortNameIsSensitive("PAN");
  }

  lemma Spellings()
    ensures Lower("pAn") == "pan" && Lower("PAN") == "pan" && "pan" in SHORT
    ensures NormalizedName("pAn") == "p_an" && NormalizedName("PAN") == "pan"
  {
    assert SHORT[7] == "pan";
    assert NormalizePrefix("pAn", 1) == "p" && NormalizePrefix("pAn", 2) == "p_A"
           && NormalizePrefix("pAn", 3) == "p_An";
    assert Lower("p_An") == "p_an";
    assert NormalizePrefix("PAN", 1) == "P" && NormalizePrefix("PAN", 2) == "PA" && NormalizePrefix("PAN", 3) == "PAN";
  }

  lemma ShortNameIsSensitive(f: string)
    requires Lower(f) in SHORT
    ensures Sensitive(LISTS, f, [])
  {
    hide GoodLists, AllGood, Lower, FullMatch, NormalizedName, Singularize, SplitTokens;
    ListsAreSeparable();
    assert Lower(f) in LISTS.defaults;
  }
}
