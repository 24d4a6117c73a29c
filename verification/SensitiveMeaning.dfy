/** What `IsSensitiveField` answers, told by its inputs alone: no candidate list, no lookup, no loop. */
module SensitiveMeaning {
  import opened WordMatch
  import opened Tokens
  import opened SensitiveNames
  import opened SensitiveDefaults

  /** A token of at least two characters ends in "s", and without it is a token of a default name. */
  ghost predicate IsKnownPlural(lists: Lists, t: string) {
    |t| >= 2 && t[|t|-1] == 's' && exists d :: d in lists.defaults && t[..|t|-1] in SplitTokens(d)
  }

  /** What one token becomes: a known plural loses its "s", and so does a plural noun if the caller has
      extra names. */
  ghost predicate TokenFoldsTo(lists: Lists, t: string, noun: bool, r: string) {
    r == if IsKnownPlural(lists, t) || (noun && |t| >= 2 && t[|t|-1] == 's') then t[..|t|-1] else t
  }

  ghost predicate IsFolding(lists: Lists, tokens: seq<string>, foldNoun: bool, folded: seq<string>) {
    |folded| == |tokens| &&
    forall i :: 0 <= i < |tokens| ==> TokenFoldsTo(lists, tokens[i], foldNoun && i == |tokens| - 1, folded[i])
  }

  /** The pattern occurs in the field between word boundaries. */
  ghost predicate StandsIn(field: string, pattern: string) {
    exists at: nat :: BoundedAt(field, pattern, at)
  }

  lemma KnownIff(lists: Lists, t: string)
    ensures Known(lists, t) <==> exists d :: d in lists.defaults && t in SplitTokens(d)
  {
    hide SplitTokens;
    if d :| d in lists.defaults && t in SplitTokens(d) {
      var k :| 0 <= k < |lists.defaults| && lists.defaults[k] == d;
    }
  }

  lemma FoldingIsFold(lists: Lists, tokens: seq<string>, foldNoun: bool, folded: seq<string>)
    requires IsFolding(lists, tokens, foldNoun, folded)
    ensures folded == Fold(lists, tokens, foldNoun)
  {
    hide SplitTokens, Known;
    forall i | 0 <= i < |tokens| ensures folded[i] == Fold(lists, tokens, foldNoun)[i] {
      var t := tokens[i];
      if |t| >= 2 {
        KnownIff(lists, t[..|t|-1]);
      }
    }
  }

  lemma NormalizedIsNormalize(f: string)
    ensures NormalizedName(f) == Normalize(f)
  {
    if Lower(f) == f {
      forall i | 0 <= i < |f| ensures !IsUpper(f[i]) {
        assert Lower(f)[i] == f[i];
      }
      NormalizeWithoutUpper(f);
    }
  }

  lemma FoldedIsNotEmpty(lists: Lists, tokens: seq<string>, foldNoun: bool)
    requires AreTokens(tokens) && Fold(lists, tokens, foldNoun) != tokens
    ensures Join(Fold(lists, tokens, foldNoun)) != ""
  {
    FoldedAreTokens(lists, tokens, foldNoun);
    JoinNotEmpty(Fold(lists, tokens, foldNoun));
  }

  lemma GoodMatch(d: string)
    requires GoodDefault(d)
    ensures forall field :: Matches(field, d) <==> StandsIn(field, d)
  {
    JoinNotEmpty(SplitTokens(d));
    forall field ensures Matches(field, d) <==> StandsIn(field, d) {
      MatchesIff(field, d);
    }
  }

  /** One default name: a short one is one of the tokens, and any other stands in one of the three spellings. */
  ghost predicate DefaultIsIn(lists: Lists, d: string, f: string, folded: seq<string>) {
    var tokens := SplitTokens(Normalize(f));
    if d in lists.short then d in tokens || d in folded
    else StandsIn(Normalize(f), d) || StandsIn(Lower(f), d) || (folded != tokens && StandsIn(Join(folded), d))
  }

  /** One extra name, lowered or canonical, in one of the three spellings. */
  ghost predicate ExtraIsIn(e: string, f: string, folded: seq<string>) {
    var canonical := Join(SplitTokens(Normalize(e)));
    || Matches(Normalize(f), Lower(e)) || Matches(Normalize(f), canonical)
    || Matches(Lower(f), Lower(e)) || Matches(Lower(f), canonical)
    || (folded != SplitTokens(Normalize(f)) && (Matches(Join(folded), Lower(e)) || Matches(Join(folded), canonical)))
  }

  lemma DefaultsMatchIff(lists: Lists, f: string, foldNoun: bool)
    requires GoodLists(lists)
    ensures var base := SplitTokens(Normalize(f));
            var (tokens, singular) := Singularize(lists, base, foldNoun);
            DefaultsMatch(lists, Candidates(f, singular), tokens) <==>
            exists d :: d in lists.defaults && DefaultIsIn(lists, d, f, Fold(lists, base, foldNoun))
  {
    hide Matches, StandsIn, SplitTokens, Normalize, NormalizedName, Lower, Fold, Join, GoodDefault, Candidates;
    NormalizedIsNormalize(f);
    var base := SplitTokens(Normalize(f));
    var folded := Fold(lists, base, foldNoun);
    var (tokens, singular) := Singularize(lists, base, foldNoun);
    if folded != base {
      FoldedIsNotEmpty(lists, base, foldNoun);
    }
    forall d | d in lists.defaults
      ensures DefaultMatches(lists, Candidates(f, singular), tokens, d) <==> DefaultIsIn(lists, d, f, folded)
    {
      GoodMatch(d);
      AnyCandidateMatches(f, singular, d);
    }
    if d :| d in lists.defaults && DefaultIsIn(lists, d, f, folded) {
      var j :| 0 <= j < |lists.defaults| && lists.defaults[j] == d;
      assert DefaultMatches(lists, Candidates(f, singular), tokens, lists.defaults[j]);
    }
  }

  lemma ExtrasMatchIff(lists: Lists, f: string, extra: seq<string>)
    ensures var base := SplitTokens(Normalize(f));
            var singular := Singularize(lists, base, |extra| > 0).1;
            ExtrasMatch(Candidates(f, singular), extra) <==>
            exists e :: e in extra && ExtraIsIn(e, f, Fold(lists, base, |extra| > 0))
  {
    hide Matches, SplitTokens, Normalize, NormalizedName, Lower, Fold, Join, Candidates;
    NormalizedIsNormalize(f);
    var base := SplitTokens(Normalize(f));
    var folded := Fold(lists, base, |extra| > 0);
    var singular := Singularize(lists, base, |extra| > 0).1;
    if folded != base {
      FoldedIsNotEmpty(lists, base, |extra| > 0);
    }
    forall e ensures ExtraMatches(Candidates(f, singular), e) <==> ExtraIsIn(e, f, folded) {
      ExtraMatchesIff(f, singular, e);
    }
    if e :| e in extra && ExtraIsIn(e, f, folded) {
      var j :| 0 <= j < |extra| && extra[j] == e;
      assert ExtraMatches(Candidates(f, singular), extra[j]);
    }
  }

  lemma ExtraMatchesIff(f: string, singular: string, e: string)
    ensures var c, low, canonical := Candidates(f, singular), Lower(e), Join(SplitTokens(Normalize(e)));
            ExtraMatches(c, e) <==>
            || Matches(NormalizedName(f), low) || Matches(NormalizedName(f), canonical)
            || Matches(Lower(f), low) || Matches(Lower(f), canonical)
            || (singular != "" && (Matches(singular, low) || Matches(singular, canonical)))
  {
    hide Matches, SplitTokens, Normalize, NormalizedName, Lower, Join, Candidates;
    AnyCandidateMatches(f, singular, Lower(e));
    AnyCandidateMatches(f, singular, Join(SplitTokens(Normalize(e))));
  }

  /** For every name, any extra names and any good lists: the name is sensitive exactly if it, its split
      spelling or its singular is a default name, it is an extra name but for case, an extra name is in
      it, or it is not exempt and a default name is in it. */
  lemma SensitiveIff(lists: Lists, f: string, extra: seq<string>, folded: seq<string>)
    requires GoodLists(lists) && IsFolding(lists, SplitTokens(Normalize(f)), extra != [], folded)
    ensures var tokens := SplitTokens(Normalize(f));
            Sensitive(lists, f, extra) <==>
            || Lower(f) in lists.defaults || Normalize(f) in lists.defaults
            || (folded != tokens && Join(folded) in lists.defaults)
            || (exists e :: e in extra && Lower(e) == Lower(f))
            || (exists e :: e in extra && ExtraIsIn(e, f, folded))
            || (Join(tokens) !in lists.clear && exists d :: d in lists.defaults && DefaultIsIn(lists, d, f, folded))
  {
    hide SplitTokens, Normalize, NormalizedName, Lower, Fold, Join, GoodLists, Candidates, DefaultsMatch, ExtrasMatch,
        ExtraIsIn, DefaultIsIn;
    var tokens := SplitTokens(Normalize(f));
    NormalizedIsNormalize(f);
    FoldingIsFold(lists, tokens, extra != [], folded);
    DefaultsMatchIff(lists, f, extra != []);
    ExtrasMatchIff(lists, f, extra);
    if folded != tokens {
      FoldedIsNotEmpty(lists, tokens, extra != []);
    }
    LoweredIsNormalized(f);
    EqualsExtraIff(f, extra);
  }

  lemma LoweredIsNormalized(f: string)
    ensures Lower(f) == f ==> NormalizedName(f) == Lower(f)
  {
  }

  lemma EqualsExtraIff(f: string, extra: seq<string>)
    ensures EqualsExtra(f, extra) <==> exists e :: e in extra && Lower(e) == Lower(f)
  {
    hide Lower;
    if e :| e in extra && Lower(e) == Lower(f) {
      var j :| 0 <= j < |extra| && extra[j] == e;
    }
  }

  // ---------------------------------------------------------------- names spelled by their tokens

  /** A default name among some tokens: a short one is one of them, any other is a run of them. */
  ghost predicate IsAmong(lists: Lists, d: string, tokens: seq<string>) {
    if d in lists.short then d in tokens else IsSublist(SplitTokens(d), tokens)
  }

  lemma DefaultIsAmong(lists: Lists, d: string, tokens: seq<string>, folded: seq<string>)
    requires GoodDefault(d) && AreTokens(tokens) && AreTokens(folded) && !HasUpper(Join(tokens))
    ensures DefaultIsIn(lists, d, Join(tokens), folded) <==> IsAmong(lists, d, tokens) || IsAmong(lists, d, folded)
  {
    hide IsSublist, SplitTokens, Join, Matches, Normalize, Lower;
    var f, part := Join(tokens), SplitTokens(d);
    SplitOfJoin(tokens);
    NormalizeWithoutUpper(f);
    GoodMatch(d);
    JoinedMatchIsSublist(part, tokens);
    JoinedMatchIsSublist(part, folded);
  }

  /** A lowercase name of underscore-joined tokens is sensitive exactly if it is not exempt and a default
      name is among its tokens or their singulars. The lookups add nothing. */
  lemma SensitiveTokensIff(lists: Lists, tokens: seq<string>, folded: seq<string>)
    requires GoodLists(lists) && AreTokens(tokens) && !HasUpper(Join(tokens))
    requires IsFolding(lists, tokens, false, folded)
    ensures Sensitive(lists, Join(tokens), []) <==>
            && Join(tokens) !in lists.clear
            && exists d :: d in lists.defaults && (IsAmong(lists, d, tokens) || IsAmong(lists, d, folded))
  {
    hide Normalize, NormalizedName, Lower, Fold, Join, SplitTokens, DefaultIsIn, IsAmong, GoodDefault, Candidates,
        DefaultsMatch;
    var f := Join(tokens);
    SplitOfJoin(tokens);
    NormalizeWithoutUpper(f);
    FoldingIsFold(lists, tokens, false, folded);
    FoldedAreTokens(lists, tokens, false);
    FullMatchWithoutExtras(lists, f, folded);
    forall d | d in lists.defaults
      ensures DefaultIsIn(lists, d, f, folded) <==> IsAmong(lists, d, tokens) || IsAmong(lists, d, folded)
    {
      DefaultIsAmong(lists, d, tokens, folded);
    }
    if f == "" {
      EmptyName(lists, []);
    } else {
      ShortcutsChangeNothing(lists, f, []);
    }
  }

  lemma FullMatchWithoutExtras(lists: Lists, f: string, folded: seq<string>)
    requires GoodLists(lists) && folded == Fold(lists, SplitTokens(Normalize(f)), false)
    ensures FullMatch(lists, f, []) <==>
            && Join(SplitTokens(Normalize(f))) !in lists.clear
            && exists d :: d in lists.defaults && DefaultIsIn(lists, d, f, folded)
  {
    hide Normalize, NormalizedName, Lower, Fold, Join, SplitTokens, DefaultIsIn, GoodDefault, Candidates, DefaultsMatch;
    NormalizedIsNormalize(f);
    DefaultsMatchIff(lists, f, false);
  }

  // ---------------------------------------------------------------- compounds and plurals

  lemma FoldIsFolding(lists: Lists, tokens: seq<string>, foldNoun: bool)
    ensures IsFolding(lists, tokens, foldNoun, Fold(lists, tokens, foldNoun))
  {
    hide SplitTokens, Known;
    forall i | 0 <= i < |tokens|
      ensures TokenFoldsTo(lists, tokens[i], foldNoun && i == |tokens| - 1, Fold(lists, tokens, foldNoun)[i])
    {
      if |tokens[i]| >= 2 {
        KnownIff(lists, tokens[i][..|tokens[i]|-1]);
      }
    }
  }

  lemma MiddleIsSublist(front: seq<string>, part: seq<string>, back: seq<string>)
    ensures IsSublist(part, front + part + back)
  {
    var whole := front + part + back;
    assert whole[|front|..|front| + |part|] == part;
    assert SublistAt(part, whole, |front|);
  }

  lemma TokensOfDefault(lists: Lists, d: string)
    requires GoodLists(lists) && d in lists.defaults
    ensures d in lists.short ==> SplitTokens(d) == [d]
    ensures AreTokens(SplitTokens(d))
  {
    if d in lists.short {
      ShortNameIsItsToken(lists, d);
    }
  }

  lemma MiddleMember(front: seq<string>, t: string, back: seq<string>)
    ensures t in front + [t] + back
  {
    assert (front + [t] + back)[|front|] == t;
  }

  /** A default name with any tokens before and after it, as in "user_password_hash", unless that is an
      exempt name. */
  lemma CompoundIsSensitive(lists: Lists, d: string, front: seq<string>, back: seq<string>)
    requires GoodLists(lists) && d in lists.defaults && AreTokens(front) && AreTokens(back)
    requires var name := Join(front + SplitTokens(d) + back); !HasUpper(name) && name !in lists.clear
    ensures Sensitive(lists, Join(front + SplitTokens(d) + back), [])
  {
    hide Join, SplitTokens, GoodLists, Sensitive, Fold, HasUpper, IsFolding, IsSublist, IsToken;
    var part := SplitTokens(d);
    TokensOfDefault(lists, d);
    MiddleIsSublist(front, part, back);
    if d in lists.short {
      MiddleMember(front, d, back);
    }
    var tokens := front + part + back;
    assert IsAmong(lists, d, tokens);
    FoldIsFolding(lists, tokens, false);
    SensitiveTokensIff(lists, tokens, Fold(lists, tokens, false));
  }

  lemma KnownPluralFolds(lists: Lists, d: string, front: seq<string>, back: seq<string>)
    requires d in lists.defaults && SplitTokens(d) == [d]
    ensures Fold(lists, front + [d + "s"] + back, false)[|front|] == d
    ensures IsToken(d + "s")
  {
    hide SplitTokens;
    var tokens, t := front + [d + "s"] + back, d + "s";
    assert IsToken(SplitTokens(d)[0]);
    assert t[..|t|-1] == d && d in [d];
    KnownIff(lists, d);
    assert FoldToken(lists, t, false) == d;
    assert tokens[|front|] == t;
  }

  lemma MemberIsAmong(lists: Lists, d: string, tokens: seq<string>, k: nat)
    requires k < |tokens| && tokens[k] == d && SplitTokens(d) == [d]
    ensures IsAmong(lists, d, tokens)
  {
    assert tokens[k..k + 1] == [d];
    assert SublistAt([d], tokens, k);
  }

  /** The plural of a one-word default name, with any tokens before and after it, as in "user_tokens",
      unless that is an exempt name. */
  lemma PluralIsSensitive(lists: Lists, d: string, front: seq<string>, back: seq<string>)
    requires GoodLists(lists) && d in lists.defaults && SplitTokens(d) == [d] && AreTokens(front) && AreTokens(back)
    requires var name := Join(front + [d + "s"] + back); !HasUpper(name) && name !in lists.clear
    ensures Sensitive(lists, Join(front + [d + "s"] + back), [])
  {
    hide Join, SplitTokens, GoodLists, Sensitive, Fold, HasUpper, IsFolding, IsSublist, IsToken, IsAmong;
    var tokens := front + [d + "s"] + back;
    var folded := Fold(lists, tokens, false);
    KnownPluralFolds(lists, d, front, back);
    MemberIsAmong(lists, d, folded, |front|);
    FoldIsFolding(lists, tokens, false);
    SensitiveTokensIff(lists, tokens, folded);
  }

  /** No default name makes an exempt name sensitive. */
  lemma ExemptIsNotSensitive(lists: Lists, tokens: seq<string>)
    requires GoodLists(lists) && AreTokens(tokens) && !HasUpper(Join(tokens)) && Join(tokens) in lists.clear
    ensures !Sensitive(lists, Join(tokens), [])
  {
    hide Join, Sensitive, HasUpper, IsFolding, GoodLists;
    FoldIsFolding(lists, tokens, false);
    SensitiveTokensIff(lists, tokens, Fold(lists, tokens, false));
  }

  // ---------------------------------------------------------------- on the repository's lists

  lemma NotExemptByLength(name: string)
    requires |name| == 13 || |name| == 14
    requires name[0] == 'u'
    ensures name !in CLEAR
  {
  }

  lemma PasswordIsDefault()
    ensures SplitTokens("password") == ["password"] && "password" in DEFAULTS
  {
    assert DEFAULTS_0[0] == "password";
    assert IsToken("password");
    SplitOfJoin(["password"]);
  }

  lemma UserWords()
    ensures AreTokens(["user"]) && !HasUpper("user_password") && !HasUpper("user_passwords")
    ensures Join(["user", "password"]) == "user_password" && Join(["user", "passwords"]) == "user_passwords"
  {
    JoinTwo("user", "password");
    JoinTwo("user", "passwords");
    assert IsToken("user");
  }

  /** A default name and its plural are found inside a longer name. */
  lemma UserPassword()
    ensures Sensitive(LISTS, "user_password", []) && Sensitive(LISTS, "user_passwords", [])
  {
    hide Sensitive, GoodLists, Join, SplitTokens, IsToken, HasUpper;
    ListsAreGood();
    PasswordIsDefault();
    UserWords();
    NotExemptByLength("user_password");
    NotExemptByLength("user_passwords");
    assert ["user"] + ["password"] + [] == ["user", "password"];
    CompoundIsSensitive(LISTS, "password", ["user"], []);
    assert "password" + "s" == "passwords";
    assert ["user"] + ["passwords"] + [] == ["user", "passwords"];
    PluralIsSensitive(LISTS, "password", ["user"], []);
  }
}
