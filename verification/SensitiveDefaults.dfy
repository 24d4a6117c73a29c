/** The repository's own default, short and exempt names, and the proof that they meet every fact the
    theorems of `SensitiveNames` ask of their lists. */
module SensitiveDefaults {
  import opened WordMatch
  import opened Tokens
  import opened SensitiveNames

  // The default list in source order, cut into pieces small enough to check one at a time.
  const DEFAULTS_0: seq<string> := ["password", "newpassword", "oldpassword"]
  const DEFAULTS_1: seq<string> := ["passwordsalt", "senha", "token", "secret", "key"]
  const DEFAULTS_2: seq<string> := ["authorization", "auth", "credential"]
  const DEFAULTS_3: seq<string> := ["credentials", "apikey", "api_key"]
  const DEFAULTS_4: seq<string> := ["access_token", "accesstoken"]
  const DEFAULTS_5: seq<string> := ["refresh_token", "refreshtoken", "bearer"]
  const DEFAULTS_6: seq<string> := ["jwt", "session_id", "sessionid", "cookie"]
  const DEFAULTS_7: seq<string> := ["private_key", "privatekey", "clientsecret"]
  const DEFAULTS_8: seq<string> := ["client_secret", "passwd", "passphrase", "pass"]
  const DEFAULTS_9: seq<string> := ["pwd", "card_number", "cardnumber", "cvv", "cvc"]
  const DEFAULTS_10: seq<string> := ["ssn", "social_security", "pin", "otp"]
  const DEFAULTS_11: seq<string> := ["account_number", "accountnumber"]
  const DEFAULTS_12: seq<string> := ["routing_number", "routingnumber", "iban"]
  const DEFAULTS_13: seq<string> := ["swift", "swift_code", "bic", "pan", "expiry"]
  const DEFAULTS_14: seq<string> := ["expiry_date", "expiration_date"]
  const DEFAULTS_15: seq<string> := ["card_expiry", "date_of_birth", "dob"]
  const DEFAULTS_16: seq<string> := ["national_id", "sort_code", "bsb"]
  const DEFAULTS_17: seq<string> := ["security_answer", "security_question"]
  const DEFAULTS_18: seq<string> := ["mother_maiden_name", "mfa_code", "totp"]
  const DEFAULTS_19: seq<string> := ["biometric", "fingerprint", "certificate"]
  const DEFAULTS_20: seq<string> := ["connection_string", "database_url"]
  const DEFAULTS_21: seq<string> := ["email", "phone", "phone_number", "address"]
  const DEFAULTS_22: seq<string> := ["street", "city", "zip", "postal_code", "nome"]
  const DEFAULTS_23: seq<string> := ["full_name", "first_name", "last_name"]
  const DEFAULTS_24: seq<string> := ["holder_name", "mother_name"]
  const DEFAULTS_25: seq<string> := ["officer_name", "telefone", "celular"]
  const DEFAULTS_26: seq<string> := ["contato", "endereco", "logradouro"]
  const DEFAULTS_27: seq<string> := ["complemento", "bairro", "cidade", "municipio"]
  const DEFAULTS_28: seq<string> := ["cep", "banco", "agencia", "conta", "chave_pix"]

  const DEFAULTS: seq<string> :=
    DEFAULTS_0 + DEFAULTS_1 + DEFAULTS_2 + DEFAULTS_3 + DEFAULTS_4 + DEFAULTS_5 + DEFAULTS_6 + DEFAULTS_7 +
    DEFAULTS_8 + DEFAULTS_9 + DEFAULTS_10 + DEFAULTS_11 + DEFAULTS_12 + DEFAULTS_13 + DEFAULTS_14 + DEFAULTS_15 +
    DEFAULTS_16 + DEFAULTS_17 + DEFAULTS_18 + DEFAULTS_19 + DEFAULTS_20 + DEFAULTS_21 + DEFAULTS_22 + DEFAULTS_23 +
    DEFAULTS_24 + DEFAULTS_25 + DEFAULTS_26 + DEFAULTS_27 + DEFAULTS_28

  const SHORT: seq<string> := [
    "key", "auth", "pin", "otp", "cvv", "cvc", "ssn", "pan", "bic", "bsb", "dob", "jwt", "zip", "city"
  ]

  const CLEAR: seq<string> := [
    "idempotency_key", "idempotency_key_digest", "ip_address", "tipo_conta", "tipo_chave_pix", "nome_fantasia_ausente"
  ]

  const LISTS := Lists(DEFAULTS, SHORT, CLEAR)

  // ---------------------------------------------------------------- facts read off the characters

  predicate PlainAt(s: string, i: nat)
    requires i < |s|
  {
    IsAlphanumeric(s[i]) || (s[i] == '_' && 0 < i < |s| - 1 && IsAlphanumeric(s[i-1]))
  }

  /** Alphanumeric runs with single underscores strictly between them. */
  predicate Plain(s: string) {
    |s| > 0 && forall i :: 0 <= i < |s| ==> PlainAt(s, i)
  }

  predicate DistinctStartAt(s: string, k: nat)
    requires 0 < k < |s|
  {
    s[k-1] == '_' ==> s[k] != s[0] || (k + 1 < |s| && s[k+1] != s[1])
  }

  /** No word after the first begins with the same two characters as the name. */
  predicate DistinctStarts(s: string) {
    forall k :: 0 < k < |s| ==> DistinctStartAt(s, k)
  }

  predicate NoCompoundPlural(s: string)
    requires |s| > 0
  {
    s[|s|-1] != 's' || forall i :: 0 <= i < |s| ==> s[i] != '_'
  }

  /** Told apart from every exempt name, from its folding, and from its pieces run together, by length
      and first character. */
  predicate NotExempt(s: string)
    requires |s| > 0
  {
    (s[0] == 'i' || s[0] == 't' ==> |s| < 9) && (s[0] == 'n' ==> |s| < 19)
  }

  /** The first word has three letters at least, and with three is no piece of "auth" or "city". */
  predicate LongStart(s: string) {
    |s| >= 3 && s[1] != '_' && s[2] != '_' &&
    (|s| == 3 || s[3] == '_' ==>
      s[0] != 'u' && s[0] != 'i' && !(s[0] == 'a' && s[1] == 'u') && !(s[0] == 'c' && s[1] == 'i'))
  }

  predicate GoodEntry(s: string) {
    Plain(s) && DistinctStarts(s) && NoCompoundPlural(s) && NotExempt(s) && LongStart(s)
  }

  predicate AllGood(ss: seq<string>) {
    forall s :: s in ss ==> GoodEntry(s)
  }

  lemma PlainTail(s: string)
    requires Plain(s) && RunLength(s) < |s|
    ensures var n := RunLength(s); 0 < n && n + 1 < |s| && s[n] == '_' && Plain(s[n+1..])
  {
    var n := RunLength(s);
    assert PlainAt(s, 0) && PlainAt(s, n);
    var tail := s[n+1..];
    forall i | 0 <= i < |tail| ensures PlainAt(tail, i) {
      assert PlainAt(s, n + 1 + i);
    }
  }

  lemma SplitPlain(s: string)
    requires Plain(s)
    ensures var n := RunLength(s);
            && 0 < n
            && (n == |s| ==> SplitTokens(s) == [s])
            && (n < |s| ==> SplitTokens(s) == [s[..n]] + SplitTokens(s[n+1..]) && s == s[..n] + ("_" + s[n+1..]))
  {
    var n := RunLength(s);
    assert PlainAt(s, 0);
    if n == |s| {
      SplitWhole(s);
    } else {
      PlainTail(s);
      SplitAtUnderscore(s, n);
    }
  }

  lemma SplitWhole(s: string)
    requires IsToken(s)
    ensures SplitTokens(s) == [s]
  {
    assert SplitTokens("") == [];
    SplitRun(s, "");
    hide SplitTokens;
    assert s + "" == s;
  }

  lemma SplitAtUnderscore(s: string, n: nat)
    requires n < |s| && IsToken(s[..n]) && s[n] == '_'
    ensures SplitTokens(s) == [s[..n]] + SplitTokens(s[n+1..]) && s == s[..n] + ("_" + s[n+1..])
  {
    hide SplitTokens;
    assert s == s[..n] + ("_" + s[n+1..]);
    SplitRun(s[..n], "_" + s[n+1..]);
    SplitSeparator('_', s[n+1..]);
  }

  lemma {:induction false} PlainIsJoined(s: string)
    requires Plain(s)
    ensures SplitTokens(s) != [] && Join(SplitTokens(s)) == s
    decreases |s|
  {
    hide SplitTokens, RunLength, Plain, PlainAt;
    var n := RunLength(s);
    SplitPlain(s);
    if n < |s| {
      PlainTail(s);
      PlainIsJoined(s[n+1..]);
      assert ([s[..n]] + SplitTokens(s[n+1..]))[1..] == SplitTokens(s[n+1..]);
    }
  }

  /** The last token ends as the name does, and only a name with an underscore has several. */
  lemma {:induction false} LastTokenEndsName(s: string)
    requires Plain(s)
    ensures var ts := SplitTokens(s);
            && ts != [] && (EndsInS(ts[|ts|-1]) ==> s[|s|-1] == 's')
            && (|ts| > 1 ==> exists i :: 0 <= i < |s| && s[i] == '_')
    decreases |s|
  {
    hide SplitTokens, RunLength, Plain, PlainAt;
    var n := RunLength(s);
    SplitPlain(s);
    if n < |s| {
      PlainTail(s);
      var tail := s[n+1..];
      LastTokenEndsName(tail);
      var ts := SplitTokens(tail);
      assert ([s[..n]] + ts)[|ts|] == ts[|ts|-1];
      assert tail[|tail|-1] == s[|s|-1];
    }
  }

  /** The character facts give the facts the theorems use. */
  lemma GoodEntryIsGoodDefault(s: string)
    requires GoodEntry(s)
    ensures GoodDefault(s)
  {
    PlainIsJoined(s);
    LastTokenEndsName(s);
    forall k | 0 < k < |s| ensures !BorderAt(s, k) {
      assert PlainAt(s, k - 1) && DistinctStartAt(s, k);
      assert s[k] == s[k..][0] && s[0] == s[..|s|-k][0];
      assert k + 1 < |s| ==> s[k+1] == s[k..][1] && s[1] == s[..|s|-k][1];
    }
  }

  lemma Defaults0AreGood()
    ensures AllGood(DEFAULTS_0)
  {
    assert GoodEntry("password") && GoodEntry("newpassword") && GoodEntry("oldpassword");
  }

  lemma Defaults1AreGood()
    ensures AllGood(DEFAULTS_1)
  {
    assert GoodEntry("passwordsalt") && GoodEntry("senha") && GoodEntry("token") && GoodEntry("secret")
           && GoodEntry("key");
  }

  lemma Defaults2AreGood()
    ensures AllGood(DEFAULTS_2)
  {
    assert GoodEntry("authorization") && GoodEntry("auth") && GoodEntry("credential");
  }

  lemma Defaults3AreGood()
    ensures AllGood(DEFAULTS_3)
  {
    assert GoodEntry("credentials") && GoodEntry("apikey") && GoodEntry("api_key");
  }

  lemma Defaults4AreGood()
    ensures AllGood(DEFAULTS_4)
  {
    assert GoodEntry("access_token") && GoodEntry("accesstoken");
  }

  lemma Defaults5AreGood()
    ensures AllGood(DEFAULTS_5)
  {
    assert GoodEntry("refresh_token") && GoodEntry("refreshtoken") && GoodEntry("bearer");
  }

  lemma Defaults6AreGood()
    ensures AllGood(DEFAULTS_6)
  {
    assert GoodEntry("jwt") && GoodEntry("session_id") && GoodEntry("sessionid") && GoodEntry("cookie");
  }

  lemma Defaults7AreGood()
    ensures AllGood(DEFAULTS_7)
  {
    assert GoodEntry("private_key") && GoodEntry("privatekey") && GoodEntry("clientsecret");
  }

  lemma Defaults8AreGood()
    ensures AllGood(DEFAULTS_8)
  {
    assert GoodEntry("client_secret") && GoodEntry("passwd") && GoodEntry("passphrase") && GoodEntry("pass");
  }

  lemma Defaults9AreGood()
    ensures AllGood(DEFAULTS_9)
  {
    assert GoodEntry("pwd") && GoodEntry("card_number") && GoodEntry("cardnumber") && GoodEntry("cvv")
           && GoodEntry("cvc");
  }

  lemma Defaults10AreGood()
    ensures AllGood(DEFAULTS_10)
  {
    assert GoodEntry("ssn") && GoodEntry("social_security") && GoodEntry("pin") && GoodEntry("otp");
  }

  lemma Defaults11AreGood()
    ensures AllGood(DEFAULTS_11)
  {
    assert GoodEntry("account_number") && GoodEntry("accountnumber");
  }

  lemma Defaults12AreGood()
    ensures AllGood(DEFAULTS_12)
  {
    assert GoodEntry("routing_number") && GoodEntry("routingnumber") && GoodEntry("iban");
  }

  lemma Defaults13AreGood()
    ensures AllGood(DEFAULTS_13)
  {
    assert GoodEntry("swift") && GoodEntry("swift_code") && GoodEntry("bic") && GoodEntry("pan") && GoodEntry("expiry");
  }

  lemma Defaults14AreGood()
    ensures AllGood(DEFAULTS_14)
  {
    assert GoodEntry("expiry_date") && GoodEntry("expiration_date");
  }

  lemma Defaults15AreGood()
    ensures AllGood(DEFAULTS_15)
  {
    assert GoodEntry("card_expiry") && GoodEntry("date_of_birth") && GoodEntry("dob");
  }

  lemma Defaults16AreGood()
    ensures AllGood(DEFAULTS_16)
  {
    assert GoodEntry("national_id") && GoodEntry("sort_code") && GoodEntry("bsb");
  }

  lemma Defaults17AreGood()
    ensures AllGood(DEFAULTS_17)
  {
    assert GoodEntry("security_answer") && GoodEntry("security_question");
  }

  lemma Defaults18AreGood()
    ensures AllGood(DEFAULTS_18)
  {
    MotherMaidenNameIsGood();
    assert GoodEntry("mfa_code") && GoodEntry("totp");
  }

  lemma MotherMaidenNameIsGood()
    ensures GoodEntry("mother_maiden_name")
  {
  }

  lemma Defaults19AreGood()
    ensures AllGood(DEFAULTS_19)
  {
    assert GoodEntry("biometric") && GoodEntry("fingerprint") && GoodEntry("certificate");
  }

  lemma Defaults20AreGood()
    ensures AllGood(DEFAULTS_20)
  {
    assert GoodEntry("connection_string") && GoodEntry("database_url");
  }

  lemma Defaults21AreGood()
    ensures AllGood(DEFAULTS_21)
  {
    assert GoodEntry("email") && GoodEntry("phone") && GoodEntry("phone_number") && GoodEntry("address");
  }

  lemma Defaults22AreGood()
    ensures AllGood(DEFAULTS_22)
  {
    assert GoodEntry("street") && GoodEntry("city") && GoodEntry("zip") && GoodEntry("postal_code")
           && GoodEntry("nome");
  }

  lemma Defaults23AreGood()
    ensures AllGood(DEFAULTS_23)
  {
    assert GoodEntry("full_name") && GoodEntry("first_name") && GoodEntry("last_name");
  }

  lemma Defaults24AreGood()
    ensures AllGood(DEFAULTS_24)
  {
    assert GoodEntry("holder_name") && GoodEntry("mother_name");
  }

  lemma Defaults25AreGood()
    ensures AllGood(DEFAULTS_25)
  {
    assert GoodEntry("officer_name") && GoodEntry("telefone") && GoodEntry("celular");
  }

  lemma Defaults26AreGood()
    ensures AllGood(DEFAULTS_26)
  {
    assert GoodEntry("contato") && GoodEntry("endereco") && GoodEntry("logradouro");
  }

  lemma Defaults27AreGood()
    ensures AllGood(DEFAULTS_27)
  {
    assert GoodEntry("complemento") && GoodEntry("bairro") && GoodEntry("cidade") && GoodEntry("municipio");
  }

  lemma Defaults28AreGood()
    ensures AllGood(DEFAULTS_28)
  {
    assert GoodEntry("cep") && GoodEntry("banco") && GoodEntry("agencia") && GoodEntry("conta")
           && GoodEntry("chave_pix");
  }

  lemma DefaultsAreGood()
    ensures AllGood(DEFAULTS)
  {
    Defaults0AreGood(); Defaults1AreGood(); Defaults2AreGood(); Defaults3AreGood(); Defaults4AreGood();
    Defaults5AreGood(); Defaults6AreGood(); Defaults7AreGood(); Defaults8AreGood(); Defaults9AreGood();
    Defaults10AreGood(); Defaults11AreGood(); Defaults12AreGood(); Defaults13AreGood(); Defaults14AreGood();
    Defaults15AreGood(); Defaults16AreGood(); Defaults17AreGood(); Defaults18AreGood(); Defaults19AreGood();
    Defaults20AreGood(); Defaults21AreGood(); Defaults22AreGood(); Defaults23AreGood(); Defaults24AreGood();
    Defaults25AreGood(); Defaults26AreGood(); Defaults27AreGood(); Defaults28AreGood();
    hide GoodEntry;
  }

  lemma ShortNamesAreTokens()
    ensures forall d :: d in SHORT ==> SplitTokens(d) == [d]
  {
    forall d | d in SHORT ensures SplitTokens(d) == [d] {
      assert IsToken(d);
      SplitOfJoin([d]);
    }
  }

  predicate NotADefault(s: string) {
    |s| > 0 && !NotExempt(s)
  }

  /** None of the name's tokens is a plural, so its folding is itself, which is not a default. */
  lemma ExemptNameIsGood(lists: Lists, c: string, tokens: seq<string>)
    requires AllGood(lists.defaults) && AreTokens(tokens)
    requires c == Join(tokens) && NotADefault(c)
    requires forall i :: 0 <= i < |tokens| ==> !EndsInS(tokens[i])
    ensures GoodClear(lists, c)
  {
    SplitOfJoin(tokens);
    forall foldAll ensures Fold(lists, SplitTokens(c), foldAll) == tokens {
    }
  }

  lemma JoinTwo(a: string, b: string)
    ensures Join([a, b]) == a + "_" + b
  {
    assert [a, b][1..] == [b];
  }

  lemma JoinThree(a: string, b: string, c: string)
    ensures Join([a, b, c]) == a + "_" + (b + "_" + c)
  {
    JoinTwo(b, c);
    assert [a, b, c][1..] == [b, c];
  }

  /** "address" is a plural to the folding, which then makes "ip_addres" of it: no default either. */
  lemma IpAddressIsGood(lists: Lists)
    requires AllGood(lists.defaults)
    ensures GoodClear(lists, "ip_address")
  {
    var tokens := ["ip", "address"];
    JoinTwo("ip", "address");
    assert Join(tokens) == "ip_address";
    assert IsToken("ip") && IsToken("address");
    SplitOfJoin(tokens);
    assert NotADefault("ip_address");
    forall foldAll ensures NotADefault(Join(Fold(lists, tokens, foldAll))) {
      IpAddressFoldsToNoDefault(lists, foldAll);
    }
  }

  lemma IpAddressFoldsToNoDefault(lists: Lists, foldAll: bool)
    ensures NotADefault(Join(Fold(lists, ["ip", "address"], foldAll)))
  {
    var folded := Fold(lists, ["ip", "address"], foldAll);
    JoinTwo(folded[0], folded[1]);
    assert folded[0] == "ip" && 6 <= |folded[1]| <= 7;
    assert folded == [folded[0], folded[1]];
    assert |folded[0] + "_" + folded[1]| in {9, 10} && (folded[0] + "_" + folded[1])[0] == 'i';
  }

  lemma CompoundIsGood(lists: Lists, name: string, a: string, b: string)
    requires AllGood(lists.defaults)
    requires IsToken(a) && IsToken(b) && !EndsInS(a) && !EndsInS(b)
    requires name == a + "_" + b && NotADefault(name)
    ensures GoodClear(lists, name)
  {
    hide GoodClear, GoodEntry, NotADefault;
    JoinTwo(a, b);
    ExemptNameIsGood(lists, name, [a, b]);
  }

  lemma TripleIsGood(lists: Lists, name: string, a: string, b: string, c: string)
    requires AllGood(lists.defaults)
    requires IsToken(a) && IsToken(b) && IsToken(c) && !EndsInS(a) && !EndsInS(b) && !EndsInS(c)
    requires name == a + "_" + (b + "_" + c) && NotADefault(name)
    ensures GoodClear(lists, name)
  {
    hide GoodClear, GoodEntry, NotADefault;
    JoinThree(a, b, c);
    ExemptNameIsGood(lists, name, [a, b, c]);
  }

  lemma IdempotencyKeyIsGood(lists: Lists)
    requires AllGood(lists.defaults)
    ensures GoodClear(lists, "idempotency_key")
  {
    hide GoodClear, GoodEntry, Join;
    CompoundIsGood(lists, "idempotency_key", "idempotency", "key");
  }

  lemma IdempotencyKeyDigestIsGood(lists: Lists)
    requires AllGood(lists.defaults)
    ensures GoodClear(lists, "idempotency_key_digest")
  {
    hide GoodClear, GoodEntry, Join;
    TripleIsGood(lists, "idempotency_key_digest", "idempotency", "key", "digest");
  }

  lemma TipoContaIsGood(lists: Lists)
    requires AllGood(lists.defaults)
    ensures GoodClear(lists, "tipo_conta")
  {
    hide GoodClear, GoodEntry, Join;
    CompoundIsGood(lists, "tipo_conta", "tipo", "conta");
  }

  lemma TipoChavePixIsGood(lists: Lists)
    requires AllGood(lists.defaults)
    ensures GoodClear(lists, "tipo_chave_pix")
  {
    hide GoodClear, GoodEntry, Join;
    TripleIsGood(lists, "tipo_chave_pix", "tipo", "chave", "pix");
  }

  lemma NomeFantasiaAusenteIsGood(lists: Lists)
    requires AllGood(lists.defaults)
    ensures GoodClear(lists, "nome_fantasia_ausente")
  {
    hide GoodClear, GoodEntry, Join;
    TripleIsGood(lists, "nome_fantasia_ausente", "nome", "fantasia", "ausente");
  }

  lemma ExemptNamesAreGood(lists: Lists)
    requires AllGood(lists.defaults)
    ensures forall c :: c in CLEAR ==> GoodClear(lists, c)
  {
    IdempotencyKeyIsGood(lists);
    IdempotencyKeyDigestIsGood(lists);
    IpAddressIsGood(lists);
    TipoContaIsGood(lists);
    TipoChavePixIsGood(lists);
    NomeFantasiaAusenteIsGood(lists);
  }

  /** The repository's lists meet every requirement of the theorems in `SensitiveNames`. */
  lemma ListsAreGood()
    ensures GoodLists(LISTS)
  {
    DefaultsAreGood();
    forall d | d in DEFAULTS ensures GoodDefault(d) {
      GoodEntryIsGoodDefault(d);
    }
    ShortNamesAreTokens();
    ExemptNamesAreGood(LISTS);
  }

  /** On the repository's lists, with no side condition left. */
  lemma ExtraNamesNeverHideADefault(f: string, extra: seq<string>)
    ensures Sensitive(LISTS, f, []) ==> Sensitive(LISTS, f, extra)
    ensures f != "" && !HasUpper(f) ==> (Sensitive(LISTS, f, extra) <==> FullMatch(LISTS, f, extra))
  {
    ListsAreGood();
    if Sensitive(LISTS, f, []) {
      ExtraNamesNeverHide(LISTS, f, extra);
    }
    if f != "" && !HasUpper(f) {
      ShortcutsChangeNothing(LISTS, f, extra);
    }
  }

  /** The scan never misses a default name, on any field. */
  lemma EveryDefaultIsAlwaysFound(d: string)
    requires d in DEFAULTS
    ensures ScanNeverMisses(d)
  {
    ListsAreGood();
    assert GoodDefault(d);
    JoinNotEmpty(SplitTokens(d));
    ScanNeverMissesIff(d);
  }
}
