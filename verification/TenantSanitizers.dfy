/** The three sanitizers a tenant identifier can pass: `middleware/tenant.go` on the HTTP log path,
    `sanitizeTenantFromBaggage` of `tracing/processor.go` on the span path, and the gRPC one of
    `grpcmiddleware/telemetry.go`. The span path's comment promises the log path's results; this module
    proves exactly when they are, and how the gRPC path compares. */
module TenantSanitizers {
  import SensitiveNames

  const MAX_TENANT_ID_LEN := 128
  const MAX_REQUEST_ID_LEN := 128

  /** `unicode.IsSpace`. */
  predicate IsSpace(c: char) {
    c in [' ', '\t', '\n', '\r', 0x0B as char, 0x0C as char, 0x85 as char, 0xA0 as char, 0x1680 as char,
          0x2028 as char, 0x2029 as char, 0x202F as char, 0x205F as char, 0x3000 as char]
    || 0x2000 <= c as int <= 0x200A
  }

  /** `isSafeRequestIDCharacter`. */
  predicate Printable(c: char) {
    0x20 <= c as int <= 0x7E
  }

  /** What the log-injection replacer leaves. */
  predicate Harmless(c: char) {
    c != '\r' && c != '\n' && c != '\0'
  }

  /** What the gRPC path's `sanitizeLogValue` leaves. */
  predicate NotControl(c: char) {
    c as int >= 0x20 && c as int != 0x7F
  }

  function Utf8Width(c: char): nat {
    if c as int < 0x80 then 1 else if c as int < 0x800 then 2 else if c as int < 0x1_0000 then 3 else 4
  }

  /** Go's `len`, in bytes. */
  function ByteLen(s: string): nat {
    if s == "" then 0 else Utf8Width(s[0]) + ByteLen(s[1..])
  }

  function TrimLeft(s: string): string {
    if s != "" && IsSpace(s[0]) then TrimLeft(s[1..]) else s
  }

  function TrimRight(s: string): string {
    if s != "" && IsSpace(s[|s|-1]) then TrimRight(s[..|s|-1]) else s
  }

  /** `strings.TrimSpace`. */
  function Trim(s: string): string {
    TrimRight(TrimLeft(s))
  }

  function Keep(s: string, p: char -> bool): string {
    if s == "" then "" else (if p(s[0]) then [s[0]] else "") + Keep(s[1..], p)
  }

  // ---------------------------------------------------------------- the sanitizers

  function Prefix(s: string, n: nat): string {
    if |s| <= n then s else s[..n]
  }

  method NormalizeRequestID(raw: string) returns (r: string)
    ensures r == NormalizedRequestID(raw)
  {
    var trimmed := Trim(raw);
    if trimmed == "" {
      assert Keep("", Printable) == "";
      return "";
    }
    var normalized := "";
    for i := 0 to |trimmed|
      invariant |normalized| <= MAX_REQUEST_ID_LEN
      invariant Prefix(normalized + Keep(trimmed[i..], Printable), MAX_REQUEST_ID_LEN) ==
                Prefix(Keep(trimmed, Printable), MAX_REQUEST_ID_LEN)
    {
      var c := trimmed[i];
      assert trimmed[i..][0] == c && trimmed[i..][1..] == trimmed[i+1..];
      ghost var rest := Keep(trimmed[i+1..], Printable);
      if !Printable(c) {
        assert normalized + Keep(trimmed[i..], Printable) == normalized + rest;
        continue;
      }
      assert normalized + Keep(trimmed[i..], Printable) == normalized + [c] + rest;
      if |normalized| >= MAX_REQUEST_ID_LEN {
        assert Prefix(normalized + Keep(trimmed[i..], Printable), MAX_REQUEST_ID_LEN) == normalized;
        return Trim(normalized);
      }
      normalized := normalized + [c];
    }
    assert normalized + Keep(trimmed[|trimmed|..], Printable) == normalized;
    return Trim(normalized);
  }

  function NormalizedRequestID(raw: string): string {
    Trim(Prefix(Keep(Trim(raw), Printable), MAX_REQUEST_ID_LEN))
  }

  /** `sanitizeTenantID` of the HTTP middleware. */
  function LogTenant(raw: string): string {
    if ByteLen(Trim(raw)) > MAX_TENANT_ID_LEN then ""
    else
      var value := NormalizedRequestID(raw);
      if Trim(value) in {"", "null", "nil"} then "" else value
  }

  /** What `sanitizeTenantFromBaggage` has left before its checks. */
  function Stripped(raw: string): string {
    Trim(Keep(raw, Harmless))
  }

  predicate NullWord(s: string) {
    SensitiveNames.Lower(s) == "null" || SensitiveNames.Lower(s) == "nil"
  }

  function SpanTenant(raw: string): string {
    var v := Stripped(raw);
    if NullWord(v) then "" else if v == "" || ByteLen(v) > MAX_TENANT_ID_LEN then "" else v
  }

  /** What the gRPC `normalizeRequestID` makes of it. */
  function RpcText(raw: string): string {
    Trim(Keep(raw, NotControl))
  }

  /** `sanitizeTenantID` of the gRPC interceptors. */
  function RpcTenant(raw: string): string {
    var value := RpcText(raw);
    if Trim(value) in {"", "null", "nil"} || ByteLen(value) > MAX_TENANT_ID_LEN then "" else value
  }

  // ---------------------------------------------------------------- trimming and filtering

  predicate AllSpace(s: string) {
    forall i :: 0 <= i < |s| ==> IsSpace(s[i])
  }

  predicate All(s: string, p: char -> bool) {
    forall i :: 0 <= i < |s| ==> p(s[i])
  }

  predicate AllPrintable(s: string) {
    All(s, Printable)
  }

  predicate NoOuterSpace(s: string) {
    s != "" ==> !IsSpace(s[0]) && !IsSpace(s[|s|-1])
  }

  lemma {:induction false} TrimLeftSplits(s: string) returns (left: string)
    ensures s == left + TrimLeft(s) && AllSpace(left)
    ensures TrimLeft(s) != "" ==> !IsSpace(TrimLeft(s)[0])
  {
    hide IsSpace;
    if s != "" && IsSpace(s[0]) {
      var rest := TrimLeftSplits(s[1..]);
      left := [s[0]] + rest;
      assert s == [s[0]] + (rest + TrimLeft(s[1..]));
    } else {
      left := "";
    }
  }

  lemma {:induction false} TrimRightSplits(s: string) returns (right: string)
    ensures s == TrimRight(s) + right && AllSpace(right)
    ensures TrimRight(s) != "" ==> !IsSpace(TrimRight(s)[|TrimRight(s)|-1])
  {
    hide IsSpace;
    if s != "" && IsSpace(s[|s|-1]) {
      var rest := TrimRightSplits(s[..|s|-1]);
      right := rest + [s[|s|-1]];
      assert s == (TrimRight(s[..|s|-1]) + rest) + [s[|s|-1]];
    } else {
      right := "";
    }
  }

  lemma TrimSplits(s: string) returns (left: string, right: string)
    ensures s == left + Trim(s) + right && AllSpace(left) && AllSpace(right) && NoOuterSpace(Trim(s))
  {
    hide TrimLeft, TrimRight, IsSpace;
    left := TrimLeftSplits(s);
    right := TrimRightSplits(TrimLeft(s));
    if Trim(s) != "" {
      assert TrimLeft(s)[0] == Trim(s)[0];
    }
  }

  lemma {:induction false} TrimLeftOf(left: string, s: string)
    requires AllSpace(left) && (s != "" ==> !IsSpace(s[0]))
    ensures TrimLeft(left + s) == s
  {
    if left == "" {
      assert left + s == s;
    } else {
      assert (left + s)[1..] == left[1..] + s;
      TrimLeftOf(left[1..], s);
    }
  }

  lemma {:induction false} TrimRightOf(s: string, right: string)
    requires AllSpace(right) && (s != "" ==> !IsSpace(s[|s|-1]))
    ensures TrimRight(s + right) == s
  {
    if right == "" {
      assert s + right == s;
    } else {
      assert (s + right)[..|s + right|-1] == s + right[..|right|-1];
      TrimRightOf(s, right[..|right|-1]);
    }
  }

  /** Trimming is what is left between spaces. */
  lemma TrimOf(left: string, s: string, right: string)
    requires AllSpace(left) && AllSpace(right) && NoOuterSpace(s)
    ensures Trim(left + s + right) == s
  {
    if s == "" {
      assert left + s + right == (left + right) + "";
      TrimLeftOf(left + right, "");
    } else {
      assert left + s + right == left + (s + right);
      TrimLeftOf(left, s + right);
      TrimRightOf(s, right);
    }
  }

  lemma KeepCons(c: char, rest: string, p: char -> bool)
    ensures Keep([c] + rest, p) == (if p(c) then [c] else "") + Keep(rest, p)
  {
    assert ([c] + rest)[1..] == rest;
  }

  lemma {:induction false} KeepConcat(a: string, b: string, p: char -> bool)
    ensures Keep(a + b, p) == Keep(a, p) + Keep(b, p)
  {
    if a == "" {
      assert a + b == b;
    } else {
      var rest := a[1..];
      assert a == [a[0]] + rest && a + b == [a[0]] + (rest + b);
      KeepCons(a[0], rest, p);
      KeepCons(a[0], rest + b, p);
      KeepConcat(rest, b, p);
    }
  }

  lemma {:induction false} KeepIsFilter(s: string, p: char -> bool)
    ensures All(Keep(s, p), p)
    ensures All(s, p) ==> Keep(s, p) == s
    ensures AllSpace(s) ==> AllSpace(Keep(s, p))
  {
    if s != "" {
      KeepIsFilter(s[1..], p);
      hide IsSpace;
      assert s == [s[0]] + s[1..];
    }
  }

  lemma {:induction false} KeptLength(s: string, p: char -> bool)
    ensures |Keep(s, p)| <= ByteLen(s)
  {
    if s != "" {
      KeptLength(s[1..], p);
    }
  }

  lemma {:induction false} KeepTwice(s: string, p: char -> bool, q: char -> bool)
    requires forall c :: q(c) ==> p(c)
    ensures Keep(Keep(s, p), q) == Keep(s, q)
  {
    if s != "" {
      KeepTwice(s[1..], p, q);
      KeepConcat(if p(s[0]) then [s[0]] else "", Keep(s[1..], p), q);
    }
  }

  /** Spaces around a text do not survive filtering and trimming. */
  lemma TrimKeepOfSplit(left: string, s: string, right: string, p: char -> bool)
    requires AllSpace(left) && AllSpace(right)
    ensures Trim(Keep(left + s + right, p)) == Trim(Keep(s, p))
  {
    KeepConcat(left + s, right, p);
    KeepConcat(left, s, p);
    KeepIsFilter(left, p);
    KeepIsFilter(right, p);
    var l, r := TrimSplits(Keep(s, p));
    var t := Trim(Keep(s, p));
    Regroup(Keep(left, p), l, t, r, Keep(right, p));
    TrimOf(Keep(left, p) + l, t, r + Keep(right, p));
  }

  lemma Regroup(a: string, b: string, c: string, d: string, e: string)
    ensures a + (b + c + d) + e == (a + b) + c + (d + e)
  {
  }

  // ---------------------------------------------------------------- a request identifier

  lemma AllOfSlice(s: string, a: nat, b: nat, p: char -> bool)
    requires All(s, p) && a <= b <= |s|
    ensures All(s[a..b], p)
  {
  }

  lemma TrimmedIsSlice(s: string) returns (a: nat)
    ensures a + |Trim(s)| <= |s| && Trim(s) == s[a..a + |Trim(s)|]
  {
    var left, right := TrimSplits(s);
    a := |left|;
  }

  lemma TrimOfTrimmed(s: string)
    requires NoOuterSpace(s)
    ensures Trim(s) == s
  {
    TrimOf("", s, "");
    assert "" + s + "" == s;
  }

  /** For every input: at most 128 characters, all printable, none of them a space at either end, and the
      same again the second time. A printable text is only trimmed and cut after 128 characters, and a
      character that is not printable counts as if it were not there. */
  lemma RequestIDIsBoundedAndSafe(raw: string)
    ensures var r := NormalizedRequestID(raw);
            && |r| <= 128 && AllPrintable(r) && NoOuterSpace(r) && NormalizedRequestID(r) == r
    ensures AllPrintable(Trim(raw)) ==>
              var t := Trim(raw); NormalizedRequestID(raw) == if |t| <= 128 then t else Trim(t[..128])
  {
    hide Trim, Keep, IsSpace, Printable;
    var t := Trim(raw);
    var kept := Keep(t, Printable);
    var cut := Prefix(kept, MAX_REQUEST_ID_LEN);
    KeepIsFilter(t, Printable);
    AllOfSlice(kept, 0, |cut|, Printable);
    assert cut == kept[0..|cut|];
    var l, u := TrimSplits(cut);
    var a := TrimmedIsSlice(cut);
    var r := NormalizedRequestID(raw);
    AllOfSlice(cut, a, a + |r|, Printable);
    TrimOfTrimmed(r);
    KeepIsFilter(r, Printable);
    assert NormalizedRequestID(r) == r;
    if AllPrintable(t) {
      TrimTwice(raw);
    }
  }

  lemma UnprintableIsSkipped(a: string, c: char, b: string)
    requires !Printable(c) && NoOuterSpace(a + [c] + b) && NoOuterSpace(a + b)
    ensures NormalizedRequestID(a + [c] + b) == NormalizedRequestID(a + b)
  {
    hide Trim, Keep, IsSpace, Printable;
    TrimOfTrimmed(a + [c] + b);
    TrimOfTrimmed(a + b);
    KeepConcat(a + [c], b, Printable);
    KeepConcat(a, [c], Printable);
    KeepConcat(a, b, Printable);
    KeepCons(c, "", Printable);
    assert [c] + "" == [c];
    NothingKept();
    assert Keep(a, Printable) + "" == Keep(a, Printable);
  }

  lemma NothingKept()
    ensures Keep("", Printable) == "" && "" + "" == ""
  {
  }

  // ---------------------------------------------------------------- when they agree

  lemma TrimTwice(s: string)
    ensures Trim(Trim(s)) == Trim(s)
  {
    var l, r := TrimSplits(s);
    TrimOf("", Trim(s), "");
    assert "" + Trim(s) + "" == Trim(s);
  }

  /** Filtering further changes a trimmed text exactly when it holds a character to be filtered. */
  lemma FilteredIsSameIff(s: string, p: char -> bool)
    requires Trim(s) == s
    ensures Trim(Keep(s, p)) == s <==> All(s, p)
  {
    hide Trim, Keep;
    KeepIsFilter(s, p);
    var l, r := TrimSplits(Keep(s, p));
    if !All(s, p) {
      assert forall i :: 0 <= i < |Trim(Keep(s, p))| ==> Trim(Keep(s, p))[i] == Keep(s, p)[|l| + i];
    }
  }

  /** Both other paths give what filtering the span path's text would. */
  lemma TextsFromSpanText(raw: string)
    ensures Trim(Keep(Trim(raw), Printable)) == Trim(Keep(Stripped(raw), Printable))
    ensures RpcText(raw) == Trim(Keep(Stripped(raw), NotControl))
  {
    hide Trim, Keep;
    var kept := Keep(raw, Harmless);
    var l, r := TrimSplits(raw);
    var kl, kr := TrimSplits(kept);
    TrimKeepOfSplit(l, Trim(raw), r, Printable);
    KeepTwice(raw, Harmless, Printable);
    TrimKeepOfSplit(kl, Stripped(raw), kr, Printable);
    KeepTwice(raw, Harmless, NotControl);
    TrimKeepOfSplit(kl, Stripped(raw), kr, NotControl);
  }

  /** Filtering to printable characters, or to all but controls, changes the span path's text exactly
      when it holds another character. */
  lemma LogTextOfSpanText(raw: string)
    ensures Trim(Keep(Trim(raw), Printable)) == Stripped(raw) <==> AllPrintable(Stripped(raw))
    ensures RpcText(raw) == Stripped(raw) <==> All(Stripped(raw), NotControl)
  {
    hide Trim, Keep;
    TextsFromSpanText(raw);
    TrimTwice(Keep(raw, Harmless));
    FilteredIsSameIff(Stripped(raw), Printable);
    FilteredIsSameIff(Stripped(raw), NotControl);
  }

  lemma {:induction false} ByteLenConcat(a: string, b: string)
    ensures ByteLen(a + b) == ByteLen(a) + ByteLen(b)
  {
    if a == "" {
      assert a + b == b;
    } else {
      assert (a + b)[1..] == a[1..] + b;
      ByteLenConcat(a[1..], b);
    }
  }

  lemma {:induction false} KeepShortens(s: string, p: char -> bool)
    ensures ByteLen(Keep(s, p)) <= ByteLen(s)
  {
    if s != "" {
      KeepShortens(s[1..], p);
      ByteLenConcat(if p(s[0]) then [s[0]] else "", Keep(s[1..], p));
      assert ByteLen([s[0]]) == Utf8Width(s[0]);
    }
  }

  /** Stripping never lengthens what plain trimming leaves. */
  lemma StrippedFits(raw: string)
    ensures ByteLen(Stripped(raw)) <= ByteLen(Trim(raw))
  {
    var l, r := TrimSplits(raw);
    var kl, kr, middle := Keep(l, Harmless), Keep(r, Harmless), Keep(Trim(raw), Harmless);
    KeepConcat(l + Trim(raw), r, Harmless);
    KeepConcat(l, Trim(raw), Harmless);
    KeepIsFilter(l, Harmless);
    KeepIsFilter(r, Harmless);
    KeepShortens(Trim(raw), Harmless);
    var a, b := TrimSplits(middle);
    Regroup(kl, a, Trim(middle), b, kr);
    TrimOf(kl + a, Trim(middle), b + kr);
    ByteLenConcat(a + Trim(middle), b);
    ByteLenConcat(a, Trim(middle));
  }

  /** Exactly when log and span carry the same tenant. Within the length cap: the stripped text is
      printable and is not "null" or "nil" in another case. Over it, where the log path rejects the
      untouched text: stripping must not have brought it back under the cap. */
  lemma SanitizersAgreeIff(raw: string)
    ensures LogTenant(raw) == SpanTenant(raw) <==>
            var v := Stripped(raw);
            if ByteLen(Trim(raw)) <= MAX_TENANT_ID_LEN
            then AllPrintable(v) && (NullWord(v) ==> v == "null" || v == "nil")
            else v == "" || NullWord(v) || ByteLen(v) > MAX_TENANT_ID_LEN
  {
    var v := Stripped(raw);
    StrippedFits(raw);
    NullWords();
    if ByteLen(Trim(raw)) <= MAX_TENANT_ID_LEN {
      LogTextOfSpanText(raw);
      LogTenantWithinCap(raw);
      NullWordIsPrintable(v);
    }
  }

  lemma LogTenantWithinCap(raw: string)
    requires ByteLen(Trim(raw)) <= MAX_TENANT_ID_LEN
    ensures var h := Trim(Keep(Trim(raw), Printable)); LogTenant(raw) == if h in {"", "null", "nil"} then "" else h
  {
    hide Keep, ByteLen, Trim;
    var kept := Keep(Trim(raw), Printable);
    KeptLength(Trim(raw), Printable);
    TrimTwice(kept);
  }

  lemma NullWords()
    ensures NullWord("null") && NullWord("nil") && !NullWord("")
  {
    assert SensitiveNames.Lower("null") == "null" && SensitiveNames.Lower("nil") == "nil";
  }

  lemma NullWordIsPrintable(v: string)
    ensures NullWord(v) ==> AllPrintable(v)
  {
    if NullWord(v) {
      forall i | 0 <= i < |v| ensures Printable(v[i]) {
        assert SensitiveNames.Lower(v)[i] == SensitiveNames.LowerChar(v[i])
               && SensitiveNames.Lower(v)[i] in ['n', 'u', 'l', 'i'];
      }
    }
  }

  /** Exactly when an RPC's span attribute and its baggage seed carry the same tenant: within the cap, the
      stripped text holds no control character and is not "null" or "nil" in another case; over it, the
      gRPC path must reject as well. */
  lemma RpcAgreesWithSpanIff(raw: string)
    ensures RpcTenant(raw) == SpanTenant(raw) <==>
            var v := Stripped(raw);
            if All(v, NotControl) then NullWord(v) ==> v == "null" || v == "nil"
            else ByteLen(v) > MAX_TENANT_ID_LEN
                 && (RpcText(raw) in {"", "null", "nil"} || ByteLen(RpcText(raw)) > MAX_TENANT_ID_LEN)
  {
    hide Trim, Keep;
    var v := Stripped(raw);
    LogTextOfSpanText(raw);
    TrimTwice(Keep(raw, NotControl));
    NullWords();
    NullWordIsPrintable(v);
    ShortWords(v);
  }

  lemma ShortWords(v: string)
    ensures v == "null" || v == "nil" || v == "" ==> ByteLen(v) <= 4
    ensures NullWord(v) ==> ByteLen(v) <= 4
  {
    NullWordIsPrintable(v);
    if NullWord(v) {
      AsciiLen(v);
    } else {
      NullWords();
    }
  }

  /** A printable identifier without outer spaces passes every sanitizer up to their null checks, and none
      if it has more than 128 characters. */
  lemma PlainIdentifier(raw: string)
    requires AllPrintable(raw) && NoOuterSpace(raw)
    ensures LogTenant(raw) == if raw in {"null", "nil"} || |raw| > 128 then "" else raw
    ensures SpanTenant(raw) == if NullWord(raw) || |raw| > 128 then "" else raw
    ensures RpcTenant(raw) == LogTenant(raw)
  {
    hide Trim, Keep, ByteLen, LogTenant, IsSpace, SensitiveNames.Lower;
    TrimOf("", raw, "");
    assert "" + raw + "" == raw;
    AsciiLen(raw);
    assert All(raw, Harmless) && All(raw, NotControl);
    KeepIsFilter(raw, Printable);
    KeepIsFilter(raw, Harmless);
    KeepIsFilter(raw, NotControl);
    if |raw| <= 128 {
      LogTenantWithinCap(raw);
    } else {
      LogTenantOverCap(raw);
    }
  }

  lemma LogTenantOverCap(raw: string)
    requires ByteLen(Trim(raw)) > MAX_TENANT_ID_LEN
    ensures LogTenant(raw) == ""
  {
  }

  /** The promise fails on ordinary input: "NULL" is a tenant to the log and none to the span. */
  lemma UppercaseNullDiverges()
    ensures LogTenant("NULL") == "NULL" && SpanTenant("NULL") == ""
  {
    hide LogTenant, SpanTenant, Keep, Trim, ByteLen;
    PlainIdentifier("NULL");
    assert SensitiveNames.Lower("NULL") == "null";
  }

  lemma {:induction false} AsciiLen(s: string)
    requires AllPrintable(s)
    ensures ByteLen(s) == |s|
  {
    if s != "" {
      AsciiLen(s[1..]);
    }
  }
}
