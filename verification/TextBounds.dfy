/** The byte caps on span and log text: `truncateUserAgent` scans forward over runes, `truncateUTF8`
    trims backward, `clip` deletes what is invalid after the cut. UTF-8 is that of section 4 of RFC 3629. */
module TextBounds {

  type byte = x: int | 0 <= x < 256

  type Bytes = seq<byte>

  predicate Continuation(b: byte) { 0x80 <= b <= 0xBF }

  predicate SecondOf3(b0: byte, b1: byte) {
    || (b0 == 0xE0 && 0xA0 <= b1 <= 0xBF)
    || ((0xE1 <= b0 <= 0xEC || 0xEE <= b0 <= 0xEF) && Continuation(b1))
    || (b0 == 0xED && 0x80 <= b1 <= 0x9F)
  }

  predicate SecondOf4(b0: byte, b1: byte) {
    || (b0 == 0xF0 && 0x90 <= b1 <= 0xBF)
    || (0xF1 <= b0 <= 0xF3 && Continuation(b1))
    || (b0 == 0xF4 && 0x80 <= b1 <= 0x8F)
  }

  /** The length of the character a text starts with, or 0 when it starts with none. */
  function RuneLen(s: Bytes): (n: nat)
    ensures n <= |s| && n <= 4
  {
    if |s| >= 1 && s[0] <= 0x7F then 1
    else if |s| >= 2 && 0xC2 <= s[0] <= 0xDF && Continuation(s[1]) then 2
    else if |s| >= 3 && SecondOf3(s[0], s[1]) && Continuation(s[2]) then 3
    else if |s| >= 4 && SecondOf4(s[0], s[1]) && Continuation(s[2]) && Continuation(s[3]) then 4
    else 0
  }

  /** `utf8.ValidString`. */
  predicate Valid(s: Bytes)
    decreases |s|
  {
    s == [] || (RuneLen(s) > 0 && Valid(s[RuneLen(s)..]))
  }

  /** `strings.ToValidUTF8(s, "")`: every byte that starts no character is deleted. */
  function ToValid(s: Bytes): (r: Bytes)
    ensures |r| <= |s|
    decreases |s|
  {
    var n := RuneLen(s);
    if s == [] then [] else if n > 0 then s[..n] + ToValid(s[n..]) else ToValid(s[1..])
  }

  // ---------------------------------------------------------------- what a character is

  /** A code point that is no surrogate. */
  predicate Scalar(c: nat) {
    c <= 0x10FFFF && !(0xD800 <= c <= 0xDFFF)
  }

  /** The encoding table of section 3 of RFC 3629. */
  function Encode(c: nat): Bytes
    requires Scalar(c)
  {
    if c < 0x80 then [c]
    else if c < 0x800 then [0xC0 + c / 64, 0x80 + c % 64]
    else if c < 0x1_0000 then [0xE0 + c / 64 / 64, 0x80 + c / 64 % 64, 0x80 + c % 64]
    else [0xF0 + c / 64 / 64 / 64, 0x80 + c / 64 / 64 % 64, 0x80 + c / 64 % 64, 0x80 + c % 64]
  }

  function EncodeAll(cs: seq<nat>): Bytes
    requires forall i :: 0 <= i < |cs| ==> Scalar(cs[i])
  {
    if cs == [] then [] else Encode(cs[0]) + EncodeAll(cs[1..])
  }

  lemma EncodedIsCharacter(c: nat, rest: Bytes)
    requires Scalar(c)
    ensures RuneLen(Encode(c) + rest) == |Encode(c)|
    ensures (Encode(c) + rest)[|Encode(c)|..] == rest
  {
  }

  lemma CharacterIsEncoded(s: Bytes) returns (c: nat)
    requires RuneLen(s) > 0
    ensures Scalar(c) && Encode(c) == s[..RuneLen(s)]
  {
    match RuneLen(s)
    case 1 => c := s[0];
    case 2 => c := Append6(Bits(s[0], 0xC0), s[1]);
    case 3 => c := Append6(Append6(Bits(s[0], 0xE0), s[1]), s[2]);
    case _ => c := Append6(Append6(Append6(Bits(s[0], 0xF0), s[1]), s[2]), s[3]);
  }

  /** The six bits of a continuation byte after those read so far. */
  function Append6(c: nat, b: byte): (r: nat)
    requires Continuation(b)
    ensures r / 64 == c && 0x80 + r % 64 == b && r == 64 * c + b - 0x80
  {
    64 * c + Bits(b, 0x80)
  }

  /** What a byte carries past its marker bits. */
  function Bits(b: byte, marker: nat): nat
    requires b >= marker
  {
    b - marker
  }

  lemma {:induction false} EncodedIsValid(cs: seq<nat>)
    requires forall i :: 0 <= i < |cs| ==> Scalar(cs[i])
    ensures Valid(EncodeAll(cs))
  {
    hide RuneLen, Encode;
    if cs != [] {
      EncodedIsValid(cs[1..]);
      EncodedIsCharacter(cs[0], EncodeAll(cs[1..]));
      EncodedHasBytes(cs[0]);
    }
  }

  lemma EncodedHasBytes(c: nat)
    requires Scalar(c)
    ensures |Encode(c)| > 0
  {
  }

  lemma {:induction false} ValidIsEncoded(s: Bytes) returns (cs: seq<nat>)
    requires Valid(s)
    ensures (forall i :: 0 <= i < |cs| ==> Scalar(cs[i])) && EncodeAll(cs) == s
    decreases |s|
  {
    hide RuneLen, Encode;
    if s == [] {
      cs := [];
    } else {
      var c := CharacterIsEncoded(s);
      var rest := ValidIsEncoded(s[RuneLen(s)..]);
      cs := [c] + rest;
      assert cs[1..] == rest;
      assert s == s[..RuneLen(s)] + s[RuneLen(s)..];
    }
  }

  /** A text is valid exactly if it is the encoding of some code points that are no surrogates. */
  lemma ValidIffEncoded(s: Bytes)
    ensures Valid(s) <==> exists cs: seq<nat> :: (forall i :: 0 <= i < |cs| ==> Scalar(cs[i])) && EncodeAll(cs) == s
  {
    hide *;
    if Valid(s) {
      var cs := ValidIsEncoded(s);
    }
    if cs: seq<nat> :| (forall i :: 0 <= i < |cs| ==> Scalar(cs[i])) && EncodeAll(cs) == s {
      EncodedIsValid(cs);
    }
  }

  // ---------------------------------------------------------------- the three truncations

  /** Go's `range` step: a whole character, or one byte where there is none. */
  function Advance(s: Bytes, i: nat): nat
    requires i < |s|
  {
    i + if RuneLen(s[i..]) > 0 then RuneLen(s[i..]) else 1
  }

  /** The scan of `truncateUserAgent` from position `i` on. */
  function LastFit(s: Bytes, cap: nat, i: nat, lastFit: nat): nat
    requires i <= |s|
    decreases |s| - i
  {
    if i == |s| || i > cap then lastFit else LastFit(s, cap, Advance(s, i), i)
  }

  function TruncatedForward(s: Bytes, cap: nat): (r: Bytes)
  {
    var k := LastFit(s, cap, 0, 0);
    if |s| <= cap || k > |s| then s else s[..k]
  }

  method TruncateUserAgent(ua: Bytes, cap: nat) returns (r: Bytes)
    ensures r == TruncatedForward(ua, cap)
  {
    if |ua| <= cap {
      return ua;
    }
    var lastFit: nat, i: nat := 0, 0;
    while i < |ua|
      invariant i <= |ua| && lastFit <= |ua|
      invariant LastFit(ua, cap, i, lastFit) == LastFit(ua, cap, 0, 0)
    {
      if i > cap {
        return ua[..lastFit];
      }
      lastFit := i;
      i := Advance(ua, i);
    }
    return ua[..lastFit];
  }

  /** The longest valid prefix within `n` bytes, counting down. */
  function TrimDown(s: Bytes, n: nat): (k: nat)
    requires n <= |s|
    ensures k <= n
  {
    if n == 0 || Valid(s[..n]) then n else TrimDown(s, n - 1)
  }

  function TruncatedBackward(s: Bytes, maxBytes: nat): Bytes {
    if |s| <= maxBytes then s else s[..TrimDown(s, maxBytes)]
  }

  method TruncateUTF8(s: Bytes, maxBytes: nat) returns (r: Bytes)
    ensures r == TruncatedBackward(s, maxBytes)
  {
    if |s| <= maxBytes {
      return s;
    }
    r := s[..maxBytes];
    while |r| > 0 && !Valid(r)
      invariant |r| <= maxBytes && r == s[..|r|]
      invariant TrimDown(s, |r|) == TrimDown(s, maxBytes)
    {
      r := r[..|r|-1];
    }
  }

  function Clip(s: Bytes, n: nat): Bytes {
    if |s| > n then ToValid(s[..n]) else s
  }

  // ---------------------------------------------------------------- characters and prefixes

  /** Only the character's own bytes decide its length. */
  lemma RuneLenOfPrefix(s: Bytes, n: nat)
    requires n <= |s|
    ensures RuneLen(s[..n]) == if RuneLen(s) <= n then RuneLen(s) else 0
  {
  }

  /** The largest character boundary within `n` bytes of a valid text. */
  function Boundary(s: Bytes, n: nat): (k: nat)
    ensures k <= n && k <= |s|
    decreases |s|
  {
    var r := RuneLen(s);
    if s == [] || r == 0 || r > n then 0 else r + Boundary(s[r..], n - r)
  }

  lemma FirstCharacterOfPrefix(s: Bytes, k: nat)
    requires 0 < k <= |s| && Valid(s[..k])
    ensures 0 < RuneLen(s) <= k && Valid(s[RuneLen(s)..][..k-RuneLen(s)])
  {
    RuneLenOfPrefix(s, k);
    assert s[..k][RuneLen(s)..] == s[RuneLen(s)..][..k-RuneLen(s)];
  }

  lemma PrependCharacter(s: Bytes, k: nat)
    requires 0 < RuneLen(s) <= k <= |s| && Valid(s[RuneLen(s)..][..k-RuneLen(s)])
    ensures Valid(s[..k])
  {
    RuneLenOfPrefix(s, k);
    assert s[..k][RuneLen(s)..] == s[RuneLen(s)..][..k-RuneLen(s)];
  }

  lemma {:induction false} BoundaryIsValid(s: Bytes, n: nat)
    ensures Valid(s[..Boundary(s, n)])
    decreases |s|
  {
    var r, b := RuneLen(s), Boundary(s, n);
    if b > 0 {
      BoundaryIsValid(s[r..], n - r);
      PrependCharacter(s, b);
    } else {
      assert s[..0] == [];
    }
  }

  lemma {:induction false} BoundaryIsLargest(s: Bytes, n: nat, k: nat)
    requires k <= n && k <= |s| && Valid(s[..k])
    ensures k <= Boundary(s, n)
    decreases |s|
  {
    if k > 0 {
      FirstCharacterOfPrefix(s, k);
      var r := RuneLen(s);
      BoundaryIsLargest(s[r..], n - r, k - r);
    }
  }

  lemma {:induction false} BoundaryLosesAtMostThree(s: Bytes, n: nat)
    requires Valid(s)
    ensures if |s| <= n then Boundary(s, n) == |s| else n - Boundary(s, n) <= 3
    decreases |s|
  {
    hide RuneLen;
    var r := RuneLen(s);
    if s != [] && r <= n {
      BoundaryLosesAtMostThree(s[r..], n - r);
    }
  }

  /** Counting down stops at the longest valid prefix, of any text at all. */
  lemma {:induction false} TrimDownIsLongest(s: Bytes, n: nat, k: nat)
    requires k <= n <= |s| && Valid(s[..k])
    ensures k <= TrimDown(s, n) <= n && Valid(s[..TrimDown(s, n)])
  {
    if n > 0 && !Valid(s[..n]) {
      assert k != n;
      TrimDownIsLongest(s, n - 1, k);
    }
  }

  /** The boundary of a text lies past its first character as that of the rest does in the rest. */
  lemma BoundaryStep(s: Bytes, n: nat)
    requires 0 < RuneLen(s) <= n
    ensures var r := RuneLen(s);
            Boundary(s, n) == r + Boundary(s[r..], n - r) && s[Boundary(s, n)..] == s[r..][Boundary(s[r..], n - r)..]
  {
    hide RuneLen;
  }

  lemma {:induction false} BoundaryOfValid(s: Bytes, n: nat)
    requires Valid(s) && n < |s|
    ensures RuneLen(s[Boundary(s, n)..]) > 0
    decreases |s|
  {
    hide RuneLen;
    var r := RuneLen(s);
    if r <= n {
      BoundaryOfValid(s[r..], n - r);
      BoundaryStep(s, n);
    } else {
      assert s[0..] == s;
    }
  }

  lemma {:induction false} ScanMovesOn(s: Bytes, cap: nat, i: nat, lastFit: nat)
    requires i <= cap < |s|
    ensures LastFit(s, cap, i, lastFit) >= i
    decreases |s| - i
  {
    if Advance(s, i) <= cap {
      ScanMovesOn(s, cap, Advance(s, i), i);
    }
  }

  lemma ScanStep(s: Bytes, cap: nat, i: nat, lastFit: nat)
    requires i <= cap < |s|
    ensures LastFit(s, cap, i, lastFit) == if Advance(s, i) <= cap then LastFit(s, cap, Advance(s, i), i) else i
  {
    hide RuneLen;
  }

  lemma BoundaryStops(s: Bytes, n: nat)
    requires !(0 < RuneLen(s) <= n)
    ensures Boundary(s, n) == 0
  {
    hide RuneLen;
  }

  /** Of any text the forward scan keeps the longest valid prefix, and nothing more exactly when that
      prefix reaches the cap or is followed by a character. */
  lemma {:induction false} ForwardScanFindsBoundary(s: Bytes, cap: nat, i: nat, lastFit: nat)
    requires i <= cap < |s|
    ensures var b, k := i + Boundary(s[i..], cap - i), LastFit(s, cap, i, lastFit);
            k >= b && (k == b <==> b == cap || RuneLen(s[b..]) > 0)
    decreases |s| - i
  {
    hide RuneLen, Boundary, LastFit;
    var r := RuneLen(s[i..]);
    ScanStep(s, cap, i, lastFit);
    if 0 < r <= cap - i {
      ForwardScanFindsBoundary(s, cap, i + r, i);
      SliceOfSlice(s, i, r);
      BoundaryStep(s[i..], cap - i);
    } else {
      BoundaryStops(s[i..], cap - i);
      if r == 0 && i < cap {
        ScanMovesOn(s, cap, i + 1, i);
      }
    }
  }

  lemma {:induction false} ContinuationsAreDeleted(s: Bytes)
    requires forall i :: 0 <= i < |s| ==> Continuation(s[i])
    ensures ToValid(s) == []
  {
    if s != [] {
      ContinuationsAreDeleted(s[1..]);
    }
  }

  lemma CutCharacterIsDeleted(s: Bytes, n: nat)
    requires n < RuneLen(s)
    ensures ToValid(s[..n]) == []
  {
    if n > 0 {
      RuneLenOfPrefix(s, n);
      ContinuationsAreDeleted(s[..n][1..]);
    }
  }

  lemma ToValidOfPrefix(s: Bytes, n: nat)
    requires 0 < RuneLen(s) <= n <= |s|
    ensures ToValid(s[..n]) == s[..RuneLen(s)] + ToValid(s[RuneLen(s)..][..n-RuneLen(s)])
  {
    RuneLenOfPrefix(s, n);
    assert s[..n][..RuneLen(s)] == s[..RuneLen(s)];
    assert s[..n][RuneLen(s)..] == s[RuneLen(s)..][..n-RuneLen(s)];
  }

  lemma BoundaryOfPrefix(s: Bytes, n: nat)
    requires 0 < RuneLen(s) <= n
    ensures var r := RuneLen(s); s[..Boundary(s, n)] == s[..r] + s[r..][..Boundary(s[r..], n - r)]
  {
    var r := RuneLen(s);
    var b := Boundary(s[r..], n - r);
    assert Boundary(s, n) == r + b;
  }

  /** Cutting a text and deleting what is invalid leaves its longest valid prefix, when the prefix reaches
      the cut or is followed by a character. */
  lemma {:induction false} DeletingLeavesBoundary(s: Bytes, n: nat)
    requires n <= |s| && (Boundary(s, n) == n || RuneLen(s[Boundary(s, n)..]) > 0)
    ensures ToValid(s[..n]) == s[..Boundary(s, n)]
    decreases |s|
  {
    hide RuneLen, ToValid;
    var r := RuneLen(s);
    if 0 < r <= n {
      BoundaryStep(s, n);
      ToValidOfPrefix(s, n);
      DeletingLeavesBoundary(s[r..], n - r);
      BoundaryOfPrefix(s, n);
    } else {
      assert s[0..] == s;
      CutCharacterIsDeletedOrNothing(s, n);
    }
  }

  lemma CutCharacterIsDeletedOrNothing(s: Bytes, n: nat)
    requires n == 0 || n < RuneLen(s)
    ensures ToValid(s[..n]) == []
  {
    if n > 0 {
      CutCharacterIsDeleted(s, n);
    }
  }

  // ---------------------------------------------------------------- when they agree

  /** For every text and cap: the three caps return the same text exactly when the text fits, its longest
      valid prefix reaches the cap, or a character follows that prefix. The backward trim always
      returns that prefix. */
  lemma TruncationsAgreeIff(s: Bytes, cap: nat)
    ensures TruncatedForward(s, cap) == TruncatedBackward(s, cap) == Clip(s, cap) <==>
            |s| <= cap || Boundary(s, cap) == cap || RuneLen(s[Boundary(s, cap)..]) > 0
    ensures |s| <= cap ==> TruncatedForward(s, cap) == TruncatedBackward(s, cap) == Clip(s, cap) == s
    ensures |s| > cap ==> TruncatedBackward(s, cap) == s[..Boundary(s, cap)]
    ensures |s| > cap ==> Valid(s[..Boundary(s, cap)])
                          && forall k :: 0 <= k <= cap && Valid(s[..k]) ==> k <= Boundary(s, cap)
  {
    hide RuneLen, Valid, Boundary, LastFit, TrimDown, ToValid;
    var b := Boundary(s, cap);
    if |s| > cap {
      BoundaryIsValid(s, cap);
      forall k | 0 <= k <= cap && Valid(s[..k]) ensures k <= b {
        BoundaryIsLargest(s, cap, k);
      }
      TrimDownIsLongest(s, cap, b);
      assert s[0..] == s;
      ForwardScanFindsBoundary(s, cap, 0, 0);
      if b == cap || RuneLen(s[b..]) > 0 {
        DeletingLeavesBoundary(s, cap);
      }
    }
  }

  /** On valid text they always agree: on its longest prefix on a character boundary within the cap, at
      most 3 bytes short of it. */
  lemma TruncationsAgree(s: Bytes, cap: nat)
    requires Valid(s)
    ensures TruncatedForward(s, cap) == TruncatedBackward(s, cap) == Clip(s, cap)
    ensures var r := TruncatedForward(s, cap);
            && r <= s && Valid(r) && |r| <= cap
            && (forall k :: 0 <= k <= cap && k <= |s| && Valid(s[..k]) ==> k <= |r|)
            && (if |s| <= cap then r == s else cap - |r| <= 3)
  {
    hide RuneLen, Valid, Boundary, LastFit, TrimDown, ToValid;
    TruncationsAgreeIff(s, cap);
    BoundaryLosesAtMostThree(s, cap);
    if |s| > cap {
      BoundaryOfValid(s, cap);
    }
  }

  lemma {:induction false} ScanByBytes(s: Bytes, cap: nat, i: nat, lastFit: nat)
    requires i <= cap < |s| && forall j :: i <= j < |s| ==> RuneLen(s[j..]) <= 1
    ensures LastFit(s, cap, i, lastFit) == cap
    decreases |s| - i
  {
    if i < cap {
      ScanByBytes(s, cap, i + 1, i);
    }
  }

  /** At every cap one stray byte makes them give three different answers: it stops the backward trim, is
      kept by the forward scan and deleted by the clip. */
  lemma TruncationsDifferOnInvalidText(cap: nat)
    requires cap > 1
    ensures var letters: Bytes := seq(cap, _ => 0x41);
            var s: Bytes := [0x80] + letters;
            && TruncatedForward(s, cap) == [0x80] + letters[1..]
            && TruncatedBackward(s, cap) == []
            && Clip(s, cap) == letters[1..]
  {
    var letters: Bytes := seq(cap, _ => 0x41);
    var s: Bytes := [0x80] + letters;
    assert Boundary(s, cap) == 0;
    TruncationsAgreeIff(s, cap);
    forall j | 0 <= j < |s| ensures RuneLen(s[j..]) <= 1 {
      assert s[j..][0] == s[j];
    }
    ScanByBytes(s, cap, 0, 0);
    assert s[..cap] == [0x80] + letters[1..] && s[..cap][1..] == letters[1..];
    AsciiIsValid(letters[1..]);
    ValidIsKept(letters[1..]);
    assert RuneLen(s[..cap]) == 0;
  }

  // ---------------------------------------------------------------- head and tail of a span message

  const MARKER: Bytes := [0x20, 0x5B, 0x2E, 0x2E, 0x2E, 0x5D, 0x20]

  /** The length cap of `sanitizeSpanMessage`. */
  function CapMessage(msg: Bytes, max: nat): Bytes
    requires max >= |MARKER|
  {
    if |msg| <= max then msg
    else
      var keep := (max - |MARKER|) / 2;
      ToValid(msg[..keep]) + MARKER + ToValid(msg[|msg|-keep..])
  }

  lemma {:induction false} ConcatOfValid(a: Bytes, b: Bytes)
    requires Valid(a) && Valid(b)
    ensures Valid(a + b)
    decreases |a|
  {
    if a == [] {
      assert a + b == b;
    } else {
      var r := RuneLen(a);
      assert (a + b)[..|a|] == a;
      RuneLenOfPrefix(a + b, |a|);
      assert (a + b)[r..] == a[r..] + b;
      ConcatOfValid(a[r..], b);
    }
  }

  lemma {:induction false} ToValidIsValid(s: Bytes)
    ensures Valid(ToValid(s))
    decreases |s|
  {
    if s != [] {
      var n := RuneLen(s);
      if n > 0 {
        ToValidIsValid(s[n..]);
        RuneLenOfPrefix(s, n);
        assert s[..n][n..] == [];
        ConcatOfValid(s[..n], ToValid(s[n..]));
      } else {
        ToValidIsValid(s[1..]);
      }
    }
  }

  lemma {:induction false} ValidIsKept(s: Bytes)
    requires Valid(s)
    ensures ToValid(s) == s
    decreases |s|
  {
    if s != [] {
      ValidIsKept(s[RuneLen(s)..]);
    }
  }

  lemma TailInsideFirstCharacter(s: Bytes, from: nat)
    requires Valid(s) && 0 < from < RuneLen(s)
    ensures ToValid(s[from..]) == s[RuneLen(s)..]
  {
    hide RuneLen, ToValid;
    LeadingContinuations(s, from);
    ValidIsKept(s[RuneLen(s)..]);
  }

  lemma SliceOfSlice(s: Bytes, a: nat, b: nat)
    requires a + b <= |s|
    ensures s[a..][b..] == s[a + b..]
  {
  }

  /** Cutting a valid text anywhere and deleting what became invalid drops at most 3 leading bytes. */
  lemma {:induction false} TailIsSuffix(s: Bytes, from: nat) returns (j: nat)
    requires Valid(s) && from <= |s|
    ensures from <= j <= |s| && j <= from + 3 && ToValid(s[from..]) == s[j..]
    decreases |s|
  {
    hide RuneLen, ToValid;
    var r := RuneLen(s);
    if from == 0 {
      assert s[0..] == s;
      ValidIsKept(s);
      j := 0;
    } else if from >= r {
      j := TailIsSuffix(s[r..], from - r);
      SliceOfSlice(s, r, from - r);
      SliceOfSlice(s, r, j);
      j := r + j;
    } else {
      TailInsideFirstCharacter(s, from);
      j := r;
    }
  }

  lemma {:induction false} LeadingContinuations(s: Bytes, from: nat)
    requires 0 < from <= RuneLen(s)
    ensures ToValid(s[from..]) == ToValid(s[RuneLen(s)..])
    decreases RuneLen(s) - from
  {
    if from < RuneLen(s) {
      assert Continuation(s[from]) && s[from..][0] == s[from];
      assert RuneLen(s[from..]) == 0;
      assert s[from..][1..] == s[from + 1..];
      LeadingContinuations(s, from + 1);
    }
  }

  /** A message that fits is kept. Any other is cut to fit and valid whatever came in; a valid one keeps
      a prefix and a suffix of itself around the marker, each at most 3 bytes short of its half. */
  lemma CappedMessageKeepsHeadAndTail(msg: Bytes, max: nat) returns (k: nat, j: nat)
    requires max >= |MARKER|
    ensures |CapMessage(msg, max)| <= max
    ensures |msg| <= max ==> CapMessage(msg, max) == msg
    ensures |msg| > max ==> Valid(CapMessage(msg, max))
    ensures var keep := (max - |MARKER|) / 2;
            |msg| > max && Valid(msg) ==>
              && k <= j <= |msg| && CapMessage(msg, max) == msg[..k] + MARKER + msg[j..]
              && keep - 3 <= k <= keep && keep - 3 <= |msg| - j <= keep
  {
    hide Valid, ToValid, RuneLen, MARKER;
    k, j := 0, 0;
    if |msg| > max {
      var keep := (max - |MARKER|) / 2;
      CappedIsValid(msg[..keep], msg[|msg|-keep..]);
      if Valid(msg) {
        k, j := HeadAndTail(msg, keep);
      }
    }
  }

  lemma HeadIsPrefix(msg: Bytes, keep: nat) returns (k: nat)
    requires Valid(msg) && keep < |msg|
    ensures keep - 3 <= k <= keep && ToValid(msg[..keep]) == msg[..k]
  {
    hide *;
    BoundaryOfValid(msg, keep);
    DeletingLeavesBoundary(msg, keep);
    BoundaryLosesAtMostThree(msg, keep);
    k := Boundary(msg, keep);
  }

  lemma HeadAndTail(msg: Bytes, keep: nat) returns (k: nat, j: nat)
    requires Valid(msg) && 2 * keep <= |msg| && keep < |msg|
    ensures keep - 3 <= k <= keep && keep - 3 <= |msg| - j <= keep && k <= j <= |msg|
    ensures ToValid(msg[..keep]) == msg[..k] && ToValid(msg[|msg|-keep..]) == msg[j..]
  {
    hide *;
    k := HeadIsPrefix(msg, keep);
    j := TailIsSuffix(msg, |msg| - keep);
  }

  lemma CappedIsValid(head: Bytes, tail: Bytes)
    ensures Valid(ToValid(head) + MARKER + ToValid(tail))
  {
    ToValidIsValid(head);
    ToValidIsValid(tail);
    MarkerIsValid();
    ConcatOfValid(ToValid(head), MARKER);
    ConcatOfValid(ToValid(head) + MARKER, ToValid(tail));
  }

  lemma MarkerIsValid()
    ensures Valid(MARKER)
  {
    hide Valid, RuneLen;
    AsciiIsValid(MARKER);
  }

  lemma {:induction false} AsciiIsValid(s: Bytes)
    requires forall i :: 0 <= i < |s| ==> s[i] <= 0x7F
    ensures Valid(s)
  {
    if s != [] {
      AsciiIsValid(s[1..]);
    }
  }
}
