/** `tracing/processor.go`: baggage attributes as the base and the request's attribute bag as the
    override, each redacted by key before it is written to a new span. */
module SpanOverlay {
  import opened Wrappers
  import opened Attributes
  import opened RedactionTree

  function LastDot(key: string, n: nat): int
    requires n <= |key|
    ensures -1 <= LastDot(key, n) < n
  {
    if n == 0 then -1 else if key[n-1] == '.' then n - 1 else LastDot(key, n - 1)
  }

  /** What follows the last dot of a key, or the whole key when nothing does. */
  function FieldName(key: string): string {
    var idx := LastDot(key, |key|);
    if idx >= 0 && idx + 1 < |key| then key[idx+1..] else key
  }

  function RedactValue(r: Redactor, key: string, value: string): Option<string> {
    match ActionFor(r, key, FieldName(key))
    case None => Some(value)
    case Some(Drop) => None
    case Some(Hash) => Some(r.hash(value))
    case Some(Mask) => Some(r.maskValue)
  }

  function RedactAttrs(r: Redactor, attrs: seq<Attr>): seq<Attr> {
    if attrs == [] then []
    else
      var rest := attrs[..|attrs|-1];
      var last := attrs[|attrs|-1];
      var v := RedactValue(r, last.key, last.value);
      if v.None? then RedactAttrs(r, rest) else RedactAttrs(r, rest) + [Attr(last.key, v.value)]
  }

  method RedactAttributesByKey(r: Redactor, attrs: seq<Attr>) returns (redacted: seq<Attr>)
    ensures redacted == RedactAttrs(r, attrs)
  {
    redacted := [];
    for i := 0 to |attrs|
      invariant redacted == RedactAttrs(r, attrs[..i])
    {
      var attr := attrs[i];
      assert attrs[..i+1][..i] == attrs[..i];
      var action := FindAction(Some(r), attr.key, FieldName(attr.key));
      match action
      case None => redacted := redacted + [attr];
      case Some(Drop) =>
      case Some(Hash) => redacted := redacted + [Attr(attr.key, r.hash(attr.value))];
      case Some(Mask) => redacted := redacted + [Attr(attr.key, r.maskValue)];
    }
    assert attrs[..|attrs|] == attrs;
  }

  /** `SetAttributes`: last write per key wins. */
  function Write(span: map<string, string>, attrs: seq<Attr>): map<string, string> {
    if attrs == [] then span
    else Write(span, attrs[..|attrs|-1])[attrs[|attrs|-1].key := attrs[|attrs|-1].value]
  }

  class Span {
    var attrs: map<string, string>

    constructor (attrs: map<string, string>)
      ensures this.attrs == attrs
    {
      this.attrs := attrs;
    }

    method SetAttributes(kv: seq<Attr>)
      modifies this
      ensures attrs == Write(old(attrs), kv)
    {
      for i := 0 to |kv|
        invariant attrs == Write(old(attrs), kv[..i])
      {
        attrs := attrs[kv[i].key := kv[i].value];
        assert kv[..i+1][..i] == kv[..i];
      }
      assert kv[..|kv|] == kv;
    }

    /** `RedactingAttrBagSpanProcessor.OnStart`; without a redactor, `AttrBagSpanProcessor.OnStart`. */
    method OnStart(base: seq<Attr>, bag: seq<Attr>, redactor: Option<Redactor>)
      modifies this
      ensures attrs == OnStartSpec(old(attrs), base, bag, redactor)
    {
      if |base| == 0 && |bag| == 0 {
        return;
      }
      var b, kv := base, bag;
      if redactor.Some? {
        b := RedactAttributesByKey(redactor.value, b);
        kv := RedactAttributesByKey(redactor.value, kv);
      }
      if |b| > 0 {
        SetAttributes(b);
      }
      if |kv| > 0 {
        SetAttributes(kv);
      }
    }
  }

  function OnStartSpec(span: map<string, string>, base: seq<Attr>, bag: seq<Attr>,
                       redactor: Option<Redactor>): map<string, string> {
    match redactor
    case None => Write(Write(span, base), bag)
    case Some(r) => Write(Write(span, RedactAttrs(r, base)), RedactAttrs(r, bag))
  }

  // ---------------------------------------------------------------- commutation

  /** The value a list of attributes gives a key: the last one it holds. */
  function Last(attrs: seq<Attr>, key: string): Option<string> {
    if attrs == [] then None
    else if attrs[|attrs|-1].key == key then Some(attrs[|attrs|-1].value)
    else Last(attrs[..|attrs|-1], key)
  }

  function Get(span: map<string, string>, key: string): Option<string> {
    if key in span then Some(span[key]) else None
  }

  lemma {:induction false} WriteKeepsLast(span: map<string, string>, attrs: seq<Attr>, key: string)
    ensures Get(Write(span, attrs), key) == if Last(attrs, key).Some? then Last(attrs, key) else Get(span, key)
  {
    if attrs != [] {
      WriteKeepsLast(span, attrs[..|attrs|-1], key);
    }
  }

  lemma {:induction false} LastOfRedacted(r: Redactor, attrs: seq<Attr>, key: string)
    ensures Last(RedactAttrs(r, attrs), key) ==
            match Last(attrs, key) case None => None case Some(v) => RedactValue(r, key, v)
  {
    if attrs != [] {
      var rest, last := attrs[..|attrs|-1], attrs[|attrs|-1];
      var v := RedactValue(r, last.key, last.value);
      if v.Some? {
        LastOfAppend(RedactAttrs(r, rest), Attr(last.key, v.value), key);
      }
      if last.key != key {
        LastOfRedacted(r, rest, key);
      } else if v.None? {
        OnlyDropRemoves(r, key, last.value);
        DroppedKeyHasNoLast(r, rest, key);
      }
    }
  }

  lemma OnlyDropRemoves(r: Redactor, key: string, value: string)
    ensures RedactValue(r, key, value).None? <==> ActionFor(r, key, FieldName(key)) == Some(Drop)
  {
  }

  lemma LastOfAppend(attrs: seq<Attr>, a: Attr, key: string)
    ensures Last(attrs + [a], key) == if a.key == key then Some(a.value) else Last(attrs, key)
  {
    assert (attrs + [a])[..|attrs|] == attrs;
  }

  lemma {:induction false} DroppedKeyHasNoLast(r: Redactor, attrs: seq<Attr>, key: string)
    requires ActionFor(r, key, FieldName(key)) == Some(Drop)
    ensures Last(RedactAttrs(r, attrs), key).None?
  {
    if attrs != [] {
      var rest, last := attrs[..|attrs|-1], attrs[|attrs|-1];
      DroppedKeyHasNoLast(r, rest, key);
      var v := RedactValue(r, last.key, last.value);
      if v.Some? {
        LastOfAppend(RedactAttrs(r, rest), Attr(last.key, v.value), key);
      }
    }
  }

  /** For every key, whatever the rules and however often it is repeated: the span ends up with the
      redaction of the override's last value if the bag has the key, else of the base's, else with
      what it had; a dropped key is left as the span had it. */
  lemma RedactionCommutesWithOverlay(r: Redactor, span: map<string, string>, base: seq<Attr>, bag: seq<Attr>,
                                     key: string)
    ensures var winner := if Last(bag, key).Some? then Last(bag, key) else Last(base, key);
            var redacted := match winner case None => None case Some(v) => RedactValue(r, key, v);
            Get(OnStartSpec(span, base, bag, Some(r)), key) == if redacted.Some? then redacted else Get(span, key)
  {
    var b, kv := RedactAttrs(r, base), RedactAttrs(r, bag);
    WriteKeepsLast(Write(span, b), kv, key);
    WriteKeepsLast(span, b, key);
    LastOfRedacted(r, base, key);
    LastOfRedacted(r, bag, key);
  }

  /** What a span shows under any key: the last value the bag has for it, else the base's, masked, hashed
      or left as the first matching rule says; where neither has the key, or it is dropped, what the
      span had before. */
  lemma WhatTheSpanShows(redactor: Option<Redactor>, span: map<string, string>, base: seq<Attr>, bag: seq<Attr>,
                         key: string)
    ensures var winner := if Last(bag, key).Some? then Last(bag, key) else Last(base, key);
            var action := if redactor.None? then None else ActionFor(redactor.value, key, FieldName(key));
            Get(OnStartSpec(span, base, bag, redactor), key) ==
            if winner.None? || action == Some(Drop) then Get(span, key)
            else if action == Some(Mask) then Some(redactor.value.maskValue)
            else if action == Some(Hash) then Some(redactor.value.hash(winner.value))
            else winner
  {
    match redactor
    case None =>
      WriteKeepsLast(Write(span, base), bag, key);
      WriteKeepsLast(span, base, key);
    case Some(r) =>
      RedactionCommutesWithOverlay(r, span, base, bag, key);
  }

  lemma {:induction false} LastDotIsLast(key: string, n: nat)
    requires n <= |key|
    ensures LastDot(key, n) >= 0 ==> key[LastDot(key, n)] == '.'
    ensures forall i :: LastDot(key, n) < i < n ==> key[i] != '.'
  {
    if n > 0 && key[n-1] != '.' {
      LastDotIsLast(key, n - 1);
    }
  }

  /** The field a key names: what follows its last dot, or the whole key if it has no dot or ends in one. */
  lemma FieldNameIff(key: string, field: string)
    ensures FieldName(key) == field <==>
            if '.' in key && key[|key|-1] != '.'
            then field != "" && '.' !in field && exists prefix :: key == prefix + "." + field
            else field == key
  {
    var n := LastDot(key, |key|);
    LastDotIsLast(key, |key|);
    if '.' in key && key[|key|-1] != '.' {
      assert key == key[..n] + "." + key[n+1..];
      if prefix :| key == prefix + "." + field && field != "" && '.' !in field {
        assert key[|prefix|] == '.';
        assert forall i :: |prefix| < i < |key| ==> key[i] == field[i - |prefix| - 1];
        assert n == |prefix| && key[n+1..] == field;
      }
    } else if '.' in key {
      assert n == |key| - 1;
    }
  }

  /** So redacting after the overlay, key by key, gives the very same span. */
  lemma OverlayThenRedact(r: Redactor, base: seq<Attr>, bag: seq<Attr>)
    ensures var plain := OnStartSpec(map[], base, bag, None);
            OnStartSpec(map[], base, bag, Some(r)) ==
            map k | k in plain && RedactValue(r, k, plain[k]).Some? :: RedactValue(r, k, plain[k]).value
  {
    var plain := OnStartSpec(map[], base, bag, None);
    var written := OnStartSpec(map[], base, bag, Some(r));
    var redacted := map k | k in plain && RedactValue(r, k, plain[k]).Some? :: RedactValue(r, k, plain[k]).value;
    forall k: string ensures Get(written, k) == Get(redacted, k) {
      RedactionCommutesWithOverlay(r, map[], base, bag, k);
      WriteKeepsLast(Write(map[], base), bag, k);
      WriteKeepsLast(map[], base, k);
    }
    forall k: string ensures (k in written <==> k in redacted) && (k in written ==> written[k] == redacted[k]) {
      assert Get(written, k) == Get(redacted, k);
    }
  }
}
