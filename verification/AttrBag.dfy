/** The request-wide attribute bag of `observability.go`: a derived context gets its own copy of a bag
    that is not empty, into which new attributes are merged in place, last value winning. */
module AttrBag {
  import opened Attributes
  import opened Wrappers

  // ---------------------------------------------------------------- the merge as a function

  function IndexOf(bag: seq<Attr>, key: string): (i: nat)
    ensures i <= |bag|
    ensures i < |bag| ==> bag[i].key == key
    ensures forall j :: 0 <= j < i ==> bag[j].key != key
  {
    if bag == [] then 0 else if bag[0].key == key then 0 else 1 + IndexOf(bag[1..], key)
  }

  function MergeOne(bag: seq<Attr>, attr: Attr): seq<Attr> {
    var i := IndexOf(bag, attr.key);
    if i < |bag| then bag[i := attr] else bag + [attr]
  }

  function Merge(bag: seq<Attr>, incoming: seq<Attr>): seq<Attr> {
    if incoming == [] then bag else MergeOne(Merge(bag, incoming[..|incoming|-1]), incoming[|incoming|-1])
  }

  // ---------------------------------------------------------------- contexts

  /** `ContextValue`, of which only the bag matters here: a Go slice, that is, an array and a length. */
  class ContextValue {
    var slots: array<Attr>
    var len: nat

    predicate Valid()
      reads this
    {
      len <= slots.Length
    }

    function Bag(): seq<Attr>
      requires Valid()
      reads this, slots
    {
      slots[..len]
    }

    /** An empty bag with room to append into: the one kind `cloneContextValues` does not copy but could. */
    predicate Shares()
      reads this
    {
      len == 0 && slots.Length > 0
    }

    /** What writing to the bag in place can touch. */
    function Room(): set<object>
      reads this
    {
      if slots.Length > 0 then {slots} else {}
    }

    /** `cloneContextValues`: a bag that is not empty is copied, an empty one keeps its array. */
    constructor Clone(existing: ContextValue?)
      requires existing != null ==> existing.Valid()
      ensures Valid() && Bag() == if existing == null then [] else existing.Bag()
      ensures if existing != null && existing.len == 0 then slots == existing.slots else fresh(slots)
    {
      if existing == null {
        slots, len := new Attr[0], 0;
      } else if existing.len > 0 {
        var copy := new Attr[existing.len](i requires existing.Valid() && 0 <= i < existing.len
                                             reads existing, existing.slots
                                           => existing.slots[i]);
        slots, len := copy, existing.len;
      } else {
        slots, len := existing.slots, 0;
      }
      new;
      assert existing != null ==> Bag() == existing.Bag();
    }

    /** Go's `append` of one element: in place while there is room, else into a larger array. */
    method Append(attr: Attr)
      requires Valid()
      modifies this, Room()
      ensures Valid() && Bag() == old(Bag()) + [attr]
      ensures if old(len) < old(slots).Length then slots == old(slots) else fresh(slots)
      ensures forall i :: 0 <= i < old(len) ==> old(slots)[i] == old(slots[i])
    {
      if len == slots.Length {
        var old' := slots[..];
        var grown := new Attr[2 * len + 1](i => if 0 <= i < |old'| then old'[i] else attr);
        slots := grown;
      } else {
        slots[len] := attr;
      }
      len := len + 1;
    }

    /** One round of `mergeAttrBagLastWins`: over the key's value if it is there, else at the end. */
    method MergeAttr(attr: Attr)
      requires Valid()
      modifies this, Room()
      ensures Valid() && Bag() == MergeOne(old(Bag()), attr) && len > 0 && len >= old(len)
      ensures if len <= old(slots).Length then slots == old(slots) else fresh(slots)
      ensures old(len) > 0 ==> old(slots)[0].key == old(slots[0]).key
    {
      var i := 0;
      while i < len && slots[i].key != attr.key
        invariant i <= len
        invariant forall j :: 0 <= j < i ==> Bag()[j].key != attr.key
      {
        i := i + 1;
      }
      FirstIndex(Bag(), attr.key, i);
      if i < len {
        slots[i] := attr;
        assert Bag() == old(Bag())[i := attr];
      } else {
        Append(attr);
      }
    }

    /** `mergeAttrBagLastWins`. While the bag fits it stays in its array; an empty bag with room writes
        the first new key into slot 0 of that array whatever happens next. */
    method MergeLastWins(incoming: seq<Attr>)
      requires Valid()
      modifies this, Room()
      ensures Valid() && Bag() == Merge(old(Bag()), incoming)
      ensures if len <= old(slots).Length then slots == old(slots) else fresh(slots)
      ensures old(Shares()) && incoming != [] ==> old(slots)[0].key == incoming[0].key
    {
      hide MergeOne;
      ghost var mine := slots;
      for n := 0 to |incoming|
        invariant Valid() && Bag() == Merge(old(Bag()), incoming[..n])
        invariant if len <= mine.Length then slots == mine else fresh(slots)
        invariant n == 0 ==> len == old(len) && slots == mine
        invariant old(Shares()) && n > 0 ==> len > 0 && mine[0].key == incoming[0].key
      {
        assert incoming[..n+1][..n] == incoming[..n];
        MergeAttr(incoming[n]);
        if n == 0 && old(Shares()) {
          FirstMerged(incoming[0]);
          assert slots == mine && Bag()[0] == incoming[0];
        }
      }
      assert incoming[..|incoming|] == incoming;
    }
  }

  lemma FirstMerged(attr: Attr)
    ensures MergeOne([], attr) == [attr]
  {
  }

  lemma FirstIndex(bag: seq<Attr>, key: string, i: nat)
    requires i <= |bag| && (i < |bag| ==> bag[i].key == key)
    requires forall j :: 0 <= j < i ==> bag[j].key != key
    ensures IndexOf(bag, key) == i
  {
  }

  function BagOf(ctx: ContextValue?): seq<Attr>
    requires ctx != null ==> ctx.Valid()
    reads ctx, if ctx == null then {} else {ctx.slots}
  {
    if ctx == null then [] else ctx.Bag()
  }

  /** A context whose derivations cannot be seen from anywhere else. */
  predicate Isolates(ctx: ContextValue?)
    reads ctx
  {
    ctx == null || !ctx.Shares()
  }

  /** Returns a new context holding the merged bag. It modifies nothing that existed before, and so no bag
      seen through another context, for every `kv` if and only if the parent isolates: otherwise its
      array, which its other derivations may hold, gets the first new key in its first slot. */
  method ContextWithSpanAttributes(ctx: ContextValue?, kv: seq<Attr>) returns (derived: ContextValue?)
    requires ctx != null ==> ctx.Valid()
    modifies if Isolates(ctx) then {} else {ctx.slots}
    ensures derived != null ==> derived.Valid()
    ensures BagOf(derived) == Merge(old(BagOf(ctx)), kv)
    ensures if kv == [] then derived == ctx else derived != null && fresh(derived) && derived.len > 0
    ensures kv != [] && Isolates(ctx) ==> fresh(derived.slots)
    ensures kv != [] && !Isolates(ctx) ==> ctx.slots[0].key == kv[0].key
    ensures kv != [] && !Isolates(ctx) && derived.len <= ctx.slots.Length ==> derived.slots == ctx.slots
  {
    if |kv| == 0 {
      return ctx;
    }
    var values := new ContextValue.Clone(ctx);
    assert BagOf(ctx) == old(BagOf(ctx));
    values.MergeLastWins(kv);
    assert |Merge(old(BagOf(ctx)), kv)| > 0;
    return values;
  }

  /** The other half: whatever two different attributes are derived from such a parent, the second
      derivation changes the bag the first one shows. */
  method SiblingsShareTheirBag(ctx: ContextValue, a: Attr, b: Attr)
    returns (first: ContextValue, shown: seq<Attr>, second: ContextValue)
    requires ctx.Valid() && !Isolates(ctx)
    modifies ctx.slots
    ensures first.Valid() && second.Valid() && first != second
    ensures shown == [a] && first.Bag() == [b] && second.Bag() == [b]
  {
    assert Merge([], [a]) == [a] && Merge([], [b]) == [b] by {
      assert [a][..0] == [] && [b][..0] == [];
    }
    assert ctx.Bag() == [];
    var one := ContextWithSpanAttributes(ctx, [a]);
    first, shown := one, one.slots[..one.len];
    assert ctx.Bag() == [];
    var two := ContextWithSpanAttributes(ctx, [b]);
    second := two;
  }

  function Flatten(calls: seq<seq<Attr>>): seq<Attr> {
    if calls == [] then [] else Flatten(calls[..|calls|-1]) + calls[|calls|-1]
  }

  lemma FlattenStep(calls: seq<seq<Attr>>, n: nat)
    requires n < |calls|
    ensures Flatten(calls[..n+1]) == Flatten(calls[..n]) + calls[n]
  {
    assert calls[..n+1][..n] == calls[..n];
  }

  /** What every context on a chain from the empty one is: absent, or holding a bag that is not empty. */
  ghost predicate Shows(ctx: ContextValue?, bag: seq<Attr>)
    reads ctx, if ctx == null then {} else {ctx.slots}
  {
    (ctx != null ==> ctx.Valid() && ctx.len > 0) && BagOf(ctx) == bag
  }

  /** A derivation on such a chain touches nothing that was there. */
  method Derive(ctx: ContextValue?, ghost bag: seq<Attr>, kv: seq<Attr>) returns (derived: ContextValue?)
    requires Shows(ctx, bag)
    ensures Shows(derived, Merge(bag, kv))
  {
    derived := ContextWithSpanAttributes(ctx, kv);
  }

  /** A chain of derivations from the empty context: when it is over, every context on the way still
      shows the merge of exactly the calls made before it. */
  method DeriveChain(calls: seq<seq<Attr>>) returns (contexts: seq<ContextValue?>)
    ensures |contexts| == |calls| + 1
    ensures forall i :: 0 <= i <= |calls| ==> Shows(contexts[i], Merge([], Flatten(calls[..i])))
  {
    contexts := [null];
    assert Shows(null, Merge([], Flatten(calls[..0])));
    hide Merge, Flatten, Shows;
    for n := 0 to |calls|
      invariant |contexts| == n + 1
      invariant forall i :: 0 <= i <= n ==> Shows(contexts[i], Merge([], Flatten(calls[..i])))
    {
      var derived := Derive(contexts[n], Merge([], Flatten(calls[..n])), calls[n]);
      FlattenStep(calls, n);
      MergeComposes([], Flatten(calls[..n]), calls[n]);
      contexts := contexts + [derived];
    }
  }

  // ---------------------------------------------------------------- what the merge keeps

  function Keys(bag: seq<Attr>): (ks: seq<string>)
    ensures |ks| == |bag|
    ensures forall i :: 0 <= i < |bag| ==> ks[i] == bag[i].key
  {
    seq(|bag|, i requires 0 <= i < |bag| => bag[i].key)
  }

  predicate UniqueKeys(bag: seq<Attr>) {
    forall i, j :: 0 <= i < j < |bag| ==> bag[i].key != bag[j].key
  }

  /** First-match lookup, as `tenantIDFromAttrBag` does it. */
  function Lookup(bag: seq<Attr>, key: string): Option<string> {
    var i := IndexOf(bag, key);
    if i < |bag| then Some(bag[i].value) else None
  }

  function LastValue(kv: seq<Attr>, key: string): Option<string> {
    if kv == [] then None
    else if kv[|kv|-1].key == key then Some(kv[|kv|-1].value)
    else LastValue(kv[..|kv|-1], key)
  }

  /** Each key once, in the order of its first occurrence. */
  function FirstOccurrences(ks: seq<string>): seq<string> {
    if ks == [] then []
    else
      var rest := FirstOccurrences(ks[..|ks|-1]);
      if ks[|ks|-1] in rest then rest else rest + [ks[|ks|-1]]
  }

  /** Merging twice is merging the concatenation. */
  lemma {:induction false} MergeComposes(bag: seq<Attr>, x: seq<Attr>, y: seq<Attr>)
    ensures Merge(Merge(bag, x), y) == Merge(bag, x + y)
  {
    if y == [] {
      assert x + y == x;
    } else {
      assert (x + y)[..|x + y|-1] == x + y[..|y|-1];
      MergeComposes(bag, x, y[..|y|-1]);
    }
  }

  lemma LookupAfterMergeOne(bag: seq<Attr>, attr: Attr, key: string)
    ensures Lookup(MergeOne(bag, attr), key) == if attr.key == key then Some(attr.value) else Lookup(bag, key)
  {
    var merged := MergeOne(bag, attr);
    var i := IndexOf(bag, key);
    if attr.key == key || i < |bag| {
      FirstIndex(merged, key, i);
    } else {
      FirstIndex(merged, key, |merged|);
    }
  }

  /** Lookup finds the last value written, by this merge or before it. */
  lemma {:induction false} LookupFindsLastWritten(bag: seq<Attr>, kv: seq<Attr>, key: string)
    ensures Lookup(Merge(bag, kv), key) == if LastValue(kv, key).Some? then LastValue(kv, key) else Lookup(bag, key)
  {
    if kv != [] {
      var rest := kv[..|kv|-1];
      LookupFindsLastWritten(bag, rest, key);
      LookupAfterMergeOne(Merge(bag, rest), kv[|kv|-1], key);
    }
  }

  lemma {:induction false} FirstOccurrencesOfUnique(ks: seq<string>)
    requires forall i, j :: 0 <= i < j < |ks| ==> ks[i] != ks[j]
    ensures FirstOccurrences(ks) == ks
  {
    if ks != [] {
      FirstOccurrencesOfUnique(ks[..|ks|-1]);
    }
  }

  lemma KeysOfMergeOne(bag: seq<Attr>, attr: Attr)
    requires UniqueKeys(bag)
    ensures UniqueKeys(MergeOne(bag, attr))
    ensures Keys(MergeOne(bag, attr)) == if attr.key in Keys(bag) then Keys(bag) else Keys(bag) + [attr.key]
  {
    var i := IndexOf(bag, attr.key);
    if i < |bag| {
      assert Keys(bag)[i] == attr.key;
    }
  }

  /** Keys stay unique and keep the position of their first insertion. */
  lemma {:induction false} KeysKeepFirstPositions(bag: seq<Attr>, kv: seq<Attr>)
    requires UniqueKeys(bag)
    ensures UniqueKeys(Merge(bag, kv))
    ensures Keys(Merge(bag, kv)) == FirstOccurrences(Keys(bag) + Keys(kv))
    ensures Keys(bag) <= Keys(Merge(bag, kv))
  {
    var all := Keys(bag) + Keys(kv);
    if kv == [] {
      assert all == Keys(bag);
      FirstOccurrencesOfUnique(Keys(bag));
    } else {
      var rest, last := kv[..|kv|-1], kv[|kv|-1];
      KeysKeepFirstPositions(bag, rest);
      KeysOfMergeOne(Merge(bag, rest), last);
      assert all[..|all|-1] == Keys(bag) + Keys(rest);
      assert all[|all|-1] == last.key;
    }
  }

  /** From an empty bag, any sequence of calls: keys unique, in first-insertion order, each holding the
      last value any call gave it. */
  lemma BagAfterAnyCalls(calls: seq<seq<Attr>>, key: string)
    ensures var bag := Merge([], Flatten(calls));
            && UniqueKeys(bag) && Keys(bag) == FirstOccurrences(Keys(Flatten(calls)))
            && Lookup(bag, key) == LastValue(Flatten(calls), key)
  {
    var kv := Flatten(calls);
    KeysKeepFirstPositions([], kv);
    assert Keys([]) + Keys(kv) == Keys(kv);
    LookupFindsLastWritten([], kv, key);
  }
}
