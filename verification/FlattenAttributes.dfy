/** The bounded flattening of decoded JSON into span attributes, `tracing/otel.go`. An object is the
    list of its entries in the order one iteration of the Go map happens to visit them, so what holds
    for every tree here holds for every iteration order. */
module FlattenAttributes {
  import opened Attributes
  import opened Decimals
  import opened RedactionTree

  const MAX_DEPTH := 32
  const MAX_COUNT := 128

  /** `Leaf` is any non-null scalar, with the attribute value it turns into. */
  datatype Node = Nil | Leaf(value: string) | List(items: seq<Node>) | Dict(entries: seq<Entry>)

  datatype Entry = Entry(key: string, child: Node)

  function ResolveKey(prefix: string, fallback: string): string {
    if prefix == "" then fallback else prefix
  }

  function EntryPrefix(prefix: string, key: string): string {
    if prefix == "" then key else prefix + "." + key
  }

  function IndexPrefix(prefix: string, i: nat): string {
    ResolveKey(prefix, "item") + "." + Digits(i)
  }

  // ---------------------------------------------------------------- the recursion

  function Flattened(attrs: seq<Attr>, prefix: string, value: Node, depth: nat): seq<Attr>
    decreases value, 2, 0
  {
    if depth >= MAX_DEPTH || |attrs| >= MAX_COUNT then attrs
    else
      match value
      case Dict(entries) => FlattenedEntries(attrs, prefix, entries, depth)
      case List(items) => FlattenedItems(attrs, prefix, items, 0, depth)
      case Leaf(v) => attrs + [Attr(ResolveKey(prefix, "value"), v)]
      case Nil => attrs
  }

  function FlattenedEntry(attrs: seq<Attr>, prefix: string, e: Entry, depth: nat): seq<Attr>
    decreases e, 0, 0
  {
    Flattened(attrs, EntryPrefix(prefix, e.key), e.child, depth + 1)
  }

  function FlattenedEntries(attrs: seq<Attr>, prefix: string, entries: seq<Entry>, depth: nat): seq<Attr>
    decreases entries, 1, 0
  {
    if entries == [] then attrs
    else FlattenedEntries(FlattenedEntry(attrs, prefix, entries[0], depth), prefix, entries[1..], depth)
  }

  function FlattenedItems(attrs: seq<Attr>, prefix: string, items: seq<Node>, from: nat, depth: nat): seq<Attr>
    requires from <= |items|
    decreases items, 1, |items| - from
  {
    if from == |items| then attrs
    else
      var attrs' := Flattened(attrs, IndexPrefix(prefix, from), items[from], depth + 1);
      FlattenedItems(attrs', prefix, items, from + 1, depth)
  }

  /** The attribute slice the recursion appends to through a pointer. */
  class Sink {
    var attrs: seq<Attr>

    constructor ()
      ensures attrs == []
    {
      attrs := [];
    }

    method FlattenAttributes(prefix: string, value: Node, depth: nat)
      modifies this
      ensures attrs == Flattened(old(attrs), prefix, value, depth)
      decreases value, 2, 0
    {
      if depth >= MAX_DEPTH {
        return;
      }
      if |attrs| >= MAX_COUNT {
        return;
      }
      match value
      case Dict(entries) => FlattenMap(prefix, entries, depth);
      case List(items) => FlattenSlice(prefix, items, depth);
      case Leaf(v) => attrs := attrs + [Attr(ResolveKey(prefix, "value"), v)];
      case Nil => return;
    }

    method FlattenEntry(prefix: string, e: Entry, depth: nat)
      modifies this
      ensures attrs == FlattenedEntry(old(attrs), prefix, e, depth)
      decreases e, 0, 0
    {
      FlattenAttributes(EntryPrefix(prefix, e.key), e.child, depth + 1);
    }

    method FlattenMap(prefix: string, entries: seq<Entry>, depth: nat)
      modifies this
      ensures attrs == FlattenedEntries(old(attrs), prefix, entries, depth)
      decreases entries, 1, 0
    {
      for i := 0 to |entries|
        invariant FlattenedEntries(attrs, prefix, entries[i..], depth) ==
                  FlattenedEntries(old(attrs), prefix, entries, depth)
      {
        assert entries[i..][0] == entries[i] && entries[i..][1..] == entries[i+1..];
        FlattenEntry(prefix, entries[i], depth);
      }
    }

    method FlattenSlice(prefix: string, items: seq<Node>, depth: nat)
      modifies this
      ensures attrs == FlattenedItems(old(attrs), prefix, items, 0, depth)
      decreases items, 1, 0
    {
      for i := 0 to |items|
        invariant FlattenedItems(attrs, prefix, items, i, depth) == FlattenedItems(old(attrs), prefix, items, 0, depth)
      {
        FlattenAttributes(IndexPrefix(prefix, i), items[i], depth + 1);
      }
    }
  }

  // ---------------------------------------------------------------- the leaves of a tree

  /** One attribute per non-null leaf under its dotted path, in traversal order: all of them, or with
      `cut` only those above the depth limit. */
  function Leaves(cut: bool, prefix: string, value: Node, depth: nat): seq<Attr>
    decreases value, 2, 0
  {
    if cut && depth >= MAX_DEPTH then []
    else
      match value
      case Dict(entries) => EntriesLeaves(cut, prefix, entries, depth)
      case List(items) => ItemsLeaves(cut, prefix, items, 0, depth)
      case Leaf(v) => [Attr(ResolveKey(prefix, "value"), v)]
      case Nil => []
  }

  function EntryLeaves(cut: bool, prefix: string, e: Entry, depth: nat): seq<Attr>
    decreases e, 0, 0
  {
    Leaves(cut, EntryPrefix(prefix, e.key), e.child, depth + 1)
  }

  function EntriesLeaves(cut: bool, prefix: string, entries: seq<Entry>, depth: nat): seq<Attr>
    decreases entries, 1, 0
  {
    if entries == [] then []
    else EntryLeaves(cut, prefix, entries[0], depth) + EntriesLeaves(cut, prefix, entries[1..], depth)
  }

  function ItemsLeaves(cut: bool, prefix: string, items: seq<Node>, from: nat, depth: nat): seq<Attr>
    requires from <= |items|
    decreases items, 1, |items| - from
  {
    if from == |items| then []
    else
      var first := Leaves(cut, IndexPrefix(prefix, from), items[from], depth + 1);
      first + ItemsLeaves(cut, prefix, items, from + 1, depth)
  }

  /** Every non-null leaf lies above the depth limit. */
  predicate Shallow(value: Node, depth: nat)
    decreases value, 2
  {
    match value
    case Dict(entries) => forall e :: e in entries ==> ShallowEntry(e, depth)
    case List(items) => forall i :: 0 <= i < |items| ==> Shallow(items[i], depth + 1)
    case Leaf(_) => depth < MAX_DEPTH
    case Nil => true
  }

  predicate ShallowEntry(e: Entry, depth: nat)
    decreases e, 0
  {
    Shallow(e.child, depth + 1)
  }

  // ---------------------------------------------------------------- what is emitted

  function Capped(attrs: seq<Attr>): seq<Attr> {
    if |attrs| <= MAX_COUNT then attrs else attrs[..MAX_COUNT]
  }

  lemma CappedTwice(a: seq<Attr>, b: seq<Attr>, c: seq<Attr>)
    ensures Capped(Capped(a + b) + c) == Capped(a + (b + c))
  {
    assert a + b + c == a + (b + c);
    if |a + b| > MAX_COUNT {
      assert (Capped(a + b) + c)[..MAX_COUNT] == (a + (b + c))[..MAX_COUNT];
    }
  }

  /** For every tree and every iteration order: what is emitted is exactly the first 128 attributes of
      the leaves above the depth limit, in traversal order, after what was there already. */
  lemma {:induction false} EmitsFirstLeaves(attrs: seq<Attr>, prefix: string, value: Node, depth: nat)
    requires |attrs| <= MAX_COUNT
    ensures Flattened(attrs, prefix, value, depth) == Capped(attrs + Leaves(true, prefix, value, depth))
    decreases value, 2, 0
  {
    if depth >= MAX_DEPTH {
      assert attrs + [] == attrs;
    } else if |attrs| == MAX_COUNT {
      assert (attrs + Leaves(true, prefix, value, depth))[..MAX_COUNT] == attrs;
      assert Leaves(true, prefix, value, depth) == [] ==> attrs + Leaves(true, prefix, value, depth) == attrs;
    } else {
      match value
      case Dict(entries) => EntriesEmitFirstLeaves(attrs, prefix, entries, depth);
      case List(items) => ItemsEmitFirstLeaves(attrs, prefix, items, 0, depth);
      case Leaf(_) =>
      case Nil => assert attrs + [] == attrs;
    }
  }

  lemma {:induction false} EntryEmitsFirstLeaves(attrs: seq<Attr>, prefix: string, e: Entry, depth: nat)
    requires |attrs| <= MAX_COUNT
    ensures FlattenedEntry(attrs, prefix, e, depth) == Capped(attrs + EntryLeaves(true, prefix, e, depth))
    decreases e, 0, 0
  {
    EmitsFirstLeaves(attrs, EntryPrefix(prefix, e.key), e.child, depth + 1);
  }

  lemma {:induction false} EntriesEmitFirstLeaves(attrs: seq<Attr>, prefix: string, entries: seq<Entry>, depth: nat)
    requires |attrs| <= MAX_COUNT
    ensures FlattenedEntries(attrs, prefix, entries, depth) ==
            Capped(attrs + EntriesLeaves(true, prefix, entries, depth))
    decreases entries, 1, 0
  {
    if entries == [] {
      assert attrs + [] == attrs;
    } else {
      EntryEmitsFirstLeaves(attrs, prefix, entries[0], depth);
      EntriesEmitFirstLeaves(FlattenedEntry(attrs, prefix, entries[0], depth), prefix, entries[1..], depth);
      CappedTwice(attrs, EntryLeaves(true, prefix, entries[0], depth),
          EntriesLeaves(true, prefix, entries[1..], depth));
    }
  }

  lemma {:induction false} ItemsEmitFirstLeaves(attrs: seq<Attr>, prefix: string, items: seq<Node>, from: nat,
                                                depth: nat)
    requires |attrs| <= MAX_COUNT && from <= |items|
    ensures FlattenedItems(attrs, prefix, items, from, depth) ==
            Capped(attrs + ItemsLeaves(true, prefix, items, from, depth))
    decreases items, 1, |items| - from
  {
    if from == |items| {
      assert attrs + [] == attrs;
    } else {
      var first := IndexPrefix(prefix, from);
      EmitsFirstLeaves(attrs, first, items[from], depth + 1);
      ItemsEmitFirstLeaves(Flattened(attrs, first, items[from], depth + 1), prefix, items, from + 1, depth);
      CappedTwice(attrs, Leaves(true, first, items[from], depth + 1),
          ItemsLeaves(true, prefix, items, from + 1, depth));
    }
  }

  /** The depth cut loses nothing from a shallow tree and at least one leaf from any other. */
  lemma {:induction false} CutLosesIffDeep(prefix: string, value: Node, depth: nat)
    ensures if Shallow(value, depth) then Leaves(true, prefix, value, depth) == Leaves(false, prefix, value, depth)
            else |Leaves(true, prefix, value, depth)| < |Leaves(false, prefix, value, depth)|
    decreases value, 2, 0
  {
    match value
    case Dict(entries) => EntriesCutLosesIffDeep(prefix, entries, depth);
    case List(items) => ItemsCutLosesIffDeep(prefix, items, 0, depth);
    case _ =>
  }

  lemma {:induction false} EntryCutLosesIffDeep(prefix: string, e: Entry, depth: nat)
    ensures if ShallowEntry(e, depth) then EntryLeaves(true, prefix, e, depth) == EntryLeaves(false, prefix, e, depth)
            else |EntryLeaves(true, prefix, e, depth)| < |EntryLeaves(false, prefix, e, depth)|
    decreases e, 0, 0
  {
    CutLosesIffDeep(EntryPrefix(prefix, e.key), e.child, depth + 1);
  }

  lemma {:induction false} EntriesCutLosesIffDeep(prefix: string, entries: seq<Entry>, depth: nat)
    ensures if forall e :: e in entries ==> ShallowEntry(e, depth)
            then EntriesLeaves(true, prefix, entries, depth) == EntriesLeaves(false, prefix, entries, depth)
            else |EntriesLeaves(true, prefix, entries, depth)| < |EntriesLeaves(false, prefix, entries, depth)|
    ensures depth + 1 >= MAX_DEPTH ==> EntriesLeaves(true, prefix, entries, depth) == []
    decreases entries, 1, 0
  {
    if entries != [] {
      EntryCutLosesIffDeep(prefix, entries[0], depth);
      EntriesCutLosesIffDeep(prefix, entries[1..], depth);
      assert forall e :: e in entries <==> e == entries[0] || e in entries[1..];
    }
  }

  lemma {:induction false} ItemsCutLosesIffDeep(prefix: string, items: seq<Node>, from: nat, depth: nat)
    requires from <= |items|
    ensures if forall i :: from <= i < |items| ==> Shallow(items[i], depth + 1)
            then ItemsLeaves(true, prefix, items, from, depth) == ItemsLeaves(false, prefix, items, from, depth)
            else |ItemsLeaves(true, prefix, items, from, depth)| < |ItemsLeaves(false, prefix, items, from, depth)|
    ensures depth + 1 >= MAX_DEPTH ==> ItemsLeaves(true, prefix, items, from, depth) == []
    decreases items, 1, |items| - from
  {
    if from < |items| {
      CutLosesIffDeep(IndexPrefix(prefix, from), items[from], depth + 1);
      ItemsCutLosesIffDeep(prefix, items, from + 1, depth);
    }
  }

  /** Never more than 128 attributes; and exactly one per non-null leaf under its dotted path if and
      only if no such leaf is deeper than 31 and there are at most 128 of them. */
  lemma EmitsEveryLeafIff(prefix: string, value: Node)
    ensures |Flattened([], prefix, value, 0)| <= MAX_COUNT
    ensures multiset(Flattened([], prefix, value, 0)) == multiset(Leaves(false, prefix, value, 0)) <==>
            Shallow(value, 0) && |Leaves(false, prefix, value, 0)| <= MAX_COUNT
  {
    EmitsFirstLeaves([], prefix, value, 0);
    CutLosesIffDeep(prefix, value, 0);
    var cut, all := Leaves(true, prefix, value, 0), Leaves(false, prefix, value, 0);
    assert [] + cut == cut;
    assert |multiset(Capped(cut))| == |Capped(cut)| && |multiset(all)| == |all|;
  }

  // ---------------------------------------------------------------- where the leaves are

  /** A non-null leaf: the steps that lead to it, and its value. */
  datatype Place = Place(steps: seq<Step>, value: string)

  predicate LeadsTo(value: Node, steps: seq<Step>, v: string)
    decreases |steps|
  {
    if steps == [] then value == Leaf(v)
    else
      match (value, steps[0])
      case (Dict(entries), Key(k)) =>
        exists j :: 0 <= j < |entries| && entries[j].key == k && LeadsTo(entries[j].child, steps[1..], v)
      case (List(items), Index(i)) => i < |items| && LeadsTo(items[i], steps[1..], v)
      case _ => false
  }

  function Under(step: Step, places: seq<Place>): (r: seq<Place>)
    ensures |r| == |places|
    ensures forall i :: 0 <= i < |places| ==> r[i] == Place([step] + places[i].steps, places[i].value)
  {
    seq(|places|, i requires 0 <= i < |places| => Place([step] + places[i].steps, places[i].value))
  }

  /** Every leaf in traversal order. */
  function Places(value: Node): seq<Place>
    decreases value, 2, 0
  {
    match value
    case Dict(entries) => EntriesPlaces(entries)
    case List(items) => ItemsPlaces(items, 0)
    case Leaf(v) => [Place([], v)]
    case Nil => []
  }

  function EntryPlaces(e: Entry): seq<Place>
    decreases e, 0, 0
  {
    Under(Key(e.key), Places(e.child))
  }

  function EntriesPlaces(entries: seq<Entry>): seq<Place>
    decreases entries, 1, 0
  {
    if entries == [] then [] else EntryPlaces(entries[0]) + EntriesPlaces(entries[1..])
  }

  function ItemsPlaces(items: seq<Node>, from: nat): seq<Place>
    requires from <= |items|
    decreases items, 1, |items| - from
  {
    if from == |items| then [] else Under(Index(from), Places(items[from])) + ItemsPlaces(items, from + 1)
  }

  function Dotted(steps: seq<Step>): string {
    if steps == [] then ""
    else "." + (match steps[0] case Key(k) => k case Index(i) => Digits(i)) + Dotted(steps[1..])
  }

  /** The attribute key of a leaf, as in "user.roles.0": prefix, keys and indices joined by dots. Without
      a prefix the first non-empty key is the start, "item" stands before an index, and a leaf with no
      name at all is "value". */
  function KeyText(prefix: string, steps: seq<Step>): string
    decreases |steps|
  {
    if prefix != "" then prefix + Dotted(steps)
    else if steps == [] then "value"
    else if steps[0] == Key("") then KeyText("", steps[1..])
    else match steps[0] case Key(k) => k + Dotted(steps[1..]) case Index(_) => "item" + Dotted(steps)
  }

  /** One attribute per place; with `cut`, only for those above the depth limit. */
  function Spell(cut: bool, prefix: string, places: seq<Place>, depth: nat): seq<Attr> {
    if places == [] then []
    else
      var p := places[0];
      (if cut && depth + |p.steps| >= MAX_DEPTH then [] else [Attr(KeyText(prefix, p.steps), p.value)])
      + Spell(cut, prefix, places[1..], depth)
  }

  lemma {:induction false} SpellOfConcat(cut: bool, prefix: string, x: seq<Place>, y: seq<Place>, depth: nat)
    ensures Spell(cut, prefix, x + y, depth) == Spell(cut, prefix, x, depth) + Spell(cut, prefix, y, depth)
    decreases |x|
  {
    hide KeyText;
    if x == [] {
      assert x + y == y;
    } else {
      assert (x + y)[1..] == x[1..] + y;
      SpellOfConcat(cut, prefix, x[1..], y, depth);
    }
  }

  function NextPrefix(prefix: string, step: Step): string {
    match step case Key(k) => EntryPrefix(prefix, k) case Index(i) => IndexPrefix(prefix, i)
  }

  lemma KeyTextStep(prefix: string, step: Step, steps: seq<Step>)
    ensures KeyText(prefix, [step] + steps) == KeyText(NextPrefix(prefix, step), steps)
  {
    hide Digits;
    var word := match step case Key(k) => k case Index(i) => Digits(i);
    assert ([step] + steps)[1..] == steps;
    assert Dotted([step] + steps) == "." + word + Dotted(steps);
    assert prefix + ("." + word + Dotted(steps)) == (prefix + "." + word) + Dotted(steps);
    assert "item" + ("." + word + Dotted(steps)) == ("item" + "." + word) + Dotted(steps);
  }

  lemma {:induction false} SpellUnder(cut: bool, prefix: string, step: Step, places: seq<Place>, depth: nat)
    ensures Spell(cut, prefix, Under(step, places), depth) == Spell(cut, NextPrefix(prefix, step), places, depth + 1)
    decreases |places|
  {
    hide KeyText, NextPrefix;
    if places != [] {
      KeyTextStep(prefix, step, places[0].steps);
      assert Under(step, places)[1..] == Under(step, places[1..]);
      SpellUnder(cut, prefix, step, places[1..], depth);
    }
  }

  lemma {:induction false} NothingBelowTheLimit(prefix: string, places: seq<Place>, depth: nat)
    requires depth >= MAX_DEPTH
    ensures Spell(true, prefix, places, depth) == []
    decreases |places|
  {
    if places != [] {
      NothingBelowTheLimit(prefix, places[1..], depth);
    }
  }

  /** The leaves are the places, one attribute each under its spelled key, in the same order. */
  lemma {:induction false} LeavesArePlaces(cut: bool, prefix: string, value: Node, depth: nat)
    ensures Leaves(cut, prefix, value, depth) == Spell(cut, prefix, Places(value), depth)
    decreases value, 2, 0
  {
    if cut && depth >= MAX_DEPTH {
      NothingBelowTheLimit(prefix, Places(value), depth);
    } else {
      match value
      case Dict(entries) => EntriesLeavesArePlaces(cut, prefix, entries, depth);
      case List(items) => ItemsLeavesArePlaces(cut, prefix, items, 0, depth);
      case Leaf(v) => RootIsPlace(cut, prefix, v, depth);
      case Nil =>
    }
  }

  lemma RootIsPlace(cut: bool, prefix: string, v: string, depth: nat)
    requires cut ==> depth < MAX_DEPTH
    ensures Spell(cut, prefix, [Place([], v)], depth) == [Attr(ResolveKey(prefix, "value"), v)]
  {
    assert prefix + "" == prefix && Dotted([]) == "";
    assert [Place([], v)][1..] == [];
    assert Spell(cut, prefix, [], depth) == [];
  }

  lemma {:induction false} EntryLeavesArePlaces(cut: bool, prefix: string, e: Entry, depth: nat)
    ensures EntryLeaves(cut, prefix, e, depth) == Spell(cut, prefix, EntryPlaces(e), depth)
    decreases e, 0, 0
  {
    LeavesArePlaces(cut, EntryPrefix(prefix, e.key), e.child, depth + 1);
    SpellUnder(cut, prefix, Key(e.key), Places(e.child), depth);
  }

  lemma {:induction false} EntriesLeavesArePlaces(cut: bool, prefix: string, entries: seq<Entry>, depth: nat)
    ensures EntriesLeaves(cut, prefix, entries, depth) == Spell(cut, prefix, EntriesPlaces(entries), depth)
    decreases entries, 1, 0
  {
    hide EntryPlaces;
    if entries != [] {
      EntryLeavesArePlaces(cut, prefix, entries[0], depth);
      EntriesLeavesArePlaces(cut, prefix, entries[1..], depth);
      SpellOfConcat(cut, prefix, EntryPlaces(entries[0]), EntriesPlaces(entries[1..]), depth);
    }
  }

  lemma {:induction false} ItemsLeavesArePlaces(cut: bool, prefix: string, items: seq<Node>, from: nat, depth: nat)
    requires from <= |items|
    ensures ItemsLeaves(cut, prefix, items, from, depth) == Spell(cut, prefix, ItemsPlaces(items, from), depth)
    decreases items, 1, |items| - from
  {
    if from < |items| {
      LeavesArePlaces(cut, IndexPrefix(prefix, from), items[from], depth + 1);
      SpellUnder(cut, prefix, Index(from), Places(items[from]), depth);
      ItemsLeavesArePlaces(cut, prefix, items, from + 1, depth);
      SpellOfConcat(cut, prefix, Under(Index(from), Places(items[from])), ItemsPlaces(items, from + 1), depth);
    }
  }

  /** The places are exactly the non-null leaves some steps lead to. */
  lemma {:induction false} PlacesIff(value: Node, p: Place)
    ensures p in Places(value) <==> LeadsTo(value, p.steps, p.value)
    decreases value, 2, 0
  {
    match value
    case Dict(entries) =>
      EntriesPlacesIff(entries, p);
    case List(items) =>
      ItemsPlacesIff(items, 0, p);
    case _ =>
  }

  lemma UnderIff(step: Step, places: seq<Place>, p: Place)
    ensures p in Under(step, places) <==>
            p.steps != [] && p.steps[0] == step && Place(p.steps[1..], p.value) in places
  {
    var r := Under(step, places);
    if p in r {
      var i :| 0 <= i < |r| && r[i] == p;
      assert p.steps[1..] == places[i].steps;
    }
    if p.steps != [] && p.steps[0] == step && Place(p.steps[1..], p.value) in places {
      var i :| 0 <= i < |places| && places[i] == Place(p.steps[1..], p.value);
      assert p.steps == [step] + p.steps[1..];
      assert r[i] == p;
    }
  }

  lemma {:induction false} EntryPlacesIff(e: Entry, p: Place)
    ensures p in EntryPlaces(e) <==>
            p.steps != [] && p.steps[0] == Key(e.key) && LeadsTo(e.child, p.steps[1..], p.value)
    decreases e, 0, 0
  {
    UnderIff(Key(e.key), Places(e.child), p);
    if p.steps != [] {
      PlacesIff(e.child, Place(p.steps[1..], p.value));
    }
  }

  lemma {:induction false} EntriesPlacesIff(entries: seq<Entry>, p: Place)
    ensures p in EntriesPlaces(entries) <==>
            exists j :: 0 <= j < |entries| && p.steps != [] && p.steps[0] == Key(entries[j].key) &&
                        LeadsTo(entries[j].child, p.steps[1..], p.value)
    decreases entries, 1, 0
  {
    hide LeadsTo, EntryPlaces;
    if entries != [] {
      var rest := entries[1..];
      EntryPlacesIff(entries[0], p);
      EntriesPlacesIff(rest, p);
      if j :| 0 <= j < |rest| && p.steps != [] && p.steps[0] == Key(rest[j].key) &&
              LeadsTo(rest[j].child, p.steps[1..], p.value) {
        assert entries[j + 1] == rest[j];
      }
      if j :| 0 <= j < |entries| && p.steps != [] && p.steps[0] == Key(entries[j].key) &&
              LeadsTo(entries[j].child, p.steps[1..], p.value) {
        assert j > 0 ==> rest[j - 1] == entries[j];
      }
    }
  }

  lemma {:induction false} ItemsPlacesIff(items: seq<Node>, from: nat, p: Place)
    requires from <= |items|
    ensures p in ItemsPlaces(items, from) <==>
            && p.steps != [] && p.steps[0].Index? && from <= p.steps[0].i < |items|
            && LeadsTo(items[p.steps[0].i], p.steps[1..], p.value)
    decreases items, 1, |items| - from
  {
    hide LeadsTo;
    if from < |items| {
      UnderIff(Index(from), Places(items[from]), p);
      if p.steps != [] {
        PlacesIff(items[from], Place(p.steps[1..], p.value));
      }
      ItemsPlacesIff(items, from + 1, p);
    }
  }

  lemma {:induction false} SpelledIff(cut: bool, prefix: string, places: seq<Place>, depth: nat, a: Attr)
    ensures a in Spell(cut, prefix, places, depth) <==>
            exists p :: p in places && p.value == a.value && KeyText(prefix, p.steps) == a.key &&
                        (cut ==> depth + |p.steps| < MAX_DEPTH)
    decreases |places|
  {
    hide KeyText;
    if places != [] {
      SpelledIff(cut, prefix, places[1..], depth, a);
      assert forall p :: p in places <==> p == places[0] || p in places[1..];
    }
  }

  /** For every tree: what is emitted is the first 128 leaves above the depth limit, each under the key
      its steps spell, and an attribute is a leaf of the tree, cut or not, exactly if some steps lead to
      its value, spell its key and, with the cut, are few enough. */
  lemma EmittedAreSpelledLeaves(prefix: string, value: Node, cut: bool, depth: nat, a: Attr)
    ensures var all := Spell(true, prefix, Places(value), depth);
            Flattened([], prefix, value, depth) == if |all| <= 128 then all else all[..128]
    ensures a in Leaves(cut, prefix, value, depth) <==>
            exists steps :: LeadsTo(value, steps, a.value) && KeyText(prefix, steps) == a.key &&
                            (cut ==> depth + |steps| < 32)
  {
    hide Leaves, Flattened, Spell, Places, LeadsTo, KeyText;
    EmitsFirstLeaves([], prefix, value, depth);
    LeavesArePlaces(true, prefix, value, depth);
    LeavesArePlaces(cut, prefix, value, depth);
    assert [] + Leaves(true, prefix, value, depth) == Leaves(true, prefix, value, depth);
    SpelledIff(cut, prefix, Places(value), depth, a);
    forall p ensures p in Places(value) <==> LeadsTo(value, p.steps, p.value) {
      PlacesIff(value, p);
    }
    if steps :| LeadsTo(value, steps, a.value) && KeyText(prefix, steps) == a.key &&
                (cut ==> depth + |steps| < 32) {
      assert Place(steps, a.value) in Places(value);
    }
  }

  // ---------------------------------------------------------------- independence of the iteration order

  /** The same tree with the entries of any of its objects visited in another order. */
  ghost predicate Reordered(a: Node, b: Node)
    decreases a, 2
  {
    match (a, b)
    case (Dict(as_), Dict(bs)) => ReorderedEntries(as_, bs)
    case (List(as_), List(bs)) => |as_| == |bs| && forall i :: 0 <= i < |as_| ==> Reordered(as_[i], bs[i])
    case _ => a == b
  }

  ghost predicate ReorderedEntry(a: Entry, b: Entry)
    decreases a, 0
  {
    a.key == b.key && Reordered(a.child, b.child)
  }

  ghost predicate ReorderedEntries(as_: seq<Entry>, bs: seq<Entry>)
    decreases as_, 1
  {
    |as_| == |bs| &&
    (as_ != [] ==>
      exists j :: 0 <= j < |bs| && ReorderedEntry(as_[0], bs[j]) && ReorderedEntries(as_[1..], Without(bs, j)))
  }

  function Without(s: seq<Entry>, j: nat): seq<Entry>
    requires j < |s|
  {
    s[..j] + s[j+1..]
  }

  lemma {:induction false} EntriesLeavesOfConcat(cut: bool, prefix: string, x: seq<Entry>, y: seq<Entry>, depth: nat)
    ensures EntriesLeaves(cut, prefix, x + y, depth) ==
            EntriesLeaves(cut, prefix, x, depth) + EntriesLeaves(cut, prefix, y, depth)
    decreases |x|
  {
    if x == [] {
      assert x + y == y;
    } else {
      assert (x + y)[1..] == x[1..] + y;
      EntriesLeavesOfConcat(cut, prefix, x[1..], y, depth);
    }
  }

  lemma EntriesLeavesWithout(cut: bool, prefix: string, s: seq<Entry>, j: nat, depth: nat)
    requires j < |s|
    ensures multiset(EntriesLeaves(cut, prefix, s, depth)) ==
            multiset(EntryLeaves(cut, prefix, s[j], depth)) + multiset(EntriesLeaves(cut, prefix, Without(s, j), depth))
  {
    assert s == s[..j] + s[j..] && s[j..][1..] == s[j+1..];
    EntriesLeavesOfConcat(cut, prefix, s[..j], s[j..], depth);
    EntriesLeavesOfConcat(cut, prefix, s[..j], s[j+1..], depth);
  }

  /** The leaves, with or without the depth cut, are the same multiset for every iteration order. */
  lemma {:induction false} LeavesIgnoreOrder(cut: bool, prefix: string, a: Node, b: Node, depth: nat)
    requires Reordered(a, b)
    ensures multiset(Leaves(cut, prefix, a, depth)) == multiset(Leaves(cut, prefix, b, depth))
    decreases a, 2, 0
  {
    match (a, b)
    case (Dict(as_), Dict(bs)) => EntriesLeavesIgnoreOrder(cut, prefix, as_, bs, depth);
    case (List(as_), List(bs)) => ItemsLeavesIgnoreOrder(cut, prefix, as_, bs, 0, depth);
    case _ =>
  }

  lemma {:induction false} EntryLeavesIgnoreOrder(cut: bool, prefix: string, a: Entry, b: Entry, depth: nat)
    requires ReorderedEntry(a, b)
    ensures multiset(EntryLeaves(cut, prefix, a, depth)) == multiset(EntryLeaves(cut, prefix, b, depth))
    decreases a, 0, 0
  {
    LeavesIgnoreOrder(cut, EntryPrefix(prefix, a.key), a.child, b.child, depth + 1);
  }

  lemma {:induction false} EntriesLeavesIgnoreOrder(cut: bool, prefix: string, as_: seq<Entry>, bs: seq<Entry>,
                                                    depth: nat)
    requires ReorderedEntries(as_, bs)
    ensures multiset(EntriesLeaves(cut, prefix, as_, depth)) == multiset(EntriesLeaves(cut, prefix, bs, depth))
    decreases as_, 1, 0
  {
    if as_ != [] {
      var j :| 0 <= j < |bs| && ReorderedEntry(as_[0], bs[j]) && ReorderedEntries(as_[1..], Without(bs, j));
      EntryLeavesIgnoreOrder(cut, prefix, as_[0], bs[j], depth);
      EntriesLeavesIgnoreOrder(cut, prefix, as_[1..], Without(bs, j), depth);
      EntriesLeavesWithout(cut, prefix, bs, j, depth);
    }
  }

  lemma {:induction false} ItemsLeavesIgnoreOrder(cut: bool, prefix: string, as_: seq<Node>, bs: seq<Node>, from: nat,
                                                  depth: nat)
    requires |as_| == |bs| && from <= |as_| && forall i :: 0 <= i < |as_| ==> Reordered(as_[i], bs[i])
    ensures multiset(ItemsLeaves(cut, prefix, as_, from, depth)) == multiset(ItemsLeaves(cut, prefix, bs, from, depth))
    decreases as_, 1, |as_| - from
  {
    if from < |as_| {
      LeavesIgnoreOrder(cut, IndexPrefix(prefix, from), as_[from], bs[from], depth + 1);
      ItemsLeavesIgnoreOrder(cut, prefix, as_, bs, from + 1, depth);
    }
  }

  /** How many attributes are emitted never depends on the order, and neither does which, as long as the
      leaves above the depth limit are within the count. */
  lemma EmissionIgnoresOrder(prefix: string, a: Node, b: Node)
    requires Reordered(a, b)
    ensures |Flattened([], prefix, a, 0)| == |Flattened([], prefix, b, 0)|
    ensures |Leaves(true, prefix, a, 0)| <= MAX_COUNT ==>
            multiset(Flattened([], prefix, a, 0)) == multiset(Flattened([], prefix, b, 0))
  {
    EmitsFirstLeaves([], prefix, a, 0);
    EmitsFirstLeaves([], prefix, b, 0);
    LeavesIgnoreOrder(true, prefix, a, b, 0);
    hide Leaves, Flattened, Reordered;
    var la, lb := Leaves(true, prefix, a, 0), Leaves(true, prefix, b, 0);
    assert [] + la == la && [] + lb == lb;
    assert |la| == |multiset(la)| == |multiset(lb)| == |lb|;
  }
}
