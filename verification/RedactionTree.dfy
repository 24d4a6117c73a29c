/** `tracing/obfuscation.go`: ordered redaction rules over decoded JSON. Regular expressions, the
    sensitive-name matcher, HMAC and `fmt.Sprint` are functions the redactor carries. */
module RedactionTree {
  import opened Decimals
  import opened Wrappers

  datatype Json =
    | Null
    | Bool(b: bool)
    | Number(text: string)
    | Str(s: string)
    | Array(items: seq<Json>)
    | Object(fields: map<string, Json>)

  datatype Action = Mask | Hash | Drop

  /** A rule without a field pattern uses the sensitive-name matcher; one without a path pattern
      matches every path. */
  datatype Rule = Rule(field: Option<string -> bool>, path: Option<string -> bool>, action: Action)

  datatype Redactor = Redactor(
    rules: seq<Rule>,
    maskValue: string,
    sensitive: string -> bool,
    hash: string -> string,
    sprint: Json -> string)

  predicate RuleMatches(r: Redactor, rule: Rule, path: string, fieldName: string) {
    && (if rule.field.Some? then rule.field.value(fieldName) else r.sensitive(fieldName))
    && (rule.path.Some? ==> rule.path.value(path))
  }

  function FirstAction(r: Redactor, from: nat, path: string, fieldName: string): Option<Action>
    requires from <= |r.rules|
    decreases |r.rules| - from
  {
    if from == |r.rules| then None
    else if RuleMatches(r, r.rules[from], path, fieldName) then Some(r.rules[from].action)
    else FirstAction(r, from + 1, path, fieldName)
  }

  function ActionFor(r: Redactor, path: string, fieldName: string): Option<Action> {
    FirstAction(r, 0, path, fieldName)
  }

  /** A nil redactor has no action for anything. */
  method FindAction(redactor: Option<Redactor>, path: string, fieldName: string) returns (action: Option<Action>)
    ensures action == if redactor.None? then None else ActionFor(redactor.value, path, fieldName)
  {
    if redactor.None? {
      return None;
    }
    var r := redactor.value;
    for i := 0 to |r.rules|
      invariant FirstAction(r, i, path, fieldName) == ActionFor(r, path, fieldName)
    {
      var rule := r.rules[i];
      var fieldMatch := if rule.field.Some? then rule.field.value(fieldName) else r.sensitive(fieldName);
      var pathMatch := true;
      if rule.path.Some? {
        pathMatch := rule.path.value(path);
      }
      if fieldMatch && pathMatch {
        return Some(rule.action);
      }
    }
    return None;
  }

  lemma {:induction false} FirstActionDecides(r: Redactor, from: nat, path: string, fieldName: string, a: Action)
    requires from <= |r.rules|
    ensures FirstAction(r, from, path, fieldName) == Some(a) <==>
            exists i :: from <= i < |r.rules| && r.rules[i].action == a && RuleMatches(r, r.rules[i], path, fieldName)
                        && forall j :: from <= j < i ==> !RuleMatches(r, r.rules[j], path, fieldName)
    decreases |r.rules| - from
  {
    if from < |r.rules| {
      FirstActionDecides(r, from + 1, path, fieldName, a);
      if !RuleMatches(r, r.rules[from], path, fieldName) {
        if i :| from + 1 <= i < |r.rules| && r.rules[i].action == a && RuleMatches(r, r.rules[i], path, fieldName)
                && forall j :: from + 1 <= j < i ==> !RuleMatches(r, r.rules[j], path, fieldName) {
          assert forall j :: from <= j < i ==> !RuleMatches(r, r.rules[j], path, fieldName);
        }
      }
    }
  }

  /** The first rule that matches the path, if it names one, and the field, by its own pattern or else by
      the sensitive-name matcher, decides. */
  lemma FirstMatchingRuleDecides(r: Redactor, path: string, fieldName: string, i: nat)
    requires i < |r.rules|
    requires match r.rules[i].field case Some(f) => f(fieldName) case None => r.sensitive(fieldName)
    requires r.rules[i].path.Some? ==> r.rules[i].path.value(path)
    requires forall j :: 0 <= j < i ==>
               || !(match r.rules[j].field case Some(f) => f(fieldName) case None => r.sensitive(fieldName))
               || (r.rules[j].path.Some? && !r.rules[j].path.value(path))
    ensures ActionFor(r, path, fieldName) == Some(r.rules[i].action)
  {
    FirstActionDecides(r, 0, path, fieldName, r.rules[i].action);
    assert forall j :: 0 <= j < i ==> !RuleMatches(r, r.rules[j], path, fieldName);
  }

  /** Without a matching rule there is no action. */
  lemma NoMatchingRuleNoAction(r: Redactor, path: string, fieldName: string)
    requires forall j :: 0 <= j < |r.rules| ==>
               || !(match r.rules[j].field case Some(f) => f(fieldName) case None => r.sensitive(fieldName))
               || (r.rules[j].path.Some? && !r.rules[j].path.value(path))
    ensures ActionFor(r, path, fieldName) == None
  {
    assert forall j :: 0 <= j < |r.rules| ==> !RuleMatches(r, r.rules[j], path, fieldName);
    if ActionFor(r, path, fieldName).Some? {
      FirstActionDecides(r, 0, path, fieldName, ActionFor(r, path, fieldName).value);
    }
  }

  // ---------------------------------------------------------------- paths

  function ChildPath(path: string, key: string): string {
    if path == "" then key else path + "." + key
  }

  function ItemPath(path: string, i: nat): string {
    path + "[" + Digits(i) + "]"
  }

  // ---------------------------------------------------------------- obfuscateStructFields

  /** A field's value after redaction, or None when it is dropped. */
  function RedactField(r: Redactor, path: string, key: string, value: Json): Option<Json>
    decreases value, 1
  {
    match ActionFor(r, path, key)
    case None => Some(Redact(r, path, value))
    case Some(Drop) => None
    case Some(Hash) => Some(Str(r.hash(r.sprint(value))))
    case Some(Mask) => Some(Str(r.maskValue))
  }

  function Redact(r: Redactor, path: string, data: Json): Json
    decreases data, 0
  {
    match data
    case Object(fields) =>
      Object(map k | k in fields && RedactField(r, ChildPath(path, k), k, fields[k]).Some?
               :: RedactField(r, ChildPath(path, k), k, fields[k]).value)
    case Array(items) => Array(seq(|items|, i requires 0 <= i < |items| => Redact(r, ItemPath(path, i), items[i])))
    case _ => data
  }

  /** Without a redactor the tree is only copied. */
  function RedactWith(r: Option<Redactor>, path: string, data: Json): Json {
    if r.None? then data else Redact(r.value, path, data)
  }

  function RedactFieldWith(r: Option<Redactor>, path: string, key: string, value: Json): Option<Json> {
    if r.None? then Some(value) else RedactField(r.value, path, key, value)
  }

  lemma RedactedObject(r: Option<Redactor>, path: string, data: Json, out: map<string, Json>)
    requires data.Object?
    requires forall k ::
               k in out <==> k in data.fields && RedactFieldWith(r, ChildPath(path, k), k, data.fields[k]).Some?
    requires forall k :: k in out ==> out[k] == RedactFieldWith(r, ChildPath(path, k), k, data.fields[k]).value
    ensures RedactWith(r, path, data) == Object(out)
  {
    hide ChildPath, RedactField;
    assert out == RedactWith(r, path, data).fields;
  }

  lemma RedactedArray(r: Option<Redactor>, path: string, data: Json, out: seq<Json>)
    requires data.Array? && |out| == |data.items|
    requires forall i :: 0 <= i < |out| ==> out[i] == RedactWith(r, ItemPath(path, i), data.items[i])
    ensures RedactWith(r, path, data) == Array(out)
  {
    assert out == RedactWith(r, path, data).items;
  }

  lemma RedactedScalar(r: Option<Redactor>, path: string, data: Json)
    requires !data.Object? && !data.Array?
    ensures RedactWith(r, path, data) == data
  {
  }

  /** The recursion as it runs, over the map's keys in any order. */
  method ObfuscateStructFields(data: Json, path: string, r: Option<Redactor>) returns (result: Json)
    ensures result == RedactWith(r, path, data)
    decreases data
  {
    hide FirstAction, ActionFor, Digits, ItemPath, Redact;
    match data
    case Object(fields) =>
      var out: map<string, Json> := map[];
      var keys := fields.Keys;
      while keys != {}
        invariant keys <= fields.Keys
        invariant forall k ::
          k in out <==> k in fields && k !in keys && RedactFieldWith(r, ChildPath(path, k), k, fields[k]).Some?
        invariant forall k :: k in out ==> out[k] == RedactFieldWith(r, ChildPath(path, k), k, fields[k]).value
        decreases |keys|
      {
        var key :| key in keys;
        keys := keys - {key};
        var childPath := if path == "" then key else path + "." + key;
        var action := FindAction(r, childPath, key);
        match action
        case Some(Drop) =>
        case Some(Hash) => out := out[key := Str(r.value.hash(r.value.sprint(fields[key])))];
        case Some(Mask) => out := out[key := Str(r.value.maskValue)];
        case None =>
          var child := ObfuscateStructFields(fields[key], childPath, r);
          out := out[key := child];
      }
      RedactedObject(r, path, data, out);
      return Object(out);
    case Array(items) =>
      var out: seq<Json> := [];
      for i := 0 to |items|
        invariant |out| == i
        invariant forall j :: 0 <= j < i ==> out[j] == RedactWith(r, ItemPath(path, j), items[j])
      {
        var item := ObfuscateStructFields(items[i], ItemPath(path, i), r);
        out := out + [item];
      }
      RedactedArray(r, path, data, out);
      return Array(out);
    case _ =>
      RedactedScalar(r, path, data);
      return data;
  }

  // ---------------------------------------------------------------- redacting twice

  lemma FieldsOfRedacted(r: Redactor, path: string, a: Json, k: string)
    requires a.Object?
    ensures Redact(r, path, a).Object?
    ensures var out, action := Redact(r, path, a).fields, ActionFor(r, ChildPath(path, k), k);
            && (k in out <==> k in a.fields && action != Some(Drop))
            && (k in out ==>
                 out[k] == match action
                           case None => Redact(r, ChildPath(path, k), a.fields[k])
                           case Some(Hash) => Str(r.hash(r.sprint(a.fields[k])))
                           case _ => Str(r.maskValue))
  {
  }

  /** Every hash the redaction writes into this tree is a fixed point of hashing its own printed form. */
  ghost predicate HashStable(r: Redactor, path: string, data: Json)
    decreases data
  {
    match data
    case Object(fields) =>
      (forall k :: k in fields ==>
        match ActionFor(r, ChildPath(path, k), k)
        case None => HashStable(r, ChildPath(path, k), fields[k])
        case Some(Hash) => IsFixedPoint(r, r.hash(r.sprint(fields[k])))
        case _ => true)
    case Array(items) => forall i :: 0 <= i < |items| ==> HashStable(r, ItemPath(path, i), items[i])
    case _ => true
  }

  predicate IsFixedPoint(r: Redactor, h: string) {
    r.hash(r.sprint(Str(h))) == h
  }

  /** For all rules, paths and trees: redacting twice is redacting once exactly when every hash written
      is such a fixed point. */
  lemma {:induction false} RedactingTwiceIff(r: Redactor, path: string, data: Json)
    ensures Redact(r, path, Redact(r, path, data)) == Redact(r, path, data) <==> HashStable(r, path, data)
    decreases data
  {
    match data
    case Object(fields) =>
      var once := Redact(r, path, data).fields;
      var twice := Redact(r, path, Object(once)).fields;
      forall k
        ensures k in twice <==> k in once
        ensures k in once ==>
          (twice[k] == once[k] <==>
             match ActionFor(r, ChildPath(path, k), k)
             case None => HashStable(r, ChildPath(path, k), fields[k])
             case Some(Hash) => IsFixedPoint(r, r.hash(r.sprint(fields[k])))
             case _ => true)
        ensures k in fields && k !in once ==> ActionFor(r, ChildPath(path, k), k) == Some(Drop)
      {
        FieldsOfRedacted(r, path, data, k);
        FieldsOfRedacted(r, path, Object(once), k);
        if k in once && ActionFor(r, ChildPath(path, k), k).None? {
          RedactingTwiceIff(r, ChildPath(path, k), fields[k]);
        }
      }
      assert twice == once <==> forall k :: k in once ==> twice[k] == once[k];
    case Array(items) =>
      var once := Redact(r, path, data).items;
      var twice := Redact(r, path, Array(once)).items;
      forall i | 0 <= i < |items| ensures twice[i] == once[i] <==> HashStable(r, ItemPath(path, i), items[i]) {
        RedactingTwiceIff(r, ItemPath(path, i), items[i]);
      }
      assert twice == once <==> forall i :: 0 <= i < |items| ==> twice[i] == once[i];
    case _ =>
  }

  /** For instance a single hashed field, which a second pass hashes again. */
  lemma HashingTwiceDiffersIff(r: Redactor, key: string, value: Json)
    requires ActionFor(r, key, key) == Some(Hash)
    ensures var data := Object(map[key := value]);
            Redact(r, "", Redact(r, "", data)) == Redact(r, "", data) <==> IsFixedPoint(r, r.hash(r.sprint(value)))
  {
    var fields := map[key := value];
    RedactingTwiceIff(r, "", Object(fields));
    assert ChildPath("", key) == key && key in fields && fields[key] == value;
  }

  ghost predicate MasksOrDrops(r: Redactor) {
    forall i :: 0 <= i < |r.rules| ==> r.rules[i].action != Hash
  }

  lemma {:induction false} NoHashAction(r: Redactor, from: nat, path: string, fieldName: string)
    requires MasksOrDrops(r) && from <= |r.rules|
    ensures FirstAction(r, from, path, fieldName) != Some(Hash)
    decreases |r.rules| - from
  {
    if from < |r.rules| {
      NoHashAction(r, from + 1, path, fieldName);
    }
  }

  lemma {:induction false} NothingHashed(r: Redactor, path: string, data: Json)
    requires MasksOrDrops(r)
    ensures HashStable(r, path, data)
    decreases data
  {
    match data
    case Object(fields) =>
      forall k | k in fields ensures ActionFor(r, ChildPath(path, k), k) != Some(Hash) {
        NoHashAction(r, 0, ChildPath(path, k), k);
      }
      forall k | k in fields ensures HashStable(r, ChildPath(path, k), fields[k]) {
        NothingHashed(r, ChildPath(path, k), fields[k]);
      }
    case Array(items) =>
      forall i | 0 <= i < |items| ensures HashStable(r, ItemPath(path, i), items[i]) {
        NothingHashed(r, ItemPath(path, i), items[i]);
      }
    case _ =>
  }

  /** In particular under mask and drop rules. */
  lemma RedactionIsIdempotent(r: Redactor, path: string, data: Json)
    requires MasksOrDrops(r)
    ensures Redact(r, path, Redact(r, path, data)) == Redact(r, path, data)
  {
    NothingHashed(r, path, data);
    RedactingTwiceIff(r, path, data);
  }

  // ---------------------------------------------------------------- what redaction hides

  /** Two payloads differ only under keys some rule matches: anything at all under a masked key, even the
      presence of a dropped one, and what hashes alike under a hashed one. */
  ghost predicate DifferOnlyWhereRedacted(r: Redactor, path: string, a: Json, b: Json)
    decreases a
  {
    if a.Object? && b.Object? then
      && (forall k :: ActionFor(r, ChildPath(path, k), k) != Some(Drop) ==> (k in a.fields <==> k in b.fields))
      && (forall k :: k in a.fields && k in b.fields && ActionFor(r, ChildPath(path, k), k).None? ==>
            DifferOnlyWhereRedacted(r, ChildPath(path, k), a.fields[k], b.fields[k]))
      && (forall k :: k in a.fields && k in b.fields && ActionFor(r, ChildPath(path, k), k) == Some(Hash) ==>
            HashAlike(r, a.fields[k], b.fields[k]))
    else if a.Array? && b.Array? then
      |a.items| == |b.items| &&
      forall i :: 0 <= i < |a.items| ==> DifferOnlyWhereRedacted(r, ItemPath(path, i), a.items[i], b.items[i])
    else a == b
  }

  predicate HashAlike(r: Redactor, a: Json, b: Json) {
    r.hash(r.sprint(a)) == r.hash(r.sprint(b))
  }

  /** Redaction shows exactly what no rule matches: two payloads obfuscate to the same tree if and only
      if they differ only where it redacts. */
  lemma {:induction false} RedactedEqualIff(r: Redactor, path: string, a: Json, b: Json)
    ensures Redact(r, path, a) == Redact(r, path, b) <==> DifferOnlyWhereRedacted(r, path, a, b)
    decreases a
  {
    hide ActionFor, FirstAction, ItemPath, Digits, RedactField;
    if a.Object? && b.Object? {
      var ra, rb := Redact(r, path, a).fields, Redact(r, path, b).fields;
      forall k: string
        ensures (k in ra <==> k in rb) && (k in ra ==> ra[k] == rb[k]) <==>
                && (ActionFor(r, ChildPath(path, k), k) != Some(Drop) ==> (k in a.fields <==> k in b.fields))
                && (k in a.fields && k in b.fields && ActionFor(r, ChildPath(path, k), k).None? ==>
                      DifferOnlyWhereRedacted(r, ChildPath(path, k), a.fields[k], b.fields[k]))
                && (k in a.fields && k in b.fields && ActionFor(r, ChildPath(path, k), k) == Some(Hash) ==>
                      HashAlike(r, a.fields[k], b.fields[k]))
      {
        FieldsOfRedacted(r, path, a, k);
        FieldsOfRedacted(r, path, b, k);
        if k in a.fields && k in b.fields {
          RedactedEqualIff(r, ChildPath(path, k), a.fields[k], b.fields[k]);
        }
      }
      assert ra == rb <==> forall k :: (k in ra <==> k in rb) && (k in ra ==> ra[k] == rb[k]);
    } else if a.Array? && b.Array? {
      var ra, rb := Redact(r, path, a).items, Redact(r, path, b).items;
      assert |ra| == |a.items| && |rb| == |b.items|;
      if |a.items| == |b.items| {
        forall i | 0 <= i < |a.items|
          ensures ra[i] == rb[i] <==> DifferOnlyWhereRedacted(r, ItemPath(path, i), a.items[i], b.items[i])
        {
          RedactedEqualIff(r, ItemPath(path, i), a.items[i], b.items[i]);
        }
        assert ra == rb <==> forall i :: 0 <= i < |ra| ==> ra[i] == rb[i];
      }
    }
  }

  // ---------------------------------------------------------------- every place in the tree

  datatype Step = Key(key: string) | Index(i: nat)

  /** The value found by following steps from the root, if there is one. */
  function At(data: Json, steps: seq<Step>): Option<Json>
    decreases |steps|
  {
    if steps == [] then Some(data)
    else
      match (data, steps[0])
      case (Object(fields), Key(k)) => if k in fields then At(fields[k], steps[1..]) else None
      case (Array(items), Index(i)) => if i < |items| then At(items[i], steps[1..]) else None
      case _ => None
  }

  function StepText(step: Step): string {
    match step case Key(k) => "." + k case Index(i) => "[" + Digits(i) + "]"
  }

  function Trail(steps: seq<Step>): string {
    if steps == [] then "" else StepText(steps[0]) + Trail(steps[1..])
  }

  /** The path the rules see at a place, as in "user.cards[3].number": the steps one after the other, but
      no dot in front of the first key, and nothing for empty keys before it. */
  function PathText(path: string, steps: seq<Step>): string
    decreases |steps|
  {
    if path != "" then path + Trail(steps)
    else if steps == [] then ""
    else if steps[0] == Key("") then PathText("", steps[1..])
    else match steps[0] case Key(k) => k + Trail(steps[1..]) case Index(_) => Trail(steps)
  }

  function NextPath(path: string, step: Step): string {
    match step case Key(k) => ChildPath(path, k) case Index(i) => ItemPath(path, i)
  }

  lemma TrailStep(steps: seq<Step>)
    requires steps != []
    ensures Trail(steps) == StepText(steps[0]) + Trail(steps[1..])
    ensures |steps| == 1 ==> Trail(steps) == StepText(steps[0])
  {
    hide StepText;
    assert Trail([]) == "";
    assert StepText(steps[0]) + "" == StepText(steps[0]);
  }

  lemma NextPathText(path: string, step: Step)
    ensures path != "" || step.Index? ==> NextPath(path, step) == path + StepText(step) != ""
    ensures path == "" && step.Key? ==> NextPath(path, step) == step.key
  {
    hide Digits;
    assert path + "." != "" && path + "[" != "";
  }

  lemma PathTextStep(path: string, steps: seq<Step>)
    requires steps != []
    ensures PathText(path, steps) == PathText(NextPath(path, steps[0]), steps[1..])
  {
    hide NextPath, StepText, Trail;
    TrailStep(steps);
    NextPathText(path, steps[0]);
    assert path + (StepText(steps[0]) + Trail(steps[1..])) == (path + StepText(steps[0])) + Trail(steps[1..]);
    assert "" + StepText(steps[0]) == StepText(steps[0]);
  }

  /** No rule matches a key on the way. */
  predicate Untouched(r: Redactor, path: string, steps: seq<Step>) {
    forall i :: 0 <= i < |steps| && steps[i].Key? ==>
      ActionFor(r, PathText(path, steps[..i+1]), steps[i].key).None?
  }

  lemma UntouchedStep(r: Redactor, path: string, steps: seq<Step>)
    requires steps != [] && Untouched(r, path, steps)
    ensures steps[0].Key? ==> ActionFor(r, ChildPath(path, steps[0].key), steps[0].key).None?
    ensures Untouched(r, NextPath(path, steps[0]), steps[1..])
  {
    hide Digits, PathText, FirstAction, ActionFor;
    OneStep(path, steps[0]);
    assert steps[..1] == [steps[0]];
    var rest := steps[1..];
    forall i | 0 <= i < |rest| && rest[i].Key?
      ensures ActionFor(r, PathText(NextPath(path, steps[0]), rest[..i+1]), rest[i].key).None?
    {
      var upTo := steps[..i+2];
      PathTextStep(path, upTo);
      assert upTo[1..] == rest[..i+1];
      assert ActionFor(r, PathText(path, steps[..(i+1)+1]), steps[i+1].key).None?;
    }
  }

  lemma NoSteps(path: string)
    ensures PathText(path, []) == path
  {
    assert Trail([]) == "" && path + "" == path;
  }

  lemma OneStep(path: string, step: Step)
    ensures PathText(path, [step]) == NextPath(path, step)
  {
    hide *;
    assert [step][1..] == [];
    PathTextStep(path, [step]);
    NoSteps(NextPath(path, step));
  }

  /** A place no rule matches on the way to is still there, or still absent, holding the redaction of
      what it held; in particular every leaf there is unchanged. */
  lemma {:induction false} UntouchedPlacesSurvive(r: Redactor, path: string, data: Json, steps: seq<Step>)
    requires Untouched(r, path, steps)
    ensures At(Redact(r, path, data), steps) ==
            match At(data, steps) case None => None case Some(v) => Some(Redact(r, PathText(path, steps), v))
    ensures var v := At(data, steps);
            v.Some? && !v.value.Object? && !v.value.Array? ==> At(Redact(r, path, data), steps) == v
    decreases |steps|
  {
    hide Digits, ActionFor, FirstAction, Untouched, PathText;
    if steps == [] {
      NoSteps(path);
    } else {
      UntouchedStep(r, path, steps);
      PathTextStep(path, steps);
      match (data, steps[0])
      case (Object(fields), Key(k)) =>
        FieldsOfRedacted(r, path, data, k);
        if k in fields {
          UntouchedPlacesSurvive(r, ChildPath(path, k), fields[k], steps[1..]);
        }
      case (Array(items), Index(i)) =>
        if i < |items| {
          UntouchedPlacesSurvive(r, ItemPath(path, i), items[i], steps[1..]);
        }
      case _ =>
    }
  }

  lemma {:induction false} PathTextOfConcat(path: string, steps: seq<Step>, last: Step)
    ensures PathText(path, steps + [last]) == NextPath(PathText(path, steps), last)
    decreases |steps|
  {
    hide Digits, PathText;
    var all := steps + [last];
    if steps == [] {
      assert all == [last];
      OneStep(path, last);
      NoSteps(path);
    } else {
      PathTextStep(path, all);
      PathTextStep(path, steps);
      assert all[1..] == steps[1..] + [last];
      PathTextOfConcat(NextPath(path, steps[0]), steps[1..], last);
    }
  }

  /** A place reached by untouched steps and then one matched key holds the mask or the hash, or is gone,
      and nothing is left below it. */
  lemma MatchedPlacesAreHidden(r: Redactor, path: string, data: Json, steps: seq<Step>, key: string, below: seq<Step>)
    requires Untouched(r, path, steps)
    requires ActionFor(r, PathText(path, steps + [Key(key)]), key).Some?
    requires At(data, steps).Some? && At(data, steps).value.Object? && key in At(data, steps).value.fields
    ensures var action := ActionFor(r, PathText(path, steps + [Key(key)]), key).value;
            At(Redact(r, path, data), steps + [Key(key)] + below) ==
            if action == Drop || below != [] then None
            else if action == Hash then Some(Str(r.hash(r.sprint(At(data, steps).value.fields[key]))))
            else Some(Str(r.maskValue))
  {
    hide Redact, RedactField, ChildPath, ActionFor, Untouched, PathText;
    PathTextOfConcat(path, steps, Key(key));
    UntouchedPlacesSurvive(r, path, data, steps);
    var value := At(data, steps).value;
    FieldsOfRedacted(r, PathText(path, steps), value, key);
    assert steps + [Key(key)] + below == steps + ([Key(key)] + below);
    AtConcat(Redact(r, path, data), steps, [Key(key)] + below);
    assert ([Key(key)] + below)[1..] == below;
  }

  lemma {:induction false} AtConcat(data: Json, a: seq<Step>, b: seq<Step>)
    ensures At(data, a + b) == match At(data, a) case None => None case Some(v) => At(v, b)
    decreases |a|
  {
    if a == [] {
      assert a + b == b;
    } else {
      assert (a + b)[1..] == a[1..] + b;
      match (data, a[0])
      case (Object(fields), Key(k)) =>
        if k in fields {
          AtConcat(fields[k], a[1..], b);
        }
      case (Array(items), Index(i)) =>
        if i < |items| {
          AtConcat(items[i], a[1..], b);
        }
      case _ =>
    }
  }
}
