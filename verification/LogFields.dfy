/** The logger's universal argument list and the two loggers that accumulate fields from it:
    `log/log.go`, `log/adapt.go`, `log/go_logger.go`. */
module LogFields {
  import opened Decimals
  import opened Wrappers

  // ---------------------------------------------------------------- values

  predicate ControlFree(s: string) {
    forall i :: 0 <= i < |s| ==> s[i] !in ['\n', '\r', '\t', '\0']
  }

  type PlainText = s: string | ControlFree(s) witness ""

  datatype Field = Field(key: string, value: Value)

  /** What can stand in a `...any`: the shapes the loggers tell apart. A primitive prints without
      control characters; the other texts are whatever `Error`, `String` or `fmt` return. */
  datatype Value =
    | Nil
    | Str(s: string)
    | OneField(field: Field)
    | FieldPointer(pointee: Option<Field>)
    | FieldList(fields: seq<Field>)
    | Primitive(printed: PlainText)
    | TypedNil
    | Printable(text: string)

  const BAD_KEY := "!BADKEY"
  const BAD_LEVEL_KEY := "!BADLEVEL"
  const GROUP_KEY := "group"

  // ---------------------------------------------------------------- Fields and anyFields

  /** A string key takes the next argument along, when there is one. */
  predicate IsPair(args: seq<Value>, i: nat)
    requires i < |args|
  {
    args[i].Str? && i + 1 < |args|
  }

  /** The fields argument `i` yields, standing where a key may stand. */
  function Taken(args: seq<Value>, i: nat): seq<Field>
    requires i < |args|
  {
    match args[i]
    case OneField(f) => [f]
    case FieldPointer(p) => if p.Some? then [p.value] else []
    case FieldList(fs) => fs
    case Str(s) => if IsPair(args, i) then [Field(s, args[i+1])] else [Field(BAD_KEY, args[i])]
    case _ => [Field(BAD_KEY, args[i])]
  }

  function Next(args: seq<Value>, i: nat): nat
    requires i < |args|
    ensures i < Next(args, i) <= |args|
  {
    if IsPair(args, i) then i + 2 else i + 1
  }

  /** `Fields` from argument `i` on. */
  function FieldsFrom(args: seq<Value>, i: nat): seq<Field>
    requires i <= |args|
    decreases |args| - i
  {
    if i == |args| then [] else Taken(args, i) + FieldsFrom(args, Next(args, i))
  }

  function FieldsOf(args: seq<Value>): seq<Field> {
    FieldsFrom(args, 0)
  }

  lemma FieldsFromStep(args: seq<Value>, out: seq<Field>, i: nat)
    requires i < |args|
    ensures out + FieldsFrom(args, i) == (out + Taken(args, i)) + FieldsFrom(args, Next(args, i))
  {
  }

  method Fields(args: seq<Value>) returns (out: seq<Field>)
    ensures out == FieldsOf(args)
  {
    out := [];
    var i := 0;
    while i < |args|
      invariant i <= |args|
      invariant out + FieldsFrom(args, i) == FieldsOf(args)
    {
      ghost var before, from := out, i;
      FieldsFromStep(args, out, i);
      match args[i] {
        case OneField(f) =>
          out := out + [f];
          i := i + 1;
        case FieldPointer(p) =>
          if p.Some? {
            out := out + [p.value];
          }
          i := i + 1;
        case FieldList(fs) =>
          out := out + fs;
          i := i + 1;
        case Str(s) =>
          if i + 1 >= |args| {
            out := out + [Field(BAD_KEY, args[i])];
            i := i + 1;
          } else {
            out := out + [Field(s, args[i+1])];
            i := i + 2;
          }
        case _ =>
          out := out + [Field(BAD_KEY, args[i])];
          i := i + 1;
      }
      assert i == Next(args, from);
      assert out == before + Taken(args, from);
    }
  }

  function AnyFieldsOf(fields: seq<Field>): (r: seq<Value>)
    ensures |r| == |fields|
    ensures forall i :: 0 <= i < |fields| ==> r[i] == OneField(fields[i])
  {
    seq(|fields|, i requires 0 <= i < |fields| => OneField(fields[i]))
  }

  method AnyFields(fields: seq<Field>) returns (r: seq<Value>)
    ensures r == AnyFieldsOf(fields)
  {
    var out := new Value[|fields|](_ => Nil);
    for i := 0 to |fields|
      invariant forall k :: 0 <= k < i ==> out[k] == OneField(fields[k])
    {
      out[i] := OneField(fields[i]);
    }
    r := out[..];
  }

  lemma {:induction false} FieldsFromTail(a: seq<Value>, b: seq<Value>, i: nat)
    requires |a| <= i <= |a| + |b|
    ensures FieldsFrom(a + b, i) == FieldsFrom(b, i - |a|)
    decreases |a| + |b| - i
  {
    if i < |a| + |b| {
      assert Taken(a + b, i) == Taken(b, i - |a|);
      FieldsFromTail(a, b, Next(a + b, i));
    }
  }

  lemma {:induction false} WidenedFieldsComeBackFrom(fs: seq<Field>, args: seq<Value>, i: nat)
    requires i <= |fs|
    ensures FieldsFrom(AnyFieldsOf(fs) + args, i) == fs[i..] + FieldsOf(args)
    decreases |fs| - i
  {
    var all := AnyFieldsOf(fs) + args;
    if i == |fs| {
      FieldsFromTail(AnyFieldsOf(fs), args, i);
      assert fs[i..] == [];
    } else {
      assert all[i] == OneField(fs[i]);
      WidenedFieldsComeBackFrom(fs, args, i + 1);
      assert fs[i..] == [fs[i]] + fs[i+1..];
    }
  }

  /** Widening typed fields and normalizing again gives them back, whatever arguments follow them. */
  lemma WidenedFieldsComeBack(fs: seq<Field>, args: seq<Value>)
    ensures FieldsOf(AnyFieldsOf(fs) + args) == fs + FieldsOf(args)
  {
    WidenedFieldsComeBackFrom(fs, args, 0);
    assert fs[0..] == fs;
  }

  /** Alternating keys and values. */
  function Alternating(pairs: seq<Field>): seq<Value> {
    if pairs == [] then [] else [Str(pairs[0].key), pairs[0].value] + Alternating(pairs[1..])
  }

  /** Keys and values given in turn come back as fields, whatever arguments follow them. */
  lemma {:induction false} PairsComeBack(pairs: seq<Field>, args: seq<Value>)
    ensures FieldsOf(Alternating(pairs) + args) == pairs + FieldsOf(args)
    decreases |pairs|
  {
    hide FieldsOf;
    if pairs == [] {
      assert Alternating(pairs) + args == args;
    } else {
      var rest := Alternating(pairs[1..]) + args;
      assert Alternating(pairs) + args == [Str(pairs[0].key)] + ([pairs[0].value] + rest);
      FieldsReadFrontToBack(Str(pairs[0].key), [pairs[0].value] + rest);
      assert ([pairs[0].value] + rest)[1..] == rest;
      PairsComeBack(pairs[1..], args);
      assert pairs == [pairs[0]] + pairs[1..];
    }
  }

  /** What the first argument becomes: fields as they are, a string the key of the argument after it, and
      anything else, a last string too, the value of a bad key. The rest is read on its own. */
  lemma FieldsReadFrontToBack(v: Value, args: seq<Value>)
    ensures FieldsOf([]) == []
    ensures v.Str? && args != [] ==> FieldsOf([v] + args) == [Field(v.s, args[0])] + FieldsOf(args[1..])
    ensures !v.Str? || args == [] ==>
              FieldsOf([v] + args) ==
              (match v
               case OneField(f) => [f]
               case FieldPointer(None) => []
               case FieldPointer(Some(f)) => [f]
               case FieldList(fs) => fs
               case _ => [Field("!BADKEY", v)]) + FieldsOf(args)
  {
    var all := [v] + args;
    assert all[0] == v;
    if v.Str? && args != [] {
      FieldsFromTail([v, args[0]], args[1..], 2);
      assert all == [v, args[0]] + args[1..];
      assert all[1] == args[0];
    } else {
      FieldsFromTail([v], args, 1);
    }
  }

  /** An argument is accounted for in the result: a field as itself, anything else as a key or a value. */
  predicate Carried(arg: Value, out: seq<Field>) {
    match arg
    case OneField(f) => f in out || exists i :: 0 <= i < |out| && out[i].value == arg
    case FieldPointer(p) => p.None? || p.value in out || exists i :: 0 <= i < |out| && out[i].value == arg
    case FieldList(fs) => (forall f :: f in fs ==> f in out) || exists i :: 0 <= i < |out| && out[i].value == arg
    case Str(s) => exists i :: 0 <= i < |out| && (out[i].key == s || out[i].value == arg)
    case _ => exists i :: 0 <= i < |out| && out[i].value == arg
  }

  lemma CarriedInSuffix(arg: Value, front: seq<Field>, back: seq<Field>)
    requires Carried(arg, back)
    ensures Carried(arg, front + back)
  {
    var out := front + back;
    assert forall i :: 0 <= i < |back| ==> out[|front| + i] == back[i];
    assert forall f :: f in back ==> f in out;
  }

  lemma CarriedInFront(arg: Value, front: seq<Field>, back: seq<Field>)
    requires Carried(arg, front)
    ensures Carried(arg, front + back)
  {
    var out := front + back;
    assert forall i :: 0 <= i < |front| ==> out[i] == front[i];
    assert forall f :: f in front ==> f in out;
  }

  /** No argument but a nil field pointer is ever lost. */
  lemma {:induction false} NoArgumentIsLost(args: seq<Value>, i: nat, k: nat)
    requires i <= k < |args|
    ensures Carried(args[k], FieldsFrom(args, i))
    decreases |args| - i
  {
    var head, next := Taken(args, i), Next(args, i);
    if k < next {
      TakenCarries(args, i, k);
      CarriedInFront(args[k], head, FieldsFrom(args, next));
    } else {
      NoArgumentIsLost(args, next, k);
      CarriedInSuffix(args[k], head, FieldsFrom(args, next));
    }
  }

  lemma TakenCarries(args: seq<Value>, i: nat, k: nat)
    requires i <= k < |args| && k < Next(args, i)
    ensures Carried(args[k], Taken(args, i))
  {
    var head := Taken(args, i);
    if IsPair(args, i) {
      assert head[0] == Field(args[i].s, args[i+1]);
    } else {
      assert head != [] ==> head[0] in head;
    }
  }

  // ---------------------------------------------------------------- text

  function SanitizeChar(c: char): string {
    match c case '\n' => "\\n" case '\r' => "\\r" case '\t' => "\\t" case '\0' => "\\0" case _ => [c]
  }

  /** `sanitizeLogString`. */
  function Sanitize(s: string): string {
    if s == "" then "" else SanitizeChar(s[0]) + Sanitize(s[1..])
  }

  lemma ConcatControlFree(a: string, b: string)
    requires ControlFree(a) && ControlFree(b)
    ensures ControlFree(a + b)
  {
  }

  lemma {:induction false} SanitizedIsControlFree(s: string)
    ensures ControlFree(Sanitize(s))
  {
    if s != "" {
      SanitizedIsControlFree(s[1..]);
      ConcatControlFree(SanitizeChar(s[0]), Sanitize(s[1..]));
    }
  }

  lemma {:induction false} SanitizeOfConcat(a: string, b: string)
    ensures Sanitize(a + b) == Sanitize(a) + Sanitize(b)
    decreases |a|
  {
    hide SanitizeChar;
    if a == "" {
      assert a + b == b;
    } else {
      assert (a + b)[1..] == a[1..] + b;
      SanitizeOfConcat(a[1..], b);
    }
  }

  lemma {:induction false} PlainIsKept(s: string)
    requires ControlFree(s)
    ensures Sanitize(s) == s
  {
    if s != "" {
      PlainIsKept(s[1..]);
      assert s == [s[0]] + s[1..];
    }
  }

  /** The four control characters become a backslash and a letter where they stand, and nothing else
      changes. */
  lemma SanitizeReplacesControls(plain: string, c: char, rest: string)
    requires ControlFree(plain)
    ensures Sanitize(plain) == plain
    ensures c in "\n\r\t\0" ==>
              Sanitize(plain + [c] + rest) ==
              plain + ['\\', if c == '\n' then 'n' else if c == '\r' then 'r' else if c == '\t' then 't' else '0']
              + Sanitize(rest)
  {
    hide *;
    PlainIsKept(plain);
    SanitizeOfConcat(plain + [c], rest);
    SanitizeOfConcat(plain, [c]);
    SanitizeOne(c);
    EscapeOf(c);
  }

  lemma EscapeOf(c: char)
    ensures c in "\n\r\t\0" ==>
              SanitizeChar(c) ==
              ['\\', if c == '\n' then 'n' else if c == '\r' then 'r' else if c == '\t' then 't' else '0']
  {
  }

  lemma SanitizeOne(c: char)
    ensures Sanitize([c]) == SanitizeChar(c)
  {
    hide SanitizeChar;
    assert [c][1..] == "" && Sanitize("") == "";
    assert SanitizeChar(c) + "" == SanitizeChar(c);
  }

  function JoinWith(parts: seq<string>, sep: string): string {
    if parts == [] then "" else if |parts| == 1 then parts[0] else parts[0] + sep + JoinWith(parts[1..], sep)
  }

  /** The separator stands between any two neighbours and nowhere else. */
  lemma {:induction false} JoinPutsSeparatorBetween(a: seq<string>, b: seq<string>, sep: string)
    requires a != [] && b != []
    ensures JoinWith(a + b, sep) == JoinWith(a, sep) + sep + JoinWith(b, sep)
    ensures |a| == 1 ==> JoinWith(a, sep) == a[0]
    decreases |a|
  {
    assert (a + b)[1..] == a[1..] + b;
    if |a| > 1 {
      JoinPutsSeparatorBetween(a[1..], b, sep);
    }
  }

  lemma {:induction false} JoinControlFree(parts: seq<string>, sep: string)
    requires ControlFree(sep) && forall i :: 0 <= i < |parts| ==> ControlFree(parts[i])
    ensures ControlFree(JoinWith(parts, sep))
  {
    if |parts| > 1 {
      JoinControlFree(parts[1..], sep);
      ConcatControlFree(parts[0], sep);
      ConcatControlFree(parts[0] + sep, JoinWith(parts[1..], sep));
    }
  }

  /** `strings.TrimSpace(s) == ""`, on ASCII white space. */
  predicate Blank(s: string) {
    forall i :: 0 <= i < |s| ==> s[i] in [' ', '\t', '\n', '\r', 0x0B as char, 0x0C as char]
  }

  // ---------------------------------------------------------------- the accumulated state

  /** What a chain of With and WithGroup binds. */
  datatype Bound = Bound(fields: seq<Field>, groups: seq<string>)

  datatype Op = With(args: seq<Value>) | WithGroup(name: string)

  function Bind(b: Bound, op: Op): Bound {
    match op
    case With(args) => b.(fields := b.fields + FieldsOf(args))
    case WithGroup(name) => if Blank(name) then b else b.(groups := b.groups + [Sanitize(name)])
  }

  function BindAll(ops: seq<Op>): Bound {
    if ops == [] then Bound([], []) else Bind(BindAll(ops[..|ops|-1]), ops[|ops|-1])
  }

  lemma OneCallBinds(op: Op)
    ensures BindAll([op]) ==
            match op
            case With(args) => Bound(FieldsOf(args), [])
            case WithGroup(name) => Bound([], if Blank(name) then [] else [Sanitize(name)])
  {
    hide FieldsOf, Sanitize, Blank;
    assert [op][..0] == [] && BindAll([]) == Bound([], []);
    assert BindAll([op]) == Bind(Bound([], []), op);
  }

  /** A chain binds what its two halves bind, in order; one call binds the fields of its arguments or,
      unless it is blank, its sanitized name. */
  lemma {:induction false} ChainsBindInOrder(a: seq<Op>, b: seq<Op>)
    ensures BindAll(a + b).fields == BindAll(a).fields + BindAll(b).fields
    ensures BindAll(a + b).groups == BindAll(a).groups + BindAll(b).groups
    ensures a == [] ==> BindAll(a) == Bound([], [])
    ensures |a| == 1 ==>
              BindAll(a) == match a[0]
                            case With(args) => Bound(FieldsOf(args), [])
                            case WithGroup(name) => Bound([], if Blank(name) then [] else [Sanitize(name)])
    decreases |b|
  {
    hide FieldsOf, Sanitize, Blank;
    if |a| == 1 {
      OneCallBinds(a[0]);
      assert a == [a[0]];
    }
    if b == [] {
      assert a + b == a;
    } else {
      assert (a + b)[..|a + b|-1] == a + b[..|b|-1];
      ChainsBindInOrder(a, b[..|b|-1]);
    }
  }

  lemma {:induction false} GroupsAreControlFree(ops: seq<Op>)
    ensures forall i :: 0 <= i < |BindAll(ops).groups| ==> ControlFree(BindAll(ops).groups[i])
  {
    if ops != [] {
      GroupsAreControlFree(ops[..|ops|-1]);
      if ops[|ops|-1].WithGroup? {
        SanitizedIsControlFree(ops[|ops|-1].name);
      }
    }
  }

  // ---------------------------------------------------------------- the Adapt shim

  datatype Received = Received(level: int, msg: string, args: seq<Value>)

  /** The wrapped Log-only logger. */
  class Sink {
    var received: seq<Received>

    constructor ()
      ensures received == []
    {
      received := [];
    }

    method Log(level: int, msg: string, args: seq<Value>)
      modifies this
      ensures received == old(received) + [Received(level, msg, args)]
    {
      received := received + [Received(level, msg, args)];
    }
  }

  function GroupField(groups: seq<string>): seq<Field> {
    if groups == [] then [] else [Field(GROUP_KEY, Str(JoinWith(groups, ".")))]
  }

  /** The arguments the shim forwards: group, bound fields, the caller's own. */
  function Forwarded(b: Bound, args: seq<Value>): seq<Value> {
    AnyFieldsOf(GroupField(b.groups)) + AnyFieldsOf(b.fields) + args
  }

  class UniversalShim {
    const next: Sink
    const fields: seq<Field>
    const groups: seq<string>

    constructor (next: Sink, fields: seq<Field>, groups: seq<string>)
      ensures this.next == next && this.fields == fields && this.groups == groups
    {
      this.next, this.fields, this.groups := next, fields, groups;
    }

    method Log(level: int, msg: string, args: seq<Value>)
      modifies next
      ensures next.received == old(next.received) + [Received(level, msg, Forwarded(Bound(fields, groups), args))]
    {
      var merged: seq<Value> := [];
      if |groups| > 0 {
        merged := merged + [OneField(Field(GROUP_KEY, Str(JoinWith(groups, "."))))];
      }
      assert merged == AnyFieldsOf(GroupField(groups));
      var bound := AnyFields(fields);
      merged := merged + bound;
      merged := merged + args;
      next.Log(level, msg, merged);
    }

    method With(args: seq<Value>) returns (child: UniversalShim)
      ensures child.next == next && Bound(child.fields, child.groups) == Bind(Bound(fields, groups), Op.With(args))
    {
      var typed := Fields(args);
      child := new UniversalShim(next, fields + typed, groups);
    }

    method WithGroup(name: string) returns (child: UniversalShim)
      ensures child.next == next && Bound(child.fields, child.groups) == Bind(Bound(fields, groups), Op.WithGroup(name))
    {
      if Blank(name) {
        return this;
      }
      child := new UniversalShim(next, fields, groups + [Sanitize(name)]);
    }
  }

  /** A chain of derivations from a fresh shim. */
  method ShimChain(next: Sink, ops: seq<Op>) returns (shim: UniversalShim)
    ensures shim.next == next && Bound(shim.fields, shim.groups) == BindAll(ops)
  {
    shim := new UniversalShim(next, [], []);
    for i := 0 to |ops|
      invariant shim.next == next && Bound(shim.fields, shim.groups) == BindAll(ops[..i])
    {
      assert ops[..i+1][..i] == ops[..i];
      match ops[i]
      case With(args) => shim := shim.With(args);
      case WithGroup(name) => shim := shim.WithGroup(name);
    }
    assert ops[..|ops|] == ops;
  }

  /** However a shim was derived, what its sink receives normalizes to the group, then every bound field
      in binding order, then the caller's own: a dangling key bound by one call never swallows the
      next call's first argument. */
  lemma SinkSeesGroupBoundOwn(ops: seq<Op>, args: seq<Value>)
    ensures FieldsOf(Forwarded(BindAll(ops), args)) ==
            GroupField(BindAll(ops).groups) + BindAll(ops).fields + FieldsOf(args)
    ensures BindAll(ops).groups != [] ==>
              GroupField(BindAll(ops).groups) == [Field("group", Str(JoinWith(BindAll(ops).groups, ".")))]
  {
    var b := BindAll(ops);
    var all := GroupField(b.groups) + b.fields;
    assert AnyFieldsOf(GroupField(b.groups)) + AnyFieldsOf(b.fields) == AnyFieldsOf(all);
    WidenedFieldsComeBack(all, args);
  }

  // ---------------------------------------------------------------- GoLogger

  const LEVEL_ERROR := 0

  predicate LevelValid(level: int) {
    0 <= level <= 3
  }

  function LevelName(level: int): string {
    match level case 3 => "debug" case 2 => "info" case 1 => "warn" case 0 => "error" case _ => "unknown"
  }

  /** How composite values print, and which keys are redacted. */
  datatype Printer = Printer(sprint: Value -> string, sensitive: string -> bool)

  function RenderValue(p: Printer, v: Value): string {
    match v
    case Nil => "<nil>"
    case TypedNil => "<nil>"
    case FieldPointer(None) => "<nil>"
    case Str(s) => Sanitize(s)
    case Primitive(printed) => printed
    case Printable(text) => Sanitize(text)
    case _ => Sanitize(p.sprint(v))
  }

  function RenderField(p: Printer, f: Field): string {
    Sanitize(f.key) + "=" + (if p.sensitive(f.key) then "[REDACTED]" else RenderValue(p, f.value))
  }

  /** The fields that are printed: an empty key is skipped. */
  function RenderedParts(p: Printer, fields: seq<Field>): seq<string> {
    if fields == [] then []
    else
      var rest := RenderedParts(p, fields[..|fields|-1]);
      var last := fields[|fields|-1];
      if Sanitize(last.key) == "" then rest else rest + [RenderField(p, last)]
  }

  function RenderFields(p: Printer, fields: seq<Field>): string {
    var parts := RenderedParts(p, fields);
    if parts == [] then "" else "[" + JoinWith(parts, ", ") + "]"
  }

  function LineParts(p: Printer, b: Bound, level: int, msg: string, own: seq<Field>): seq<string> {
    var rendered := RenderFields(p, b.fields + own);
    ["[" + LevelName(level) + "]"]
    + (if b.groups != [] then ["[group=" + JoinWith(b.groups, ".") + "]"] else [])
    + (if rendered != "" then [rendered] else [])
    + [Sanitize(msg)]
  }

  /** How an integer prints. */
  function Decimal(n: int): PlainText {
    if n < 0 then "-" + Digits(-n) else Digits(n)
  }

  function ReadDecimal(s: string): int {
    if s != "" && s[0] == '-' then -ReadDigits(s[1..]) else ReadDigits(s)
  }

  /** The number attached to an undefined level is that level: it reads back. */
  lemma DecimalReadsBack(n: int)
    ensures ReadDecimal(Decimal(n)) == n
  {
    hide Digits, ReadDigits;
    if n < 0 {
      DigitsReadBack(-n);
      assert Decimal(n)[1..] == Digits(-n);
    } else {
      DigitsReadBack(n);
    }
  }

  /** The line printed for a call, or None when the level is not enabled. An undefined level is
      printed as an error that carries the original number. */
  function LineOf(p: Printer, b: Bound, ceiling: int, level: int, msg: string,
                  args: seq<Value>): Option<string> {
    var own :=
      if LevelValid(level) then FieldsOf(args)
      else FieldsOf(args) + [Field(BAD_LEVEL_KEY, Primitive(Decimal(level)))];
    var effective := if LevelValid(level) then level else LEVEL_ERROR;
    if ceiling < effective then None else Some(JoinWith(LineParts(p, b, effective, msg, own), " "))
  }

  class GoLogger {
    const printer: Printer
    const level: int
    const fields: seq<Field>
    const groups: seq<string>

    constructor (printer: Printer, level: int, fields: seq<Field>, groups: seq<string>)
      ensures this.printer == printer && this.level == level && this.fields == fields && this.groups == groups
    {
      this.printer, this.level, this.fields, this.groups := printer, level, fields, groups;
    }

    method With(args: seq<Value>) returns (child: GoLogger)
      ensures child.printer == printer && child.level == level
      ensures Bound(child.fields, child.groups) == Bind(Bound(fields, groups), Op.With(args))
    {
      var typed := Fields(args);
      child := new GoLogger(printer, level, fields + typed, groups);
    }

    method WithGroup(name: string) returns (child: GoLogger)
      ensures child.printer == printer && child.level == level
      ensures Bound(child.fields, child.groups) == Bind(Bound(fields, groups), Op.WithGroup(name))
    {
      if Blank(name) {
        return this;
      }
      child := new GoLogger(printer, level, fields, groups + [Sanitize(name)]);
    }

    method RenderAll(fields: seq<Field>) returns (rendered: string)
      ensures rendered == RenderFields(printer, fields)
    {
      var parts := [];
      for i := 0 to |fields|
        invariant parts == RenderedParts(printer, fields[..i])
      {
        assert fields[..i+1][..i] == fields[..i];
        var field := fields[i];
        var key := Sanitize(field.key);
        if key == "" {
          continue;
        }
        var value := "[REDACTED]";
        if !printer.sensitive(field.key) {
          value := RenderValue(printer, field.value);
        }
        parts := parts + [key + "=" + value];
      }
      assert fields[..|fields|] == fields;
      if |parts| == 0 {
        return "";
      }
      return "[" + JoinWith(parts, ", ") + "]";
    }

    method Log(lvl: int, msg: string, args: seq<Value>) returns (line: Option<string>)
      ensures line == LineOf(printer, Bound(fields, groups), level, lvl, msg, args)
    {
      var typed := Fields(args);
      var effective := lvl;
      if !LevelValid(lvl) {
        typed := typed + [Field(BAD_LEVEL_KEY, Primitive(Decimal(lvl)))];
        effective := LEVEL_ERROR;
      }
      if level < effective {
        return None;
      }
      var hydrated := HydrateLine(effective, msg, typed);
      return Some(hydrated);
    }

    method HydrateLine(lvl: int, msg: string, own: seq<Field>) returns (hydrated: string)
      ensures hydrated == JoinWith(LineParts(printer, Bound(fields, groups), lvl, msg, own), " ")
    {
      var parts := ["[" + LevelName(lvl) + "]"];
      if |groups| > 0 {
        parts := parts + ["[group=" + JoinWith(groups, ".") + "]"];
      }
      var rendered := RenderAll(fields + own);
      if rendered != "" {
        parts := parts + [rendered];
      }
      parts := parts + [Sanitize(msg)];
      assert parts == LineParts(printer, Bound(fields, groups), lvl, msg, own);
      return JoinWith(parts, " ");
    }
  }

  method GoChain(printer: Printer, level: int, ops: seq<Op>) returns (logger: GoLogger)
    ensures logger.printer == printer && logger.level == level
    ensures Bound(logger.fields, logger.groups) == BindAll(ops)
  {
    logger := new GoLogger(printer, level, [], []);
    for i := 0 to |ops|
      invariant logger.printer == printer && logger.level == level
      invariant Bound(logger.fields, logger.groups) == BindAll(ops[..i])
    {
      assert ops[..i+1][..i] == ops[..i];
      match ops[i]
      case With(args) => logger := logger.With(args);
      case WithGroup(name) => logger := logger.WithGroup(name);
    }
    assert ops[..|ops|] == ops;
  }

  /** The two loggers agree: after the same chain, on a valid and enabled level, the sink of the shim
      normalizes to the group field followed by exactly the fields GoLogger renders into its line. */
  method LoggersAgree(next: Sink, printer: Printer, ops: seq<Op>, level: int, msg: string,
                      args: seq<Value>)
    returns (line: Option<string>)
    requires LevelValid(level)
    modifies next
    ensures |next.received| == |old(next.received)| + 1
    ensures var b := BindAll(ops);
            var got := next.received[|next.received|-1];
            && got.level == level && got.msg == msg
            && FieldsOf(got.args) == GroupField(b.groups) + (b.fields + FieldsOf(args))
            && line == Some(JoinWith(LineParts(printer, b, level, msg, FieldsOf(args)), " "))
  {
    hide FieldsOf, FieldsFrom, Forwarded, BindAll, GroupField, LineParts, JoinWith;
    var shim := ShimChain(next, ops);
    var logger := GoChain(printer, 3, ops);
    shim.Log(level, msg, args);
    line := logger.Log(level, msg, args);
    SinkSeesGroupBoundOwn(ops, args);
    var b := BindAll(ops);
    assert GroupField(b.groups) + b.fields + FieldsOf(args) == GroupField(b.groups) + (b.fields + FieldsOf(args));
  }

  // ---------------------------------------------------------------- what a line says

  /** Fields render one by one, in order; a field without a key does not show, and a sensitive one does
      not show its value. */
  lemma {:induction false} FieldsRenderOneByOne(p: Printer, a: seq<Field>, b: seq<Field>)
    ensures RenderedParts(p, a + b) == RenderedParts(p, a) + RenderedParts(p, b)
    ensures RenderedParts(p, []) == []
    ensures |a| == 1 ==>
              RenderedParts(p, a) ==
              if a[0].key == "" then []
              else [Sanitize(a[0].key) + "=" +
                    (if p.sensitive(a[0].key) then "[REDACTED]" else RenderValue(p, a[0].value))]
    decreases |b|
  {
    hide RenderValue, Sanitize;
    if |a| == 1 {
      assert a[..0] == [] && RenderedParts(p, []) == [];
      SanitizedIsEmptyIff(a[0].key);
    }
    if b == [] {
      assert a + b == a;
    } else {
      assert (a + b)[..|a + b|-1] == a + b[..|b|-1];
      FieldsRenderOneByOne(p, a, b[..|b|-1]);
    }
  }

  lemma SanitizedIsEmptyIff(s: string)
    ensures Sanitize(s) == "" <==> s == ""
  {
    assert s != "" ==> |SanitizeChar(s[0])| > 0;
  }

  /** What a value shows: itself if it is text, escaped, and "<nil>" for the three kinds of nil. */
  lemma ValuesShowAs(p: Printer, s: string, printed: PlainText)
    ensures RenderValue(p, Nil) == RenderValue(p, TypedNil) == RenderValue(p, FieldPointer(None)) == "<nil>"
    ensures RenderValue(p, Str(s)) == RenderValue(p, Printable(s)) == Sanitize(s)
    ensures RenderValue(p, Primitive(printed)) == printed
    ensures ControlFree(s) ==> RenderValue(p, Str(s)) == s
  {
    hide Sanitize;
    if ControlFree(s) {
      PlainIsKept(s);
    }
  }

  /** A line is printed exactly if its level, or "error" for an undefined one, is within the ceiling. It
      holds the level's name, the groups if there are any, the fields that show if there are any, with
      the number of an undefined level last, and the message. */
  lemma LineReads(p: Printer, b: Bound, ceiling: int, level: int, msg: string, args: seq<Value>)
    ensures var effective := if 0 <= level <= 3 then level else 0;
            var bad := if 0 <= level <= 3 then [] else [Field("!BADLEVEL", Primitive(Decimal(level)))];
            var shown := RenderedParts(p, b.fields + (FieldsOf(args) + bad));
            LineOf(p, b, ceiling, level, msg, args) ==
            if effective > ceiling then None
            else Some("[" + ["error", "warn", "info", "debug"][effective] + "]"
                      + (if b.groups != [] then " " + ("[group=" + JoinWith(b.groups, ".") + "]") else "")
                      + (if shown != [] then " " + ("[" + JoinWith(shown, ", ") + "]") else "")
                      + " " + Sanitize(msg))
  {
    hide FieldsOf, RenderedParts, Sanitize, JoinWith, Decimal, LineParts;
    var effective := if LevelValid(level) then level else 0;
    var bad := if LevelValid(level) then [] else [Field(BAD_LEVEL_KEY, Primitive(Decimal(level)))];
    assert LevelValid(level) ==> FieldsOf(args) + bad == FieldsOf(args);
    PartsReadAsLine(p, b, effective, msg, FieldsOf(args) + bad);
  }

  lemma PartsReadAsLine(p: Printer, b: Bound, level: int, msg: string, own: seq<Field>)
    requires 0 <= level <= 3
    ensures var shown := RenderedParts(p, b.fields + own);
            JoinWith(LineParts(p, b, level, msg, own), " ") ==
            "[" + ["error", "warn", "info", "debug"][level] + "]"
            + (if b.groups != [] then " " + ("[group=" + JoinWith(b.groups, ".") + "]") else "")
            + (if shown != [] then " " + ("[" + JoinWith(shown, ", ") + "]") else "")
            + " " + Sanitize(msg)
  {
    hide RenderedParts, Sanitize, JoinWith;
    var shown := RenderedParts(p, b.fields + own);
    var name := "[" + ["error", "warn", "info", "debug"][level] + "]";
    var group := "[group=" + JoinWith(b.groups, ".") + "]";
    var rendered := "[" + JoinWith(shown, ", ") + "]";
    ThePartsAre(p, b, level, msg, own, shown);
    hide LineParts;
    UpToFourParts(name, b.groups != [], group, shown != [], rendered, Sanitize(msg));
  }

  lemma ThePartsAre(p: Printer, b: Bound, level: int, msg: string, own: seq<Field>, shown: seq<string>)
    requires 0 <= level <= 3 && shown == RenderedParts(p, b.fields + own)
    ensures LineParts(p, b, level, msg, own) ==
            ["[" + ["error", "warn", "info", "debug"][level] + "]"]
            + (if b.groups != [] then ["[group=" + JoinWith(b.groups, ".") + "]"] else [])
            + (if shown != [] then ["[" + JoinWith(shown, ", ") + "]"] else [])
            + [Sanitize(msg)]
  {
    hide RenderedParts, Sanitize, JoinWith;
    assert |"[" + JoinWith(shown, ", ") + "]"| > 0;
    assert ["error", "warn", "info", "debug"][level] == LevelName(level);
  }

  lemma JoinOne(s: string, sep: string)
    ensures JoinWith([s], sep) == s
  {
  }

  lemma UpToFourParts(a: string, hasB: bool, b: string, hasC: bool, c: string, d: string)
    ensures JoinWith([a] + (if hasB then [b] else []) + (if hasC then [c] else []) + [d], " ") ==
            a + (if hasB then " " + b else "") + (if hasC then " " + c else "") + " " + d
  {
    hide JoinWith;
    var x, y := if hasB then [b] else [], if hasC then [c] else [];
    JoinPutsSeparatorBetween([a] + x + y, [d], " ");
    JoinAppended([a] + x, y, " ");
    JoinAppended([a], x, " ");
    JoinOne(a, " ");
    JoinOne(d, " ");
  }

  lemma JoinAppended(a: seq<string>, b: seq<string>, sep: string)
    requires a != [] && |b| <= 1
    ensures JoinWith(a + b, sep) == JoinWith(a, sep) + (if b == [] then "" else sep + b[0])
  {
    hide JoinWith;
    if b == [] {
      assert a + b == a;
      assert JoinWith(a, sep) + "" == JoinWith(a, sep);
    } else {
      JoinPutsSeparatorBetween(a, b, sep);
      assert b == [b[0]];
      JoinOne(b[0], sep);
      assert JoinWith(a, sep) + sep + b[0] == JoinWith(a, sep) + (sep + b[0]);
    }
  }

  // ---------------------------------------------------------------- one line per entry

  lemma RenderedValueIsControlFree(p: Printer, v: Value)
    ensures ControlFree(RenderValue(p, v))
  {
    hide Sanitize;
    match v {
      case Str(s) => SanitizedIsControlFree(s);
      case Printable(text) => SanitizedIsControlFree(text);
      case _ => SanitizedIsControlFree(p.sprint(v));
    }
  }

  lemma RenderedFieldIsControlFree(p: Printer, f: Field)
    ensures ControlFree(RenderField(p, f))
  {
    SanitizedIsControlFree(f.key);
    RenderedValueIsControlFree(p, f.value);
    var shown := if p.sensitive(f.key) then "[REDACTED]" else RenderValue(p, f.value);
    assert ControlFree(shown);
    hide Sanitize, RenderValue;
    ConcatControlFree(Sanitize(f.key), "=");
    ConcatControlFree(Sanitize(f.key) + "=", shown);
  }

  lemma {:induction false} PartsAreControlFree(p: Printer, fields: seq<Field>)
    ensures forall i :: 0 <= i < |RenderedParts(p, fields)| ==> ControlFree(RenderedParts(p, fields)[i])
  {
    if fields != [] {
      PartsAreControlFree(p, fields[..|fields|-1]);
      RenderedFieldIsControlFree(p, fields[|fields|-1]);
    }
  }

  /** Whatever was bound or logged, an entry is one line: no LF, CR, tab or NUL gets through. */
  lemma EveryLineIsControlFree(p: Printer, ops: seq<Op>, ceiling: int, level: int, msg: string,
                               args: seq<Value>)
    ensures var line := LineOf(p, BindAll(ops), ceiling, level, msg, args);
            line.Some? ==> ControlFree(line.value)
  {
    GroupsAreControlFree(ops);
    if LevelValid(level) {
      LineIsControlFree(p, BindAll(ops), level, msg, FieldsOf(args));
    } else {
      LineIsControlFree(p, BindAll(ops), LEVEL_ERROR, msg,
                        FieldsOf(args) + [Field(BAD_LEVEL_KEY, Primitive(Decimal(level)))]);
    }
  }

  lemma LineIsControlFree(p: Printer, b: Bound, level: int, msg: string, own: seq<Field>)
    requires forall i :: 0 <= i < |b.groups| ==> ControlFree(b.groups[i])
    ensures ControlFree(JoinWith(LineParts(p, b, level, msg, own), " "))
  {
    LinePartsAreControlFree(p, b, level, msg, own);
    JoinControlFree(LineParts(p, b, level, msg, own), " ");
  }

  lemma RenderedFieldsAreControlFree(p: Printer, fields: seq<Field>)
    ensures ControlFree(RenderFields(p, fields))
  {
    PartsAreControlFree(p, fields);
    JoinControlFree(RenderedParts(p, fields), ", ");
  }

  lemma LevelTagIsControlFree(level: int)
    ensures ControlFree("[" + LevelName(level) + "]")
  {
  }

  lemma TagIsControlFree(open: string, s: string)
    requires ControlFree(open) && ControlFree(s)
    ensures ControlFree(open + s + "]")
  {
    ConcatControlFree(open, s);
    ConcatControlFree(open + s, "]");
  }

  lemma LinePartsAreControlFree(p: Printer, b: Bound, level: int, msg: string, own: seq<Field>)
    requires forall i :: 0 <= i < |b.groups| ==> ControlFree(b.groups[i])
    ensures forall i :: 0 <= i < |LineParts(p, b, level, msg, own)| ==> ControlFree(LineParts(p, b, level, msg, own)[i])
  {
    assert ControlFree("[group=") && ControlFree(".");
    JoinControlFree(b.groups, ".");
    RenderedFieldsAreControlFree(p, b.fields + own);
    SanitizedIsControlFree(msg);
    LevelTagIsControlFree(level);
    hide JoinWith, RenderFields, Sanitize, LevelName, ControlFree;
    assert ControlFree("[group=" + JoinWith(b.groups, ".") + "]") by {
      TagIsControlFree("[group=", JoinWith(b.groups, "."));
    }
  }

  /** Two field lists that differ only in values under sensitive keys. */
  predicate SameButSecrets(p: Printer, a: seq<Field>, b: seq<Field>) {
    |a| == |b| &&
    forall i :: 0 <= i < |a| ==>
      a[i].key == b[i].key && (p.sensitive(a[i].key) || a[i].value == b[i].value)
  }

  /** The rendering does not depend on any value under a sensitive key. */
  lemma {:induction false} SecretsDoNotShow(p: Printer, a: seq<Field>, b: seq<Field>)
    requires SameButSecrets(p, a, b)
    ensures RenderFields(p, a) == RenderFields(p, b) && RenderedParts(p, a) == RenderedParts(p, b)
  {
    if a != [] {
      SecretsDoNotShow(p, a[..|a|-1], b[..|b|-1]);
    }
  }
}
