/** Trace context across process boundaries, `tracing/otel.go`: every transport extracts through one
    funnel that never takes the tenant from the carrier.

    The propagator is assumed: it injects the W3C headers that are not empty, and on extraction takes
    the trace fields of a valid traceparent and replaces the whole baggage when the values of the
    carrier's baggage header parse, leaving the context alone otherwise. Header encoding is a function,
    and its parser a function of all values of the header. */
module BaggageHops {
  import opened Wrappers

  const TENANT := "tenant.id"

  type Baggage = map<string, string>

  datatype Context = Context(traceparent: string, tracestate: string, baggage: Baggage)

  datatype Codec = Codec(
    format: Baggage -> string,
    parse: seq<string> -> Option<Baggage>,
    validTrace: string -> bool)

  /** Headers under canonical names, or gRPC metadata under any. */
  type Headers = map<string, seq<string>>

  const TRACEPARENT := "Traceparent"
  const TRACESTATE := "Tracestate"
  const BAGGAGE := "Baggage"

  function Values(h: Headers, key: string): seq<string> {
    if key in h then h[key] else []
  }

  function FirstOf(h: Headers, key: string): string {
    if Values(h, key) != [] then Values(h, key)[0] else ""
  }

  /** What the context writes under a header; empty means nothing is written. */
  function FieldOf(c: Codec, ctx: Context, key: string): string {
    if key == TRACEPARENT then ctx.traceparent
    else if key == TRACESTATE then ctx.tracestate
    else if key == BAGGAGE && ctx.baggage != map[] then c.format(ctx.baggage)
    else ""
  }

  function SetIf(h: Headers, key: string, value: string): Headers {
    if value == "" then h else h[key := [value]]
  }

  /** The propagator's `Inject`. */
  function Inject(c: Codec, ctx: Context, h: Headers): Headers {
    SetIf(SetIf(SetIf(h, TRACEPARENT, FieldOf(c, ctx, TRACEPARENT)), TRACESTATE, FieldOf(c, ctx, TRACESTATE)),
          BAGGAGE, FieldOf(c, ctx, BAGGAGE))
  }

  /** The baggage a carrier holds, if its header is there and parses. */
  function CarriedBaggage(c: Codec, h: Headers): Option<Baggage> {
    if Values(h, BAGGAGE) == [] then None else c.parse(Values(h, BAGGAGE))
  }

  /** The propagator's `Extract`. */
  function Extract(c: Codec, ctx: Context, h: Headers): Context {
    var tp := FirstOf(h, TRACEPARENT);
    var traced := if c.validTrace(tp) then ctx.(traceparent := tp, tracestate := FirstOf(h, TRACESTATE)) else ctx;
    match CarriedBaggage(c, h) case None => traced case Some(b) => traced.(baggage := b)
  }

  // ---------------------------------------------------------------- ExtractTraceContext

  function StripTenant(ctx: Context): Context {
    if ctx.baggage == map[] then ctx else ctx.(baggage := ctx.baggage - {TENANT})
  }

  /** The decoded value of the tenant member; absent reads as empty. */
  function TenantValue(ctx: Context): string {
    if TENANT in ctx.baggage then ctx.baggage[TENANT] else ""
  }

  function ExtractTraceContext(c: Codec, ctx: Context, carrier: Option<Headers>): Context {
    match carrier
    case None => ctx
    case Some(h) =>
      var extracted := StripTenant(Extract(c, ctx, h));
      if TenantValue(ctx) != "" then extracted.(baggage := extracted.baggage[TENANT := TenantValue(ctx)]) else extracted
  }

  /** Whatever the carrier holds: the tenant is the one the context had, every other member comes from the
      carrier if it carried baggage, and the trace from the carrier if its parent is valid; all else from
      the context. */
  lemma ExtractionKeepsTenant(c: Codec, ctx: Context, h: Headers)
    ensures var after := ExtractTraceContext(c, ctx, Some(h));
            var source := if CarriedBaggage(c, h).Some? then CarriedBaggage(c, h).value else ctx.baggage;
            && TenantValue(after) == TenantValue(ctx)
            && (forall k :: k != TENANT ==>
                 (k in after.baggage <==> k in source) && (k in after.baggage ==> after.baggage[k] == source[k]))
            && (TENANT in after.baggage <==> TenantValue(ctx) != "")
            && (if c.validTrace(FirstOf(h, "Traceparent"))
                then after.traceparent == FirstOf(h, "Traceparent") && after.tracestate == FirstOf(h, "Tracestate")
                else after.traceparent == ctx.traceparent && after.tracestate == ctx.tracestate)
  {
  }

  /** Without the restore the tenant would survive only a carrier that carries no baggage at all, and
      without the strip a carrier could choose it: both halves are needed. */
  lemma StripAndRestoreAreBothNeeded(c: Codec, ctx: Context, h: Headers)
    ensures TenantValue(StripTenant(Extract(c, ctx, h))) == ""
    ensures TenantValue(Extract(c, ctx, h)) ==
            if CarriedBaggage(c, h).Some? then
              (if TENANT in CarriedBaggage(c, h).value then CarriedBaggage(c, h).value[TENANT] else "")
            else TenantValue(ctx)
  {
  }

  // ---------------------------------------------------------------- many hops

  function ExtractAll(c: Codec, ctx: Context, carriers: seq<Option<Headers>>): Context {
    if carriers == [] then ctx
    else ExtractTraceContext(c, ExtractAll(c, ctx, carriers[..|carriers|-1]), carriers[|carriers|-1])
  }

  /** The last carrier in the list that carried baggage. */
  function LastCarried(c: Codec, carriers: seq<Option<Headers>>): Option<Baggage> {
    if carriers == [] then None
    else
      var last := carriers[|carriers|-1];
      if last.Some? && CarriedBaggage(c, last.value).Some? then CarriedBaggage(c, last.value)
      else LastCarried(c, carriers[..|carriers|-1])
  }

  /** Over any sequence of extractions from any carriers, nil ones included, the tenant never changes
      and every other member is that of the last carrier that carried baggage. */
  lemma {:induction false} TenantSurvivesEveryHop(c: Codec, ctx: Context, carriers: seq<Option<Headers>>)
    ensures var after := ExtractAll(c, ctx, carriers);
            var source := if LastCarried(c, carriers).Some? then LastCarried(c, carriers).value else ctx.baggage;
            && TenantValue(after) == TenantValue(ctx)
            && forall k :: k != TENANT ==>
                 (k in after.baggage <==> k in source) && (k in after.baggage ==> after.baggage[k] == source[k])
  {
    if carriers != [] {
      var front, last := carriers[..|carriers|-1], carriers[|carriers|-1];
      TenantSurvivesEveryHop(c, ctx, front);
      if last.Some? {
        ExtractionKeepsTenant(c, ExtractAll(c, ctx, front), last.value);
      }
    }
  }

  // ---------------------------------------------------------------- gRPC metadata

  const PAIRS: seq<(string, string)> := [("traceparent", TRACEPARENT), ("tracestate", TRACESTATE), ("baggage", BAGGAGE)]

  /** Moves a key's values to another key when it has any. */
  function MoveKey(md: Headers, from: string, to: string): Headers {
    if from in md && |md[from]| > 0 then md[to := md[from]] - {from} else md
  }

  function MoveAll(md: Headers, moves: seq<(string, string)>): Headers {
    if moves == [] then md
    else MoveKey(MoveAll(md, moves[..|moves|-1]), moves[|moves|-1].0, moves[|moves|-1].1)
  }

  const TO_LOWER: seq<(string, string)> :=
    [(TRACEPARENT, "traceparent"), (TRACESTATE, "tracestate"), (BAGGAGE, "baggage")]

  function InjectGRPC(c: Codec, ctx: Context, md: Headers): Headers {
    MoveAll(Inject(c, ctx, md), TO_LOWER)
  }

  function ExtractGRPC(c: Codec, ctx: Context, md: Option<Headers>): Context {
    match md case None => ctx case Some(h) => ExtractTraceContext(c, ctx, Some(MoveAll(h, PAIRS)))
  }

  /** `metadata.MD`, moved in place key by key. */
  class Metadata {
    var md: Headers

    constructor (md: Headers)
      ensures this.md == md
    {
      this.md := md;
    }

    method MovePairs(moves: seq<(string, string)>)
      modifies this
      ensures md == MoveAll(old(md), moves)
    {
      for i := 0 to |moves|
        invariant md == MoveAll(old(md), moves[..i])
      {
        assert moves[..i+1][..i] == moves[..i];
        var from, to := moves[i].0, moves[i].1;
        if from in md && |md[from]| > 0 {
          md := md[to := md[from]];
          md := md - {from};
        }
      }
      assert moves[..|moves|] == moves;
    }

    method InjectGRPCContext(c: Codec, ctx: Context)
      modifies this
      ensures md == InjectGRPC(c, ctx, old(md))
    {
      md := Inject(c, ctx, md);
      MovePairs(TO_LOWER);
    }

    /** Reads from a copy: the incoming metadata is left as it was. */
    method ExtractGRPCContext(c: Codec, ctx: Context) returns (extracted: Context)
      ensures extracted == ExtractGRPC(c, ctx, Some(md))
    {
      var mdCopy := new Metadata(md);
      mdCopy.MovePairs(PAIRS);
      extracted := ExtractTraceContext(c, ctx, Some(mdCopy.md));
    }
  }

  // ---------------------------------------------------------------- the remapping undone by the remapping

  lemma MoveKeyAt(md: Headers, from: string, to: string, key: string)
    requires from != to
    ensures Values(MoveKey(md, from, to), key) ==
            if Values(md, from) == [] then Values(md, key)
            else if key == to then Values(md, from)
            else if key == from then []
            else Values(md, key)
  {
  }

  lemma ThreeMoves(md: Headers, moves: seq<(string, string)>)
    requires |moves| == 3
    ensures MoveAll(md, moves) ==
            MoveKey(MoveKey(MoveKey(md, moves[0].0, moves[0].1), moves[1].0, moves[1].1), moves[2].0, moves[2].1)
  {
    assert moves[..2][..1] == moves[..1] && moves[..1][..0] == [];
    assert MoveAll(md, moves[..1]) == MoveKey(md, moves[0].0, moves[0].1);
    assert MoveAll(md, moves[..2]) == MoveKey(MoveAll(md, moves[..1]), moves[1].0, moves[1].1);
  }

  function LowerOf(key: string): string {
    if key == TRACEPARENT then "traceparent" else if key == TRACESTATE then "tracestate" else "baggage"
  }

  predicate Remapped(key: string) {
    key == TRACEPARENT || key == TRACESTATE || key == BAGGAGE
  }

  predicate Lowered(key: string) {
    key == "traceparent" || key == "tracestate" || key == "baggage"
  }

  /** The six spellings are six different keys. */
  lemma SpellingsDiffer()
    ensures TRACEPARENT != TRACESTATE && TRACEPARENT != BAGGAGE && TRACESTATE != BAGGAGE
    ensures "traceparent" != "tracestate" && "traceparent" != "baggage" && "tracestate" != "baggage"
    ensures forall p, l :: Remapped(p) && Lowered(l) ==> p != l
  {
    assert TRACEPARENT[0] == 'T' && TRACESTATE[0] == 'T' && BAGGAGE[0] == 'B' && TRACEPARENT[5] == 'p'
           && TRACESTATE[5] == 's';
    assert "traceparent"[0] == 't' && "tracestate"[0] == 't' && "baggage"[0] == 'b' && "traceparent"[5] == 'p'
           && "tracestate"[5] == 's';
  }

  /** Moving the three pairs moves each on its own. */
  lemma PairMoves(md: Headers, a: (string, string), b: (string, string), c: (string, string), key: string)
    requires a.0 != a.1 && b.0 != b.1 && c.0 != c.1
    requires a.0 !in {b.0, b.1, c.0, c.1} && a.1 !in {b.0, b.1, c.0, c.1} && b.0 !in {c.0, c.1} && b.1 !in {c.0, c.1}
    requires key in {a.0, a.1, b.0, b.1, c.0, c.1}
    ensures var own := if key in {a.0, a.1} then a else if key in {b.0, b.1} then b else c;
            Values(MoveAll(md, [a, b, c]), key) ==
            if Values(md, own.0) == [] then Values(md, key) else if key == own.1 then Values(md, own.0) else []
  {
    ThreeMoves(md, [a, b, c]);
    var m1 := MoveKey(md, a.0, a.1);
    var m2 := MoveKey(m1, b.0, b.1);
    MoveKeyAt(md, a.0, a.1, key);
    MoveKeyAt(md, a.0, a.1, b.0);
    MoveKeyAt(md, a.0, a.1, c.0);
    MoveKeyAt(m1, b.0, b.1, key);
    MoveKeyAt(m1, b.0, b.1, c.0);
    MoveKeyAt(m2, c.0, c.1, key);
  }

  /** After a gRPC inject and the extract's remapping a header reads as it did before both, or as its
      lowercase spelling did when it was absent. */
  lemma RemappedBack(md: Headers, key: string)
    requires Remapped(key)
    ensures Values(MoveAll(MoveAll(md, TO_LOWER), PAIRS), key) ==
            if Values(md, key) != [] then Values(md, key) else Values(md, LowerOf(key))
  {
    SpellingsDiffer();
    var lowered := MoveAll(md, TO_LOWER);
    PairMoves(md, TO_LOWER[0], TO_LOWER[1], TO_LOWER[2], key);
    PairMoves(md, TO_LOWER[0], TO_LOWER[1], TO_LOWER[2], LowerOf(key));
    PairMoves(lowered, PAIRS[0], PAIRS[1], PAIRS[2], key);
  }

  lemma InjectAt(c: Codec, ctx: Context, md: Headers, key: string)
    requires Remapped(key)
    ensures Values(Inject(c, ctx, md), key) ==
            if FieldOf(c, ctx, key) != "" then [FieldOf(c, ctx, key)] else Values(md, key)
  {
    SpellingsDiffer();
  }

  /** gRPC inject then extract, header by header: what the sender's context writes arrives; a field the
      sender leaves empty reads as whatever stale value the outgoing metadata already held. */
  lemma GrpcRoundTrip(c: Codec, sender: Context, md: Headers, key: string)
    requires Remapped(key)
    ensures var arrived := Values(MoveAll(InjectGRPC(c, sender, md), PAIRS), key);
            arrived == if FieldOf(c, sender, key) != "" then [FieldOf(c, sender, key)]
                       else if Values(md, key) != [] then Values(md, key)
                       else Values(md, LowerOf(key))
  {
    RemappedBack(Inject(c, sender, md), key);
    InjectAt(c, sender, md, key);
    LowerUntouchedByInject(c, sender, md, LowerOf(key));
  }

  lemma LowerUntouchedByInject(c: Codec, ctx: Context, md: Headers, lower: string)
    requires Lowered(lower)
    ensures Values(Inject(c, ctx, md), lower) == Values(md, lower)
  {
    SpellingsDiffer();
  }

  /** The header the sender's baggage is written to parses back to it; an empty trace is none. */
  ghost predicate CarriesBaggage(c: Codec, baggage: Baggage) {
    && (baggage != map[] ==> c.format(baggage) != "" && c.parse([c.format(baggage)]) == Some(baggage))
    && !c.validTrace("")
  }

  /** Metadata that holds none of the three fields, under either spelling. */
  ghost predicate NoStaleFields(md: Headers) {
    forall key :: Remapped(key) ==> Values(md, key) == [] && Values(md, LowerOf(key)) == []
  }

  /** From metadata with nothing stale in it, a receiver gets the sender's trace, its whole baggage
      except the tenant, and keeps its own tenant. */
  lemma ReceiverGetsSenderContext(c: Codec, sender: Context, receiver: Context, md: Headers)
    requires CarriesBaggage(c, sender.baggage) && NoStaleFields(md)
    ensures var after := ExtractGRPC(c, receiver, Some(InjectGRPC(c, sender, md)));
            var source := if sender.baggage != map[] then sender.baggage else receiver.baggage;
            && (c.validTrace(sender.traceparent) ==>
                after.traceparent == sender.traceparent && after.tracestate == sender.tracestate)
            && (!c.validTrace(sender.traceparent) ==>
                after.traceparent == receiver.traceparent && after.tracestate == receiver.tracestate)
            && TenantValue(after) == TenantValue(receiver)
            && forall k :: k != TENANT ==>
                 (k in after.baggage <==> k in source) && (k in after.baggage ==> after.baggage[k] == source[k])
  {
    var h := MoveAll(InjectGRPC(c, sender, md), PAIRS);
    GrpcRoundTrip(c, sender, md, TRACEPARENT);
    GrpcRoundTrip(c, sender, md, TRACESTATE);
    GrpcRoundTrip(c, sender, md, BAGGAGE);
    SpellingsDiffer();
    assert FirstOf(h, TRACEPARENT) == sender.traceparent;
    assert FirstOf(h, TRACESTATE) == sender.tracestate;
    assert CarriedBaggage(c, h) == if sender.baggage != map[] then Some(sender.baggage) else None;
    ExtractionKeepsTenant(c, receiver, h);
  }
}
