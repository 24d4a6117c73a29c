/** The gRPC server interceptors of `grpcmiddleware/telemetry.go` around an arbitrary handler.

    Unlike a Fiber request, a gRPC context is a value: an interceptor hands a new one down, and the ones
    above it never see the change. grpc-go itself is assumed: a chained handler runs the rest of the
    stack with the context it is given. Application interceptors turn the outcome of what they wrap
    into any other outcome. */
module GrpcChain {
  import opened Wrappers
  import opened ErrorTree
  import HttpChain

  type Outcome = HttpChain.Outcome
  type Mode = HttpChain.TelemetryMode

  datatype Interceptor =
    | Telemetry(mode: Mode, metered: bool)
    | EndSpans
    | App(after: Outcome -> Outcome)

  /** `spanEndState` as far as a context carries it; whether its once has fired is `State.fired`. */
  datatype EndState = EndState(span: nat, owned: bool)

  datatype Context = Context(span: Option<nat>, endState: Option<EndState>)

  datatype Event =
    | SpanStart(id: nat)
    | SpanDescribed(id: nat, code: int, err: Option<Err>)
    | SpanEnd(id: nat)
    | Duration(code: int)

  datatype State = State(events: seq<Event>, nextSpan: nat, fired: set<nat>)

  /** `status.Code` of a normalized error: None where the lookup panics, and with what. That an error can
      be stringified does not rule this out: its first match for a status may be a typed nil. */
  datatype Codes = Codes(of: Option<Err> -> Option<int>, panic: HttpChain.PanicValue)

  const UNKNOWN_STATUS: Err := Other(false, Own("rpc error: code = Unknown desc = internal error"), NoMatch, NoUnwrap)

  /** `NormalizeGRPCError`. */
  function NormalizeError(e: Option<Err>): Option<Err> {
    if e.Some? && !IsSafeToStringify(e.value) then Some(UNKNOWN_STATUS) else e
  }

  /** What the interceptors above and grpc-go are given never panics when stringified. */
  lemma NormalizedIsSafe(e: Err)
    ensures var n := NormalizeError(Some(e));
            n.Some? && IsSafeToStringify(n.value) && (n == Some(e) <==> IsSafeToStringify(e)) && NormalizeError(n) == n
  {
    assert Stringify(UNKNOWN_STATUS) == Some("rpc error: code = Unknown desc = internal error");
  }

  // ---------------------------------------------------------------- one interceptor's own steps

  function Emit(s: State, e: Event): State {
    s.(events := s.events + [e])
  }

  /** `spanEndState.End`. */
  function End(s: State, id: nat): State {
    if id in s.fired then s else Emit(s, SpanEnd(id)).(fired := s.fired + {id})
  }

  /** `EndTracingSpansInterceptor`, once its handler has returned. */
  function EndCurrent(s: State, ctx: Context): State {
    match ctx
    case Context(_, Some(state)) => if state.owned then s else End(s, state.span)
    case Context(Some(id), None) => Emit(s, SpanEnd(id))
    case Context(None, None) => s
  }

  function Start(s: State): State {
    Emit(s, SpanStart(s.nextSpan)).(nextSpan := s.nextSpan + 1)
  }

  function OwnedContext(id: nat): Context {
    Context(Some(id), Some(EndState(id, true)))
  }

  function Measure(s: State, metered: bool, code: int): State {
    if metered then Emit(s, Duration(code)) else s
  }

  /** Whether a telemetry interceptor asks for the status: a span and an instrument both need it. */
  predicate Asks(mode: Mode, metered: bool) {
    mode == HttpChain.Tracing || (mode == HttpChain.MetricsOnly && metered)
  }

  /** What an interceptor returns for the outcome of its handler. */
  function Passed(i: Interceptor, codes: Codes, out: Outcome): Outcome {
    match i
    case App(after) => after(out)
    case EndSpans => out
    case Telemetry(mode, metered) =>
      if mode == HttpChain.Off || out.Panicked? then out
      else
        var e := NormalizeError(out.err);
        if Asks(mode, metered) && codes.of(e).None? then HttpChain.Panicked(codes.panic) else HttpChain.Returned(e)
  }

  /** What a tracing interceptor does after its handler: the deferred end comes last, panic or not. */
  function FinishTracing(s: State, id: nat, codes: Codes, out: Outcome, metered: bool): State {
    if out.Panicked? then End(s, id)
    else
      var e := NormalizeError(out.err);
      match codes.of(e)
      case None => End(s, id)
      case Some(code) => End(Measure(Emit(s, SpanDescribed(id, code, e)), metered, code), id)
  }

  /** What any other interceptor does after its handler: nothing when a panic crosses it. */
  function AfterOther(i: Interceptor, codes: Codes, out: Outcome, ctx: Context, s: State): State {
    if out.Panicked? then s
    else
      match i
      case EndSpans => EndCurrent(s, ctx)
      case Telemetry(mode, metered) =>
        (match codes.of(NormalizeError(out.err))
         case None => s
         case Some(code) => Measure(s, Asks(mode, metered), code))
      case App(_) => s
  }

  predicate IsTracing(i: Interceptor) {
    i.Telemetry? && i.mode == HttpChain.Tracing
  }

  /** A whole chain: the meaning the methods of `Call` are proved against. */
  function Exec(stack: seq<Interceptor>, codes: Codes, handler: Outcome, ctx: Context, s: State): (State, Outcome) {
    if stack == [] then (s, handler)
    else
      if IsTracing(stack[0]) then
        var id := s.nextSpan;
        var (s1, out) := Exec(stack[1..], codes, handler, OwnedContext(id), Start(s));
        (FinishTracing(s1, id, codes, out, stack[0].metered), Passed(stack[0], codes, out))
      else
        var (s1, out) := Exec(stack[1..], codes, handler, ctx, s);
        (AfterOther(stack[0], codes, out, ctx, s1), Passed(stack[0], codes, out))
  }

  // ---------------------------------------------------------------- the chain as it runs

  /** What one RPC does to its spans and instruments. */
  class Call {
    var events: seq<Event>
    var nextSpan: nat
    var fired: set<nat>

    constructor (nextSpan: nat)
      ensures View() == State([], nextSpan, {})
    {
      this.events, this.nextSpan, this.fired := [], nextSpan, {};
    }

    function View(): State
      reads this
    {
      State(events, nextSpan, fired)
    }

    method Record(e: Event)
      modifies this`events
      ensures View() == Emit(old(View()), e)
    {
      events := events + [e];
    }

    /** The once of a `spanEndState`. */
    method EndOnce(id: nat)
      modifies this`events, this`fired
      ensures View() == End(old(View()), id)
    {
      if id !in fired {
        fired := fired + {id};
        events := events + [SpanEnd(id)];
      }
    }

    /** The chained `grpc.UnaryHandler`. */
    method Handle(stack: seq<Interceptor>, codes: Codes, handler: Outcome, ctx: Context) returns (out: Outcome)
      modifies this
      ensures (View(), out) == Exec(stack, codes, handler, ctx, old(View()))
      decreases |stack|, 1
    {
      if stack == [] {
        return handler;
      }
      match stack[0]
      case Telemetry(_, _) => out := WithTelemetryInterceptor(stack, codes, handler, ctx);
      case EndSpans => out := EndTracingSpansInterceptor(stack, codes, handler, ctx);
      case App(after) =>
        out := Handle(stack[1..], codes, handler, ctx);
        out := after(out);
    }

    method WithTelemetryInterceptor(stack: seq<Interceptor>, codes: Codes, handler: Outcome, ctx: Context)
      returns (out: Outcome)
      requires stack != [] && stack[0].Telemetry?
      modifies this
      ensures (View(), out) == Exec(stack, codes, handler, ctx, old(View()))
      decreases |stack|, 0
    {
      var mode, metered := stack[0].mode, stack[0].metered;
      if mode == HttpChain.Off {
        out := Handle(stack[1..], codes, handler, ctx);
        return;
      }
      if mode == HttpChain.MetricsOnly {
        out := Handle(stack[1..], codes, handler, ctx);
        if out.Returned? {
          var e := NormalizeError(out.err);
          out := HttpChain.Returned(e);
          if metered {
            match codes.of(e)
            case None => out := HttpChain.Panicked(codes.panic);
            case Some(code) => Record(Duration(code));
          }
        }
        return;
      }
      var id := nextSpan;
      Record(SpanStart(id));
      nextSpan := id + 1;
      out := Handle(stack[1..], codes, handler, OwnedContext(id));
      if out.Returned? {
        var e := NormalizeError(out.err);
        match codes.of(e)
        case None =>
          out := HttpChain.Panicked(codes.panic);
        case Some(code) =>
          Record(SpanDescribed(id, code, e));
          if metered {
            Record(Duration(code));
          }
          out := HttpChain.Returned(e);
      }
      // Deferred: reached on a return and on a panic alike.
      EndOnce(id);
    }

    method EndTracingSpansInterceptor(stack: seq<Interceptor>, codes: Codes, handler: Outcome, ctx: Context)
      returns (out: Outcome)
      requires stack != [] && stack[0].EndSpans?
      modifies this
      ensures (View(), out) == Exec(stack, codes, handler, ctx, old(View()))
      decreases |stack|, 0
    {
      out := Handle(stack[1..], codes, handler, ctx);
      if out.Panicked? {
        return;
      }
      if ctx.endState.Some? {
        if !ctx.endState.value.owned {
          EndOnce(ctx.endState.value.span);
        }
      } else if ctx.span.Some? {
        Record(SpanEnd(ctx.span.value));
      }
    }
  }

  // ---------------------------------------------------------------- outcomes, apart from any telemetry

  /** The outcome of a chain: what the interceptors return, told without contexts, spans or events. */
  function OutcomeOf(stack: seq<Interceptor>, codes: Codes, handler: Outcome): Outcome {
    if stack == [] then handler
    else Passed(stack[0], codes, OutcomeOf(stack[1..], codes, handler))
  }

  lemma {:induction false} ExecOutcome(stack: seq<Interceptor>, codes: Codes, handler: Outcome, ctx: Context, s: State)
    ensures Exec(stack, codes, handler, ctx, s).1 == OutcomeOf(stack, codes, handler)
  {
    if stack != [] {
      if IsTracing(stack[0]) {
        ExecOutcome(stack[1..], codes, handler, OwnedContext(s.nextSpan), Start(s));
      } else {
        ExecOutcome(stack[1..], codes, handler, ctx, s);
      }
    }
  }

  /** An active telemetry interceptor never lets an error out that panics when it is stringified. */
  lemma TelemetryReturnsSafeErrors(stack: seq<Interceptor>, codes: Codes, handler: Outcome, ctx: Context, s: State)
    requires stack != [] && stack[0].Telemetry? && stack[0].mode != HttpChain.Off
    ensures var out := Exec(stack, codes, handler, ctx, s).1;
            out.Returned? && out.err.Some? ==> IsSafeToStringify(out.err.value)
  {
    ExecOutcome(stack, codes, handler, ctx, s);
    var out := OutcomeOf(stack[1..], codes, handler);
    if out.Returned? && out.err.Some? {
      NormalizedIsSafe(out.err.value);
    }
  }

  /** It raises a panic of its own exactly when it needs the status of an error whose lookup panics,
      although that error can be stringified. */
  lemma TelemetryPanicsIff(stack: seq<Interceptor>, codes: Codes, handler: Outcome, ctx: Context, s: State)
    requires stack != [] && stack[0].Telemetry?
    ensures var inner := OutcomeOf(stack[1..], codes, handler);
            Exec(stack, codes, handler, ctx, s).1.Panicked? <==>
            inner.Panicked? || (Asks(stack[0].mode, stack[0].metered) && codes.of(NormalizeError(inner.err)).None?)
  {
    ExecOutcome(stack, codes, handler, ctx, s);
  }

  // ---------------------------------------------------------------- the life of a server span

  /** What a span was described with before its end: nothing if what it covers panicked, or if looking up
      the status of the error that returned did. */
  datatype Report = Nothing | Reported(code: int, err: Option<Err>)

  datatype Phase = Unstarted | Open(report: Report) | Ended(report: Report) | Broken

  /** Started once, described at most once, then ended once; anything else is Broken. */
  function Advance(p: Phase, e: Event, id: nat): Phase {
    match e
    case SpanStart(i) => if i != id then p else if p == Unstarted then Open(Nothing) else Broken
    case SpanDescribed(i, c, err) =>
      if i != id then p else if p == Open(Nothing) then Open(Reported(c, err)) else Broken
    case SpanEnd(i) => if i != id then p else if p.Open? then Ended(p.report) else Broken
    case Duration(_) => p
  }

  function Life(log: seq<Event>, id: nat): Phase {
    if log == [] then Unstarted else Advance(Life(log[..|log|-1], id), log[|log|-1], id)
  }

  lemma LifeOfEmit(s: State, e: Event, id: nat)
    ensures Life(Emit(s, e).events, id) == Advance(Life(s.events, id), e, id)
  {
    assert (s.events + [e])[..|s.events|] == s.events;
  }

  lemma LifeOfEnd(s: State, ended: nat, id: nat)
    ensures Life(End(s, ended).events, id) ==
            if ended in s.fired then Life(s.events, id) else Advance(Life(s.events, id), SpanEnd(ended), id)
  {
    LifeOfEmit(s, SpanEnd(ended), id);
  }

  /** What a span must have been described with, told by what its interceptor did: the status of the
      error it returned, or nothing if it panicked. */
  function ReportOf(codes: Codes, own: Outcome): Report {
    if own.Panicked? then Nothing
    else match codes.of(own.err) case None => Nothing case Some(code) => Reported(code, own.err)
  }

  function Tracings(stack: seq<Interceptor>): nat {
    if stack == [] then 0 else (if IsTracing(stack[0]) then 1 else 0) + Tracings(stack[1..])
  }

  /** The span `EndTracingSpansInterceptor` would end under this context. */
  function Target(ctx: Context): Option<nat> {
    match ctx.endState
    case Some(state) => if state.owned then None else Some(state.span)
    case None => ctx.span
  }

  ghost predicate WellNumbered(s: State, ctx: Context) {
    && (Target(ctx).Some? ==> Target(ctx).value < s.nextSpan)
    && (forall id :: id in s.fired ==> id < s.nextSpan)
    && (forall id: nat :: id >= s.nextSpan ==> Life(s.events, id) == Unstarted)
  }

  lemma LifeAfterTracing(s: State, id: nat, codes: Codes, out: Outcome, metered: bool, other: nat)
    requires id !in s.fired && Life(s.events, id) == Open(Nothing)
    ensures var r := FinishTracing(s, id, codes, out, metered);
            && Life(r.events, other) ==
               (if other == id then Ended(ReportOf(codes, Passed(Telemetry(HttpChain.Tracing, metered), codes, out)))
                else Life(s.events, other))
            && r.nextSpan == s.nextSpan && r.fired == s.fired + {id}
  {
    hide Life, NormalizeError;
    LifeOfEnd(s, id, other);
    if out.Returned? && codes.of(NormalizeError(out.err)).Some? {
      var e := NormalizeError(out.err);
      var code := codes.of(e).value;
      var s1 := Emit(s, SpanDescribed(id, code, e));
      LifeOfEmit(s, SpanDescribed(id, code, e), other);
      LifeAfterMeasure(s1, metered, code, other);
      LifeOfEnd(Measure(s1, metered, code), id, other);
    }
  }

  lemma TracingsUpTo(stack: seq<Interceptor>, k: nat)
    requires 0 < k <= |stack|
    ensures Tracings(stack[..k]) == (if IsTracing(stack[0]) then 1 else 0) + Tracings(stack[1..][..k-1])
  {
    assert stack[..k][1..] == stack[1..][..k-1];
  }

  /** A span ender touches at most the span of the context. */
  lemma LifeAfterEnder(s: State, ctx: Context, id: nat)
    ensures var r := EndCurrent(s, ctx);
            && (Target(ctx) != Some(id) ==>
                 Life(r.events, id) == Life(s.events, id) && (id in r.fired <==> id in s.fired))
            && r.nextSpan == s.nextSpan && r.fired <= s.fired + (if Target(ctx).Some? then {Target(ctx).value} else {})
  {
    hide Life;
    if Target(ctx).Some? {
      LifeOfEnd(s, Target(ctx).value, id);
      LifeOfEmit(s, SpanEnd(Target(ctx).value), id);
    }
  }

  lemma LifeAfterMeasure(s: State, metered: bool, c: int, id: nat)
    ensures Life(Measure(s, metered, c).events, id) == Life(s.events, id)
  {
    LifeOfEmit(s, Duration(c), id);
  }

  /** It touches at most the span of its context. */
  lemma LifeAfterOther(i: Interceptor, codes: Codes, out: Outcome, ctx: Context, s: State, id: nat)
    ensures var r := AfterOther(i, codes, out, ctx, s);
            && (Target(ctx) != Some(id) ==>
                 Life(r.events, id) == Life(s.events, id) && (id in r.fired <==> id in s.fired))
            && r.nextSpan == s.nextSpan && r.fired <= s.fired + (if Target(ctx).Some? then {Target(ctx).value} else {})
  {
    hide Life, NormalizeError, EndCurrent;
    LifeAfterEnder(s, ctx, id);
    if out.Returned? && i.Telemetry? && codes.of(NormalizeError(out.err)).Some? {
      LifeAfterMeasure(s, Asks(i.mode, i.metered), codes.of(NormalizeError(out.err)).value, id);
    }
  }

  /** Each span started since `s` tells the outcome of what it covers; of the earlier ones, only the
      context's own may have changed. */
  ghost predicate Told(r: State, s: State, stack: seq<Interceptor>, codes: Codes, handler: Outcome, ctx: Context) {
    && r.nextSpan == s.nextSpan + Tracings(stack) && WellNumbered(r, ctx)
    && (forall k :: 0 <= k < |stack| && IsTracing(stack[k]) ==>
         Life(r.events, s.nextSpan + Tracings(stack[..k])) ==
         Ended(ReportOf(codes, OutcomeOf(stack[k..], codes, handler))))
    && (forall id: nat :: id < s.nextSpan && Target(ctx) != Some(id) ==>
         Life(r.events, id) == Life(s.events, id) && (id in r.fired <==> id in s.fired))
  }

  /** Whatever the stack, the handler and the application interceptors do, every span the chain starts
      is ended exactly once, by the interceptor that started it. What it was described with before that
      end is the status of exactly what that interceptor returned, and nothing if a panic crossed it or
      came of looking that status up.
      No other span is touched but the one the chain was entered with. */
  lemma {:induction false} EverySpanReportsItsOwnOutcome(stack: seq<Interceptor>, codes: Codes, handler: Outcome,
                                                         ctx: Context, s: State)
    requires WellNumbered(s, ctx)
    ensures Told(Exec(stack, codes, handler, ctx, s).0, s, stack, codes, handler, ctx)
  {
    if stack != [] {
      var rest := stack[1..];
      var tracing := IsTracing(stack[0]);
      var ctx' := if tracing then OwnedContext(s.nextSpan) else ctx;
      var s0 := if tracing then Start(s) else s;
      forall id: nat ensures Life(Start(s).events, id) == Advance(Life(s.events, id), SpanStart(s.nextSpan), id) {
        LifeOfEmit(s, SpanStart(s.nextSpan), id);
      }
      EverySpanReportsItsOwnOutcome(rest, codes, handler, ctx', s0);
      ExecOutcome(rest, codes, handler, ctx', s0);
      var (s1, out) := Exec(rest, codes, handler, ctx', s0);
      if tracing {
        TracingTold(stack, codes, handler, ctx, s, s1);
      } else {
        OtherTold(stack, codes, handler, ctx, s, s1);
      }
    }
  }

  lemma TracingTold(stack: seq<Interceptor>, codes: Codes, handler: Outcome, ctx: Context, s: State, s1: State)
    requires stack != [] && IsTracing(stack[0]) && WellNumbered(s, ctx)
    requires forall id: nat :: Life(Start(s).events, id) == Advance(Life(s.events, id), SpanStart(s.nextSpan), id)
    requires Told(s1, Start(s), stack[1..], codes, handler, OwnedContext(s.nextSpan))
    ensures Told(FinishTracing(s1, s.nextSpan, codes, OutcomeOf(stack[1..], codes, handler), stack[0].metered),
                 s, stack, codes, handler, ctx)
  {
    hide OutcomeOf, Life, FinishTracing, ReportOf, Passed;
    var id, inner := s.nextSpan, OutcomeOf(stack[1..], codes, handler);
    var own := OutcomeOf(stack, codes, handler);
    var r := FinishTracing(s1, id, codes, inner, stack[0].metered);
    OwnOutcome(stack, codes, handler);
    assert Life(s1.events, id) == Open(Nothing) && id !in s1.fired;
    LifeAfterTracing(s1, id, codes, inner, stack[0].metered, id);
    assert Life(r.events, id) == Ended(ReportOf(codes, own));
    forall other: nat ensures other != id ==> Life(r.events, other) == Life(s1.events, other) {
      LifeAfterTracing(s1, id, codes, inner, stack[0].metered, other);
    }
    forall k | 0 <= k < |stack| && IsTracing(stack[k])
      ensures Life(r.events, s.nextSpan + Tracings(stack[..k])) ==
              Ended(ReportOf(codes, OutcomeOf(stack[k..], codes, handler)))
    {
      if k > 0 {
        ShiftedSpan(stack, k, codes, handler);
      }
    }
  }

  lemma OwnOutcome(stack: seq<Interceptor>, codes: Codes, handler: Outcome)
    requires stack != [] && IsTracing(stack[0])
    ensures OutcomeOf(stack, codes, handler) ==
            Passed(Telemetry(HttpChain.Tracing, stack[0].metered), codes, OutcomeOf(stack[1..], codes, handler))
    ensures OutcomeOf(stack[0..], codes, handler) == OutcomeOf(stack, codes, handler)
  {
    assert stack[0..] == stack;
  }

  lemma ShiftedSpan(stack: seq<Interceptor>, k: nat, codes: Codes, handler: Outcome)
    requires 0 < k < |stack|
    ensures stack[1..][k-1] == stack[k]
    ensures OutcomeOf(stack[1..][k-1..], codes, handler) == OutcomeOf(stack[k..], codes, handler)
    ensures Tracings(stack[..k]) == (if IsTracing(stack[0]) then 1 else 0) + Tracings(stack[1..][..k-1])
  {
    TracingsUpTo(stack, k);
    assert stack[1..][k-1..] == stack[k..];
  }

  lemma OtherTold(stack: seq<Interceptor>, codes: Codes, handler: Outcome, ctx: Context, s: State, s1: State)
    requires stack != [] && !IsTracing(stack[0]) && WellNumbered(s, ctx)
    requires Told(s1, s, stack[1..], codes, handler, ctx)
    ensures Told(AfterOther(stack[0], codes, OutcomeOf(stack[1..], codes, handler), ctx, s1),
                 s, stack, codes, handler, ctx)
  {
    hide OutcomeOf, Life, ReportOf, AfterOther;
    var out := OutcomeOf(stack[1..], codes, handler);
    var r := AfterOther(stack[0], codes, out, ctx, s1);
    LifeAfterOther(stack[0], codes, out, ctx, s1, 0);
    forall id: nat
      ensures Target(ctx) != Some(id) ==>
                Life(r.events, id) == Life(s1.events, id) && (id in r.fired <==> id in s1.fired)
    {
      LifeAfterOther(stack[0], codes, out, ctx, s1, id);
    }
    forall k | 0 <= k < |stack| && IsTracing(stack[k])
      ensures Life(r.events, s.nextSpan + Tracings(stack[..k])) ==
              Ended(ReportOf(codes, OutcomeOf(stack[k..], codes, handler)))
    {
      ShiftedSpan(stack, k, codes, handler);
    }
  }

  /** In particular the span of the k-th interceptor tells what running the stack from that interceptor
      on returns, under any context and from any state. */
  lemma SpanTellsWhatIsReturned(stack: seq<Interceptor>, codes: Codes, handler: Outcome, ctx: Context, s: State, k: nat,
                                ctx': Context, s': State)
    requires WellNumbered(s, ctx) && k < |stack| && IsTracing(stack[k])
    ensures var r := Exec(stack, codes, handler, ctx, s).0;
            var own := Exec(stack[k..], codes, handler, ctx', s').1;
            Life(r.events, s.nextSpan + Tracings(stack[..k])) ==
            Ended(if own.Panicked? || codes.of(own.err).None? then Nothing
                  else Reported(codes.of(own.err).value, own.err))
  {
    EverySpanReportsItsOwnOutcome(stack, codes, handler, ctx, s);
    ExecOutcome(stack[k..], codes, handler, ctx', s');
  }

  // ---------------------------------------------------------------- what telemetry leaves of an outcome

  predicate IsActive(i: Interceptor) {
    i.Telemetry? && i.mode != HttpChain.Off
  }

  predicate CrossesActive(stack: seq<Interceptor>) {
    stack != [] && (IsActive(stack[0]) || CrossesActive(stack[1..]))
  }

  predicate HasNoApp(stack: seq<Interceptor>) {
    stack != [] ==> !stack[0].App? && HasNoApp(stack[1..])
  }

  lemma {:induction false} OutcomeWithoutApps(stack: seq<Interceptor>, codes: Codes, handler: Outcome)
    requires HasNoApp(stack)
    requires handler.Returned? ==> codes.of(NormalizeError(handler.err)).Some?
    ensures OutcomeOf(stack, codes, handler) ==
            if handler.Panicked? || handler.err.None? || IsSafeToStringify(handler.err.value) then handler
            else if CrossesActive(stack) then HttpChain.Returned(Some(UNKNOWN_STATUS))
            else handler
  {
    hide IsSafeToStringify;
    if handler.Returned? && handler.err.Some? {
      NormalizedIsSafe(handler.err.value);
    }
    if stack != [] {
      OutcomeWithoutApps(stack[1..], codes, handler);
    }
  }

  /** Telemetry and span enders, in any number and order, told by the handler alone: success and a panic
      come out as they are, and so does an error that can be stringified; any other comes out as the
      Unknown status if an active telemetry interceptor is crossed, and as it is if none is. */
  lemma TelemetryPassesTheOutcome(stack: seq<Interceptor>, codes: Codes, handler: Outcome, ctx: Context, s: State)
    requires HasNoApp(stack)
    requires handler.Returned? ==> codes.of(NormalizeError(handler.err)).Some?
    ensures Exec(stack, codes, handler, ctx, s).1 ==
            if handler.Panicked? || handler.err.None? || IsSafeToStringify(handler.err.value) then handler
            else if CrossesActive(stack) then HttpChain.Returned(Some(UNKNOWN_STATUS))
            else handler
  {
    ExecOutcome(stack, codes, handler, ctx, s);
    OutcomeWithoutApps(stack, codes, handler);
  }

  // ---------------------------------------------------------------- durations

  function Durations(log: seq<Event>): seq<int> {
    if log == [] then []
    else
      var rest, last := Durations(log[..|log|-1]), log[|log|-1];
      if last.Duration? then rest + [last.code] else rest
  }

  lemma DurationsOfEmit(s: State, e: Event)
    ensures Durations(Emit(s, e).events) == Durations(s.events) + (if e.Duration? then [e.code] else [])
  {
    assert (s.events + [e])[..|s.events|] == s.events;
  }

  /** One status for every active metered interceptor that returned, innermost first. */
  function MeasuredCodes(stack: seq<Interceptor>, codes: Codes, handler: Outcome): seq<int> {
    if stack == [] then []
    else
      var own := OutcomeOf(stack, codes, handler);
      MeasuredCodes(stack[1..], codes, handler) +
      (if IsActive(stack[0]) && stack[0].metered && own.Returned? && codes.of(own.err).Some?
       then [codes.of(own.err).value]
       else [])
  }

  /** Exactly those durations are recorded. */
  lemma {:induction false} DurationsAreMeasured(stack: seq<Interceptor>, codes: Codes, handler: Outcome, ctx: Context,
                                                s: State)
    ensures Durations(Exec(stack, codes, handler, ctx, s).0.events) ==
            Durations(s.events) + MeasuredCodes(stack, codes, handler)
  {
    hide Durations, NormalizeError;
    if stack != [] {
      var tracing := IsTracing(stack[0]);
      var ctx' := if tracing then OwnedContext(s.nextSpan) else ctx;
      var s0 := if tracing then Start(s) else s;
      DurationsAreMeasured(stack[1..], codes, handler, ctx', s0);
      ExecOutcome(stack[1..], codes, handler, ctx', s0);
      DurationsOfEmit(s, SpanStart(s.nextSpan));
      var (s1, out) := Exec(stack[1..], codes, handler, ctx', s0);
      var r := Exec(stack, codes, handler, ctx, s).0;
      if tracing {
        DurationsAfterTracing(s1, s.nextSpan, codes, out, stack[0].metered);
      } else {
        DurationsAfterOther(stack[0], codes, out, ctx, s1);
      }
    }
  }

  lemma DurationsAfterEnd(s: State, id: nat)
    ensures Durations(End(s, id).events) == Durations(s.events)
  {
    DurationsOfEmit(s, SpanEnd(id));
  }

  lemma DurationsAfterTracing(s: State, id: nat, codes: Codes, out: Outcome, metered: bool)
    ensures var own := Passed(Telemetry(HttpChain.Tracing, metered), codes, out);
            Durations(FinishTracing(s, id, codes, out, metered).events) ==
            Durations(s.events) +
            (if metered && own.Returned? && codes.of(own.err).Some? then [codes.of(own.err).value] else [])
  {
    hide Durations, NormalizeError;
    DurationsAfterEnd(s, id);
    if out.Returned? && codes.of(NormalizeError(out.err)).Some? {
      var e := NormalizeError(out.err);
      var code := codes.of(e).value;
      var s1 := Emit(s, SpanDescribed(id, code, e));
      DurationsOfEmit(s, SpanDescribed(id, code, e));
      DurationsOfEmit(s1, Duration(code));
      DurationsAfterEnd(Measure(s1, metered, code), id);
    }
  }

  lemma DurationsAfterOther(i: Interceptor, codes: Codes, out: Outcome, ctx: Context, s: State)
    requires !IsTracing(i)
    ensures var own := Passed(i, codes, out);
            Durations(AfterOther(i, codes, out, ctx, s).events) ==
            Durations(s.events) +
            (if IsActive(i) && i.metered && own.Returned? && codes.of(own.err).Some?
             then [codes.of(own.err).value]
             else [])
  {
    hide Durations, NormalizeError;
    if out.Returned? {
      if i.EndSpans? && Target(ctx).Some? {
        DurationsAfterEnd(s, Target(ctx).value);
        DurationsOfEmit(s, SpanEnd(Target(ctx).value));
      }
      if i.Telemetry? && codes.of(NormalizeError(out.err)).Some? {
        DurationsOfEmit(s, Duration(codes.of(NormalizeError(out.err)).value));
      }
    }
  }

  // ---------------------------------------------------------------- the span the chain was entered with

  function EndsOf(log: seq<Event>, id: nat): nat {
    if log == [] then 0 else EndsOf(log[..|log|-1], id) + (if log[|log|-1] == SpanEnd(id) then 1 else 0)
  }

  lemma EndsOfEmit(s: State, e: Event, id: nat)
    ensures EndsOf(Emit(s, e).events, id) == EndsOf(s.events, id) + (if e == SpanEnd(id) then 1 else 0)
  {
    assert (s.events + [e])[..|s.events|] == s.events;
  }

  /** The span enders above every tracing interceptor whose handler returned. */
  function OuterEnders(stack: seq<Interceptor>, codes: Codes, handler: Outcome): nat {
    if stack == [] || IsTracing(stack[0]) then 0
    else
      var ends := stack[0].EndSpans? && OutcomeOf(stack[1..], codes, handler).Returned?;
      (if ends then 1 else 0) + OuterEnders(stack[1..], codes, handler)
  }

  /** Under an owned context no span ender ends anything from outside. */
  lemma {:induction false} OwnedEndsNothingElse(stack: seq<Interceptor>, codes: Codes, handler: Outcome, ctx: Context,
                                                s: State, id: nat)
    requires Target(ctx).None? && id < s.nextSpan
    ensures var r := Exec(stack, codes, handler, ctx, s).0;
            EndsOf(r.events, id) == EndsOf(s.events, id) && s.nextSpan <= r.nextSpan
                && (id in r.fired <==> id in s.fired)
  {
    hide NormalizeError, EndsOf;
    if stack != [] {
      var tracing := IsTracing(stack[0]);
      var ctx' := if tracing then OwnedContext(s.nextSpan) else ctx;
      var s0 := if tracing then Start(s) else s;
      OwnedEndsNothingElse(stack[1..], codes, handler, ctx', s0, id);
      var (s1, out) := Exec(stack[1..], codes, handler, ctx', s0);
      EndsOfEmit(s, SpanStart(s.nextSpan), id);
      EndsOfEmit(s1, SpanEnd(s.nextSpan), id);
      if out.Returned? && stack[0].Telemetry? && codes.of(NormalizeError(out.err)).Some? {
        var e := NormalizeError(out.err);
        var code := codes.of(e).value;
        var s2 := if tracing then Emit(s1, SpanDescribed(s.nextSpan, code, e)) else s1;
        EndsOfEmit(s1, SpanDescribed(s.nextSpan, code, e), id);
        EndsOfEmit(s2, Duration(code), id);
        EndsOfEmit(Measure(s2, stack[0].metered, code), SpanEnd(s.nextSpan), id);
      }
    }
  }

  /** How often a span the chain was entered with is ended: never if an interceptor outside owns it; at
      most once, however many span enders run, if its end state travels with the context; but once per
      span ender whose handler returned if only the span does, since no once guards that path. */
  lemma {:induction false} EndsOfEnteredSpan(stack: seq<Interceptor>, codes: Codes, handler: Outcome, ctx: Context,
                                             s: State, id: nat)
    requires id < s.nextSpan && if ctx.endState.Some? then ctx.endState.value.span == id else ctx.span == Some(id)
    ensures var r := Exec(stack, codes, handler, ctx, s).0;
            var outer := OuterEnders(stack, codes, handler);
            var guarded := ctx.endState.Some?;
            && EndsOf(r.events, id) == EndsOf(s.events, id) +
                 (if !guarded then outer else if ctx.endState.value.owned || id in s.fired || outer == 0 then 0 else 1)
            && (id in r.fired <==> id in s.fired || (guarded && !ctx.endState.value.owned && outer > 0))
  {
    hide NormalizeError, EndsOf;
    if stack != [] {
      if IsTracing(stack[0]) {
        OwnedEndsNothingElse(stack, codes, handler, OwnedContext(id), s, id);
      } else {
        EndsOfEnteredSpan(stack[1..], codes, handler, ctx, s, id);
        ExecOutcome(stack[1..], codes, handler, ctx, s);
        var (s1, out) := Exec(stack[1..], codes, handler, ctx, s);
        EndsOfEmit(s1, SpanEnd(id), id);
        if out.Returned? && codes.of(NormalizeError(out.err)).Some? {
          EndsOfEmit(s1, Duration(codes.of(NormalizeError(out.err)).value), id);
        }
      }
    }
  }
}
