/** The Fiber middleware chain of `middleware/`: access logging, telemetry, span ending and error
    handling around an arbitrary handler, with Go's defer and recover order made explicit.

    Fiber itself is assumed: `Next` runs the rest of the stack on the same mutable request, and the
    application's ErrorHandler is any function of the error and the status so far, which may render,
    fail or panic. Everything below the library's middleware that can influence it is the outcome of
    the handler and what an application middleware makes of the outcome of its own `Next`. */
module HttpChain {
  import opened Wrappers
  import opened ErrorTree

  type PanicValue = nat

  datatype Outcome = Returned(err: Option<Err>) | Panicked(value: PanicValue)

  datatype Cause = NoCause | Because(err: Err) | BecausePanic(value: PanicValue)

  /** What the outside world sees a request do, in order. */
  datatype Event =
    | Active(verb: string, delta: int)
    | Duration(status: int)
    | SpanStart(id: nat)
    | SpanDescribed(id: nat, status: int, cause: Cause)
    | SpanFailed(id: nat, cause: Cause)
    | SpanEnd(id: nat)
    | AccessLine(status: int, cause: Cause)
    | ErrorHandlerRun(err: Err)
    | HandlerPanicReported
    | HandlerEntered
    | HandlerLeft
    | RogueDiscarded(err: Err)

  /** `httpResponseState`. */
  datatype Slot = Slot(originalErr: Option<Err>, statusCode: int, finalized: bool)

  /** Off: telemetry absent, the route excluded, or the request refused before routing. */
  datatype TelemetryMode = Off | MetricsOnly | Tracing

  datatype Middleware =
    | Logging(skipped: bool)
    | Telemetry(mode: TelemetryMode, metered: bool)
    | EndSpans
    | Finalizer
    | App(after: (Outcome, int) -> (Outcome, int))

  datatype Rendering = Rendered(status: int) | Failed(status: int) | Crashed(status: int, value: PanicValue)

  datatype Config = Config(
    verb: string,
    outcome: Outcome,
    handlerStatus: int,
    errorHandler: (Err, int) -> Rendering)

  /** A request as the middleware see it. `slots` holds the finalizer records in the order they were
      put on the shared context, so the one a context lookup finds is the last. */
  datatype State = State(
    status: int,
    slots: seq<Slot>,
    owned: bool,
    span: Option<nat>,
    nextSpan: nat,
    events: seq<Event>)

  // ---------------------------------------------------------------- one middleware's own steps

  function CauseOf(e: Option<Err>): Cause {
    match e case None => NoCause case Some(err) => Because(err)
  }

  function Emit(s: State, e: seq<Event>): State {
    s.(events := s.events + e)
  }

  lemma EmitTwice(s: State, a: seq<Event>, b: seq<Event>)
    ensures Emit(Emit(s, a), b) == Emit(s, a + b)
  {
    assert s.events + a + b == s.events + (a + b);
  }

  function When(b: bool, e: Event): seq<Event> {
    if b then [e] else []
  }

  datatype Resolution = Resolution(status: int, chainErr: Option<Err>, handlerErr: Option<Err>)

  predicate IsFinalized(s: State) {
    s.slots != [] && s.slots[|s.slots|-1].finalized
  }

  /** `resolveHTTPResponse`. */
  function Resolve(s: State, returned: Option<Err>): Resolution {
    if IsFinalized(s) then
      var slot := s.slots[|s.slots|-1];
      Resolution(slot.statusCode, None, slot.originalErr)
    else
      var norm := Normalize(returned);
      Resolution(if norm.None? then s.status else StatusOf(norm.value), norm, norm)
  }

  /** `diagnoseDiscardedRogueError`. */
  function Diagnosed(s: State, returned: Option<Err>): seq<Event> {
    if IsFinalized(s) && returned.Some? then [RogueDiscarded(returned.value)] else []
  }

  /** What the finalizer stores for telemetry: the raw error, or what a typed nil became. */
  function Original(raw: Option<Err>): Option<Err> {
    if raw.Some? && IsTypedNil(raw.value) then Normalize(raw) else raw
  }

  /** `invokeErrorHandlerSafely`: a handler that fails or panics leaves a plain 500. */
  function HandledStatus(cfg: Config, e: Err, status: int): int {
    match cfg.errorHandler(e, status)
    case Rendered(st) => st
    case _ => INTERNAL_SERVER_ERROR
  }

  function Handle(cfg: Config, e: Err, s: State): State {
    Emit(s.(status := HandledStatus(cfg, e, s.status)),
         [ErrorHandlerRun(e)] + When(cfg.errorHandler(e, s.status).Crashed?, HandlerPanicReported))
  }

  /** `endRequestSpan`. */
  function EndRequestSpan(s: State, cause: Cause): State {
    if s.owned || s.span.None? then s
    else Emit(s, When(cause != NoCause, SpanFailed(s.span.value, cause)) + [SpanEnd(s.span.value)])
  }

  /** What a middleware does before `Next`. */
  function Before(m: Middleware, cfg: Config, s: State): State {
    match m
    case Telemetry(MetricsOnly, metered) => Emit(s, When(metered, Active(cfg.verb, 1)))
    case Telemetry(Tracing, metered) =>
      Emit(s, When(metered, Active(cfg.verb, 1)) + [SpanStart(s.nextSpan)])
        .(owned := true, span := Some(s.nextSpan), nextSpan := s.nextSpan + 1)
    case Finalizer => s.(slots := s.slots + [Slot(None, 0, false)])
    case _ => s
  }

  /** What an observer makes of the outcome of its `Next`: a panic is reported as the 500 the recover
      middleware above will render, and passed on. */
  datatype Observation = Observation(status: int, cause: Cause, diagnosed: seq<Event>, out: Outcome)

  function Observe(s: State, out: Outcome): Observation {
    match out
    case Returned(e) =>
      var r := Resolve(s, e);
      Observation(r.status, CauseOf(r.handlerErr), Diagnosed(s, e), Returned(r.chainErr))
    case Panicked(v) => Observation(INTERNAL_SERVER_ERROR, BecausePanic(v), [], out)
  }

  function NormalizeOutcome(out: Outcome): Outcome {
    match out case Returned(e) => Returned(Normalize(e)) case Panicked(_) => out
  }

  /** What a middleware does once `Next` is over, having returned or panicked: `s0` is the request on
      entry, `s` the request after `Next`. Deferred steps come last, innermost defer first. */
  function After(m: Middleware, cfg: Config, s0: State, s: State, out: Outcome): (State, Outcome)
    requires |s.slots| >= |s0.slots| + (if m.Finalizer? then 1 else 0)
  {
    match m
    case Logging(skipped) =>
      if skipped then (s, NormalizeOutcome(out))
      else
        var o := Observe(s, out);
        (Emit(s, o.diagnosed + [AccessLine(o.status, o.cause)]), o.out)
    case Telemetry(mode, metered) =>
      if mode == Off then (s, NormalizeOutcome(out))
      else
        var o := Observe(s, out);
        (Emit(s, o.diagnosed
                 + When(mode == Tracing, SpanDescribed(s0.nextSpan, o.status, o.cause))
                 + When(metered, Duration(o.status))
                 + When(mode == Tracing, SpanEnd(s0.nextSpan))
                 + When(metered, Active(cfg.verb, -1))), o.out)
    case EndSpans =>
      (EndRequestSpan(s, if out.Panicked? then BecausePanic(out.value) else NoCause), NormalizeOutcome(out))
    case Finalizer =>
      if out.Panicked? then (s, out)
      else
        var norm := Normalize(out.err);
        var s1 := if norm.Some? then Handle(cfg, MakeSafe(norm.value), s) else s;
        (s1.(slots := s1.slots[|s0.slots| := Slot(Original(out.err), s1.status, true)]), Returned(None))
    case App(after) =>
      var (out', status) := after(out, s.status);
      (s.(status := status), out')
  }

  /** Nothing already in the log, and no slot, is ever taken away. */
  lemma LayerExtends(m: Middleware, cfg: Config, s0: State, s: State, out: Outcome)
    ensures var b := Before(m, cfg, s0);
            |b.slots| == |s0.slots| + (if m.Finalizer? then 1 else 0) && s0.events <= b.events
    ensures |s.slots| >= |s0.slots| + (if m.Finalizer? then 1 else 0) ==>
              var r := After(m, cfg, s0, s, out).0; |r.slots| == |s.slots| && s.events <= r.events
  {
    hide Observe, MakeSafe, Normalize;
  }

  /** The route's own handler, entered and, returning or panicking, left. */
  function Handler(cfg: Config, s: State): State {
    Emit(s.(status := cfg.handlerStatus), [HandlerEntered, HandlerLeft])
  }

  /** A whole chain: the meaning the methods of `Request` are proved against. */
  function Exec(stack: seq<Middleware>, cfg: Config, s: State): (r: (State, Outcome))
    ensures |r.0.slots| >= |s.slots| && s.events <= r.0.events
  {
    if stack == [] then (Handler(cfg, s), cfg.outcome)
    else
      hide Before, After;
      var s0 := Before(stack[0], cfg, s);
      var (s1, out) := Exec(stack[1..], cfg, s0);
      LayerExtends(stack[0], cfg, s, s1, out);
      After(stack[0], cfg, s, s1, out)
  }

  function ClosingEvents(mode: TelemetryMode, metered: bool, cfg: Config, id: nat, status: int,
                         cause: Cause): seq<Event> {
    When(mode == Tracing, SpanDescribed(id, status, cause)) + When(metered, Duration(status))
    + When(mode == Tracing, SpanEnd(id)) + When(metered, Active(cfg.verb, -1))
  }

  lemma RegroupClosing(front: seq<Event>, mode: TelemetryMode, metered: bool, cfg: Config, id: nat, status: int,
                       cause: Cause)
    ensures front + ClosingEvents(mode, metered, cfg, id, status, cause) ==
            front + When(mode == Tracing, SpanDescribed(id, status, cause)) + When(metered, Duration(status))
            + When(mode == Tracing, SpanEnd(id)) + When(metered, Active(cfg.verb, -1))
  {
  }

  // ---------------------------------------------------------------- the chain as it runs

  /** A `fiber.Ctx` together with the request context it carries. */
  class Request {
    var status: int
    var slots: seq<Slot>
    var owned: bool
    var span: Option<nat>
    var nextSpan: nat
    var events: seq<Event>

    constructor (status: int, span: Option<nat>, nextSpan: nat)
      ensures View() == State(status, [], false, span, nextSpan, [])
    {
      this.status, this.slots, this.owned := status, [], false;
      this.span, this.nextSpan, this.events := span, nextSpan, [];
    }

    function View(): State
      reads this
    {
      State(status, slots, owned, span, nextSpan, events)
    }

    method Record(e: Event)
      modifies this`events
      ensures events == old(events) + [e]
    {
      events := events + [e];
    }

    /** `c.Next()`. */
    method Next(stack: seq<Middleware>, cfg: Config) returns (out: Outcome)
      modifies this
      ensures (View(), out) == Exec(stack, cfg, old(View()))
      decreases |stack|, 1
    {
      if stack == [] {
        ghost var s := View();
        Record(HandlerEntered);
        status := cfg.handlerStatus;
        Record(HandlerLeft);
        assert events == s.events + [HandlerEntered, HandlerLeft];
        return cfg.outcome;
      }
      match stack[0]
      case Logging(skipped) => out := WithHTTPLogging(stack, cfg);
      case Telemetry(mode, metered) => out := WithTelemetry(stack, cfg);
      case EndSpans => out := EndTracingSpans(stack, cfg);
      case Finalizer => out := WithHTTPErrorHandling(stack, cfg);
      case App(after) =>
        out := Next(stack[1..], cfg);
        var o, st := after(out, status).0, after(out, status).1;
        out, status := o, st;
    }

    /** `resolveHTTPResponse`. */
    method ResolveHTTPResponse(returned: Option<Err>) returns (r: Resolution)
      modifies this`events
      ensures r == Resolve(old(View()), returned)
      ensures View() == Emit(old(View()), Diagnosed(old(View()), returned))
    {
      if slots != [] && slots[|slots|-1].finalized {
        if returned.Some? {
          Record(RogueDiscarded(returned.value));
        }
        return Resolution(slots[|slots|-1].statusCode, None, slots[|slots|-1].originalErr);
      }
      var norm := Normalize(returned);
      r := Resolution(if norm.None? then status else StatusOf(norm.value), norm, norm);
    }

    method WithHTTPLogging(stack: seq<Middleware>, cfg: Config) returns (out: Outcome)
      requires stack != [] && stack[0].Logging?
      modifies this
      ensures (View(), out) == Exec(stack, cfg, old(View()))
      decreases |stack|, 0
    {
      var skipped := stack[0].skipped;
      out := Next(stack[1..], cfg);
      match out
      case Returned(e) =>
        if skipped {
          return Returned(Normalize(e));
        }
        ghost var s := View();
        var r := ResolveHTTPResponse(e);
        Record(AccessLine(r.status, CauseOf(r.handlerErr)));
        EmitTwice(s, Diagnosed(s, e), [AccessLine(r.status, CauseOf(r.handlerErr))]);
        out := Returned(r.chainErr);
      case Panicked(v) =>
        if !skipped {
          Record(AccessLine(INTERNAL_SERVER_ERROR, BecausePanic(v)));
          assert [] + [AccessLine(INTERNAL_SERVER_ERROR, BecausePanic(v))] ==
                 [AccessLine(INTERNAL_SERVER_ERROR, BecausePanic(v))];
        }
    }

    method WithTelemetry(stack: seq<Middleware>, cfg: Config) returns (out: Outcome)
      requires stack != [] && stack[0].Telemetry?
      modifies this
      ensures (View(), out) == Exec(stack, cfg, old(View()))
      decreases |stack|, 0
    {
      var mode, metered := stack[0].mode, stack[0].metered;
      if mode == Off {
        out := Next(stack[1..], cfg);
        return if out.Returned? then Returned(Normalize(out.err)) else out;
      }
      ghost var s0 := View();
      var id := BeginTelemetry(mode, metered, cfg);
      out := Next(stack[1..], cfg);
      out := FinishTelemetry(mode, metered, cfg, id, out, s0);
    }

    /** Counts the request in, and starts and marks its span, before `Next`. */
    method BeginTelemetry(mode: TelemetryMode, metered: bool, cfg: Config) returns (id: nat)
      requires mode != Off
      modifies this
      ensures View() == Before(Telemetry(mode, metered), cfg, old(View())) && id == old(nextSpan)
    {
      ghost var s := View();
      id := nextSpan;
      if metered {
        Record(Active(cfg.verb, 1));
      }
      if mode == Tracing {
        EmitTwice(s, When(metered, Active(cfg.verb, 1)), [SpanStart(id)]);
        Record(SpanStart(id));
        owned, span, nextSpan := true, Some(id), id + 1;
      }
    }

    /** Runs after `Next` on a return, and deferred on a panic: finalize, then the deferred span end,
        then the deferred count out. */
    method FinishTelemetry(mode: TelemetryMode, metered: bool, cfg: Config, id: nat, out: Outcome, ghost s0: State)
      returns (out': Outcome)
      requires mode != Off && id == s0.nextSpan && |slots| >= |s0.slots|
      modifies this`events
      ensures (View(), out') == After(Telemetry(mode, metered), cfg, s0, old(View()), out)
    {
      hide Resolve, Diagnosed, IsFinalized;
      ghost var s := View();
      var status, cause := INTERNAL_SERVER_ERROR, NoCause;
      out' := out;
      match out {
        case Returned(e) =>
          var r := ResolveHTTPResponse(e);
          status, cause, out' := r.status, CauseOf(r.handlerErr), Returned(r.chainErr);
        case Panicked(v) =>
          cause := BecausePanic(v);
      }
      assert events == s.events + Observe(s, out).diagnosed;
      RecordClosing(mode, metered, cfg, id, status, cause);
      EmitTwice(s, Observe(s, out).diagnosed, ClosingEvents(mode, metered, cfg, id, status, cause));
      RegroupClosing(Observe(s, out).diagnosed, mode, metered, cfg, id, status, cause);
    }

    /** Describes the span, measures the request, then runs the deferred end and count-out. */
    method RecordClosing(mode: TelemetryMode, metered: bool, cfg: Config, id: nat, status: int, cause: Cause)
      modifies this`events
      ensures events == old(events) + ClosingEvents(mode, metered, cfg, id, status, cause)
    {
      if mode == Tracing {
        Record(SpanDescribed(id, status, cause));
      }
      if metered {
        Record(Duration(status));
      }
      if mode == Tracing {
        Record(SpanEnd(id));
      }
      if metered {
        Record(Active(cfg.verb, -1));
      }
    }

    method EndSpanOfRequest(cause: Cause)
      modifies this`events
      ensures View() == EndRequestSpan(old(View()), cause)
    {
      if !owned && span.Some? {
        if cause != NoCause {
          Record(SpanFailed(span.value, cause));
        }
        Record(SpanEnd(span.value));
      }
    }

    method EndTracingSpans(stack: seq<Middleware>, cfg: Config) returns (out: Outcome)
      requires stack != [] && stack[0].EndSpans?
      modifies this
      ensures (View(), out) == Exec(stack, cfg, old(View()))
      decreases |stack|, 0
    {
      out := Next(stack[1..], cfg);
      match out
      case Returned(e) =>
        EndSpanOfRequest(NoCause);
        out := Returned(Normalize(e));
      case Panicked(v) =>
        EndSpanOfRequest(BecausePanic(v));
    }

    method InvokeErrorHandlerSafely(e: Err, cfg: Config)
      modifies this`status, this`events
      ensures View() == Handle(cfg, e, old(View()))
    {
      Record(ErrorHandlerRun(e));
      match cfg.errorHandler(e, status)
      case Rendered(st) => status := st;
      case Failed(_) => status := INTERNAL_SERVER_ERROR;
      case Crashed(_, _) =>
        Record(HandlerPanicReported);
        status := INTERNAL_SERVER_ERROR;
    }

    method WithHTTPErrorHandling(stack: seq<Middleware>, cfg: Config) returns (out: Outcome)
      requires stack != [] && stack[0].Finalizer?
      modifies this
      ensures (View(), out) == Exec(stack, cfg, old(View()))
      decreases |stack|, 0
    {
      var mine := |slots|;
      slots := slots + [Slot(None, 0, false)];
      out := Next(stack[1..], cfg);
      if out.Panicked? {
        return;
      }
      var raw := out.err;
      var norm := Normalize(raw);
      if norm.Some? {
        InvokeErrorHandlerSafely(MakeSafe(norm.value), cfg);
      }
      slots := slots[mine := Slot(Original(raw), status, true)];
      out := Returned(None);
    }
  }
}
