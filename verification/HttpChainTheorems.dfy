/** What every chain of `HttpChain` guarantees, whatever its order, length and handler outcome. */
module HttpChainTheorems {
  import opened Wrappers
  import opened ErrorTree
  import opened HttpChain

  // ---------------------------------------------------------------- weights over an event log

  function Tally(log: seq<Event>, w: Event -> int): int {
    if log == [] then 0 else w(log[0]) + Tally(log[1..], w)
  }

  lemma {:induction false} TallyConcat(a: seq<Event>, b: seq<Event>, w: Event -> int)
    ensures Tally(a + b, w) == Tally(a, w) + Tally(b, w)
  {
    if a == [] {
      assert a + b == b;
    } else {
      assert (a + b)[1..] == a[1..] + b;
      TallyConcat(a[1..], b, w);
    }
  }

  lemma TallyOfPieces(log: seq<Event>, a: seq<Event>, b: seq<Event>, c: seq<Event>, d: seq<Event>, e: seq<Event>,
                      w: Event -> int)
    ensures Tally(log + (a + b + c + d + e), w) ==
            Tally(log, w) + Tally(a, w) + Tally(b, w) + Tally(c, w) + Tally(d, w) + Tally(e, w)
  {
    TallyConcat(log, a + b + c + d + e, w);
    TallyConcat(a + b + c + d, e, w);
    TallyConcat(a + b + c, d, w);
    TallyConcat(a + b, c, w);
    TallyConcat(a, b, w);
  }

  lemma TallyHandler(cfg: Config, s: State, w: Event -> int)
    ensures Tally(Handler(cfg, s).events, w) == Tally(s.events, w) + w(HandlerEntered) + w(HandlerLeft)
  {
    TallyConcat(s.events, [HandlerEntered, HandlerLeft], w);
    TallyConcat([HandlerEntered], [HandlerLeft], w);
    assert [HandlerEntered] + [HandlerLeft] == [HandlerEntered, HandlerLeft];
  }

  /** What one middleware adds to a tally before its `Next`, and after it. */
  function Opening(m: Middleware, cfg: Config, s: State, w: Event -> int): int {
    if m.Telemetry? && m.mode != Off then
      (if m.metered then w(Active(cfg.verb, 1)) else 0) + (if m.mode == Tracing then w(SpanStart(s.nextSpan)) else 0)
    else 0
  }

  lemma TallyBefore(m: Middleware, cfg: Config, s: State, w: Event -> int)
    ensures Tally(Before(m, cfg, s).events, w) == Tally(s.events, w) + Opening(m, cfg, s, w)
  {
    if m.Telemetry? && m.mode != Off {
      var a := When(m.metered, Active(cfg.verb, 1));
      var b := if m.mode == Tracing then [SpanStart(s.nextSpan)] else [];
      assert a + b + [] + [] + [] == a + b;
      assert m.mode == MetricsOnly ==> a + b == a;
      TallyOfPieces(s.events, a, b, [], [], [], w);
      assert Before(m, cfg, s).events == s.events + (a + b);
    }
  }

  function Closing(m: Middleware, cfg: Config, s0: State, s: State, out: Outcome, w: Event -> int): int {
    match m
    case Logging(skipped) =>
      if skipped then 0
      else
        var o := Observe(s, out);
        Tally(o.diagnosed, w) + w(AccessLine(o.status, o.cause))
    case Telemetry(mode, metered) =>
      if mode == Off then 0
      else
        var o := Observe(s, out);
        Tally(o.diagnosed, w)
        + (if mode == Tracing then w(SpanDescribed(s0.nextSpan, o.status, o.cause)) + w(SpanEnd(s0.nextSpan)) else 0)
        + (if metered then w(Duration(o.status)) + w(Active(cfg.verb, -1)) else 0)
    case EndSpans =>
      if s.owned || s.span.None? then 0
      else
        var id := s.span.value;
        (if out.Panicked? then w(SpanFailed(id, BecausePanic(out.value))) else 0) + w(SpanEnd(id))
    case Finalizer =>
      if out.Panicked? || Normalize(out.err).None? then 0
      else
        var e := MakeSafe(Normalize(out.err).value);
        w(ErrorHandlerRun(e)) + (if cfg.errorHandler(e, s.status).Crashed? then w(HandlerPanicReported) else 0)
    case App(_) => 0
  }

  lemma TallyAfterTelemetry(mode: TelemetryMode, metered: bool, cfg: Config, s0: State, s: State, out: Outcome,
                            w: Event -> int)
    requires mode != Off && |s.slots| >= |s0.slots|
    ensures var m := Telemetry(mode, metered);
            Tally(After(m, cfg, s0, s, out).0.events, w) == Tally(s.events, w) + Closing(m, cfg, s0, s, out, w)
  {
    hide Observe;
    var o := Observe(s, out);
    TallyOfPieces(s.events, o.diagnosed, When(mode == Tracing, SpanDescribed(s0.nextSpan, o.status, o.cause)),
                  When(metered, Duration(o.status)), When(mode == Tracing, SpanEnd(s0.nextSpan)),
                  When(metered, Active(cfg.verb, -1)), w);
  }

  lemma TallyAfter(m: Middleware, cfg: Config, s0: State, s: State, out: Outcome, w: Event -> int)
    requires |s.slots| >= |s0.slots| + (if m.Finalizer? then 1 else 0)
    ensures Tally(After(m, cfg, s0, s, out).0.events, w) == Tally(s.events, w) + Closing(m, cfg, s0, s, out, w)
  {
    hide Observe, MakeSafe, Normalize;
    var o := Observe(s, out);
    match m
    case Logging(_) =>
      TallyConcat(o.diagnosed, [AccessLine(o.status, o.cause)], w);
      TallyConcat(s.events, o.diagnosed + [AccessLine(o.status, o.cause)], w);
    case Telemetry(mode, metered) =>
      if mode != Off {
        TallyAfterTelemetry(mode, metered, cfg, s0, s, out, w);
      }
    case EndSpans =>
      if !s.owned && s.span.Some? {
        var cause := if out.Panicked? then BecausePanic(out.value) else NoCause;
        var failed := When(cause != NoCause, SpanFailed(s.span.value, cause));
        TallyConcat(failed, [SpanEnd(s.span.value)], w);
        TallyConcat(s.events, failed + [SpanEnd(s.span.value)], w);
      }
    case Finalizer =>
      if out.Returned? && Normalize(out.err).Some? {
        var e := MakeSafe(Normalize(out.err).value);
        var crash := When(cfg.errorHandler(e, s.status).Crashed?, HandlerPanicReported);
        TallyConcat([ErrorHandlerRun(e)], crash, w);
        TallyConcat(s.events, [ErrorHandlerRun(e)] + crash, w);
      }
    case App(_) =>
  }

  // ---------------------------------------------------------------- access lines and the active-request counter

  function AccessLineWeight(e: Event): int {
    if e.AccessLine? then 1 else 0
  }

  function HandlerRunWeight(e: Event): int {
    if e.ErrorHandlerRun? then 1 else 0
  }

  function ActiveWeight(e: Event): int {
    if e.Active? then e.delta else 0
  }

  function DurationWeight(e: Event): int {
    if e.Duration? then 1 else 0
  }

  function MeteredTelemetries(stack: seq<Middleware>): nat {
    if stack == [] then 0
    else
      var metered := stack[0].Telemetry? && stack[0].mode != Off && stack[0].metered;
      (if metered then 1 else 0) + MeteredTelemetries(stack[1..])
  }

  function ActiveLoggings(stack: seq<Middleware>): nat {
    if stack == [] then 0 else (if stack[0].Logging? && !stack[0].skipped then 1 else 0) + ActiveLoggings(stack[1..])
  }

  lemma LayerWeights(m: Middleware, cfg: Config, s0: State, s: State, out: Outcome)
    ensures Opening(m, cfg, s0, AccessLineWeight) + Closing(m, cfg, s0, s, out, AccessLineWeight)
            == if m.Logging? && !m.skipped then 1 else 0
    ensures Opening(m, cfg, s0, ActiveWeight) + Closing(m, cfg, s0, s, out, ActiveWeight) == 0
    ensures Opening(m, cfg, s0, DurationWeight) + Closing(m, cfg, s0, s, out, DurationWeight)
            == if m.Telemetry? && m.mode != Off && m.metered then 1 else 0
  {
    var log := Observe(s, out).diagnosed;
    assert Tally(log, DurationWeight) == 0;
    assert Tally(log, AccessLineWeight) == 0;
    assert Tally(log, ActiveWeight) == 0;
  }

  /** Every logging middleware that is not skipped writes exactly one access line and every metered
      telemetry middleware measures exactly one duration, whether the chain below it returns or panics;
      and every count-in is matched by a count-out. */
  lemma {:induction false} OneAccessLineEachAndCounterBalanced(stack: seq<Middleware>, cfg: Config, s: State)
    ensures var r := Exec(stack, cfg, s).0;
            && Tally(r.events, AccessLineWeight) == Tally(s.events, AccessLineWeight) + ActiveLoggings(stack)
            && Tally(r.events, DurationWeight) == Tally(s.events, DurationWeight) + MeteredTelemetries(stack)
            && Tally(r.events, ActiveWeight) == Tally(s.events, ActiveWeight)
  {
    if stack == [] {
      TallyHandler(cfg, s, DurationWeight);
      TallyHandler(cfg, s, AccessLineWeight);
      TallyHandler(cfg, s, ActiveWeight);
    } else {
      var s0 := Before(stack[0], cfg, s);
      var (s1, out) := Exec(stack[1..], cfg, s0);
      OneAccessLineEachAndCounterBalanced(stack[1..], cfg, s0);
      TallyBefore(stack[0], cfg, s, AccessLineWeight);
      TallyAfter(stack[0], cfg, s, s1, out, AccessLineWeight);
      TallyBefore(stack[0], cfg, s, DurationWeight);
      TallyAfter(stack[0], cfg, s, s1, out, DurationWeight);
      TallyBefore(stack[0], cfg, s, ActiveWeight);
      TallyAfter(stack[0], cfg, s, s1, out, ActiveWeight);
      LayerWeights(stack[0], cfg, s, s1, out);
    }
  }

  // ---------------------------------------------------------------- the life of a server span

  datatype Phase = Unstarted | Open | Finalized | Ended | Broken

  /** One span's life: started, described with its route and status, ended; anything else is Broken. */
  function Advance(p: Phase, e: Event, id: nat): Phase {
    match e
    case SpanStart(i) => if i != id then p else if p == Unstarted then Open else Broken
    case SpanDescribed(i, _, _) => if i != id then p else if p == Open then Finalized else Broken
    case SpanFailed(i, _) => if i != id then p else if p == Open then Open else Broken
    case SpanEnd(i) => if i != id then p else if p == Finalized then Ended else Broken
    case _ => p
  }

  function Life(p: Phase, log: seq<Event>, id: nat): Phase
    decreases |log|
  {
    if log == [] then p else Life(Advance(p, log[0], id), log[1..], id)
  }

  lemma {:induction false} LifeConcat(p: Phase, a: seq<Event>, b: seq<Event>, id: nat)
    ensures Life(p, a + b, id) == Life(Life(p, a, id), b, id)
    decreases |a|
  {
    if a == [] {
      assert a + b == b;
    } else {
      assert (a + b)[1..] == a[1..] + b;
      LifeConcat(Advance(p, a[0], id), a[1..], b, id);
    }
  }

  lemma LifeOfPieces(p: Phase, log: seq<Event>, a: seq<Event>, b: seq<Event>, c: seq<Event>, d: seq<Event>,
                     e: seq<Event>, id: nat)
    ensures Life(p, log + (a + b + c + d + e), id) ==
            Life(Life(Life(Life(Life(Life(p, log, id), a, id), b, id), c, id), d, id), e, id)
  {
    LifeConcat(p, log, a + b + c + d + e, id);
    var q := Life(p, log, id);
    LifeConcat(q, a + b + c + d, e, id);
    LifeConcat(q, a + b + c, d, id);
    LifeConcat(q, a + b, c, id);
    LifeConcat(q, a, b, id);
  }

  function LifeIn(s: State, id: nat): Phase {
    Life(Unstarted, s.events, id)
  }

  lemma LifeHandler(cfg: Config, s: State, id: nat)
    ensures LifeIn(Handler(cfg, s), id) == LifeIn(s, id)
  {
    LifeConcat(Unstarted, s.events, [HandlerEntered, HandlerLeft], id);
  }

  lemma LifeBefore(m: Middleware, cfg: Config, s: State, id: nat)
    ensures LifeIn(Before(m, cfg, s), id) ==
            if m.Telemetry? && m.mode == Tracing && id == s.nextSpan then Advance(LifeIn(s, id), SpanStart(id), id)
            else LifeIn(s, id)
  {
    if m.Telemetry? && m.mode != Off {
      var a := When(m.metered, Active(cfg.verb, 1));
      LifeConcat(LifeIn(s, id), a, [SpanStart(s.nextSpan)], id);
      LifeConcat(Unstarted, s.events, a, id);
      LifeConcat(Unstarted, s.events, a + [SpanStart(s.nextSpan)], id);
    }
  }

  lemma LifeOfOne(p: Phase, b: bool, e: Event, id: nat)
    ensures Life(p, When(b, e), id) == if b then Advance(p, e, id) else p
  {
  }

  lemma LifeAfterTelemetry(mode: TelemetryMode, metered: bool, cfg: Config, s0: State, s: State, out: Outcome, id: nat)
    requires mode != Off && |s.slots| >= |s0.slots|
    ensures LifeIn(After(Telemetry(mode, metered), cfg, s0, s, out).0, id) ==
            if mode == Tracing && id == s0.nextSpan then (match LifeIn(s, id) case Open => Ended case _ => Broken)
            else LifeIn(s, id)
  {
    var o := Observe(s, out);
    var described, ended := SpanDescribed(s0.nextSpan, o.status, o.cause), SpanEnd(s0.nextSpan);
    LifeOfPieces(Unstarted, s.events, o.diagnosed, When(mode == Tracing, described),
                 When(metered, Duration(o.status)), When(mode == Tracing, ended),
                 When(metered, Active(cfg.verb, -1)), id);
    var p := LifeIn(s, id);
    assert Life(p, o.diagnosed, id) == p;
    LifeOfOne(p, mode == Tracing, described, id);
    var q := Life(p, When(mode == Tracing, described), id);
    LifeOfOne(q, metered, Duration(o.status), id);
    LifeOfOne(q, mode == Tracing, ended, id);
    LifeOfOne(Life(q, When(mode == Tracing, ended), id), metered, Active(cfg.verb, -1), id);
  }

  /** After `Next`, a telemetry middleware finalizes and ends the span it started and touches no other;
      every other middleware leaves all spans of an owned request alone. */
  lemma LifeAfter(m: Middleware, cfg: Config, s0: State, s: State, out: Outcome, id: nat)
    requires |s.slots| >= |s0.slots| + (if m.Finalizer? then 1 else 0)
    requires s.owned || !m.EndSpans?
    ensures LifeIn(After(m, cfg, s0, s, out).0, id) ==
            if m.Telemetry? && m.mode == Tracing && id == s0.nextSpan then
              (match LifeIn(s, id) case Open => Ended case _ => Broken)
            else LifeIn(s, id)
  {
    var p := LifeIn(s, id);
    match m
    case Logging(_) =>
      var o := Observe(s, out);
      LifeConcat(p, o.diagnosed, [AccessLine(o.status, o.cause)], id);
      LifeConcat(Unstarted, s.events, o.diagnosed + [AccessLine(o.status, o.cause)], id);
    case Telemetry(mode, metered) =>
      if mode != Off {
        LifeAfterTelemetry(mode, metered, cfg, s0, s, out, id);
      }
    case EndSpans =>
    case Finalizer =>
      if out.Returned? && Normalize(out.err).Some? {
        var e := MakeSafe(Normalize(out.err).value);
        var crash := When(cfg.errorHandler(e, s.status).Crashed?, HandlerPanicReported);
        LifeConcat(p, [ErrorHandlerRun(e)], crash, id);
        LifeConcat(Unstarted, s.events, [ErrorHandlerRun(e)] + crash, id);
      }
    case App(_) =>
  }

  function Tracings(stack: seq<Middleware>): nat {
    if stack == [] then 0
    else (if stack[0].Telemetry? && stack[0].mode == Tracing then 1 else 0) + Tracings(stack[1..])
  }

  /** With a tracing telemetry middleware anywhere in the stack, and any number of span-ending
      middleware on either side of it, every span the chain starts is described and then ended exactly
      once, and no span from outside is touched, for every handler outcome. */
  lemma {:induction false} EverySpanIsDescribedThenEndedOnce(stack: seq<Middleware>, cfg: Config, s: State)
    requires s.owned || Tracings(stack) > 0
    requires forall id: nat :: id >= s.nextSpan ==> LifeIn(s, id) == Unstarted
    ensures var r := Exec(stack, cfg, s).0;
            && r.owned
            && r.nextSpan == s.nextSpan + Tracings(stack)
            && (forall id: nat :: s.nextSpan <= id < r.nextSpan ==> LifeIn(r, id) == Ended)
            && (forall id: nat :: id < s.nextSpan || id >= r.nextSpan ==> LifeIn(r, id) == LifeIn(s, id))
  {
    if stack == [] {
      forall id: nat ensures LifeIn(Handler(cfg, s), id) == LifeIn(s, id) {
        LifeHandler(cfg, s, id);
      }
    } else {
      var m := stack[0];
      var s0 := Before(m, cfg, s);
      var (s1, out) := Exec(stack[1..], cfg, s0);
      forall id: nat
        ensures LifeIn(s0, id) == if m.Telemetry? && m.mode == Tracing && id == s.nextSpan then Open else LifeIn(s, id)
      {
        LifeBefore(m, cfg, s, id);
      }
      EverySpanIsDescribedThenEndedOnce(stack[1..], cfg, s0);
      var r := After(m, cfg, s, s1, out).0;
      forall id: nat
        ensures LifeIn(r, id) == if m.Telemetry? && m.mode == Tracing && id == s.nextSpan then Ended else LifeIn(s1, id)
      {
        LifeAfter(m, cfg, s, s1, out, id);
      }
    }
  }

  // ---------------------------------------------------------------- what the observers report

  /** If `e` is a report of an observer, it reports this status and cause. */
  predicate Agrees(e: Event, status: int, cause: Cause) {
    match e
    case AccessLine(st, c) => st == status && c == cause
    case SpanDescribed(_, st, c) => st == status && c == cause
    case Duration(st) => st == status
    case _ => true
  }

  predicate ReportsSince(log: seq<Event>, n: nat, status: int, cause: Cause) {
    forall k :: n <= k < |log| ==> Agrees(log[k], status, cause)
  }

  lemma AgreeConcat(a: seq<Event>, b: seq<Event>, status: int, cause: Cause)
    requires ReportsSince(b, 0, status, cause)
    ensures ReportsSince(a + b, 0, status, cause) <==> ReportsSince(a, 0, status, cause)
  {
    hide Agrees;
    if ReportsSince(a + b, 0, status, cause) {
      assert forall k :: 0 <= k < |a| ==> (a + b)[k] == a[k];
    }
  }

  lemma ReportsExtend(log: seq<Event>, added: seq<Event>, n: nat, status: int, cause: Cause)
    requires n <= |log| && ReportsSince(log, n, status, cause)
    requires ReportsSince(added, 0, status, cause)
    ensures ReportsSince(log + added, n, status, cause)
  {
  }

  /** An observer whose `Next` ended as `Observe` says adds only reports that agree with it. */
  lemma ReportsAfter(m: Middleware, cfg: Config, s0: State, s: State, out: Outcome, n: nat, status: int, cause: Cause)
    requires |s.slots| >= |s0.slots| + (if m.Finalizer? then 1 else 0)
    requires n <= |s.events| && ReportsSince(s.events, n, status, cause)
    requires m.Logging? || m.Telemetry? ==> Observe(s, out).status == status && Observe(s, out).cause == cause
    ensures ReportsSince(After(m, cfg, s0, s, out).0.events, n, status, cause)
  {
    var o := Observe(s, out);
    match m
    case Logging(skipped) =>
      AgreeConcat(o.diagnosed, [AccessLine(o.status, o.cause)], status, cause);
      if !skipped {
        ReportsExtend(s.events, o.diagnosed + [AccessLine(o.status, o.cause)], n, status, cause);
      }
    case Telemetry(mode, metered) =>
      var described := When(mode == Tracing, SpanDescribed(s0.nextSpan, o.status, o.cause));
      var measured, ended, left := When(metered, Duration(o.status)), When(mode == Tracing, SpanEnd(s0.nextSpan)),
          When(metered, Active(cfg.verb, -1));
      AgreeConcat(o.diagnosed, described, status, cause);
      AgreeConcat(o.diagnosed + described, measured, status, cause);
      AgreeConcat(o.diagnosed + described + measured, ended, status, cause);
      AgreeConcat(o.diagnosed + described + measured + ended, left, status, cause);
      ReportsExtend(s.events, o.diagnosed + described + measured + ended + left, n, status, cause);
    case _ =>
  }

  lemma ReportsBefore(m: Middleware, cfg: Config, s: State, n: nat, status: int, cause: Cause)
    requires n <= |s.events| && ReportsSince(s.events, n, status, cause)
    ensures n <= |Before(m, cfg, s).events| && ReportsSince(Before(m, cfg, s).events, n, status, cause)
  {
  }

  ghost predicate PassesPanics(m: Middleware) {
    m.App? ==> forall v, st :: m.after(Panicked(v), st).0 == Panicked(v)
  }

  /** A panic no application middleware recovers leaves the whole stack with the very same value, and
      every observer it crosses reports a 500. */
  lemma {:induction false} PanicLeavesUnchanged(stack: seq<Middleware>, cfg: Config, s: State, n: nat)
    requires cfg.outcome.Panicked?
    requires forall m :: m in stack ==> PassesPanics(m)
    requires n <= |s.events| && ReportsSince(s.events, n, INTERNAL_SERVER_ERROR, BecausePanic(cfg.outcome.value))
    ensures var (r, out) := Exec(stack, cfg, s);
            && out == cfg.outcome
            && ReportsSince(r.events, n, INTERNAL_SERVER_ERROR, BecausePanic(cfg.outcome.value))
  {
    if stack != [] {
      var cause := BecausePanic(cfg.outcome.value);
      var s0 := Before(stack[0], cfg, s);
      ReportsBefore(stack[0], cfg, s, n, INTERNAL_SERVER_ERROR, cause);
      PanicLeavesUnchanged(stack[1..], cfg, s0, n);
      var (s1, out) := Exec(stack[1..], cfg, s0);
      ReportsAfter(stack[0], cfg, s, s1, out, n, INTERNAL_SERVER_ERROR, cause);
      assert PassesPanics(stack[0]);
    }
  }

  // ---------------------------------------------------------------- spans the chain was entered with

  function SpanEndWeight(id: nat): Event -> int {
    (e: Event) => if e == SpanEnd(id) then 1 else 0
  }

  function SpanEnders(stack: seq<Middleware>): nat {
    if stack == [] then 0 else (if stack[0].EndSpans? then 1 else 0) + SpanEnders(stack[1..])
  }

  lemma DiagnosisEndsNothing(s: State, out: Outcome, id: nat)
    ensures Tally(Observe(s, out).diagnosed, SpanEndWeight(id)) == 0
  {
  }

  lemma LayerSpanEnds(m: Middleware, cfg: Config, s0: State, s: State, out: Outcome, id: nat)
    requires s.span == Some(id) || s.owned
    ensures Opening(m, cfg, s0, SpanEndWeight(id)) == 0
    ensures Closing(m, cfg, s0, s, out, SpanEndWeight(id)) ==
            if (m.EndSpans? && !s.owned) || (m.Telemetry? && m.mode == Tracing && s0.nextSpan == id) then 1 else 0
  {
    hide Observe, Tally, MakeSafe, Normalize;
    DiagnosisEndsNothing(s, out, id);
  }

  /** How often a span the chain was entered with is ended: never once a telemetry middleware owns the
      request, above or below; otherwise once by every span ender, whatever the outcome. */
  lemma {:induction false} EndsOfEnteredSpan(stack: seq<Middleware>, cfg: Config, s: State, id: nat)
    requires (s.span == Some(id) || s.owned) && id < s.nextSpan
    ensures var r := Exec(stack, cfg, s).0;
            && Tally(r.events, SpanEndWeight(id)) == Tally(s.events, SpanEndWeight(id))
                                                     + (if s.owned || Tracings(stack) > 0 then 0 else SpanEnders(stack))
            && (r.span == Some(id) || r.owned) && (r.owned <==> s.owned || Tracings(stack) > 0)
  {
    if stack == [] {
      TallyHandler(cfg, s, SpanEndWeight(id));
    } else {
      var s0 := Before(stack[0], cfg, s);
      var (s1, out) := Exec(stack[1..], cfg, s0);
      EndsOfEnteredSpan(stack[1..], cfg, s0, id);
      TallyBefore(stack[0], cfg, s, SpanEndWeight(id));
      TallyAfter(stack[0], cfg, s, s1, out, SpanEndWeight(id));
      LayerSpanEnds(stack[0], cfg, s, s1, out, id);
    }
  }

  function SpanFailWeight(id: nat, v: PanicValue): Event -> int {
    (e: Event) => if e == SpanFailed(id, BecausePanic(v)) then 1 else 0
  }

  lemma DiagnosisFailsNothing(s: State, out: Outcome, id: nat, v: PanicValue)
    ensures Tally(Observe(s, out).diagnosed, SpanFailWeight(id, v)) == 0
  {
  }

  lemma LayerSpanFails(m: Middleware, cfg: Config, s0: State, s: State, out: Outcome, id: nat, v: PanicValue)
    requires s.span == Some(id) || s.owned
    ensures Opening(m, cfg, s0, SpanFailWeight(id, v)) == 0
    ensures Closing(m, cfg, s0, s, out, SpanFailWeight(id, v)) ==
            if m.EndSpans? && !s.owned && out == Panicked(v) then 1 else 0
  {
    hide Observe, Tally, MakeSafe, Normalize;
    DiagnosisFailsNothing(s, out, id, v);
  }

  /** Each of those ends is that of a failed span exactly when a panic crosses the span ender. */
  lemma {:induction false} FailsOfEnteredSpan(stack: seq<Middleware>, cfg: Config, s: State, id: nat, v: PanicValue)
    requires s.span == Some(id) && !s.owned && id < s.nextSpan && Tracings(stack) == 0
    requires forall m :: m in stack ==> !m.App?
    ensures var (r, out) := Exec(stack, cfg, s);
            && Tally(r.events, SpanFailWeight(id, v)) ==
               Tally(s.events, SpanFailWeight(id, v)) + (if cfg.outcome == Panicked(v) then SpanEnders(stack) else 0)
            && r.span == Some(id) && !r.owned
            && (cfg.outcome.Panicked? ==> out == cfg.outcome) && (cfg.outcome.Returned? ==> out.Returned?)
  {
    hide Tally, Opening, Closing, Observe;
    if stack == [] {
      TallyHandler(cfg, s, SpanFailWeight(id, v));
    } else {
      var s0 := Before(stack[0], cfg, s);
      var (s1, out) := Exec(stack[1..], cfg, s0);
      FailsOfEnteredSpan(stack[1..], cfg, s0, id, v);
      TallyBefore(stack[0], cfg, s, SpanFailWeight(id, v));
      TallyAfter(stack[0], cfg, s, s1, out, SpanFailWeight(id, v));
      LayerSpanFails(stack[0], cfg, s, s1, out, id, v);
      LayerOutcome(stack[0], cfg, s, s1, out);
    }
  }

  lemma LayerOutcome(m: Middleware, cfg: Config, s0: State, s: State, out: Outcome)
    requires !m.App? && |s.slots| >= |s0.slots| + (if m.Finalizer? then 1 else 0)
    ensures var (r, out') := After(m, cfg, s0, s, out);
            && (out.Panicked? ==> out' == out) && (out.Returned? ==> out'.Returned?)
            && r.span == s.span && r.owned == s.owned
  {
  }
}
